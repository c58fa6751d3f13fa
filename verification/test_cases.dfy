/**
  The expectations of the repository's test files, stated about the model. Two of
  them (`StaleMissingFromExpectation`, `StaleMissingPromptExpectation`) show that
  the library's behaviour does not meet what an out-of-date test expects.
*/
module TestCases {
  import opened Wrappers
  import opened JsValues
  import opened JsStrings
  import opened Email
  import opened Validation
  import opened Client

  /** `message.includes(expected)`: the match a test's `toThrow(expected)` makes. */
  predicate Contains(message: string, expected: string)
  {
    exists i | 0 <= i <= |message| - |expected| :: OccursAt(message, expected, i)
  }

  predicate OccursAt(message: string, expected: string, i: nat)
    requires i + |expected| <= |message|
  {
    message[i..i + |expected|] == expected
  }

  /** A string of `n` copies of 'a', as `'a'.repeat(n)`. */
  function Repeat(n: nat): (s: string)
    ensures |s| == n
  {
    seq(n, _ => 'a')
  }

  lemma ConstructorExamples()
    ensures NewClient(Obj([Prop("apiKey", Str("test-api-key"))]))
      == Ok(ContactedAI(Str("test-api-key"), Str(DEFAULT_BASE_URL), Num(DEFAULT_TIMEOUT_MS)))
    ensures NewClient(Obj([])) == Err(API_KEY_REQUIRED)
    ensures NewClient(Undefined) == Err(API_KEY_REQUIRED)
  {
  }

  /** A timeout of 0 is falsy, so it is replaced by the default. */
  lemma ZeroTimeoutDefaults(key: string)
    requires key != ""
    ensures NewClient(Obj([Prop("apiKey", Str(key)), Prop("timeout", Num(0))]))
      == Ok(ContactedAI(Str(key), Str(DEFAULT_BASE_URL), Num(DEFAULT_TIMEOUT_MS)))
  {
  }

  lemma SubjectExamples()
    ensures ValidateSubject(Undefined) == Fail(SUBJECT_REQUIRED)
    ensures ValidateSubject(Null) == Fail(SUBJECT_REQUIRED)
    ensures ValidateSubject(Num(123)) == Fail(SUBJECT_NOT_STRING)
    ensures ValidateSubject(Obj([])) == Fail(SUBJECT_NOT_STRING)
    ensures ValidateSubject(Arr([])) == Fail(SUBJECT_NOT_STRING)
    ensures ValidateSubject(Bool(true)) == Fail(SUBJECT_NOT_STRING)
    ensures ValidateSubject(Str("a")) == Fail(SUBJECT_TOO_SHORT)
    ensures ValidateSubject(Str("")) == Fail(SUBJECT_TOO_SHORT)
    ensures ValidateSubject(Str(Repeat(257))) == Fail(SUBJECT_TOO_LONG)
    ensures ValidateSubject(Str("Hi")) == Pass
    ensures ValidateSubject(Str("Hello there")) == Pass
    ensures ValidateSubject(Str("Meeting Tomorrow")) == Pass
    ensures ValidateSubject(Str("ab")) == Pass
    ensures ValidateSubject(Str(Repeat(256))) == Pass
  {
  }

  lemma PromptExamples()
    ensures ValidatePrompt(Undefined) == Fail(PROMPT_REQUIRED)
    ensures ValidatePrompt(Null) == Fail(PROMPT_REQUIRED)
    ensures ValidatePrompt(Num(123)) == Fail(PROMPT_NOT_STRING)
    ensures ValidatePrompt(Obj([])) == Fail(PROMPT_NOT_STRING)
    ensures ValidatePrompt(Str("short")) == Fail(PROMPT_TOO_SHORT)
    ensures ValidatePrompt(Str(Repeat(9))) == Fail(PROMPT_TOO_SHORT)
    ensures ValidatePrompt(Str(Repeat(10))) == Pass
    ensures ValidatePrompt(Str(Repeat(2000))) == Pass
    ensures ValidatePrompt(Str(Repeat(2001))) == Fail(PROMPT_TOO_LONG)
    ensures ValidatePrompt(Str("This is a valid prompt with enough characters")) == Pass
  {
  }

  lemma DataShapeExamples()
    ensures ValidateData(Undefined) == Pass
    ensures ValidateData(Null) == Pass
    ensures ValidateData(Str("string")) == Fail(DATA_NOT_OBJECT)
    ensures ValidateData(Arr([])) == Fail(DATA_NOT_OBJECT)
    ensures ValidateData(Num(123)) == Fail(DATA_NOT_OBJECT)
  {
  }

  lemma EmptyKeyExamples()
    ensures ValidateData(Obj([Prop("", Str("value"))])) == Fail(DATA_KEY_EMPTY)
    ensures ValidateData(Obj([Prop("   ", Str("value"))])) == Fail(DATA_KEY_EMPTY)
  {
    SingleKey("", Str("value"));
    SingleKey("   ", Str("value"));
    assert IsWs("   "[0]);
  }

  lemma SpacedKeyExample()
    ensures ValidateData(Obj([Prop("key with space", Str("value"))])) == Fail(DATA_KEY_SPACES)
  {
    var key := "key with space";
    assert IsWs(key[3]) && !IsWs(key[0]);
    SingleKey(key, Str("value"));
  }

  lemma TabbedKeyExample()
    ensures ValidateData(Obj([Prop("key\twith\ttab", Str("value"))])) == Fail(DATA_KEY_SPACES)
  {
    var key := "key\twith\ttab";
    assert IsWs(key[3]) && !IsWs(key[0]);
    SingleKey(key, Str("value"));
  }

  lemma ValidDataExample()
    ensures ValidateData(Obj([ Prop("name", Str("John Doe")), Prop("age", Num(30)),
                               Prop("active", Bool(true)), Prop("link", Str("https://example.com")) ])) == Pass
  {
    assert ValidKey("name") && ValidKey("age") && ValidKey("active") && ValidKey("link");
  }

  lemma MissingEmailExamples()
    ensures ValidateEmails(Str(""), Str("test@example.com")) == Fail(EMAILS_REQUIRED)
    ensures ValidateEmails(Str("test@example.com"), Str("")) == Fail(EMAILS_REQUIRED)
  {
  }

  lemma InvalidFromExample()
    ensures ValidateEmails(Str("invalid-email"), Str("test@example.com")) == Fail(FROM_INVALID)
  {
    RejectsAddressWithoutAt();
  }

  lemma InvalidToExample()
    ensures ValidateEmails(Str("test@example.com"), Str("invalid-email")) == Fail(TO_INVALID)
  {
    RejectsAddressWithoutAt();
    AcceptsPlainAddress();
    OnlyToInvalid("test@example.com", "invalid-email");
  }

  lemma OnlyToInvalid(from: string, to: string)
    requires from != "" && to != "" && IsValidEmail(from) && !IsValidEmail(to)
    ensures ValidateEmails(Str(from), Str(to)) == Fail(TO_INVALID)
  {
  }

  const VALID_PROMPT := "This is a valid prompt with enough characters"
  // Written as two literals so that the verifier can see the characters of a long string.
  const STALE_ADDRESSES_EXPECTATION := "Both \"from\" and \"to\" " + "addresses are required"

  /** A send request with the five fields in the order the tests write them. */
  function Options(from: JsValue, to: JsValue, subject: JsValue, prompt: JsValue, data: JsValue): JsValue
  {
    Obj([ Prop("from", from), Prop("to", to), Prop("subject", subject), Prop("prompt", prompt), Prop("data", data) ])
  }

  lemma OptionsFields(from: JsValue, to: JsValue, subject: JsValue, prompt: JsValue, data: JsValue)
    ensures var options := Options(from, to, subject, prompt, data);
      && Get(options, "from") == from && Get(options, "to") == to && Get(options, "subject") == subject
      && Get(options, "prompt") == prompt && Get(options, "data") == data
  {
    var props := Options(from, to, subject, prompt, data).props;
    assert Lookup(props, "from") == from;
    assert Lookup(props, "to") == to by { assert Lookup(props, "to") == Lookup(props[1..], "to"); }
    assert Lookup(props, "subject") == subject by {
      assert Lookup(props, "subject") == Lookup(props[1..], "subject") == Lookup(props[2..], "subject");
    }
    assert Lookup(props, "prompt") == prompt by {
      assert Lookup(props, "prompt") == Lookup(props[1..], "prompt") == Lookup(props[2..], "prompt")
        == Lookup(props[3..], "prompt");
    }
    assert Lookup(props, "data") == data by {
      assert "from"[0] != "data"[0];
      assert Lookup(props, "data") == Lookup(props[1..], "data") == Lookup(props[2..], "data")
        == Lookup(props[3..], "data") == Lookup(props[4..], "data");
    }
  }

  /** The two addresses of the repository's complete send request are valid. */
  lemma SenderAddress()
    ensures IsValidEmail("sender@example.com")
  {
    assert "sender@example.com" == "sender" + "@example.com";
    assert !HasWs("sender");
    AcceptsExampleComAddress("sender");
  }

  lemma ReceiverAddress()
    ensures IsValidEmail("receiver@example.com")
  {
    assert "receiver@example.com" == "receiver" + "@example.com";
    assert !HasWs("receiver");
    AcceptsExampleComAddress("receiver");
  }

  function ValidData(): JsValue
  {
    Obj([Prop("name", Str("John")), Prop("link", Str("https://example.com"))])
  }

  lemma ValidDataPasses()
    ensures ValidateData(ValidData()) == Pass
  {
    assert ValidKey("name") && ValidKey("link");
  }

  /**
    How a five-field request fares, given how each field fares on its own: the first
    failing check wins.
  */
  lemma OptionsOutcome(from: JsValue, to: JsValue, subject: JsValue, prompt: JsValue, data: JsValue)
    ensures ValidateSendOptions(Options(from, to, subject, prompt, data)) ==
      if ValidateEmails(from, to).Fail? then ValidateEmails(from, to)
      else if ValidateSubject(subject).Fail? then ValidateSubject(subject)
      else if ValidatePrompt(prompt).Fail? then ValidatePrompt(prompt)
      else ValidateData(data)
  {
    OptionsFields(from, to, subject, prompt, data);
    ValidateSendOptionsPrecedence(Options(from, to, subject, prompt, data));
  }

  lemma ValidAddresses(from: string, to: string)
    requires IsValidEmail(from) && IsValidEmail(to) && from != "" && to != ""
    ensures ValidateEmails(Str(from), Str(to)) == Pass
  {
  }

  /** The complete send request of the tests passes. */
  lemma ValidOptionsPass()
    ensures ValidateSendOptions(Options(Str("sender@example.com"), Str("receiver@example.com"),
      Str("Meeting Tomorrow"), Str(VALID_PROMPT), ValidData())) == Pass
  {
    SenderAddress();
    ReceiverAddress();
    ValidAddresses("sender@example.com", "receiver@example.com");
    ValidDataPasses();
    OptionsOutcome(Str("sender@example.com"), Str("receiver@example.com"), Str("Meeting Tomorrow"), Str(VALID_PROMPT), ValidData());
  }

  /** It passes without its data as well. */
  lemma ValidOptionsWithoutDataPass()
    ensures ValidateSendOptions(Options(Str("sender@example.com"), Str("receiver@example.com"),
      Str("Meeting Tomorrow"), Str(VALID_PROMPT), Undefined)) == Pass
  {
    SenderAddress();
    ReceiverAddress();
    ValidAddresses("sender@example.com", "receiver@example.com");
    OptionsOutcome(Str("sender@example.com"), Str("receiver@example.com"), Str("Meeting Tomorrow"), Str(VALID_PROMPT), Undefined);
  }

  /** A subject at either length bound is accepted in the complete request. */
  lemma SubjectBoundsAccepted()
    ensures ValidateSendOptions(Options(Str("sender@example.com"), Str("receiver@example.com"),
      Str("Hi"), Str(VALID_PROMPT), ValidData())) == Pass
    ensures ValidateSendOptions(Options(Str("sender@example.com"), Str("receiver@example.com"),
      Str(Repeat(256)), Str(VALID_PROMPT), ValidData())) == Pass
  {
    SubjectAccepted(Str("Hi"));
    SubjectAccepted(Str(Repeat(256)));
  }

  lemma SubjectAccepted(subject: JsValue)
    requires ValidateSubject(subject).Pass?
    ensures ValidateSendOptions(Options(Str("sender@example.com"), Str("receiver@example.com"),
      subject, Str(VALID_PROMPT), ValidData())) == Pass
  {
    SenderAddress();
    ReceiverAddress();
    ValidAddresses("sender@example.com", "receiver@example.com");
    ValidDataPasses();
    OptionsOutcome(Str("sender@example.com"), Str("receiver@example.com"), subject, Str(VALID_PROMPT), ValidData());
  }

  /**
    A subject of the wrong type or length in the complete request is reported with
    the subject's own message.
  */
  lemma SubjectErrorReported(subject: JsValue)
    requires ValidateSubject(subject).Fail?
    ensures ValidateSendOptions(Options(Str("sender@example.com"), Str("receiver@example.com"),
      subject, Str(VALID_PROMPT), ValidData())) == ValidateSubject(subject)
  {
    SenderAddress();
    ReceiverAddress();
    ValidAddresses("sender@example.com", "receiver@example.com");
    OptionsOutcome(Str("sender@example.com"), Str("receiver@example.com"), subject, Str(VALID_PROMPT), ValidData());
  }

  lemma SendOptionsExamples()
    ensures ValidateSendOptions(Options(Str("sender@example.com"), Str("receiver@example.com"),
      Num(123), Str(VALID_PROMPT), ValidData())) == Fail(SUBJECT_NOT_STRING)
    ensures ValidateSendOptions(Options(Str("sender@example.com"), Str("receiver@example.com"),
      Str("a"), Str(VALID_PROMPT), ValidData())) == Fail(SUBJECT_TOO_SHORT)
    ensures ValidateSendOptions(Options(Str("sender@example.com"), Str("receiver@example.com"),
      Str(Repeat(257)), Str(VALID_PROMPT), ValidData())) == Fail(SUBJECT_TOO_LONG)
    ensures ValidateSendOptions(Options(Str("sender@example.com"), Str("receiver@example.com"),
      Undefined, Str(VALID_PROMPT), ValidData())) == Fail(SUBJECT_REQUIRED)
  {
    SubjectErrorReported(Num(123));
    SubjectErrorReported(Str("a"));
    SubjectErrorReported(Str(Repeat(257)));
    SubjectErrorReported(Undefined);
  }

  lemma InvalidFromReported()
    ensures ValidateSendOptions(Options(Str("invalid-email"), Str("receiver@example.com"),
      Str("Meeting Tomorrow"), Str(VALID_PROMPT), ValidData())) == Fail(FROM_INVALID)
  {
    RejectsAddressWithoutAt();
    OnlyFromInvalid("invalid-email", "receiver@example.com");
    OptionsOutcome(Str("invalid-email"), Str("receiver@example.com"), Str("Meeting Tomorrow"), Str(VALID_PROMPT), ValidData());
  }

  lemma OnlyFromInvalid(from: string, to: string)
    requires from != "" && to != "" && !IsValidEmail(from)
    ensures ValidateEmails(Str(from), Str(to)) == Fail(FROM_INVALID)
  {
  }

  lemma ShortPromptReported()
    ensures ValidateSendOptions(Options(Str("sender@example.com"), Str("receiver@example.com"),
      Str("Meeting Tomorrow"), Str("short"), ValidData())) == Fail(PROMPT_TOO_SHORT)
  {
    SenderAddress();
    ReceiverAddress();
    ValidAddresses("sender@example.com", "receiver@example.com");
    OptionsOutcome(Str("sender@example.com"), Str("receiver@example.com"), Str("Meeting Tomorrow"), Str("short"), ValidData());
  }

  lemma SpacedDataKeyReported()
    ensures ValidateSendOptions(Options(Str("sender@example.com"), Str("receiver@example.com"),
      Str("Meeting Tomorrow"), Str(VALID_PROMPT), Obj([Prop("key with space", Str("value"))]))) == Fail(DATA_KEY_SPACES)
  {
    SenderAddress();
    ReceiverAddress();
    ValidAddresses("sender@example.com", "receiver@example.com");
    SpacedKeyExample();
    OptionsOutcome(Str("sender@example.com"), Str("receiver@example.com"), Str("Meeting Tomorrow"), Str(VALID_PROMPT),
      Obj([Prop("key with space", Str("value"))]));
  }

  /** The expected text of the first stale test does not occur in the message the library throws. */
  lemma StaleAddressesText()
    ensures !Contains(EMAILS_REQUIRED, STALE_ADDRESSES_EXPECTATION)
  {
    var s := EMAILS_REQUIRED;
    var t := STALE_ADDRESSES_EXPECTATION;
    forall i | 0 <= i <= |s| - |t| ensures !OccursAt(s, t, i) {
      if i == 0 {
        assert s[21] == 'e' && t[21] == 'a';
        assert s[i..i + |t|][21] != t[21];
      } else {
        assert s[i] != 'B';
        assert s[i..i + |t|][0] != t[0];
      }
    }
  }

  /** A request that validation refuses is answered with the validation error and issues nothing. */
  lemma RefusedSend(client: ContactedAI, options: JsValue, exchange: Request -> Outcome, message: string)
    requires ValidateSendOptions(options) == Fail(message)
    ensures Send(client, options, exchange) == Call([], Err(message))
  {
  }

  lemma MissingFromRefused(options: JsValue)
    requires options.Obj? && Get(options, "from") == Undefined
    ensures ValidateSendOptions(options) == Fail(EMAILS_REQUIRED)
  {
    ValidateSendOptionsPrecedence(options);
  }

  lemma MissingSubjectRefused(options: JsValue)
    requires options.Obj? && Get(options, "subject") == Undefined
    requires ValidateEmails(Get(options, "from"), Get(options, "to")).Pass?
    ensures ValidateSendOptions(options) == Fail(SUBJECT_REQUIRED)
  {
    ValidateSendOptionsPrecedence(options);
  }

  /**
    test/basic-usage.js expects a request without "from" to fail with a message the
    library never throws: the actual message does not contain the expected text.
  */
  lemma StaleMissingFromExpectation(client: ContactedAI, exchange: Request -> Outcome)
    ensures var c := Send(client, Obj([Prop("to", Str("test@example.com")), Prop("prompt", Str("test"))]), exchange);
      c.issued == [] && c.result == Err(EMAILS_REQUIRED)
    ensures !Contains(EMAILS_REQUIRED, STALE_ADDRESSES_EXPECTATION)
  {
    var options := Obj([Prop("to", Str("test@example.com")), Prop("prompt", Str("test"))]);
    assert Get(options, "from") == Undefined;
    MissingFromRefused(options);
    RefusedSend(client, options, exchange, EMAILS_REQUIRED);
    StaleAddressesText();
  }

  lemma StalePromptText()
    ensures !Contains(SUBJECT_REQUIRED, PROMPT_REQUIRED)
  {
    var s := SUBJECT_REQUIRED;
    var t := PROMPT_REQUIRED;
    forall i | 0 <= i <= |s| - |t| ensures !OccursAt(s, t, i) {
      assert s[i] != 'P';
      assert s[i..i + |t|][0] != t[0];
    }
  }

  /**
    test/basic-usage.js expects a request without subject and prompt to report the
    prompt; the subject is checked first, and its message does not contain the
    expected text.
  */
  lemma StaleMissingPromptExpectation(client: ContactedAI, exchange: Request -> Outcome)
    ensures var c := Send(client, Obj([Prop("from", Str("sender@example.com")), Prop("to", Str("receiver@example.com"))]), exchange);
      c.issued == [] && c.result == Err(SUBJECT_REQUIRED)
    ensures !Contains(SUBJECT_REQUIRED, PROMPT_REQUIRED)
  {
    var props := [Prop("from", Str("sender@example.com")), Prop("to", Str("receiver@example.com"))];
    LookupAt(props, "from", 0);
    LookupAt(props, "to", 1);
    SenderAddress();
    ReceiverAddress();
    ValidAddresses("sender@example.com", "receiver@example.com");
    assert Get(Obj(props), "subject") == Undefined;
    MissingSubjectRefused(Obj(props));
    RefusedSend(client, Obj(props), exchange, SUBJECT_REQUIRED);
    StalePromptText();
  }

  /** The request of examples/basic-usage.js: addresses, prompt and data, but no subject. */
  function ExampleScriptOptions(prompt: JsValue, data: JsValue): JsValue
  {
    Obj([ Prop("from", Str("sender@example.com")), Prop("to", Str("receiver@example.com")),
          Prop("prompt", prompt), Prop("data", data) ])
  }

  lemma ExampleScriptFields(prompt: JsValue, data: JsValue)
    ensures var options := ExampleScriptOptions(prompt, data);
      && Get(options, "from") == Str("sender@example.com")
      && Get(options, "to") == Str("receiver@example.com")
      && Get(options, "subject") == Undefined
  {
    var props := ExampleScriptOptions(prompt, data).props;
    assert Lookup(props, "to") == Lookup(props[1..], "to");
    assert Lookup(props, "subject") == Undefined;
  }

  /**
    The calls in examples/basic-usage.js that send from sender@example.com to
    receiver@example.com have no subject, so each is refused before any request is
    made, whatever its prompt and data.
  */
  lemma ExampleScriptRefused(client: ContactedAI, prompt: JsValue, data: JsValue, exchange: Request -> Outcome)
    ensures Send(client, ExampleScriptOptions(prompt, data), exchange) == Call([], Err(SUBJECT_REQUIRED))
  {
    ExampleScriptFields(prompt, data);
    SenderAddress();
    ReceiverAddress();
    ValidAddresses("sender@example.com", "receiver@example.com");
    MissingSubjectRefused(ExampleScriptOptions(prompt, data));
    RefusedSend(client, ExampleScriptOptions(prompt, data), exchange, SUBJECT_REQUIRED);
  }
}
