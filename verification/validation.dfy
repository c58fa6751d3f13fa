/**
  The pre-flight validator of a send request. Each check either passes or fails
  with the exact message the library throws; `ValidateSendOptions` runs them in a
  fixed order and reports the first failure.
*/
module Validation {
  import opened Wrappers
  import opened JsValues
  import opened JsStrings
  import opened Email

  const SUBJECT_MIN_LENGTH: nat := 2
  const SUBJECT_MAX_LENGTH: nat := 256
  const PROMPT_MIN_LENGTH: nat := 10
  const PROMPT_MAX_LENGTH: nat := 2000

  const SUBJECT_REQUIRED := "Subject is required"
  const SUBJECT_NOT_STRING := "Subject must be a string"
  const SUBJECT_TOO_SHORT := "Subject must be at least 2 characters long"
  const SUBJECT_TOO_LONG := "Subject must be no more than 256 characters long"
  const PROMPT_REQUIRED := "Prompt is required"
  const PROMPT_NOT_STRING := "Prompt must be a string"
  const PROMPT_TOO_SHORT := "Prompt must be at least 10 characters long"
  const PROMPT_TOO_LONG := "Prompt must be no more than 2000 characters long"
  const DATA_NOT_OBJECT := "Data must be an object"
  const DATA_KEY_EMPTY := "All data keys must be non-empty strings"
  const DATA_KEY_SPACES := "Data keys cannot contain spaces"
  // Written as two literals so that the verifier can see the characters of a long string.
  const EMAILS_REQUIRED := "Both \"from\" and \"to\" " + "email addresses are required"
  const EMAILS_NOT_STRINGS := "Email addresses must be strings"
  const FROM_INVALID := "Invalid \"from\" email address format"
  const TO_INVALID := "Invalid \"to\" email address format"
  const OPTIONS_NOT_OBJECT := "Send options must be an object"

  /** `validateSubject`: present, a string, and between 2 and 256 characters long. */
  function ValidateSubject(subject: JsValue): (r: Check)
    ensures r.Pass? <==> subject.Str? && SUBJECT_MIN_LENGTH <= |subject.s| <= SUBJECT_MAX_LENGTH
    ensures r == Fail(SUBJECT_REQUIRED) <==> subject.Undefined? || subject.Null?
    ensures r == Fail(SUBJECT_NOT_STRING) <==> !(subject.Undefined? || subject.Null? || subject.Str?)
    ensures r == Fail(SUBJECT_TOO_SHORT) <==> subject.Str? && |subject.s| < SUBJECT_MIN_LENGTH
    ensures r == Fail(SUBJECT_TOO_LONG) <==> subject.Str? && |subject.s| > SUBJECT_MAX_LENGTH
  {
    if subject.Undefined? || subject.Null? then Fail(SUBJECT_REQUIRED)
    else if !subject.Str? then Fail(SUBJECT_NOT_STRING)
    else if |subject.s| < SUBJECT_MIN_LENGTH then Fail(SUBJECT_TOO_SHORT)
    else if |subject.s| > SUBJECT_MAX_LENGTH then Fail(SUBJECT_TOO_LONG)
    else Pass
  }

  /** `validatePrompt`: present, a string, and between 10 and 2000 characters long. */
  function ValidatePrompt(prompt: JsValue): (r: Check)
    ensures r.Pass? <==> prompt.Str? && PROMPT_MIN_LENGTH <= |prompt.s| <= PROMPT_MAX_LENGTH
    ensures r == Fail(PROMPT_REQUIRED) <==> prompt.Undefined? || prompt.Null?
    ensures r == Fail(PROMPT_NOT_STRING) <==> !(prompt.Undefined? || prompt.Null? || prompt.Str?)
    ensures r == Fail(PROMPT_TOO_SHORT) <==> prompt.Str? && |prompt.s| < PROMPT_MIN_LENGTH
    ensures r == Fail(PROMPT_TOO_LONG) <==> prompt.Str? && |prompt.s| > PROMPT_MAX_LENGTH
  {
    if prompt.Undefined? || prompt.Null? then Fail(PROMPT_REQUIRED)
    else if !prompt.Str? then Fail(PROMPT_NOT_STRING)
    else if |prompt.s| < PROMPT_MIN_LENGTH then Fail(PROMPT_TOO_SHORT)
    else if |prompt.s| > PROMPT_MAX_LENGTH then Fail(PROMPT_TOO_LONG)
    else Pass
  }

  /** A data key the validator accepts: non-empty and without any whitespace. */
  predicate ValidKey(key: string)
  {
    key != "" && !HasWs(key)
  }

  /**
    The message for a rejected key: a blank key (empty or all whitespace) is reported
    as empty, any other as containing spaces.
  */
  function KeyError(key: string): string
  {
    if AllWs(key) then DATA_KEY_EMPTY else DATA_KEY_SPACES
  }

  /** The index of the first key that is not valid, or the number of keys when all are valid. */
  function FirstInvalidKey(props: seq<Prop>): (k: nat)
    ensures k <= |props|
    ensures forall j | 0 <= j < k :: ValidKey(props[j].key)
    ensures k < |props| ==> !ValidKey(props[k].key)
  {
    if |props| == 0 || !ValidKey(props[0].key) then 0 else 1 + FirstInvalidKey(props[1..])
  }

  /**
    The loop of `validateData` over `Object.entries(data)`: it passes when every key
    is valid, and otherwise fails with the message for the first key that is not.
  */
  function CheckKeys(props: seq<Prop>): (r: Check)
    ensures var k := FirstInvalidKey(props);
      r == if k == |props| then Pass else Fail(KeyError(props[k].key))
  {
    if |props| == 0 then Pass
    else
      var key := props[0].key;
      TrimEmptyIffAllWs(key);
      if Trim(key) == "" then Fail(DATA_KEY_EMPTY)
      else if HasWs(key) then Fail(DATA_KEY_SPACES)
      else CheckKeys(props[1..])
  }

  /**
    `validateData`: absent data passes; anything but a plain object fails; an object
    passes exactly when all its keys are valid, and its values are never looked at.
  */
  function ValidateData(data: JsValue): (r: Check)
    ensures data.Undefined? || data.Null? ==> r == Pass
    ensures data.Bool? || data.Num? || data.Str? || data.Arr? ==> r == Fail(DATA_NOT_OBJECT)
    ensures data.Obj? ==> (r.Pass? <==> forall i | 0 <= i < |data.props| :: ValidKey(data.props[i].key))
    ensures data.Obj? && r.Fail? ==>
      var k := FirstInvalidKey(data.props);
      k < |data.props| && r.message == KeyError(data.props[k].key)
  {
    if data.Null? || data.Undefined? then Pass
    else if !IsObjectType(data) || data.Arr? then Fail(DATA_NOT_OBJECT)
    else CheckKeys(data.props)
  }

  /** An object with a single property passes exactly when its key is valid. */
  lemma SingleKey(key: string, value: JsValue)
    ensures ValidateData(Obj([Prop(key, value)])) == if ValidKey(key) then Pass else Fail(KeyError(key))
  {
    var props := [Prop(key, value)];
    if ValidKey(key) {
      assert FirstInvalidKey(props[1..]) == 0;
    }
  }

  /** Only the keys decide: objects with the same keys in the same order validate alike, whatever their values. */
  lemma {:induction false} DataValuesIgnored(a: seq<Prop>, b: seq<Prop>)
    requires |a| == |b|
    requires forall i | 0 <= i < |a| :: a[i].key == b[i].key
    ensures ValidateData(Obj(a)) == ValidateData(Obj(b))
  {
    SameKeysSameFirstInvalid(a, b);
  }

  lemma {:induction false} SameKeysSameFirstInvalid(a: seq<Prop>, b: seq<Prop>)
    requires |a| == |b|
    requires forall i | 0 <= i < |a| :: a[i].key == b[i].key
    ensures FirstInvalidKey(a) == FirstInvalidKey(b)
  {
    if |a| > 0 && ValidKey(a[0].key) {
      SameKeysSameFirstInvalid(a[1..], b[1..]);
    }
  }

  /**
    `validateEmails`: both addresses present (truthy), both strings, then the format
    of "from" before the format of "to".
  */
  function ValidateEmails(from: JsValue, to: JsValue): (r: Check)
    ensures r.Pass? <==> from.Str? && to.Str? && IsValidEmail(from.s) && IsValidEmail(to.s)
    ensures r == Fail(EMAILS_REQUIRED) <==> !Truthy(from) || !Truthy(to)
    ensures r == Fail(EMAILS_NOT_STRINGS) <==> Truthy(from) && Truthy(to) && !(from.Str? && to.Str?)
    ensures r == Fail(FROM_INVALID) <==> Truthy(from) && Truthy(to) && from.Str? && to.Str? && !IsValidEmail(from.s)
    ensures r == Fail(TO_INVALID) <==>
      Truthy(from) && Truthy(to) && from.Str? && to.Str? && IsValidEmail(from.s) && !IsValidEmail(to.s)
  {
    if !Truthy(from) || !Truthy(to) then Fail(EMAILS_REQUIRED)
    else if !from.Str? || !to.Str? then Fail(EMAILS_NOT_STRINGS)
    else if !IsValidEmail(from.s) then Fail(FROM_INVALID)
    else if !IsValidEmail(to.s) then Fail(TO_INVALID)
    else Pass
  }

  /** The first failing check of a list, in order, or `Pass` when every check passes. */
  function FirstFailure(checks: seq<Check>): (r: Check)
    ensures r.Pass? <==> forall i | 0 <= i < |checks| :: checks[i].Pass?
    ensures r.Fail? ==> exists i | 0 <= i < |checks| :: checks[i] == r && forall j | 0 <= j < i :: checks[j].Pass?
  {
    if |checks| == 0 then Pass
    else if checks[0].Fail? then checks[0]
    else
      var r := FirstFailure(checks[1..]);
      assert forall i | 0 < i < |checks| :: checks[i] == checks[1..][i - 1];
      r
  }

  /** What `FirstFailure` gives for four checks. */
  lemma FirstFailureOfFour(checks: seq<Check>)
    requires |checks| == 4
    ensures FirstFailure(checks) ==
      if checks[0].Fail? then checks[0]
      else if checks[1].Fail? then checks[1]
      else if checks[2].Fail? then checks[2]
      else checks[3]
  {
    assert checks[1..][1..][1..][1..] == [];
  }

  /** The four checks of a send request, in the order `validateSendOptions` runs them. */
  function SendOptionChecks(options: JsValue): seq<Check>
  {
    [ ValidateEmails(Get(options, "from"), Get(options, "to")),
      ValidateSubject(Get(options, "subject")),
      ValidatePrompt(Get(options, "prompt")),
      ValidateData(Get(options, "data")) ]
  }

  /**
    `validateSendOptions`: anything but a (truthy) object fails at once; otherwise the
    result is the first failure among emails, subject, prompt and data, in that order.
  */
  function ValidateSendOptions(options: JsValue): (r: Check)
    ensures !Truthy(options) || !IsObjectType(options) ==> r == Fail(OPTIONS_NOT_OBJECT)
    ensures Truthy(options) && IsObjectType(options) ==> r == FirstFailure(SendOptionChecks(options))
  {
    if !Truthy(options) || !IsObjectType(options) then Fail(OPTIONS_NOT_OBJECT)
    else
      var emails := ValidateEmails(Get(options, "from"), Get(options, "to"));
      FirstFailureOfFour(SendOptionChecks(options));
      if emails.Fail? then emails
      else
        var subject := ValidateSubject(Get(options, "subject"));
        if subject.Fail? then subject
        else
          var prompt := ValidatePrompt(Get(options, "prompt"));
          if prompt.Fail? then prompt
          else ValidateData(Get(options, "data"))
  }

  /** A send request passes exactly when it is an object and all four checks pass. */
  lemma ValidateSendOptionsIff(options: JsValue)
    ensures ValidateSendOptions(options).Pass? <==>
      && options.Obj?
      && ValidateEmails(Get(options, "from"), Get(options, "to")).Pass?
      && ValidateSubject(Get(options, "subject")).Pass?
      && ValidatePrompt(Get(options, "prompt")).Pass?
      && ValidateData(Get(options, "data")).Pass?
  {
    if Truthy(options) && IsObjectType(options) {
      FirstFailureOfFour(SendOptionChecks(options));
    }
  }

  /**
    Precedence: the reported failure is the earliest failing check. An e-mail error
    hides every other error; a subject error hides prompt and data errors; a prompt
    error hides a data error.
  */
  lemma ValidateSendOptionsPrecedence(options: JsValue)
    requires Truthy(options) && IsObjectType(options)
    ensures var checks := SendOptionChecks(options);
      && (checks[0].Fail? ==> ValidateSendOptions(options) == checks[0])
      && (checks[0].Pass? && checks[1].Fail? ==> ValidateSendOptions(options) == checks[1])
      && (checks[0].Pass? && checks[1].Pass? && checks[2].Fail? ==> ValidateSendOptions(options) == checks[2])
      && (checks[0].Pass? && checks[1].Pass? && checks[2].Pass? ==> ValidateSendOptions(options) == checks[3])
  {
    FirstFailureOfFour(SendOptionChecks(options));
  }
}
