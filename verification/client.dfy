/**
  The `ContactedAI` client: its constructor's API-key guard and defaults, and the
  three API operations `send`, `getMessageStatus` and `status`. The HTTP exchange is
  a parameter `exchange` that maps the request the client issues to the outcome the
  transport reports; every operation returns the requests it issued together with
  its result, so "no request was made" is an empty list of requests.
*/
module Client {
  import opened Wrappers
  import opened JsValues
  import opened Validation
  import opened Email

  const DEFAULT_BASE_URL := "https://api.contacted.io"
  const DEFAULT_TIMEOUT_MS := 30000
  const DEFAULT_RETRY_AFTER := 60

  const API_KEY_REQUIRED := "API key is required"
  const MESSAGE_ID_REQUIRED := "Message ID is required"
  const MESSAGE_ID_NOT_STRING := "Message ID must be a string"
  const API_ERROR_PREFIX := "ContactedAI API Error: "
  const DEFAULT_API_MESSAGE := "API request failed"
  // Written as two literals so that the verifier can see the characters of a long string.
  const NETWORK_ERROR := "Network error: " + "Unable to reach ContactedAI API"
  const REQUEST_ERROR_PREFIX := "Request error: "
  const STATUS_ERROR_PREFIX := "Failed to get status: "

  /** The configuration a constructed client holds; it is never changed afterwards. */
  datatype ContactedAI = ContactedAI(apiKey: JsValue, baseURL: JsValue, timeout: JsValue)

  datatype HttpMethod = HttpGet | HttpPost

  /** A request the client hands to the transport: method, path, query parameters and JSON body. */
  datatype Request = Request(verb: HttpMethod, path: string, query: seq<Prop>, body: JsValue)

  /**
    What the transport reports for one request: a successful response with its body;
    an error response with its status code and body; a request that got no response;
    or a fault raised before the request could be sent. Each failure carries the
    transport error's own message.
  */
  datatype Outcome =
    | Success(body: JsValue)
    | ErrResponse(status: int, body: JsValue, message: string)
    | NoResponse(message: string)
    | LocalFault(message: string)

  /** The requests an operation issued, in order, and what it returned or threw. */
  datatype Call<+T> = Call(issued: seq<Request>, result: Result<T>)

  /** The kinds of failure the client reports after validation has passed. */
  datatype ErrorKind = ApiError | NetworkError | RequestError

  /** The kind of a failed transport outcome. */
  function KindOf(o: Outcome): ErrorKind
    requires !o.Success?
  {
    match o
    case ErrResponse(_, _, _) => ApiError
    case NoResponse(_) => NetworkError
    case LocalFault(_) => RequestError
  }

  predicate StartsWith(s: string, prefix: string)
  {
    |prefix| <= |s| && s[..|prefix|] == prefix
  }

  /**
    The kind a caller can read off an error message: API errors carry the API prefix,
    network errors are one fixed message, request errors carry the request prefix.
  */
  function ErrorKindOf(message: string): Option<ErrorKind>
  {
    if StartsWith(message, API_ERROR_PREFIX) then Some(ApiError)
    else if message == NETWORK_ERROR then Some(NetworkError)
    else if StartsWith(message, REQUEST_ERROR_PREFIX) then Some(RequestError)
    else None
  }

  /** The three kinds of message begin with different characters, so they never overlap. */
  lemma KindByFirstChar(m: string)
    ensures StartsWith(m, API_ERROR_PREFIX) ==> m[0] == 'C'
    ensures m == NETWORK_ERROR ==> m[0] == 'N'
    ensures StartsWith(m, REQUEST_ERROR_PREFIX) ==> m[0] == 'R'
  {
    if StartsWith(m, API_ERROR_PREFIX) {
      assert m[0] == m[..|API_ERROR_PREFIX|][0];
    }
    if StartsWith(m, REQUEST_ERROR_PREFIX) {
      assert m[0] == m[..|REQUEST_ERROR_PREFIX|][0];
    }
  }

  /**
    `new ContactedAI(options)`: throws unless `options` is present and carries a
    truthy `apiKey`; a falsy `baseURL` or `timeout` is replaced by its default.
  */
  function NewClient(options: JsValue): (r: Result<ContactedAI>)
    ensures r.Err? <==> !Truthy(options) || !Truthy(Get(options, "apiKey"))
    ensures r.Err? ==> r.message == API_KEY_REQUIRED
    ensures r.Ok? ==> r.value.apiKey == Get(options, "apiKey")
    ensures r.Ok? ==> r.value.baseURL == Or(Get(options, "baseURL"), Str(DEFAULT_BASE_URL))
    ensures r.Ok? ==> r.value.timeout == Or(Get(options, "timeout"), Num(DEFAULT_TIMEOUT_MS))
  {
    if !Truthy(options) || !Truthy(Get(options, "apiKey")) then Err(API_KEY_REQUIRED)
    else
      Ok(ContactedAI(
        Get(options, "apiKey"),
        Or(Get(options, "baseURL"), Str(DEFAULT_BASE_URL)),
        Or(Get(options, "timeout"), Num(DEFAULT_TIMEOUT_MS))))
  }

  const RATE_LIMIT_LEAD := API_ERROR_PREFIX + "Rate limit exceeded. Try again in "
  const RATE_LIMIT_TAIL := " seconds."
  const NOT_FOUND_LEAD := API_ERROR_PREFIX + "Message with ID '"
  const NOT_FOUND_TAIL := "' not found"
  const INVALID_API_KEY := API_ERROR_PREFIX + "Invalid API key"

  /** `error.response.data?.retry_after || 60`. */
  function RetryAfter(body: JsValue): JsValue
  {
    Or(Get(body, "retry_after"), Num(DEFAULT_RETRY_AFTER))
  }

  /** The message of a 429 response, naming the number of seconds to wait. */
  function RateLimitMessage(body: JsValue): string
  {
    RATE_LIMIT_LEAD + TemplateString(RetryAfter(body)) + RATE_LIMIT_TAIL
  }

  /**
    What a caller can read back out of a rate-limit message: the number of seconds,
    when the message has the rate-limit shape and names a plain decimal number.
  */
  function RetryAfterSeconds(message: string): Option<nat>
  {
    match Between(message, RATE_LIMIT_LEAD, RATE_LIMIT_TAIL)
    case None => None
    case Some(digits) =>
      if digits != "" && forall i | 0 <= i < |digits| :: '0' <= digits[i] <= '9' then Some(DecimalValue(digits))
      else None
  }

  /** The text of `message` between a leading `lead` and a trailing `tail`, when it has both. */
  function Between(message: string, lead: string, tail: string): Option<string>
  {
    if |message| < |lead| + |tail| then None
    else if message[..|lead|] != lead || message[|message| - |tail|..] != tail then None
    else Some(message[|lead|..|message| - |tail|])
  }

  lemma BetweenOfConcat(lead: string, middle: string, tail: string)
    ensures Between(lead + middle + tail, lead, tail) == Some(middle)
  {
    var m := lead + middle + tail;
    assert m[..|lead|] == lead;
    assert m[|m| - |tail|..] == tail;
    assert m[|lead|..|m| - |tail|] == middle;
  }

  /**
    The rate-limit message names the body's positive `retry_after`, and 60 seconds
    when `retry_after` is absent or falsy.
  */
  lemma RateLimitSeconds(body: JsValue)
    ensures Get(body, "retry_after").Num? && Get(body, "retry_after").n > 0 ==>
      RetryAfterSeconds(RateLimitMessage(body)) == Some(Get(body, "retry_after").n)
    ensures !Truthy(Get(body, "retry_after")) ==>
      RetryAfterSeconds(RateLimitMessage(body)) == Some(DEFAULT_RETRY_AFTER)
  {
    var v := RetryAfter(body);
    if v.Num? && v.n >= 0 {
      assert RateLimitMessage(body) == RATE_LIMIT_LEAD + Decimal(v.n) + RATE_LIMIT_TAIL;
      SecondsOfNumber(v.n);
    }
  }

  lemma SecondsOfNumber(n: nat)
    ensures RetryAfterSeconds(RATE_LIMIT_LEAD + Decimal(n) + RATE_LIMIT_TAIL) == Some(n)
  {
    BetweenOfConcat(RATE_LIMIT_LEAD, Decimal(n), RATE_LIMIT_TAIL);
    DecimalRoundTrip(n);
  }

  /** `error.response.data?.message || 'API request failed'`. */
  function ApiErrorText(body: JsValue): JsValue
  {
    Or(Get(body, "message"), Str(DEFAULT_API_MESSAGE))
  }

  /**
    The message of any other error response: the API prefix followed by the body's
    `message` when it is truthy, and by "API request failed" otherwise.
  */
  function ApiErrorMessage(body: JsValue): (m: string)
    ensures Get(body, "message").Str? && Get(body, "message").s != "" ==>
      m == API_ERROR_PREFIX + Get(body, "message").s
    ensures !Truthy(Get(body, "message")) ==> m == API_ERROR_PREFIX + DEFAULT_API_MESSAGE
  {
    API_ERROR_PREFIX + TemplateString(ApiErrorText(body))
  }

  /** The message of a 404 answer to `getMessageStatus`, naming the id that was asked for. */
  function NotFoundMessage(messageId: string): string
  {
    NOT_FOUND_LEAD + messageId + NOT_FOUND_TAIL
  }

  /** The message thrown when the request could not be sent. */
  function RequestErrorMessage(message: string): string
  {
    REQUEST_ERROR_PREFIX + message
  }

  /** The property names of the body `send` posts. */
  const SEND_FIELDS: set<string> := {"subject", "from", "to", "prompt", "data"}

  /**
    The request `send` issues: an object with exactly the five fields of the options,
    with falsy `data` replaced by `{}`; nothing else of the options is forwarded.
  */
  function SendRequest(options: JsValue): (req: Request)
    ensures req.verb == HttpPost && req.path == "/send" && req.query == []
    ensures req.body.Obj? && |req.body.props| == 5
    ensures forall i | 0 <= i < |req.body.props| :: req.body.props[i].key in SEND_FIELDS
    ensures forall i, j | 0 <= i < j < |req.body.props| :: req.body.props[i].key != req.body.props[j].key
    ensures forall key | key !in SEND_FIELDS :: Get(req.body, key) == Undefined
    ensures Get(req.body, "from") == Get(options, "from")
    ensures Get(req.body, "to") == Get(options, "to")
    ensures Get(req.body, "subject") == Get(options, "subject")
    ensures Get(req.body, "prompt") == Get(options, "prompt")
    ensures Truthy(Get(options, "data")) ==> Get(req.body, "data") == Get(options, "data")
    ensures !Truthy(Get(options, "data")) ==> Get(req.body, "data") == Obj([])
  {
    var props := [ Prop("subject", Get(options, "subject")),
                   Prop("from", Get(options, "from")),
                   Prop("to", Get(options, "to")),
                   Prop("prompt", Get(options, "prompt")),
                   Prop("data", Or(Get(options, "data"), Obj([]))) ];
    LookupAt(props, "subject", 0);
    LookupAt(props, "from", 1);
    LookupAt(props, "to", 2);
    LookupAt(props, "prompt", 3);
    LookupAt(props, "data", 4);
    Request(HttpPost, "/send", [], Obj(props))
  }

  /** How `send` turns the transport's outcome into its result. */
  function SendResult(o: Outcome): (r: Result<JsValue>)
    ensures r.Ok? <==> o.Success?
    ensures o.Success? ==> r.value == o.body
    ensures r.Err? ==> ErrorKindOf(r.message) == Some(KindOf(o))
    ensures o.ErrResponse? && o.status == 429 ==> r == Err(RateLimitMessage(o.body))
    ensures o.ErrResponse? && o.status != 429 ==> r == Err(ApiErrorMessage(o.body))
    ensures o.NoResponse? ==> r == Err(NETWORK_ERROR)
    ensures o.LocalFault? ==> r == Err(REQUEST_ERROR_PREFIX + o.message)
  {
    match o
    case Success(body) => Ok(body)
    case ErrResponse(status, body, _) =>
      if status == 429 then Err(RateLimitMessage(body)) else Err(ApiErrorMessage(body))
    case NoResponse(_) => KindByFirstChar(NETWORK_ERROR); Err(NETWORK_ERROR)
    case LocalFault(message) => KindByFirstChar(RequestErrorMessage(message)); Err(RequestErrorMessage(message))
  }

  /**
    `client.send(options)`: validation first; a request is issued only when it passes,
    and the result is then the transport outcome mapped by `SendResult`.
  */
  function Send(client: ContactedAI, options: JsValue, exchange: Request -> Outcome): (c: Call<JsValue>)
    ensures c.issued == [] <==> ValidateSendOptions(options).Fail?
    ensures c.issued == [] ==> c.result == Err(ValidateSendOptions(options).message)
    ensures c.issued != [] ==> c.issued == [SendRequest(options)] && c.result == SendResult(exchange(c.issued[0]))
  {
    var check := ValidateSendOptions(options);
    if check.Fail? then Call([], Err(check.message))
    else
      var req := SendRequest(options);
      Call([req], SendResult(exchange(req)))
  }

  /** How `getMessageStatus` turns the transport's outcome into its result. */
  function MessageStatusResult(messageId: string, o: Outcome): (r: Result<JsValue>)
    ensures r.Ok? <==> o.Success?
    ensures o.Success? ==> r.value == o.body
    ensures r.Err? ==> ErrorKindOf(r.message) == Some(KindOf(o))
    ensures o.ErrResponse? && o.status == 404 ==> r == Err(NotFoundMessage(messageId))
    ensures o.ErrResponse? && o.status == 401 ==> r == Err(INVALID_API_KEY)
  {
    match o
    case Success(body) => Ok(body)
    case ErrResponse(status, body, _) =>
      if status == 404 then Err(NotFoundMessage(messageId))
      else if status == 401 then Err(INVALID_API_KEY)
      else if status == 429 then Err(RateLimitMessage(body))
      else Err(ApiErrorMessage(body))
    case NoResponse(_) => KindByFirstChar(NETWORK_ERROR); Err(NETWORK_ERROR)
    case LocalFault(message) => KindByFirstChar(RequestErrorMessage(message)); Err(RequestErrorMessage(message))
  }

  /** `client.getMessageStatus(messageId)`: the id must be truthy and a string before anything is sent. */
  function GetMessageStatus(client: ContactedAI, messageId: JsValue, exchange: Request -> Outcome): (c: Call<JsValue>)
    ensures c.issued == [] <==> !messageId.Str? || messageId.s == ""
    ensures !Truthy(messageId) ==> c.result == Err(MESSAGE_ID_REQUIRED)
    ensures Truthy(messageId) && !messageId.Str? ==> c.result == Err(MESSAGE_ID_NOT_STRING)
    ensures c.issued != [] ==>
      && c.issued == [Request(HttpGet, "/message", [Prop("id", messageId)], Undefined)]
      && c.result == MessageStatusResult(messageId.s, exchange(c.issued[0]))
  {
    if !Truthy(messageId) then Call([], Err(MESSAGE_ID_REQUIRED))
    else if !messageId.Str? then Call([], Err(MESSAGE_ID_NOT_STRING))
    else
      var req := Request(HttpGet, "/message", [Prop("id", messageId)], Undefined);
      Call([req], MessageStatusResult(messageId.s, exchange(req)))
  }

  /** How `status` turns the transport's outcome into its result: every failure is wrapped alike. */
  function StatusResult(o: Outcome): (r: Result<JsValue>)
    ensures r.Ok? <==> o.Success?
    ensures o.Success? ==> r.value == o.body
    ensures r.Err? ==> StartsWith(r.message, STATUS_ERROR_PREFIX) && ErrorKindOf(r.message) == None
    ensures r.Err? ==> r.message[|STATUS_ERROR_PREFIX|..] == o.message
  {
    if o.Success? then Ok(o.body)
    else
      var m := STATUS_ERROR_PREFIX + o.message;
      KindByFirstChar(m);
      Err(m)
  }

  /** `client.status()`: one request, no validation. */
  function Status(client: ContactedAI, exchange: Request -> Outcome): (c: Call<JsValue>)
    ensures c.issued == [Request(HttpGet, "/status", [], Undefined)]
    ensures c.result == StatusResult(exchange(c.issued[0]))
  {
    var req := Request(HttpGet, "/status", [], Undefined);
    Call([req], StatusResult(exchange(req)))
  }

  /**
    `send` never reaches the transport when validation fails: the call issues no
    request, and its result is the validation error whatever the transport would do.
  */
  lemma SendValidatesFirst(client: ContactedAI, options: JsValue, e1: Request -> Outcome, e2: Request -> Outcome)
    requires ValidateSendOptions(options).Fail?
    ensures Send(client, options, e1).issued == []
    ensures Send(client, options, e1) == Send(client, options, e2)
  {
  }

  /**
    Whatever `send` posts has passed validation: both addresses are valid strings, the
    subject and prompt are strings within their bounds, and the data is an object
    whose keys are all valid.
  */
  lemma SendPostsValidatedFields(client: ContactedAI, options: JsValue, exchange: Request -> Outcome)
    requires Send(client, options, exchange).issued != []
    ensures var body := Send(client, options, exchange).issued[0].body;
      && Get(body, "from").Str? && IsValidEmail(Get(body, "from").s)
      && Get(body, "to").Str? && IsValidEmail(Get(body, "to").s)
      && Get(body, "subject").Str? && SUBJECT_MIN_LENGTH <= |Get(body, "subject").s| <= SUBJECT_MAX_LENGTH
      && Get(body, "prompt").Str? && PROMPT_MIN_LENGTH <= |Get(body, "prompt").s| <= PROMPT_MAX_LENGTH
      && Get(body, "data").Obj?
      && forall i | 0 <= i < |Get(body, "data").props| :: ValidKey(Get(body, "data").props[i].key)
  {
    ValidateSendOptionsIff(options);
  }

  /**
    A 404 answer to `getMessageStatus` names the id and nothing else: two such answers
    agree exactly when the ids agree, whatever the response bodies were.
  */
  lemma NotFoundNamesId(id1: string, id2: string, o1: Outcome, o2: Outcome)
    requires o1.ErrResponse? && o1.status == 404
    requires o2.ErrResponse? && o2.status == 404
    ensures MessageStatusResult(id1, o1) == MessageStatusResult(id2, o2) <==> id1 == id2
  {
    BetweenOfConcat(NOT_FOUND_LEAD, id1, NOT_FOUND_TAIL);
    BetweenOfConcat(NOT_FOUND_LEAD, id2, NOT_FOUND_TAIL);
  }

  /**
    `getMessageStatus` maps failures as `send` does, except for its own 404 and 401
    messages.
  */
  lemma MessageStatusAgreesWithSend(messageId: string, o: Outcome)
    requires !(o.ErrResponse? && (o.status == 404 || o.status == 401))
    ensures MessageStatusResult(messageId, o) == SendResult(o)
  {
  }

  /** `status()` keeps only the transport's message: failures with equal messages give equal results. */
  lemma StatusIgnoresKind(o1: Outcome, o2: Outcome)
    requires !o1.Success? && !o2.Success? && o1.message == o2.message
    ensures StatusResult(o1) == StatusResult(o2)
  {
  }
}
