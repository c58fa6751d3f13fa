# contacted-node in Dafny

This project models the Node.js client of the ContactedAI e-mail API. It covers two parts of the client.

- **The pre-flight validator** (`src/validation.js`). A send request is checked in a fixed order before anything goes over the network:
  1. the two e-mail addresses;
  2. the subject;
  3. the prompt;
  4. the optional `data` object.

  Each check passes or throws one specific message.
- **The client** (`src/index.js`). This covers:
  - the constructor's API-key guard and its defaults;
  - the request `send` builds;
  - the argument guards of `getMessageStatus`;
  - how `send`, `getMessageStatus` and `status` turn what the HTTP layer reports into a result or an error message.

JavaScript's dynamic values are the datatype `JsValues.JsValue`. An object is its list of own properties in enumeration order, because `validateData` reports the first offending key. The module also models:
- truthiness (`!x`, `x || y`);
- property access (`o?.key`);
- the string conversion of a template literal.

A thrown `Error(message)` becomes `Fail(message)` (from a check) or `Err(message)` (from an operation).

The HTTP layer is a parameter `exchange: Request -> Outcome`. An outcome is one of:
- a response with its body;
- an error response with its status code;
- a request that got no response;
- a fault before sending.

Each client operation returns a `Call`: the requests it issued and its result. "The transport was never invoked" therefore reads `issued == []`.

Modules:
- `Wrappers` (`wrappers.dfy`): `Option`, `Check`, `Result`.
- `JsValues` (`js_value.dfy`): values, truthiness, property lookup, decimal printing of integers, template-literal conversion.
- `JsStrings` (`js_string.dfy`): the whitespace class of `\s` and `trim()`, plus `trim`, `split`, `join`, `includes('..')`, `startsWith('.')` and `endsWith('.')`.
- `Email` (`email.dfy`): `isValidEmail` and its characterisation without the regular expression.
- `Validation` (`validation.dfy`): the five validators and `validateSendOptions`.
- `Client` (`client.dfy`): the constructor, `send`, `getMessageStatus`, `status` and the error mapping.
- `TestCases` (`test_cases.dfy`): the expectations of the repository's test files and example script, stated about the model. Two of them are stale; see Notes.

## Model

| member | source | states |
|---|---|---|
| JsValues.Or | src/index.js:11-12 | `a \|\| b` is `a` when `a` is truthy and `b` otherwise |
| JsValues.Get | src/index.js:57 | `v?.key` is `undefined` for non-objects; on an object, a defined result is the value of a property with that key |
| JsValues.Lookup | src/validation.js:161 | a found value belongs to a property with the key; a missing key gives `undefined`; a key in first position gives its value |
| JsValues.LookupAt | src/validation.js:161 | a lookup finds the first property carrying the key |
| JsValues.Decimal | src/index.js:61 | the decimal form of a number is non-empty, all digits, without a leading zero |
| JsValues.DecimalRoundTrip | src/index.js:61 | reading the printed digits back gives the number |
| JsValues.DecimalInjective | src/index.js:61 | different numbers print differently |
| JsValues.TemplateString | src/index.js:61-63 | `${v}` leaves a string unchanged and prints a number in decimal |
| JsStrings.TrimStart | src/validation.js:110 | removes exactly the leading whitespace: the rest is a suffix that does not start with whitespace |
| JsStrings.TrimEnd | src/validation.js:110 | removes exactly the trailing whitespace |
| JsStrings.TrimEmptyIffAllWs | src/validation.js:110 | `key.trim() === ''` holds exactly when the key is empty or all whitespace |
| JsStrings.TrimHasNoEdgeWs | src/validation.js:110 | a trimmed string neither begins nor ends with whitespace |
| JsStrings.Count | src/validation.js:14 | the count of a character is at most the length, and zero exactly when the character is absent |
| JsStrings.CountAppend | src/validation.js:14 | counting distributes over concatenation |
| JsStrings.Split | src/validation.js:14 | `split(sep)` yields one more piece than there are separators, none holding the separator |
| JsStrings.SplitJoin | src/validation.js:14 | joining the pieces of a split with the separator gives back the string |
| JsStrings.SplitAt | src/validation.js:14 | a split is the text before the first separator followed by the split of the rest |
| JsStrings.SplitNone | src/validation.js:14 | a string without the separator splits into itself |
| JsStrings.SplitOnce | src/validation.js:14 | with exactly one separator, the two pieces are the text before and after it |
| Email.PatternIff | src/validation.js:8-11 | the regular expression matches exactly the strings with one `@`, no whitespace, a non-empty local part and a domain with a dot that has a character on each side |
| Email.PatternHasOneAt | src/validation.js:8-14 | a string that matches the pattern has exactly one `@`, so the split has two parts |
| Email.IsValidEmailIff | src/validation.js:6-37 | `isValidEmail` accepts exactly the strings with one `@`, no whitespace, and two halves that obey all of: non-empty, an inner dot in the domain, no `..`, no leading or trailing dot |
| Email.IsValidEmailAt | src/validation.js:6-37 | with the only `@` at a known index, acceptance is "no whitespace and the two halves obey the dot rules" |
| Email.EmailFromParts | src/validation.js:6-37 | for an address assembled from two parts without `@` or whitespace: the pattern holds iff the local part is non-empty and the domain has an inner dot; the address is accepted iff both parts obey the dot rules |
| Email.DotRulesNotRedundant | src/validation.js:14-34 | `a..b@x.com` passes the pattern and is still refused |
| Email.AcceptsExampleComAddress | src/validation.js:6-37 | every non-empty, dot-free user name without `@` or whitespace is accepted at `example.com` |
| Email.AcceptsPlainAddress | test/validation.test.js:12 | `test@example.com` is accepted |
| Email.AcceptsDottedAddress | test/validation.test.js:13 | `user.name@domain.co.uk` is accepted |
| Email.AcceptsTaggedAddress | test/validation.test.js:14 | `test+label@example.org` is accepted |
| Email.RejectsAddressWithoutAt | test/validation.test.js:18 | `invalid-email` is refused |
| Email.RejectsEmptyDomain | test/validation.test.js:19 | `test@` is refused |
| Email.RejectsEmptyLocalPart | test/validation.test.js:20 | `@example.com` is refused |
| Email.RejectsDoubleDot | test/validation.test.js:21 | `test..test@example.com` is refused |
| Email.RejectsDomainWithoutDot | test/validation.test.js:22 | `test@example` is refused |
| Validation.ValidateSubject | src/validation.js:44-63 | passes iff the subject is a string of 2 to 256 characters; `undefined`/`null` gives "required", any other non-string gives "must be a string", and too short and too long each give their own message, each iff its case holds |
| Validation.ValidatePrompt | src/validation.js:70-89 | the same for the prompt with bounds 10 and 2000 |
| Validation.FirstInvalidKey | src/validation.js:108-121 | the index of the first key that is empty or holds whitespace; every key before it is valid |
| Validation.CheckKeys | src/validation.js:108-121 | the key loop passes iff no key is invalid, and otherwise reports the first invalid key: "non-empty" for a blank key, "cannot contain spaces" for any other |
| Validation.ValidateData | src/validation.js:96-122 | `undefined`/`null` pass; a boolean, number, string or array fails "must be an object"; an object passes iff every key is non-empty and has no whitespace, and a failure names the first bad key |
| Validation.SingleKey | src/validation.js:108-121 | a one-property object passes iff its key is valid, and otherwise fails with that key's message |
| Validation.DataValuesIgnored | src/validation.js:108-121 | objects with the same keys in the same order validate alike, whatever their values |
| Validation.ValidateEmails | src/validation.js:130-149 | passes iff both are strings that `isValidEmail` accepts; a falsy address (including `""`) fails "both required" before any type or format check; then "must be strings"; then the `from` format before the `to` format; each message iff its case holds |
| Validation.FirstFailure | src/validation.js:163-173 | a list of checks passes iff every check passes; otherwise the result is the earliest failing check |
| Validation.FirstFailureOfFour | src/validation.js:163-173 | for four checks, the result is the first of them that fails |
| Validation.ValidateSendOptions | src/validation.js:156-174 | a falsy or non-object input fails "Send options must be an object"; otherwise the result is the first failure among emails, subject, prompt and data |
| Validation.ValidateSendOptionsIff | src/validation.js:156-174 | a request passes iff it is an object and all four checks pass |
| Validation.ValidateSendOptionsPrecedence | src/validation.js:161-173 | an e-mail error hides every other error, a subject error hides prompt and data errors, and a prompt error hides a data error |
| Client.NewClient | src/index.js:5-12 | throws "API key is required" iff the options are falsy or `apiKey` is falsy; otherwise keeps the key, and replaces a falsy `baseURL` by `https://api.contacted.io` and a falsy `timeout` by 30000 |
| Client.KindByFirstChar | src/index.js:61-70 | a fact about the model-side reader `ErrorKindOf`, not about the library: the API-error, network-error and request-error messages thrown here begin with different characters |
| Client.BetweenOfConcat | src/index.js:61 | a fact about the model-side reader `Between`, not about the library: the text between a known lead and tail is recovered exactly |
| Client.RateLimitSeconds | src/index.js:59-61 | the rate-limit message names the body's positive `retry_after`, and 60 when `retry_after` is absent or falsy; the number reads back from the message |
| Client.SecondsOfNumber | src/index.js:61 | a rate-limit message built from a number reads back as that number |
| Client.ApiErrorMessage | src/index.js:57-63 | the generic API error is the API prefix followed by the body's non-empty `message`, or by "API request failed" when it is falsy |
| Client.SendRequest | src/index.js:40-49 | `send` posts to `/send` an object with exactly five distinct properties, `subject`, `from`, `to`, `prompt` and `data`, and no other (every other key reads as `undefined`); `from`, `to`, `subject` and `prompt` are the caller's, and `data` is the caller's when truthy and `{}` otherwise |
| Client.SendResult | src/index.js:51-71 | a success returns the response body unchanged; a 429 gives the rate-limit message, any other status the generic API message, no response exactly the network-error message, and a local fault "Request error: " with its message; every failure's message has the kind (API, network, request) of the outcome, so exactly one branch applies |
| Client.Send | src/index.js:36-73 | no request is issued iff validation fails, and then the result is the validation error unchanged; otherwise exactly the `SendRequest` is issued and its outcome is mapped by `SendResult` |
| Client.SendValidatesFirst | src/index.js:38-43 | when validation fails, `send` issues nothing and its result does not depend on the transport |
| Client.SendPostsValidatedFields | src/index.js:38-49 | whatever `send` posts has two valid address strings, a subject and a prompt within bounds, and an object of valid keys as `data` |
| Client.MessageStatusResult | src/index.js:101-124 | a success returns the body; a 404 names the id whatever the body, a 401 gives "Invalid API key", and every failure gives a message of the outcome's kind |
| Client.GetMessageStatus | src/index.js:87-101 | a falsy id throws "Message ID is required" and a truthy non-string id "Message ID must be a string", both with no request; otherwise exactly one GET of `/message` with the id as query parameter |
| Client.NotFoundNamesId | src/index.js:108-109 | two 404 answers give the same message iff the ids are equal, whatever the bodies |
| Client.MessageStatusAgreesWithSend | src/index.js:104-124 | apart from 404 and 401, `getMessageStatus` maps failures exactly as `send` does |
| Client.StatusResult | src/index.js:133-138 | a success returns the body; every failure becomes "Failed to get status: " followed by the transport's own message, carrying none of the three kinds |
| Client.Status | src/index.js:132-139 | one GET of `/status`, its outcome mapped by `StatusResult` |
| Client.StatusIgnoresKind | src/index.js:136-138 | failures of different kinds with the same message give the same result |
| TestCases.ConstructorExamples | test/basic-usage.js:40-54 | `{apiKey: 'test-api-key'}` gives a client with the defaults; `{}` and no options throw "API key is required" |
| TestCases.ZeroTimeoutDefaults | src/index.js:12 | a timeout of 0 becomes 30000 |
| TestCases.SubjectExamples | test/validation.test.js:43-85 | the subject test cases, including the bounds 2 and 256 and `'a'.repeat(257)` |
| TestCases.PromptExamples | test/validation.test.js:89-117 | the prompt test cases, including lengths 9, 10, 2000 and 2001 |
| TestCases.DataShapeExamples | test/validation.test.js:121-135 | `undefined`/`null` pass; a string, an array and a number fail "must be an object" |
| TestCases.EmptyKeyExamples | test/validation.test.js:137-143 | keys `''` and `'   '` fail "non-empty strings" |
| TestCases.SpacedKeyExample | test/validation.test.js:146-147 | key `'key with space'` fails "cannot contain spaces" |
| TestCases.TabbedKeyExample | test/validation.test.js:149-150 | key `'key\twith\ttab'` fails "cannot contain spaces" |
| TestCases.ValidDataExample | test/validation.test.js:153-160 | an object with keys name, age, active and link passes |
| TestCases.MissingEmailExamples | test/validation.test.js:25-31 | an empty `from` or `to` fails "both required" |
| TestCases.InvalidFromExample | test/validation.test.js:34-35 | an invalid `from` is reported as such |
| TestCases.InvalidToExample | test/validation.test.js:37-38 | with a valid `from`, an invalid `to` is reported as such |
| TestCases.OptionsOutcome | src/validation.js:156-174 | a five-field request fails with its first failing check, in the order emails, subject, prompt, data |
| TestCases.ValidOptionsPass | test/validation.test.js:164-177 | the complete request of the tests passes |
| TestCases.ValidOptionsWithoutDataPass | test/validation.test.js:227-230 | it passes without its data too |
| TestCases.SubjectBoundsAccepted | test/validation.test.js:232-244 | subjects of length 2 and 256 are accepted in the complete request |
| TestCases.SubjectErrorReported | test/validation.test.js:179-204 | a failing subject in the complete request is reported with the subject's own message |
| TestCases.SendOptionsExamples | test/validation.test.js:179-204 | a missing subject, subject `123`, `'a'` and `'a'.repeat(257)` give their four messages |
| TestCases.InvalidFromReported | test/validation.test.js:206-211 | `from: 'invalid-email'` gives the invalid-"from" message |
| TestCases.ShortPromptReported | test/validation.test.js:213-218 | `prompt: 'short'` gives "at least 10 characters" |
| TestCases.SpacedDataKeyReported | test/validation.test.js:220-225 | a spaced data key gives "cannot contain spaces" |
| TestCases.RefusedSend | src/index.js:38 | a request that validation refuses yields the validation error and no request |
| TestCases.MissingFromRefused | src/validation.js:132-134 | an object without `from` fails "both required" |
| TestCases.MissingSubjectRefused | src/validation.js:164-167 | with valid addresses and no subject, the request fails "Subject is required" |
| TestCases.StaleMissingFromExpectation | test/basic-usage.js:56-62 | the request without `from` fails with "Both "from" and "to" email addresses are required", which does not contain the text the test expects |
| TestCases.StaleMissingPromptExpectation | test/basic-usage.js:64-70 | the request without subject and prompt fails "Subject is required", which does not contain the expected "Prompt is required" |
| TestCases.ExampleScriptRefused | examples/basic-usage.js:11-20 | a call from sender@example.com to receiver@example.com with no subject is refused with "Subject is required" before any request, whatever its prompt and data; this covers the calls at lines 11-20, 50-54 and 61-68 |

## Notes on the repository

- **test/basic-usage.js:61 is stale.** It expects `Both "from" and "to" addresses are required`. The validator throws `Both "from" and "to" email addresses are required` (src/validation.js:133). Jest's `toThrow(string)` matches substrings, and the expected text is not a substring of the real message (`TestCases.StaleMissingFromExpectation`).
- **test/basic-usage.js:69 is stale.** It expects `Prompt is required` for a request with neither subject nor prompt. The subject is checked first (src/validation.js:167), so the error is `Subject is required` (`TestCases.StaleMissingPromptExpectation`).
- **examples/basic-usage.js:11-20 never reaches the API.** Its call has no subject, so it is refused with `Subject is required` (`TestCases.ExampleScriptRefused`).
- **types/index.d.ts does not match the code.**
  - It omits `subject` from `SendOptions` (lines 7-12), although the validator requires it.
  - It declares a `getAccount` method (line 43) that src/index.js does not define.
  - It does not declare `getMessageStatus`.
- **The prompt's upper bound is 2000 characters** (src/validation.js:86), held in `Validation.PROMPT_MAX_LENGTH`.
- **examples/basic-usage.js:50-54 and :61-68 have no subject either.** Both calls are refused with `Subject is required`. The prompt and data errors their comments expect (lines 57 and 71) are never reached. `TestCases.ExampleScriptRefused` covers these calls, because it holds for any prompt and data. The call at lines 50-54 has no `data`, which the model reads as `undefined`.
- **test/basic-usage.js declares `const ContactedAI` twice** (lines 1 and 35). A module with a duplicate `const` declaration does not load, so none of that file's tests can run, stale or not.

## Left out

- The axios instance and HTTP transport are not modelled; the exchange is the abstract `exchange` function. This also leaves out:
  - base-URL joining;
  - the `Authorization`, `Content-Type` and `User-Agent` headers;
  - the timeout's effect;
  - JSON serialisation of the request body.

  For that reason the client's `apiKey`, `baseURL` and `timeout` reach no request in the model.
- `async`/`Promise`: each operation is a function from the transport outcome to a result.
- Floating-point numbers: `JsValue` numbers are integers. NaN, fractions and JavaScript's exponent notation for very large numbers in `${retryAfter}` are not modelled.
- The whitespace table: `JsStrings.IsWs` is the ECMAScript WhiteSpace and LineTerminator set with the Unicode space separators written out. It will not follow later Unicode versions.
- Strings: a `char` is a Unicode scalar value, so no surrogate code unit (U+D800 to U+DFFF) can be represented. A character outside the Basic Multilingual Plane, such as an emoji, is one `char` here but two UTF-16 code units in JavaScript. Its `length` is then one less in the model than in the source. For example, the subject "😀" has length 2 in JavaScript and passes src/validation.js:56, but the model reports it too short. The length bounds of `Validation.ValidateSubject` and `Validation.ValidatePrompt` are faithful only for text made of Basic Multilingual Plane characters.
- Objects:
  - Objects have own properties only, with no prototype chain, getters, or `toString`/`valueOf` overrides.
  - A property holding `undefined` and an absent property are treated alike.
  - Symbol keys and the integer-key ordering rule of `Object.entries` are not modelled; a `JsValue.Obj` lists its properties in the order they are enumerated.
  - Array-valued options are treated like other non-objects by `Get`; that matches destructuring an array for these key names.
- `typeof key !== 'string'` in `validateData` (src/validation.js:110) cannot fail, because `Object.entries` keys are strings. The model's keys are strings by type.
- The client record replaces the class: its fields are assigned once in the constructor and never updated, so `NewClient` returns a value instead of mutating an object.
- `Client.ErrorKindOf`, `Client.RetryAfterSeconds` and `Client.Between` are not part of the library; the library has no code that reads its messages back. They are readings of the messages, used to state that the failure branches produce distinguishable messages and that the rate-limit message names its seconds.
- `getMessageStatus`'s query object `{ id: messageId }` is a one-property list; URL encoding is left to the transport.
