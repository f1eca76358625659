# Access-check handlers, modelled in Dafny

This project models two serverless HTTP handlers that work against a
marketing-automation platform. The first grants readers access to the ARC Grid
book. The second only reads the configured tag to check that it exists; it
grants nothing.

- The access check (`api/check-access.js`) takes a POST of `{ email }` and runs
  it through a fixed sequence of gates: the method, whether an email is
  present, the email's format, and whether the configuration is complete.
  It then searches the platform for the contact. A missing contact gets a
  registration link. A found contact is tagged and then enrolled in the course.
  Both of those calls are best-effort: each collapses to a boolean flag, and
  status 422 ("already done") counts as success.
- The tag check (`api/verify-tag.js`) reads the configured tag from the
  platform. It maps the platform's answer to "exists", "not found" or an error.
  The error detail is shown only in development.

The platform is a port. Each handler passes every outbound call to a function
that stands for the platform's answer. The access check also records its calls
in a ghost trace, so its contract can state which calls are made and in what
order.

Modules:

- `Wrappers` (wrappers.dfy): `Option`.
- `Runtime` (runtime.dfy): the environment variables and JavaScript truthiness
  of a string. Also the 2xx test of `response.ok`.
- `EmailFormat` (email_format.dfy): the email regular expression and its
  characterisation.
- `Decimal` (decimal.dfy): the decimal text of a status code in an error
  message.
- `CheckAccess` (check_access.dfy): the access-check handler. It is a method,
  because the source runs it step by step with early exits.
- `VerifyTag` (verify_tag.dfy): the tag-check handler, written as a function.

## Model

| member | source | states |
|---|---|---|
| `EmailFormat.EmailRegexCharacterization` | api/check-access.js:37-38 | The regex `^[^\s@]+@[^\s@]+\.[^\s@]+$` accepts a string exactly when four conditions hold: it has no whitespace; it has exactly one `@`; the part before the `@` is non-empty; and the part after the `@` has a `.` that is neither its first nor its last character. Both directions are proved. |
| `EmailFormat.MatchIsWellFormed` | api/check-access.js:37 | A string the regex matches, split at its `@` and its literal dot, meets the four conditions. |
| `EmailFormat.WellFormedMatches` | api/check-access.js:37 | A string meeting the four conditions can be split as the regex requires. |
| `CheckAccess.RegistrationUrl` | api/check-access.js:49 | The registration URL is `REGISTRATION_URL` when that is set and non-empty, and `https://commandresults.com/register` otherwise. It is never empty. |
| `CheckAccess.FindContactByEmail` | api/check-access.js:117-125 | A contact is found exactly when the upstream answer is 2xx with a non-empty `items`, and the contact is the first item. A 2xx answer with no items means "no contact". A non-2xx status or a thrown error is a failure, and it is a rate limit exactly when the status is 429. |
| `CheckAccess.AddTagToContact` | api/check-access.js:148-158 | The tag flag is true exactly for status 204 or 422. Any other status, or a thrown error, gives false. |
| `CheckAccess.EnrollInCourse` | api/check-access.js:180-190 | The enrolment flag is true exactly for status 201 or 422. Any other status, or a thrown error, gives false. |
| `CheckAccess.Handle` | api/check-access.js:12-101 | Gate order and replies: OPTIONS gets an empty 200; any other non-POST method gets 405; an undefined body gets 500; a missing or empty email gets 400 "Email is required"; a malformed email gets 400 "Invalid email format"; missing configuration gets 500 "Server configuration error". No call is made unless every gate passes. After that, the first call is the search, made with the request's own email and the configured API key. With no contact, the reply is 200 with the registration URL, and the search is the only call. A failed search gives 429 when rate-limited and 500 otherwise, also with no other call. A found contact is tagged, then enrolled whatever the tag gave, and the reply is 200 with the contact id and both flags. The status is always one of 200, 400, 405, 429 and 500. `success` is true exactly when all three calls were made. |
| `CheckAccess.RerunIsIdempotent` | api/check-access.js:72-84 | Re-running a granted request after the platform has recorded the tag and the enrolment (so it answers 422 to both) gives the same reply: 200, granted, both flags true. |
| `CheckAccess.TagFailureStillGrants` | api/check-access.js:72-84 | A failing tag call does not abort the request, whether it fails with any status other than 204 and 422 or by throwing. The reply is still a 200 grant for the found contact with `tagAdded` false, and `enrolled` is the enrolment call's own result. |
| `VerifyTag.NotFoundMessage` | api/verify-tag.js:36 | The not-found message names the tag id: the id can be read back between the fixed prefix and suffix. |
| `VerifyTag.ApiErrorMessage` | api/verify-tag.js:42 | The error thrown for a non-OK status has a message that starts with `API Error: `. |
| `VerifyTag.ApiErrorNamesStatus` | api/verify-tag.js:42 | The status can be recovered from that message: the text after the prefix is all digits, and it parses back to the status. |
| `VerifyTag.ErrorDetail` | api/verify-tag.js:62 | The `error` field of the 500 reply holds the error's message, and it is present exactly when `NODE_ENV` is `development`. |
| `VerifyTag.HandleVerify` | api/verify-tag.js:6-64 | OPTIONS gets an empty 200 with no call. Every other method goes on; there is no 405. A missing API key or tag id gets 500 "Server configuration error" with no call. Otherwise the tag is read once, and the answer decides the reply: a 404 gives 200 with a message naming the tag id; any other non-2xx status gives 500 "Error verifying tag", with the detail `API Error: <status>` (development only); a thrown error gives the same 500, with its own message as the detail (development only); a 2xx gives 200 with the upstream `id` and `name`. The status is always 200 or 500. |
| `Decimal.ToDecimal` | api/verify-tag.js:42 | `${status}` is a non-empty string of digits. It starts with `0` only for zero. |
| `Decimal.DecimalRoundTrip` | api/verify-tag.js:42 | Parsing the decimal text of a number gives the number back. |

## Left out

- The `fetch` calls themselves: URL building, `encodeURIComponent`, headers, JSON request bodies and `parseInt` on the ids. Each call is a port whose answer is a parameter. The calls record their arguments (email, contact id, tag or course id, API key) but not the URLs.
- The CORS headers, which are constant values set on every reply, and all `console` logging.
- The constant `message` strings of the registration and grant replies, and the `suggestion` of the not-found reply. Each is implied by its `Body` variant rather than stored in it.
- CheckAccess.Handle: the source decides on 429 by looking for the text `rate limit` in the caught error's message. The model decides it from the lookup outcome: only an upstream 429 is rate-limited. A network error whose own message happened to contain `rate limit` would get 429 in the source but 500 in the model.
- CheckAccess.Handle: the email is an optional string. JavaScript truthiness of non-string values, and the regex's coercion of them to text, are not modelled. `null` as the body is treated like an absent body.
- CheckAccess.FindContactByEmail: an answer whose `items` field is absent is modelled as an empty list, which is what the source's guard makes of it. A 2xx answer whose body is not JSON, or is `null`, is folded into the thrown-error outcome.
- VerifyTag.HandleVerify: a 2xx answer whose body cannot be parsed is folded into the thrown-error outcome. The tag record's `id` and `name` are copied as given; fields missing upstream are not modelled.
- The `IsSpace` class covers the ECMAScript whitespace and line-terminator characters that `\s` matches. The model works on Unicode scalar values, while JavaScript works on UTF-16 code units; `\s` matches only characters of the Basic Multilingual Plane, so the two agree.
- `api/health.js` (a liveness probe that reads the clock and makes a live request), `test-connectivity.js` and `test-api.js` (console scripts that make live requests) are not part of this model: they are I/O, not logic.
