# RemoteRequest: a Dafny model

This project models `RemoteRequest`, a small TypeScript class that wraps the
browser's `XMLHttpRequest` for one outbound HTTP request. The model covers
the two pieces of logic in `src/remote-request.ts`:

- **Construction.** `new RemoteRequest(url, method = "GET")` upper-cases the
  method and checks it against GET, POST, PUT, PATCH and DELETE. It then
  either throws ``"`method` unsupported. Supported methods:
  GET|POST|PUT|PATCH|DELETE (case insensitively)."`` or keeps the method and
  the URL.
- **`send(body)`.** A `FormData` body combined with `GET` throws
  ``"`body` can only be an application/x-www-form-urlencoded string with a
  GET request."``. Otherwise `send` creates a fresh transport and calls
  `open(method, url)` on it. It then sets
  `Content-Type: application/x-www-form-urlencoded` when the body is truthy
  and the method is not `GET`, and finally calls `send(body)`.

Layout:

- `ascii.dfy` (module `Ascii`): upper-casing on ASCII letters, and
  case-insensitive equality defined letter by letter.
- `wrappers.dfy` (module `Wrappers`): `Option` stands for an omitted
  argument; `Result` stands for a value or a thrown error.
- `transport.dfy` (module `Transport`): the body datatype (`NoBody`, `Str`,
  `Form`), the transport as a class `Xhr`, and the browser side as a class
  `Network`. Each call on a transport appends an `Action` (`Open`,
  `SetHeader`, `Send`) to the log of its network.
- `remote_request.dfy` (module `Remote`): the constants, and two
  specification functions. `NormalizeMethod` says what the constructor does;
  `Submit` says what `send` does. It also holds the class `RemoteRequest`.
  Its methods are proved equal to those functions.
- `properties.dfy` (module `RemoteProperties`): lemmas that connect
  construction and sending, and a small client of the class.

A Dafny constructor cannot throw. So the class constructor does only the
field assignments, and the static method `Create` runs the validation.
`Create` returns `Failure` with the exact message, and then no request
object is handed out. Every request it does hand out satisfies the class
invariant `Valid()`: its method is one of the five, in upper case. `Send`
requires that invariant and keeps it. `Send` returns the error it throws,
if any, and appends the calls it issues to the log of the `Network` it is
given. On the error path the log is left exactly as it was.

Later versions of the library add behaviour that `src/remote-request.ts`
does not contain: folding a `GET` string body into the URL's query string, an `Accept` header taken from a
response type, basic-auth credentials, `withCredentials`, a timeout, and a
callback lifecycle (start, sending, send, success/failure/timeout/error,
complete, finish, stop). The model follows the code. `open` receives the
URL unchanged, `send` passes a string body through even for `GET`, and
`Content-Type` is the only header ever set.

## Model

| member | source | states |
|---|---|---|
| `Ascii.UpperChar` | src/remote-request.ts:6 | a lower-case ASCII letter maps to its capital, 32 code points lower; every other character is kept; the result is never a lower-case letter |
| `Ascii.ToUpper` | src/remote-request.ts:6 | the upper-cased string has the input's length and is the character-wise upper case of the input |
| `Ascii.ToUpperIsUpper` | src/remote-request.ts:6 | an upper-cased string contains no lower-case letter |
| `Ascii.ToUpperFixesUpper` | src/remote-request.ts:6 | a string without lower-case letters is unchanged by upper-casing |
| `Ascii.ToUpperIdempotent` | src/remote-request.ts:6 | upper-casing twice equals upper-casing once |
| `Ascii.UpperCharAgrees` | src/remote-request.ts:6 | two characters have the same capital iff they are equal or one is the other's lower-case letter |
| `Ascii.ToUpperAgrees` | src/remote-request.ts:6 | two strings upper-case to the same string iff they are equal up to ASCII case, position by position (both directions) |
| `Ascii.ToUpperIsIff` | src/remote-request.ts:6 | for an upper-case `u`, a string upper-cases to `u` iff it equals `u` up to case |
| `Remote.Truthy` | src/remote-request.ts:28 | JavaScript truthiness of the body: `NoBody` and `Str("")` are falsy, a non-empty `Str` and every `Form` are truthy |
| `Remote.NormalizeMethod` | src/remote-request.ts:5-12 | a stored method is always one of the five supported ones; every failure carries exactly the unsupported-method message |
| `Remote.Submit` | src/remote-request.ts:17-33 | `send` throws iff the method is `GET` and the body is `FormData`, with exactly the incompatible-body message and an empty trace (no open, no header, no send); otherwise the trace has at most three actions, opens once with the stored method and URL first, sends the unchanged body once and last, sets no header but the form `Content-Type`, and sets that header iff the body is truthy and the method is not `GET` |
| `Remote.RemoteRequest.constructor` | src/remote-request.ts:5-14 | the stored method is the upper-cased argument, `GET` when it is omitted; the URL is stored as given; the object satisfies `Valid()` exactly when the source constructor returns it instead of throwing |
| `Remote.RemoteRequest.IsMethodUnsupported` | src/remote-request.ts:35-39 | true iff the stored method is none of GET, POST, PUT, PATCH, DELETE; when false, the stored method has no lower-case letter |
| `Remote.RemoteRequest.IsMethodGet` | src/remote-request.ts:41-43 | true iff the stored method is `GET`; when true, the method is supported |
| `Remote.RemoteRequest.Create` | src/remote-request.ts:5-15 | construction fails iff `NormalizeMethod` fails, with exactly the unsupported-method message; on success it returns a fresh request satisfying `Valid()`, whose method is the normalised method and whose URL is the one given |
| `Remote.RemoteRequest.Send` | src/remote-request.ts:17-33 | on a valid request, the error thrown is exactly `Submit(method, url, body).thrown` and the network log grows by exactly `Submit(method, url, body).trace`, so on the throwing path no call is issued; the request's method and URL are unchanged and it stays valid |
| `Transport.Network.constructor` | src/remote-request.ts:25-32 | the log of transport calls starts empty |
| `Transport.Xhr.constructor` | src/remote-request.ts:25 | a fresh transport belongs to the given network and creating it issues no call |
| `Transport.Xhr.Open` | src/remote-request.ts:26 | `open` appends one `Open(method, url)` to the network log |
| `Transport.Xhr.SetRequestHeader` | src/remote-request.ts:29 | `setRequestHeader` appends one `SetHeader(name, value)` to the network log |
| `Transport.Xhr.Send` | src/remote-request.ts:32 | `send` appends one `Send(body)` to the network log, with the body as given |
| `RemoteProperties.SupportedMethodsAreUpper` | src/remote-request.ts:36-38 | each of the five supported methods is written without lower-case letters |
| `RemoteProperties.DefaultMethodIsGet` | src/remote-request.ts:5-6 | with no method argument, construction succeeds and stores `GET` |
| `RemoteProperties.AcceptedIffSupportedIgnoringCase` | src/remote-request.ts:5-12 | construction succeeds iff the argument equals one of the five supported methods up to ASCII case (both directions); the stored method equals the argument up to case and is a fixed point of upper-casing |
| `RemoteProperties.CaseVariantsAgree` | src/remote-request.ts:5-12 | two spellings equal up to case produce the same stored method, or fail alike |
| `RemoteProperties.SpellingAccepted` | src/remote-request.ts:5-12 | any spelling of a supported method, in any case, stores exactly that method |
| `RemoteProperties.TestedSpellings` | src/__tests__/remote-request.ts:30-98 | `get`/`GET`, `post`/`POST`, `put`/`PUT`, `patch`/`PATCH` and `delete`/`DELETE` each store the upper-case method |
| `RemoteProperties.TestedRejection` | src/__tests__/remote-request.ts:100-107 | `UNSUPPORTED` is rejected with exactly the unsupported-method message |
| `RemoteProperties.StoredGetIff` | src/remote-request.ts:18 | the stored method is `GET` iff the argument was `get` up to case |
| `RemoteProperties.FormBodyRejectedOnlyForGet` | src/remote-request.ts:18-23 | for a constructed request, a `FormData` body throws the incompatible-body error iff the method was spelled `get` in some case; with any other supported method it is sent |
| `RemoteProperties.ContentTypeIffTruthyAndNotGet` | src/remote-request.ts:28-30 | for a constructed request, the form `Content-Type` is set iff the body is truthy and the method was not `get` in any case |
| `RemoteProperties.DefaultRequestTrace` | src/__tests__/remote-request.ts:18-28 | `new RemoteRequest("/get").send()` issues exactly `Open("GET", "/get")` and then `Send` with no body |

## Left out

- Remote.RemoteRequest.constructor: does not throw, because a Dafny
  constructor cannot. The check and the throw of
  src/remote-request.ts:7-12 are done by `Create`, which hands out only
  objects satisfying `Valid()`. A request built directly with the
  constructor from an unsupported method is the transient object that the
  source's constructor holds at line 7, and `Send` does not accept it.

- `toUpperCase` is modelled on ASCII letters only. JavaScript's full Unicode
  mapping (for example `"ſ"` upper-cases to `"S"`, and `"ß"` to `"SS"`) is
  not modelled. A spelling outside ASCII that JavaScript would accept may be
  rejected here.
- `XMLHttpRequest` is a browser API. It appears only as the trace of
  `open`, `setRequestHeader` and `send` calls. What the browser does with
  those calls is not modelled: network I/O, asynchronous events, response
  status and body, and errors the browser might throw from `open` or
  `send`.
- The contents of a `FormData` body are opaque. It is a `Form` carrying
  only a handle, because the code never looks inside it.
- Calling `send` twice on one request is not distinguished from calling it
  once. Each call creates its own transport, in the model as in the code.
- The callback lifecycle exercised by the test files (`onStart`, `onStop`,
  `onSending`, `onSend`, `onSuccess`, `onFailure`, `onTimeout`, `onError`,
  `onComplete`, `onFinish`) and the `timeout` property are left out.
  `src/remote-request.ts` has none of these members. The same holds for
  query-string folding of `GET` bodies, the `Accept` header and response
  types, credentials, and response parsing.
- The `jest`/`xhr-mock` test harness is not part of this model.
