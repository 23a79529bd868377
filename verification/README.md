# Signed-cookie session strategy, modelled in Dafny

A model of `SignedCookieStrategy` from prismy-session-strategy-signed-cookie.
The strategy keeps a client-side session in a single signed cookie. Its pieces are:

- option defaulting in the constructor;
- the token codec: `serialize` writes `"s:" + sign(JSON.stringify(data), secret)`, and `deserialize` checks `/^s:.+/`, calls `unsign` and runs `JSON.parse`;
- `loadData`, which reads the named cookie;
- the end-of-request decision in `finalize`, which picks no-op, `touch`, `save` or `destroy`;
- `getCookieOptions`, which builds the cookie attributes.

Modules, one file each:

- `wrappers.dfy` (`Wrappers`): `Option` and `Result`. `Result.Failure` stands for a thrown exception.
- The exceptions modelled (`JsValues.JsError`) are three:
  - `sign` refusing the missing text of `JSON.stringify(undefined)`;
  - `JSON.parse` rejecting a signed payload;
  - the caller's `secure` predicate throwing.
- `js_values.dfy` (`JsValues`): JSON values and JavaScript session values.
  - A `Ref(id, content)` is an object. `id` is its reference identity. `content` is the JSON its current state serializes to.
  - `StrictEquals` is `===`: objects compare by identity, primitives by value, and `null !== undefined`.
  - `IsNullish` is `== null`.
  - `FromJson` is the value `JSON.parse` builds. New objects get the identity supplied by the caller.
- `signing_library.dfy` (`SigningLibrary`): `sign`, `unsign`, `JSON.stringify` and `JSON.parse` as fields of a `Library` record of functions. Their assumed laws are the predicate `Lawful`:
  - unsigning with the signing secret gives back the signed string;
  - a signed string begins with the input followed by `.`;
  - parsing what stringify wrote gives back the same JSON;
  - JSON text is non-empty and starts with one of `{ [ " - 0-9 t f n`.

  These laws are hypotheses of the lemmas that need them. Nothing proves them.
- `strategy_options.dfy` (`StrategyOptions`): caller options, the defaults (`session`, 86400, `true`, `false`, `/`), the kept options, and `getCookieOptions`. A `secure` predicate answers `None` where it throws. `getCookieOptions` then throws too, and so do `save`, `touch`, `destroy` and `finalize` whenever they would write a cookie.
- `codec.dfy` (`Codec`): `serialize` and `deserialize`. `Decode` is `deserialize` before the result becomes a JavaScript value, so it can tell the JSON `null` apart from a rejected token.
- `signed_cookie_strategy.dfy` (`SignedCookieStrategy`): the decision table, `save`, `touch`, `destroy`, `finalize`, `loadData`, and the scenarios of the unit tests.
- `session_trace.dfy` (`SessionTrace`): a client making a series of requests. Between requests the client keeps the cookie as section 5.3 of RFC 6265 says: a cookie of the same name is replaced, and a Max-Age of zero or less removes it. The main theorem is that each request loads what the previous one ended with.

The code has no `try`/`catch` around `JSON.parse` (src/index.ts:128). So a validly signed payload that is not JSON throws; it does not load as `null`. The model follows the code here (`Codec.MalformedPayloadThrows`).

The constructor does not check that a secret was given, and the model does not add such a check.

## Model

| member | source | states |
|---|---|---|
| StrategyOptions.Configure | src/index.ts:35-44 | each of name, maxAge, httpOnly, secure and path is the caller's value when supplied and its default otherwise; secret, domain and sameSite are the caller's as given |
| StrategyOptions.ConfigureDefaults | src/index.ts:36-41 | a caller giving only the secret gets name `session`, maxAge 86400, httpOnly true, secure false, path `/`, and no domain or sameSite |
| StrategyOptions.ConfigureIsIdempotent | src/index.ts:36-43 | spreading kept options over the defaults again changes nothing |
| StrategyOptions.GetCookieOptions | src/index.ts:131-142 | secure is the static flag, or the predicate's answer on this context; it throws exactly when the predicate throws; maxAge, domain, httpOnly, path and sameSite are copied from the options |
| StrategyOptions.AttributesDependOnContextOnlyThroughSecure | src/index.ts:131-142 | two request contexts on which the predicate answers give the same attributes except possibly secure; with a static secure every context gives exactly the same result |
| JsValues.StrictEquals | src/index.ts:67 | `===`: values that are `===` are equal unless they are objects, and an object is `===` only to an object |
| JsValues.IsNullish | src/index.ts:68 | `== null` holds exactly when the value is `=== null` or `=== undefined` |
| JsValues.StrictEqualsIsEquivalence | src/index.ts:67 | `===` on session data is reflexive, symmetric and transitive |
| JsValues.StrictEqualsIsIdentity | src/index.ts:67 | an object mutated in place is still `===` to itself, and two distinct objects with equal contents are not `===` |
| JsValues.JsonOf | src/index.ts:111 | `JSON.stringify` yields no text exactly for `undefined`, and `null` stringifies as JSON null |
| JsValues.FromJson | src/index.ts:128 | the parsed value has the JSON it was parsed from, is never undefined, is `== null` exactly for JSON null, and a parsed object has the new identity |
| JsValues.ReparsedObjectIsNew | src/index.ts:128 | reading back a stored object gives an object with the same JSON that is not `===` to the original |
| Codec.MatchesSignedFormat | src/index.ts:28 | a token passing `/^s:.+/` starts with `s:` and is longer than 2 |
| Codec.MatchesSignedFormatIsRegex | src/index.ts:28 | the three-character test (`s`, `:`, then a non-line-terminator) holds exactly when `/^s:.+/` matches |
| Codec.Serialize | src/index.ts:110-112 | the token begins with `s:`; serializing fails (sign refuses a non-string) exactly when the data is undefined |
| Codec.Decode | src/index.ts:115-128 | the token is rejected exactly when it fails the format test or `unsign` refuses its remainder; otherwise the result is what JSON.parse gives for the unsigned text, and it throws exactly when JSON.parse does |
| Codec.Deserialize | src/index.ts:114-129 | a rejected token gives null; a parsed payload gives a value with that JSON, never undefined; it throws exactly when JSON.parse does |
| Codec.RejectsUnmarkedToken | src/index.ts:115-117 | a token failing `/^s:.+/` gives null, and the answer does not depend on the library, so `unsign` is not consulted |
| Codec.RejectsBadSignature | src/index.ts:120-126 | a marked token whose remainder `unsign` refuses gives null |
| Codec.MalformedPayloadThrows | src/index.ts:128 | a validly signed payload that JSON.parse rejects makes deserialize throw rather than return null |
| Codec.SerializedTokenIsMarked | src/index.ts:110-112 | under the library laws, every token serialize produces is longer than 2 and passes `/^s:.+/` |
| Codec.DecodeSerialize | src/index.ts:110-129 | under the library laws with the same secret, the token of data decodes to exactly the JSON of data |
| Codec.RoundTrip | src/index.ts:110-129 | under the library laws, deserialize of serialize of data succeeds with a value of the same JSON, equal to data itself for primitives and null |
| SignedCookieStrategy.Decide | src/index.ts:67-82 | the action clears the cookie or does nothing exactly when data `== null`, and is a no-op or touch exactly when data `===` previous data |
| SignedCookieStrategy.DecideTable | src/index.ts:66-83 | no-op, touch, destroy and save are each chosen exactly on their row of the `===` and `== null` table |
| SignedCookieStrategy.SaveCookie | src/index.ts:89-96 | save emits one cookie with the configured name and maxAge; it throws exactly for undefined data (sign's error, raised first) or a throwing secure predicate |
| SignedCookieStrategy.TouchCookie | src/index.ts:85-87 | touch emits one cookie with the configured name, and throws exactly when save does |
| SignedCookieStrategy.DestroyCookie | src/index.ts:98-108 | destroy emits one cookie with the configured name, an empty value and maxAge 0, and throws exactly when the secure predicate does |
| SignedCookieStrategy.Finalize | src/index.ts:66-83 | finalize throws exactly when the decision writes a cookie and the secure predicate throws on this context; otherwise it emits no instruction exactly when the decision is no-op |
| SignedCookieStrategy.FinalizeNoOp | src/index.ts:67-69 | data `===` previous data and `== null`: no cookie instruction, whatever the secure predicate would do |
| SignedCookieStrategy.FinalizeTouch | src/index.ts:70-72 | data `===` previous data and present: exactly what save does, namely the name, serialize(data), this request's attributes and the full maxAge, or the secure predicate's exception |
| SignedCookieStrategy.FinalizeSave | src/index.ts:78-80 | changed and present: the one instruction is (name, serialize(data), getCookieOptions(ctx)), or the secure predicate's exception |
| SignedCookieStrategy.FinalizeDestroy | src/index.ts:75-77 | changed to null or undefined: value `""`, maxAge 0, and every other attribute as getCookieOptions(ctx) gives it, or the secure predicate's exception |
| SignedCookieStrategy.TouchAndSaveAgree | src/index.ts:85-87 | for present data the outcome does not depend on the previous data, so touch and save do the same thing |
| SignedCookieStrategy.FinalizeContextIndependent | src/index.ts:66-83 | a no-op on one context is a no-op on every context; where finalize completes on two contexts, the cookie's name and value agree and the attributes differ at most in secure; with a static secure the outcome is the same on every context |
| SignedCookieStrategy.LoadData | src/index.ts:46-54 | a missing named cookie gives null; otherwise the result is exactly deserialize of the cookie's value |
| SignedCookieStrategy.TouchReissuesToken | specs/SignedCookieStrategy.spec.ts:160-194 | a request that loads a serialized session and leaves it alone re-emits the very token it received, with the configured attributes, unless the secure predicate throws |
| SignedCookieStrategy.DefaultSaveScenario | specs/SignedCookieStrategy.spec.ts:8-34 | saving `{message: 'Hello, World!'}` with only a secret gives cookie `session`, the serialized token, Max-Age 86400, Path `/`, HttpOnly, not Secure |
| SignedCookieStrategy.DynamicSecureScenario | specs/SignedCookieStrategy.spec.ts:36-63 | a secure predicate answering true gives the same attributes with Secure set |
| SignedCookieStrategy.DefaultDestroyScenario | specs/SignedCookieStrategy.spec.ts:215-246 | setting a loaded session to null gives `session=` with Max-Age 0, Path `/`, HttpOnly |
| SessionTrace.Request | src/index.ts:46-83 | one request (load, handler, finalize) throws exactly when loading throws or when finalize would write a cookie and the secure predicate throws; it loads what loadData gives and ends with what the handler returned |
| SessionTrace.Run | specs/integration.spec.ts:9-43 | a series of requests, each on its own context, yields one step per request, each ending with its handler's answer |
| SessionTrace.RequestCarriesSession | src/index.ts:46-129 | one request from a jar that does not make deserialize throw completes unless the secure predicate throws; a completed request leaves such a jar, and the next load yields what it ended with (null after null or undefined) |
| SessionTrace.RunCarriesSession | specs/integration.spec.ts:9-43 | from a starting jar whose session cookie, if any, does not make deserialize throw (a new client's empty jar among them), a series of requests on their own contexts throws nothing unless the secure predicate throws on one of those contexts, and in a series that completes each request loads what the previous one ended with |
| SessionTrace.PostThenGet | specs/integration.spec.ts:9-43 | a new client's POST storing `{message: 'Hello, World!'}` is followed by a GET, on another context, that loads an object with that JSON |

## Left out

- The HMAC inside `sign`/`unsign` and its constant-time comparison live in the cookie-signature package. They are abstract functions with the assumed laws in `Lawful`.
  - Rejection of tampered tokens and of tokens signed with another secret is a cryptographic assumption, not something the model proves.
- The real `JSON.stringify`/`JSON.parse` are abstract. `JSON.stringify` on cycles or BigInt is out of reach, because an object's `content` is already its JSON.
- Numbers are integers: no floating point, no `NaN` (for which `NaN !== NaN`), no `-0`.
- Symbols, functions and BigInt are not session values.
- Strings are sequences of Unicode scalar values, not UTF-16 code units, so a lone surrogate at index 2 of a token is not representable.
- `StrategyOptions.Configure`: a key the caller sets explicitly to `undefined` would, through the object spread, override its default with `undefined`. The model treats every key as either absent or holding a value, so that case is not covered.
- `getCookieStore` (src/index.ts:56-64) and its per-context memoization under a symbol key are transport plumbing from prismy-cookie. The cookie store becomes a map of the request's cookies (`Cookies`) plus the returned instruction.
- Rendering of `Set-Cookie`/`Cookie` headers and the URI-encoding of values are done by the external cookie serializer.
- The `async`/`await` in `finalize` has no effect on the result.
- The prismy middleware that sets `previousData` and `data` to the loaded value before the handler runs is represented by `SessionTrace.Request`.
- The HTTP test harness is not modelled.
- SignedCookieStrategy.Finalize: a `JSON.stringify` that throws (a cycle, a BigInt, a throwing `toJSON`) is not represented, because an object's `content` is already its JSON. So save and touch throw only for `undefined` data or a throwing `secure` predicate. The throwing predicate itself is modelled.
- SessionTrace.Request: as for `SignedCookieStrategy.Finalize`, a throwing `JSON.stringify` is not represented. A request throws only when loading throws or when the `secure` predicate throws on a request that writes a cookie.
- SessionTrace.RequestCarriesSession: the client is reduced to one cookie map.
  - It replaces a cookie of the same name and removes one whose Max-Age is zero or less.
  - It never expires a cookie by elapsed time.
  - It sends every stored cookie back whatever its Secure, Path and Domain attributes.

  So the lemma assumes the next request comes within maxAge seconds of the last Set-Cookie, over a channel, path and domain to which those attributes let the cookie be sent. It also assumes a positive configured maxAge; with maxAge zero or less the client drops every saved cookie.
- SessionTrace.RunCarriesSession: the starting jar must not hold a session cookie that makes deserialize throw; a new client's empty jar qualifies. The lemma makes the same client assumptions as `SessionTrace.RequestCarriesSession`, for every request of the series: positive maxAge, no time-based expiry, and each request allowed by Secure, Path and Domain to receive the cookie. "Nothing throws" is promised only when the `secure` predicate does not throw on any of the series' contexts, and it does not cover a throwing `JSON.stringify`.
