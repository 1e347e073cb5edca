# aio-lib-ims-oauth in Dafny

This project models the decision logic of the Adobe I/O IMS OAuth plugins and proves properties about it. The logic covered:

- **Server-to-server plugin**: the required-key check and the call to the client-credentials token function.
- **CLI plugin**: the `$cli.bare-output` check and the options for `login`.
- **Browser (SUSI) plugin**: the required-key check, `electronCallback`/`checkWebResult`, and the steps that reach `getAccessToken`.
- **Local login flow**:
  - `authSiteUrl`, covering URLSearchParams `set` semantics;
  - the callback server's request handler;
  - `randomId`;
  - the login correlator, in which a timer and a server result race and the first to arrive settles the login.
- **Electron app** (`lib/main.js`): argument handling, callback recognition, and the `win` reference that decides whether closing the window means the user gave up.
- **Local HTTPS proxy**:
  - the callback authority (`connectstring`);
  - host matching;
  - request routing;
  - CONNECT target selection;
  - the `sendStatus` reply;
  - the close-once `terminate`.

Modules, one per file:

| module | models |
|---|---|
| `Wrappers` | `Option` and `Result` |
| `Text` | decimal rendering and parsing, `split`/`join` on one character, lower-case Base16, UTF-8 byte length |
| `JsValues` | JavaScript values, truthiness, property reads, `\|\|`, and `String(v)` |
| `Query` | a URL query as an ordered list of name/value pairs: WHATWG `get`/`set`, and the `querystring.parse` view in which a repeated name gives an array |
| `ConfigKeys` | the missing-key filter that all three plugins share, as a push loop proved against a specification function |
| `Http` | a reply record |
| `Helpers`, `Login` | `src/helpers.js` and `src/login.js` |
| `ServerToServer`, `ImsCli`, `ImsOauth` | the three plugins |
| `ElectronMain` | `lib/main.js` |
| `Proxy` | `src/proxy.js` |

Modelling choices:

- **State.** Where the source keeps mutable state, the model is a class with event methods: `Login.LoginAttempt`, `ImsOauth.WebSession`, `ElectronMain.ElectronWindow`, `Proxy.ProxyServer` and `Helpers.SearchParams`.
- **Opaque parsers and outside services** become parameters or given values:
  - JSON parsing is a parameter function; `None` means it throws.
  - A parsed URL is given as its base, its query pairs and its fragment.
  - The random bytes and `Date.now()` are parameters.
  - The token services are recorded as the call they would receive.

## Model

| member | source | states |
|---|---|---|
| ConfigKeys.CollectMissing | src/ims-oauth_server_to_server.js:26-44 | the forEach/push loop returns exactly the required keys that are missing under the rule, in order; a key is in the result iff it is required and missing |
| ConfigKeys.MissingOf | src/ims-oauth_server_to_server.js:39-43 | the reported keys are required keys whose values are missing, and there are no more of them than required keys |
| ConfigKeys.MissingOfMembers | src/ims-oauth_server_to_server.js:39-43 | a key is in the missing list iff it is required and its value is missing |
| ConfigKeys.MissingOfEmpty | src/ims-oauth_server_to_server.js:47 | the missing list is empty iff no required key is missing, which is what `length === 0` tests |
| ConfigKeys.MissingOfAll | src/ims-oauth_server_to_server.js:39-43 | when every required key is missing, the result is the whole required list in order |
| ConfigKeys.MissingOfOrdered | src/ims-oauth_server_to_server.js:27-43 | for a duplicate-free required list, the result has no duplicates and keeps the declared order |
| ConfigKeys.MissingOfSingle | src/ims-cli.js:31-37 | with one required key, the result is that key if its value is missing and empty otherwise |
| ConfigKeys.PositionInPrefix | src/ims-oauth_server_to_server.js:39-43 | appending a key leaves the positions of earlier keys unchanged, and the new key sits at the end |
| ConfigKeys.CanSupportWith | src/ims-oauth.js:35-42 | shared by the CLI and browser plugins: resolves to true iff the missing list is an empty array, otherwise rejects with the prefix followed by `${missingKeys}` |
| ServerToServer.RequiredKeysDistinct | src/ims-oauth_server_to_server.js:27-34 | the six required keys are pairwise distinct |
| ServerToServer.MissingKeys | src/ims-oauth_server_to_server.js:23-45 | an absent or falsy config gives all six keys; otherwise a key is listed iff its value is falsy; the result has at most six keys, no duplicates, and the declared order |
| ServerToServer.ConfigMissingKeys | src/ims-oauth_server_to_server.js:23-45 | the imperative check returns exactly MissingKeys |
| ServerToServer.Supports | src/ims-oauth_server_to_server.js:47 | true iff the config is truthy and all six keys have truthy values |
| ServerToServer.CanSupport | src/ims-oauth_server_to_server.js:55-64 | resolves to true iff Supports; otherwise rejects with MISSING_PROPERTIES carrying the missing keys joined by ',' |
| ServerToServer.ImsLogin | src/ims-oauth_server_to_server.js:73-80 | reaches the token function iff canSupport succeeds, passing client_id, client_secrets[0], ims_org_id and scopes; otherwise returns canSupport's error |
| ServerToServer.EmptyConfigsUnsupported | src/ims-oauth_server_to_server.js:36-38 | `{}` and `undefined` are unsupported, and `{}` misses all six keys |
| ServerToServer.MissingOfIsAllWhenNoneTruthy | src/ims-oauth_server_to_server.js:39-43 | a config with no truthy required value misses every required key |
| ImsCli.FalsyValuesArePresent | src/ims-cli.js:16 | only undefined and null are empty; false, 0 and '' count as present |
| ImsCli.IsEmpty | src/ims-cli.js:16 | isEmpty is the nullish rule of the shared key check, and an empty value is falsy |
| ImsCli.MissingKeys | src/ims-cli.js:25-40 | an absent config gives `false`; otherwise the result is ['$cli.bare-output'] exactly when that value is undefined or null, and empty otherwise |
| ImsCli.ConfigMissingKeys | src/ims-cli.js:25-40 | the imperative check returns exactly MissingKeys |
| ImsCli.Supports | src/ims-cli.js:42 | true iff the config is truthy and '$cli.bare-output' is neither undefined nor null |
| ImsCli.CanSupport | src/ims-cli.js:50-57 | resolves iff Supports; otherwise rejects with the 'OAuth2 for cli not supported…' message followed by the keys as the template literal renders them |
| ImsCli.CanSupportAbsent | src/ims-cli.js:26-28 | an absent config rejects with a message ending ': false' |
| ImsCli.CanSupportMissingKey | src/ims-cli.js:51-55 | a config without a bare-output value rejects naming '$cli.bare-output' |
| ImsCli.ImsLogin | src/ims-cli.js:66-72 | calls login iff canSupport succeeds, with bare = config['$cli.bare-output'], and env and timeout passed unchanged |
| ImsOauth.RequiredKeysDistinct | src/ims-oauth.js:22 | the four required keys are pairwise distinct |
| ImsOauth.MissingKeys | src/ims-oauth.js:16-31 | an absent config gives `false`; otherwise the result is the subsequence of the four keys with falsy values, in order |
| ImsOauth.ConfigMissingKeys | src/ims-oauth.js:16-31 | the imperative check returns exactly MissingKeys |
| ImsOauth.Supports | src/ims-oauth.js:33 | true iff the config is truthy and all four keys have truthy values |
| ImsOauth.CanSupport | src/ims-oauth.js:35-42 | resolves iff Supports; otherwise rejects with 'OAuth2 not supported due to some missing properties: ' followed by the comma-joined keys, or 'false' |
| ImsOauth.EmptyConfigsUnsupported | src/ims-oauth.js:17-19 | `undefined` and `{}` are unsupported, and `{}` is rejected with all four keys listed |
| ImsOauth.RequiredKeysText | src/ims-oauth.js:22 | the joined key list is 'callback_url,client_id,client_secret,scope' |
| ImsOauth.StoredResult | src/ims-oauth.js:67 | a falsy result is replaced by Error('No result received from web app'); any other result is stored unchanged; what is stored is always truthy |
| ImsOauth.CheckWebResult | src/ims-oauth.js:78-89 | keeps polling iff nothing truthy is stored; rejects iff an Error is stored, with that error; otherwise resolves with the stored value |
| ImsOauth.StoredResultSettlesPoll | src/ims-oauth.js:65-89 | after electronCallback the poll always settles, and it resolves iff the result was a truthy non-Error value |
| ImsOauth.WebSession.constructor | src/ims-oauth.js:52 | the module starts with no stored result, so polling waits |
| ImsOauth.WebSession.ElectronCallback | src/ims-oauth.js:65-69 | the stored result becomes StoredResult(result), after which polling stops |
| ImsOauth.LoginState | src/ims-oauth.js:92 | the SUSI state is 'oauth-imslogin-' followed by decimal digits that read back as the clock value |
| ImsOauth.LoginStateInjective | src/ims-oauth.js:92 | logins started at different clock values carry different states |
| ImsOauth.ImsLogin | src/ims-oauth.js:91-97 | an unsupported config gives canSupport's error; otherwise the SUSI URL is requested with client_id, scope, callback_url and the state; a stored Error rejects with that Error's message; getAccessToken is called only when checkWebResult resolves, with that value and client_id, client_secret and scope |
| Helpers.SearchParams.Set | src/helpers.js:58 | WHATWG `set`: the first pair with the name takes the value, later duplicates go, and a missing name is appended |
| Helpers.Stringified | src/helpers.js:57-58 | the pairs handed to `set` keep the keys in Object.keys order, so their names are exactly the keys, and distinct exactly when the keys are |
| Helpers.AuthSiteUrl | src/helpers.js:55-61 | the forEach loop applies `set` for each key in order. With distinct keys: each key occurs exactly once with its value; pairs with other names are unchanged; the result is the original list with the keys it already had updated at their first position (later duplicates removed), followed by the new keys in key order. Base and fragment are kept |
| Helpers.CodeParameter | src/helpers.js:32 | `get('code')` is the string of the first code pair, or null when there is none |
| Helpers.WithCode | src/helpers.js:32 | `resultData.code = …` on an object sets the code and leaves its other properties alone; on null or undefined it throws; on any other primitive it changes nothing |
| Helpers.HandleRequest | src/helpers.js:25-43 | a missing or empty state rejects with 'No query data…'; a non-empty state that parses to anything but null or undefined resolves with the parsed value with its code set, and only such a state resolves; malformed JSON, or a state parsing to null or undefined, throws; the 200 text/plain 'You are now logged in…' reply is written on both settling branches |
| Helpers.RandomId | src/helpers.js:66 | 8 lower-case hex characters, two per byte of the 4 random bytes, which decode back to the bytes |
| Text.HexDecodeEncode | src/helpers.js:66 | decoding the hex string gives back the bytes |
| Text.HexByteRoundTrip | src/helpers.js:66 | one byte survives the round trip through its two hex digits |
| Text.HexDecodeConcat | src/helpers.js:66 | hex decoding distributes over concatenation at even positions |
| Text.HexValueOfDigit | src/helpers.js:66 | a hex digit's value maps back to the digit |
| Query.GetParam | src/helpers.js:30 | `get` finds a value iff the name occurs |
| Query.SetPairs | src/helpers.js:58 | `set(n, v)`: afterwards the name occurs exactly once, and `get(n)` returns v |
| Query.SetPairsOtherName | src/helpers.js:58 | set(n, v) leaves each other name's count and value unchanged |
| Query.SetPairsKeepsOthers | src/helpers.js:58 | set(n, v) leaves every pair with another name in place |
| Query.SetPairsKeepsPosition | src/helpers.js:58 | an existing name keeps the position of its first pair, and its later duplicates are removed |
| Query.SetPairsAppends | src/helpers.js:58 | an absent name is appended at the end |
| Query.SetAllSetsEach | src/helpers.js:57-59 | with distinct keys, after all the sets each key occurs once with its own value |
| Query.SetAllKeepsOthers | src/helpers.js:57-59 | pairs whose names are not set are unchanged in content and order |
| Query.SetAllAppends | src/helpers.js:57-59 | distinct keys that are all absent are appended in order |
| Query.SetAllUpdatesThenAppends | src/helpers.js:57-59 | with distinct names, setting them one after another is a single pass over the list, updating names it already holds in place, then the new names appended in order |
| Query.UpdateSetsFirst | src/helpers.js:58 | setting one more name that the list holds replaces its first pair and drops its later pairs |
| Query.UpdateIgnoresAbsent | src/helpers.js:58 | setting one more name that the list lacks leaves the list's part unchanged |
| Query.ReplaceFirstConcat | src/helpers.js:58 | replacing a name's first pair touches only the part of the list that holds it |
| Query.CountConcat | src/helpers.js:58 | the occurrence count adds over concatenation |
| Query.CountWithout | src/helpers.js:58 | removing a set of names leaves no pair with a removed name, and other names' counts unchanged |
| Query.GetWithout | src/helpers.js:58 | removing pairs of other names does not change `get` |
| Query.WithoutConcat | src/helpers.js:58 | removal distributes over concatenation |
| Query.WithoutWithout | src/helpers.js:58 | removing in two steps is removing the union |
| Query.GetConcat | src/helpers.js:58 | `get` on a concatenation looks at the second part only when the first lacks the name |
| Query.ReplaceFirstSetsName | src/helpers.js:58 | replacing the first pair sets the name's single value |
| Query.ReplaceFirstOtherName | src/helpers.js:58 | replacing the first pair leaves other names alone |
| Query.ReplaceFirstKeepsOthers | src/helpers.js:58 | replacing the first pair keeps pairs of other names |
| Query.ReplaceFirstShape | src/helpers.js:58 | the replaced list is the prefix, the new pair, then the rest without the name |
| Query.CountAbsent | src/helpers.js:58 | a name with count 0 is absent from the list |
| Query.Values | lib/main.js:9-12 | querystring.parse collects one value per occurrence of the name, and a value is collected iff some pair holds it under that name |
| Query.FieldAgreesWithGet | lib/main.js:9-12 | the parsed query has a field iff `get` finds the name, and `get`'s value is the first of the field's values |
| Login.TimeoutSeconds | src/login.js:33 | config.timeout when truthy, else 120 |
| Login.ZeroTimeoutIsDefault | src/login.js:33 | a timeout of 0 or undefined becomes 120 |
| Login.TimerDelayMs | src/login.js:41 | the timer delay is timeoutSeconds × 1000 ms when that lies between 1 and 2147483647; otherwise Node uses 1 ms, so the timer fires at once |
| Login.TimerDelays | src/login.js:33-41 | no timeout waits 120000 ms; a timeout of -1 or 3000000 seconds fires after 1 ms |
| Login.TimeoutMessage | src/login.js:39 | 'Timed out after ' + the timeout + ' seconds.', and a non-negative numeric timeout reads back from the text |
| Login.ServerPort | src/login.js:43 | config.port when truthy, else 8000, and the result is always truthy |
| Login.AuthQueryParams | src/login.js:32 | the auth URL gets exactly four distinct keys, in order: id = the generated id, port = config.port, clientId = config.client_id, scope = config.scope |
| Login.ServerVerdict | src/login.js:44-53 | resolves with the code iff the code is truthy and state.id equals the generated id; otherwise rejects with 'error code=' followed by the code |
| Login.MatchingCallbackResolves | src/login.js:44-48 | a browser callback carrying a state whose id matches and a non-empty code makes the server resolve, and the login resolves with that code |
| Login.MismatchedCallbackRejects | src/login.js:49-52 | a callback whose state id does not match makes the login reject with 'error code=<code>' |
| Login.LoginAttempt.constructor | src/login.js:29-41 | the id comes from the random bytes; the auth URL is built by authSiteUrl and carries id once with the generated id, and port, clientId and scope as String() of the config values; the timeout and port defaults are applied; the login starts pending with the timer armed |
| Login.LoginAttempt.TimerFired | src/login.js:38-41 | a timer that is still armed rejects with 'Timed out after <n> seconds.'; a cleared timer changes nothing; a settled outcome never changes |
| Login.LoginAttempt.ServerResult | src/login.js:43-53 | the first server result clears the timer and settles by ServerVerdict unless already settled; a settled outcome never changes |
| Login.LoginAttempt.ServerRejected | src/login.js:43-53 | a rejected createServer promise has no handler, so the outcome and the timer are unchanged |
| ElectronMain.ExitWith | lib/main.js:14-22 | success writes JSON `{code, state}` to stdout and exits 0; failure writes `{message, state}` to stderr and exits 1; an undefined state is not written; reading the stream and payload back gives the outcome |
| ElectronMain.Force | lib/main.js:38 | true iff argv[4] exists and is exactly 'true' |
| ElectronMain.Startup | lib/main.js:24-38 | through getArg: a missing argv[2] fails with 'Missing authentication URL', a missing argv[3] fails with 'Missing callback URL', and otherwise the arguments are read, with force from argv[4] or its default 'false' |
| ElectronMain.CallbackOutcome | lib/main.js:40-57 | a URL not starting with the callback URL is ignored; otherwise a truthy code succeeds with the code and takes precedence; else a truthy error fails with it; else 'Unexpected Callback received: <url>'; the state field is carried in every case |
| ElectronMain.CodeBeatsError | lib/main.js:50-53 | a callback with a code succeeds even when an error is present |
| ElectronMain.LoadFailedMessage | lib/main.js:80 | 'Failed to load <url>\nReason: <description> (<code>)', and the error code reads back from between the parentheses |
| ElectronMain.ElectronWindow.constructor | lib/main.js:59-117 | the window is set, nothing is reported yet, the storage is cleared iff force, and the auth state is taken from the auth URL |
| ElectronMain.ElectronWindow.Navigate | lib/main.js:85-95 | all three navigation events go through handleCallback: a callback URL drops `win` and reports its outcome; any other URL changes nothing |
| ElectronMain.ElectronWindow.DidFailLoad | lib/main.js:73-83 | only a failure of the auth URL drops `win` and fails with 'Failed to load <url>\nReason: <desc> (<code>)' and the auth URL's own state; other failures change nothing |
| ElectronMain.ElectronWindow.Closed | lib/main.js:97-103 | closing while `win` is set fails with 'User terminated the browser without authenticating' and the auth URL's state; after a callback or a load failure it reports nothing |
| Proxy.ConnectString | src/proxy.js:72-73 | the connect string is `hostname:port`: with colon-free parts it splits back into the hostname ('null' when there is none) and the explicit port, or 80 for 'http:' and 443 for any other protocol when the port is missing or empty |
| Proxy.IsCallback | src/proxy.js:116-122 | a host without ':' gets ':443' (secure) or ':80' appended before comparison; a host with ':' is compared unchanged |
| Proxy.HttpsDefaultPortIsCallback | src/proxy.js:72-73 | for an https callback without a port, the bare Host header is recognised |
| Proxy.ExplicitPortIsCallback | src/proxy.js:72-73 | with an explicit port, 'host:port' is recognised whatever the scheme |
| Proxy.HttpDefaultPortNeedsExplicitPort | src/proxy.js:159 | because requests are matched as secure, an http callback without a port is recognised only as 'host:80', not as a bare host |
| Proxy.SendStatus | src/proxy.js:21-27 | status and body as given; Content-Length is the decimal UTF-8 byte length of the message; Content-Type is text/plain |
| Proxy.ContentLengthOfAscii | src/proxy.js:23 | Content-Length equals the character count iff the message is ASCII, and otherwise lies between the count and four times the count |
| Proxy.ContentLengthOfConcat | src/proxy.js:23 | the byte length of a concatenated message is the sum of its parts' lengths |
| Proxy.OnRequest | src/proxy.js:157-196 | a missing Host throws; the callback check comes first and delivers request.url; otherwise a host that is not 'localhost' and has no '.' is blocked; everything else is forwarded |
| Proxy.CallbackBeforeForbidden | src/proxy.js:159-170 | a dotless host that is the callback authority is delivered, and the same host is blocked when it is not the callback authority |
| Proxy.ImmediateReply | src/proxy.js:159-170 | a callback gets 200 with the thanks message, a blocked host gets 403 'Forbidden', both through sendStatus |
| Proxy.ForwardFailedReply | src/proxy.js:188-191 | a failed forward gets 502 'not operational. ignoring request to <url>' with its byte length |
| Proxy.SplitFirstPiece | src/proxy.js:135 | the first piece of `split(':')` ends at the first colon |
| Proxy.SplitFirstTwo | src/proxy.js:135 | with a colon, the first two pieces and the colon between them are a prefix of the URL |
| Proxy.SplitSingle | src/proxy.js:135 | a split has a single piece, the whole string, iff there is no colon |
| Proxy.ConnectTarget | src/proxy.js:131-138 | the connect string tunnels to the proxy's own address (a throw when it has none); any other URL gives a colon-free host and an optional colon-free port, which together form a prefix of the URL |
| Proxy.ConnectToHostPort | src/proxy.js:133-135 | CONNECT host:port tunnels to exactly that host and port |
| Proxy.ConnectDropsExtraPieces | src/proxy.js:135 | `split(':', 2)` drops everything after the second piece |
| Proxy.CallbackAuthorityTunnelsToSelf | src/proxy.js:133-134 | a CONNECT to the callback authority is tunnelled to the proxy itself |
| Proxy.ProxyServer.constructor | src/proxy.js:63-86 | the connect string is derived from the callback URL, and the server is open and not yet bound |
| Proxy.ProxyServer.Listen | src/proxy.js:88-97 | proxyUrl becomes 'https://<address>:<port>'; listen rejects on a terminated server and on one already listening (ERR_SERVER_ALREADY_LISTEN), changing nothing |
| Proxy.ProxyServer.Terminate | src/proxy.js:99-113 | the server is closed at most once, because the field is dropped after the first close |
| Proxy.ProxyServer.Request | src/proxy.js:157-163 | routes by OnRequest and hands exactly the callback URLs to dataCallback |
| Text.NatToString | src/proxy.js:23 | the decimal rendering of a count is non-empty and made of digits |
| Text.ParseNatToString | src/proxy.js:23 | the decimal rendering parses back to the number |
| Text.IntToString | lib/main.js:80 | the rendering of an integer starts with '-' iff the integer is negative, and the digits after the sign read back as its magnitude |
| Text.Utf8LengthBounds | src/proxy.js:23 | the byte length is between 1 and 4 times the character count, and equals it iff the text is ASCII |
| Text.Utf8LengthConcat | src/proxy.js:23 | the byte length adds over concatenation |
| Text.FirstIndex | src/proxy.js:117 | `indexOf` finds the first occurrence, or reports none |
| Text.SplitPiecesHaveNoSeparator | src/proxy.js:135 | no piece of a split contains the separator |
| Text.JoinSplit | src/proxy.js:135 | joining the pieces of a split gives the string back |
| Text.SplitJoin | src/ims-oauth_server_to_server.js:62 | splitting a join of separator-free pieces gives the pieces back, so the joined key list is unambiguous |
| Text.SplitAfterPiece | src/proxy.js:135 | a separator-free piece followed by the separator splits off as its own piece |
| Text.JoinCons | src/ims-oauth_server_to_server.js:62 | joining one more piece in front adds that piece and one separator |
| JsValues.FalsyValues | src/ims-oauth_server_to_server.js:36-40 | a value is falsy exactly when it is undefined, null, false, 0 or '' |
| JsValues.GetAfterAssign | src/helpers.js:32 | reading a property after assigning it gives the assigned value, and other properties keep theirs |
| JsValues.OrTruthy | src/login.js:33 | `a || b` is one of its operands, a when a is truthy, and it is truthy iff either operand is |
| JsValues.Index0Reads | src/ims-oauth_server_to_server.js:78 | `v[0]` is an array's first element, a string's first character as a string, an object's field '0', and undefined for an empty array or string |
| JsValues.NumberTextRoundTrip | src/login.js:39 | a number's template-literal text is an optional '-' and digits that read back as its magnitude |
| JsValues.NumberTextInjective | lib/main.js:80 | different numbers render as different texts |

## Left out

- Real I/O is not modelled: the HTTP and HTTPS servers, `listen`'s socket, piping, `http.request` forwarding, `net.connect` tunnelling, the client-error reply, openssl certificate generation, and the certificate file reads and removal. Requests are values, and replies and actions are records.
- `server.close()` after the callback server's reply is I/O, so `Helpers.HandleRequest` returns the settlement and the reply but does not model closing the server.
- Timers and polling are events, not time: `setTimeout`/`clearTimeout` in login.js, and the 100 ms poll in ims-oauth.js, which becomes the `KeepPolling` verdict.
- The spinner, console output, `cli.url`/`cli.open`, debug logging and the Electron window's size and show are UI, and are left out.
- `JSON.parse`, `new URL`, `url.parse`, percent-encoding and `href` serialisation stay abstract:
  - parsing is a parameter;
  - URLs are given as fields and query pairs.
- `crypto.randomBytes` and `Date.now()` are parameters.
- `ims.getSusiUrl`, `ims.getAccessToken`, `ims.getAccessTokenByClientCredentials`, `login` (as called from ims-cli.js) and the Electron launcher are external collaborators. They are recorded as the call they receive.
- src/electron.js, src/browser.js and src/errors.js are not part of this model. The '[IMSOAuthSDK:MISSING_PROPERTIES]' prefix and the '%s' substitution happen in an error library that is also not part of it, so `ServerToServer.CanSupport` stops at the error code and its `messageValues`.
- Numbers are integers: the model has no NaN, floating point or fractional timeouts. A non-numeric `timeout` has no modelled timer delay.
- Two JavaScript property-read details are not modelled:
  - `JsValues.Get` of a key on a non-object is undefined, including the inherited properties of strings and arrays (none of the keys read is one).
  - `JsValues.Index0` of undefined or null is undefined, where JavaScript throws. `config.client_secrets[0]` is read only after canSupport has found `client_secrets` truthy, so it never meets those values.
- `Helpers.WithCode` leaves an array unchanged, where JavaScript would add a `code` property to it.
- `app.exit`: the process ends, but not always before further code runs.
  - At module start, before `ready`, the process exits at once. So `ElectronMain.Startup` reports only the first missing argument, and the undefined values that `getArg` would go on to return are not modelled.
  - Once the window exists, events already queued can still arrive. So `ElectronMain.ElectronWindow` records every `_failApp`/`_succeedApp` call in order, and the first one is the outcome the launching process reads. Events after the window's `closed` are ignored.
- `Proxy.ProxyServer.Request`: requests that arrive after `terminate` are handled like any other, because closing the server does not stop connections that are already open.
