# Ficsit Remote Monitoring client — a Dafny model of its decision logic

The client is a thin typed wrapper around the HTTP API of the Ficsit Remote
Monitoring game-mod server. Every public method makes one request through
`makeRequest`, then normalises the JSON it gets back with `formatBodyRaw`. This
project models the pure logic inside `src/index.ts` and proves properties of it.

- **`formatBodyRaw`** (`FormatBody.Format`) works over a JavaScript value
  datatype (`Js.Value`). An object is its ordered list of entries, in
  `Object.entries` order.
  - Arrays are mapped element by element.
  - Each object key is rewritten: `"ID"` becomes `"id"`, and any other key has
    its first character lower-cased (`KeyCase.NormalizeKey`).
  - Values are normalised recursively. The object is then rebuilt by
    `Object.fromEntries`, so when two keys normalise alike a later entry's
    value overwrites an earlier one's, in the earlier one's position.
  - All other values are returned unchanged.
  - `null` has `typeof` "object". It reaches `Object.entries(null)` and throws a
    TypeError, wherever it sits in the body. The model returns that as a
    `Failure`.
- **Property lists** (`Entries`). An `Obj` lists an object's own properties,
  so its keys are distinct, at every depth (`Entries.WellFormed`). `JSON.parse`
  has already settled any key the text repeats before the client sees a body. One write primitive, `Put`, is behind
  `Object.fromEntries`, object spread and property assignment. It replaces the
  value of an existing key in place and appends a new key.
- **Construction** (`BaseUrl`, `Request.NewClient`). The constructor's loop strips
  every trailing `/` from the base URL, then `:` and the port in decimal are
  appended.
- **Write bodies** (`WireBody`).
  - `setEnabled` sends `{ID, status}`.
  - `setSwitches` copies each parameter, then sets its `id` to undefined and
    adds an `ID` holding the old `id`.
    It rewrites a single parameter or an array, keeping whichever shape it
    was given.
- **`makeRequest` decisions** (`Request`). The exchange with the server is a
  parameter (`FetchResult`). The model covers these decisions:
  - The auth precondition, and the `X-FRM-Authorization` header.
  - Rejecting a body that is not of type object, or a response that the
    acceptability predicate refuses. The default predicate is `res.ok`; `ping`
    uses `status < 500`.
  - The error message taken from the body's `error` field, and the TypeError
    raised when that value cannot be converted to a string for the error's text.
  - Relabelling a refused connection: a TypeError whose cause is an
    AggregateError with code `ECONNREFUSED`.

Behaviour of the code worth noting:

- A body that fails to parse as JSON is not turned into a request error. The
  SyntaxError from `res.json()` is not a TypeError, so the `catch` block
  rethrows it unchanged (src/index.ts:117, 128-138; `Request.MakeRequestUnparsable`).
- `null` passes the `typeof resBody !== "object"` check. A `null` body with a
  refused status throws a TypeError while `resBody.error` is read, not a
  request error. A `null` body with an accepted status throws from
  `formatBodyRaw` (src/index.ts:118-124, 151; `Request.ClassifyNull`).
- The normaliser is not total: any nested `null` makes it throw (src/index.ts:149-151).
- An empty token is falsy, so it fails the auth check like a missing one
  (src/index.ts:107).

JavaScript enumerates integer-like keys first, in ascending order, then the
other keys in insertion order. Lower-casing the first character never turns an
integer-like key into another kind of key, or the reverse. So rebuilding the
object with `Object.fromEntries` keeps that order, and the model's entry order
stays consistent without modelling it.

## Model

| member | source | states |
|---|---|---|
| Js.Typeof | src/index.ts:118 | `typeof` is "object" exactly for null, arrays and objects, so null gets past the object check |
| Entries.LookupDefined | src/index.ts:186 | a property read finds a value exactly for the keys the object holds |
| Entries.PutShape | src/index.ts:150 | assignment yields key set old ∪ {k}, grows by one only for a new key, adds no entry other than k: v, keeps keys distinct |
| Entries.PutLookup | src/index.ts:150 | after assigning k, k reads as the new value and every other key reads as before |
| Entries.AssignShape | src/index.ts:150 | successive assignments yield exactly the union of keys, no more entries than given, only given entries, distinct keys |
| Entries.AssignLookup | src/index.ts:150 | a later assignment wins: each key reads as the last value given to it, else as in the target |
| Entries.FromEntriesShape | src/index.ts:150 | `Object.fromEntries` keeps one entry per distinct input key (never more keys than entries) and each key holds its last value |
| Entries.FromEntriesOfDistinct | src/index.ts:150 | on entries with distinct keys `Object.fromEntries` rebuilds the same list |
| Entries.PutFresh | src/index.ts:186 | assigning a key not yet present appends it at the end |
| Entries.PutPut | src/index.ts:186 | of two assignments to the same key the second wins |
| Entries.PutSame | src/index.ts:186 | assigning a key the value it already reads as changes nothing |
| Entries.LookupIsLastOnDistinct | src/index.ts:150 | on an object with distinct keys, reading the first and the last entry with a key agree |
| Entries.LastValueAt | src/index.ts:150 | the value of the last entry with a key is the one that survives |
| KeyCase.LowerAscii | src/index.ts:152 | lower-cases A–Z only (`toLowerCase` restricted to ASCII) and leaves every other character alone; the result is never upper-case |
| KeyCase.NormalizeKey | src/index.ts:152 | the rewrite keeps the length, never yields "ID" and never starts upper-case; a key other than "ID" keeps its remainder with its first character lowered |
| KeyCase.NormalizeKeyShape | src/index.ts:152 | the rewrite keeps the length and the remainder, lowers the first character unless the key is "ID", never yields "ID", and fixes exactly the keys that are empty or do not start upper-case |
| KeyCase.NormalizeKeyIdempotent | src/index.ts:152 | rewriting a rewritten key changes nothing |
| KeyCase.SwitchFixtureKeys | test/root.test.ts:87-98 | "ID"→"id", "Status"→"status", "id" and "" unchanged |
| KeyCase.ChatFixtureTimeKeys | test/root.test.ts:106-107 | "TimeStamp"→"timeStamp", "ServerTimeStamp"→"serverTimeStamp" |
| KeyCase.ChatFixtureSenderKeys | test/root.test.ts:108-109 | "Sender"→"sender", "Type"→"type" |
| KeyCase.ChatFixtureBodyKeys | test/root.test.ts:110-111 | "Message"→"message", "Color"→"color" |
| KeyCase.ColorFixtureKeys | test/root.test.ts:112-115 | "R", "G", "B", "A" become "r", "g", "b", "a" |
| FormatBody.Format | src/index.ts:142-158 | throws only the `Object.entries(null)` TypeError; arrays stay arrays of the same length with the i-th element normalised; objects stay objects; every other value is returned unchanged |
| FormatBody.FormatItems | src/index.ts:147 | `map` succeeds iff every element does, keeps the length, and puts the normalised i-th element at i |
| FormatBody.FormatFields | src/index.ts:151-154 | each entry becomes (rewritten key, normalised value), in order; fails iff some value fails |
| FormatBody.FormatSucceedsIffNullFree | src/index.ts:149-151 | `formatBodyRaw` throws exactly when the body contains a null anywhere |
| FormatBody.FormatObject | src/index.ts:150-155 | an object is rebuilt with exactly the rewritten keys, each once, at most as many as the input has; a key's value comes from the last input entry that rewrites to it |
| FormatBody.FormatIdCollision | src/index.ts:150-152 | `{ID: a, id: b}` becomes `{id: b}`: the later spelling wins |
| FormatBody.FormatYieldsNormal | src/index.ts:145-158 | every result is in the client's shape: no null, distinct keys, every key its own rewrite |
| FormatBody.NormalIsWellFormed | src/index.ts:150 | a value in the client's shape has distinct keys at every depth, so what `formatBodyRaw` returns is a well-formed value again |
| FormatBody.FormatFixesNormal | src/index.ts:145-158 | a body already in the client's shape is returned unchanged |
| FormatBody.FormatIdempotent | src/index.ts:145-158 | for a null-free body, normalising twice equals normalising once |
| FormatBody.FormatRenamesKeys | src/index.ts:150-153 | an object whose rewritten keys are distinct is rebuilt entry by entry, in order |
| FormatBody.ColorFixture | test/root.test.ts:111-116 | `{R,G,B,A}` becomes `{r,g,b,a}` with the same numbers |
| FormatBody.ChatMessageFixture | test/root.test.ts:101-133 | a chat message with PascalCase keys and a nested colour comes out camelCase throughout, values unchanged |
| BaseUrl.TrimTrailingSlashes | src/index.ts:64 | the trimmed base is a prefix of the input, does not end in `/`, and only slashes were removed |
| BaseUrl.TrimRemovesExactlyTheRun | src/index.ts:64 | a string not ending in `/` followed by any run of slashes trims back to exactly that string |
| BaseUrl.TrimIdempotent | src/index.ts:64 | trimming a trimmed base changes nothing |
| BaseUrl.TrimLoop | src/index.ts:64 | the while loop ends (length decreases) with a prefix not ending in `/`, having removed only slashes, equal to the trim |
| BaseUrl.NatToString | src/index.ts:65 | the port is rendered as a non-empty run of digits with no leading zero |
| BaseUrl.ParseNatToString | src/index.ts:65 | the rendered digits read back as the port |
| BaseUrl.ApiBaseUrlRoundTrip | src/index.ts:64-65 | splitting `API_BASE_URL` at its last `:` gives back the trimmed base and the port |
| BaseUrl.DefaultApiBaseUrl | src/index.ts:60-65 | the default client's base address is `http://localhost:8080` |
| WireBody.SetEnabledBodyShape | src/index.ts:179 | the body has exactly the keys `ID` and `status`, holding the id and status; normalising it gives `{id, status}` |
| WireBody.SwitchWireParam | src/index.ts:185-187 | the wire form has the parameter's keys plus `id` and `ID`; `id` reads undefined and `ID` reads the parameter's `id`, or undefined without one |
| WireBody.SwitchWireParamFields | src/index.ts:185-187 | for any parameter the wire form has distinct keys and every key other than `id` and `ID` reads the parameter's last value for it |
| WireBody.SwitchWireRoundTrip | src/index.ts:185-187 | normalising the wire form of a client-shaped parameter with an `id` gives back the parameter |
| WireBody.SetSwitchesBody | src/index.ts:191 | a single parameter gives an object and an array gives an array of the same length |
| WireBody.SetSwitchesBodyPointwise | src/index.ts:185-191 | each parameter, single or at index i of the array, is sent as an object with distinct keys where `ID` reads its old `id`, `id` reads undefined, and every other key reads as in the parameter |
| WireBody.SetSwitchesRoundTrip | src/index.ts:184-191 | normalising the whole `setSwitches` body gives back the parameters, in the same single-or-array shape |
| Request.NewClient | src/index.ts:59-66 | keeps port and token; the base address splits back into the trimmed base URL and the port |
| Request.Prepare | src/index.ts:105-109 | fails with "Token was not provided" iff auth is requested without a truthy token; otherwise the only header is `X-FRM-Authorization: token`, and only when auth is requested |
| Request.ErrorMessageOf | src/index.ts:121 | the message is the body's non-nullish `error` property, else the fallback text; reading it from null or undefined throws a TypeError |
| Request.ErrorMessageOfPut | src/index.ts:121 | the message is the value the body's `error` property was set to, or the fallback text when that value is null or undefined |
| Request.Relabel | src/index.ts:129-138 | a refused connection keeps its cause and gets the old message followed by the hint; every other error is unchanged |
| Request.AuthFailsBeforeRequest | src/index.ts:106-107 | without a token an authenticated call fails the same way whatever the network does |
| Request.Classify | src/index.ts:117-127 | success only for an accepted non-null body of type object, and then the result is its normalisation; a request error only for a refused response or a body not of type object, carrying the status, the raw body and a message that converts to a string |
| Request.ClassifyRejects | src/index.ts:117-127 | a non-null body is rejected with a request error carrying the status exactly when it is not of type object or the predicate refuses the response and its message converts to a string (src/index.ts:49); a message that does not convert raises the TypeError instead; otherwise the body is normalised |
| Request.MakeRequest | src/index.ts:95-140 | without a token an authenticated call fails before any request; a success comes from a parsed, accepted body of type object and is its normalisation; a network rejection is relabelled and never succeeds |
| Request.MakeRequestParsed | src/index.ts:111-138 | once the token check passes, a response with a parsed body ends exactly as the body checks decide (request error, TypeError or normalised body), with nothing relabelled |
| Request.MakeRequestUnparsable | src/index.ts:117 | a body that does not parse rethrows its SyntaxError unchanged, whatever the status |
| Request.ClassifyNull | src/index.ts:118-124 | a `null` body always ends in a TypeError: from reading `error` when refused, from `formatBodyRaw` when accepted |
| Request.ClassifyErrorsKept | src/index.ts:128-138 | errors raised after a response arrived are never relabelled |
| Request.RequestErrorCarriesStatus | src/index.ts:118-123 | a request error comes from a parsed response and carries its status and raw body |
| Request.MakeRequestResultIsNormal | src/index.ts:124-127 | what `makeRequest` returns is in the client's shape, so normalising it again changes nothing |
| Request.Ping | src/index.ts:164-169 | a ping succeeds only when a response arrived with status below 500 and a null-free object or array body; a network rejection fails it |
| Request.PingOutcome | src/index.ts:164-166 | with a null-free object body a ping succeeds below status 500, needs no token, and from 500 fails with a request error carrying the status, or with the TypeError when the message does not convert to a string |
| Request.PingNotFound | test/root.test.ts:60-66 | a 404 ping succeeds, where the default predicate would reject the same response |
| Request.PingConnectionRefused | test/root.test.ts:69-76 | a refused connection makes `ping` reject with the original message plus the hint |
| Request.SetSwitches | src/index.ts:184-198 | the second `formatBodyRaw` in `setSwitches` leaves `makeRequest`'s result unchanged |
| Request.SetEnabled | src/index.ts:175-183 | without a token `setEnabled` fails with the token error; a success comes from an `ok` response with a parsed body and is in the client's shape |
| Request.SetEnabledFixture | test/root.test.ts:87-98 | the server's `[{ID, Status}]` comes back as `[{id, status}]` |

## Left out

- `buildUrl` (src/index.ts:70-72) is left out. It calls the `URL` constructor of the WHATWG URL Standard, a foreign library. `Outgoing` keeps the base address and the endpoint unresolved.
- `fetch`, `Headers`, `res.json()` and async control flow are left out. How the exchange ended is a `FetchResult` parameter: a rejection (always a TypeError, as `fetch` gives on a network error), an unparsable body, or a status and a parsed value. `res.ok` is computed from the status.
- Zod schemas, `validateBody`, `validateIsObject`, `validateIsObjectArray` and the types imported from `@/types` are left out. They are library calls, or definitions outside `src/types.ts`. No method passes `validationSchema`, so that branch of `makeRequest` is not modelled.
- The `z.parse(ObjectArraySchema, …)` between `makeRequest` and the second `formatBodyRaw` in `setSwitches` is treated as the identity.
- `ping`'s latency is left out because it is wall-clock `Date` arithmetic. `Request.Ping` says only whether the call succeeds.
- `createPing`, `sendChatMessage` and the read methods (`getChatMessages`, `getSessionInfo`, `getPlayers`, `getFactory`, the per-machine getters, `getSwitches`) are left out. `createPing` is an authenticated `makeRequest` whose result is discarded, with no parse. The other methods pass the `makeRequest` result through a check, then `formatBodyRaw`, then a zod parse. The check is `z.parse(ObjectArraySchema, …)` in `getChatMessages` (and in `setSwitches`), `validateIsObject` in `sendChatMessage` and `getSessionInfo`, and `validateIsObjectArray` in `getPlayers`, `getFactory`, the per-machine getters and `getSwitches`. Only their shared `makeRequest` decisions, and the no-op second `formatBodyRaw` (`Request.MakeRequestResultIsNormal`), are modelled.
- The `Color` and `ChatMessage` interfaces of `src/types.ts` are left out because they have no behaviour. The chat fixture uses plain values.
- `FicsitRemoteMonitoringRequestError`'s formatted message string is not built. The error keeps its status code, the message value and the raw body. Whether the message value converts to a string is modelled (`Request.Renders`): an object with its own `toString` key, at any depth of arrays, makes the conversion throw a TypeError. Custom `toString` functions cannot occur in a parsed JSON body, so no other conversion failure is possible.
- `JSON.stringify` of request bodies is left out. The wire bodies are the JavaScript objects before serialisation, so `id: undefined` is still present.
- KeyCase.LowerAscii: lower-cases ASCII letters only. JavaScript's `toLowerCase` also maps non-ASCII upper-case characters, which this model leaves unchanged.
- BaseUrl.NatToString: renders a non-negative integer port. A template literal renders negative, fractional or very large (1e21 and up) numbers differently, and those are not modelled.
- Request.IsConnectionRefused compares the cause's `code` as a string. JavaScript's loose `==` with non-string codes is not modelled.
- Request.Prepare: `Headers.set` trims surrounding whitespace from the token and throws a TypeError on CR, LF, NUL or characters above U+00FF. The `Headers` class is a foreign API, so the header value is the token as given and that failure is not modelled.
- `JSON.parse` is left out: a parsed body is given as a value. A key that the JSON text repeats is settled by the parse, so the model's objects never repeat a key (`Entries.WellFormed`). A list that repeats a key is not a JavaScript object, and the model claims nothing about it matching JavaScript.
