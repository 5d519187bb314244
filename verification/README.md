# Mock registry and request matching, modelled in Dafny

This project models the core of a programmable HTTP stub server. Callers register
mocks: a name, a request (path and method) and a response or an ordered sequence of
responses. Any other request is looked up by the key `path + "__" + method` and
answered with the stored response. The model covers:

- the registry in `src/models/Mock.js`: `add` (one mock or a batch), `find` (exact-key
  lookup, consuming sequenced responses first-in first-out), `all`, `clear`, the Joi
  schema, and key generation;
- the request handlers in `src/mocks/controllers.js`, as pure functions from
  (registry, request) to (registry', outcome), where the outcome is a reply with its
  delay or a thrown error;
- the error middleware in `src/middleware/errorHandler.js`, which maps an error name to
  a status;
- the route table in `src/mocks/routes.js`, which dispatches to list, add, clear or find;
- one exchange end to end (`Server.Serve`), wired as `src/app.js` does.

Modules, leaves first: `Options`, `Json`, `Text` (ASCII case mapping), `Errors` (error
kinds and messages), `Keys`, `Schema`, `MockRegistry`, `RegistryLaws` (properties
relating several calls), `Controllers`, `ErrorHandler`, `Routes`, `Server`.
`method` is a keyword in Dafny, so the request method is called `verb` throughout.

The registry is a map from key to the submitted mock. It also keeps its keys in
first-assignment order, which is the order `Object.keys` lists them in. `Valid` is the
registry invariant:

- each key is listed once;
- every stored mock passed the schema;
- every stored mock sits under its own storage key.

`MockRegistry.EmptyValid` shows the empty registry is valid, and every operation
preserves `Valid`. Operations that need the invariant (`All`, `Controllers.ListMocks`,
`Controllers.FindMock`, `Server.Handle`, `Server.Serve`) require it.

## Behaviour of the code worth knowing

- **What is stored.** The stored value is the mock as submitted, not Joi's converted value. The schema defaults (`body` `{}`, `timeout` 0) are never stored. A mock submitted without a body replies with an undefined body (`Controllers.ReplyUsesSubmittedResponse`).
- **What `method` accepts.** `method` is optional. `.allow(...)` only whitelists the five verbs and does not exclude other values, so any non-empty string passes. A missing method is stored under `<path>__undefined` (`Keys.MissingMethodCollides`). No upper-case request can reach that key (`Controllers.MethodlessMockNeverServed`).
- **Duplicate rejection can be bypassed.** The collision check builds its key from the raw request. The storage key uses the upper-cased method. So a resubmission whose method differs only in case passes the check and overwrites the stored mock in place (`RegistryLaws.CaseVariantOverwrites`). A mock added with a lower-case method is not found by its own request (`RegistryLaws.LowerCaseMethodMissesOwnRequest`).
- **Collision before validation.** The collision check runs first, so an invalid mock on an occupied key reports AlreadyExists, not Validation.
- **Batches commit partially.** Elements stored before the first failure stay stored (`RegistryLaws.BatchStopsAtFirstFailure`).
- **Lookup uses the whole URL.** `find` looks up with the full original URL, query string included, so a request with a query string misses a mock registered for the bare path (`Server.HelloWithQueryMissed`). Stored response headers are never sent.
- **The delay.** The delay before a reply is the response's `timeout` field, in milliseconds; an absent or zero timeout means no delay.

## Model

| member | source | states |
|---|---|---|
| Text.Upper | src/models/Mock.js:20-21 | Joi's `.uppercase()` keeps the length and upper-cases each ASCII letter, position by position |
| Keys.KeyOf | src/models/Mock.js:129-131 | the key is as long as the rendered path, the two-character separator and the rendered method together |
| Keys.KeyOfSplits | src/models/Mock.js:129-131 | the key splits back into the rendered path, then "__", then the rendered method, a missing field rendering as "undefined" |
| Keys.SamePathKeyDeterminesMethod | src/models/Mock.js:129-131 | on one path, two keys are equal exactly when the methods are equal |
| Keys.JoinInjective | src/models/Mock.js:129-131 | `path__method` keys are injective when neither method contains '_' |
| Keys.JoinNotInjective | src/models/Mock.js:129-131 | without that restriction, "/a" with "b__c" and "/a__b" with "c" share a key |
| Keys.MissingMethodCollides | src/models/Mock.js:130 | a missing method renders as "undefined", so it shares its key with the literal method "undefined" |
| Keys.PrototypeKeySplit | src/models/Mock.js:129-131 | a key that names an inherited object property comes only from an empty path or an empty method |
| Schema.SpecViolation | src/models/Mock.js:9-14 | a response is rejected exactly when its body is neither an object nor an array, its headers are not an object, or its statusCode is missing or outside 200..599; the reported violation holds of it |
| Schema.SequenceViolation | src/models/Mock.js:27 | a response array is rejected exactly when some element is, and the report names an offending index |
| Schema.FirstViolation | src/models/Mock.js:16-30 | nothing is reported exactly when every schema constraint holds; a reported violation is one the mock really breaks |
| Schema.Validate | src/models/Mock.js:119-127 | succeeds exactly on valid mocks. The converted value keeps name and path, upper-cases the method, and fills in body `{}` and timeout 0. A failure is a ValidationError naming a broken constraint |
| MockRegistry.EmptyValid | src/models/Mock.js:7 | the initial empty store satisfies the registry invariant |
| MockRegistry.Locate | src/models/Mock.js:109-118 | finds a mock exactly when one is stored under the request's raw key, and returns that mock |
| MockRegistry.Put | src/models/Mock.js:52 | the key now holds the given mock and every other entry is unchanged; a new key goes last in the key order, an existing key keeps its place |
| MockRegistry.AddOne | src/models/Mock.js:39-55 | an occupied raw key throws "Mock already exists" and changes nothing, whatever the mock's validity. Otherwise an invalid mock throws a ValidationError and changes nothing. A valid mock is stored verbatim under `path__METHOD`, a new key going last. The invariant is preserved |
| MockRegistry.AddAll | src/models/Mock.js:37-55 | processes the elements in order. Keys are never removed. On success every element's storage key is present. The invariant is preserved |
| MockRegistry.Add | src/models/Mock.js:32-37 | a single mock is treated as a one-element batch; on success every submitted mock's storage key is present |
| MockRegistry.All | src/models/Mock.js:58-65 | lists every stored mock exactly once, in key order, as many values as keys |
| MockRegistry.Clear | src/models/Mock.js:67-70 | the store becomes empty (and valid) |
| MockRegistry.ParseFromResponseArray | src/models/Mock.js:85-107 | a non-sequence comes back unchanged. An empty sequence throws the exhaustion NotFoundError. Otherwise the returned single response followed by the remaining sequence is exactly the stored sequence, with name and request kept |
| MockRegistry.Find | src/models/Mock.js:72-107 | an absent key gives nothing and no change. A single response is returned as stored, with no change. An empty sequence throws. A non-empty sequence returns the mock with its first response and leaves the rest stored. Only the looked-up entry can change, and no key is added or removed. On a valid registry every result is one valid single response |
| RegistryLaws.AddThenFind | src/models/Mock.js:48-52 | a valid single-response mock with an upper-case or missing method is found again unchanged by its own request |
| RegistryLaws.LowerCaseMethodMissesOwnRequest | src/models/Mock.js:40-51 | a mock whose method is not upper case is stored but not found by its own request |
| RegistryLaws.DuplicateRejected | src/models/Mock.js:42-45 | re-adding under an occupied key throws AlreadyExists and the original entry stays, whatever the new mock contains |
| RegistryLaws.CaseVariantOverwrites | src/models/Mock.js:40-52 | a resubmission differing only in method case passes the collision check and replaces the stored mock in place |
| RegistryLaws.InvalidRejected | src/models/Mock.js:46-48 | an invalid mock on a free key throws a ValidationError and leaves the registry unchanged |
| RegistryLaws.AddAllAppend | src/models/Mock.js:39-55 | adding `a + b` is adding `a` and then, unless that threw, adding `b` |
| RegistryLaws.BatchStopsAtFirstFailure | src/models/Mock.js:37-55 | when element i is the first to throw, the call throws that error and keeps exactly what elements before i stored |
| RegistryLaws.AllAfterFreshAdd | src/models/Mock.js:58-61 | adding under a fresh key appends exactly the submitted mock to `all()` |
| RegistryLaws.BatchOfTwoIsSequential | src/models/Mock.js:37-39 | a two-element batch is the first add followed, unless it threw, by the second |
| RegistryLaws.BatchOfTwo | src/models/Mock.js:37-55 | a batch of two fresh valid mocks stores both, listed in submission order |
| RegistryLaws.SequenceDrainsInOrder | src/models/Mock.js:100-104 | n finds on an N-element sequence (n ≤ N) return its first n elements in order, and the stored sequence keeps the rest |
| RegistryLaws.SequenceThenExhausted | src/models/Mock.js:94-98 | after all N elements are handed out, the next find throws the exhaustion NotFoundError and changes nothing |
| RegistryLaws.EmptySequenceReachable | src/models/Mock.js:27 | an empty response array passes validation, so the exhaustion error is reachable straight after add |
| RegistryLaws.LocateDecidesAddAndFind | src/models/Mock.js:109-118 | add throws AlreadyExists exactly when the lookup finds something for the raw request; find returns nothing exactly when the lookup finds nothing |
| RegistryLaws.PrototypeKeyNeedsInvalidMock | src/models/Mock.js:109-113 | a raw key naming an inherited object property ("__proto__" and the like) only comes from a mock the schema rejects |
| RegistryLaws.ClearForgetsEverything | src/models/Mock.js:67-70 | after clear, `all()` is empty, every find returns nothing, and clear is idempotent |
| Controllers.AddMocks | src/mocks/controllers.js:5-10 | forwards `body.data` to `add`: 201 "CREATED" exactly when it did not throw, else its error; partial stores are kept either way |
| Controllers.ListMocks | src/mocks/controllers.js:12-15 | 200 with exactly `all()`: one value per stored key, in key order, containing every stored mock; the registry is unchanged |
| Controllers.ClearMocks | src/mocks/controllers.js:17-20 | empties the registry and answers 200 "DELETED" |
| Controllers.RequestOf | src/mocks/controllers.js:23-27 | the lookup key is the full original URL joined with the method as received |
| Controllers.WaitMs | src/mocks/controllers.js:39-40 | the falsy fallback only matters for an absent timeout: the delay is the stored timeout when present, zero included, else 0 |
| Controllers.FindMock | src/mocks/controllers.js:22-45 | looks up by original URL and method as received. No match throws NotFound "<method> <url> mock not found". An exhaustion error passes through. A match replies with the response's status code (always 200..599), its body as stored, and its timeout |
| Controllers.HeadersIgnored | src/mocks/controllers.js:23-29 | request headers do not affect the outcome |
| Controllers.ReplyUsesSubmittedResponse | src/mocks/controllers.js:42-44 | a single stored response is replayed with its submitted status, body and timeout, without Joi defaults and without headers |
| Controllers.MethodlessMockNeverServed | src/mocks/controllers.js:23-29 | a mock stored without a method is unreachable by a request whose method is upper case and has no '_' |
| ErrorHandler.StatusAsWritten | src/middleware/errorHandler.js:2-18 | as written, the status is undefined exactly for the names of inherited object properties; otherwise it is the table's own entry, or 500 |
| ErrorHandler.InheritedNameHasNoStatus | src/middleware/errorHandler.js:18 | as written, an error named "toString" finds an inherited property and gets no status |
| ErrorHandler.StatusFor | src/middleware/errorHandler.js:2-18 | 409, 404 and 400 for exactly AlreadyExistsError, NotFoundError and ValidationError; 500 for every other name; nothing else |
| ErrorHandler.AsWrittenAgreesOffPrototype | src/middleware/errorHandler.js:18 | the written lookup and the corrected one agree on every name that is not an inherited property |
| ErrorHandler.Handle | src/middleware/errorHandler.js:17-23 | the reply echoes the original name and message; its status is 400, 404, 409 or 500, is 500 exactly when the name has no own entry other than Default, and equals the written lookup's status wherever that lookup finds one |
| Routes.PathOf | src/mocks/routes.js:8-11 | the path Express routes on is the URL's prefix before its first '?' |
| Routes.Dispatch | src/mocks/routes.js:8-11 | the catch-all is reached exactly when the URL's path is not "/mocks" or the method is not GET, HEAD, POST or DELETE |
| Routes.MocksRoutes | src/mocks/routes.js:8-10 | GET, POST and DELETE on "/mocks" reach list, add and clear |
| Routes.OtherPathsReachFind | src/mocks/routes.js:11 | every other path reaches find, whatever the method |
| Routes.QueryIgnored | src/mocks/routes.js:8-11 | a query string plays no part in routing |
| Server.Handle | src/app.js:16-20 | every routed handler keeps the registry invariant |
| Server.Serve | src/app.js:16-20 | keeps the invariant. Every core error reaches the client as 400, 404 or 409. Every reply from a mock has a status in 200..599 |
| Server.CoreErrorReplies | src/middleware/errorHandler.js:2-23 | AlreadyExists, NotFound and Validation errors reach the client as 409, 404 and 400 with their own name and message |
| Server.HelloRegisters | src/test/integration/mocks.integration.js:10-20 | posting the hello mock answers 201 "CREATED" and stores it verbatim under "/hello__GET" |
| Server.HelloReplays | src/test/integration/request.integration.js:19-29 | GET /hello then replays status 200 and the stored body with no delay |
| Server.HelloWrongMethod | src/mocks/controllers.js:30-37 | POST /hello then answers 404 NotFoundError "POST /hello mock not found" |
| Server.HelloWithQueryMissed | src/mocks/controllers.js:23-37 | GET /hello?x=1 is routed to find, but the lookup key holds the whole URL, so it answers 404 "GET /hello?x=1 mock not found" |
| Server.MocksPathShadowed | src/mocks/routes.js:8-11 | GET, POST and DELETE on "/mocks" never replay a mock; they answer with a listing or a fixed text |

## Left out

- Logging (`src/lib/logger.js`, `src/middleware/logger.js`, every `logger.*` call and the `console.log` in the error middleware): side effects only.
- Transport and bootstrap: Express, body-parser, CORS (including the `OPTIONS *` handler that answers before the router), `src/index.js`. A request is a plain (method, original URL, headers, parsed `data`) value.
- The real-time delay: `setTimeout` is not modelled. The handler returns the delay in milliseconds. Node's clamping of delays below 1 ms is not modelled either.
- Joi internals beyond the schema's listed constraints: unknown-key rejection, numeric-string and float coercion, and non-string values in string fields. JSON numbers, status codes and timeouts are integers here.
- Errors.Describe: the ValidationError message imitates Joi's default English messages. Joi's exact wording and labels depend on its version, which is not part of this model. The model carries the broken constraint itself (`Errors.Violation`), chosen as the first one in schema key order.
- Text.Upper: only ASCII letters are case-mapped. `toLocaleUpperCase`'s full Unicode mapping (for example 'ß' to "SS") is not modelled.
- TypeError crashes: a body without `data`, or a mock without `request`, makes `add` throw a TypeError (answered 500). The input types make `data` and `request` always present.
- Registry keys that name `Object.prototype` members ("__proto__" and the like): the store is modelled as own properties only. Such a key needs an empty raw path or an empty raw method: path "" with method "proto__", or path "__proto" (likewise "__defineGetter") with method "". So only mocks the schema rejects are affected (`RegistryLaws.PrototypeKeyNeedsInvalidMock`): on them the code's lookup finds the inherited property and reports AlreadyExists (409), where the model reports a ValidationError (400). A request reaching `find` cannot form such a key, since its URL does not start with "_" and its method is not empty.
- JavaScript aliasing: the stored mock is the caller's object, and `find` mutates it. The `NODE_ENV=test` export of `currentMocks` is left out too. The model has values, not shared references.
- Error classes and inheritance (`src/lib/errors.js`): replaced by the `Errors.Error` datatype with `Name` and `Message`.
- `src/services/inMemoryStore.js`: empty stubs with nothing to model. The demo server and UI tests are also left out.
- Express routing details beyond those modelled: the path is the URL before '?', matched case-insensitively with one optional trailing slash, and a GET route answers HEAD. That is the routed path of an origin-form request target only: an absolute-form target such as `GET http://h/mocks` is routed on its path "/mocks" and reaches `list`, while the model sends it to `find`. Percent-decoding and fragments are not modelled either.

## Findings

| source | as written | input that shows it | evidently intended | confidence | as-written member | corrected member |
|---|---|---|---|---|---|---|
| src/middleware/errorHandler.js:18 | `errors[err.name] \|\| errors.Default` also finds properties every object inherits, which have no `statusCode` | an error whose `name` is "toString" (or "constructor", "valueOf", ...) finds no status code; `res.status(undefined)` then fails inside Node, so instead of a 500 JSON body `{error, message}` the client gets Express's default HTML 500 page. No error this application raises carries such a name, so the defect is latent | every name outside the table's own entries answers 500 | medium; not executed | ErrorHandler.StatusAsWritten, shown by ErrorHandler.InheritedNameHasNoStatus | ErrorHandler.StatusFor, used by ErrorHandler.Handle and Server.Serve |
