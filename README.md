# OMP WebSocket session negotiation, modelled in Dafny

This project models the core of the OMP add-on's WebSocket front end for an
OpenSimulator region.

- A `Server` owns the region's endpoint path, `"/region/<x>x<y>"`.
- It accepts `omp.connect.useCircuitCode` requests. Each authorised request creates one `Client` session and appends it to the list of live clients.
- Each `Client` advertises its local interfaces and registers the `omp.interface.implements` responder.
- It then asks its peer once per required remote interface whether the peer implements it.
- It folds the completions of those queries into one decision. The first failure removes the client from the server. When all required interfaces are confirmed, the client binds its remote functions and registers its events.
- Until that binding happens, `Call` refuses every name.

Files:

- `negotiation.dfy` (module `Negotiation`) is the pure state machine of the three callbacks. `Step` handles one completion and `Run` a serialised sequence of them. The lemmas here are the main results: at-most-once removal, at-most-once success, first failure wins, the bound on the counter, and exactly one outcome when each query completes once.
- `websocket.dfy` (module `WebSocket`) holds the classes `Client` and `Server`. Their fields are the source's fields and the captured variables. Each callback is a method whose new state is `Step` of the old one. `DeliverAll` feeds a sequence of completions in one order.
- `kiara.dfy` (module `Kiara`) is the RPC connection, kept abstract:
  - a set of loaded interface descriptions;
  - a map of registered local functions;
  - an outbox of sent invocations;
  - function wrappers as opaque tokens.
- `service_path.dfy` (module `ServicePath`) covers the decimal formatting of the coordinates, the region service path, and a parser that inverts it.
- `lists.dfy` (module `Lists`) models `Array.IndexOf` and `List<T>.Remove`.
- `wrappers.dfy` (module `Wrappers`) defines `Option` and `Result`.

Three behaviours of the code are worth stating directly, because they limit what is proved:

- The required remote interfaces are not deduplicated. `numInterfaces` is simply the length of the fixed list of two.
- With zero required interfaces there is no immediate success. Success is only reached inside the result callback, right after an increment. `Negotiation.NoSuccessWithoutInterfaces` states this.
- The error callback checks only the failure flag and never the success state. If a query completed twice, a failure could follow a success. So mutual exclusion of success and failure is proved only when each query completes exactly once (`Negotiation.ExactlyOneOutcome`).

Two more choices:

- `RemoveClient` removes the first occurrence, by reference, from an ordered list of clients.
- `RegisterFuncImplementation` overwrites an existing entry. The server's `HandleNewClient` has already registered `omp.interface.implements` on the same connection, and the client registers it again. KIARA's own duplicate handling is not part of this model.

## Model

| member | source | states |
|---|---|---|
| `Lists.IndexOf` | WebSocket/Server.cs:122 | the result is -1 exactly when the element is absent; otherwise it is the first position holding it |
| `Lists.RemoveFirst` | WebSocket/Server.cs:71 | `List<T>.Remove`: the list loses one element when the client is present and none otherwise, and gains nothing (the exact result is `RemoveFirstDeletesFirstOccurrence`) |
| `Lists.RemoveFirstDeletesFirstOccurrence` | WebSocket/Server.cs:69-72 | removing an absent client leaves the list unchanged; otherwise exactly the first occurrence is deleted and the others keep their order |
| `Lists.RemoveFirstMultiset` | WebSocket/Server.cs:69-72 | removal takes away one copy of the client if there is one, and nothing else |
| `Lists.RemoveFirstIdempotent` | WebSocket/Server.cs:69-72 | for a client present at most once, a second removal leaves the list as the first one left it |
| `Negotiation.OnError` | WebSocket/Client.cs:94-100 | `errorCallback`: afterwards the flag is set; the first call records the interface and reason and adds one removal, and a later call changes nothing; the counter and the success count are untouched |
| `Negotiation.Step` | WebSocket/Client.cs:94-122 | the three callbacks: once failed, nothing changes; a completion that does not confirm records its report and one removal; a `true` result adds one to the counter and runs the success path when the counter reaches the required number |
| `Negotiation.Run` | WebSocket/Client.cs:124-132 | the completions handled one at a time, in order; the required number never changes and a recorded failure is never replaced (the full outcome is `RunFromInit`) |
| `Negotiation.RunAppend` | WebSocket/Client.cs:124-132 | runs compose: handling `a` and then `b` leaves the same state as handling `a + b`, so several delivery batches are one serialised run |
| `Negotiation.FailsIffSomeCompletionFails` | WebSocket/Client.cs:94-112 | from the initial state, the session fails exactly when some completion is an error, an exception or a `false` result |
| `Negotiation.FirstFailure` | WebSocket/Client.cs:107-122 | reference definition: every completion before the result confirms its interface; the one at the result, if any, does not |
| `Negotiation.RunFromInit` | WebSocket/Client.cs:90-122 | after any serialised sequence of completions: the counter equals the number of confirmations before the first failure; the recorded failure is that completion's; one removal exactly when something failed; one success exactly when the counter reached the required number (at least one) |
| `Negotiation.FailedIsFinal` | WebSocket/Client.cs:95-96 | once `failedToLoad` is set, no later error, exception or result changes anything |
| `Negotiation.LoadedGrowsByAtMostOnePerCompletion` | WebSocket/Client.cs:113-114 | `loadedInterfaces` never decreases and gains at most one per completion |
| `Negotiation.LoadedWithinBounds` | WebSocket/Client.cs:90-91 | with at most one completion per query, `loadedInterfaces` stays within `0..numInterfaces` |
| `Negotiation.AtMostOnce` | WebSocket/Client.cs:94-120 | whatever completions arrive, `RemoveClient` is requested at most once and the success path runs at most once |
| `Negotiation.FirstFailureWins` | WebSocket/Client.cs:94-112 | the first error, exception or `false` result after confirmations decides the report (interface and reason) and the single removal; nothing later replaces it |
| `Negotiation.CompletionsMatchQueries` | WebSocket/Client.cs:126-132 | if each query completes exactly once, there are as many completions as queries |
| `Negotiation.ExactlyOneOutcome` | WebSocket/Client.cs:107-132 | if each of N ≥ 1 queries completes exactly once: success exactly when all returned `true`, failure exactly when one did not, never both and never neither |
| `Negotiation.NoSuccessWithoutInterfaces` | WebSocket/Client.cs:113-120 | with zero required interfaces the success path never runs |
| `ServicePath.DecimalString` | WebSocket/Server.cs:86 | a coordinate's text is non-empty, all decimal digits, one digit exactly below 10, and starts with '0' only for 0 (no leading zeros, as `uint.ToString()`) |
| `ServicePath.RegionServicePath` | WebSocket/Server.cs:86 | the path starts with "/region/" and has the "x" right after the first coordinate's digits (that it parses back is `ParseRegionServicePathRoundTrip`) |
| `ServicePath.ParseDecimalString` | WebSocket/Server.cs:86 | reading a coordinate's decimal text back gives the coordinate |
| `ServicePath.ParseRegionServicePathRoundTrip` | WebSocket/Server.cs:84-87 | parsing `"/region/" + x + "x" + y` gives back `(x, y)` |
| `ServicePath.RegionServicePathUnique` | WebSocket/Server.cs:84-87 | two regions share a service path exactly when both coordinates are equal |
| `Kiara.Connection.LoadIDL` | WebSocket/Client.cs:78 | the interface joins the loaded set; nothing else changes |
| `Kiara.Connection.RegisterFuncImplementation` | WebSocket/Client.cs:82-85 | the local function is bound under its name; nothing else changes |
| `Kiara.Connection.Invoke` | WebSocket/Client.cs:127 | calling a wrapper sends exactly one invocation of its function with the given arguments and returns that call's handle |
| `Kiara.GenerateFunctionWrapper` | WebSocket/Client.cs:118 | the wrapper is bound to the remote function it was generated for, so different names give different wrappers |
| `WebSocket.Queries` | WebSocket/Client.cs:126-132 | one `omp.interface.implements(name)` invocation per name, in the order of the names |
| `WebSocket.NotRegistered` | WebSocket/Client.cs:41-42 | the error raised by `Call` has code `INVALID_ARGUMENT` and a message "Function " + name + " is not registered." that names the function |
| `WebSocket.Bindings` | WebSocket/Client.cs:117-118 | the table binds exactly the listed names, each to the wrapper generated for it |
| `WebSocket.Client.constructor` | WebSocket/Client.cs:17-23 | a new session is valid, in the initial negotiation state, not yet bound, and has configured its connection |
| `WebSocket.Client.ConfigureInterfaces` | WebSocket/Client.cs:51-133 | both local interfaces are advertised and loaded; the responder is registered; the counters start at 0 of 2 with no failure; one `implements` query per remote interface is sent, in order |
| `WebSocket.Client.AdvertiseInterfaces` | WebSocket/Client.cs:76-79 | each interface is appended to `m_SupportedInterfaces`, in order, and its description is loaded; nothing else on the connection changes |
| `WebSocket.Client.SendQueries` | WebSocket/Client.cs:124-132 | exactly one `omp.interface.implements(name)` invocation per name is sent, in order; nothing else on the connection changes |
| `WebSocket.Client.OnError` | WebSocket/Client.cs:94-100 | the new state is `Step` of the old one; the first error asks the server to remove this client, and a later one leaves the server's list alone |
| `WebSocket.Client.OnException` | WebSocket/Client.cs:102-105 | an exception takes the error path with reason "exception returned by the client" |
| `WebSocket.Client.OnResult` | WebSocket/Client.cs:107-122 | ignored once failed; `false` takes the error path with reason "not supported by the client"; `true` counts, and the last one binds the remote functions and registers events while keeping the invariant |
| `WebSocket.Client.RegisterEvents` | WebSocket/Client.cs:135-138 | marks the session activated |
| `WebSocket.Client.Deliver` | WebSocket/Client.cs:127-131 | dispatches a completion to its callback; the new state is `Step` of the old one |
| `WebSocket.Client.DeliverAll` | WebSocket/Client.cs:124-132 | serialised completions take the session from its state to `Run` of it; the server drops this client at most once, exactly when the flag is newly set |
| `WebSocket.Client.InterfaceImplements` | WebSocket/Client.cs:46-49 | once configured, true exactly for the two local interface URIs |
| `WebSocket.Client.Call` | WebSocket/Client.cs:36-44 | a bound name forwards one invocation to its wrapper; an unbound name fails with `INVALID_ARGUMENT` "Function <name> is not registered." and sends nothing |
| `WebSocket.Client.SendRegionHandshake` | WebSocket/Client.cs:182 | before binding, the handshake fails at its `Call` and sends nothing; after binding, it sends exactly one `omp.connect.regionHandshake` invocation and returns that call's handle; loaded interfaces and registered functions never change |
| `WebSocket.Server.constructor` | WebSocket/Server.cs:50-55 | a new server has no clients |
| `WebSocket.Server.RegionServicePath` | WebSocket/Server.cs:84-87 | the path parses back to this region's coordinates |
| `WebSocket.Server.RemoveClient` | WebSocket/Server.cs:69-72 | the list becomes `RemoveFirst` of the old list |
| `WebSocket.Server.ConnectUseCircuitCode` | WebSocket/Server.cs:125-134 | when authorised, exactly one fresh, valid client over the connection is appended and the old clients keep their order; the connection has the local interfaces loaded, the responder registered and one query per remote interface sent; otherwise the list and the connection are unchanged |
| `WebSocket.Server.ConnectWithEarlyCompletions` | WebSocket/Server.cs:130-133 | if completions are handled between the client's construction (which sends the queries, WebSocket/Client.cs:22) and the append, a failure among them removes nothing; the client, bound to this connection and this server, is appended anyway, in the state `Run` of those completions, and is listed although failed exactly when one of them does not confirm; the connection has loaded the local interfaces, registered the responder and sent one query per remote interface |
| `WebSocket.Server.InterfaceImplements` | WebSocket/Server.cs:116-123 | true exactly for the two URIs in the server's fixed list |

## Left out

- `WebSocket.Server.ConnectUseCircuitCode`: assumes no query completion is handled before the new client is appended. The constructor has already sent the queries by then, and nothing visible prevents an early completion. `WebSocket.Server.ConnectWithEarlyCompletions` models that other order. There, a failed client is left in the list, because its `RemoveClient` ran before the append.
- Threads: the TODO at WebSocket/Client.cs:88-89 allows concurrent callbacks. The model delivers completions one at a time, in one order.
- Logging through `m_Log`: the failure report the error callback would log is kept as the ghost field `failure`.
- `.On("error" | "result" | "exception", ...)` subscriptions: the completion methods stand for the callbacks. No pending-call handle is tied to its completion.
- `WSConnectionWrapper`, `HandleNewClient`, `Start` and `Stop`: WebSocket upgrade and HTTP handler registration are I/O.
- `WebSocket.Client.SendRegionHandshake`: models only the final `Call`. The packet, with its float terrain heights and random cache id, is an opaque payload.
- `WebSocket.Client.RegisterEvents`: the source body is unfinished, so the model only sets a marker.
- `WebSocket.Server.ConnectUseCircuitCode`: `AuthenticateSession(...).Authorised` is an uninterpreted function held by the server. A malformed UUID string, which would throw while parsing, counts as not authorised. Either way no client is added.
- KIARA internals: schema loading failures, duplicate-registration errors and wire encoding are not modelled. A wrapper is a token naming its remote function.
- The exception object passed to the exception callback is not modelled, because the callback ignores it.
- The `Scene`: only the region's two coordinates are kept. `RegionLocX` and `RegionLocY` are unsigned, so they are modelled as `nat`.
- WebSocket/RegionModule.cs: host lifecycle hooks and a scene list with no logic of their own.
