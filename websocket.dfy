/**
 * The OMP WebSocket front end of a region: the `Server` that authenticates
 * new connections and keeps the live clients, and the `Client` session that
 * negotiates interfaces with its peer before any remote call is allowed.
 * Both classes live in one module because each refers to the other.
 */
module WebSocket {
  import opened Wrappers
  import opened Lists
  import opened Kiara
  import opened Negotiation
  import ServicePath

  newtype uint32 = x: int | 0 <= x < 0x1_0000_0000

  const InterfaceIdl := "http://yellow.cg.uni-saarland.de/home/kiara/idl/interface.kiara"
  const ConnectServerIdl := "http://yellow.cg.uni-saarland.de/home/kiara/idl/connectServer.kiara"
  const ConnectClientIdl := "http://yellow.cg.uni-saarland.de/home/kiara/idl/connectClient.kiara"

  const ImplementsFunction := "omp.interface.implements"
  const RegionHandshakeFunction := "omp.connect.regionHandshake"

  /** The interfaces a client session serves to its peer. */
  const LocalInterfaces: seq<string> := [InterfaceIdl, ConnectServerIdl]
  /** The interfaces a client session requires its peer to implement. */
  const RemoteInterfaces: seq<string> := [InterfaceIdl, ConnectClientIdl]
  /** The remote functions bound once negotiation succeeds. */
  const RemoteFunctions: seq<string> := [RegionHandshakeFunction]
  /** The fixed list behind the server's static `InterfaceImplements`. */
  const ServerSupportedInterfaces: seq<string> := [InterfaceIdl, ConnectServerIdl]

  /** The client's `InterfaceImplements` delegate, as registered with its connection. */
  const ImplementsResponder := LocalFunction(ImplementsFunction)

  /** The function table that binding `funcs` produces: one fresh wrapper per name. */
  function Bindings(funcs: seq<string>): (m: map<string, FunctionWrapper>)
    ensures forall f :: f in m <==> f in funcs
    ensures forall f :: f in m ==> m[f] == GenerateFunctionWrapper(f)
  {
    if funcs == [] then map[]
    else
      var f := funcs[|funcs| - 1];
      Bindings(funcs[..|funcs| - 1])[f := GenerateFunctionWrapper(f)]
  }

  /** The `implements(name)` queries sent for `names`, in order. */
  function Queries(names: seq<string>): (q: seq<Invocation>)
    ensures |q| == |names|
    ensures forall i :: 0 <= i < |names| ==> q[i] == Invocation(ImplementsFunction, [Text(names[i])])
  {
    if names == [] then []
    else Queries(names[..|names| - 1]) + [Invocation(ImplementsFunction, [Text(names[|names| - 1])])]
  }

  /** What `Call` throws for a name with no bound wrapper. */
  function NotRegistered(name: string): (e: Error)
    ensures e.code == InvalidArgument
    ensures |e.message| == |"Function "| + |name| + |" is not registered."|
    ensures e.message[..|"Function "|] == "Function " && e.message[|"Function "|..|"Function "| + |name|] == name
    ensures e.message[|"Function "| + |name|..] == " is not registered."
  {
    Error(InvalidArgument, "Function " + name + " is not registered.")
  }

  /**
   * The server-side session of one connected viewer. The captured variables
   * of the negotiation callbacks become fields; the ghost fields record what
   * the callbacks did outside those variables (see `Negotiation.Progress`).
   */
  class Client {
    const connection: Connection
    const server: Server
    /** Remote functions callable through `Call`, by name. */
    var functions: map<string, FunctionWrapper>
    /** The interfaces this side answers `true` for. */
    var supportedInterfaces: seq<string>
    var numInterfaces: nat
    var loadedInterfaces: nat
    var failedToLoad: bool
    /** Set by `RegisterEvents`. */
    var eventsRegistered: bool
    ghost var failure: Option<FailureReport>
    ghost var removals: nat
    ghost var activations: nat

    /** The negotiation state as the pure state machine sees it. */
    ghost function Snapshot(): Progress
      reads this
    {
      Progress(numInterfaces, loadedInterfaces, failure, removals, activations)
    }

    /**
     * The session invariant: the local interfaces are advertised, the flag
     * agrees with the recorded failure, the counters are consistent, and the
     * function table is bound exactly when the events are registered.
     */
    ghost predicate Valid()
      reads this
    {
      && supportedInterfaces == LocalInterfaces
      && numInterfaces == |RemoteInterfaces|
      && failedToLoad == failure.Some?
      && Consistent(Snapshot())
      && eventsRegistered == (activations == 1)
      && functions == (if eventsRegistered then Bindings(RemoteFunctions) else map[])
    }

    /** A new session over `connection`; it advertises its interfaces and sends its queries. */
    constructor (connection: Connection, server: Server)
      modifies connection
      ensures this.connection == connection && this.server == server
      ensures Valid() && Snapshot() == Init(|RemoteInterfaces|) && !eventsRegistered
      ensures connection.loadedIdls == old(connection.loadedIdls) + set u | u in LocalInterfaces
      ensures connection.implementations == old(connection.implementations)[ImplementsFunction := ImplementsResponder]
      ensures connection.outbox == old(connection.outbox) + Queries(RemoteInterfaces)
    {
      this.connection := connection;
      this.server := server;
      functions := map[];
      supportedInterfaces := [];
      eventsRegistered := false;
      new;
      ConfigureInterfaces();
    }

    /**
     * Advertises and loads the local interfaces, registers the
     * `omp.interface.implements` responder, resets the negotiation variables
     * and sends one `implements(name)` query per required remote interface.
     */
    method ConfigureInterfaces()
      requires supportedInterfaces == [] && functions == map[] && !eventsRegistered
      modifies this, connection
      ensures Valid() && Snapshot() == Init(|RemoteInterfaces|) && !eventsRegistered
      ensures connection.loadedIdls == old(connection.loadedIdls) + set u | u in LocalInterfaces
      ensures connection.implementations == old(connection.implementations)[ImplementsFunction := ImplementsResponder]
      ensures connection.outbox == old(connection.outbox) + Queries(RemoteInterfaces)
    {
      AdvertiseInterfaces(LocalInterfaces);

      connection.RegisterFuncImplementation(ImplementsFunction, ImplementsResponder);

      numInterfaces := |RemoteInterfaces|;
      loadedInterfaces := 0;
      failedToLoad := false;
      failure, removals, activations := None, 0, 0;

      var implements := GenerateFunctionWrapper(ImplementsFunction);
      SendQueries(implements, RemoteInterfaces);
    }

    /** Appends each interface to the advertised list and loads its description, in order. */
    method AdvertiseInterfaces(uris: seq<string>)
      modifies this`supportedInterfaces, connection
      ensures supportedInterfaces == old(supportedInterfaces) + uris
      ensures connection.loadedIdls == old(connection.loadedIdls) + set u | u in uris
      ensures connection.implementations == old(connection.implementations)
      ensures connection.outbox == old(connection.outbox)
    {
      for i := 0 to |uris|
        invariant supportedInterfaces == old(supportedInterfaces) + uris[..i]
        invariant connection.loadedIdls == old(connection.loadedIdls) + set u | u in uris[..i]
        invariant connection.implementations == old(connection.implementations)
        invariant connection.outbox == old(connection.outbox)
      {
        assert uris[..i + 1] == uris[..i] + [uris[i]];
        supportedInterfaces := supportedInterfaces + [uris[i]];
        connection.LoadIDL(uris[i]);
      }
      assert uris[..|uris|] == uris;
    }

    /** Calls the `implements` wrapper once per interface name, in order. */
    method SendQueries(implements: FunctionWrapper, names: seq<string>)
      requires implements.func == ImplementsFunction
      modifies connection
      ensures connection.outbox == old(connection.outbox) + Queries(names)
      ensures connection.loadedIdls == old(connection.loadedIdls)
      ensures connection.implementations == old(connection.implementations)
    {
      for i := 0 to |names|
        invariant connection.outbox == old(connection.outbox) + Queries(names[..i])
        invariant connection.loadedIdls == old(connection.loadedIdls)
        invariant connection.implementations == old(connection.implementations)
      {
        assert names[..i + 1][..i] == names[..i];
        var call := connection.Invoke(implements, [Text(names[i])]);
      }
      assert names[..|names|] == names;
    }

    /**
     * `errorCallback`: the first failure sets the flag, records the report and
     * asks the server to remove this client; any later one does nothing.
     */
    method OnError(interfaceName: string, reason: string)
      requires Valid()
      modifies this, server
      ensures Valid()
      ensures Snapshot() == Step(old(Snapshot()), Errored(interfaceName, reason))
      ensures functions == old(functions) && eventsRegistered == old(eventsRegistered)
      ensures server.clients ==
        if old(failedToLoad) then old(server.clients) else RemoveFirst(old(server.clients), this)
    {
      if failedToLoad {
        return;
      }
      failedToLoad := true;
      failure := Some(FailureReport(interfaceName, reason));
      removals := removals + 1;
      server.RemoveClient(this);
    }

    /** `excCallback`: an exception is an error with its own reason. */
    method OnException(interfaceName: string)
      requires Valid()
      modifies this, server
      ensures Valid()
      ensures Snapshot() == Step(old(Snapshot()), Excepted(interfaceName))
      ensures functions == old(functions) && eventsRegistered == old(eventsRegistered)
      ensures server.clients ==
        if old(failedToLoad) then old(server.clients) else RemoveFirst(old(server.clients), this)
    {
      OnError(interfaceName, ExceptionReason);
    }

    /**
     * `resultCallback`: ignored once failed; `false` is an error; `true`
     * counts one more loaded interface, and the last one binds the remote
     * functions and registers the events.
     */
    method OnResult(interfaceName: string, result: bool)
      requires Valid()
      modifies this, server
      ensures Valid()
      ensures Snapshot() == Step(old(Snapshot()), Returned(interfaceName, result))
      ensures server.clients ==
        if !old(failedToLoad) && !result then RemoveFirst(old(server.clients), this)
        else old(server.clients)
    {
      if failedToLoad {
        return;
      }
      if !result {
        OnError(interfaceName, UnsupportedReason);
      } else {
        loadedInterfaces := loadedInterfaces + 1;
        if loadedInterfaces == numInterfaces {
          for i := 0 to |RemoteFunctions|
            modifies this`functions
            invariant functions == Bindings(RemoteFunctions[..i])
          {
            assert RemoteFunctions[..i + 1][..i] == RemoteFunctions[..i];
            functions := functions[RemoteFunctions[i] := GenerateFunctionWrapper(RemoteFunctions[i])];
          }
          assert RemoteFunctions[..|RemoteFunctions|] == RemoteFunctions;
          RegisterEvents();
        }
      }
    }

    /** Marks the session as activated; what it would register is not part of this model. */
    method RegisterEvents()
      modifies this`eventsRegistered, this`activations
      ensures eventsRegistered && activations == old(activations) + 1
    {
      eventsRegistered := true;
      activations := activations + 1;
    }

    /** Hands one completion to the callback registered for its kind. */
    method Deliver(e: Completion)
      requires Valid()
      modifies this, server
      ensures Valid()
      ensures Snapshot() == Step(old(Snapshot()), e)
      ensures server.clients ==
        if !old(failedToLoad) && failedToLoad then RemoveFirst(old(server.clients), this)
        else old(server.clients)
    {
      match e
      case Errored(name, reason) => OnError(name, reason);
      case Excepted(name) => OnException(name);
      case Returned(name, result) => OnResult(name, result);
    }

    /**
     * Delivers the completions one at a time, in the order given: the
     * callbacks serialised. The server removes this client at most once,
     * when the first failure arrives.
     */
    method DeliverAll(events: seq<Completion>)
      requires Valid()
      modifies this, server
      ensures Valid()
      ensures Snapshot() == Run(old(Snapshot()), events)
      ensures server.clients ==
        if !old(failedToLoad) && failedToLoad then RemoveFirst(old(server.clients), this)
        else old(server.clients)
    {
      for i := 0 to |events|
        invariant Valid()
        invariant Snapshot() == Run(old(Snapshot()), events[..i])
        invariant old(failedToLoad) ==> failedToLoad
        invariant server.clients ==
          if !old(failedToLoad) && failedToLoad then RemoveFirst(old(server.clients), this)
          else old(server.clients)
      {
        assert events[..i + 1][..i] == events[..i];
        Deliver(events[i]);
      }
      assert events[..|events|] == events;
    }

    /** The `omp.interface.implements` responder: exactly the two advertised interfaces. */
    function InterfaceImplements(interfaceUri: string): (r: bool)
      reads this
      requires Valid()
      ensures r <==> interfaceUri == InterfaceIdl || interfaceUri == ConnectServerIdl
    {
      interfaceUri in supportedInterfaces
    }

    /**
     * Forwards to the wrapper bound under `name`; an unbound name throws
     * `INVALID_ARGUMENT` and sends nothing.
     */
    method Call(name: string, args: seq<Arg>) returns (r: Result<FunctionCall, Error>)
      modifies connection
      ensures name in functions ==>
        && r == Success(FunctionCall(|old(connection.outbox)|))
        && connection.outbox == old(connection.outbox) + [Invocation(functions[name].func, args)]
      ensures name !in functions ==> r == Failure(NotRegistered(name)) && unchanged(connection)
      ensures connection.loadedIdls == old(connection.loadedIdls)
      ensures connection.implementations == old(connection.implementations)
    {
      if name in functions {
        var call := connection.Invoke(functions[name], args);
        r := Success(call);
      } else {
        r := Failure(NotRegistered(name));
      }
    }

    /**
     * Sends the region handshake packet (here an opaque payload). Before the
     * negotiation has bound the remote functions it throws instead of sending.
     */
    method SendRegionHandshake(handshake: seq<int>) returns (r: Result<FunctionCall, Error>)
      requires Valid()
      modifies connection
      ensures !eventsRegistered ==> r == Failure(NotRegistered(RegionHandshakeFunction)) && unchanged(connection)
      ensures eventsRegistered ==>
        && r == Success(FunctionCall(|old(connection.outbox)|))
        && connection.outbox == old(connection.outbox) + [Invocation(RegionHandshakeFunction, [Opaque(handshake)])]
      ensures connection.loadedIdls == old(connection.loadedIdls)
      ensures connection.implementations == old(connection.implementations)
    {
      r := Call(RegionHandshakeFunction, [Opaque(handshake)]);
    }
  }

  /** The WebSocket endpoint of one region and its list of live clients. */
  class Server {
    const regionLocX: nat
    const regionLocY: nat
    /** `AuthenticateSession(sessionID, agentID, code).Authorised`, an outside check. */
    const authenticate: (string, string, uint32) -> bool
    var clients: seq<Client>

    constructor (regionLocX: nat, regionLocY: nat, authenticate: (string, string, uint32) -> bool)
      ensures this.regionLocX == regionLocX && this.regionLocY == regionLocY
      ensures this.authenticate == authenticate && clients == []
    {
      this.regionLocX := regionLocX;
      this.regionLocY := regionLocY;
      this.authenticate := authenticate;
      clients := [];
    }

    /** The path this region's handler is registered under; it names this region's coordinates. */
    function RegionServicePath(): (path: string)
      ensures ServicePath.ParseRegionServicePath(path) == Some((regionLocX, regionLocY))
    {
      ServicePath.ParseRegionServicePathRoundTrip(regionLocX, regionLocY);
      ServicePath.RegionServicePath(regionLocX, regionLocY)
    }

    /** Drops the first occurrence of `client`; the others keep their order. */
    method RemoveClient(client: Client)
      modifies this
      ensures clients == RemoveFirst(old(clients), client)
    {
      clients := RemoveFirst(clients, client);
    }

    /**
     * The `omp.connect.useCircuitCode` handler: an authorised session appends
     * one new client over `conn`; otherwise nothing changes and no client is made.
     */
    method ConnectUseCircuitCode(conn: Connection, code: uint32, agentId: string, sessionId: string)
      modifies this, conn
      ensures authenticate(sessionId, agentId, code) ==>
        && |clients| == |old(clients)| + 1
        && clients[..|old(clients)|] == old(clients)
        && fresh(clients[|old(clients)|])
        && clients[|old(clients)|].connection == conn
        && clients[|old(clients)|].server == this
        && clients[|old(clients)|].Valid()
        && clients[|old(clients)|].Snapshot() == Init(|RemoteInterfaces|)
        && conn.loadedIdls == old(conn.loadedIdls) + set u | u in LocalInterfaces
        && conn.implementations == old(conn.implementations)[ImplementsFunction := ImplementsResponder]
        && conn.outbox == old(conn.outbox) + Queries(RemoteInterfaces)
      ensures !authenticate(sessionId, agentId, code) ==> clients == old(clients) && unchanged(conn)
    {
      if authenticate(sessionId, agentId, code) {
        var client := new Client(conn, this);
        clients := clients + [client];
      }
    }

    /**
     * `ConnectUseCircuitCode` when some query completions are handled after
     * the client's constructor has sent its queries but before the client is
     * appended. A failure among them asks for a removal while the client is
     * not yet in the list, so the removal does nothing, and the failed client
     * is then appended and stays listed.
     */
    method ConnectWithEarlyCompletions(conn: Connection, code: uint32, agentId: string, sessionId: string,
                                       early: seq<Completion>)
      modifies this, conn
      ensures authenticate(sessionId, agentId, code) ==>
        && |clients| == |old(clients)| + 1
        && clients[..|old(clients)|] == old(clients)
        && fresh(clients[|old(clients)|])
        && clients[|old(clients)|].Valid()
        && clients[|old(clients)|].connection == conn
        && clients[|old(clients)|].server == this
        && clients[|old(clients)|].Snapshot() == Run(Init(|RemoteInterfaces|), early)
        && (clients[|old(clients)|].failedToLoad <==> !AllConfirm(early))
        && conn.loadedIdls == old(conn.loadedIdls) + set u | u in LocalInterfaces
        && conn.implementations == old(conn.implementations)[ImplementsFunction := ImplementsResponder]
        && conn.outbox == old(conn.outbox) + Queries(RemoteInterfaces)
      ensures !authenticate(sessionId, agentId, code) ==> clients == old(clients) && unchanged(conn)
    {
      if authenticate(sessionId, agentId, code) {
        var client := new Client(conn, this);
        assert client !in clients;
        client.DeliverAll(early);
        RemoveFirstDeletesFirstOccurrence(old(clients), client);
        FailsIffSomeCompletionFails(|RemoteInterfaces|, early);
        clients := clients + [client];
      }
    }

    /** The server's own `omp.interface.implements` responder: membership in its fixed list. */
    static function InterfaceImplements(interfaceUri: string): (r: bool)
      ensures r <==> interfaceUri == InterfaceIdl || interfaceUri == ConnectServerIdl
    {
      IndexOf(ServerSupportedInterfaces, interfaceUri) != -1
    }
  }
}
