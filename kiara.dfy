/**
 * The KIARA RPC connection, seen only through the operations the session
 * uses. Loading an interface description adds it to a set; registering a
 * local function adds it to a map; a function wrapper is an opaque token
 * naming the remote function it calls; calling a wrapper sends one
 * invocation, which is appended to the connection's outbox and answered by a
 * handle on the pending call.
 */
module Kiara {

  /** The error codes of `KIARA.Error` that the session raises. */
  datatype ErrorCode = InvalidArgument

  /** A `KIARA.Error` exception. */
  datatype Error = Error(code: ErrorCode, message: string)

  /** An argument of a remote call: a string, or a payload the session does not look into. */
  datatype Arg = Text(text: string) | Opaque(bytes: seq<int>)

  /** What `GenerateFunctionWrapper` hands out: a callable bound to one remote function name. */
  datatype FunctionWrapper = FunctionWrapper(func: string)

  /** The handle on a pending call: the position of its invocation in the outbox. */
  datatype FunctionCall = FunctionCall(id: nat)

  /** One request sent to the peer. */
  datatype Invocation = Invocation(func: string, args: seq<Arg>)

  /** A local delegate registered with the connection, known only by what it implements. */
  datatype LocalFunction = LocalFunction(name: string)

  /**
   * A wrapper for the remote function `func`; generating one sends nothing,
   * and wrappers for different names are different.
   */
  function GenerateFunctionWrapper(func: string): (w: FunctionWrapper)
    ensures w.func == func
  {
    FunctionWrapper(func)
  }

  class Connection {
    /** The interface descriptions loaded so far. */
    var loadedIdls: set<string>
    /** The local functions the peer may call, by name. */
    var implementations: map<string, LocalFunction>
    /** Every invocation sent to the peer, oldest first. */
    var outbox: seq<Invocation>

    /** Loads one interface description; loading one twice changes nothing more. */
    method LoadIDL(uri: string)
      modifies this
      ensures loadedIdls == old(loadedIdls) + {uri}
      ensures implementations == old(implementations) && outbox == old(outbox)
    {
      loadedIdls := loadedIdls + {uri};
    }

    /** Makes `impl` callable by the peer under `name`. */
    method RegisterFuncImplementation(name: string, impl: LocalFunction)
      modifies this
      ensures implementations == old(implementations)[name := impl]
      ensures loadedIdls == old(loadedIdls) && outbox == old(outbox)
    {
      implementations := implementations[name := impl];
    }

    /** Calls a wrapper: sends one invocation and returns the handle on it. */
    method Invoke(wrapper: FunctionWrapper, args: seq<Arg>) returns (call: FunctionCall)
      modifies this
      ensures outbox == old(outbox) + [Invocation(wrapper.func, args)]
      ensures call == FunctionCall(|old(outbox)|)
      ensures loadedIdls == old(loadedIdls) && implementations == old(implementations)
    {
      call := FunctionCall(|outbox|);
      outbox := outbox + [Invocation(wrapper.func, args)];
    }
  }
}
