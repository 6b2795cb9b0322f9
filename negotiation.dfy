/**
 * The capability negotiation of one client session, as a pure state machine.
 *
 * `ConfigureInterfaces` captures three variables in its callbacks:
 * `numInterfaces`, `loadedInterfaces` and `failedToLoad`. Each outstanding
 * `omp.interface.implements` query completes through one of three callbacks
 * (error, exception, result). This module states what one completion does to
 * those variables (`Step`), and what a serialised sequence of completions does
 * (`Run`). Besides the captured variables, a `Progress` records what the
 * callbacks cause outside them: the failure that was reported, how many times
 * the client asked the server to remove it, and how many times the remote
 * functions were bound and the events registered.
 */
module Negotiation {
  import opened Wrappers

  /** How one `implements(interfaceName)` query completed. */
  datatype Completion =
    | Errored(interfaceName: string, reason: string)  // the "error" callback, with the peer's reason
    | Excepted(interfaceName: string)                 // the "exception" callback
    | Returned(interfaceName: string, result: bool)   // the "result" callback

  /** The interface and reason that the failure path reports. */
  datatype FailureReport = FailureReport(interfaceName: string, reason: string)

  const ExceptionReason := "exception returned by the client"
  const UnsupportedReason := "not supported by the client"

  /**
   * The negotiation variables, plus what the callbacks did outside them:
   * `removals` counts calls of `RemoveClient(this)` and `activations` counts
   * runs of the success path (binding `m_Functions`, then `RegisterEvents`).
   */
  datatype Progress = Progress(
    numInterfaces: nat,
    loadedInterfaces: nat,
    failure: Option<FailureReport>,
    removals: nat,
    activations: nat)
  {
    /** The captured `failedToLoad` flag. */
    predicate FailedToLoad() { failure.Some? }
  }

  /** The state right after the queries were sent: nothing loaded, nothing failed. */
  function Init(numInterfaces: nat): Progress
  {
    Progress(numInterfaces, 0, None, 0, 0)
  }

  /** The completion confirms its interface: a `true` result. */
  predicate Confirms(e: Completion)
  {
    e.Returned? && e.result
  }

  /** What the failure path reports for a completion that does not confirm. */
  function ReportOf(e: Completion): FailureReport
    requires !Confirms(e)
  {
    match e
    case Errored(name, reason) => FailureReport(name, reason)
    case Excepted(name) => FailureReport(name, ExceptionReason)
    case Returned(name, _) => FailureReport(name, UnsupportedReason)
  }

  /** `errorCallback`: only the first failure is recorded and removes the client. */
  function OnError(s: Progress, interfaceName: string, reason: string): (r: Progress)
    ensures r.FailedToLoad()
    ensures s.FailedToLoad() ==> r.failure == s.failure
    ensures !s.FailedToLoad() ==> r.failure == Some(FailureReport(interfaceName, reason))
    ensures r.removals == s.removals + (if s.FailedToLoad() then 0 else 1)
    ensures r.numInterfaces == s.numInterfaces
    ensures r.loadedInterfaces == s.loadedInterfaces && r.activations == s.activations
  {
    if s.FailedToLoad() then s
    else s.(failure := Some(FailureReport(interfaceName, reason)), removals := s.removals + 1)
  }

  /**
   * One completion. An exception goes through `errorCallback`; a `false`
   * result too. A `true` result counts one more loaded interface, and the
   * count reaching `numInterfaces` runs the success path.
   */
  function Step(s: Progress, e: Completion): (r: Progress)
    ensures r.numInterfaces == s.numInterfaces
    ensures s.FailedToLoad() ==> r == s
    ensures !s.FailedToLoad() && !Confirms(e) ==>
      r == s.(failure := Some(ReportOf(e)), removals := s.removals + 1)
    ensures !s.FailedToLoad() && Confirms(e) ==>
      && r.loadedInterfaces == s.loadedInterfaces + 1
      && r.failure == s.failure && r.removals == s.removals
      && r.activations == s.activations + (if r.loadedInterfaces == s.numInterfaces then 1 else 0)
  {
    match e
    case Errored(name, reason) => OnError(s, name, reason)
    case Excepted(name) => OnError(s, name, ExceptionReason)
    case Returned(name, result) =>
      if s.FailedToLoad() then s
      else if !result then OnError(s, name, UnsupportedReason)
      else
        var loaded := s.loadedInterfaces + 1;
        s.(loadedInterfaces := loaded,
           activations := if loaded == s.numInterfaces then s.activations + 1 else s.activations)
  }

  /**
   * The completions delivered one after another, in the order given. The
   * number of required interfaces never changes, and a recorded failure is
   * never cleared or replaced.
   */
  function Run(s: Progress, events: seq<Completion>): (r: Progress)
    ensures r.numInterfaces == s.numInterfaces
    ensures s.FailedToLoad() ==> r.failure == s.failure
  {
    if events == [] then s
    else Step(Run(s, events[..|events| - 1]), events[|events| - 1])
  }

  /** Runs compose: delivering `a` and then `b` is delivering `a + b`. */
  lemma {:induction false} RunAppend(s: Progress, a: seq<Completion>, b: seq<Completion>)
    ensures Run(s, a + b) == Run(Run(s, a), b)
    decreases |b|
  {
    if b == [] {
      assert a + b == a;
    } else {
      assert (a + b)[..|a + b| - 1] == a + b[..|b| - 1];
      RunAppend(s, a, b[..|b| - 1]);
    }
  }

  /** Every completion confirms. */
  predicate AllConfirm(events: seq<Completion>)
  {
    forall i :: 0 <= i < |events| ==> Confirms(events[i])
  }

  /**
   * Reference definition: the position of the first completion that does not
   * confirm, or the number of completions when they all confirm.
   */
  function FirstFailure(events: seq<Completion>): (k: nat)
    ensures k <= |events|
    ensures forall i :: 0 <= i < k ==> Confirms(events[i])
    ensures k < |events| ==> !Confirms(events[k])
  {
    if events == [] then 0
    else if !Confirms(events[0]) then 0
    else 1 + FirstFailure(events[1..])
  }

  /** The interfaces that a sequence of completions answers for, in order. */
  function InterfaceNames(events: seq<Completion>): (names: seq<string>)
    ensures |names| == |events|
    ensures forall i :: 0 <= i < |events| ==> names[i] == events[i].interfaceName
  {
    if events == [] then [] else [events[0].interfaceName] + InterfaceNames(events[1..])
  }

  /** Each query, one per name in `queries`, completes exactly once. */
  predicate CompletesEachQueryOnce(events: seq<Completion>, queries: seq<string>)
  {
    multiset(InterfaceNames(events)) == multiset(queries)
  }

  /** The invariant every reachable state keeps between the counters and the flag. */
  predicate Consistent(s: Progress)
  {
    && s.removals == (if s.FailedToLoad() then 1 else 0)
    && s.activations == (if 1 <= s.numInterfaces <= s.loadedInterfaces then 1 else 0)
  }

  /** Appending one completion moves the first failure only when there was none so far. */
  lemma FirstFailureSnoc(events: seq<Completion>, e: Completion)
    ensures FirstFailure(events + [e]) ==
      if FirstFailure(events) < |events| then FirstFailure(events)
      else if Confirms(e) then |events| + 1
      else |events|
  {
    var es := events + [e];
    var k, j := FirstFailure(events), FirstFailure(es);
    if k < |events| {
      assert es[k] == events[k];
    } else {
      assert es[|events|] == e;
    }
  }

  /**
   * The whole outcome of a serialised run from the initial state, in terms of
   * the first failing completion: `loadedInterfaces` counts the confirmations
   * before it, the reported failure is that completion's, the client asked
   * for its removal once exactly when some completion failed, and the success
   * path ran once exactly when `numInterfaces` (at least one) confirmations
   * came before any failure.
   */
  lemma {:induction false} RunFromInit(n: nat, events: seq<Completion>)
    ensures var s, k := Run(Init(n), events), FirstFailure(events);
      && s.numInterfaces == n
      && s.loadedInterfaces == k
      && s.failure == (if k < |events| then Some(ReportOf(events[k])) else None)
      && s.removals == (if k < |events| then 1 else 0)
      && s.activations == (if 1 <= n <= k then 1 else 0)
  {
    if events != [] {
      var prefix, e := events[..|events| - 1], events[|events| - 1];
      assert events == prefix + [e];
      RunFromInit(n, prefix);
      FirstFailureSnoc(prefix, e);
    }
  }

  /** From the initial state, the session fails exactly when some completion does not confirm. */
  lemma FailsIffSomeCompletionFails(n: nat, events: seq<Completion>)
    ensures Run(Init(n), events).FailedToLoad() <==> !AllConfirm(events)
  {
    RunFromInit(n, events);
    var k := FirstFailure(events);
    if k < |events| {
      assert !Confirms(events[k]);
    }
  }

  /** Once the flag is set, no later completion changes anything. */
  lemma {:induction false} FailedIsFinal(s: Progress, events: seq<Completion>)
    requires s.FailedToLoad()
    ensures Run(s, events) == s
  {
    if events != [] {
      FailedIsFinal(s, events[..|events| - 1]);
    }
  }

  /**
   * `loadedInterfaces` never decreases, and grows by at most one per
   * completion (only a `true` result while not failed adds one).
   */
  lemma {:induction false} LoadedGrowsByAtMostOnePerCompletion(s: Progress, events: seq<Completion>)
    ensures s.loadedInterfaces <= Run(s, events).loadedInterfaces <= s.loadedInterfaces + |events|
  {
    if events != [] {
      LoadedGrowsByAtMostOnePerCompletion(s, events[..|events| - 1]);
    }
  }

  /** With at most one completion per query, the counter stays within `0..numInterfaces`. */
  lemma LoadedWithinBounds(n: nat, events: seq<Completion>)
    requires |events| <= n
    ensures Run(Init(n), events).loadedInterfaces <= n
  {
    RunFromInit(n, events);
  }

  /**
   * However many completions fail and whatever else arrives, the client asks
   * for its removal at most once and the success path runs at most once.
   */
  lemma AtMostOnce(n: nat, events: seq<Completion>)
    ensures Run(Init(n), events).removals <= 1
    ensures Run(Init(n), events).activations <= 1
  {
    RunFromInit(n, events);
  }

  /**
   * The first completion that does not confirm decides the failure report;
   * nothing delivered after it replaces the report or removes the client again.
   */
  lemma FirstFailureWins(n: nat, confirmed: seq<Completion>, e: Completion, later: seq<Completion>)
    requires AllConfirm(confirmed)
    requires !Confirms(e)
    ensures Run(Init(n), confirmed + [e] + later).failure == Some(ReportOf(e))
    ensures Run(Init(n), confirmed + [e] + later).removals == 1
  {
    var events := confirmed + [e] + later;
    RunFromInit(n, events);
    assert events[|confirmed|] == e;
    forall i | 0 <= i < |confirmed| ensures Confirms(events[i]) {
      assert events[i] == confirmed[i];
    }
    assert FirstFailure(events) == |confirmed|;
  }

  /** When every query completes exactly once, the count of completions is the count of queries. */
  lemma CompletionsMatchQueries(events: seq<Completion>, queries: seq<string>)
    requires CompletesEachQueryOnce(events, queries)
    ensures |events| == |queries|
  {
    assert |multiset(InterfaceNames(events))| == |multiset(queries)|;
  }

  /**
   * With at least one required interface and every query completing exactly
   * once, the session ends bound exactly when every query returned `true`,
   * ends failed exactly when one did not, and never both or neither.
   */
  lemma ExactlyOneOutcome(queries: seq<string>, events: seq<Completion>)
    requires |queries| >= 1
    requires CompletesEachQueryOnce(events, queries)
    ensures var s := Run(Init(|queries|), events);
      && (s.activations == 1 <==> AllConfirm(events))
      && (s.FailedToLoad() <==> !AllConfirm(events))
      && (s.activations == 1 <==> !s.FailedToLoad())
  {
    CompletionsMatchQueries(events, queries);
    RunFromInit(|queries|, events);
    var k := FirstFailure(events);
    if k == |events| {
      assert AllConfirm(events);
    } else {
      assert !Confirms(events[k]);
    }
  }

  /**
   * No required interface means no completion that could reach the success
   * path: the success path never runs.
   */
  lemma NoSuccessWithoutInterfaces(events: seq<Completion>)
    ensures Run(Init(0), events).activations == 0
  {
    RunFromInit(0, events);
  }
}
