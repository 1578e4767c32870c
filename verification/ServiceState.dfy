/** The daemon's service state under concurrent StartOrReloadService, CloseService and SetError
    calls. Each step is what one thread does between taking and releasing the service lock, or one
    call it makes without the lock. */
module ServiceState {
  import opened Prelude

  datatype Status = Idle | Starting | Started | Stopping | Fatal

  type Instance = nat

  /** Where a StartOrReloadService call is between its lock-holding sections. */
  datatype Call =
    | Closing(target: Instance)      // lock released, about to close the old instance
    | Closed(target: Instance)       // old instance closed, about to take the lock again
    | Launching(instance: Instance)  // new instance installed, its Start is running without the lock
    | Returned

  /** The guarded fields, the calls in flight, and for the statements below the number of instances
      built, those on which Close was called, those that left the instance field and those whose
      Start succeeded. */
  datatype State = State(status: Status, instance: Option<Instance>, calls: seq<Call>,
                         built: nat, closed: set<Instance>, left: set<Instance>, ready: set<Instance>)

  const Initial := State(Idle, None, [], 0, {}, {}, {})

  datatype Action =
    | Reload(newOk: bool)                // a new StartOrReloadService call enters
    | CloseOld(call: nat)                // oldInstance.Close() without the lock
    | Resume(call: nat, newOk: bool)     // takes the lock again and builds the new instance
    | Finish(call: nat, startOk: bool)   // instance.Start() has returned; takes the lock
    | Close(closeOk: bool)               // a whole CloseService call, which keeps the lock
    | SetError

  /** From `updateStatus(STARTING)` to the unlock: status, instance and what the call does next. */
  function Install(s: State, newOk: bool): (State, Call) {
    if !newOk then (s.(status := Fatal), Returned)
    else
      (s.(status := Starting, instance := Some(s.built), built := s.built + 1,
          left := s.left + (if s.instance.Some? then {s.instance.value} else {})),
       Launching(s.built))
  }

  /** One step; an action that does not apply leaves the state alone. */
  function Next(s: State, a: Action): State {
    match a
    case Reload(newOk) =>
      if s.status == Stopping then s.(calls := s.calls + [Returned])
      else if s.instance.Some? then s.(status := Stopping, calls := s.calls + [Closing(s.instance.value)])
      else var (s', call) := Install(s, newOk); s'.(calls := s'.calls + [call])
    case CloseOld(t) =>
      if t < |s.calls| && s.calls[t].Closing? then
        s.(calls := s.calls[t := Closed(s.calls[t].target)], closed := s.closed + {s.calls[t].target})
      else s
    case Resume(t, newOk) =>
      if t < |s.calls| && s.calls[t].Closed? then
        var (s', call) := Install(s, newOk); s'.(calls := s'.calls[t := call])
      else s
    case Finish(t, startOk) =>
      if t < |s.calls| && s.calls[t].Launching? then
        s.(calls := s.calls[t := Returned], ready := s.ready + (if startOk then {s.calls[t].instance} else {}),
           status := if s.status != Starting then s.status else if startOk then Started else Fatal)
      else s
    case Close(closeOk) =>
      if s.status != Starting && s.status != Started then s
      else
        var gone := if s.instance.Some? then {s.instance.value} else {};
        s.(status := if s.instance.Some? && !closeOk then Fatal else Idle, instance := None,
           closed := s.closed + gone, left := s.left + gone)
    case SetError => s.(status := Fatal)
  }

  function Run(s: State, actions: seq<Action>): State
    decreases actions
  {
    if actions == [] then s else Run(Next(s, actions[0]), actions[1..])
  }

  // ---------------------------------------------------------------- a running service has an instance

  predicate InstancePresent(s: State) {
    s.status == Starting || s.status == Started ==> s.instance.Some?
  }

  datatype LogLevel = Unavailable | LevelOf(instance: Instance) | NilInstance

  /** An RPC that checks the status and reads the instance under one read lock. */
  function GetDefaultLogLevel(s: State): LogLevel {
    if s.status != Starting && s.status != Started then Unavailable
    else if s.instance.None? then NilInstance
    else LevelOf(s.instance.value)
  }

  lemma {:induction false} NeverNilInstance(s: State, actions: seq<Action>)
    requires InstancePresent(s)
    ensures InstancePresent(Run(s, actions)) && !GetDefaultLogLevel(Run(s, actions)).NilInstance?
    ensures var s' := Run(s, actions);
            GetDefaultLogLevel(s') == if s'.status == Starting || s'.status == Started
                                      then LevelOf(s'.instance.value) else Unavailable
    decreases actions
  {
    if actions != [] { NeverNilInstance(Next(s, actions[0]), actions[1..]); }
  }

  // ---------------------------------------------------------------- what moves the status

  /** The status changes only for these reasons, one for each new status. */
  lemma StatusMoves(s: State, a: Action)
    requires Next(s, a).status != s.status
    ensures match Next(s, a).status
            case Starting =>
              && ((a == Reload(true) && s.instance.None?) ||
                  (a.Resume? && a.newOk && a.call < |s.calls| && s.calls[a.call].Closed?))
              && s.status != (if a.Reload? then Stopping else Starting)
            case Started => a.Finish? && a.startOk && s.status == Starting
            case Stopping => a.Reload? && s.instance.Some?
            case Idle => a.Close? && (a.closeOk || s.instance.None?) && s.status in {Starting, Started}
            case Fatal =>
              || a == SetError
              || ((a.Reload? || a.Resume?) && !a.newOk)
              || (a.Finish? && !a.startOk && s.status == Starting)
              || (a.Close? && !a.closeOk && s.instance.Some? && s.status in {Starting, Started})
  {
  }

  /** CloseService ends a service that is starting or started: its instance is closed and gone, and
      closing it decides between Idle and Fatal. Otherwise it does nothing. */
  lemma CloseEndsService(s: State, closeOk: bool)
    requires InstancePresent(s)
    ensures var s' := Next(s, Close(closeOk));
            if s.status == Starting || s.status == Started then
              && s'.instance.None? && s'.closed == s.closed + {s.instance.value} && s'.calls == s.calls
              && s'.status == if closeOk then Idle else Fatal
            else s' == s
  {
  }

  // ---------------------------------------------------------------- one closer at a time

  predicate IsCloser(c: Call) { c.Closing? || c.Closed? }

  /** Stopping means exactly one call is closing, it closes the current instance, whatever left the
      instance field has been closed, and a service that runs does not run on a closed instance. */
  ghost predicate Orderly(s: State) {
    && (s.status == Stopping <==> exists t :: 0 <= t < |s.calls| && IsCloser(s.calls[t]))
    && (forall t, u :: 0 <= t < u < |s.calls| ==> !(IsCloser(s.calls[t]) && IsCloser(s.calls[u])))
    && (forall t :: 0 <= t < |s.calls| && IsCloser(s.calls[t]) ==> s.instance == Some(s.calls[t].target))
    && (forall t :: 0 <= t < |s.calls| && s.calls[t].Closed? ==> s.calls[t].target in s.closed)
    && (s.instance.Some? ==> s.instance.value < s.built)
    && (forall i :: i in s.closed ==> i < s.built)
    && s.left <= s.closed
    && (s.status == Starting || s.status == Started ==> s.instance.Some? && s.instance.value !in s.closed)
  }

  lemma OrderlyReload(s: State, newOk: bool)
    requires Orderly(s)
    ensures Orderly(Next(s, Reload(newOk)))
  {
    var s' := Next(s, Reload(newOk));
    assert forall t :: 0 <= t < |s.calls| ==> s'.calls[t] == s.calls[t];
    if s'.status == Stopping && s.status != Stopping { assert IsCloser(s'.calls[|s.calls|]); }
  }

  lemma OrderlyResume(s: State, t: nat, newOk: bool)
    requires Orderly(s)
    ensures Orderly(Next(s, Resume(t, newOk)))
  {
  }

  lemma OrderlyStep(s: State, a: Action)
    requires Orderly(s) && !(a.SetError? && s.status == Stopping)
    ensures Orderly(Next(s, a))
  {
    var s' := Next(s, a);
    match a
    case Reload(newOk) => OrderlyReload(s, newOk);
    case CloseOld(t) =>
      if t < |s.calls| && s.calls[t].Closing? { assert IsCloser(s'.calls[t]); }
    case Resume(t, newOk) => OrderlyResume(s, t, newOk);
    case Finish(t, _) =>
      assert forall u :: 0 <= u < |s.calls| && IsCloser(s.calls[u]) ==> s'.calls[u] == s.calls[u];
    case Close(_) =>
    case SetError =>
  }

  /** No SetError strikes while the service is stopping. */
  predicate NoErrorWhileStopping(s: State, actions: seq<Action>)
    decreases actions
  {
    actions == [] ||
    (!(actions[0].SetError? && s.status == Stopping) && NoErrorWhileStopping(Next(s, actions[0]), actions[1..]))
  }

  lemma {:induction false} OrderlyRun(s: State, actions: seq<Action>)
    requires Orderly(s) && NoErrorWhileStopping(s, actions)
    ensures Orderly(Run(s, actions))
    decreases actions
  {
    if actions != [] {
      OrderlyStep(s, actions[0]);
      OrderlyRun(Next(s, actions[0]), actions[1..]);
    }
  }

  /** Neither the closing call's own steps nor an error report. */
  predicate ByOthers(a: Action) { a.Reload? || a.Close? || a.Finish? }

  /** While one call is closing, any number of other StartOrReloadService, CloseService and finishing
      calls are turned away: however many come, the closing call still finds its instance. */
  lemma {:induction false} TurnedAwayWhileStopping(s: State, actions: seq<Action>, t: nat)
    requires s.status == Stopping && t < |s.calls| && IsCloser(s.calls[t]) && forall a :: a in actions ==> ByOthers(a)
    ensures var s' := Run(s, actions);
            && s'.status == Stopping && s'.instance == s.instance && s'.built == s.built
            && s'.closed == s.closed && s'.left == s.left && t < |s'.calls| && s'.calls[t] == s.calls[t]
    decreases actions
  {
    if actions != [] {
      assert ByOthers(actions[0]);
      TurnedAwayWhileStopping(Next(s, actions[0]), actions[1..], t);
    }
  }

  lemma {:induction false} RunAppend(s: State, xs: seq<Action>, ys: seq<Action>)
    ensures Run(s, xs + ys) == Run(Run(s, xs), ys)
    decreases xs
  {
    if xs == [] { assert xs + ys == ys; }
    else {
      assert (xs + ys)[1..] == xs[1..] + ys;
      RunAppend(Next(s, xs[0]), xs[1..], ys);
    }
  }

  /** Both results for every run of a fresh service. */
  lemma ServiceRuns(actions: seq<Action>)
    ensures InstancePresent(Run(Initial, actions))
    ensures NoErrorWhileStopping(Initial, actions) ==> Orderly(Run(Initial, actions))
  {
    NeverNilInstance(Initial, actions);
    if NoErrorWhileStopping(Initial, actions) { OrderlyRun(Initial, actions); }
  }

  // ---------------------------------------------------------------- a started service is the one that started

  /** Call `t` is starting instance `i`. */
  predicate Launches(s: State, t: nat, i: Instance) {
    t < |s.calls| && s.calls[t] == Launching(i)
  }

  /** An instance is started by at most one call, and until that call is done it is not ready; a
      starting service waits for the call that starts its instance; an idle one has no instance. */
  ghost predicate Settling(s: State) {
    && InstancePresent(s)
    && (s.status == Idle ==> s.instance.None?)
    && (forall t :: 0 <= t < |s.calls| && s.calls[t].Launching? ==>
          s.calls[t].instance < s.built && s.calls[t].instance !in s.ready)
    && (forall t, u :: 0 <= t < u < |s.calls| && s.calls[t].Launching? && s.calls[u].Launching? ==>
          s.calls[t].instance != s.calls[u].instance)
    && (forall i :: i in s.ready ==> i < s.built)
    && (s.status == Starting ==> exists t: nat :: Launches(s, t, s.instance.value))
  }

  lemma SettlingInstall(s: State, calls: seq<Call>, t: nat, newOk: bool)
    requires Settling(s) && t < |calls| && !calls[t].Launching?
    requires |s.calls| <= |calls| && forall u :: 0 <= u < |calls| && u != t ==> u < |s.calls| && calls[u] == s.calls[u]
    requires t < |s.calls| ==> !s.calls[t].Launching?
    ensures var (s', call) := Install(s, newOk); Settling(s'.(calls := calls[t := call]))
  {
    var (s', call) := Install(s, newOk);
    var after := s'.(calls := calls[t := call]);
    if newOk { assert Launches(after, t, s.built); }
  }

  lemma SettlingFinish(s: State, t: nat, startOk: bool)
    requires Settling(s)
    ensures Settling(Next(s, Finish(t, startOk)))
  {
    var s' := Next(s, Finish(t, startOk));
    assert s'.status == Starting ==> s' == s;
  }

  lemma SettlingStep(s: State, a: Action)
    requires Settling(s)
    ensures Settling(Next(s, a))
  {
    var s' := Next(s, a);
    match a
    case Reload(newOk) =>
      if s.status != Stopping && s.instance.None? {
        SettlingInstall(s, s.calls + [Returned], |s.calls|, newOk);
        assert s'.calls == (s.calls + [Returned])[|s.calls| := Install(s, newOk).1];
      }
    case CloseOld(t) =>
      if s.status == Starting {
        var u: nat :| Launches(s, u, s.instance.value);
        assert Launches(s', u, s'.instance.value);
      }
    case Resume(t, newOk) =>
      if t < |s.calls| && s.calls[t].Closed? { SettlingInstall(s, s.calls, t, newOk); }
    case Finish(t, startOk) => SettlingFinish(s, t, startOk);
    case Close(_) =>
    case SetError =>
  }

  /** Started is what the service reports only when the Start of its instance succeeded. */
  predicate StartedIsReady(s: State) {
    s.status == Started ==> s.instance.Some? && s.instance.value in s.ready
  }

  /** Call `t` has started an instance that is no longer the current one, while that one is starting. */
  predicate StaleFinish(s: State, a: Action) {
    && a.Finish? && s.status == Starting && a.call < |s.calls| && s.calls[a.call].Launching?
    && s.instance != Some(s.calls[a.call].instance)
  }

  ghost predicate NoStaleFinish(s: State, actions: seq<Action>)
    decreases actions
  {
    actions == [] || (!StaleFinish(s, actions[0]) && NoStaleFinish(Next(s, actions[0]), actions[1..]))
  }

  lemma {:induction false} StartedRun(s: State, actions: seq<Action>)
    requires Settling(s)
    ensures Settling(Run(s, actions))
    ensures StartedIsReady(s) && NoStaleFinish(s, actions) ==> StartedIsReady(Run(s, actions))
    decreases actions
  {
    if actions != [] {
      SettlingStep(s, actions[0]);
      StartedRun(Next(s, actions[0]), actions[1..]);
    }
  }

  /** Of every run of a fresh service: a starting service waits for exactly the call that starts its
      instance, whose end settles the status: Started if the instance started, Fatal if not. */
  lemma StartingIsSettled(actions: seq<Action>) returns (t: nat)
    requires Run(Initial, actions).status == Starting
    ensures var s := Run(Initial, actions);
            && s.instance.Some? && Launches(s, t, s.instance.value)
            && (forall u: nat :: Launches(s, u, s.instance.value) ==> u == t)
            && Next(s, Finish(t, true)).status == Started && StartedIsReady(Next(s, Finish(t, true)))
            && Next(s, Finish(t, false)).status == Fatal
  {
    StartedRun(Initial, actions);
    var s := Run(Initial, actions);
    t :| Launches(s, t, s.instance.value);
  }

  /** In every run of a fresh service in which no call that started an earlier instance comes back
      while a later one is starting, Started means that the current instance has started. */
  lemma StartedMeansReady(actions: seq<Action>)
    requires NoStaleFinish(Initial, actions)
    ensures StartedIsReady(Run(Initial, actions))
  {
    StartedRun(Initial, actions);
  }

  /** That condition is exact: after any run, a call that comes back with a success makes the service
      report Started for an instance that is still starting exactly when it started an earlier one. */
  lemma StaleFinishMisreportsIff(actions: seq<Action>, t: nat)
    requires var s := Run(Initial, actions); s.status == Starting && t < |s.calls| && s.calls[t].Launching?
    ensures var s, s' := Run(Initial, actions), Next(Run(Initial, actions), Finish(t, true));
            s'.status == Started && (StartedIsReady(s') <==> !StaleFinish(s, Finish(t, true)))
  {
    StartedRun(Initial, actions);
    var s := Run(Initial, actions);
    var u: nat :| Launches(s, u, s.instance.value);
  }

  const OVERTAKEN := [Reload(true), Reload(true), CloseOld(1), Resume(1, true)]

  /** Two calls: the second replaces the instance the first is still starting. If the first comes back
      with a success, the service reports Started while its instance is still starting. If it comes
      back with an error, the service is Fatal, and stays so though its instance starts. */
  lemma StaleFinishIsReachable()
    ensures var s := Run(Initial, OVERTAKEN);
            && s.status == Starting && s.instance == Some(1) && s.calls == [Launching(0), Launching(1)]
            && !StartedIsReady(Next(s, Finish(0, true)))
            && Next(Next(s, Finish(0, false)), Finish(1, true)).status == Fatal
  {
    RunAppend(Initial, [Reload(true)], OVERTAKEN[1..]);
    assert [Reload(true)] + OVERTAKEN[1..] == OVERTAKEN;
    var s := Run(Initial, [Reload(true)]);
    assert s == Next(Initial, Reload(true));
    Run3(s, OVERTAKEN[1], OVERTAKEN[2], OVERTAKEN[3]);
    assert OVERTAKEN[1..] == [OVERTAKEN[1], OVERTAKEN[2], OVERTAKEN[3]];
  }

  // ---------------------------------------------------------------- an error report while stopping

  /** NoErrorWhileStopping is exact: from every state in which the service is stopping, an error report
      opens a run in which an instance is replaced without ever having been closed. */
  lemma ErrorWhileStoppingLeaks(s: State) returns (rest: seq<Action>, leaked: Instance)
    requires Orderly(s) && s.status == Stopping
    ensures leaked == s.built
    ensures leaked in Run(s, [SetError] + rest).left && leaked !in Run(s, [SetError] + rest).closed
  {
    var t :| 0 <= t < |s.calls| && IsCloser(s.calls[t]);
    var u := |s.calls|;
    rest, leaked := [Reload(true), CloseOld(t), Resume(t, true), CloseOld(u), Resume(u, true)], s.built;
    var s0 := Next(s, SetError);
    var s1 := Next(s0, Reload(true));
    var s2 := Next(s1, CloseOld(t));
    var s3 := Next(s2, Resume(t, true));
    var s4 := Next(s3, CloseOld(u));
    var s5 := Next(s4, Resume(u, true));
    assert s2.calls[t].Closed? && s1.calls[u].Closing? && s3.instance == Some(leaked);
    Run6(s, SetError, Reload(true), CloseOld(t), Resume(t, true), CloseOld(u), Resume(u, true));
    assert [SetError] + rest == [SetError, Reload(true), CloseOld(t), Resume(t, true), CloseOld(u), Resume(u, true)];
  }

  lemma Run6(s: State, a: Action, b: Action, c: Action, d: Action, e: Action, f: Action)
    ensures Run(s, [a, b, c, d, e, f]) == Next(Next(Next(Next(Next(Next(s, a), b), c), d), e), f)
  {
    RunAppend(s, [a, b, c], [d, e, f]);
    assert [a, b, c] + [d, e, f] == [a, b, c, d, e, f];
    Run3(s, a, b, c);
    Run3(Run(s, [a, b, c]), d, e, f);
  }

  lemma Run3(s: State, a: Action, b: Action, c: Action)
    ensures Run(s, [a, b, c]) == Next(Next(Next(s, a), b), c)
  {
    assert [a, b, c][1..] == [b, c] && [b, c][1..] == [c] && [c][1..] == [];
    assert Run(Next(Next(s, a), b), [c]) == Next(Next(Next(s, a), b), c);
    assert Run(Next(s, a), [b, c]) == Next(Next(Next(s, a), b), c);
  }
}
