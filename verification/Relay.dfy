/** Relaying one TCP connection: the set-up steps that may fail, and the close protocol of the two
    copying goroutines, which share an atomic flag. */
module Relay {

  /** One end: the inbound connection or the dialled one. */
  datatype End = End(open: bool, closed: bool, writeClosed: bool)

  /** Where a copying goroutine is. */
  datatype Copier =
    | Copying
    | Ended     // copy returned and the destination was closed or half-closed
    | Second    // found the flag already set: has to report
    | Reported  // has called onClose, has to close both ends
    | Finished

  datatype Phase = Dialling | Reporting | Wrapping | KickUpload | KickDownload | Relaying | GivenUp

  datatype State = State(phase: Phase, local: End, remote: End, done: bool, onClose: nat,
                         upload: Copier, download: Copier)

  /** Whether each end supports CloseWrite. */
  datatype Config = Config(localDuplex: bool, remoteDuplex: bool)

  const Initial := State(Dialling, End(true, false, false), End(false, false, false), false, 0, Copying, Copying)

  /** What the environment lets happen. `ok` is whether the step succeeded; the two copiers are
      told apart by `download`, as in the source. */
  datatype Action =
    | Setup(ok: bool)
    | CopyReturns(download: bool, ok: bool, closeWriteOk: bool)
    | Swap(download: bool)
    | CallOnClose(download: bool)
    | CloseBoth(download: bool)

  function Shut(e: End): End { e.(closed := true) }

  function ShutBoth(s: State): State {
    s.(local := Shut(s.local), remote := Shut(s.remote))
  }

  function CopierOf(s: State, download: bool): Copier {
    if download then s.download else s.upload
  }

  function Moved(s: State, download: bool, c: Copier): State {
    if download then s.(download := c) else s.(upload := c)
  }

  /** Ends a direction that copied without an error: half-close if the destination can, else close it. */
  function EndWriting(e: End, duplex: bool): End {
    if duplex then e.(writeClosed := true) else Shut(e)
  }

  function SetupStep(s: State, ok: bool): State {
    match s.phase
    case Dialling =>
      if ok then s.(phase := Reporting, remote := s.remote.(open := true))
      else s.(phase := GivenUp, onClose := s.onClose + 1, local := Shut(s.local))
    case Reporting =>
      if ok then s.(phase := Wrapping) else ShutBoth(s).(phase := GivenUp, onClose := s.onClose + 1)
    case Wrapping =>
      if ok then s.(phase := KickUpload) else ShutBoth(s).(phase := GivenUp, onClose := s.onClose + 1)
    case KickUpload | KickDownload =>
      if ok then s.(phase := if s.phase == KickUpload then KickDownload else Relaying)
      else ShutBoth(s).(phase := GivenUp, done := true, onClose := if s.done then s.onClose else s.onClose + 1)
    case _ => s
  }

  function Next(c: Config, s: State, a: Action): State {
    match a
    case Setup(ok) => SetupStep(s, ok)
    case CopyReturns(d, ok, closeWriteOk) =>
      if s.phase != Relaying || CopierOf(s, d) != Copying then s
      else
        var duplex := if d then c.localDuplex else c.remoteDuplex;
        var s' := if !ok || (duplex && !closeWriteOk) then ShutBoth(s)
                  else if d then s.(local := EndWriting(s.local, duplex))
                  else s.(remote := EndWriting(s.remote, duplex));
        Moved(s', d, Ended)
    case Swap(d) =>
      if CopierOf(s, d) != Ended then s
      else Moved(s.(done := true), d, if s.done then Second else Finished)
    case CallOnClose(d) =>
      if CopierOf(s, d) != Second then s else Moved(s.(onClose := s.onClose + 1), d, Reported)
    case CloseBoth(d) =>
      if CopierOf(s, d) != Reported then s else Moved(ShutBoth(s), d, Finished)
  }

  function Run(c: Config, s: State, actions: seq<Action>): State
    decreases actions
  {
    if actions == [] then s else Run(c, Next(c, s, actions[0]), actions[1..])
  }

  /** Nothing is left to do for this connection. */
  predicate Over(s: State) {
    s.phase == GivenUp || (s.phase == Relaying && s.upload == Finished && s.download == Finished)
  }

  // ---------------------------------------------------------------- onClose runs exactly once

  predicate Swapped(c: Copier) { c == Second || c == Reported || c == Finished }

  /** The copiers' progress, the flag and the number of onClose calls agree. */
  predicate Inv(s: State) {
    && (s.phase != Relaying ==> s.upload == Copying && s.download == Copying)
    && (s.phase == Relaying ==>
          && (s.done <==> Swapped(s.upload) || Swapped(s.download))
          // the first to swap is finished at once; only the other one can be reporting
          && (s.upload in {Second, Reported} ==> s.download == Finished)
          && (s.download in {Second, Reported} ==> s.upload == Finished)
          && s.onClose == (if s.upload == Reported || s.download == Reported
                              || (s.upload == Finished && s.download == Finished) then 1 else 0)
          && (s.upload == Finished && s.download == Finished ==> s.local.closed && s.remote.closed))
    && (s.phase == GivenUp ==> s.onClose == 1 && s.local.closed && (s.remote.open ==> s.remote.closed))
    && (s.phase != GivenUp && s.phase != Relaying ==> s.onClose == 0 && !s.done)
    && (s.phase == Dialling ==> !s.remote.open)
  }

  /** For every failure point and every order of the two copiers. */
  lemma {:induction false} OnCloseExactlyOnce(c: Config, s: State, actions: seq<Action>)
    requires Inv(s)
    ensures var s' := Run(c, s, actions);
            && Inv(s') && s'.onClose <= 1
            && (Over(s') ==> s'.onClose == 1 && s'.local.closed && (s'.remote.open ==> s'.remote.closed))
    decreases actions
  {
    if actions != [] { OnCloseExactlyOnce(c, Next(c, s, actions[0]), actions[1..]); }
  }

  /** A direction that ends with an error, or whose end cannot be passed on, closes both ends at once;
      one that ends without leaves the source alone and half-closes the destination if it can be
      half-closed, else closes it. */
  lemma DirectionEnds(c: Config, s: State, d: bool, ok: bool, closeWriteOk: bool)
    requires s.phase == Relaying && CopierOf(s, d) == Copying
    ensures var s' := Next(c, s, CopyReturns(d, ok, closeWriteOk));
            var duplex := if d then c.localDuplex else c.remoteDuplex;
            var source, target := (if d then s.remote else s.local), (if d then s.local else s.remote);
            var source', target' := (if d then s'.remote else s'.local), (if d then s'.local else s'.remote);
            && CopierOf(s', d) == Ended && CopierOf(s', !d) == CopierOf(s, !d)
            && s'.done == s.done && s'.onClose == s.onClose
            && (!ok || (duplex && !closeWriteOk) ==> source'.closed && target'.closed)
            && (ok && (duplex ==> closeWriteOk) ==>
                  && source' == source
                  && (duplex ==> target'.writeClosed && target'.closed == target.closed)
                  && (!duplex ==> target'.closed))
  {
  }

  // ---------------------------------------------------------------- every connection comes to its end

  function CopierRank(c: Copier): nat {
    match c
    case Copying => 4
    case Ended => 3
    case Second => 2
    case Reported => 1
    case Finished => 0
  }

  function PhaseRank(p: Phase): nat {
    match p
    case Dialling => 5
    case Reporting => 4
    case Wrapping => 3
    case KickUpload => 2
    case KickDownload => 1
    case Relaying | GivenUp => 0
  }

  /** How many steps this connection has left at most. */
  function Rank(s: State): nat { PhaseRank(s.phase) + CopierRank(s.upload) + CopierRank(s.download) }

  /** An action that the copier or the set-up is waiting for. */
  function Due(s: State): Action {
    if s.phase != Relaying then Setup(true)
    else
      var d := s.upload == Finished;
      match CopierOf(s, d)
      case Copying => CopyReturns(d, true, true)
      case Ended => Swap(d)
      case Second => CallOnClose(d)
      case _ => CloseBoth(d)
  }

  /** Whatever happens, a step brings the end closer or changes nothing; and until the connection is
      over some step is due. */
  lemma StepTowardsEnd(c: Config, s: State, a: Action)
    requires Inv(s)
    ensures Next(c, s, a) == s || Rank(Next(c, s, a)) < Rank(s)
    ensures !Over(s) ==> Rank(Next(c, s, Due(s))) < Rank(s)
  {
  }

  /** How many of the actions change something. */
  function Effective(c: Config, s: State, actions: seq<Action>): nat
    decreases actions
  {
    if actions == [] then 0
    else (if Next(c, s, actions[0]) != s then 1 else 0) + Effective(c, Next(c, s, actions[0]), actions[1..])
  }

  /** No run takes more than 13 effective steps. */
  lemma {:induction false} StepsAreBounded(c: Config, s: State, actions: seq<Action>)
    requires Inv(s)
    ensures Effective(c, s, actions) + Rank(Run(c, s, actions)) <= Rank(s) <= 13
    decreases actions
  {
    if actions != [] {
      StepTowardsEnd(c, s, actions[0]);
      OnCloseExactlyOnce(c, s, [actions[0]]);
      assert Run(c, s, [actions[0]]) == Next(c, s, actions[0]);
      StepsAreBounded(c, Next(c, s, actions[0]), actions[1..]);
    }
  }

  /** From every reachable state the connection can be brought to its end, onClose called once. */
  lemma {:induction false} CanEnd(c: Config, s: State) returns (actions: seq<Action>)
    requires Inv(s)
    ensures Over(Run(c, s, actions)) && Run(c, s, actions).onClose == 1
    decreases Rank(s)
  {
    if Over(s) { return []; }
    var a := Due(s);
    StepTowardsEnd(c, s, a);
    OnCloseExactlyOnce(c, s, [a]);
    assert Run(c, s, [a]) == Next(c, s, a);
    var rest := CanEnd(c, Next(c, s, a));
    actions := [a] + rest;
    assert actions[1..] == rest;
  }

  // ---------------------------------------------------------------- half-close

  predicate ErrorFree(a: Action) {
    (a.Setup? ==> a.ok) && (a.CopyReturns? ==> a.ok && a.closeWriteOk)
  }

  /** Neither end is fully closed while a direction is still copying or waiting to be told. */
  predicate HalfCloseSafe(s: State) {
    s.local.closed || s.remote.closed ==> Swapped(s.upload) && Swapped(s.download)
  }

  /** A direction that has ended has told its destination so, and nothing more has been closed. */
  predicate Polite(s: State) {
    && HalfCloseSafe(s)
    && (s.remote.writeClosed <==> s.upload != Copying)
    && (s.local.writeClosed <==> s.download != Copying)
  }

  lemma {:induction false} PoliteRun(c: Config, s: State, actions: seq<Action>)
    requires c.localDuplex && c.remoteDuplex && Inv(s) && Polite(s)
    requires forall a :: a in actions ==> ErrorFree(a)
    ensures Polite(Run(c, s, actions))
    decreases actions
  {
    if actions != [] {
      assert ErrorFree(actions[0]);
      PoliteRun(c, Next(c, s, actions[0]), actions[1..]);
    }
  }

  const ToRelaying := [Setup(true), Setup(true), Setup(true), Setup(true), Setup(true)]

  /** Without errors, no end is closed early in any run exactly when both ends support CloseWrite. */
  lemma HalfCloseIffDuplex(c: Config)
    ensures c.localDuplex && c.remoteDuplex <==>
            forall actions: seq<Action> :: (forall a :: a in actions ==> ErrorFree(a)) ==>
              HalfCloseSafe(Run(c, Initial, actions))
  {
    if c.localDuplex && c.remoteDuplex {
      forall actions: seq<Action> | forall a :: a in actions ==> ErrorFree(a)
        ensures HalfCloseSafe(Run(c, Initial, actions))
      {
        PoliteRun(c, Initial, actions);
      }
    } else {
      var last := CopyReturns(c.remoteDuplex, true, true);
      var actions := ToRelaying + [last];
      EarlyClose(c, last.download);
      assert forall a :: a in actions ==> ErrorFree(a);
    }
  }

  /** A destination without CloseWrite is closed under the other direction. */
  lemma EarlyClose(c: Config, download: bool)
    requires if download then !c.localDuplex else !c.remoteDuplex
    ensures !HalfCloseSafe(Run(c, Initial, ToRelaying + [CopyReturns(download, true, true)]))
  {
    var last := CopyReturns(download, true, true);
    var s := RunToRelaying(c);
    RunAppend(c, Initial, ToRelaying, [last]);
    assert Run(c, s, [last]) == Next(c, s, last);
  }

  lemma {:induction false} RunAppend(c: Config, s: State, xs: seq<Action>, ys: seq<Action>)
    ensures Run(c, s, xs + ys) == Run(c, Run(c, s, xs), ys)
    decreases xs
  {
    if xs == [] { assert xs + ys == ys; }
    else {
      assert (xs + ys)[1..] == xs[1..] + ys;
      RunAppend(c, Next(c, s, xs[0]), xs[1..], ys);
    }
  }

  lemma RunToRelaying(c: Config) returns (s: State)
    ensures s == Run(c, Initial, ToRelaying) && s == Initial.(phase := Relaying, remote := End(true, false, false))
  {
    var up := Setup(true);
    var s3 := Run(c, Initial, [up, up, up]);
    assert s3 == Initial.(phase := KickUpload, remote := End(true, false, false)) by { Run3(c, Initial, up, up, up); }
    s := Run(c, s3, [up, up]);
    assert s == Next(c, Next(c, s3, up), up) by {
      assert [up, up][1..] == [up];
      assert Run(c, Next(c, s3, up), [up]) == Next(c, Next(c, s3, up), up);
    }
    RunAppend(c, Initial, [up, up, up], [up, up]);
    assert [up, up, up] + [up, up] == ToRelaying;
  }

  lemma Run3(c: Config, s: State, x: Action, y: Action, z: Action)
    ensures Run(c, s, [x, y, z]) == Next(c, Next(c, Next(c, s, x), y), z)
  {
    assert [x, y, z][1..] == [y, z] && [y, z][1..] == [z];
    assert Run(c, Next(c, Next(c, s, x), y), [z]) == Next(c, Next(c, Next(c, s, x), y), z);
  }
}
