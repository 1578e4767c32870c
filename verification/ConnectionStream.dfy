/** The connection event stream: the daemon's incremental diff of the traffic manager's
    connections, and the client that replays it. */
module ConnectionStream {
  import opened Prelude

  type Id = nat

  /** A connection as the client shows it; a zero `closedAt` means open. */
  datatype Connection = Connection(upRate: int, downRate: int, upTotal: int, downTotal: int, closedAt: int)

  datatype Event =
    | New(id: Id, connection: Connection)
    | Update(id: Id, up: int, down: int)
    | Closed(id: Id, closedAt: int, last: Option<Connection>)

  // ---------------------------------------------------------------- the client

  type View = map<Id, Connection>

  function Closing(c: Connection, at: int): Connection {
    c.(closedAt := at, upRate := 0, downRate := 0)
  }

  function ApplyEvent(view: View, e: Event): View {
    match e
    case New(id, c) => view[id := c]
    case Update(id, up, down) =>
      if id !in view then view
      else view[id := view[id].(upRate := up, downRate := down,
                                upTotal := view[id].upTotal + up, downTotal := view[id].downTotal + down)]
    case Closed(id, at, c) =>
      if c.Some? then view[id := Closing(c.value, at)]
      else if id in view then view[id := Closing(view[id], at)]
      else view
  }

  function Replay(view: View, events: seq<Event>): View {
    if events == [] then view
    else ApplyEvent(Replay(view, events[..|events| - 1]), events[|events| - 1])
  }

  function OpenPart(view: View): View {
    map id | id in view && view[id].closedAt == 0 :: view[id]
  }

  function OpenIds(view: View): set<Id> { OpenPart(view).Keys }

  lemma {:induction false} ReplayAppend(view: View, xs: seq<Event>, ys: seq<Event>)
    ensures Replay(view, xs + ys) == Replay(Replay(view, xs), ys)
  {
    if ys == [] { assert xs + ys == xs; }
    else {
      ReplayAppend(view, xs, ys[..|ys| - 1]);
      assert (xs + ys)[..|xs + ys| - 1] == xs + ys[..|ys| - 1];
    }
  }

  lemma Associative(xs: seq<Event>, ys: seq<Event>, zs: seq<Event>)
    ensures xs + ys + zs == xs + (ys + zs)
  {
  }

  lemma ReplayOne(view: View, events: seq<Event>, e: Event)
    ensures Replay(view, events + [e]) == ApplyEvent(Replay(view, events), e)
  {
    assert (events + [e])[..|events|] == events;
  }

  /** Every closing event carries a time, so the client never takes it for an open connection. */
  ghost predicate Stamped(events: seq<Event>) {
    forall e :: e in events && e.Closed? ==> e.closedAt != 0
  }

  /** What the client shows as open after some events depends only on what it showed as open before. */
  lemma {:induction false} OpenPartDecidesOpenPart(v: View, w: View, events: seq<Event>)
    requires OpenPart(v) == OpenPart(w)
    requires Stamped(events)
    ensures OpenPart(Replay(v, events)) == OpenPart(Replay(w, events))
  {
    if events != [] {
      var init, e := events[..|events| - 1], events[|events| - 1];
      OpenPartDecidesOpenPart(v, w, init);
      SameOpenPartStep(Replay(v, init), Replay(w, init), e);
    }
  }

  lemma SameOpenPartStep(v: View, w: View, e: Event)
    requires OpenPart(v) == OpenPart(w)
    requires e.Closed? ==> e.closedAt != 0
    ensures OpenPart(ApplyEvent(v, e)) == OpenPart(ApplyEvent(w, e))
  {
    var v', w' := ApplyEvent(v, e), ApplyEvent(w, e);
    forall id ensures id in OpenPart(v') <==> id in OpenPart(w')
      ensures id in OpenPart(v') && id in OpenPart(w') ==> OpenPart(v')[id] == OpenPart(w')[id]
    {
      assert id in OpenPart(v) <==> id in OpenPart(w);
      assert id in OpenPart(v) ==> v[id] == OpenPart(v)[id] && w[id] == OpenPart(w)[id];
    }
  }

  /** Whatever the first shows, open or closed, the second shows too. */
  predicate PartOf(v: View, w: View) { forall id :: id in v ==> id in w && v[id] == w[id] }

  lemma {:induction false} PartStaysPart(v: View, w: View, events: seq<Event>)
    requires PartOf(v, w)
    ensures PartOf(Replay(v, events), Replay(w, events))
  {
    if events != [] { PartStaysPart(v, w, events[..|events| - 1]); }
  }

  /** A connection that was closed by event `k` and not mentioned since is shown as closed at that time
      and without traffic; its totals are those the event came with, or those shown before. */
  lemma {:induction false} ShownAsClosed(view: View, events: seq<Event>, k: nat)
    requires k < |events| && events[k].Closed?
    requires forall j :: k < j < |events| ==> events[j].id != events[k].id
    ensures var id, before, after := events[k].id, Replay(view, events[..k]), Replay(view, events);
            && (id in after <==> events[k].last.Some? || id in before)
            && (id in after ==>
                  var c := if events[k].last.Some? then events[k].last.value else before[id];
                  && after[id].closedAt == events[k].closedAt && after[id].upRate == 0 && after[id].downRate == 0
                  && after[id].upTotal == c.upTotal && after[id].downTotal == c.downTotal)
  {
    var n := |events| - 1;
    if k < n {
      ShownAsClosed(view, events[..n], k);
      assert events[..n][..k] == events[..k];
    }
  }

  function Flatten(batches: seq<seq<Event>>): seq<Event> {
    if batches == [] then [] else Flatten(batches[..|batches| - 1]) + batches[|batches| - 1]
  }

  /** A client that starts empty, applies every batch and after each may forget closed connections,
      shows as open exactly what replaying the whole stream leaves open. */
  lemma {:induction false} ClientShowsStream(views: seq<View>, batches: seq<seq<Event>>)
    requires |views| == |batches| + 1 && OpenPart(views[0]) == map[]
    requires forall i :: 0 <= i < |batches| ==> OpenPart(views[i + 1]) == OpenPart(Replay(views[i], batches[i]))
    requires Stamped(Flatten(batches))
    ensures OpenPart(views[|batches|]) == OpenPart(Replay(map[], Flatten(batches)))
  {
    if batches != [] {
      var n := |batches| - 1;
      var init := batches[..n];
      assert forall e :: e in Flatten(init) ==> e in Flatten(batches);
      assert forall e :: e in batches[n] ==> e in Flatten(batches);
      ClientShowsStream(views[..n + 1], init);
      OpenPartDecidesOpenPart(views[n], Replay(map[], Flatten(init)), batches[n]);
      ReplayAppend(map[], Flatten(init), batches[n]);
    }
  }

  /** The client: applies a batch, then forgets connections closed for longer than `maxAge`. */
  class Connections {
    var connectionMap: View

    constructor ()
      ensures connectionMap == map[]
    {
      connectionMap := map[];
    }

    method ApplyEvents(reset: bool, events: seq<Event>, now: int, maxAge: int)
      modifies this
      ensures var applied := Replay(if reset then map[] else old(connectionMap), events);
              && connectionMap.Keys <= applied.Keys
              && (forall id :: id in connectionMap ==> connectionMap[id] == applied[id])
              && (forall id :: id in applied ==>
                    (id !in connectionMap <==> applied[id].closedAt != 0 && now - applied[id].closedAt > maxAge))
              && OpenPart(connectionMap) == OpenPart(applied)
    {
      if reset { connectionMap := map[]; }
      ghost var before := connectionMap;
      for i := 0 to |events|
        invariant connectionMap == Replay(before, events[..i])
      {
        ReplayOne(before, events[..i], events[i]);
        assert events[..i] + [events[i]] == events[..i + 1];
        connectionMap := ApplyEvent(connectionMap, events[i]);
      }
      assert events[..|events|] == events;
      connectionMap := map id | id in connectionMap
                              && !(connectionMap[id].closedAt != 0
                                  && now - connectionMap[id].closedAt > maxAge) :: connectionMap[id];
    }
  }

  // ---------------------------------------------------------------- the daemon side

  datatype Snapshot = Snapshot(up: int, down: int, hadTraffic: bool)

  /** Counters of one active connection as one pass reads them: once for the snapshot and once more
      while the connection is described. */
  datatype Reading = Reading(id: Id, up: int, down: int, shownUp: int, shownDown: int)

  function Described(r: Reading): Connection { Connection(0, 0, r.shownUp, r.shownDown, 0) }

  datatype Amount = Amount(up: int, down: int)

  /** How far the client's totals are from the snapshot's, and the rates it shows. */
  datatype Drift = Drift(up: int, down: int, upRate: int, downRate: int)

  /** One connection, as the client has it and as the daemon last snapshotted it: open at the client
      exactly when it has a snapshot and is not `lagging` (already shown as closed); totals apart by
      the drift, with the rates of the drift, which are not zero exactly when it had traffic. */
  ghost predicate TracksId(view: View, snapshots: map<Id, Snapshot>, drift: map<Id, Drift>, lagging: set<Id>, id: Id) {
    && (id in drift <==> id in snapshots)
    && (id in lagging ==> id in snapshots)
    && (id in view && view[id].closedAt == 0 <==> id in snapshots && id !in lagging)
    && (id in snapshots && id !in lagging ==>
          && view[id].upTotal == snapshots[id].up + drift[id].up
          && view[id].downTotal == snapshots[id].down + drift[id].down
          && view[id].upRate == drift[id].upRate && view[id].downRate == drift[id].downRate)
    && (id in snapshots ==>
          && drift[id].upRate >= 0 && drift[id].downRate >= 0
          && (snapshots[id].hadTraffic <==> drift[id].upRate > 0 || drift[id].downRate > 0))
  }

  ghost predicate Tracks(view: View, snapshots: map<Id, Snapshot>, drift: map<Id, Drift>, lagging: set<Id>) {
    drift.Keys == snapshots.Keys && forall id :: TracksId(view, snapshots, drift, lagging, id)
  }

  lemma TracksMeansOpen(view: View, snapshots: map<Id, Snapshot>, drift: map<Id, Drift>, lagging: set<Id>)
    requires Tracks(view, snapshots, drift, lagging)
    ensures OpenIds(view) == snapshots.Keys - lagging && lagging <= snapshots.Keys
  {
    forall id ensures id in OpenIds(view) <==> id in snapshots.Keys - lagging
      ensures id in lagging ==> id in snapshots
    {
      assert TracksId(view, snapshots, drift, lagging, id);
    }
  }

  /** One active connection in a tick. */
  function Observe(snapshots: map<Id, Snapshot>, r: Reading): (map<Id, Snapshot>, seq<Event>) {
    if r.id !in snapshots then (snapshots[r.id := Snapshot(r.up, r.down, false)], [New(r.id, Described(r))])
    else
      var s := snapshots[r.id];
      var up, down := r.up - s.up, r.down - s.down;
      if up < 0 || down < 0 then
        (snapshots[r.id := Snapshot(r.up, r.down, false)], if s.hadTraffic then [Update(r.id, 0, 0)] else [])
      else if up > 0 || down > 0 then
        (snapshots[r.id := Snapshot(r.up, r.down, true)], [Update(r.id, up, down)])
      else if s.hadTraffic then
        (snapshots[r.id := Snapshot(r.up, r.down, false)], [Update(r.id, 0, 0)])
      else (snapshots, [])
  }

  /** A new connection starts with the skew between its two readings; a counter that went backwards
      moves the drift by what was lost; otherwise what was read since is the rate. */
  ghost function ObserveDrift(snapshots: map<Id, Snapshot>, drift: map<Id, Drift>, r: Reading): map<Id, Drift>
    requires drift.Keys == snapshots.Keys
  {
    if r.id !in snapshots then drift[r.id := Drift(r.shownUp - r.up, r.shownDown - r.down, 0, 0)]
    else if r.up < snapshots[r.id].up || r.down < snapshots[r.id].down then
      drift[r.id := Drift(drift[r.id].up + snapshots[r.id].up - r.up,
                          drift[r.id].down + snapshots[r.id].down - r.down, 0, 0)]
    else
      drift[r.id := drift[r.id].(upRate := r.up - snapshots[r.id].up, downRate := r.down - snapshots[r.id].down)]
  }

  lemma ReplaySingle(view: View, e: Event)
    ensures Replay(view, [e]) == ApplyEvent(view, e)
  {
  }

  lemma ObserveOwn(view: View, snapshots: map<Id, Snapshot>, drift: map<Id, Drift>, lagging: set<Id>, r: Reading)
    requires drift.Keys == snapshots.Keys && TracksId(view, snapshots, drift, lagging, r.id)
    ensures var (after, events) := Observe(snapshots, r);
            var view' := if events == [] then view else ApplyEvent(view, events[0]);
            TracksId(view', after, ObserveDrift(snapshots, drift, r), lagging, r.id)
  {
  }

  lemma ObserveTracks(view: View, snapshots: map<Id, Snapshot>, drift: map<Id, Drift>, lagging: set<Id>, r: Reading)
    requires Tracks(view, snapshots, drift, lagging)
    ensures var (after, events) := Observe(snapshots, r);
            Tracks(Replay(view, events), after, ObserveDrift(snapshots, drift, r), lagging)
  {
    var (after, events) := Observe(snapshots, r);
    var view', drift' := if events == [] then view else ApplyEvent(view, events[0]), ObserveDrift(snapshots, drift, r);
    if events != [] { ReplaySingle(view, events[0]); }
    forall id ensures TracksId(view', after, drift', lagging, id) {
      assert TracksId(view, snapshots, drift, lagging, id);
      if id == r.id { ObserveOwn(view, snapshots, drift, lagging, r); }
    }
  }

  lemma ClosedTracks(view: View, snapshots: map<Id, Snapshot>, drift: map<Id, Drift>, lagging: set<Id>,
                     id: Id, at: int, last: Option<Connection>)
    requires Tracks(view, snapshots, drift, lagging) && at != 0
    ensures Tracks(Replay(view, [Closed(id, at, last)]), snapshots - {id}, drift - {id}, lagging - {id})
  {
    var view' := ApplyEvent(view, Closed(id, at, last));
    ReplaySingle(view, Closed(id, at, last));
    forall x ensures TracksId(view', snapshots - {id}, drift - {id}, lagging - {id}, x) {
      assert TracksId(view, snapshots, drift, lagging, x);
    }
  }

  lemma ListedClosedTracks(view: View, snapshots: map<Id, Snapshot>, drift: map<Id, Drift>, lagging: set<Id>,
                           id: Id, c: Connection)
    requires Tracks(view, snapshots, drift, lagging) && c.closedAt != 0
    ensures Tracks(Replay(view, [New(id, c)]), snapshots, drift, lagging + {id} * snapshots.Keys)
  {
    ReplaySingle(view, New(id, c));
    forall x ensures TracksId(ApplyEvent(view, New(id, c)), snapshots, drift, lagging + {id} * snapshots.Keys, x) {
      assert TracksId(view, snapshots, drift, lagging, x);
    }
  }

  // ---------------------------------------------------------------- many readings

  /** The readings of one tick, in order. */
  function ObserveAll(snapshots: map<Id, Snapshot>, readings: seq<Reading>): (map<Id, Snapshot>, seq<Event>) {
    if readings == [] then (snapshots, [])
    else
      var (before, events) := ObserveAll(snapshots, readings[..|readings| - 1]);
      var (after, more) := Observe(before, readings[|readings| - 1]);
      (after, events + more)
  }

  ghost function DriftAll(snapshots: map<Id, Snapshot>, drift: map<Id, Drift>, readings: seq<Reading>)
    : (d: map<Id, Drift>)
    requires drift.Keys == snapshots.Keys
    ensures d.Keys == ObserveAll(snapshots, readings).0.Keys
  {
    if readings == [] then drift
    else
      var init := readings[..|readings| - 1];
      ObserveDrift(ObserveAll(snapshots, init).0, DriftAll(snapshots, drift, init), readings[|readings| - 1])
  }

  lemma {:induction false} ObserveAllTracks(view: View, snapshots: map<Id, Snapshot>, drift: map<Id, Drift>,
                                            lagging: set<Id>, readings: seq<Reading>)
    requires Tracks(view, snapshots, drift, lagging)
    ensures var (after, events) := ObserveAll(snapshots, readings);
            Tracks(Replay(view, events), after, DriftAll(snapshots, drift, readings), lagging)
  {
    if readings != [] {
      var init, r := readings[..|readings| - 1], readings[|readings| - 1];
      var (before, events) := ObserveAll(snapshots, init);
      ObserveAllTracks(view, snapshots, drift, lagging, init);
      ObserveTracks(Replay(view, events), before, DriftAll(snapshots, drift, init), lagging, r);
      ReplayAppend(view, events, Observe(before, r).1);
    }
  }

  lemma {:induction false} ObserveAllKeys(snapshots: map<Id, Snapshot>, readings: seq<Reading>)
    ensures ObserveAll(snapshots, readings).0.Keys == snapshots.Keys + Ids(readings)
  {
    if readings == [] { assert Ids(readings) == {}; } else {
      ObserveAllKeys(snapshots, readings[..|readings| - 1]);
      IdsSnoc(readings);
    }
  }

  lemma {:induction false} UntouchedById(snapshots: map<Id, Snapshot>, drift: map<Id, Drift>, readings: seq<Reading>,
                                         id: Id)
    requires drift.Keys == snapshots.Keys && id !in Ids(readings)
    ensures var after := ObserveAll(snapshots, readings).0;
            && (id in after <==> id in snapshots)
            && (id in snapshots ==> after[id] == snapshots[id] && DriftAll(snapshots, drift, readings)[id] == drift[id])
  {
    if readings != [] {
      IdsSnoc(readings);
      UntouchedById(snapshots, drift, readings[..|readings| - 1], id);
    }
  }

  /** A tick looks at each connection once, so its outcome is stated in terms of the state before the tick. */
  lemma {:induction false} SettledAt(snapshots: map<Id, Snapshot>, drift: map<Id, Drift>, readings: seq<Reading>,
                                     i: nat)
    requires drift.Keys == snapshots.Keys && DistinctIds(readings) && i < |readings|
    ensures Settled(snapshots, drift, ObserveAll(snapshots, readings).0, DriftAll(snapshots, drift, readings),
            readings[i])
  {
    var n := |readings| - 1;
    var init, r := readings[..n], readings[n];
    if i < n {
      SettledAt(snapshots, drift, init, i);
      assert init[i].id != r.id;
    } else {
      assert r.id !in Ids(init);
      UntouchedById(snapshots, drift, init, r.id);
    }
  }

  /** Updates are only sent for connections the client already has. */
  lemma {:induction false} ObserveAllEvents(snapshots: map<Id, Snapshot>, drift: map<Id, Drift>, readings: seq<Reading>)
    requires DistinctIds(readings) && drift.Keys == snapshots.Keys
    ensures forall e :: e in ObserveAll(snapshots, readings).1 ==> EventExpected(e, snapshots, Ids(readings))
  {
    if readings != [] {
      var n := |readings| - 1;
      var init := readings[..n];
      ObserveAllEvents(snapshots, drift, init);
      IdsSnoc(readings);
      assert readings[n].id !in Ids(init);
      UntouchedById(snapshots, drift, init, readings[n].id);
      var more := Observe(ObserveAll(snapshots, init).0, readings[n]).1;
      forall e | e in ObserveAll(snapshots, readings).1 ensures EventExpected(e, snapshots, Ids(readings)) {
        if e in more { assert e.id == readings[n].id; }
        else { assert EventExpected(e, snapshots, Ids(init)); }
      }
    }
  }

  lemma {:induction false} ObserveAllStamped(snapshots: map<Id, Snapshot>, readings: seq<Reading>)
    ensures Stamped(ObserveAll(snapshots, readings).1)
  {
    if readings != [] { ObserveAllStamped(snapshots, readings[..|readings| - 1]); }
  }

  lemma TickOutcome(snapshots: map<Id, Snapshot>, drift: map<Id, Drift>, lagging: set<Id>, active: seq<Reading>)
    requires drift.Keys == snapshots.Keys && DistinctIds(active) && lagging <= snapshots.Keys
    ensures var seen, seenDrift := ObserveAll(snapshots, active).0, DriftAll(snapshots, drift, active);
            var gone := seen.Keys - Ids(active);
            && (seen - gone).Keys == Ids(active) && gone == snapshots.Keys - Ids(active)
            && lagging - gone == lagging * Ids(active)
            && forall i :: 0 <= i < |active| ==> Settled(snapshots, drift, seen - gone, seenDrift - gone, active[i])
  {
    ObserveAllKeys(snapshots, active);
    forall i | 0 <= i < |active| ensures active[i].id in Ids(active)
      ensures Settled(snapshots, drift, ObserveAll(snapshots, active).0, DriftAll(snapshots, drift, active), active[i])
    {
      SettledAt(snapshots, drift, active, i);
    }
  }

  predicate EventExpected(e: Event, before: map<Id, Snapshot>, active: set<Id>) {
    e.Update? ==> e.id in before && e.id in active
  }

  /** After a tick the snapshot holds the counters just read, and the drift is moved once. */
  ghost predicate Settled(snapshots: map<Id, Snapshot>, drift: map<Id, Drift>,
                          after: map<Id, Snapshot>, driftAfter: map<Id, Drift>, r: Reading)
    requires drift.Keys == snapshots.Keys
  {
    && r.id in after && r.id in driftAfter
    && after[r.id].up == r.up && after[r.id].down == r.down
    && driftAfter[r.id] == ObserveDrift(snapshots, drift, r)[r.id]
  }

  datatype QueuedEvent =
    | QueuedNew(reading: Reading)
    | QueuedClosed(id: Id, closedAt: int, metadataClosedAt: int, metadata: Option<Connection>)
    | QueuedOther

  /** First of the three times that is set. */
  function ClosedTime(event: int, metadata: int, now: int): int {
    if event != 0 then event else if metadata != 0 then metadata else now
  }

  predicate DistinctIds(readings: seq<Reading>) {
    forall i, j :: 0 <= i < j < |readings| ==> readings[i].id != readings[j].id
  }

  function Ids(readings: seq<Reading>): set<Id> {
    set i | 0 <= i < |readings| :: readings[i].id
  }

  lemma IdsSnoc(readings: seq<Reading>)
    requires readings != []
    ensures var n := |readings| - 1; Ids(readings) == Ids(readings[..n]) + {readings[n].id}
  {
  }

  lemma IdsPrefix(readings: seq<Reading>, i: nat)
    requires i < |readings|
    ensures Ids(readings[..i + 1]) == Ids(readings[..i]) + {readings[i].id}
    ensures DistinctIds(readings) ==> readings[i].id !in Ids(readings[..i])
  {
  }

  /** A recently closed connection as the traffic manager remembers it. */
  datatype Remembered = Remembered(id: Id, connection: Connection)

  function RememberedIds(closed: seq<Remembered>): set<Id> {
    set i | 0 <= i < |closed| :: closed[i].id
  }

  predicate IsClosure(e: Event, closed: map<Id, Connection>, now: int) {
    && e.Closed?
    && e.last == (if e.id in closed then Some(closed[e.id]) else None)
    && e.closedAt == (if e.id in closed && closed[e.id].closedAt != 0 then closed[e.id].closedAt else now)
  }

  /** One closing event for each of `ids`, with what the traffic manager remembers of it, if anything. */
  ghost predicate Closures(events: seq<Event>, ids: set<Id>, closed: map<Id, Connection>, now: int)
    decreases |events|
  {
    if events == [] then ids == {}
    else
      var e := events[|events| - 1];
      e.id in ids && IsClosure(e, closed, now) && Closures(events[..|events| - 1], ids - {e.id}, closed, now)
  }

  lemma ExtendClosures(events: seq<Event>, ids: set<Id>, closed: map<Id, Connection>, now: int, e: Event)
    requires Closures(events, ids, closed, now) && IsClosure(e, closed, now) && e.id !in ids
    ensures Closures(events + [e], ids + {e.id}, closed, now)
  {
  }

  lemma {:induction false} ClosuresAreClosed(events: seq<Event>, ids: set<Id>, closed: map<Id, Connection>, now: int)
    requires Closures(events, ids, closed, now)
    ensures forall e :: e in events ==> e.Closed?
    decreases |events|
  {
    if events != [] {
      var n := |events| - 1;
      ClosuresAreClosed(events[..n], ids - {events[n].id}, closed, now);
      assert forall e :: e in events ==> e in events[..n] || e == events[n];
    }
  }

  /** The events of a tick: those of the readings, then one closing event for each connection that is gone. */
  ghost predicate TickEvents(events: seq<Event>, before: map<Id, Snapshot>, active: seq<Reading>,
                             closed: map<Id, Connection>, now: int) {
    var updates := ObserveAll(before, active).1;
    updates <= events && Closures(events[|updates|..], before.Keys - Ids(active), closed, now)
  }

  lemma TickEventsFrom(updates: seq<Event>, closures: seq<Event>, before: map<Id, Snapshot>, active: seq<Reading>,
                       closed: map<Id, Connection>, now: int)
    requires updates == ObserveAll(before, active).1 && Closures(closures, before.Keys - Ids(active), closed, now)
    ensures TickEvents(updates + closures, before, active, closed, now)
  {
    assert (updates + closures)[|updates|..] == closures;
  }

  /** Updates in a tick are only sent for connections that are still active and that the client shows
      as open, or that lag. */
  lemma TickUpdatesAreExpected(events: seq<Event>, view: View, before: map<Id, Snapshot>, drift: map<Id, Drift>,
                               lagging: set<Id>, active: seq<Reading>, closed: map<Id, Connection>, now: int)
    requires Tracks(view, before, drift, lagging) && DistinctIds(active)
    requires TickEvents(events, before, active, closed, now)
    ensures forall e :: e in events && e.Update? ==> e.id in Ids(active) && (e.id in OpenIds(view) || e.id in lagging)
  {
    var n := |ObserveAll(before, active).1|;
    ObserveAllEvents(before, drift, active);
    ClosuresAreClosed(events[n..], before.Keys - Ids(active), closed, now);
    assert events == events[..n] + events[n..];
    TracksMeansOpen(view, before, drift, lagging);
    assert forall e :: e in events ==> EventExpected(e, before, Ids(active));
  }

  // ---------------------------------------------------------------- one connection's life

  /** What became of one connection so far, said without the others: gone, or open with the counters
      last read, how much they grew in that reading, the skew between the two readings that
      announced it, what was lost whenever a counter went backwards, and whether none ever did. */
  datatype Life = Gone | Alive(up: int, down: int, grew: Amount, skew: Amount, lost: Amount, monotone: bool)

  function Born(r: Reading): Life {
    Alive(r.up, r.down, Amount(0, 0), Amount(r.shownUp - r.up, r.shownDown - r.down), Amount(0, 0), true)
  }

  function ReadOn(life: Life, r: Reading): Life
    requires life.Alive?
  {
    if r.up < life.up || r.down < life.down then
      Alive(r.up, r.down, Amount(0, 0), life.skew,
            Amount(life.lost.up + life.up - r.up, life.lost.down + life.down - r.down), false)
    else Alive(r.up, r.down, Amount(r.up - life.up, r.down - life.down), life.skew, life.lost, life.monotone)
  }

  /** A queued event and the time it is handled at. */
  datatype Timed = Timed(event: QueuedEvent, now: int)

  /** What the daemon handles in one go after the first batch: the queued events there are, or a tick. */
  datatype Op =
    | Drained(events: seq<Timed>)
    | Tick(active: seq<Reading>, closed: map<Id, Connection>, now: int)

  predicate Proper(op: Op) {
    match op
    case Drained(events) => forall i :: 0 <= i < |events| ==> events[i].now != 0
    case Tick(active, _, now) => now != 0 && DistinctIds(active)
  }

  function FindReading(active: seq<Reading>, id: Id): (r: Option<Reading>)
    ensures r.Some? <==> id in Ids(active)
    ensures r.Some? ==> r.value.id == id && r.value in active
  {
    if active == [] then None
    else
      var n := |active| - 1;
      IdsSnoc(active);
      if active[n].id == id then Some(active[n]) else FindReading(active[..n], id)
  }

  function LivedEvent(life: Life, event: QueuedEvent, id: Id): Life {
    match event
    case QueuedNew(r) => if r.id == id && life.Gone? then Born(r) else life
    case QueuedClosed(closed, _, _, _) => if closed == id then Gone else life
    case QueuedOther => life
  }

  function LivedEvents(life: Life, events: seq<Timed>, id: Id): Life {
    if events == [] then life
    else LivedEvent(LivedEvents(life, events[..|events| - 1], id), events[|events| - 1].event, id)
  }

  function Lived(life: Life, op: Op, id: Id): Life {
    match op
    case Drained(events) => LivedEvents(life, events, id)
    case Tick(active, _, _) =>
      var r := FindReading(active, id);
      if r.None? then Gone else if life.Gone? then Born(r.value) else ReadOn(life, r.value)
  }

  function LifeOf(first: seq<Reading>, ops: seq<Op>, id: Id): Life {
    if ops == [] then
      var r := FindReading(first, id);
      if r.None? then Gone else Born(r.value)
    else Lived(LifeOf(first, ops[..|ops| - 1], id), ops[|ops| - 1], id)
  }

  /** Nothing is lost as long as no counter went backwards. */
  predicate LostOnlyBackwards(life: Life) {
    life.Alive? && life.monotone ==> life.lost == Amount(0, 0)
  }

  lemma {:induction false} EventsLoseNothing(life: Life, events: seq<Timed>, id: Id)
    requires LostOnlyBackwards(life)
    ensures LostOnlyBackwards(LivedEvents(life, events, id))
  {
    if events != [] { EventsLoseNothing(life, events[..|events| - 1], id); }
  }

  /** With counters that never went backwards nothing is lost. */
  lemma {:induction false} MonotoneLosesNothing(first: seq<Reading>, ops: seq<Op>, id: Id)
    ensures LostOnlyBackwards(LifeOf(first, ops, id))
  {
    if ops != [] {
      var n := |ops| - 1;
      MonotoneLosesNothing(first, ops[..n], id);
      if ops[n].Drained? { EventsLoseNothing(LifeOf(first, ops[..n], id), ops[n].events, id); }
    }
  }

  /** The daemon's snapshot and drift of `id` are those of its life. */
  ghost predicate InStep(snapshots: map<Id, Snapshot>, drift: map<Id, Drift>, life: Life, id: Id) {
    && (id in snapshots <==> life.Alive?)
    && (id in snapshots ==>
          && id in drift && snapshots[id].up == life.up && snapshots[id].down == life.down
          && drift[id] == Drift(life.skew.up + life.lost.up, life.skew.down + life.lost.down,
                                life.grew.up, life.grew.down))
  }

  /** The client shows `id` as its life is, unless it lags: open, with the counters last read, the
      skew of its announcement and what was lost, and as rates what they grew. */
  ghost predicate Shows(view: View, life: Life, lagging: set<Id>, id: Id) {
    && (id in view && view[id].closedAt == 0 <==> life.Alive? && id !in lagging)
    && (life.Alive? && id !in lagging ==>
          && view[id].upTotal == life.up + life.skew.up + life.lost.up
          && view[id].downTotal == life.down + life.skew.down + life.lost.down
          && view[id].upRate == life.grew.up && view[id].downRate == life.grew.down)
  }

  lemma TracksShows(view: View, snapshots: map<Id, Snapshot>, drift: map<Id, Drift>, lagging: set<Id>, life: Life,
                    id: Id)
    requires Tracks(view, snapshots, drift, lagging) && InStep(snapshots, drift, life, id)
    ensures Shows(view, life, lagging, id)
  {
    assert TracksId(view, snapshots, drift, lagging, id);
  }

  lemma OpenPartShows(v: View, w: View, life: Life, lagging: set<Id>, id: Id)
    requires OpenPart(v) == OpenPart(w) && Shows(v, life, lagging, id)
    ensures Shows(w, life, lagging, id)
  {
    assert id in OpenPart(v) <==> id in OpenPart(w);
    assert id in OpenPart(v) ==> OpenPart(v)[id] == v[id] && OpenPart(w)[id] == w[id];
  }

  lemma TickInStep(snapshots: map<Id, Snapshot>, drift: map<Id, Drift>,
                   after: map<Id, Snapshot>, driftAfter: map<Id, Drift>, op: Op, life: Life, id: Id)
    requires op.Tick? && drift.Keys == snapshots.Keys && after.Keys == Ids(op.active)
    requires forall i :: 0 <= i < |op.active| ==> Settled(snapshots, drift, after, driftAfter, op.active[i])
    requires InStep(snapshots, drift, life, id)
    ensures InStep(after, driftAfter, Lived(life, op, id), id)
  {
    var r := FindReading(op.active, id);
    if r.Some? {
      var i :| 0 <= i < |op.active| && op.active[i] == r.value;
      assert Settled(snapshots, drift, after, driftAfter, op.active[i]);
    }
  }

  lemma FirstInStep(first: seq<Reading>, after: map<Id, Snapshot>, driftAfter: map<Id, Drift>, id: Id)
    requires after.Keys == Ids(first)
    requires forall i :: 0 <= i < |first| ==> Settled(map[], map[], after, driftAfter, first[i])
    ensures InStep(after, driftAfter, LifeOf(first, [], id), id)
  {
    var r := FindReading(first, id);
    if r.Some? {
      var i :| 0 <= i < |first| && first[i] == r.value;
      assert Settled(map[], map[], after, driftAfter, first[i]);
    }
  }

  class Subscription {
    var snapshots: map<Id, Snapshot>
    ghost var sent: seq<Event>
    ghost var drift: map<Id, Drift>
    ghost var lagging: set<Id>

    ghost predicate Valid()
      reads this
    {
      Tracks(Replay(map[], sent), snapshots, drift, lagging) && Stamped(sent)
    }

    constructor ()
      ensures Valid() && snapshots == map[] && sent == [] && drift == map[] && lagging == {}
    {
      snapshots, sent, drift, lagging := map[], [], map[], {};
    }

    ghost method Send(events: seq<Event>)
      modifies this`sent
      ensures sent == old(sent) + events
      ensures Replay(map[], sent) == Replay(Replay(map[], old(sent)), events)
      ensures Stamped(old(sent)) && Stamped(events) ==> Stamped(sent)
    {
      ReplayAppend(map[], sent, events);
      sent := sent + events;
    }

    /** The first batch's loop over the active connections. */
    method DescribeActive(active: seq<Reading>) returns (events: seq<Event>)
      requires snapshots == map[] && sent == [] && drift == map[] && lagging == {} && DistinctIds(active)
      modifies this
      ensures Valid() && sent == events && lagging == {} && snapshots.Keys == Ids(active)
      ensures snapshots == ObserveAll(map[], active).0 && drift == DriftAll(map[], map[], active)
    {
      events := [];
      for i := 0 to |active|
        invariant (snapshots, events) == ObserveAll(map[], active[..i])
        invariant sent == old(sent) && drift == old(drift) && lagging == old(lagging)
      {
        var r := active[i];
        assert active[..i + 1][..i] == active[..i];
        assert r.id !in snapshots by {
          IdsPrefix(active, i);
          ObserveAllKeys(map[], active[..i]);
        }
        events := events + [New(r.id, Described(r))];
        snapshots := snapshots[r.id := Snapshot(r.up, r.down, false)];
      }
      assert active[..|active|] == active;
      drift := DriftAll(map[], map[], active);
      ReplayAppend(map[], [], events);
      sent := events;
      assert [] + events == events;
      ObserveAllTracks(Replay(map[], []), map[], map[], {}, active);
      ObserveAllStamped(map[], active);
      ObserveAllKeys(map[], active);
    }

    /** The first batch. A connection read as active that has closed by the time the closed list is
        read is shown as closed although it has a snapshot: exactly those lag. */
    method BuildInitialConnectionState(active: seq<Reading>, closed: seq<Remembered>) returns (events: seq<Event>)
      requires snapshots == map[] && sent == [] && drift == map[] && lagging == {}
      requires DistinctIds(active) && forall i :: 0 <= i < |closed| ==> closed[i].connection.closedAt != 0
      modifies this
      ensures Valid() && sent == events
      ensures snapshots.Keys == Ids(active) && lagging == Ids(active) * RememberedIds(closed)
      ensures forall i :: 0 <= i < |active| ==> Settled(map[], map[], snapshots, drift, active[i])
    {
      events := DescribeActive(active);
      assert RememberedIds(closed[..0]) == {};
      for i := 0 to |closed|
        invariant Valid() && sent == events && lagging == Ids(active) * RememberedIds(closed[..i])
        invariant snapshots == ObserveAll(map[], active).0 && drift == DriftAll(map[], map[], active)
      {
        var c := closed[i];
        ListedClosedTracks(Replay(map[], sent), snapshots, drift, lagging, c.id, c.connection);
        RememberedSnoc(closed, i);
        events := events + [New(c.id, c.connection)];
        Send([New(c.id, c.connection)]);
        lagging := lagging + {c.id} * snapshots.Keys;
      }
      assert closed[..|closed|] == closed;
      forall i | 0 <= i < |active| ensures Settled(map[], map[], snapshots, drift, active[i]) {
        SettledAt(map[], map[], active, i);
      }
    }

    /** One event of the traffic manager's queue. */
    method ApplyConnectionEvent(event: QueuedEvent, now: int) returns (out: Option<Event>)
      requires Valid() && now != 0
      modifies this
      ensures Valid() && sent == old(sent) + (if out.Some? then [out.value] else [])
      ensures match event
              case QueuedNew(r) =>
                && snapshots == (if r.id in old(snapshots) then old(snapshots)
                                 else old(snapshots)[r.id := Snapshot(r.up, r.down, false)])
                && drift == (if r.id in old(snapshots) then old(drift) else ObserveDrift(old(snapshots), old(drift), r))
                && lagging == old(lagging)
                && out == (if r.id in old(snapshots) then None else Some(New(r.id, Described(r))))
              case QueuedClosed(id, closedAt, metadataClosedAt, metadata) =>
                && snapshots == old(snapshots) - {id} && drift == old(drift) - {id} && lagging == old(lagging) - {id}
                && out.Some? && out.value.Closed? && out.value.id == id && out.value.last == metadata
                && (closedAt != 0 ==> out.value.closedAt == closedAt)
                && (closedAt == 0 && metadataClosedAt != 0 ==> out.value.closedAt == metadataClosedAt)
                && (closedAt == 0 && metadataClosedAt == 0 ==> out.value.closedAt == now)
              case QueuedOther =>
                && out.None? && snapshots == old(snapshots) && drift == old(drift) && lagging == old(lagging)
    {
      match event
      case QueuedNew(r) =>
        if r.id in snapshots { return None; }
        ObserveTracks(Replay(map[], sent), snapshots, drift, lagging, r);
        drift := ObserveDrift(snapshots, drift, r);
        snapshots := snapshots[r.id := Snapshot(r.up, r.down, false)];
        Send([New(r.id, Described(r))]);
        out := Some(New(r.id, Described(r)));
      case QueuedClosed(id, closedAt, metadataClosedAt, metadata) =>
        var at := ClosedTime(closedAt, metadataClosedAt, now);
        ClosedTracks(Replay(map[], sent), snapshots, drift, lagging, id, at, metadata);
        snapshots, drift, lagging := snapshots - {id}, drift - {id}, lagging - {id};
        Send([Closed(id, at, metadata)]);
        out := Some(Closed(id, at, metadata));
      case QueuedOther =>
        out := None;
    }

    /** The tick's loop over the active connections. */
    method DiffActive(active: seq<Reading>) returns (events: seq<Event>)
      requires Valid()
      modifies this
      ensures Valid() && sent == old(sent) + events && lagging == old(lagging)
      ensures (snapshots, events) == ObserveAll(old(snapshots), active)
      ensures drift == DriftAll(old(snapshots), old(drift), active)
    {
      ObserveAllTracks(Replay(map[], sent), snapshots, drift, lagging, active);
      ObserveAllStamped(snapshots, active);
      events := [];
      for i := 0 to |active|
        invariant (snapshots, events) == ObserveAll(old(snapshots), active[..i])
        invariant sent == old(sent) && drift == old(drift) && lagging == old(lagging)
      {
        assert active[..i + 1][..i] == active[..i];
        var (after, more) := Observe(snapshots, active[i]);
        snapshots, events := after, events + more;
      }
      assert active[..|active|] == active;
      drift := DriftAll(old(snapshots), drift, active);
      Send(events);
    }

    /** Reports `id` as closed. */
    method CloseOne(id: Id, closed: map<Id, Connection>, now: int) returns (event: Event)
      requires Valid() && now != 0
      modifies this
      ensures Valid() && sent == old(sent) + [event] && event.id == id && IsClosure(event, closed, now)
      ensures snapshots == old(snapshots) - {id} && drift == old(drift) - {id} && lagging == old(lagging) - {id}
    {
      var last := if id in closed then Some(closed[id]) else None;
      var at := if id in closed && closed[id].closedAt != 0 then closed[id].closedAt else now;
      ClosedTracks(Replay(map[], sent), snapshots, drift, lagging, id, at, last);
      snapshots, drift, lagging := snapshots - {id}, drift - {id}, lagging - {id};
      event := Closed(id, at, last);
      Send([event]);
    }

    /** The tick's loop over the snapshots: reports as closed what is no longer active, in any order. */
    method CloseInactive(active: set<Id>, closed: map<Id, Connection>, now: int) returns (events: seq<Event>)
      requires Valid() && now != 0
      modifies this
      ensures Valid() && sent == old(sent) + events
      ensures snapshots == old(snapshots) - (old(snapshots).Keys - active)
      ensures drift == old(drift) - (old(snapshots).Keys - active)
      ensures lagging == old(lagging) - (old(snapshots).Keys - active)
      ensures Closures(events, old(snapshots).Keys - active, closed, now)
    {
      events := [];
      var gone, done := snapshots.Keys - active, {};
      while gone != {}
        invariant Valid() && sent == old(sent) + events
        invariant gone !! done && gone + done == old(snapshots).Keys - active
        invariant snapshots == old(snapshots) - done && drift == old(drift) - done && lagging == old(lagging) - done
        invariant Closures(events, done, closed, now)
      {
        var id :| id in gone;
        var event := CloseOne(id, closed, now);
        ExtendClosures(events, done, closed, now, event);
        events := events + [event];
        gone, done := gone - {id}, done + {id};
      }
      assert done == old(snapshots).Keys - active;
    }

    /** A tick: diffs the active connections, then reports as closed whatever is no longer active. */
    method BuildTrafficUpdates(active: seq<Reading>, closed: map<Id, Connection>, now: int) returns (events: seq<Event>)
      requires Valid() && DistinctIds(active) && now != 0
      modifies this
      ensures Valid() && sent == old(sent) + events
      ensures snapshots.Keys == Ids(active) && lagging == old(lagging) * Ids(active)
      ensures forall i :: 0 <= i < |active| ==> Settled(old(snapshots), old(drift), snapshots, drift, active[i])
      ensures TickEvents(events, old(snapshots), active, closed, now)
    {
      TracksMeansOpen(Replay(map[], sent), snapshots, drift, lagging);
      TickOutcome(snapshots, drift, lagging, active);
      var updates := DiffActive(active);
      var closures := CloseInactive(Ids(active), closed, now);
      TickEventsFrom(updates, closures, old(snapshots), active, closed, now);
      Associative(old(sent), updates, closures);
      events := updates + closures;
    }

    /** The loop that drains the queue into one batch. */
    method Drain(queue: seq<Timed>) returns (events: seq<Event>)
      requires Valid() && forall i :: 0 <= i < |queue| ==> queue[i].now != 0
      modifies this
      ensures Valid() && sent == old(sent) + events && lagging <= old(lagging)
      ensures forall id, life :: InStep(old(snapshots), old(drift), life, id) ==>
                InStep(snapshots, drift, LivedEvents(life, queue, id), id)
    {
      events := [];
      for i := 0 to |queue|
        invariant Valid() && sent == old(sent) + events && lagging <= old(lagging)
        invariant forall id, life :: InStep(old(snapshots), old(drift), life, id) ==>
                    InStep(snapshots, drift, LivedEvents(life, queue[..i], id), id)
      {
        ghost var before, driftBefore, done := snapshots, drift, queue[..i + 1];
        var out := ApplyConnectionEvent(queue[i].event, queue[i].now);
        Associative(old(sent), events, if out.Some? then [out.value] else []);
        events := events + if out.Some? then [out.value] else [];
        assert done[..i] == queue[..i];
        forall id, life | InStep(old(snapshots), old(drift), life, id)
          ensures InStep(snapshots, drift, LivedEvents(life, done, id), id)
        {
          assert InStep(before, driftBefore, LivedEvents(life, queue[..i], id), id);
        }
      }
      assert queue[..|queue|] == queue;
    }

    /** Handles the queued events there are, or a tick. Every connection's snapshot and drift follow its life. */
    method Serve(op: Op) returns (events: seq<Event>)
      requires Valid() && Proper(op)
      modifies this
      ensures Valid() && sent == old(sent) + events
      ensures forall id, life :: InStep(old(snapshots), old(drift), life, id) ==>
                InStep(snapshots, drift, Lived(life, op, id), id)
      ensures lagging <= old(lagging) && (op.Tick? ==> lagging <= Ids(op.active))
    {
      ghost var before, driftBefore := snapshots, drift;
      TracksMeansOpen(Replay(map[], sent), snapshots, drift, lagging);
      match op
      case Drained(queue) =>
        events := Drain(queue);
      case Tick(active, closed, now) =>
        events := BuildTrafficUpdates(active, closed, now);
        forall id, life | InStep(before, driftBefore, life, id)
          ensures InStep(snapshots, drift, Lived(life, op, id), id)
        {
          TickInStep(before, driftBefore, snapshots, drift, op, life, id);
        }
    }
  }

  lemma RememberedSnoc(closed: seq<Remembered>, i: nat)
    requires i < |closed|
    ensures RememberedIds(closed[..i + 1]) == RememberedIds(closed[..i]) + {closed[i].id}
  {
  }

  // ---------------------------------------------------------------- daemon and client together

  /** A remembered connection never comes back: no later tick finds it active. */
  ghost predicate StaysClosed(closed: seq<Remembered>, ops: seq<Op>) {
    forall i :: 0 <= i < |ops| && ops[i].Tick? ==> Ids(ops[i].active) !! RememberedIds(closed)
  }

  ghost predicate Ticked(ops: seq<Op>) { exists i :: 0 <= i < |ops| && ops[i].Tick? }

  /** The client shows as open what replaying everything sent leaves open, and nothing that this does
      not show. */
  ghost predicate Connected(daemon: Subscription, client: Connections)
    reads daemon, client
  {
    && daemon.Valid() && OpenPart(client.connectionMap) == OpenPart(Replay(map[], daemon.sent))
    && PartOf(client.connectionMap, Replay(map[], daemon.sent))
  }

  /** One batch, from the daemon to the client; an empty one is not sent. */
  method Deliver(daemon: Subscription, client: Connections, op: Op, now: int, maxAge: int)
    requires Connected(daemon, client) && Proper(op)
    modifies daemon, client
    ensures Connected(daemon, client)
    ensures forall id, life :: InStep(old(daemon.snapshots), old(daemon.drift), life, id) ==>
              InStep(daemon.snapshots, daemon.drift, Lived(life, op, id), id)
    ensures daemon.lagging <= old(daemon.lagging) && (op.Tick? ==> daemon.lagging <= Ids(op.active))
  {
    ghost var sent, view := daemon.sent, client.connectionMap;
    var batch := daemon.Serve(op);
    if batch == [] {
      assert sent + batch == sent;
      return;
    }
    assert Stamped(batch) by { assert forall e :: e in batch ==> e in daemon.sent; }
    client.ApplyEvents(false, batch, now, maxAge);
    ReplayAppend(map[], sent, batch);
    OpenPartDecidesOpenPart(view, Replay(map[], sent), batch);
    PartStaysPart(view, Replay(map[], sent), batch);
  }

  ghost predicate AllInStep(daemon: Subscription, first: seq<Reading>, ops: seq<Op>)
    reads daemon
  {
    forall id :: InStep(daemon.snapshots, daemon.drift, LifeOf(first, ops, id), id)
  }

  /** The first batch, which resets the client. */
  method Connect(first: seq<Reading>, closed: seq<Remembered>, now: int, maxAge: int)
    returns (daemon: Subscription, client: Connections)
    requires DistinctIds(first) && forall i :: 0 <= i < |closed| ==> closed[i].connection.closedAt != 0
    ensures fresh(daemon) && fresh(client) && Connected(daemon, client)
    ensures daemon.lagging == Ids(first) * RememberedIds(closed) && AllInStep(daemon, first, [])
  {
    daemon := new Subscription();
    client := new Connections();
    var batch := daemon.BuildInitialConnectionState(first, closed);
    client.ApplyEvents(true, batch, now, maxAge);
    forall id ensures InStep(daemon.snapshots, daemon.drift, LifeOf(first, [], id), id) {
      FirstInStep(first, daemon.snapshots, daemon.drift, id);
    }
  }

  /** A subscription and its client, from the first batch on, over any queued events and ticks. The
      client shows every connection as its life is; only connections read as both active and closed
      in the first batch can lag, and none does after a tick. `clock` is the client's. */
  method Session(first: seq<Reading>, closed: seq<Remembered>, ops: seq<Op>, clock: nat -> int, maxAge: int)
    returns (daemon: Subscription, client: Connections)
    requires DistinctIds(first) && forall i :: 0 <= i < |closed| ==> closed[i].connection.closedAt != 0
    requires forall i :: 0 <= i < |ops| ==> Proper(ops[i])
    ensures Connected(daemon, client) && daemon.lagging <= Ids(first) * RememberedIds(closed)
    ensures forall id :: Shows(client.connectionMap, LifeOf(first, ops, id), daemon.lagging, id)
    ensures StaysClosed(closed, ops) && Ticked(ops) ==> daemon.lagging == {}
  {
    daemon, client := Connect(first, closed, clock(0), maxAge);
    assert ops[..0] == [];
    for i := 0 to |ops|
      invariant fresh(daemon) && fresh(client)
      invariant Connected(daemon, client) && daemon.lagging <= Ids(first) * RememberedIds(closed)
      invariant AllInStep(daemon, first, ops[..i])
      invariant StaysClosed(closed, ops) && Ticked(ops[..i]) ==> daemon.lagging == {}
    {
      ghost var lagging := daemon.lagging;
      Deliver(daemon, client, ops[i], clock(i + 1), maxAge);
      ghost var done := ops[..i + 1];
      forall id ensures InStep(daemon.snapshots, daemon.drift, LifeOf(first, done, id), id) {
        LifeSnoc(first, ops, i, id);
      }
      if StaysClosed(closed, ops) && Ticked(ops[..i + 1]) { NoLagAfterTick(closed, ops, i, lagging, daemon.lagging); }
    }
    assert ops[..|ops|] == ops;
    forall id ensures Shows(client.connectionMap, LifeOf(first, ops, id), daemon.lagging, id) {
      var view, life := Replay(map[], daemon.sent), LifeOf(first, ops, id);
      TracksShows(view, daemon.snapshots, daemon.drift, daemon.lagging, life, id);
      OpenPartShows(view, client.connectionMap, life, daemon.lagging, id);
    }
  }

  lemma LifeSnoc(first: seq<Reading>, ops: seq<Op>, i: nat, id: Id)
    requires i < |ops|
    ensures LifeOf(first, ops[..i + 1], id) == Lived(LifeOf(first, ops[..i], id), ops[i], id)
  {
    assert ops[..i + 1][..i] == ops[..i];
  }

  lemma NoLagAfterTick(closed: seq<Remembered>, ops: seq<Op>, i: nat, before: set<Id>, after: set<Id>)
    requires i < |ops| && StaysClosed(closed, ops) && Ticked(ops[..i + 1]) && (Ticked(ops[..i]) ==> before == {})
    requires after <= before && after <= RememberedIds(closed) && (ops[i].Tick? ==> after <= Ids(ops[i].active))
    ensures after == {}
  {
    if !ops[i].Tick? {
      var k :| 0 <= k < |ops[..i + 1]| && ops[..i + 1][k].Tick?;
      assert ops[..i][k].Tick?;
    }
  }

  /** When no remembered connection comes back, the client shows exactly the active ones after a tick,
      and with counters that never went backwards their totals are those last read plus the skew. */
  lemma ShownAfterTick(view: View, first: seq<Reading>, ops: seq<Op>, id: Id)
    requires ops != [] && ops[|ops| - 1].Tick? && Shows(view, LifeOf(first, ops, id), {}, id)
    ensures id in OpenIds(view) <==> id in Ids(ops[|ops| - 1].active)
    ensures var life := LifeOf(first, ops, id);
            id in OpenIds(view) && life.monotone ==>
              var r := FindReading(ops[|ops| - 1].active, id).value;
              view[id].upTotal == r.up + life.skew.up && view[id].downTotal == r.down + life.skew.down
  {
    MonotoneLosesNothing(first, ops, id);
  }
}
