/** Concurrent DNS exchanges for cacheable questions: one leader per key holds a channel in the lock
    map, followers wait for it to be closed. Steps are the atomic map, channel and cache operations
    of any number of calls, in any order. */
module SingleFlight {
  import opened Prelude

  type Key = string
  type Channel = nat

  /** A cached response: which one, and until when. */
  datatype Entry = Entry(response: nat, expireAt: int)

  datatype Answer = FromCache(response: nat) | FromTransport | Failed | Cancelled

  /** Who opened the channel of this call's key: the call itself, or the one it waited for. */
  datatype Role = Leader | Follower

  datatype Call =
    | Waiting(key: Key, ch: Channel)
    | Loading(key: Key, ch: Channel, role: Role)     // about to look into the cache
    | Removing(key: Key, ch: Channel, role: Role)    // found an entry too old to use, about to remove it
    | Exchanging(key: Key, ch: Channel, role: Role)  // asking the transport
    | Unlocking(key: Key, ch: Channel, answer: Answer)  // leader: about to delete its map entry
    | Closing(ch: Channel, answer: Answer)              // leader: about to close its channel
    | Done(answer: Answer)

  /** A channel that was put into the lock map: for which key and by which call. */
  datatype Opened = Opened(key: Key, opener: nat)

  /** The lock map, the channels opened and closed, the calls, the cache, the keys being refreshed and
      the clock. For the statements below, also the channels whose leader stored a response that has
      not been removed since. */
  datatype State = State(locks: map<Key, Channel>, closed: set<Channel>, channels: seq<Opened>, calls: seq<Call>,
                         cache: map<Key, Entry>, refreshing: set<Key>, now: int, kept: set<Channel>)

  const Initial := State(map[], {}, [], [], map[], {}, 0, {})

  /** Evict stands for whatever takes an entry out besides a call's own removal: the cache making room,
      or a lookup that looked without the lock and found an entry too old. */
  datatype Step =
    | Begin(key: Key)
    | Wake(t: nat)
    | Cancel(t: nat)
    | Load(t: nat, staleAllowed: bool, window: nat)  // window: how long a stale answer may be served
    | Remove(t: nat)
    | Reply(t: nat, reply: Option<Entry>, store: bool)  // no reply means an error
    | Delete(t: nat)
    | CloseChannel(t: nat)
    | Tick(now: int)
    | Evict(key: Key)
    | Clear
    | Peek(key: Key, window: nat)  // a lookup looks into the cache without the lock
    | RefreshEnds(key: Key, reply: Option<Entry>)  // a background refresh finishes, with something to store or not

  /** A call has its answer: a leader still has to unlock. */
  function Finish(c: Call, answer: Answer): Call
    requires c.Loading? || c.Exchanging?
  {
    if c.role == Leader then Unlocking(c.key, c.ch, answer) else Done(answer)
  }

  function With(s: State, t: nat, c: Call): State
    requires t < |s.calls|
  {
    s.(calls := s.calls[t := c])
  }

  /** The cache without `key`; channels of that key are no longer kept. */
  function Forget(s: State, key: Key): State {
    s.(cache := s.cache - {key}, kept := set ch | ch in s.kept && ch < |s.channels| && s.channels[ch].key != key)
  }

  function LoadStep(s: State, t: nat, staleAllowed: bool, window: nat): State
    requires t < |s.calls| && s.calls[t].Loading?
  {
    var c := s.calls[t];
    var ask := With(s, t, Exchanging(c.key, c.ch, c.role));
    if c.key !in s.cache then ask
    else
      var e := s.cache[c.key];
      if s.now <= e.expireAt then With(s, t, Finish(c, FromCache(e.response)))
      else if s.now < e.expireAt + window then
        if staleAllowed then With(s, t, Finish(c, FromCache(e.response))).(refreshing := s.refreshing + {c.key})
          else ask
      else With(s, t, Removing(c.key, c.ch, c.role))
  }

  /** Only responses with a positive time to live are stored. */
  predicate Lives(s: State, e: Entry) { s.now < e.expireAt }

  function ReplyStep(s: State, t: nat, reply: Option<Entry>, store: bool): State
    requires t < |s.calls| && s.calls[t].Exchanging?
  {
    var c := s.calls[t];
    if reply.None? then With(s, t, Finish(c, Failed))
    else
      var s' := With(s, t, Finish(c, FromTransport));
      if !store || !Lives(s, reply.value) then s'
      else s'.(cache := s.cache[c.key := reply.value], kept := if c.role == Leader then s.kept + {c.ch} else s.kept)
  }

  /** One step; a step that does not apply leaves the state alone. */
  function Next(s: State, step: Step): State {
    match step
    case Begin(key) =>
      if key in s.locks then s.(calls := s.calls + [Waiting(key, s.locks[key])])
      else
        var ch := |s.channels|;
        s.(locks := s.locks[key := ch], channels := s.channels + [Opened(key, |s.calls|)],
           calls := s.calls + [Loading(key, ch, Leader)])
    case Wake(t) =>
      if t < |s.calls| && s.calls[t].Waiting? && s.calls[t].ch in s.closed then
        With(s, t, Loading(s.calls[t].key, s.calls[t].ch, Follower))
      else s
    case Cancel(t) =>
      if t < |s.calls| && s.calls[t].Waiting? then With(s, t, Done(Cancelled)) else s
    case Load(t, staleAllowed, window) =>
      if t < |s.calls| && s.calls[t].Loading? then LoadStep(s, t, staleAllowed, window) else s
    case Remove(t) =>
      if t < |s.calls| && s.calls[t].Removing? then
        var c := s.calls[t]; With(Forget(s, c.key), t, Exchanging(c.key, c.ch, c.role))
      else s
    case Reply(t, reply, store) =>
      if t < |s.calls| && s.calls[t].Exchanging? then ReplyStep(s, t, reply, store) else s
    case Delete(t) =>
      if t < |s.calls| && s.calls[t].Unlocking? then
        With(s.(locks := s.locks - {s.calls[t].key}), t, Closing(s.calls[t].ch, s.calls[t].answer))
      else s
    case CloseChannel(t) =>
      if t < |s.calls| && s.calls[t].Closing? then
        With(s.(closed := s.closed + {s.calls[t].ch}), t, Done(s.calls[t].answer))
      else s
    case Tick(now) => if now >= s.now then s.(now := now) else s
    case Evict(key) => Forget(s, key)
    case Clear => s.(cache := map[], kept := {})
    case Peek(key, window) =>
      if key in s.cache && s.cache[key].expireAt < s.now < s.cache[key].expireAt + window then
        s.(refreshing := s.refreshing + {key})
      else s
    case RefreshEnds(key, reply) =>
      if key !in s.refreshing then s
      else
        var s' := s.(refreshing := s.refreshing - {key});
        if reply.Some? && Lives(s, reply.value) then s'.(cache := s.cache[key := reply.value]) else s'
  }

  function Run(s: State, steps: seq<Step>): State
    decreases steps
  {
    if steps == [] then s else Run(Next(s, steps[0]), steps[1..])
  }

  // ---------------------------------------------------------------- the invariant

  /** The call opened channel `ch` and has not closed it. */
  predicate Holds(c: Call, ch: Channel) {
    match c
    case Loading(_, x, r) => r == Leader && x == ch
    case Removing(_, x, r) => r == Leader && x == ch
    case Exchanging(_, x, r) => r == Leader && x == ch
    case Unlocking(_, x, _) => x == ch
    case Closing(x, _) => x == ch
    case _ => false
  }

  /** The call is the leader of `key`: its channel is still in the lock map. */
  predicate Leads(c: Call, key: Key) {
    match c
    case Loading(k, _, r) => r == Leader && k == key
    case Removing(k, _, r) => r == Leader && k == key
    case Exchanging(k, _, r) => r == Leader && k == key
    case Unlocking(k, _, _) => k == key
    case _ => false
  }

  /** The key and channel a call names belong together, and a channel it holds is one it opened. */
  predicate Consistent(s: State, t: nat, c: Call) {
    (c.Done? || c.ch < |s.channels|) &&
    match c
    case Waiting(k, ch) => s.channels[ch].key == k
    case Loading(k, ch, r) => s.channels[ch].key == k && (r == Leader ==> s.channels[ch].opener == t)
    case Removing(k, ch, r) => s.channels[ch].key == k && (r == Leader ==> s.channels[ch].opener == t)
    case Exchanging(k, ch, r) => s.channels[ch].key == k && (r == Leader ==> s.channels[ch].opener == t)
    case Unlocking(k, ch, _) => s.channels[ch] == Opened(k, t)
    case Closing(ch, _) => s.channels[ch].opener == t
    case Done(_) => true
  }

  /** A channel is open exactly as long as the call that opened it holds it. */
  predicate ChannelOk(s: State, ch: Channel)
    requires ch < |s.channels|
  {
    s.channels[ch].opener < |s.calls| && (ch in s.closed <==> !Holds(s.calls[s.channels[ch].opener], ch))
  }

  /** The channel in the map for `key` was opened for it, and its opener still leads. */
  predicate LockOk(s: State, key: Key)
    requires key in s.locks
  {
    var ch := s.locks[key];
    && ch < |s.channels| && s.channels[ch].opener < |s.calls|
    && Leads(s.calls[s.channels[ch].opener], key) && Holds(s.calls[s.channels[ch].opener], ch)
  }

  ghost predicate LeaderOk(s: State, c: Call) {
    forall key :: Leads(c, key) ==> key in s.locks && s.locks[key] == c.ch
  }

  ghost predicate KeptIsCached(s: State) {
    forall ch :: ch in s.kept ==> ch < |s.channels| && s.channels[ch].key in s.cache
  }

  ghost predicate Inv(s: State) {
    && (forall t :: 0 <= t < |s.calls| ==> Consistent(s, t, s.calls[t]) && LeaderOk(s, s.calls[t]))
    && (forall key :: key in s.locks ==> LockOk(s, key))
    && (forall ch :: 0 <= ch < |s.channels| ==> ChannelOk(s, ch))
    && (forall ch :: ch in s.closed ==> ch < |s.channels|)
    && KeptIsCached(s)
  }

  /** Both calls hold the same channel and lead the same key, if any. */
  ghost predicate SameHold(c: Call, d: Call) {
    && (forall ch :: Holds(c, ch) <==> Holds(d, ch))
    && (forall key :: Leads(c, key) <==> Leads(d, key))
    && (forall key :: Leads(c, key) ==> c.ch == d.ch)
  }

  /** A call moves on without taking or giving up its channel; cache and clock may change with it. */
  lemma MoveKeeps(s: State, s': State, t: nat, d: Call)
    requires Inv(s) && t < |s.calls| && s'.calls == s.calls[t := d]
    requires s'.locks == s.locks && s'.closed == s.closed && s'.channels == s.channels
    requires SameHold(s.calls[t], d) && Consistent(s, t, d) && KeptIsCached(s')
    ensures Inv(s')
  {
    forall key | key in s'.locks ensures LockOk(s', key) { assert LockOk(s, key); }
    forall ch | 0 <= ch < |s'.channels| ensures ChannelOk(s', ch) { assert ChannelOk(s, ch); }
    forall u | 0 <= u < |s'.calls| ensures Consistent(s', u, s'.calls[u]) && LeaderOk(s', s'.calls[u]) {
      assert Consistent(s, u, s.calls[u]) && LeaderOk(s, s.calls[u]);
    }
  }

  lemma BeginKeeps(s: State, key: Key)
    requires Inv(s)
    ensures Inv(Next(s, Begin(key)))
  {
    var s' := Next(s, Begin(key));
    if key in s.locks {
      var leader := s.channels[s.locks[key]].opener;
      assert LockOk(s, key) && Consistent(s, leader, s.calls[leader]);
    }
    forall k | k in s'.locks ensures LockOk(s', k) { assert k in s.locks ==> LockOk(s, k); }
    forall ch | 0 <= ch < |s'.channels| ensures ChannelOk(s', ch) { assert ch < |s.channels| ==> ChannelOk(s, ch); }
    forall u | 0 <= u < |s'.calls| ensures Consistent(s', u, s'.calls[u]) && LeaderOk(s', s'.calls[u]) {
      if u < |s.calls| { assert Consistent(s, u, s.calls[u]) && LeaderOk(s, s.calls[u]); }
    }
  }

  /** At any moment each key has at most one leader. */
  lemma AtMostOneLeader(s: State, t: nat, u: nat, key: Key)
    requires Inv(s) && t < |s.calls| && u < |s.calls| && Leads(s.calls[t], key) && Leads(s.calls[u], key)
    ensures t == u
  {
  }

  lemma DeleteKeeps(s: State, t: nat)
    requires Inv(s) && t < |s.calls| && s.calls[t].Unlocking?
    ensures Inv(Next(s, Delete(t)))
  {
    var s' := Next(s, Delete(t));
    var gone := s.calls[t].key;
    assert Consistent(s, t, s.calls[t]) && LeaderOk(s, s.calls[t]) && Leads(s.calls[t], gone);
    forall k | k in s'.locks ensures LockOk(s', k) { assert LockOk(s, k); }
    forall ch | 0 <= ch < |s'.channels| ensures ChannelOk(s', ch) { assert ChannelOk(s, ch); }
    forall u | 0 <= u < |s'.calls| ensures Consistent(s', u, s'.calls[u]) && LeaderOk(s', s'.calls[u]) {
      assert Consistent(s, u, s.calls[u]) && LeaderOk(s, s.calls[u]);
      if u != t && Leads(s.calls[u], gone) { AtMostOneLeader(s, t, u, gone); }
    }
  }

  /** A channel is closed once, by the call that opened it, after its map entry is gone. */
  lemma CloseKeeps(s: State, t: nat)
    requires Inv(s) && t < |s.calls| && s.calls[t].Closing?
    ensures Inv(Next(s, CloseChannel(t)))
    ensures var ch := s.calls[t].ch;
            ch !in s.closed && s.channels[ch].opener == t && forall key :: key in s.locks ==> s.locks[key] != ch
  {
    var s' := Next(s, CloseChannel(t));
    var mine := s.calls[t].ch;
    assert Consistent(s, t, s.calls[t]) && ChannelOk(s, mine) && Holds(s.calls[t], mine);
    forall k | k in s.locks ensures LockOk(s', k) && s.locks[k] != mine { assert LockOk(s, k); }
    forall ch | 0 <= ch < |s'.channels| ensures ChannelOk(s', ch) { assert ChannelOk(s, ch); }
    forall u | 0 <= u < |s'.calls| ensures Consistent(s', u, s'.calls[u]) && LeaderOk(s', s'.calls[u]) {
      assert Consistent(s, u, s.calls[u]) && LeaderOk(s, s.calls[u]);
    }
  }

  lemma SameCalls(s: State, s': State)
    requires Inv(s) && s'.calls == s.calls && s'.locks == s.locks && s'.closed == s.closed
    requires s'.channels == s.channels && KeptIsCached(s')
    ensures Inv(s')
  {
    forall k | k in s'.locks ensures LockOk(s', k) { assert LockOk(s, k); }
    forall ch | 0 <= ch < |s'.channels| ensures ChannelOk(s', ch) { assert ChannelOk(s, ch); }
    forall u | 0 <= u < |s'.calls| ensures Consistent(s', u, s'.calls[u]) && LeaderOk(s', s'.calls[u]) {
      assert Consistent(s, u, s.calls[u]) && LeaderOk(s, s.calls[u]);
    }
  }

  lemma WaitingKeeps(s: State, t: nat)
    requires Inv(s)
    ensures Inv(Next(s, Wake(t))) && Inv(Next(s, Cancel(t)))
  {
    if t < |s.calls| && s.calls[t].Waiting? {
      var c := s.calls[t];
      assert Consistent(s, t, c);
      MoveKeeps(s, With(s, t, Loading(c.key, c.ch, Follower)), t, Loading(c.key, c.ch, Follower));
      MoveKeeps(s, With(s, t, Done(Cancelled)), t, Done(Cancelled));
    }
  }

  lemma FinishKeeps(s: State, t: nat, answer: Answer)
    requires Inv(s) && t < |s.calls| && (s.calls[t].Loading? || s.calls[t].Exchanging?)
    ensures Inv(With(s, t, Finish(s.calls[t], answer)))
  {
    assert Consistent(s, t, s.calls[t]);
    MoveKeeps(s, With(s, t, Finish(s.calls[t], answer)), t, Finish(s.calls[t], answer));
  }

  lemma LoadKeeps(s: State, t: nat, staleAllowed: bool, window: nat)
    requires Inv(s) && t < |s.calls| && s.calls[t].Loading?
    ensures Inv(LoadStep(s, t, staleAllowed, window))
  {
    var c := s.calls[t];
    assert Consistent(s, t, c);
    if c.key in s.cache {
      FinishKeeps(s, t, FromCache(s.cache[c.key].response));
      var served := With(s, t, Finish(c, FromCache(s.cache[c.key].response)));
      SameCalls(served, served.(refreshing := s.refreshing + {c.key}));
    }
    MoveKeeps(s, With(s, t, Exchanging(c.key, c.ch, c.role)), t, Exchanging(c.key, c.ch, c.role));
    MoveKeeps(s, With(s, t, Removing(c.key, c.ch, c.role)), t, Removing(c.key, c.ch, c.role));
  }

  lemma RemoveKeeps(s: State, t: nat)
    requires Inv(s) && t < |s.calls| && s.calls[t].Removing?
    ensures Inv(Next(s, Remove(t)))
  {
    var c := s.calls[t];
    assert Consistent(s, t, c);
    MoveKeeps(s, Next(s, Remove(t)), t, Exchanging(c.key, c.ch, c.role));
  }

  lemma ReplyKeeps(s: State, t: nat, reply: Option<Entry>, store: bool)
    requires Inv(s) && t < |s.calls| && s.calls[t].Exchanging?
    ensures Inv(ReplyStep(s, t, reply, store))
  {
    var c := s.calls[t];
    assert Consistent(s, t, c);
    if reply.Some? && store && Lives(s, reply.value) {
      FinishKeeps(s, t, FromTransport);
      SameCalls(With(s, t, Finish(c, FromTransport)), ReplyStep(s, t, reply, store));
    } else {
      FinishKeeps(s, t, if reply.None? then Failed else FromTransport);
    }
  }

  lemma StepKeeps(s: State, step: Step)
    requires Inv(s)
    ensures Inv(Next(s, step))
  {
    var s' := Next(s, step);
    match step
    case Begin(key) => BeginKeeps(s, key);
    case Delete(t) => if t < |s.calls| && s.calls[t].Unlocking? { DeleteKeeps(s, t); }
    case CloseChannel(t) => if t < |s.calls| && s.calls[t].Closing? { CloseKeeps(s, t); }
    case Tick(_) => SameCalls(s, s');
    case Evict(_) => SameCalls(s, s');
    case Clear => SameCalls(s, s');
    case Peek(_, _) => SameCalls(s, s');
    case RefreshEnds(_, _) => SameCalls(s, s');
    case Wake(t) => WaitingKeeps(s, t);
    case Cancel(t) => WaitingKeeps(s, t);
    case Load(t, staleAllowed, window) =>
      if t < |s.calls| && s.calls[t].Loading? { LoadKeeps(s, t, staleAllowed, window); }
    case Remove(t) => if t < |s.calls| && s.calls[t].Removing? { RemoveKeeps(s, t); }
    case Reply(t, reply, store) => if t < |s.calls| && s.calls[t].Exchanging? { ReplyKeeps(s, t, reply, store); }
  }

  lemma {:induction false} RunKeeps(s: State, steps: seq<Step>)
    requires Inv(s)
    ensures Inv(Run(s, steps))
    decreases steps
  {
    if steps != [] {
      StepKeeps(s, steps[0]);
      RunKeeps(Next(s, steps[0]), steps[1..]);
    }
  }

  // ---------------------------------------------------------------- nobody is left waiting

  /** Some call opened `ch` and is on its way to closing it, without waiting for anybody. */
  predicate InFlight(s: State, ch: Channel) {
    exists t :: 0 <= t < |s.calls| && Holds(s.calls[t], ch) && !s.calls[t].Waiting? && !s.calls[t].Done?
  }

  /** A waiting call can go on, or the call it waits for is past waiting itself. */
  lemma NoFollowerStranded(s: State, t: nat) returns (holder: nat)
    requires Inv(s) && t < |s.calls| && s.calls[t].Waiting?
    ensures s.calls[t].ch in s.closed ||
            (holder < |s.calls| && Holds(s.calls[holder], s.calls[t].ch) && !s.calls[holder].Waiting?
              && !s.calls[holder].Done?)
  {
    assert Consistent(s, t, s.calls[t]);
    assert ChannelOk(s, s.calls[t].ch);
    holder := s.channels[s.calls[t].ch].opener;
  }

  /** Once all calls have returned, no key is locked and no channel is open. */
  lemma QuiescentIsUnlocked(s: State)
    requires Inv(s) && forall t :: 0 <= t < |s.calls| ==> s.calls[t].Done?
    ensures s.locks == map[] && forall ch :: 0 <= ch < |s.channels| ==> ch in s.closed
  {
    assert forall key :: key !in s.locks;
    forall ch | 0 <= ch < |s.channels| ensures ch in s.closed { assert ChannelOk(s, ch); }
  }

  /** How far a call is from returning. */
  function Rank(c: Call): nat {
    match c
    case Waiting(_, _) => 6
    case Loading(_, _, _) => 5
    case Removing(_, _, _) => 4
    case Exchanging(_, _, _) => 3
    case Unlocking(_, _, _) => 2
    case Closing(_, _) => 1
    case Done(_) => 0
  }

  function TotalRank(calls: seq<Call>): nat {
    if calls == [] then 0 else Rank(calls[0]) + TotalRank(calls[1..])
  }

  lemma {:induction false} TotalRankUpdate(calls: seq<Call>, t: nat, c: Call)
    requires t < |calls|
    ensures TotalRank(calls[t := c]) == TotalRank(calls) - Rank(calls[t]) + Rank(c)
  {
    if t > 0 {
      assert calls[t := c][1..] == calls[1..][t - 1 := c];
      TotalRankUpdate(calls[1..], t - 1, c);
    } else {
      assert calls[t := c][1..] == calls[1..];
    }
  }

  lemma {:induction false} RankZeroIsDone(calls: seq<Call>)
    requires TotalRank(calls) == 0
    ensures forall t :: 0 <= t < |calls| ==> calls[t].Done?
  {
    if calls != [] {
      RankZeroIsDone(calls[1..]);
      assert forall t :: 1 <= t < |calls| ==> calls[t] == calls[1..][t - 1];
    }
  }

  lemma {:induction false} RankPositiveHasCall(calls: seq<Call>) returns (t: nat)
    requires TotalRank(calls) > 0
    ensures t < |calls| && !calls[t].Done?
  {
    if Rank(calls[0]) > 0 { return 0; }
    t := RankPositiveHasCall(calls[1..]);
    t := t + 1;
  }

  /** The next step of a call that does not have to wait; a transport that never answers does not exist. */
  function OwnStep(s: State, t: nat): Step
    requires t < |s.calls|
  {
    match s.calls[t]
    case Waiting(_, _) => Wake(t)
    case Loading(_, _, _) => Load(t, true, 0)
    case Removing(_, _, _) => Remove(t)
    case Exchanging(_, _, _) => Reply(t, None, false)
    case Unlocking(_, _, _) => Delete(t)
    case Closing(_, _) => CloseChannel(t)
    case Done(_) => Wake(t)
  }

  lemma OwnStepAdvances(s: State, t: nat)
    requires t < |s.calls| && !s.calls[t].Done? && (s.calls[t].Waiting? ==> s.calls[t].ch in s.closed)
    ensures TotalRank(Next(s, OwnStep(s, t)).calls) < TotalRank(s.calls)
  {
    var s' := Next(s, OwnStep(s, t));
    assert s'.calls == s.calls[t := s'.calls[t]];
    TotalRankUpdate(s.calls, t, s'.calls[t]);
  }

  /** From every reachable state, stepping the calls already there finishes them all. */
  lemma {:induction false} AllCallsCanReturn(s: State) returns (steps: seq<Step>)
    requires Inv(s)
    ensures forall t :: 0 <= t < |Run(s, steps).calls| ==> Run(s, steps).calls[t].Done?
    ensures forall step :: step in steps ==> !step.Begin? && !step.Cancel?
    ensures Run(s, steps).locks == map[]
    decreases TotalRank(s.calls)
  {
    if TotalRank(s.calls) == 0 {
      RankZeroIsDone(s.calls);
      QuiescentIsUnlocked(s);
      return [];
    }
    var t := RankPositiveHasCall(s.calls);
    if s.calls[t].Waiting? && s.calls[t].ch !in s.closed { t := NoFollowerStranded(s, t); }
    var step := OwnStep(s, t);
    OwnStepAdvances(s, t);
    StepKeeps(s, step);
    var rest := AllCallsCanReturn(Next(s, step));
    steps := [step] + rest;
    assert steps[1..] == rest;
  }

  /** A step other than a new call either moves a call closer to returning or moves none. */
  lemma StepLowersRank(s: State, step: Step)
    requires !step.Begin?
    ensures var calls := Next(s, step).calls;
            calls == s.calls || TotalRank(calls) < TotalRank(s.calls)
  {
    var calls := Next(s, step).calls;
    if calls != s.calls {
      var t := MovedCall(s, step);
      TotalRankUpdate(s.calls, t, calls[t]);
    }
  }

  /** A step that moves a call moves one, closer to returning. */
  lemma MovedCall(s: State, step: Step) returns (t: nat)
    requires !step.Begin? && Next(s, step).calls != s.calls
    ensures var calls := Next(s, step).calls;
            && t < |s.calls| && |calls| == |s.calls| && calls == s.calls[t := calls[t]]
            && Rank(calls[t]) < Rank(s.calls[t])
  {
    t := step.t;
    var calls := Next(s, step).calls;
    assert t < |s.calls| && calls == s.calls[t := calls[t]];
  }

  /** How many of the steps move a call. */
  function CallSteps(s: State, steps: seq<Step>): nat
    decreases steps
  {
    if steps == [] then 0
    else (if Next(s, steps[0]).calls != s.calls then 1 else 0) + CallSteps(Next(s, steps[0]), steps[1..])
  }

  /** Whatever the schedule, the calls present take at most six steps each before they have all returned. */
  lemma {:induction false} CallStepsAreBounded(s: State, steps: seq<Step>)
    requires forall step :: step in steps ==> !step.Begin?
    ensures CallSteps(s, steps) + TotalRank(Run(s, steps).calls) <= TotalRank(s.calls) <= 6 * |s.calls|
    decreases steps
  {
    RankIsSmall(s.calls);
    if steps != [] {
      StepLowersRank(s, steps[0]);
      CallStepsAreBounded(Next(s, steps[0]), steps[1..]);
    }
  }

  lemma {:induction false} RankIsSmall(calls: seq<Call>)
    ensures TotalRank(calls) <= 6 * |calls|
  {
    if calls != [] { RankIsSmall(calls[1..]); }
  }

  // ---------------------------------------------------------------- what a call finds in the cache

  /** The call has its answer, whether or not it still has to unlock. */
  predicate Answered(c: Call, answer: Answer) {
    (c.Unlocking? || c.Done?) && c.answer == answer
  }

  /** A call that looks into the cache, in either role: an entry that has not expired answers it; one in
      the window answers it and is refreshed if the caller takes stale answers; an older one is
      removed first; without one the transport is asked. Nothing else changes. */
  lemma LoadFinds(s: State, t: nat, staleAllowed: bool, window: nat)
    requires t < |s.calls| && s.calls[t].Loading?
    ensures var c, s' := s.calls[t], Next(s, Load(t, staleAllowed, window));
            var asks := s'.calls[t] == Exchanging(c.key, c.ch, c.role);
            && s'.calls == s.calls[t := s'.calls[t]] && s' == s.(calls := s'.calls, refreshing := s'.refreshing)
            && (s'.calls[t].Unlocking? ==> c.role == Leader && s'.calls[t].key == c.key && s'.calls[t].ch == c.ch)
            && (s'.calls[t].Done? ==> c.role == Follower)
            && (c.key !in s.cache ==> asks && s'.refreshing == s.refreshing)
            && (c.key in s.cache ==>
                  var e := s.cache[c.key];
                  && (s.now <= e.expireAt ==>
                        Answered(s'.calls[t], FromCache(e.response)) && s'.refreshing == s.refreshing)
                  && (e.expireAt < s.now < e.expireAt + window && staleAllowed ==>
                        Answered(s'.calls[t], FromCache(e.response)) && s'.refreshing == s.refreshing + {c.key})
                  && (e.expireAt < s.now < e.expireAt + window && !staleAllowed ==>
                        asks && s'.refreshing == s.refreshing)
                  && (e.expireAt < s.now && e.expireAt + window <= s.now ==>
                        s'.calls[t] == Removing(c.key, c.ch, c.role) && s'.refreshing == s.refreshing))
  {
  }

  /** The cache has something for the call: unexpired, or stale and the caller takes that. */
  predicate Usable(s: State, key: Key, staleAllowed: bool, window: nat) {
    key in s.cache && (s.now <= s.cache[key].expireAt || (staleAllowed && s.now < s.cache[key].expireAt + window))
  }

  /** The transport is only ever asked after the cache had nothing usable: by a Load that found
      nothing, or by the removal after a Load that found something too old. */
  lemma AskedOnlyOnMiss(s: State, step: Step, t: nat)
    requires t < |s.calls| && Next(s, step).calls[t] != s.calls[t]
    ensures Next(s, step).calls[t].Exchanging? ==>
              || step == Remove(t)
              || (step.Load? && step.t == t && s.calls[t].Loading?
                  && !Usable(s, s.calls[t].key, step.staleAllowed, step.window))
    ensures Next(s, step).calls[t].Removing? ==>
              && step.Load? && step.t == t && s.calls[t].Loading?
              && !Usable(s, s.calls[t].key, true, step.window) && s.calls[t].key in s.cache
    ensures step == Remove(t) ==> s.calls[t].Removing?
    ensures Next(s, step).calls[t].Done? && Next(s, step).calls[t].answer == Cancelled ==>
              (step == Cancel(t) && s.calls[t].Waiting?) || s.calls[t].Closing?
  {
  }

  /** A new call waits for the channel of its key, or opens one and leads; nothing else changes. */
  lemma BeginLeadsOrWaits(s: State, key: Key)
    ensures var s' := Next(s, Begin(key));
            && |s'.calls| == |s.calls| + 1 && s'.calls[..|s.calls|] == s.calls
            && s'.cache == s.cache && s'.closed == s.closed && s'.refreshing == s.refreshing
            && var c := s'.calls[|s.calls|];
            && (key in s.locks ==> c == Waiting(key, s.locks[key]) && s'.locks == s.locks)
            && (key !in s.locks ==> c.Loading? && Leads(c, key) && s'.locks == s.locks[key := c.ch])
  {
  }

  /** A call is answered by one of three steps of its own: from the cache by a Load that found a usable
      entry, by the transport's reply or error, or by its cancellation while it waits. The answer
      then stays with it until it returns. */
  lemma AnsweredBy(s: State, step: Step, t: nat, answer: Answer)
    requires t < |s.calls|
    requires var c := Next(s, step).calls[t]; (c.Unlocking? || c.Closing? || c.Done?) && c.answer == answer
    ensures s.calls[t].Unlocking? || s.calls[t].Closing? || s.calls[t].Done? ==> s.calls[t].answer == answer
    ensures !s.calls[t].Unlocking? && !s.calls[t].Closing? && !s.calls[t].Done? ==>
              match answer
              case FromCache(response) =>
                && step.Load? && step.t == t && s.calls[t].Loading?
                && Usable(s, s.calls[t].key, step.staleAllowed, step.window)
                && response == s.cache[s.calls[t].key].response
              case FromTransport => step.Reply? && step.t == t && step.reply.Some? && s.calls[t].Exchanging?
              case Failed => step.Reply? && step.t == t && step.reply.None? && s.calls[t].Exchanging?
              case Cancelled => step == Cancel(t) && s.calls[t].Waiting?
  {
  }

  /** What every step does to every key of the cache: nothing, unless it stores for the key or takes it out. */
  lemma CacheMoves(s: State, step: Step, key: Key)
    ensures var cache := Next(s, step).cache;
            && (Stores(s, step, key) ==> key in cache && cache[key] == step.reply.value)
            && (TakesOut(s, step, key) ==> key !in cache)
            && (!Stores(s, step, key) && !TakesOut(s, step, key) ==>
                  (key in cache <==> key in s.cache) && (key in cache ==> cache[key] == s.cache[key]))
  {
  }

  /** A background refresh begins exactly when a stale entry is served or seen, and lasts until it ends. */
  lemma RefreshMoves(s: State, step: Step, key: Key)
    ensures var stale := (window: nat) =>
                key in s.cache && s.cache[key].expireAt < s.now < s.cache[key].expireAt + window;
            key in Next(s, step).refreshing <==>
              || (key in s.refreshing && !(step.RefreshEnds? && step.key == key))
              || (step.Peek? && step.key == key && stale(step.window))
              || (step.Load? && step.t < |s.calls| && s.calls[step.t].Loading? && s.calls[step.t].key == key
                  && step.staleAllowed && stale(step.window))
  {
  }

  /** A response stored for `key` during the run. */
  ghost function EverStored(s: State, steps: seq<Step>, key: Key): set<Entry>
    decreases steps
  {
    if steps == [] then {}
    else
      (if Stores(s, steps[0], key) then {steps[0].reply.value} else {}) + EverStored(Next(s, steps[0]), steps[1..], key)
  }

  /** Whatever the cache holds for `key` was stored for `key`, by a call's reply or a refresh. */
  lemma {:induction false} CachedWasStored(s: State, steps: seq<Step>, key: Key)
    ensures key in Run(s, steps).cache ==>
              (key in s.cache && Run(s, steps).cache[key] == s.cache[key])
              || Run(s, steps).cache[key] in EverStored(s, steps, key)
    decreases steps
  {
    if steps != [] {
      var s' := Next(s, steps[0]);
      assert key in s'.cache ==> (key in s.cache && s'.cache[key] == s.cache[key])
                                 || (Stores(s, steps[0], key) && s'.cache[key] == steps[0].reply.value);
      CachedWasStored(s', steps[1..], key);
    }
  }

  /** A call that is answered from the cache gets a response that was stored for its own key. */
  lemma AnswerWasStored(steps: seq<Step>, t: nat, staleAllowed: bool, window: nat)
    requires var s := Run(Initial, steps);
             && t < |s.calls| && s.calls[t].Loading?
             && var c := Next(s, Load(t, staleAllowed, window)).calls[t]; c.Done? || c.Unlocking?
    ensures var s := Run(Initial, steps);
            exists e :: e in EverStored(Initial, steps, s.calls[t].key)
                        && Answered(Next(s, Load(t, staleAllowed, window)).calls[t], FromCache(e.response))
  {
    var s := Run(Initial, steps);
    CachedWasStored(Initial, steps, s.calls[t].key);
    LoadFinds(s, t, staleAllowed, window);
  }

  // ---------------------------------------------------------------- followers get the leader's response

  /** The step takes `key` out of the cache. */
  predicate TakesOut(s: State, step: Step, key: Key) {
    || step.Clear?
    || step == Evict(key)
    || (step.Remove? && step.t < |s.calls| && s.calls[step.t].Removing? && s.calls[step.t].key == key)
  }

  ghost predicate NeverTakenOut(s: State, steps: seq<Step>, key: Key)
    decreases steps
  {
    steps == [] || (!TakesOut(s, steps[0], key) && NeverTakenOut(Next(s, steps[0]), steps[1..], key))
  }

  lemma KeptStep(s: State, step: Step, ch: Channel)
    requires Inv(s) && ch in s.kept && !TakesOut(s, step, s.channels[ch].key)
    ensures ch in Next(s, step).kept && ch < |Next(s, step).channels| && Next(s, step).channels[ch] == s.channels[ch]
  {
  }

  lemma {:induction false} KeptRun(s: State, steps: seq<Step>, ch: Channel)
    requires Inv(s) && ch in s.kept && NeverTakenOut(s, steps, s.channels[ch].key)
    ensures var s' := Run(s, steps);
            Inv(s') && ch in s'.kept && ch < |s'.channels| && s'.channels[ch] == s.channels[ch]
              && s.channels[ch].key in s'.cache
    decreases steps
  {
    if steps != [] {
      StepKeeps(s, steps[0]);
      KeptStep(s, steps[0], ch);
      KeptRun(Next(s, steps[0]), steps[1..], ch);
    }
  }

  lemma {:induction false} EntryStays(s: State, steps: seq<Step>, key: Key)
    requires key in s.cache && NeverTakenOut(s, steps, key) && NothingStored(s, steps, key)
    ensures key in Run(s, steps).cache && Run(s, steps).cache[key] == s.cache[key]
    decreases steps
  {
    if steps != [] {
      assert key in Next(s, steps[0]).cache && Next(s, steps[0]).cache[key] == s.cache[key];
      EntryStays(Next(s, steps[0]), steps[1..], key);
    }
  }

  /** A follower that looks into the cache after its leader stored a response gets a cached answer,
      unless the key was taken out meanwhile or what is cached has expired. The answer is the
      leader's own response unless another one was stored over it. */
  lemma FollowerGetsCached(s: State, leader: nat, reply: Entry, steps: seq<Step>, follower: nat, staleAllowed: bool,
                           window: nat)
    requires Inv(s) && leader < |s.calls| && s.calls[leader].Exchanging? && s.calls[leader].role == Leader
            && Lives(s, reply)
    requires var ch, key := s.calls[leader].ch, s.calls[leader].key;
             var s1 := Next(s, Reply(leader, Some(reply), true));
             var s2 := Run(s1, steps);
             && NeverTakenOut(s1, steps, key)
             && follower < |s2.calls| && s2.calls[follower] == Loading(key, ch, Follower)
             && (key in s2.cache ==> s2.now <= s2.cache[key].expireAt)
    ensures var s2 := Run(Next(s, Reply(leader, Some(reply), true)), steps);
            var key := s.calls[leader].key;
            var s3 := Next(s2, Load(follower, staleAllowed, window));
            key in s2.cache && s3.calls[follower] == Done(FromCache(s2.cache[key].response))
    ensures var s1 := Next(s, Reply(leader, Some(reply), true));
            var key := s.calls[leader].key;
            NothingStored(s1, steps, key) ==> key in Run(s1, steps).cache && Run(s1, steps).cache[key] == reply
  {
    var s1 := Next(s, Reply(leader, Some(reply), true));
    if NothingStored(s1, steps, s.calls[leader].key) { EntryStays(s1, steps, s.calls[leader].key); }
    assert Consistent(s, leader, s.calls[leader]);
    StepKeeps(s, Reply(leader, Some(reply), true));
    KeptRun(s1, steps, s.calls[leader].ch);
  }

  // ---------------------------------------------------------------- removing an expired entry is not atomic

  /** The step puts a response for `key` into the cache. */
  predicate Stores(s: State, step: Step, key: Key) {
    || (step.RefreshEnds? && step.key == key && key in s.refreshing
        && step.reply.Some? && s.now < step.reply.value.expireAt)
    || (step.Reply? && step.store && step.reply.Some? && s.now < step.reply.value.expireAt
        && step.t < |s.calls| && s.calls[step.t].Exchanging? && s.calls[step.t].key == key)
  }

  ghost predicate NothingStored(s: State, steps: seq<Step>, key: Key)
    decreases steps
  {
    steps == [] || (!Stores(s, steps[0], key) && NothingStored(Next(s, steps[0]), steps[1..], key))
  }

  /** What `key` has in the cache, if anything, has expired. */
  predicate Expired(s: State, key: Key) { key in s.cache ==> s.cache[key].expireAt < s.now }

  /** The last response stored for `key` in these steps and not taken out since; `kept` is the one
      before them. */
  ghost function StoredSince(s: State, steps: seq<Step>, key: Key, kept: Option<Entry>): Option<Entry>
    decreases steps
  {
    if steps == [] then kept
    else
      var next := if TakesOut(s, steps[0], key) then None
                  else if Stores(s, steps[0], key) then Some(steps[0].reply.value) else kept;
      StoredSince(Next(s, steps[0]), steps[1..], key, next)
  }

  /** `kept` is what the cache has for `key`, unless it has nothing or something expired. */
  ghost predicate Accounts(s: State, key: Key, kept: Option<Entry>) {
    if kept.Some? then key in s.cache && s.cache[key] == kept.value else Expired(s, key)
  }

  lemma {:induction false} StoredSinceAccounts(s: State, steps: seq<Step>, key: Key, kept: Option<Entry>)
    requires Accounts(s, key, kept)
    ensures Accounts(Run(s, steps), key, StoredSince(s, steps, key, kept))
    decreases steps
  {
    if steps != [] {
      var next := if TakesOut(s, steps[0], key) then None
                  else if Stores(s, steps[0], key) then Some(steps[0].reply.value) else kept;
      AccountsStep(s, steps[0], key, kept);
      StoredSinceAccounts(Next(s, steps[0]), steps[1..], key, next);
    }
  }

  lemma AccountsStep(s: State, step: Step, key: Key, kept: Option<Entry>)
    requires Accounts(s, key, kept)
    ensures Accounts(Next(s, step), key, if TakesOut(s, step, key) then None
                                         else if Stores(s, step, key) then Some(step.reply.value) else kept)
  {
  }

  /** Some steps after a call found an entry too old and set out to remove it, the removal hits a
      response that is still good exactly when one was stored in between, was not taken out again
      and has not expired yet. */
  lemma RemovalHitsGoodIff(s: State, t: nat, staleAllowed: bool, window: nat, steps: seq<Step>)
    requires t < |s.calls| && s.calls[t].Loading? && Next(s, Load(t, staleAllowed, window)).calls[t].Removing?
    ensures var key, s1 := s.calls[t].key, Next(s, Load(t, staleAllowed, window));
            var s2, stored := Run(s1, steps), StoredSince(s1, steps, key, None);
            !Expired(s2, key) <==> stored.Some? && s2.now <= stored.value.expireAt
  {
    StoredSinceAccounts(Next(s, Load(t, staleAllowed, window)), steps, s.calls[t].key, None);
  }

  /** While one call sets out to remove, another that is exchanging stores a good response: it is lost. */
  lemma RemovalLosesReply(s: State, t: nat, u: nat, renewed: Entry)
    requires t < |s.calls| && s.calls[t].Removing? && u < |s.calls| && s.calls[u].Exchanging?
    requires s.calls[u].key == s.calls[t].key && Lives(s, renewed)
    ensures var key, s' := s.calls[t].key, Next(s, Reply(u, Some(renewed), true));
            && key in s'.cache && s'.cache[key] == renewed && !Expired(s', key)
            && s'.calls[t] == s.calls[t] && key !in Next(s', Remove(t)).cache
  {
  }

  lemma {:induction false} RunAppend(s: State, xs: seq<Step>, ys: seq<Step>)
    ensures Run(s, xs + ys) == Run(Run(s, xs), ys)
    decreases xs
  {
    if xs == [] { assert xs + ys == ys; }
    else {
      assert (xs + ys)[1..] == xs[1..] + ys;
      RunAppend(Next(s, xs[0]), xs[1..], ys);
    }
  }

  lemma Run3(s: State, a: Step, b: Step, c: Step)
    ensures Run(s, [a, b, c]) == Next(Next(Next(s, a), b), c)
  {
    assert [a, b, c][1..] == [b, c] && [b, c][1..] == [c];
    assert Run(Next(Next(s, a), b), [c]) == Next(Next(Next(s, a), b), c);
  }

  const FIRST := [Begin("q"), Begin("q"), Load(0, false, 0)]
  const STORED := [Reply(0, Some(Entry(1, 5)), true), Delete(0), CloseChannel(0)]
  const AGED := [Wake(1), Tick(10), Begin("q")]
  const BOTH_READ := [Load(1, false, 0), Load(2, false, 0), Remove(1)]

  lemma RacyFirst() returns (s: State)
    ensures s == Run(Initial, FIRST)
    ensures s == State(map["q" := 0], {}, [Opened("q", 0)], [Exchanging("q", 0, Leader), Waiting("q", 0)],
                       map[], {}, 0, {})
  {
    s := Run(Initial, FIRST);
    Run3(Initial, FIRST[0], FIRST[1], FIRST[2]);
  }

  lemma RacyStored(s: State) returns (s': State)
    requires s == State(map["q" := 0], {}, [Opened("q", 0)], [Exchanging("q", 0, Leader), Waiting("q", 0)],
                        map[], {}, 0, {})
    ensures s' == Run(s, STORED)
    ensures s' == State(map[], {0}, [Opened("q", 0)], [Done(FromTransport), Waiting("q", 0)],
                        map["q" := Entry(1, 5)], {}, 0, {0})
  {
    s' := Run(s, STORED);
    Run3(s, STORED[0], STORED[1], STORED[2]);
  }

  lemma RacyAged(s: State) returns (s': State)
    requires s == State(map[], {0}, [Opened("q", 0)], [Done(FromTransport), Waiting("q", 0)],
                        map["q" := Entry(1, 5)], {}, 0, {0})
    ensures s' == Run(s, AGED)
    ensures s' == State(map["q" := 1], {0}, [Opened("q", 0), Opened("q", 2)],
                        [Done(FromTransport), Loading("q", 0, Follower), Loading("q", 1, Leader)],
                        map["q" := Entry(1, 5)], {}, 10, {0})
  {
    s' := Run(s, AGED);
    Run3(s, AGED[0], AGED[1], AGED[2]);
  }

  lemma RacyBothRead(s: State) returns (s': State)
    requires s == State(map["q" := 1], {0}, [Opened("q", 0), Opened("q", 2)],
                        [Done(FromTransport), Loading("q", 0, Follower), Loading("q", 1, Leader)],
                        map["q" := Entry(1, 5)], {}, 10, {0})
    ensures s' == Run(s, BOTH_READ)
    ensures s'.now == 10 && s'.calls == [Done(FromTransport), Exchanging("q", 0, Follower), Removing("q", 1, Leader)]
  {
    s' := Run(s, BOTH_READ);
    Run3(s, BOTH_READ[0], BOTH_READ[1], BOTH_READ[2]);
  }

  /** A woken follower and a new leader both find the expired entry. The follower removes it and asks
      again; its fresh answer is what the leader then removes. */
  lemma RacyRemovalIsReachable() returns (s: State)
    ensures s == Run(Initial, FIRST + STORED + AGED + BOTH_READ)
    ensures var s' := Next(s, Reply(1, Some(Entry(2, 100)), true));
            && "q" in s'.cache && !Expired(s', "q") && |s'.calls| == 3 && s'.calls[2].Removing?
            && "q" !in Next(s', Remove(2)).cache
  {
    s := RacyFirst();
    s := RacyStored(s);
    RunAppend(Initial, FIRST, STORED);
    s := RacyAged(s);
    RunAppend(Initial, FIRST + STORED, AGED);
    s := RacyBothRead(s);
    RunAppend(Initial, FIRST + STORED + AGED, BOTH_READ);
    RemovalLosesReply(s, 2, 1, Entry(2, 100));
  }

  // ---------------------------------------------------------------- every run

  /** Whatever the interleaving: a key never has two leaders, no channel is closed twice, and whoever
      waits does so for a call that is under way or has just closed its channel. */
  lemma SingleFlightRuns(steps: seq<Step>)
    ensures var s := Run(Initial, steps);
            && (forall t, u, key ::
                  0 <= t < |s.calls| && 0 <= u < |s.calls| && Leads(s.calls[t], key) && Leads(s.calls[u], key) ==>
                    t == u)
            && (forall t :: 0 <= t < |s.calls| && s.calls[t].Closing? ==> s.calls[t].ch !in s.closed)
            && (forall t :: 0 <= t < |s.calls| && s.calls[t].Waiting? ==>
                  s.calls[t].ch in s.closed || InFlight(s, s.calls[t].ch))
  {
    RunKeeps(Initial, steps);
    var s := Run(Initial, steps);
    forall t, u, key | 0 <= t < |s.calls| && 0 <= u < |s.calls| && Leads(s.calls[t], key) && Leads(s.calls[u], key)
      ensures t == u
    {
      AtMostOneLeader(s, t, u, key);
    }
    forall t | 0 <= t < |s.calls| && s.calls[t].Closing? ensures s.calls[t].ch !in s.closed { CloseKeeps(s, t); }
    forall t | 0 <= t < |s.calls| && s.calls[t].Waiting?
      ensures s.calls[t].ch in s.closed || InFlight(s, s.calls[t].ch)
    {
      var holder := NoFollowerStranded(s, t);
    }
  }
}
