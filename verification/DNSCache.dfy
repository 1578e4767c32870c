/** The DNS client's in-memory cache: time-to-live arithmetic, copying on store and load, stale
    answers, background refresh, eviction and clearing. */
module DNSCache {
  import opened Prelude
  import opened DNSRules

  type Uint32 = x: int | 0 <= x < 0x1_0000_0000

  /** Nanoseconds in a second; all times are in nanoseconds. */
  const SECOND: int := 1_000_000_000
  const MAX_DURATION: int := 0x7FFF_FFFF_FFFF_FFFF

  const RCODE_SUCCESS: int := 0
  const RCODE_NAME_ERROR: int := 3

  datatype Section = Answer | Ns | Extra

  datatype Data =
    | Opt(text: string)
    | Soa(minimum: Uint32, text: string)
    | Https(v4Hint: bool, v6Hint: bool, text: string)
    | Plain(text: string)

  datatype RecordValue = RecordValue(section: Section, data: Data, ttl: Uint32)

  /** What a message says, its identifier apart: the records of the three sections in order. */
  datatype Content = Content(rcode: int, records: seq<RecordValue>)

  // ---------------------------------------------------------------- time to live

  predicate HasAnswer(rs: seq<RecordValue>) {
    exists i :: 0 <= i < |rs| && rs[i].section == Answer
  }

  /** The lesser of an SOA record's own TTL and its MINIMUM field, for the first SOA of the authority section. */
  function NegativeTTL(rs: seq<RecordValue>): Option<Uint32> {
    if rs == [] then None
    else if rs[0].section == Ns && rs[0].data.Soa? then
      Some(if rs[0].ttl < rs[0].data.minimum then rs[0].ttl else rs[0].data.minimum)
    else NegativeTTL(rs[1..])
  }

  /** An SOA record of the authority section. */
  predicate AuthoritySoa(r: RecordValue) { r.section == Ns && r.data.Soa? }

  /** The first SOA record of the authority section gives the lesser of its two fields; without one
      there is none. */
  lemma {:induction false} NegativeTTLIsOfFirstSoa(rs: seq<RecordValue>)
    ensures NegativeTTL(rs).None? <==> forall i :: 0 <= i < |rs| ==> !AuthoritySoa(rs[i])
    ensures forall i :: 0 <= i < |rs| && AuthoritySoa(rs[i]) && (forall j :: 0 <= j < i ==> !AuthoritySoa(rs[j])) ==>
              && NegativeTTL(rs).Some?
              && NegativeTTL(rs).value in {rs[i].ttl, rs[i].data.minimum}
              && NegativeTTL(rs).value <= rs[i].ttl && NegativeTTL(rs).value <= rs[i].data.minimum
  {
    if rs != [] {
      NegativeTTLIsOfFirstSoa(rs[1..]);
      assert forall i :: 1 <= i < |rs| ==> rs[i] == rs[1..][i - 1];
      assert AuthoritySoa(rs[0]) || NegativeTTL(rs) == NegativeTTL(rs[1..]);
    }
  }

  /** The TTLs of all records that have one: everything but OPT. */
  ghost function TTLs(rs: seq<RecordValue>): set<Uint32> {
    set r | r in rs && !r.data.Opt? :: r.ttl
  }

  ghost predicate LeastPositive(ttls: set<Uint32>, t: Uint32) {
    if t == 0 then forall x :: x in ttls ==> x == 0
    else t in ttls && forall x :: x in ttls && x > 0 ==> t <= x
  }

  /** The time a response may be kept. */
  ghost predicate IsTimeToLive(rs: seq<RecordValue>, t: Uint32) {
    if !HasAnswer(rs) && NegativeTTL(rs).Some? then t == NegativeTTL(rs).value
    else LeastPositive(TTLs(rs), t)
  }

  function NormalizedRecord(r: RecordValue, ttl: Uint32): RecordValue {
    if r.data.Opt? then r else r.(ttl := ttl)
  }

  /** Every record but OPT with the TTL replaced. */
  function Normalized(rs: seq<RecordValue>, ttl: Uint32): (n: seq<RecordValue>)
    ensures |n| == |rs| && forall i :: 0 <= i < |rs| ==> n[i] == NormalizedRecord(rs[i], ttl)
  {
    seq(|rs|, i requires 0 <= i < |rs| => NormalizedRecord(rs[i], ttl))
  }

  /** The same message with another TTL on every record but OPT. */
  function WithTTL(c: Content, ttl: Uint32): Content { Content(c.rcode, Normalized(c.records, ttl)) }

  /** An HTTPS answer loses the address hints a strategy rules out. */
  function FilteredRecord(r: RecordValue, https: bool, strategy: DomainStrategy): RecordValue {
    if https && r.section == Answer && r.data.Https? then
      if strategy == IPv4Only then r.(data := r.data.(v6Hint := false))
      else if strategy == IPv6Only then r.(data := r.data.(v4Hint := false))
      else r
    else r
  }

  function Filtered(rs: seq<RecordValue>, https: bool, strategy: DomainStrategy): (n: seq<RecordValue>)
    ensures |n| == |rs| && forall i :: 0 <= i < |rs| ==> n[i] == FilteredRecord(rs[i], https, strategy)
  {
    seq(|rs|, i requires 0 <= i < |rs| => FilteredRecord(rs[i], https, strategy))
  }

  // ---------------------------------------------------------------- messages as objects

  class Record {
    const section: Section
    var data: Data
    var ttl: Uint32

    constructor (section: Section, data: Data, ttl: Uint32)
      ensures this.section == section && this.data == data && this.ttl == ttl
    {
      this.section, this.data, this.ttl := section, data, ttl;
    }

    function Value(): RecordValue
      reads this
    {
      RecordValue(section, data, ttl)
    }
  }

  function Values(rs: seq<Record>): (v: seq<RecordValue>)
    reads rs
    ensures |v| == |rs| && forall i :: 0 <= i < |rs| ==> v[i] == rs[i].Value()
  {
    seq(|rs|, i requires 0 <= i < |rs| reads rs => rs[i].Value())
  }

  class Message {
    var id: nat
    const rcode: int
    const records: seq<Record>

    constructor (id: nat, rcode: int, records: seq<Record>)
      ensures this.id == id && this.rcode == rcode && this.records == records
    {
      this.id, this.rcode, this.records := id, rcode, records;
    }

    ghost function Value(): Content
      reads records
    {
      Content(rcode, Values(records))
    }

    method Copy() returns (m: Message)
      ensures fresh(m) && fresh(m.records) && forall r :: r in m.records ==> fresh(r)
      ensures m.Value() == Value() && m.id == id
    {
      var rs: seq<Record> := [];
      for i := 0 to |records|
        invariant |rs| == i && fresh(rs)
        invariant forall k :: 0 <= k < i ==> rs[k].Value() == records[k].Value()
      {
        var r := new Record(records[i].section, records[i].data, records[i].ttl);
        rs := rs + [r];
      }
      m := new Message(id, rcode, rs);
    }
  }

  method NormalizeTTL(m: Message, ttl: Uint32)
    modifies m.records
    ensures m.Value() == WithTTL(old(m.Value()), ttl)
  {
    var rs := m.records;
    for i := 0 to |rs|
      invariant forall r :: r in rs ==> r.data == old(r.data) && (r.ttl == old(r.ttl) || (r.ttl == ttl && !r.data.Opt?))
      invariant forall k :: 0 <= k < i && !rs[k].data.Opt? ==> rs[k].ttl == ttl
    {
      if rs[i].data.Opt? { continue; }
      rs[i].ttl := ttl;
    }
  }

  method CopyWithTTL(m: Message, ttl: Uint32) returns (copy: Message)
    ensures fresh(copy) && fresh(copy.records) && copy.id == m.id
    ensures copy.Value() == WithTTL(m.Value(), ttl)
  {
    copy := m.Copy();
    NormalizeTTL(copy, ttl);
  }

  method FilterHints(m: Message, https: bool, strategy: DomainStrategy)
    modifies m.records
    ensures m.Value() == Content(m.rcode, Filtered(old(m.Value()).records, https, strategy))
  {
    var rs := m.records;
    for i := 0 to |rs|
      invariant forall r :: r in rs ==>
                  r.Value() == old(r.Value()) || r.Value() == FilteredRecord(old(r.Value()), https, strategy)
      invariant forall k :: 0 <= k < i ==> rs[k].Value() == FilteredRecord(old(rs[k].Value()), https, strategy)
    {
      rs[i].data := FilteredRecord(rs[i].Value(), https, strategy).data;
    }
  }

  method ExtractNegativeTTL(rs: seq<Record>) returns (t: Option<Uint32>)
    ensures t == NegativeTTL(Values(rs))
  {
    ghost var vs := Values(rs);
    for i := 0 to |rs|
      invariant NegativeTTL(vs) == NegativeTTL(vs[i..])
    {
      assert vs[i..][1..] == vs[i + 1..];
      if rs[i].section == Ns && rs[i].data.Soa? {
        return Some(if rs[i].ttl < rs[i].data.minimum then rs[i].ttl else rs[i].data.minimum);
      }
    }
    t := None;
  }

  /** The running minimum over all records but OPT, skipping zeros once something positive is seen. */
  method LeastTTL(rs: seq<Record>) returns (t: Uint32)
    ensures LeastPositive(TTLs(Values(rs)), t)
  {
    t := 0;
    ghost var seen: set<Uint32> := {};
    ghost var vs := Values(rs);
    for i := 0 to |rs|
      invariant seen == TTLs(vs[..i]) && LeastPositive(seen, t)
    {
      assert vs[..i + 1] == vs[..i] + [vs[i]];
      if rs[i].data.Opt? { continue; }
      seen := seen + {rs[i].ttl};
      if t == 0 || (rs[i].ttl > 0 && rs[i].ttl < t) { t := rs[i].ttl; }
    }
    assert vs[..|rs|] == vs;
  }

  method ComputeTimeToLive(m: Message) returns (t: Uint32)
    ensures IsTimeToLive(m.Value().records, t)
  {
    if forall i :: 0 <= i < |m.records| ==> m.records[i].section != Answer {
      var negative := ExtractNegativeTTL(m.records);
      if negative.Some? { return negative.value; }
    } else {
      assert HasAnswer(Values(m.records)) by {
        var i :| 0 <= i < |m.records| && m.records[i].section == Answer;
        assert Values(m.records)[i].section == Answer;
      }
    }
    t := LeastTTL(m.records);
  }

  datatype QueryType = QueryA | QueryAAAA | QueryHTTPS | QueryOther

  /** The type of the question and the options that matter to the client. */
  datatype Options = Options(queryType: QueryType, strategy: DomainStrategy, disableOptimisticCache: bool,
                             rewriteTTL: Option<Uint32>)

  /** The question asks for addresses the strategy rules out. */
  predicate StrategyRejects(o: Options) {
    (o.queryType.QueryA? && o.strategy == IPv6Only) || (o.queryType.QueryAAAA? && o.strategy == IPv4Only)
  }

  /** What is kept of a reply under `options`, with the TTL it is kept for. */
  ghost predicate Kept(received: Content, options: Options, ttl: Uint32, kept: Content) {
    var filtered := Filtered(received.records, options.queryType.QueryHTTPS?, options.strategy);
    && kept == WithTTL(Content(received.rcode, filtered), ttl)
    && if options.rewriteTTL.Some? then ttl == options.rewriteTTL.value else IsTimeToLive(filtered, ttl)
  }

  /** The data a reply's record is kept with: an HTTPS answer to an HTTPS question has lost exactly the
      address hints the strategy rules out. */
  predicate KeptData(r: RecordValue, options: Options, data: Data) {
    if options.queryType == QueryHTTPS && r.section == Answer && r.data.Https? then
      && data.Https? && data.text == r.data.text
      && data.v4Hint == (r.data.v4Hint && options.strategy != IPv6Only)
      && data.v6Hint == (r.data.v6Hint && options.strategy != IPv4Only)
    else data == r.data
  }

  /** A kept reply has the code and the records it came with, in their order and sections; every record
      but OPT has the same TTL. */
  lemma KeptRecords(received: Content, options: Options, ttl: Uint32, kept: Content)
    requires Kept(received, options, ttl, kept)
    ensures kept.rcode == received.rcode && |kept.records| == |received.records|
    ensures forall i :: 0 <= i < |kept.records| ==>
              var r, k := received.records[i], kept.records[i];
              && k.section == r.section && KeptData(r, options, k.data)
              && k.ttl == if r.data.Opt? then r.ttl else ttl
  {
  }

  /** It is kept for the rewritten TTL, or else that of the first SOA of the authority section when there
      is no answer, or else the least positive one received. */
  lemma KeptFor(received: Content, options: Options, ttl: Uint32, kept: Content)
    requires Kept(received, options, ttl, kept)
    ensures options.rewriteTTL.Some? ==> ttl == options.rewriteTTL.value
    ensures options.rewriteTTL.None? ==>
              var rs := received.records;
              if (forall i :: 0 <= i < |rs| ==> rs[i].section != Answer) && NegativeTTL(rs).Some?
              then ttl == NegativeTTL(rs).value
              else LeastPositive(TTLs(rs), ttl)
  {
    var rs, https := received.records, options.queryType.QueryHTTPS?;
    var filtered := Filtered(rs, https, options.strategy);
    FilteringKeepsNegativeTTL(rs, https, options.strategy);
    FilteringKeepsTTLs(rs, https, options.strategy);
    if forall i :: 0 <= i < |rs| ==> rs[i].section != Answer {
      assert !HasAnswer(filtered);
    } else {
      var i :| 0 <= i < |rs| && rs[i].section == Answer;
      assert filtered[i].section == Answer && HasAnswer(filtered);
    }
  }

  lemma {:induction false} FilteringKeepsNegativeTTL(rs: seq<RecordValue>, https: bool, strategy: DomainStrategy)
    ensures NegativeTTL(Filtered(rs, https, strategy)) == NegativeTTL(rs)
  {
    if rs != [] {
      FilteringKeepsNegativeTTL(rs[1..], https, strategy);
      assert Filtered(rs, https, strategy)[1..] == Filtered(rs[1..], https, strategy);
    }
  }

  lemma FilteringKeepsTTLs(rs: seq<RecordValue>, https: bool, strategy: DomainStrategy)
    ensures TTLs(Filtered(rs, https, strategy)) == TTLs(rs)
  {
    var n := Filtered(rs, https, strategy);
    forall t ensures t in TTLs(n) <==> t in TTLs(rs) {
      if r :| r in n && !r.data.Opt? && r.ttl == t {
        var i :| 0 <= i < |n| && n[i] == r;
        assert rs[i] in rs && rs[i].ttl == t;
      }
      if r :| r in rs && !r.data.Opt? && r.ttl == t {
        var i :| 0 <= i < |rs| && rs[i] == r;
        assert n[i] in n && n[i].ttl == t;
      }
    }
  }

  /** Filters hints, settles the TTL and stamps it on every record. */
  method ApplyResponseOptions(m: Message, options: Options) returns (ttl: Uint32)
    modifies m.records
    ensures Kept(old(m.Value()), options, ttl, m.Value())
  {
    FilterHints(m, options.queryType.QueryHTTPS?, options.strategy);
    ttl := ComputeTimeToLive(m);
    if options.rewriteTTL.Some? { ttl := options.rewriteTTL.value; }
    NormalizeTTL(m, ttl);
  }

  // ---------------------------------------------------------------- remaining time

  /** Whole seconds until `expireAt`. */
  function Remaining(expireAt: int, now: int): int {
    var left := (expireAt - now) / SECOND;
    if left < 0 then 0 else left
  }

  /** The 32-bit TTL shown for a fresh answer. */
  function Shown(expireAt: int, now: int): Uint32 { Remaining(expireAt, now) % 0x1_0000_0000 }

  /** A response kept at `at` for `ttl` seconds: the shown TTL never reaches past the expiry, never
      grows, and neither the nanosecond product nor the cast to 32 bits overflows. */
  lemma RemainingIsSafe(at: int, ttl: Uint32, now: int, later: int)
    requires at <= now <= later
    ensures var expireAt := at + ttl * SECOND;
            && ttl * SECOND <= MAX_DURATION
            && Shown(expireAt, now) == Remaining(expireAt, now) <= ttl
            && (now <= expireAt ==> now + Shown(expireAt, now) * SECOND <= expireAt)
            && Shown(expireAt, later) <= Shown(expireAt, now)
  {
    assert ttl * SECOND <= 0xFFFF_FFFF * SECOND;
  }

  /** Until the expiry: the greatest whole number of seconds that does not reach past it. After: none. */
  lemma RemainingIsExact(expireAt: int, now: int)
    ensures now <= expireAt ==>
              Remaining(expireAt, now) * SECOND <= expireAt - now < (Remaining(expireAt, now) + 1) * SECOND
    ensures expireAt <= now ==> Remaining(expireAt, now) == 0
  {
    var left := expireAt - now;
    assert left == left / SECOND * SECOND + left % SECOND;
  }

  // ---------------------------------------------------------------- the client

  /** A question, the query class included, and the tag of the transport it is put to. */
  datatype Key = Key(question: string, transportTag: string)

  datatype Entry = Entry(message: Message, expireAt: int)

  /** The history behind an entry: the reply as received and as kept, under which options and for
      how long, when, and the verdict of the response checker, if there was one. */
  datatype Stored = Stored(kept: Content, received: Content, options: Options, ttl: Uint32, at: int,
                           verdict: Option<bool>)

  predicate Cacheable(rcode: int) { rcode == RCODE_SUCCESS || rcode == RCODE_NAME_ERROR }

  ghost predicate Legitimate(h: Stored) {
    && Cacheable(h.kept.rcode)
    && h.ttl > 0
    && h.verdict != Some(false)
    && Kept(h.received, h.options, h.ttl, h.kept)
  }

  /** The entry holds the reply `h` as it was kept, until the time it was kept for is over. */
  ghost predicate Current(entry: Entry, h: Stored)
    reads entry.message.records
  {
    entry.message.Value() == h.kept && entry.expireAt == h.at + h.ttl * SECOND
  }

  ghost predicate Within(m: Message, objects: set<object>) {
    m in objects && forall r :: r in m.records ==> r in objects
  }

  ghost predicate Apart(m: Message, objects: set<object>) {
    m !in objects && forall r :: r in m.records ==> r !in objects
  }

  datatype Source =
    | Fresh(remaining: int)
    | Stale
    | Exchanged(ttl: Uint32)
    | NoReply
    | RejectedReply
    | StrategyRejected

  class Client {
    const optimisticTimeout: nat
    var cache: map<Key, Entry>
    var refreshing: set<Key>
    ghost var stored: map<Key, Stored>  // last reply stored for each key since the last clear
    ghost var handedOut: set<object>    // messages and records given to callers
    ghost var repr: set<object>         // messages and records the cache holds

    /** Every entry is the last reply stored for its key, every stored reply was fit to be stored, and
        the cache shares nothing with what was handed out. */
    ghost predicate Valid()
      reads `cache, `stored, `repr, `handedOut, repr
    {
      this !in repr && Holds(cache, stored, repr) && repr !! handedOut
    }

    static ghost predicate Holds(cache: map<Key, Entry>, stored: map<Key, Stored>, repr: set<object>)
      reads repr
    {
      && (forall k :: k in cache ==> k in stored && Within(cache[k].message, repr) && Current(cache[k], stored[k]))
      && (forall k :: k in stored ==> Legitimate(stored[k]))
    }

    static lemma HoldsAfterInstall(cache: map<Key, Entry>, stored: map<Key, Stored>, repr: set<object>,
                                   key: Key, entry: Entry, history: Stored, grown: set<object>)
      requires Holds(cache, stored, repr) && Legitimate(history) && Current(entry, history)
      requires repr <= grown && Within(entry.message, grown)
      ensures Holds(cache[key := entry], stored[key := history], grown)
    {
    }

    constructor (optimisticTimeout: nat)
      ensures Valid() && cache == map[] && stored == map[] && handedOut == {} && refreshing == {} && repr == {}
      ensures this.optimisticTimeout == optimisticTimeout
    {
      this.optimisticTimeout := optimisticTimeout;
      cache, refreshing, stored, handedOut, repr := map[], {}, map[], {}, {};
    }

    /** The window in which an expired answer may still be served. */
    predicate InOptimisticWindow(expireAt: int, now: int) {
      optimisticTimeout > 0 && now < expireAt + optimisticTimeout
    }

    /** What a caller may rely on in an answer from the cache: the last reply stored for exactly this
        key, apart from its TTLs, which are the time left or, past the expiry, 1. */
    ghost predicate Served(h: Stored, now: int, source: Source, value: Content) {
      var expireAt := h.at + h.ttl * SECOND;
      if source.Stale? then
        now > expireAt && InOptimisticWindow(expireAt, now) && value == WithTTL(h.kept, 1)
      else
        source == Fresh(Remaining(expireAt, now)) && now <= expireAt && value == WithTTL(h.kept, Shown(expireAt, now))
    }

    /** The same in terms of the records: the kept reply, in which every record but OPT has TTL 1 past
        the expiry, and before it the greatest number of seconds that does not reach past it. */
    ghost predicate ServedInTime(h: Stored, now: int, source: Source, value: Content) {
      var expireAt := h.at + h.ttl * SECOND;
      && (source.Fresh? ==> now <= expireAt)
      && (source.Stale? ==> expireAt < now < expireAt + optimisticTimeout)
      && value.rcode == h.kept.rcode && |value.records| == |h.kept.records|
      && forall i :: 0 <= i < |value.records| ==>
           var r, k := value.records[i], h.kept.records[i];
           && r.section == k.section && r.data == k.data
           && if k.data.Opt? then r.ttl == k.ttl
              else if source.Stale? then r.ttl == 1
              else now + r.ttl * SECOND <= expireAt < now + (r.ttl + 1) * SECOND
    }

    /** A clock that has not gone back since the reply was stored shows the time left. */
    lemma ServedIsInTime(h: Stored, now: int, source: Source, value: Content)
      requires Served(h, now, source, value) && h.at <= now
      ensures ServedInTime(h, now, source, value)
    {
      RemainingIsSafe(h.at, h.ttl, now, now);
      RemainingIsExact(h.at + h.ttl * SECOND, now);
    }

    /** The cache has an answer a caller with these options will take. */
    predicate Offers(key: Key, options: Options, now: int)
      reads `cache
    {
      key in cache &&
      (now <= cache[key].expireAt || (InOptimisticWindow(cache[key].expireAt, now) && !options.disableOptimisticCache))
    }

    /** The entry has not expired, or only so long ago that it may still be served. */
    predicate Usable(expireAt: int, now: int) {
      now <= expireAt || InOptimisticWindow(expireAt, now)
    }

    /** A copy of a usable entry, with the TTLs a caller sees now. */
    method CopyOut(key: Key, now: int) returns (response: Message, source: Source)
      requires Valid() && key in cache && Usable(cache[key].expireAt, now)
      ensures fresh(response) && fresh(response.records) && source != NoReply
      ensures key in stored && Served(stored[key], now, source, response.Value())
    {
      var entry := cache[key];
      var stale := now > entry.expireAt;
      response := CopyWithTTL(entry.message, if stale then 1 else Shown(entry.expireAt, now));
      source := if stale then Stale else Fresh(Remaining(entry.expireAt, now));
    }

    method LoadResponse(key: Key, now: int) returns (response: Message?, source: Source)
      requires Valid()
      modifies this`cache
      ensures Valid()
      ensures response != null <==> key in old(cache) && Usable(old(cache)[key].expireAt, now)
      ensures cache == if response == null then old(cache) - {key} else old(cache)
      ensures response == null <==> source == NoReply
      ensures response != null ==>
                && fresh(response) && fresh(response.records) && Apart(response, repr)
                && key in stored && Served(stored[key], now, source, response.Value())
    {
      if key !in cache { return null, NoReply; }
      if !Usable(cache[key].expireAt, now) {
        cache := cache - {key};
        return null, NoReply;
      }
      response, source := CopyOut(key, now);
    }

    method StoreCache(key: Key, message: Message, ttl: Uint32, now: int, ghost history: Stored)
      requires Valid() && Apart(message, repr)
      requires ttl > 0 ==> Legitimate(history)
      requires history.kept == message.Value() && history.ttl == ttl && history.at == now
      modifies this`cache, this`stored, this`repr
      ensures Valid()
      ensures stored == if ttl == 0 then old(stored) else old(stored)[key := history]
      ensures cache.Keys == if ttl == 0 then old(cache).Keys else old(cache).Keys + {key}
      ensures old(repr) <= repr && fresh(repr - old(repr))
    {
      if ttl == 0 { return; }
      var copy := message.Copy();
      Install(key, Entry(copy, now + ttl * SECOND), history);
    }

    /** Puts a message of the cache's own under `key`. */
    method Install(key: Key, entry: Entry, ghost history: Stored)
      requires Valid() && Legitimate(history) && Current(entry, history) && Apart(entry.message, handedOut)
      modifies this`cache, this`stored, this`repr
      ensures Valid()
      ensures stored == old(stored)[key := history] && cache == old(cache)[key := entry]
      ensures repr == old(repr) + {entry.message} + set r | r in entry.message.records
    {
      ghost var grown := repr + {entry.message} + set r | r in entry.message.records;
      HoldsAfterInstall(cache, stored, repr, key, entry, history, grown);
      cache, stored, repr := cache[key := entry], stored[key := history], grown;
    }

    /** A message leaves the client under the caller's identifier. */
    method HandOut(m: Message, id: nat)
      requires Valid() && Apart(m, repr)
      modifies this`handedOut, m`id
      ensures Valid() && m.id == id && m.Value() == old(m.Value())
      ensures handedOut == old(handedOut) + {m} + set r | r in m.records
      ensures Within(m, handedOut)
    {
      m.id := id;
      handedOut := handedOut + {m} + set r | r in m.records;
    }

    /** What the cache offers to a caller with these options, not yet handed out. */
    method LoadOffer(key: Key, options: Options, now: int) returns (response: Message?, source: Source)
      requires Valid()
      modifies this`cache
      ensures Valid() && cache.Keys <= old(cache).Keys
      ensures response != null <==> old(Offers(key, options, now))
      ensures response == null <==> source == NoReply
      ensures response != null ==>
                && fresh(response) && fresh(response.records) && Apart(response, repr)
                && key in stored && Served(stored[key], now, source, response.Value())
      ensures source == Stale ==> !options.disableOptimisticCache
    {
      response, source := LoadResponse(key, now);
      if source == Stale && options.disableOptimisticCache { response, source := null, NoReply; }
    }

    /** The cache path of an exchange. A stale answer also asks for a background refresh. */
    method ServeCached(key: Key, id: nat, options: Options, now: int) returns (response: Message?, source: Source)
      requires Valid()
      modifies this`cache, this`refreshing, this`handedOut
      ensures Valid() && old(handedOut) <= handedOut && cache.Keys <= old(cache).Keys
      ensures response != null <==> old(Offers(key, options, now))
      ensures response == null <==> source == NoReply
      ensures response != null ==>
                && Within(response, handedOut) && response.id == id && fresh(response)
                && key in stored && Served(stored[key], now, source, response.Value())
      ensures source == Stale ==> !options.disableOptimisticCache
      ensures refreshing == if source == Stale then old(refreshing) + {key} else old(refreshing)
    {
      response, source := LoadOffer(key, options, now);
      if response == null { return; }
      refreshing := if source == Stale then refreshing + {key} else refreshing;
      HandOut(response, id);
    }

    /** The transport path, once it replied: refuse, or shape the reply, keep a copy and pass it on. */
    method AcceptReply(key: Key, options: Options, cacheable: bool, verdict: Option<bool>, reply: Message, now: int)
      returns (source: Source)
      requires Valid() && Apart(reply, repr)
      modifies this`cache, this`stored, this`repr, reply.records
      ensures Valid() && Apart(reply, repr) && old(repr) <= repr
      ensures source.RejectedReply? <==> verdict.Some? && (verdict == Some(false) || !Cacheable(reply.rcode))
      ensures source.RejectedReply? || source.Exchanged?
      ensures source.Exchanged? ==> Kept(old(reply.Value()), options, source.ttl, reply.Value())
      ensures stored == if source.Exchanged? && cacheable && Cacheable(reply.rcode) && source.ttl > 0
                        then old(stored)[key := Stored(reply.Value(), old(reply.Value()), options, source.ttl, now,
                          verdict)]
                        else old(stored)
    {
      if verdict.Some? && (verdict == Some(false) || !Cacheable(reply.rcode)) { return RejectedReply; }
      ghost var received := reply.Value();
      var ttl := ApplyResponseOptions(reply, options);
      if cacheable && Cacheable(reply.rcode) {
        StoreCache(key, reply, ttl, now, Stored(reply.Value(), received, options, ttl, now, verdict));
      }
      source := Exchanged(ttl);
    }

    /** The transport's part of an exchange: `reply` is what it answers, null for an error. */
    method AskTransport(key: Key, id: nat, options: Options, cacheable: bool, verdict: Option<bool>, reply: Message?,
                        now: int)
      returns (response: Message?, source: Source)
      requires Valid() && (reply != null ==> Apart(reply, repr))
      modifies this`cache, this`stored, this`repr, this`handedOut
      modifies if reply == null then {} else {reply}, if reply == null then [] else reply.records
      ensures Valid() && old(handedOut) <= handedOut && response == reply
      ensures source.NoReply? <==> reply == null
      ensures source.RejectedReply? <==>
                && reply != null && verdict.Some?
                && (verdict == Some(false) || reply.rcode !in {RCODE_SUCCESS, RCODE_NAME_ERROR})
      ensures source.NoReply? || source.RejectedReply? || source.Exchanged?
      ensures reply != null ==> Within(reply, handedOut) && (source.Exchanged? ==> reply.id == id)
      ensures source.Exchanged? ==> Kept(old(reply.Value()), options, source.ttl, reply.Value())
      ensures stored == if source.Exchanged? && cacheable && source.ttl > 0
                           && reply.rcode in {RCODE_SUCCESS, RCODE_NAME_ERROR}
                        then old(stored)[key := Stored(reply.Value(), old(reply.Value()), options, source.ttl, now,
                          verdict)]
                        else old(stored)
    {
      if reply == null { return null, NoReply; }
      source := AcceptReply(key, options, cacheable, verdict, reply, now);
      HandOut(reply, if source.Exchanged? then id else reply.id);
      response := reply;
    }

    /** An exchange: an empty answer when the strategy rules the question out, from the cache when it
        may be used and has something to offer, else from the transport. `reply` is what the
        transport answers at time `later`, null for an error. */
    method Exchange(key: Key, id: nat, options: Options, cacheable: bool, verdict: Option<bool>, reply: Message?,
                    now: int, later: int)
      returns (response: Message?, source: Source)
      requires Valid() && (reply != null ==> Apart(reply, repr))
      modifies this, if reply == null then {} else {reply}, if reply == null then [] else reply.records
      ensures Valid() && old(handedOut) <= handedOut
      ensures response != null ==> Within(response, handedOut) && (!source.RejectedReply? ==> response.id == id)
      ensures source.StrategyRejected? <==>
                || (options.queryType == QueryA && options.strategy == IPv6Only)
                || (options.queryType == QueryAAAA && options.strategy == IPv4Only)
      ensures source.StrategyRejected? ==>
                && response != null && response.Value() == Content(RCODE_SUCCESS, [])
                && stored == old(stored) && cache == old(cache) && refreshing == old(refreshing)
      ensures source.Fresh? <==>
                !source.StrategyRejected? && cacheable && key in old(cache) && now <= old(cache)[key].expireAt
      ensures source.Stale? <==>
                && !source.StrategyRejected? && cacheable && key in old(cache) && !options.disableOptimisticCache
                && old(cache)[key].expireAt < now < old(cache)[key].expireAt + optimisticTimeout
      ensures source.RejectedReply? <==>
                && !source.StrategyRejected? && !source.Fresh? && !source.Stale? && reply != null
                && verdict.Some? && (verdict == Some(false) || reply.rcode !in {RCODE_SUCCESS, RCODE_NAME_ERROR})
      ensures source.Fresh? || source.Stale? ==>
                && response != null && stored == old(stored)
                && key in stored && Served(stored[key], now, source, response.Value())
                && (stored[key].at <= now ==> ServedInTime(stored[key], now, source, response.Value()))
      ensures source.Stale? ==> key in refreshing
      ensures source.Exchanged? ==>
                && response == reply != null
                && Kept(old(reply.Value()), options, source.ttl, reply.Value())
                && stored == if cacheable && reply.rcode in {RCODE_SUCCESS, RCODE_NAME_ERROR} && source.ttl > 0
                             then old(stored)[key := Stored(reply.Value(), old(reply.Value()), options, source.ttl,
                               later, verdict)]
                             else old(stored)
      ensures source.NoReply? || source.RejectedReply? ==> stored == old(stored)
      ensures source.NoReply? ==> reply == null && response == null
    {
      if StrategyRejects(options) {
        response := Reject(id);
        return response, StrategyRejected;
      }
      if cacheable {
        response, source := ServeCached(key, id, options, now);
        if response != null {
          if stored[key].at <= now { ServedIsInTime(stored[key], now, source, response.Value()); }
          return;
        }
      }
      response, source := AskTransport(key, id, options, cacheable, verdict, reply, later);
    }

    /** An empty answer for a question the strategy rules out. */
    method Reject(id: nat) returns (response: Message)
      requires Valid()
      modifies this`handedOut
      ensures Valid() && old(handedOut) <= handedOut && fresh(response) && Within(response, handedOut)
      ensures response.id == id && response.Value() == Content(RCODE_SUCCESS, [])
    {
      response := new Message(id, RCODE_SUCCESS, []);
      HandOut(response, id);
    }

    /** The end of a background refresh started by a stale answer; nothing is handed out. Without a
        checker a reply with an error code is dropped, with one it is rejected. */
    method Refresh(key: Key, options: Options, verdict: Option<bool>, reply: Message?, now: int)
      returns (source: Source)
      requires Valid() && key in refreshing && (reply != null ==> Apart(reply, repr))
      modifies this, if reply == null then [] else reply.records
      ensures Valid() && refreshing == old(refreshing) - {key} && handedOut == old(handedOut)
      ensures source.Exchanged? <==>
                reply != null && reply.rcode in {RCODE_SUCCESS, RCODE_NAME_ERROR} && verdict != Some(false)
      ensures source.Exchanged? ==> Kept(old(reply.Value()), options, source.ttl, reply.Value())
      ensures stored == if source.Exchanged? && source.ttl > 0
                        then old(stored)[key := Stored(reply.Value(), old(reply.Value()), options, source.ttl, now,
                          verdict)]
                        else old(stored)
    {
      refreshing := refreshing - {key};
      if reply == null { return NoReply; }
      if !Cacheable(reply.rcode) { return RejectedReply; }
      source := AcceptReply(key, options, true, verdict, reply, now);
    }

    /** The least recently used entry makes room. */
    method Evict(key: Key)
      requires Valid()
      modifies this`cache
      ensures Valid() && cache == old(cache) - {key}
    {
      cache := cache - {key};
    }

    method ClearCache()
      requires Valid()
      modifies this`cache, this`stored
      ensures Valid() && cache == map[] && stored == map[]
    {
      cache, stored := map[], map[];
    }
  }
}
