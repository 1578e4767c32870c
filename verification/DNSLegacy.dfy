/** The legacy DNS rule interpreter: a scan for the deciding rule, and the loop that scans on when an
    address filter rejects the answer. */
module DNSLegacy {
  import opened Prelude
  import opened DNSRules
  import opened TransportManagers
  import opened DNSInterpreter

  datatype Reply = Success(response: Response) | Rejected | Failed

  /** What the attempts of one query meet. Whether a rule has an address limit depends on rule-set
      content, so every look at it may come out differently. */
  datatype LegacyEnv = LegacyEnv(preMatches: (nat, int) -> bool,
                                 limited: (nat, int) -> bool,   // seen while scanning
                                 checked: (nat, int) -> bool,   // seen when the response check is made
                                 exchange: (nat, Transport, QueryOptions, bool) -> Reply,
                                 transports: map<string, Transport>,
                                 default: Transport,
                                 defaultStrategy: DomainStrategy)

  /** The legacy interpreter leaves the optimistic-cache switch alone. */
  function LegacyApply(everything: bool, o: QueryOptions, r: RouteOptions): QueryOptions {
    ApplyEverything(o, if everything then r else r.(disableOptimisticCache := false))
  }

  predicate LegacyHit(env: LegacyEnv, attempt: nat, actions: seq<Option<Action>>, addressQuery: bool, i: nat)
    requires i < |actions|
  {
    actions[i].Some? && (env.limited(attempt, i) ==> addressQuery) && env.preMatches(attempt, i)
  }

  predicate Ends(env: LegacyEnv, attempt: nat, actions: seq<Option<Action>>, allowFakeIP: bool, addressQuery: bool,
                 i: nat)
    requires i < |actions|
  {
    LegacyHit(env, attempt, actions, addressQuery, i) &&
    match actions[i].value
    case RouteTo(server, _) => server in env.transports && (env.transports[server].kind.FakeIP? ==> allowFakeIP)
    case RejectWith(_) => true
    case AnswerWith(_) => true
    case _ => false
  }

  /** Options after scanning rules `from` to `i`, none of which ended the scan. */
  function Scanned(everything: bool, env: LegacyEnv, attempt: nat, actions: seq<Option<Action>>, addressQuery: bool,
                   start: QueryOptions, from: nat, i: nat): QueryOptions
    requires from <= i <= |actions|
    decreases i
  {
    if i == from then start
    else
      var o := Scanned(everything, env, attempt, actions, addressQuery, start, from, i - 1);
      if LegacyHit(env, attempt, actions, addressQuery, i - 1) && actions[i - 1].value.SetOptions?
      then LegacyApply(everything, o, actions[i - 1].value.options) else o
  }

  function RouteScanned(everything: bool, o: QueryOptions, r: RouteOptions, transport: Transport): QueryOptions {
    var q := LegacyApply(everything, o, r);
    if transport.kind.FakeIP? then q.(disableCache := true) else q
  }

  /** A scan from `from` ends at `rule`, the first rule that ends it, or at none when `rule` is -1. */
  ghost predicate EndsAt(env: LegacyEnv, attempt: nat, actions: seq<Option<Action>>, allowFakeIP: bool,
                         addressQuery: bool,
                         from: nat, rule: int) {
    var end := if rule == -1 then |actions| else rule;
    && from <= end <= |actions|
    && (forall j :: from <= j < end ==> !Ends(env, attempt, actions, allowFakeIP, addressQuery, j))
    && (rule != -1 ==> end < |actions| && Ends(env, attempt, actions, allowFakeIP, addressQuery, end))
  }

  /** Where a query goes after a scan: the default server, the server of the rule, or nowhere. */
  ghost function ScanTransport(env: LegacyEnv, actions: seq<Option<Action>>, rule: int): Option<Transport> {
    if rule == -1 then Some(env.default)
    else if 0 <= rule < |actions| && actions[rule].Some? && actions[rule].value.RouteTo?
      && actions[rule].value.server in env.transports
    then Some(env.transports[actions[rule].value.server])
    else None
  }

  /** The options a scan from `from` to `rule` leaves. */
  ghost function ScanOptions(everything: bool, env: LegacyEnv, attempt: nat, actions: seq<Option<Action>>,
                             addressQuery: bool,
                             start: QueryOptions, from: nat, rule: int): QueryOptions
    requires from <= (if rule == -1 then |actions| else rule) <= |actions|
  {
    var end := if rule == -1 then |actions| else rule;
    var o := Scanned(everything, env, attempt, actions, addressQuery, start, from, end);
    var transport := ScanTransport(env, actions, rule);
    if rule == -1 || transport.None? then o
    else RouteScanned(everything, o, actions[rule].value.options, transport.value)
  }

  /** The assignments a matched rule's options make. */
  method ApplyLegacyOptions(o: QueryOptions, r: RouteOptions) returns (out: QueryOptions)
    ensures out == LegacyApply(false, o, r)
  {
    out := o;
    if r.strategy != AsIS { out := out.(strategy := r.strategy); }
    if r.disableCache { out := out.(disableCache := true); }
    if r.rewriteTTL.Some? { out := out.(rewriteTTL := r.rewriteTTL); }
    if r.timeout > 0 { out := out.(timeout := r.timeout); }
    if r.clientSubnet.Some? { out := out.(clientSubnet := r.clientSubnet); }
  }

  /** `ruleIndex` is the rule that was rejected before, or -1 for the first scan. */
  method MatchDNS(env: LegacyEnv, attempt: nat, actions: seq<Option<Action>>, allowFakeIP: bool, ruleIndex: int,
                  addressQuery: bool, options: QueryOptions)
    returns (transport: Option<Transport>, rule: int, out: QueryOptions)
    requires -1 <= ruleIndex < |actions|
    ensures EndsAt(env, attempt, actions, allowFakeIP, addressQuery, ruleIndex + 1, rule)
    ensures transport == ScanTransport(env, actions, rule)
    ensures out == ScanOptions(false, env, attempt, actions, addressQuery, options, ruleIndex + 1, rule)
    ensures rule == -1 || ruleIndex < rule < |actions|
    ensures !allowFakeIP && transport.Some? && transport.value.kind.FakeIP? ==> transport.value == env.default
  {
    out := options;
    for i := ruleIndex + 1 to |actions|
      invariant out == Scanned(false, env, attempt, actions, addressQuery, options, ruleIndex + 1, i)
      invariant forall j :: ruleIndex + 1 <= j < i ==> !Ends(env, attempt, actions, allowFakeIP, addressQuery, j)
    {
      if env.limited(attempt, i) && !addressQuery { continue; }
      if actions[i].None? || !env.preMatches(attempt, i) { continue; }
      match actions[i].value
      case RouteTo(server, o) =>
        if server !in env.transports { continue; }
        var found := env.transports[server];
        if found.kind.FakeIP? && !allowFakeIP { continue; }
        out := ApplyLegacyOptions(out, o);
        if found.kind.FakeIP? { out := out.(disableCache := true); }
        return Some(found), i, out;
      case SetOptions(o) =>
        out := ApplyLegacyOptions(out, o);
      case RejectWith(_) => return None, i, out;
      case AnswerWith(_) => return None, i, out;
      case _ =>
    }
    return Some(env.default), -1, out;
  }

  // ---------------------------------------------------------------- the retry loop

  datatype LegacyOutcome =
    | Replied(reply: Reply)
    | RejectedByRule
    | DroppedByRule
    | AnsweredByRule(predefined: string)
    | NilTransport  // a rule without a transport that the caller does not handle

  /** One exchange: where its scan began, the rule it was made for (-1 for none), where and how it was sent. */
  datatype Attempt = Attempt(from: nat, rule: int, transport: Transport, options: QueryOptions, reply: Reply)

  function LegacyFinal(env: LegacyEnv, o: QueryOptions): QueryOptions {
    if o.strategy == AsIS then o.(strategy := env.defaultStrategy) else o
  }

  /** A lookup retries after any error, an exchange only after a rejection. */
  predicate Retries(lookup: bool, reply: Reply) {
    if lookup then !reply.Success? else reply.Rejected?
  }

  /** Attempt `k`, as its scan with the query's own options explains it: the rule it ended at, where
      and with which options it was sent, and the reply. */
  ghost predicate AttemptExplained(env: LegacyEnv, actions: seq<Option<Action>>, lookup: bool, addressQuery: bool,
                                   options: QueryOptions, k: nat, a: Attempt) {
    && EndsAt(env, k, actions, !lookup, lookup || addressQuery, a.from, a.rule)
    && ScanTransport(env, actions, a.rule) == Some(a.transport)
    && a.reply == env.exchange(k, a.transport, a.options, a.rule != -1 && env.checked(k, a.rule))
    && var out := ScanOptions(false, env, k, actions, lookup || addressQuery, options, a.from, a.rule);
       a.options == LegacyFinal(env, out)
  }

  /** Attempt `k` was for a rule with a response check, and the reply was turned down. */
  ghost predicate TurnedDown(env: LegacyEnv, lookup: bool, k: nat, a: Attempt) {
    a.rule != -1 && env.checked(k, a.rule) && Retries(lookup, a.reply)
  }

  /** Where the next scan begins: just after the rule of the last attempt. */
  function NextFrom(log: seq<Attempt>): int {
    if log == [] then 0 else log[|log| - 1].rule + 1
  }

  ghost predicate LastTurnedDown(env: LegacyEnv, lookup: bool, log: seq<Attempt>) {
    log != [] ==> TurnedDown(env, lookup, |log| - 1, log[|log| - 1])
  }

  /** Each attempt was scanned from just after the rule of the one before, which was turned down.
      What earlier scans collected is gone. */
  ghost predicate GoodLog(env: LegacyEnv, actions: seq<Option<Action>>, lookup: bool, addressQuery: bool,
                          options: QueryOptions, log: seq<Attempt>)
    decreases |log|
  {
    log == [] ||
    var before, last := log[..|log| - 1], log[|log| - 1];
    && GoodLog(env, actions, lookup, addressQuery, options, before)
    && LastTurnedDown(env, lookup, before)
    && last.from == NextFrom(before)
    && AttemptExplained(env, actions, lookup, addressQuery, options, |before|, last)
  }

  lemma ExtendLog(env: LegacyEnv, actions: seq<Option<Action>>, lookup: bool, addressQuery: bool, options: QueryOptions,
                  log: seq<Attempt>, a: Attempt)
    requires GoodLog(env, actions, lookup, addressQuery, options, log) && LastTurnedDown(env, lookup, log)
    requires a.from == NextFrom(log) && AttemptExplained(env, actions, lookup, addressQuery, options, |log|, a)
    ensures GoodLog(env, actions, lookup, addressQuery, options, log + [a])
  {
    assert (log + [a])[..|log|] == log;
  }

  /** What a rule that names no transport does to the query. */
  function RuleOutcome(lookup: bool, a: Action): LegacyOutcome {
    match a
    case RejectWith(m) =>
      if lookup || m == RejectDefault then RejectedByRule else if m == RejectDrop then DroppedByRule else NilTransport
    case AnswerWith(predefined) => AnsweredByRule(predefined)
    case _ => NilTransport
  }

  /** A scan for attempt `k` from `from` ends at a rule that names no transport, which gives `outcome`. */
  ghost predicate RuleAnswers(env: LegacyEnv, actions: seq<Option<Action>>, lookup: bool, addressQuery: bool,
                              k: nat, from: nat, outcome: LegacyOutcome) {
    exists rule ::
      && EndsAt(env, k, actions, !lookup, lookup || addressQuery, from, rule)
      && rule != -1 && !actions[rule].value.RouteTo? && outcome == RuleOutcome(lookup, actions[rule].value)
  }

  /** The outcome of a query after these attempts: the last reply, which its rule did not turn down,
      or what a rule without a transport says. */
  ghost predicate OutcomeExplained(env: LegacyEnv, actions: seq<Option<Action>>, lookup: bool, addressQuery: bool,
                                   log: seq<Attempt>, outcome: LegacyOutcome) {
    if outcome.Replied? then
      log != [] && outcome.reply == log[|log| - 1].reply && !LastTurnedDown(env, lookup, log)
    else
      && LastTurnedDown(env, lookup, log) && NextFrom(log) >= 0
      && RuleAnswers(env, actions, lookup, addressQuery, |log|, NextFrom(log), outcome)
  }

  /** One turn of the retry loop: a scan, and the exchange it leads to, if any. */
  method TryFrom(env: LegacyEnv, actions: seq<Option<Action>>, options: QueryOptions, lookup: bool,
                 addressQuery: bool, k: nat, from: nat)
    returns (a: Option<Attempt>, outcome: LegacyOutcome)
    requires from <= |actions|
    ensures a.Some? ==>
              && a.value.from == from && AttemptExplained(env, actions, lookup, addressQuery, options, k, a.value)
              && (a.value.rule == -1 || from <= a.value.rule < |actions|) && outcome == Replied(a.value.reply)
    ensures a.None? ==> !outcome.Replied? && RuleAnswers(env, actions, lookup, addressQuery, k, from, outcome)
  {
    var transport, rule, out := MatchDNS(env, k, actions, !lookup, from - 1, lookup || addressQuery, options);
    if transport.None? { return None, RuleOutcome(lookup, actions[rule].value); }
    var query := LegacyFinal(env, out);
    var reply := env.exchange(k, transport.value, query, rule != -1 && env.checked(k, rule));
    return Some(Attempt(from, rule, transport.value, query, reply)), Replied(reply);
  }

  method LegacyQuery(env: LegacyEnv, actions: seq<Option<Action>>, options: QueryOptions, lookup: bool,
                     addressQuery: bool)
    returns (outcome: LegacyOutcome, log: seq<Attempt>)
    ensures GoodLog(env, actions, lookup, addressQuery, options, log) && |log| <= |actions| + 1
    ensures OutcomeExplained(env, actions, lookup, addressQuery, log, outcome)
  {
    log := [];
    while true
      invariant GoodLog(env, actions, lookup, addressQuery, options, log) && LastTurnedDown(env, lookup, log)
      invariant |log| <= NextFrom(log) <= |actions|
      decreases |actions| - NextFrom(log)
    {
      var next;
      next, outcome := TryFrom(env, actions, options, lookup, addressQuery, |log|, NextFrom(log));
      if next.None? { return; }
      var a, k := next.value, |log|;
      ExtendLog(env, actions, lookup, addressQuery, options, log, a);
      log := log + [a];
      if a.rule == -1 || !env.checked(k, a.rule) || !Retries(lookup, a.reply) { return; }
    }
  }

  /** A lookup reaches a fakeip server only as the default. */
  lemma {:induction false} LookupAvoidsFakeIP(env: LegacyEnv, actions: seq<Option<Action>>, addressQuery: bool,
                                              options: QueryOptions,
                                              log: seq<Attempt>, k: nat)
    requires GoodLog(env, actions, true, addressQuery, options, log) && k < |log| && log[k].transport.kind.FakeIP?
    ensures log[k].transport == env.default
    decreases |log|
  {
    if k < |log| - 1 { LookupAvoidsFakeIP(env, actions, addressQuery, options, log[..|log| - 1], k); }
  }

  /** A lookup by scanning can send a message to a fakeip server. */
  ghost predicate ScanReachesFakeIP(env: LegacyEnv, actions: seq<Option<Action>>, options: QueryOptions) {
    exists log: seq<Attempt>, outcome, k: int ::
      && GoodLog(env, actions, true, true, options, log) && OutcomeExplained(env, actions, true, true, log, outcome)
      && 0 <= k < |log| && log[k].transport.kind.FakeIP?
  }

  /** When no rule matches, a lookup is one attempt, at the default server. */
  lemma NoMatchAsksDefault(env: LegacyEnv, actions: seq<Option<Action>>, options: QueryOptions) returns (a: Attempt)
    requires forall k: nat, i: int :: !env.preMatches(k, i)
    ensures a.transport == env.default && GoodLog(env, actions, true, true, options, [a])
    ensures OutcomeExplained(env, actions, true, true, [a], Replied(a.reply))
  {
    var query := LegacyFinal(env, ScanOptions(false, env, 0, actions, true, options, 0, -1));
    a := Attempt(0, -1, env.default, query, env.exchange(0, env.default, query, false));
    assert EndsAt(env, 0, actions, false, true, 0, -1);
    ExtendLog(env, actions, true, true, options, [], a);
    assert [] + [a] == [a];
  }

  /** Some matching makes a lookup reach a fakeip server exactly when the default server is one. */
  lemma ScanReachesFakeIPIff(env: LegacyEnv, actions: seq<Option<Action>>, options: QueryOptions)
    ensures (exists m: (nat, int) -> bool :: ScanReachesFakeIP(env.(preMatches := m), actions, options)) <==>
            env.default.kind.FakeIP?
  {
    if env.default.kind.FakeIP? {
      var none := (k: nat, i: int) => false;
      var a := NoMatchAsksDefault(env.(preMatches := none), actions, options);
      assert [a][0].transport.kind.FakeIP?;
      assert ScanReachesFakeIP(env.(preMatches := none), actions, options);
    }
    forall m: (nat, int) -> bool | ScanReachesFakeIP(env.(preMatches := m), actions, options)
      ensures env.default.kind.FakeIP?
    {
      var env' := env.(preMatches := m);
      var log: seq<Attempt>, outcome, k: int :|
        && GoodLog(env', actions, true, true, options, log) && OutcomeExplained(env', actions, true, true, log, outcome)
        && 0 <= k < |log| && log[k].transport.kind.FakeIP?;
      LookupAvoidsFakeIP(env', actions, true, options, log, k);
    }
  }

  /** Only a reject action with the reply method leaves a query without a transport. */
  lemma NilTransportNeedsReply(env: LegacyEnv, actions: seq<Option<Action>>, lookup: bool, addressQuery: bool,
                               log: seq<Attempt>)
    requires OutcomeExplained(env, actions, lookup, addressQuery, log, NilTransport)
    ensures !lookup && Some(RejectWith(RejectReply)) in actions
  {
  }

  // ---------------------------------------------------------------- what each attempt carries

  /** Rule `i` is a route-options rule that matched in this scan. */
  predicate ScanSets(env: LegacyEnv, attempt: nat, actions: seq<Option<Action>>, addressQuery: bool, i: nat)
    requires i < |actions|
  {
    && actions[i].Some? && actions[i].value.SetOptions?
    && env.preMatches(attempt, i) && (!env.limited(attempt, i) || addressQuery)
  }

  /** Looking back from rule `i` to `from`: the value set by the nearest such rule that sets it. */
  function LatestScanned(env: LegacyEnv, attempt: nat, actions: seq<Option<Action>>, addressQuery: bool, x: Setting,
                         from: nat, i: nat): Option<Value>
    requires from <= i <= |actions|
    decreases i
  {
    if i == from then None
    else if ScanSets(env, attempt, actions, addressQuery, i - 1) && SetBy(x, actions[i - 1].value.options).Some? then
      SetBy(x, actions[i - 1].value.options)
    else LatestScanned(env, attempt, actions, addressQuery, x, from, i - 1)
  }

  lemma {:induction false} ScannedAtHand(env: LegacyEnv, attempt: nat, actions: seq<Option<Action>>, addressQuery: bool,
                                         start: QueryOptions, from: nat, i: nat)
    requires from <= i <= |actions|
    ensures var o := Scanned(false, env, attempt, actions, addressQuery, start, from, i);
            && (forall x: Setting ::
                  ValueIn(x, o) ==
                  OrElse(LatestScanned(env, attempt, actions, addressQuery, x, from, i), ValueIn(x, start)))
            && (o.disableCache <==>
                  || start.disableCache
                  || exists j :: from <= j < i && ScanSets(env, attempt, actions, addressQuery, j)
                                 && actions[j].value.options.disableCache)
            && o.disableOptimisticCache == start.disableOptimisticCache && o.lookupStrategy == start.lookupStrategy
    decreases i
  {
    if i > from { ScannedAtHand(env, attempt, actions, addressQuery, start, from, i - 1); }
  }

  /** Of an attempt's setting: its rule's own value, else the latest scanned before the rule, else the query's. */
  function AttemptValue(env: LegacyEnv, actions: seq<Option<Action>>, addressQuery: bool, start: QueryOptions, k: nat,
                        from: nat, end: nat, x: Setting): Value
    requires from <= end <= |actions|
  {
    var own := OwnOptions(actions, end);
    OrElse(if own.Some? then SetBy(x, own.value) else None,
      OrElse(LatestScanned(env, k, actions, addressQuery, x, from, end), ValueIn(x, start)))
  }

  /** Caching is turned off by the query, a scanned route-options rule, the attempt's rule, or the fakeip
      server of that rule. */
  ghost predicate AttemptUncached(env: LegacyEnv, actions: seq<Option<Action>>, addressQuery: bool,
                                  start: QueryOptions, k: nat, from: nat, end: nat, transport: Transport)
    requires from <= end <= |actions|
  {
    || start.disableCache
    || (end < |actions| && transport.kind.FakeIP?)
    || (OwnOptions(actions, end).Some? && OwnOptions(actions, end).value.disableCache)
    || exists j :: from <= j < end && ScanSets(env, k, actions, addressQuery, j)
                   && actions[j].value.options.disableCache
  }

  /** The attempt carries these settings and this switch; the strategy is the router's default where
      nothing sets one. */
  ghost predicate AttemptCarries(env: LegacyEnv, actions: seq<Option<Action>>, addressQuery: bool, start: QueryOptions,
                                 k: nat, a: Attempt) {
    var end, o := if a.rule == -1 then |actions| else a.rule, a.options;
    && a.from <= end <= |actions|
    && (forall x: Setting :: x != StrategySetting ==>
          ValueIn(x, o) == AttemptValue(env, actions, addressQuery, start, k, a.from, end, x))
    && var strategy := AttemptValue(env, actions, addressQuery, start, k, a.from, end, StrategySetting);
    && OfStrategy(o.strategy) == (if strategy == OfStrategy(AsIS) then OfStrategy(env.defaultStrategy) else strategy)
    && (o.disableCache <==> AttemptUncached(env, actions, addressQuery, start, k, a.from, end, a.transport))
    && o.disableOptimisticCache == start.disableOptimisticCache && o.lookupStrategy == start.lookupStrategy
  }

  /** The attempt goes to its rule's server, or to the default without a rule. */
  ghost predicate AttemptGoesTo(env: LegacyEnv, actions: seq<Option<Action>>, a: Attempt) {
    if a.rule == -1 then a.transport == env.default
    else
      && 0 <= a.rule < |actions| && actions[a.rule].Some? && actions[a.rule].value.RouteTo?
      && actions[a.rule].value.server in env.transports && a.transport == env.transports[actions[a.rule].value.server]
  }

  lemma OverlaidByRule(o: QueryOptions, r: RouteOptions, transport: Transport)
    ensures var q := RouteScanned(false, o, r, transport);
            && (forall x: Setting :: ValueIn(x, q) == OrElse(SetBy(x, r), ValueIn(x, o)))
            && (q.disableCache <==> o.disableCache || r.disableCache || transport.kind.FakeIP?)
            && q.disableOptimisticCache == o.disableOptimisticCache && q.lookupStrategy == o.lookupStrategy
  {
  }

  lemma ExplainedCarries(env: LegacyEnv, actions: seq<Option<Action>>, lookup: bool, addressQuery: bool,
                         options: QueryOptions, k: nat, a: Attempt)
    requires AttemptExplained(env, actions, lookup, addressQuery, options, k, a)
    ensures AttemptCarries(env, actions, lookup || addressQuery, options, k, a) && AttemptGoesTo(env, actions, a)
  {
    var end, asked := if a.rule == -1 then |actions| else a.rule, lookup || addressQuery;
    ScannedAtHand(env, k, actions, asked, options, a.from, end);
    var o := Scanned(false, env, k, actions, asked, options, a.from, end);
    if a.rule != -1 { OverlaidByRule(o, actions[a.rule].value.options, a.transport); }
    var q := ScanOptions(false, env, k, actions, asked, options, a.from, a.rule);
    assert forall x: Setting :: ValueIn(x, q) == AttemptValue(env, actions, asked, options, k, a.from, end, x);
  }

  /** Every attempt of a query goes where its rule says and carries what its rule, the rules scanned
      before it and the query say. */
  lemma {:induction false} AttemptsCarry(env: LegacyEnv, actions: seq<Option<Action>>, lookup: bool, addressQuery: bool,
                                         options: QueryOptions, log: seq<Attempt>, k: nat)
    requires GoodLog(env, actions, lookup, addressQuery, options, log) && k < |log|
    ensures AttemptCarries(env, actions, lookup || addressQuery, options, k, log[k])
    ensures AttemptGoesTo(env, actions, log[k])
    decreases |log|
  {
    if k < |log| - 1 {
      AttemptsCarry(env, actions, lookup, addressQuery, options, log[..|log| - 1], k);
    } else {
      ExplainedCarries(env, actions, lookup, addressQuery, options, k, log[k]);
    }
  }

  /** A query is retried exactly while its rule's response check turns the reply down: a rejected reply, or
      in a lookup any error. */
  lemma {:induction false} RetriedOnlyIfTurnedDown(env: LegacyEnv, actions: seq<Option<Action>>, lookup: bool,
                                                   addressQuery: bool, options: QueryOptions, log: seq<Attempt>, k: nat)
    requires GoodLog(env, actions, lookup, addressQuery, options, log) && k + 1 < |log|
    ensures log[k].rule != -1 && env.checked(k, log[k].rule)
    ensures log[k].reply == Rejected || (lookup && log[k].reply == Failed)
    ensures log[k + 1].from == log[k].rule + 1 && (log[k + 1].rule == -1 || log[k].rule < log[k + 1].rule)
    decreases |log|
  {
    if k + 1 < |log| - 1 {
      RetriedOnlyIfTurnedDown(env, actions, lookup, addressQuery, options, log[..|log| - 1], k);
    }
  }

  /** What the loop ends with: a reply its rule does not turn down, or what a matched rule without a server
      says: refused or, for an exchange, dropped; or the predefined answer. */
  lemma EndedBy(env: LegacyEnv, actions: seq<Option<Action>>, lookup: bool, addressQuery: bool, log: seq<Attempt>,
                outcome: LegacyOutcome)
    requires OutcomeExplained(env, actions, lookup, addressQuery, log, outcome)
    ensures outcome.Replied? ==>
              && log != []
              && var a := log[|log| - 1];
                 && outcome.reply == a.reply
                 && (a.rule == -1 || !env.checked(|log| - 1, a.rule) || a.reply.Success? ||
                     (!lookup && a.reply == Failed))
    ensures outcome == DroppedByRule ==> !lookup && Some(RejectWith(RejectDrop)) in actions
    ensures outcome == RejectedByRule ==>
              || Some(RejectWith(RejectDefault)) in actions
              || (lookup && exists m :: Some(RejectWith(m)) in actions)
    ensures outcome.AnsweredByRule? ==> Some(AnswerWith(outcome.predefined)) in actions
  {
    if !outcome.Replied? {
      var rule :|
        && EndsAt(env, |log|, actions, !lookup, lookup || addressQuery, NextFrom(log), rule)
        && rule != -1 && !actions[rule].value.RouteTo? && outcome == RuleOutcome(lookup, actions[rule].value);
      assert actions[rule] in actions;
    }
  }

  /** When the next scan ends at a rule that names no server, that rule decides: a lookup is refused by
      any reject rule, an exchange refused or dropped as the rule says; a predefined answer is given. */
  lemma RuleDecides(env: LegacyEnv, actions: seq<Option<Action>>, lookup: bool, addressQuery: bool, log: seq<Attempt>,
                    outcome: LegacyOutcome, rule: nat)
    requires OutcomeExplained(env, actions, lookup, addressQuery, log, outcome) && !outcome.Replied?
    requires EndsAt(env, |log|, actions, !lookup, lookup || addressQuery, NextFrom(log), rule)
    ensures actions[rule] == Some(RejectWith(RejectDefault)) ==> outcome == RejectedByRule
    ensures actions[rule] == Some(RejectWith(RejectDrop)) && !lookup ==> outcome == DroppedByRule
    ensures actions[rule].value.RejectWith? && lookup ==> outcome == RejectedByRule
    ensures forall p :: actions[rule] == Some(AnswerWith(p)) ==> outcome == AnsweredByRule(p)
    ensures !actions[rule].value.RouteTo?
  {
    var r :|
      && EndsAt(env, |log|, actions, !lookup, lookup || addressQuery, NextFrom(log), r)
      && r != -1 && !actions[r].value.RouteTo? && outcome == RuleOutcome(lookup, actions[r].value);
    assert r == rule;
  }

  /** A scan passes over a rule exactly when it does not match, is not asked for addresses it limits, only
      sets options, or names a server that is unknown or may not be used. */
  lemma ScanPasses(env: LegacyEnv, attempt: nat, actions: seq<Option<Action>>, allowFakeIP: bool, addressQuery: bool,
                   i: nat)
    requires i < |actions|
    ensures !Ends(env, attempt, actions, allowFakeIP, addressQuery, i) <==>
            || actions[i].None? || !env.preMatches(attempt, i) || (env.limited(attempt, i) && !addressQuery)
            || actions[i].value.SetOptions? || actions[i].value.EvaluateWith? || actions[i].value.ReturnEvaluated?
            || (actions[i].value.RouteTo? &&
                (actions[i].value.server !in env.transports ||
                 (env.transports[actions[i].value.server].kind == FakeIP && !allowFakeIP)))
  {
  }

  // ---------------------------------------------------------------- what the legacy interpreter ignores

  ghost predicate NoOptimisticSwitch(actions: seq<Option<Action>>) {
    forall i :: 0 <= i < |actions| && actions[i].Some? ==>
      && !actions[i].value.EvaluateWith? && !actions[i].value.ReturnEvaluated?
      && (OptionsIn(actions[i].value).Some? ==> !OptionsIn(actions[i].value).value.disableOptimisticCache)
  }

  lemma LegacyActions(rules: seq<DNSRule>, ruleSets: RuleSets)
    requires Resolve(rules, ruleSets).Ok? && Resolve(rules, ruleSets).value.legacy
    ensures NoOptimisticSwitch(Actions(rules))
  {
    LegacyModeHasNoNewFeature(rules, ruleSets);
    forall i | 0 <= i < |rules| && Actions(rules)[i].Some?
      ensures !Actions(rules)[i].value.EvaluateWith? && !Actions(rules)[i].value.ReturnEvaluated?
      ensures OptionsIn(Actions(rules)[i].value).Some? ==>
              !OptionsIn(Actions(rules)[i].value).value.disableOptimisticCache
    {
      TopLevelAreNodes(rules, i);
    }
  }

  lemma {:induction false} SameScan(env: LegacyEnv, attempt: nat, actions: seq<Option<Action>>, addressQuery: bool,
                                    start: QueryOptions, from: nat, i: nat)
    requires NoOptimisticSwitch(actions) && from <= i <= |actions|
    ensures Scanned(true, env, attempt, actions, addressQuery, start, from, i)
         == Scanned(false, env, attempt, actions, addressQuery, start, from, i)
    decreases i
  {
    if i > from {
      SameScan(env, attempt, actions, addressQuery, start, from, i - 1);
      assert actions[i - 1].Some? && OptionsIn(actions[i - 1].value).Some? ==>
          !OptionsIn(actions[i - 1].value).value.disableOptimisticCache;
    }
  }

  /** Rules resolved to the legacy mode mean the same to the legacy scan and to one that ignores
      nothing: wherever a scan ends, it leaves the same options. */
  lemma SkippingOptimisticLosesNothing(rules: seq<DNSRule>, ruleSets: RuleSets, env: LegacyEnv, attempt: nat,
                                       allowFakeIP: bool,
                                       addressQuery: bool, start: QueryOptions, from: nat, rule: int)
    requires Resolve(rules, ruleSets).Ok? && Resolve(rules, ruleSets).value.legacy
    requires EndsAt(env, attempt, Actions(rules), allowFakeIP, addressQuery, from, rule)
    ensures ScanOptions(true, env, attempt, Actions(rules), addressQuery, start, from, rule)
         == ScanOptions(false, env, attempt, Actions(rules), addressQuery, start, from, rule)
  {
    LegacyActions(rules, ruleSets);
    SameScan(env, attempt, Actions(rules), addressQuery, start, from, if rule == -1 then |rules| else rule);
  }
}
