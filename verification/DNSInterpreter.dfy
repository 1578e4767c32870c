/** The new DNS rule interpreter: accumulated route options, an evaluated response that later rules
    can match and return, and at most one deciding rule. */
module DNSInterpreter {
  import opened Prelude
  import opened DNSRules
  import opened TransportManagers

  /** A DNS response message; its content does not matter here. */
  type Response = nat

  datatype QueryOptions = QueryOptions(strategy: DomainStrategy, lookupStrategy: DomainStrategy, disableCache: bool,
                                       disableOptimisticCache: bool, rewriteTTL: Option<nat>, timeout: int,
                                       clientSubnet: Option<string>)

  /** A rule's action once built; rules without an action do nothing when they match. */
  datatype Action =
    | RouteTo(server: string, options: RouteOptions)
    | EvaluateWith(server: string, options: RouteOptions)
    | ReturnEvaluated
    | SetOptions(options: RouteOptions)
    | RejectWith(how: RejectMethod)
    | AnswerWith(predefined: string)

  function NewDNSRuleAction(a: RuleAction): Option<Action> {
    match a.kind
    case Unset => None
    case Route => Some(RouteTo(a.server, a.route))
    case Evaluate => Some(EvaluateWith(a.server, a.route))
    case Respond => Some(ReturnEvaluated)
    case OptionsOnly => Some(SetOptions(a.options))
    case Reject => Some(RejectWith(a.rejectMethod))
    case Predefined => Some(AnswerWith(a.predefined))
  }

  function ConfiguredAction(rule: DNSRule): RuleAction
    requires !rule.Other?
  {
    if rule.Default? then rule.rule.action else rule.action
  }

  /** The actions of a list of top-level rules. */
  function Actions(rules: seq<DNSRule>): (r: seq<Option<Action>>)
    ensures |r| == |rules|
    ensures forall i :: 0 <= i < |rules| && !rules[i].Other? ==> r[i] == NewDNSRuleAction(ConfiguredAction(rules[i]))
  {
    seq(|rules|, i requires 0 <= i < |rules| =>
      if rules[i].Other? then None else NewDNSRuleAction(ConfiguredAction(rules[i])))
  }

  // ---------------------------------------------------------------- options

  /** Everything an action's options set except the strategy. */
  function Apply(o: QueryOptions, r: RouteOptions): QueryOptions {
    o.(disableCache := o.disableCache || r.disableCache,
       disableOptimisticCache := o.disableOptimisticCache || r.disableOptimisticCache,
       rewriteTTL := if r.rewriteTTL.Some? then r.rewriteTTL else o.rewriteTTL,
       timeout := if r.timeout > 0 then r.timeout else o.timeout,
       clientSubnet := if r.clientSubnet.Some? then r.clientSubnet else o.clientSubnet)
  }

  /** The strategy as well: what an interpreter that ignored nothing would do. */
  function ApplyEverything(o: QueryOptions, r: RouteOptions): QueryOptions {
    Apply(o, r).(strategy := if r.strategy != AsIS then r.strategy else o.strategy)
  }

  /** `everything` selects the interpreter that ignores nothing. */
  function ApplyFor(everything: bool, o: QueryOptions, r: RouteOptions): QueryOptions {
    if everything then ApplyEverything(o, r) else Apply(o, r)
  }

  function ApplyAll(o: QueryOptions, rs: seq<RouteOptions>): QueryOptions {
    if rs == [] then o else Apply(ApplyAll(o, rs[..|rs| - 1]), rs[|rs| - 1])
  }

  /** Switches are on if any options turned them on; strategies are left alone. */
  lemma {:induction false} ApplyAllSwitches(o: QueryOptions, rs: seq<RouteOptions>)
    ensures var a := ApplyAll(o, rs);
            && a.strategy == o.strategy && a.lookupStrategy == o.lookupStrategy
            && (a.disableCache <==> o.disableCache || exists r :: r in rs && r.disableCache)
            && (a.disableOptimisticCache <==>
                    o.disableOptimisticCache || exists r :: r in rs && r.disableOptimisticCache)
  {
    if rs != [] {
      var init, last := rs[..|rs| - 1], rs[|rs| - 1];
      ApplyAllSwitches(o, init);
      assert forall r :: r in rs <==> r in init || r == last;
    }
  }

  /** Values come from the last options that set them. */
  lemma {:induction false} ApplyAllLatest(o: QueryOptions, rs: seq<RouteOptions>, i: nat)
    requires i < |rs|
    ensures var a := ApplyAll(o, rs);
            && (rs[i].rewriteTTL.Some? && (forall j :: i < j < |rs| ==> rs[j].rewriteTTL.None?) ==>
                a.rewriteTTL == rs[i].rewriteTTL)
            && (rs[i].clientSubnet.Some? && (forall j :: i < j < |rs| ==> rs[j].clientSubnet.None?) ==>
                a.clientSubnet == rs[i].clientSubnet)
            && (rs[i].timeout > 0 && (forall j :: i < j < |rs| ==> rs[j].timeout <= 0) ==> a.timeout == rs[i].timeout)
  {
    var n := |rs| - 1;
    if i < n {
      ApplyAllLatest(o, rs[..n], i);
      assert forall j :: i < j < n ==> rs[..n][j] == rs[j];
    }
  }

  // ---------------------------------------------------------------- one query

  /** What a query meets: which rules match given the response evaluated so far, what each exchange
      returns, and the transports. Rule `|rules|` stands for the final exchange. */
  datatype Env = Env(matches: (int, Option<Response>) -> bool,
                     exchange: (int, Transport, QueryOptions) -> Option<Response>,
                     transports: map<string, Transport>,
                     default: Transport,
                     defaultStrategy: DomainStrategy)

  datatype Evaluation = Evaluation(response: Response, transport: Transport)

  datatype Sent = Sent(rule: int, transport: Transport, options: QueryOptions)

  datatype Outcome =
    | Exchanged(transport: Transport, response: Option<Response>)
    | Responded(evaluation: Evaluation)
    | NothingEvaluated
    | Refused
    | Dropped
    | Answered(predefined: string)

  /** The options an exchange is made with: an unset strategy becomes the router's default. */
  function Final(env: Env, o: QueryOptions): QueryOptions {
    if o.strategy == AsIS then o.(strategy := env.defaultStrategy) else o
  }

  function ResponseOf(e: Option<Evaluation>): Option<Response> {
    if e.Some? then Some(e.value.response) else None
  }

  /** Interpreter state before a rule: options collected and the evaluation at hand. */
  datatype Progress = Progress(options: QueryOptions, evaluated: Option<Evaluation>)

  function EvaluateOptions(everything: bool, env: Env, p: Progress, options: RouteOptions): QueryOptions {
    Final(env, ApplyFor(everything, p.options, options))
  }

  /** The evaluation an evaluate action leaves: its response, or nothing if it failed. */
  function EvaluationOf(everything: bool, env: Env, i: int, p: Progress, server: string,
                        options: RouteOptions): Option<Evaluation> {
    if server !in env.transports then None
    else
      var response := env.exchange(i, env.transports[server], EvaluateOptions(everything, env, p, options));
      if response.None? then None else Some(Evaluation(response.value, env.transports[server]))
  }

  /** The left fold: progress after the first `i` rules, assuming none of them decided. */
  function Before(everything: bool, env: Env, actions: seq<Option<Action>>, start: QueryOptions, i: nat): Progress
    requires i <= |actions|
  {
    if i == 0 then Progress(start, None)
    else
      var p := Before(everything, env, actions, start, i - 1);
      if !env.matches(i - 1, ResponseOf(p.evaluated)) || actions[i - 1].None? then p
      else match actions[i - 1].value
        case SetOptions(o) => p.(options := ApplyFor(everything, p.options, o))
        case EvaluateWith(server, o) => p.(evaluated := EvaluationOf(everything, env, i - 1, p, server, o))
        case _ => p
  }

  predicate Hit(everything: bool, env: Env, actions: seq<Option<Action>>, start: QueryOptions, i: nat)
    requires i < |actions|
  {
    actions[i].Some? && env.matches(i, ResponseOf(Before(everything, env, actions, start, i).evaluated))
  }

  /** Whether rule `i` ends the query. */
  predicate Decides(everything: bool, env: Env, actions: seq<Option<Action>>, start: QueryOptions, allowFakeIP: bool,
                    i: nat)
    requires i < |actions|
  {
    Hit(everything, env, actions, start, i) &&
    match actions[i].value
    case RouteTo(server, _) => server in env.transports && (env.transports[server].kind.FakeIP? ==> allowFakeIP)
    case RejectWith(m) => m != RejectReply
    case ReturnEvaluated => true
    case AnswerWith(_) => true
    case _ => false
  }

  /** The options of a route: the rule's own over those collected, and no caching of fakeip answers. */
  function RouteQuery(everything: bool, env: Env, p: Progress, options: RouteOptions,
                      transport: Transport): QueryOptions {
    var o := ApplyFor(everything, p.options, options);
    Final(env, if transport.kind.FakeIP? then o.(disableCache := true) else o)
  }

  /** The outcome when rule `k` decides, or the final exchange when `k` is the number of rules. */
  function Decision(everything: bool, env: Env, actions: seq<Option<Action>>, start: QueryOptions, k: nat): Outcome
    requires k <= |actions|
    requires k < |actions| ==> exists allowFakeIP :: Decides(everything, env, actions, start, allowFakeIP, k)
  {
    var p := Before(everything, env, actions, start, k);
    if k == |actions| then Exchanged(env.default, env.exchange(k, env.default, Final(env, p.options)))
    else match actions[k].value
      case RouteTo(server, o) =>
        var transport := env.transports[server];
        Exchanged(transport, env.exchange(k, transport, RouteQuery(everything, env, p, o, transport)))
      case ReturnEvaluated => if p.evaluated.None? then NothingEvaluated else Responded(p.evaluated.value)
      case RejectWith(m) => if m == RejectDefault then Refused else Dropped
      case AnswerWith(predefined) => Answered(predefined)
  }

  /** `k` is the first rule that decides, or the number of rules when none does. */
  ghost predicate FirstDecider(env: Env, actions: seq<Option<Action>>, options: QueryOptions, allowFakeIP: bool,
                               k: nat) {
    && k <= |actions|
    && (forall i :: 0 <= i < k ==> !Decides(false, env, actions, options, allowFakeIP, i))
    && (k < |actions| ==> Decides(false, env, actions, options, allowFakeIP, k))
  }

  /** What the matched evaluate actions among the first `i` rules send: each one message, in rule
      order, with the options collected before it and its own. */
  function Evaluations(everything: bool, env: Env, actions: seq<Option<Action>>, start: QueryOptions, i: nat): seq<Sent>
    requires i <= |actions|
  {
    if i == 0 then []
    else
      var earlier := Evaluations(everything, env, actions, start, i - 1);
      if Hit(everything, env, actions, start, i - 1) && actions[i - 1].value.EvaluateWith?
         && actions[i - 1].value.server in env.transports then
        var p := Before(everything, env, actions, start, i - 1);
        earlier + [Sent(i - 1, env.transports[actions[i - 1].value.server],
                        EvaluateOptions(everything, env, p, actions[i - 1].value.options))]
      else earlier
  }

  /** What the deciding rule sends: a route one message, the final exchange one, others nothing. */
  function FinalMessage(everything: bool, env: Env, actions: seq<Option<Action>>, start: QueryOptions,
                        k: nat): seq<Sent>
    requires k <= |actions|
    requires k < |actions| ==> exists allowFakeIP :: Decides(everything, env, actions, start, allowFakeIP, k)
  {
    var p := Before(everything, env, actions, start, k);
    if k == |actions| then [Sent(k, env.default, Final(env, p.options))]
    else if !actions[k].value.RouteTo? then []
    else
      var transport := env.transports[actions[k].value.server];
      [Sent(k, transport, RouteQuery(everything, env, p, actions[k].value.options, transport))]
  }

  /** Everything a query sends when rule `k` decides it. */
  function Messages(everything: bool, env: Env, actions: seq<Option<Action>>, start: QueryOptions, k: nat): seq<Sent>
    requires k <= |actions|
    requires k < |actions| ==> exists allowFakeIP :: Decides(everything, env, actions, start, allowFakeIP, k)
  {
    Evaluations(everything, env, actions, start, k) + FinalMessage(everything, env, actions, start, k)
  }

  method ExchangeWithRules(env: Env, actions: seq<Option<Action>>, options: QueryOptions, allowFakeIP: bool)
    returns (outcome: Outcome, decidedBy: nat, log: seq<Sent>)
    ensures FirstDecider(env, actions, options, allowFakeIP, decidedBy)
    ensures outcome == Decision(false, env, actions, options, decidedBy)
    ensures log == Messages(false, env, actions, options, decidedBy)
  {
    var effective := options;
    var evaluated: Option<Evaluation> := None;
    log := [];
    for i := 0 to |actions|
      invariant Progress(effective, evaluated) == Before(false, env, actions, options, i)
      invariant forall j :: 0 <= j < i ==> !Decides(false, env, actions, options, allowFakeIP, j)
      invariant log == Evaluations(false, env, actions, options, i)
    {
      if actions[i].None? || !env.matches(i, ResponseOf(evaluated)) { continue; }
      match actions[i].value
      case SetOptions(o) =>
        effective := Apply(effective, o);
      case EvaluateWith(server, o) =>
        if server !in env.transports { evaluated := None; continue; }
        var transport := env.transports[server];
        var query := Final(env, Apply(effective, o));
        var response := env.exchange(i, transport, query);
        log := log + [Sent(i, transport, query)];
        if response.None? { evaluated := None; continue; }
        evaluated := Some(Evaluation(response.value, transport));
      case ReturnEvaluated =>
        if evaluated.None? { return NothingEvaluated, i, log; }
        return Responded(evaluated.value), i, log;
      case RouteTo(server, o) =>
        if server !in env.transports { continue; }
        var transport := env.transports[server];
        if transport.kind.FakeIP? && !allowFakeIP { continue; }
        var query := Apply(effective, o);
        if transport.kind.FakeIP? { query := query.(disableCache := true); }
        log := log + [Sent(i, transport, Final(env, query))];
        return Exchanged(transport, env.exchange(i, transport, Final(env, query))), i, log;
      case RejectWith(m) =>
        if m == RejectDefault { return Refused, i, log; }
        if m == RejectDrop { return Dropped, i, log; }
      case AnswerWith(predefined) =>
        return Answered(predefined), i, log;
    }
    log := log + [Sent(|actions|, env.default, Final(env, effective))];
    return Exchanged(env.default, env.exchange(|actions|, env.default, Final(env, effective))), |actions|, log;
  }

  /** `transport` is the server of an evaluate action. */
  ghost predicate EvaluatesWith(env: Env, actions: seq<Option<Action>>, transport: Transport) {
    exists i :: 0 <= i < |actions| && actions[i].Some? && actions[i].value.EvaluateWith?
                && actions[i].value.server in env.transports && env.transports[actions[i].value.server] == transport
  }

  lemma {:induction false} EvaluationsGoToEvaluateServers(env: Env, actions: seq<Option<Action>>, start: QueryOptions,
                                                          i: nat)
    requires i <= |actions|
    ensures forall s :: s in Evaluations(false, env, actions, start, i) ==> EvaluatesWith(env, actions, s.transport)
  {
    if i > 0 { EvaluationsGoToEvaluateServers(env, actions, start, i - 1); }
  }

  /** A query that may not use fakeip servers reaches one only as the default or by an evaluate action. */
  lemma FakeIPOnlyByEvaluate(env: Env, actions: seq<Option<Action>>, start: QueryOptions, k: nat, s: Sent)
    requires FirstDecider(env, actions, start, false, k)
    requires s in Messages(false, env, actions, start, k) && s.transport.kind.FakeIP?
    ensures s.transport == env.default || EvaluatesWith(env, actions, s.transport)
  {
    EvaluationsGoToEvaluateServers(env, actions, start, k);
  }

  // ---------------------------------------------------------------- whether fakeip can be reached

  /** A query that may not use fakeip servers sends a message to one all the same. */
  ghost predicate ReachesFakeIP(env: Env, actions: seq<Option<Action>>, start: QueryOptions) {
    exists k: nat, s :: FirstDecider(env, actions, start, false, k) && s in Messages(false, env, actions, start, k)
                        && s.transport.kind.FakeIP?
  }

  /** The server of evaluate action `i` is fakeip. */
  predicate EvaluatesFakeIPAt(env: Env, actions: seq<Option<Action>>, i: int) {
    && 0 <= i < |actions| && actions[i].Some? && actions[i].value.EvaluateWith?
    && actions[i].value.server in env.transports && env.transports[actions[i].value.server].kind.FakeIP?
  }

  lemma {:induction false} EvaluationsGrow(env: Env, actions: seq<Option<Action>>, start: QueryOptions, i: nat, j: nat)
    requires i <= j <= |actions|
    ensures forall s :: s in Evaluations(false, env, actions, start, i) ==>
              s in Evaluations(false, env, actions, start, j)
  {
    if i < j { EvaluationsGrow(env, actions, start, i, j - 1); }
  }

  /** If at most rule `i` matches and it is an evaluate action, the default server decides. */
  lemma OnlyEvaluateMatches(env: Env, actions: seq<Option<Action>>, start: QueryOptions, i: int)
    requires forall j: int, e :: env.matches(j, e) ==> j == i
    requires 0 <= i < |actions| ==> actions[i].Some? && actions[i].value.EvaluateWith?
    ensures FirstDecider(env, actions, start, false, |actions|)
  {
  }

  /** Some matching makes a query reach a fakeip server exactly when the default server is one or an
      evaluate action names one. */
  lemma FakeIPReachableIff(env: Env, actions: seq<Option<Action>>, start: QueryOptions)
    ensures (exists m: (int, Option<Response>) -> bool :: ReachesFakeIP(env.(matches := m), actions, start)) <==>
            env.default.kind.FakeIP? || exists i :: EvaluatesFakeIPAt(env, actions, i)
  {
    if exists i :: EvaluatesFakeIPAt(env, actions, i) {
      var i :| EvaluatesFakeIPAt(env, actions, i);
      EvaluateReaches(env, actions, start, i);
    } else if env.default.kind.FakeIP? {
      DefaultReaches(env, actions, start);
    } else {
      forall m: (int, Option<Response>) -> bool ensures !ReachesFakeIP(env.(matches := m), actions, start) {
        var env' := env.(matches := m);
        forall k: nat, s | FirstDecider(env', actions, start, false, k) && s in Messages(false, env', actions, start, k)
          ensures !s.transport.kind.FakeIP?
        {
          if s.transport.kind.FakeIP? {
            FakeIPOnlyByEvaluate(env', actions, start, k, s);
            var i :| 0 <= i < |actions| && actions[i].Some? && actions[i].value.EvaluateWith?
                && actions[i].value.server in env'.transports
                && env'.transports[actions[i].value.server] == s.transport;
            assert EvaluatesFakeIPAt(env, actions, i);
          }
        }
      }
    }
  }

  lemma DefaultReaches(env: Env, actions: seq<Option<Action>>, start: QueryOptions)
    requires env.default.kind.FakeIP?
    ensures exists m: (int, Option<Response>) -> bool :: ReachesFakeIP(env.(matches := m), actions, start)
  {
    var m := (j: int, e: Option<Response>) => false;
    var env' := env.(matches := m);
    OnlyEvaluateMatches(env', actions, start, -1);
    var final := FinalMessage(false, env', actions, start, |actions|);
    assert final[0] in Messages(false, env', actions, start, |actions|);
    assert ReachesFakeIP(env.(matches := m), actions, start);
  }

  lemma EvaluateReaches(env: Env, actions: seq<Option<Action>>, start: QueryOptions, i: int)
    requires EvaluatesFakeIPAt(env, actions, i)
    ensures exists m: (int, Option<Response>) -> bool :: ReachesFakeIP(env.(matches := m), actions, start)
  {
    var m := (j: int, e: Option<Response>) => j == i;
    var env' := env.(matches := m);
    OnlyEvaluateMatches(env', actions, start, i);
    var sent := Evaluations(false, env', actions, start, i + 1);
    assert Hit(false, env', actions, start, i);
    var s := sent[|sent| - 1];
    assert s in sent && s.transport == env.transports[actions[i].value.server];
    EvaluationsGrow(env', actions, start, i + 1, |actions|);
    assert s in Messages(false, env', actions, start, |actions|);
    assert ReachesFakeIP(env.(matches := m), actions, start);
  }

  // ---------------------------------------------------------------- what the fold means

  /** The options of the matched route-options rules among the first `i`. */
  function Collected(env: Env, actions: seq<Option<Action>>, start: QueryOptions, i: nat): seq<RouteOptions>
    requires i <= |actions|
  {
    if i == 0 then []
    else
      var earlier := Collected(env, actions, start, i - 1);
      if Hit(false, env, actions, start, i - 1) && actions[i - 1].value.SetOptions?
        then earlier + [actions[i - 1].value.options] else earlier
  }

  /** At every rule the options at hand are exactly the matched route-options before it: evaluate and
      route options never leak to later rules. */
  lemma {:induction false} OptionsAreCollected(env: Env, actions: seq<Option<Action>>, start: QueryOptions, i: nat)
    requires i <= |actions|
    ensures Before(false, env, actions, start, i).options == ApplyAll(start, Collected(env, actions, start, i))
  {
    if i > 0 {
      OptionsAreCollected(env, actions, start, i - 1);
      if Hit(false, env, actions, start, i - 1) && actions[i - 1].value.SetOptions? {
        ApplyAllSnoc(start, Collected(env, actions, start, i - 1), actions[i - 1].value.options);
      }
    }
  }

  lemma ApplyAllSnoc(o: QueryOptions, rs: seq<RouteOptions>, r: RouteOptions)
    ensures ApplyAll(o, rs + [r]) == Apply(ApplyAll(o, rs), r)
  {
    assert (rs + [r])[..|rs|] == rs;
  }

  predicate Evaluates(env: Env, actions: seq<Option<Action>>, start: QueryOptions, i: nat)
    requires i < |actions|
  {
    Hit(false, env, actions, start, i) && actions[i].value.EvaluateWith?
  }

  /** The evaluation at hand is that of the latest matched evaluate rule, if that one succeeded. */
  lemma {:induction false} EvaluationIsLatest(env: Env, actions: seq<Option<Action>>, start: QueryOptions, i: nat,
                                              j: nat)
    requires j < i <= |actions| && Evaluates(env, actions, start, j)
    requires forall m :: j < m < i ==> !Evaluates(env, actions, start, m)
    ensures Before(false, env, actions, start, i).evaluated ==
            EvaluationOf(false, env, j, Before(false, env, actions, start, j), actions[j].value.server,
              actions[j].value.options)
  {
    if j < i - 1 {
      EvaluationIsLatest(env, actions, start, i - 1, j);
      assert !Evaluates(env, actions, start, i - 1);
    }
  }

  lemma {:induction false} NothingEvaluatedYet(env: Env, actions: seq<Option<Action>>, start: QueryOptions, i: nat)
    requires i <= |actions| && forall m :: 0 <= m < i ==> !Evaluates(env, actions, start, m)
    ensures Before(false, env, actions, start, i).evaluated.None?
  {
    if i > 0 {
      NothingEvaluatedYet(env, actions, start, i - 1);
      assert !Evaluates(env, actions, start, i - 1);
    }
  }

  // ---------------------------------------------------------------- what each message carries

  /** The settings that have a value, as opposed to the switches. */
  datatype Setting = TTLSetting | TimeoutSetting | SubnetSetting | StrategySetting

  datatype Value = OfTTL(ttl: Option<nat>) | OfTimeout(timeout: int) | OfSubnet(subnet: Option<string>)
                 | OfStrategy(strategy: DomainStrategy)

  /** The value an action's options set, if they set one. */
  function SetBy(x: Setting, r: RouteOptions): Option<Value> {
    match x
    case TTLSetting => if r.rewriteTTL != None then Some(OfTTL(r.rewriteTTL)) else None
    case TimeoutSetting => if r.timeout > 0 then Some(OfTimeout(r.timeout)) else None
    case SubnetSetting => if r.clientSubnet != None then Some(OfSubnet(r.clientSubnet)) else None
    case StrategySetting => if r.strategy != AsIS then Some(OfStrategy(r.strategy)) else None
  }

  function ValueIn(x: Setting, o: QueryOptions): Value {
    match x
    case TTLSetting => OfTTL(o.rewriteTTL)
    case TimeoutSetting => OfTimeout(o.timeout)
    case SubnetSetting => OfSubnet(o.clientSubnet)
    case StrategySetting => OfStrategy(o.strategy)
  }

  /** Rule `i` is a matched route-options rule. */
  predicate SetsOptions(env: Env, actions: seq<Option<Action>>, start: QueryOptions, i: nat)
    requires i < |actions|
  {
    Hit(false, env, actions, start, i) && actions[i].value.SetOptions?
  }

  /** Looking back from rule `i`: the value set by the nearest matched route-options rule that sets it. */
  function LatestSet(env: Env, actions: seq<Option<Action>>, start: QueryOptions, x: Setting, i: nat): Option<Value>
    requires i <= |actions|
  {
    if i == 0 then None
    else if SetsOptions(env, actions, start, i - 1) && SetBy(x, actions[i - 1].value.options).Some? then
      SetBy(x, actions[i - 1].value.options)
    else LatestSet(env, actions, start, x, i - 1)
  }

  function OrElse(v: Option<Value>, otherwise: Value): Value { if v.Some? then v.value else otherwise }

  /** What is at hand at rule `i`: of each setting but the strategy the latest value, else the query's own;
      a switch iff the query or a matched route-options rule turned it on; the query's strategies. */
  lemma {:induction false} AtHand(env: Env, actions: seq<Option<Action>>, start: QueryOptions, i: nat)
    requires i <= |actions|
    ensures var o := Before(false, env, actions, start, i).options;
            && (forall x: Setting :: x != StrategySetting ==>
                  ValueIn(x, o) == OrElse(LatestSet(env, actions, start, x, i), ValueIn(x, start)))
            && o.strategy == start.strategy && o.lookupStrategy == start.lookupStrategy
            && (o.disableCache <==>
                  || start.disableCache
                  || exists j :: 0 <= j < i && SetsOptions(env, actions, start, j)
                                 && actions[j].value.options.disableCache)
            && (o.disableOptimisticCache <==>
                  || start.disableOptimisticCache
                  || exists j :: 0 <= j < i && SetsOptions(env, actions, start, j)
                                 && actions[j].value.options.disableOptimisticCache)
  {
    if i > 0 { AtHand(env, actions, start, i - 1); }
  }

  /** The options of the rule a message was sent for; the final exchange has none. */
  function OwnOptions(actions: seq<Option<Action>>, i: int): Option<RouteOptions> {
    if 0 <= i < |actions| && actions[i].Some? then OptionsIn(actions[i].value) else None
  }

  /** The message carries its rule's own settings, else the latest collected, else the query's own; is not
      cached iff the query, a matched route-options rule, its rule, or routing to a fakeip server says
      so; and has the query's strategy or the router's default. */
  ghost predicate Carries(env: Env, actions: seq<Option<Action>>, start: QueryOptions, s: Sent) {
    && 0 <= s.rule <= |actions|
    && var own, o := OwnOptions(actions, s.rule), s.options;
    && (s.rule < |actions| ==> own.Some?)
    && (forall x: Setting :: x != StrategySetting ==>
          ValueIn(x, o) == OrElse(if own.Some? then SetBy(x, own.value) else None,
                             OrElse(LatestSet(env, actions, start, x, s.rule), ValueIn(x, start))))
    && o.strategy == (if start.strategy != AsIS then start.strategy else env.defaultStrategy)
    && o.lookupStrategy == start.lookupStrategy
    && (o.disableCache <==>
          || start.disableCache || (own.Some? && own.value.disableCache)
          || (s.rule < |actions| && actions[s.rule].value.RouteTo? && s.transport.kind.FakeIP?)
          || exists j :: 0 <= j < s.rule && SetsOptions(env, actions, start, j)
                         && actions[j].value.options.disableCache)
    && (o.disableOptimisticCache <==>
          || start.disableOptimisticCache || (own.Some? && own.value.disableOptimisticCache)
          || exists j :: 0 <= j < s.rule && SetsOptions(env, actions, start, j)
                         && actions[j].value.options.disableOptimisticCache)
  }

  /** The message goes where its rule says. */
  ghost predicate GoesTo(env: Env, actions: seq<Option<Action>>, s: Sent) {
    if s.rule == |actions| then s.transport == env.default
    else
      && 0 <= s.rule < |actions| && actions[s.rule].Some?
      && (actions[s.rule].value.RouteTo? || actions[s.rule].value.EvaluateWith?)
      && actions[s.rule].value.server in env.transports && s.transport == env.transports[actions[s.rule].value.server]
  }

  lemma {:induction false} EvaluationsCarry(env: Env, actions: seq<Option<Action>>, start: QueryOptions, i: nat)
    requires i <= |actions|
    ensures forall s :: s in Evaluations(false, env, actions, start, i) ==>
              s.rule < i && Carries(env, actions, start, s) && GoesTo(env, actions, s)
  {
    if i > 0 {
      EvaluationsCarry(env, actions, start, i - 1);
      AtHand(env, actions, start, i - 1);
    }
  }

  lemma FinalMessageCarries(env: Env, actions: seq<Option<Action>>, start: QueryOptions, allowFakeIP: bool, k: nat)
    requires FirstDecider(env, actions, start, allowFakeIP, k)
    ensures forall s :: s in FinalMessage(false, env, actions, start, k) ==>
              s.rule == k && Carries(env, actions, start, s) && GoesTo(env, actions, s)
  {
    AtHand(env, actions, start, k);
  }

  /** Every message of a query goes where its rule says and carries what its rule, the matched
      route-options rules before it and the query say. */
  lemma MessagesCarry(env: Env, actions: seq<Option<Action>>, start: QueryOptions, allowFakeIP: bool, k: nat, s: Sent)
    requires FirstDecider(env, actions, start, allowFakeIP, k) && s in Messages(false, env, actions, start, k)
    ensures Carries(env, actions, start, s) && GoesTo(env, actions, s)
  {
    EvaluationsCarry(env, actions, start, k);
    FinalMessageCarries(env, actions, start, allowFakeIP, k);
  }

  // ---------------------------------------------------------------- what decides, and how

  /** Rule `i` is looked at with the response of the latest matched evaluate rule `j` before it. */
  lemma MatchSees(env: Env, actions: seq<Option<Action>>, start: QueryOptions, i: nat, j: nat)
    requires j < i < |actions| && Evaluates(env, actions, start, j)
    requires forall m :: j < m < i ==> !Evaluates(env, actions, start, m)
    ensures actions[j].value.server !in env.transports ==>
              (Hit(false, env, actions, start, i) <==> actions[i].Some? && env.matches(i, None))
    ensures actions[j].value.server in env.transports ==>
              exists s: Sent :: && s.rule == j && Carries(env, actions, start, s) && GoesTo(env, actions, s)
                          && (Hit(false, env, actions, start, i) <==>
                                actions[i].Some? && env.matches(i, env.exchange(j, s.transport, s.options)))
  {
    EvaluationIsLatest(env, actions, start, i, j);
    if actions[j].value.server in env.transports {
      EvaluationsCarry(env, actions, start, j + 1);
      var sent := Evaluations(false, env, actions, start, j + 1);
      var s := sent[|sent| - 1];
      assert s in sent && s.rule == j;
    }
  }

  /** Before the first matched evaluate rule there is no response to look at. */
  lemma MatchSeesNothing(env: Env, actions: seq<Option<Action>>, start: QueryOptions, i: nat)
    requires i < |actions| && forall m :: 0 <= m < i ==> !Evaluates(env, actions, start, m)
    ensures Hit(false, env, actions, start, i) <==> actions[i].Some? && env.matches(i, None)
  {
    NothingEvaluatedYet(env, actions, start, i);
  }

  /** The matched actions that end a query: a route to a known server that may be used, respond, a
      predefined answer, and the two ways to reject. */
  ghost predicate EndsQuery(env: Env, a: Action, allowFakeIP: bool) {
    || (a.RouteTo? && a.server in env.transports && (allowFakeIP || env.transports[a.server].kind == OtherServer))
    || a.ReturnEvaluated? || a.AnswerWith? || a == RejectWith(RejectDefault) || a == RejectWith(RejectDrop)
  }

  /** The first matched action that ends a query ends it, and what comes of it. */
  lemma DecidedByFirst(env: Env, actions: seq<Option<Action>>, start: QueryOptions, allowFakeIP: bool, k: nat)
    requires FirstDecider(env, actions, start, allowFakeIP, k)
    ensures forall i :: 0 <= i < k && Hit(false, env, actions, start, i) ==>
              !EndsQuery(env, actions[i].value, allowFakeIP)
    ensures k < |actions| ==> Hit(false, env, actions, start, k) && EndsQuery(env, actions[k].value, allowFakeIP)
    ensures var outcome := Decision(false, env, actions, start, k);
            if k == |actions| || actions[k].value.RouteTo? then
              var messages := Messages(false, env, actions, start, k);
              && messages != []
              && var s := messages[|messages| - 1];
                 s.rule == k && outcome == Exchanged(s.transport, env.exchange(k, s.transport, s.options))
            else
              && (actions[k].value == RejectWith(RejectDefault) ==> outcome == Refused)
              && (actions[k].value == RejectWith(RejectDrop) ==> outcome == Dropped)
              && (actions[k].value.AnswerWith? ==> outcome == Answered(actions[k].value.predefined))
              && (actions[k].value.ReturnEvaluated? ==>
                    outcome == match Before(false, env, actions, start, k).evaluated
                               case None => NothingEvaluated
                               case Some(e) => Responded(e))
  {
  }

  /** A respond rule returns what the latest matched evaluate rule `j` before it received, and from
      whom; it fails if that one received nothing. */
  lemma RespondedIsLatest(env: Env, actions: seq<Option<Action>>, start: QueryOptions, allowFakeIP: bool, k: nat,
                          j: nat)
    requires FirstDecider(env, actions, start, allowFakeIP, k)
    requires k < |actions| && actions[k].value.ReturnEvaluated? && j < k && Evaluates(env, actions, start, j)
    requires forall m :: j < m < k ==> !Evaluates(env, actions, start, m)
    ensures var outcome := Decision(false, env, actions, start, k);
            if actions[j].value.server !in env.transports then outcome == NothingEvaluated
            else
              exists s: Sent :: && s.rule == j && Carries(env, actions, start, s) && GoesTo(env, actions, s)
                          && outcome == match env.exchange(j, s.transport, s.options)
                                        case None => NothingEvaluated
                                        case Some(r) => Responded(Evaluation(r, s.transport))
  {
    EvaluationIsLatest(env, actions, start, k, j);
    if actions[j].value.server in env.transports {
      EvaluationsCarry(env, actions, start, j + 1);
      var sent := Evaluations(false, env, actions, start, j + 1);
      var s := sent[|sent| - 1];
      assert s in sent && s.rule == j;
    }
  }

  /** Without a matched evaluate rule before it there is nothing to return. */
  lemma NothingToRespond(env: Env, actions: seq<Option<Action>>, start: QueryOptions, allowFakeIP: bool, k: nat)
    requires FirstDecider(env, actions, start, allowFakeIP, k)
    requires k < |actions| && actions[k].value.ReturnEvaluated?
    requires forall m :: 0 <= m < k ==> !Evaluates(env, actions, start, m)
    ensures Decision(false, env, actions, start, k) == NothingEvaluated
  {
    NothingEvaluatedYet(env, actions, start, k);
  }

  // ---------------------------------------------------------------- ignoring the strategy

  function OptionsIn(a: Action): Option<RouteOptions> {
    match a
    case RouteTo(_, o) => Some(o)
    case EvaluateWith(_, o) => Some(o)
    case SetOptions(o) => Some(o)
    case _ => None
  }

  /** A built rule does what it was configured to do, with the server and the options it was configured
      with; one without an action does nothing. */
  lemma ActionsAsConfigured(rules: seq<DNSRule>, i: nat)
    requires i < |rules|
    ensures Actions(rules)[i].None? <==> ActionOf(rules[i]).None? || ActionOf(rules[i]).value.kind == Unset
    ensures Actions(rules)[i].Some? ==>
              var configured, built := ActionOf(rules[i]).value, Actions(rules)[i].value;
              && OptionsIn(built) == OptionsOf(configured)
              && (configured.kind == Route <==> built.RouteTo?)
              && (built.RouteTo? ==> built.server == configured.server)
              && (configured.kind == Evaluate <==> built.EvaluateWith?)
              && (built.EvaluateWith? ==> built.server == configured.server)
              && (configured.kind == Respond <==> built.ReturnEvaluated?)
              && (configured.kind == OptionsOnly <==> built.SetOptions?)
              && (configured.kind == Reject <==> built == RejectWith(configured.rejectMethod))
              && (configured.kind == Predefined <==> built == AnswerWith(configured.predefined))
  {
  }

  ghost predicate NoStrategy(actions: seq<Option<Action>>) {
    forall i :: 0 <= i < |actions| && actions[i].Some? && OptionsIn(actions[i].value).Some? ==>
      OptionsIn(actions[i].value).value.strategy == AsIS
  }

  lemma TopLevelAreNodes(rules: seq<DNSRule>, i: nat)
    requires i < |rules|
    ensures rules[i] in NodesOf(rules)
  {
    assert rules[i] in Nodes(rules[i]);
  }

  lemma NewModeActionsHaveNoStrategy(rules: seq<DNSRule>, ruleSets: RuleSets)
    requires Resolve(rules, ruleSets).Ok? && !Resolve(rules, ruleSets).value.legacy
    ensures NoStrategy(Actions(rules))
  {
    NewModeHasNoStrategy(rules, ruleSets);
    forall i | 0 <= i < |rules| && Actions(rules)[i].Some? && OptionsIn(Actions(rules)[i].value).Some?
      ensures OptionsIn(Actions(rules)[i].value).value.strategy == AsIS
    {
      TopLevelAreNodes(rules, i);
    }
  }

  lemma {:induction false} SameProgress(env: Env, actions: seq<Option<Action>>, start: QueryOptions, i: nat)
    requires NoStrategy(actions) && i <= |actions|
    ensures Before(true, env, actions, start, i) == Before(false, env, actions, start, i)
    ensures Evaluations(true, env, actions, start, i) == Evaluations(false, env, actions, start, i)
  {
    if i > 0 {
      SameProgress(env, actions, start, i - 1);
      assert actions[i - 1].Some? && OptionsIn(actions[i - 1].value).Some? ==>
          OptionsIn(actions[i - 1].value).value.strategy == AsIS;
    }
  }

  /** Rules resolved to the new mode mean the same to the interpreter that skips the strategy and to
      one that honours it, for every query: same deciding rule, same outcome, same messages with the
      same options. */
  lemma SkippingStrategyLosesNothing(rules: seq<DNSRule>, ruleSets: RuleSets, env: Env, start: QueryOptions,
                                     allowFakeIP: bool, k: nat)
    requires Resolve(rules, ruleSets).Ok? && !Resolve(rules, ruleSets).value.legacy
    requires k <= |rules|
    ensures var actions := Actions(rules);
            && Before(true, env, actions, start, k) == Before(false, env, actions, start, k)
            && (k < |rules| ==>
                  (Decides(true, env, actions, start, allowFakeIP, k) <==>
                   Decides(false, env, actions, start, allowFakeIP, k)))
            && ((k < |rules| ==> Decides(false, env, actions, start, allowFakeIP, k)) ==>
                  && (k < |rules| ==> Decides(true, env, actions, start, allowFakeIP, k))
                  && Decision(true, env, actions, start, k) == Decision(false, env, actions, start, k)
                  && Messages(true, env, actions, start, k) == Messages(false, env, actions, start, k))
  {
    var actions := Actions(rules);
    NewModeActionsHaveNoStrategy(rules, ruleSets);
    SameProgress(env, actions, start, k);
    if k < |rules| && actions[k].Some? && actions[k].value.RouteTo? {
      assert OptionsIn(actions[k].value).value.strategy == AsIS;
    }
  }
}
