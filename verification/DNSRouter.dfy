/** The DNS router: building rules at start, freezing the mode, and rule-driven lookups and
    exchanges in whichever mode was chosen. */
module DNSRouter {
  import opened Prelude
  import opened DNSRules
  import opened TransportManagers
  import opened DNSInterpreter
  import opened DNSLegacy
  import DNSModeRuns

  // ---------------------------------------------------------------- building

  /** Only top-level rules may carry an action. */
  predicate NoNestedActions(rule: DNSRule, nested: bool) {
    && (nested && !rule.Other? ==> ConfiguredAction(rule) == NO_ACTION)
    && (rule.Logical? ==> forall i :: 0 <= i < |rule.rules| ==> NoNestedActions(rule.rules[i], true))
  }

  predicate ActionBuilds(a: RuleAction, topLevel: bool) {
    && (a.kind == Evaluate ==> topLevel)
    && !(a.kind == Reject && a.rejectMethod == RejectReply)
    && (a.kind in {Unset, Route, Evaluate} && topLevel ==> a.server != "")
  }

  predicate RuleBuilds(rule: DNSRule, topLevel: bool) {
    match rule
    case Default(r) => ActionBuilds(r.action, topLevel) && (r.ipVersion <= 0 || r.ipVersion in {4, 6})
    case Logical(rules, a) => ActionBuilds(a, topLevel) && forall i :: 0 <= i < |rules| ==> RuleBuilds(rules[i], false)
    case Other => false
  }

  function EvaluateServer(rule: DNSRule): string {
    if rule.Other? then "" else ConfiguredAction(rule).server
  }

  predicate EvaluatesFakeIP(rule: DNSRule, transports: map<string, Transport>) {
    && ActionTypeOf(rule) == Evaluate
    && EvaluateServer(rule) != ""
    && EvaluateServer(rule) in transports
    && transports[EvaluateServer(rule)].kind.FakeIP?
  }

  /** The rules can be built and started. `parses` stands for what depends on conditions the model
      does not have: that there are any, that they parse in the chosen mode, a known logical mode,
      and the start of the rule. */
  ghost predicate Buildable(rules: seq<DNSRule>, ruleSets: RuleSets, transports: map<string, Transport>,
                            parses: (DNSRule, bool) -> bool) {
    && (forall i :: 0 <= i < |rules| ==> NoNestedActions(rules[i], false))
    && Resolve(rules, ruleSets).Ok?
    && (Resolve(rules, ruleSets).value.legacy || ValidInNewMode(rules, ruleSets))
    && (forall i :: 0 <= i < |rules| ==> !EvaluatesFakeIP(rules[i], transports))
    && (forall i :: 0 <= i < |rules| ==> RuleBuilds(rules[i], true))
    && (forall i :: 0 <= i < |rules| ==> parses(rules[i], Resolve(rules, ruleSets).value.legacy))
  }

  /** All nodes below the top level. */
  ghost function Inner(rules: seq<DNSRule>): set<DNSRule> {
    set i, n | 0 <= i < |rules| && rules[i].Logical? && n in NodesOf(rules[i].rules) :: n
  }

  predicate KnownIPVersion(n: DNSRule) {
    n.Default? ==> n.rule.ipVersion <= 0 || n.rule.ipVersion == 4 || n.rule.ipVersion == 6
  }

  /** A top-level rule's action does not reject with a reply, names a server if it needs one, and does
      not evaluate with a fakeip server. */
  predicate ActionFits(a: RuleAction, transports: map<string, Transport>) {
    && !(a.kind == Reject && a.rejectMethod == RejectReply)
    && (a.kind == Unset || a.kind == Route || a.kind == Evaluate ==> a.server != "")
    && (a.kind == Evaluate && a.server in transports ==> transports[a.server].kind == OtherServer)
  }

  /** None of the nodes has an action, or an IP version other than 4 and 6. */
  ghost predicate Bare(nodes: set<DNSRule>) {
    forall n :: n in nodes ==> ActionOf(n) == Some(NO_ACTION) && KnownIPVersion(n)
  }

  lemma {:induction false} NestedBuilds(rule: DNSRule)
    ensures NoNestedActions(rule, true) && RuleBuilds(rule, false) <==> Bare(Nodes(rule))
    decreases rule
  {
    assert rule in Nodes(rule);
    if rule.Logical? {
      forall i | 0 <= i < |rule.rules|
        ensures NoNestedActions(rule.rules[i], true) && RuleBuilds(rule.rules[i], false) <==> Bare(Nodes(rule.rules[i]))
        ensures Nodes(rule.rules[i]) <= Nodes(rule)
      {
        NestedBuilds(rule.rules[i]);
      }
    }
  }

  lemma TopLevelBuilds(rule: DNSRule, transports: map<string, Transport>)
    ensures NoNestedActions(rule, false) && RuleBuilds(rule, true) && !EvaluatesFakeIP(rule, transports) <==>
            && ActionOf(rule).Some? && ActionFits(ActionOf(rule).value, transports) && KnownIPVersion(rule)
            && (rule.Logical? ==> Bare(NodesOf(rule.rules)))
  {
    if rule.Logical? {
      forall i | 0 <= i < |rule.rules|
        ensures NoNestedActions(rule.rules[i], true) && RuleBuilds(rule.rules[i], false) <==> Bare(Nodes(rule.rules[i]))
        ensures Nodes(rule.rules[i]) <= NodesOf(rule.rules)
      {
        NestedBuilds(rule.rules[i]);
      }
    }
  }

  /** The rules build exactly when their mode can be settled and admits them, every top-level rule has an
      action that fits, no node below has one, every IP version is 4 or 6, and the rest parses. */
  lemma BuildableInFields(rules: seq<DNSRule>, ruleSets: RuleSets, transports: map<string, Transport>,
                          parses: (DNSRule, bool) -> bool)
    ensures Buildable(rules, ruleSets, transports, parses) <==>
            && Resolve(rules, ruleSets).Ok?
            && (Resolve(rules, ruleSets).value.legacy || ValidInNewMode(rules, ruleSets))
            && (forall i :: 0 <= i < |rules| ==>
                  ActionOf(rules[i]).Some? && ActionFits(ActionOf(rules[i]).value, transports))
            && Bare(Inner(rules))
            && (forall i :: 0 <= i < |rules| ==> KnownIPVersion(rules[i]))
            && (forall i :: 0 <= i < |rules| ==> parses(rules[i], Resolve(rules, ruleSets).value.legacy))
  {
    forall i | 0 <= i < |rules|
      ensures NoNestedActions(rules[i], false) && RuleBuilds(rules[i], true) && !EvaluatesFakeIP(rules[i], transports)
          <==> && ActionOf(rules[i]).Some? && ActionFits(ActionOf(rules[i]).value, transports)
               && KnownIPVersion(rules[i]) && (rules[i].Logical? ==> Bare(NodesOf(rules[i].rules)))
    {
      TopLevelBuilds(rules[i], transports);
    }
  }

  datatype Built = Built(actions: seq<Option<Action>>, legacy: bool)

  method BuildRules(rules: seq<DNSRule>, ruleSets: RuleSets, transports: map<string, Transport>,
                    parses: (DNSRule, bool) -> bool)
    returns (built: Option<Built>)
    ensures built.Some? <==> Buildable(rules, ruleSets, transports, parses)
    ensures built.Some? ==> built.value == Built(Actions(rules), Resolve(rules, ruleSets).value.legacy)
  {
    for i := 0 to |rules|
      invariant forall k :: 0 <= k < i ==> NoNestedActions(rules[k], false)
    {
      if !NoNestedActions(rules[i], false) { return None; }
    }
    var mode := ResolveLegacyDNSMode(rules, ruleSets);
    if mode.Err? { return None; }
    if !mode.value.legacy {
      var valid := ValidateLegacyDNSModeDisabledRules(rules, ruleSets);
      if !valid { return None; }
    }
    for i := 0 to |rules|
      invariant forall k :: 0 <= k < i ==> !EvaluatesFakeIP(rules[k], transports)
    {
      if EvaluatesFakeIP(rules[i], transports) { return None; }
    }
    var actions := [];
    for i := 0 to |rules|
      invariant actions == Actions(rules)[..i]
      invariant forall k :: 0 <= k < i ==> RuleBuilds(rules[k], true) && parses(rules[k], mode.value.legacy)
    {
      if !RuleBuilds(rules[i], true) || !parses(rules[i], mode.value.legacy) { return None; }
      actions := actions + [NewDNSRuleAction(ConfiguredAction(rules[i]))];
    }
    built := Some(Built(actions, mode.value.legacy));
  }

  /** No built evaluate action reaches a fakeip transport. */
  ghost predicate EvaluatesSafely(actions: seq<Option<Action>>, transports: map<string, Transport>) {
    forall i :: 0 <= i < |actions| && actions[i].Some? && actions[i].value.EvaluateWith? ==>
      var server := actions[i].value.server;
      server in transports ==> !transports[server].kind.FakeIP?
  }

  ghost predicate NoReply(actions: seq<Option<Action>>) {
    forall i :: 0 <= i < |actions| ==> actions[i] != Some(RejectWith(RejectReply))
  }

  lemma BuiltActions(rules: seq<DNSRule>, ruleSets: RuleSets, transports: map<string, Transport>,
                     parses: (DNSRule, bool) -> bool)
    requires Buildable(rules, ruleSets, transports, parses)
    ensures EvaluatesSafely(Actions(rules), transports) && NoReply(Actions(rules))
  {
    forall i | 0 <= i < |rules|
      ensures Actions(rules)[i] != Some(RejectWith(RejectReply))
      ensures var a := Actions(rules)[i];
              a.Some? && a.value.EvaluateWith? && a.value.server in transports ==>
                !transports[a.value.server].kind.FakeIP?
    {
      assert RuleBuilds(rules[i], true) && !EvaluatesFakeIP(rules[i], transports);
    }
  }

  // ---------------------------------------------------------------- the router

  /** One query through the rules: its outcome and every transport a message was sent to. */
  datatype Asked = Asked(outcome: Outcome, used: seq<Transport>)

  function Receivers(log: seq<Sent>): (r: seq<Transport>)
    ensures |r| == |log| && forall i :: 0 <= i < |log| ==> r[i] == log[i].transport
  {
    seq(|log|, i requires 0 <= i < |log| => log[i].transport)
  }

  lemma ReceiversAreOf(log: seq<Sent>)
    ensures forall t :: t in Receivers(log) <==> exists s :: s in log && s.transport == t
  {
    forall s | s in log ensures s.transport in Receivers(log) {
      var i :| 0 <= i < |log| && log[i] == s;
      assert Receivers(log)[i] == s.transport;
    }
  }

  /** The rules decide the query this way in the new mode. */
  ghost predicate Decided(env: Env, actions: seq<Option<Action>>, options: QueryOptions, allowFakeIP: bool,
                          asked: Asked) {
    exists k ::
      && FirstDecider(env, actions, options, allowFakeIP, k)
      && asked.outcome == Decision(false, env, actions, options, k)
      && asked.used == Receivers(Messages(false, env, actions, options, k))
  }

  datatype QueryResult =
    | FormatError
    | RouterClosed
    | ByRules(asked: Asked)
    | ByScan(scanned: LegacyOutcome, log: seq<Attempt>)

  datatype LookupResult =
    | LookupClosed
    | LookedUp(a: Option<Asked>, aaaa: Option<Asked>)
    | LookupScanned(scanned: LegacyOutcome, log: seq<Attempt>)
  {
    /** Every transport a message of the lookup was sent to. */
    ghost function Used(): set<Transport> {
      match this
      case LookupClosed => {}
      case LookedUp(a, aaaa) =>
        (if a.Some? then set t | t in a.value.used else {}) + (if aaaa.Some? then set t | t in aaaa.value.used else {})
      case LookupScanned(_, log) => set i | 0 <= i < |log| :: log[i].transport
    }
  }

  class Router {
    const rawRules: seq<DNSRule>
    const defaultStrategy: DomainStrategy
    var rules: seq<Option<Action>>
    var legacyDNSMode: bool
    var started: bool
    var closing: bool
    ghost var builtFor: map<string, Transport>  // the transports at the time of Start

    ghost predicate Valid()
      reads this
    {
      && (started && !closing ==> rules == Actions(rawRules) && EvaluatesSafely(rules, builtFor) && NoReply(rules))
      && (!started || closing ==> rules == [])
      && (legacyDNSMode ==> started)
    }

    /** The router as the rule-set validator sees it. */
    ghost function Mode(ruleSets: RuleSets): DNSModeRuns.Router
      reads this
    {
      DNSModeRuns.Router(rawRules, ruleSets, started, closing, legacyDNSMode)
    }

    constructor (rules: seq<DNSRule>, defaultStrategy: DomainStrategy)
      ensures Valid() && !started && !closing && rawRules == rules && this.defaultStrategy == defaultStrategy
    {
      rawRules, this.defaultStrategy := rules, defaultStrategy;
      this.rules, legacyDNSMode, started, closing, builtFor := [], false, false, false, map[];
    }

    /** Builds the rules and freezes the mode. A router closed meanwhile throws the rules away. */
    method Start(ruleSets: RuleSets, transports: map<string, Transport>, parses: (DNSRule, bool) -> bool)
      returns (ok: bool)
      requires Valid()
      modifies this
      ensures Valid() && closing == old(closing)
      ensures ok <==> Buildable(rawRules, ruleSets, transports, parses)
      ensures ok && !closing ==>
                && started && builtFor == transports
                && legacyDNSMode == Resolve(rawRules, ruleSets).value.legacy
                && DNSModeRuns.ModeFits(Mode(ruleSets))
      ensures !ok || closing ==> started == old(started) && rules == old(rules) && legacyDNSMode == old(legacyDNSMode)
    {
      var built := BuildRules(rawRules, ruleSets, transports, parses);
      if built.None? { return false; }
      BuiltActions(rawRules, ruleSets, transports, parses);
      if closing { return true; }
      rules, legacyDNSMode, started, builtFor := built.value.actions, built.value.legacy, true, transports;
      if legacyDNSMode { LegacyModeHasNoNewFeature(rawRules, ruleSets); }
      ok := true;
    }

    method Close()
      requires Valid()
      modifies this
      ensures Valid() && closing && rules == [] && started == old(started) && legacyDNSMode == old(legacyDNSMode)
    {
      if closing { return; }
      closing, rules := true, [];
    }

    /** What a query meets, given the transports there are now. */
    function NewEnv(manager: Manager, env: Env): Env
      requires manager.defaultTransport.Some?
      reads manager
    {
      env.(transports := manager.transportByTag, default := manager.defaultTransport.value,
        defaultStrategy := defaultStrategy)
    }

    function ScanEnv(manager: Manager, env: LegacyEnv): LegacyEnv
      requires manager.defaultTransport.Some?
      reads manager
    {
      env.(transports := manager.transportByTag, default := manager.defaultTransport.value,
        defaultStrategy := defaultStrategy)
    }

    /** A rule-driven exchange in whichever mode was chosen. It stops after at most one attempt per
        rule and one more, and never lacks a transport to send to. */
    method Exchange(questions: nat, manager: Manager, options: QueryOptions, addressQuery: bool, env: Env,
                    legacy: LegacyEnv)
      returns (result: QueryResult)
      requires Valid() && manager.defaultTransport.Some?
      ensures result.FormatError? <==> questions != 1
      ensures result.RouterClosed? <==> questions == 1 && closing
      ensures result.ByRules? ==> !legacyDNSMode && Decided(NewEnv(manager, env), rules, options, true, result.asked)
      ensures result.ByScan? ==>
                && legacyDNSMode && |result.log| <= |rawRules| + 1 && !result.scanned.NilTransport?
                && GoodLog(ScanEnv(manager, legacy), rules, false, addressQuery, options, result.log)
                && OutcomeExplained(ScanEnv(manager, legacy), rules, false, addressQuery, result.log, result.scanned)
    {
      if questions != 1 { return FormatError; }
      if closing { return RouterClosed; }
      if !legacyDNSMode {
        var outcome, decidedBy, log := ExchangeWithRules(NewEnv(manager, env), rules, options, true);
        return ByRules(Asked(outcome, Receivers(log)));
      }
      var outcome, log := LegacyQuery(ScanEnv(manager, legacy), rules, options, false, addressQuery);
      if outcome.NilTransport? { NilTransportNeedsReply(ScanEnv(manager, legacy), rules, false, addressQuery, log); }
      return ByScan(outcome, log);
    }

    function ResolveLookupStrategy(options: QueryOptions): DomainStrategy {
      if options.lookupStrategy != AsIS then options.lookupStrategy
      else if options.strategy != AsIS then options.strategy
      else defaultStrategy
    }

    /** The options of the address queries of a lookup. */
    function LookupOptions(options: QueryOptions): QueryOptions {
      var strategy := ResolveLookupStrategy(options);
      if strategy != AsIS then options.(strategy := strategy) else options
    }

    /** A lookup goes by strategy `s`: its own lookup strategy, else its strategy, else the router's. */
    predicate GoesBy(options: QueryOptions, s: DomainStrategy) {
      || options.lookupStrategy == s != AsIS
      || (options.lookupStrategy == AsIS && options.strategy == s != AsIS)
      || (options.lookupStrategy == AsIS && options.strategy == AsIS && defaultStrategy == s)
    }

    /** Every message of a lookup carries the strategy the lookup goes by; its other options are those
        that `Carries` gives for the options of the caller. */
    lemma LookupCarries(manager: Manager, options: QueryOptions, env: Env, k: nat, s: Sent)
      requires manager.defaultTransport.Some?
      requires var e, o := NewEnv(manager, env), LookupOptions(options);
               FirstDecider(e, rules, o, false, k) && s in Messages(false, e, rules, o, k)
      ensures GoesBy(options, s.options.strategy)
      ensures Carries(NewEnv(manager, env), rules, LookupOptions(options), s) && GoesTo(NewEnv(manager, env), rules, s)
      ensures LookupOptions(options).(strategy := options.strategy) == options
    {
      MessagesCarry(NewEnv(manager, env), rules, LookupOptions(options), false, k, s);
    }

    /** `t` is the server of an evaluate action, put in place after the rules were built. */
    ghost predicate ReplacedSinceStart(manager: Manager, t: Transport)
      reads this, manager
    {
      exists i :: 0 <= i < |rules| && rules[i].Some? && rules[i].value.EvaluateWith?
                  && var server := rules[i].value.server;
                     server in manager.transportByTag && manager.transportByTag[server] == t
                     && !(server in builtFor && builtFor[server] == t)
    }

    /** A rule-driven lookup: address queries through the rules, one per address family the strategy
        asks for. The environments say what the A query, the AAAA query and the legacy attempts
        meet. A fakeip server is reached only as the default or if it took the place of an
        evaluate server after Start. */
    method Lookup(manager: Manager, options: QueryOptions, env4: Env, env6: Env, legacy: LegacyEnv)
      returns (result: LookupResult)
      requires Valid() && manager.defaultTransport.Some?
      ensures result.LookupClosed? <==> closing
      ensures result.LookupScanned? <==> !closing && legacyDNSMode
      ensures result.LookedUp? ==>
                && (result.a.None? <==> GoesBy(options, IPv6Only))
                && (result.aaaa.None? <==> GoesBy(options, IPv4Only))
                && (result.a.Some? ==> Decided(NewEnv(manager, env4), rules, LookupOptions(options), false,
                    result.a.value))
                && (result.aaaa.Some? ==> Decided(NewEnv(manager, env6), rules, LookupOptions(options), false,
                    result.aaaa.value))
      ensures result.LookupScanned? ==>
                && GoodLog(ScanEnv(manager, legacy), rules, true, true, options, result.log)
                && OutcomeExplained(ScanEnv(manager, legacy), rules, true, true, result.log, result.scanned)
      ensures forall t :: t in result.Used() && t.kind.FakeIP? ==>
                t == manager.defaultTransport.value || (!legacyDNSMode && ReplacedSinceStart(manager, t))
      // With a safe default and the servers of Start, no lookup in either mode uses a fakeip server.
      ensures manager.DefaultSafe() && manager.transportByTag == builtFor ==>
                forall t :: t in result.Used() ==> !t.kind.FakeIP?
    {
      if closing { return LookupClosed; }
      if legacyDNSMode {
        result := LookupByScan(manager, options, legacy);
        return;
      }
      var strategy := ResolveLookupStrategy(options);
      var a, aaaa: Option<Asked> := None, None;
      if strategy != IPv6Only {
        var asked := LookupType(manager, LookupOptions(options), env4);
        a := Some(asked);
      }
      if strategy != IPv4Only {
        var asked := LookupType(manager, LookupOptions(options), env6);
        aaaa := Some(asked);
      }
      result := LookedUp(a, aaaa);
    }

    method LookupType(manager: Manager, options: QueryOptions, env: Env) returns (asked: Asked)
      requires Valid() && !closing && manager.defaultTransport.Some?
      ensures Decided(NewEnv(manager, env), rules, options, false, asked)
      ensures forall t :: t in asked.used && t.kind.FakeIP? ==>
                t == manager.defaultTransport.value || ReplacedSinceStart(manager, t)
    {
      var outcome, decidedBy, log := ExchangeWithRules(NewEnv(manager, env), rules, options, false);
      asked := Asked(outcome, Receivers(log));
      forall i | 0 <= i < |log| && log[i].transport.kind.FakeIP?
        ensures log[i].transport == manager.defaultTransport.value || ReplacedSinceStart(manager, log[i].transport)
      {
        FakeIPOnlyByEvaluate(NewEnv(manager, env), rules, options, decidedBy, log[i]);
      }
    }

    method LookupByScan(manager: Manager, options: QueryOptions, legacy: LegacyEnv) returns (result: LookupResult)
      requires Valid() && !closing && manager.defaultTransport.Some?
      ensures result.LookupScanned?
      ensures GoodLog(ScanEnv(manager, legacy), rules, true, true, options, result.log)
      ensures OutcomeExplained(ScanEnv(manager, legacy), rules, true, true, result.log, result.scanned)
      ensures forall t :: t in result.Used() && t.kind.FakeIP? ==> t == manager.defaultTransport.value
    {
      var outcome, log := LegacyQuery(ScanEnv(manager, legacy), rules, options, true, true);
      result := LookupScanned(outcome, log);
      forall i | 0 <= i < |log| && log[i].transport.kind.FakeIP?
        ensures log[i].transport == manager.defaultTransport.value
      {
        LookupAvoidsFakeIP(ScanEnv(manager, legacy), rules, true, options, log, i);
      }
    }

    /** Some matching makes an address query of a lookup reach a fakeip server exactly when the
        default server is one or an evaluate server is one by now. Such an evaluate server was put
        in place after Start. */
    lemma LookupReachesFakeIPIff(manager: Manager, options: QueryOptions, env: Env)
      requires Valid() && !legacyDNSMode && manager.defaultTransport.Some?
      ensures (exists m: (int, Option<Response>) -> bool ::
                 ReachesFakeIP(NewEnv(manager, env).(matches := m), rules, LookupOptions(options))) <==>
              (manager.defaultTransport.value.kind.FakeIP? ||
               exists i :: EvaluatesFakeIPAt(NewEnv(manager, env), rules, i))
      ensures forall i :: EvaluatesFakeIPAt(NewEnv(manager, env), rules, i) ==>
                ReplacedSinceStart(manager, manager.transportByTag[rules[i].value.server])
    {
      FakeIPReachableIff(NewEnv(manager, env), rules, LookupOptions(options));
    }

    /** In the legacy mode, exactly when the default server is one. */
    lemma LegacyLookupReachesFakeIPIff(manager: Manager, options: QueryOptions, env: LegacyEnv)
      requires Valid() && legacyDNSMode && manager.defaultTransport.Some?
      ensures (exists m: (nat, int) -> bool ::
                 ScanReachesFakeIP(ScanEnv(manager, env).(preMatches := m), rules, options)) <==>
              manager.defaultTransport.value.kind.FakeIP?
    {
      ScanReachesFakeIPIff(ScanEnv(manager, env), rules, options);
    }

    /** What a query reaches is what a lookup uses. */
    lemma ReachedIsUsed(env: Env, options: QueryOptions, asked: Asked)
      requires Decided(env, rules, options, false, asked)
      ensures ReachesFakeIP(env, rules, options) <==> exists t :: t in asked.used && t.kind.FakeIP?
    {
      var k :| && FirstDecider(env, rules, options, false, k)
               && asked.used == Receivers(Messages(false, env, rules, options, k));
      ReceiversAreOf(Messages(false, env, rules, options, k));
      if ReachesFakeIP(env, rules, options) {
        var s := FakeIPMessage(env, options, k);
        assert s.transport in asked.used;
      }
    }

    lemma FakeIPMessage(env: Env, options: QueryOptions, k: nat) returns (s: Sent)
      requires FirstDecider(env, rules, options, false, k) && ReachesFakeIP(env, rules, options)
      ensures s in Messages(false, env, rules, options, k) && s.transport.kind.FakeIP?
    {
      var k': nat, x :| FirstDecider(env, rules, options, false, k') && x in Messages(false, env, rules, options, k')
                        && x.transport.kind.FakeIP?;
      assert k' == k;
      s := x;
    }
  }
}
