/** DNS rule options as configured: nested rule trees, and the walk over them that decides between
    the legacy and the new rule interpreter. */
module DNSRules {
  import opened Prelude

  datatype DomainStrategy = AsIS | PreferIPv4 | PreferIPv6 | IPv4Only | IPv6Only

  datatype RouteOptions = RouteOptions(strategy: DomainStrategy, timeout: int, disableCache: bool,
                                       disableOptimisticCache: bool, rewriteTTL: Option<nat>,
                                       clientSubnet: Option<string>)

  const NO_OPTIONS := RouteOptions(AsIS, 0, false, false, None, None)

  datatype ActionType = Unset | Route | Evaluate | Respond | OptionsOnly | Reject | Predefined

  datatype RejectMethod = RejectDefault | RejectDrop | RejectReply

  datatype RuleAction = RuleAction(kind: ActionType, server: string, route: RouteOptions, options: RouteOptions,
                                   rejectMethod: RejectMethod, predefined: string)

  /** The action of a rule that configures none. */
  const NO_ACTION := RuleAction(Unset, "", NO_OPTIONS, NO_OPTIONS, RejectDefault, "")

  /** The fields of a default rule that mode resolution looks at; list fields that are only
      looked at for emptiness are booleans. */
  datatype DefaultRule = DefaultRule(ipVersion: int, queryType: bool, ruleSet: seq<string>,
                                     ruleSetIPCIDRMatchSource: bool, ruleSetIPCIDRAcceptEmpty: bool,
                                     matchResponse: bool, ipCIDR: bool, ipIsPrivate: bool, ipAcceptAny: bool,
                                     responseRcode: bool, responseAnswer: bool, responseNs: bool, responseExtra: bool,
                                     action: RuleAction)

  datatype DNSRule =
    | Default(rule: DefaultRule)
    | Logical(rules: seq<DNSRule>, action: RuleAction)
    | Other

  /** What the route router knows about a rule-set's content. */
  datatype Metadata = Metadata(containsIPCIDR: bool, containsDNSQueryType: bool, containsNonIPCIDR: bool)

  type RuleSets = map<string, Metadata>

  datatype ModeError = RuleSetNotFound | StrategyConflict

  datatype ModeFlags = ModeFlags(disabled: bool, needed: bool, neededFromStrategy: bool) {
    function Merge(other: ModeFlags): ModeFlags {
      ModeFlags(disabled || other.disabled, needed || other.needed, neededFromStrategy || other.neededFromStrategy)
    }
  }

  const NO_FLAGS := ModeFlags(false, false, false)

  // ---------------------------------------------------------------- one node

  predicate NeedsAddressFilter(r: DefaultRule) {
    r.ruleSetIPCIDRAcceptEmpty || (!r.matchResponse && (r.ipAcceptAny || r.ipCIDR || r.ipIsPrivate))
  }

  predicate HasResponseFields(r: DefaultRule) {
    r.responseRcode || r.responseAnswer || r.responseNs || r.responseExtra
  }

  predicate UsesNewFeatures(r: DefaultRule) {
    || r.matchResponse
    || HasResponseFields(r)
    || r.action.kind == Evaluate
    || r.action.kind == Respond
    || r.ipVersion > 0
    || r.queryType
  }

  predicate ActionDisablesLegacy(a: RuleAction) {
    match a.kind
    case Unset | Route | Evaluate => a.route.disableOptimisticCache
    case OptionsOnly => a.options.disableOptimisticCache
    case _ => false
  }

  predicate ActionHasStrategy(a: RuleAction) {
    match a.kind
    case Unset | Route | Evaluate => a.route.strategy != AsIS
    case OptionsOnly => a.options.strategy != AsIS
    case _ => false
  }

  function ActionTypeOf(rule: DNSRule): ActionType {
    match rule
    case Default(r) => if r.action.kind == Unset then Route else r.action.kind
    case Logical(_, a) => if a.kind == Unset then Route else a.kind
    case Other => Unset
  }

  // ---------------------------------------------------------------- all nodes of a tree

  ghost function Nodes(rule: DNSRule): set<DNSRule>
    decreases rule
  {
    {rule} + (if rule.Logical? then set i, n | 0 <= i < |rule.rules| && n in Nodes(rule.rules[i]) :: n else {})
  }

  ghost function NodesOf(rules: seq<DNSRule>): set<DNSRule> {
    set i, n | 0 <= i < |rules| && n in Nodes(rules[i]) :: n
  }

  ghost predicate NodeDisables(n: DNSRule, ruleSets: RuleSets) {
    match n
    case Default(r) =>
      || UsesNewFeatures(r) || ActionDisablesLegacy(r.action)
      || exists tag :: tag in r.ruleSet && tag in ruleSets && ruleSets[tag].containsDNSQueryType
    case Logical(_, a) => a.kind == Evaluate || a.kind == Respond || ActionDisablesLegacy(a)
    case Other => false
  }

  predicate NodeHasStrategy(n: DNSRule) {
    match n
    case Default(r) => ActionHasStrategy(r.action)
    case Logical(_, a) => ActionHasStrategy(a)
    case Other => false
  }

  ghost predicate NodeNeeds(n: DNSRule, ruleSets: RuleSets) {
    || NodeHasStrategy(n)
    || (n.Default? && NeedsAddressFilter(n.rule))
    || (n.Default? && !n.rule.ruleSetIPCIDRMatchSource
        && exists tag :: tag in n.rule.ruleSet && tag in ruleSets && ruleSets[tag].containsIPCIDR)
  }

  ghost predicate NodeResolvable(n: DNSRule, ruleSets: RuleSets) {
    n.Default? ==> forall tag :: tag in n.rule.ruleSet ==> tag in ruleSets
  }

  ghost predicate Resolvable(nodes: set<DNSRule>, ruleSets: RuleSets) {
    forall n :: n in nodes ==> NodeResolvable(n, ruleSets)
  }

  /** The flags of a set of nodes: somewhere a reason to disable, to need, to need for a strategy. */
  ghost function FlagsOf(nodes: set<DNSRule>, ruleSets: RuleSets): ModeFlags {
    ModeFlags(exists n :: n in nodes && NodeDisables(n, ruleSets),
              exists n :: n in nodes && NodeNeeds(n, ruleSets),
              exists n :: n in nodes && NodeHasStrategy(n))
  }

  ghost function Requirements(nodes: set<DNSRule>, ruleSets: RuleSets): Result<ModeFlags, ModeError> {
    if Resolvable(nodes, ruleSets) then Ok(FlagsOf(nodes, ruleSets)) else Err(RuleSetNotFound)
  }

  datatype Mode = Mode(legacy: bool, flags: ModeFlags)

  /** The decision, in terms of what occurs anywhere in the trees. */
  ghost function Resolve(rules: seq<DNSRule>, ruleSets: RuleSets): Result<Mode, ModeError> {
    var flags := Requirements(NodesOf(rules), ruleSets);
    if flags.Err? then Err(flags.error)
    else if flags.value.disabled && flags.value.neededFromStrategy then Err(StrategyConflict)
    else Ok(Mode(!flags.value.disabled && flags.value.needed, flags.value))
  }

  lemma FlagsUnion(a: set<DNSRule>, b: set<DNSRule>, ruleSets: RuleSets)
    ensures FlagsOf(a + b, ruleSets) == FlagsOf(a, ruleSets).Merge(FlagsOf(b, ruleSets))
    ensures Resolvable(a + b, ruleSets) <==> Resolvable(a, ruleSets) && Resolvable(b, ruleSets)
  {
    assert forall n :: n in a + b <==> n in a || n in b;
  }

  lemma FlagsSingle(n: DNSRule, ruleSets: RuleSets)
    ensures FlagsOf({n}, ruleSets) == ModeFlags(NodeDisables(n, ruleSets), NodeNeeds(n, ruleSets), NodeHasStrategy(n))
    ensures Resolvable({n}, ruleSets) <==> NodeResolvable(n, ruleSets)
  {
    assert n in {n};
  }

  lemma NodesOfSnoc(rules: seq<DNSRule>, i: nat)
    requires i < |rules|
    ensures NodesOf(rules[..i + 1]) == NodesOf(rules[..i]) + Nodes(rules[i])
  {
    forall n | n in NodesOf(rules[..i + 1]) ensures n in NodesOf(rules[..i]) + Nodes(rules[i]) {
      var k :| 0 <= k < i + 1 && n in Nodes(rules[..i + 1][k]);
      if k < i { assert n in Nodes(rules[..i][k]); }
    }
    forall n | n in NodesOf(rules[..i]) + Nodes(rules[i]) ensures n in NodesOf(rules[..i + 1]) {
      if n in NodesOf(rules[..i]) {
        var k :| 0 <= k < i && n in Nodes(rules[..i][k]);
        assert n in Nodes(rules[..i + 1][k]);
      } else {
        assert n in Nodes(rules[..i + 1][i]);
      }
    }
  }

  lemma NodesOfLogical(rule: DNSRule)
    requires rule.Logical?
    ensures Nodes(rule) == {rule} + NodesOf(rule.rules)
  {
  }

  // ---------------------------------------------------------------- the walk

  method RequirementsInDefaultRule(r: DefaultRule, ruleSets: RuleSets) returns (result: Result<ModeFlags, ModeError>)
    ensures result == Requirements(Nodes(Default(r)), ruleSets)
  {
    var flags := ModeFlags(UsesNewFeatures(r) || ActionDisablesLegacy(r.action), false, ActionHasStrategy(r.action));
    flags := flags.(needed := NeedsAddressFilter(r) || flags.neededFromStrategy);
    ghost var start := flags;
    FlagsSingle(Default(r), ruleSets);
    assert Nodes(Default(r)) == {Default(r)};
    for i := 0 to |r.ruleSet|
      invariant forall k :: 0 <= k < i ==> r.ruleSet[k] in ruleSets
      invariant flags.neededFromStrategy == start.neededFromStrategy
      invariant flags.disabled <==>
              start.disabled || exists k :: 0 <= k < i && ruleSets[r.ruleSet[k]].containsDNSQueryType
      invariant flags.needed <==>
                  (start.needed ||
                   (!r.ruleSetIPCIDRMatchSource && exists k :: 0 <= k < i && ruleSets[r.ruleSet[k]].containsIPCIDR))
    {
      var tag := r.ruleSet[i];
      if tag !in ruleSets { return Err(RuleSetNotFound); }
      flags := flags.(disabled := flags.disabled || ruleSets[tag].containsDNSQueryType);
      if !r.ruleSetIPCIDRMatchSource && ruleSets[tag].containsIPCIDR {
        flags := flags.(needed := true);
      }
    }
    result := Ok(flags);
  }

  method RequirementsInRule(rule: DNSRule, ruleSets: RuleSets) returns (result: Result<ModeFlags, ModeError>)
    ensures result == Requirements(Nodes(rule), ruleSets)
    decreases rule
  {
    match rule
    case Default(r) =>
      result := RequirementsInDefaultRule(r, ruleSets);
    case Logical(rules, action) =>
      var strategy := ActionHasStrategy(action);
      var disabled := action.kind == Evaluate || action.kind == Respond || ActionDisablesLegacy(action);
      var flags := ModeFlags(disabled, strategy, strategy);
      FlagsSingle(rule, ruleSets);
      NodesOfLogical(rule);
      ghost var seen := {rule};
      assert NodesOf(rules[..0]) == {};
      for i := 0 to |rules|
        invariant seen == {rule} + NodesOf(rules[..i])
        invariant Resolvable(seen, ruleSets) && flags == FlagsOf(seen, ruleSets)
      {
        var sub := RequirementsInRule(rules[i], ruleSets);
        NodesOfSnoc(rules, i);
        FlagsUnion(seen, Nodes(rules[i]), ruleSets);
        if sub.Err? {
          assert Nodes(rules[i]) <= Nodes(rule);
          return sub;
        }
        seen := seen + Nodes(rules[i]);
        flags := flags.Merge(sub.value);
      }
      assert rules[..|rules|] == rules;
      result := Ok(flags);
    case Other =>
      FlagsSingle(rule, ruleSets);
      assert Nodes(rule) == {rule};
      result := Ok(NO_FLAGS);
  }

  method RuleModeRequirements(rules: seq<DNSRule>, ruleSets: RuleSets) returns (result: Result<ModeFlags, ModeError>)
    ensures result == Requirements(NodesOf(rules), ruleSets)
  {
    var flags := NO_FLAGS;
    assert NodesOf(rules[..0]) == {};
    for i := 0 to |rules|
      invariant Resolvable(NodesOf(rules[..i]), ruleSets) && flags == FlagsOf(NodesOf(rules[..i]), ruleSets)
    {
      var ruleFlags := RequirementsInRule(rules[i], ruleSets);
      NodesOfSnoc(rules, i);
      FlagsUnion(NodesOf(rules[..i]), Nodes(rules[i]), ruleSets);
      if ruleFlags.Err? {
        assert Nodes(rules[i]) <= NodesOf(rules);
        return ruleFlags;
      }
      flags := flags.Merge(ruleFlags.value);
    }
    assert rules[..|rules|] == rules;
    result := Ok(flags);
  }

  method ResolveLegacyDNSMode(rules: seq<DNSRule>, ruleSets: RuleSets) returns (result: Result<Mode, ModeError>)
    ensures result == Resolve(rules, ruleSets)
  {
    var flags := RuleModeRequirements(rules, ruleSets);
    if flags.Err? { return Err(flags.error); }
    if flags.value.disabled && flags.value.neededFromStrategy { return Err(StrategyConflict); }
    if flags.value.disabled { return Ok(Mode(false, flags.value)); }
    result := Ok(Mode(flags.value.needed, flags.value));
  }

  // ---------------------------------------------------------------- the decision in the rules' own fields

  /** The options an action of this kind carries, if any. */
  function OptionsOf(a: RuleAction): Option<RouteOptions> {
    if a.kind in {Unset, Route, Evaluate} then Some(a.route)
    else if a.kind == OptionsOnly then Some(a.options)
    else None
  }

  function ActionOf(n: DNSRule): Option<RuleAction> {
    match n
    case Default(r) => Some(r.action)
    case Logical(_, a) => Some(a)
    case Other => None
  }

  /** The options this node's action carries, if it has an action that carries any. */
  function NodeOptions(n: DNSRule): Option<RouteOptions> {
    if ActionOf(n).None? then None else OptionsOf(ActionOf(n).value)
  }

  /** The node names a rule-set with such content. */
  ghost predicate NamesQueryTypes(n: DNSRule, ruleSets: RuleSets) {
    n.Default? && exists tag :: tag in n.rule.ruleSet && tag in ruleSets && ruleSets[tag].containsDNSQueryType
  }

  ghost predicate NamesAddresses(n: DNSRule, ruleSets: RuleSets) {
    n.Default? && exists tag :: tag in n.rule.ruleSet && tag in ruleSets && ruleSets[tag].containsIPCIDR
  }

  /** Something only the new interpreter understands: match_response, an IP version or query types, a
      response field, an evaluate or respond action, a disabled optimistic cache, or a rule-set with
      query types. */
  ghost predicate NewOnly(n: DNSRule, ruleSets: RuleSets) {
    || (n.Default? && (n.rule.matchResponse || n.rule.ipVersion > 0 || n.rule.queryType))
    || (n.Default? && (n.rule.responseRcode || n.rule.responseAnswer || n.rule.responseNs || n.rule.responseExtra))
    || (ActionOf(n).Some? && (ActionOf(n).value.kind == Evaluate || ActionOf(n).value.kind == Respond))
    || (NodeOptions(n).Some? && NodeOptions(n).value.disableOptimisticCache)
    || NamesQueryTypes(n, ruleSets)
  }

  predicate CarriesStrategy(n: DNSRule) {
    NodeOptions(n).Some? && NodeOptions(n).value.strategy != AsIS
  }

  /** Something only the legacy interpreter does: a strategy, accepting an empty address filter, an
      address filter on the answer before there is one, or destination addresses in a rule-set. */
  ghost predicate LegacyOnly(n: DNSRule, ruleSets: RuleSets) {
    || CarriesStrategy(n)
    || (n.Default? && n.rule.ruleSetIPCIDRAcceptEmpty)
    || (n.Default? && !n.rule.matchResponse && (n.rule.ipCIDR || n.rule.ipIsPrivate || n.rule.ipAcceptAny))
    || (NamesAddresses(n, ruleSets) && !n.rule.ruleSetIPCIDRMatchSource)
  }

  ghost predicate SomeNewOnly(rules: seq<DNSRule>, ruleSets: RuleSets) {
    exists n :: n in NodesOf(rules) && NewOnly(n, ruleSets)
  }

  ghost predicate SomeLegacyOnly(rules: seq<DNSRule>, ruleSets: RuleSets) {
    exists n :: n in NodesOf(rules) && LegacyOnly(n, ruleSets)
  }

  ghost predicate SomeStrategy(rules: seq<DNSRule>) {
    exists n :: n in NodesOf(rules) && CarriesStrategy(n)
  }

  lemma NodeInFields(n: DNSRule, ruleSets: RuleSets)
    ensures NodeDisables(n, ruleSets) <==> NewOnly(n, ruleSets)
    ensures NodeNeeds(n, ruleSets) <==> LegacyOnly(n, ruleSets)
    ensures NodeHasStrategy(n) <==> CarriesStrategy(n)
  {
  }

  /** The mode, in the rules' own fields: an error if a rule-set is unknown or a strategy meets
      something new; otherwise legacy exactly when something needs it and nothing is new. */
  lemma ModeInFields(rules: seq<DNSRule>, ruleSets: RuleSets)
    ensures var unknown :=
              exists n, tag :: n in NodesOf(rules) && n.Default? && tag in n.rule.ruleSet && tag !in ruleSets;
            var mode := Resolve(rules, ruleSets);
            && (mode == Err(RuleSetNotFound) <==> unknown)
            && (mode == Err(StrategyConflict) <==> !unknown && SomeNewOnly(rules, ruleSets) && SomeStrategy(rules))
            && (mode.Ok? ==> (mode.value.legacy <==> SomeLegacyOnly(rules, ruleSets) && !SomeNewOnly(rules, ruleSets)))
  {
    forall n | n in NodesOf(rules)
      ensures NodeDisables(n, ruleSets) <==> NewOnly(n, ruleSets)
      ensures NodeNeeds(n, ruleSets) <==> LegacyOnly(n, ruleSets)
      ensures NodeHasStrategy(n) <==> CarriesStrategy(n)
    {
      NodeInFields(n, ruleSets);
    }
    assert FlagsOf(NodesOf(rules), ruleSets) ==
        ModeFlags(SomeNewOnly(rules, ruleSets), SomeLegacyOnly(rules, ruleSets), SomeStrategy(rules));
  }

  // ---------------------------------------------------------------- what each mode excludes

  /** New mode: no action anywhere carries a strategy, so the interpreter may ignore the field. */
  lemma NewModeHasNoStrategy(rules: seq<DNSRule>, ruleSets: RuleSets)
    requires Resolve(rules, ruleSets).Ok? && !Resolve(rules, ruleSets).value.legacy
    ensures forall n :: n in NodesOf(rules) ==> !NodeHasStrategy(n)
  {
  }

  /** Legacy mode: nothing that only the new interpreter understands occurs anywhere. */
  lemma LegacyModeHasNoNewFeature(rules: seq<DNSRule>, ruleSets: RuleSets)
    requires Resolve(rules, ruleSets).Ok? && Resolve(rules, ruleSets).value.legacy
    ensures forall n :: n in NodesOf(rules) ==> !NodeDisables(n, ruleSets)
    ensures forall n :: n in NodesOf(rules) && n.Default? ==>
              && !n.rule.matchResponse && !HasResponseFields(n.rule) && n.rule.ipVersion <= 0 && !n.rule.queryType
    ensures forall n :: n in NodesOf(rules) ==> ActionTypeOf(n) != Evaluate && ActionTypeOf(n) != Respond
  {
    assert !FlagsOf(NodesOf(rules), ruleSets).disabled;
  }

  // ---------------------------------------------------------------- validation in new mode

  predicate PureIP(m: Metadata) { m.containsIPCIDR && !m.containsNonIPCIDR }

  /** A default rule the new interpreter refuses. */
  ghost predicate NodeRefused(n: DNSRule, ruleSets: RuleSets) {
    n.Default? &&
    var r := n.rule;
    || ((HasResponseFields(r) || r.ipCIDR || r.ipIsPrivate || r.ipAcceptAny) && !r.matchResponse)
    || (!r.matchResponse && exists tag :: tag in r.ruleSet && (tag !in ruleSets || PureIP(ruleSets[tag])))
    || r.ruleSetIPCIDRAcceptEmpty
  }

  predicate NodeReadsResponse(n: DNSRule) {
    match n
    case Default(r) => r.matchResponse || r.action.kind == Respond
    case Logical(_, a) => a.kind == Respond
    case Other => false
  }

  ghost predicate ReadsResponse(rule: DNSRule) {
    exists n :: n in Nodes(rule) && NodeReadsResponse(n)
  }

  ghost predicate EvaluatedBefore(rules: seq<DNSRule>, i: nat)
    requires i <= |rules|
  {
    exists j :: 0 <= j < i && ActionTypeOf(rules[j]) == Evaluate
  }

  /** No rule anywhere is refused, and response-based matching comes after an evaluate action. */
  ghost predicate ValidInNewMode(rules: seq<DNSRule>, ruleSets: RuleSets) {
    && (forall n :: n in NodesOf(rules) ==> !NodeRefused(n, ruleSets))
    && (forall i :: 0 <= i < |rules| && ReadsResponse(rules[i]) ==> EvaluatedBefore(rules, i))
  }

  ghost predicate TreeAccepted(rule: DNSRule, ruleSets: RuleSets) {
    forall n :: n in Nodes(rule) ==> !NodeRefused(n, ruleSets)
  }

  /** What the new mode refuses, in the rules' own fields: testing the answer or its addresses without
      match_response, a rule-set that is unknown or holds only addresses there, an empty address
      filter anywhere, and reading a response before any top-level rule evaluates one. */
  lemma ValidInFields(rules: seq<DNSRule>, ruleSets: RuleSets)
    ensures ValidInNewMode(rules, ruleSets) <==>
            && (forall n :: n in NodesOf(rules) && n.Default? && !n.rule.matchResponse ==>
                  && !n.rule.responseRcode && !n.rule.responseAnswer && !n.rule.responseNs && !n.rule.responseExtra
                  && !n.rule.ipCIDR && !n.rule.ipIsPrivate && !n.rule.ipAcceptAny
                  && forall tag :: tag in n.rule.ruleSet ==>
                       tag in ruleSets && (ruleSets[tag].containsIPCIDR ==> ruleSets[tag].containsNonIPCIDR))
            && (forall n :: n in NodesOf(rules) && n.Default? ==> !n.rule.ruleSetIPCIDRAcceptEmpty)
            && (forall i, n :: 0 <= i < |rules| && n in Nodes(rules[i]) && ReadsOne(n) ==>
                  exists j :: 0 <= j < i && ActionOf(rules[j]).Some? && ActionOf(rules[j]).value.kind == Evaluate)
  {
    forall i, n | 0 <= i < |rules| && n in Nodes(rules[i]) ensures NodeReadsResponse(n) <==> ReadsOne(n) {}
    forall i | 0 <= i < |rules| ensures ActionTypeOf(rules[i]) == Evaluate <==>
                                        ActionOf(rules[i]).Some? && ActionOf(rules[i]).value.kind == Evaluate {}
  }

  /** Matches the response, or returns it. */
  predicate ReadsOne(n: DNSRule) {
    (n.Default? && n.rule.matchResponse) || (ActionOf(n).Some? && ActionOf(n).value.kind == Respond)
  }

  method ValidateDefaultRule(r: DefaultRule, ruleSets: RuleSets) returns (result: Option<bool>)
    ensures result.Some? <==> TreeAccepted(Default(r), ruleSets)
    ensures result.Some? ==> result.value == ReadsResponse(Default(r))
  {
    ghost var n := Default(r);
    assert Nodes(n) == {n} && n in Nodes(n);
    if (HasResponseFields(r) || r.ipCIDR || r.ipIsPrivate || r.ipAcceptAny) && !r.matchResponse { return None; }
    if !r.matchResponse {
      for i := 0 to |r.ruleSet|
        invariant forall k :: 0 <= k < i ==> r.ruleSet[k] in ruleSets && !PureIP(ruleSets[r.ruleSet[k]])
      {
        var tag := r.ruleSet[i];
        if tag !in ruleSets { return None; }
        if PureIP(ruleSets[tag]) { return None; }
      }
    }
    if r.ruleSetIPCIDRAcceptEmpty { return None; }
    result := Some(r.matchResponse || r.action.kind == Respond);
  }

  method ValidateRuleTree(rule: DNSRule, ruleSets: RuleSets) returns (result: Option<bool>)
    ensures result.Some? <==> TreeAccepted(rule, ruleSets)
    ensures result.Some? ==> result.value == ReadsResponse(rule)
    decreases rule
  {
    match rule
    case Default(r) =>
      result := ValidateDefaultRule(r, ruleSets);
    case Logical(rules, action) =>
      var required := ActionTypeOf(rule) == Respond;
      NodesOfLogical(rule);
      assert rule in Nodes(rule);
      for i := 0 to |rules|
        invariant forall k :: 0 <= k < i ==> TreeAccepted(rules[k], ruleSets)
        invariant required <==> NodeReadsResponse(rule) || exists k :: 0 <= k < i && ReadsResponse(rules[k])
      {
        var sub := ValidateRuleTree(rules[i], ruleSets);
        if sub.None? {
          assert Nodes(rules[i]) <= Nodes(rule);
          return None;
        }
        required := required || sub.value;
      }
      result := Some(required);
    case Other =>
      assert Nodes(rule) == {rule};
      result := Some(false);
  }

  method ValidateLegacyDNSModeDisabledRules(rules: seq<DNSRule>, ruleSets: RuleSets) returns (ok: bool)
    ensures ok <==> ValidInNewMode(rules, ruleSets)
  {
    var seenEvaluate := false;
    for i := 0 to |rules|
      invariant seenEvaluate <==> EvaluatedBefore(rules, i)
      invariant forall k :: 0 <= k < i ==> TreeAccepted(rules[k], ruleSets)
      invariant forall k :: 0 <= k < i && ReadsResponse(rules[k]) ==> EvaluatedBefore(rules, k)
    {
      var required := ValidateRuleTree(rules[i], ruleSets);
      if required.None? {
        assert Nodes(rules[i]) <= NodesOf(rules);
        return false;
      }
      if required.value && !seenEvaluate { return false; }
      if ActionTypeOf(rules[i]) == Evaluate { seenEvaluate := true; }
    }
    ok := true;
  }
}
