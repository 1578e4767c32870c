/** The DNS router's frozen interpreter mode while rule-sets change underneath it: updates that the
    validator accepts, applied one at a time and applied concurrently. */
module DNSModeRuns {
  import opened Prelude
  import opened DNSRules

  /** The router's fields that concern the mode, and the rule-set metadata it looks up. */
  datatype Router = Router(rules: seq<DNSRule>, ruleSets: RuleSets, started: bool, closing: bool, legacy: bool)

  /** The rules can be interpreted in the new mode. */
  ghost predicate NewModeFits(rules: seq<DNSRule>, ruleSets: RuleSets) {
    var mode := Resolve(rules, ruleSets);
    mode.Ok? && !mode.value.legacy && ValidInNewMode(rules, ruleSets)
  }

  /** The rules can still be interpreted in the legacy mode: nothing in them disables it. */
  ghost predicate LegacyModeFits(rules: seq<DNSRule>, ruleSets: RuleSets) {
    forall n :: n in NodesOf(rules) ==> !NodeDisables(n, ruleSets)
  }

  ghost predicate ModeFits(r: Router) {
    r.started && !r.closing ==>
      if r.legacy then LegacyModeFits(r.rules, r.ruleSets) else NewModeFits(r.rules, r.ruleSets)
  }

  /** Whether an update of `tag` to `metadata` is let through. */
  ghost predicate Accepts(r: Router, tag: string, metadata: Metadata) {
    var ruleSets := r.ruleSets[tag := metadata];
    var mode := Resolve(r.rules, ruleSets);
    || r.rules == []
    || r.closing
    || (mode.Ok? &&
        if !r.started then mode.value.legacy || ValidInNewMode(r.rules, ruleSets)
        else if r.legacy then mode.value.legacy || !mode.value.flags.disabled
        else !mode.value.legacy && ValidInNewMode(r.rules, ruleSets))
  }

  method ValidateRuleSetMetadataUpdate(r: Router, tag: string, metadata: Metadata) returns (accepted: bool)
    ensures accepted <==> Accepts(r, tag, metadata)
  {
    if r.rules == [] || r.closing { return true; }
    var ruleSets := r.ruleSets[tag := metadata];
    var mode := ResolveLegacyDNSMode(r.rules, ruleSets);
    if mode.Err? { return false; }
    if !r.started {
      if mode.value.legacy { return true; }
      accepted := ValidateLegacyDNSModeDisabledRules(r.rules, ruleSets);
      return;
    }
    if r.legacy {
      return mode.value.legacy || !mode.value.flags.disabled;
    }
    if mode.value.legacy { return false; }
    accepted := ValidateLegacyDNSModeDisabledRules(r.rules, ruleSets);
  }

  // ---------------------------------------------------------------- one update at a time

  datatype Step =
    | Start
    | Update(tag: string, metadata: Metadata)
    | Close

  ghost function Next(r: Router, step: Step): Router {
    match step
    case Start =>
      var mode := Resolve(r.rules, r.ruleSets);
      if r.started || r.closing || mode.Err? || !(mode.value.legacy || ValidInNewMode(r.rules, r.ruleSets)) then r
      else r.(started := true, legacy := mode.value.legacy)
    case Update(tag, metadata) =>
      if Accepts(r, tag, metadata) then r.(ruleSets := r.ruleSets[tag := metadata]) else r
    case Close => r.(closing := true)
  }

  ghost function Run(r: Router, steps: seq<Step>): Router
    decreases steps
  {
    if steps == [] then r else Run(Next(r, steps[0]), steps[1..])
  }

  /** From Start to Close the mode chosen at start fits the rule-sets as they are now. */
  lemma {:induction false} FrozenModeKeepsFitting(r: Router, steps: seq<Step>)
    requires ModeFits(r)
    ensures ModeFits(Run(r, steps))
    decreases steps
  {
    if steps != [] {
      NextFits(r, steps[0]);
      FrozenModeKeepsFitting(Next(r, steps[0]), steps[1..]);
    }
  }

  lemma NextFits(r: Router, step: Step)
    requires ModeFits(r)
    ensures ModeFits(Next(r, step))
  {
  }

  /** An update is let through exactly when nothing could go wrong with it: there are no rules or no
      router any more, or the rules can be built with it, or still fit the mode chosen. */
  lemma AcceptsExactly(r: Router, tag: string, metadata: Metadata)
    ensures var ruleSets := r.ruleSets[tag := metadata];
            var known := forall n, t :: n in NodesOf(r.rules) && n.Default? && t in n.rule.ruleSet ==> t in ruleSets;
            Accepts(r, tag, metadata) <==>
              || r.rules == [] || r.closing
              || (r.started && !r.legacy && NewModeFits(r.rules, ruleSets))
              || (r.started && r.legacy && known && !SomeNewOnly(r.rules, ruleSets))
              || (!r.started && (NewModeFits(r.rules, ruleSets) ||
                  (known && SomeLegacyOnly(r.rules, ruleSets) && !SomeNewOnly(r.rules, ruleSets))))
  {
    var ruleSets := r.ruleSets[tag := metadata];
    ModeInFields(r.rules, ruleSets);
    NothingNewIsNotDisabled(r.rules, ruleSets);
  }

  lemma NothingNewIsNotDisabled(rules: seq<DNSRule>, ruleSets: RuleSets)
    ensures FlagsOf(NodesOf(rules), ruleSets).disabled <==> SomeNewOnly(rules, ruleSets)
  {
    forall n | n in NodesOf(rules) ensures NodeDisables(n, ruleSets) <==> NewOnly(n, ruleSets) {
      NodeInFields(n, ruleSets);
    }
  }

  /** Start commits, for good, to the mode the rules call for, exactly when they can be built. */
  lemma StartsExactly(r: Router)
    requires !r.started && !r.closing
    ensures var known := forall n, t :: n in NodesOf(r.rules) && n.Default? && t in n.rule.ruleSet ==> t in r.ruleSets;
            var legacy := SomeLegacyOnly(r.rules, r.ruleSets) && !SomeNewOnly(r.rules, r.ruleSets);
            var r' := Next(r, Start);
            && (r'.started <==> NewModeFits(r.rules, r.ruleSets) || (known && legacy))
            && (r'.started ==> r'.legacy == legacy)
            && r'.rules == r.rules && r'.ruleSets == r.ruleSets && !r'.closing
  {
    ModeInFields(r.rules, r.ruleSets);
  }

  // ---------------------------------------------------------------- concurrent updates

  /** Updates of different rule-sets validate and apply without a common lock, so one may be
      validated before and applied after another, or after Start. Start itself builds the rules,
      which settles the mode, and commits them in a second step; `built` is the mode in between.
      Closing is no step here: a closed router has no mode to fit. */
  datatype Shared = Shared(router: Router, pending: seq<(string, Metadata)>, built: Option<bool>)

  datatype Action =
    | Validate(tag: string, metadata: Metadata)
    | Apply(index: nat)
    | Build
    | Commit

  ghost function NextShared(s: Shared, a: Action): Shared {
    match a
    case Validate(tag, metadata) =>
      if Accepts(s.router, tag, metadata) then s.(pending := s.pending + [(tag, metadata)]) else s
    case Apply(i) =>
      if i >= |s.pending| then s
      else
        var (tag, metadata) := s.pending[i];
        s.(router := s.router.(ruleSets := s.router.ruleSets[tag := metadata]),
          pending := s.pending[..i] + s.pending[i + 1..])
    case Build =>
      var mode := Resolve(s.router.rules, s.router.ruleSets);
      if s.router.started || mode.Err? then s
      else if !mode.value.legacy && !ValidInNewMode(s.router.rules, s.router.ruleSets) then s
      else s.(built := Some(mode.value.legacy))
    case Commit =>
      if s.router.started || s.built.None? then s
      else s.(router := s.router.(started := true, legacy := s.built.value))
  }

  ghost function RunShared(s: Shared, actions: seq<Action>): Shared
    decreases actions
  {
    if actions == [] then s else RunShared(NextShared(s, actions[0]), actions[1..])
  }

  predicate Running(r: Router) { r.started && !r.closing && r.rules != [] }

  // ---- legacy mode survives every interleaving

  /** An update that cannot by itself disable the legacy mode. */
  ghost predicate Harmless(rules: seq<DNSRule>, tag: string, metadata: Metadata) {
    forall n :: n in NodesOf(rules) && n.Default? && tag in n.rule.ruleSet ==> !metadata.containsDNSQueryType
  }

  lemma LegacyFitsAfter(rules: seq<DNSRule>, ruleSets: RuleSets, tag: string, metadata: Metadata)
    requires LegacyModeFits(rules, ruleSets)
    ensures LegacyModeFits(rules, ruleSets[tag := metadata]) <==> Harmless(rules, tag, metadata)
  {
  }

  lemma {:induction false} LegacyModeSurvivesInterleaving(s: Shared, actions: seq<Action>)
    requires Running(s.router) && s.router.legacy && LegacyModeFits(s.router.rules, s.router.ruleSets)
    requires forall p :: p in s.pending ==> Harmless(s.router.rules, p.0, p.1)
    ensures var r := RunShared(s, actions).router;
            Running(r) && r.legacy && r.rules == s.router.rules && LegacyModeFits(r.rules, r.ruleSets)
    decreases actions
  {
    if actions != [] {
      var s' := NextShared(s, actions[0]);
      match actions[0] {
        case Validate(tag, metadata) =>
          if Accepts(s.router, tag, metadata) {
            assert !FlagsOf(NodesOf(s.router.rules), s.router.ruleSets[tag := metadata]).disabled;
            LegacyFitsAfter(s.router.rules, s.router.ruleSets, tag, metadata);
          }
        case Apply(i) =>
          if i < |s.pending| {
            assert s.pending[i] in s.pending;
            LegacyFitsAfter(s.router.rules, s.router.ruleSets, s.pending[i].0, s.pending[i].1);
          }
        case _ =>
      }
      LegacyModeSurvivesInterleaving(s', actions[1..]);
    }
  }

  // ---- the new mode: a normal form

  ghost predicate Referenced(rules: seq<DNSRule>, tag: string) {
    exists n :: n in NodesOf(rules) && n.Default? && tag in n.rule.ruleSet
  }

  /** Something other than rule-set content disables the legacy mode. */
  ghost predicate AlwaysDisabled(rules: seq<DNSRule>) {
    exists n :: n in NodesOf(rules) && NodeDisables(n, map[])
  }

  /** The part of fitting the new mode that no rule-set update can change. */
  ghost predicate FitsApartFromRuleSets(rules: seq<DNSRule>) {
    && (forall n :: n in NodesOf(rules) ==> !NodeHasStrategy(n))
    && (forall n :: n in NodesOf(rules) && n.Default? ==> !NodeRefused(Default(n.rule.(ruleSet := [])), map[]))
    && (forall i :: 0 <= i < |rules| && ReadsResponse(rules[i]) ==> EvaluatedBefore(rules, i))
  }

  /** A content the new mode can do with for `tag`, wherever it is referenced before a response. */
  ghost predicate ContentUsable(rules: seq<DNSRule>, tag: string, metadata: Metadata) {
    forall n :: n in NodesOf(rules) && n.Default? && tag in n.rule.ruleSet && !n.rule.matchResponse ==>
      !PureIP(metadata)
  }

  ghost predicate QueriesType(rules: seq<DNSRule>, ruleSets: RuleSets) {
    exists tag :: Referenced(rules, tag) && tag in ruleSets && ruleSets[tag].containsDNSQueryType
  }

  /** `tag` is referenced where destination addresses in it would need the legacy mode. */
  ghost predicate CanNeed(rules: seq<DNSRule>, tag: string) {
    exists n :: n in NodesOf(rules) && n.Default? && !n.rule.ruleSetIPCIDRMatchSource && tag in n.rule.ruleSet
  }

  ghost predicate NeedsLegacy(rules: seq<DNSRule>, ruleSets: RuleSets) {
    exists tag :: CanNeed(rules, tag) && tag in ruleSets && ruleSets[tag].containsIPCIDR
  }

  ghost predicate NormalForm(rules: seq<DNSRule>, ruleSets: RuleSets) {
    && FitsApartFromRuleSets(rules)
    && (forall tag :: Referenced(rules, tag) ==> tag in ruleSets && ContentUsable(rules, tag, ruleSets[tag]))
    && (AlwaysDisabled(rules) || QueriesType(rules, ruleSets) || !NeedsLegacy(rules, ruleSets))
  }

  lemma DisabledSplits(rules: seq<DNSRule>, ruleSets: RuleSets)
    ensures FlagsOf(NodesOf(rules), ruleSets).disabled <==> AlwaysDisabled(rules) || QueriesType(rules, ruleSets)
  {
  }

  lemma NeededSplits(rules: seq<DNSRule>, ruleSets: RuleSets)
    requires FitsApartFromRuleSets(rules)
    ensures FlagsOf(NodesOf(rules), ruleSets).needed <==> NeedsLegacy(rules, ruleSets)
  {
  }

  lemma RefusedSplits(rules: seq<DNSRule>, ruleSets: RuleSets)
    requires Resolvable(NodesOf(rules), ruleSets)
    ensures (forall n :: n in NodesOf(rules) ==> !NodeRefused(n, ruleSets)) <==>
            && (forall n :: n in NodesOf(rules) && n.Default? ==> !NodeRefused(Default(n.rule.(ruleSet := [])), map[]))
            && (forall tag :: Referenced(rules, tag) ==> tag in ruleSets && ContentUsable(rules, tag, ruleSets[tag]))
  {
  }

  lemma NormalFormOfNewMode(rules: seq<DNSRule>, ruleSets: RuleSets)
    ensures NewModeFits(rules, ruleSets) <==> NormalForm(rules, ruleSets)
  {
    DisabledSplits(rules, ruleSets);
    if NewModeFits(rules, ruleSets) {
      NewModeHasNoStrategy(rules, ruleSets);
      RefusedSplits(rules, ruleSets);
      NeededSplits(rules, ruleSets);
    }
    if NormalForm(rules, ruleSets) {
      assert Resolvable(NodesOf(rules), ruleSets) by {
        forall n | n in NodesOf(rules) ensures NodeResolvable(n, ruleSets) {
          if n.Default? {
            forall tag | tag in n.rule.ruleSet ensures tag in ruleSets { assert Referenced(rules, tag); }
          }
        }
      }
      RefusedSplits(rules, ruleSets);
      NeededSplits(rules, ruleSets);
    }
  }

  // ---- the new mode survives every interleaving exactly when rule-sets are not coupled

  /** One rule-set's content may be what keeps the legacy mode disabled while another's comes to need it. */
  ghost predicate Coupled(rules: seq<DNSRule>) {
    && !AlwaysDisabled(rules)
    && exists a, b :: a != b && Referenced(rules, a) && CanNeed(rules, b)
  }

  ghost predicate Frozen(rules: seq<DNSRule>, s: Shared) {
    s.router.rules == rules && Running(s.router) && !s.router.legacy && NewModeFits(rules, s.router.ruleSets)
  }

  ghost predicate SurvivesInterleaving(rules: seq<DNSRule>) {
    forall s: Shared, actions: seq<Action> :: Frozen(rules, s) && s.pending == [] ==>
      NewModeFits(rules, RunShared(s, actions).router.ruleSets)
  }

  /** An update that was accepted in the new mode, said without the other rule-sets. */
  ghost predicate Acceptable(rules: seq<DNSRule>, tag: string, metadata: Metadata) {
    && (Referenced(rules, tag) ==> ContentUsable(rules, tag, metadata))
    && (!AlwaysDisabled(rules) && CanNeed(rules, tag) && metadata.containsIPCIDR ==> metadata.containsDNSQueryType)
  }

  lemma CanNeedIsReferenced(rules: seq<DNSRule>, tag: string)
    requires CanNeed(rules, tag)
    ensures Referenced(rules, tag)
  {
    var n :| n in NodesOf(rules) && n.Default? && !n.rule.ruleSetIPCIDRMatchSource && tag in n.rule.ruleSet;
  }

  lemma AcceptedIsAcceptable(rules: seq<DNSRule>, ruleSets: RuleSets, tag: string, metadata: Metadata)
    requires !Coupled(rules) && NewModeFits(rules, ruleSets[tag := metadata])
    ensures Acceptable(rules, tag, metadata)
  {
    var after := ruleSets[tag := metadata];
    NormalFormOfNewMode(rules, after);
    if !AlwaysDisabled(rules) && CanNeed(rules, tag) && metadata.containsIPCIDR {
      assert NeedsLegacy(rules, after);
      var a :| Referenced(rules, a) && a in after && after[a].containsDNSQueryType;
    }
  }

  lemma AcceptableCanBeApplied(rules: seq<DNSRule>, ruleSets: RuleSets, tag: string, metadata: Metadata)
    requires !Coupled(rules) && NewModeFits(rules, ruleSets) && Acceptable(rules, tag, metadata)
    ensures NewModeFits(rules, ruleSets[tag := metadata])
  {
    var after := ruleSets[tag := metadata];
    NormalFormOfNewMode(rules, ruleSets);
    NormalFormOfNewMode(rules, after);
    if !AlwaysDisabled(rules) && NeedsLegacy(rules, after) {
      var b :| CanNeed(rules, b) && b in after && after[b].containsIPCIDR;
      CanNeedIsReferenced(rules, b);
      if b == tag {
        assert QueriesType(rules, after);
      } else {
        assert NeedsLegacy(rules, ruleSets);
        var a :| Referenced(rules, a) && a in ruleSets && ruleSets[a].containsDNSQueryType;
        assert a == b && after[b] == ruleSets[b];
        assert QueriesType(rules, after);
      }
    }
  }

  lemma {:induction false} UncoupledSurvives(rules: seq<DNSRule>, s: Shared, actions: seq<Action>)
    requires !Coupled(rules) && Frozen(rules, s)
    requires forall p :: p in s.pending ==> Acceptable(rules, p.0, p.1)
    ensures NewModeFits(rules, RunShared(s, actions).router.ruleSets)
    decreases actions
  {
    if actions != [] {
      match actions[0] {
        case Validate(tag, metadata) =>
          if Accepts(s.router, tag, metadata) { AcceptedIsAcceptable(rules, s.router.ruleSets, tag, metadata); }
        case Apply(i) =>
          if i < |s.pending| {
            assert s.pending[i] in s.pending;
            AcceptableCanBeApplied(rules, s.router.ruleSets, s.pending[i].0, s.pending[i].1);
          }
        case _ =>
      }
      UncoupledSurvives(rules, NextShared(s, actions[0]), actions[1..]);
    }
  }

  const PLAIN := Metadata(false, false, true)
  const QUERY_TYPE := Metadata(false, true, true)
  const MIXED_IP := Metadata(true, false, true)

  /** Something disables the legacy mode or nothing needs it. */
  ghost predicate Balanced(rules: seq<DNSRule>, ruleSets: RuleSets) {
    QueriesType(rules, ruleSets) || !NeedsLegacy(rules, ruleSets)
  }

  ghost predicate NoPureIP(rules: seq<DNSRule>, ruleSets: RuleSets) {
    forall tag :: Referenced(rules, tag) ==> tag in ruleSets && !PureIP(ruleSets[tag])
  }

  /** With no pure-IP content around, only the pull between the modes is left to decide. */
  lemma FitsIffBalanced(rules: seq<DNSRule>, ruleSets: RuleSets)
    requires FitsApartFromRuleSets(rules) && !AlwaysDisabled(rules) && NoPureIP(rules, ruleSets)
    ensures NewModeFits(rules, ruleSets) <==> Balanced(rules, ruleSets)
  {
    NormalFormOfNewMode(rules, ruleSets);
  }

  lemma RaceContents(rules: seq<DNSRule>, before: RuleSets, a: string, b: string)
    requires a != b && Referenced(rules, a) && CanNeed(rules, b)
    requires forall tag :: Referenced(rules, tag) ==> tag in before
    requires forall tag :: tag in before ==> before[tag] == if tag == a then QUERY_TYPE else PLAIN
    ensures var onlyA, onlyB, both := before[a := PLAIN], before[b := MIXED_IP], before[a := PLAIN][b := MIXED_IP];
            && NoPureIP(rules, before) && Balanced(rules, before)
            && NoPureIP(rules, onlyA) && Balanced(rules, onlyA)
            && NoPureIP(rules, onlyB) && Balanced(rules, onlyB)
            && NoPureIP(rules, both) && !Balanced(rules, both)
  {
    var onlyB, both := before[b := MIXED_IP], before[a := PLAIN][b := MIXED_IP];
    assert before[a] == QUERY_TYPE && onlyB[a] == QUERY_TYPE && both[b] == MIXED_IP;
  }

  /** Contents such that either update of the race fits on its own and both together do not. */
  lemma RaceFits(rules: seq<DNSRule>, ruleSets: RuleSets, a: string, b: string) returns (before: RuleSets)
    requires NewModeFits(rules, ruleSets) && !AlwaysDisabled(rules)
    requires a != b && Referenced(rules, a) && CanNeed(rules, b)
    ensures NewModeFits(rules, before) && NewModeFits(rules, before[a := PLAIN])
            && NewModeFits(rules, before[b := MIXED_IP])
    ensures !NewModeFits(rules, before[a := PLAIN][b := MIXED_IP])
    ensures a in before && b in before
  {
    before := map t | t in ruleSets :: if t == a then QUERY_TYPE else PLAIN;
    assert FitsApartFromRuleSets(rules) && (forall tag :: Referenced(rules, tag) ==> tag in before) by {
      NormalFormOfNewMode(rules, ruleSets);
    }
    CanNeedIsReferenced(rules, b);
    RaceContents(rules, before, a, b);
    FitsIffBalanced(rules, before);
    FitsIffBalanced(rules, before[a := PLAIN]);
    FitsIffBalanced(rules, before[b := MIXED_IP]);
    FitsIffBalanced(rules, before[a := PLAIN][b := MIXED_IP]);
  }

  /** The race: `a` is about to lose its query types, which are all that disables the legacy mode,
      and `b` to gain addresses, which then need it. Each update is accepted on its own. */
  lemma CoupledBreaks(rules: seq<DNSRule>, ruleSets: RuleSets, a: string, b: string)
    returns (s: Shared, actions: seq<Action>)
    requires rules != [] && NewModeFits(rules, ruleSets) && !AlwaysDisabled(rules)
    requires a != b && Referenced(rules, a) && CanNeed(rules, b)
    ensures Frozen(rules, s) && s.pending == []
    ensures !NewModeFits(rules, RunShared(s, actions).router.ruleSets)
  {
    var before := RaceFits(rules, ruleSets, a, b);
    s := Shared(Router(rules, before, true, false, false), [], None);
    actions := [Validate(a, PLAIN), Validate(b, MIXED_IP), Apply(0), Apply(0)];
    RaceRun(s, a, b);
    RunShared4(s, actions);
  }

  lemma RaceRun(s: Shared, a: string, b: string)
    requires Accepts(s.router, a, PLAIN) && Accepts(s.router, b, MIXED_IP) && s.pending == []
    ensures var validated := NextShared(NextShared(s, Validate(a, PLAIN)), Validate(b, MIXED_IP));
            NextShared(NextShared(validated, Apply(0)), Apply(0))
            == s.(router := s.router.(ruleSets := s.router.ruleSets[a := PLAIN][b := MIXED_IP]))
  {
  }

  lemma RunShared4(s: Shared, actions: seq<Action>)
    requires |actions| == 4
    ensures RunShared(s, actions) ==
            NextShared(NextShared(NextShared(NextShared(s, actions[0]), actions[1]), actions[2]), actions[3])
  {
    var s1 := NextShared(s, actions[0]);
    var s2 := NextShared(s1, actions[1]);
    var s3 := NextShared(s2, actions[2]);
    assert RunShared(s3, actions[1..][1..][1..]) == NextShared(s3, actions[3]);
    assert RunShared(s2, actions[1..][1..]) == NextShared(s3, actions[3]);
    assert RunShared(s1, actions[1..]) == NextShared(s3, actions[3]);
  }

  lemma NewModeSurvivesIffUncoupled(rules: seq<DNSRule>, ruleSets: RuleSets)
    requires rules != [] && NewModeFits(rules, ruleSets)
    ensures SurvivesInterleaving(rules) <==> !Coupled(rules)
  {
    if Coupled(rules) {
      var a, b :| a != b && Referenced(rules, a) && CanNeed(rules, b);
      var s, actions := CoupledBreaks(rules, ruleSets, a, b);
    } else {
      forall s: Shared, actions: seq<Action> | Frozen(rules, s) && s.pending == []
        ensures NewModeFits(rules, RunShared(s, actions).router.ruleSets)
      {
        UncoupledSurvives(rules, s, actions);
      }
    }
  }

  // ---- updates pending across Start

  ghost predicate Unstarted(rules: seq<DNSRule>, s: Shared) {
    s.router.rules == rules && !s.router.started && !s.router.closing && s.pending == [] && s.built.None?
  }

  /** Whatever happens from before Start on, a started router's mode fits its rule-sets. */
  ghost predicate SurvivesStart(rules: seq<DNSRule>) {
    forall s: Shared, actions: seq<Action> :: Unstarted(rules, s) ==> ModeFits(RunShared(s, actions).router)
  }

  /** Which mode these rules get is up to the content of a rule-set. */
  ghost predicate ContentDecides(rules: seq<DNSRule>) {
    FitsApartFromRuleSets(rules) && !AlwaysDisabled(rules) && exists b :: CanNeed(rules, b)
  }

  ghost predicate ResolvesToLegacy(rules: seq<DNSRule>, ruleSets: RuleSets) {
    Resolve(rules, ruleSets).Ok? && Resolve(rules, ruleSets).value.legacy
  }

  /** Legacy rules that would fit the new mode with other content need the legacy mode for a rule-set. */
  lemma LegacyNeedsContent(rules: seq<DNSRule>, ruleSets: RuleSets)
    requires FitsApartFromRuleSets(rules) && ResolvesToLegacy(rules, ruleSets)
    ensures ContentDecides(rules)
  {
    DisabledSplits(rules, ruleSets);
    NeededSplits(rules, ruleSets);
  }

  /** Every referenced rule-set, with `metadata` for `b` and plain content for the others. */
  ghost function ContentsWith(rules: seq<DNSRule>, b: string, metadata: Metadata): (r: RuleSets)
    ensures forall tag :: Referenced(rules, tag) ==> tag in r
    ensures forall tag :: tag in r ==> r[tag] == if tag == b then metadata else PLAIN
  {
    var tags := set n, tag | n in NodesOf(rules) && n.Default? && tag in n.rule.ruleSet :: tag;
    assert forall tag :: Referenced(rules, tag) ==> tag in tags;
    map tag | tag in tags :: if tag == b then metadata else PLAIN
  }

  /** Content without addresses fits the new mode. */
  lemma NoAddressesFit(rules: seq<DNSRule>, b: string, metadata: Metadata)
    requires FitsApartFromRuleSets(rules) && !metadata.containsIPCIDR
    ensures NewModeFits(rules, ContentsWith(rules, b, metadata))
  {
    NormalFormOfNewMode(rules, ContentsWith(rules, b, metadata));
  }

  /** Query types in a referenced rule-set disable the legacy mode. */
  lemma QueryTypesDisable(rules: seq<DNSRule>, b: string)
    requires Referenced(rules, b)
    ensures !LegacyModeFits(rules, ContentsWith(rules, b, QUERY_TYPE))
  {
    var ruleSets := ContentsWith(rules, b, QUERY_TYPE);
    assert QueriesType(rules, ruleSets);
    DisabledSplits(rules, ruleSets);
  }

  /** Addresses where they need the legacy mode, and nothing to disable it. */
  lemma AddressesNeed(rules: seq<DNSRule>, b: string)
    requires FitsApartFromRuleSets(rules) && !AlwaysDisabled(rules) && CanNeed(rules, b)
    ensures ResolvesToLegacy(rules, ContentsWith(rules, b, MIXED_IP))
  {
    var ruleSets := ContentsWith(rules, b, MIXED_IP);
    CanNeedIsReferenced(rules, b);
    NeedsAndNothingDisables(rules, ruleSets, b);
  }

  lemma NeedsAndNothingDisables(rules: seq<DNSRule>, ruleSets: RuleSets, b: string)
    requires FitsApartFromRuleSets(rules) && !AlwaysDisabled(rules) && CanNeed(rules, b)
    requires forall tag :: Referenced(rules, tag) ==> tag in ruleSets
    requires b in ruleSets && ruleSets[b].containsIPCIDR
    requires forall tag :: tag in ruleSets ==> !ruleSets[tag].containsDNSQueryType
    ensures ResolvesToLegacy(rules, ruleSets)
  {
    assert NeedsLegacy(rules, ruleSets) && !QueriesType(rules, ruleSets);
    DisabledSplits(rules, ruleSets);
    NeededSplits(rules, ruleSets);
    ReferencedIsResolvable(rules, ruleSets);
  }

  lemma ReferencedIsResolvable(rules: seq<DNSRule>, ruleSets: RuleSets)
    requires forall tag :: Referenced(rules, tag) ==> tag in ruleSets
    ensures Resolvable(NodesOf(rules), ruleSets)
  {
    forall n | n in NodesOf(rules) ensures NodeResolvable(n, ruleSets) {
      if n.Default? {
        forall tag | tag in n.rule.ruleSet ensures tag in ruleSets { assert Referenced(rules, tag); }
      }
    }
  }

  /** An update that is validated, then overtaken by both steps of Start, then applied. */
  lemma CrossRun(s: Shared, tag: string, metadata: Metadata)
    requires !s.router.started && s.pending == [] && Accepts(s.router, tag, metadata)
    requires var mode := Resolve(s.router.rules, s.router.ruleSets);
             mode.Ok? && (mode.value.legacy || ValidInNewMode(s.router.rules, s.router.ruleSets))
    ensures RunShared(s, [Validate(tag, metadata), Build, Commit, Apply(0)]).router
         == s.router.(ruleSets := s.router.ruleSets[tag := metadata], started := true,
                      legacy := Resolve(s.router.rules, s.router.ruleSets).value.legacy)
  {
    var mode := Resolve(s.router.rules, s.router.ruleSets);
    RunShared4(s, [Validate(tag, metadata), Build, Commit, Apply(0)]);
    var s1 := NextShared(s, Validate(tag, metadata));
    assert s1 == s.(pending := [(tag, metadata)]);
    var s2 := NextShared(s1, Build);
    assert s2 == s1.(built := Some(mode.value.legacy));
    var s3 := NextShared(s2, Commit);
    assert s3 == s2.(router := s.router.(started := true, legacy := mode.value.legacy));
  }

  lemma CrossFromUnstarted(rules: seq<DNSRule>, before: RuleSets, tag: string, metadata: Metadata)
    returns (s: Shared, actions: seq<Action>)
    requires rules != []
    requires NewModeFits(rules, before) || ResolvesToLegacy(rules, before)
    requires NewModeFits(rules, before[tag := metadata]) || ResolvesToLegacy(rules, before[tag := metadata])
    ensures Unstarted(rules, s)
    ensures RunShared(s, actions).router ==
            Router(rules, before[tag := metadata], true, false, ResolvesToLegacy(rules, before))
  {
    s := Shared(Router(rules, before, false, false, false), [], None);
    actions := [Validate(tag, metadata), Build, Commit, Apply(0)];
    CrossRun(s, tag, metadata);
  }

  /** The new mode is frozen although a pending update brings addresses that need the legacy mode. */
  lemma PendingBreaksNewMode(rules: seq<DNSRule>) returns (s: Shared, actions: seq<Action>)
    requires ContentDecides(rules)
    ensures Unstarted(rules, s)
    ensures var r := RunShared(s, actions).router;
            r.started && !r.closing && !r.legacy && r.rules == rules && !NewModeFits(rules, r.ruleSets)
  {
    var b :| CanNeed(rules, b);
    NoAddressesFit(rules, b, PLAIN);
    AddressesNeed(rules, b);
    OneContentChanges(rules, b, PLAIN, MIXED_IP);
    s, actions := CrossFromUnstarted(rules, ContentsWith(rules, b, PLAIN), b, MIXED_IP);
  }

  /** The legacy mode is frozen although a pending update brings query types that disable it. */
  lemma PendingBreaksLegacyMode(rules: seq<DNSRule>) returns (s: Shared, actions: seq<Action>)
    requires ContentDecides(rules)
    ensures Unstarted(rules, s)
    ensures var r := RunShared(s, actions).router;
            r.started && !r.closing && r.legacy && r.rules == rules && !LegacyModeFits(rules, r.ruleSets)
  {
    var b :| CanNeed(rules, b);
    CanNeedIsReferenced(rules, b);
    AddressesNeed(rules, b);
    NoAddressesFit(rules, b, QUERY_TYPE);
    QueryTypesDisable(rules, b);
    OneContentChanges(rules, b, MIXED_IP, QUERY_TYPE);
    s, actions := CrossFromUnstarted(rules, ContentsWith(rules, b, MIXED_IP), b, QUERY_TYPE);
  }

  lemma OneContentChanges(rules: seq<DNSRule>, b: string, from: Metadata, to: Metadata)
    requires CanNeed(rules, b)
    ensures rules != [] && ContentsWith(rules, b, from)[b := to] == ContentsWith(rules, b, to)
  {
    CanNeedIsReferenced(rules, b);
  }

  /** The mode of the router, or of the build waiting to be committed, fits. */
  ghost predicate ModeSettled(rules: seq<DNSRule>, s: Shared) {
    && s.router.rules == rules && !s.router.closing
    && (s.router.started ==>
          if s.router.legacy then LegacyModeFits(rules, s.router.ruleSets) else NewModeFits(rules, s.router.ruleSets))
    && (!s.router.started && s.built.Some? ==>
          if s.built.value then LegacyModeFits(rules, s.router.ruleSets) else NewModeFits(rules, s.router.ruleSets))
  }

  /** No mode but the new one: pending updates fit it one by one. */
  ghost predicate OnlyNew(rules: seq<DNSRule>, s: Shared) {
    && ModeSettled(rules, s)
    && (s.router.started ==> !s.router.legacy) && (!s.router.started && s.built.Some? ==> !s.built.value)
    && forall p :: p in s.pending ==> Acceptable(rules, p.0, p.1)
  }

  /** No mode but the legacy one: no pending update disables it. */
  ghost predicate OnlyLegacy(rules: seq<DNSRule>, s: Shared) {
    && ModeSettled(rules, s)
    && (s.router.started ==> s.router.legacy) && (!s.router.started && s.built.Some? ==> s.built.value)
    && forall p :: p in s.pending ==> Harmless(rules, p.0, p.1)
  }

  lemma OnlyNewStep(rules: seq<DNSRule>, s: Shared, a: Action)
    requires FitsApartFromRuleSets(rules) && !ContentDecides(rules) && OnlyNew(rules, s)
    ensures OnlyNew(rules, NextShared(s, a))
  {
    match a {
      case Validate(tag, metadata) =>
        if Accepts(s.router, tag, metadata) && rules != [] {
          if ResolvesToLegacy(rules, s.router.ruleSets[tag := metadata]) {
            LegacyNeedsContent(rules, s.router.ruleSets[tag := metadata]);
          }
          AcceptedIsAcceptable(rules, s.router.ruleSets, tag, metadata);
        }
      case Apply(i) =>
        if i < |s.pending| && (s.router.started || s.built.Some?) {
          assert s.pending[i] in s.pending;
          AcceptableCanBeApplied(rules, s.router.ruleSets, s.pending[i].0, s.pending[i].1);
        }
      case Build =>
        if ResolvesToLegacy(rules, s.router.ruleSets) { LegacyNeedsContent(rules, s.router.ruleSets); }
      case Commit =>
    }
  }

  lemma OnlyLegacyStep(rules: seq<DNSRule>, s: Shared, a: Action)
    requires !FitsApartFromRuleSets(rules) && OnlyLegacy(rules, s)
    ensures OnlyLegacy(rules, NextShared(s, a))
  {
    match a {
      case Validate(tag, metadata) =>
        if Accepts(s.router, tag, metadata) {
          var after := s.router.ruleSets[tag := metadata];
          NormalFormOfNewMode(rules, after);
          assert !FlagsOf(NodesOf(rules), after).disabled;
          NotDisabledIsHarmless(rules, s.router.ruleSets, tag, metadata);
        }
      case Apply(i) =>
        if i < |s.pending| && (s.router.started || s.built.Some?) {
          assert s.pending[i] in s.pending;
          LegacyFitsAfter(rules, s.router.ruleSets, s.pending[i].0, s.pending[i].1);
        }
      case Build =>
        NormalFormOfNewMode(rules, s.router.ruleSets);
        if ResolvesToLegacy(rules, s.router.ruleSets) { LegacyModeHasNoNewFeature(rules, s.router.ruleSets); }
      case Commit =>
    }
  }

  lemma NotDisabledIsHarmless(rules: seq<DNSRule>, ruleSets: RuleSets, tag: string, metadata: Metadata)
    requires !FlagsOf(NodesOf(rules), ruleSets[tag := metadata]).disabled
    ensures Harmless(rules, tag, metadata)
  {
    forall n | n in NodesOf(rules) && n.Default? && tag in n.rule.ruleSet ensures !metadata.containsDNSQueryType {
      assert !NodeDisables(n, ruleSets[tag := metadata]) && ruleSets[tag := metadata][tag] == metadata;
    }
  }

  lemma {:induction false} SettledRun(rules: seq<DNSRule>, s: Shared, actions: seq<Action>)
    requires !ContentDecides(rules)
    requires if FitsApartFromRuleSets(rules) then OnlyNew(rules, s) else OnlyLegacy(rules, s)
    ensures ModeFits(RunShared(s, actions).router)
    decreases actions
  {
    if actions != [] {
      if FitsApartFromRuleSets(rules) {
        OnlyNewStep(rules, s, actions[0]);
      } else {
        OnlyLegacyStep(rules, s, actions[0]);
      }
      SettledRun(rules, NextShared(s, actions[0]), actions[1..]);
    }
  }

  /** With updates free to cross Start, the mode fits in every run exactly when the content of no
      rule-set decides the mode. Otherwise either mode can be broken. */
  lemma ModeSurvivesStartIff(rules: seq<DNSRule>)
    ensures SurvivesStart(rules) <==> !ContentDecides(rules)
  {
    if ContentDecides(rules) {
      var s, actions := PendingBreaksNewMode(rules);
      assert !ModeFits(RunShared(s, actions).router);
    } else {
      forall s: Shared, actions: seq<Action> | Unstarted(rules, s) ensures ModeFits(RunShared(s, actions).router) {
        SettledRun(rules, s, actions);
      }
    }
  }

  /** The condition said by the modes: some content fits the new mode, some other is given the legacy one. */
  lemma ContentDecidesMeaning(rules: seq<DNSRule>)
    ensures ContentDecides(rules) <==>
            (exists ruleSets: RuleSets :: NewModeFits(rules, ruleSets))
              && (exists ruleSets: RuleSets :: ResolvesToLegacy(rules, ruleSets))
  {
    if ContentDecides(rules) {
      var b :| CanNeed(rules, b);
      NoAddressesFit(rules, b, PLAIN);
      AddressesNeed(rules, b);
    } else if (exists ruleSets: RuleSets :: NewModeFits(rules, ruleSets))
      && (exists ruleSets: RuleSets :: ResolvesToLegacy(rules, ruleSets)) {
      var fits: RuleSets :| NewModeFits(rules, fits);
      NormalFormOfNewMode(rules, fits);
      var legacy: RuleSets :| ResolvesToLegacy(rules, legacy);
      LegacyNeedsContent(rules, legacy);
    }
  }
}
