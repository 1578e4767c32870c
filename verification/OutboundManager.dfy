/** The outbound manager: Create, Remove and Start over a list, a tag index and a
    reverse-dependency record. */
module OutboundManagers {
  import opened Prelude
  import opened StartOrder
  import opened Registry

  type Outbound = Node<()>

  datatype RemoveResult = Removed | UnknownTag | DependedBy(dependents: seq<string>)

  class Manager {
    const defaultTag: string
    var started: bool
    var outbounds: seq<Outbound>
    var outboundByTag: map<string, Outbound>
    var dependByTag: Records
    var defaultOutbound: Option<Outbound>

    /** The list and the tag index are a bijection, and an unset implicit default means an empty list. */
    ghost predicate Indexed()
      reads `outbounds, `outboundByTag, `defaultOutbound
    {
      && Bijection(outbounds, outboundByTag)
      && (defaultTag == "" && defaultOutbound.None? ==> outbounds == [])
    }

    /** Every live outbound lists each dependency once and is recorded under each of them. */
    ghost predicate Recorded()
      reads `outbounds, `dependByTag
    {
      AllRecorded(outbounds, dependByTag)
    }

    /** The default, if there is one, is a listed outbound. */
    ghost predicate DefaultListed()
      reads `defaultOutbound, `outbounds
    {
      defaultOutbound.Some? ==> defaultOutbound.value in outbounds
    }

    constructor (defaultTag: string)
      ensures Indexed() && Recorded() && Exact(outbounds, dependByTag)
      ensures !started && outbounds == [] && outboundByTag == map[] && dependByTag == map[] && defaultOutbound.None?
      ensures this.defaultTag == defaultTag
    {
      this.defaultTag := defaultTag;
      started, outbounds, outboundByTag, dependByTag, defaultOutbound := false, [], map[], map[], None;
    }

    /** Puts an outbound on the list, in the index, in the records of its dependencies and, if its
        tag says so, in place of the default. */
    method Install(outbound: Outbound)
      modifies this`outbounds, this`outboundByTag, this`dependByTag, this`defaultOutbound
      ensures outbounds == Evicted(old(outbounds), old(outboundByTag), outbound.tag) + [outbound]
      ensures outboundByTag == old(outboundByTag)[outbound.tag := outbound]
      ensures dependByTag == AddRecords(old(dependByTag), outbound.deps, outbound.tag)
      ensures defaultOutbound == if outbound.tag == defaultTag || (defaultTag == "" && old(defaultOutbound).None?)
                                 then Some(outbound) else old(defaultOutbound)
    {
      outbounds := Evicted(outbounds, outboundByTag, outbound.tag) + [outbound];
      outboundByTag := outboundByTag[outbound.tag := outbound];
      dependByTag := RecordDependencies(dependByTag, outbound.deps, outbound.tag);
      if outbound.tag == defaultTag || (defaultTag == "" && defaultOutbound.None?) {
        defaultOutbound := Some(outbound);
      }
    }

    /** Adds or replaces the outbound for `tag`. `created` is what the registry built, if it
        succeeded; the flags say whether starting it and closing a predecessor succeed. */
    method Create(tag: string, created: Option<Outbound>, startOk: bool, closeOk: bool) returns (ok: bool)
      requires Indexed()
      requires created.Some? ==> created.value.tag == tag && created.value !in outbounds
      modifies this`outbounds, this`outboundByTag, this`dependByTag, this`defaultOutbound
      ensures Indexed()
      ensures ok <==>
              && tag != "" && created.Some? && (started ==> startOk)
              && (started && tag in old(outboundByTag) ==> closeOk)
      ensures !ok ==> unchanged(this)
      ensures ok ==> outbounds == Evicted(old(outbounds), old(outboundByTag), tag) + [created.value]
      ensures ok ==> outboundByTag == old(outboundByTag)[tag := created.value]
      ensures ok ==> dependByTag == AddRecords(old(dependByTag), created.value.deps, tag)
      ensures ok ==> defaultOutbound == if tag == defaultTag || (defaultTag == "" && old(defaultOutbound).None?)
                                        then created else old(defaultOutbound)
      ensures old(Recorded()) && (ok ==> NoDup(created.value.deps)) ==> Recorded()
      ensures ok && Exact(old(outbounds), old(dependByTag)) ==>
                (Exact(outbounds, dependByTag) <==>
                   (tag in old(outboundByTag) ==> forall d :: d in old(outboundByTag)[tag].deps ==>
                     d in created.value.deps))
      // The default is lost from the list exactly when it is replaced under a tag that is not the configured default.
      ensures old(DefaultListed()) ==>
                (DefaultListed() <==>
                   !(ok && tag != defaultTag && tag in old(outboundByTag)
                     && old(defaultOutbound) == Some(old(outboundByTag)[tag])))
    {
      if tag == "" || created.None? || (started && !startOk) || (started && tag in outboundByTag && !closeOk) {
        return false;
      }
      CreateKeeps(outbounds, outboundByTag, dependByTag, created.value);
      if DefaultListed() { DefaultAfterCreate(outbounds, outboundByTag, defaultOutbound, created.value); }
      if Exact(outbounds, dependByTag) { CreateExactIff(outbounds, outboundByTag, dependByTag, created.value); }
      Install(created.value);
      ok := true;
    }

    /** Takes the outbound for `tag` off the list and the index, and passes its role as default on. */
    method Unlist(tag: string)
      requires Indexed() && tag in outboundByTag
      modifies this`outbounds, this`outboundByTag, this`defaultOutbound
      ensures Indexed() && outboundByTag == old(outboundByTag) - {tag}
      ensures outbounds == Evicted(old(outbounds), old(outboundByTag), tag)
      ensures forall o :: o in outbounds <==> o in old(outbounds) && o.tag != tag
      ensures defaultOutbound == if old(defaultOutbound) != Some(old(outboundByTag)[tag]) then old(defaultOutbound)
                                 else if outbounds == [] then None else Some(outbounds[0])
      ensures old(DefaultListed()) ==> DefaultListed()
    {
      var outbound := outboundByTag[tag];
      EvictedMeaning(outbounds, outboundByTag, tag);
      assert outbound in outbounds;
      outboundByTag := outboundByTag - {tag};
      outbounds := RemoveAt(outbounds, Find(outbounds, outbound));
      if defaultOutbound == Some(outbound) {
        defaultOutbound := if |outbounds| > 0 then Some(outbounds[0]) else None;
      }
    }

    /** Removes the outbound for `tag`. The list and the index lose it even when the removal is
        refused because something depends on it. `closed` says whether it was closed; an error of
        that close is then what the call returns. */
    method Remove(tag: string) returns (result: RemoveResult, closed: bool)
      requires Indexed()
      modifies this`outbounds, this`outboundByTag, this`dependByTag, this`defaultOutbound
      ensures Indexed()
      ensures outboundByTag == old(outboundByTag) - {tag}
      ensures closed <==> result.Removed? && started
      ensures result.UnknownTag? <==> tag !in old(outboundByTag)
      ensures result.Removed? <==> tag in old(outboundByTag) && Dependents(old(dependByTag), tag) == []
      ensures result.DependedBy? ==> result.dependents == Dependents(old(dependByTag), tag)
      ensures dependByTag == if result.Removed? then DropRecords(old(dependByTag), old(outboundByTag)[tag].deps, tag)
                             else old(dependByTag)
      ensures defaultOutbound == if result.UnknownTag? || old(defaultOutbound) != Some(old(outboundByTag)[tag])
                                 then old(defaultOutbound)
                                 else if outbounds == [] then None else Some(outbounds[0])
      ensures old(Recorded()) ==> Recorded()
      ensures old(DefaultListed()) ==> DefaultListed()
      // A removal that succeeds never takes away a dependency of something still live.
      ensures old(Recorded()) && result.Removed? ==> forall o :: o in outbounds ==> tag !in o.deps
      // With exact records a removal is refused exactly when something live depends on it; a refused
      // one keeps the records exact only if the outbound had no dependencies.
      ensures Exact(old(outbounds), old(dependByTag)) ==>
                && (result.DependedBy? <==>
                      tag in old(outboundByTag) && exists x :: DependsLive(old(outbounds), x, tag))
                && (result.Removed? && NoDup(old(outboundByTag)[tag].deps) ==> Exact(outbounds, dependByTag))
                && (result.DependedBy? ==> (Exact(outbounds, dependByTag) <==> old(outboundByTag)[tag].deps == []))
      // Refused or not, everybody else stays, so a live dependent of a refused removal is left without it.
      ensures forall o :: o in outbounds <==> o in old(outbounds) && o.tag != tag
    {
      if tag !in outboundByTag { return UnknownTag, false; }
      var outbound := outboundByTag[tag];
      Unlist(tag);
      RemovalRecords(old(outbounds), outbounds, old(outboundByTag), dependByTag, outbound);
      result := Unrecord(outbound);
      closed := result.Removed? && started;
    }

    /** Takes an outbound out of its dependencies' records, unless something depends on it. */
    method Unrecord(outbound: Outbound) returns (result: RemoveResult)
      modifies this`dependByTag
      ensures var dependents := Dependents(old(dependByTag), outbound.tag);
              && result == (if dependents == [] then Removed else DependedBy(dependents))
              && dependByTag == (if dependents == [] then DropRecords(old(dependByTag), outbound.deps, outbound.tag)
                                 else old(dependByTag))
    {
      var dependents := Dependents(dependByTag, outbound.tag);
      if dependents != [] { return DependedBy(dependents); }
      dependByTag := ForgetDependencies(dependByTag, outbound.deps, outbound.tag);
      result := Removed;
    }

    /** Settles the default outbound: a configured endpoint, or the fallback when none is configured. */
    method SettleDefault(endpointByTag: map<string, Outbound>, fallback: Option<Outbound>)
      returns (failure: Option<StartResult>)
      requires Indexed()
      modifies this`outbounds, this`outboundByTag, this`defaultOutbound
      ensures Indexed()
      ensures failure == if old(defaultOutbound).Some? then None
                         else if defaultTag != "" && defaultTag in endpointByTag then None
                         else if defaultTag != "" then Some(DefaultNotFound)
                         else if fallback.None? then Some(FallbackFailed) else None
      ensures failure.Some? ==>
              outbounds == old(outbounds) && outboundByTag == old(outboundByTag) && defaultOutbound.None?
      ensures failure.None? ==>
                && defaultOutbound == (if old(defaultOutbound).Some? then old(defaultOutbound)
                                       else if defaultTag != "" then Some(endpointByTag[defaultTag]) else fallback)
                && outbounds == old(outbounds) + (if old(defaultOutbound).None? && defaultTag == ""
                    then [fallback.value] else [])
    {
      if defaultTag != "" && defaultOutbound.None? {
        if defaultTag !in endpointByTag { return Some(DefaultNotFound); }
        defaultOutbound := Some(endpointByTag[defaultTag]);
      }
      if defaultOutbound.None? {
        if fallback.None? { return Some(FallbackFailed); }
        outbounds := outbounds + [fallback.value];
        outboundByTag := outboundByTag[fallback.value.tag := fallback.value];
        defaultOutbound := fallback;
      }
      failure := None;
    }

    /** The start stage: settles the default outbound, creating the fallback when none is
        configured, then starts outbounds and endpoints in dependency order. */
    method Start(endpoints: seq<Outbound>, endpointByTag: map<string, Outbound>, fallback: Option<Outbound>,
                 succeeds: Element -> bool)
      returns (result: StartResult, calls: seq<Element>, passes: nat)
      requires Indexed()
      modifies this
      ensures Indexed() && started && dependByTag == old(dependByTag)
      ensures result.DefaultNotFound? <==>
              defaultTag != "" && old(defaultOutbound).None? && defaultTag !in endpointByTag
      ensures result.FallbackFailed? <==> defaultTag == "" && old(defaultOutbound).None? && fallback.None?
      ensures !result.Ran? ==>
              outbounds == old(outbounds) && outboundByTag == old(outboundByTag) && defaultOutbound.None?
      ensures result.Ran? ==>
                && defaultOutbound == (if old(defaultOutbound).Some? then old(defaultOutbound)
                                       else if defaultTag != "" then Some(endpointByTag[defaultTag]) else fallback)
                && outbounds == old(outbounds) + (if old(defaultOutbound).None? && defaultTag == ""
                    then [fallback.value] else [])
      // The fallback is not recorded under dependencies it may have.
      ensures old(Recorded()) && (outbounds == old(outbounds) || fallback.value.deps == []) ==> Recorded()
      ensures result.Ran? ==> RunOutcome(Elements(outbounds + endpoints), result.outcome, calls, succeeds)
      // What is reported as not found is no outbound, so it is listed exactly when it is an endpoint.
      ensures result.Ran? && result.outcome.Stalled? && result.outcome.diagnosis.NotFound? ==>
                var missing := result.outcome.diagnosis.missing;
                && missing !in outboundByTag
                && (missing in Tags(Elements(outbounds + endpoints)) <==> missing in Tags(Elements(endpoints)))
    {
      calls, passes, started := [], 0, true;
      var failure := SettleDefault(endpointByTag, fallback);
      if failure.Some? { return failure.value, calls, passes; }
      var outcome;
      IndexOfLonger(outbounds, endpoints, outboundByTag);
      outcome, calls, passes := StartAll(Elements(outbounds + endpoints), ElementIndex(outboundByTag), succeeds);
      result := Ran(outcome);
    }

    /** What a start that ran achieved, for the elements in list order. */
    ghost predicate RunOutcome(all: seq<Element>, outcome: Outcome, calls: seq<Element>, succeeds: Element -> bool)
      reads `outboundByTag
    {
      && WellOrdered(calls)
      && ((forall e :: e in all ==> succeeds(e)) ==>
            (outcome.AllStarted? <==> DistinctTags(all) && DependenciesListed(all) && Acyclic(all)))
      && (!outcome.StartFailed? ==> LeastClosed(all, Tags(calls)))
      && (outcome.Stalled? ==>
            && outcome == StalledAt(all, ElementIndex(outboundByTag), Tags(calls), 0)
            && Genuine(all, ElementIndex(outboundByTag), Tags(calls), outcome.diagnosis))
      && (outcome.NilElement? ==> !DistinctTags(all))
    }
  }

  /** `d`, and `a`, which lists `d` twice. */
  method TwoOutbounds() returns (m: Manager)
    ensures fresh(m) && m.Indexed() && m.outboundByTag.Keys == {"d", "a"} && m.outboundByTag["a"].deps == ["d", "d"]
    ensures m.dependByTag == AddRecords(map[], ["d", "d"], "a")
    ensures forall o :: o in m.outbounds ==> o.id < 2
  {
    m := new Manager("");
    var d, a := Node(0, "d", [], ()), Node(1, "a", ["d", "d"], ());
    var ok := m.Create("d", Some(d), true, true);
    assert m.outbounds == [d];
    ok := m.Create("a", Some(a), true, true);
    assert m.outbounds == [d, a];
  }

  /** And `b`, which has `d` once. */
  method ThreeOutbounds() returns (m: Manager, b: Outbound)
    ensures fresh(m) && m.Indexed() && b in m.outbounds && b.tag == "b" && b.deps == ["d"]
    ensures "a" in m.outboundByTag && m.outboundByTag["a"].deps == ["d", "d"] && "d" in m.outboundByTag
    ensures m.dependByTag == RecordsOf([Creation(["d", "d"], "a"), Creation(["d"], "b")])
  {
    m := TwoOutbounds();
    b := Node(2, "b", ["d"], ());
    var ok := m.Create("b", Some(b), true, true);
    var first, second := Creation(["d", "d"], "a"), Creation(["d"], "b");
    assert [first, second][..1] == [first] && [first][..0] == [];
    assert RecordsOf([first]) == AddRecords(map[], ["d", "d"], "a");
  }

  /** Removing `a` forgets that `b` depends on `d` as well, so `d` can be removed under it. */
  method RepeatedDependencyIsLost() returns (m: Manager, b: Outbound, result: RemoveResult)
    ensures b in m.outbounds && b.deps == ["d"] && result.Removed? && "d" !in m.outboundByTag
  {
    m, b := ThreeOutbounds();
    var closed;
    RepeatedLosesOther(Creation(["d", "d"], "a"), 0, 1, "b");
    result, closed := m.Remove("a");
    result, closed := m.Remove("d");
  }
}
