/** The DNS transport manager: Create, Remove and Start, and what becomes of the rule that the
    default server is never fakeip. */
module TransportManagers {
  import opened Prelude
  import opened StartOrder
  import opened Registry

  datatype TransportKind = FakeIP | OtherServer

  type Transport = Node<TransportKind>

  datatype CreateResult =
    | Created
    | InvalidTag
    | CreateFailed
    | NotStarted
    | CloseFailed
    | DefaultIsFakeIP
    | SecondFakeIP

  /** Creation got as far as the list and the index. */
  predicate Installs(r: CreateResult) { r.Created? || r.DefaultIsFakeIP? || r.SecondFakeIP? }

  datatype RemoveResult = Removed | UnknownTag | SuccessorRefused | DependedBy(dependents: seq<string>)

  class Manager {
    const defaultTag: string
    var started: bool
    var transports: seq<Transport>
    var transportByTag: map<string, Transport>
    var dependByTag: Records
    var defaultTransport: Option<Transport>
    var fakeIPTransport: Option<Transport>

    ghost predicate Indexed()
      reads `transports, `transportByTag, `fakeIPTransport
    {
      Bijection(transports, transportByTag) && (fakeIPTransport.Some? ==> fakeIPTransport.value.kind.FakeIP?)
    }

    /** Every live transport lists each dependency once and is recorded under each of them. */
    ghost predicate Recorded()
      reads `transports, `dependByTag
    {
      AllRecorded(transports, dependByTag)
    }

    /** The default server is not fakeip. */
    predicate DefaultSafe()
      reads `defaultTransport
    {
      defaultTransport.Some? ==> !defaultTransport.value.kind.FakeIP?
    }

    /** The default, if there is one, is a listed transport. */
    ghost predicate DefaultListed()
      reads `defaultTransport, `transports
    {
      defaultTransport.Some? ==> defaultTransport.value in transports
    }

    constructor (defaultTag: string)
      ensures Indexed() && Recorded() && DefaultSafe() && Exact(transports, dependByTag)
      ensures !started && transports == [] && defaultTransport.None? && fakeIPTransport.None?
      ensures this.defaultTag == defaultTag
    {
      this.defaultTag := defaultTag;
      started, transports, transportByTag, dependByTag := false, [], map[], map[];
      defaultTransport, fakeIPTransport := None, None;
    }

    /** A transport with this tag becomes the default, unless it is fakeip. */
    predicate TakesDefault(tag: string)
      reads `defaultTransport
    {
      tag == defaultTag || (defaultTag == "" && defaultTransport.None?)
    }

    /** Gives a transport just installed its roles, or refuses them. */
    method AssignRoles(transport: Transport) returns (result: CreateResult)
      modifies this`defaultTransport, this`fakeIPTransport
      ensures result == if !transport.kind.FakeIP? then Created
                        else if old(TakesDefault(transport.tag)) then DefaultIsFakeIP
                        else if old(fakeIPTransport).Some? then SecondFakeIP else Created
      ensures defaultTransport == if old(TakesDefault(transport.tag)) && !transport.kind.FakeIP? then Some(transport)
                                  else old(defaultTransport)
      ensures fakeIPTransport == if transport.kind.FakeIP? && result.Created? then Some(transport)
              else old(fakeIPTransport)
    {
      if TakesDefault(transport.tag) {
        if transport.kind.FakeIP? { return DefaultIsFakeIP; }
        defaultTransport := Some(transport);
      }
      if transport.kind.FakeIP? {
        if fakeIPTransport.Some? { return SecondFakeIP; }
        fakeIPTransport := Some(transport);
      }
      result := Created;
    }

    /** Puts a transport on the list, in the index and in the records of its dependencies, and only
        then decides whether its roles are refused. */
    method Install(transport: Transport) returns (result: CreateResult)
      requires Indexed() && transport !in transports
      modifies this`transports, this`transportByTag, this`dependByTag, this`defaultTransport, this`fakeIPTransport
      ensures Indexed() && (old(DefaultSafe()) ==> DefaultSafe())
      ensures transports == Evicted(old(transports), old(transportByTag), transport.tag) + [transport]
      ensures transportByTag == old(transportByTag)[transport.tag := transport]
      ensures dependByTag == AddRecords(old(dependByTag), transport.deps, transport.tag)
      ensures result == if !transport.kind.FakeIP? then Created
                        else if old(TakesDefault(transport.tag)) then DefaultIsFakeIP
                        else if old(fakeIPTransport).Some? then SecondFakeIP else Created
      ensures defaultTransport == if old(TakesDefault(transport.tag)) && !transport.kind.FakeIP? then Some(transport)
                                  else old(defaultTransport)
      ensures fakeIPTransport == if transport.kind.FakeIP? && result.Created? then Some(transport)
              else old(fakeIPTransport)
      ensures old(Recorded()) && NoDup(transport.deps) ==> Recorded()
      ensures Exact(old(transports), old(dependByTag)) ==>
                (Exact(transports, dependByTag) <==>
                   (transport.tag in old(transportByTag) ==>
                      forall d :: d in old(transportByTag)[transport.tag].deps ==> d in transport.deps))
      // The default is lost from the list exactly when it is replaced by one that does not take its place.
      ensures old(DefaultListed()) ==>
                (DefaultListed() <==>
                   !(transport.tag in old(transportByTag)
                     && old(defaultTransport) == Some(old(transportByTag)[transport.tag])
                     && (transport.tag != defaultTag || transport.kind.FakeIP?)))
    {
      if DefaultListed() { DefaultAfterCreate(transports, transportByTag, defaultTransport, transport); }
      Enlist(transport);
      result := AssignRoles(transport);
    }

    /** Puts a transport on the list, in the index and in the records of its dependencies. */
    method Enlist(transport: Transport)
      requires Bijection(transports, transportByTag)
      modifies this`transports, this`transportByTag, this`dependByTag
      ensures Bijection(transports, transportByTag)
      ensures transports == Evicted(old(transports), old(transportByTag), transport.tag) + [transport]
      ensures transportByTag == old(transportByTag)[transport.tag := transport]
      ensures dependByTag == AddRecords(old(dependByTag), transport.deps, transport.tag)
      ensures old(Recorded()) && NoDup(transport.deps) ==> Recorded()
      ensures Exact(old(transports), old(dependByTag)) ==>
                (Exact(transports, dependByTag) <==>
                   (transport.tag in old(transportByTag) ==>
                      forall d :: d in old(transportByTag)[transport.tag].deps ==> d in transport.deps))
    {
      CreateKeeps(transports, transportByTag, dependByTag, transport);
      if Exact(transports, dependByTag) { CreateExactIff(transports, transportByTag, dependByTag, transport); }
      transports := Evicted(transports, transportByTag, transport.tag) + [transport];
      transportByTag := transportByTag[transport.tag := transport];
      dependByTag := RecordDependencies(dependByTag, transport.deps, transport.tag);
    }

    /** Adds or replaces the transport for `tag`. Both fakeip refusals come after the list, the
        index and the records already hold the new transport. */
    method Create(tag: string, created: Option<Transport>, startOk: bool, closeOk: bool) returns (result: CreateResult)
      requires Indexed()
      requires created.Some? ==> created.value.tag == tag && created.value !in transports
      modifies this`transports, this`transportByTag, this`dependByTag, this`defaultTransport, this`fakeIPTransport
      ensures Indexed() && (old(DefaultSafe()) ==> DefaultSafe())
      ensures result.InvalidTag? <==> tag == ""
      ensures Installs(result) <==>
              && tag != "" && created.Some? && (started ==> startOk)
              && (started && tag in old(transportByTag) ==> closeOk)
      ensures !Installs(result) ==> unchanged(this)
      ensures Installs(result) ==>
                && transportByTag == old(transportByTag)[tag := created.value]
                && transports == Evicted(old(transports), old(transportByTag), tag) + [created.value]
                && dependByTag == AddRecords(old(dependByTag), created.value.deps, tag)
                && var takesDefault := tag == defaultTag || (defaultTag == "" && old(defaultTransport).None?);
                && (result.DefaultIsFakeIP? <==> created.value.kind.FakeIP? && takesDefault)
                && (result.SecondFakeIP? <==>
                      created.value.kind.FakeIP? && !takesDefault && old(fakeIPTransport).Some?)
                && defaultTransport == (if result.Created? && takesDefault then created else old(defaultTransport))
                && fakeIPTransport == (if result.Created? && created.value.kind.FakeIP? then created
                    else old(fakeIPTransport))
    {
      if tag == "" { return InvalidTag; }
      if created.None? { return CreateFailed; }
      if started && !startOk { return NotStarted; }
      if started && tag in transportByTag && !closeOk { return CloseFailed; }
      result := Install(created.value);
    }

    /** Removing `tag` makes a fakeip server the default. */
    ghost predicate MakesFakeIPDefault(tag: string)
      reads `transports, `transportByTag, `defaultTransport
    {
      && tag in transportByTag && defaultTransport == Some(transportByTag[tag])
      && var rest := Evicted(transports, transportByTag, tag);
         rest != [] && rest[0].kind.FakeIP?
    }

    /** Takes the transport for `tag` off the list and the index. If it was the default, the first
        one left is to succeed it; the source's test is the wrong way round, so a fakeip server
        succeeds and any other is refused. */
    method Unlist(tag: string) returns (refused: bool)
      requires Indexed() && tag in transportByTag
      modifies this`transports, this`transportByTag, this`defaultTransport
      ensures Indexed() && transportByTag == old(transportByTag) - {tag}
      ensures transports == Evicted(old(transports), old(transportByTag), tag)
      ensures forall t :: t in transports <==> t in old(transports) && t.tag != tag
      ensures var wasDefault := old(defaultTransport) == Some(old(transportByTag)[tag]);
              && (refused <==> wasDefault && transports != [] && !transports[0].kind.FakeIP?)
              && defaultTransport == (if !wasDefault || refused then old(defaultTransport)
                                      else if transports == [] then None else Some(transports[0]))
      ensures old(DefaultSafe()) ==> (DefaultSafe() <==> !old(MakesFakeIPDefault(tag)))
      ensures old(DefaultListed()) ==> (DefaultListed() <==> !refused)
    {
      var transport := transportByTag[tag];
      EvictedMeaning(transports, transportByTag, tag);
      assert transport in transports;
      transportByTag := transportByTag - {tag};
      transports := RemoveAt(transports, Find(transports, transport));
      if defaultTransport == Some(transport) {
        if |transports| > 0 {
          if transports[0].kind != FakeIP { return true; }
          defaultTransport := Some(transports[0]);
        } else {
          defaultTransport := None;
        }
      }
      refused := false;
    }

    /** Takes a transport, one of `before`, out of its dependencies' records, unless the successor was
        refused or something depends on it. */
    method Unrecord(transport: Transport, refused: bool, ghost before: seq<Transport>,
                    ghost index: map<string, Transport>)
      returns (result: RemoveResult)
      requires Bijection(before, index) && transport in before
      requires forall t :: t in transports <==> t in before && t.tag != transport.tag
      modifies this`dependByTag
      ensures var dependents := Dependents(old(dependByTag), transport.tag);
              result == if refused then SuccessorRefused
                        else if dependents == [] then Removed
                        else DependedBy(dependents)
      ensures dependByTag == if result.Removed? then DropRecords(old(dependByTag), transport.deps, transport.tag)
                             else old(dependByTag)
      ensures AllRecorded(before, old(dependByTag)) ==> Recorded()
      ensures Exact(before, old(dependByTag)) && result.Removed? ==>
                && (forall x :: !DependsLive(before, x, transport.tag))
                && (NoDup(transport.deps) ==> Exact(transports, dependByTag))
    {
      RemovalRecords(before, transports, index, dependByTag, transport);
      if refused { return SuccessorRefused; }
      var dependents := Dependents(dependByTag, transport.tag);
      if dependents != [] { return DependedBy(dependents); }
      dependByTag := ForgetDependencies(dependByTag, transport.deps, transport.tag);
      result := Removed;
    }

    /** Removes the transport for `tag`. The list and the index lose it even when the removal is
        refused, by the successor test or because something depends on it. */
    method Remove(tag: string) returns (result: RemoveResult, closed: bool)
      requires Indexed()
      modifies this`transports, this`transportByTag, this`dependByTag, this`defaultTransport
      ensures Indexed() && transportByTag == old(transportByTag) - {tag}
      ensures forall t :: t in transports <==> t in old(transports) && t.tag != tag
      ensures closed <==> result.Removed? && started
      ensures result.UnknownTag? <==> tag !in old(transportByTag)
      ensures result.Removed? || result.DependedBy? <==> tag in old(transportByTag) && !result.SuccessorRefused?
      ensures result.Removed? ==> Dependents(old(dependByTag), tag) == []
      ensures result.DependedBy? ==> result.dependents == Dependents(old(dependByTag), tag) != []
      ensures dependByTag == if result.Removed? then DropRecords(old(dependByTag), old(transportByTag)[tag].deps, tag)
                             else old(dependByTag)
      // The default stays safe exactly when no fakeip server succeeds it.
      ensures old(DefaultSafe()) ==> (DefaultSafe() <==> !old(MakesFakeIPDefault(tag)))
      // A default with a proper server to succeed it is refused, and stays the default although it is off the list.
      ensures result.SuccessorRefused? <==>
              && tag in old(transportByTag) && old(defaultTransport) == Some(old(transportByTag)[tag])
              && transports != [] && !transports[0].kind.FakeIP?
      ensures old(DefaultListed()) ==> (DefaultListed() <==> !result.SuccessorRefused?)
      ensures old(Recorded()) ==> Recorded()
      ensures Exact(old(transports), old(dependByTag)) && result.Removed? ==>
                && (forall x :: !DependsLive(old(transports), x, tag))
                && (NoDup(old(transportByTag)[tag].deps) ==> Exact(transports, dependByTag))
    {
      if tag !in transportByTag { return UnknownTag, false; }
      var transport := transportByTag[tag];
      var refused := Unlist(tag);
      result := Unrecord(transport, refused, old(transports), old(transportByTag));
      closed := result.Removed? && started;
    }

    /** Start will append a fallback whose tag is already taken: only after a Create that was
        refused because the first server, tagged like the fallback, was fakeip. */
    ghost predicate FallbackClashes(fallback: Option<Transport>)
      reads `transportByTag, `defaultTransport
    {
      defaultTag == "" && defaultTransport.None? && fallback.Some? && fallback.value.tag in transportByTag
    }

    /** Settles the default server: the configured one must be there, otherwise the fallback is appended. */
    method SettleDefault(fallback: Option<Transport>) returns (failure: Option<StartResult>)
      requires Indexed()
      requires fallback.Some? ==> !fallback.value.kind.FakeIP? && fallback.value !in transports
      modifies this`transports, this`transportByTag, this`defaultTransport
      ensures Indexed() <==> !old(FallbackClashes(fallback))
      ensures failure == if old(defaultTransport).Some? then None
                         else if defaultTag != "" then Some(DefaultNotFound)
                         else if fallback.None? then Some(FallbackFailed) else None
      ensures failure.None? ==>
                && defaultTransport.Some? && (old(DefaultSafe()) ==> DefaultSafe())
                && NamesAll(transports, transportByTag) && (DistinctTags(Elements(transports)) <==> Indexed())
    {
      if defaultTag != "" && defaultTransport.None? { return Some(DefaultNotFound); }
      if defaultTransport.None? {
        if fallback.None? { return Some(FallbackFailed); }
        AppendMeaning(transports, transportByTag, fallback.value);
        transports := transports + [fallback.value];
        transportByTag := transportByTag[fallback.value.tag := fallback.value];
        defaultTransport := fallback;
      } else {
        IndexIsList(transports, transportByTag);
      }
      failure := None;
    }

    /** The start stage. The fallback is the local server, so it is not fakeip. */
    method Start(fallback: Option<Transport>, succeeds: Element -> bool)
      returns (result: StartResult, calls: seq<Element>, passes: nat)
      requires Indexed()
      requires fallback.Some? ==> !fallback.value.kind.FakeIP? && fallback.value !in transports
      modifies this
      ensures started && (Indexed() <==> !old(FallbackClashes(fallback)))
      ensures result.DefaultNotFound? <==> defaultTag != "" && old(defaultTransport).None?
      ensures result.Ran? ==> defaultTransport.Some? && (old(DefaultSafe()) ==> DefaultSafe())
      ensures result.Ran? ==>
                var all := Elements(transports);
                && WellOrdered(calls)
                && ((forall e :: e in all ==> succeeds(e)) ==>
                      (result.outcome.AllStarted? <==> Indexed() && DependenciesListed(all) && Acyclic(all)))
                && (!result.outcome.StartFailed? ==> LeastClosed(all, Tags(calls)))
                && (result.outcome.Stalled? ==>
                      && Genuine(all, ElementIndex(transportByTag), Tags(calls), result.outcome.diagnosis)
                      && (result.outcome.diagnosis.NotFound? ==> result.outcome.diagnosis.missing !in Tags(all)))
                && (result.outcome.NilElement? ==> !Indexed())
    {
      calls, passes, started := [], 0, true;
      var failure := SettleDefault(fallback);
      if failure.Some? { return failure.value, calls, passes; }
      var outcome;
      outcome, calls, passes := StartAll(Elements(transports), ElementIndex(transportByTag), succeeds);
      result := Ran(outcome);
    }
  }

  method TwoServers() returns (m: Manager, local: Transport, fakeip: Transport)
    ensures fresh(m) && m.Indexed() && m.transports == [local, fakeip]
    ensures m.transportByTag == map["l" := local, "f" := fakeip]
    ensures m.defaultTransport == Some(local) && m.DefaultSafe() && fakeip.kind == FakeIP
  {
    m := new Manager("");
    local, fakeip := Node(0, "l", [], OtherServer), Node(1, "f", [], FakeIP);
    var first := m.Create("l", Some(local), true, true);
    var second := m.Create("f", Some(fakeip), true, true);
  }

  /** Two servers, the second fakeip: removing the first leaves the second as the default. */
  method FakeIPBecomesDefault() returns (m: Manager)
    ensures fresh(m) && m.Indexed() && m.defaultTransport.Some? && !m.DefaultSafe()
  {
    var local, fakeip;
    m, local, fakeip := TwoServers();
    assert Find([local, fakeip], local) == 0 && RemoveAt([local, fakeip], 0) == [fakeip];
    var result, closed := m.Remove("l");
  }
}
