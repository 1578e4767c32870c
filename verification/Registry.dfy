/** What the outbound manager and the DNS transport manager have in common: a list of objects, an
    index by tag, and a record of who depends on whom, kept in step as objects come and go. */
module Registry {
  import opened Prelude
  import opened StartOrder

  /** A managed object; `id` stands for its identity, which the managers compare. */
  datatype Node<K> = Node(id: nat, tag: string, deps: seq<string>, kind: K) {
    function ToElement(): Element { Element(tag, deps) }
  }

  datatype StartResult =
    | DefaultNotFound
    | FallbackFailed
    | Ran(outcome: Outcome)

  // ---------------------------------------------------------------- reverse-dependency records

  type Records = map<string, seq<string>>

  function Dependents(records: Records, tag: string): seq<string> {
    if tag in records then records[tag] else []
  }

  function Without(s: seq<string>, tag: string): (r: seq<string>)
    ensures forall x :: x in r <==> x in s && x != tag
  {
    if s == [] then [] else (if s[0] == tag then [] else [s[0]]) + Without(s[1..], tag)
  }

  /** Records `tag` under every dependency. */
  function AddRecords(records: Records, deps: seq<string>, tag: string): Records
    decreases deps
  {
    if deps == [] then records
    else AddRecords(records[deps[0] := Dependents(records, deps[0]) + [tag]], deps[1..], tag)
  }

  function DropRecord(records: Records, dep: string, tag: string): Records {
    if |Dependents(records, dep)| == 1 then records - {dep}
    else records[dep := Without(Dependents(records, dep), tag)]
  }

  /** Takes `tag` out from under every dependency, deleting records that held one name. */
  function DropRecords(records: Records, deps: seq<string>, tag: string): Records
    decreases deps
  {
    if deps == [] then records
    else DropRecords(DropRecord(records, deps[0], tag), deps[1..], tag)
  }

  ghost predicate RecordedUnder(records: Records, deps: seq<string>, tag: string) {
    forall d :: d in deps ==> tag in Dependents(records, d)
  }

  /** Nothing but `tag` changes: every other name stays where it was and appears nowhere new. */
  ghost predicate SameForOthers(before: Records, after: Records, tag: string) {
    forall d, x :: x != tag ==> (x in Dependents(before, d) <==> x in Dependents(after, d))
  }

  lemma {:induction false} AddRecordsMeaning(records: Records, deps: seq<string>, tag: string)
    ensures RecordedUnder(AddRecords(records, deps, tag), deps, tag)
    ensures SameForOthers(records, AddRecords(records, deps, tag), tag)
    ensures forall d :: d !in deps ==> Dependents(AddRecords(records, deps, tag), d) == Dependents(records, d)
    ensures forall d :: tag in Dependents(records, d) ==> tag in Dependents(AddRecords(records, deps, tag), d)
    decreases deps
  {
    if deps != [] {
      var next := records[deps[0] := Dependents(records, deps[0]) + [tag]];
      AddRecordsMeaning(next, deps[1..], tag);
      assert tag in Dependents(next, deps[0]);
    }
  }

  /** One removed node that was recorded under each dependency, listed once, takes away
      exactly its own records. */
  lemma {:induction false} DropRecordsMeaning(records: Records, deps: seq<string>, tag: string)
    requires NoDup(deps) && RecordedUnder(records, deps, tag)
    ensures SameForOthers(records, DropRecords(records, deps, tag), tag)
    ensures forall d :: d in deps ==> tag !in Dependents(DropRecords(records, deps, tag), d)
    ensures forall d :: d !in deps ==> Dependents(DropRecords(records, deps, tag), d) == Dependents(records, d)
    decreases deps
  {
    if deps != [] {
      var next := DropRecord(records, deps[0], tag);
      assert SameForOthers(records, next, tag) && tag !in Dependents(next, deps[0]);
      assert RecordedUnder(next, deps[1..], tag) by {
        forall d | d in deps[1..] ensures tag in Dependents(next, d) {
          var i :| 0 <= i < |deps[1..]| && deps[1..][i] == d;
          assert deps[i + 1] == d && d != deps[0] && d in deps;
        }
      }
      DropRecordsMeaning(next, deps[1..], tag);
    }
  }

  // ---------------------------------------------------------------- repeated dependencies

  /** Something created: its dependencies and its tag. */
  datatype Creation = Creation(deps: seq<string>, tag: string)

  /** The records these creations leave. */
  function RecordsOf(creations: seq<Creation>): Records {
    if creations == [] then map[]
    else
      var n := |creations| - 1;
      AddRecords(RecordsOf(creations[..n]), creations[n].deps, creations[n].tag)
  }

  lemma {:induction false} CreatedIsRecorded(creations: seq<Creation>, c: Creation)
    requires c in creations
    ensures RecordedUnder(RecordsOf(creations), c.deps, c.tag)
  {
    var n := |creations| - 1;
    var last := creations[n];
    AddRecordsMeaning(RecordsOf(creations[..n]), last.deps, last.tag);
    if c != last { CreatedIsRecorded(creations[..n], c); }
  }

  /** A repeated dependency deletes somebody else's record: removing what was created leaves the others'
      records alone, whatever else was created, exactly when each dependency is listed once. */
  lemma DropRecordsSafeIffDistinct(c: Creation)
    ensures NoDup(c.deps) <==>
            forall creations: seq<Creation> :: c in creations ==>
              SameForOthers(RecordsOf(creations), DropRecords(RecordsOf(creations), c.deps, c.tag), c.tag)
  {
    if NoDup(c.deps) {
      forall creations: seq<Creation> | c in creations
        ensures SameForOthers(RecordsOf(creations), DropRecords(RecordsOf(creations), c.deps, c.tag), c.tag)
      {
        CreatedIsRecorded(creations, c);
        DropRecordsMeaning(RecordsOf(creations), c.deps, c.tag);
      }
    } else {
      var i, j :| 0 <= i < j < |c.deps| && c.deps[i] == c.deps[j];
      var other := Creation([c.deps[i]], c.tag + "x");
      var creations := [c, other];
      RepeatedLosesOther(c, i, j, other.tag);
      assert c in creations && other in creations;
      CreatedIsRecorded(creations, other);
      assert other.tag in Dependents(RecordsOf(creations), c.deps[i]);
      assert !SameForOthers(RecordsOf(creations), DropRecords(RecordsOf(creations), c.deps, c.tag), c.tag);
    }
  }

  /** The records of something that lists a dependency twice and of something else that has it too:
      removing the former leaves nothing recorded under the dependency. */
  lemma RepeatedLosesOther(c: Creation, i: nat, j: nat, other: string)
    requires i < j < |c.deps| && c.deps[i] == c.deps[j] && other != c.tag
    ensures var records := RecordsOf([c, Creation([c.deps[i]], other)]);
            other in Dependents(records, c.deps[i]) && Dependents(DropRecords(records, c.deps, c.tag), c.deps[i]) == []
  {
    var d, second := c.deps[i], Creation([c.deps[i]], other);
    var first := AddRecords(map[], c.deps, c.tag);
    assert [c, second][..1] == [c] && [c][..0] == [];
    assert RecordsOf([c]) == first;
    assert AddRecords(first, [d], other) == first[d := Dependents(first, d) + [other]];
    RecordedPerListing(map[], c.deps, c.tag, i, j);
    WithoutAll(Dependents(first, d), c.tag, other);
    DropTwice(RecordsOf([c, second]), c.deps, c.tag, other, i, j);
  }

  /** Recording under a dependency listed twice leaves the tag there twice at least, and nothing new else. */
  lemma {:induction false} RecordedPerListing(records: Records, deps: seq<string>, tag: string, i: nat, j: nat)
    requires i < j < |deps| && deps[i] == deps[j]
    requires forall x :: x in Dependents(records, deps[i]) ==> x == tag
    ensures var s := Dependents(AddRecords(records, deps, tag), deps[i]);
            |s| >= |Dependents(records, deps[i])| + 2 && forall x :: x in s ==> x == tag
    decreases deps
  {
    var next := records[deps[0] := Dependents(records, deps[0]) + [tag]];
    assert forall x :: x in Dependents(next, deps[i]) ==> x == tag || x in Dependents(records, deps[i]);
    if i > 0 {
      assert deps[1..][i - 1] == deps[i] && deps[1..][j - 1] == deps[j];
      RecordedPerListing(next, deps[1..], tag, i - 1, j - 1);
    } else {
      assert deps[1..][j - 1] == deps[j];
      RecordedOnce(next, deps[1..], tag, j - 1);
    }
  }

  lemma {:induction false} RecordedOnce(records: Records, deps: seq<string>, tag: string, j: nat)
    requires j < |deps| && forall x :: x in Dependents(records, deps[j]) ==> x == tag
    ensures var s := Dependents(AddRecords(records, deps, tag), deps[j]);
            |s| >= |Dependents(records, deps[j])| + 1 && forall x :: x in s ==> x == tag
    decreases deps
  {
    var next := records[deps[0] := Dependents(records, deps[0]) + [tag]];
    assert forall x :: x in Dependents(next, deps[j]) ==> x == tag || x in Dependents(records, deps[j]);
    if j > 0 {
      assert deps[1..][j - 1] == deps[j];
      RecordedOnce(next, deps[1..], tag, j - 1);
    } else {
      RecordsGrow(next, deps[1..], tag, deps[0]);
    }
  }

  lemma {:induction false} RecordsGrow(records: Records, deps: seq<string>, tag: string, d: string)
    requires forall x :: x in Dependents(records, d) ==> x == tag
    ensures var s := Dependents(AddRecords(records, deps, tag), d);
            |s| >= |Dependents(records, d)| && forall x :: x in s ==> x == tag
    decreases deps
  {
    if deps != [] {
      var next := records[deps[0] := Dependents(records, deps[0]) + [tag]];
      assert forall x :: x in Dependents(next, d) ==> x == tag || x in Dependents(records, d);
      RecordsGrow(next, deps[1..], tag, d);
    }
  }

  lemma {:induction false} WithoutAll(s: seq<string>, tag: string, other: string)
    requires other != tag && forall x :: x in s ==> x == tag
    ensures Without(s + [other], tag) == [other]
  {
    if s == [] {
      assert s + [other] == [other] && [other][1..] == [];
    } else {
      assert s[0] in s && (s + [other])[1..] == s[1..] + [other] && forall x :: x in s[1..] ==> x in s;
      WithoutAll(s[1..], tag, other);
    }
  }

  lemma {:induction false} DropKeepsGone(records: Records, deps: seq<string>, tag: string, d: string)
    requires Dependents(records, d) == []
    ensures Dependents(DropRecords(records, deps, tag), d) == []
    decreases deps
  {
    if deps != [] { DropKeepsGone(DropRecord(records, deps[0], tag), deps[1..], tag, d); }
  }

  /** Two drops from a record of several `tag`s and one `other`: the first leaves the other, the second
      takes it for the last of its own. */
  lemma {:induction false} DropTwice(records: Records, deps: seq<string>, tag: string, other: string, i: nat, j: nat)
    requires i < j < |deps| && deps[i] == deps[j]
    requires var s := Dependents(records, deps[i]); s == [] || s == [other] || (|s| > 1 && Without(s, tag) == [other])
    ensures Dependents(DropRecords(records, deps, tag), deps[i]) == []
    decreases deps
  {
    var next := DropRecord(records, deps[0], tag);
    if i > 0 { DropTwice(next, deps[1..], tag, other, i - 1, j - 1); }
    else { DropOnce(next, deps[1..], tag, other, j - 1); }
  }

  lemma {:induction false} DropOnce(records: Records, deps: seq<string>, tag: string, other: string, j: nat)
    requires j < |deps|
    requires Dependents(records, deps[j]) == [other] || Dependents(records, deps[j]) == []
    ensures Dependents(DropRecords(records, deps, tag), deps[j]) == []
    decreases deps
  {
    var next := DropRecord(records, deps[0], tag);
    if j > 0 { DropOnce(next, deps[1..], tag, other, j - 1); }
    else { DropKeepsGone(next, deps[1..], tag, deps[0]); }
  }

  method RecordDependencies(records: Records, deps: seq<string>, tag: string) returns (after: Records)
    ensures after == AddRecords(records, deps, tag)
  {
    after := records;
    for i := 0 to |deps|
      invariant AddRecords(after, deps[i..], tag) == AddRecords(records, deps, tag)
    {
      assert deps[i..][1..] == deps[i + 1..];
      after := after[deps[i] := Dependents(after, deps[i]) + [tag]];
    }
  }

  method ForgetDependencies(records: Records, deps: seq<string>, tag: string) returns (after: Records)
    ensures after == DropRecords(records, deps, tag)
  {
    after := records;
    for i := 0 to |deps|
      invariant DropRecords(after, deps[i..], tag) == DropRecords(records, deps, tag)
    {
      assert deps[i..][1..] == deps[i + 1..];
      if |Dependents(after, deps[i])| == 1 {
        after := after - {deps[i]};
      } else {
        after := after[deps[i] := Without(Dependents(after, deps[i]), tag)];
      }
    }
  }

  // ---------------------------------------------------------------- the list and the index

  function Elements<K>(nodes: seq<Node<K>>): (r: seq<Element>)
    ensures |r| == |nodes|
    ensures forall i :: 0 <= i < |r| ==> r[i] == nodes[i].ToElement()
  {
    seq(|nodes|, i requires 0 <= i < |nodes| => nodes[i].ToElement())
  }

  /** Position of `o`, or the length of the list. */
  function Find<K(==)>(s: seq<Node<K>>, o: Node<K>): (k: nat)
    ensures k <= |s| && (k < |s| <==> o in s) && (k < |s| ==> s[k] == o)
  {
    if s == [] then 0 else if s[0] == o then 0 else 1 + Find(s[1..], o)
  }

  function RemoveAt<K>(s: seq<Node<K>>, k: nat): seq<Node<K>>
    requires k < |s|
  {
    s[..k] + s[k + 1..]
  }

  lemma RemoveAtMeaning<K>(s: seq<Node<K>>, k: nat)
    requires k < |s| && NoDup(s)
    ensures NoDup(RemoveAt(s, k))
    ensures forall o :: o in RemoveAt(s, k) <==> o in s && o != s[k]
  {
  }

  /** The list holds no object twice and the index names exactly the listed objects by their tags. */
  ghost predicate Bijection<K>(nodes: seq<Node<K>>, index: map<string, Node<K>>) {
    && NoDup(nodes)
    && (forall o :: o in nodes ==> o.tag in index && index[o.tag] == o)
    && (forall t :: t in index ==> index[t] in nodes && index[t].tag == t)
  }

  ghost predicate AllRecorded<K>(nodes: seq<Node<K>>, records: Records) {
    forall o :: o in nodes ==> NoDup(o.deps) && RecordedUnder(records, o.deps, o.tag)
  }

  /** The list with the current holder of `tag`, if any, taken out. */
  function Evicted<K(==)>(nodes: seq<Node<K>>, index: map<string, Node<K>>, tag: string): seq<Node<K>> {
    if tag in index && index[tag] in nodes then RemoveAt(nodes, Find(nodes, index[tag])) else nodes
  }

  lemma EvictedMeaning<K>(nodes: seq<Node<K>>, index: map<string, Node<K>>, tag: string)
    requires Bijection(nodes, index)
    ensures Bijection(Evicted(nodes, index, tag), index - {tag})
    ensures forall o :: o in Evicted(nodes, index, tag) <==> o in nodes && o.tag != tag
  {
    if tag in index { RemoveAtMeaning(nodes, Find(nodes, index[tag])); }
  }

  lemma AppendKeepsBijection<K>(nodes: seq<Node<K>>, index: map<string, Node<K>>, o: Node<K>)
    requires Bijection(nodes, index) && o.tag !in index
    ensures Bijection(nodes + [o], index[o.tag := o])
  {
  }

  lemma CreateKeeps<K>(nodes: seq<Node<K>>, index: map<string, Node<K>>, records: Records, o: Node<K>)
    requires Bijection(nodes, index)
    ensures Bijection(Evicted(nodes, index, o.tag) + [o], index[o.tag := o])
    ensures AllRecorded(nodes, records) && NoDup(o.deps) ==>
              AllRecorded(Evicted(nodes, index, o.tag) + [o], AddRecords(records, o.deps, o.tag))
  {
    EvictedMeaning(nodes, index, o.tag);
    AppendKeepsBijection(Evicted(nodes, index, o.tag), index - {o.tag}, o);
    assert (index - {o.tag})[o.tag := o] == index[o.tag := o];
    AddRecordsMeaning(records, o.deps, o.tag);
  }

  lemma RecordedAfterRemove<K>(before: seq<Node<K>>, rest: seq<Node<K>>, records: Records, o: Node<K>)
    requires AllRecorded(before, records) && o in before
    requires forall x :: x in rest ==> x in before && x.tag != o.tag
    ensures AllRecorded(rest, DropRecords(records, o.deps, o.tag))
  {
    DropRecordsMeaning(records, o.deps, o.tag);
  }

  // ---------------------------------------------------------------- exact records

  ghost predicate DependsLive<K>(nodes: seq<Node<K>>, tag: string, dep: string) {
    exists o :: o in nodes && o.tag == tag && dep in o.deps
  }

  /** A name is recorded under a dependency exactly when a live node of that name has it. */
  ghost predicate Exact<K>(nodes: seq<Node<K>>, records: Records) {
    forall d, x :: x in Dependents(records, d) <==> DependsLive(nodes, x, d)
  }

  /** Replacing a node leaves the old one's records behind, so they stay exact exactly when the
      new one has all its dependencies. */
  lemma CreateExactIff<K>(nodes: seq<Node<K>>, index: map<string, Node<K>>, records: Records, o: Node<K>)
    requires Bijection(nodes, index) && Exact(nodes, records)
    ensures Exact(Evicted(nodes, index, o.tag) + [o], AddRecords(records, o.deps, o.tag)) <==>
            (o.tag in index ==> forall d :: d in index[o.tag].deps ==> d in o.deps)
  {
    var after, list := AddRecords(records, o.deps, o.tag), Evicted(nodes, index, o.tag) + [o];
    EvictedMeaning(nodes, index, o.tag);
    AddRecordsMeaning(records, o.deps, o.tag);
    forall d, x
      ensures x in Dependents(after, d) <==> DependsLive(nodes, x, d) || (x == o.tag && d in o.deps)
      ensures DependsLive(list, x, d) <==> (if x == o.tag then d in o.deps else DependsLive(nodes, x, d))
    {
      assert o in list;
    }
    if o.tag in index {
      forall d ensures DependsLive(nodes, o.tag, d) <==> d in index[o.tag].deps { assert index[o.tag] in nodes; }
    }
  }

  lemma DependedByLive<K>(nodes: seq<Node<K>>, records: Records, tag: string)
    requires Exact(nodes, records)
    ensures Dependents(records, tag) != [] <==> exists x :: DependsLive(nodes, x, tag)
  {
    if Dependents(records, tag) != [] { assert DependsLive(nodes, Dependents(records, tag)[0], tag); }
  }

  /** What is left of exact records once a node is off the list: still exact if its records go
      too, and otherwise only if it had no dependencies. */
  lemma RemoveExact<K>(nodes: seq<Node<K>>, rest: seq<Node<K>>, index: map<string, Node<K>>, records: Records,
                       o: Node<K>)
    requires Bijection(nodes, index) && Exact(nodes, records) && o in nodes
    requires forall x :: x in rest <==> x in nodes && x.tag != o.tag
    ensures NoDup(o.deps) ==> Exact(rest, DropRecords(records, o.deps, o.tag))
    ensures Exact(rest, records) <==> o.deps == []
  {
    forall d, x ensures DependsLive(rest, x, d) <==> x != o.tag && DependsLive(nodes, x, d) {}
    forall d ensures DependsLive(nodes, o.tag, d) <==> d in o.deps {}
    assert RecordedUnder(records, o.deps, o.tag);
    if NoDup(o.deps) { DropRecordsMeaning(records, o.deps, o.tag); }
    if o.deps != [] { assert o.deps[0] in o.deps && !DependsLive(rest, o.tag, o.deps[0]); }
  }

  /** Everything a manager needs to know about the records when `o` leaves the list. */
  lemma RemovalRecords<K>(nodes: seq<Node<K>>, rest: seq<Node<K>>, index: map<string, Node<K>>, records: Records,
                          o: Node<K>)
    requires Bijection(nodes, index) && o in nodes
    requires forall x :: x in rest <==> x in nodes && x.tag != o.tag
    ensures AllRecorded(nodes, records) ==>
              && AllRecorded(rest, records) && AllRecorded(rest, DropRecords(records, o.deps, o.tag))
              && (Dependents(records, o.tag) == [] ==> forall x :: x in rest ==> o.tag !in x.deps)
    ensures Exact(nodes, records) ==>
              && (Dependents(records, o.tag) != [] <==> exists x :: DependsLive(nodes, x, o.tag))
              && (NoDup(o.deps) ==> Exact(rest, DropRecords(records, o.deps, o.tag)))
              && (Exact(rest, records) <==> o.deps == [])
  {
    if AllRecorded(nodes, records) { RecordedAfterRemove(nodes, rest, records, o); }
    if Exact(nodes, records) {
      RemoveExact(nodes, rest, index, records, o);
      DependedByLive(nodes, records, o.tag);
    }
  }

  /** Installing `o` takes a listed default off the list exactly when `o` replaces it. */
  lemma DefaultAfterCreate<K>(nodes: seq<Node<K>>, index: map<string, Node<K>>, default: Option<Node<K>>, o: Node<K>)
    requires Bijection(nodes, index) && o !in nodes
    requires default.Some? ==> default.value in nodes
    ensures default.Some? ==>
              (default.value in Evicted(nodes, index, o.tag) + [o] <==>
                      !(o.tag in index && default == Some(index[o.tag])))
  {
  }

  // ---------------------------------------------------------------- the index as the diagnosis sees it

  function ElementIndex<K>(index: map<string, Node<K>>): map<string, Element> {
    map t | t in index :: index[t].ToElement()
  }

  /** The index names listed elements, and every one of them. */
  ghost predicate NamesAll<K>(nodes: seq<Node<K>>, index: map<string, Node<K>>) {
    && IndexOf(Elements(nodes), ElementIndex(index))
    && Tags(Elements(nodes)) == ElementIndex(index).Keys
  }

  lemma IndexIsList<K>(nodes: seq<Node<K>>, index: map<string, Node<K>>)
    requires Bijection(nodes, index)
    ensures NamesAll(nodes, index) && DistinctTags(Elements(nodes))
  {
    forall t | t in index ensures t in Tags(Elements(nodes)) && ElementIndex(index)[t] in Elements(nodes) {
      var k :| 0 <= k < |nodes| && nodes[k] == index[t];
      assert Elements(nodes)[k] == ElementIndex(index)[t];
    }
    forall t | t in Tags(Elements(nodes)) ensures t in index {
      var k :| 0 <= k < |nodes| && Elements(nodes)[k].tag == t;
      assert nodes[k] in nodes;
    }
  }

  /** The index of a list also serves a longer list: it names some of its elements. */
  lemma IndexOfLonger<K>(nodes: seq<Node<K>>, more: seq<Node<K>>, index: map<string, Node<K>>)
    requires Bijection(nodes, index)
    ensures IndexOf(Elements(nodes + more), ElementIndex(index))
    ensures Tags(Elements(nodes + more)) == ElementIndex(index).Keys + Tags(Elements(more))
  {
    IndexIsList(nodes, index);
    assert Elements(nodes + more) == Elements(nodes) + Elements(more);
    TagsAppend(Elements(nodes), Elements(more));
  }

  /** Appending an object keeps the list and the index in step exactly when its tag is new. */
  lemma AppendMeaning<K>(nodes: seq<Node<K>>, index: map<string, Node<K>>, o: Node<K>)
    requires Bijection(nodes, index) && o !in nodes
    ensures var all, index' := nodes + [o], index[o.tag := o];
            && NamesAll(all, index')
            && (Bijection(all, index') <==> o.tag !in index)
            && (DistinctTags(Elements(all)) <==> o.tag !in index)
  {
    if o.tag !in index {
      AppendKeepsBijection(nodes, index, o);
      IndexIsList(nodes + [o], index[o.tag := o]);
    } else {
      AppendClash(nodes, index, o);
    }
  }

  lemma AppendClash<K>(nodes: seq<Node<K>>, index: map<string, Node<K>>, o: Node<K>)
    requires Bijection(nodes, index) && o !in nodes && o.tag in index
    ensures var all, index' := nodes + [o], index[o.tag := o];
            NamesAll(all, index') && !Bijection(all, index') && !DistinctTags(Elements(all))
  {
    var all, last := nodes + [o], o.ToElement();
    var k :| 0 <= k < |nodes| && nodes[k] == index[o.tag];
    assert all[k].tag == all[|nodes|].tag && all[k] in all && Elements(all)[k].tag == Elements(all)[|nodes|].tag;
    assert NamesAll(all, index[o.tag := o]) by {
      IndexIsList(nodes, index);
      assert Elements(all) == Elements(nodes) + [last];
      NamesOneMore(Elements(nodes), ElementIndex(index), last);
      assert ElementIndex(index[o.tag := o]) == ElementIndex(index)[o.tag := last];
    }
  }

  lemma NamesOneMore(elements: seq<Element>, index: map<string, Element>, e: Element)
    requires IndexOf(elements, index) && Tags(elements) == index.Keys
    ensures IndexOf(elements + [e], index[e.tag := e]) && Tags(elements + [e]) == index[e.tag := e].Keys
  {
    TagsSnoc(elements, e);
    assert (elements + [e])[|elements|] in elements + [e];
  }
}
