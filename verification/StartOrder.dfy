/** Dependency-ordered start, shared by the outbound manager and the DNS transport manager:
    repeated passes over a list, each starting whatever has all its dependencies started,
    and the diagnosis that names the reason when a pass starts nothing. */
module StartOrder {

  /** An outbound, endpoint or DNS transport, as far as starting it is concerned. */
  datatype Element = Element(tag: string, deps: seq<string>)

  /** The error a stalled start reports. The message for `NotFound` prints only the last tag of `path`. */
  datatype Diagnosis =
    | Circular(path: seq<string>, repeated: string)
    | NotFound(path: seq<string>, missing: string)

  datatype Outcome =
    | AllStarted
    | StartFailed(element: Element)
    | Stalled(diagnosis: Diagnosis)
    | NilElement  // nothing is left to blame: the search for an unstarted element finds none

  predicate AllIn(deps: seq<string>, started: set<string>) {
    forall d :: d in deps ==> d in started
  }

  function Tags(elements: seq<Element>): set<string> {
    set i | 0 <= i < |elements| :: elements[i].tag
  }

  ghost predicate DistinctTags(elements: seq<Element>) {
    forall i, j :: 0 <= i < j < |elements| ==> elements[i].tag != elements[j].tag
  }

  /** Every dependency is the tag of a listed element. */
  ghost predicate DependenciesListed(elements: seq<Element>) {
    forall e :: e in elements ==> AllIn(e.deps, Tags(elements))
  }

  ghost predicate Edge(elements: seq<Element>, from: string, to: string) {
    exists e :: e in elements && e.tag == from && to in e.deps
  }

  /** Consecutive tags are dependency edges. */
  ghost predicate Chain(elements: seq<Element>, path: seq<string>) {
    forall i :: 0 <= i < |path| - 1 ==> Edge(elements, path[i], path[i + 1])
  }

  ghost predicate Cycle(elements: seq<Element>, path: seq<string>) {
    |path| >= 2 && path[0] == path[|path| - 1] && Chain(elements, path)
  }

  ghost predicate Acyclic(elements: seq<Element>) {
    forall path :: !Cycle(elements, path)
  }

  /** No element outside `s` has all its dependencies inside. */
  ghost predicate Closed(elements: seq<Element>, s: set<string>) {
    forall e :: e in elements && AllIn(e.deps, s) ==> e.tag in s
  }

  /** The least set closed under "all dependencies present": what any start order must reach. */
  ghost predicate LeastClosed(elements: seq<Element>, s: set<string>) {
    && Closed(elements, s)
    && forall t: set<string> :: Closed(elements, t) ==> s <= t
  }

  /** Every call comes after calls for all of its dependencies, and no tag is started twice. */
  ghost predicate WellOrdered(calls: seq<Element>) {
    && DistinctTags(calls)
    && forall i :: 0 <= i < |calls| ==> AllIn(calls[i].deps, Tags(calls[..i]))
  }

  // ---------------------------------------------------------------- diagnosis

  /** First tag not started, or the empty string when there is none. */
  function FirstUnstarted(deps: seq<string>, started: set<string>): (d: string)
    ensures !AllIn(deps, started) ==> d in deps && d !in started
  {
    if deps == [] then "" else if deps[0] !in started then deps[0] else FirstUnstarted(deps[1..], started)
  }

  function Lint(index: map<string, Element>, started: set<string>, path: seq<string>, current: Element): Diagnosis
    decreases index.Keys - set t | t in path
  {
    var problem := FirstUnstarted(current.deps, started);
    if problem in path then Circular(path, problem)
    else if problem !in index then NotFound(path, problem)
    else
      assert problem in index.Keys - (set t | t in path);
      Lint(index, started, path + [problem], index[problem])
  }

  /** Every unstarted element is waiting for something unstarted: what a pass without progress shows. */
  ghost predicate Stuck(elements: seq<Element>, started: set<string>) {
    forall e :: e in elements && e.tag !in started ==> !AllIn(e.deps, started)
  }

  /** The manager's tag index names listed elements by their own tag. */
  ghost predicate IndexOf(elements: seq<Element>, index: map<string, Element>) {
    forall t :: t in index ==> index[t] in elements && index[t].tag == t
  }

  ghost predicate Genuine(elements: seq<Element>, index: map<string, Element>, started: set<string>, d: Diagnosis) {
    && d.path != []
    && Chain(elements, d.path)
    && (forall t :: t in d.path ==> t in Tags(elements) && t !in started)
    && match d {
         case Circular(path, repeated) =>
           repeated in path && Edge(elements, path[|path| - 1], repeated)
         case NotFound(path, missing) =>
           missing !in index && missing !in started && missing !in path && Edge(elements, path[|path| - 1], missing)
       }
  }

  lemma {:induction false} LintIsGenuine(elements: seq<Element>, index: map<string, Element>, started: set<string>,
                                         path: seq<string>, current: Element)
    requires Stuck(elements, started) && IndexOf(elements, index)
    requires path != [] && Chain(elements, path)
    requires forall t :: t in path ==> t in Tags(elements) && t !in started
    requires current in elements && current.tag == path[|path| - 1]
    ensures Genuine(elements, index, started, Lint(index, started, path, current))
    decreases index.Keys - set t | t in path
  {
    var problem := FirstUnstarted(current.deps, started);
    assert Edge(elements, path[|path| - 1], problem);
    if problem !in path && problem in index {
      assert problem in index.Keys - (set t | t in path);
      LintIsGenuine(elements, index, started, path + [problem], index[problem]);
    }
  }

  /** A circular diagnosis contains a real dependency cycle. */
  lemma CircularHasCycle(elements: seq<Element>, index: map<string, Element>, started: set<string>, d: Diagnosis)
    requires Genuine(elements, index, started, d) && d.Circular?
    ensures !Acyclic(elements)
  {
    var k :| 0 <= k < |d.path| && d.path[k] == d.repeated;
    var cycle := d.path[k..] + [d.repeated];
    forall i | 0 <= i < |cycle| - 1 ensures Edge(elements, cycle[i], cycle[i + 1]) {
      if i < |cycle| - 2 { assert cycle[i] == d.path[k + i] && cycle[i + 1] == d.path[k + i + 1]; }
    }
    assert Cycle(elements, cycle);
  }

  // ---------------------------------------------------------------- what can be started

  /** Two lists of the same elements, in any order, have the same startable set. */
  lemma OrderIndependent(xs: seq<Element>, ys: seq<Element>, s: set<string>, t: set<string>)
    requires forall e :: e in xs <==> e in ys
    requires LeastClosed(xs, s) && LeastClosed(ys, t)
    ensures s == t
  {
    assert Closed(ys, s) && Closed(xs, t);
  }

  lemma LeastClosedWithinTags(elements: seq<Element>, s: set<string>)
    requires LeastClosed(elements, s)
    ensures s <= Tags(elements)
  {
    assert Closed(elements, Tags(elements));
  }

  /** Index holding, for every tag, some listed element with that tag. */
  ghost function FullIndex(elements: seq<Element>): (index: map<string, Element>)
    ensures IndexOf(elements, index) && index.Keys == Tags(elements)
  {
    if elements == [] then map[] else
      var rest := FullIndex(elements[1..]);
      assert Tags(elements) == Tags(elements[1..]) + {elements[0].tag} by { TagsCons(elements); }
      rest[elements[0].tag := elements[0]]
  }

  lemma TagsCons(elements: seq<Element>)
    requires elements != []
    ensures Tags(elements) == Tags(elements[1..]) + {elements[0].tag}
  {
  }

  lemma TagsSnoc(elements: seq<Element>, e: Element)
    ensures Tags(elements + [e]) == Tags(elements) + {e.tag}
  {
    forall t | t in Tags(elements) + {e.tag} ensures t in Tags(elements + [e]) {
      if t == e.tag { assert (elements + [e])[|elements|].tag == t; } else {
        var i :| 0 <= i < |elements| && elements[i].tag == t;
        assert (elements + [e])[i].tag == t;
      }
    }
  }

  lemma TagsAppend(xs: seq<Element>, ys: seq<Element>)
    ensures Tags(xs + ys) == Tags(xs) + Tags(ys)
  {
    forall t | t in Tags(xs) + Tags(ys) ensures t in Tags(xs + ys) {
      if t in Tags(xs) {
        var i :| 0 <= i < |xs| && xs[i].tag == t;
        assert (xs + ys)[i].tag == t;
      } else {
        var i :| 0 <= i < |ys| && ys[i].tag == t;
        assert (xs + ys)[|xs| + i].tag == t;
      }
    }
  }

  /** Something that stays unstarted waits on a cycle or on a dependency nobody provides. */
  lemma UnstartedHasReason(elements: seq<Element>, s: set<string>, e: Element)
    requires Stuck(elements, s) && e in elements && e.tag !in s
    ensures !(DependenciesListed(elements) && Acyclic(elements))
  {
    var index := FullIndex(elements);
    assert e.tag in Tags(elements);
    LintIsGenuine(elements, index, s, [e.tag], e);
    var d := Lint(index, s, [e.tag], e);
    if d.Circular? {
      CircularHasCycle(elements, index, s, d);
    } else {
      assert Edge(elements, d.path[|d.path| - 1], d.missing);
      var f :| f in elements && f.tag == d.path[|d.path| - 1] && d.missing in f.deps;
      assert !AllIn(f.deps, Tags(elements));
    }
  }

  /** An acyclic graph whose dependencies are all listed can be started completely. */
  lemma AcyclicStartsAll(elements: seq<Element>, s: set<string>)
    requires LeastClosed(elements, s) && DependenciesListed(elements) && Acyclic(elements)
    ensures s == Tags(elements)
  {
    LeastClosedWithinTags(elements, s);
    forall t | t in Tags(elements) ensures t in s {
      var i :| 0 <= i < |elements| && elements[i].tag == t;
      if t !in s { UnstartedHasReason(elements, s, elements[i]); }
    }
  }

  /** Along a dependency chain the position in a well-formed start order strictly falls. */
  lemma {:induction false} ChainDescends(elements: seq<Element>, calls: seq<Element>, path: seq<string>, from: nat)
    returns (to: nat)
    requires WellOrdered(calls) && DistinctTags(elements)
    requires forall e :: e in elements <==> e in calls
    requires path != [] && Chain(elements, path)
    requires from < |calls| && calls[from].tag == path[0]
    ensures to < |calls| && calls[to].tag == path[|path| - 1] && to + |path| <= from + 1
  {
    if |path| == 1 { return from; }
    assert Edge(elements, path[0], path[1]);
    var e :| e in elements && e.tag == path[0] && path[1] in e.deps;
    var k :| 0 <= k < |calls| && calls[k] == e;
    assert k == from;
    assert path[1] in Tags(calls[..from]);
    var j :| 0 <= j < |calls[..from]| && calls[..from][j].tag == path[1];
    assert Chain(elements, path[1..]) by {
      forall i | 0 <= i < |path[1..]| - 1 ensures Edge(elements, path[1..][i], path[1..][i + 1]) {
        assert Edge(elements, path[i + 1], path[i + 2]);
      }
    }
    to := ChainDescends(elements, calls, path[1..], j);
  }

  /** A complete well-formed start order leaves no cycle and no unlisted dependency. */
  lemma StartedAllIsAcyclic(elements: seq<Element>, calls: seq<Element>)
    requires WellOrdered(calls) && DistinctTags(elements)
    requires forall e :: e in elements <==> e in calls
    ensures DependenciesListed(elements) && Acyclic(elements)
  {
    forall e | e in elements ensures AllIn(e.deps, Tags(elements)) {
      var k :| 0 <= k < |calls| && calls[k] == e;
      forall d | d in e.deps ensures d in Tags(elements) {
        assert d in Tags(calls[..k]);
        var j :| 0 <= j < |calls[..k]| && calls[..k][j].tag == d;
        assert calls[j] in calls;
        var i :| 0 <= i < |elements| && elements[i] == calls[j];
      }
    }
    forall path ensures !Cycle(elements, path) {
      if Cycle(elements, path) {
        assert Edge(elements, path[0], path[1]);
        var e :| e in elements && e.tag == path[0] && path[1] in e.deps;
        var k :| 0 <= k < |calls| && calls[k] == e;
        var to := ChainDescends(elements, calls, path, k);
        assert false;
      }
    }
  }

  // ---------------------------------------------------------------- counting

  lemma DistinctSnoc(init: seq<Element>, last: Element)
    ensures DistinctTags(init + [last]) <==> DistinctTags(init) && last.tag !in Tags(init)
  {
    var all := init + [last];
    if DistinctTags(all) {
      forall i, j | 0 <= i < j < |init| ensures init[i].tag != init[j].tag {
        assert all[i].tag != all[j].tag;
      }
      forall i | 0 <= i < |init| ensures init[i].tag != last.tag { assert all[i].tag != all[|init|].tag; }
    }
  }

  lemma {:induction false} TagsSize(elements: seq<Element>)
    ensures |Tags(elements)| <= |elements|
    ensures |Tags(elements)| == |elements| <==> DistinctTags(elements)
  {
    if elements == [] {
      assert Tags(elements) == {};
    } else {
      var init, last := elements[..|elements| - 1], elements[|elements| - 1];
      TagsSize(init);
      TagsSnoc(init, last);
      DistinctSnoc(init, last);
      assert elements == init + [last];
      if last.tag in Tags(init) { assert Tags(elements) == Tags(init); }
    }
  }

  // ---------------------------------------------------------------- the scheduler

  ghost predicate Sound(elements: seq<Element>, started: set<string>, calls: seq<Element>) {
    && started == Tags(calls)
    && WellOrdered(calls)
    && (forall e :: e in calls ==> e in elements)
    && forall t: set<string> :: Closed(elements, t) ==> started <= t
  }

  lemma StartOne(elements: seq<Element>, started: set<string>, calls: seq<Element>, e: Element)
    requires Sound(elements, started, calls)
    requires e in elements && e.tag !in started && AllIn(e.deps, started)
    ensures Sound(elements, started + {e.tag}, calls + [e])
  {
    TagsSnoc(calls, e);
    var calls' := calls + [e];
    forall i | 0 <= i < |calls'| ensures AllIn(calls'[i].deps, Tags(calls'[..i])) {
      if i < |calls| { assert calls'[..i] == calls[..i]; } else { assert calls'[..i] == calls; }
    }
    forall i, j | 0 <= i < j < |calls'| ensures calls'[i].tag != calls'[j].tag {
      if j == |calls| { assert calls[i].tag in Tags(calls); }
    }
    forall t: set<string> | Closed(elements, t) ensures started + {e.tag} <= t {
      assert AllIn(e.deps, t);
    }
  }

  /** Calls for every tag of a list without repeated tags are exactly the list's elements. */
  lemma CallsAreElements(elements: seq<Element>, calls: seq<Element>)
    requires DistinctTags(elements) && (forall e :: e in calls ==> e in elements) && Tags(calls) == Tags(elements)
    ensures forall e :: e in elements <==> e in calls
  {
    forall e | e in elements ensures e in calls {
      var i :| 0 <= i < |elements| && elements[i] == e;
      assert e.tag in Tags(calls);
      var j :| 0 <= j < |calls| && calls[j].tag == e.tag;
      assert calls[j] in elements;
      var k :| 0 <= k < |elements| && elements[k] == calls[j];
    }
  }

  lemma CompleteStart(elements: seq<Element>, started: set<string>, calls: seq<Element>)
    requires Sound(elements, started, calls) && |started| == |elements|
    ensures DistinctTags(elements) && started == Tags(elements) && LeastClosed(elements, started)
    ensures DependenciesListed(elements) && Acyclic(elements)
  {
    assert started <= Tags(elements) by { assert Closed(elements, Tags(elements)); }
    TagsSize(elements);
    SubsetSameSize(started, Tags(elements));
    CallsAreElements(elements, calls);
    StartedAllIsAcyclic(elements, calls);
  }

  lemma SubsetSameSize(a: set<string>, b: set<string>)
    requires a <= b && |a| >= |b|
    ensures a == b
  {
    if a != b {
      var x :| x in b && x !in a;
      assert a <= b - {x};
      SubsetSize(a, b - {x});
    }
  }

  lemma {:induction false} SubsetSize(a: set<string>, b: set<string>)
    requires a <= b
    ensures |a| <= |b|
  {
    if a != {} {
      var x :| x in a;
      SubsetSize(a - {x}, b - {x});
    }
  }

  function StalledAt(elements: seq<Element>, index: map<string, Element>, started: set<string>, from: nat): Outcome
    decreases |elements| - from
  {
    if from >= |elements| then NilElement
    else if elements[from].tag !in started then
      Stalled(Lint(index, started, [elements[from].tag], elements[from]))
    else StalledAt(elements, index, started, from + 1)
  }

  lemma {:induction false} StalledAtIsGenuine(elements: seq<Element>, index: map<string, Element>,
                                              started: set<string>, from: nat)
    requires Stuck(elements, started) && IndexOf(elements, index) && from <= |elements|
    requires forall i :: 0 <= i < from ==> elements[i].tag in started
    ensures var o := StalledAt(elements, index, started, from);
            && (o.NilElement? || o.Stalled?)
            && (o.NilElement? <==> Tags(elements) <= started)
            && (o.Stalled? ==> Genuine(elements, index, started, o.diagnosis))
    decreases |elements| - from
  {
    if from < |elements| {
      if elements[from].tag in started { StalledAtIsGenuine(elements, index, started, from + 1); }
      else {
        assert elements[from].tag in Tags(elements);
        LintIsGenuine(elements, index, started, [elements[from].tag], elements[from]);
      }
    }
  }

  /** A pass that starts nothing and leaves something to start. */
  lemma NoProgress(elements: seq<Element>, index: map<string, Element>, started: set<string>, calls: seq<Element>)
    requires Sound(elements, started, calls) && Stuck(elements, started) && IndexOf(elements, index)
    requires |started| != |elements|
    ensures LeastClosed(elements, started)
    ensures !(DistinctTags(elements) && DependenciesListed(elements) && Acyclic(elements))
    ensures var o := StalledAt(elements, index, started, 0);
            && (o.NilElement? || o.Stalled?)
            && (o.Stalled? ==> Genuine(elements, index, started, o.diagnosis))
            && (o.NilElement? ==> !DistinctTags(elements) && started == Tags(elements))
  {
    assert Closed(elements, started);
    LeastClosedWithinTags(elements, started);
    TagsSize(elements);
    StalledAtIsGenuine(elements, index, started, 0);
    if Tags(elements) <= started { assert started == Tags(elements); }
    if DependenciesListed(elements) && Acyclic(elements) { AcyclicStartsAll(elements, started); }
  }

  ghost predicate Succeeded(calls: seq<Element>, succeeds: Element -> bool) {
    forall i :: 0 <= i < |calls| ==> succeeds(calls[i])
  }

  /** One pass over the list: starts what is ready and stops at the first start call that fails. */
  method StartPass(elements: seq<Element>, succeeds: Element -> bool, started0: set<string>, calls0: seq<Element>)
    returns (started: set<string>, calls: seq<Element>, canContinue: bool, failed: bool)
    requires Sound(elements, started0, calls0) && Succeeded(calls0, succeeds)
    ensures Sound(elements, started, calls) && |calls0| <= |calls|
    ensures canContinue <==> |calls0| < |calls|
    ensures !failed ==> Succeeded(calls, succeeds)
    ensures failed ==> calls != [] && Succeeded(calls[..|calls| - 1], succeeds) && !succeeds(calls[|calls| - 1])
    ensures !failed && !canContinue ==> Stuck(elements, started)
  {
    started, calls, canContinue := started0, calls0, false;
    for i := 0 to |elements|
      invariant Sound(elements, started, calls) && Succeeded(calls, succeeds)
      invariant |calls0| <= |calls| && (canContinue <==> |calls0| < |calls|)
      invariant !canContinue ==>
                  forall j :: 0 <= j < i ==> elements[j].tag in started || !AllIn(elements[j].deps, started)
    {
      var e := elements[i];
      if e.tag in started { continue; }
      if !AllIn(e.deps, started) { continue; }
      StartOne(elements, started, calls, e);
      started, calls, canContinue := started + {e.tag}, calls + [e], true;
      if !succeeds(e) { return started, calls, canContinue, true; }
    }
    failed := false;
  }

  /** Starts `elements`. `calls` is the sequence of start calls made and `passes` the number of
      passes over the list; `succeeds` says which start calls return without an error. */
  method StartAll(elements: seq<Element>, index: map<string, Element>, succeeds: Element -> bool)
    returns (outcome: Outcome, calls: seq<Element>, passes: nat)
    requires IndexOf(elements, index)
    // Safety: each tag at most once, only listed elements, dependencies first.
    ensures WellOrdered(calls) && forall e :: e in calls ==> e in elements
    ensures forall i :: 0 <= i < |calls| ==>
              succeeds(calls[i]) || (i == |calls| - 1 && outcome == StartFailed(calls[i]))
    ensures outcome.StartFailed? ==> calls != [] && !succeeds(calls[|calls| - 1])
    // Unless a start call fails, what is started does not depend on the order of the list.
    ensures !outcome.StartFailed? ==> LeastClosed(elements, Tags(calls))
    // Success exactly on acyclic graphs whose dependencies are all listed.
    ensures (forall e :: e in elements ==> succeeds(e)) ==>
              (outcome.AllStarted? <==> DistinctTags(elements) && DependenciesListed(elements) && Acyclic(elements))
    ensures outcome.AllStarted? ==> Tags(calls) == Tags(elements) && |calls| == |elements|
    // A stall names a genuine reason; only repeated tags leave nothing to name.
    ensures outcome.Stalled? ==> outcome == StalledAt(elements, index, Tags(calls), 0)
    ensures outcome.Stalled? ==> Genuine(elements, index, Tags(calls), outcome.diagnosis)
    ensures outcome.NilElement? ==> !DistinctTags(elements) && Tags(calls) == Tags(elements)
    ensures passes <= |elements| || passes == 1
  {
    var started: set<string> := {};
    calls, passes := [], 0;
    while true
      invariant Sound(elements, started, calls) && Succeeded(calls, succeeds)
      invariant passes <= |calls| < |elements| || passes == 0
      decreases |elements| - |calls|
    {
      var failed: bool, canContinue: bool;
      passes := passes + 1;
      started, calls, canContinue, failed := StartPass(elements, succeeds, started, calls);
      Bounded(elements, started, calls);
      if failed { return StartFailed(calls[|calls| - 1]), calls, passes; }
      if |started| == |elements| {
        CompleteStart(elements, started, calls);
        return AllStarted, calls, passes;
      }
      if canContinue { continue; }
      NoProgress(elements, index, started, calls);
      return StalledAt(elements, index, started, 0), calls, passes;
    }
  }

  lemma Bounded(elements: seq<Element>, started: set<string>, calls: seq<Element>)
    requires Sound(elements, started, calls)
    ensures |started| == |calls| <= |elements|
  {
    TagsSize(calls);
    TagsSize(elements);
    assert Closed(elements, Tags(elements));
    SubsetSize(started, Tags(elements));
  }

  // ---------------------------------------------------------------- when "not found" is true

  /** Whatever a stalled start reports as not found is the tag of no listed element. */
  ghost predicate Truthful(elements: seq<Element>, index: map<string, Element>) {
    forall started: set<string> :: LeastClosed(elements, started) ==> ReportsTruly(elements, index, started)
  }

  predicate ReportsTruly(elements: seq<Element>, index: map<string, Element>, started: set<string>) {
    var o := StalledAt(elements, index, started, 0);
    o.Stalled? && o.diagnosis.NotFound? ==> o.diagnosis.missing !in Tags(elements)
  }

  /** A diagnosis that can look every listed tag up tells the truth. */
  lemma FullIndexIsTruthful(elements: seq<Element>, index: map<string, Element>)
    requires IndexOf(elements, index) && Tags(elements) <= index.Keys
    ensures Truthful(elements, index)
  {
    forall started: set<string> | LeastClosed(elements, started) ensures ReportsTruly(elements, index, started) {
      StalledAtIsGenuine(elements, index, started, 0);
    }
  }

  /** The elements with these tags under an assignment of dependencies, and the index of some of them. */
  function Graph(tags: seq<string>, deps: string -> seq<string>): (r: seq<Element>)
    ensures |r| == |tags| && forall i :: 0 <= i < |r| ==> r[i] == Element(tags[i], deps(tags[i]))
  {
    seq(|tags|, i requires 0 <= i < |tags| => Element(tags[i], deps(tags[i])))
  }

  function GraphIndex(tags: seq<string>, deps: string -> seq<string>): map<string, Element> {
    map t | t in tags :: Element(t, deps(t))
  }

  /** The element first on the list and another that is not indexed, waiting for each other: the
      latter is reported as not found. */
  lemma MutualWaitIsMisreported(tags: seq<string>, indexed: seq<string>, deps: string -> seq<string>, e: string)
    requires tags != [] && e in tags && e !in indexed && e != tags[0]
    requires deps(tags[0]) == [e] && deps(e) == [tags[0]]
    requires forall t :: t in tags && t != tags[0] && t != e ==> deps(t) == []
    ensures !Truthful(Graph(tags, deps), GraphIndex(indexed, deps))
  {
    var all, index, o := Graph(tags, deps), GraphIndex(indexed, deps), tags[0];
    var started := Tags(all) - {o, e};
    forall x | x in all ensures x.tag in Tags(all) && x.tag in tags && x.deps == deps(x.tag) {}
    assert LeastClosed(all, started) by {
      assert Closed(all, started);
      forall t: set<string> | Closed(all, t) ensures started <= t {
        forall x | x in started ensures x in t {
          var i :| 0 <= i < |all| && all[i].tag == x;
          assert AllIn(all[i].deps, t);
        }
      }
    }
    assert all[0].tag == o && all[0].deps == [e] && FirstUnstarted([e], started) == e;
    assert Lint(index, started, [o], all[0]) == NotFound([o], e);
    assert !ReportsTruly(all, index, started) by {
      var k :| 0 <= k < |tags| && tags[k] == e;
      assert all[k].tag == e;
    }
  }

  /** A single element never waits for another listed one. */
  lemma SingleIsTruthful(elements: seq<Element>, index: map<string, Element>)
    requires |elements| == 1 && IndexOf(elements, index)
    ensures Truthful(elements, index)
  {
    forall started: set<string> | LeastClosed(elements, started) ensures ReportsTruly(elements, index, started) {
      StalledAtIsGenuine(elements, index, started, 0);
      var o := StalledAt(elements, index, started, 0);
      if o.Stalled? { assert o.diagnosis.path[0] in Tags(elements); }
    }
  }

  /** Over all assignments of dependencies to distinct tags, what is reported as not found is always
      absent exactly when every listed element is indexed, or there is only one element at all. */
  lemma NotFoundTruthfulIff(indexed: seq<string>, rest: seq<string>)
    requires forall i, j :: 0 <= i < j < |indexed + rest| ==> (indexed + rest)[i] != (indexed + rest)[j]
    ensures rest == [] || (indexed == [] && |rest| == 1) <==>
            forall deps: string -> seq<string> :: Truthful(Graph(indexed + rest, deps), GraphIndex(indexed, deps))
  {
    var tags := indexed + rest;
    if rest == [] || (indexed == [] && |rest| == 1) {
      forall deps: string -> seq<string> ensures Truthful(Graph(tags, deps), GraphIndex(indexed, deps)) {
        var all, index := Graph(tags, deps), GraphIndex(indexed, deps);
        forall t | t in index ensures index[t] in all {
          var i :| 0 <= i < |indexed| && indexed[i] == t;
          assert all[i] == index[t];
        }
        if rest == [] { FullIndexIsTruthful(all, index); } else { SingleIsTruthful(all, index); }
      }
    } else {
      var o, k := tags[0], if indexed == [] then 1 else 0;
      var e := rest[k];
      assert e == tags[|indexed| + k] && e in tags && forall i :: 0 <= i < |indexed| ==> indexed[i] == tags[i];
      var deps := (t: string) => if t == o then [e] else if t == e then [o] else [];
      MutualWaitIsMisreported(tags, indexed, deps, e);
    }
  }
}
