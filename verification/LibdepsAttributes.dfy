/** The dependency resolver as it keeps its state on the nodes: exploring flags and two memo caches. */
module LibdepsAttributes {
  import opened Results
  import opened Sorting
  import opened Libdeps
  import opened LateEdges

  datatype AppendTarget = NodeObject(node: Node) | PlainString(text: string)

  /** The variables that one query shares between its visits. */
  class SearchState {
    var tsorted: seq<Node>
    var marked: set<Node>

    constructor ()
      ensures Valid() && tsorted == []
    {
      tsorted, marked := [], {};
    }

    ghost predicate Valid()
      reads this
    {
      marked == set x | x in tsorted
    }

    /** The outcome of a visit that raised, or did not raise, with this list at its end. */
    ghost function OutcomeOf(raised: Option<seq<Node>>): Outcome
      reads this
    {
      match raised
      case None => Done(tsorted)
      case Some(c) => Cycle(c)
    }

    /** The node is finished, or joins the cycle on its way to the caller. */
    method Leave(n: Node, raised: Option<seq<Node>>) returns (raised': Option<seq<Node>>)
      requires Valid()
      modifies this
      ensures Valid()
      ensures OutcomeOf(raised') == LeaveFrame(n, old(OutcomeOf(raised)))
      ensures marked == if raised.None? then old(marked) + {n} else old(marked)
    {
      raised' := raised;
      if raised.None? {
        marked := marked + {n};
        tsorted := tsorted + [n];
      } else if |raised.value| == 1 ||
                (|raised.value| > 1 && raised.value[0] != raised.value[|raised.value| - 1]) {
        raised' := Some([n] + raised.value);
      }
    }
  }

  /** An empty list counts as no sorted list. */
  predicate IsSorted(directSorted: map<Node, seq<Dependency>>, n: Node) {
    n in directSorted && directSorted[n] != []
  }

  /** Sorted lists are kept. */
  ghost predicate Grows(before: map<Node, seq<Dependency>>, after: map<Node, seq<Dependency>>) {
    forall x | IsSorted(before, x) :: IsSorted(after, x)
  }

  /** The nodes that have dependencies have sorted lists. */
  ghost predicate HaveLists(directSorted: map<Node, seq<Dependency>>, seen: Graph, nodes: set<Node>) {
    forall x | x in nodes && Direct(seen, x) != [] :: IsSorted(directSorted, x)
  }

  lemma ListsGrow(before: map<Node, seq<Dependency>>, after: map<Node, seq<Dependency>>, seen: Graph,
                  marked: set<Node>, n: Node)
    requires Grows(before, after) && HaveLists(before, seen, {n}) && HaveLists(after, seen, marked)
    ensures HaveLists(after, seen, marked + {n})
  {}

  ghost predicate ListsCohere(direct: Graph, directSorted: map<Node, seq<Dependency>>, seen: Graph) {
    forall n :: if IsSorted(directSorted, n) then directSorted[n] == SortedDirect(seen, n)
                else Direct(direct, n) == Direct(seen, n)
  }

  lemma AppendCoheres(direct: Graph, directSorted: map<Node, seq<Dependency>>, seen: Graph, n: Node,
                      deps: seq<Dependency>)
    requires ListsCohere(direct, directSorted, seen)
    ensures ListsCohere(Extended(direct, n, deps), directSorted, SeenAfter(seen, IsSorted(directSorted, n), n, deps))
  {
    var direct', seen' := Extended(direct, n, deps), SeenAfter(seen, IsSorted(directSorted, n), n, deps);
    forall m ensures if IsSorted(directSorted, m) then directSorted[m] == SortedDirect(seen', m)
                     else Direct(direct', m) == Direct(seen', m) {
      ExtendedDirect(direct, n, deps, m);
      ExtendedDirect(seen, n, deps, m);
      if m != n { ExtendedSorted(seen, n, deps, m); }
    }
  }

  /** The sorted lists stay up to date exactly when nothing is appended to a node that has one. */
  lemma AppendUpToDate(direct: Graph, directSorted: map<Node, seq<Dependency>>, n: Node, deps: seq<Dependency>)
    requires ListsCohere(direct, directSorted, direct)
    ensures SeenAfter(direct, IsSorted(directSorted, n), n, deps) == Extended(direct, n, deps) <==>
            !IsSorted(directSorted, n) || deps == []
  {
    if IsSorted(directSorted, n) {
      assert |SortedDirect(direct, n)| == |Direct(direct, n)|;
      ExtendedSame(direct, n, deps);
    }
  }

  class Attributes {
    var direct: Graph
    var directSorted: map<Node, seq<Dependency>>
    var exploring: set<Node>
    var cached: map<Node, seq<Node>>

    /** The graph that queries see: appends to a node with a sorted list no longer reach it. */
    ghost var seen: Graph

    constructor ()
      ensures Valid() && direct == seen == map[] && directSorted == map[] && cached == map[]
    {
      direct, directSorted, exploring, cached, seen := map[], map[], {}, map[], map[];
    }

    predicate HasSorted(n: Node)
      reads this`directSorted
    {
      IsSorted(directSorted, n)
    }

    ghost predicate Coherent()
      reads this`direct, this`directSorted, this`seen
    {
      ListsCohere(direct, directSorted, seen)
    }

    /** What holds between two calls, however appends and queries are interleaved. */
    ghost predicate Valid()
      reads this`direct, this`directSorted, this`seen, this`exploring
    {
      exploring == {} && Coherent()
    }

    /** Queries see every edge. */
    ghost predicate UpToDate()
      reads this`direct, this`seen
    {
      seen == direct
    }

    ghost predicate CachedFresh()
      reads this`cached, this`seen
    {
      Fresh(cached, seen)
    }

    ghost predicate Current()
      reads this`direct, this`cached, this`seen
    {
      AnswersCurrent(cached, seen, direct)
    }

    method GetSortedDirect(n: Node) returns (sorted: seq<Dependency>)
      requires Coherent()
      modifies this`directSorted
      ensures Coherent()
      ensures sorted == SortedDirect(seen, n)
      ensures Grows(old(directSorted), directSorted) && HaveLists(directSorted, seen, {n})
    {
      if HasSorted(n) {
        sorted := directSorted[n];
      } else {
        sorted := SortedDirect(direct, n);
        directSorted := directSorted[n := sorted];
      }
    }

    method VisitNode(search: SearchState, n: Node) returns (raised: Option<seq<Node>>)
      requires n in Nodes(seen)
      requires Coherent() && search.Valid() && HaveLists(directSorted, seen, search.marked)
      modifies this`directSorted, this`exploring, search
      ensures Coherent() && search.Valid()
      ensures exploring == old(exploring)
      ensures search.OutcomeOf(raised) == Visit(seen, n, exploring, old(search.tsorted))
      ensures Grows(old(directSorted), directSorted) && HaveLists(directSorted, seen, search.marked)
      decreases Nodes(seen) - exploring, 0
    {
      if n in exploring {
        return Some([n]);
      }
      exploring := exploring + {n};
      if n in search.marked {
        raised := None;
      } else {
        raised := VisitChildren(search, n);
      }
      exploring := exploring - {n};
    }

    /** The part of a visit between setting and clearing the flag. */
    method VisitChildren(search: SearchState, n: Node) returns (raised: Option<seq<Node>>)
      requires Coherent() && search.Valid() && HaveLists(directSorted, seen, search.marked)
      modifies this`directSorted, this`exploring, search
      ensures Coherent() && search.Valid()
      ensures exploring == old(exploring)
      ensures search.OutcomeOf(raised) == Explored(seen, n, exploring, old(search.tsorted))
      ensures Grows(old(directSorted), directSorted) && HaveLists(directSorted, seen, search.marked)
      decreases Nodes(seen) - exploring, 2
    {
      var deps := GetSortedDirect(n);
      SortedKnown(seen, n);
      ghost var lists := directSorted;
      raised := VisitEach(search, Private, deps);
      ListsGrow(lists, directSorted, seen, search.marked, n);
      raised := search.Leave(n, raised);
    }

    /** The loop over sorted dependencies, which a visit and a query both run. */
    method VisitEach(search: SearchState, skip: Visibility, deps: seq<Dependency>)
      returns (raised: Option<seq<Node>>)
      requires Known(seen, deps)
      requires Coherent() && search.Valid() && HaveLists(directSorted, seen, search.marked)
      modifies this`directSorted, this`exploring, search
      ensures Coherent() && search.Valid()
      ensures exploring == old(exploring)
      ensures search.OutcomeOf(raised) == VisitAll(seen, skip, deps, exploring, old(search.tsorted))
      ensures Grows(old(directSorted), directSorted) && HaveLists(directSorted, seen, search.marked)
      decreases Nodes(seen) - exploring, 1
    {
      raised := None;
      ghost var whole := VisitAll(seen, skip, deps, exploring, search.tsorted);
      for i := 0 to |deps|
        invariant raised.None?
        invariant Coherent() && search.Valid()
        invariant exploring == old(exploring)
        invariant whole == VisitAll(seen, skip, deps[i..], exploring, search.tsorted)
        invariant Grows(old(directSorted), directSorted) && HaveLists(directSorted, seen, search.marked)
      {
        assert deps[i..][0] == deps[i] && deps[i..][1..] == deps[i + 1..];
        if deps[i].visibility != skip {
          raised := VisitNode(search, deps[i].target);
          if raised.Some? {
            return;
          }
        }
      }
    }

    /** The search of a query, without the cached answers. */
    method SearchFrom(root: Node) returns (o: Outcome)
      requires Valid()
      modifies this`directSorted, this`exploring
      ensures Valid()
      ensures o == Resolve(seen, root)
      ensures o.Done? ==>
                HaveLists(directSorted, seen, {root}) && HaveLists(directSorted, seen, set x | x in o.nodes)
    {
      var search := new SearchState();
      var deps := GetSortedDirect(root);
      SortedKnown(seen, root);
      ghost var lists := directSorted;
      var raised := VisitEach(search, Interface, deps);
      if raised.Some? {
        return Cycle(raised.value);
      }
      ListsGrow(lists, directSorted, seen, {}, root);
      ReversedMembers(search.tsorted);
      o := Done(Reversed(search.tsorted));
    }

    method GetLibdeps(root: Node) returns (o: Outcome)
      requires Valid()
      modifies this`directSorted, this`exploring, this`cached
      ensures Valid()
      ensures o == Answer(old(cached), seen, root)
      ensures cached == if o.Done? then old(cached)[root := o.nodes] else old(cached)
      ensures old(CachedFresh()) ==> CachedFresh() && o == Resolve(seen, root)
      ensures root !in old(cached) && o.Done? ==>
                HaveLists(directSorted, seen, {root}) && HaveLists(directSorted, seen, set x | x in o.nodes)
    {
      if root in cached {
        return Done(cached[root]);
      }
      o := SearchFrom(root);
      if o.Done? {
        cached := cached[root := o.nodes];
      }
    }

    /** A plain string has no attributes to append to. From a state in which everything is current, the
        sorted lists stay so exactly when nothing is appended to a node that has one, and the answers,
        cached ones included, stay so when none that involves the node is fixed. */
    method AppendDirect(target: AppendTarget, prereqs: seq<Dependency>)
      requires Valid()
      modifies this`direct, this`seen
      ensures Valid()
      ensures target.PlainString? ==> direct == old(direct) && seen == old(seen)
      ensures target.NodeObject? ==>
                && direct == Extended(old(direct), target.node, prereqs)
                && seen == SeenAfter(old(seen), HasSorted(target.node), target.node, prereqs)
      ensures old(UpToDate()) ==>
                (UpToDate() <==> target.PlainString? || !HasSorted(target.node) || prereqs == [])
      ensures old(UpToDate() && CachedFresh()) &&
              (target.NodeObject? ==> NoneFixed(old(direct), cached, HasSorted(target.node), target.node)) ==>
                Current() && CachedFresh()
    {
      if target.PlainString? {
        return;
      }
      var n := target.node;
      Extend(n, prereqs);
      if old(UpToDate()) {
        AppendUpToDate(old(direct), directSorted, n, prereqs);
        if old(CachedFresh()) && NoneFixed(old(direct), cached, HasSorted(n), n) {
          NoneFixedAgrees(old(direct), cached, HasSorted(n), n, prereqs);
          NoneFixedFresh(old(direct), cached, HasSorted(n), n, prereqs);
        }
      }
    }

    /** No sorted list is kept for the node, and no cached answer lists it or is its own. */
    predicate Untouched(n: Node)
      reads this`directSorted, this`cached
    {
      !HasSorted(n) && forall r | r in cached :: r != n && n !in cached[r]
    }

    /** An append to a node that is untouched leaves everything as if it had been there from the start. */
    method AppendUntouched(n: Node, prereqs: seq<Dependency>)
      requires Valid() && UpToDate() && CachedFresh() && Untouched(n)
      modifies this`direct, this`seen
      ensures Valid() && UpToDate() && CachedFresh()
      ensures direct == Extended(old(direct), n, prereqs)
    {
      UntouchedNoneFixed(direct, cached, n);
      AppendDirect(NodeObject(n), prereqs);
    }

    method Extend(n: Node, prereqs: seq<Dependency>)
      requires Valid()
      modifies this`direct, this`seen
      ensures Valid()
      ensures direct == Extended(old(direct), n, prereqs)
      ensures seen == SeenAfter(old(seen), HasSorted(n), n, prereqs)
    {
      AppendCoheres(direct, directSorted, seen, n, prereqs);
      var before := if n in direct then direct[n] else [];
      direct := direct[n := before + prereqs];
      seen := SeenAfter(seen, HasSorted(n), n, prereqs);
    }
  }

  // ----- Whole runs

  /** Appends in order, on a graph. */
  function Appended(g: Graph, appends: seq<(Node, seq<Dependency>)>): Graph
    decreases |appends|
  {
    if appends == [] then g
    else
      var (n, deps) := appends[0];
      Appended(g[n := Direct(g, n) + deps], appends[1..])
  }

  method Declare(appends: seq<(Node, seq<Dependency>)>) returns (attributes: Attributes)
    ensures fresh(attributes) && attributes.Valid()
    ensures attributes.direct == attributes.seen == Appended(map[], appends)
    ensures attributes.cached == map[]
  {
    attributes := new Attributes();
    for i := 0 to |appends|
      invariant fresh(attributes) && attributes.Valid()
      invariant attributes.directSorted == map[] && attributes.cached == map[]
      invariant attributes.direct == attributes.seen
      invariant Appended(map[], appends) == Appended(attributes.direct, appends[i..])
    {
      assert appends[i..][0] == appends[i] && appends[i..][1..] == appends[i + 1..];
      attributes.AppendDirect(NodeObject(appends[i].0), appends[i].1);
    }
  }

  /** The edge to `x` belongs into the answer for the node it is appended to. */
  lemma EdgeChangesAnswer(g: Graph, n: Node, x: Node, answer: seq<Node>)
    requires x !in answer
    ensures Resolve(Extended(g, n, [Dependency(x, Public)]), n) != Done(answer)
  {
    FreshEdgeNeeded(g, n, x, n);
    ResolveCorrect(Extended(g, n, [Dependency(x, Public)]), n);
  }

  lemma NothingNeeded(g: Graph, n: Node)
    requires Direct(g, n) == []
    ensures Resolve(g, n) == Done([])
  {
    assert SortedDirect(g, n) == [];
  }

  /** An answer given before an edge was appended is given again. */
  method LateEdgeNotListed(r: Node, x: Node) returns (first: Outcome, second: Outcome, attributes: Attributes)
    ensures attributes.Valid() && attributes.UpToDate()
    ensures attributes.direct == Extended(map[], r, [Dependency(x, Public)])
    ensures first == second == Done([]) != Resolve(attributes.direct, r)
  {
    attributes := new Attributes();
    NothingNeeded(map[], r);
    first := attributes.GetLibdeps(r);
    attributes.AppendDirect(NodeObject(r), [Dependency(x, Public)]);
    second := attributes.GetLibdeps(r);
    EdgeChangesAnswer(map[], r, x, []);
  }

  function Chain(): Graph {
    Extended(Extended(map[], "p", [Dependency("l", Public)]), "l", [Dependency("x", Public)])
  }

  lemma ChainDirect()
    ensures SortedDirect(Chain(), "p") == [Dependency("l", Public)]
    ensures SortedDirect(Chain(), "l") == [Dependency("x", Public)]
    ensures SortedDirect(Chain(), "x") == []
  {}

  lemma LeafVisited(g: Graph, skip: Visibility, x: Node, exploring: set<Node>)
    requires Known(g, [Dependency(x, Public)]) && skip != Public && x !in exploring && SortedDirect(g, x) == []
    ensures VisitAll(g, skip, [Dependency(x, Public)], exploring, []) == Done([x])
  {
    assert [Dependency(x, Public)][0] in [Dependency(x, Public)];
    assert [Dependency(x, Public)][1..] == [];
    assert Visit(g, x, exploring, []) == Done([] + [x]);
  }

  lemma ShortAnswer()
    ensures Resolve(Chain(), "l") == Done(["x"])
  {
    ChainDirect();
    SortedKnown(Chain(), "l");
    LeafVisited(Chain(), Interface, "x", {});
    assert Reversed(["x"]) == ["x"];
  }

  lemma LongAnswer()
    ensures Resolve(Chain(), "p") == Done(["l", "x"])
  {
    var g, deps := Chain(), [Dependency("l", Public)];
    ChainDirect();
    SortedKnown(g, "p");
    SortedKnown(g, "l");
    LeafVisited(g, Private, "x", {} + {"l"});
    assert deps[0] in deps && deps[1..] == [];
    assert Visit(g, "l", {}, []) == Done(["x"] + ["l"]);
    assert VisitAll(g, Interface, deps, {}, []) == Done(["x"] + ["l"]);
    assert Reversed(["x"] + ["l"]) == ["l", "x"];
  }

  method QueryChain() returns (first: Outcome, attributes: Attributes)
    ensures fresh(attributes) && attributes.Valid() && attributes.direct == attributes.seen == Chain()
    ensures first == Done(["l", "x"])
    ensures "l" !in attributes.cached && attributes.HasSorted("l")
  {
    attributes := new Attributes();
    attributes.AppendDirect(NodeObject("p"), [Dependency("l", Public)]);
    attributes.AppendDirect(NodeObject("l"), [Dependency("x", Public)]);
    LongAnswer();
    first := attributes.GetLibdeps("p");
    assert "l" in first.nodes by { assert first.nodes[0] == "l"; }
    assert Direct(Chain(), "l") != [] by { ChainDirect(); }
  }

  /** An edge appended to a node that an earlier answer lists is not seen by a query of the node itself. */
  method LateEdgeNotSorted() returns (first: Outcome, second: Outcome, attributes: Attributes)
    ensures attributes.Valid() && attributes.direct == Extended(Chain(), "l", [Dependency("y", Public)])
    ensures first == Done(["l", "x"]) && second == Done(["x"]) != Resolve(attributes.direct, "l")
  {
    first, attributes := QueryChain();
    attributes.AppendDirect(NodeObject("l"), [Dependency("y", Public)]);
    ShortAnswer();
    second := attributes.GetLibdeps("l");
    EdgeChangesAnswer(Chain(), "l", "y", ["x"]);
  }

  ghost predicate AllResolved(g: Graph, roots: seq<Node>, answers: seq<Outcome>) {
    |answers| <= |roots| && forall i | 0 <= i < |answers| :: answers[i] == Resolve(g, roots[i])
  }

  /** Any run of queries, failing and repeated ones included. */
  method QueryAll(attributes: Attributes, roots: seq<Node>) returns (answers: seq<Outcome>)
    requires attributes.Valid() && attributes.CachedFresh()
    modifies attributes`directSorted, attributes`exploring, attributes`cached
    ensures attributes.Valid() && attributes.CachedFresh()
    ensures |answers| == |roots| && AllResolved(attributes.seen, roots, answers)
  {
    answers := [];
    for i := 0 to |roots|
      invariant attributes.Valid() && attributes.CachedFresh()
      invariant |answers| == i && AllResolved(attributes.seen, roots, answers)
    {
      var o := attributes.GetLibdeps(roots[i]);
      OneMoreResolved(attributes.seen, roots, answers, o);
      answers := answers + [o];
    }
  }

  lemma OneMoreResolved(g: Graph, roots: seq<Node>, answers: seq<Outcome>, o: Outcome)
    requires AllResolved(g, roots, answers) && |answers| < |roots| && o == Resolve(g, roots[|answers|])
    ensures AllResolved(g, roots, answers + [o])
  {}

  /** A run that declares every edge first: each answer, the first or a repeated one, is the
      answer of a query that starts from nothing. */
  method DeclareThenQuery(appends: seq<(Node, seq<Dependency>)>, roots: seq<Node>)
    returns (answers: seq<Outcome>)
    ensures |answers| == |roots| && AllResolved(Appended(map[], appends), roots, answers)
  {
    var attributes := Declare(appends);
    answers := QueryAll(attributes, roots);
  }

  // ----- Appends and queries in any order

  datatype Operation = Append(node: Node, prereqs: seq<Dependency>) | Query(root: Node)

  /** The graph before operation `i` of a run. */
  function GraphBefore(g: Graph, run: seq<Operation>, i: nat): Graph
    requires i <= |run|
  {
    if i == 0 then g
    else
      var before, last := GraphBefore(g, run, i - 1), run[i - 1];
      if last.Append? then Extended(before, last.node, last.prereqs) else before
  }

  /** A query is answered by a search of the graph at that moment. */
  ghost predicate AnsweredAt(g: Graph, run: seq<Operation>, i: nat, answer: Option<Outcome>)
    requires i < |run|
  {
    answer == if run[i].Query? then Some(Resolve(GraphBefore(g, run, i), run[i].root)) else None
  }

  ghost predicate AnsweredInTime(g: Graph, run: seq<Operation>, answers: seq<Option<Outcome>>) {
    |answers| <= |run| && forall i | 0 <= i < |answers| :: AnsweredAt(g, run, i, answers[i])
  }

  /** Appends and queries in any order, as long as every append is to a node that is untouched: each answer
      is that of a search of the graph at that moment, and stays right. The run stops at the first append
      that is not. */
  method RunUntouched(attributes: Attributes, run: seq<Operation>) returns (done: nat, answers: seq<Option<Outcome>>)
    requires attributes.Valid() && attributes.UpToDate() && attributes.CachedFresh()
    modifies attributes
    ensures attributes.Valid() && attributes.UpToDate() && attributes.CachedFresh()
    ensures done == |answers| <= |run| && attributes.direct == GraphBefore(old(attributes.direct), run, done)
    ensures AnsweredInTime(old(attributes.direct), run, answers)
    ensures done < |run| ==> run[done].Append? && !attributes.Untouched(run[done].node)
  {
    done, answers := 0, [];
    while done < |run|
      invariant attributes.Valid() && attributes.UpToDate() && attributes.CachedFresh()
      invariant done == |answers| <= |run| && attributes.direct == GraphBefore(old(attributes.direct), run, done)
      invariant AnsweredInTime(old(attributes.direct), run, answers)
      decreases |run| - done
    {
      var answer := None;
      match run[done] {
        case Append(n, prereqs) =>
          if !attributes.Untouched(n) {
            return;
          }
          attributes.AppendUntouched(n, prereqs);
        case Query(root) =>
          var o := attributes.GetLibdeps(root);
          answer := Some(o);
      }
      assert AnsweredAt(old(attributes.direct), run, done, answer);
      done, answers := done + 1, answers + [answer];
    }
  }
}
