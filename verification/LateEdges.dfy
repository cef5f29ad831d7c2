/** What becomes of the answers of the dependency resolver when edges are appended after some of
    them were given. */
module LateEdges {
  import opened Sorting
  import opened Libdeps

  /** The graph after appending to the direct dependencies of `n`. */
  function Extended(g: Graph, n: Node, deps: seq<Dependency>): Graph {
    g[n := Direct(g, n) + deps]
  }

  /** Queries see what is appended to `n` unless `n` has a sorted list. */
  function SeenAfter(seen: Graph, sorted: bool, n: Node, deps: seq<Dependency>): Graph {
    if sorted then seen else Extended(seen, n, deps)
  }

  lemma ExtendedSame(g: Graph, n: Node, deps: seq<Dependency>)
    requires n in g
    ensures Extended(g, n, deps) == g <==> deps == []
  {
    if deps == [] {
      assert g[n] + deps == g[n];
    } else {
      assert |Extended(g, n, deps)[n]| != |g[n]|;
    }
  }

  lemma ExtendedDirect(g: Graph, n: Node, deps: seq<Dependency>, m: Node)
    ensures Direct(Extended(g, n, deps), m) == if m == n then Direct(g, n) + deps else Direct(g, m)
  {}

  lemma ExtendedSorted(g: Graph, n: Node, deps: seq<Dependency>, m: Node)
    requires m != n
    ensures SortedDirect(Extended(g, n, deps), m) == SortedDirect(g, m)
  {
    ExtendedDirect(g, n, deps, m);
  }

  /** A visit that finishes without `n` does not notice what is appended to `n`. */
  lemma {:induction false} VisitFrame(g: Graph, n: Node, deps: seq<Dependency>, m: Node,
                                      exploring: set<Node>, ts: seq<Node>)
    requires m in Nodes(g) && m in Nodes(Extended(g, n, deps))
    requires Finished(g, exploring, ts)
    requires Visit(g, m, exploring, ts).Done? && n !in Visit(g, m, exploring, ts).nodes
    ensures Visit(Extended(g, n, deps), m, exploring, ts) == Visit(g, m, exploring, ts)
    decreases Nodes(g) - exploring, 0
  {
    if m in exploring || m in ts {
    } else {
      SortedKnown(g, m);
      SortedKnown(Extended(g, n, deps), m);
      var rest := VisitAll(g, Private, SortedDirect(g, m), exploring + {m}, ts);
      assert m in (rest.nodes + [m]);
      ExtendedSorted(g, n, deps, m);
      assert forall x | x in rest.nodes :: x in rest.nodes + [m];
      VisitAllFrame(g, n, deps, Private, SortedDirect(g, m), exploring + {m}, ts);
    }
  }

  lemma {:induction false} VisitAllFrame(g: Graph, n: Node, deps: seq<Dependency>, skip: Visibility,
                                         todo: seq<Dependency>, exploring: set<Node>, ts: seq<Node>)
    requires Known(g, todo) && Known(Extended(g, n, deps), todo)
    requires Finished(g, exploring, ts)
    requires VisitAll(g, skip, todo, exploring, ts).Done? && n !in VisitAll(g, skip, todo, exploring, ts).nodes
    ensures VisitAll(Extended(g, n, deps), skip, todo, exploring, ts) == VisitAll(g, skip, todo, exploring, ts)
    decreases Nodes(g) - exploring, 1, |todo|
  {
    if todo == [] {
    } else if todo[0].visibility == skip {
      VisitAllFrame(g, n, deps, skip, todo[1..], exploring, ts);
    } else {
      VisitCorrect(g, todo[0].target, exploring, ts);
      var ts1 := Visit(g, todo[0].target, exploring, ts).nodes;
      VisitAllCorrect(g, skip, todo[1..], exploring, ts1);
      var all := VisitAll(g, skip, todo[1..], exploring, ts1).nodes;
      assert ts1 <= all;
      assert forall x | x in ts1 :: x in all;
      VisitFrame(g, n, deps, todo[0].target, exploring, ts);
      VisitAllFrame(g, n, deps, skip, todo[1..], exploring, ts1);
    }
  }

  /** An answer does not depend on nodes other than its root and those it lists. */
  lemma ResolveFrame(g: Graph, n: Node, deps: seq<Dependency>, root: Node)
    requires root != n && Resolve(g, root).Done? && n !in Resolve(g, root).nodes
    ensures Resolve(Extended(g, n, deps), root) == Resolve(g, root)
  {
    SortedKnown(g, root);
    SortedKnown(Extended(g, n, deps), root);
    ExtendedSorted(g, n, deps, root);
    var ts := VisitAll(g, Interface, SortedDirect(g, root), {}, []).nodes;
    ReversedMembers(ts);
    VisitAllFrame(g, n, deps, Interface, SortedDirect(g, root), {}, []);
  }

  lemma MoreEdges(g: Graph, n: Node, deps: seq<Dependency>)
    ensures forall a, b | Edge(g, a, b) :: Edge(Extended(g, n, deps), a, b)
    ensures forall a, b | Links(g, a, b) :: Links(Extended(g, n, deps), a, b)
  {
    forall a ensures forall d | d in Direct(g, a) :: d in Direct(Extended(g, n, deps), a) {
      ExtendedDirect(g, n, deps, a);
    }
  }

  lemma MoreWalks(g: Graph, n: Node, deps: seq<Dependency>)
    ensures forall w | IsWalk(g, w) :: IsWalk(Extended(g, n, deps), w)
  {
    MoreEdges(g, n, deps);
  }

  lemma MoreNeeds(g: Graph, n: Node, deps: seq<Dependency>, root: Node, x: Node)
    requires Needs(g, root, x)
    ensures Needs(Extended(g, n, deps), root, x)
  {
    MoreEdges(g, n, deps);
    MoreWalks(g, n, deps);
    var a :| Links(g, root, a) && Reaches(g, a, x);
    var w :| IsWalk(g, w) && w[0] == a && w[|w| - 1] == x;
    assert IsWalk(Extended(g, n, deps), w);
  }

  /** Appended edges undo no cycle. */
  lemma CyclesStay(g: Graph, n: Node, deps: seq<Dependency>, root: Node)
    requires NeedsCycle(g, root)
    ensures NeedsCycle(Extended(g, n, deps), root)
  {
    var c :| ClosedWalk(g, c) && Needs(g, root, c[0]);
    MoreWalks(g, n, deps);
    MoreNeeds(g, n, deps, root, c[0]);
    assert ClosedWalk(Extended(g, n, deps), c);
  }

  /** What is needed is the target of some dependency. */
  lemma NeededIsKnown(g: Graph, root: Node, x: Node)
    requires Needs(g, root, x)
    ensures x in Nodes(g)
  {
    var a :| Links(g, root, a) && Reaches(g, a, x);
    var w :| IsWalk(g, w) && w[0] == a && w[|w| - 1] == x;
    if |w| == 1 {
      TargetIsKnown(g, root, x);
    } else {
      assert Edge(g, w[|w| - 2], w[|w| - 2 + 1]);
      TargetIsKnown(g, w[|w| - 2], x);
    }
  }

  lemma TargetIsKnown(g: Graph, a: Node, x: Node)
    requires Links(g, a, x) || Edge(g, a, x)
    ensures x in Nodes(g)
  {
    var d :| d in Direct(g, a) && d.target == x;
    var i :| 0 <= i < |g[a]| && g[a][i] == d;
  }

  lemma {:induction false} LongerName(names: set<string>) returns (x: string)
    ensures forall y | y in names :: |y| < |x|
  {
    if names == {} {
      x := "x";
    } else {
      var y :| y in names;
      x := LongerName(names - {y});
      if |y| >= |x| { x := y + "x"; }
    }
  }

  /** The same list, or an error in either case. */
  predicate Agree(a: Outcome, b: Outcome) {
    a == b || (a.Cycle? && b.Cycle?)
  }

  /** What a query answers from the cached answers and the graph that queries see. */
  function Answer(cached: map<Node, seq<Node>>, seen: Graph, root: Node): Outcome {
    if root in cached then Done(cached[root]) else Resolve(seen, root)
  }

  ghost predicate Fresh(cached: map<Node, seq<Node>>, g: Graph) {
    forall r | r in cached :: Done(cached[r]) == Resolve(g, r)
  }

  /** The root is `n` itself or lists it. */
  ghost predicate Involves(g: Graph, root: Node, n: Node) {
    root == n || Needs(g, root, n)
  }

  /** Some answer that involves `n` is fixed: by the cache, or because the sorted list of `n` is. An
      answer that is an error stays one. */
  ghost predicate Fixed(g: Graph, cached: map<Node, seq<Node>>, sorted: bool, n: Node, root: Node) {
    Involves(g, root, n) && !NeedsCycle(g, root) && (sorted || root in cached)
  }

  /** Every answer is that of a search of the graph as it is now, up to which cycle is reported. */
  ghost predicate AnswersCurrent(cached: map<Node, seq<Node>>, seen: Graph, direct: Graph) {
    forall r :: Agree(Answer(cached, seen, r), Resolve(direct, r))
  }

  /** The answers are current after `deps` are appended to `n`. */
  ghost predicate AnswersAgree(g: Graph, cached: map<Node, seq<Node>>, sorted: bool, n: Node, deps: seq<Dependency>) {
    AnswersCurrent(cached, SeenAfter(g, sorted, n, deps), Extended(g, n, deps))
  }

  /** A fresh edge reaches everything that involves `n`. */
  lemma FreshEdgeNeeded(g: Graph, n: Node, x: Node, root: Node)
    requires Involves(g, root, n)
    ensures Needs(Extended(g, n, [Dependency(x, Public)]), root, x)
  {
    var g' := Extended(g, n, [Dependency(x, Public)]);
    ExtendedDirect(g, n, [Dependency(x, Public)], n);
    assert Dependency(x, Public) in Direct(g', n);
    ReachesSelf(g', x);
    if root != n {
      MoreNeeds(g, n, [Dependency(x, Public)], root, n);
      var a :| Links(g', root, a) && Reaches(g', a, n);
      ReachesThrough(g', a, n, x);
    }
  }

  lemma ReachesThrough(g: Graph, a: Node, b: Node, c: Node)
    requires Reaches(g, a, b) && Edge(g, b, c)
    ensures Reaches(g, a, c)
  {
    var w :| IsWalk(g, w) && w[0] == a && w[|w| - 1] == b;
    var w' := w + [c];
    forall i | 0 <= i < |w'| - 1 ensures Edge(g, w'[i], w'[i + 1]) {
      if i < |w| - 1 { assert w'[i] == w[i] && w'[i + 1] == w[i + 1]; }
    }
    assert IsWalk(g, w') && w'[0] == a && w'[|w'| - 1] == c;
  }

  /** Where an answer is fixed, an edge to a new node is missed. */
  lemma FixedMisses(g: Graph, cached: map<Node, seq<Node>>, sorted: bool, n: Node, root: Node)
    requires Fresh(cached, g) && Fixed(g, cached, sorted, n, root)
    ensures exists deps :: !AnswersAgree(g, cached, sorted, n, deps)
  {
    var x := LongerName(Nodes(g));
    var deps := [Dependency(x, Public)];
    var g' := Extended(g, n, deps);
    FreshEdgeNeeded(g, n, x, root);
    ResolveCorrect(g, root);
    ResolveCorrect(g', root);
    assert x !in Resolve(g, root).nodes by {
      if Needs(g, root, x) { NeededIsKnown(g, root, x); }
    }
    assert !Agree(Resolve(g, root), Resolve(g', root));
    assert Answer(cached, SeenAfter(g, sorted, n, deps), root) == Resolve(g, root);
    assert !AnswersAgree(g, cached, sorted, n, deps);
  }

  /** Where no answer is fixed, none goes wrong. */
  lemma UnfixedAgrees(g: Graph, cached: map<Node, seq<Node>>, sorted: bool, n: Node, deps: seq<Dependency>, root: Node)
    requires Fresh(cached, g) && !Fixed(g, cached, sorted, n, root)
    ensures var g' := Extended(g, n, deps);
            Agree(Answer(cached, SeenAfter(g, sorted, n, deps), root), Resolve(g', root))
  {
    var g' := Extended(g, n, deps);
    ResolveCorrect(g, root);
    ResolveCorrect(g', root);
    if sorted || root in cached {
      if NeedsCycle(g, root) { CyclesStay(g, n, deps, root); } else { ResolveFrame(g, n, deps, root); }
    }
  }

  ghost predicate NoneFixed(g: Graph, cached: map<Node, seq<Node>>, sorted: bool, n: Node) {
    forall root :: !Fixed(g, cached, sorted, n, root)
  }

  /** A node in no cached answer leaves every answer free. */
  lemma UntouchedNoneFixed(g: Graph, cached: map<Node, seq<Node>>, n: Node)
    requires Fresh(cached, g) && forall r | r in cached :: r != n && n !in cached[r]
    ensures NoneFixed(g, cached, false, n)
  {
    forall root ensures !Fixed(g, cached, false, n, root) {
      ResolveCorrect(g, root);
    }
  }

  lemma NoneFixedAgrees(g: Graph, cached: map<Node, seq<Node>>, sorted: bool, n: Node, deps: seq<Dependency>)
    requires Fresh(cached, g) && NoneFixed(g, cached, sorted, n)
    ensures AnswersAgree(g, cached, sorted, n, deps)
  {
    forall r ensures Agree(Answer(cached, SeenAfter(g, sorted, n, deps), r),
                           Resolve(Extended(g, n, deps), r)) {
      UnfixedAgrees(g, cached, sorted, n, deps, r);
    }
  }

  /** The cached answers stay those of fresh searches, so that another append can follow. */
  lemma NoneFixedFresh(g: Graph, cached: map<Node, seq<Node>>, sorted: bool, n: Node, deps: seq<Dependency>)
    requires Fresh(cached, g) && NoneFixed(g, cached, sorted, n)
    ensures Fresh(cached, SeenAfter(g, sorted, n, deps))
  {
    NoneFixedAgrees(g, cached, sorted, n, deps);
    forall r | r in cached ensures Done(cached[r]) == Resolve(SeenAfter(g, sorted, n, deps), r) {
      assert Agree(Answer(cached, SeenAfter(g, sorted, n, deps), r), Resolve(Extended(g, n, deps), r));
    }
  }

  /** Whatever is appended to `n`, every answer is that of a search of the new graph, up to which cycle
      an error reports, exactly when no answer that involves `n` is fixed. */
  lemma AppendsSeenExactly(g: Graph, cached: map<Node, seq<Node>>, sorted: bool, n: Node)
    requires Fresh(cached, g)
    ensures (forall deps :: AnswersAgree(g, cached, sorted, n, deps)) <==> NoneFixed(g, cached, sorted, n)
  {
    if root :| Fixed(g, cached, sorted, n, root) {
      FixedMisses(g, cached, sorted, n, root);
    } else {
      forall deps ensures AnswersAgree(g, cached, sorted, n, deps) { NoneFixedAgrees(g, cached, sorted, n, deps); }
    }
  }

  /** For a node that needs no cycle, that is: it has no sorted list, is no cached root and is in no
      cached answer. The answers are then the same to the letter. */
  lemma AppendsSeenWithoutCycle(g: Graph, cached: map<Node, seq<Node>>, sorted: bool, n: Node)
    requires Fresh(cached, g) && !NeedsCycle(g, n)
    ensures (forall deps, r ::
               Answer(cached, SeenAfter(g, sorted, n, deps), r) == Resolve(Extended(g, n, deps), r)) <==>
            !sorted && forall r | r in cached :: r != n && n !in cached[r]
  {
    if sorted {
      assert Fixed(g, cached, sorted, n, n);
      FixedMisses(g, cached, sorted, n, n);
    } else if r :| r in cached && (r == n || n in cached[r]) {
      ResolveCorrect(g, r);
      assert Fixed(g, cached, sorted, n, r);
      FixedMisses(g, cached, sorted, n, r);
    } else {
      forall deps, r ensures Answer(cached, Extended(g, n, deps), r) == Resolve(Extended(g, n, deps), r) {
        if r in cached { ResolveFrame(g, n, deps, r); }
      }
    }
  }
}
