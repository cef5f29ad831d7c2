/** The library dependency resolver: a depth-first topological sort over Public, Private
    and Interface edges, with exploring flags and cycle reports. */
module Libdeps {
  import opened Results
  import opened Sorting
  import opened Strings

  type Node = string

  datatype Visibility = Public | Private | Interface

  datatype Dependency = Dependency(target: Node, visibility: Visibility)

  /** The `libdeps_direct` attribute of every node that has one. */
  type Graph = map<Node, seq<Dependency>>

  /** A finished sort, or the `cycle_nodes` of a raised DependencyCycleError. */
  datatype Outcome = Done(nodes: seq<Node>) | Cycle(nodes: seq<Node>)

  // ----- The graph and its walks

  function Direct(g: Graph, n: Node): seq<Dependency> {
    if n in g then g[n] else []
  }

  ghost function Nodes(g: Graph): set<Node> {
    g.Keys + set n, i | n in g && 0 <= i < |g[n]| :: g[n][i].target
  }

  /** A dependency that a library hands on to whoever uses the library. */
  predicate Edge(g: Graph, a: Node, b: Node) {
    Dependency(b, Public) in Direct(g, a) || Dependency(b, Interface) in Direct(g, a)
  }

  /** A dependency that the node itself links against. */
  predicate Links(g: Graph, root: Node, b: Node) {
    Dependency(b, Public) in Direct(g, root) || Dependency(b, Private) in Direct(g, root)
  }

  ghost predicate IsWalk(g: Graph, w: seq<Node>) {
    |w| >= 1 && forall i | 0 <= i < |w| - 1 :: Edge(g, w[i], w[i + 1])
  }

  ghost predicate Reaches(g: Graph, a: Node, b: Node) {
    exists w :: IsWalk(g, w) && w[0] == a && w[|w| - 1] == b
  }

  /** `b` is reached from `root` over one linked dependency and then only handed-on ones. */
  ghost predicate Needs(g: Graph, root: Node, b: Node) {
    exists a :: Links(g, root, a) && Reaches(g, a, b)
  }

  ghost predicate NoRepeats(s: seq<Node>) {
    forall i, j | 0 <= i < j < |s| :: s[i] != s[j]
  }

  ghost predicate ClosedWalk(g: Graph, c: seq<Node>) {
    |c| >= 2 && IsWalk(g, c) && c[0] == c[|c| - 1]
  }

  ghost predicate SimpleCycle(g: Graph, c: seq<Node>) {
    ClosedWalk(g, c) && NoRepeats(c[1..])
  }

  // ----- The search as a function

  predicate ByTarget(a: Dependency, b: Dependency) {
    StringLeq(a.target, b.target)
  }

  function SortedDirect(g: Graph, n: Node): (r: seq<Dependency>)
    ensures |r| == |Direct(g, n)|
    ensures forall d :: d in r <==> d in Direct(g, n)
  {
    SortMembers(Direct(g, n), ByTarget);
    Sort(Direct(g, n), ByTarget)
  }

  ghost predicate Known(g: Graph, deps: seq<Dependency>) {
    forall d | d in deps :: d.target in Nodes(g)
  }

  lemma SortedKnown(g: Graph, n: Node)
    ensures Known(g, SortedDirect(g, n))
  {}

  /** One visit: `tsorted` is the list finished so far, `exploring` the flagged nodes. */
  function Visit(g: Graph, n: Node, exploring: set<Node>, tsorted: seq<Node>): Outcome
    requires n in Nodes(g)
    decreases Nodes(g) - exploring, 0
  {
    if n in exploring then Cycle([n])
    else if n in tsorted then Done(tsorted)
    else
      SortedKnown(g, n);
      LeaveFrame(n, VisitAll(g, Private, SortedDirect(g, n), exploring + {n}, tsorted))
  }

  /** The end of the frame of `n`: the node is finished, or it joins a cycle still open. */
  function LeaveFrame(n: Node, o: Outcome): Outcome {
    match o
    case Done(ts) => Done(ts + [n])
    case Cycle(c) => if |c| == 1 || (|c| > 1 && c[0] != c[|c| - 1]) then Cycle([n] + c) else o
  }

  /** Visits, in order, the targets of the dependencies that are not `skip`. */
  function VisitAll(g: Graph, skip: Visibility, deps: seq<Dependency>,
                    exploring: set<Node>, tsorted: seq<Node>): Outcome
    requires Known(g, deps)
    decreases Nodes(g) - exploring, 1, |deps|
  {
    if deps == [] then Done(tsorted)
    else if deps[0].visibility == skip then VisitAll(g, skip, deps[1..], exploring, tsorted)
    else
      match Visit(g, deps[0].target, exploring, tsorted)
      case Cycle(c) => Cycle(c)
      case Done(ts) => VisitAll(g, skip, deps[1..], exploring, ts)
  }

  /** A visit of a flagged node that is not finished yet. */
  ghost function Explored(g: Graph, n: Node, exploring: set<Node>, tsorted: seq<Node>): Outcome {
    SortedKnown(g, n);
    LeaveFrame(n, VisitAll(g, Private, SortedDirect(g, n), exploring, tsorted))
  }

  /** The whole query, without caches. */
  function Resolve(g: Graph, root: Node): Outcome {
    SortedKnown(g, root);
    match VisitAll(g, Interface, SortedDirect(g, root), {}, [])
    case Done(ts) => Done(Reversed(ts))
    case Cycle(c) => Cycle(c)
  }

  // ----- What the search keeps

  /** Every handed-on dependency of a finished node was finished before it. */
  ghost predicate Closed(g: Graph, ts: seq<Node>) {
    forall i, b | 0 <= i < |ts| && Edge(g, ts[i], b) :: b in ts[..i]
  }

  ghost predicate Finished(g: Graph, exploring: set<Node>, ts: seq<Node>) {
    && NoRepeats(ts)
    && Closed(g, ts)
    && (forall x | x in ts :: x !in exploring)
  }

  /** A walk from `n` to a flagged node, none of whose earlier nodes is flagged. */
  ghost predicate OpenCycle(g: Graph, n: Node, exploring: set<Node>, c: seq<Node>) {
    && IsWalk(g, c)
    && c[0] == n
    && c[|c| - 1] in exploring
    && NoRepeats(c)
    && (forall i | 0 <= i < |c| - 1 :: c[i] !in exploring)
  }

  ghost predicate VisitOk(g: Graph, n: Node, exploring: set<Node>, ts: seq<Node>, o: Outcome) {
    match o
    case Done(ts') =>
      && ts <= ts'
      && Finished(g, exploring, ts')
      && n in ts'
      && (forall x | x in ts' && x !in ts :: Reaches(g, n, x))
    case Cycle(c) =>
      OpenCycle(g, n, exploring, c) || (SimpleCycle(g, c) && Reaches(g, n, c[0]))
  }

  predicate Follows(skip: Visibility, deps: seq<Dependency>, b: Node) {
    exists d | d in deps :: d.target == b && d.visibility != skip
  }

  ghost predicate VisitAllOk(g: Graph, skip: Visibility, deps: seq<Dependency>,
                             exploring: set<Node>, ts: seq<Node>, o: Outcome) {
    match o
    case Done(ts') =>
      && ts <= ts'
      && Finished(g, exploring, ts')
      && (forall b | Follows(skip, deps, b) :: b in ts')
      && (forall x | x in ts' && x !in ts :: exists b :: Follows(skip, deps, b) && Reaches(g, b, x))
    case Cycle(c) =>
      exists b :: Follows(skip, deps, b) &&
                  (OpenCycle(g, b, exploring, c) || (SimpleCycle(g, c) && Reaches(g, b, c[0])))
  }

  lemma ReachesSelf(g: Graph, n: Node)
    ensures Reaches(g, n, n)
  {
    assert IsWalk(g, [n]) && [n][0] == n && [n][|[n]| - 1] == n;
  }

  lemma ReachesStep(g: Graph, a: Node, b: Node, c: Node)
    requires Edge(g, a, b) && Reaches(g, b, c)
    ensures Reaches(g, a, c)
  {
    var w :| IsWalk(g, w) && w[0] == b && w[|w| - 1] == c;
    var w' := [a] + w;
    assert forall i | 0 <= i < |w'| - 1 :: Edge(g, w'[i], w'[i + 1]) by {
      forall i | 0 <= i < |w'| - 1 ensures Edge(g, w'[i], w'[i + 1]) {
        if i > 0 { assert w'[i] == w[i - 1] && w'[i + 1] == w[i]; }
      }
    }
    assert w'[0] == a && w'[|w'| - 1] == c;
  }

  lemma EdgesFollowed(g: Graph, n: Node)
    ensures forall b :: Edge(g, n, b) <==> Follows(Private, SortedDirect(g, n), b)
    ensures forall b :: Links(g, n, b) <==> Follows(Interface, SortedDirect(g, n), b)
  {}

  lemma {:induction false} VisitCorrect(g: Graph, n: Node, exploring: set<Node>, ts: seq<Node>)
    requires n in Nodes(g)
    requires Finished(g, exploring, ts)
    ensures VisitOk(g, n, exploring, ts, Visit(g, n, exploring, ts))
    decreases Nodes(g) - exploring, 0
  {
    if n in exploring || n in ts {
    } else {
      SortedKnown(g, n);
      var deps := SortedDirect(g, n);
      VisitAllCorrect(g, Private, deps, exploring + {n}, ts);
      EdgesFollowed(g, n);
      LeaveFrameCorrect(g, n, exploring, ts, VisitAll(g, Private, deps, exploring + {n}, ts));
    }
  }

  lemma LeaveFrameCorrect(g: Graph, n: Node, exploring: set<Node>, ts: seq<Node>, o: Outcome)
    requires n !in exploring && n !in ts
    requires VisitAllOk(g, Private, SortedDirect(g, n), exploring + {n}, ts, o)
    ensures VisitOk(g, n, exploring, ts, LeaveFrame(n, o))
  {
    EdgesFollowed(g, n);
    var deps := SortedDirect(g, n);
    match o
    case Done(ts') =>
      assert forall i | 0 <= i <= |ts'| :: (ts' + [n])[..i] == ts'[..i];
      forall x | x in ts' + [n] && x !in ts ensures Reaches(g, n, x) {
        if x == n { ReachesSelf(g, n); } else {
          var b :| Follows(Private, deps, b) && Reaches(g, b, x);
          ReachesStep(g, n, b, x);
        }
      }
    case Cycle(c) =>
      var b :| Follows(Private, deps, b) &&
               (OpenCycle(g, b, exploring + {n}, c) || (SimpleCycle(g, c) && Reaches(g, b, c[0])));
      if OpenCycle(g, b, exploring + {n}, c) {
        ExtendOpenCycle(g, n, b, exploring, c);
      } else {
        ReachesStep(g, n, b, c[0]);
      }
  }

  /** The frame of `n` closes the cycle when `n` is the flagged node it ran into. */
  lemma ExtendOpenCycle(g: Graph, n: Node, b: Node, exploring: set<Node>, c: seq<Node>)
    requires n !in exploring && Edge(g, n, b) && OpenCycle(g, b, exploring + {n}, c)
    ensures VisitOk(g, n, exploring, [], LeaveFrame(n, Cycle(c)))
  {}

  lemma {:induction false} VisitAllCorrect(g: Graph, skip: Visibility, deps: seq<Dependency>,
                                           exploring: set<Node>, ts: seq<Node>)
    requires Known(g, deps)
    requires Finished(g, exploring, ts)
    ensures VisitAllOk(g, skip, deps, exploring, ts, VisitAll(g, skip, deps, exploring, ts))
    decreases Nodes(g) - exploring, 1, |deps|
  {
    if deps == [] {
    } else {
      assert deps == [deps[0]] + deps[1..];
      assert forall b :: Follows(skip, deps, b) <==>
          Follows(skip, deps[1..], b) || (deps[0].target == b && deps[0].visibility != skip);
      if deps[0].visibility == skip {
        VisitAllCorrect(g, skip, deps[1..], exploring, ts);
      } else {
        VisitCorrect(g, deps[0].target, exploring, ts);
        match Visit(g, deps[0].target, exploring, ts)
        case Cycle(c) =>
        case Done(ts1) => VisitAllCorrect(g, skip, deps[1..], exploring, ts1);
      }
    }
  }

  // ----- The promises of a query

  /** A walk that starts in a closed list stays in it and runs strictly backwards. */
  lemma {:induction false} WalkRunsBack(g: Graph, ts: seq<Node>, w: seq<Node>, i: nat)
    requires NoRepeats(ts) && Closed(g, ts) && IsWalk(g, w)
    requires i < |ts| && ts[i] == w[0]
    ensures exists j | 0 <= j <= i :: ts[j] == w[|w| - 1] && (|w| > 1 ==> j < i)
    decreases |w|
  {
    if |w| <= 1 {
    } else {
      assert Edge(g, w[0], w[1]);
      var k :| 0 <= k < i && ts[k] == w[1];
      assert IsWalk(g, w[1..]) by {
        forall m | 0 <= m < |w[1..]| - 1 ensures Edge(g, w[1..][m], w[1..][m + 1]) {
          assert Edge(g, w[m + 1], w[m + 2]);
        }
      }
      WalkRunsBack(g, ts, w[1..], k);
    }
  }

  ghost predicate NeedsCycle(g: Graph, root: Node) {
    exists c :: ClosedWalk(g, c) && Needs(g, root, c[0])
  }

  /** The error, when raised, carries a simple closed walk over handed-on edges. */
  lemma RaisedCycleIsSimple(g: Graph, root: Node)
    requires Resolve(g, root).Cycle?
    ensures SimpleCycle(g, Resolve(g, root).nodes)
    ensures Needs(g, root, Resolve(g, root).nodes[0])
  {
    SortedKnown(g, root);
    EdgesFollowed(g, root);
    VisitAllCorrect(g, Interface, SortedDirect(g, root), {}, []);
  }

  lemma NeededIsListed(g: Graph, root: Node, ts: seq<Node>, x: Node)
    requires NoRepeats(ts) && Closed(g, ts)
    requires forall a | Links(g, root, a) :: a in ts
    requires Needs(g, root, x)
    ensures x in ts
  {
    var a :| Links(g, root, a) && Reaches(g, a, x);
    var w :| IsWalk(g, w) && w[0] == a && w[|w| - 1] == x;
    var i :| 0 <= i < |ts| && ts[i] == a;
    WalkRunsBack(g, ts, w, i);
  }

  lemma ListedHasNoCycle(g: Graph, ts: seq<Node>, c: seq<Node>)
    requires NoRepeats(ts) && Closed(g, ts) && ClosedWalk(g, c)
    ensures c[0] !in ts
  {
    if c[0] in ts {
      var i :| 0 <= i < |ts| && ts[i] == c[0];
      WalkRunsBack(g, ts, c, i);
      assert false;
    }
  }

  lemma ReversedOrder(g: Graph, ts: seq<Node>)
    requires NoRepeats(ts) && Closed(g, ts)
    ensures var r := Reversed(ts);
            && NoRepeats(r)
            && (forall x :: x in r <==> x in ts)
            && (forall i, j | 0 <= i < |r| && 0 <= j < |r| && Edge(g, r[i], r[j]) :: i < j)
  {
    var r := Reversed(ts);
    ReversedMembers(ts);
    forall i, j | 0 <= i < |r| && 0 <= j < |r| && Edge(g, r[i], r[j]) ensures i < j {
      assert Edge(g, ts[|ts| - 1 - i], r[j]);
      var k :| 0 <= k < |ts| - 1 - i && ts[k] == r[j];
      assert ts[|ts| - 1 - j] == r[j];
    }
  }

  /** The list before it is reversed holds exactly the needed nodes. */
  lemma FinishedList(g: Graph, root: Node) returns (ts: seq<Node>)
    requires Resolve(g, root).Done?
    ensures Resolve(g, root).nodes == Reversed(ts)
    ensures NoRepeats(ts) && Closed(g, ts)
    ensures forall x :: x in ts <==> Needs(g, root, x)
  {
    SortedKnown(g, root);
    EdgesFollowed(g, root);
    var deps := SortedDirect(g, root);
    VisitAllCorrect(g, Interface, deps, {}, []);
    ts := VisitAll(g, Interface, deps, {}, []).nodes;
    forall x | Needs(g, root, x) ensures x in ts { NeededIsListed(g, root, ts, x); }
  }

  /** A query raises exactly when a cycle is needed; otherwise it lists, once each, exactly
      the needed nodes, every node before the nodes it hands on. */
  lemma ResolveCorrect(g: Graph, root: Node)
    ensures Resolve(g, root).Cycle? <==> NeedsCycle(g, root)
    ensures Resolve(g, root).Done? ==>
              var r := Resolve(g, root).nodes;
              && NoRepeats(r)
              && (forall x :: x in r <==> Needs(g, root, x))
              && (forall i, j | 0 <= i < |r| && 0 <= j < |r| && Edge(g, r[i], r[j]) :: i < j)
  {
    if Resolve(g, root).Cycle? {
      RaisedCycleIsSimple(g, root);
    } else {
      var ts := FinishedList(g, root);
      ReversedOrder(g, ts);
      forall c | ClosedWalk(g, c) ensures !Needs(g, root, c[0]) { ListedHasNoCycle(g, ts, c); }
    }
  }
}
