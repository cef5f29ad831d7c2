/** Pruning the build cache: the least recently used items go first, until the cache is below
    its target or nothing is left to remove. */
module CachePrune {
  import opened Sorting

  datatype Item = Item(path: string, time: real, size: nat)

  const GIGABYTES := 1024 * 1024 * 1024

  /** What the file system made of one attempt to remove an item. */
  datatype Attempt = RenameFailed | RemoveFailed | Removed

  function TotalSize(items: seq<Item>): nat {
    if items == [] then 0 else items[0].size + TotalSize(items[1..])
  }

  lemma {:induction false} TotalSizeAppend(a: seq<Item>, b: seq<Item>)
    ensures TotalSize(a + b) == TotalSize(a) + TotalSize(b)
  {
    if a == [] {
      assert a + b == b;
    } else {
      assert (a + b)[1..] == a[1..] + b;
      TotalSizeAppend(a[1..], b);
    }
  }

  lemma {:induction false} TotalSizePermutation(a: seq<Item>, b: seq<Item>)
    requires multiset(a) == multiset(b)
    ensures TotalSize(a) == TotalSize(b)
  {
    if a == [] {
      assert |multiset(b)| == 0;
    } else {
      var l, r := PermutationTail(a, b);
      TotalSizePermutation(a[1..], l + r);
      TotalSizeAppend(l, r);
      TotalSizeAppend(l, [a[0]] + r);
      assert ([a[0]] + r)[1..] == r;
    }
  }

  // ----- The order of removal

  predicate NewerFirst(a: Item, b: Item) { a.time >= b.time }

  /** The sorted contents, of which the last item is popped first. */
  function Newest(contents: seq<Item>): seq<Item> {
    Sort(contents, NewerFirst)
  }

  /** The item that attempt `i` is about. */
  function Victim(contents: seq<Item>, i: nat): Item
    requires i < |contents|
  {
    Newest(contents)[|contents| - 1 - i]
  }

  /** The victims come least recently used first. */
  lemma VictimsAreOldest(contents: seq<Item>, i: nat, j: nat)
    requires i <= j < |contents|
    ensures Victim(contents, i).time <= Victim(contents, j).time
  {
    SortSorts(contents, NewerFirst);
    SortPermutes(contents, NewerFirst);
    if i < j { assert NewerFirst(Victim(contents, j), Victim(contents, i)); }
  }

  /** The items from position `k` of `items` on that survive the first `n` attempts; attempt `i`
      is about the item `i` places from the end. */
  function Survivors(items: seq<Item>, k: nat, n: nat, outcome: nat -> Attempt): seq<Item>
    requires k <= |items|
    decreases |items| - k
  {
    if k == |items| then []
    else
      var i := |items| - 1 - k;
      var rest := Survivors(items, k + 1, n, outcome);
      if i < n && outcome(i) == Removed then rest else [items[k]] + rest
  }

  /** What is left of the contents after `n` attempts, in size. */
  function SizeLeft(contents: seq<Item>, n: nat, outcome: nat -> Attempt): nat {
    TotalSize(Survivors(Newest(contents), 0, n, outcome))
  }

  lemma {:induction false} AllSurvive(items: seq<Item>, k: nat, outcome: nat -> Attempt)
    requires k <= |items|
    ensures Survivors(items, k, 0, outcome) == items[k..]
    decreases |items| - k
  {
    if k == |items| {
    } else {
      AllSurvive(items, k + 1, outcome);
    }
  }

  lemma {:induction false} OneAttempt(items: seq<Item>, k: nat, n: nat, outcome: nat -> Attempt)
    requires k <= |items| && n < |items|
    ensures var v := |items| - 1 - n;
            TotalSize(Survivors(items, k, n + 1, outcome)) ==
            TotalSize(Survivors(items, k, n, outcome)) -
            if k <= v && outcome(n) == Removed then items[v].size else 0
    decreases |items| - k
  {
    if k == |items| {
    } else {
      OneAttempt(items, k + 1, n, outcome);
    }
  }

  /** Before any attempt the size left is the size collected. */
  lemma NothingAttempted(contents: seq<Item>, outcome: nat -> Attempt)
    ensures SizeLeft(contents, 0, outcome) == TotalSize(contents)
  {
    SortPermutes(contents, NewerFirst);
    TotalSizePermutation(contents, Newest(contents));
    AllSurvive(Newest(contents), 0, outcome);
    assert Newest(contents)[0..] == Newest(contents);
  }

  lemma AfterAttempt(contents: seq<Item>, n: nat, outcome: nat -> Attempt)
    requires n < |contents|
    ensures SizeLeft(contents, n + 1, outcome) ==
            SizeLeft(contents, n, outcome) - if outcome(n) == Removed then Victim(contents, n).size else 0
  {
    OneAttempt(Newest(contents), 0, n, outcome);
  }

  // ----- prune_cache

  predicate AtOrAbove(contents: seq<Item>, n: nat, outcome: nat -> Attempt, target: real) {
    SizeLeft(contents, n, outcome) as real >= target
  }

  ghost predicate AttemptedInOrder(contents: seq<Item>, attempted: seq<Item>) {
    |attempted| <= |contents| && forall i | 0 <= i < |attempted| :: attempted[i] == Victim(contents, i)
  }

  /** What was never attempted. */
  function Kept(contents: seq<Item>, n: nat): seq<Item>
    requires n <= |contents|
  {
    Newest(contents)[..|contents| - n]
  }

  lemma OneMoves(attempted: seq<Item>, kept: seq<Item>, v: Item)
    ensures multiset(attempted + [v]) + multiset(kept) == multiset(attempted) + multiset(kept + [v])
  {}

  lemma {:induction false} AttemptedAndKept(contents: seq<Item>, attempted: seq<Item>)
    requires AttemptedInOrder(contents, attempted)
    ensures multiset(attempted) + multiset(Kept(contents, |attempted|)) == multiset(contents)
  {
    var n := |attempted|;
    if n == 0 {
      assert Kept(contents, 0) == Newest(contents);
      SortPermutes(contents, NewerFirst);
    } else {
      AttemptedAndKept(contents, attempted[..n - 1]);
      OneMoves(attempted[..n - 1], Kept(contents, n), Victim(contents, n - 1));
      assert attempted == attempted[..n - 1] + [Victim(contents, n - 1)];
      assert Kept(contents, n - 1) == Kept(contents, n) + [Victim(contents, n - 1)];
    }
  }

  /** The items attempted and the items kept are together the contents, and nothing kept was used
      before anything attempted. */
  lemma AttemptedAreOldest(contents: seq<Item>, attempted: seq<Item>)
    requires AttemptedInOrder(contents, attempted)
    ensures multiset(attempted) + multiset(Kept(contents, |attempted|)) == multiset(contents)
    ensures forall a, b | a in attempted && b in Kept(contents, |attempted|) :: a.time <= b.time
  {
    AttemptedAndKept(contents, attempted);
    forall a, b | a in attempted && b in Kept(contents, |attempted|) ensures a.time <= b.time {
      var i :| 0 <= i < |attempted| && attempted[i] == a;
      var k :| 0 <= k < |contents| - |attempted| && Newest(contents)[k] == b;
      VictimsAreOldest(contents, i, |contents| - 1 - k);
    }
  }

  /** How a run with a given target ends: at the first moment the size is below the target, or with
      every item attempted and the size still not below it. */
  ghost predicate Ended(contents: seq<Item>, n: nat, outcome: nat -> Attempt, target: real, ok: bool) {
    && (forall m: nat | m < n :: AtOrAbove(contents, m, outcome, target))
    && (if ok then !AtOrAbove(contents, n, outcome, target)
        else n == |contents| && AtOrAbove(contents, n, outcome, target))
  }

  function Target(cacheSize: int, cleanRatio: real): real {
    cacheSize as real * cleanRatio
  }

  method PruneBelow(contents: seq<Item>, target: real, outcome: nat -> Attempt)
    returns (ok: bool, totalSize: int, attempted: seq<Item>)
    ensures AttemptedInOrder(contents, attempted)
    ensures totalSize == SizeLeft(contents, |attempted|, outcome)
    ensures Ended(contents, |attempted|, outcome, target, ok)
  {
    totalSize, attempted := TotalSize(contents), [];
    NothingAttempted(contents, outcome);
    var queue := Newest(contents);
    SortPermutes(contents, NewerFirst);
    while totalSize as real >= target
      invariant |attempted| + |queue| == |contents| && queue == Newest(contents)[..|queue|]
      invariant AttemptedInOrder(contents, attempted)
      invariant totalSize == SizeLeft(contents, |attempted|, outcome)
      invariant forall m: nat | m < |attempted| :: AtOrAbove(contents, m, outcome, target)
      decreases |queue|
    {
      if queue == [] {
        return false, totalSize, attempted;
      }
      var item := queue[|queue| - 1];
      AfterAttempt(contents, |attempted|, outcome);
      queue := queue[..|queue| - 1];
      if outcome(|attempted|) == Removed {
        totalSize := totalSize - item.size;
      }
      attempted := attempted + [item];
    }
    ok := true;
  }

  /** Runs against any outcomes of the attempts. The tracked size is always that of the items
      not removed. */
  method PruneCache(contents: seq<Item>, cacheSizeGb: int, cleanRatio: real, outcome: nat -> Attempt)
    returns (ok: bool, totalSize: int, attempted: seq<Item>)
    ensures AttemptedInOrder(contents, attempted)
    ensures totalSize == SizeLeft(contents, |attempted|, outcome)
    ensures if TotalSize(contents) >= cacheSizeGb * GIGABYTES
            then Ended(contents, |attempted|, outcome, Target(cacheSizeGb * GIGABYTES, cleanRatio), ok)
            else ok && attempted == []
  {
    var cacheSize := cacheSizeGb * GIGABYTES;
    totalSize := TotalSize(contents);
    if totalSize >= cacheSize {
      ok, totalSize, attempted := PruneBelow(contents, Target(cacheSize, cleanRatio), outcome);
    } else {
      NothingAttempted(contents, outcome);
      ok, attempted := true, [];
    }
  }
}
