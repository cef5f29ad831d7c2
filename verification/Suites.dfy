/** The suite generator: per-test runtimes, and greedy packing of tests into suites. */
module Suites {
  import opened Sorting

  const MAX_RUNTIME_KEY := "max_runtime"

  /** Average runtime of a test by variant, and under MAX_RUNTIME_KEY the largest of them. */
  type TestData = map<string, nat>

  type Tests = map<string, TestData>

  // ----- Runtimes of one test

  function Total(runs: seq<nat>): nat {
    if runs == [] then 0 else runs[0] + Total(runs[1..])
  }

  /** Integer division, as in Python 2. */
  function Average(runs: seq<nat>): nat
    requires runs != []
  {
    Total(runs) / |runs|
  }

  /** The average runtime of a test under one variant. */
  datatype Timing = Timing(variant: string, average: nat)

  /** Each variant has one timing, as after `groupby`. */
  ghost predicate Distinct(ts: seq<Timing>) {
    forall i, j | 0 <= i < j < |ts| :: ts[i].variant != ts[j].variant
  }

  /** The largest average, or 0. */
  function Largest(ts: seq<Timing>): (b: nat)
    ensures forall k | 0 <= k < |ts| :: ts[k].average <= b
  {
    if ts == [] then 0
    else
      var last := |ts| - 1;
      var rest := Largest(ts[..last]);
      if last == 0 || ts[last].average > rest then ts[last].average else rest
  }

  lemma {:induction false} LargestAttained(ts: seq<Timing>) returns (k: nat)
    requires ts != []
    ensures k < |ts| && ts[k].average == Largest(ts)
  {
    var last := |ts| - 1;
    if last == 0 || ts[last].average > Largest(ts[..last]) {
      k := last;
    } else {
      k := LargestAttained(ts[..last]);
    }
  }

  /** Where a variant that happens to be called "max_runtime" comes, or 0. */
  function Collision(ts: seq<Timing>): (j: nat)
    ensures j <= |ts| && (ts != [] ==> j < |ts|)
  {
    if ts == [] then 0
    else
      var last := |ts| - 1;
      if ts[last].variant == MAX_RUNTIME_KEY then last else Collision(ts[..last])
  }

  /** The maximum stored for these timings: the largest average from a colliding name on. */
  function StoredMaximum(ts: seq<Timing>): nat {
    Largest(ts[Collision(ts)..])
  }

  ghost predicate StoresMaximum(data: TestData, ts: seq<Timing>) {
    if ts == [] then MAX_RUNTIME_KEY !in data
    else MAX_RUNTIME_KEY in data && data[MAX_RUNTIME_KEY] == StoredMaximum(ts)
  }

  ghost predicate StoresAverages(data: TestData, ts: seq<Timing>) {
    forall k | 0 <= k < |ts| && ts[k].variant != MAX_RUNTIME_KEY ::
      ts[k].variant in data && data[ts[k].variant] == ts[k].average
  }

  ghost predicate StoresNoMore(data: TestData, ts: seq<Timing>) {
    forall v | v in data && v != MAX_RUNTIME_KEY :: exists k | 0 <= k < |ts| :: ts[k].variant == v
  }

  /** The two assignments for one variant. */
  function Stored(data: TestData, t: Timing): TestData {
    var data := data[t.variant := t.average];
    var maximum := if MAX_RUNTIME_KEY in data then data[MAX_RUNTIME_KEY] else 0;
    data[MAX_RUNTIME_KEY := if t.average > maximum then t.average else maximum]
  }

  lemma StoresMaximumStep(data: TestData, ts: seq<Timing>, t: Timing)
    requires StoresMaximum(data, ts)
    ensures StoresMaximum(Stored(data, t), ts + [t])
  {
    LargestStep(ts, t);
  }

  lemma StoresAveragesStep(data: TestData, ts: seq<Timing>, t: Timing)
    requires StoresAverages(data, ts)
    requires forall k | 0 <= k < |ts| :: ts[k].variant != t.variant
    ensures StoresAverages(Stored(data, t), ts + [t])
  {}

  lemma StoresNoMoreStep(data: TestData, ts: seq<Timing>, t: Timing)
    requires StoresNoMore(data, ts)
    ensures StoresNoMore(Stored(data, t), ts + [t])
  {
    var next := ts + [t];
    forall v | v in Stored(data, t) && v != MAX_RUNTIME_KEY
      ensures exists k | 0 <= k < |next| :: next[k].variant == v
    {
      if v == t.variant { assert next[|ts|].variant == v; } else {
        var k :| 0 <= k < |ts| && ts[k].variant == v;
        assert next[k].variant == v;
      }
    }
  }

  /** What is stored for a test with these timings. */
  ghost predicate Stores(data: TestData, ts: seq<Timing>) {
    StoresMaximum(data, ts) && StoresAverages(data, ts) && StoresNoMore(data, ts)
  }

  lemma StoresStep(data: TestData, ts: seq<Timing>, i: nat)
    requires Distinct(ts) && i < |ts| && Stores(data, ts[..i])
    ensures Stores(Stored(data, ts[i]), ts[..i + 1])
  {
    assert ts[..i + 1] == ts[..i] + [ts[i]];
    StoresMaximumStep(data, ts[..i], ts[i]);
    StoresAveragesStep(data, ts[..i], ts[i]);
    StoresNoMoreStep(data, ts[..i], ts[i]);
  }

  function Timings(variants: seq<string>, runs: seq<seq<nat>>): (ts: seq<Timing>)
    requires |variants| == |runs| && forall i | 0 <= i < |runs| :: runs[i] != []
    ensures |ts| == |variants|
    ensures forall i | 0 <= i < |ts| :: ts[i] == Timing(variants[i], Average(runs[i]))
  {
    seq(|variants|, i requires 0 <= i < |variants| => Timing(variants[i], Average(runs[i])))
  }

  /** The loop over the variants of one test; `runs[i]` are the runtimes of variant `i`. */
  method OrganizeVariants(variants: seq<string>, runs: seq<seq<nat>>) returns (data: TestData)
    requires |variants| == |runs| && forall i | 0 <= i < |runs| :: runs[i] != []
    requires forall i, j | 0 <= i < j < |variants| :: variants[i] != variants[j]
    ensures Stores(data, Timings(variants, runs))
  {
    ghost var timings := Timings(variants, runs);
    data := map[];
    for i := 0 to |variants|
      invariant Stores(data, timings[..i])
    {
      StoresStep(data, timings, i);
      data := Stored(data, Timing(variants[i], Average(runs[i])));
    }
    assert timings[..|variants|] == timings;
  }

  lemma LargestStep(ts: seq<Timing>, t: Timing)
    ensures StoredMaximum(ts + [t]) ==
            if t.variant == MAX_RUNTIME_KEY || ts == [] then t.average
            else if t.average > StoredMaximum(ts) then t.average
            else StoredMaximum(ts)
  {
    var next := ts + [t];
    assert next[..|ts|] == ts;
    var j := Collision(next);
    var tail := next[j..];
    assert tail[..|tail| - 1] == ts[j..] && tail[|tail| - 1] == t;
  }

  /** No timing is slower than the stored maximum. */
  ghost predicate MaximumCoversAll(ts: seq<Timing>) {
    forall k | 0 <= k < |ts| :: ts[k].average <= StoredMaximum(ts)
  }

  /** Some timing from `j` on is at least as slow as `average`. */
  predicate Matched(ts: seq<Timing>, j: nat, average: nat) {
    exists m | j <= m < |ts| :: average <= ts[m].average
  }

  /** That holds exactly when each variant that comes before the colliding name, where there is
      one, is no slower than some variant from there on. */
  lemma MaximumCovers(ts: seq<Timing>)
    ensures MaximumCoversAll(ts) <==>
            forall k | 0 <= k < Collision(ts) :: Matched(ts, Collision(ts), ts[k].average)
  {
    if ts != [] {
      forall k | 0 <= k < |ts|
        ensures ts[k].average <= StoredMaximum(ts) <==> Matched(ts, Collision(ts), ts[k].average)
      {
        MatchedByMaximum(ts, ts[k].average);
      }
      forall k | Collision(ts) <= k < |ts| ensures Matched(ts, Collision(ts), ts[k].average) {}
    }
  }

  lemma MatchedByMaximum(ts: seq<Timing>, average: nat)
    requires ts != []
    ensures average <= StoredMaximum(ts) <==> Matched(ts, Collision(ts), average)
  {
    var j := Collision(ts);
    var rest := ts[j..];
    var best := LargestAttained(rest);
    assert ts[j + best].average == StoredMaximum(ts);
    if Matched(ts, j, average) {
      var m :| j <= m < |ts| && average <= ts[m].average;
      assert rest[m - j] == ts[m];
    }
  }

  lemma {:induction false} NoCollision(ts: seq<Timing>)
    requires forall t | t in ts :: t.variant != MAX_RUNTIME_KEY
    ensures Collision(ts) == 0
  {
    if ts == [] {
    } else {
      NoCollision(ts[..|ts| - 1]);
    }
  }

  lemma {:induction false} CollisionAt(ts: seq<Timing>, k: nat)
    requires Distinct(ts) && k < |ts| && ts[k].variant == MAX_RUNTIME_KEY
    ensures Collision(ts) == k
  {
    if k == |ts| - 1 {
    } else {
      CollisionAt(ts[..|ts| - 1], k);
    }
  }

  /** Variant "a" is slower than "max_runtime", and its average exceeds the stored maximum. */
  lemma CollisionHidesMaximum()
    ensures var ts := [Timing("a", 10), Timing(MAX_RUNTIME_KEY, 3)];
            Distinct(ts) && StoredMaximum(ts) < ts[0].average
  {}

  // ----- Suites

  function Runtime(data: TestData, variant: string): nat {
    if variant in data then data[variant] else 0
  }

  /** No variant is slower than the stored maximum. */
  predicate Covered(data: TestData) {
    forall v | v in data :: data[v] <= Runtime(data, MAX_RUNTIME_KEY)
  }

  /** The stored data are covered exactly when the timings they come from are. */
  lemma CoveredWhenMaximumCovers(data: TestData, ts: seq<Timing>)
    requires Distinct(ts) && Stores(data, ts)
    ensures Covered(data) <==> MaximumCoversAll(ts)
  {
    if Covered(data) {
      forall k | 0 <= k < |ts| ensures ts[k].average <= StoredMaximum(ts) {
        if ts[k].variant == MAX_RUNTIME_KEY {
          CollisionAt(ts, k);
          assert ts[k..][0] == ts[k];
        }
      }
    }
    if MaximumCoversAll(ts) {
      forall v | v in data ensures data[v] <= Runtime(data, MAX_RUNTIME_KEY) {
        if v != MAX_RUNTIME_KEY { var k :| 0 <= k < |ts| && ts[k].variant == v; }
      }
    }
  }

  function DataOf(tests: Tests, name: string): TestData {
    if name in tests then tests[name] else map[]
  }

  function Cost(tests: Tests, name: string): nat {
    Runtime(DataOf(tests, name), MAX_RUNTIME_KEY)
  }

  function CostOf(tests: Tests, names: seq<string>): nat {
    if names == [] then 0 else CostOf(tests, names[..|names| - 1]) + Cost(tests, names[|names| - 1])
  }

  function VariantCost(tests: Tests, names: seq<string>, variant: string): nat {
    if names == [] then 0
    else
      VariantCost(tests, names[..|names| - 1], variant) +
      Runtime(DataOf(tests, names[|names| - 1]), variant)
  }

  class Suite {
    var tests: seq<string>
    var totalRuntime: nat
    var variantRuntime: map<string, nat>

    constructor ()
      ensures tests == [] && totalRuntime == 0 && variantRuntime == map[]
    {
      tests, totalRuntime, variantRuntime := [], 0, map[];
    }

    method AddTest(name: string, data: TestData)
      modifies this
      ensures tests == old(tests) + [name]
      ensures totalRuntime == old(totalRuntime) + Runtime(data, MAX_RUNTIME_KEY)
      ensures forall v | v != MAX_RUNTIME_KEY ::
                Runtime(variantRuntime, v) == Runtime(old(variantRuntime), v) + Runtime(data, v)
      ensures MAX_RUNTIME_KEY in variantRuntime <==> MAX_RUNTIME_KEY in old(variantRuntime)
    {
      tests := tests + [name];
      var left := data.Keys;
      while left != {}
        invariant left <= data.Keys && tests == old(tests) + [name]
        invariant totalRuntime == old(totalRuntime) +
                                  if MAX_RUNTIME_KEY in left then 0 else Runtime(data, MAX_RUNTIME_KEY)
        invariant forall v | v != MAX_RUNTIME_KEY ::
          Runtime(variantRuntime, v) ==
          Runtime(old(variantRuntime), v) + if v in left then 0 else Runtime(data, v)
        invariant MAX_RUNTIME_KEY in variantRuntime <==> MAX_RUNTIME_KEY in old(variantRuntime)
        decreases left
      {
        var variant :| variant in left;
        if variant == MAX_RUNTIME_KEY {
          totalRuntime := totalRuntime + data[variant];
        } else {
          variantRuntime := variantRuntime[variant := Runtime(variantRuntime, variant) + data[variant]];
        }
        left := left - {variant};
      }
    }

    /** The figures are those of the tests in the suite. */
    ghost predicate Holds(all: Tests)
      reads this
    {
      && totalRuntime == CostOf(all, tests)
      && (forall v | v != MAX_RUNTIME_KEY :: Runtime(variantRuntime, v) == VariantCost(all, tests, v))
      && MAX_RUNTIME_KEY !in variantRuntime
    }

    method AddFrom(all: Tests, name: string)
      requires Holds(all)
      modifies this
      ensures tests == old(tests) + [name] && Holds(all)
    {
      AddTest(name, DataOf(all, name));
      AddKeepsHolds(all, old(tests), name);
    }
  }

  /** A suite of covered tests is never slower for one variant than in total. */
  lemma {:induction false} VariantWithinTotal(all: Tests, names: seq<string>, v: string)
    requires forall n | n in names :: Covered(DataOf(all, n))
    ensures VariantCost(all, names, v) <= CostOf(all, names)
  {
    if names == [] {
    } else {
      VariantWithinTotal(all, names[..|names| - 1], v);
    }
  }

  lemma SuiteWithinTotal(s: Suite, all: Tests)
    requires s.Holds(all) && forall n | n in s.tests :: Covered(DataOf(all, n))
    ensures forall v :: Runtime(s.variantRuntime, v) <= s.totalRuntime
  {
    forall v ensures Runtime(s.variantRuntime, v) <= s.totalRuntime {
      VariantWithinTotal(all, s.tests, v);
    }
  }

  // ----- Packing

  function Flatten(parts: seq<seq<string>>): seq<string> {
    if parts == [] then [] else parts[0] + Flatten(parts[1..])
  }

  /** A suite within the limit, or of a single test. */
  predicate Fits(tests: Tests, part: seq<string>, limit: int) {
    part != [] && (CostOf(tests, part) <= limit || |part| == 1)
  }

  /** The names, in order, cut into suites that fit. */
  ghost predicate OrderedPartition(tests: Tests, parts: seq<seq<string>>, names: seq<string>, limit: int) {
    Flatten(parts) == names && forall i | 0 <= i < |parts| :: Fits(tests, parts[i], limit)
  }

  /** The suites that the loop still makes of an open suite and the tests to come. */
  function Pack(tests: Tests, current: seq<string>, rest: seq<string>, limit: int): seq<seq<string>>
    decreases |rest|
  {
    if rest == [] then if current == [] then [] else [current]
    else if CostOf(tests, current) + Cost(tests, rest[0]) > limit && current != [] then
      [current] + Pack(tests, [rest[0]], rest[1..], limit)
    else Pack(tests, current + [rest[0]], rest[1..], limit)
  }

  lemma CostPush(tests: Tests, names: seq<string>, name: string)
    ensures CostOf(tests, names + [name]) == CostOf(tests, names) + Cost(tests, name)
  {}

  lemma {:induction false} CostAppend(tests: Tests, a: seq<string>, b: seq<string>)
    ensures CostOf(tests, a + b) == CostOf(tests, a) + CostOf(tests, b)
  {
    if b == [] {
      assert a + b == a;
    } else {
      assert (a + b)[..|a + b| - 1] == a + b[..|b| - 1];
      CostAppend(tests, a, b[..|b| - 1]);
    }
  }

  /** The suites hold the tests in order, and each fits. */
  lemma {:induction false} PackPartitions(tests: Tests, current: seq<string>, rest: seq<string>, limit: int)
    requires current == [] || Fits(tests, current, limit)
    ensures OrderedPartition(tests, Pack(tests, current, rest, limit), current + rest, limit)
    decreases |rest|
  {
    if rest == [] {
      assert current + rest == current;
    } else {
      assert rest == [rest[0]] + rest[1..];
      CostPush(tests, current, rest[0]);
      if CostOf(tests, current) + Cost(tests, rest[0]) > limit && current != [] {
        PackPartitions(tests, [rest[0]], rest[1..], limit);
        var more := Pack(tests, [rest[0]], rest[1..], limit);
        assert ([current] + more)[1..] == more;
      } else {
        PackPartitions(tests, current + [rest[0]], rest[1..], limit);
        assert current + [rest[0]] + rest[1..] == current + rest;
      }
    }
  }

  /** Another way to cut `open + rest`, whose first suite begins with `open`. */
  ghost predicate Rival(tests: Tests, parts: seq<seq<string>>, open: seq<string>, rest: seq<string>, limit: int) {
    && OrderedPartition(tests, parts, open + rest, limit)
    && (open != [] ==> parts != [] && open <= parts[0])
  }

  ghost predicate IsSuffix(a: seq<string>, b: seq<string>) {
    |a| <= |b| && b[|b| - |a|..] == a
  }

  /** The rival takes the next test into its open suite, or has just closed it. */
  lemma RivalStep(tests: Tests, parts: seq<seq<string>>, open: seq<string>, rest: seq<string>, limit: int)
    requires Rival(tests, parts, open, rest, limit) && rest != []
    ensures parts != []
    ensures if open != [] && parts[0] == open then Rival(tests, parts[1..], [rest[0]], rest[1..], limit)
            else Rival(tests, parts, open + [rest[0]], rest[1..], limit)
  {
    assert open + rest == open + [rest[0]] + rest[1..];
    assert Flatten(parts) == parts[0] + Flatten(parts[1..]);
    assert Fits(tests, parts[0], limit);
    if open != [] && parts[0] == open {
      assert Flatten(parts[1..]) == (open + rest)[|open|..] == rest == [rest[0]] + rest[1..];
      assert Fits(tests, parts[1], limit);
      assert parts[1..][0] == parts[1];
      assert Flatten(parts[1..])[0] == parts[1][0];
    } else {
      assert parts[0] <= open + rest;
      assert |parts[0]| > |open|;
      assert parts[0][..|open| + 1] == (open + rest)[..|open| + 1];
    }
  }

  /** With no more suites closed than the rival, and an open suite that ends like the rival's but
      starts no earlier, packing needs no more suites than the rival. */
  lemma {:induction false} PackAhead(tests: Tests, current: seq<string>, rest: seq<string>, limit: int,
                                     open: seq<string>, parts: seq<seq<string>>)
    requires Rival(tests, parts, open, rest, limit) && IsSuffix(current, open)
    ensures |Pack(tests, current, rest, limit)| <= |parts|
    decreases |rest|
  {
    if rest == [] {
    } else {
      RivalStep(tests, parts, open, rest, limit);
      var t := rest[0];
      if open != [] && parts[0] == open {
        if CostOf(tests, current) + Cost(tests, t) > limit && current != [] {
          PackAhead(tests, [t], rest[1..], limit, [t], parts[1..]);
        } else {
          PackOneBehind(tests, current + [t], rest[1..], limit, [t], parts[1..]);
        }
      } else {
        RivalCanAdd(tests, current, rest, limit, open, parts);
        assert IsSuffix(current + [t], open + [t]);
        PackAhead(tests, current + [t], rest[1..], limit, open + [t], parts);
      }
    }
  }

  /** What fits into the rival's suite also fits into a suite that started later. */
  lemma RivalCanAdd(tests: Tests, current: seq<string>, rest: seq<string>, limit: int,
                    open: seq<string>, parts: seq<seq<string>>)
    requires rest != [] && parts != [] && IsSuffix(current, open)
    requires Rival(tests, parts, open + [rest[0]], rest[1..], limit)
    ensures current == [] || CostOf(tests, current) + Cost(tests, rest[0]) <= limit
  {
    var before := open[..|open| - |current|];
    var first := parts[0];
    var grown := open + [rest[0]];
    assert Fits(tests, first, limit);
    assert first == grown + first[|grown|..];
    CostAppend(tests, grown, first[|grown|..]);
    CostPush(tests, open, rest[0]);
    assert open == before + current;
    CostAppend(tests, before, current);
  }

  /** With one suite closed fewer than the rival, one more suite makes up for it. */
  lemma {:induction false} PackOneBehind(tests: Tests, current: seq<string>, rest: seq<string>, limit: int,
                                         open: seq<string>, parts: seq<seq<string>>)
    requires Rival(tests, parts, open, rest, limit)
    ensures |Pack(tests, current, rest, limit)| <= 1 + |parts|
    decreases |rest|
  {
    if rest == [] {
    } else {
      RivalStep(tests, parts, open, rest, limit);
      var t := rest[0];
      var closed := open != [] && parts[0] == open;
      var open', parts' := if closed then [t] else open + [t], if closed then parts[1..] else parts;
      if CostOf(tests, current) + Cost(tests, t) > limit && current != [] {
        assert IsSuffix([t], open');
        PackAhead(tests, [t], rest[1..], limit, open', parts');
      } else {
        PackOneBehind(tests, current + [t], rest[1..], limit, open', parts');
      }
    }
  }

  /** No way to cut the tests, in order, into suites that fit has fewer suites. */
  lemma PackIsOptimal(tests: Tests, names: seq<string>, limit: int, parts: seq<seq<string>>)
    requires OrderedPartition(tests, parts, names, limit)
    ensures |Pack(tests, [], names, limit)| <= |parts|
  {
    assert [] + names == names;
    PackAhead(tests, [], names, limit, [], parts);
  }

  // ----- Any partition at all

  /** The cost of suite `j` when test `i` goes to suite `a[i]`. */
  function Load(tests: Tests, names: seq<string>, a: seq<nat>, j: nat): nat
    requires |a| == |names|
  {
    if names == [] then 0
    else
      var last := |names| - 1;
      Load(tests, names[..last], a[..last], j) + if a[last] == j then Cost(tests, names[last]) else 0
  }

  /** The loads of suites `0..m`. */
  function Loads(tests: Tests, names: seq<string>, a: seq<nat>, m: nat): nat
    requires |a| == |names|
  {
    if m == 0 then 0 else Loads(tests, names, a, m - 1) + Load(tests, names, a, m - 1)
  }

  lemma {:induction false} LoadsPush(tests: Tests, names: seq<string>, a: seq<nat>, m: nat)
    requires |a| == |names| > 0
    ensures Loads(tests, names, a, m) ==
            Loads(tests, names[..|names| - 1], a[..|a| - 1], m) +
            if a[|a| - 1] < m then Cost(tests, names[|names| - 1]) else 0
  {
    if m == 0 {
    } else {
      LoadsPush(tests, names, a, m - 1);
    }
  }

  lemma {:induction false} LoadsZero(tests: Tests, m: nat)
    ensures Loads(tests, [], [], m) == 0
  {
    if m == 0 {
    } else {
      LoadsZero(tests, m - 1);
    }
  }

  /** Whatever the assignment, the loads add up to the cost of all tests. */
  lemma {:induction false} LoadsConserve(tests: Tests, names: seq<string>, a: seq<nat>, m: nat)
    requires |a| == |names| && forall i | 0 <= i < |a| :: a[i] < m
    ensures Loads(tests, names, a, m) == CostOf(tests, names)
  {
    if names == [] {
      LoadsZero(tests, m);
    } else {
      LoadsPush(tests, names, a, m);
      LoadsConserve(tests, names[..|names| - 1], a[..|a| - 1], m);
    }
  }

  lemma {:induction false} LoadsWithin(tests: Tests, names: seq<string>, a: seq<nat>, m: nat, limit: int)
    requires |a| == |names| && forall j | 0 <= j < m :: Load(tests, names, a, j) <= limit
    ensures Loads(tests, names, a, m) <= m * limit
  {
    if m == 0 {
    } else {
      LoadsWithin(tests, names, a, m - 1, limit);
      Distribute(m, limit);
    }
  }

  /** Neighbouring suites together exceed the limit. */
  ghost predicate NeighboursExceed(tests: Tests, parts: seq<seq<string>>, limit: int) {
    forall i | 0 <= i < |parts| - 1 :: PairExceeds(tests, parts, i, limit)
  }

  predicate PairExceeds(tests: Tests, parts: seq<seq<string>>, i: nat, limit: int)
    requires i < |parts| - 1
  {
    CostOf(tests, parts[i]) + CostOf(tests, parts[i + 1]) > limit
  }

  lemma OneMoreNeighbour(tests: Tests, current: seq<string>, more: seq<seq<string>>, limit: int)
    requires more != [] && CostOf(tests, current) + CostOf(tests, more[0]) > limit
    requires NeighboursExceed(tests, more, limit)
    ensures NeighboursExceed(tests, [current] + more, limit)
  {
    forall i | 0 <= i < |more| ensures PairExceeds(tests, [current] + more, i, limit) {
      if i > 0 { assert PairExceeds(tests, more, i - 1, limit); }
    }
  }

  lemma {:induction false} PackNeighbours(tests: Tests, current: seq<string>, rest: seq<string>, limit: int)
    ensures NeighboursExceed(tests, Pack(tests, current, rest, limit), limit)
    ensures current != [] ==> Pack(tests, current, rest, limit) != [] &&
                              CostOf(tests, Pack(tests, current, rest, limit)[0]) >= CostOf(tests, current)
    decreases |rest|
  {
    if rest == [] {
    } else {
      if CostOf(tests, current) + Cost(tests, rest[0]) > limit && current != [] {
        PackNeighbours(tests, [rest[0]], rest[1..], limit);
        CostPush(tests, [], rest[0]);
        assert [] + [rest[0]] == [rest[0]];
        OneMoreNeighbour(tests, current, Pack(tests, [rest[0]], rest[1..], limit), limit);
      } else {
        PackNeighbours(tests, current + [rest[0]], rest[1..], limit);
        CostPush(tests, current, rest[0]);
      }
    }
  }

  lemma {:induction false} PairsExceed(tests: Tests, parts: seq<seq<string>>, limit: int, pairs: nat)
    requires NeighboursExceed(tests, parts, limit) && 2 * pairs <= |parts|
    ensures CostOf(tests, Flatten(parts)) >= pairs * (limit + 1)
    decreases pairs
  {
    if pairs == 0 {
    } else {
      var rest := parts[2..];
      forall i | 0 <= i < |rest| - 1 ensures PairExceeds(tests, rest, i, limit) {
        assert PairExceeds(tests, parts, i + 2, limit);
      }
      PairsExceed(tests, rest, limit, pairs - 1);
      assert PairExceeds(tests, parts, 0, limit);
      CostOfTwo(tests, parts);
      Distribute(pairs, limit + 1);
    }
  }

  lemma Distribute(n: int, c: int)
    ensures n * c == (n - 1) * c + c
  {}

  lemma CostOfTwo(tests: Tests, parts: seq<seq<string>>)
    requires |parts| >= 2
    ensures CostOf(tests, Flatten(parts)) ==
            CostOf(tests, parts[0]) + CostOf(tests, parts[1]) + CostOf(tests, Flatten(parts[2..]))
  {
    assert parts[1..][1..] == parts[2..] && parts[1..][0] == parts[1];
    CostAppend(tests, parts[1], Flatten(parts[2..]));
    CostAppend(tests, parts[0], Flatten(parts[1..]));
  }

  /** When every test fits the limit, packing uses at most twice the suites of any assignment of
      tests to suites within the limit, in whatever order. */
  lemma PackWithinTwice(tests: Tests, names: seq<string>, limit: int, a: seq<nat>, m: nat)
    requires |a| == |names| && forall i | 0 <= i < |a| :: a[i] < m
    requires forall j | 0 <= j < m :: Load(tests, names, a, j) <= limit
    ensures |Pack(tests, [], names, limit)| <= 2 * m
  {
    var parts := Pack(tests, [], names, limit);
    PackPartitions(tests, [], names, limit);
    assert [] + names == names;
    PackNeighbours(tests, [], names, limit);
    var pairs := |parts| / 2;
    PairsExceed(tests, parts, limit, pairs);
    LoadsConserve(tests, names, a, m);
    LoadsWithin(tests, names, a, m, limit);
    assert pairs * (limit + 1) <= m * limit;
    if names == [] {
      assert parts == [];
    } else {
      assert a[0] < m;
      assert pairs >= m ==> pairs * (limit + 1) >= m * (limit + 1) by {
        assert Load(tests, names, a, 0) <= limit;
        MulMonotone(m, pairs, limit + 1);
      }
      assert m * (limit + 1) == m * limit + m;
    }
  }

  lemma MulMonotone(a: int, b: int, c: int)
    requires c >= 0
    ensures b >= a ==> b * c >= a * c
  {}

  // ----- divide_tests_into_suites_by_maxtime

  /** Suites of exactly the packed tests, with the figures of their tests. */
  method DivideTests(tests: Tests, sortedTests: seq<string>, limit: int) returns (suites: seq<Suite>)
    ensures fresh(suites)
    ensures |suites| == |Pack(tests, [], sortedTests, limit)|
    ensures forall k | 0 <= k < |suites| ::
              suites[k].tests == Pack(tests, [], sortedTests, limit)[k] && suites[k].Holds(tests)
  {
    var current: Suite;
    ghost var closed;
    suites, current, closed := PlaceAll(tests, sortedTests, limit);
    if |current.tests| > 0 {
      suites := suites + [current];
    }
  }

  /** The loop over the tests, with the last suite still open. */
  method PlaceAll(tests: Tests, sortedTests: seq<string>, limit: int)
    returns (suites: seq<Suite>, current: Suite, ghost closed: seq<seq<string>>)
    ensures fresh(suites) && fresh(current)
    ensures Closed(suites, closed, current, tests)
    ensures Pack(tests, [], sortedTests, limit) == closed + if current.tests == [] then [] else [current.tests]
  {
    suites, closed := [], [];
    current := new Suite();
    for i := 0 to |sortedTests|
      invariant fresh(suites) && fresh(current)
      invariant Closed(suites, closed, current, tests)
      invariant Pack(tests, [], sortedTests, limit) ==
                closed + Pack(tests, current.tests, sortedTests[i..], limit)
    {
      suites, current, closed := PlaceNext(suites, current, tests, sortedTests, i, limit, closed);
    }
  }

  /** One round leaves as much to pack as there was. */
  method PlaceNext(suites: seq<Suite>, current: Suite, tests: Tests, sortedTests: seq<string>, i: nat, limit: int,
                   ghost closed: seq<seq<string>>)
    returns (suites': seq<Suite>, current': Suite, ghost closed': seq<seq<string>>)
    requires i < |sortedTests| && Closed(suites, closed, current, tests)
    modifies current
    ensures Closed(suites', closed', current', tests)
    ensures suites' == suites || suites' == suites + [current]
    ensures current' == current || fresh(current')
    ensures closed + Pack(tests, old(current.tests), sortedTests[i..], limit) ==
            closed' + Pack(tests, current'.tests, sortedTests[i + 1..], limit)
  {
    PackStep(tests, current.tests, sortedTests[i..], limit, closed);
    assert sortedTests[i..][1..] == sortedTests[i + 1..];
    suites', current', closed' := Place(suites, current, tests, sortedTests[i], limit, closed);
  }

  /** The suites closed so far, none of them the open one. */
  ghost predicate Closed(suites: seq<Suite>, closed: seq<seq<string>>, current: Suite, tests: Tests)
    reads suites, current
  {
    && |closed| == |suites|
    && (forall k | 0 <= k < |suites| ::
         suites[k] != current && suites[k].tests == closed[k] && suites[k].Holds(tests))
    && current.Holds(tests)
  }

  /** One round of the loop: the test goes to the open suite, or to a new one. */
  method Place(suites: seq<Suite>, current: Suite, tests: Tests, name: string, limit: int,
               ghost closed: seq<seq<string>>)
    returns (suites': seq<Suite>, current': Suite, ghost closed': seq<seq<string>>)
    requires Closed(suites, closed, current, tests)
    modifies current
    ensures Closed(suites', closed', current', tests)
    ensures var full := CostOf(tests, old(current.tests)) + Cost(tests, name) > limit;
            if full && old(current.tests) != [] then
              && suites' == suites + [current] && closed' == closed + [old(current.tests)]
              && fresh(current') && current'.tests == [] + [name]
            else
              && suites' == suites && closed' == closed
              && current' == current && current'.tests == old(current.tests) + [name]
  {
    suites', current', closed' := suites, current, closed;
    if current.totalRuntime + Cost(tests, name) > limit {
      if |current.tests| > 0 {
        suites', closed' := suites + [current], closed + [current.tests];
        current' := new Suite();
      }
    }
    current'.AddFrom(tests, name);
  }

  lemma PackStep(tests: Tests, current: seq<string>, rest: seq<string>, limit: int, closed: seq<seq<string>>)
    requires rest != []
    ensures closed + Pack(tests, current, rest, limit) ==
            if CostOf(tests, current) + Cost(tests, rest[0]) > limit && current != [] then
              closed + [current] + Pack(tests, [] + [rest[0]], rest[1..], limit)
            else closed + Pack(tests, current + [rest[0]], rest[1..], limit)
  {
    assert [] + [rest[0]] == [rest[0]];
  }

  lemma AddKeepsHolds(tests: Tests, names: seq<string>, name: string)
    ensures CostOf(tests, names + [name]) == CostOf(tests, names) + Runtime(DataOf(tests, name), MAX_RUNTIME_KEY)
    ensures forall v :: VariantCost(tests, names + [name], v) ==
                        VariantCost(tests, names, v) + Runtime(DataOf(tests, name), v)
  {}

  // ----- From executions to suites

  /** The variants a test ran under, each with the runtimes of its executions. */
  datatype Runs = Runs(variants: seq<string>, times: seq<seq<nat>>)

  ghost predicate ValidRuns(r: Runs) {
    && |r.variants| == |r.times| && (forall i | 0 <= i < |r.times| :: r.times[i] != [])
    && (forall i, j | 0 <= i < j < |r.variants| :: r.variants[i] != r.variants[j])
  }

  ghost function TimingsOf(r: Runs): (ts: seq<Timing>)
    requires ValidRuns(r)
    ensures Distinct(ts)
  {
    Timings(r.variants, r.times)
  }

  /** No variant before one named like the key of the maximum, where there is one, is slower than all
      from there on. */
  ghost predicate CollidesHarmlessly(ts: seq<Timing>) {
    forall k | 0 <= k < Collision(ts) :: Matched(ts, Collision(ts), ts[k].average)
  }

  lemma HarmlessIsCovered(data: TestData, r: Runs)
    requires ValidRuns(r) && Stores(data, TimingsOf(r))
    ensures Covered(data) <==> CollidesHarmlessly(TimingsOf(r))
  {
    MaximumCovers(TimingsOf(r));
    CoveredWhenMaximumCovers(data, TimingsOf(r));
  }

  ghost predicate Organized(tests: Tests, executions: map<string, Runs>, names: seq<string>) {
    forall n | n in names :: n in executions && ValidRuns(executions[n]) && n in tests &&
                             Stores(tests[n], TimingsOf(executions[n]))
  }

  method OrganizeTests(executions: map<string, Runs>, names: seq<string>) returns (tests: Tests)
    requires forall n | n in names :: n in executions && ValidRuns(executions[n])
    ensures Organized(tests, executions, names) && forall n :: n in tests <==> n in names
  {
    tests := map[];
    for i := 0 to |names|
      invariant Organized(tests, executions, names[..i]) && forall n :: n in tests <==> n in names[..i]
    {
      assert names[..i + 1] == names[..i] + [names[i]];
      var runs := executions[names[i]];
      var data := OrganizeVariants(runs.variants, runs.times);
      tests := tests[names[i] := data];
    }
    assert names[..|names|] == names;
  }

  predicate SlowerFirst(tests: Tests, a: string, b: string) {
    Cost(tests, a) >= Cost(tests, b)
  }

  /** The test names, slowest first. */
  function SlowestFirst(tests: Tests, names: seq<string>): (sorted: seq<string>) {
    Sort(names, (a, b) => SlowerFirst(tests, a, b))
  }

  lemma SlowestFirstSorts(tests: Tests, names: seq<string>)
    ensures multiset(SlowestFirst(tests, names)) == multiset(names)
    ensures forall n :: n in SlowestFirst(tests, names) <==> n in names
    ensures SortedBy(SlowestFirst(tests, names), (a, b) => SlowerFirst(tests, a, b))
  {
    var leq := (a, b) => SlowerFirst(tests, a, b);
    SortPermutes(names, leq);
    SortMembers(names, leq);
    SortSorts(names, leq);
  }

  /** No variant runtime exceeds the total of its suite. */
  ghost predicate PartsWithinTotal(tests: Tests, parts: seq<seq<string>>) {
    forall i, v | 0 <= i < |parts| :: VariantCost(tests, parts[i], v) <= CostOf(tests, parts[i])
  }

  lemma {:induction false} MembersOfFlatten(parts: seq<seq<string>>, i: nat)
    requires i < |parts|
    ensures forall n | n in parts[i] :: n in Flatten(parts)
  {
    if i == 0 {
    } else {
      MembersOfFlatten(parts[1..], i - 1);
    }
  }

  lemma CoveredWithinTotal(tests: Tests, names: seq<string>, limit: int)
    requires forall n | n in names :: Covered(DataOf(tests, n))
    ensures PartsWithinTotal(tests, Pack(tests, [], names, limit))
  {
    var parts := Pack(tests, [], names, limit);
    PackPartitions(tests, [], names, limit);
    assert [] + names == names;
    forall i, v | 0 <= i < |parts| ensures VariantCost(tests, parts[i], v) <= CostOf(tests, parts[i]) {
      MembersOfFlatten(parts, i);
      VariantWithinTotal(tests, parts[i], v);
    }
  }

  function Singles(names: seq<string>): seq<seq<string>> {
    if names == [] then [] else [[names[0]]] + Singles(names[1..])
  }

  /** Below any runtime, every test is a suite of its own. */
  lemma {:induction false} PackSingles(tests: Tests, current: seq<string>, rest: seq<string>, limit: int)
    requires limit < 0
    ensures Pack(tests, current, rest, limit) ==
            if current == [] then Singles(rest) else [current] + Singles(rest)
    decreases |rest|, |current|
  {
    if rest == [] {
    } else {
      PackSingles(tests, [rest[0]], rest[1..], limit);
      assert [] + [rest[0]] == [rest[0]];
    }
  }

  lemma {:induction false} SingleOf(names: seq<string>, j: nat)
    requires j < |names|
    ensures |Singles(names)| == |names| && Singles(names)[j] == [names[j]]
  {
    if |names| == 1 {
    } else {
      SingleOf(names[1..], if j == 0 then 0 else j - 1);
    }
  }

  lemma UncoveredExceeds(tests: Tests, names: seq<string>, n: string, limit: int)
    requires n in names && !Covered(DataOf(tests, n)) && limit < 0
    ensures !PartsWithinTotal(tests, Pack(tests, [], names, limit))
  {
    var j :| 0 <= j < |names| && names[j] == n;
    PackSingles(tests, [], names, limit);
    SingleOf(names, j);
    var v :| v in DataOf(tests, n) && DataOf(tests, n)[v] > Cost(tests, n);
    assert [n][..0] == [];
    assert VariantCost(tests, [n], v) > CostOf(tests, [n]);
  }

  /** Under every negative limit, and so under all limits, no suite is slower for one variant than in
      total, exactly when no test is. */
  lemma WithinTotalExactly(tests: Tests, names: seq<string>)
    ensures (forall limit: int :: PartsWithinTotal(tests, Pack(tests, [], names, limit))) <==>
            (forall n | n in names :: Covered(DataOf(tests, n)))
    ensures forall limit: int | limit < 0 ::
              PartsWithinTotal(tests, Pack(tests, [], names, limit)) <==>
              forall n | n in names :: Covered(DataOf(tests, n))
  {
    if n :| n in names && !Covered(DataOf(tests, n)) {
      forall limit: int | limit < 0 ensures !PartsWithinTotal(tests, Pack(tests, [], names, limit)) {
        UncoveredExceeds(tests, names, n, limit);
      }
      assert !PartsWithinTotal(tests, Pack(tests, [], names, -1));
    } else {
      forall limit: int ensures PartsWithinTotal(tests, Pack(tests, [], names, limit)) {
        CoveredWithinTotal(tests, names, limit);
      }
    }
  }

  // ----- Positive limits

  lemma {:induction false} PartWith(parts: seq<seq<string>>, n: string) returns (i: nat)
    requires n in Flatten(parts)
    ensures i < |parts| && n in parts[i]
  {
    if n in parts[0] {
      i := 0;
    } else {
      i := PartWith(parts[1..], n);
      i := i + 1;
    }
  }

  lemma {:induction false} AtLeastMember(tests: Tests, names: seq<string>, n: string, v: string)
    requires n in names
    ensures CostOf(tests, names) >= Cost(tests, n)
    ensures VariantCost(tests, names, v) >= Runtime(DataOf(tests, n), v)
  {
    var last := names[|names| - 1];
    if last == n {
    } else {
      AtLeastMember(tests, names[..|names| - 1], n, v);
    }
  }

  /** Under the limit 1, nothing in a suite but the test itself adds to its total. */
  lemma UncoveredExceedsOne(tests: Tests, names: seq<string>, n: string)
    requires n in names && !Covered(DataOf(tests, n)) && Cost(tests, n) > 0
    ensures !PartsWithinTotal(tests, Pack(tests, [], names, 1))
  {
    var parts := Pack(tests, [], names, 1);
    PackPartitions(tests, [], names, 1);
    assert [] + names == names;
    var i := PartWith(parts, n);
    var v :| v in DataOf(tests, n) && DataOf(tests, n)[v] > Cost(tests, n);
    AtLeastMember(tests, parts[i], n, v);
    if |parts[i]| == 1 {
      assert parts[i] == [n] && parts[i][..0] == [];
    }
    assert VariantCost(tests, parts[i], v) > CostOf(tests, parts[i]);
  }

  /** Over positive limits the same holds, unless a test that is not covered has a stored maximum of 0. */
  lemma WithinTotalPositive(tests: Tests, names: seq<string>)
    requires forall n | n in names && Cost(tests, n) == 0 :: Covered(DataOf(tests, n))
    ensures (forall limit: int | limit > 0 :: PartsWithinTotal(tests, Pack(tests, [], names, limit))) <==>
            (forall n | n in names :: Covered(DataOf(tests, n)))
  {
    if n :| n in names && !Covered(DataOf(tests, n)) {
      UncoveredExceedsOne(tests, names, n);
    } else {
      forall limit: int | limit > 0 ensures PartsWithinTotal(tests, Pack(tests, [], names, limit)) {
        CoveredWithinTotal(tests, names, limit);
      }
    }
  }

  /** A stored maximum of 0 hides behind a test that takes time: not covered, and yet within the total
      under every positive limit. */
  lemma ZeroMaximumHidden(tests: Tests, limit: int)
    requires limit > 0
    requires tests == map["m" := map["b" := 1, MAX_RUNTIME_KEY := 1], "n" := map["a" := 1, MAX_RUNTIME_KEY := 0]]
    ensures !Covered(DataOf(tests, "n"))
    ensures PartsWithinTotal(tests, Pack(tests, [], ["m", "n"], limit))
  {
    assert "a" in DataOf(tests, "n");
    assert Cost(tests, "m") == 1 && Cost(tests, "n") == 0;
    var parts := Pack(tests, [], ["m", "n"], limit);
    assert ["m", "n"][1..] == ["n"] && ["n"][1..] == [] && [] + ["m"] == ["m"] && ["m"] + ["n"] == ["m", "n"];
    AddKeepsHolds(tests, [], "m");
    AddKeepsHolds(tests, ["m"], "n");
    assert parts == [["m", "n"]];
    forall v ensures VariantCost(tests, ["m", "n"], v) <= CostOf(tests, ["m", "n"]) {
      assert Runtime(DataOf(tests, "m"), v) + Runtime(DataOf(tests, "n"), v) <= 1;
    }
  }

  /** The whole way from executions to suites: every test is in exactly one suite, the suites follow the
      tests from the slowest on and fit, and when every test collides harmlessly, no accumulated runtime
      of a variant exceeds the total of its suite. */
  method CalculateSuites(executions: map<string, Runs>, names: seq<string>, limit: int)
    returns (tests: Tests, suites: seq<Suite>)
    requires forall n | n in names :: n in executions && ValidRuns(executions[n])
    ensures Organized(tests, executions, names) && fresh(suites)
    ensures var parts := Pack(tests, [], SlowestFirst(tests, names), limit);
            && |suites| == |parts| && OrderedPartition(tests, parts, SlowestFirst(tests, names), limit)
            && multiset(Flatten(parts)) == multiset(names)
            && (forall k | 0 <= k < |suites| :: suites[k].tests == parts[k] && suites[k].Holds(tests))
    ensures (forall n | n in names :: CollidesHarmlessly(TimingsOf(executions[n]))) ==>
              forall k, v | 0 <= k < |suites| :: Runtime(suites[k].variantRuntime, v) <= suites[k].totalRuntime
  {
    tests := OrganizeTests(executions, names);
    var sorted := SlowestFirst(tests, names);
    suites := DivideTests(tests, sorted, limit);
    SlowestFirstSorts(tests, names);
    PackPartitions(tests, [], sorted, limit);
    assert [] + sorted == sorted;
    if forall n | n in names :: CollidesHarmlessly(TimingsOf(executions[n])) {
      HarmlessCovered(tests, executions, names);
      forall k | 0 <= k < |suites|
        ensures forall v :: Runtime(suites[k].variantRuntime, v) <= suites[k].totalRuntime
      {
        MembersOfFlatten(Pack(tests, [], sorted, limit), k);
        SuiteWithinTotal(suites[k], tests);
      }
    }
  }

  lemma HarmlessCovered(tests: Tests, executions: map<string, Runs>, names: seq<string>)
    requires Organized(tests, executions, names)
    requires forall n | n in names :: CollidesHarmlessly(TimingsOf(executions[n]))
    ensures forall n | n in names :: Covered(DataOf(tests, n))
  {
    forall n | n in names ensures Covered(DataOf(tests, n)) { HarmlessIsCovered(tests[n], executions[n]); }
  }
}
