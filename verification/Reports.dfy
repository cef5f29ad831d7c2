/** Reports of test executions: summing entries, and summarizing a report by components and
    by a period of time. */
module Reports {
  import opened Results
  import opened Sorting

  // ----- Entries

  /** A component of an entry: a name, an unknown value, or "several values". */
  datatype Field = Name(name: string) | Missing | Wildcard

  /** Dates are proleptic Gregorian ordinals, as `datetime.date.toordinal` gives them. */
  const MIN_DATE := 1
  const MAX_DATE := 3652059

  type Date = d: int | MIN_DATE <= d <= MAX_DATE witness MIN_DATE

  datatype Entry = Entry(test: Field, task: Field, variant: Field, distro: Field,
                         startDate: Date, endDate: Date, numPass: nat, numFail: nat)

  datatype Component = Test | Task | Variant | Distro

  function Get(e: Entry, c: Component): Field {
    match c
    case Test => e.test
    case Task => e.task
    case Variant => e.variant
    case Distro => e.distro
  }

  function Fields(e: Entry, cs: seq<Component>): (fs: seq<Field>)
    ensures |fs| == |cs| && forall i | 0 <= i < |cs| :: fs[i] == Get(e, cs[i])
  {
    seq(|cs|, i requires 0 <= i < |cs| => Get(e, cs[i]))
  }

  // ----- Sums

  /** The sum of no entries yet, or the sum of some. */
  datatype Total = Nothing | Just(entry: Entry)

  function JoinField(a: Field, b: Field): Field {
    if a == b then a else Wildcard
  }

  function Min(a: Date, b: Date): Date { if a <= b then a else b }

  function Max(a: Date, b: Date): Date { if a >= b then a else b }

  function Join(a: Entry, b: Entry): Entry {
    Entry(JoinField(a.test, b.test), JoinField(a.task, b.task), JoinField(a.variant, b.variant),
          JoinField(a.distro, b.distro), Min(a.startDate, b.startDate), Max(a.endDate, b.endDate),
          a.numPass + b.numPass, a.numFail + b.numFail)
  }

  function Plus(a: Total, b: Total): Total {
    if a.Nothing? then b else if b.Nothing? then a else Just(Join(a.entry, b.entry))
  }

  function TotalOf(es: seq<Entry>): (t: Total)
    ensures t.Nothing? <==> es == []
  {
    if es == [] then Nothing else Plus(Just(es[0]), TotalOf(es[1..]))
  }

  /** The reference sum: entries joined two by two. Of no entries it is the neutral record
      that the loop starts from, with wildcards for the empty sets of values. */
  function Sum(es: seq<Entry>): Entry {
    match TotalOf(es)
    case Nothing => Entry(Wildcard, Wildcard, Wildcard, Wildcard, MAX_DATE, MIN_DATE, 0, 0)
    case Just(e) => e
  }

  lemma PlusAssociative(a: Total, b: Total, c: Total)
    ensures Plus(Plus(a, b), c) == Plus(a, Plus(b, c))
  {}

  lemma PlusCommutative(a: Total, b: Total)
    ensures Plus(a, b) == Plus(b, a)
  {}

  lemma {:induction false} TotalAppend(a: seq<Entry>, b: seq<Entry>)
    ensures TotalOf(a + b) == Plus(TotalOf(a), TotalOf(b))
  {
    if a == [] {
      assert a + b == b;
    } else {
      assert (a + b)[1..] == a[1..] + b;
      TotalAppend(a[1..], b);
      PlusAssociative(Just(a[0]), TotalOf(a[1..]), TotalOf(b));
    }
  }

  ghost function Values(es: seq<Entry>, c: Component): set<Field> {
    set e | e in es :: Get(e, c)
  }

  /** One value stays; several, or none, give the wildcard. */
  lemma {:induction false} SumField(es: seq<Entry>, c: Component)
    requires es != []
    ensures Get(Sum(es), c) == Wildcard || Values(es, c) == {Get(Sum(es), c)}
    ensures forall x | Values(es, c) == {x} :: Get(Sum(es), c) == x
  {
    var vs := Values(es, c);
    if |es| == 1 {
      assert vs == {Get(es[0], c)};
    } else {
      SumField(es[1..], c);
      var rest := Values(es[1..], c);
      assert es == [es[0]] + es[1..];
      assert vs == {Get(es[0], c)} + rest;
      assert Get(es[1], c) in rest;
      assert Get(Sum(es), c) == JoinField(Get(es[0], c), Get(Sum(es[1..]), c));
      forall x | vs == {x} ensures Get(Sum(es), c) == x {
        assert rest == {x};
      }
    }
  }

  method PickField(values: set<Field>) returns (f: Field)
    ensures forall x | values == {x} :: f == x
    ensures |values| != 1 ==> f == Wildcard
  {
    if |values| == 1 {
      f :| f in values;
      SingletonOnly(values, f);
    } else {
      f := Wildcard;
    }
  }

  lemma SingletonOnly(s: set<Field>, x: Field)
    requires |s| == 1 && x in s
    ensures s == {x}
  {
    assert |s - {x}| == 0;
  }

  lemma SumFieldBySet(es: seq<Entry>, c: Component, f: Field)
    requires forall x | Values(es, c) == {x} :: f == x
    requires |Values(es, c)| != 1 ==> f == Wildcard
    ensures f == Get(Sum(es), c)
  {
    if es != [] {
      SumField(es, c);
      var vs := Values(es, c);
      if |vs| == 1 {
        assert Get(es[0], c) in vs;
        SingletonOnly(vs, Get(es[0], c));
      }
    } else {
      assert Values(es, c) == {};
    }
  }

  lemma ValuesStep(es: seq<Entry>, i: nat, c: Component)
    requires i < |es|
    ensures Values(es[..i + 1], c) == Values(es[..i], c) + {Get(es[i], c)}
  {}

  function Figures(e: Entry): (Date, Date, nat, nat) {
    (e.startDate, e.endDate, e.numPass, e.numFail)
  }

  lemma FiguresStep(es: seq<Entry>, i: nat)
    requires i < |es|
    ensures Figures(Sum(es[..i + 1])) ==
            var s, e := Sum(es[..i]), es[i];
            (Min(e.startDate, s.startDate), Max(e.endDate, s.endDate),
             s.numPass + e.numPass, s.numFail + e.numFail)
  {
    assert es[..i + 1] == es[..i] + [es[i]];
    TotalAppend(es[..i], [es[i]]);
  }

  /** The loop of ReportEntry.sum. */
  method SumEntries(es: seq<Entry>) returns (r: Entry)
    ensures r == Sum(es)
  {
    var test, task, variant, distro := {}, {}, {}, {};
    var startDate: Date, endDate: Date := MAX_DATE, MIN_DATE;
    var numPass, numFail := 0, 0;
    for i := 0 to |es|
      invariant test == Values(es[..i], Test) && task == Values(es[..i], Task)
      invariant variant == Values(es[..i], Variant) && distro == Values(es[..i], Distro)
      invariant (startDate, endDate, numPass, numFail) == Figures(Sum(es[..i]))
    {
      ValuesStep(es, i, Test);
      ValuesStep(es, i, Task);
      ValuesStep(es, i, Variant);
      ValuesStep(es, i, Distro);
      FiguresStep(es, i);
      test, task := test + {es[i].test}, task + {es[i].task};
      variant, distro := variant + {es[i].variant}, distro + {es[i].distro};
      startDate, endDate := Min(es[i].startDate, startDate), Max(es[i].endDate, endDate);
      numPass, numFail := numPass + es[i].numPass, numFail + es[i].numFail;
    }
    assert es[..|es|] == es;
    var fTest := PickField(test);
    var fTask := PickField(task);
    var fVariant := PickField(variant);
    var fDistro := PickField(distro);
    SumFieldBySet(es, Test, fTest);
    SumFieldBySet(es, Task, fTask);
    SumFieldBySet(es, Variant, fVariant);
    SumFieldBySet(es, Distro, fDistro);
    r := Entry(fTest, fTask, fVariant, fDistro, startDate, endDate, numPass, numFail);
  }

  // ----- Sums of sums

  lemma {:induction false} TotalPermutation(a: seq<Entry>, b: seq<Entry>)
    requires multiset(a) == multiset(b)
    ensures TotalOf(a) == TotalOf(b)
  {
    if a == [] {
      assert |multiset(b)| == 0;
    } else {
      var l, r := PermutationTail(a, b);
      TotalPermutation(a[1..], l + r);
      TotalAppend(l, r);
      TotalAppend([a[0]], r);
      TotalAppend(l, [a[0]] + r);
      PlusCommutative(TotalOf(l), Just(a[0]));
      PlusAssociative(TotalOf(l), Just(a[0]), TotalOf(r));
      PlusAssociative(Just(a[0]), TotalOf(l), TotalOf(r));
    }
  }

  function Flatten(groups: seq<seq<Entry>>): seq<Entry> {
    if groups == [] then [] else groups[0] + Flatten(groups[1..])
  }

  function Sums(groups: seq<seq<Entry>>): seq<Entry> {
    if groups == [] then [] else [Sum(groups[0])] + Sums(groups[1..])
  }

  lemma {:induction false} TotalOfSums(groups: seq<seq<Entry>>)
    requires forall i | 0 <= i < |groups| :: groups[i] != []
    ensures TotalOf(Sums(groups)) == TotalOf(Flatten(groups))
  {
    if groups == [] {
    } else {
      TotalOfSums(groups[1..]);
      TotalAppend(groups[0], Flatten(groups[1..]));
    }
  }

  /** Summing the sums of the groups of any partition into non-empty groups is summing. */
  lemma SumOfPartition(es: seq<Entry>, groups: seq<seq<Entry>>)
    requires forall i | 0 <= i < |groups| :: groups[i] != []
    requires multiset(Flatten(groups)) == multiset(es)
    ensures Sum(Sums(groups)) == Sum(es)
  {
    TotalOfSums(groups);
    TotalPermutation(Flatten(groups), es);
  }

  // ----- Grouping

  /** How time is sliced; weekdays count from Monday as 0, other periods from an origin. */
  datatype Period = Whole | Daily | Weekly(firstWeekday: int) | Days(size: int, origin: int)

  datatype Grouping = Grouping(components: seq<Component>, period: Period)

  predicate ValidPeriod(p: Period) {
    p.Days? ==> p.size > 0
  }

  function Weekday(d: int): int {
    (d + 6) % 7
  }

  /** The first day of the period that holds `d`. */
  function PeriodStart(d: int, p: Period): int
    requires ValidPeriod(p)
  {
    match p
    case Whole => 0
    case Daily => d
    case Weekly(w) => d - (Weekday(d) - w) % 7
    case Days(n, origin) => d - (d - origin) % n
  }

  datatype Key = Key(fields: seq<Field>, period: int)

  function KeyOf(e: Entry, g: Grouping): Key
    requires ValidPeriod(g.period)
  {
    Key(Fields(e, g.components), PeriodStart(e.startDate, g.period))
  }

  /** The entries with key `k`, in their order. */
  function Group(es: seq<Entry>, g: Grouping, k: Key): (r: seq<Entry>)
    requires ValidPeriod(g.period)
    ensures forall e :: e in r <==> e in es && KeyOf(e, g) == k
  {
    if es == [] then []
    else if KeyOf(es[0], g) == k then [es[0]] + Group(es[1..], g, k)
    else Group(es[1..], g, k)
  }

  /** The distinct keys of the entries, sorted. */
  function SortedKeys(es: seq<Entry>, g: Grouping, leq: (Key, Key) -> bool): seq<Key>
    requires ValidPeriod(g.period)
  {
    if es == [] then []
    else
      var k, ks := KeyOf(es[0], g), SortedKeys(es[1..], g, leq);
      if k in ks then ks else Insert(k, ks, leq)
  }

  function SumGroups(es: seq<Entry>, g: Grouping, ks: seq<Key>): (r: seq<Entry>)
    requires ValidPeriod(g.period)
    ensures |r| == |ks|
    ensures forall i | 0 <= i < |ks| :: r[i] == Sum(Group(es, g, ks[i]))
  {
    if ks == [] then [] else [Sum(Group(es, g, ks[0]))] + SumGroups(es, g, ks[1..])
  }

  /** The reference summary: for each key, in order, the sum of all entries with that key. */
  function Summaries(es: seq<Entry>, g: Grouping, leq: (Key, Key) -> bool): seq<Entry>
    requires ValidPeriod(g.period)
  {
    SumGroups(es, g, SortedKeys(es, g, leq))
  }

  ghost predicate HasKey(es: seq<Entry>, g: Grouping, k: Key)
    requires ValidPeriod(g.period)
  {
    exists e | e in es :: KeyOf(e, g) == k
  }

  lemma {:induction false} SortedKeysCorrect(es: seq<Entry>, g: Grouping, leq: (Key, Key) -> bool)
    requires ValidPeriod(g.period) && TotalOrder(leq)
    ensures StrictlySortedBy(SortedKeys(es, g, leq), leq)
    ensures forall k :: k in SortedKeys(es, g, leq) <==> HasKey(es, g, k)
  {
    if es == [] {
    } else {
      SortedKeysCorrect(es[1..], g, leq);
      var k, ks := KeyOf(es[0], g), SortedKeys(es[1..], g, leq);
      if k !in ks { InsertStrict(k, ks, leq); }
      assert es == [es[0]] + es[1..];
    }
  }

  /** Lists of keys with the same elements, one of them the sorted keys, are equal. */
  lemma SortedKeysUnique(es: seq<Entry>, g: Grouping, leq: (Key, Key) -> bool, ks: seq<Key>)
    requires ValidPeriod(g.period) && TotalOrder(leq)
    requires StrictlySortedBy(ks, leq)
    requires forall k :: k in ks <==> HasKey(es, g, k)
    ensures ks == SortedKeys(es, g, leq)
  {
    SortedKeysCorrect(es, g, leq);
    StrictlySortedUnique(ks, SortedKeys(es, g, leq), leq);
  }

  // ----- Summaries of daily summaries

  lemma {:induction false} SumKeepsDay(es: seq<Entry>, d: int)
    requires es != [] && forall e | e in es :: e.startDate == d
    ensures Sum(es).startDate == d
  {
    if |es| <= 1 {
    } else {
      SumKeepsDay(es[1..], d);
    }
  }

  lemma SumKeepsField(es: seq<Entry>, c: Component, x: Field)
    requires es != [] && forall e | e in es :: Get(e, c) == x
    ensures Get(Sum(es), c) == x
  {
    SumField(es, c);
    assert Get(es[0], c) in Values(es, c);
    assert Values(es, c) == {x};
  }

  /** `fine` groups by at least the components of `coarse`, and by day unless `coarse` does
      not look at dates. */
  ghost predicate Refines(fine: Grouping, coarse: Grouping) {
    && ValidPeriod(fine.period) && ValidPeriod(coarse.period)
    && (fine.period == Daily || coarse.period == Whole)
    && (forall c | c in coarse.components :: c in fine.components)
  }

  lemma SameFineKey(a: Entry, b: Entry, fine: Grouping, coarse: Grouping)
    requires Refines(fine, coarse)
    requires Fields(a, fine.components) == Fields(b, fine.components)
    requires fine.period == Daily ==> a.startDate == b.startDate
    ensures KeyOf(a, coarse) == KeyOf(b, coarse)
  {
    var cs := coarse.components;
    forall i | 0 <= i < |cs| ensures Get(a, cs[i]) == Get(b, cs[i]) {
      assert cs[i] in fine.components;
      var j :| 0 <= j < |fine.components| && fine.components[j] == cs[i];
      assert Fields(a, fine.components)[j] == Fields(b, fine.components)[j];
    }
    assert Fields(a, cs) == Fields(b, cs);
  }

  lemma SumKeepsFields(es: seq<Entry>, g: Grouping, k: Key)
    requires ValidPeriod(g.period) && HasKey(es, g, k)
    ensures Fields(Sum(Group(es, g, k)), g.components) == k.fields
  {
    var e :| e in es && KeyOf(e, g) == k;
    var es', cs := Group(es, g, k), g.components;
    assert e in es';
    forall j | 0 <= j < |cs| ensures Get(Sum(es'), cs[j]) == Get(e, cs[j]) {
      forall x | x in es' ensures Get(x, cs[j]) == Get(e, cs[j]) {
        assert Fields(x, cs)[j] == Fields(e, cs)[j];
      }
      SumKeepsField(es', cs[j], Get(e, cs[j]));
    }
    assert Fields(Sum(es'), cs) == Fields(e, cs);
  }

  /** The sum of a fine group carries every coarse key that its entries share. */
  lemma SumKeepsKey(es: seq<Entry>, fine: Grouping, coarse: Grouping, k: Key, e: Entry)
    requires Refines(fine, coarse) && e in es && KeyOf(e, fine) == k
    ensures KeyOf(Sum(Group(es, fine, k)), coarse) == KeyOf(e, coarse)
  {
    assert e in Group(es, fine, k);
    SumKeepsFields(es, fine, k);
    if fine.period == Daily { SumKeepsDay(Group(es, fine, k), e.startDate); }
    SameFineKey(Sum(Group(es, fine, k)), e, fine, coarse);
  }

  /** The entries with a fine key among `ks` and the coarse key `k`. */
  function Pick(es: seq<Entry>, fine: Grouping, ks: seq<Key>, coarse: Grouping, k: Key): seq<Entry>
    requires ValidPeriod(fine.period) && ValidPeriod(coarse.period)
  {
    if es == [] then []
    else if KeyOf(es[0], fine) in ks && KeyOf(es[0], coarse) == k then
      [es[0]] + Pick(es[1..], fine, ks, coarse, k)
    else Pick(es[1..], fine, ks, coarse, k)
  }

  lemma {:induction false} PickSplit(es: seq<Entry>, fine: Grouping, ks: seq<Key>, coarse: Grouping, k: Key)
    requires ValidPeriod(fine.period) && ValidPeriod(coarse.period)
    requires ks != [] && ks[0] !in ks[1..]
    ensures TotalOf(Pick(es, fine, ks, coarse, k)) ==
            Plus(TotalOf(Pick(es, fine, [ks[0]], coarse, k)), TotalOf(Pick(es, fine, ks[1..], coarse, k)))
  {
    if es == [] {
    } else {
      PickSplit(es[1..], fine, ks, coarse, k);
      assert forall x :: x in ks <==> x == ks[0] || x in ks[1..];
      var a := TotalOf(Pick(es[1..], fine, [ks[0]], coarse, k));
      var b := TotalOf(Pick(es[1..], fine, ks[1..], coarse, k));
      PlusAssociative(Just(es[0]), a, b);
      PlusAssociative(a, Just(es[0]), b);
      PlusCommutative(a, Just(es[0]));
    }
  }

  /** A fine group lies inside or outside a coarse group. */
  lemma {:induction false} PickOneKey(es: seq<Entry>, fine: Grouping, f: Key, coarse: Grouping, k: Key,
                                      e: Entry)
    requires Refines(fine, coarse) && KeyOf(e, fine) == f
    ensures Pick(es, fine, [f], coarse, k) == if KeyOf(e, coarse) == k then Group(es, fine, f) else []
  {
    if es == [] {
    } else {
      PickOneKey(es[1..], fine, f, coarse, k, e);
      if KeyOf(es[0], fine) == f { SameFineKey(es[0], e, fine, coarse); }
    }
  }

  lemma {:induction false} PickNone(es: seq<Entry>, fine: Grouping, coarse: Grouping, k: Key)
    requires ValidPeriod(fine.period) && ValidPeriod(coarse.period)
    ensures Pick(es, fine, [], coarse, k) == []
  {
    if es == [] {
    } else {
      PickNone(es[1..], fine, coarse, k);
    }
  }

  lemma {:induction false} PickAll(es: seq<Entry>, fine: Grouping, ks: seq<Key>, coarse: Grouping, k: Key)
    requires ValidPeriod(fine.period) && ValidPeriod(coarse.period)
    requires forall e | e in es :: KeyOf(e, fine) in ks
    ensures Pick(es, fine, ks, coarse, k) == Group(es, coarse, k)
  {
    if es == [] {
    } else {
      PickAll(es[1..], fine, ks, coarse, k);
    }
  }

  lemma {:induction false} TotalOfFineSums(es: seq<Entry>, fine: Grouping, ks: seq<Key>,
                                           coarse: Grouping, k: Key)
    requires Refines(fine, coarse)
    requires forall i, j | 0 <= i < j < |ks| :: ks[i] != ks[j]
    requires forall f | f in ks :: HasKey(es, fine, f)
    ensures TotalOf(Group(SumGroups(es, fine, ks), coarse, k)) == TotalOf(Pick(es, fine, ks, coarse, k))
  {
    if ks == [] {
      PickNone(es, fine, coarse, k);
    } else {
      TotalOfFineSums(es, fine, ks[1..], coarse, k);
      PickSplit(es, fine, ks, coarse, k);
      assert HasKey(es, fine, ks[0]);
      var e :| e in es && KeyOf(e, fine) == ks[0];
      SumKeepsKey(es, fine, coarse, ks[0], e);
      PickOneKey(es, fine, ks[0], coarse, k, e);
      assert e in Group(es, fine, ks[0]);
    }
  }

  lemma FineSumsKeys(es: seq<Entry>, fine: Grouping, coarse: Grouping, leq: (Key, Key) -> bool)
    requires Refines(fine, coarse) && TotalOrder(leq)
    ensures forall k :: HasKey(Summaries(es, fine, leq), coarse, k) <==> HasKey(es, coarse, k)
  {
    var ks := SortedKeys(es, fine, leq);
    var sums := Summaries(es, fine, leq);
    SortedKeysCorrect(es, fine, leq);
    forall k | HasKey(sums, coarse, k) ensures HasKey(es, coarse, k) {
      var s :| s in sums && KeyOf(s, coarse) == k;
      var i :| 0 <= i < |sums| && sums[i] == s;
      assert ks[i] in ks;
      var e :| e in es && KeyOf(e, fine) == ks[i];
      SumKeepsKey(es, fine, coarse, ks[i], e);
    }
    forall k | HasKey(es, coarse, k) ensures HasKey(sums, coarse, k) {
      var e :| e in es && KeyOf(e, coarse) == k;
      assert HasKey(es, fine, KeyOf(e, fine));
      var i :| 0 <= i < |ks| && ks[i] == KeyOf(e, fine);
      SumKeepsKey(es, fine, coarse, ks[i], e);
      assert sums[i] in sums;
    }
  }

  /** Summarizing finer summaries is summarizing the entries themselves. */
  lemma SummariesOfSummaries(es: seq<Entry>, fine: Grouping, coarse: Grouping, leq: (Key, Key) -> bool)
    requires Refines(fine, coarse) && TotalOrder(leq)
    ensures Summaries(Summaries(es, fine, leq), coarse, leq) == Summaries(es, coarse, leq)
  {
    var sums := Summaries(es, fine, leq);
    var fs := SortedKeys(es, fine, leq);
    SortedKeysCorrect(es, fine, leq);
    SortedKeysCorrect(sums, coarse, leq);
    FineSumsKeys(es, fine, coarse, leq);
    SortedKeysUnique(es, coarse, leq, SortedKeys(sums, coarse, leq));
    var ks := SortedKeys(es, coarse, leq);
    forall i | 0 <= i < |ks| ensures Sum(Group(sums, coarse, ks[i])) == Sum(Group(es, coarse, ks[i])) {
      TotalOfFineSums(es, fine, fs, coarse, ks[i]);
      forall e | e in es ensures KeyOf(e, fine) in fs { assert HasKey(es, fine, KeyOf(e, fine)); }
      PickAll(es, fine, fs, coarse, ks[i]);
    }
  }

  // ----- Summaries of a part of the entries

  /** Entries from a date on, possibly only those of some combinations of components. */
  datatype Window =
    | Since(from: int)
    | SinceOf(from: int, components: seq<Component>, combinations: set<seq<Field>>)

  predicate Accepts(w: Window, e: Entry) {
    e.startDate >= w.from && (w.SinceOf? ==> Fields(e, w.components) in w.combinations)
  }

  function Within(es: seq<Entry>, w: Window): (r: seq<Entry>)
    ensures forall e :: e in r <==> e in es && Accepts(w, e)
  {
    if es == [] then []
    else if Accepts(w, es[0]) then [es[0]] + Within(es[1..], w)
    else Within(es[1..], w)
  }

  /** A daily grouping tells apart whatever the window tells apart. */
  ghost predicate Respects(w: Window, g: Grouping) {
    g.period == Daily && (w.SinceOf? ==> forall c | c in w.components :: c in g.components)
  }

  lemma AcceptedByKey(a: Entry, b: Entry, w: Window, g: Grouping)
    requires Respects(w, g) && KeyOf(a, g) == KeyOf(b, g)
    ensures Accepts(w, a) == Accepts(w, b)
  {
    if w.SinceOf? { SameFineKey(a, b, g, Grouping(w.components, Daily)); }
  }

  lemma {:induction false} GroupWithin(es: seq<Entry>, w: Window, g: Grouping, k: Key, e: Entry)
    requires Respects(w, g) && KeyOf(e, g) == k
    ensures Group(Within(es, w), g, k) == if Accepts(w, e) then Group(es, g, k) else []
  {
    if es == [] {
    } else {
      GroupWithin(es[1..], w, g, k, e);
      if KeyOf(es[0], g) == k { AcceptedByKey(es[0], e, w, g); }
    }
  }

  ghost function KeysWithin(ks: seq<Key>, es: seq<Entry>, g: Grouping): (r: seq<Key>)
    requires ValidPeriod(g.period)
    ensures forall k :: k in r <==> k in ks && HasKey(es, g, k)
  {
    if ks == [] then []
    else if HasKey(es, g, ks[0]) then [ks[0]] + KeysWithin(ks[1..], es, g)
    else KeysWithin(ks[1..], es, g)
  }

  lemma {:induction false} KeysWithinSorted(ks: seq<Key>, es: seq<Entry>, g: Grouping,
                                            leq: (Key, Key) -> bool)
    requires ValidPeriod(g.period) && StrictlySortedBy(ks, leq)
    ensures StrictlySortedBy(KeysWithin(ks, es, g), leq)
  {
    if ks == [] {
    } else {
      KeysWithinSorted(ks[1..], es, g, leq);
      var rest := KeysWithin(ks[1..], es, g);
      forall j | 0 <= j < |rest| ensures leq(ks[0], rest[j]) && ks[0] != rest[j] {
        assert rest[j] in ks[1..];
      }
    }
  }

  lemma {:induction false} SumGroupsWithin(es: seq<Entry>, w: Window, g: Grouping, ks: seq<Key>)
    requires Respects(w, g)
    requires forall k | k in ks :: HasKey(es, g, k)
    ensures Within(SumGroups(es, g, ks), w) ==
            SumGroups(Within(es, w), g, KeysWithin(ks, Within(es, w), g))
  {
    if ks == [] {
    } else {
      SumGroupsWithin(es, w, g, ks[1..]);
      assert HasKey(es, g, ks[0]);
      var e :| e in es && KeyOf(e, g) == ks[0];
      GroupWithin(es, w, g, ks[0], e);
      SumKeepsKey(es, g, g, ks[0], e);
      AcceptedByKey(Sum(Group(es, g, ks[0])), e, w, g);
      forall x | x in es && KeyOf(x, g) == ks[0] ensures Accepts(w, x) == Accepts(w, e) {
        AcceptedByKey(x, e, w, g);
      }
      assert HasKey(Within(es, w), g, ks[0]) <==> Accepts(w, e);
    }
  }

  /** Filtering daily summaries is summarizing the filtered entries. */
  lemma SummariesWithin(es: seq<Entry>, w: Window, g: Grouping, leq: (Key, Key) -> bool)
    requires Respects(w, g) && TotalOrder(leq)
    ensures Within(Summaries(es, g, leq), w) == Summaries(Within(es, w), g, leq)
  {
    var ks := SortedKeys(es, g, leq);
    SortedKeysCorrect(es, g, leq);
    SumGroupsWithin(es, w, g, ks);
    KeysWithinSorted(ks, Within(es, w), g, leq);
    SortedKeysUnique(Within(es, w), g, leq, KeysWithin(ks, Within(es, w), g));
  }

  // ----- Reports

  datatype Report = Report(entries: seq<Entry>, startDate: Date, endDate: Date)

  predicate ValidReport(r: Report) {
    r.entries != [] && r.startDate == Sum(r.entries).startDate && r.endDate == Sum(r.entries).endDate
  }

  function NewReport(es: seq<Entry>): Result<Report> {
    if es == [] then Failure("Report cannot be created with no entries")
    else Success(Report(es, Sum(es).startDate, Sum(es).endDate))
  }

  lemma {:induction false} SumRange(es: seq<Entry>)
    requires es != []
    ensures forall e | e in es :: Sum(es).startDate <= e.startDate && e.endDate <= Sum(es).endDate
    ensures exists e | e in es :: e.startDate == Sum(es).startDate
    ensures exists e | e in es :: e.endDate == Sum(es).endDate
  {
    if |es| <= 1 {
    } else {
      SumRange(es[1..]);
      assert es == [es[0]] + es[1..];
    }
    assert es[0] in es;
  }

  datatype StartDay = FirstDay | Sunday | Monday | OnDate(date: Date)

  /** The `time_period` of a call, with the `start_day_of_week` of a weekly one. */
  datatype TimePeriod = NoPeriod | EveryDay | EveryWeek(startDay: StartDay) | EveryDays(days: int)

  function PeriodOf(t: TimePeriod, r: Report): Period {
    match t
    case NoPeriod => Whole
    case EveryDay => Daily
    case EveryWeek(FirstDay) => Weekly(Weekday(r.startDate))
    case EveryWeek(Sunday) => Weekly(6)
    case EveryWeek(Monday) => Weekly(0)
    case EveryWeek(OnDate(d)) => Weekly(Weekday(d))
    case EveryDays(n) => Days(n, r.startDate)
  }

  /** The number of days after which dates are overwritten, or 0. */
  function PeriodDays(p: Period): int {
    match p
    case Whole => 0
    case Daily => 1
    case Weekly(_) => 7
    case Days(n, _) => n
  }

  lemma PeriodHoldsDay(d: int, p: Period)
    requires ValidPeriod(p) && PeriodDays(p) > 0
    ensures PeriodStart(d, p) <= d < PeriodStart(d, p) + PeriodDays(p)
  {}

  /** The dates of the period of `e`, clamped to the range of the report. */
  function Clamp(e: Entry, g: Grouping, r: Report): Entry
    requires ValidPeriod(g.period) && PeriodDays(g.period) > 1
  {
    var start := PeriodStart(e.startDate, g.period);
    var end := start + PeriodDays(g.period) - 1;
    PeriodHoldsDay(e.startDate, g.period);
    e.(startDate := if start >= r.startDate then start else r.startDate,
       endDate := if end <= r.endDate then end else r.endDate)
  }

  function Clamped(es: seq<Entry>, g: Grouping, r: Report): (c: seq<Entry>)
    requires ValidPeriod(g.period) && PeriodDays(g.period) > 1
    ensures |c| == |es| && forall i | 0 <= i < |es| :: c[i] == Clamp(es[i], g, r)
  {
    if es == [] then [] else [Clamp(es[0], g, r)] + Clamped(es[1..], g, r)
  }

  /** The reference result of `summarize_by`. */
  function Summarized(r: Report, g: Grouping, leq: (Key, Key) -> bool): seq<Entry>
    requires ValidPeriod(g.period)
  {
    var sums := Summaries(r.entries, g, leq);
    if PeriodDays(g.period) > 1 then Clamped(sums, g, r) else sums
  }

  // ----- summarize_by: sort, group equal neighbours, sum, clamp

  function ByKey(g: Grouping, leq: (Key, Key) -> bool): (Entry, Entry) -> bool
    requires ValidPeriod(g.period)
  {
    (a: Entry, b: Entry) => leq(KeyOf(a, g), KeyOf(b, g))
  }

  lemma ByKeyPreorder(g: Grouping, leq: (Key, Key) -> bool)
    requires ValidPeriod(g.period) && TotalOrder(leq)
    ensures TotalPreorder(ByKey(g, leq))
  {
    var le := ByKey(g, leq);
    forall a, b ensures le(a, b) || le(b, a) {
      assert leq(KeyOf(a, g), KeyOf(b, g)) || leq(KeyOf(b, g), KeyOf(a, g));
    }
    forall a, b, c | le(a, b) && le(b, c) ensures le(a, c) {
      assert leq(KeyOf(a, g), KeyOf(b, g)) && leq(KeyOf(b, g), KeyOf(c, g));
    }
  }

  lemma {:induction false} GroupInsert(x: Entry, es: seq<Entry>, g: Grouping,
                                       leq: (Key, Key) -> bool, k: Key)
    requires ValidPeriod(g.period) && TotalOrder(leq)
    ensures Group(Insert(x, es, ByKey(g, leq)), g, k) == Group([x] + es, g, k)
  {
    assert ([x] + es)[1..] == es;
    if es == [] || ByKey(g, leq)(x, es[0]) {
    } else {
      GroupInsert(x, es[1..], g, leq, k);
      assert ([x] + es[1..])[1..] == es[1..];
      var r := Insert(x, es[1..], ByKey(g, leq));
      assert ([es[0]] + r)[1..] == r;
    }
  }

  lemma {:induction false} GroupSort(es: seq<Entry>, g: Grouping, leq: (Key, Key) -> bool, k: Key)
    requires ValidPeriod(g.period) && TotalOrder(leq)
    ensures Group(Sort(es, ByKey(g, leq)), g, k) == Group(es, g, k)
  {
    if es == [] {
    } else {
      GroupSort(es[1..], g, leq, k);
      var rest := Sort(es[1..], ByKey(g, leq));
      GroupInsert(es[0], rest, g, leq, k);
      assert ([es[0]] + rest)[1..] == rest;
    }
  }

  lemma {:induction false} GroupAppend(a: seq<Entry>, b: seq<Entry>, g: Grouping, k: Key)
    requires ValidPeriod(g.period)
    ensures Group(a + b, g, k) == Group(a, g, k) + Group(b, g, k)
  {
    if a == [] {
      assert a + b == b;
    } else {
      assert (a + b)[1..] == a[1..] + b;
      GroupAppend(a[1..], b, g, k);
    }
  }

  lemma {:induction false} GroupAll(es: seq<Entry>, g: Grouping, k: Key)
    requires ValidPeriod(g.period) && forall e | e in es :: KeyOf(e, g) == k
    ensures Group(es, g, k) == es
  {
    if es == [] {
    } else {
      GroupAll(es[1..], g, k);
    }
  }

  lemma {:induction false} GroupNone(es: seq<Entry>, g: Grouping, k: Key)
    requires ValidPeriod(g.period) && forall e | e in es :: KeyOf(e, g) != k
    ensures Group(es, g, k) == []
  {
    if es == [] {
    } else {
      GroupNone(es[1..], g, k);
    }
  }

  /** The groups found before position `i` of the sorted entries. */
  ghost predicate Grouped(es: seq<Entry>, g: Grouping, leq: (Key, Key) -> bool, ks: seq<Key>, i: nat)
    requires ValidPeriod(g.period) && i <= |es|
  {
    && StrictlySortedBy(ks, leq)
    && (forall k :: k in ks <==> HasKey(es[..i], g, k))
    && (forall m | i <= m < |es| :: KeyOf(es[m], g) !in ks)
  }

  /** `i..j` is a maximal run of equal keys. */
  ghost predicate Run(es: seq<Entry>, g: Grouping, i: nat, j: nat)
    requires ValidPeriod(g.period)
  {
    && i < j <= |es|
    && (forall m | i <= m < j :: KeyOf(es[m], g) == KeyOf(es[i], g))
    && (j < |es| ==> KeyOf(es[j], g) != KeyOf(es[i], g))
  }

  lemma RunEnds(es: seq<Entry>, g: Grouping, leq: (Key, Key) -> bool, i: nat, j: nat)
    requires ValidPeriod(g.period) && TotalOrder(leq) && SortedBy(es, ByKey(g, leq))
    requires Run(es, g, i, j)
    ensures forall m | j <= m < |es| :: KeyOf(es[m], g) != KeyOf(es[i], g)
    ensures forall m | 0 <= m <= i :: leq(KeyOf(es[m], g), KeyOf(es[i], g))
  {}

  lemma HasKeyAt(es: seq<Entry>, g: Grouping, i: nat, k: Key)
    requires ValidPeriod(g.period) && i <= |es|
    ensures HasKey(es[..i], g, k) <==> exists m | 0 <= m < i :: KeyOf(es[m], g) == k
  {}

  /** A maximal run of equal keys is a whole group, and the next one. */
  lemma NextRun(es: seq<Entry>, g: Grouping, leq: (Key, Key) -> bool, ks: seq<Key>, i: nat, j: nat)
    requires ValidPeriod(g.period) && TotalOrder(leq) && SortedBy(es, ByKey(g, leq))
    requires Run(es, g, i, j) && Grouped(es, g, leq, ks, i)
    ensures Grouped(es, g, leq, ks + [KeyOf(es[i], g)], j)
    ensures Group(es, g, KeyOf(es[i], g)) == es[i..j]
  {
    var k := KeyOf(es[i], g);
    RunEnds(es, g, leq, i, j);
    forall x | x in ks ensures leq(x, k) { HasKeyAt(es, g, i, x); }
    forall x ensures x in ks + [k] <==> HasKey(es[..j], g, x) {
      HasKeyAt(es, g, i, x);
      HasKeyAt(es, g, j, x);
    }
    forall m | 0 <= m < i ensures KeyOf(es[m], g) != k { HasKeyAt(es, g, i, KeyOf(es[m], g)); }
    RunIsGroup(es, g, k, i, j);
  }

  lemma RunIsGroup(es: seq<Entry>, g: Grouping, k: Key, i: nat, j: nat)
    requires ValidPeriod(g.period) && i <= j <= |es|
    requires forall m | 0 <= m < |es| :: i <= m < j <==> KeyOf(es[m], g) == k
    ensures Group(es, g, k) == es[i..j]
  {
    var a, b, c := es[..i], es[i..j], es[j..];
    forall m | 0 <= m < |a| ensures KeyOf(a[m], g) != k {}
    forall m | 0 <= m < |b| ensures KeyOf(b[m], g) == k {}
    forall m | 0 <= m < |c| ensures KeyOf(c[m], g) != k {}
    GroupParts(a, b, c, g, k);
    assert es == a + b + c;
  }

  lemma GroupParts(a: seq<Entry>, b: seq<Entry>, c: seq<Entry>, g: Grouping, k: Key)
    requires ValidPeriod(g.period)
    requires forall m | 0 <= m < |a| :: KeyOf(a[m], g) != k
    requires forall m | 0 <= m < |b| :: KeyOf(b[m], g) == k
    requires forall m | 0 <= m < |c| :: KeyOf(c[m], g) != k
    ensures Group(a + b + c, g, k) == b
  {
    GroupNone(a, g, k);
    GroupAll(b, g, k);
    GroupNone(c, g, k);
    GroupAppend(a, b, g, k);
    GroupAppend(a + b, c, g, k);
  }

  lemma SumGroupsAppend(es: seq<Entry>, g: Grouping, ks: seq<Key>, k: Key)
    requires ValidPeriod(g.period)
    ensures SumGroups(es, g, ks + [k]) == SumGroups(es, g, ks) + [Sum(Group(es, g, k))]
  {}

  method EndOfRun(es: seq<Entry>, g: Grouping, i: nat) returns (j: nat)
    requires ValidPeriod(g.period) && i < |es|
    ensures Run(es, g, i, j)
  {
    j := i + 1;
    while j < |es| && KeyOf(es[j], g) == KeyOf(es[i], g)
      invariant i < j <= |es|
      invariant forall m | i <= m < j :: KeyOf(es[m], g) == KeyOf(es[i], g)
    {
      j := j + 1;
    }
  }

  /** Sorting, grouping equal neighbours and summing gives the reference summaries. */
  method SumSortedRuns(es: seq<Entry>, g: Grouping, leq: (Key, Key) -> bool) returns (out: seq<Entry>)
    requires ValidPeriod(g.period) && TotalOrder(leq)
    ensures out == Summaries(es, g, leq)
  {
    var sorted := Sort(es, ByKey(g, leq));
    ByKeyPreorder(g, leq);
    SortSorts(es, ByKey(g, leq));
    ghost var ks: seq<Key> := [];
    out := [];
    var i := 0;
    while i < |sorted|
      invariant 0 <= i <= |sorted|
      invariant Grouped(sorted, g, leq, ks, i)
      invariant out == SumGroups(sorted, g, ks)
    {
      var j := EndOfRun(sorted, g, i);
      var sum := SumEntries(sorted[i..j]);
      NextRun(sorted, g, leq, ks, i, j);
      SumGroupsAppend(sorted, g, ks, KeyOf(sorted[i], g));
      ks := ks + [KeyOf(sorted[i], g)];
      out := out + [sum];
      i := j;
    }
    SortedRunsDone(es, g, leq, ks);
  }

  lemma SortedRunsDone(es: seq<Entry>, g: Grouping, leq: (Key, Key) -> bool, ks: seq<Key>)
    requires ValidPeriod(g.period) && TotalOrder(leq)
    requires Grouped(Sort(es, ByKey(g, leq)), g, leq, ks, |es|)
    ensures SumGroups(Sort(es, ByKey(g, leq)), g, ks) == Summaries(es, g, leq)
  {
    var sorted := Sort(es, ByKey(g, leq));
    SortMembers(es, ByKey(g, leq));
    assert sorted[..|es|] == sorted;
    assert forall k :: HasKey(sorted, g, k) <==> HasKey(es, g, k);
    SortedKeysUnique(es, g, leq, ks);
    forall i | 0 <= i < |ks| ensures Group(sorted, g, ks[i]) == Group(es, g, ks[i]) {
      GroupSort(es, g, leq, ks[i]);
    }
  }

  method SummarizeBy(r: Report, components: seq<Component>, time: TimePeriod, leq: (Key, Key) -> bool)
    returns (result: Result<seq<Entry>>)
    requires ValidReport(r) && TotalOrder(leq)
    ensures result.Failure? <==> time.EveryDays? && time.days <= 0
    ensures result.Success? ==>
              result.value == Summarized(r, Grouping(components, PeriodOf(time, r)), leq)
  {
    if time.EveryDays? && time.days <= 0 {
      return Failure("'period_size' argument must be a positive number of days");
    }
    var period := PeriodOf(time, r);
    var g := Grouping(components, period);
    var out := SumSortedRuns(r.entries, g, leq);
    if PeriodDays(period) > 1 {
      ghost var sums := out;
      for i := 0 to |out|
        invariant |out| == |sums|
        invariant forall m | 0 <= m < i :: out[m] == Clamp(sums[m], g, r)
        invariant forall m | i <= m < |out| :: out[m] == sums[m]
      {
        out := out[i := Clamp(out[i], g, r)];
      }
      assert out == Clamped(sums, g, r);
    }
    result := Success(out);
  }

  // ----- Periods longer than a day

  lemma SumKeepsOwnKey(es: seq<Entry>, g: Grouping, k: Key)
    requires ValidPeriod(g.period) && HasKey(es, g, k)
    ensures KeyOf(Sum(Group(es, g, k)), g) == k
  {
    var e :| e in es && KeyOf(e, g) == k;
    assert e in Group(es, g, k);
    SumKeepsFields(es, g, k);
    SumRange(Group(es, g, k));
  }

  /** Periods are counted from an origin of their own. */
  function Origin(p: Period): int {
    match p
    case Weekly(w) => w - 6
    case Days(_, origin) => origin
    case _ => 0
  }

  lemma DivMod(x: int, n: int)
    requires n > 0
    ensures x == n * (x / n) + x % n
  {}

  lemma WeekIndex(d: int, w: int)
    ensures d - (Weekday(d) - w) % 7 == (w - 6) + 7 * ((d - (w - 6)) / 7)
  {}

  lemma PeriodIndex(d: int, p: Period)
    requires ValidPeriod(p) && PeriodDays(p) > 0
    ensures PeriodStart(d, p) ==
            Origin(p) + PeriodDays(p) * ((d - Origin(p)) / PeriodDays(p))
  {
    match p
    case Whole =>
    case Daily =>
    case Weekly(w) => WeekIndex(d, w);
    case Days(n, origin) => DivMod(d - origin, n);
  }

  lemma MultiplesOrdered(n: int, i: int, j: int)
    requires n > 0 && i <= j
    ensures n * i <= n * j
  {}

  lemma NextMultiple(n: int, i: int)
    ensures n * (i + 1) == n * i + n
  {}

  lemma MultiplesApart(n: int, i: int, j: int)
    requires n > 0 && n * i < n * j
    ensures n * i + n <= n * j
  {
    if j <= i {
      MultiplesOrdered(n, j, i);
    } else {
      NextMultiple(n, i);
      MultiplesOrdered(n, i + 1, j);
    }
  }

  /** Two periods are equal or at least a whole period apart. */
  lemma PeriodsApart(a: int, b: int, p: Period)
    requires ValidPeriod(p) && PeriodDays(p) > 0
    requires PeriodStart(a, p) < PeriodStart(b, p)
    ensures PeriodStart(a, p) + PeriodDays(p) <= PeriodStart(b, p)
  {
    PeriodIndex(a, p);
    PeriodIndex(b, p);
    MultiplesApart(PeriodDays(p), (a - Origin(p)) / PeriodDays(p), (b - Origin(p)) / PeriodDays(p));
  }

  /** The summaries of a report over periods longer than a day. */
  ghost predicate LongPeriods(r: Report, g: Grouping) {
    ValidReport(r) && ValidPeriod(g.period) && PeriodDays(g.period) > 1
  }

  /** Summary `s` is for the components of `e` and spans its start date. */
  predicate Covers(s: Entry, e: Entry, g: Grouping) {
    Fields(s, g.components) == Fields(e, g.components) && s.startDate <= e.startDate <= s.endDate
  }

  /** Each summary carries its components and spans its own period, cut to the report. */
  lemma SummaryOfKey(r: Report, g: Grouping, leq: (Key, Key) -> bool, i: nat)
    requires LongPeriods(r, g) && TotalOrder(leq) && i < |Summarized(r, g, leq)|
    ensures |Summarized(r, g, leq)| == |SortedKeys(r.entries, g, leq)|
    ensures var s, k := Summarized(r, g, leq)[i], SortedKeys(r.entries, g, leq)[i];
            && HasKey(r.entries, g, k)
            && Fields(s, g.components) == k.fields
            && s.startDate == (if k.period >= r.startDate then k.period else r.startDate)
            && s.endDate == (var end := k.period + PeriodDays(g.period) - 1;
                             if end <= r.endDate then end else r.endDate)
  {
    var ks := SortedKeys(r.entries, g, leq);
    SortedKeysCorrect(r.entries, g, leq);
    assert ks[i] in ks;
    SumKeepsOwnKey(r.entries, g, ks[i]);
    ClampSpans(Sum(Group(r.entries, g, ks[i])), g, r, ks[i]);
  }

  lemma ClampSpans(e: Entry, g: Grouping, r: Report, k: Key)
    requires ValidPeriod(g.period) && PeriodDays(g.period) > 1 && KeyOf(e, g) == k
    ensures var s := Clamp(e, g, r);
            && Fields(s, g.components) == k.fields
            && s.startDate == (if k.period >= r.startDate then k.period else r.startDate)
            && s.endDate == (var end := k.period + PeriodDays(g.period) - 1;
                             if end <= r.endDate then end else r.endDate)
  {
    assert Fields(Clamp(e, g, r), g.components) == Fields(e, g.components);
  }

  lemma KeysApart(es: seq<Entry>, g: Grouping, leq: (Key, Key) -> bool, i: nat, j: nat)
    requires ValidPeriod(g.period) && PeriodDays(g.period) > 0 && TotalOrder(leq)
    requires i < |SortedKeys(es, g, leq)| && j < |SortedKeys(es, g, leq)| && i != j
    requires SortedKeys(es, g, leq)[i].fields == SortedKeys(es, g, leq)[j].fields
    ensures var a, b := SortedKeys(es, g, leq)[i].period, SortedKeys(es, g, leq)[j].period;
            a + PeriodDays(g.period) <= b || b + PeriodDays(g.period) <= a
  {
    SortedKeysCorrect(es, g, leq);
    var ks := SortedKeys(es, g, leq);
    assert ks[i] != ks[j];
    assert ks[i] in ks && ks[j] in ks;
    var a :| a in es && KeyOf(a, g) == ks[i];
    var b :| b in es && KeyOf(b, g) == ks[j];
    if ks[i].period < ks[j].period {
      PeriodsApart(a.startDate, b.startDate, g.period);
    } else {
      PeriodsApart(b.startDate, a.startDate, g.period);
    }
  }

  /** Summaries of one combination of components never overlap in time. */
  lemma SummariesDisjoint(r: Report, g: Grouping, leq: (Key, Key) -> bool, i: nat, j: nat)
    requires LongPeriods(r, g) && TotalOrder(leq)
    requires i < |Summarized(r, g, leq)| && j < |Summarized(r, g, leq)| && i != j
    requires Fields(Summarized(r, g, leq)[i], g.components) == Fields(Summarized(r, g, leq)[j], g.components)
    ensures var a, b := Summarized(r, g, leq)[i], Summarized(r, g, leq)[j];
            a.endDate < b.startDate || b.endDate < a.startDate
  {
    SummaryOfKey(r, g, leq, i);
    SummaryOfKey(r, g, leq, j);
    KeysApart(r.entries, g, leq, i, j);
  }

  lemma SummariesInRange(r: Report, g: Grouping, leq: (Key, Key) -> bool)
    requires LongPeriods(r, g) && TotalOrder(leq)
    ensures forall s | s in Summarized(r, g, leq) :: r.startDate <= s.startDate && s.endDate <= r.endDate
  {}

  /** An entry that starts by the end of the report lies in a summary, any other in none. */
  lemma EntryCovered(r: Report, g: Grouping, leq: (Key, Key) -> bool, e: Entry)
    requires LongPeriods(r, g) && TotalOrder(leq) && e in r.entries
    ensures e.startDate <= r.endDate <==> exists s | s in Summarized(r, g, leq) :: Covers(s, e, g)
  {
    SummariesInRange(r, g, leq);
    var out, ks := Summarized(r, g, leq), SortedKeys(r.entries, g, leq);
    SortedKeysCorrect(r.entries, g, leq);
    assert HasKey(r.entries, g, KeyOf(e, g));
    var i :| 0 <= i < |ks| && ks[i] == KeyOf(e, g);
    SummaryOfKey(r, g, leq, i);
    SumRange(r.entries);
    PeriodHoldsDay(e.startDate, g.period);
    assert e.startDate <= r.endDate ==> out[i] in out && Covers(out[i], e, g);
  }

  /** No entry lies in two summaries. */
  lemma EntryCoveredOnce(r: Report, g: Grouping, leq: (Key, Key) -> bool, e: Entry, i: nat, j: nat)
    requires LongPeriods(r, g) && TotalOrder(leq)
    requires i < |Summarized(r, g, leq)| && j < |Summarized(r, g, leq)|
    requires Covers(Summarized(r, g, leq)[i], e, g) && Covers(Summarized(r, g, leq)[j], e, g)
    ensures i == j
  {
    if i != j {
      SummariesDisjoint(r, g, leq, i, j);
      assert false;
    }
  }

  /** Where no entry ends before it starts, each lies in exactly one summary. */
  lemma EntryInOneSummary(r: Report, g: Grouping, leq: (Key, Key) -> bool, e: Entry)
    requires LongPeriods(r, g) && TotalOrder(leq) && e in r.entries && e.startDate <= e.endDate
    ensures exists i | 0 <= i < |Summarized(r, g, leq)| ::
              && Covers(Summarized(r, g, leq)[i], e, g)
              && forall j | 0 <= j < |Summarized(r, g, leq)| && Covers(Summarized(r, g, leq)[j], e, g) :: j == i
  {
    var out := Summarized(r, g, leq);
    SumRange(r.entries);
    EntryCovered(r, g, leq, e);
    var s :| s in out && Covers(s, e, g);
    var i :| 0 <= i < |out| && out[i] == s;
    forall j | 0 <= j < |out| && Covers(out[j], e, g) ensures j == i { EntryCoveredOnce(r, g, leq, e, i, j); }
  }

  /** Summarizing loses nothing: the sum of the summaries is the sum of the entries. */
  lemma SummariesConserve(es: seq<Entry>, g: Grouping, leq: (Key, Key) -> bool)
    requires ValidPeriod(g.period) && TotalOrder(leq)
    ensures Sum(Summaries(es, g, leq)) == Sum(es)
  {
    var all := Grouping([], Whole);
    var ks := SortedKeys(es, g, leq);
    SortedKeysCorrect(es, g, leq);
    TotalOfFineSums(es, g, ks, all, Key([], 0));
    forall e | e in es ensures KeyOf(e, g) in ks { assert HasKey(es, g, KeyOf(e, g)); }
    PickAll(es, g, ks, all, Key([], 0));
    OneGroup(es, all);
    OneGroup(Summaries(es, g, leq), all);
  }

  lemma OneGroup(es: seq<Entry>, all: Grouping)
    requires all.components == [] && all.period == Whole
    ensures Group(es, all, Key([], 0)) == es
  {}

  /** The same with dates overwritten: executions are neither lost nor counted twice. */
  lemma SummarizedConserves(r: Report, g: Grouping, leq: (Key, Key) -> bool)
    requires ValidPeriod(g.period) && TotalOrder(leq)
    ensures Sum(Summarized(r, g, leq)).numPass == Sum(r.entries).numPass
    ensures Sum(Summarized(r, g, leq)).numFail == Sum(r.entries).numFail
  {
    SummariesConserve(r.entries, g, leq);
    if PeriodDays(g.period) > 1 { ClampedCounts(Summaries(r.entries, g, leq), g, r); }
  }

  lemma {:induction false} ClampedCounts(es: seq<Entry>, g: Grouping, r: Report)
    requires ValidPeriod(g.period) && PeriodDays(g.period) > 1
    ensures Sum(Clamped(es, g, r)).numPass == Sum(es).numPass
    ensures Sum(Clamped(es, g, r)).numFail == Sum(es).numFail
  {
    if es == [] {
    } else {
      ClampedCounts(es[1..], g, r);
      assert Clamped(es, g, r)[1..] == Clamped(es[1..], g, r);
    }
  }
}
