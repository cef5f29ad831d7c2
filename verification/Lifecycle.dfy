/** The update of lifecycle tags from a history of test executions: four passes, each over the
    summaries of the pass before. */
module Lifecycle {
  import opened Results
  import opened Sorting
  import opened Reports
  import opened Tags
  import opened Changelog

  datatype Rates = Rates(acceptable: real, unacceptable: real)

  datatype Config = Config(testRates: Rates, taskRates: Rates, variantRates: Rates, distroRates: Rates,
                           reliableMinRuns: int, reliableDays: int,
                           unreliableMinRuns: int, unreliableDays: int)

  const JS_TEST := "js_test"

  /** A pass groups by the first `n` components; the passes run from 4 down to 1. */
  type Level = n: int | 1 <= n <= 4 witness 1

  const ALL: seq<Component> := [Test, Task, Variant, Distro]

  function Components(n: Level): seq<Component> { ALL[..n] }

  function RatesOf(cfg: Config, n: Level): Rates {
    if n == 4 then cfg.distroRates
    else if n == 3 then cfg.variantRates
    else if n == 2 then cfg.taskRates
    else cfg.testRates
  }

  function ByDay(n: Level): Grouping { Grouping(Components(n), Daily) }

  function Overall(n: Level): Grouping { Grouping(Components(n), Whole) }

  // ----- Reliable and unreliable tests

  function Runs(e: Entry): nat { e.numPass + e.numFail }

  function FailRate(e: Entry): real {
    if Runs(e) == 0 then 0.0 else e.numFail as real / Runs(e) as real
  }

  predicate UnreliableTest(e: Entry, rate: real, minRuns: int) {
    Runs(e) >= minRuns && FailRate(e) >= rate
  }

  predicate ReliableTest(e: Entry, rate: real, minRuns: int) {
    Runs(e) < minRuns || FailRate(e) <= rate
  }

  // ----- One pass, told directly from the history

  function ReliableWindow(endDate: Date, cfg: Config): Window {
    Since(endDate - cfg.reliableDays + 1)
  }

  function UnreliableWindow(endDate: Date, cfg: Config, n: Level, combinations: set<seq<Field>>): Window {
    SinceOf(endDate - cfg.unreliableDays + 1, Components(n), combinations)
  }

  function Recent(history: seq<Entry>, cfg: Config): seq<Entry> {
    Within(history, ReliableWindow(Sum(history).endDate, cfg))
  }

  function Combinations(es: seq<Entry>, n: Level): set<seq<Field>> {
    set e | e in es :: Fields(e, Components(n))
  }

  /** The executions that count against a test: recent enough, of combinations still running. */
  function Suspect(history: seq<Entry>, cfg: Config, n: Level): seq<Entry> {
    Within(history, UnreliableWindow(Sum(history).endDate, cfg, n, Combinations(Recent(history, cfg), n)))
  }

  function TaggingOf(s: Entry): Tagging {
    (JS_TEST, if s.test.Name? then s.test.name else "", UnreliableTag(s.task, s.variant, s.distro))
  }

  function ToAdd(summaries: seq<Entry>, rate: real, minRuns: int): set<Tagging> {
    set s | s in summaries && UnreliableTest(s, rate, minRuns) :: TaggingOf(s)
  }

  function ToRemove(summaries: seq<Entry>, rate: real, minRuns: int): set<Tagging> {
    set s | s in summaries && ReliableTest(s, rate, minRuns) :: TaggingOf(s)
  }

  /** The tag is for `n` components whose combination did not run recently. */
  predicate Stale(test: string, tag: string, n: Level, combinations: set<seq<Field>>) {
    |TagCombination(test, tag)| == n && TagCombination(test, tag) !in combinations
  }

  function Purged(tags: set<Tagging>, tests: seq<string>, n: Level, combinations: set<seq<Field>>): set<Tagging> {
    set g | g in tags && !(g.0 == JS_TEST && g.1 in tests && Stale(g.1, g.2, n, combinations))
  }

  /** The tags that the pass for `n` components adds. */
  function Adds(history: seq<Entry>, cfg: Config, n: Level, leq: (Key, Key) -> bool): set<Tagging> {
    ToAdd(Summaries(Suspect(history, cfg, n), Overall(n), leq), RatesOf(cfg, n).unacceptable, cfg.unreliableMinRuns)
  }

  /** The tags that it then removes as reliable. */
  function Removes(history: seq<Entry>, cfg: Config, n: Level, leq: (Key, Key) -> bool): set<Tagging> {
    ToRemove(Summaries(Recent(history, cfg), Overall(n), leq), RatesOf(cfg, n).acceptable, cfg.reliableMinRuns)
  }

  function Pass(tags: set<Tagging>, history: seq<Entry>, cfg: Config, n: Level, tests: seq<string>,
                leq: (Key, Key) -> bool): set<Tagging> {
    Purged(tags + Adds(history, cfg, n, leq) - Removes(history, cfg, n, leq),
           tests, n, Combinations(Recent(history, cfg), n))
  }

  /** The passes from `n` down to 1. */
  function Passes(tags: set<Tagging>, history: seq<Entry>, cfg: Config, n: nat, tests: seq<string>,
                  leq: (Key, Key) -> bool): set<Tagging>
    requires n <= 4
    decreases n
  {
    if n == 0 then tags
    else Passes(Pass(tags, history, cfg, n, tests, leq), history, cfg, n - 1, tests, leq)
  }

  // ----- What remains after the passes

  /** The combination of the tag is that of a recent execution. */
  ghost predicate RanRecently(history: seq<Entry>, cfg: Config, test: string, tag: string) {
    var combination := TagCombination(test, tag);
    1 <= |combination| <= 4 &&
    exists e | e in Recent(history, cfg) :: Fields(e, Components(|combination|)) == combination
  }

  /** Every component of `s` is a wildcard or that of `e`. */
  predicate SummaryOf(s: Entry, e: Entry) {
    forall c: Component :: Get(s, c) == Wildcard || Get(s, c) == Get(e, c)
  }

  /** The tag was made from a summary of a recent execution of `test`. */
  ghost predicate MadeFromRecent(history: seq<Entry>, cfg: Config, test: string, tag: string) {
    exists e, s | e in Recent(history, cfg) ::
      SummaryOf(s, e) && e.test == Name(test) && tag == UnreliableTag(s.task, s.variant, s.distro)
  }

  /** Either window lies within the other, so some execution is in both. */
  lemma SuspectIsRecent(history: seq<Entry>, cfg: Config, n: Level, k: Key) returns (e: Entry)
    requires HasKey(Suspect(history, cfg, n), Overall(n), k)
    ensures e in Group(Suspect(history, cfg, n), Overall(n), k) && e in Recent(history, cfg)
  {
    var late :| late in Suspect(history, cfg, n) && KeyOf(late, Overall(n)) == k;
    var early :| early in Recent(history, cfg) && Fields(early, Components(n)) == Fields(late, Components(n));
    e := if cfg.unreliableDays >= cfg.reliableDays then early else late;
  }

  lemma SummaryOfGroup(es: seq<Entry>, e: Entry)
    requires e in es
    ensures SummaryOf(Sum(es), e)
  {
    forall c: Component ensures Get(Sum(es), c) == Wildcard || Get(Sum(es), c) == Get(e, c) {
      SumField(es, c);
      assert Get(e, c) in Values(es, c);
    }
  }

  lemma AddedIsMadeFromRecent(history: seq<Entry>, cfg: Config, n: Level, leq: (Key, Key) -> bool, s: Entry)
    requires TotalOrder(leq) && forall e | e in history :: e.test.Name?
    requires s in Summaries(Suspect(history, cfg, n), Overall(n), leq)
    ensures s.test.Name? && MadeFromRecent(history, cfg, TaggingOf(s).1, TaggingOf(s).2)
  {
    var es, g := Suspect(history, cfg, n), Overall(n);
    SortedKeysCorrect(es, g, leq);
    var ks := SortedKeys(es, g, leq);
    var i :| 0 <= i < |ks| && Summaries(es, g, leq)[i] == s;
    assert ks[i] in ks;
    var e := SuspectIsRecent(history, cfg, n, ks[i]);
    SummaryOfGroup(Group(es, g, ks[i]), e);
    SumKeepsFields(es, g, ks[i]);
    assert Fields(s, Components(n))[0] == Fields(e, Components(n))[0];
    assert s.test == e.test;
  }

  lemma FourPasses(tags: set<Tagging>, history: seq<Entry>, cfg: Config, tests: seq<string>,
                   leq: (Key, Key) -> bool)
    ensures Passes(tags, history, cfg, 4, tests, leq) ==
            var t3 := Pass(tags, history, cfg, 4, tests, leq);
            var t2 := Pass(t3, history, cfg, 3, tests, leq);
            var t1 := Pass(t2, history, cfg, 2, tests, leq);
            Pass(t1, history, cfg, 1, tests, leq)
  {}

  // ----- Exactly when every tag left behind stands for a combination that ran

  ghost predicate TagsRan(tags: set<Tagging>, history: seq<Entry>, cfg: Config, tests: seq<string>) {
    forall g | g in tags && g.0 == JS_TEST && g.1 in tests :: RanRecently(history, cfg, g.1, g.2)
  }

  function Length(g: Tagging): nat { |TagCombination(g.1, g.2)| }

  /** The pass for as many components as the tag has would purge it. */
  predicate Misleads(history: seq<Entry>, cfg: Config, g: Tagging) {
    1 <= Length(g) <= 4 && Stale(g.1, g.2, Length(g), Combinations(Recent(history, cfg), Length(g)))
  }

  lemma MisleadsIsNotRan(history: seq<Entry>, cfg: Config, g: Tagging)
    ensures 1 <= Length(g) <= 4
    ensures Misleads(history, cfg, g) <==> !RanRecently(history, cfg, g.1, g.2)
  {
    CombinationIsClean(g.1, g.2);
  }

  /** What each pass adds, and what it removes as reliable. */
  datatype Changes = Changes(adds: Level -> set<Tagging>, removes: Level -> set<Tagging>)

  ghost function ChangesOf(history: seq<Entry>, cfg: Config, leq: (Key, Key) -> bool): Changes {
    Changes((n: Level) => Adds(history, cfg, n, leq), (n: Level) => Removes(history, cfg, n, leq))
  }

  /** Pass `k` adds the tag and no pass from there down to `n` removes it. The tag has more components
      than `k`, so it gets past the purges of these passes too. */
  ghost predicate AddedBy(c: Changes, k: Level, n: nat, g: Tagging) {
    n <= k < Length(g) && g in c.adds(k) && forall m: Level | n <= m <= k :: g !in c.removes(m)
  }

  ghost predicate Escapes(c: Changes, n: nat, g: Tagging) {
    exists k: Level :: AddedBy(c, k, n, g)
  }

  ghost predicate NoEscapeMisleads(history: seq<Entry>, cfg: Config, leq: (Key, Key) -> bool) {
    forall g | Escapes(ChangesOf(history, cfg, leq), 1, g) :: !Misleads(history, cfg, g)
  }

  /** After pass `n`, the tags that mislead and have `n` components or more are those that escape. */
  ghost predicate OnlyEscapes(tags: set<Tagging>, history: seq<Entry>, cfg: Config, n: nat, tests: seq<string>,
                              leq: (Key, Key) -> bool) {
    forall g | g in tags && g.0 == JS_TEST && g.1 in tests && Length(g) >= n && Misleads(history, cfg, g) ::
      Escapes(ChangesOf(history, cfg, leq), n, g)
  }

  lemma EscapesNext(c: Changes, n: Level, g: Tagging)
    requires n < Length(g) && g !in c.removes(n)
    requires Escapes(c, n + 1, g) || g in c.adds(n)
    ensures Escapes(c, n, g)
  {
    var k: Level := n;
    if Escapes(c, n + 1, g) { k :| AddedBy(c, k, n + 1, g); }
    assert AddedBy(c, k, n, g);
  }

  lemma PassOnlyEscapes(tags: set<Tagging>, history: seq<Entry>, cfg: Config, n: Level, tests: seq<string>,
                        leq: (Key, Key) -> bool)
    requires OnlyEscapes(tags, history, cfg, n + 1, tests, leq)
    ensures OnlyEscapes(Pass(tags, history, cfg, n, tests, leq), history, cfg, n, tests, leq)
  {
    forall g | g in Pass(tags, history, cfg, n, tests, leq) && g.0 == JS_TEST && g.1 in tests &&
               Length(g) >= n && Misleads(history, cfg, g)
      ensures Escapes(ChangesOf(history, cfg, leq), n, g)
    {
      EscapesNext(ChangesOf(history, cfg, leq), n, g);
    }
  }

  lemma AtMostFour(tags: set<Tagging>, history: seq<Entry>, cfg: Config, tests: seq<string>,
                   leq: (Key, Key) -> bool)
    ensures OnlyEscapes(tags, history, cfg, 5, tests, leq)
  {
    forall g: Tagging ensures Length(g) <= 4 { CombinationIsClean(g.1, g.2); }
  }

  /** For any history, any configuration and any tags to begin with: each tag left on a test decodes
      to a combination that ran recently, when those that escape the purges do. */
  lemma RemainingTagsRan(tags: set<Tagging>, history: seq<Entry>, cfg: Config, tests: seq<string>,
                         leq: (Key, Key) -> bool)
    requires NoEscapeMisleads(history, cfg, leq)
    ensures TagsRan(Passes(tags, history, cfg, 4, tests, leq), history, cfg, tests)
  {
    var t3 := Pass(tags, history, cfg, 4, tests, leq);
    var t2 := Pass(t3, history, cfg, 3, tests, leq);
    var t1 := Pass(t2, history, cfg, 2, tests, leq);
    FourPasses(tags, history, cfg, tests, leq);
    AtMostFour(tags, history, cfg, tests, leq);
    PassOnlyEscapes(tags, history, cfg, 4, tests, leq);
    PassOnlyEscapes(t3, history, cfg, 3, tests, leq);
    PassOnlyEscapes(t2, history, cfg, 2, tests, leq);
    PassOnlyEscapes(t1, history, cfg, 1, tests, leq);
    NoneMisleads(Pass(t1, history, cfg, 1, tests, leq), history, cfg, tests, leq);
  }

  lemma NoneMisleads(tags: set<Tagging>, history: seq<Entry>, cfg: Config, tests: seq<string>,
                     leq: (Key, Key) -> bool)
    requires NoEscapeMisleads(history, cfg, leq) && OnlyEscapes(tags, history, cfg, 1, tests, leq)
    ensures TagsRan(tags, history, cfg, tests)
  {
    forall g | g in tags && g.0 == JS_TEST && g.1 in tests ensures RanRecently(history, cfg, g.1, g.2) {
      MisleadsIsNotRan(history, cfg, g);
    }
  }

  type Step = (set<Tagging>, int) -> set<Tagging>

  /** Steps from `n` down to 1. */
  ghost function Iterate(step: Step, tags: set<Tagging>, n: nat): set<Tagging>
    decreases n
  {
    if n == 0 then tags else Iterate(step, step(tags, n), n - 1)
  }

  ghost predicate Keeps(step: Step, n: int, g: Tagging) {
    forall tags | g in tags :: g in step(tags, n)
  }

  lemma {:induction false} IterateKeeps(step: Step, tags: set<Tagging>, n: nat, g: Tagging)
    requires g in tags && forall k | 0 < k <= n :: Keeps(step, k, g)
    ensures g in Iterate(step, tags, n)
    decreases n
  {
    if n == 0 {
    } else {
      assert Keeps(step, n, g);
      IterateKeeps(step, step(tags, n), n - 1, g);
    }
  }

  /** What step `n` adds and later steps keep is there in the end, whatever the steps before. */
  lemma {:induction false} IterateAdds(step: Step, tags: set<Tagging>, m: nat, n: nat, g: Tagging)
    requires 0 < n <= m && forall k | 0 < k < n :: Keeps(step, k, g)
    requires forall t :: g in step(t, n)
    ensures g in Iterate(step, tags, m)
    decreases m
  {
    if m > n { IterateAdds(step, step(tags, m), m - 1, n, g); }
    else { IterateKeeps(step, step(tags, n), n - 1, g); }
  }

  ghost function PassStep(history: seq<Entry>, cfg: Config, tests: seq<string>, leq: (Key, Key) -> bool): Step {
    (tags, n) => if 1 <= n <= 4 then Pass(tags, history, cfg, n, tests, leq) else tags
  }

  lemma {:induction false} PassesIterate(tags: set<Tagging>, history: seq<Entry>, cfg: Config, n: nat,
                                         tests: seq<string>, leq: (Key, Key) -> bool)
    requires n <= 4
    ensures Passes(tags, history, cfg, n, tests, leq) == Iterate(PassStep(history, cfg, tests, leq), tags, n)
    decreases n
  {
    if n == 0 {
    } else {
      PassesIterate(Pass(tags, history, cfg, n, tests, leq), history, cfg, n - 1, tests, leq);
    }
  }

  /** A step does not lose a tag of more components that it has or adds and does not remove as reliable. */
  ghost predicate KeepsLong(step: Step, c: Changes) {
    forall t, n: Level, g | n < Length(g) && g !in c.removes(n) && (g in t || g in c.adds(n)) :: g in step(t, n)
  }

  lemma EscapeIterates(step: Step, c: Changes, tags: set<Tagging>, g: Tagging)
    requires KeepsLong(step, c) && Escapes(c, 1, g)
    ensures g in Iterate(step, tags, 4)
  {
    var n: Level :| AddedBy(c, n, 1, g);
    forall k | 0 < k < n ensures Keeps(step, k, g) {
      assert g !in c.removes(k);
    }
    IterateAdds(step, tags, 4, n, g);
  }

  lemma PassKeepsLong(tags: set<Tagging>, history: seq<Entry>, cfg: Config, n: Level, tests: seq<string>,
                      leq: (Key, Key) -> bool, g: Tagging)
    requires n < Length(g) && g !in Removes(history, cfg, n, leq)
    requires g in tags || g in Adds(history, cfg, n, leq)
    ensures g in Pass(tags, history, cfg, n, tests, leq)
  {}

  lemma PassStepKeepsLong(history: seq<Entry>, cfg: Config, tests: seq<string>, leq: (Key, Key) -> bool)
    ensures KeepsLong(PassStep(history, cfg, tests, leq), ChangesOf(history, cfg, leq))
  {
    var c := ChangesOf(history, cfg, leq);
    forall t, n: Level, g | n < Length(g) && g !in c.removes(n) && (g in t || g in c.adds(n))
      ensures g in PassStep(history, cfg, tests, leq)(t, n)
    {
      PassKeepsLong(t, history, cfg, n, tests, leq, g);
    }
  }

  /** What escapes the purges is left after all passes. */
  lemma EscapeRemains(tags: set<Tagging>, history: seq<Entry>, cfg: Config, tests: seq<string>,
                      leq: (Key, Key) -> bool, g: Tagging)
    requires Escapes(ChangesOf(history, cfg, leq), 1, g)
    ensures g in Passes(tags, history, cfg, 4, tests, leq)
  {
    PassStepKeepsLong(history, cfg, tests, leq);
    EscapeIterates(PassStep(history, cfg, tests, leq), ChangesOf(history, cfg, leq), tags, g);
    PassesIterate(tags, history, cfg, 4, tests, leq);
  }

  lemma EscapeMisleads(history: seq<Entry>, cfg: Config, leq: (Key, Key) -> bool, g: Tagging)
    requires Escapes(ChangesOf(history, cfg, leq), 1, g) && Misleads(history, cfg, g)
    ensures !TagsRan(Passes({}, history, cfg, 4, [g.1], leq), history, cfg, [g.1])
  {
    EscapeRemains({}, history, cfg, [g.1], leq, g);
    MisleadsIsNotRan(history, cfg, g);
    EscapeIsTagging(history, cfg, leq, g);
  }

  lemma EscapeIsTagging(history: seq<Entry>, cfg: Config, leq: (Key, Key) -> bool, g: Tagging)
    requires Escapes(ChangesOf(history, cfg, leq), 1, g)
    ensures exists n: Level, s | s in Summaries(Suspect(history, cfg, n), Overall(n), leq) :: TaggingOf(s) == g
  {
    var n: Level :| AddedBy(ChangesOf(history, cfg, leq), n, 1, g);
    assert g in Adds(history, cfg, n, leq);
  }

  /** Whatever the tests and the tags to begin with, the tags left behind decode to what ran recently. */
  ghost predicate AlwaysRan(history: seq<Entry>, cfg: Config, leq: (Key, Key) -> bool) {
    forall tags, tests :: TagsRan(Passes(tags, history, cfg, 4, tests, leq), history, cfg, tests)
  }

  /** For any history and any configuration: that is so exactly when no tag misleads that a pass adds,
      that has more components than the pass and that no pass from there on removes as reliable. */
  lemma TagsRanExactly(history: seq<Entry>, cfg: Config, leq: (Key, Key) -> bool)
    ensures AlwaysRan(history, cfg, leq) <==> NoEscapeMisleads(history, cfg, leq)
  {
    if NoEscapeMisleads(history, cfg, leq) {
      forall tags, tests ensures TagsRan(Passes(tags, history, cfg, 4, tests, leq), history, cfg, tests) {
        RemainingTagsRan(tags, history, cfg, tests, leq);
      }
    } else {
      var g :| Escapes(ChangesOf(history, cfg, leq), 1, g) && Misleads(history, cfg, g);
      EscapeMisleads(history, cfg, leq, g);
    }
  }

  // ----- Over all configurations that are accepted

  predicate ValidRates(rates: Rates) {
    0.0 <= rates.acceptable <= rates.unacceptable <= 1.0
  }

  predicate ValidConfig(cfg: Config) {
    && ValidRates(cfg.testRates) && ValidRates(cfg.taskRates)
    && ValidRates(cfg.variantRates) && ValidRates(cfg.distroRates)
    && cfg.reliableMinRuns >= 1 && cfg.unreliableMinRuns >= 1
    && cfg.reliableDays >= 1 && cfg.unreliableDays >= 1
  }

  predicate SamePeriods(cfg: Config, cfg': Config) {
    cfg'.reliableDays == cfg.reliableDays && cfg'.unreliableDays == cfg.unreliableDays
  }

  /** The same periods, with the thresholds that add most and remove least. */
  function Strictest(cfg: Config): Config {
    var rates := Rates(0.0, 0.0);
    Config(rates, rates, rates, rates, 1, cfg.reliableDays, 1, cfg.unreliableDays)
  }

  lemma MoreAdded(summaries: seq<Entry>, rate: real, minRuns: int)
    requires rate >= 0.0 && minRuns >= 1
    ensures ToAdd(summaries, rate, minRuns) <= ToAdd(summaries, 0.0, 1)
  {}

  lemma FewerRemoved(summaries: seq<Entry>, rate: real, minRuns: int)
    requires rate >= 0.0 && minRuns >= 1
    ensures ToRemove(summaries, 0.0, 1) <= ToRemove(summaries, rate, minRuns)
  {}

  lemma PeriodsDecide(history: seq<Entry>, cfg: Config, cfg': Config, n: Level)
    requires SamePeriods(cfg, cfg')
    ensures Recent(history, cfg') == Recent(history, cfg) && Suspect(history, cfg', n) == Suspect(history, cfg, n)
  {}

  lemma StrictestAddsMost(history: seq<Entry>, cfg: Config, cfg': Config, n: Level, leq: (Key, Key) -> bool)
    requires ValidConfig(cfg') && SamePeriods(cfg, cfg')
    ensures Adds(history, cfg', n, leq) <= Adds(history, Strictest(cfg), n, leq)
  {
    PeriodsDecide(history, cfg, cfg', n);
    PeriodsDecide(history, cfg, Strictest(cfg), n);
    MoreAdded(Summaries(Suspect(history, cfg, n), Overall(n), leq), RatesOf(cfg', n).unacceptable,
              cfg'.unreliableMinRuns);
  }

  lemma StrictestRemovesLeast(history: seq<Entry>, cfg: Config, cfg': Config, n: Level, leq: (Key, Key) -> bool)
    requires ValidConfig(cfg') && SamePeriods(cfg, cfg')
    ensures Removes(history, Strictest(cfg), n, leq) <= Removes(history, cfg', n, leq)
  {
    PeriodsDecide(history, cfg, cfg', n);
    PeriodsDecide(history, cfg, Strictest(cfg), n);
    FewerRemoved(Summaries(Recent(history, cfg), Overall(n), leq), RatesOf(cfg', n).acceptable,
                 cfg'.reliableMinRuns);
  }

  /** More is added and less removed. */
  ghost predicate Exceeds(c: Changes, c': Changes) {
    forall n: Level :: c'.adds(n) <= c.adds(n) && c.removes(n) <= c'.removes(n)
  }

  lemma EscapesMore(c: Changes, c': Changes, g: Tagging)
    requires Exceeds(c, c') && Escapes(c', 1, g)
    ensures Escapes(c, 1, g)
  {
    var k: Level :| AddedBy(c', k, 1, g);
    assert AddedBy(c, k, 1, g);
  }

  lemma StrictestExceeds(history: seq<Entry>, cfg: Config, cfg': Config, leq: (Key, Key) -> bool)
    requires ValidConfig(cfg') && SamePeriods(cfg, cfg')
    ensures Exceeds(ChangesOf(history, Strictest(cfg), leq), ChangesOf(history, cfg', leq))
  {
    var c, c' := ChangesOf(history, Strictest(cfg), leq), ChangesOf(history, cfg', leq);
    forall n: Level ensures c'.adds(n) <= c.adds(n) && c.removes(n) <= c'.removes(n) {
      StrictestAddsMost(history, cfg, cfg', n, leq);
      StrictestRemovesLeast(history, cfg, cfg', n, leq);
    }
  }

  lemma SameMisleads(history: seq<Entry>, cfg: Config, cfg': Config, g: Tagging)
    requires SamePeriods(cfg, cfg')
    ensures Misleads(history, cfg, g) == Misleads(history, cfg', g)
  {
    PeriodsDecide(history, cfg, cfg', 1);
  }

  lemma StrictestEscapesMost(history: seq<Entry>, cfg: Config, cfg': Config, leq: (Key, Key) -> bool)
    requires ValidConfig(cfg') && SamePeriods(cfg, cfg') && NoEscapeMisleads(history, Strictest(cfg), leq)
    ensures NoEscapeMisleads(history, cfg', leq)
  {
    forall g | Escapes(ChangesOf(history, cfg', leq), 1, g) ensures !Misleads(history, cfg', g) {
      StrictestExceeds(history, cfg, cfg', leq);
      EscapesMore(ChangesOf(history, Strictest(cfg), leq), ChangesOf(history, cfg', leq), g);
      SameMisleads(history, Strictest(cfg), cfg', g);
    }
  }

  lemma AcceptedAlwaysRan(history: seq<Entry>, cfg: Config, cfg': Config, leq: (Key, Key) -> bool)
    requires ValidConfig(cfg') && SamePeriods(cfg, cfg') && NoEscapeMisleads(history, Strictest(cfg), leq)
    ensures AlwaysRan(history, cfg', leq)
  {
    StrictestEscapesMost(history, cfg, cfg', leq);
    TagsRanExactly(history, cfg', leq);
  }

  ghost predicate AcceptedRan(history: seq<Entry>, cfg: Config, leq: (Key, Key) -> bool) {
    forall cfg' | ValidConfig(cfg') && SamePeriods(cfg, cfg') :: AlwaysRan(history, cfg', leq)
  }

  lemma StrictestDecides(history: seq<Entry>, cfg: Config, leq: (Key, Key) -> bool)
    requires NoEscapeMisleads(history, Strictest(cfg), leq)
    ensures AcceptedRan(history, cfg, leq)
  {
    forall cfg' | ValidConfig(cfg') && SamePeriods(cfg, cfg') ensures AlwaysRan(history, cfg', leq) {
      AcceptedAlwaysRan(history, cfg, cfg', leq);
    }
  }

  lemma StrictestIsAccepted(history: seq<Entry>, cfg: Config, leq: (Key, Key) -> bool)
    requires ValidConfig(cfg) && AcceptedRan(history, cfg, leq)
    ensures NoEscapeMisleads(history, Strictest(cfg), leq)
  {
    assert ValidConfig(Strictest(cfg)) && SamePeriods(cfg, Strictest(cfg));
    TagsRanExactly(history, Strictest(cfg), leq);
  }

  /** For any history and periods: that is so under every accepted configuration exactly when it is so
      under the strictest one, which is itself accepted. */
  lemma TagsRanForAllConfigs(history: seq<Entry>, cfg: Config, leq: (Key, Key) -> bool)
    requires ValidConfig(cfg)
    ensures AcceptedRan(history, cfg, leq) <==> NoEscapeMisleads(history, Strictest(cfg), leq)
  {
    if NoEscapeMisleads(history, Strictest(cfg), leq) { StrictestDecides(history, cfg, leq); }
    if AcceptedRan(history, cfg, leq) { StrictestIsAccepted(history, cfg, leq); }
  }

  /** What the strictest thresholds come to: a summary counts against a test when it ran at all, and
      clears it when nothing failed. */
  lemma StrictestTests(s: Entry)
    ensures UnreliableTest(s, 0.0, 1) <==> Runs(s) >= 1
    ensures ReliableTest(s, 0.0, 1) <==> s.numFail == 0
  {}

  // ----- Clean names are enough

  /** Names that tags can carry, in the executions that can give rise to a tag. */
  predicate CleanHistory(history: seq<Entry>, cfg: Config) {
    forall e | e in Recent(history, cfg) :: CleanNames([e.task, e.variant, e.distro])
  }

  /** The named components of a summary are the first components of what it sums up. */
  lemma SummaryNames(s: Entry, e: Entry)
    requires SummaryOf(s, e)
    ensures var named := NamedPrefix([s.task, s.variant, s.distro]);
            && |named| <= 3
            && Fields(e, Components(1 + |named|)) == [e.test] + named
            && (forall f | f in named :: f in [e.task, e.variant, e.distro])
  {
    NamedPrefixOfThree(s.task, s.variant, s.distro);
    assert Get(s, Task) == s.task && Get(s, Variant) == s.variant && Get(s, Distro) == s.distro;
    assert Get(e, Task) == e.task && Get(e, Variant) == e.variant && Get(e, Distro) == e.distro;
    var named := NamedPrefix([s.task, s.variant, s.distro]);
    var fs := Fields(e, Components(1 + |named|));
    assert fs[0] == Get(e, Test) == e.test;
    forall i | 0 <= i < |named| ensures fs[i + 1] == named[i] {
      assert fs[i + 1] == Get(e, ALL[i + 1]);
    }
  }

  lemma MadeFromRecentRan(history: seq<Entry>, cfg: Config, test: string, tag: string)
    requires MadeFromRecent(history, cfg, test, tag) && CleanHistory(history, cfg)
    ensures RanRecently(history, cfg, test, tag)
  {
    var e, s :| e in Recent(history, cfg) && SummaryOf(s, e) && e.test == Name(test) &&
                tag == UnreliableTag(s.task, s.variant, s.distro);
    SummaryNames(s, e);
    CleanTagDecodes(test, s.task, s.variant, s.distro);
  }

  lemma CleanHistoryRan(history: seq<Entry>, cfg: Config, leq: (Key, Key) -> bool)
    requires TotalOrder(leq) && forall e | e in history :: e.test.Name?
    requires CleanHistory(history, cfg)
    ensures NoEscapeMisleads(history, cfg, leq)
  {
    forall g | Escapes(ChangesOf(history, cfg, leq), 1, g) ensures !Misleads(history, cfg, g) {
      EscapeIsTagging(history, cfg, leq, g);
      var n: Level, s :| s in Summaries(Suspect(history, cfg, n), Overall(n), leq) && TaggingOf(s) == g;
      AddedIsMadeFromRecent(history, cfg, n, leq, s);
      MadeFromRecentRan(history, cfg, g.1, g.2);
      MisleadsIsNotRan(history, cfg, g);
    }
  }

  // ----- Where names are not clean

  /** Rates and periods under which one failing execution is enough. */
  const ONE_RUN: Config :=
    var rates := Rates(0.0, 1.0);
    Config(rates, rates, rates, rates, 1, 1, 1, 1)

  lemma SummariesOfOne(e: Entry, g: Grouping, leq: (Key, Key) -> bool)
    requires ValidPeriod(g.period)
    ensures Summaries([e], g, leq) == [e]
  {
    var k := KeyOf(e, g);
    assert [e][1..] == [];
    assert SortedKeys([e], g, leq) == [k];
    assert Group([e], g, k) == [e];
    assert TotalOf([e]) == Just(e);
  }

  lemma WithinOne(e: Entry, w: Window)
    requires Accepts(w, e)
    ensures Within([e], w) == [e]
  {}

  /** A single failing execution is its own recent and suspect history. */
  lemma SingleFailureAdds(e: Entry)
    requires e.startDate == e.endDate && e.numPass == 0 && e.numFail == 1
    ensures Recent([e], ONE_RUN) == [e] && Suspect([e], ONE_RUN, 1) == [e]
    ensures ToAdd([e], 1.0, 1) == {TaggingOf(e)} && ToRemove([e], 0.0, 1) == {}
  {
    assert TotalOf([e]) == Just(e) && Sum([e]) == e;
    WithinOne(e, Since(e.endDate));
    assert Recent([e], ONE_RUN) == [e];
    assert e in [e];
    assert Fields(e, Components(1)) in Combinations([e], 1);
    WithinOne(e, SinceOf(e.endDate, Components(1), Combinations([e], 1)));
    assert FailRate(e) == 1.0;
  }

  lemma LastPassKeeps(e: Entry, tags: set<Tagging>, tests: seq<string>, leq: (Key, Key) -> bool)
    requires e.test.Name? && e.startDate == e.endDate && e.numPass == 0 && e.numFail == 1
    ensures TaggingOf(e) in Pass(tags, [e], ONE_RUN, 1, tests, leq)
  {
    var test, tag := e.test.name, TaggingOf(e).2;
    SingleFailureAdds(e);
    SummariesOfOne(e, Overall(1), leq);
    assert e in [e] && Fields(e, Components(1)) == [e.test];
    assert [e.test] in Combinations([e], 1);
    assert |TagCombination(test, tag)| == 1 ==> TagCombination(test, tag) == [e.test];
  }

  /** The tag of a single failing execution stays, whatever its names. */
  lemma SingleFailureStays(e: Entry, tags: set<Tagging>, tests: seq<string>, leq: (Key, Key) -> bool)
    requires e.test.Name? && e.startDate == e.endDate && e.numPass == 0 && e.numFail == 1
    ensures TaggingOf(e) in Passes(tags, [e], ONE_RUN, 4, tests, leq)
  {
    var t3 := Pass(tags, [e], ONE_RUN, 4, tests, leq);
    var t2 := Pass(t3, [e], ONE_RUN, 3, tests, leq);
    var t1 := Pass(t2, [e], ONE_RUN, 2, tests, leq);
    FourPasses(tags, [e], ONE_RUN, tests, leq);
    LastPassKeeps(e, t1, tests, leq);
  }

  /** A bar in the name of a task: the tag left behind stands for a combination that never ran. */
  lemma BarInNameMisleads(tags: set<Tagging>, tests: seq<string>, leq: (Key, Key) -> bool)
    ensures var e := Entry(Name("t"), Name("a|b"), Name("v"), Missing, 1, 1, 0, 1);
            && ValidConfig(ONE_RUN)
            && TaggingOf(e) in Passes(tags, [e], ONE_RUN, 4, tests, leq)
            && !RanRecently([e], ONE_RUN, "t", TaggingOf(e).2)
  {
    var e := Entry(Name("t"), Name("a|b"), Name("v"), Missing, 1, 1, 0, 1);
    SingleFailureStays(e, tags, tests, leq);
    SingleFailureAdds(e);
    BarMisread("t", e);
  }

  lemma BarMisread(test: string, e: Entry)
    requires e.task == Name("a|b") && e.variant == Name("v") && e.distro == Missing
    ensures var combination := TagCombination(test, TaggingOf(e).2);
            |combination| == 4 && combination != Fields(e, Components(4))
  {
    var tag := TaggingOf(e).2;
    assert tag == UNRELIABLE + "|" + "a" + "|" + "b" + "|" + "v";
    SplitThree("a", "b", "v");
    MarkedTag(test, tag, [UNRELIABLE, "a", "b", "v"]);
    assert TagCombination(test, tag)[1] == Name("a");
    assert Fields(e, Components(4))[1] == Name("a|b");
  }

  // ----- update_tags

  lemma DailyEntries(history: seq<Entry>, n: Level, leq: (Key, Key) -> bool)
    requires TotalOrder(leq)
    ensures Sum(Summaries(history, ByDay(n), leq)) == Sum(history)
    ensures history != [] ==> Summaries(history, ByDay(n), leq) != []
  {
    SummariesConserve(history, ByDay(n), leq);
    SortedKeysCorrect(history, ByDay(n), leq);
    if history != [] { assert HasKey(history, ByDay(n), KeyOf(history[0], ByDay(n))); }
  }

  lemma FinerComponents(m: Level, n: Level)
    requires n <= m
    ensures Refines(ByDay(m), ByDay(n)) && Refines(ByDay(m), Overall(n))
  {}

  /** The entries of the report of a pass: the history, or its daily summaries one level finer. */
  ghost predicate EntriesFor(es: seq<Entry>, history: seq<Entry>, n: Level, leq: (Key, Key) -> bool) {
    if n == 4 then es == history else es == Summaries(history, ByDay(n + 1), leq)
  }

  lemma GroupedEntries(es: seq<Entry>, history: seq<Entry>, n: Level, leq: (Key, Key) -> bool)
    requires TotalOrder(leq) && EntriesFor(es, history, n, leq)
    ensures Summaries(es, ByDay(n), leq) == Summaries(history, ByDay(n), leq)
    ensures Sum(es) == Sum(history)
  {
    if n < 4 {
      FinerComponents(n + 1, n);
      SummariesOfSummaries(history, ByDay(n + 1), ByDay(n), leq);
      DailyEntries(history, n + 1, leq);
    }
  }

  /** What a pass computes from filtered daily summaries, told from the history. */
  lemma FilteredSummaries(history: seq<Entry>, w: Window, n: Level, leq: (Key, Key) -> bool)
    requires TotalOrder(leq) && Respects(w, ByDay(n))
    ensures var kept := Within(Summaries(history, ByDay(n), leq), w);
            && Summaries(kept, Overall(n), leq) == Summaries(Within(history, w), Overall(n), leq)
            && Combinations(kept, n) == Combinations(Within(history, w), n)
  {
    SummariesWithin(history, w, ByDay(n), leq);
    FinerComponents(n, n);
    SummariesOfSummaries(Within(history, w), ByDay(n), Overall(n), leq);
    SameCombinations(Within(history, w), n, leq);
  }

  lemma SameCombinations(es: seq<Entry>, n: Level, leq: (Key, Key) -> bool)
    requires TotalOrder(leq)
    ensures Combinations(Summaries(es, ByDay(n), leq), n) == Combinations(es, n)
  {
    var sums := Summaries(es, ByDay(n), leq);
    FinerComponents(n, n);
    FineSumsKeys(es, ByDay(n), Overall(n), leq);
    forall c ensures c in Combinations(sums, n) <==> c in Combinations(es, n) {
      CombinationIsKey(sums, n, c);
      CombinationIsKey(es, n, c);
    }
  }

  lemma CombinationIsKey(es: seq<Entry>, n: Level, c: seq<Field>)
    ensures c in Combinations(es, n) <==> HasKey(es, Overall(n), Key(c, 0))
  {}

  /** The summaries of some entries, or none when there are no entries to report on. */
  method SummarizeOverall(es: seq<Entry>, n: Level, leq: (Key, Key) -> bool) returns (out: seq<Entry>)
    requires TotalOrder(leq)
    ensures out == Summaries(es, Overall(n), leq)
  {
    var report := NewReport(es);
    if report.Failure? {
      return [];
    }
    var result := SummarizeBy(report.value, Components(n), NoPeriod, leq);
    out := result.value;
  }

  method UpdateLifecycle(log: TagsConfigWithChangelog, summaries: seq<Entry>, add: bool, rate: real,
                         minRuns: int)
    requires log.Valid()
    modifies log, log.lifecycle
    ensures log.Valid()
    ensures log.lifecycle.All() == if add then old(log.lifecycle.All()) + ToAdd(summaries, rate, minRuns)
                                   else old(log.lifecycle.All()) - ToRemove(summaries, rate, minRuns)
  {
    for i := 0 to |summaries|
      invariant log.Valid()
      invariant log.lifecycle.All() ==
                if add then old(log.lifecycle.All()) + ToAdd(summaries[..i], rate, minRuns)
                else old(log.lifecycle.All()) - ToRemove(summaries[..i], rate, minRuns)
    {
      var s := summaries[i];
      assert summaries[..i + 1] == summaries[..i] + [s];
      var (kind, test, tag) := TaggingOf(s);
      if add {
        if UnreliableTest(s, rate, minRuns) {
          log.AddTag(kind, test, tag, FailRate(s));
        }
      } else {
        if ReliableTest(s, rate, minRuns) {
          log.RemoveTag(kind, test, tag, FailRate(s));
        }
      }
    }
    assert summaries[..|summaries|] == summaries;
  }

  method PurgeTest(log: TagsConfigWithChangelog, test: string, n: Level, combinations: set<seq<Field>>)
    requires log.Valid()
    modifies log, log.lifecycle
    ensures log.Valid()
    ensures log.lifecycle.All() == Purged(old(log.lifecycle.All()), [test], n, combinations)
  {
    var tags := log.lifecycle.GetTags(JS_TEST, test);
    for i := 0 to |tags|
      invariant log.Valid()
      invariant forall g :: g in log.lifecycle.All() <==>
        g in old(log.lifecycle.All()) &&
        !(g.0 == JS_TEST && g.1 == test && g.2 in tags[..i] && Stale(g.1, g.2, n, combinations))
    {
      assert tags[..i + 1] == tags[..i] + [tags[i]];
      if Stale(test, tags[i], n, combinations) {
        log.RemoveTag(JS_TEST, test, tags[i], 0.0);
      }
    }
  }

  method Purge(log: TagsConfigWithChangelog, tests: seq<string>, n: Level, combinations: set<seq<Field>>)
    requires log.Valid()
    modifies log, log.lifecycle
    ensures log.Valid()
    ensures log.lifecycle.All() == Purged(old(log.lifecycle.All()), tests, n, combinations)
  {
    for i := 0 to |tests|
      invariant log.Valid()
      invariant log.lifecycle.All() == Purged(old(log.lifecycle.All()), tests[..i], n, combinations)
    {
      assert tests[..i + 1] == tests[..i] + [tests[i]];
      PurgeTest(log, tests[i], n, combinations);
    }
    assert tests[..|tests|] == tests;
  }

  method DailySummaries(report: Report, n: Level, leq: (Key, Key) -> bool, ghost history: seq<Entry>)
    returns (grouped: seq<Entry>)
    requires ValidReport(report) && TotalOrder(leq)
    requires EntriesFor(report.entries, history, n, leq)
    ensures grouped == Summaries(history, ByDay(n), leq)
    ensures report.endDate == Sum(history).endDate
  {
    GroupedEntries(report.entries, history, n, leq);
    var result := SummarizeBy(report, Components(n), EveryDay, leq);
    grouped := result.value;
  }

  /** The combinations and summaries of the daily summaries in a window. */
  method SummarizeWindow(grouped: seq<Entry>, w: Window, n: Level, leq: (Key, Key) -> bool,
                         ghost history: seq<Entry>)
    returns (combinations: set<seq<Field>>, summaries: seq<Entry>)
    requires TotalOrder(leq) && Respects(w, ByDay(n)) && grouped == Summaries(history, ByDay(n), leq)
    ensures combinations == Combinations(Within(history, w), n)
    ensures summaries == Summaries(Within(history, w), Overall(n), leq)
  {
    FilteredSummaries(history, w, n, leq);
    var kept := Within(grouped, w);
    combinations := Combinations(kept, n);
    summaries := SummarizeOverall(kept, n, leq);
  }

  /** The daily summaries of a level, and the two summaries that decide on tags. */
  method LevelSummaries(cfg: Config, report: Report, n: Level, leq: (Key, Key) -> bool,
                        ghost history: seq<Entry>)
    returns (grouped: seq<Entry>, combinations: set<seq<Field>>, reliable: seq<Entry>, unreliable: seq<Entry>)
    requires ValidReport(report) && TotalOrder(leq)
    requires EntriesFor(report.entries, history, n, leq)
    ensures grouped == Summaries(history, ByDay(n), leq)
    ensures combinations == Combinations(Recent(history, cfg), n)
    ensures reliable == Summaries(Recent(history, cfg), Overall(n), leq)
    ensures unreliable == Summaries(Suspect(history, cfg, n), Overall(n), leq)
  {
    grouped := DailySummaries(report, n, leq, history);
    combinations, reliable :=
      SummarizeWindow(grouped, ReliableWindow(report.endDate, cfg), n, leq, history);
    var _, summaries :=
      SummarizeWindow(grouped, UnreliableWindow(report.endDate, cfg, n, combinations), n, leq, history);
    unreliable := summaries;
  }

  method UpdateLevel(log: TagsConfigWithChangelog, cfg: Config, report: Report, tests: seq<string>,
                     n: Level, leq: (Key, Key) -> bool, ghost history: seq<Entry>)
    returns (grouped: seq<Entry>)
    requires log.Valid() && ValidReport(report) && TotalOrder(leq)
    requires EntriesFor(report.entries, history, n, leq)
    modifies log, log.lifecycle
    ensures log.Valid()
    ensures grouped == Summaries(history, ByDay(n), leq)
    ensures log.lifecycle.All() == Pass(old(log.lifecycle.All()), history, cfg, n, tests, leq)
  {
    var combinations, reliable, unreliable;
    grouped, combinations, reliable, unreliable := LevelSummaries(cfg, report, n, leq, history);
    var rates := RatesOf(cfg, n);
    UpdateLifecycle(log, unreliable, true, rates.unacceptable, cfg.unreliableMinRuns);
    UpdateLifecycle(log, reliable, false, rates.acceptable, cfg.reliableMinRuns);
    Purge(log, tests, n, combinations);
  }

  /** The passes over ever coarser summaries do what each pass would do on the whole history. */
  method UpdateTags(log: TagsConfigWithChangelog, cfg: Config, report: Report, tests: seq<string>,
                    leq: (Key, Key) -> bool)
    requires log.Valid() && ValidReport(report) && TotalOrder(leq)
    requires forall e | e in report.entries :: e.test.Name?
    modifies log, log.lifecycle
    ensures log.Valid()
    ensures log.lifecycle.All() == Passes(old(log.lifecycle.All()), report.entries, cfg, 4, tests, leq)
  {
    ghost var history := report.entries;
    var current := report;
    var n := 4;
    while n > 0
      invariant 0 <= n <= 4
      invariant log.Valid() && ValidReport(current)
      invariant n > 0 ==> EntriesFor(current.entries, history, n, leq)
      invariant Passes(old(log.lifecycle.All()), history, cfg, 4, tests, leq) ==
                Passes(log.lifecycle.All(), history, cfg, n, tests, leq)
    {
      var grouped := UpdateLevel(log, cfg, current, tests, n, leq, history);
      DailyEntries(history, n, leq);
      var next := NewReport(grouped);
      current := next.value;
      n := n - 1;
    }
  }
}
