/** The source manifest: dependency closures over build targets, and the selection of tests with
    the sources that support them. */
module Sources {
  import opened Results
  import opened Sorting
  import opened Strings

  datatype Target = Target(kind: string, sources: seq<string>, dependencies: seq<string>)

  type Targets = map<string, Target>

  // ----- Reachability

  predicate DependsOn(g: Targets, a: string, b: string) {
    a in g && b in g[a].dependencies
  }

  ghost predicate IsPath(g: Targets, p: seq<string>) {
    |p| >= 1 && forall i | 0 <= i < |p| - 1 :: DependsOn(g, p[i], p[i + 1])
  }

  ghost predicate Reachable(g: Targets, roots: seq<string>, x: string) {
    exists p :: IsPath(g, p) && p[0] in roots && p[|p| - 1] == x
  }

  /** Every reachable name is a target. */
  ghost predicate AllKnown(g: Targets, roots: seq<string>) {
    forall x | Reachable(g, roots, x) :: x in g
  }

  /** The targets reachable from the roots. */
  ghost function ClosureSet(g: Targets, roots: seq<string>): set<string> {
    set x | x in g && Reachable(g, roots, x)
  }

  ghost predicate ClosedOver(g: Targets, roots: seq<string>, s: set<string>) {
    (forall r | r in roots :: r in s) && (forall a, b | a in s && DependsOn(g, a, b) :: b in s)
  }

  lemma RootReachable(g: Targets, roots: seq<string>, r: string)
    requires r in roots
    ensures Reachable(g, roots, r)
  {
    assert IsPath(g, [r]) && [r][0] in roots && [r][|[r]| - 1] == r;
  }

  lemma StepReachable(g: Targets, roots: seq<string>, a: string, b: string)
    requires Reachable(g, roots, a) && DependsOn(g, a, b)
    ensures Reachable(g, roots, b)
  {
    var p :| IsPath(g, p) && p[0] in roots && p[|p| - 1] == a;
    var q := p + [b];
    forall i | 0 <= i < |q| - 1 ensures DependsOn(g, q[i], q[i + 1]) {
      if i < |p| - 1 { assert q[i + 1] == p[i + 1]; }
    }
    assert q[0] in roots && q[|q| - 1] == b;
  }

  lemma {:induction false} PathStaysIn(g: Targets, s: set<string>, p: seq<string>)
    requires IsPath(g, p) && p[0] in s
    requires forall a, b | a in s && DependsOn(g, a, b) :: b in s
    ensures p[|p| - 1] in s
    decreases |p|
  {
    if |p| <= 1 {
    } else {
      assert DependsOn(g, p[0], p[1]);
      var q := p[1..];
      forall i | 0 <= i < |q| - 1 ensures DependsOn(g, q[i], q[i + 1]) {
        assert DependsOn(g, p[i + 1], p[i + 2]);
      }
      PathStaysIn(g, s, q);
    }
  }

  /** The closure is the least set that has the roots and is closed over dependencies. */
  lemma ClosureIsLeast(g: Targets, roots: seq<string>, s: set<string>)
    ensures AllKnown(g, roots) ==> ClosedOver(g, roots, ClosureSet(g, roots))
    ensures ClosedOver(g, roots, s) ==> ClosureSet(g, roots) <= s
  {
    forall r | r in roots ensures Reachable(g, roots, r) { RootReachable(g, roots, r); }
    forall a, b | Reachable(g, roots, a) && DependsOn(g, a, b) ensures Reachable(g, roots, b) {
      StepReachable(g, roots, a, b);
    }
    if ClosedOver(g, roots, s) {
      forall x | x in ClosureSet(g, roots) ensures x in s {
        var p :| IsPath(g, p) && p[0] in roots && p[|p| - 1] == x;
        PathStaysIn(g, s, p);
      }
    }
  }

  /** The order of roots and dependencies, and repetitions among them, do not matter. */
  lemma ClosureIgnoresOrder(g: Targets, h: Targets, roots: seq<string>, roots': seq<string>)
    requires forall a, b :: DependsOn(g, a, b) <==> DependsOn(h, a, b)
    requires forall r :: r in roots <==> r in roots'
    ensures forall x :: Reachable(g, roots, x) <==> Reachable(h, roots', x)
    ensures g.Keys == h.Keys ==>
              (AllKnown(g, roots) <==> AllKnown(h, roots')) && ClosureSet(g, roots) == ClosureSet(h, roots')
  {
    forall x ensures Reachable(g, roots, x) <==> Reachable(h, roots', x) {
      SamePaths(g, h, roots, roots', x);
      SamePaths(h, g, roots', roots, x);
    }
  }

  lemma SamePaths(g: Targets, h: Targets, roots: seq<string>, roots': seq<string>, x: string)
    requires forall a, b :: DependsOn(g, a, b) <==> DependsOn(h, a, b)
    requires forall r :: r in roots <==> r in roots'
    ensures Reachable(g, roots, x) ==> Reachable(h, roots', x)
  {
    if Reachable(g, roots, x) {
      var p :| IsPath(g, p) && p[0] in roots && p[|p| - 1] == x;
      assert IsPath(h, p);
    }
  }

  // ----- The worklist

  /** What holds of the worklist between two rounds. */
  ghost predicate Working(g: Targets, roots: seq<string>, selected: set<string>, pending: seq<string>) {
    && selected <= g.Keys
    && (forall x | x in selected :: Reachable(g, roots, x))
    && (forall x | x in pending :: Reachable(g, roots, x))
    && (forall r | r in roots :: r in selected || r in pending)
    && (forall a, b | a in selected && DependsOn(g, a, b) :: b in selected || b in pending)
  }

  lemma WorkingStep(g: Targets, roots: seq<string>, selected: set<string>, pending: seq<string>)
    requires pending != [] && Working(g, roots, selected, pending)
    ensures var name, rest := pending[|pending| - 1], pending[..|pending| - 1];
            && Reachable(g, roots, name)
            && (name in selected ==> Working(g, roots, selected, rest))
            && (name in g ==> Working(g, roots, selected + {name}, rest + g[name].dependencies))
  {
    var name, rest := pending[|pending| - 1], pending[..|pending| - 1];
    assert pending == rest + [name];
    assert name in pending;
    if name in g {
      forall b | b in g[name].dependencies ensures Reachable(g, roots, b) {
        assert DependsOn(g, name, b);
        StepReachable(g, roots, name, b);
      }
    }
  }

  lemma WorkDone(g: Targets, roots: seq<string>, selected: set<string>)
    requires Working(g, roots, selected, [])
    ensures AllKnown(g, roots) && selected == ClosureSet(g, roots)
  {
    forall x | Reachable(g, roots, x) ensures x in selected {
      var p :| IsPath(g, p) && p[0] in roots && p[|p| - 1] == x;
      PathStaysIn(g, selected, p);
    }
  }

  /** Ends on every graph, cyclic or not, with the closure, or with None exactly when an unknown
      target is reachable. */
  method DependencyClosure(g: Targets, roots: seq<string>) returns (r: Option<set<string>>)
    ensures r.Some? <==> AllKnown(g, roots)
    ensures r.Some? ==> r.value == ClosureSet(g, roots)
  {
    var selected: set<string> := {};
    var pending := roots;
    forall x | x in roots { RootReachable(g, roots, x); }
    while pending != []
      invariant Working(g, roots, selected, pending)
      decreases g.Keys - selected, |pending|
    {
      WorkingStep(g, roots, selected, pending);
      var name := pending[|pending| - 1];
      pending := pending[..|pending| - 1];
      if name in selected {
        continue;
      }
      if name !in g {
        return None;
      }
      selected := selected + {name};
      pending := pending + g[name].dependencies;
    }
    WorkDone(g, roots, selected);
    r := Some(selected);
  }

  predicate StartsWithAny(s: string, prefixes: seq<string>) {
    exists i | 0 <= i < |prefixes| :: prefixes[i] <= s
  }

  const SERVER := "mongo/eloqdoc"

  /** The production graph: everything the server needs, unless a name is unknown or forbidden. */
  method SelectGraph(g: Targets, forbidden: seq<string>) returns (r: Result<set<string>>)
    ensures r.Success? <==>
            AllKnown(g, [SERVER]) && forall x | x in ClosureSet(g, [SERVER]) :: !StartsWithAny(x, forbidden)
    ensures r.Success? ==> r.value == ClosureSet(g, [SERVER])
  {
    var closure := DependencyClosure(g, [SERVER]);
    if closure.None? {
      return Failure("Minimal EloqDoc graph references unknown target");
    }
    var bad := set x | x in closure.value && StartsWithAny(x, forbidden);
    if bad != {} {
      ghost var x :| x in bad;
      return Failure("Forbidden distributed/alternate-engine targets selected");
    }
    assert forall x | x in closure.value :: x !in bad;
    r := Success(closure.value);
  }

  // ----- Normalized sources

  /** The tables of the script. */
  datatype Config = Config(
    replacements: map<string, string>,
    forbiddenPrefixes: seq<string>,
    excludedTestPrefixes: seq<string>,
    excludedTests: set<string>,
    initializers: set<string>,
    initializerPrefixes: seq<string>)

  const SHIM_TYPO := "third_party/shim_intel_decimal128.cppshim_intel_decimal128.cpp"
  const SHIM := "third_party/shim_intel_decimal128.cpp"

  const DROPPED: set<string> := {
    "mongo/util/exception_filter_win32.cpp",
    "mongo/util/signal_win32.cpp",
    "mongo/util/winutil.cpp",
    SHIM_TYPO
  }

  predicate EndsWith(s: string, suffix: string) {
    |s| >= |suffix| && s[|s| - |suffix|..] == suffix
  }

  predicate IsSourceFile(s: string) {
    EndsWith(s, ".c") || EndsWith(s, ".cc") || EndsWith(s, ".cpp")
  }

  function Replaced(cfg: Config, s: string): string {
    if s in cfg.replacements then cfg.replacements[s] else s
  }

  predicate Kept(s: string) {
    s !in DROPPED && IsSourceFile(s)
  }

  /** `_normalized_sources` of a generator: by the time it is asked for the misspelt shim, the
      generator is used up, so each source counts for itself. */
  function NormalizedEach(cfg: Config, sources: set<string>): set<string> {
    set s | s in sources && Kept(Replaced(cfg, s)) :: Replaced(cfg, s)
  }

  /** `_normalized_sources` of a list. */
  function NormalizedList(cfg: Config, sources: seq<string>): set<string> {
    NormalizedEach(cfg, set s | s in sources) + if SHIM_TYPO in sources then {SHIM} else {}
  }

  lemma ShimKept()
    ensures Kept(SHIM)
  {
    assert |SHIM| > |".cpp"| && SHIM[|SHIM| - |".cpp"|..] == ".cpp";
    assert |SHIM| < |SHIM_TYPO|;
  }

  /** A generator gives what a list gives exactly when it does not hold the misspelt shim, or the shim
      is a source in its own right. */
  lemma ShimSeenExactly(cfg: Config, sources: seq<string>)
    ensures NormalizedEach(cfg, set s | s in sources) == NormalizedList(cfg, sources) <==>
            (SHIM_TYPO in sources ==> exists s | s in sources :: Replaced(cfg, s) == SHIM)
  {
    ShimKept();
    assert SHIM in NormalizedEach(cfg, set s | s in sources) <==>
           exists s | s in sources :: Replaced(cfg, s) == SHIM;
  }

  /** The misspelt shim alone: a list has the shim, a generator has nothing. */
  lemma ShimLost(cfg: Config)
    requires SHIM_TYPO !in cfg.replacements
    ensures NormalizedList(cfg, [SHIM_TYPO]) == {SHIM} && NormalizedEach(cfg, {SHIM_TYPO}) == {}
  {
    assert (set s | s in [SHIM_TYPO]) == {SHIM_TYPO};
  }

  function SourcesOf(g: Targets, names: set<string>): set<string> {
    set n, s | n in names && n in g && s in g[n].sources :: s
  }

  lemma NormalizedMember(cfg: Config, g: Targets, names: set<string>, n: string, s: string)
    requires n in names && s in NormalizedEach(cfg, SourcesOf(g, {n}))
    ensures s in NormalizedEach(cfg, SourcesOf(g, names))
  {}

  // ----- Which tests are kept

  const FIXTURE := "mongo/db/service_context_d_test_fixture"
  const EPHEMERAL := "mongo/db/storage/ephemeral_for_test/storage_ephemeral_for_test"
  const UNIT_TEST := "CppUnitTest"
  const INTEGRATION_TEST := "CppIntegrationTest"
  const LIBRARY := "Library"
  const THIRD_PARTY := "third_party/"
  const ELOQ := "mongo/db/modules/eloq/"
  const FACET_TEST := "mongo/db/pipeline/document_source_facet_test"
  const FACET_SOURCE := "mongo/db/pipeline/document_source_internal_split_pipeline.cpp"

  /** What the loop over targets works with: the graph with the fixture's edge restored, and the
      production side. `parent` gives the directory of a source. */
  datatype Context = Context(
    g: Targets, production: set<string>, cfg: Config, parent: string -> string)

  function NewContext(targets: Targets, production: set<string>, cfg: Config, parent: string -> string): Context
    requires FIXTURE in targets
  {
    var fixture := targets[FIXTURE];
    Context(targets[FIXTURE := fixture.(dependencies := fixture.dependencies + [EPHEMERAL])],
            production, cfg, parent)
  }

  function ProductionSources(ctx: Context): set<string> {
    NormalizedEach(ctx.cfg, SourcesOf(ctx.g, ctx.production))
  }

  function Directories(ctx: Context, sources: set<string>): set<string> {
    set s | s in sources :: ctx.parent(s)
  }

  predicate IsInitializer(ctx: Context, s: string) {
    s in ctx.cfg.initializers || (s in ProductionSources(ctx) && StartsWithAny(s, ctx.cfg.initializerPrefixes))
  }

  predicate IsTest(ctx: Context, name: string) {
    && name in ctx.g
    && (ctx.g[name].kind == UNIT_TEST || ctx.g[name].kind == INTEGRATION_TEST)
    && name !in ctx.cfg.excludedTests
    && !StartsWithAny(name, ctx.cfg.excludedTestPrefixes)
  }

  function MainTarget(t: Target): string {
    if t.kind == UNIT_TEST then "mongo/unittest/unittest_main" else "mongo/unittest/integration_test_main"
  }

  function Explicit(t: Target): seq<string> {
    Filtered(t.dependencies, MainTarget(t))
  }

  function Filtered(ds: seq<string>, main: string): (r: seq<string>)
    ensures forall d :: d in r <==> d in ds && d != main
  {
    if ds == [] then []
    else if ds[0] != main then [ds[0]] + Filtered(ds[1..], main)
    else Filtered(ds[1..], main)
  }

  /** The conditions on a closure: nothing forbidden, nothing third-party that production lacks. */
  predicate ClosureAllowed(ctx: Context, closure: set<string>) {
    && (forall d | d in closure :: !StartsWithAny(d, ctx.cfg.forbiddenPrefixes))
    && (forall d | d in closure && THIRD_PARTY <= d :: d in ctx.production)
  }

  predicate Related(ctx: Context, t: Target, explicitClosure: set<string>) {
    || explicitClosure * ctx.production != {}
    || Directories(ctx, NormalizedList(ctx.cfg, t.sources)) * Directories(ctx, ProductionSources(ctx)) != {}
  }

  predicate NoneExcluded(ctx: Context, sources: set<string>) {
    forall s | s in sources :: !StartsWithAny(s, ctx.cfg.excludedTestPrefixes)
  }

  function SupportTargets(ctx: Context, t: Target, closure: set<string>): set<string> {
    closure - ctx.production - {MainTarget(t)}
  }

  predicate AllLibraries(ctx: Context, names: set<string>) {
    forall n | n in names && n in ctx.g :: ctx.g[n].kind == LIBRARY
  }

  function SupportSources(ctx: Context, name: string, t: Target, closure: set<string>): set<string> {
    (NormalizedEach(ctx.cfg, SourcesOf(ctx.g, SupportTargets(ctx, t, closure))) - ProductionSources(ctx))
    + (set s | s in SourcesOf(ctx.g, closure) && IsInitializer(ctx, s))
    + (if name == FACET_TEST then {FACET_SOURCE} else {})
  }

  /** All conditions for a test to be kept, given its closures. */
  predicate Keeps(ctx: Context, name: string, closure: set<string>, explicitClosure: set<string>)
    requires name in ctx.g
  {
    var t := ctx.g[name];
    && ClosureAllowed(ctx, closure)
    && Related(ctx, t, explicitClosure)
    && NoneExcluded(ctx, NormalizedList(ctx.cfg, t.sources))
    && AllLibraries(ctx, SupportTargets(ctx, t, closure))
    && NoneExcluded(ctx, SupportSources(ctx, name, t, closure))
  }

  ghost function TestClosure(ctx: Context, name: string): set<string>
    requires name in ctx.g
  {
    ClosureSet(ctx.g, ctx.g[name].dependencies)
  }

  /** The tests that are kept. */
  ghost predicate Selected(ctx: Context, name: string) {
    && IsTest(ctx, name)
    && AllKnown(ctx.g, ctx.g[name].dependencies)
    && Keeps(ctx, name, TestClosure(ctx, name), ClosureSet(ctx.g, Explicit(ctx.g[name])))
  }

  datatype TestEntry = TestEntry(name: string, unit: bool, requiresEloq: bool,
                                 sources: set<string>, supportSources: set<string>)

  function EntryOf(ctx: Context, name: string, closure: set<string>): TestEntry
    requires name in ctx.g
  {
    var t := ctx.g[name];
    TestEntry(name, t.kind == UNIT_TEST, ELOQ <= name || (exists d | d in closure :: ELOQ <= d),
              NormalizedList(ctx.cfg, t.sources), SupportSources(ctx, name, t, closure))
  }

  /** Nothing a kept test needs is forbidden, and every source of what it needs, its main aside,
      is compiled for production or listed as support of the test. */
  lemma SelectedIsSupported(ctx: Context, name: string, d: string, s: string)
    requires Selected(ctx, name)
    requires Reachable(ctx.g, ctx.g[name].dependencies, d)
    ensures d in ctx.g && !StartsWithAny(d, ctx.cfg.forbiddenPrefixes)
    ensures d != MainTarget(ctx.g[name]) && s in NormalizedEach(ctx.cfg, SourcesOf(ctx.g, {d})) ==>
              || s in ProductionSources(ctx)
              || s in EntryOf(ctx, name, TestClosure(ctx, name)).supportSources
  {
    var closure := TestClosure(ctx, name);
    assert d in closure;
    if d != MainTarget(ctx.g[name]) && s in NormalizedEach(ctx.cfg, SourcesOf(ctx.g, {d})) {
      if d in ctx.production {
        NormalizedMember(ctx.cfg, ctx.g, ctx.production, d, s);
      } else {
        NormalizedMember(ctx.cfg, ctx.g, SupportTargets(ctx, ctx.g[name], closure), d, s);
      }
    }
  }

  // ----- The loop

  method SelectTest(ctx: Context, name: string) returns (r: Option<(TestEntry, set<string>)>)
    requires name in ctx.g
    ensures r.Some? <==> Selected(ctx, name)
    ensures r.Some? ==>
              && r.value.0 == EntryOf(ctx, name, TestClosure(ctx, name))
              && r.value.1 == SupportTargets(ctx, ctx.g[name], TestClosure(ctx, name))
  {
    var t := ctx.g[name];
    if !IsTest(ctx, name) {
      return None;
    }
    var closure := DependencyClosure(ctx.g, t.dependencies);
    var explicitClosure := DependencyClosure(ctx.g, Explicit(t));
    if closure.None? {
      return None;
    }
    ExplicitKnown(ctx.g, t);
    if !Keeps(ctx, name, closure.value, explicitClosure.value) {
      return None;
    }
    r := Some((EntryOf(ctx, name, closure.value), SupportTargets(ctx, t, closure.value)));
  }

  /** Fewer roots reach no more. */
  lemma ExplicitKnown(g: Targets, t: Target)
    requires AllKnown(g, t.dependencies)
    ensures AllKnown(g, Explicit(t))
  {}

  /** The names of the targets, sorted. */
  method SortedNames(g: Targets) returns (names: seq<string>)
    ensures StrictlySortedBy(names, StringLeq)
    ensures forall n :: n in names <==> n in g
  {
    names := [];
    var left := g.Keys;
    StringOrder();
    while left != {}
      invariant left <= g.Keys && StrictlySortedBy(names, StringLeq)
      invariant forall n :: n in names <==> n in g && n !in left
      decreases left
    {
      var n :| n in left;
      InsertStrict(n, names, StringLeq);
      names := Insert(n, names, StringLeq);
      left := left - {n};
    }
  }

  /** The entries of the kept tests, in the order of the names. */
  ghost function EntriesOf(ctx: Context, names: seq<string>): seq<TestEntry> {
    if names == [] then []
    else
      var before, n := EntriesOf(ctx, names[..|names| - 1]), names[|names| - 1];
      if Selected(ctx, n) then before + [EntryOf(ctx, n, TestClosure(ctx, n))] else before
  }

  ghost function SupportTargetsOf(ctx: Context, names: seq<string>): set<string> {
    if names == [] then {}
    else
      var before, n := SupportTargetsOf(ctx, names[..|names| - 1]), names[|names| - 1];
      if Selected(ctx, n) then before + SupportTargets(ctx, ctx.g[n], TestClosure(ctx, n)) else before
  }

  function AllSupport(tests: seq<TestEntry>): set<string> {
    set t, s | t in tests && s in t.supportSources :: s
  }

  /** The sources of all support targets were already listed test by test. */
  lemma {:induction false} SupportListedPerTest(ctx: Context, names: seq<string>)
    ensures NormalizedEach(ctx.cfg, SourcesOf(ctx.g, SupportTargetsOf(ctx, names))) - ProductionSources(ctx)
            <= AllSupport(EntriesOf(ctx, names))
  {
    if names == [] {
    } else {
      var before, n := names[..|names| - 1], names[|names| - 1];
      SupportListedPerTest(ctx, before);
      if Selected(ctx, n) {
        var entry := EntryOf(ctx, n, TestClosure(ctx, n));
        var targets := SupportTargets(ctx, ctx.g[n], TestClosure(ctx, n));
        NormalizedUnion(ctx.cfg, ctx.g, SupportTargetsOf(ctx, before), targets);
        AllSupportPush(EntriesOf(ctx, before), entry);
        assert NormalizedEach(ctx.cfg, SourcesOf(ctx.g, targets)) - ProductionSources(ctx) <= entry.supportSources;
      }
    }
  }

  lemma NormalizedUnion(cfg: Config, g: Targets, a: set<string>, b: set<string>)
    ensures NormalizedEach(cfg, SourcesOf(g, a + b)) ==
            NormalizedEach(cfg, SourcesOf(g, a)) + NormalizedEach(cfg, SourcesOf(g, b))
  {}

  lemma AllSupportPush(tests: seq<TestEntry>, t: TestEntry)
    ensures AllSupport(tests + [t]) == AllSupport(tests) + t.supportSources
  {}

  /** The kept tests by name, and as global support exactly the union of theirs. */
  method SelectTests(targets: Targets, production: set<string>, cfg: Config, parent: string -> string)
    returns (tests: seq<TestEntry>, support: set<string>, ghost names: seq<string>)
    requires FIXTURE in targets && production <= targets.Keys
    ensures StrictlySortedBy(names, StringLeq) && forall n :: n in names <==> n in targets
    ensures tests == EntriesOf(NewContext(targets, production, cfg, parent), names)
    ensures support == AllSupport(tests)
  {
    var ctx := NewContext(targets, production, cfg, parent);
    var sorted := SortedNames(ctx.g);
    names := sorted;
    tests := [];
    var supportTargets: set<string> := {};
    for i := 0 to |sorted|
      invariant tests == EntriesOf(ctx, sorted[..i])
      invariant supportTargets == SupportTargetsOf(ctx, sorted[..i])
    {
      assert sorted[i] in sorted;
      assert sorted[..i + 1][..i] == sorted[..i];
      var r := SelectTest(ctx, sorted[i]);
      if r.Some? {
        supportTargets := supportTargets + r.value.1;
        tests := tests + [r.value.0];
      }
    }
    assert sorted[..|sorted|] == sorted;
    SupportListedPerTest(ctx, sorted);
    support := NormalizedEach(ctx.cfg, SourcesOf(ctx.g, supportTargets)) - ProductionSources(ctx) + AllSupport(tests);
  }
}
