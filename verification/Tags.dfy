/** Lifecycle tags as text: making a tag of components, and reading the components back. */
module Tags {
  import opened Results
  import opened Reports

  /** Python's `s.split("|")`. */
  function Split(s: string): (r: seq<string>)
    ensures r != []
  {
    if s == "" then [""]
    else
      var rest := Split(s[1..]);
      if s[0] == '|' then [""] + rest else [[s[0]] + rest[0]] + rest[1..]
  }

  predicate Bare(name: string) { '|' !in name }

  /** A name that a tag can carry. */
  predicate Clean(name: string) { name != "" && Bare(name) }

  lemma {:induction false} SplitIsBare(s: string)
    ensures forall e | e in Split(s) :: Bare(e)
  {
    if s == "" {
    } else {
      SplitIsBare(s[1..]);
      var rest := Split(s[1..]);
      assert rest[0] in rest;
    }
  }

  lemma {:induction false} SplitWhole(a: string)
    requires Bare(a)
    ensures Split(a) == [a]
  {
    if a == "" {
    } else {
      assert a[0] in a;
      SplitWhole(a[1..]);
      assert a == [a[0]] + a[1..];
    }
  }

  lemma {:induction false} SplitFirst(a: string, b: string)
    requires Bare(a)
    ensures Split(a + "|" + b) == [a] + Split(b)
  {
    var s := a + "|" + b;
    if a == "" {
      assert s[1..] == b;
    } else {
      assert a[0] in a;
      SplitFirst(a[1..], b);
      assert s[1..] == a[1..] + "|" + b;
      assert a == [a[0]] + a[1..];
    }
  }

  const UNRELIABLE := "unreliable"

  function UnreliableTag(task: Field, variant: Field, distro: Field): string {
    if !task.Name? then UNRELIABLE
    else if !variant.Name? then UNRELIABLE + "|" + task.name
    else if !distro.Name? then UNRELIABLE + "|" + task.name + "|" + variant.name
    else UNRELIABLE + "|" + task.name + "|" + variant.name + "|" + distro.name
  }

  /** Task, variant and distro of a tag; None for what it does not have. */
  function SplitTag(tag: string): (r: seq<Option<string>>)
    ensures |r| == 3
  {
    var es := Split(tag);
    if es[0] != UNRELIABLE || |es| < 2 || |es| > 4 then [None, None, None]
    else seq(3, i requires 0 <= i < 3 => if i + 1 < |es| then Some(es[i + 1]) else None)
  }

  function PresentOne(e: Option<string>): seq<Field> {
    if e.Some? && e.value != "" then [Name(e.value)] else []
  }

  function Present(elements: seq<Option<string>>): seq<Field> {
    if elements == [] then [] else PresentOne(elements[0]) + Present(elements[1..])
  }

  /** The combination of components that a tag of `test` stands for. */
  function TagCombination(test: string, tag: string): seq<Field> {
    [Name(test)] + Present(SplitTag(tag))
  }

  /** The components up to the first one that has no name. */
  function NamedPrefix(fs: seq<Field>): seq<Field> {
    if fs == [] || !fs[0].Name? then [] else [fs[0]] + NamedPrefix(fs[1..])
  }

  predicate CleanNames(fs: seq<Field>) {
    forall f | f in fs :: f.Name? ==> Clean(f.name)
  }

  lemma {:induction false} PresentIsClean(elements: seq<Option<string>>)
    requires forall e | e in elements && e.Some? :: Bare(e.value)
    ensures |Present(elements)| <= |elements|
    ensures forall f | f in Present(elements) :: f.Name? && Clean(f.name)
  {
    if elements == [] {
    } else {
      PresentIsClean(elements[1..]);
    }
  }

  lemma CombinationIsClean(test: string, tag: string)
    ensures 1 <= |TagCombination(test, tag)| <= 4
    ensures forall f | f in TagCombination(test, tag)[1..] :: f.Name? && Clean(f.name)
  {
    SplitIsBare(tag);
    PresentIsClean(SplitTag(tag));
    assert TagCombination(test, tag)[1..] == Present(SplitTag(tag));
  }

  lemma SplitOne(a: string)
    requires Bare(a)
    ensures Split(UNRELIABLE + "|" + a) == [UNRELIABLE, a]
  {
    SplitFirst(UNRELIABLE, a);
    SplitWhole(a);
  }

  lemma SplitTwo(a: string, b: string)
    requires Bare(a) && Bare(b)
    ensures Split(UNRELIABLE + "|" + a + "|" + b) == [UNRELIABLE, a, b]
  {
    assert UNRELIABLE + "|" + a + "|" + b == UNRELIABLE + "|" + (a + "|" + b);
    SplitFirst(UNRELIABLE, a + "|" + b);
    SplitFirst(a, b);
    SplitWhole(b);
  }

  lemma SplitThree(a: string, b: string, c: string)
    requires Bare(a) && Bare(b) && Bare(c)
    ensures Split(UNRELIABLE + "|" + a + "|" + b + "|" + c) == [UNRELIABLE, a, b, c]
  {
    assert UNRELIABLE + "|" + a + "|" + b + "|" + c == UNRELIABLE + "|" + (a + "|" + (b + "|" + c));
    SplitFirst(UNRELIABLE, a + "|" + (b + "|" + c));
    SplitFirst(a, b + "|" + c);
    SplitFirst(b, c);
    SplitWhole(c);
  }

  /** A tag decodes to the components it was made from exactly when their names are clean. */
  lemma TagRoundTrip(test: string, task: Field, variant: Field, distro: Field)
    ensures var named := NamedPrefix([task, variant, distro]);
            TagCombination(test, UnreliableTag(task, variant, distro)) == [Name(test)] + named <==>
            CleanNames(named)
  {
    var tag := UnreliableTag(task, variant, distro);
    var named := NamedPrefix([task, variant, distro]);
    CombinationIsClean(test, tag);
    if TagCombination(test, tag) == [Name(test)] + named {
      assert ([Name(test)] + named)[1..] == named;
    }
    if CleanNames(named) { CleanTagDecodes(test, task, variant, distro); }
  }

  /** A marked tag stands for its non-empty elements. */
  lemma MarkedTag(test: string, tag: string, es: seq<string>)
    requires Split(tag) == es && 1 <= |es| <= 4 && es[0] == UNRELIABLE
    requires forall i | 1 <= i < |es| :: es[i] != ""
    ensures TagCombination(test, tag) == [Name(test)] + seq(|es| - 1, i requires 0 <= i < |es| - 1 => Name(es[i + 1]))
  {
    var a := if |es| > 1 then Some(es[1]) else None;
    var b := if |es| > 2 then Some(es[2]) else None;
    var c := if |es| > 3 then Some(es[3]) else None;
    assert SplitTag(tag) == [a, b, c];
    PresentOfThree(a, b, c);
  }

  function TagElements(task: Field, variant: Field, distro: Field): seq<string> {
    if !task.Name? then [UNRELIABLE]
    else if !variant.Name? then [UNRELIABLE, task.name]
    else if !distro.Name? then [UNRELIABLE, task.name, variant.name]
    else [UNRELIABLE, task.name, variant.name, distro.name]
  }

  lemma ElementsOfPrefix(task: Field, variant: Field, distro: Field)
    ensures var named, es := NamedPrefix([task, variant, distro]), TagElements(task, variant, distro);
            && |es| == |named| + 1 <= 4
            && es[0] == UNRELIABLE
            && (forall i | 0 <= i < |named| :: named[i] == Name(es[i + 1]))
  {
    NamedPrefixOfThree(task, variant, distro);
  }

  lemma SplitOfTag(task: Field, variant: Field, distro: Field)
    requires forall i | 1 <= i < |TagElements(task, variant, distro)| ::
               Bare(TagElements(task, variant, distro)[i])
    ensures Split(UnreliableTag(task, variant, distro)) == TagElements(task, variant, distro)
  {
    var es := TagElements(task, variant, distro);
    if !task.Name? {
      SplitWhole(UNRELIABLE);
    } else if !variant.Name? {
      assert es[1] == task.name;
      SplitOne(task.name);
    } else if !distro.Name? {
      assert es[1] == task.name && es[2] == variant.name;
      SplitTwo(task.name, variant.name);
    } else {
      assert es[1] == task.name && es[2] == variant.name && es[3] == distro.name;
      SplitThree(task.name, variant.name, distro.name);
    }
  }

  lemma CleanTagDecodes(test: string, task: Field, variant: Field, distro: Field)
    requires CleanNames(NamedPrefix([task, variant, distro]))
    ensures TagCombination(test, UnreliableTag(task, variant, distro)) ==
            [Name(test)] + NamedPrefix([task, variant, distro])
  {
    var named, es := NamedPrefix([task, variant, distro]), TagElements(task, variant, distro);
    ElementsOfPrefix(task, variant, distro);
    forall i | 1 <= i < |es| ensures Clean(es[i]) {
      assert named[i - 1] in named;
    }
    SplitOfTag(task, variant, distro);
    MarkedTag(test, UnreliableTag(task, variant, distro), es);
  }

  lemma PresentOfThree(a: Option<string>, b: Option<string>, c: Option<string>)
    ensures Present([a, b, c]) == PresentOne(a) + PresentOne(b) + PresentOne(c)
  {
    var x, y, z := PresentOne(a), PresentOne(b), PresentOne(c);
    assert [a, b, c][1..] == [b, c] && [b, c][1..] == [c] && [c][1..] == [];
    assert Present([c]) == z + [] == z;
    assert Present([b, c]) == y + z;
    assert x + (y + z) == x + y + z;
  }

  lemma NamedPrefixOfThree(a: Field, b: Field, c: Field)
    ensures NamedPrefix([a, b, c]) ==
            if !a.Name? then [] else if !b.Name? then [a] else if !c.Name? then [a, b] else [a, b, c]
  {
    assert [a, b, c][1..] == [b, c] && [b, c][1..] == [c] && [c][1..] == [];
    assert NamedPrefix([c]) == if c.Name? then [c] else [];
    assert NamedPrefix([b, c]) == if b.Name? then [b] + NamedPrefix([c]) else [];
  }
}
