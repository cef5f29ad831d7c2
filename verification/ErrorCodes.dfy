/** Assertion codes in source files: collecting them, finding the next free one, and replacing
    zero codes in place. */
module ErrorCodes {
  import opened Results
  import opened Sorting
  import opened Strings

  /** Where an assertion was found: the code starts at `offset` of the text of `file`. */
  datatype Location = Location(file: string, offset: nat, lines: string, code: string)

  type Files = map<string, string>

  // ----- Decimal numbers

  predicate IsDigit(c: char) { '0' <= c <= '9' }

  predicate AllDigits(s: string) { s != "" && forall i | 0 <= i < |s| :: IsDigit(s[i]) }

  function DigitValue(c: char): nat
    requires IsDigit(c)
  {
    c as int - '0' as int
  }

  function Digit(n: nat): char
    requires n < 10
  {
    ('0' as int + n) as char
  }

  /** Python's `int(s)` of decimal digits. */
  function ToInt(s: string): nat
    requires forall i | 0 <= i < |s| :: IsDigit(s[i])
  {
    if s == "" then 0 else 10 * ToInt(s[..|s| - 1]) + DigitValue(s[|s| - 1])
  }

  /** Python's `str(n)`. */
  function Str(n: nat): (s: string)
    ensures AllDigits(s)
    ensures n > 0 ==> s[0] != '0'
  {
    if n < 10 then [Digit(n)] else Str(n / 10) + [Digit(n % 10)]
  }

  lemma {:induction false} ToIntOfStr(n: nat)
    ensures ToInt(Str(n)) == n
  {
    if n < 10 {
      assert Str(n)[..0] == "";
    } else {
      ToIntOfStr(n / 10);
      assert Str(n)[..|Str(n)| - 1] == Str(n / 10);
    }
  }

  function Pow10(k: nat): nat { if k == 0 then 1 else 10 * Pow10(k - 1) }

  lemma Rearrange(a: int, p: int, b: int, d: int)
    ensures 10 * (a * p + b) + d == a * (10 * p) + (10 * b + d)
  {}

  lemma {:induction false} ToIntAppend(a: string, b: string)
    requires forall i | 0 <= i < |a| :: IsDigit(a[i])
    requires forall i | 0 <= i < |b| :: IsDigit(b[i])
    ensures forall i | 0 <= i < |a + b| :: IsDigit((a + b)[i])
    ensures ToInt(a + b) == ToInt(a) * Pow10(|b|) + ToInt(b)
  {
    if b == "" {
      assert a + b == a;
    } else {
      var b' := b[..|b| - 1];
      ToIntAppend(a, b');
      assert (a + b)[..|a + b| - 1] == a + b';
      assert (a + b)[|a + b| - 1] == b[|b| - 1];
      Rearrange(ToInt(a), Pow10(|b'|), ToInt(b'), DigitValue(b[|b| - 1]));
    }
  }

  lemma TailOfZero(code: string)
    requires AllDigits(code) && ToInt(code) == 0
    ensures ToInt(code[1..]) == 0
  {
    ToIntAppend(code[..1], code[1..]);
    assert code == code[..1] + code[1..];
    assert ToInt(code[..1]) * Pow10(|code[1..]|) >= 0;
  }

  /** After a zero code is overwritten at its first digit, the number there reads as the new
      code exactly when the zero was written as a single digit. */
  lemma ReadBack(code: string, n: nat)
    requires AllDigits(code) && ToInt(code) == 0 && n > 0
    ensures AllDigits(Str(n) + code[1..])
    ensures ToInt(Str(n) + code[1..]) == n <==> code == "0"
  {
    var tail := code[1..];
    TailOfZero(code);
    ToIntOfStr(n);
    ToIntAppend(Str(n), tail);
    assert ToInt(Str(n) + tail) == n * Pow10(|tail|);
    if |code| == 1 {
      assert Pow10(|tail|) == 1;
      SingleDigit(code);
    } else {
      PowAtLeastTen(|tail|);
      LargerProduct(n, Pow10(|tail|));
    }
  }

  lemma SingleDigit(code: string)
    requires AllDigits(code) && |code| == 1 && ToInt(code) == 0
    ensures code == "0"
  {}

  lemma {:induction false} PowAtLeastTen(k: nat)
    requires k > 0
    ensures Pow10(k) >= 10
  {
    if k <= 1 {
    } else {
      PowAtLeastTen(k - 1);
    }
  }

  lemma LargerProduct(n: nat, p: nat)
    requires n > 0 && p > 1
    ensures n * p > n
  {}

  // ----- Collecting codes

  /** How many of the locations have this code. */
  function Count(found: seq<Location>, code: string): nat {
    if found == [] then 0
    else
      Count(found[..|found| - 1], code) + if found[|found| - 1].code == code then 1 else 0
  }

  lemma CountPush(found: seq<Location>, l: Location, code: string)
    ensures Count(found + [l], code) == Count(found, code) + if l.code == code then 1 else 0
  {}

  lemma {:induction false} CountMember(found: seq<Location>, l: Location)
    requires l in found
    ensures Count(found, l.code) >= 1
  {
    if l in found[..|found| - 1] { CountMember(found[..|found| - 1], l); }
  }

  /** `seen` holds the first location of each code. */
  ghost predicate SeenFirst(found: seq<Location>, seen: map<string, Location>) {
    && (forall c :: c in seen <==> Count(found, c) >= 1)
    && (forall c | c in seen :: seen[c] in found && seen[c].code == c)
    && (forall l | l in found && Count(found, l.code) == 1 :: l.code in seen && seen[l.code] == l)
  }

  lemma SeenStep(found: seq<Location>, seen: map<string, Location>, l: Location)
    requires SeenFirst(found, seen)
    ensures SeenFirst(found + [l], if l.code in seen then seen else seen[l.code := l])
  {
    var next, seen' := found + [l], if l.code in seen then seen else seen[l.code := l];
    forall c ensures Count(next, c) == Count(found, c) + if l.code == c then 1 else 0 {
      CountPush(found, l, c);
    }
    assert forall c :: c in seen' <==> Count(next, c) >= 1;
    assert forall c | c in seen' :: seen'[c] in next && seen'[c].code == c;
    forall x | x in next && Count(next, x.code) == 1 ensures x.code in seen' && seen'[x.code] == x {
      if x in found { CountMember(found, x); }
    }
  }

  /** `errors` holds the locations of the codes that were found twice or more. */
  ghost predicate ErrorsTwice(found: seq<Location>, errors: seq<Location>) {
    forall l :: l in errors <==> l in found && Count(found, l.code) >= 2
  }

  lemma ErrorsStep(found: seq<Location>, seen: map<string, Location>, errors: seq<Location>, l: Location)
    requires SeenFirst(found, seen) && ErrorsTwice(found, errors)
    ensures ErrorsTwice(found + [l],
                        if l.code !in seen then errors
                        else if Count(found, l.code) == 1 then errors + [seen[l.code]] + [l]
                        else errors + [l])
  {}

  ghost predicate DupsTwice(found: seq<Location>, dups: set<string>) {
    forall c :: c in dups <==> Count(found, c) >= 2
  }

  lemma DupsStep(found: seq<Location>, dups: set<string>, l: Location)
    requires DupsTwice(found, dups)
    ensures DupsTwice(found + [l], if Count(found, l.code) == 1 then dups + {l.code} else dups)
  {}

  ghost predicate Recorded(found: seq<Location>, i: nat, seen: map<string, Location>, dups: set<string>,
                           errors: seq<Location>)
    requires i <= |found|
  {
    SeenFirst(found[..i], seen) && DupsTwice(found[..i], dups) && ErrorsTwice(found[..i], errors)
  }

  /** The callback on location `i`. */
  method CheckDups(found: seq<Location>, i: nat, seen: map<string, Location>, dups: set<string>,
                   errors: seq<Location>)
    returns (seen': map<string, Location>, dups': set<string>, errors': seq<Location>)
    requires i < |found| && Recorded(found, i, seen, dups, errors)
    ensures Recorded(found, i + 1, seen', dups', errors')
  {
    var l := found[i];
    seen', dups', errors' := seen, dups, errors;
    assert found[..i + 1] == found[..i] + [l];
    SeenStep(found[..i], seen, l);
    DupsStep(found[..i], dups, l);
    ErrorsStep(found[..i], seen, errors, l);
    if l.code !in seen {
      seen' := seen[l.code := l];
    } else {
      if l.code !in dups {
        errors' := errors' + [seen[l.code]];
        dups' := dups + {l.code};
      }
      errors' := errors' + [l];
    }
  }

  /** The callback on every location. */
  method CheckAll(found: seq<Location>) returns (seen: map<string, Location>, errors: seq<Location>)
    ensures SeenFirst(found, seen) && ErrorsTwice(found, errors)
  {
    seen, errors := map[], [];
    var dups: set<string> := {};
    for i := 0 to |found|
      invariant Recorded(found, i, seen, dups, errors)
    {
      seen, dups, errors := CheckDups(found, i, seen, dups, errors);
    }
    assert found[..|found|] == found;
  }

  /** The errors are exactly the locations whose code is "0" or is found more than once. */
  method ReadErrorCodes(codes0: seq<Location>, found: seq<Location>)
    returns (codes: seq<Location>, errors: seq<Location>)
    ensures codes == codes0 + found
    ensures forall l :: l in errors <==> l in found && (l.code == "0" || Count(found, l.code) >= 2)
  {
    codes := codes0 + found;
    var seen;
    seen, errors := CheckAll(found);
    ZeroIsError(found, seen, errors);
    if "0" in seen {
      errors := errors + [seen["0"]];
    }
  }

  lemma ZeroIsError(found: seq<Location>, seen: map<string, Location>, errors: seq<Location>)
    requires SeenFirst(found, seen) && ErrorsTwice(found, errors)
    ensures var all := if "0" in seen then errors + [seen["0"]] else errors;
            forall l :: l in all <==> l in found && (l.code == "0" || Count(found, l.code) >= 2)
  {
    forall l | l in found ensures Count(found, l.code) >= 1 { CountMember(found, l); }
  }

  function CodeValue(l: Location): nat
    requires AllDigits(l.code)
  {
    ToInt(l.code)
  }

  /** One more than the largest code. Fewer than two codes leave `reduce` with nothing or with a
      string, and adding to it raises a TypeError. */
  method GetNextCode(codes: seq<Location>) returns (r: Result<nat>)
    requires forall i | 0 <= i < |codes| :: AllDigits(codes[i].code)
    ensures r.Success? <==> |codes| >= 2
    ensures r.Success? ==> exists i | 0 <= i < |codes| :: r.value == CodeValue(codes[i]) + 1
    ensures r.Success? ==> forall i | 0 <= i < |codes| :: CodeValue(codes[i]) < r.value
  {
    if |codes| < 2 {
      return Failure("TypeError");
    }
    var highest := CodeValue(codes[0]);
    for i := 1 to |codes|
      invariant forall k | 0 <= k < i :: CodeValue(codes[k]) <= highest
      invariant exists k | 0 <= k < i :: highest + 1 == CodeValue(codes[k]) + 1
    {
      if CodeValue(codes[i]) > highest {
        highest := CodeValue(codes[i]);
      }
    }
    r := Success(highest + 1);
  }

  // ----- Replacing zero codes

  /** A place in a file, and the codes that places are given. */
  datatype Site = Site(file: string, offset: nat)

  type Assignment = map<Site, nat>

  function SiteOf(l: Location): Site { Site(l.file, l.offset) }

  /** What stands for character `i`. */
  function Piece(text: string, file: string, i: nat, m: Assignment): (p: string)
    requires i < |text|
    ensures p != ""
  {
    if Site(file, i) in m then Str(m[Site(file, i)]) else [text[i]]
  }

  /** The text of `file` from `i` on, with every site replaced at once. */
  function Substituted(text: string, file: string, i: nat, m: Assignment): string
    requires i <= |text|
    decreases |text| - i
  {
    if i == |text| then ""
    else Piece(text, file, i, m) + Substituted(text, file, i + 1, m)
  }

  function SubstitutedFiles(files: Files, m: Assignment): Files {
    map f | f in files :: Substituted(files[f], f, 0, m)
  }

  /** No site of the file comes before `o`. */
  ghost predicate NoneBefore(file: string, o: nat, m: Assignment) {
    forall site | site in m && site.file == file :: site.offset >= o
  }

  /** No site of the file lies from `i` up to `o`. */
  ghost predicate NoSites(file: string, i: nat, o: nat, m: Assignment) {
    forall k | i <= k < o :: Site(file, k) !in m
  }

  lemma {:induction false} SubstitutedPrefix(text: string, file: string, i: nat, o: nat, m: Assignment)
    requires i <= o <= |text| && NoSites(file, i, o, m)
    ensures Substituted(text, file, i, m) == text[i..o] + Substituted(text, file, o, m)
    decreases o - i
  {
    if i == o {
    } else {
      SubstitutedPrefix(text, file, i + 1, o, m);
      assert Site(file, i) !in m;
      TextJoin(text, i, o, Substituted(text, file, o, m));
    }
  }

  lemma TextJoin(text: string, i: nat, o: nat, rest: string)
    requires i < o <= |text|
    ensures [text[i]] + (text[i + 1..o] + rest) == text[i..o] + rest
  {
    assert [text[i]] + text[i + 1..o] == text[i..o];
  }

  lemma {:induction false} SubstitutedSame(text: string, file: string, i: nat, m: Assignment, site: Site, n: nat)
    requires i <= |text| && (site.file != file || site.offset < i)
    ensures Substituted(text, file, i, m[site := n]) == Substituted(text, file, i, m)
    decreases |text| - i
  {
    if i == |text| {
    } else {
      SubstitutedSame(text, file, i + 1, m, site, n);
    }
  }

  lemma SubstitutedAround(text: string, file: string, o: nat, m: Assignment)
    requires o < |text| && NoneBefore(file, o, m)
    ensures Substituted(text, file, 0, m) ==
            text[..o] + (Piece(text, file, o, m) + Substituted(text, file, o + 1, m))
  {
    SubstitutedPrefix(text, file, 0, o, m);
    assert text[0..o] == text[..o];
  }

  lemma Splice(a: string, c: string, b: string)
    requires c != ""
    ensures var s := a + (c + b);
            && |a| < |s| && s[|a|] == c[0] && s[..|a|] == a
            && (|c| == 1 ==> s[|a| + 1..] == b)
  {}

  /** One replacement in text that has been substituted from `o` on. */
  lemma ReplaceOne(text: string, file: string, o: nat, m: Assignment, n: nat)
    requires o < |text| && NoneBefore(file, o, m) && Site(file, o) !in m
    ensures var now := Substituted(text, file, 0, m);
            && o < |now| && now[o] == text[o]
            && now[..o] + Str(n) + now[o + 1..] == Substituted(text, file, 0, m[Site(file, o) := n])
  {
    var m' := m[Site(file, o) := n];
    var rest := Substituted(text, file, o + 1, m);
    assert Substituted(text, file, 0, m) == text[..o] + ([text[o]] + rest) by {
      SubstitutedAround(text, file, o, m);
    }
    assert Substituted(text, file, 0, m') == text[..o] + (Str(n) + rest) by {
      SubstitutedAround(text, file, o, m');
      SubstitutedSame(text, file, o + 1, m, Site(file, o), n);
    }
    Splice(text[..o], [text[o]], rest);
    Associative(text[..o], Str(n), rest);
  }

  lemma Associative(a: string, b: string, c: string)
    ensures a + b + c == a + (b + c)
  {}

  /** A place that has already been given a code no longer starts with a zero. */
  lemma ReplacedIsNotZero(text: string, file: string, o: nat, m: Assignment)
    requires o < |text| && NoneBefore(file, o, m) && Site(file, o) in m && m[Site(file, o)] > 0
    ensures var now := Substituted(text, file, 0, m);
            o < |now| && now[o] != '0'
  {
    SubstitutedAround(text, file, o, m);
    Splice(text[..o], Piece(text, file, o, m), Substituted(text, file, o + 1, m));
  }

  // ----- The order of replacement

  /** The order of the location tuples. */
  predicate LocationLeq(a: Location, b: Location) {
    if a.file != b.file then StringLeq(a.file, b.file)
    else if a.offset != b.offset then a.offset < b.offset
    else if a.lines != b.lines then StringLeq(a.lines, b.lines)
    else StringLeq(a.code, b.code)
  }

  lemma LocationOrder()
    ensures TotalPreorder(LocationLeq)
  {
    StringOrder();
  }

  function Distinct(ls: seq<Location>): (r: seq<Location>)
    ensures forall l :: l in r <==> l in ls
    ensures forall i, j | 0 <= i < j < |r| :: r[i] != r[j]
  {
    if ls == [] then []
    else
      var rest := Distinct(ls[1..]);
      if ls[0] in rest then rest else [ls[0]] + rest
  }

  function ZeroErrors(errors: seq<Location>): (r: seq<Location>)
    requires forall l | l in errors :: AllDigits(l.code)
    ensures forall l :: l in r <==> l in errors && CodeValue(l) == 0
  {
    if errors == [] then []
    else if CodeValue(errors[0]) == 0 then [errors[0]] + ZeroErrors(errors[1..])
    else ZeroErrors(errors[1..])
  }

  /** `reversed(sorted(set(zero_errors)))` */
  function ReplacementOrder(errors: seq<Location>): seq<Location>
    requires forall l | l in errors :: AllDigits(l.code)
  {
    Reversed(Sort(Distinct(ZeroErrors(errors)), LocationLeq))
  }

  ghost predicate Descending(order: seq<Location>) {
    forall i, j | 0 <= i < j < |order| && order[i].file == order[j].file :: order[i].offset >= order[j].offset
  }

  lemma SortedDescends(sorted: seq<Location>)
    requires SortedBy(sorted, LocationLeq)
    ensures Descending(Reversed(sorted))
  {}

  lemma OrderHasNoRepeats(errors: seq<Location>)
    requires forall l | l in errors :: AllDigits(l.code)
    ensures var order := ReplacementOrder(errors);
            forall i, j | 0 <= i < j < |order| :: order[i] != order[j]
  {
    var once := Distinct(ZeroErrors(errors));
    var sorted := Sort(once, LocationLeq);
    SortPermutes(once, LocationLeq);
    OnceEach(once, sorted);
    forall i, j | 0 <= i < j < |sorted| ensures Reversed(sorted)[i] != Reversed(sorted)[j] {
      assert sorted[|sorted| - 1 - j] != sorted[|sorted| - 1 - i];
    }
  }

  /** A permutation of a list without repetitions has none. */
  lemma OnceEach(once: seq<Location>, s: seq<Location>)
    requires multiset(s) == multiset(once) && forall i, j | 0 <= i < j < |once| :: once[i] != once[j]
    ensures forall i, j | 0 <= i < j < |s| :: s[i] != s[j]
  {
    forall l: Location ensures multiset(once)[l] <= 1 { CountedOnce(once, l); }
    forall i, j | 0 <= i < j < |s| ensures s[i] != s[j] {
      if s[i] == s[j] { CountedTwice(s, i, j); }
    }
  }

  lemma {:induction false} CountedOnce(once: seq<Location>, l: Location)
    requires forall i, j | 0 <= i < j < |once| :: once[i] != once[j]
    ensures multiset(once)[l] <= 1
  {
    if once == [] {
    } else {
      assert once == [once[0]] + once[1..];
      CountedOnce(once[1..], l);
      if l == once[0] { assert l !in once[1..]; }
    }
  }

  lemma CountedTwice(s: seq<Location>, i: nat, j: nat)
    requires i < j < |s| && s[i] == s[j]
    ensures multiset(s)[s[i]] >= 2
  {
    assert s == s[..j] + ([s[j]] + s[j + 1..]);
    assert s[i] in s[..j];
  }

  lemma OrderDescends(errors: seq<Location>)
    requires forall l | l in errors :: AllDigits(l.code)
    ensures Descending(ReplacementOrder(errors))
    ensures forall l :: l in ReplacementOrder(errors) <==> l in errors && CodeValue(l) == 0
  {
    var distinct := Distinct(ZeroErrors(errors));
    LocationOrder();
    SortSorts(distinct, LocationLeq);
    SortedDescends(Sort(distinct, LocationLeq));
    SortMembers(distinct, LocationLeq);
    ReversedMembers(Sort(distinct, LocationLeq));
  }

  /** The codes handed out to the first `k` locations. */
  function HandedOut(order: seq<Location>, k: nat, next: nat): Assignment
    requires k <= |order|
  {
    if k == 0 then map[]
    else HandedOut(order, k - 1, next)[SiteOf(order[k - 1]) := next + k - 1]
  }

  /** One of the first `k` locations is at this site. */
  predicate Given(order: seq<Location>, k: nat, site: Site)
    requires k <= |order|
  {
    exists i | 0 <= i < k :: SiteOf(order[i]) == site
  }

  lemma {:induction false} HandedOutSites(order: seq<Location>, k: nat, next: nat, site: Site)
    requires k <= |order|
    ensures site in HandedOut(order, k, next) <==> Given(order, k, site)
    ensures site in HandedOut(order, k, next) ==> next <= HandedOut(order, k, next)[site] < next + k
  {
    if k == 0 {
    } else {
      HandedOutSites(order, k - 1, next, site);
      if Given(order, k, site) {
        var i :| 0 <= i < k && SiteOf(order[i]) == site;
        assert i < k - 1 ==> Given(order, k - 1, site);
      }
      if Given(order, k - 1, site) {
        var i :| 0 <= i < k - 1 && SiteOf(order[i]) == site;
      }
      assert site == SiteOf(order[k - 1]) ==> Given(order, k, site);
    }
  }

  /** The first `k` locations are all at different sites. */
  ghost predicate DistinctSites(order: seq<Location>, k: nat)
    requires k <= |order|
  {
    forall i, j | 0 <= i < j < k :: SiteOf(order[i]) != SiteOf(order[j])
  }

  /** Every location gets its own code, from `next` on. */
  lemma {:induction false} HandedOutDistinct(order: seq<Location>, k: nat, next: nat, i: nat)
    requires i < k <= |order| && DistinctSites(order, k)
    ensures SiteOf(order[i]) in HandedOut(order, k, next)
    ensures HandedOut(order, k, next)[SiteOf(order[i])] == next + i
  {
    var before, last := HandedOut(order, k - 1, next), SiteOf(order[k - 1]);
    assert HandedOut(order, k, next) == before[last := next + k - 1];
    if i == k - 1 {
    } else {
      HandedOutDistinct(order, k - 1, next, i);
      assert SiteOf(order[i]) != last;
      assert before[last := next + k - 1][SiteOf(order[i])] == before[SiteOf(order[i])];
    }
  }

  /** The error was found in the file as it is: the code stands at its offset. */
  ghost predicate FoundIn(l: Location, files: Files) {
    && AllDigits(l.code)
    && l.file in files
    && l.offset + |l.code| <= |files[l.file]|
    && files[l.file][l.offset..l.offset + |l.code|] == l.code
  }

  lemma {:induction false} ZeroStartsWithZero(code: string)
    requires AllDigits(code) && ToInt(code) == 0
    ensures code[0] == '0'
  {
    if |code| > 1 {
      ZeroStartsWithZero(code[..|code| - 1]);
      assert code[..|code| - 1][0] == code[0];
    } else {
      SingleDigit(code);
    }
  }

  /** Written from the start of a file opened for update, over what was there. */
  function Overwritten(before: string, written: string): string {
    written + if |before| > |written| then before[|written|..] else ""
  }

  lemma NothingSubstituted(files: Files)
    ensures SubstitutedFiles(files, map[]) == files
  {
    forall f | f in files ensures Substituted(files[f], f, 0, map[]) == files[f] {
      SubstitutedPrefix(files[f], f, 0, |files[f]|, map[]);
      assert files[f][0..|files[f]|] == files[f];
    }
  }

  lemma HandedOutAfter(order: seq<Location>, k: nat, next: nat)
    requires Descending(order) && k < |order|
    ensures NoneBefore(order[k].file, order[k].offset, HandedOut(order, k, next))
    ensures SiteOf(order[k]) in HandedOut(order, k, next) ==> !DistinctSites(order, |order|)
    ensures DistinctSites(order, k) && SiteOf(order[k]) !in HandedOut(order, k, next) ==>
              DistinctSites(order, k + 1)
  {
    var m := HandedOut(order, k, next);
    forall site | site in m && site.file == order[k].file ensures site.offset >= order[k].offset {
      HandedOutSites(order, k, next, site);
      var i :| 0 <= i < k && SiteOf(order[i]) == site;
    }
    HandedOutSites(order, k, next, SiteOf(order[k]));
    if DistinctSites(order, k) && SiteOf(order[k]) !in m {
      assert !Given(order, k, SiteOf(order[k]));
    }
  }

  /** What the loop finds and leaves at the next place. */
  lemma PlaceInOrder(order: seq<Location>, k: nat, next: nat, files: Files)
    requires Descending(order) && k < |order| && next > 0
    requires FoundIn(order[k], files) && CodeValue(order[k]) == 0
    ensures var l, m := order[k], HandedOut(order, k, next);
            var now := Substituted(files[l.file], l.file, 0, m);
            && l.offset < |now|
            && (now[l.offset] == '0' <==> SiteOf(l) !in m)
            && (SiteOf(l) !in m ==>
                  now[..l.offset] + Str(next + k) + now[l.offset + 1..] ==
                  Substituted(files[l.file], l.file, 0, HandedOut(order, k + 1, next)))
  {
    var l, m := order[k], HandedOut(order, k, next);
    var text := files[l.file];
    HandedOutAfter(order, k, next);
    HandedOutSites(order, k, next, SiteOf(l));
    ZeroStartsWithZero(l.code);
    assert text[l.offset] == text[l.offset..l.offset + |l.code|][0] == '0';
    if SiteOf(l) in m {
      ReplacedIsNotZero(text, l.file, l.offset, m);
    } else {
      ReplaceOne(text, l.file, l.offset, m, next + k);
    }
  }

  /** One round of the loop, on all files. */
  lemma ReplaceInFiles(order: seq<Location>, k: nat, next: nat, files: Files)
    requires Descending(order) && k < |order| && next > 0
    requires FoundIn(order[k], files) && CodeValue(order[k]) == 0
    requires SiteOf(order[k]) !in HandedOut(order, k, next)
    ensures var l, now := order[k], SubstitutedFiles(files, HandedOut(order, k, next));
            var text := now[l.file];
            && l.offset < |text|
            && now[l.file := text[..l.offset] + Str(next + k) + text[l.offset + 1..]] ==
               SubstitutedFiles(files, HandedOut(order, k + 1, next))
  {
    PlaceInOrder(order, k, next, files);
    var l, m := order[k], HandedOut(order, k, next);
    forall f | f in files && f != l.file
      ensures Substituted(files[f], f, 0, HandedOut(order, k + 1, next)) == Substituted(files[f], f, 0, m)
    {
      SubstitutedSame(files[f], f, 0, m, SiteOf(l), next + k);
    }
  }

  lemma OverwrittenWhole(text: string, o: nat, code: string)
    requires o < |text| && code != ""
    ensures var written := text[..o] + code + text[o + 1..];
            Overwritten(text, written) == written
  {}

  /** Replaces the zero codes one by one, from the last place on. The assertion that the place
      holds a zero fails exactly when two errors share a place; otherwise the files end up with
      every place replaced at once, by the codes from `next` on. */
  method ReplaceBadCodes(errors: seq<Location>, next: nat, files: Files) returns (r: Result<Files>)
    requires next > 0
    requires forall l | l in errors :: AllDigits(l.code)
    requires forall l | l in errors :: FoundIn(l, files)
    ensures r.Success? <==> DistinctSites(ReplacementOrder(errors), |ReplacementOrder(errors)|)
    ensures r.Success? ==>
              r.value == SubstitutedFiles(files, HandedOut(ReplacementOrder(errors), |ReplacementOrder(errors)|, next))
  {
    var order := ReplacementOrder(errors);
    OrderDescends(errors);
    forall i | 0 <= i < |order| ensures ZeroAt(order, i, files) { assert order[i] in order; }
    r := ReplaceInOrder(order, next, files);
  }

  /** The read, the assertion and the write for one location. */
  method ReplaceAt(files: Files, l: Location, code: string) returns (r: Result<Files>)
    requires l.file in files && l.offset < |files[l.file]| && code != ""
    ensures r.Success? <==> files[l.file][l.offset] == '0'
    ensures r.Success? ==>
              r.value == files[l.file := files[l.file][..l.offset] + code + files[l.file][l.offset + 1..]]
  {
    var text := files[l.file];
    if text[l.offset] != '0' {
      return Failure("AssertionError");
    }
    OverwrittenWhole(text, l.offset, code);
    r := Success(files[l.file := Overwritten(text, text[..l.offset] + code + text[l.offset + 1..])]);
  }

  /** What one round of the loop meets and leaves. */
  lemma Round(order: seq<Location>, k: nat, next: nat, files: Files)
    requires Descending(order) && k < |order| && next > 0
    requires FoundIn(order[k], files) && CodeValue(order[k]) == 0
    requires DistinctSites(order, k)
    ensures var l, now := order[k], SubstitutedFiles(files, HandedOut(order, k, next));
            && l.file in now && l.offset < |now[l.file]|
            && (now[l.file][l.offset] != '0' ==> !DistinctSites(order, |order|))
            && (now[l.file][l.offset] == '0' ==>
                  && DistinctSites(order, k + 1)
                  && now[l.file := now[l.file][..l.offset] + Str(next + k) + now[l.file][l.offset + 1..]] ==
                     SubstitutedFiles(files, HandedOut(order, k + 1, next)))
  {
    PlaceInOrder(order, k, next, files);
    HandedOutAfter(order, k, next);
    if SiteOf(order[k]) !in HandedOut(order, k, next) { ReplaceInFiles(order, k, next, files); }
  }

  /** Location `i` was found in the files, with a zero code. */
  ghost predicate ZeroAt(order: seq<Location>, i: nat, files: Files)
    requires i < |order|
  {
    FoundIn(order[i], files) && CodeValue(order[i]) == 0
  }

  /** The files after the first `k` locations. */
  ghost predicate ReplacedUpTo(order: seq<Location>, k: nat, next: nat, files: Files, current: Files)
    requires k <= |order|
  {
    DistinctSites(order, k) && current == SubstitutedFiles(files, HandedOut(order, k, next))
  }

  lemma NothingReplaced(order: seq<Location>, next: nat, files: Files)
    ensures ReplacedUpTo(order, 0, next, files, files)
  {
    NothingSubstituted(files);
  }

  /** One round of the loop. */
  method ReplaceNext(order: seq<Location>, k: nat, next: nat, current: Files, ghost files: Files)
    returns (r: Result<Files>)
    requires k < |order| && next > 0 && Descending(order)
    requires ZeroAt(order, k, files)
    requires ReplacedUpTo(order, k, next, files, current)
    ensures r.Failure? ==> !DistinctSites(order, |order|)
    ensures r.Success? ==> ReplacedUpTo(order, k + 1, next, files, r.value)
  {
    Round(order, k, next, files);
    r := ReplaceAt(current, order[k], Str(next + k));
  }

  method ReplaceInOrder(order: seq<Location>, next: nat, files: Files) returns (r: Result<Files>)
    requires next > 0 && Descending(order)
    requires forall i | 0 <= i < |order| :: ZeroAt(order, i, files)
    ensures r.Success? <==> DistinctSites(order, |order|)
    ensures r.Success? ==> ReplacedUpTo(order, |order|, next, files, r.value)
  {
    NothingReplaced(order, next, files);
    r := Success(files);
    for k := 0 to |order|
      invariant r.Success? && ReplacedUpTo(order, k, next, files, r.value)
    {
      r := ReplaceNext(order, k, next, r.value, files);
      if r.Failure? {
        return;
      }
    }
  }

  // ----- The fix as a whole

  ghost predicate Injective(m: Assignment) {
    forall a, b | a in m && b in m && a != b :: m[a] != m[b]
  }

  lemma HandedOutInjective(order: seq<Location>, next: nat)
    requires DistinctSites(order, |order|)
    ensures Injective(HandedOut(order, |order|, next))
  {
    var m := HandedOut(order, |order|, next);
    forall a, b | a in m && b in m && a != b ensures m[a] != m[b] {
      HandedOutSites(order, |order|, next, a);
      HandedOutSites(order, |order|, next, b);
      var i :| 0 <= i < |order| && SiteOf(order[i]) == a;
      var j :| 0 <= j < |order| && SiteOf(order[j]) == b;
      HandedOutDistinct(order, |order|, next, i);
      HandedOutDistinct(order, |order|, next, j);
    }
  }

  /** A zero code that the fix rewrites: "0", or another zero that is found more than once. */
  predicate Rewritten(found: seq<Location>, i: nat)
    requires i < |found| && AllDigits(found[i].code)
  {
    CodeValue(found[i]) == 0 && (found[i].code == "0" || Count(found, found[i].code) >= 2)
  }

  ghost predicate SomeRewritten(found: seq<Location>, site: Site)
    requires forall i | 0 <= i < |found| :: AllDigits(found[i].code)
  {
    exists i | 0 <= i < |found| :: SiteOf(found[i]) == site && Rewritten(found, i)
  }

  /** No two different zero codes start at the same place. */
  ghost predicate ZerosApart(found: seq<Location>)
    requires forall i | 0 <= i < |found| :: AllDigits(found[i].code)
  {
    forall i, j | 0 <= i < |found| && 0 <= j < |found| && SiteOf(found[i]) == SiteOf(found[j]) ::
      Rewritten(found, i) && Rewritten(found, j) ==> found[i] == found[j]
  }

  /** What the fix promises of the codes it hands out, given everything that was found. */
  ghost predicate FreshCodes(m: Assignment, found: seq<Location>)
    requires forall i | 0 <= i < |found| :: AllDigits(found[i].code)
  {
    && Injective(m)
    && (forall site, i | site in m && 0 <= i < |found| :: m[site] > CodeValue(found[i]))
    && (forall site :: site in m <==> SomeRewritten(found, site))
  }

  ghost predicate AreErrors(errors: seq<Location>, found: seq<Location>) {
    forall l :: l in errors <==> l in found && (l.code == "0" || Count(found, l.code) >= 2)
  }

  /** What is put in order are the zero codes to rewrite, once each. */
  lemma OrderIsRewritten(found: seq<Location>, errors: seq<Location>)
    requires forall i | 0 <= i < |found| :: AllDigits(found[i].code)
    requires forall l | l in errors :: AllDigits(l.code)
    requires AreErrors(errors, found)
    ensures OrdersRewritten(ReplacementOrder(errors), found)
    ensures forall i, j | 0 <= i < j < |ReplacementOrder(errors)| ::
              ReplacementOrder(errors)[i] != ReplacementOrder(errors)[j]
  {
    OrderDescends(errors);
    OrderHasNoRepeats(errors);
  }

  lemma SitesApart(found: seq<Location>, errors: seq<Location>)
    requires forall i | 0 <= i < |found| :: AllDigits(found[i].code)
    requires forall l | l in errors :: AllDigits(l.code)
    requires AreErrors(errors, found)
    ensures DistinctSites(ReplacementOrder(errors), |ReplacementOrder(errors)|) <==> ZerosApart(found)
  {
    var order := ReplacementOrder(errors);
    OrderIsRewritten(found, errors);
    if ZerosApart(found) {
      forall i, j | 0 <= i < j < |order| ensures SiteOf(order[i]) != SiteOf(order[j]) {
        assert order[i] in order && order[j] in order;
        var a :| 0 <= a < |found| && found[a] == order[i];
        var b :| 0 <= b < |found| && found[b] == order[j];
        assert Rewritten(found, a) && Rewritten(found, b);
      }
    }
    if DistinctSites(order, |order|) {
      forall a, b | 0 <= a < |found| && 0 <= b < |found| && SiteOf(found[a]) == SiteOf(found[b]) &&
                    Rewritten(found, a) && Rewritten(found, b)
        ensures found[a] == found[b]
      {
        var i :| 0 <= i < |order| && order[i] == found[a];
        var j :| 0 <= j < |order| && order[j] == found[b];
      }
    }
  }

  ghost predicate OrdersRewritten(order: seq<Location>, found: seq<Location>)
    requires forall i | 0 <= i < |found| :: AllDigits(found[i].code)
  {
    && (forall i | 0 <= i < |found| :: found[i] in order <==> Rewritten(found, i))
    && (forall l | l in order :: l in found)
  }

  lemma GivenIsRewritten(found: seq<Location>, order: seq<Location>, site: Site)
    requires forall i | 0 <= i < |found| :: AllDigits(found[i].code)
    requires OrdersRewritten(order, found) && Given(order, |order|, site)
    ensures SomeRewritten(found, site)
  {
    var i :| 0 <= i < |order| && SiteOf(order[i]) == site;
    assert order[i] in order;
    var a :| 0 <= a < |found| && found[a] == order[i];
    assert Rewritten(found, a);
  }

  lemma RewrittenIsGiven(found: seq<Location>, order: seq<Location>, site: Site)
    requires forall i | 0 <= i < |found| :: AllDigits(found[i].code)
    requires OrdersRewritten(order, found) && SomeRewritten(found, site)
    ensures Given(order, |order|, site)
  {}

  lemma HandedOutFresh(found: seq<Location>, errors: seq<Location>, next: nat)
    requires forall i | 0 <= i < |found| :: AllDigits(found[i].code) && CodeValue(found[i]) < next
    requires forall l | l in errors :: AllDigits(l.code)
    requires AreErrors(errors, found)
    requires DistinctSites(ReplacementOrder(errors), |ReplacementOrder(errors)|)
    ensures FreshCodes(HandedOut(ReplacementOrder(errors), |ReplacementOrder(errors)|, next), found)
  {
    var order := ReplacementOrder(errors);
    var m := HandedOut(order, |order|, next);
    HandedOutInjective(order, next);
    OrderIsRewritten(found, errors);
    forall site, i | site in m && 0 <= i < |found| ensures m[site] > CodeValue(found[i]) {
      HandedOutSites(order, |order|, next, site);
    }
    forall site ensures site in m <==> SomeRewritten(found, site) {
      HandedOutSites(order, |order|, next, site);
      if site in m { GivenIsRewritten(found, order, site); }
      if SomeRewritten(found, site) { RewrittenIsGiven(found, order, site); }
    }
  }

  /** Nothing is found twice, and there is no code "0". */
  ghost predicate NoErrors(found: seq<Location>) {
    forall i | 0 <= i < |found| :: found[i].code != "0" && Count(found, found[i].code) < 2
  }

  /** `main` with the option to fix. Without errors the quiet option returns at once. Otherwise it gets
      through exactly when there are two codes or more and no two different zero codes start at the same
      place. Then the zero codes it rewrites are replaced, all at once, by codes that differ from each
      other and exceed every code there was. */
  method FixCodes(found: seq<Location>, files: Files, quiet: bool) returns (r: Result<Files>, ghost m: Assignment)
    requires forall i | 0 <= i < |found| :: AllDigits(found[i].code)
    requires forall i | 0 <= i < |found| :: FoundIn(found[i], files)
    ensures r.Success? <==> (quiet && NoErrors(found)) || (|found| >= 2 && ZerosApart(found))
    ensures r.Success? ==> r.value == SubstitutedFiles(files, m) && FreshCodes(m, found)
  {
    m := map[];
    var codes, errors := ReadErrorCodes([], found);
    assert codes == found;
    NoErrorsFound(found, errors);
    if errors == [] && quiet {
      NothingSubstituted(files);
      return Success(files), m;
    }
    var next := GetNextCode(codes);
    if next.Failure? {
      return Failure(next.error), m;
    }
    if errors == [] {
      NothingSubstituted(files);
      return Success(files), m;
    }
    r, m := FixErrors(found, errors, next.value, files);
  }

  method FixErrors(ghost found: seq<Location>, errors: seq<Location>, next: nat, files: Files)
    returns (r: Result<Files>, ghost m: Assignment)
    requires forall i | 0 <= i < |found| :: AllDigits(found[i].code) && CodeValue(found[i]) < next
    requires forall i | 0 <= i < |found| :: FoundIn(found[i], files)
    requires AreErrors(errors, found) && next > 0
    ensures r.Success? <==> ZerosApart(found)
    ensures r.Success? ==> r.value == SubstitutedFiles(files, m) && FreshCodes(m, found)
  {
    forall l | l in errors ensures AllDigits(l.code) && FoundIn(l, files) {
      var i :| 0 <= i < |found| && found[i] == l;
    }
    r := ReplaceBadCodes(errors, next, files);
    ghost var order := ReplacementOrder(errors);
    m := HandedOut(order, |order|, next);
    SitesApart(found, errors);
    if r.Success? { HandedOutFresh(found, errors, next); }
  }

  lemma NoErrorsFound(found: seq<Location>, errors: seq<Location>)
    requires forall i | 0 <= i < |found| :: AllDigits(found[i].code)
    requires AreErrors(errors, found)
    ensures errors == [] <==> NoErrors(found)
    ensures errors == [] ==> ZerosApart(found) && FreshCodes(map[], found)
  {
    if errors == [] {
      forall i | 0 <= i < |found| ensures found[i].code != "0" && Count(found, found[i].code) < 2 {
        assert found[i] in found && found[i] !in errors;
      }
    } else {
      assert errors[0] in errors;
      var i :| 0 <= i < |found| && found[i] == errors[0];
    }
  }

  /** The scan finds no two codes at one place: the name before the bracket tells its patterns apart, and
      matches of one pattern do not overlap. */
  ghost predicate ScannedOnce(found: seq<Location>) {
    forall i, j | 0 <= i < j < |found| :: SiteOf(found[i]) != SiteOf(found[j])
  }

  /** So the assertion in the loop never fails. */
  lemma ScannedZerosApart(found: seq<Location>)
    requires forall i | 0 <= i < |found| :: AllDigits(found[i].code)
    requires ScannedOnce(found)
    ensures ZerosApart(found)
  {}

  // ----- What the fixed files say

  /** The number that starts at `i`: as many digits as there are. */
  function DigitsFrom(s: string, i: nat): (d: string)
    requires i <= |s|
    ensures forall k | 0 <= k < |d| :: IsDigit(d[k])
    decreases |s| - i
  {
    if i == |s| || !IsDigit(s[i]) then "" else [s[i]] + DigitsFrom(s, i + 1)
  }

  lemma {:induction false} DigitsBetween(a: string, d: string, r: string, i: nat)
    requires i <= |d| && (forall k | 0 <= k < |d| :: IsDigit(d[k])) && (r == "" || !IsDigit(r[0]))
    ensures DigitsFrom(a + (d + r), |a| + i) == d[i..]
    decreases |d| - i
  {
    var s := a + (d + r);
    if i == |d| {
      assert r != "" ==> s[|a| + i] == r[0];
    } else {
      assert s[|a| + i] == d[i];
      DigitsBetween(a, d, r, i + 1);
      assert d[i..] == [d[i]] + d[i + 1..];
    }
  }

  /** The code is the whole of a number, as greedy digits after a bracket are. */
  ghost predicate WholeNumber(l: Location, files: Files) {
    && FoundIn(l, files)
    && (l.offset > 0 ==> !IsDigit(files[l.file][l.offset - 1]))
    && (l.offset + |l.code| < |files[l.file]| ==> !IsDigit(files[l.file][l.offset + |l.code|]))
  }

  /** How long what stands for the characters from `i` to `o` is. */
  function Width(text: string, file: string, i: nat, o: nat, m: Assignment): nat
    requires i <= o <= |text|
    decreases o - i
  {
    if i == o then 0 else |Piece(text, file, i, m)| + Width(text, file, i + 1, o, m)
  }

  lemma {:induction false} SubstitutedSuffix(text: string, file: string, i: nat, o: nat, m: Assignment)
    requires i <= o <= |text|
    ensures var whole, w := Substituted(text, file, i, m), Width(text, file, i, o, m);
            w <= |whole| && whole[w..] == Substituted(text, file, o, m)
    decreases o - i
  {
    if i == o {
    } else {
      SubstitutedSuffix(text, file, i + 1, o, m);
      DropMore(Piece(text, file, i, m), Substituted(text, file, i + 1, m), Width(text, file, i + 1, o, m));
    }
  }

  lemma DropMore(p: string, rest: string, w: nat)
    requires w <= |rest|
    ensures (p + rest)[|p| + w..] == rest[w..]
  {}

  ghost predicate StartsNumber(files: Files, site: Site) {
    && site.file in files && site.offset < |files[site.file]| && IsDigit(files[site.file][site.offset])
    && (site.offset > 0 ==> !IsDigit(files[site.file][site.offset - 1]))
  }

  /** Only starts of numbers are sites. */
  ghost predicate SitesStartNumbers(files: Files, m: Assignment) {
    forall site | site in m :: StartsNumber(files, site)
  }

  lemma FreshSites(found: seq<Location>, files: Files, m: Assignment)
    requires forall i | 0 <= i < |found| :: AllDigits(found[i].code)
    requires forall i | 0 <= i < |found| :: WholeNumber(found[i], files)
    requires FreshCodes(m, found)
    ensures SitesStartNumbers(files, m)
  {
    forall site | site in m ensures StartsNumber(files, site) {
      assert SomeRewritten(found, site);
      var i :| 0 <= i < |found| && SiteOf(found[i]) == site && Rewritten(found, i);
      assert WholeNumber(found[i], files);
      CodeInText(found[i], files, 0);
    }
  }

  lemma CodeInText(l: Location, files: Files, k: nat)
    requires FoundIn(l, files) && k < |l.code|
    ensures l.offset + k < |files[l.file]| && files[l.file][l.offset + k] == l.code[k]
  {
    assert files[l.file][l.offset..l.offset + |l.code|][k] == l.code[k];
  }

  lemma NoSiteInCode(l: Location, files: Files, m: Assignment, k: nat)
    requires FoundIn(l, files) && SitesStartNumbers(files, m) && l.offset < k < l.offset + |l.code|
    ensures Site(l.file, k) !in m
  {
    CodeInText(l, files, k - 1 - l.offset);
    assert !StartsNumber(files, Site(l.file, k));
  }

  /** The rest of a code is left alone, and what follows it is no digit. */
  lemma RestOfCode(l: Location, files: Files, m: Assignment)
    requires WholeNumber(l, files) && SitesStartNumbers(files, m)
    ensures var text, e := files[l.file], l.offset + |l.code|;
            var rest := Substituted(text, l.file, e, m);
            && Substituted(text, l.file, l.offset + 1, m) == l.code[1..] + rest
            && (rest == "" || !IsDigit(rest[0]))
  {
    var text, e := files[l.file], l.offset + |l.code|;
    forall k | l.offset + 1 <= k < e ensures Site(l.file, k) !in m { NoSiteInCode(l, files, m, k); }
    SubstitutedPrefix(text, l.file, l.offset + 1, e, m);
    assert text[l.offset + 1..e] == text[l.offset..e][1..] == l.code[1..];
    if e < |text| { assert !StartsNumber(files, Site(l.file, e)); }
  }

  /** The number that now stands at a place of the original files. */
  function NumberAt(files: Files, now: Files, site: Site, m: Assignment): (d: string)
    ensures forall k | 0 <= k < |d| :: IsDigit(d[k])
  {
    if site.file in files && site.file in now && site.offset <= |files[site.file]| then
      var place := Width(files[site.file], site.file, 0, site.offset, m);
      if place <= |now[site.file]| then DigitsFrom(now[site.file], place) else ""
    else ""
  }

  lemma NumberSubstituted(files: Files, site: Site, m: Assignment, d: string, rest: string)
    requires site.file in files && site.offset <= |files[site.file]|
    requires Substituted(files[site.file], site.file, site.offset, m) == d + rest
    requires (forall k | 0 <= k < |d| :: IsDigit(d[k])) && (rest == "" || !IsDigit(rest[0]))
    ensures NumberAt(files, SubstitutedFiles(files, m), site, m) == d
  {
    var text := files[site.file];
    SubstitutedSuffix(text, site.file, 0, site.offset, m);
    DigitsAt(Substituted(text, site.file, 0, m), Width(text, site.file, 0, site.offset, m), d, rest);
  }

  lemma DigitsAt(s: string, i: nat, d: string, rest: string)
    requires i <= |s| && s[i..] == d + rest
    requires (forall k | 0 <= k < |d| :: IsDigit(d[k])) && (rest == "" || !IsDigit(rest[0]))
    ensures DigitsFrom(s, i) == d
  {
    assert s == s[..i] + (d + rest);
    DigitsBetween(s[..i], d, rest, 0);
  }

  lemma RewrittenSuffix(text: string, file: string, o: nat, m: Assignment, tail: string, rest: string)
    requires o < |text| && Site(file, o) in m && Substituted(text, file, o + 1, m) == tail + rest
    ensures Substituted(text, file, o, m) == (Str(m[Site(file, o)]) + tail) + rest
  {
    Associative(Str(m[Site(file, o)]), tail, rest);
  }

  lemma PlaceReads(l: Location, files: Files, m: Assignment)
    requires WholeNumber(l, files) && SitesStartNumbers(files, m) && SiteOf(l) in m
    ensures NumberAt(files, SubstitutedFiles(files, m), SiteOf(l), m) == Str(m[SiteOf(l)]) + l.code[1..]
  {
    RestOfCode(l, files, m);
    var rest := Substituted(files[l.file], l.file, l.offset + |l.code|, m);
    RewrittenSuffix(files[l.file], l.file, l.offset, m, l.code[1..], rest);
    NumberSubstituted(files, SiteOf(l), m, Str(m[SiteOf(l)]) + l.code[1..], rest);
  }

  /** In the fixed files, the number at the place of a rewritten code is the code handed out followed by
      all but the first digit of the zero, so it reads as the code exactly when the zero was "0". */
  lemma RewrittenReads(found: seq<Location>, files: Files, m: Assignment, i: nat)
    requires forall i | 0 <= i < |found| :: AllDigits(found[i].code)
    requires forall i | 0 <= i < |found| :: WholeNumber(found[i], files)
    requires FreshCodes(m, found) && i < |found| && Rewritten(found, i)
    ensures var site, code := SiteOf(found[i]), found[i].code;
            var number := NumberAt(files, SubstitutedFiles(files, m), site, m);
            && site in m && number == Str(m[site]) + code[1..]
            && (ToInt(number) == m[site] <==> code == "0")
  {
    var l := found[i];
    assert SomeRewritten(found, SiteOf(l));
    assert m[SiteOf(l)] > CodeValue(found[i]);
    FreshSites(found, files, m);
    PlaceReads(found[i], files, m);
    ReadBack(l.code, m[SiteOf(l)]);
  }

  /** The number at the place reads as something else than the code it was given. */
  ghost predicate Misread(l: Location, files: Files, now: Files, m: Assignment) {
    SiteOf(l) in m && ToInt(NumberAt(files, now, SiteOf(l), m)) != m[SiteOf(l)]
  }

  /** The files were fixed with these codes, and all of the locations are misread. */
  ghost predicate FixedButMisread(found: seq<Location>, files: Files, now: Files, m: Assignment) {
    now == SubstitutedFiles(files, m) && forall l | l in found :: Misread(l, files, now, m)
  }

  const TWICE := [Location("f", 1, "(00", "00"), Location("f", 5, "(00", "00")]

  const TWICE_FILES: Files := map["f" := "(00)(00)"]

  /** Two codes "00" in one file: the fix gets through, and both numbers then read as something else
      than the codes they were given. */
  method DoubleZeroMisread() returns (r: Result<Files>)
    ensures r.Success? && exists m :: FixedButMisread(TWICE, TWICE_FILES, r.value, m)
  {
    DoubleZeroFound();
    ghost var m;
    r, m := FixCodes(TWICE, TWICE_FILES, false);
    RewrittenReads(TWICE, TWICE_FILES, m, 0);
    RewrittenReads(TWICE, TWICE_FILES, m, 1);
    assert FixedButMisread(TWICE, TWICE_FILES, r.value, m);
  }

  lemma DoubleZeroFound()
    ensures forall i | 0 <= i < |TWICE| :: AllDigits(TWICE[i].code)
    ensures forall i | 0 <= i < |TWICE| :: WholeNumber(TWICE[i], TWICE_FILES)
    ensures ScannedOnce(TWICE) && ZerosApart(TWICE) && Rewritten(TWICE, 0) && Rewritten(TWICE, 1)
  {
    var s := "(00)(00)";
    assert s[1..3] == [s[1], s[2]] && s[5..7] == [s[5], s[6]];
    DoubleZeroRewritten();
    ScannedZerosApart(TWICE);
  }

  lemma DoubleZeroRewritten()
    ensures AllDigits("00") && ToInt("00") == 0 && Count(TWICE, "00") == 2
  {
    CountPush([], TWICE[0], "00");
    CountPush([] + [TWICE[0]], TWICE[1], "00");
    assert TWICE == [] + [TWICE[0]] + [TWICE[1]];
    assert "0"[..0] == "" && ToInt("0") == 0;
    assert "00"[..1] == "0";
  }
}
