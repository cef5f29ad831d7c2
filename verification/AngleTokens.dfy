/** Angle brackets as a scan reads them: a text of tokens, the stack machine both scans run on it, and
    the pairs it finds, told without a stack. */
module AngleTokens {
  import opened Brackets

  /** `Less` and `Greater` are angle brackets the scan takes for template brackets; `Shift` is a '<'
      that takes back the one before it. */
  datatype Token = Bracket(c: char) | Less | Greater | Shift | Semi | Plain

  // ----- The stack machine

  /** What a token does: end the scan, break it off, or go on with a stack. */
  datatype Move = End | Break | Go(stack: seq<char>)

  /** Goes on without the top of the stack, unless that was all of it. */
  function Popped(stack: seq<char>, last: Move): Move
    requires stack != []
  {
    if |stack| == 1 then last else Go(Pop(stack))
  }

  function TokenMove(t: Token, stack: seq<char>): (m: Move)
    ensures stack != [] && m.Go? ==> m.stack != []
  {
    match t
    case Bracket(c) =>
      if IsOpen(c) then Go(stack + [c])
      else
        var st := DropTentative(stack, '<');
        if st == [] || !Mates(Last(st), c) then Break else Popped(st, End)
    case Less => Go(stack + ['<'])
    case Greater => if stack == [] || Last(stack) != '<' then Go(stack) else Popped(stack, End)
    case Shift => if stack == [] || Last(stack) != '<' then Go(stack) else Popped(stack, Break)
    case Semi =>
      var st := DropTentative(stack, '<');
      if st == [] then Break else Go(st)
    case Plain => Go(stack)
  }

  type Mover = (Token, seq<char>) -> Move

  /** The scan that makes the moves of `move`. */
  function ScanWith(move: Mover, ts: seq<Token>, i: nat, stack: seq<char>): (r: Scan)
    requires i <= |ts|
    ensures r.Found? ==> i < r.pos <= |ts|
    decreases |ts| - i
  {
    if i == |ts| then Unfinished(stack)
    else
      match move(ts[i], stack)
      case End => Found(i + 1)
      case Break => Broken
      case Go(st) => ScanWith(move, ts, i + 1, st)
  }

  function TokenScan(ts: seq<Token>, i: nat, stack: seq<char>): (r: Scan)
    requires i <= |ts|
    ensures r.Found? ==> i < r.pos <= |ts|
  {
    ScanWith(TokenMove, ts, i, stack)
  }

  /** A scan as it passes through a stretch of the text equal to `line`. */
  lemma {:induction false} ThroughStretch(move: Mover, ts: seq<Token>,
                                          line: seq<Token>, o: nat, i: nat, stack: seq<char>)
    requires i <= |line| && o + |line| <= |ts| && ts[o..o + |line|] == line
    ensures ScanWith(move, ts, o + i, stack) ==
            match ScanWith(move, line, i, stack)
            case Found(e) => Found(o + e)
            case Broken => Broken
            case Unfinished(st) => ScanWith(move, ts, o + |line|, st)
    decreases |line| - i
  {
    if i == |line| {
    } else {
      assert ts[o + i] == ts[o..o + |line|][i] == line[i];
      var m := move(line[i], stack);
      if m.Go? { ThroughStretch(move, ts, line, o, i + 1, m.stack); }
    }
  }

  /** What the scan of the stretch of length `n` at `o` says about the scan of the whole text. */
  ghost predicate PartOf(move: Mover, ts: seq<Token>, o: nat, n: nat, scan: Scan, whole: Scan) {
    match scan
    case Found(e) => 0 < e <= n && whole == Found(o + e)
    case Broken => whole == Broken
    case Unfinished(st) => st != [] && o + n <= |ts| && whole == ScanWith(move, ts, o + n, st)
  }

  lemma ThroughPart(move: Mover, ts: seq<Token>, line: seq<Token>, o: nat, n: nat, i: nat,
                    stack: seq<char>, scan: Scan)
    requires n == |line| && i <= n && o + n <= |ts| && ts[o..o + n] == line
    requires scan == ScanWith(move, line, i, stack) && (scan.Unfinished? ==> scan.stack != [])
    ensures PartOf(move, ts, o, n, scan, ScanWith(move, ts, o + i, stack))
  {
    ThroughStretch(move, ts, line, o, i, stack);
  }

  ghost predicate KeepsStack(move: Mover) {
    forall t, stack | stack != [] && move(t, stack).Go? :: move(t, stack).stack != []
  }

  lemma {:induction false} StackStays(move: Mover, ts: seq<Token>, i: nat, stack: seq<char>)
    requires i <= |ts| && stack != [] && KeepsStack(move)
    ensures var r := ScanWith(move, ts, i, stack); r.Unfinished? ==> r.stack != []
    decreases |ts| - i
  {
    if i == |ts| {
    } else {
      var m := move(ts[i], stack);
      if m.Go? { StackStays(move, ts, i + 1, m.stack); }
    }
  }

  // ----- Texts of several rows

  /** The row and position just past where the scan of row `k` and the rows after it ends;
      (|rows|, -1) for nowhere. */
  ghost function RowsScan(move: Mover, rows: seq<seq<Token>>, k: nat, scan: Scan): (nat, int)
    requires k < |rows|
    decreases |rows| - k
  {
    if scan.Found? then (k, scan.pos)
    else if scan.Unfinished? && scan.stack != [] && k + 1 < |rows| then
      RowsScan(move, rows, k + 1, ScanWith(move, rows[k + 1], 0, scan.stack))
    else (|rows|, -1)
  }

  lemma RowsNext(move: Mover, rows: seq<seq<Token>>, k: nat, scan: Scan, next: Scan)
    requires k + 1 < |rows| && scan.Unfinished? && scan.stack != []
    requires next == ScanWith(move, rows[k + 1], 0, scan.stack)
    ensures RowsScan(move, rows, k, scan) == RowsScan(move, rows, k + 1, next)
  {}

  lemma RowPart(move: Mover, rows: seq<seq<Token>>, k: nat, i: nat, stack: seq<char>, scan: Scan)
    requires k < |rows| && i <= |rows[k]|
    requires scan == ScanWith(move, rows[k], i, stack) && (scan.Unfinished? ==> scan.stack != [])
    ensures Offset(rows, k) + i <= |Text(rows)|
    ensures PartOf(move, Text(rows), Offset(rows, k), |rows[k]|, scan,
                   ScanWith(move, Text(rows), Offset(rows, k) + i, stack))
  {
    LineInText(rows, k);
    ThroughPart(move, Text(rows), rows[k], Offset(rows, k), |rows[k]|, i, stack, scan);
  }

  /** Going row by row is scanning the joined rows. */
  lemma {:induction false} RowsScanned(move: Mover, rows: seq<seq<Token>>, k: nat, scan: Scan, whole: Scan)
    requires k < |rows| && KeepsStack(move) && PartOf(move, Text(rows), Offset(rows, k), |rows[k]|, scan, whole)
    ensures ForwardAnswer(rows, RowsScan(move, rows, k, scan), whole)
    decreases |rows| - k
  {
    LineInText(rows, k);
    if !scan.Unfinished? {
    } else if k + 1 == |rows| {
      OffsetAtEnd(rows);
    } else {
      var next := ScanWith(move, rows[k + 1], 0, scan.stack);
      StackStays(move, rows[k + 1], 0, scan.stack);
      RowPart(move, rows, k + 1, 0, scan.stack, next);
      RowsScanned(move, rows, k + 1, next, whole);
    }
  }

  // ----- Pairs of angle brackets

  /** What has been read since an opening angle bracket: the angle brackets open outside every hard
      bracket and the hard brackets open, or that the bracket was closed, or that no pair is left. */
  datatype Level = Open(angles: nat, hard: seq<char>) | Closed | Bad

  /** Inside a hard bracket only hard brackets matter. */
  ghost function Read(l: Level, t: Token): Level {
    if !l.Open? then l
    else
      match t
      case Bracket(c) =>
        if IsOpen(c) then Open(l.angles, l.hard + [c])
        else if l.hard == [] || !Mates(Last(l.hard), c) then Bad
        else Open(l.angles, Pop(l.hard))
      case Less => if l.hard == [] then Open(l.angles + 1, []) else l
      case Greater =>
        if l.hard != [] then l else if l.angles == 0 then Closed else Open(l.angles - 1, [])
      case Shift =>
        if l.hard != [] then l else if l.angles == 0 then Bad else Open(l.angles - 1, [])
      case Semi => if l.hard == [] then Bad else l
      case Plain => l
  }

  const START := Open(0, [])

  /** The level before `i`, reading from `p` on. */
  ghost function ReadTo(ts: seq<Token>, p: nat, i: nat): Level
    requires p <= i <= |ts|
    decreases i
  {
    if i == p then START else Read(ReadTo(ts, p, i - 1), ts[i - 1])
  }

  /** From `p` up to `q`, hard brackets nest, angle brackets outside them nest, and no semicolon
      stands outside them. */
  ghost predicate Nests(ts: seq<Token>, p: nat, q: nat)
    requires p <= q <= |ts|
  {
    ReadTo(ts, p, q) == START
  }

  /** The '<' at `p` and the '>' at `q` are template brackets, and what stands between them nests. */
  ghost predicate Pair(ts: seq<Token>, p: nat, q: nat) {
    p < q < |ts| && ts[p] == Less && ts[q] == Greater && Nests(ts, p + 1, q)
  }

  /** Once past the end of a pair, or past where no pair is possible, nothing more changes. */
  lemma {:induction false} ReadStuck(ts: seq<Token>, p: nat, x: nat, y: nat)
    requires p <= x <= y <= |ts| && !ReadTo(ts, p, x).Open?
    ensures ReadTo(ts, p, y) == ReadTo(ts, p, x)
    decreases y
  {
    if x == y {
    } else {
      ReadStuck(ts, p, x, y - 1);
    }
  }

  lemma {:induction false} ReadPlain(ts: seq<Token>, p: nat, x: nat, y: nat)
    requires p <= x <= y <= |ts| && forall z | x <= z < y :: ts[z] == Plain
    ensures ReadTo(ts, p, y) == ReadTo(ts, p, x)
    decreases y
  {
    if x == y {
    } else {
      ReadPlain(ts, p, x, y - 1);
    }
  }

  lemma PairCloses(ts: seq<Token>, p: nat, q: nat, y: nat)
    requires Pair(ts, p, q) && q < y <= |ts|
    ensures ReadTo(ts, p + 1, y) == Closed
  {
    assert ReadTo(ts, p + 1, q + 1) == Closed;
    ReadStuck(ts, p + 1, q + 1, y);
  }

  /** A pair with nothing in it. */
  ghost predicate Flat(ts: seq<Token>) {
    |ts| > 1 && forall i | 0 <= i < |ts| :: ts[i] == if i == 0 then Less else if i == |ts| - 1 then Greater else Plain
  }

  /** A pair with another in it, at `x` and just before the end. */
  ghost predicate Nested(ts: seq<Token>, x: nat) {
    && 0 < x < |ts| - 2
    && forall i | 0 <= i < |ts| ::
         ts[i] == if i == 0 || i == x then Less else if i >= |ts| - 2 then Greater else Plain
  }

  lemma FlatPair(ts: seq<Token>)
    requires Flat(ts)
    ensures Pair(ts, 0, |ts| - 1)
  {
    ReadPlain(ts, 1, 1, |ts| - 1);
  }

  lemma NestedPair(ts: seq<Token>, x: nat)
    requires Nested(ts, x)
    ensures Pair(ts, 0, |ts| - 1)
  {
    ReadPlain(ts, 1, 1, x);
    assert ReadTo(ts, 1, x + 1) == Open(1, []);
    ReadPlain(ts, 1, x + 1, |ts| - 2);
  }

  /** An angle bracket has at most one mate. */
  lemma PairUnique(ts: seq<Token>, p: nat, q: nat, r: nat)
    requires Pair(ts, p, q) && Pair(ts, p, r)
    ensures q == r
  {
    if q < r { PairCloses(ts, p, q, r); }
    if r < q { PairCloses(ts, p, r, q); }
  }

  // ----- The stack machine finds the pairs

  /** The level after one more bracket goes on the stack. */
  ghost function Pushed(l: Level, c: char): (r: Level)
    requires l.Open?
    ensures r.Open?
  {
    if c != '<' then Open(l.angles, l.hard + [c])
    else if l.hard == [] then Open(l.angles + 1, []) else l
  }

  /** The level a stack stands for; its bottom is the angle bracket the scan started at. */
  ghost function LevelOf(stack: seq<char>): (r: Level)
    ensures r.Open?
  {
    if |stack| <= 1 then START else Pushed(LevelOf(Pop(stack)), Last(stack))
  }

  /** The scan started at an angle bracket. */
  ghost predicate FromAngle(stack: seq<char>) { stack != [] && stack[0] == '<' }

  lemma PushLevel(stack: seq<char>, c: char)
    requires FromAngle(stack)
    ensures FromAngle(stack + [c]) && LevelOf(stack + [c]) == Pushed(LevelOf(stack), c)
  {
    assert Pop(stack + [c]) == stack;
  }

  /** Dropping the tentative brackets keeps the level, or empties a stack of angle brackets alone. */
  lemma {:induction false} DropLevel(stack: seq<char>)
    requires FromAngle(stack)
    ensures var st := DropTentative(stack, '<');
            if LevelOf(stack).hard == [] then st == []
            else |st| > 1 && Last(st) != '<' && FromAngle(st) && LevelOf(st) == LevelOf(stack)
  {
    if |stack| == 1 {
      assert stack == ['<'] && Pop(stack) == [];
    } else {
      if Last(stack) == '<' { DropLevel(Pop(stack)); }
    }
  }

  /** What one token makes of the level. */
  ghost predicate MoveReads(l: Level, m: Move) {
    match m
    case End => l == Closed
    case Break => l == Bad
    case Go(st) => FromAngle(st) && l == LevelOf(st)
  }

  lemma PushedThenClosed(l: Level, c: char, d: char)
    requires l.Open? && c != '<' && !IsOpen(d)
    ensures Read(Pushed(l, c), Bracket(d)) == if Mates(c, d) then l else Bad
  {
    assert Pop(l.hard + [c]) == l.hard;
  }

  lemma CloseReads(c: char, stack: seq<char>)
    requires FromAngle(stack) && !IsOpen(c)
    ensures MoveReads(Read(LevelOf(stack), Bracket(c)), TokenMove(Bracket(c), stack))
  {
    DropLevel(stack);
    var st := DropTentative(stack, '<');
    if st != [] { PushedThenClosed(LevelOf(Pop(st)), Last(st), c); }
  }

  lemma AngleReads(t: Token, stack: seq<char>)
    requires FromAngle(stack) && (t.Greater? || t.Shift?)
    ensures MoveReads(Read(LevelOf(stack), t), TokenMove(t, stack))
  {}

  lemma OneTokenReads(t: Token, stack: seq<char>)
    requires FromAngle(stack)
    ensures MoveReads(Read(LevelOf(stack), t), TokenMove(t, stack))
  {
    match t
    case Bracket(c) => if IsOpen(c) { PushLevel(stack, c); } else { CloseReads(c, stack); }
    case Less => PushLevel(stack, '<');
    case Greater => AngleReads(t, stack);
    case Shift => AngleReads(t, stack);
    case Semi => DropLevel(stack);
    case Plain =>
  }

  /** What a scan that started at the angle bracket at `p` says about its pair. */
  ghost predicate ScanPairs(ts: seq<Token>, p: nat, r: Scan)
    requires p < |ts|
  {
    match r
    case Found(e) => p < e <= |ts| && Pair(ts, p, e - 1)
    case Broken => ReadTo(ts, p + 1, |ts|) == Bad
    case Unfinished(_) => ReadTo(ts, p + 1, |ts|).Open?
  }

  lemma ReadCloses(l: Level, t: Token)
    requires l.Open? && Read(l, t) == Closed
    ensures l == START && t == Greater
  {}

  lemma {:induction false} ScanReads(ts: seq<Token>, p: nat, i: nat, stack: seq<char>)
    requires p < i <= |ts| && ts[p] == Less && FromAngle(stack)
    requires ReadTo(ts, p + 1, i) == LevelOf(stack)
    ensures ScanPairs(ts, p, ScanWith(TokenMove, ts, i, stack))
    decreases |ts| - i
  {
    if i == |ts| {
    } else {
      OneTokenReads(ts[i], stack);
      match TokenMove(ts[i], stack)
      case End => ReadCloses(LevelOf(stack), ts[i]);
      case Break => ReadStuck(ts, p + 1, i + 1, |ts|);
      case Go(st) => ScanReads(ts, p, i + 1, st);
    }
  }

  lemma FirstToken(ts: seq<Token>, p: nat)
    requires p < |ts| && ts[p] == Less
    ensures ScanPairs(ts, p, TokenScan(ts, p, []))
  {
    assert [] + ['<'] == ['<'];
    assert TokenScan(ts, p, []) == ScanWith(TokenMove, ts, p + 1, ['<']);
    ScanReads(ts, p, p + 1, ['<']);
  }

  /** From a template bracket, the scan ends just past `q` exactly when `q` is its mate. */
  lemma ScanFindsPair(ts: seq<Token>, p: nat, q: nat)
    requires p < |ts| && q < |ts| && ts[p] == Less
    ensures TokenScan(ts, p, []) == Found(q + 1) <==> Pair(ts, p, q)
  {
    FirstToken(ts, p);
    if Pair(ts, p, q) {
      PairCloses(ts, p, q, |ts|);
      var r := TokenScan(ts, p, []);
      if r.Found? { PairUnique(ts, p, q, r.pos - 1); }
    }
  }

  // ----- Mirrored texts

  function Mate(c: char): char {
    match c
    case '(' => ')'
    case ')' => '('
    case '[' => ']'
    case ']' => '['
    case '{' => '}'
    case '}' => '{'
    case '<' => '>'
    case '>' => '<'
    case _ => c
  }

  function MirrorToken(t: Token): Token {
    match t
    case Bracket(c) => Bracket(Mate(c))
    case Less => Greater
    case Greater => Less
    case Shift => Shift
    case Semi => Semi
    case Plain => Plain
  }

  /** Each text is the other read from its end, with opening and closing swapped. */
  ghost predicate Mirrors(ts: seq<Token>, ms: seq<Token>) {
    && |ts| == |ms|
    && forall i, j | 0 <= i < |ts| && 0 <= j < |ms| && i + j == |ts| - 1 :: ms[j] == MirrorToken(ts[i])
  }

  function Mirrored(ts: seq<Token>): (r: seq<Token>)
    ensures Mirrors(ts, r)
  {
    seq(|ts|, i requires 0 <= i < |ts| => MirrorToken(ts[|ts| - 1 - i]))
  }

  /** Every bracket token is a round, square or curly bracket, and nothing takes a '<' back. */
  ghost predicate Regular(ts: seq<Token>) {
    forall i | 0 <= i < |ts| :: ts[i] != Shift && (ts[i].Bracket? ==> IsHard(ts[i].c))
  }

  lemma MirrorStep(a: nat, hard: seq<char>, t: Token)
    requires t != Shift && (t.Bracket? ==> IsHard(t.c)) && Read(Open(a, hard), t).Open?
    ensures Read(Read(Open(a, hard), t), MirrorToken(t)) == Open(a, hard)
  {
    if t.Bracket? {
      if IsOpen(t.c) {
        assert Pop(hard + [t.c]) == hard && Last(hard + [t.c]) == t.c;
      } else {
        assert Pop(hard) + [Last(hard)] == hard;
      }
    }
  }

  /** In a text that nests, the level at a place is the same read from the end as from the start. */
  lemma {:induction false} MirrorReads(ts: seq<Token>, ms: seq<Token>, p: nat, x: nat, q: nat)
    requires p <= x <= q <= |ts| && Regular(ts) && Mirrors(ts, ms) && Nests(ts, p, q)
    ensures ReadTo(ms, |ts| - q, |ts| - x) == ReadTo(ts, p, x)
    decreases q - x
  {
    if x == q {
    } else {
      MirrorReads(ts, ms, p, x + 1, q);
      var l := ReadTo(ts, p, x);
      if !l.Open? { ReadStuck(ts, p, x, q); }
      if !Read(l, ts[x]).Open? { ReadStuck(ts, p, x + 1, q); }
      MirrorStep(l.angles, l.hard, ts[x]);
      assert ms[|ts| - x - 1] == MirrorToken(ts[x]);
    }
  }

  lemma MirrorBack(ts: seq<Token>, ms: seq<Token>)
    requires Mirrors(ts, ms) && Regular(ts)
    ensures Mirrors(ms, ts) && Regular(ms)
  {
    forall j | 0 <= j < |ms| ensures ms[j] == MirrorToken(ts[|ts| - 1 - j]) {}
  }

  lemma PairMirrored(ts: seq<Token>, ms: seq<Token>, p: nat, q: nat, x: nat, y: nat)
    requires Regular(ts) && Mirrors(ts, ms) && Pair(ts, p, q) && p + x == q + y == |ts| - 1
    ensures Pair(ms, y, x)
  {
    MirrorReads(ts, ms, p + 1, p + 1, q);
    assert ms[y] == MirrorToken(ts[q]) && ms[x] == MirrorToken(ts[p]);
  }

  /** Pairs read from the start are pairs read from the end. */
  lemma MirrorPair(ts: seq<Token>, ms: seq<Token>, p: nat, q: nat, x: nat, y: nat)
    requires Regular(ts) && Mirrors(ts, ms) && p + x == q + y == |ts| - 1
    ensures Pair(ms, y, x) <==> Pair(ts, p, q)
  {
    if Pair(ts, p, q) {
      PairMirrored(ts, ms, p, q, x, y);
    } else if Pair(ms, y, x) {
      MirrorBack(ts, ms);
      PairMirrored(ms, ts, y, x, q, p);
    }
  }

  /** The rows from the last to the first, each mirrored. */
  ghost predicate MirrorRows(rows: seq<seq<Token>>, ms: seq<seq<Token>>) {
    && |rows| == |ms|
    && forall k, l | 0 <= k < |rows| && 0 <= l < |ms| && k + l == |rows| - 1 :: Mirrors(rows[k], ms[l])
  }

  lemma MirrorsAppend(a: seq<Token>, b: seq<Token>, ma: seq<Token>, mb: seq<Token>)
    requires Mirrors(a, ma) && Mirrors(b, mb)
    ensures Mirrors(a + b, mb + ma)
  {}

  lemma {:induction false} TextAppend(rows: seq<seq<Token>>, row: seq<Token>)
    ensures Text(rows + [row]) == Text(rows) + row
  {
    if rows == [] {
      assert rows + [row] == [row] && Text([row][1..]) == [];
    } else {
      assert (rows + [row])[1..] == rows[1..] + [row];
      TextAppend(rows[1..], row);
    }
  }

  lemma {:induction false} MirrorText(rows: seq<seq<Token>>, ms: seq<seq<Token>>)
    requires MirrorRows(rows, ms)
    ensures Mirrors(Text(rows), Text(ms))
  {
    if rows == [] {
    } else {
      var front, last := ms[..|ms| - 1], ms[|ms| - 1];
      MirrorText(rows[1..], front);
      TextAppend(front, last);
      assert ms == front + [last];
      MirrorsAppend(rows[0], Text(rows[1..]), last, Text(front));
    }
  }

  lemma {:induction false} RegularText(rows: seq<seq<Token>>)
    requires forall k | 0 <= k < |rows| :: Regular(rows[k])
    ensures Regular(Text(rows))
  {
    if rows == [] {
    } else {
      RegularText(rows[1..]);
    }
  }

  lemma {:induction false} MirrorOffset(rows: seq<seq<Token>>, ms: seq<seq<Token>>, k: nat)
    requires k <= |rows| && MirrorRows(rows, ms)
    ensures Offset(ms, |rows| - k) == |Text(rows)| - Offset(rows, k)
    decreases |rows| - k
  {
    if k == |rows| {
      OffsetAtEnd(rows);
    } else {
      MirrorOffset(rows, ms, k + 1);
      LineInText(rows, k);
      LineInText(ms, |rows| - 1 - k);
      assert Mirrors(rows[k], ms[|rows| - 1 - k]);
    }
  }

  // ----- Where a scan with an empty stack begins

  predicate Opening(t: Token) { t == Less || (t.Bracket? && IsOpen(t.c)) }

  /** A token that leaves an empty stack empty. */
  predicate Idle(t: Token) { t == Greater || t == Shift || t == Plain }

  /** The first token from `i` on that is not idle is the opening bracket at `j`. */
  ghost predicate Starts(ts: seq<Token>, i: nat, j: nat) {
    i <= j < |ts| && Opening(ts[j]) && forall x | i <= x < j :: Idle(ts[x])
  }

  lemma {:induction false} SkipToStart(ts: seq<Token>, i: nat, j: nat)
    requires Starts(ts, i, j)
    ensures TokenScan(ts, i, []) == TokenScan(ts, j, [])
    decreases j - i
  {
    if i == j {
    } else {
      assert TokenMove(ts[i], []) == Go([]);
      SkipToStart(ts, i + 1, j);
    }
  }

  lemma {:induction false} NoStart(ts: seq<Token>, i: nat)
    requires i <= |ts| && forall j :: !Starts(ts, i, j)
    ensures TokenScan(ts, i, []) in {Broken, Unfinished([])}
    decreases |ts| - i
  {
    if i == |ts| {
    } else if Idle(ts[i]) {
      var next := i + 1;
      forall j ensures !Starts(ts, next, j) {
        assert !Starts(ts, i, j);
      }
      NoStart(ts, next);
    } else {
      assert !Starts(ts, i, i);
      assert DropTentative([], '<') == [];
    }
  }

  // ----- Two readings of one text

  /** Outside every hard bracket. */
  ghost predicate Outside(l: Level) { l.Open? && l.hard == [] }

  predicate ShiftAt(ts: seq<Token>, x: nat) { x < |ts| && ts[x] == Shift }

  /** Readings of one character differ at most in whether an angle bracket counts. */
  predicate SameKind(f: seq<Token>, b: seq<Token>, x: nat)
    requires x < |f| && x < |b|
  {
    if f[x].Bracket? || f[x] == Semi then b[x] == f[x] && !ShiftAt(f, x + 1) else !b[x].Bracket? && b[x] != Semi
  }

  /** The readings agree at `x`, where `f` may spell out a pair that cancels and `b` pass over it. */
  predicate AlikeAt(f: seq<Token>, b: seq<Token>, x: nat)
    requires x < |f| && x < |b|
  {
    if f[x] == Less && ShiftAt(f, x + 1) then b[x] == Plain
    else !ShiftAt(f, x + 1) && b[x] == if f[x] == Shift then Plain else f[x]
  }

  /** The levels of the two readings before `x`: equal, but for a '<' about to be taken back. */
  ghost predicate InStep(f: seq<Token>, x: nat, lf: Level, lb: Level) {
    if ShiftAt(f, x) && Outside(lb) then lf == Open(lb.angles + 1, []) else lf == lb
  }

  /** From `x` up to `y`, the readings agree outside the hard brackets opened since `p`. */
  ghost predicate AlikeOver(f: seq<Token>, b: seq<Token>, p: nat, x: nat, y: nat)
    requires p <= x <= y <= |f| && |f| == |b|
  {
    forall z | x <= z < y :: SameKind(f, b, z) && (Outside(ReadTo(b, p, z)) ==> AlikeAt(f, b, z))
  }

  lemma StepAlike(f: seq<Token>, b: seq<Token>, x: nat, lf: Level, lb: Level)
    requires x < |f| && x < |b| && b[x] != Shift && SameKind(f, b, x)
    requires InStep(f, x, lf, lb) && (Outside(lb) ==> AlikeAt(f, b, x))
    ensures InStep(f, x + 1, Read(lf, f[x]), Read(lb, b[x]))
  {}

  /** Whatever stands inside hard brackets, two readings that agree outside them reach the same level. */
  lemma {:induction false} ReadAlike(f: seq<Token>, b: seq<Token>, p: nat, x: nat)
    requires p <= x < |f| && |f| == |b| && Regular(b) && !ShiftAt(f, p) && AlikeOver(f, b, p, p, x)
    ensures InStep(f, x, ReadTo(f, p, x), ReadTo(b, p, x))
  {
    if x == p {
    } else {
      ReadAlike(f, b, p, x - 1);
      StepAlike(f, b, x - 1, ReadTo(f, p, x - 1), ReadTo(b, p, x - 1));
    }
  }

  /** Readings that agree outside hard brackets from `p` to `q` agree on whether these are a pair. */
  lemma PairAlike(f: seq<Token>, b: seq<Token>, p: nat, q: nat)
    requires p < q < |f| && |f| == |b| && Regular(b) && !ShiftAt(f, p + 1) && f[p] == b[p] == Less
    requires AlikeOver(f, b, p + 1, p + 1, q + 1)
    ensures Pair(f, p, q) <==> Pair(b, p, q)
  {
    ReadAlike(f, b, p + 1, q);
    if Outside(ReadTo(b, p + 1, q)) { assert AlikeAt(f, b, q); }
  }

  /** The levels of the two readings before `x`, apart by `d` angle brackets. */
  ghost predicate ApartBy(f: seq<Token>, x: nat, lf: Level, lb: Level, d: int) {
    && lf.Open? && lb.Open? && lf.hard == lb.hard
    && lf.angles == lb.angles + d + if ShiftAt(f, x) && lf.hard == [] then 1 else 0
  }

  lemma StepApart(f: seq<Token>, b: seq<Token>, x: nat, lf: Level, lb: Level, d: int)
    requires x < |f| && x < |b| && b[x] != Shift && SameKind(f, b, x)
    requires ApartBy(f, x, lf, lb, d) && (Outside(lb) ==> AlikeAt(f, b, x))
    requires Read(lf, f[x]).Open? && Read(lb, b[x]).Open?
    ensures ApartBy(f, x + 1, Read(lf, f[x]), Read(lb, b[x]), d)
  {}

  /** Readings that are apart stay so where they agree. */
  lemma {:induction false} StayApart(f: seq<Token>, b: seq<Token>, p: nat, x: nat, y: nat, d: int)
    requires p <= x <= y < |f| && |f| == |b| && Regular(b) && AlikeOver(f, b, p, x, y)
    requires ApartBy(f, x, ReadTo(f, p, x), ReadTo(b, p, x), d)
    requires ReadTo(f, p, y).Open? && ReadTo(b, p, y).Open?
    ensures ApartBy(f, y, ReadTo(f, p, y), ReadTo(b, p, y), d)
    decreases y
  {
    if x == y {
    } else {
      StayApart(f, b, p, x, y - 1, d);
      StepApart(f, b, y - 1, ReadTo(f, p, y - 1), ReadTo(b, p, y - 1), d);
    }
  }

  /** So they do not have both the same pair. */
  lemma ApartNotPairs(f: seq<Token>, b: seq<Token>, p: nat, x: nat, q: nat, d: int)
    requires p < x <= q < |f| && |f| == |b| && Regular(b) && AlikeOver(f, b, p + 1, x, q)
    requires d != 0 && ApartBy(f, x, ReadTo(f, p + 1, x), ReadTo(b, p + 1, x), d)
    ensures !(Pair(f, p, q) && Pair(b, p, q))
  {
    if Pair(f, p, q) && Pair(b, p, q) { StayApart(f, b, p + 1, x, q, d); }
  }
}
