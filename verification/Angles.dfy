/** Closing and reversing from angle brackets. Each scan has its own reading of the angle brackets of a
    line; by its own reading it finds the mate exactly. Where the readings agree, the scans agree. */
module Angles {
  import opened Brackets
  import opened AngleTokens

  // ----- The readings of a line

  /** True when the forward scan takes the '>' at `i` for part of an operator. */
  predicate ForwardOperator(line: string, i: nat)
    requires i < |line|
  {
    i > 0 && (line[i - 1] == '-' || EndsWithOperator(line[..i - 1]))
  }

  function ForwardToken(line: string, i: nat): (t: Token)
    requires i < |line|
  {
    var c := line[i];
    if IsHard(c) then Bracket(c)
    else if c == '<' then
      if i > 0 && line[i - 1] == '<' then Shift
      else if i > 0 && EndsWithOperator(line[..i]) then Plain
      else Less
    else if c == '>' then if ForwardOperator(line, i) then Plain else Greater
    else if c == ';' then Semi
    else Plain
  }

  /** How many '<' follow directly after `i`. */
  function RunAfter(line: string, i: nat): nat
    requires i < |line|
    decreases |line| - i
  {
    if i + 1 < |line| && line[i + 1] == '<' then 1 + RunAfter(line, i + 1) else 0
  }

  /** A run of '<' is passed over in twos, from its end. */
  function BackwardToken(line: string, i: nat): (t: Token)
    requires i < |line|
  {
    var c := line[i];
    if IsHard(c) then Bracket(c)
    else if c == '<' then
      if (i > 0 && line[i - 1] == '<') || RunAfter(line, i) % 2 == 1 then Plain else Less
    else if c == '>' then if OperatorGreater(line, i) then Plain else Greater
    else if c == ';' then Semi
    else Plain
  }

  datatype Direction = Forward | Backward

  function TokenAt(d: Direction, line: string, i: nat): (t: Token)
    requires i < |line|
    ensures t.Bracket? <==> IsHard(line[i])
    ensures t.Bracket? ==> t.c == line[i]
    ensures d.Backward? ==> t != Shift
  {
    match d
    case Forward => ForwardToken(line, i)
    case Backward => BackwardToken(line, i)
  }

  function LineTokens(d: Direction, line: string): (ts: seq<Token>)
    ensures |ts| == |line|
  {
    seq(|line|, i requires 0 <= i < |line| => TokenAt(d, line, i))
  }

  // ----- The scans of a line run the machine on their reading

  function MoveOf(r: Scan): Move {
    match r
    case Found(_) => End
    case Broken => Break
    case Unfinished(st) => Go(st)
  }

  lemma ForwardStepReads(line: string, i: nat, stack: seq<char>)
    requires i < |line|
    ensures TokenMove(ForwardToken(line, i), stack) == MoveOf(ForwardStep(line, i, stack))
  {}

  lemma {:induction false} ForwardScanReads(move: Mover, line: string, i: nat, stack: seq<char>)
    requires i <= |line|
    requires forall x: nat, st | x < |line| :: move(ForwardToken(line, x), st) == MoveOf(ForwardStep(line, x, st))
    ensures ForwardScan(line, i, stack) == ScanWith(move, LineTokens(Forward, line), i, stack)
    decreases |line| - i
  {
    if i == |line| {
    } else {
      var r := ForwardStep(line, i, stack);
      assert LineTokens(Forward, line)[i] == ForwardToken(line, i);
      if r.Unfinished? { ForwardScanReads(move, line, i + 1, r.stack); }
    }
  }

  /** The forward scan of a line makes the moves of `move` on its reading. */
  ghost predicate RunsForward(move: Mover, line: string, i: nat, stack: seq<char>)
    requires i <= |line|
  {
    ForwardScan(line, i, stack) == ScanWith(move, LineTokens(Forward, line), i, stack)
  }

  lemma TokensRunForward(line: string, i: nat, stack: seq<char>)
    requires i <= |line|
    ensures RunsForward(TokenMove, line, i, stack)
  {
    forall x: nat, st | x < |line|
      ensures TokenMove(ForwardToken(line, x), st) == MoveOf(ForwardStep(line, x, st))
    {
      ForwardStepReads(line, x, st);
    }
    ForwardScanReads(TokenMove, line, i, stack);
  }

  function MirrorStack(stack: seq<char>): (r: seq<char>)
    ensures |r| == |stack|
    ensures forall i | 0 <= i < |stack| :: r[i] == Mate(stack[i])
  {
    seq(|stack|, i requires 0 <= i < |stack| => Mate(stack[i]))
  }

  lemma MirrorPush(stack: seq<char>, c: char)
    ensures MirrorStack(stack + [c]) == MirrorStack(stack) + [Mate(c)]
  {}

  lemma MirrorPop(stack: seq<char>)
    requires stack != []
    ensures Pop(MirrorStack(stack)) == MirrorStack(Pop(stack))
    ensures Last(MirrorStack(stack)) == Mate(Last(stack))
  {}

  lemma {:induction false} MirrorDrop(stack: seq<char>)
    ensures DropTentative(MirrorStack(stack), '<') == MirrorStack(DropTentative(stack, '>'))
  {
    if stack == [] {
    } else {
      MirrorPop(stack);
      if Last(stack) == '>' { MirrorDrop(Pop(stack)); }
    }
  }

  /** What a backward result is in the mirrored text. */
  function MirrorMove(r: Scan): Move {
    match r
    case Found(_) => End
    case Broken => Break
    case Unfinished(st) => Go(MirrorStack(st))
  }

  /** Not at the left half of a `<<` that the scan passes over. */
  ghost predicate Entry(line: string, i: int) {
    0 <= i < |line| && line[i] == '<' ==> RunAfter(line, i) % 2 == 0
  }

  lemma OpenMirrored(c: char, stack: seq<char>)
    requires IsOpen(c)
    ensures TokenMove(Bracket(Mate(c)), MirrorStack(stack)) ==
            var st := DropTentative(stack, '>');
            if st == [] || !Mates(c, Last(st)) then Break
            else if |st| == 1 then End else Go(MirrorStack(Pop(st)))
  {
    MirrorDrop(stack);
    var st := DropTentative(stack, '>');
    if st != [] {
      MirrorPop(st);
      assert Mates(Mate(Last(st)), Mate(c)) == Mates(c, Last(st));
    }
  }

  lemma LessMirrored(stack: seq<char>)
    ensures TokenMove(Greater, MirrorStack(stack)) ==
            if stack == [] || Last(stack) != '>' then Go(MirrorStack(stack))
            else if |stack| == 1 then End else Go(MirrorStack(Pop(stack)))
  {
    if stack != [] { MirrorPop(stack); }
  }

  lemma BackwardStepReads(line: string, i: nat, stack: seq<char>)
    requires i < |line| && Entry(line, i)
    ensures TokenMove(MirrorToken(BackwardToken(line, i)), MirrorStack(stack)) ==
            MirrorMove(BackwardStep(line, i, stack))
  {
    var c := line[i];
    if IsOpen(c) {
      OpenMirrored(c, stack);
    } else if IsClose(c) || c == '>' {
      MirrorPush(stack, c);
    } else if c == ';' {
      MirrorDrop(stack);
    } else if c == '<' {
      LessMirrored(stack);
    }
  }

  /** The character that the backward scan steps over counts for nothing. */
  lemma SteppedOver(line: string, i: nat)
    requires i < |line| && Entry(line, i) && BackwardNext(line, i) < i - 1
    ensures BackwardToken(line, i - 1) == Plain
  {
    if line[i] == '>' {
      SkippedIsNoBracket(line, i);
    } else {
      assert RunAfter(line, i - 1) == 1 + RunAfter(line, i);
    }
  }

  /** The scan goes on where it sees a run of '<' from its end. */
  lemma NextEntry(line: string, i: nat)
    requires i < |line| && Entry(line, i)
    ensures Entry(line, BackwardNext(line, i))
  {
    var j := BackwardNext(line, i);
    if 0 <= j && line[j] == '<' {
      if j == i - 1 {
        assert line[i] != '<';
      } else if line[i] == '>' {
        SkippedIsNoBracket(line, i);
      } else {
        assert RunAfter(line, j) == 1 + RunAfter(line, i - 1) == 2 + RunAfter(line, i);
      }
    }
  }

  /** A result of a backward scan of `n` characters, in the mirrored text. */
  function MirrorScan(r: Scan, n: nat): Scan {
    match r
    case Found(p) => Found(n - p)
    case Broken => Broken
    case Unfinished(st) => Unfinished(MirrorStack(st))
  }

  function MirroredLine(line: string): (ts: seq<Token>)
    ensures |ts| == |line|
  {
    Mirrored(LineTokens(Backward, line))
  }

  lemma MirroredAt(line: string, i: nat)
    requires i < |line|
    ensures MirroredLine(line)[|line| - 1 - i] == MirrorToken(BackwardToken(line, i))
  {
    assert LineTokens(Backward, line)[i] == BackwardToken(line, i);
  }

  /** One step of the backward scan, with result `r`, in the mirrored line. */
  ghost predicate BackwardMoves(move: Mover, line: string, i: nat, stack: seq<char>, r: Scan)
    requires i < |line|
  {
    ScanWith(move, MirroredLine(line), |line| - 1 - i, MirrorStack(stack)) ==
    if r.Unfinished? then ScanWith(move, MirroredLine(line), |line| - 1 - BackwardNext(line, i), MirrorStack(r.stack))
    else MirrorScan(r, |line|)
  }

  ghost predicate PlainStays(move: Mover) { forall st :: move(Plain, st) == Go(st) }

  /** The move over a token and the one over what the scan steps over. */
  lemma OneBackwardMove(move: Mover, line: string, i: nat, stack: seq<char>, r: Scan)
    requires i < |line| && Entry(line, i) && (r.Found? ==> r.pos == i) && PlainStays(move)
    requires move(MirrorToken(BackwardToken(line, i)), MirrorStack(stack)) == MirrorMove(r)
    ensures BackwardMoves(move, line, i, stack, r)
  {
    MirroredAt(line, i);
    if r.Unfinished? && BackwardNext(line, i) < i - 1 {
      SteppedOver(line, i);
      MirroredAt(line, i - 1);
    }
  }

  /** The moves of `move` are those of the backward scan. */
  ghost predicate StepsBackward(move: Mover, line: string, i: nat, stack: seq<char>)
    requires i < |line|
  {
    BackwardMoves(move, line, i, stack, BackwardStep(line, i, stack))
  }

  lemma {:induction false} BackwardScanReads(move: Mover, line: string, i: int, stack: seq<char>)
    requires -1 <= i < |line| && Entry(line, i)
    requires forall x: nat, st | x < |line| && Entry(line, x) :: StepsBackward(move, line, x, st)
    ensures ScanWith(move, MirroredLine(line), |line| - 1 - i, MirrorStack(stack)) ==
            MirrorScan(BackwardScan(line, i, stack), |line|)
    decreases i + 1
  {
    if i == -1 {
    } else {
      assert StepsBackward(move, line, i, stack);
      var r := BackwardStep(line, i, stack);
      if r.Unfinished? {
        NextEntry(line, i);
        BackwardScanReads(move, line, BackwardNext(line, i), r.stack);
      }
    }
  }

  /** The backward scan of a line makes the moves of `move` on its reading. */
  ghost predicate RunsBackward(move: Mover, line: string, i: int, stack: seq<char>)
    requires -1 <= i < |line|
  {
    MirrorScan(BackwardScan(line, i, stack), |line|) ==
    ScanWith(move, MirroredLine(line), |line| - 1 - i, MirrorStack(stack))
  }

  lemma TokensRunBackward(line: string, i: int, stack: seq<char>)
    requires -1 <= i < |line| && Entry(line, i)
    ensures RunsBackward(TokenMove, line, i, stack)
  {
    forall x: nat, st | x < |line| && Entry(line, x) ensures StepsBackward(TokenMove, line, x, st) {
      BackwardStepReads(line, x, st);
      OneBackwardMove(TokenMove, line, x, st, BackwardStep(line, x, st));
    }
    BackwardScanReads(TokenMove, line, i, stack);
  }

  // ----- The scans of a file

  function Rows(d: Direction, lines: seq<string>): (rows: seq<seq<Token>>)
    ensures |rows| == |lines|
    ensures forall k | 0 <= k < |lines| :: rows[k] == LineTokens(d, lines[k])
  {
    seq(|lines|, k requires 0 <= k < |lines| => LineTokens(d, lines[k]))
  }

  function MirroredRows(lines: seq<string>): (rows: seq<seq<Token>>)
    ensures |rows| == |lines|
    ensures forall k, l | 0 <= k < |lines| && 0 <= l < |lines| && k + l == |lines| - 1 ::
              rows[l] == MirroredLine(lines[k])
  {
    seq(|lines|, k requires 0 <= k < |lines| => MirroredLine(lines[|lines| - 1 - k]))
  }

  lemma {:induction false} ForwardLinesRead(lines: seq<string>, rows: seq<seq<Token>>, k: nat, scan: Scan)
    requires k < |lines| && rows == Rows(Forward, lines)
    ensures ForwardLines(lines, k, scan) == RowsScan(TokenMove, rows, k, scan)
    decreases |lines| - k
  {
    if !scan.Unfinished? || scan.stack == [] || k + 1 == |lines| {
    } else {
      var next := ForwardScan(lines[k + 1], 0, scan.stack);
      TokensRunForward(lines[k + 1], 0, scan.stack);
      ForwardLinesRead(lines, rows, k + 1, next);
      RowsNext(TokenMove, rows, k, scan, next);
    }
  }

  /** An answer of the backward scan and what it is in the mirrored rows. */
  ghost predicate SamePlace(lines: seq<string>, answer: (nat, int), mirrored: (nat, int)) {
    if answer.1 == -1 then answer.0 == 0 && mirrored == (|lines|, -1)
    else OnLine(lines, answer.0, answer.1) &&
         mirrored == (|lines| - 1 - answer.0, |lines[answer.0]| - answer.1)
  }

  lemma BackwardRow(lines: seq<string>, rows: seq<seq<Token>>, k: nat, l: nat, stack: seq<char>, next: Scan)
    requires k < |lines| && k + l == |lines| - 1 && rows == MirroredRows(lines)
    requires next == BackwardScan(lines[k], |lines[k]| - 1, stack)
    ensures MirrorScan(next, |lines[k]|) == ScanWith(TokenMove, rows[l], 0, MirrorStack(stack))
  {
    TokensRunBackward(lines[k], |lines[k]| - 1, stack);
    assert rows[l] == MirroredLine(lines[k]);
  }

  lemma {:induction false} BackwardLinesRead(lines: seq<string>, rows: seq<seq<Token>>, k: nat, l: nat, scan: Scan)
    requires k < |lines| && k + l == |lines| - 1 && rows == MirroredRows(lines)
    requires scan.Found? ==> 0 <= scan.pos < |lines[k]|
    ensures SamePlace(lines, BackwardLines(lines, k, scan), RowsScan(TokenMove, rows, l, MirrorScan(scan, |lines[k]|)))
    decreases k
  {
    if !scan.Unfinished? || scan.stack == [] || k == 0 {
    } else {
      var line := lines[k - 1];
      var next := BackwardScan(line, |line| - 1, scan.stack);
      BackwardRow(lines, rows, k - 1, l + 1, scan.stack, next);
      BackwardLinesRead(lines, rows, k - 1, l + 1, next);
      RowsNext(TokenMove, rows, l, MirrorScan(scan, |lines[k]|), MirrorScan(next, |line|));
    }
  }

  // ----- Each scan finds the mate by its own reading

  /** The reading of a file, and a place in it. */
  function Reading(d: Direction, lines: seq<string>): seq<Token> { Text(Rows(d, lines)) }

  function Place<T>(lines: seq<seq<T>>, k: nat, i: nat): nat
    requires k < |lines|
  {
    Offset(lines, k) + i
  }

  lemma {:induction false} SameOffsets<S, T>(a: seq<seq<S>>, b: seq<seq<T>>, k: nat)
    requires |a| == |b| && k <= |a| && forall i | 0 <= i < |a| :: |a[i]| == |b[i]|
    ensures Offset(a, k) == Offset(b, k)
  {
    if k == 0 {
    } else {
      SameOffsets(a[1..], b[1..], k - 1);
    }
  }

  lemma PlaceInRows(d: Direction, lines: seq<string>, k: nat, i: nat)
    requires OnLine(lines, k, i)
    ensures OnLine(Rows(d, lines), k, i) && Place(Rows(d, lines), k, i) == Place(lines, k, i) < |Reading(d, lines)|
    ensures Rows(d, lines)[k][i] == TokenAt(d, lines[k], i)
  {
    SameOffsets(lines, Rows(d, lines), k);
    LineInText(Rows(d, lines), k);
    assert LineTokens(d, lines[k])[i] == TokenAt(d, lines[k], i);
  }

  lemma ReadingAt(d: Direction, lines: seq<string>, k: nat, i: nat)
    requires OnLine(lines, k, i)
    ensures Place(lines, k, i) < |Reading(d, lines)| && Reading(d, lines)[Place(lines, k, i)] == TokenAt(d, lines[k], i)
  {
    var rows := Rows(d, lines);
    PlaceInRows(d, lines, k, i);
    LineInText(rows, k);
    assert Text(rows)[Offset(rows, k)..Offset(rows, k + 1)][i] == rows[k][i];
  }

  lemma OpeningKeepsStack(ts: seq<Token>, i: nat)
    requires i < |ts| && Opening(ts[i])
    ensures var r := TokenScan(ts, i, []); r.Unfinished? ==> r.stack != []
  {
    MovesKeepStack();
    StackStays(TokenMove, ts, i + 1, TokenMove(ts[i], []).stack);
  }

  lemma MovesKeepStack()
    ensures KeepsStack(TokenMove)
  {}

  /** From an opening token, going row by row is scanning the joined rows. */
  lemma RowsFrom(rows: seq<seq<Token>>, k: nat, i: nat, scan: Scan)
    requires OnLine(rows, k, i) && Opening(rows[k][i]) && scan == TokenScan(rows[k], i, [])
    ensures Place(rows, k, i) <= |Text(rows)|
    ensures ForwardAnswer(rows, RowsScan(TokenMove, rows, k, scan), TokenScan(Text(rows), Place(rows, k, i), []))
  {
    OpeningKeepsStack(rows[k], i);
    MovesKeepStack();
    RowPart(TokenMove, rows, k, i, [], scan);
    RowsScanned(TokenMove, rows, k, scan, TokenScan(Text(rows), Place(rows, k, i), []));
  }

  /** From a template bracket, going row by row ends just past its mate. */
  lemma RowsFindMate(rows: seq<seq<Token>>, k: nat, i: nat, m: nat, j: nat, scan: Scan)
    requires OnLine(rows, k, i) && OnLine(rows, m, j) && rows[k][i] == Less && scan == TokenScan(rows[k], i, [])
    ensures RowsScan(TokenMove, rows, k, scan) == (m, j + 1) <==> Pair(Text(rows), Place(rows, k, i), Place(rows, m, j))
  {
    var ts, p, q := Text(rows), Place(rows, k, i), Place(rows, m, j);
    LineInText(rows, k);
    LineInText(rows, m);
    assert ts[Offset(rows, k)..Offset(rows, k + 1)][i] == Less;
    RowsFrom(rows, k, i, scan);
    ScanFindsPair(ts, p, q);
    var answer := RowsScan(TokenMove, rows, k, scan);
    if TokenScan(ts, p, []) == Found(q + 1) { PositionUnique(rows, answer.0, answer.1 - 1, m, j); }
  }

  lemma CloseByRows(lines: seq<string>, rows: seq<seq<Token>>, k: nat, i: nat)
    requires OnLine(lines, k, i) && rows == Rows(Forward, lines)
    ensures var scan := ForwardScan(lines[k], i, []);
            scan == TokenScan(rows[k], i, []) && ForwardLines(lines, k, scan) == RowsScan(TokenMove, rows, k, scan)
  {
    TokensRunForward(lines[k], i, []);
    ForwardLinesRead(lines, rows, k, ForwardScan(lines[k], i, []));
  }

  /** Closing from a template bracket ends just past its mate, by the forward reading. */
  lemma CloseFindsMate(lines: seq<string>, k: nat, i: nat, m: nat, j: nat)
    requires OnLine(lines, k, i) && OnLine(lines, m, j) && ForwardToken(lines[k], i) == Less
    ensures ForwardLines(lines, k, ForwardScan(lines[k], i, [])) == (m, j + 1) <==>
            Pair(Reading(Forward, lines), Place(lines, k, i), Place(lines, m, j))
  {
    var rows := Rows(Forward, lines);
    CloseByRows(lines, rows, k, i);
    PlaceInRows(Forward, lines, k, i);
    PlaceInRows(Forward, lines, m, j);
    RowsFindMate(rows, k, i, m, j, ForwardScan(lines[k], i, []));
  }

  lemma BackwardRegular(lines: seq<string>)
    ensures Regular(Reading(Backward, lines))
  {
    forall k | 0 <= k < |lines| ensures Regular(LineTokens(Backward, lines[k])) {}
    RegularText(Rows(Backward, lines));
  }

  lemma RowsMirrored(lines: seq<string>)
    ensures MirrorRows(Rows(Backward, lines), MirroredRows(lines))
    ensures Mirrors(Reading(Backward, lines), Text(MirroredRows(lines)))
  {
    MirrorText(Rows(Backward, lines), MirroredRows(lines));
  }

  /** A place on a line, in the mirrored rows. */
  lemma PlaceMirrored(lines: seq<string>, ms: seq<seq<Token>>, k: nat, i: nat, l: nat, x: nat)
    requires OnLine(lines, k, i) && ms == MirroredRows(lines) && k + l == |lines| - 1 && i + x == |lines[k]| - 1
    ensures OnLine(ms, l, x) && Place(lines, k, i) < |Reading(Backward, lines)|
    ensures Place(ms, l, x) == |Reading(Backward, lines)| - 1 - Place(lines, k, i)
    ensures ms[l][x] == MirrorToken(BackwardToken(lines[k], i))
  {
    assert ms[l] == MirroredLine(lines[k]);
    MirroredAt(lines[k], i);
    RowsMirrored(lines);
    MirrorOffset(Rows(Backward, lines), ms, k + 1);
    LineInText(Rows(Backward, lines), k);
    PlaceInRows(Backward, lines, k, i);
  }

  lemma ReverseByRows(lines: seq<string>, ms: seq<seq<Token>>, m: nat, j: nat, l: nat, y: nat)
    requires OnLine(lines, m, j) && ms == MirroredRows(lines) && m + l == |lines| - 1 && j + y == |lines[m]| - 1
    requires Entry(lines[m], j)
    ensures var scan := BackwardScan(lines[m], j, []);
            && y <= |ms[l]| && MirrorScan(scan, |lines[m]|) == TokenScan(ms[l], y, [])
            && SamePlace(lines, BackwardLines(lines, m, scan), RowsScan(TokenMove, ms, l, MirrorScan(scan, |lines[m]|)))
  {
    assert ms[l] == MirroredLine(lines[m]) && MirrorStack([]) == [];
    TokensRunBackward(lines[m], j, []);
    BackwardLinesRead(lines, ms, m, l, BackwardScan(lines[m], j, []));
  }

  lemma PairBackward(lines: seq<string>, ts: seq<Token>, ms: seq<Token>, p: nat, q: nat, x: nat, y: nat)
    requires ts == Reading(Backward, lines) && ms == Text(MirroredRows(lines)) && p + x == q + y == |ts| - 1
    ensures Pair(ms, y, x) <==> Pair(ts, p, q)
  {
    RowsMirrored(lines);
    BackwardRegular(lines);
    MirrorPair(ts, ms, p, q, x, y);
  }

  /** In the mirrored rows, the mate. */
  lemma MateMirrored(lines: seq<string>, ms: seq<seq<Token>>, m: nat, j: nat, k: nat, i: nat,
                     l: nat, y: nat, n: nat, x: nat)
    requires OnLine(lines, m, j) && OnLine(lines, k, i) && ms == MirroredRows(lines)
    requires m + l == k + n == |lines| - 1 && j + y == |lines[m]| - 1 && i + x == |lines[k]| - 1
    ensures OnLine(ms, l, y) && OnLine(ms, n, x) && ms[l][y] == MirrorToken(BackwardToken(lines[m], j))
    ensures Pair(Text(ms), Place(ms, l, y), Place(ms, n, x)) <==>
            Pair(Reading(Backward, lines), Place(lines, k, i), Place(lines, m, j))
  {
    PlaceMirrored(lines, ms, k, i, n, x);
    PlaceMirrored(lines, ms, m, j, l, y);
    PairBackward(lines, Reading(Backward, lines), Text(ms),
                 Place(lines, k, i), Place(lines, m, j), Place(ms, n, x), Place(ms, l, y));
  }

  lemma PlaceBack(lines: seq<string>, answer: (nat, int), mirrored: (nat, int), k: nat, i: nat, n: nat, x: nat)
    requires SamePlace(lines, answer, mirrored) && OnLine(lines, k, i)
    requires k + n == |lines| - 1 && i + x == |lines[k]| - 1
    ensures answer == (k, i) <==> mirrored == (n, x + 1)
  {}

  /** Reversing from a template bracket ends at its mate, by the backward reading. */
  lemma ReverseFindsMate(lines: seq<string>, k: nat, i: nat, m: nat, j: nat)
    requires OnLine(lines, k, i) && OnLine(lines, m, j) && BackwardToken(lines[m], j) == Greater
    ensures BackwardLines(lines, m, BackwardScan(lines[m], j, [])) == (k, i) <==>
            Pair(Reading(Backward, lines), Place(lines, k, i), Place(lines, m, j))
  {
    var ms, l, y, n, x := MirroredRows(lines), |lines| - 1 - m, |lines[m]| - 1 - j, |lines| - 1 - k, |lines[k]| - 1 - i;
    ReverseByRows(lines, ms, m, j, l, y);
    MateMirrored(lines, ms, m, j, k, i, l, y, n, x);
    var scan := BackwardScan(lines[m], j, []);
    var mirrored := MirrorScan(scan, |lines[m]|);
    RowsFindMate(ms, l, y, n, x, mirrored);
    PlaceBack(lines, BackwardLines(lines, m, scan), RowsScan(TokenMove, ms, l, mirrored), k, i, n, x);
  }
}
