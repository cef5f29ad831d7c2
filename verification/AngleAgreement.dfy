/** When closing and reversing from angle brackets agree. */
module AngleAgreement {
  import opened Brackets
  import opened AngleTokens
  import opened Angles

  // ----- Where the guards of the two scans agree

  predicate LessAt(line: string, i: int) { 0 <= i < |line| && line[i] == '<' }

  /** The '<' at `i` stands in a run of three or more. */
  predicate InLongRun(line: string, i: nat) {
    || (LessAt(line, i - 1) && LessAt(line, i - 2))
    || (LessAt(line, i - 1) && LessAt(line, i + 1))
    || (LessAt(line, i + 1) && LessAt(line, i + 2))
  }

  /** The guards of the two scans agree on the character at `i`: a '<' follows no `operator` and stands
      alone or in a `<<`, and both scans or neither take a '>' for part of an operator. */
  predicate GuardsAgree(line: string, i: nat)
    requires i < |line|
  {
    && (line[i] == '<' ==> !InLongRun(line, i))
    && (line[i] == '<' && i > 0 && line[i - 1] != '<' ==> !EndsWithOperator(line[..i]))
    && (line[i] == '>' ==> ForwardOperator(line, i) == OperatorGreater(line, i))
  }

  /** The token after the one at `i` takes it back. */
  predicate TakenBack(line: string, i: nat)
    requires i < |line|
  {
    i + 1 < |line| && ForwardToken(line, i + 1) == Shift
  }

  lemma TakenBackExactly(line: string, i: nat)
    requires i < |line|
    ensures TakenBack(line, i) <==> LessAt(line, i) && LessAt(line, i + 1)
  {}

  lemma LineAlike(line: string, i: nat)
    requires i < |line| && GuardsAgree(line, i)
    ensures if ForwardToken(line, i) == Less && TakenBack(line, i) then BackwardToken(line, i) == Plain
            else !TakenBack(line, i) &&
                 BackwardToken(line, i) == if ForwardToken(line, i) == Shift then Plain else ForwardToken(line, i)
  {
    TakenBackExactly(line, i);
    if LessAt(line, i) {
      assert RunAfter(line, i) == if LessAt(line, i + 1) then 1 else 0;
    }
  }

  lemma LineSameKind(line: string, i: nat)
    requires i < |line|
    ensures var f, b := ForwardToken(line, i), BackwardToken(line, i);
            if f.Bracket? || f == Semi then b == f && !TakenBack(line, i) else !b.Bracket? && b != Semi
  {
    TakenBackExactly(line, i);
  }

  // ----- From lines to the readings of a file

  lemma {:induction false} PlaceOf(lines: seq<string>, y: nat) returns (k: nat, i: nat)
    requires y < |Text(lines)|
    ensures OnLine(lines, k, i) && Place(lines, k, i) == y
  {
    if y < |lines[0]| {
      k, i := 0, y;
    } else {
      k, i := PlaceOf(lines[1..], y - |lines[0]|);
      k := k + 1;
    }
  }

  lemma SameLength(d: Direction, lines: seq<string>)
    ensures |Reading(d, lines)| == |Text(lines)|
  {
    SameOffsets(lines, Rows(d, lines), |lines|);
    OffsetAtEnd(lines);
    OffsetAtEnd(Rows(d, lines));
  }

  /** A line never takes back what stands on the line before. */
  lemma NextShift(lines: seq<string>, k: nat, i: nat, y: nat)
    requires OnLine(lines, k, i) && y == Place(lines, k, i)
    ensures ShiftAt(Reading(Forward, lines), y + 1) <==> TakenBack(lines[k], i)
  {
    SameLength(Forward, lines);
    if i + 1 < |lines[k]| {
      ReadingAt(Forward, lines, k, i + 1);
    } else if y + 1 < |Text(lines)| {
      var l, j := PlaceOf(lines, y + 1);
      if j > 0 { PositionUnique(lines, l, j - 1, k, i); }
      ReadingAt(Forward, lines, l, j);
    }
  }

  lemma ReadingSameKind(lines: seq<string>, y: nat)
    requires y < |Text(lines)| == |Reading(Forward, lines)| == |Reading(Backward, lines)|
    ensures SameKind(Reading(Forward, lines), Reading(Backward, lines), y)
  {
    var k, i := PlaceOf(lines, y);
    ReadingAt(Forward, lines, k, i);
    ReadingAt(Backward, lines, k, i);
    NextShift(lines, k, i, y);
    LineSameKind(lines[k], i);
  }

  lemma ReadingAlike(lines: seq<string>, k: nat, i: nat, y: nat)
    requires OnLine(lines, k, i) && y == Place(lines, k, i) && GuardsAgree(lines[k], i)
    requires y < |Text(lines)| == |Reading(Forward, lines)| == |Reading(Backward, lines)|
    ensures AlikeAt(Reading(Forward, lines), Reading(Backward, lines), y)
  {
    ReadingAt(Forward, lines, k, i);
    ReadingAt(Backward, lines, k, i);
    NextShift(lines, k, i, y);
    LineAlike(lines[k], i);
  }

  // ----- Outside round, square and curly brackets

  /** The round, square and curly brackets open before `i`, reading from `p` on. */
  ghost function HardTo(s: string, p: nat, i: nat): Scan
    requires p <= i <= |s|
    decreases i
  {
    if i == p then Unfinished([])
    else
      var r, c := HardTo(s, p, i - 1), s[i - 1];
      if !r.Unfinished? || !IsHard(c) then r
      else if IsOpen(c) then Unfinished(r.stack + [c])
      else if r.stack == [] || !Mates(Last(r.stack), c) then Broken
      else Unfinished(Pop(r.stack))
  }

  lemma {:induction false} HardReads(s: string, ts: seq<Token>, p: nat, i: nat)
    requires p <= i <= |s| == |ts| && ReadTo(ts, p, i).Open?
    requires forall y | 0 <= y < |s| :: (ts[y].Bracket? <==> IsHard(s[y])) && (ts[y].Bracket? ==> ts[y].c == s[y])
    ensures HardTo(s, p, i) == Unfinished(ReadTo(ts, p, i).hard)
    decreases i
  {
    if i == p {
    } else {
      HardReads(s, ts, p, i - 1);
    }
  }

  lemma ReadingBrackets(d: Direction, lines: seq<string>, y: nat)
    requires y < |Text(lines)| == |Reading(d, lines)|
    ensures var t, c := Reading(d, lines)[y], Text(lines)[y];
            (t.Bracket? <==> IsHard(c)) && (t.Bracket? ==> t.c == c)
  {
    var k, i := PlaceOf(lines, y);
    ReadingAt(d, lines, k, i);
    CharInText(lines, k, i);
  }

  /** Each reading keeps the round, square and curly brackets. */
  lemma LevelHard(d: Direction, lines: seq<string>, p: nat, y: nat)
    requires p <= y <= |Text(lines)| == |Reading(d, lines)| && ReadTo(Reading(d, lines), p, y).Open?
    ensures HardTo(Text(lines), p, y) == Unfinished(ReadTo(Reading(d, lines), p, y).hard)
  {
    forall x | 0 <= x < |Text(lines)|
      ensures var t, c := Reading(d, lines)[x], Text(lines)[x];
              (t.Bracket? <==> IsHard(c)) && (t.Bracket? ==> t.c == c)
    {
      ReadingBrackets(d, lines, x);
    }
    HardReads(Text(lines), Reading(d, lines), p, y);
  }

  /** The guards disagree on the character at `(k, i)`, which stands between the places `p` and `q`, or at
      `q`, and outside the round, square and curly brackets opened after `p`. */
  ghost predicate DisagreeAt(lines: seq<string>, p: nat, q: nat, k: nat, i: nat) {
    && OnLine(lines, k, i) && p < Place(lines, k, i) <= q < |Text(lines)|
    && HardTo(Text(lines), p + 1, Place(lines, k, i)) == Unfinished([]) && !GuardsAgree(lines[k], i)
  }

  ghost predicate AgreeBetween(lines: seq<string>, p: nat, q: nat) {
    forall k: nat, i: nat :: !DisagreeAt(lines, p, q, k, i)
  }

  lemma AlikeUnlessDisagree(lines: seq<string>, p: nat, q: nat, y: nat)
    requires p < y <= q < |Text(lines)| == |Reading(Forward, lines)| == |Reading(Backward, lines)|
    requires forall k: nat, i: nat | DisagreeAt(lines, p, q, k, i) :: Place(lines, k, i) != y
    requires Outside(ReadTo(Reading(Backward, lines), p + 1, y))
    ensures AlikeAt(Reading(Forward, lines), Reading(Backward, lines), y)
  {
    var k, i := PlaceOf(lines, y);
    LevelHard(Backward, lines, p + 1, y);
    assert !DisagreeAt(lines, p, q, k, i);
    ReadingAlike(lines, k, i, y);
  }

  lemma AlikeWhereAgreed(lines: seq<string>, f: seq<Token>, b: seq<Token>, p: nat, q: nat, x: nat, y: nat)
    requires f == Reading(Forward, lines) && b == Reading(Backward, lines)
    requires p < x <= y <= q + 1 <= |Text(lines)| == |f| == |b|
    requires forall k: nat, i: nat | DisagreeAt(lines, p, q, k, i) :: !(x <= Place(lines, k, i) < y)
    ensures AlikeOver(f, b, p + 1, x, y) && Regular(b)
  {
    BackwardRegular(lines);
    forall z | x <= z < y
      ensures SameKind(f, b, z) && (Outside(ReadTo(b, p + 1, z)) ==> AlikeAt(f, b, z))
    {
      ReadingSameKind(lines, z);
      if Outside(ReadTo(b, p + 1, z)) { AlikeUnlessDisagree(lines, p, q, z); }
    }
  }

  /** A '<' that closing starts from is a template bracket in both readings, or in none. */
  lemma StartAlike(line: string, i: nat)
    requires i < |line| && OpensAt(line, i) && ForwardToken(line, i) == Less
    ensures BackwardToken(line, i) == Less && !TakenBack(line, i)
  {
    TakenBackExactly(line, i);
  }

  /** Where the guards agree, the readings have the same pairs. */
  lemma PairsAgree(lines: seq<string>, k: nat, i: nat, p: nat, q: nat)
    requires OnLine(lines, k, i) && p == Place(lines, k, i) < q < |Text(lines)|
    requires OpensAt(lines[k], i) && ForwardToken(lines[k], i) == Less && AgreeBetween(lines, p, q)
    ensures Pair(Reading(Forward, lines), p, q) <==> Pair(Reading(Backward, lines), p, q)
  {
    var f, b := Reading(Forward, lines), Reading(Backward, lines);
    SameLength(Forward, lines);
    SameLength(Backward, lines);
    StartAlike(lines[k], i);
    ReadingAt(Forward, lines, k, i);
    ReadingAt(Backward, lines, k, i);
    NextShift(lines, k, i, p);
    AlikeWhereAgreed(lines, f, b, p, q, p + 1, q + 1);
    PairAlike(f, b, p, q);
  }

  // ----- Where the guards disagree once

  /** One reading takes a bracket that the other does not. */
  lemma LineApart(line: string, i: nat, l: Level)
    requires i < |line| && !GuardsAgree(line, i) && !InLongRun(line, i) && Outside(l)
    ensures ForwardToken(line, i) != Shift
    ensures var lf, lb := Read(l, ForwardToken(line, i)), Read(l, BackwardToken(line, i));
            lf.Open? && lb.Open? ==>
              lf.hard == lb.hard == [] && lf.angles != lb.angles + if TakenBack(line, i) then 1 else 0
  {
    TakenBackExactly(line, i);
    if LessAt(line, i) {
      assert RunAfter(line, i) == if LessAt(line, i + 1) then 1 else 0;
    }
  }

  /** Up to the first disagreement the readings reach the same level. */
  lemma LevelsAgree(lines: seq<string>, k: nat, i: nat, p: nat, q: nat, y: nat)
    requires OnLine(lines, k, i) && p == Place(lines, k, i) < y <= q < |Text(lines)|
    requires OpensAt(lines[k], i) && ForwardToken(lines[k], i) == Less
    requires forall l: nat, j: nat | DisagreeAt(lines, p, q, l, j) :: Place(lines, l, j) >= y
    requires |Text(lines)| == |Reading(Forward, lines)| == |Reading(Backward, lines)|
    ensures InStep(Reading(Forward, lines), y,
                   ReadTo(Reading(Forward, lines), p + 1, y), ReadTo(Reading(Backward, lines), p + 1, y))
  {
    var f, b := Reading(Forward, lines), Reading(Backward, lines);
    NextShift(lines, k, i, p);
    StartAlike(lines[k], i);
    AlikeWhereAgreed(lines, f, b, p, q, p + 1, y);
    ReadAlike(f, b, p + 1, y);
  }

  lemma OpenBefore(ts: seq<Token>, p: nat, x: nat, q: nat)
    requires p <= x <= q <= |ts| && ReadTo(ts, p, q).Open?
    ensures ReadTo(ts, p, x).Open?
  {
    if !ReadTo(ts, p, x).Open? { ReadStuck(ts, p, x, q); }
  }

  /** The levels at the one disagreement and after it. */
  lemma ApartAt(lines: seq<string>, k: nat, i: nat, p: nat, q: nat, l: nat, j: nat, y: nat) returns (d: int)
    requires OnLine(lines, k, i) && p == Place(lines, k, i) && OpensAt(lines[k], i) && ForwardToken(lines[k], i) == Less
    requires DisagreeAt(lines, p, q, l, j) && y == Place(lines, l, j) < q && !InLongRun(lines[l], j)
    requires forall m: nat, n: nat | DisagreeAt(lines, p, q, m, n) :: Place(lines, m, n) == y
    requires |Text(lines)| == |Reading(Forward, lines)| == |Reading(Backward, lines)|
    requires ReadTo(Reading(Forward, lines), p + 1, y + 1).Open? && ReadTo(Reading(Backward, lines), p + 1, y + 1).Open?
    ensures d != 0
    ensures ApartBy(Reading(Forward, lines), y + 1,
                    ReadTo(Reading(Forward, lines), p + 1, y + 1), ReadTo(Reading(Backward, lines), p + 1, y + 1), d)
  {
    var f, b := Reading(Forward, lines), Reading(Backward, lines);
    LevelsAgree(lines, k, i, p, q, y);
    LevelHard(Backward, lines, p + 1, y);
    ReadingAt(Forward, lines, l, j);
    ReadingAt(Backward, lines, l, j);
    NextShift(lines, l, j, y);
    var level := ReadTo(b, p + 1, y);
    LineApart(lines[l], j, level);
    d := ReadTo(f, p + 1, y + 1).angles - ReadTo(b, p + 1, y + 1).angles - if TakenBack(lines[l], j) then 1 else 0;
  }

  /** Where the guards disagree just once, no pair of one reading is a pair of the other. */
  lemma DisagreeOnce(lines: seq<string>, k: nat, i: nat, p: nat, q: nat, l: nat, j: nat)
    requires OnLine(lines, k, i) && p == Place(lines, k, i) && OpensAt(lines[k], i) && ForwardToken(lines[k], i) == Less
    requires DisagreeAt(lines, p, q, l, j) && !InLongRun(lines[l], j)
    requires forall m: nat, n: nat | DisagreeAt(lines, p, q, m, n) :: Place(lines, m, n) == Place(lines, l, j)
    ensures !(Pair(Reading(Forward, lines), p, q) && Pair(Reading(Backward, lines), p, q))
  {
    if Pair(Reading(Forward, lines), p, q) && Pair(Reading(Backward, lines), p, q) {
      SameLength(Forward, lines);
      SameLength(Backward, lines);
      if Place(lines, l, j) == q {
        ReadingAt(Forward, lines, l, j);
        ReadingAt(Backward, lines, l, j);
      } else {
        OpenBefore(Reading(Forward, lines), p + 1, Place(lines, l, j) + 1, q);
        OpenBefore(Reading(Backward, lines), p + 1, Place(lines, l, j) + 1, q);
        var d := ApartAt(lines, k, i, p, q, l, j, Place(lines, l, j));
        AlikeWhereAgreed(lines, Reading(Forward, lines), Reading(Backward, lines), p, q, Place(lines, l, j) + 1, q);
        ApartNotPairs(Reading(Forward, lines), Reading(Backward, lines), p, Place(lines, l, j) + 1, q, d);
      }
    }
  }

  /** Where the guards agree, closing from the '<' at `(k, i)` ends just past the '>' at `(m, j)` exactly
      when reversing from there ends at `(k, i)`. */
  lemma ClosingIsReversing(lines: seq<string>, k: nat, i: nat, m: nat, j: nat)
    requires OnLine(lines, k, i) && OpensAt(lines[k], i) && ForwardToken(lines[k], i) == Less
    requires OnLine(lines, m, j) && BackwardToken(lines[m], j) == Greater
    requires AgreeBetween(lines, Place(lines, k, i), Place(lines, m, j))
    ensures ForwardLines(lines, k, ForwardScan(lines[k], i, [])) == (m, j + 1) <==>
            BackwardLines(lines, m, BackwardScan(lines[m], j, [])) == (k, i)
  {
    CloseFindsMate(lines, k, i, m, j);
    ReverseFindsMate(lines, k, i, m, j);
    CharInText(lines, m, j);
    if Place(lines, k, i) < Place(lines, m, j) {
      PairsAgree(lines, k, i, Place(lines, k, i), Place(lines, m, j));
    }
  }

  /** The guards disagree at no more than one place, and there not over a run of three or more '<'. */
  ghost predicate DisagreeAtMostOnce(lines: seq<string>, p: nat, q: nat) {
    && (forall k: nat, i: nat | DisagreeAt(lines, p, q, k, i) :: !InLongRun(lines[k], i))
    && forall k: nat, i: nat, m: nat, j: nat | DisagreeAt(lines, p, q, k, i) && DisagreeAt(lines, p, q, m, j) ::
         Place(lines, k, i) == Place(lines, m, j)
  }

  /** Over at most one disagreement, the agreement of the guards is necessary as well: if closing ends
      just past `(m, j)` or reversing ends at `(k, i)`, both do exactly when the guards agree. */
  lemma AgreeExactly(lines: seq<string>, k: nat, i: nat, m: nat, j: nat)
    requires OnLine(lines, k, i) && OpensAt(lines[k], i) && ForwardToken(lines[k], i) == Less
    requires OnLine(lines, m, j) && BackwardToken(lines[m], j) == Greater
    requires DisagreeAtMostOnce(lines, Place(lines, k, i), Place(lines, m, j))
    ensures var closes := ForwardLines(lines, k, ForwardScan(lines[k], i, [])) == (m, j + 1);
            var reverses := BackwardLines(lines, m, BackwardScan(lines[m], j, [])) == (k, i);
            closes || reverses ==>
              (closes && reverses <==> AgreeBetween(lines, Place(lines, k, i), Place(lines, m, j)))
  {
    var p, q := Place(lines, k, i), Place(lines, m, j);
    if AgreeBetween(lines, p, q) {
      ClosingIsReversing(lines, k, i, m, j);
    } else {
      CloseFindsMate(lines, k, i, m, j);
      ReverseFindsMate(lines, k, i, m, j);
      var l: nat, n: nat :| DisagreeAt(lines, p, q, l, n);
      DisagreeOnce(lines, k, i, p, q, l, n);
    }
  }
}
