/** Closing and reversing from any bracket, as the linter calls them: what they find, and when they undo
    each other. */
module AngleExpressions {
  import opened Brackets
  import opened AngleTokens
  import opened Angles
  import opened AngleAgreement

  // ----- Closing and reversing from any bracket

  /** From `i` on, the first bracket that goes on the stack is the one at `j`, and nothing before it
      breaks the scan off. */
  ghost predicate StartsAt(line: string, i: nat, j: nat) {
    i <= j < |line| && Opening(ForwardToken(line, j)) && forall x | i <= x < j :: Idle(ForwardToken(line, x))
  }

  /** The same from `i` to the left. */
  ghost predicate EndsAt(line: string, i: nat, j: nat) {
    && j <= i < |line| && Opening(MirrorToken(BackwardToken(line, j)))
    && forall x | j < x <= i :: Idle(MirrorToken(BackwardToken(line, x)))
  }

  lemma StartsExactly(line: string, i: nat, j: nat)
    ensures Starts(LineTokens(Forward, line), i, j) <==> StartsAt(line, i, j)
  {
    forall x | 0 <= x < |line| ensures LineTokens(Forward, line)[x] == ForwardToken(line, x) {}
  }

  lemma EndsExactly(line: string, i: nat, j: nat, x: nat, y: nat)
    requires i < |line| && i + x == j + y == |line| - 1
    ensures Starts(MirroredLine(line), x, y) <==> EndsAt(line, i, j)
  {
    forall z | 0 <= z < |line| ensures MirroredLine(line)[|line| - 1 - z] == MirrorToken(BackwardToken(line, z)) {
      MirroredAt(line, z);
    }
    if EndsAt(line, i, j) {
      forall z | x <= z < y ensures Idle(MirroredLine(line)[z]) {
        assert Idle(MirrorToken(BackwardToken(line, |line| - 1 - z)));
      }
    }
    if Starts(MirroredLine(line), x, y) {
      forall z | j < z <= i ensures Idle(MirrorToken(BackwardToken(line, z))) {
        assert Idle(MirroredLine(line)[|line| - 1 - z]);
      }
    }
  }

  lemma ScanFromStart(line: string, i: nat, j: nat)
    requires StartsAt(line, i, j)
    ensures ForwardScan(line, i, []) == ForwardScan(line, j, [])
  {
    StartsExactly(line, i, j);
    SkipToStart(LineTokens(Forward, line), i, j);
    TokensRunForward(line, i, []);
    TokensRunForward(line, j, []);
  }

  lemma ScanWithoutStart(line: string, i: nat)
    requires i <= |line| && forall j :: !StartsAt(line, i, j)
    ensures ForwardScan(line, i, []) in {Broken, Unfinished([])}
  {
    forall j ensures !Starts(LineTokens(Forward, line), i, j) {
      StartsExactly(line, i, j);
    }
    NoStart(LineTokens(Forward, line), i);
    TokensRunForward(line, i, []);
  }

  /** The mate of the bracket at `(k, j)` that went on the stack first. */
  ghost predicate ClosedBy(lines: seq<string>, k: nat, j: nat, m: nat, q: nat)
    requires OnLine(lines, k, j) && OnLine(lines, m, q)
  {
    if ForwardToken(lines[k], j) == Less then Pair(Reading(Forward, lines), Place(lines, k, j), Place(lines, m, q))
    else ForwardFrom(lines, k, j) == Found(Place(lines, m, q) + 1)
  }

  lemma CloseFrom(lines: seq<string>, k: nat, j: nat, m: nat, q: nat)
    requires OnLine(lines, k, j) && OnLine(lines, m, q) && Opening(ForwardToken(lines[k], j))
    ensures ForwardLines(lines, k, ForwardScan(lines[k], j, [])) == (m, q + 1) <==> ClosedBy(lines, k, j, m, q)
  {
    if ForwardToken(lines[k], j) == Less {
      CloseFindsMate(lines, k, j, m, q);
    } else {
      ForwardFromHardAnswer(lines, k, j);
      var answer := ForwardLines(lines, k, ForwardScan(lines[k], j, []));
      if ClosedBy(lines, k, j, m, q) { PositionUnique(lines, answer.0, answer.1 - 1, m, q); }
    }
  }

  ghost predicate CloseMeets(lines: seq<string>, k: nat, j: nat, answer: (nat, int))
    requires OnLine(lines, k, j)
  {
    if answer.1 == -1 then forall m: nat, q: nat | OnLine(lines, m, q) :: !ClosedBy(lines, k, j, m, q)
    else OnLine(lines, answer.0, answer.1 - 1) && ClosedBy(lines, k, j, answer.0, answer.1 - 1)
  }

  lemma CloseMeetsMate(lines: seq<string>, k: nat, j: nat, answer: (nat, int))
    requires OnLine(lines, k, j) && Opening(ForwardToken(lines[k], j))
    requires answer == ForwardLines(lines, k, ForwardScan(lines[k], j, []))
    ensures CloseMeets(lines, k, j, answer)
  {
    ForwardLinesPlace(lines, k, ForwardScan(lines[k], j, []));
    if answer.1 == -1 {
      forall m: nat, q: nat | OnLine(lines, m, q) ensures !ClosedBy(lines, k, j, m, q) {
        CloseFrom(lines, k, j, m, q);
      }
    } else {
      CloseFrom(lines, k, j, answer.0, answer.1 - 1);
    }
  }

  /** Closing from any bracket: the answer is just past the mate of the first bracket that goes on the
      stack, and there is none exactly when no bracket does or that bracket has no mate. */
  method CloseAtMate(lines: seq<string>, linenum: nat, pos: nat) returns (line: string, endLine: nat, endPos: int)
    requires OnLine(lines, linenum, pos)
    ensures endPos != -1 ==> OpensAt(lines[linenum], pos) && exists j :: StartsAt(lines[linenum], pos, j)
    ensures OpensAt(lines[linenum], pos) ==>
              forall j | StartsAt(lines[linenum], pos, j) :: CloseMeets(lines, linenum, j, (endLine, endPos))
  {
    line, endLine, endPos := CloseExpression(lines, linenum, pos);
    if OpensAt(lines[linenum], pos) {
      if !exists j :: StartsAt(lines[linenum], pos, j) { ScanWithoutStart(lines[linenum], pos); }
      forall j | StartsAt(lines[linenum], pos, j) ensures CloseMeets(lines, linenum, j, (endLine, endPos)) {
        ScanFromStart(lines[linenum], pos, j);
        CloseMeetsMate(lines, linenum, j, (endLine, endPos));
      }
    }
  }

  /** Two answers that are the same in the mirrored rows are the same. */
  lemma SamePlaceUnique(lines: seq<string>, a: (nat, int), b: (nat, int), mirrored: (nat, int))
    requires SamePlace(lines, a, mirrored) && SamePlace(lines, b, mirrored)
    ensures a == b
  {}

  lemma ReverseFromEnd(lines: seq<string>, m: nat, i: nat, j: nat, l: nat, x: nat, y: nat)
    requires OnLine(lines, m, i) && Entry(lines[m], i) && EndsAt(lines[m], i, j)
    requires m + l == |lines| - 1 && i + x == j + y == |lines[m]| - 1
    ensures BackwardLines(lines, m, BackwardScan(lines[m], i, [])) ==
            BackwardLines(lines, m, BackwardScan(lines[m], j, []))
  {
    var ms, n := MirroredRows(lines), |lines[m]|;
    var fromI, fromJ := BackwardScan(lines[m], i, []), BackwardScan(lines[m], j, []);
    ReverseByRows(lines, ms, m, i, l, x);
    ReverseByRows(lines, ms, m, j, l, y);
    assert ms[l] == MirroredLine(lines[m]);
    EndsExactly(lines[m], i, j, x, y);
    SkipToStart(ms[l], x, y);
    SamePlaceUnique(lines, BackwardLines(lines, m, fromI), BackwardLines(lines, m, fromJ),
                    RowsScan(TokenMove, ms, l, MirrorScan(fromI, n)));
  }

  lemma ReverseWithoutEnd(line: string, i: nat, x: nat)
    requires Entry(line, i) && i + x == |line| - 1 && forall j :: !EndsAt(line, i, j)
    ensures BackwardScan(line, i, []) in {Broken, Unfinished([])}
  {
    var ms := MirroredLine(line);
    forall y ensures !Starts(ms, x, y) {
      if Starts(ms, x, y) { EndsExactly(line, i, |line| - 1 - y, x, y); }
    }
    NoStart(ms, x);
    assert MirrorStack([]) == [];
    TokensRunBackward(line, i, []);
  }

  /** The mate of the bracket at `(m, j)` that went on the stack first, reading backward. */
  ghost predicate OpenedBy(lines: seq<string>, m: nat, j: nat, k: nat, p: nat)
    requires OnLine(lines, m, j) && OnLine(lines, k, p)
  {
    if BackwardToken(lines[m], j) == Greater then Pair(Reading(Backward, lines), Place(lines, k, p), Place(lines, m, j))
    else BackwardFrom(lines, m, j) == Found(Place(lines, k, p))
  }

  lemma ReverseFrom(lines: seq<string>, m: nat, j: nat, k: nat, p: nat)
    requires OnLine(lines, m, j) && OnLine(lines, k, p) && Opening(MirrorToken(BackwardToken(lines[m], j)))
    ensures BackwardLines(lines, m, BackwardScan(lines[m], j, [])) == (k, p) <==> OpenedBy(lines, m, j, k, p)
  {
    if BackwardToken(lines[m], j) == Greater {
      ReverseFindsMate(lines, k, p, m, j);
    } else {
      BackwardFromHardAnswer(lines, m, j);
      var answer := BackwardLines(lines, m, BackwardScan(lines[m], j, []));
      if OpenedBy(lines, m, j, k, p) { PositionUnique(lines, answer.0, answer.1, k, p); }
    }
  }

  ghost predicate ReverseMeets(lines: seq<string>, m: nat, j: nat, answer: (nat, int))
    requires OnLine(lines, m, j)
  {
    if answer.1 == -1 then forall k: nat, p: nat | OnLine(lines, k, p) :: !OpenedBy(lines, m, j, k, p)
    else OnLine(lines, answer.0, answer.1) && OpenedBy(lines, m, j, answer.0, answer.1)
  }

  lemma ReverseMeetsMate(lines: seq<string>, m: nat, j: nat, answer: (nat, int))
    requires OnLine(lines, m, j) && Opening(MirrorToken(BackwardToken(lines[m], j)))
    requires answer == BackwardLines(lines, m, BackwardScan(lines[m], j, []))
    ensures ReverseMeets(lines, m, j, answer)
  {
    BackwardLinesPlace(lines, m, BackwardScan(lines[m], j, []));
    if answer.1 == -1 {
      forall k: nat, p: nat | OnLine(lines, k, p) ensures !OpenedBy(lines, m, j, k, p) {
        ReverseFrom(lines, m, j, k, p);
      }
    } else {
      ReverseFrom(lines, m, j, answer.0, answer.1);
    }
  }

  /** Reversing from any bracket, likewise. */
  method ReverseAtMate(lines: seq<string>, linenum: nat, pos: nat) returns (line: string, startLine: nat, startPos: int)
    requires OnLine(lines, linenum, pos)
    ensures startPos != -1 ==> ClosesAt(lines[linenum], pos) && exists j :: EndsAt(lines[linenum], pos, j)
    ensures ClosesAt(lines[linenum], pos) ==>
              forall j | EndsAt(lines[linenum], pos, j) :: ReverseMeets(lines, linenum, j, (startLine, startPos))
  {
    line, startLine, startPos := ReverseCloseExpression(lines, linenum, pos);
    if ClosesAt(lines[linenum], pos) {
      ghost var l, x := |lines| - 1 - linenum, |lines[linenum]| - 1 - pos;
      if !exists j :: EndsAt(lines[linenum], pos, j) { ReverseWithoutEnd(lines[linenum], pos, x); }
      forall j | EndsAt(lines[linenum], pos, j) ensures ReverseMeets(lines, linenum, j, (startLine, startPos)) {
        ReverseFromEnd(lines, linenum, pos, j, l, x, |lines[linenum]| - 1 - j);
        ReverseMeetsMate(lines, linenum, j, (startLine, startPos));
      }
    }
  }

  // ----- What stands between a bracket and its mate

  /** A pair of brackets of one kind, between which round, square and curly brackets nest. */
  ghost predicate Encloses(s: string, p: nat, q: nat) {
    && p < q < |s| && (Mates(s[p], s[q]) || (s[p] == '<' && s[q] == '>'))
    && HardTo(s, p + 1, q) == Unfinished([])
  }

  lemma PopAbove(c: char, hard: seq<char>)
    requires hard != []
    ensures Pop([c] + hard) == [c] + Pop(hard) && Last([c] + hard) == Last(hard)
  {}

  lemma {:induction false} MatchEncloses(s: string, p: nat, i: nat, hard: seq<char>, e: nat)
    requires p < i <= |s| && HardTo(s, p + 1, i) == Unfinished(hard) && MatchForward(s, i, [s[p]] + hard) == Found(e)
    ensures i < e <= |s| && Mates(s[p], s[e - 1]) && HardTo(s, p + 1, e - 1) == Unfinished([])
    decreases |s| - i
  {
    var stack, c := [s[p]] + hard, s[i];
    if IsOpen(c) {
      assert stack + [c] == [s[p]] + (hard + [c]);
      MatchEncloses(s, p, i + 1, hard + [c], e);
    } else if IsClose(c) {
      if hard != [] {
        PopAbove(s[p], hard);
        MatchEncloses(s, p, i + 1, Pop(hard), e);
      }
    } else {
      MatchEncloses(s, p, i + 1, hard, e);
    }
  }

  lemma HardEncloses(s: string, p: nat, q: nat)
    requires p < |s| && IsOpen(s[p]) && MatchForward(s, p, []) == Found(q + 1)
    ensures Encloses(s, p, q)
  {
    assert [] + [s[p]] == [s[p]] == [s[p]] + [];
    MatchEncloses(s, p, p + 1, [], q + 1);
  }

  lemma PairEncloses(d: Direction, lines: seq<string>, k: nat, i: nat, m: nat, j: nat)
    requires OnLine(lines, k, i) && OnLine(lines, m, j)
    requires Pair(Reading(d, lines), Place(lines, k, i), Place(lines, m, j))
    ensures Encloses(Text(lines), Place(lines, k, i), Place(lines, m, j))
  {
    SameLength(d, lines);
    ReadingAt(d, lines, k, i);
    ReadingAt(d, lines, m, j);
    CharInText(lines, k, i);
    CharInText(lines, m, j);
    LevelHard(d, lines, Place(lines, k, i) + 1, Place(lines, m, j));
  }

  lemma ClosedEncloses(lines: seq<string>, k: nat, i: nat, m: nat, j: nat)
    requires OnLine(lines, k, i) && OnLine(lines, m, j)
    requires Opening(ForwardToken(lines[k], i)) && ClosedBy(lines, k, i, m, j)
    ensures Encloses(Text(lines), Place(lines, k, i), Place(lines, m, j))
  {
    if ForwardToken(lines[k], i) == Less {
      PairEncloses(Forward, lines, k, i, m, j);
    } else {
      CharInText(lines, k, i);
      HardEncloses(Text(lines), Place(lines, k, i), Place(lines, m, j));
    }
  }

  lemma OpenedEncloses(lines: seq<string>, m: nat, j: nat, k: nat, i: nat)
    requires OnLine(lines, k, i) && OnLine(lines, m, j)
    requires Opening(MirrorToken(BackwardToken(lines[m], j))) && OpenedBy(lines, m, j, k, i)
    ensures Encloses(Text(lines), Place(lines, k, i), Place(lines, m, j))
  {
    if BackwardToken(lines[m], j) == Greater {
      PairEncloses(Backward, lines, k, i, m, j);
    } else {
      RoundTrip(lines, k, i, m, j);
      CharInText(lines, k, i);
      HardEncloses(Text(lines), Place(lines, k, i), Place(lines, m, j));
    }
  }

  // ----- Round trips from template brackets

  lemma PairEnds(lines: seq<string>, k: nat, i: nat, m: nat, j: nat)
    requires OnLine(lines, k, i) && OnLine(lines, m, j)
    ensures Pair(Reading(Forward, lines), Place(lines, k, i), Place(lines, m, j)) ==>
              ForwardToken(lines[k], i) == Less && ForwardToken(lines[m], j) == Greater
    ensures Pair(Reading(Backward, lines), Place(lines, k, i), Place(lines, m, j)) ==>
              BackwardToken(lines[k], i) == Less && BackwardToken(lines[m], j) == Greater
  {
    ReadingAt(Forward, lines, k, i);
    ReadingAt(Forward, lines, m, j);
    ReadingAt(Backward, lines, k, i);
    ReadingAt(Backward, lines, m, j);
  }

  /** From `(m, i)`, reversing reaches `(k, p)`. */
  ghost predicate ReverseReaches(lines: seq<string>, m: nat, i: nat, k: nat, p: nat)
    requires OnLine(lines, m, i) && OnLine(lines, k, p)
  {
    exists j :: EndsAt(lines[m], i, j) && OpenedBy(lines, m, j, k, p)
  }

  lemma ReversesExactly(lines: seq<string>, m: nat, i: nat, k: nat, p: nat)
    requires OnLine(lines, m, i) && OnLine(lines, k, p) && Entry(lines[m], i)
    ensures BackwardLines(lines, m, BackwardScan(lines[m], i, [])) == (k, p) <==> ReverseReaches(lines, m, i, k, p)
  {
    var l, x := |lines| - 1 - m, |lines[m]| - 1 - i;
    if !exists j :: EndsAt(lines[m], i, j) { ReverseWithoutEnd(lines[m], i, x); }
    forall j | EndsAt(lines[m], i, j)
      ensures BackwardLines(lines, m, BackwardScan(lines[m], i, [])) == (k, p) <==> OpenedBy(lines, m, j, k, p)
    {
      ReverseFromEnd(lines, m, i, j, l, x, |lines[m]| - 1 - j);
      ReverseFrom(lines, m, j, k, p);
    }
  }

  /** What reversing from the end of a pair of the forward reading says. */
  ghost predicate Returns(lines: seq<string>, k: nat, i: nat, m: nat, j: nat, back: (nat, int))
    requires OnLine(lines, k, i) && OnLine(lines, m, j)
  {
    && (back == (k, i) <==> ReverseReaches(lines, m, j, k, i))
    && (AgreeBetween(lines, Place(lines, k, i), Place(lines, m, j)) ==> back == (k, i))
  }

  lemma PairReturns(lines: seq<string>, k: nat, i: nat, m: nat, j: nat)
    requires OnLine(lines, k, i) && OnLine(lines, m, j) && OpensAt(lines[k], i)
    requires Pair(Reading(Forward, lines), Place(lines, k, i), Place(lines, m, j))
    ensures ClosesAt(lines[m], j) && Returns(lines, k, i, m, j, BackwardLines(lines, m, BackwardScan(lines[m], j, [])))
  {
    PairEnds(lines, k, i, m, j);
    ReversesExactly(lines, m, j, k, i);
    if AgreeBetween(lines, Place(lines, k, i), Place(lines, m, j)) {
      CharInText(lines, m, j);
      PairsAgree(lines, k, i, Place(lines, k, i), Place(lines, m, j));
      ReverseFindsMate(lines, k, i, m, j);
    }
  }

  /** What closing from a template bracket and reversing from the character before the end say. */
  ghost predicate ThereAndBack(lines: seq<string>, k: nat, i: nat, there: (nat, int), back: (nat, int))
    requires OnLine(lines, k, i)
  {
    && CloseMeets(lines, k, i, there)
    && (there.1 != -1 ==> Returns(lines, k, i, there.0, there.1 - 1, back))
  }

  lemma GoThereAndBack(lines: seq<string>, k: nat, i: nat, there: (nat, int))
    requires OnLine(lines, k, i) && OpensAt(lines[k], i) && ForwardToken(lines[k], i) == Less
    requires there == ForwardLines(lines, k, ForwardScan(lines[k], i, []))
    ensures there.1 == -1 ==> ThereAndBack(lines, k, i, there, (0, -1))
    ensures there.1 != -1 ==>
              && OnLine(lines, there.0, there.1 - 1) && ClosesAt(lines[there.0], there.1 - 1)
              && ThereAndBack(lines, k, i, there,
                              BackwardLines(lines, there.0, BackwardScan(lines[there.0], there.1 - 1, [])))
  {
    CloseMeetsMate(lines, k, i, there);
    if there.1 != -1 { PairReturns(lines, k, i, there.0, there.1 - 1); }
  }

  /** Closing a template bracket and reversing from the character before the end: comes back exactly when
      the backward reading has the same mate, and so whenever the guards agree in between. */
  method CloseThenReverseAngle(lines: seq<string>, linenum: nat, pos: nat)
    returns (endLine: nat, endPos: int, backLine: nat, backPos: int)
    requires OnLine(lines, linenum, pos) && OpensAt(lines[linenum], pos) && ForwardToken(lines[linenum], pos) == Less
    ensures ThereAndBack(lines, linenum, pos, (endLine, endPos), (backLine, backPos))
  {
    var _, l, e := CloseExpression(lines, linenum, pos);
    GoThereAndBack(lines, linenum, pos, (l, e));
    endLine, endPos, backLine, backPos := l, e, 0, -1;
    if e != -1 {
      var _, k, p := ReverseCloseExpression(lines, l, e - 1);
      backLine, backPos := k, p;
    }
  }

  /** What closing from the start of a pair of the backward reading says. */
  ghost predicate ReturnsForward(lines: seq<string>, m: nat, j: nat, k: nat, i: nat, back: (nat, int))
    requires OnLine(lines, k, i) && OnLine(lines, m, j)
  {
    OpensAt(lines[k], i) && ForwardToken(lines[k], i) == Less ==>
      && (back == (m, j + 1) <==> ClosedBy(lines, k, i, m, j))
      && (AgreeBetween(lines, Place(lines, k, i), Place(lines, m, j)) ==> back == (m, j + 1))
  }

  lemma PairReturnsForward(lines: seq<string>, m: nat, j: nat, k: nat, i: nat)
    requires OnLine(lines, k, i) && OnLine(lines, m, j)
    requires Pair(Reading(Backward, lines), Place(lines, k, i), Place(lines, m, j))
    ensures ReturnsForward(lines, m, j, k, i, ForwardLines(lines, k, ForwardScan(lines[k], i, [])))
  {
    if OpensAt(lines[k], i) && ForwardToken(lines[k], i) == Less {
      CloseFrom(lines, k, i, m, j);
      if AgreeBetween(lines, Place(lines, k, i), Place(lines, m, j)) {
        CharInText(lines, m, j);
        PairsAgree(lines, k, i, Place(lines, k, i), Place(lines, m, j));
      }
    }
  }

  method ReverseThenCloseAngle(lines: seq<string>, linenum: nat, pos: nat)
    returns (startLine: nat, startPos: int, backLine: nat, backPos: int)
    requires OnLine(lines, linenum, pos) && BackwardToken(lines[linenum], pos) == Greater
    ensures ReverseMeets(lines, linenum, pos, (startLine, startPos))
    ensures startPos != -1 ==> ReturnsForward(lines, linenum, pos, startLine, startPos, (backLine, backPos))
  {
    var _, k, p := ReverseCloseExpression(lines, linenum, pos);
    ReverseMeetsMate(lines, linenum, pos, (k, p));
    startLine, startPos, backLine, backPos := k, p, 0, -1;
    if p != -1 {
      PairReturnsForward(lines, linenum, pos, k, p);
      var _, l, e := CloseExpression(lines, k, p);
      backLine, backPos := l, e;
    }
  }

  /** The guards disagree on the '>' of a comparison: closing takes it for the end of a template, and
      reversing from there finds nothing. */
  method ComparisonNotReversed() returns (endLine: nat, endPos: int, backLine: nat, backPos: int)
    ensures !GuardsAgree(COMPARISON, 2)
    ensures endLine == 0 && endPos == 3
    ensures backLine == 0 && backPos == -1
  {
    AnglesDisagree();
    assert OperatorGreater(COMPARISON, 2) by { assert SpacedGreaterEqual(COMPARISON[1..]); }
    assert !ForwardOperator(COMPARISON, 2) by { NotOperator(COMPARISON[..1]); }
    var _, l, e := CloseExpression([COMPARISON], 0, 0);
    var _, k, p := ReverseCloseExpression([COMPARISON], 0, 2);
    return l, e, k, p;
  }

  // ----- Two disagreements may cancel

  const CANCELLING := "<operator<operator=>>"

  lemma NotAfterOperator(s: string)
    requires s != [] && s[|s| - 1] != 'r' && !IsSpace(s[|s| - 1])
    ensures !EndsWithOperator(s)
  {
    if |s| >= 8 { assert s[|s| - 8..][7] == s[|s| - 1]; }
  }

  lemma AfterOperator(s: string, n: nat)
    requires n > 0 && n + 8 == |s| && s[n..] == "operator" && s[n - 1] == '<'
    ensures EndsWithOperator(s)
  {
    assert s[|s| - 1] == s[n..][7];
    assert TrimRight(s) == s;
  }

  lemma OperatorBefore(line: string, i: nat)
    requires 8 < i <= |line| && line[i - 8..i] == "operator" && line[i - 9] == '<'
    ensures EndsWithOperator(line[..i])
  {
    assert line[..i][i - 8..] == line[i - 8..i];
    AfterOperator(line[..i], i - 8);
  }

  lemma PlainTokens(line: string, i: nat)
    requires i < |line| && !IsHard(line[i]) && line[i] !in {'<', '>', ';'}
    ensures ForwardToken(line, i) == BackwardToken(line, i) == Plain
  {}

  /** A '<' after `operator` counts backward only. */
  lemma LessTokens(line: string, i: nat)
    requires i < |line| && LessAt(line, i) && !LessAt(line, i - 1) && !LessAt(line, i + 1)
    ensures ForwardToken(line, i) == if i > 0 && EndsWithOperator(line[..i]) then Plain else Less
    ensures BackwardToken(line, i) == Less
  {
    assert RunAfter(line, i) == 0;
  }

  /** A '>' after `operator` and one more character counts backward only. */
  lemma GreaterTokens(line: string, i: nat)
    requires 0 < i < |line| && line[i] == '>' && line[i - 1] != '-' && !IsSpace(line[i - 1])
    ensures ForwardToken(line, i) == if EndsWithOperator(line[..i - 1]) then Plain else Greater
    ensures BackwardToken(line, i) == if EndsWithOperator(line[..i]) then Plain else Greater
  {}

  lemma OperatorLess(line: string, i: nat)
    requires 8 < i < |line| && line[i - 8..i] == "operator" && line[i - 9] == '<'
    requires LessAt(line, i) && !LessAt(line, i - 1) && !LessAt(line, i + 1)
    ensures ForwardToken(line, i) == Plain && BackwardToken(line, i) == Less
  {
    OperatorBefore(line, i);
    LessTokens(line, i);
  }

  lemma OperatorAndGreater(line: string, i: nat)
    requires 8 < i < |line| - 1 && line[i - 8..i] == "operator" && line[i - 9] == '<'
    requires line[i] == '=' && line[i + 1] == '>'
    ensures ForwardToken(line, i + 1) == Plain && BackwardToken(line, i + 1) == Greater
  {
    OperatorBefore(line, i);
    NotAfterOperator(line[..i + 1]);
    GreaterTokens(line, i + 1);
  }

  lemma CancellingReadings(line: string, i: nat)
    requires line == CANCELLING && i < |line|
    ensures ForwardToken(line, i) == if i == 0 then Less else if i == 20 then Greater else Plain
    ensures BackwardToken(line, i) == if i == 0 || i == 9 then Less else if i >= 19 then Greater else Plain
  {
    if i == 0 {
      LessTokens(line, 0);
    } else if i == 9 {
      assert line[1..9] == "operator";
      OperatorLess(line, 9);
    } else if i == 19 {
      assert line[10..18] == "operator";
      OperatorAndGreater(line, 18);
    } else if i == 20 {
      NotAfterOperator(line[..19]);
      NotAfterOperator(line[..20]);
      GreaterTokens(line, 20);
    } else {
      assert line[i] in {'o', 'p', 'e', 'r', 'a', 't', '='};
      PlainTokens(line, i);
    }
  }

  /** A bracket that only one reading takes is one the guards disagree on. */
  lemma ReadApart(line: string, i: nat)
    requires i < |line| && !LessAt(line, i + 1) && ForwardToken(line, i) != BackwardToken(line, i)
    requires ForwardToken(line, i) != Shift
    ensures !GuardsAgree(line, i)
  {
    if GuardsAgree(line, i) { LineAlike(line, i); }
  }

  lemma OneLine(d: Direction, line: string)
    ensures Reading(d, [line]) == LineTokens(d, line)
  {
    var rows := Rows(d, [line]);
    assert rows[1..] == [];
    assert Text(rows) == rows[0] + Text(rows[1..]);
  }

  lemma CancellingPairs(line: string)
    requires line == CANCELLING
    ensures Flat(LineTokens(Forward, line)) && Nested(LineTokens(Backward, line), 9)
  {
    forall i | 0 <= i < |line|
      ensures LineTokens(Forward, line)[i] == if i == 0 then Less else if i == 20 then Greater else Plain
      ensures LineTokens(Backward, line)[i] == if i == 0 || i == 9 then Less else if i >= 19 then Greater else Plain
    {
      assert LineTokens(Forward, line)[i] == ForwardToken(line, i);
      assert LineTokens(Backward, line)[i] == BackwardToken(line, i);
      CancellingReadings(line, i);
    }
  }

  lemma CloseFlat(lines: seq<string>, ts: seq<Token>, n: nat)
    requires |lines| == 1 && n == |lines[0]|
    requires ts == Reading(Forward, lines) == LineTokens(Forward, lines[0]) && Flat(ts)
    ensures ForwardLines(lines, 0, ForwardScan(lines[0], 0, [])) == (0, n)
  {
    FlatPair(ts);
    assert ts[0] == ForwardToken(lines[0], 0);
    CloseFindsMate(lines, 0, 0, 0, n - 1);
  }

  lemma ReverseNested(lines: seq<string>, ts: seq<Token>, n: nat, x: nat)
    requires |lines| == 1 && n == |lines[0]|
    requires ts == Reading(Backward, lines) == LineTokens(Backward, lines[0]) && Nested(ts, x)
    ensures BackwardLines(lines, 0, BackwardScan(lines[0], n - 1, [])) == (0, 0)
  {
    NestedPair(ts, x);
    assert ts[n - 1] == BackwardToken(lines[0], n - 1);
    ReverseFindsMate(lines, 0, 0, 0, n - 1);
  }

  lemma NestedAgrees(line: string, n: nat, x: nat)
    requires n == |line| && Flat(LineTokens(Forward, line)) && Nested(LineTokens(Backward, line), x)
    ensures ForwardLines([line], 0, ForwardScan(line, 0, [])) == (0, n)
    ensures BackwardLines([line], 0, BackwardScan(line, n - 1, [])) == (0, 0)
  {
    OneLine(Forward, line);
    OneLine(Backward, line);
    CloseFlat([line], LineTokens(Forward, line), n);
    ReverseNested([line], LineTokens(Backward, line), n, x);
  }

  lemma CancellingGuards(line: string)
    requires line == CANCELLING
    ensures !GuardsAgree(line, 9) && !GuardsAgree(line, 19)
  {
    CancellingReadings(line, 9);
    CancellingReadings(line, 19);
    ReadApart(line, 9);
    ReadApart(line, 19);
  }

  /** The guards disagree on two characters, one opening and one closing, and the round trip comes back. */
  lemma DisagreementsCancel(line: string, n: nat)
    requires line == CANCELLING && n == |line|
    ensures !GuardsAgree(line, 9) && !GuardsAgree(line, 19)
    ensures ForwardLines([line], 0, ForwardScan(line, 0, [])) == (0, n)
    ensures BackwardLines([line], 0, BackwardScan(line, n - 1, [])) == (0, 0)
  {
    CancellingGuards(line);
    CancellingPairs(line);
    NestedAgrees(line, n, 9);
  }
}
