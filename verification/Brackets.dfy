/** The bracket matchers of the C++ lint: a forward and a backward scan over the lines of a
    file, in which '<' and '>' are only tentative brackets. */
module Brackets {

  /** A scan ends at the mate, breaks off, or leaves brackets open at the end of the text. */
  datatype Scan = Found(pos: int) | Broken | Unfinished(stack: seq<char>)

  predicate IsOpen(c: char) { c == '(' || c == '[' || c == '{' }

  predicate IsClose(c: char) { c == ')' || c == ']' || c == '}' }

  predicate IsHard(c: char) { IsOpen(c) || IsClose(c) }

  predicate Mates(open: char, close: char) {
    (open == '(' && close == ')') || (open == '[' && close == ']') || (open == '{' && close == '}')
  }

  function Last(s: seq<char>): char
    requires s != []
  {
    s[|s| - 1]
  }

  function Pop(s: seq<char>): seq<char>
    requires s != []
  {
    s[..|s| - 1]
  }

  // ----- Reference matchers: round, square and curly brackets only

  /** From `i` to the right; the position found is the one just past the mate. */
  function MatchForward(s: string, i: nat, stack: seq<char>): (r: Scan)
    requires i <= |s|
    ensures r.Found? ==> i < r.pos <= |s|
    decreases |s| - i
  {
    if i == |s| then Unfinished(stack)
    else if IsOpen(s[i]) then MatchForward(s, i + 1, stack + [s[i]])
    else if IsClose(s[i]) then
      if stack == [] || !Mates(Last(stack), s[i]) then Broken
      else if |stack| == 1 then Found(i + 1)
      else MatchForward(s, i + 1, Pop(stack))
    else MatchForward(s, i + 1, stack)
  }

  /** From `i` to the left; the position found is that of the mate. */
  function MatchBackward(s: string, i: int, stack: seq<char>): (r: Scan)
    requires -1 <= i < |s|
    ensures r.Found? ==> 0 <= r.pos <= i
    decreases i + 1
  {
    if i == -1 then Unfinished(stack)
    else if IsClose(s[i]) then MatchBackward(s, i - 1, stack + [s[i]])
    else if IsOpen(s[i]) then
      if stack == [] || !Mates(s[i], Last(stack)) then Broken
      else if |stack| == 1 then Found(i)
      else MatchBackward(s, i - 1, Pop(stack))
    else MatchBackward(s, i - 1, stack)
  }

  /** The brackets that close `opens`, the innermost last. */
  ghost predicate Mirror(opens: seq<char>, closes: seq<char>) {
    |opens| == |closes| && forall i | 0 <= i < |opens| :: Mates(opens[i], closes[i])
  }

  /** Whatever a forward scan still has open at `i` is what a backward scan from the mate
      has open on arriving at `i`. */
  lemma {:induction false} ForwardThenBackward(s: string, i: nat, opens: seq<char>, e: int)
    requires i < |s| && opens != []
    requires MatchForward(s, i, opens) == Found(e)
    ensures i < e <= |s| && IsClose(s[e - 1])
    ensures exists closes :: Mirror(opens, closes) &&
                             MatchBackward(s, e - 1, []) == MatchBackward(s, i - 1, closes)
    decreases |s| - i
  {
    var c := s[i];
    if IsOpen(c) {
      ForwardThenBackward(s, i + 1, opens + [c], e);
      var closes :| Mirror(opens + [c], closes) &&
                    MatchBackward(s, e - 1, []) == MatchBackward(s, i, closes);
      assert Mirror(opens, Pop(closes));
    } else if IsClose(c) {
      if |opens| == 1 {
        assert MatchBackward(s, e - 1, []) == MatchBackward(s, i - 1, [] + [c]);
        assert Mirror(opens, [] + [c]);
      } else {
        ForwardThenBackward(s, i + 1, Pop(opens), e);
        var closes :| Mirror(Pop(opens), closes) &&
                      MatchBackward(s, e - 1, []) == MatchBackward(s, i, closes);
        assert Mirror(opens, closes + [c]);
      }
    } else {
      ForwardThenBackward(s, i + 1, opens, e);
      var closes :| Mirror(opens, closes) &&
                    MatchBackward(s, e - 1, []) == MatchBackward(s, i, closes);
    }
  }

  lemma {:induction false} BackwardThenForward(s: string, i: nat, closes: seq<char>, p: int)
    requires i < |s| && closes != []
    requires MatchBackward(s, i, closes) == Found(p)
    ensures 0 <= p <= i && IsOpen(s[p])
    ensures exists opens :: Mirror(opens, closes) &&
                            MatchForward(s, p, []) == MatchForward(s, i + 1, opens)
    decreases i
  {
    var c := s[i];
    if IsClose(c) {
      BackwardThenForward(s, i - 1, closes + [c], p);
      var opens :| Mirror(opens, closes + [c]) &&
                   MatchForward(s, p, []) == MatchForward(s, i, opens);
      assert Mirror(Pop(opens), closes);
    } else if IsOpen(c) {
      if |closes| == 1 {
        assert MatchForward(s, p, []) == MatchForward(s, i + 1, [] + [c]);
        assert Mirror([] + [c], closes);
      } else {
        BackwardThenForward(s, i - 1, Pop(closes), p);
        var opens :| Mirror(opens, Pop(closes)) &&
                     MatchForward(s, p, []) == MatchForward(s, i, opens);
        assert Mirror(opens + [c], closes);
      }
    } else {
      BackwardThenForward(s, i - 1, closes, p);
      var opens :| Mirror(opens, closes) &&
                   MatchForward(s, p, []) == MatchForward(s, i, opens);
    }
  }

  /** Closing from `p` ends just past `q` exactly when reversing from `q` ends at `p`. */
  lemma MatchersInverse(s: string, p: nat, q: nat)
    requires p < |s| && q < |s| && IsOpen(s[p]) && IsClose(s[q])
    ensures MatchForward(s, p, []) == Found(q + 1) <==> MatchBackward(s, q, []) == Found(p)
  {
    if MatchForward(s, p, []) == Found(q + 1) {
      assert MatchForward(s, p, []) == MatchForward(s, p + 1, [] + [s[p]]);
      ForwardThenBackward(s, p + 1, [] + [s[p]], q + 1);
      var closes :| Mirror([] + [s[p]], closes) &&
                    MatchBackward(s, q, []) == MatchBackward(s, p, closes);
    }
    if MatchBackward(s, q, []) == Found(p) {
      assert MatchBackward(s, q, []) == MatchBackward(s, q - 1, [] + [s[q]]);
      BackwardThenForward(s, q - 1, [] + [s[q]], p);
      var opens :| Mirror(opens, [] + [s[q]]) &&
                   MatchForward(s, p, []) == MatchForward(s, q, opens);
    }
  }

  /** Texts that agree on round, square and curly brackets match alike, whatever else,
      angle brackets included, stands between them. */
  lemma {:induction false} OnlyHardBracketsMatter(s: string, t: string, i: nat, stack: seq<char>)
    requires |s| == |t| && i <= |s|
    requires forall k | 0 <= k < |s| && (IsHard(s[k]) || IsHard(t[k])) :: s[k] == t[k]
    ensures MatchForward(s, i, stack) == MatchForward(t, i, stack)
    ensures MatchBackward(s, i - 1, stack) == MatchBackward(t, i - 1, stack)
  {
    ForwardAlike(s, t, i, stack);
    BackwardAlike(s, t, i - 1, stack);
  }

  lemma {:induction false} ForwardAlike(s: string, t: string, i: nat, stack: seq<char>)
    requires |s| == |t| && i <= |s|
    requires forall k | 0 <= k < |s| && (IsHard(s[k]) || IsHard(t[k])) :: s[k] == t[k]
    ensures MatchForward(s, i, stack) == MatchForward(t, i, stack)
    decreases |s| - i
  {
    if i == |s| {
    } else {
      if IsOpen(s[i]) { ForwardAlike(s, t, i + 1, stack + [s[i]]); }
      else if IsClose(s[i]) {
        if |stack| > 1 { ForwardAlike(s, t, i + 1, Pop(stack)); }
      } else { ForwardAlike(s, t, i + 1, stack); }
    }
  }

  lemma {:induction false} BackwardAlike(s: string, t: string, i: int, stack: seq<char>)
    requires |s| == |t| && -1 <= i < |s|
    requires forall k | 0 <= k < |s| && (IsHard(s[k]) || IsHard(t[k])) :: s[k] == t[k]
    ensures MatchBackward(s, i, stack) == MatchBackward(t, i, stack)
    decreases i + 1
  {
    if i < 0 {
    } else {
      if IsClose(s[i]) { BackwardAlike(s, t, i - 1, stack + [s[i]]); }
      else if IsOpen(s[i]) {
        if |stack| > 1 { BackwardAlike(s, t, i - 1, Pop(stack)); }
      } else { BackwardAlike(s, t, i - 1, stack); }
    }
  }

  // ----- Regular expressions used by the scans

  predicate IsSpace(c: char) { c == ' ' || '\t' <= c <= '\r' }

  predicate IsWord(c: char) {
    'a' <= c <= 'z' || 'A' <= c <= 'Z' || '0' <= c <= '9' || c == '_'
  }

  function TrimRight(s: string): string {
    if s != [] && IsSpace(s[|s| - 1]) then TrimRight(s[..|s| - 1]) else s
  }

  /** Search(r'\boperator\s*$', s) */
  predicate EndsWithOperator(s: string) {
    var t := TrimRight(s);
    |t| >= 8 && t[|t| - 8..] == "operator" && (|t| == 8 || !IsWord(t[|t| - 9]))
  }

  /** Match(r'\s>=\s', s) */
  predicate SpacedGreaterEqual(s: string) {
    |s| >= 4 && IsSpace(s[0]) && s[1] == '>' && s[2] == '=' && IsSpace(s[3])
  }

  // ----- The scans of one line

  /** The stack without its tentative angle brackets. */
  ghost function Hard(stack: seq<char>, angle: char): seq<char> {
    if stack == [] then []
    else if Last(stack) == angle then Hard(Pop(stack), angle)
    else Hard(Pop(stack), angle) + [Last(stack)]
  }

  lemma HardPush(stack: seq<char>, c: char, angle: char)
    ensures Hard(stack + [c], angle) ==
            if c == angle then Hard(stack, angle) else Hard(stack, angle) + [c]
  {}

  lemma {:induction false} HardBottom(stack: seq<char>, angle: char)
    requires stack != [] && stack[0] != angle
    ensures Hard(stack, angle) != []
  {
    if |stack| <= 1 {
    } else {
      HardBottom(Pop(stack), angle);
    }
  }

  /** A hard bracket on top of the stack is on top of its hard part as well. */
  lemma HardTop(stack: seq<char>, angle: char)
    requires stack != [] && stack[0] != angle && Last(stack) != angle
    ensures var hard := Hard(stack, angle);
            && hard != [] && Last(hard) == Last(stack) && Pop(hard) == Hard(Pop(stack), angle)
            && (|hard| == 1 <==> |stack| == 1)
  {
    if |stack| > 1 { HardBottom(Pop(stack), angle); }
  }

  /** Drops tentative brackets from the top. */
  function DropTentative(stack: seq<char>, angle: char): (r: seq<char>)
    ensures r <= stack && Hard(r, angle) == Hard(stack, angle)
    ensures r != [] ==> Last(r) != angle
  {
    if stack != [] && Last(stack) == angle then DropTentative(Pop(stack), angle) else stack
  }

  /** The scan started at a round, square or curly bracket. */
  ghost predicate ForwardFromHard(line: string, i: nat, stack: seq<char>) {
    if stack == [] then i < |line| && IsOpen(line[i]) else stack[0] != '<'
  }

  ghost predicate BackwardFromHard(line: string, i: int, stack: seq<char>) {
    if stack == [] then 0 <= i < |line| && IsClose(line[i]) else stack[0] != '>'
  }

  /** Equal results; a stack handed on may hold tentative brackets above a hard bottom. */
  ghost predicate SameScan(r: Scan, reference: Scan, angle: char) {
    match reference
    case Found(_) => r == reference
    case Broken => r == reference
    case Unfinished(st) => r.Unfinished? && Hard(r.stack, angle) == st &&
                           r.stack != [] && r.stack[0] != angle
  }

  /** One character of the forward scan; `Unfinished` carries the stack to go on with. */
  function ForwardStep(line: string, i: nat, stack: seq<char>): (r: Scan)
    requires i < |line|
    ensures r.Found? ==> r.pos == i + 1
  {
    var c := line[i];
    if IsOpen(c) then Unfinished(stack + [c])
    else if c == '<' then
      if i > 0 && line[i - 1] == '<' then
        if stack == [] || Last(stack) != '<' then Unfinished(stack)
        else if |stack| == 1 then Broken
        else Unfinished(Pop(stack))
      else if i > 0 && EndsWithOperator(line[..i]) then Unfinished(stack)
      else Unfinished(stack + ['<'])
    else if IsClose(c) then
      var st := DropTentative(stack, '<');
      if st == [] || !Mates(Last(st), c) then Broken
      else if |st| == 1 then Found(i + 1)
      else Unfinished(Pop(st))
    else if c == '>' then
      if i > 0 && (line[i - 1] == '-' || EndsWithOperator(line[..i - 1])) then Unfinished(stack)
      else if stack == [] || Last(stack) != '<' then Unfinished(stack)
      else if |stack| == 1 then Found(i + 1)
      else Unfinished(Pop(stack))
    else if c == ';' then
      var st := DropTentative(stack, '<');
      if st == [] then Broken else Unfinished(st)
    else Unfinished(stack)
  }

  /** The forward scan of a line, character by character. */
  function ForwardScan(line: string, i: nat, stack: seq<char>): (r: Scan)
    requires i <= |line|
    ensures r.Found? ==> i < r.pos <= |line|
    decreases |line| - i
  {
    if i == |line| then Unfinished(stack)
    else
      var r := ForwardStep(line, i, stack);
      if r.Unfinished? then ForwardScan(line, i + 1, r.stack) else r
  }

  lemma ForwardStepHard(line: string, i: nat, stack: seq<char>)
    requires i < |line| && ForwardFromHard(line, i, stack)
    ensures var reference := MatchForward(line, i, Hard(stack, '<'));
            match ForwardStep(line, i, stack)
            case Unfinished(st) => && st != [] && st[0] != '<'
                                   && reference == MatchForward(line, i + 1, Hard(st, '<'))
            case r => r == reference
  {
    var c := line[i];
    if IsOpen(c) || c == '<' {
      HardPush(stack, c, '<');
    } else {
      HardBottom(stack, '<');
      if IsClose(c) { HardTop(DropTentative(stack, '<'), '<'); }
    }
  }

  /** A scan that started at a hard bracket is one of hard brackets alone. */
  lemma {:induction false} ForwardScanHard(line: string, i: nat, stack: seq<char>)
    requires i <= |line| && ForwardFromHard(line, i, stack)
    ensures SameScan(ForwardScan(line, i, stack), MatchForward(line, i, Hard(stack, '<')), '<')
    decreases |line| - i
  {
    if i == |line| {
    } else {
      ForwardStepHard(line, i, stack);
      var r := ForwardStep(line, i, stack);
      if r.Unfinished? { ForwardScanHard(line, i + 1, r.stack); }
    }
  }

  method FindEndOfExpressionInLine(line: string, startpos: nat, stack0: seq<char>) returns (r: Scan)
    requires startpos <= |line|
    ensures r == ForwardScan(line, startpos, stack0)
    ensures r.Found? ==> startpos < r.pos <= |line|
    ensures ForwardFromHard(line, startpos, stack0) ==>
              SameScan(r, MatchForward(line, startpos, Hard(stack0, '<')), '<')
  {
    r := ScanForward(line, startpos, stack0);
    if ForwardFromHard(line, startpos, stack0) { ForwardScanHard(line, startpos, stack0); }
  }

  /** The loop over the characters. */
  method ScanForward(line: string, startpos: nat, stack0: seq<char>) returns (r: Scan)
    requires startpos <= |line|
    ensures r == ForwardScan(line, startpos, stack0)
  {
    var stack := stack0;
    for i := startpos to |line|
      invariant ForwardScan(line, startpos, stack0) == ForwardScan(line, i, stack)
    {
      r := ForwardStep(line, i, stack);
      if !r.Unfinished? {
        return;
      }
      stack := r.stack;
    }
    r := Unfinished(stack);
  }

  /** True when the backward scan takes the '>' at `i` for part of an operator. */
  predicate OperatorGreater(line: string, i: nat)
    requires i < |line|
  {
    i > 0 && (line[i - 1] == '-' || SpacedGreaterEqual(line[i - 1..]) || EndsWithOperator(line[..i]))
  }

  /** One character of the backward scan, without its moves to the left. */
  function BackwardStep(line: string, i: nat, stack: seq<char>): (r: Scan)
    requires i < |line|
    ensures r.Found? ==> r.pos == i
  {
    var c := line[i];
    if IsClose(c) then Unfinished(stack + [c])
    else if c == '>' then
      if OperatorGreater(line, i) then Unfinished(stack) else Unfinished(stack + ['>'])
    else if c == '<' then
      if i > 0 && line[i - 1] == '<' then Unfinished(stack)
      else if stack == [] || Last(stack) != '>' then Unfinished(stack)
      else if |stack| == 1 then Found(i)
      else Unfinished(Pop(stack))
    else if IsOpen(c) then
      var st := DropTentative(stack, '>');
      if st == [] || !Mates(c, Last(st)) then Broken
      else if |st| == 1 then Found(i)
      else Unfinished(Pop(st))
    else if c == ';' then
      var st := DropTentative(stack, '>');
      if st == [] then Broken else Unfinished(st)
    else Unfinished(stack)
  }

  /** Where the backward scan goes on, one character past an operator that it steps over. */
  function BackwardNext(line: string, i: nat): (j: int)
    requires i < |line|
    ensures -1 <= j < i
  {
    if (line[i] == '>' && OperatorGreater(line, i)) || (line[i] == '<' && i > 0 && line[i - 1] == '<') then i - 2
    else i - 1
  }

  function BackwardScan(line: string, i: int, stack: seq<char>): (r: Scan)
    requires -1 <= i < |line|
    ensures r.Found? ==> 0 <= r.pos <= i
    decreases i + 1
  {
    if i == -1 then Unfinished(stack)
    else
      var r := BackwardStep(line, i, stack);
      if r.Unfinished? then BackwardScan(line, BackwardNext(line, i), r.stack) else r
  }

  lemma BackwardStepHard(line: string, i: nat, stack: seq<char>)
    requires i < |line| && BackwardFromHard(line, i, stack)
    ensures var reference := MatchBackward(line, i, Hard(stack, '>'));
            match BackwardStep(line, i, stack)
            case Unfinished(st) => && st != [] && st[0] != '>'
                                   && reference == MatchBackward(line, i - 1, Hard(st, '>'))
            case r => r == reference
  {
    var c := line[i];
    if IsClose(c) || c == '>' {
      HardPush(stack, c, '>');
    } else {
      HardBottom(stack, '>');
      if IsOpen(c) { HardTop(DropTentative(stack, '>'), '>'); }
    }
  }

  /** The extra character that the backward scan steps over is no bracket, and nothing else it looks for. */
  lemma SkippedIsNoBracket(line: string, i: int)
    requires 0 < i < |line|
    requires line[i - 1] == '-' || SpacedGreaterEqual(line[i - 1..]) || EndsWithOperator(line[..i])
    ensures !IsHard(line[i - 1]) && line[i - 1] !in {'<', '>', ';'}
  {}

  /** The jump over an operator passes no bracket. */
  lemma BackwardJump(line: string, i: nat, stack: seq<char>)
    requires i < |line| && stack != []
    ensures MatchBackward(line, i - 1, stack) == MatchBackward(line, BackwardNext(line, i), stack)
  {
    if line[i] == '>' && OperatorGreater(line, i) { SkippedIsNoBracket(line, i); }
  }

  lemma {:induction false} BackwardScanHard(line: string, i: int, stack: seq<char>)
    requires -1 <= i < |line| && BackwardFromHard(line, i, stack)
    ensures SameScan(BackwardScan(line, i, stack), MatchBackward(line, i, Hard(stack, '>')), '>')
    decreases i + 1
  {
    if i == -1 {
    } else {
      BackwardStepHard(line, i, stack);
      var r := BackwardStep(line, i, stack);
      if r.Unfinished? {
        HardBottom(r.stack, '>');
        BackwardJump(line, i, Hard(r.stack, '>'));
        BackwardScanHard(line, BackwardNext(line, i), r.stack);
      }
    }
  }

  method FindStartOfExpressionInLine(line: string, endpos: int, stack0: seq<char>) returns (r: Scan)
    requires -1 <= endpos < |line|
    ensures r == BackwardScan(line, endpos, stack0)
    ensures r.Found? ==> 0 <= r.pos <= endpos
    ensures BackwardFromHard(line, endpos, stack0) ==>
              SameScan(r, MatchBackward(line, endpos, Hard(stack0, '>')), '>')
  {
    r := ScanBackward(line, endpos, stack0);
    if BackwardFromHard(line, endpos, stack0) { BackwardScanHard(line, endpos, stack0); }
  }

  /** The loop over the characters, with its jumps. */
  method ScanBackward(line: string, endpos: int, stack0: seq<char>) returns (r: Scan)
    requires -1 <= endpos < |line|
    ensures r == BackwardScan(line, endpos, stack0)
  {
    var stack := stack0;
    var i := endpos;
    while i >= 0
      invariant -1 <= i <= endpos
      invariant BackwardScan(line, endpos, stack0) == BackwardScan(line, i, stack)
    {
      r := BackwardStep(line, i, stack);
      if !r.Unfinished? {
        return;
      }
      stack := r.stack;
      if line[i] == '>' && OperatorGreater(line, i) {
        i := i - 1;
      } else if line[i] == '<' && i > 0 && line[i - 1] == '<' {
        i := i - 1;
      }
      i := i - 1;
    }
    r := Unfinished(stack);
  }

  // ----- The scans of a file

  /** The lines joined into one text. */
  function Text<T>(lines: seq<seq<T>>): seq<T> {
    if lines == [] then [] else lines[0] + Text(lines[1..])
  }

  /** The offset in the text of the first character of line `k`. */
  function Offset<T>(lines: seq<seq<T>>, k: nat): nat
    requires k <= |lines|
  {
    if k == 0 then 0 else |lines[0]| + Offset(lines[1..], k - 1)
  }

  lemma {:induction false} LineInText<T>(lines: seq<seq<T>>, k: nat)
    requires k < |lines|
    ensures Offset(lines, k + 1) == Offset(lines, k) + |lines[k]| <= |Text(lines)|
    ensures Text(lines)[Offset(lines, k)..Offset(lines, k + 1)] == lines[k]
  {
    if k == 0 {
      assert Text(lines)[0..|lines[0]|] == lines[0];
    } else {
      LineInText(lines[1..], k - 1);
      SliceShift(lines[0], Text(lines[1..]), Offset(lines[1..], k - 1), |lines[k]|);
    }
  }

  lemma SliceShift<T>(a: seq<T>, t: seq<T>, o: nat, n: nat)
    requires o + n <= |t|
    ensures (a + t)[|a| + o..|a| + o + n] == t[o..o + n]
  {}

  lemma {:induction false} OffsetAtEnd<T>(lines: seq<seq<T>>)
    ensures Offset(lines, |lines|) == |Text(lines)|
  {
    if lines == [] {
    } else {
      OffsetAtEnd(lines[1..]);
    }
  }

  /** A position on a line is determined by its offset in the text. */
  lemma {:induction false} PositionUnique<T>(lines: seq<seq<T>>, k: nat, i: nat, m: nat, j: nat)
    requires k < |lines| && i < |lines[k]| && m < |lines| && j < |lines[m]|
    requires Offset(lines, k) + i == Offset(lines, m) + j
    ensures k == m && i == j
  {
    if k == 0 || m == 0 {
    } else {
      PositionUnique(lines[1..], k - 1, i, m - 1, j);
    }
  }

  /** A scan of the text, as it passes through a stretch equal to `line`. */
  lemma {:induction false} ForwardThroughLine(s: string, line: string, o: nat, i: nat, stack: seq<char>)
    requires i <= |line| && o + |line| <= |s| && s[o..o + |line|] == line
    ensures MatchForward(s, o + i, stack) ==
            match MatchForward(line, i, stack)
            case Found(e) => Found(o + e)
            case Broken => Broken
            case Unfinished(st) => MatchForward(s, o + |line|, st)
    decreases |line| - i
  {
    if i == |line| {
    } else {
      assert s[o + i] == s[o..o + |line|][i] == line[i];
      var c := line[i];
      if IsOpen(c) { ForwardThroughLine(s, line, o, i + 1, stack + [c]); }
      else if IsClose(c) {
        if |stack| > 1 { ForwardThroughLine(s, line, o, i + 1, Pop(stack)); }
      } else { ForwardThroughLine(s, line, o, i + 1, stack); }
    }
  }

  lemma {:induction false} BackwardThroughLine(s: string, line: string, o: nat, i: int, stack: seq<char>)
    requires -1 <= i < |line| && o + |line| <= |s| && s[o..o + |line|] == line
    ensures MatchBackward(s, o + i, stack) ==
            match MatchBackward(line, i, stack)
            case Found(p) => Found(o + p)
            case Broken => Broken
            case Unfinished(st) => MatchBackward(s, o - 1, st)
    decreases i + 1
  {
    if i < 0 {
    } else {
      assert s[o + i] == s[o..o + |line|][i] == line[i];
      var c := line[i];
      if IsClose(c) { BackwardThroughLine(s, line, o, i - 1, stack + [c]); }
      else if IsOpen(c) {
        if |stack| > 1 { BackwardThroughLine(s, line, o, i - 1, Pop(stack)); }
      } else { BackwardThroughLine(s, line, o, i - 1, stack); }
    }
  }

  predicate OnLine<T>(lines: seq<seq<T>>, linenum: nat, pos: int) {
    linenum < |lines| && 0 <= pos < |lines[linenum]|
  }

  /** The reference match from a position, over the joined lines. */
  ghost function ForwardFrom(lines: seq<string>, linenum: nat, pos: nat): Scan
    requires linenum < |lines| && pos <= |lines[linenum]|
  {
    LineInText(lines, linenum);
    MatchForward(Text(lines), Offset(lines, linenum) + pos, [])
  }

  ghost function BackwardFrom(lines: seq<string>, linenum: nat, pos: int): Scan
    requires OnLine(lines, linenum, pos)
  {
    LineInText(lines, linenum);
    MatchBackward(Text(lines), Offset(lines, linenum) + pos, [])
  }

  /** What the scan of line `k` says about the reference match. */
  ghost predicate ForwardAt(lines: seq<string>, k: nat, scan: Scan, reference: Scan)
    requires k < |lines|
  {
    LineInText(lines, k);
    match scan
    case Found(e) => 0 < e <= |lines[k]| && reference == Found(Offset(lines, k) + e)
    case Broken => reference == Broken
    case Unfinished(st) =>
      && st != [] && st[0] != '<'
      && reference == MatchForward(Text(lines), Offset(lines, k + 1), Hard(st, '<'))
  }

  lemma ForwardLine(lines: seq<string>, k: nat, i: nat, stack: seq<char>, scan: Scan)
    requires k < |lines| && i <= |lines[k]|
    requires SameScan(scan, MatchForward(lines[k], i, Hard(stack, '<')), '<')
    ensures Offset(lines, k) + i <= |Text(lines)|
    ensures ForwardAt(lines, k, scan, MatchForward(Text(lines), Offset(lines, k) + i, Hard(stack, '<')))
  {
    LineInText(lines, k);
    var t, o, line := Text(lines), Offset(lines, k), lines[k];
    assert t[o..o + |line|] == line;
    ForwardThroughLine(t, line, o, i, Hard(stack, '<'));
    match MatchForward(line, i, Hard(stack, '<'))
    case Found(_) =>
    case Broken =>
    case Unfinished(_) => assert o + |line| == Offset(lines, k + 1);
  }

  ghost predicate BackwardAt(lines: seq<string>, k: nat, scan: Scan, reference: Scan)
    requires k < |lines|
  {
    LineInText(lines, k);
    match scan
    case Found(p) => 0 <= p < |lines[k]| && reference == Found(Offset(lines, k) + p)
    case Broken => reference == Broken
    case Unfinished(st) =>
      && st != [] && st[0] != '>'
      && reference == MatchBackward(Text(lines), Offset(lines, k) - 1, Hard(st, '>'))
  }

  lemma BackwardLine(lines: seq<string>, k: nat, i: int, stack: seq<char>, scan: Scan)
    requires k < |lines| && -1 <= i < |lines[k]|
    requires SameScan(scan, MatchBackward(lines[k], i, Hard(stack, '>')), '>')
    ensures -1 <= Offset(lines, k) + i < |Text(lines)|
    ensures BackwardAt(lines, k, scan, MatchBackward(Text(lines), Offset(lines, k) + i, Hard(stack, '>')))
  {
    LineInText(lines, k);
    var t, o, line := Text(lines), Offset(lines, k), lines[k];
    assert t[o..o + |line|] == line;
    BackwardThroughLine(t, line, o, i, Hard(stack, '>'));
    match MatchBackward(line, i, Hard(stack, '>'))
    case Found(_) =>
    case Broken =>
    case Unfinished(_) =>
  }

  /** The line and position just past the mate, from the scan of line `k` on; (|lines|, -1) for none. */
  function ForwardLines(lines: seq<string>, k: nat, scan: Scan): (nat, int)
    requires k < |lines|
    decreases |lines| - k
  {
    if scan.Found? then (k, scan.pos)
    else if scan.Unfinished? && scan.stack != [] && k + 1 < |lines| then
      ForwardLines(lines, k + 1, ForwardScan(lines[k + 1], 0, scan.stack))
    else (|lines|, -1)
  }

  function BackwardLines(lines: seq<string>, k: nat, scan: Scan): (nat, int)
    requires k < |lines|
  {
    if scan.Found? then (k, scan.pos)
    else if scan.Unfinished? && scan.stack != [] && k > 0 then
      BackwardLines(lines, k - 1, BackwardScan(lines[k - 1], |lines[k - 1]| - 1, scan.stack))
    else (0, -1)
  }

  predicate OpensAt(line: string, pos: nat)
    requires pos < |line|
  {
    IsOpen(line[pos]) ||
    (line[pos] == '<' && !(pos + 1 < |line| && (line[pos + 1] == '<' || line[pos + 1] == '=')))
  }

  predicate ClosesAt(line: string, pos: nat)
    requires pos < |line|
  {
    IsClose(line[pos]) || line[pos] == '>'
  }

  /** What an answer says about the reference match. */
  ghost predicate ForwardAnswer<T>(lines: seq<seq<T>>, answer: (nat, int), reference: Scan) {
    if answer.1 == -1 then answer.0 == |lines| && !reference.Found?
    else OnLine(lines, answer.0, answer.1 - 1) && reference == Found(Offset(lines, answer.0) + answer.1)
  }

  lemma {:induction false} ForwardLinesHard(lines: seq<string>, k: nat, scan: Scan, reference: Scan)
    requires k < |lines| && ForwardAt(lines, k, scan, reference)
    ensures ForwardAnswer(lines, ForwardLines(lines, k, scan), reference)
    decreases |lines| - k
  {
    if !scan.Unfinished? {
    } else if k + 1 == |lines| {
      OffsetAtEnd(lines);
    } else {
      var next := ForwardScan(lines[k + 1], 0, scan.stack);
      ForwardScanHard(lines[k + 1], 0, scan.stack);
      ForwardLine(lines, k + 1, 0, scan.stack, next);
      ForwardLinesHard(lines, k + 1, next, reference);
    }
  }

  lemma ForwardFromHardAnswer(lines: seq<string>, k: nat, pos: nat)
    requires OnLine(lines, k, pos) && IsOpen(lines[k][pos])
    ensures ForwardAnswer(lines, ForwardLines(lines, k, ForwardScan(lines[k], pos, [])), ForwardFrom(lines, k, pos))
  {
    var scan := ForwardScan(lines[k], pos, []);
    ForwardScanHard(lines[k], pos, []);
    ForwardLine(lines, k, pos, [], scan);
    ForwardLinesHard(lines, k, scan, ForwardFrom(lines, k, pos));
  }

  lemma {:induction false} ForwardLinesPlace(lines: seq<string>, k: nat, scan: Scan)
    requires k < |lines| && (scan.Found? ==> 0 < scan.pos <= |lines[k]|)
    ensures var (l, e) := ForwardLines(lines, k, scan); if e == -1 then l == |lines| else OnLine(lines, l, e - 1)
    decreases |lines| - k
  {
    if !scan.Unfinished? || scan.stack == [] || k + 1 == |lines| {
    } else {
      ForwardLinesPlace(lines, k + 1, ForwardScan(lines[k + 1], 0, scan.stack));
    }
  }

  /** The loop over lines does what the definition over lines does. From a hard bracket, the answer is
      the reference match of the joined lines. */
  method CloseExpression(lines: seq<string>, linenum0: nat, pos: nat)
    returns (line: string, linenum: nat, endPos: int)
    requires OnLine(lines, linenum0, pos)
    ensures endPos != -1 ==> OnLine(lines, linenum, endPos - 1) && line == lines[linenum]
    ensures endPos == -1 ==> linenum == |lines|
    ensures (linenum, endPos) == if !OpensAt(lines[linenum0], pos) then (|lines|, -1)
                                 else ForwardLines(lines, linenum0, ForwardScan(lines[linenum0], pos, []))
    ensures IsOpen(lines[linenum0][pos]) ==>
              ForwardFrom(lines, linenum0, pos).Found? == (endPos != -1)
    ensures IsOpen(lines[linenum0][pos]) && endPos != -1 ==>
              ForwardFrom(lines, linenum0, pos) == Found(Offset(lines, linenum) + endPos)
  {
    linenum := linenum0;
    line := lines[linenum];
    if !OpensAt(line, pos) {
      return line, |lines|, -1;
    }
    if IsOpen(line[pos]) { ForwardFromHardAnswer(lines, linenum, pos); }
    var scan := FindEndOfExpressionInLine(line, pos, []);
    ForwardLinesPlace(lines, linenum, scan);
    ghost var answer := ForwardLines(lines, linenum, scan);
    while scan.Unfinished? && scan.stack != [] && linenum < |lines| - 1
      invariant linenum < |lines| && line == lines[linenum] && answer == ForwardLines(lines, linenum, scan)
      decreases |lines| - linenum
    {
      linenum := linenum + 1;
      line := lines[linenum];
      scan := FindEndOfExpressionInLine(line, 0, scan.stack);
    }
    if scan.Found? {
      return line, linenum, scan.pos;
    }
    linenum, endPos := |lines|, -1;
  }

  ghost predicate BackwardAnswer(lines: seq<string>, answer: (nat, int), reference: Scan) {
    if answer.1 == -1 then answer.0 == 0 && !reference.Found?
    else OnLine(lines, answer.0, answer.1) && reference == Found(Offset(lines, answer.0) + answer.1)
  }

  lemma {:induction false} BackwardLinesHard(lines: seq<string>, k: nat, scan: Scan, reference: Scan)
    requires k < |lines| && BackwardAt(lines, k, scan, reference)
    ensures BackwardAnswer(lines, BackwardLines(lines, k, scan), reference)
  {
    if !scan.Unfinished? || k == 0 {
    } else {
      var line := lines[k - 1];
      var next := BackwardScan(line, |line| - 1, scan.stack);
      BackwardScanHard(line, |line| - 1, scan.stack);
      LineInText(lines, k - 1);
      BackwardLine(lines, k - 1, |line| - 1, scan.stack, next);
      BackwardLinesHard(lines, k - 1, next, reference);
    }
  }

  lemma BackwardFromHardAnswer(lines: seq<string>, k: nat, pos: nat)
    requires OnLine(lines, k, pos) && IsClose(lines[k][pos])
    ensures BackwardAnswer(lines, BackwardLines(lines, k, BackwardScan(lines[k], pos, [])), BackwardFrom(lines, k, pos))
  {
    var scan := BackwardScan(lines[k], pos, []);
    BackwardScanHard(lines[k], pos, []);
    BackwardLine(lines, k, pos, [], scan);
    BackwardLinesHard(lines, k, scan, BackwardFrom(lines, k, pos));
  }

  lemma {:induction false} BackwardLinesPlace(lines: seq<string>, k: nat, scan: Scan)
    requires k < |lines| && (scan.Found? ==> 0 <= scan.pos < |lines[k]|)
    ensures var (l, p) := BackwardLines(lines, k, scan); if p == -1 then l == 0 else OnLine(lines, l, p)
  {
    if !scan.Unfinished? || scan.stack == [] || k == 0 {
    } else {
      var line := lines[k - 1];
      BackwardLinesPlace(lines, k - 1, BackwardScan(line, |line| - 1, scan.stack));
    }
  }

  method ReverseCloseExpression(lines: seq<string>, linenum0: nat, pos: nat)
    returns (line: string, linenum: nat, startPos: int)
    requires OnLine(lines, linenum0, pos)
    ensures startPos != -1 ==> OnLine(lines, linenum, startPos) && line == lines[linenum]
    ensures startPos == -1 ==> linenum == 0
    ensures (linenum, startPos) == if !ClosesAt(lines[linenum0], pos) then (0, -1)
                                   else BackwardLines(lines, linenum0, BackwardScan(lines[linenum0], pos, []))
    ensures IsClose(lines[linenum0][pos]) ==>
              BackwardFrom(lines, linenum0, pos).Found? == (startPos != -1)
    ensures IsClose(lines[linenum0][pos]) && startPos != -1 ==>
              BackwardFrom(lines, linenum0, pos) == Found(Offset(lines, linenum) + startPos)
  {
    linenum := linenum0;
    line := lines[linenum];
    if !ClosesAt(line, pos) {
      return line, 0, -1;
    }
    if IsClose(line[pos]) { BackwardFromHardAnswer(lines, linenum, pos); }
    var scan := FindStartOfExpressionInLine(line, pos, []);
    BackwardLinesPlace(lines, linenum, scan);
    ghost var answer := BackwardLines(lines, linenum, scan);
    while scan.Unfinished? && scan.stack != [] && linenum > 0
      invariant linenum < |lines| && line == lines[linenum] && answer == BackwardLines(lines, linenum, scan)
      decreases linenum
    {
      linenum := linenum - 1;
      line := lines[linenum];
      scan := FindStartOfExpressionInLine(line, |line| - 1, scan.stack);
    }
    if scan.Found? {
      return line, linenum, scan.pos;
    }
    linenum, startPos := 0, -1;
  }

  lemma CharInText(lines: seq<string>, k: nat, i: nat)
    requires OnLine(lines, k, i)
    ensures Offset(lines, k) + i < |Text(lines)| && Text(lines)[Offset(lines, k) + i] == lines[k][i]
  {
    LineInText(lines, k);
    assert Text(lines)[Offset(lines, k)..Offset(lines, k + 1)][i] == lines[k][i];
  }

  lemma FoundIsClose(s: string, p: nat, e: int)
    requires p < |s| && IsOpen(s[p]) && MatchForward(s, p, []) == Found(e)
    ensures p < e - 1 < |s| && IsClose(s[e - 1])
  {
    assert MatchForward(s, p, []) == MatchForward(s, p + 1, [] + [s[p]]);
    ForwardThenBackward(s, p + 1, [] + [s[p]], e);
  }

  lemma FoundIsOpen(s: string, q: nat, p: int)
    requires q < |s| && IsClose(s[q]) && MatchBackward(s, q, []) == Found(p)
    ensures 0 <= p < q && IsOpen(s[p])
  {
    assert MatchBackward(s, q, []) == MatchBackward(s, q - 1, [] + [s[q]]);
    BackwardThenForward(s, q - 1, [] + [s[q]], p);
  }

  /** On positions of lines: `(l, p)` closes just past `(m, q)` exactly when `(m, q)` opens at `(l, p)`. */
  lemma RoundTrip(lines: seq<string>, l: nat, p: nat, m: nat, q: nat)
    requires OnLine(lines, l, p) && OnLine(lines, m, q)
    ensures IsOpen(lines[l][p]) && ForwardFrom(lines, l, p) == Found(Offset(lines, m) + q + 1) <==>
            IsClose(lines[m][q]) && BackwardFrom(lines, m, q) == Found(Offset(lines, l) + p)
  {
    var s, i, j := Text(lines), Offset(lines, l) + p, Offset(lines, m) + q;
    CharInText(lines, l, p);
    CharInText(lines, m, q);
    if IsOpen(s[i]) && MatchForward(s, i, []) == Found(j + 1) { FoundIsClose(s, i, j + 1); }
    if IsClose(s[j]) && MatchBackward(s, j, []) == Found(i) { FoundIsOpen(s, j, i); }
    if IsOpen(s[i]) && IsClose(s[j]) { MatchersInverse(s, i, j); }
  }

  /** Closing a hard bracket and reversing from the character before the end comes back. */
  method CloseThenReverse(lines: seq<string>, linenum: nat, pos: nat)
    returns (closed: bool, backLine: nat, backPos: int)
    requires OnLine(lines, linenum, pos) && IsOpen(lines[linenum][pos])
    ensures closed == ForwardFrom(lines, linenum, pos).Found?
    ensures closed ==> backLine == linenum && backPos == pos
  {
    var _, endLine, endPos := CloseExpression(lines, linenum, pos);
    if endPos == -1 {
      return false, 0, -1;
    }
    var _, l, p := ReverseCloseExpression(lines, endLine, endPos - 1);
    RoundTrip(lines, linenum, pos, endLine, endPos - 1);
    if p != -1 { PositionUnique(lines, l, p, linenum, pos); }
    return true, l, p;
  }

  method ReverseThenClose(lines: seq<string>, linenum: nat, pos: nat)
    returns (found: bool, backLine: nat, backPos: int)
    requires OnLine(lines, linenum, pos) && IsClose(lines[linenum][pos])
    ensures found == BackwardFrom(lines, linenum, pos).Found?
    ensures found ==> backLine == linenum && backPos == pos + 1
  {
    var _, startLine, startPos := ReverseCloseExpression(lines, linenum, pos);
    if startPos == -1 {
      return false, 0, -1;
    }
    var _, l, e := CloseExpression(lines, startLine, startPos);
    RoundTrip(lines, startLine, startPos, linenum, pos);
    if e != -1 { PositionUnique(lines, l, e - 1, linenum, pos); }
    return true, l, e;
  }

  // ----- From angle brackets, closing and reversing need not agree

  const COMPARISON := "< >= "

  lemma NotOperator(s: string)
    requires |s| < 8
    ensures !EndsWithOperator(s)
  {
    TrimShorter(s);
  }

  lemma {:induction false} TrimShorter(s: string)
    ensures |TrimRight(s)| <= |s|
  {
    if s == "" || !IsSpace(s[|s| - 1]) {
    } else {
      TrimShorter(s[..|s| - 1]);
    }
  }

  /** Forward, the '>' of a comparison ends a template; backward, it is taken for an operator. */
  lemma AnglesDisagree()
    ensures ForwardScan(COMPARISON, 0, []) == Found(3)
    ensures BackwardScan(COMPARISON, 2, []) == Unfinished([])
  {
    var line := COMPARISON;
    assert ForwardStep(line, 0, []) == Unfinished(['<']) by { assert [] + ['<'] == ['<']; }
    assert ForwardStep(line, 1, ['<']) == Unfinished(['<']);
    assert ForwardStep(line, 2, ['<']) == Found(3) by { NotOperator(line[..1]); }
    assert ForwardScan(line, 1, ['<']) == ForwardScan(line, 2, ['<']);
    assert OperatorGreater(line, 2) by { assert SpacedGreaterEqual(line[1..]); }
    assert BackwardStep(line, 2, []) == Unfinished([]) && BackwardNext(line, 2) == 0;
    assert BackwardStep(line, 0, []) == Unfinished([]) && BackwardNext(line, 0) == -1;
    assert BackwardScan(line, 0, []) == Unfinished([]);
  }
}
