/** The nesting state of the C++ lint, as preprocessor conditionals save and restore it. */
module Preprocessor {

  /** What a line says to the preprocessor. */
  datatype Directive = If | Else | Endif | Other

  /** The checkpoints of one open #if. */
  datatype Info<B> = Info(stackBeforeIf: seq<B>, stackBeforeElse: seq<B>, seenElse: bool)

  datatype State<B> = State(stack: seq<B>, ppStack: seq<Info<B>>)

  function Update<B>(s: State<B>, d: Directive): State<B> {
    var depth := |s.ppStack|;
    match d
    case If => s.(ppStack := s.ppStack + [Info(s.stack, [], false)])
    case Else =>
      if depth == 0 then s
      else
        var top := s.ppStack[depth - 1];
        var top' := if top.seenElse then top
                    else top.(seenElse := true, stackBeforeElse := s.stack);
        State(top.stackBeforeIf, s.ppStack[depth - 1 := top'])
    case Endif =>
      if depth == 0 then s
      else
        var top := s.ppStack[depth - 1];
        State(if top.seenElse then top.stackBeforeElse else s.stack, s.ppStack[..depth - 1])
    case Other => s
  }

  class NestingState<B> {
    var stack: seq<B>
    var ppStack: seq<Info<B>>

    constructor ()
      ensures stack == [] && ppStack == []
    {
      stack, ppStack := [], [];
    }

    method UpdatePreprocessor(d: Directive)
      modifies this
      ensures State(stack, ppStack) == Update(State(old(stack), old(ppStack)), d)
    {
      var depth := |ppStack|;
      if d == If {
        ppStack := ppStack + [Info(stack, [], false)];
      } else if d == Else {
        if depth > 0 {
          if !ppStack[depth - 1].seenElse {
            var top := ppStack[depth - 1].(seenElse := true, stackBeforeElse := stack);
            ppStack := ppStack[depth - 1 := top];
          }
          stack := ppStack[depth - 1].stackBeforeIf;
        }
      } else if d == Endif {
        if depth > 0 {
          if ppStack[depth - 1].seenElse {
            stack := ppStack[depth - 1].stackBeforeElse;
          }
          ppStack := ppStack[..depth - 1];
        }
      }
    }

    /** The lines of a file, one after the other. */
    method ProcessLines(events: seq<Event<B>>)
      modifies this
      ensures State(stack, ppStack) == Run(State(old(stack), old(ppStack)), events)
    {
      ghost var whole := Run(State(stack, ppStack), events);
      for i := 0 to |events|
        invariant whole == Run(State(stack, ppStack), events[i..])
      {
        assert events[i..][0] == events[i] && events[i..][1..] == events[i + 1..];
        match events[i]
        case Line(d) => UpdatePreprocessor(d);
        case Edit(f) => stack := f(stack);
      }
    }
  }

  // ----- Runs over the lines of a file

  /** A line either is a directive or edits the nesting stack in any way at all. */
  datatype Event<!B> = Line(directive: Directive) | Edit(edit: seq<B> -> seq<B>)

  function Step<B>(s: State<B>, e: Event<B>): State<B> {
    match e
    case Line(d) => Update(s, d)
    case Edit(f) => s.(stack := f(s.stack))
  }

  function Run<B>(s: State<B>, events: seq<Event<B>>): State<B>
    decreases |events|
  {
    if events == [] then s else Run(Step(s, events[0]), events[1..])
  }

  lemma {:induction false} RunAppend<B>(s: State<B>, a: seq<Event<B>>, b: seq<Event<B>>)
    ensures Run(s, a + b) == Run(Run(s, a), b)
    decreases |a|
  {
    if a == [] {
      assert a + b == b;
    } else {
      assert (a + b)[0] == a[0] && (a + b)[1..] == a[1..] + b;
      RunAppend(Step(s, a[0]), a[1..], b);
    }
  }

  lemma RunOne<B>(s: State<B>, e: Event<B>)
    ensures Run(s, [e]) == Step(s, e)
  {}

  /** The state before event `t` of a run, which need not be well nested. */
  function At<B>(s: State<B>, events: seq<Event<B>>, t: nat): State<B>
    requires t <= |events|
  {
    Run(s, events[..t])
  }

  function Depth<B>(s: State<B>, events: seq<Event<B>>, t: nat): nat
    requires t <= |events|
  {
    |At(s, events, t).ppStack|
  }

  lemma AtNext<B>(s: State<B>, events: seq<Event<B>>, t: nat)
    requires t < |events|
    ensures At(s, events, t + 1) == Step(At(s, events, t), events[t])
  {
    assert events[..t + 1] == events[..t] + [events[t]];
    RunAppend(s, events[..t], [events[t]]);
    RunOne(At(s, events, t), events[t]);
  }

  /** The #endif at `j` is the one that ends the #if at `i`. */
  ghost predicate Block<B>(s: State<B>, events: seq<Event<B>>, i: nat, j: nat) {
    && i < j < |events| && events[i] == Line(If) && events[j] == Line(Endif)
    && Depth(s, events, j) == Depth(s, events, i) + 1
    && (forall t | i < t <= j :: Depth(s, events, t) > Depth(s, events, i))
  }

  /** The first #else or #elif of the #if at `i` before `t`, or `t` when there is none. */
  function FirstElse<B>(s: State<B>, events: seq<Event<B>>, i: nat, t: nat): (k: nat)
    requires i < t <= |events|
    ensures i < k <= t
  {
    if t == i + 1 then t
    else
      var k := FirstElse(s, events, i, t - 1);
      if k < t - 1 || (events[k] == Line(Else) && Depth(s, events, k) == Depth(s, events, i) + 1)
      then k else t
  }

  /** What one event does to the checkpoint at level `d`, as long as it stays. */
  lemma StepAtLevel<B>(s: State<B>, e: Event<B>, d: nat)
    requires |s.ppStack| > d && |Step(s, e).ppStack| > d
    ensures var info := s.ppStack[d];
            var info' := if e == Line(Else) && |s.ppStack| == d + 1 && !info.seenElse
                         then Info(info.stackBeforeIf, s.stack, true) else info;
            Step(s, e).ppStack[..d + 1] == s.ppStack[..d] + [info']
  {}

  /** While the conditional is open, its checkpoint holds the stack of its first #else. */
  lemma {:induction false} CheckpointHolds<B>(s: State<B>, events: seq<Event<B>>, i: nat, t: nat)
    requires i < t <= |events| && events[i] == Line(If)
    requires forall u | i < u <= t :: Depth(s, events, u) > Depth(s, events, i)
    ensures var before, now := At(s, events, i), At(s, events, t);
            var k := FirstElse(s, events, i, t);
            var info := if k < t then Info(before.stack, At(s, events, k).stack, true)
                        else Info(before.stack, [], false);
            && |now.ppStack| > |before.ppStack|
            && now.ppStack[..|before.ppStack| + 1] == before.ppStack + [info]
    decreases t
  {
    AtNext(s, events, t - 1);
    var d := Depth(s, events, i);
    assert Depth(s, events, t) > d;
    if t == i + 1 {
    } else {
      CheckpointHolds(s, events, i, t - 1);
      var prev := At(s, events, t - 1);
      assert prev.ppStack[d] == prev.ppStack[..d + 1][d];
      assert prev.ppStack[..d] == prev.ppStack[..d + 1][..d] == At(s, events, i).ppStack;
      StepAtLevel(prev, events[t - 1], d);
    }
  }

  /** After the #endif, the stack is the one at the first #else or #elif of the block, or the
      running one when there was none, and the checkpoints are those before the #if. */
  lemma EndifRestores<B>(s: State<B>, events: seq<Event<B>>, i: nat, j: nat)
    requires Block(s, events, i, j)
    ensures At(s, events, j + 1).stack == At(s, events, FirstElse(s, events, i, j)).stack
    ensures At(s, events, j + 1).ppStack == At(s, events, i).ppStack
  {
    CheckpointHolds(s, events, i, j);
    AtNext(s, events, j);
    var d := Depth(s, events, i);
    var now := At(s, events, j);
    assert now.ppStack == now.ppStack[..d + 1];
    assert now.ppStack[..d] == now.ppStack[..d + 1][..d];
  }

  /** Well-nested source: edits, and conditionals with any number of #else or #elif parts. */
  datatype Item<!B> =
    | Code(edit: seq<B> -> seq<B>)
    | Conditional(thenPart: seq<Item<B>>, elseParts: ElseParts<B>)

  datatype ElseParts<!B> = NoElse | ElsePart(items: seq<Item<B>>, others: ElseParts<B>)

  function Events<B>(items: seq<Item<B>>): seq<Event<B>>
    decreases items, 1
  {
    if items == [] then [] else ItemEvents(items[0]) + Events(items[1..])
  }

  function ItemEvents<B>(item: Item<B>): seq<Event<B>>
    decreases item, 0
  {
    match item
    case Code(f) => [Edit(f)]
    case Conditional(t, es) => [Line(If)] + Events(t) + ElseEvents(es) + [Line(Endif)]
  }

  function ElseEvents<B>(parts: ElseParts<B>): seq<Event<B>>
    decreases parts, 0
  {
    match parts
    case NoElse => []
    case ElsePart(items, others) => [Line(Else)] + Events(items) + ElseEvents(others)
  }

  /** The stack when every conditional keeps its first part and drops the others. */
  function Kept<B>(items: seq<Item<B>>, stack: seq<B>): seq<B>
    decreases items, 1
  {
    if items == [] then stack else Kept(items[1..], KeptItem(items[0], stack))
  }

  function KeptItem<B>(item: Item<B>, stack: seq<B>): seq<B>
    decreases item, 0
  {
    match item
    case Code(f) => f(stack)
    case Conditional(t, _) => Kept(t, stack)
  }

  /** Nothing done in an #else or #elif part survives the #endif, and the checkpoints of the
      surrounding conditionals come back as they were. */
  lemma {:induction false} RunKeepsFirstParts<B>(s: State<B>, items: seq<Item<B>>)
    ensures Run(s, Events(items)) == State(Kept(items, s.stack), s.ppStack)
    decreases items, 1
  {
    if items == [] {
    } else {
      RunAppend(s, ItemEvents(items[0]), Events(items[1..]));
      RunItem(s, items[0]);
      RunKeepsFirstParts(State(KeptItem(items[0], s.stack), s.ppStack), items[1..]);
    }
  }

  lemma {:induction false} RunItem<B>(s: State<B>, item: Item<B>)
    ensures Run(s, ItemEvents(item)) == State(KeptItem(item, s.stack), s.ppStack)
    decreases item, 0
  {
    match item
    case Code(f) => RunOne(s, Edit(f));
    case Conditional(t, es) =>
      var info := Info(s.stack, [], false);
      var s1 := State(s.stack, s.ppStack + [info]);
      var kept := Kept(t, s.stack);
      var s2 := State(kept, s.ppStack + [info]);
      RunOne(s, Line(If));
      RunAppend(s, [Line(If)], Events(t));
      RunKeepsFirstParts(s1, t);
      assert Run(s, [Line(If)] + Events(t)) == s2;
      RunAppend(s, [Line(If)] + Events(t), ElseEvents(es));
      RunAppend(s, [Line(If)] + Events(t) + ElseEvents(es), [Line(Endif)]);
      RunElses(s2, s.ppStack, info, es);
      RunOne(Run(s2, ElseEvents(es)), Line(Endif));
      var s3 := Run(s2, ElseEvents(es));
      assert s3.ppStack[..|s.ppStack|] == s.ppStack;
  }

  /** Through the #else parts, the checkpoint keeps the stack seen at the first of them. */
  lemma {:induction false} RunElses<B>(s: State<B>, outer: seq<Info<B>>, info: Info<B>,
                                       parts: ElseParts<B>)
    requires s.ppStack == outer + [info]
    ensures var info' := if info.seenElse || parts.NoElse? then info
                         else Info(info.stackBeforeIf, s.stack, true);
            var s' := Run(s, ElseEvents(parts));
            && s'.ppStack == outer + [info']
            && (parts.NoElse? ==> s' == s)
    decreases parts, 0
  {
    if parts.NoElse? {
    } else {
      var info' := if info.seenElse then info else Info(info.stackBeforeIf, s.stack, true);
      var s1 := State(info.stackBeforeIf, outer + [info']);
      RunOne(s, Line(Else));
      assert Step(s, Line(Else)) == s1;
      RunAppend(s, [Line(Else)], Events(parts.items));
      RunKeepsFirstParts(s1, parts.items);
      RunAppend(s, [Line(Else)] + Events(parts.items), ElseEvents(parts.others));
      RunElses(Run(s, [Line(Else)] + Events(parts.items)), outer, info', parts.others);
    }
  }
}
