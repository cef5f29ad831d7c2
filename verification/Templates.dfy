/** The template engine of the error-code generator: a recursive parser of line directives and
    a renderer with scoped environments. */
module Templates {
  import opened Results

  datatype Kind = ForBlock | IfBlock

  /** What one line of a template is; `Malformed` is a //#for without " in " or a //#set
      without "=". */
  datatype Token =
    | Text(line: string)
    | For(names: seq<string>, expression: string)
    | If(condition: string)
    | Set(name: string, expression: string)
    | End(kind: Kind)
    | Malformed

  datatype Node =
    | TextNode(line: string)
    | ForNode(names: seq<string>, expression: string, body: seq<Node>)
    | IfNode(condition: string, body: seq<Node>)
    | SetNode(name: string, expression: string)

  // ----- Parsing

  /** Nodes and the position after them, or None for a ValueError. */
  type Parse = Option<(seq<Node>, nat)>

  function Prepend(nodes: seq<Node>, r: Parse): Parse {
    match r
    case None => None
    case Some((ns, p)) => Some((nodes + ns, p))
  }

  /** The node of a one-line directive. */
  function Leaf(t: Token): Node
    requires t.Text? || t.Set?
  {
    match t
    case Text(line) => TextNode(line)
    case Set(name, expression) => SetNode(name, expression)
  }

  function BlockKind(t: Token): Kind
    requires t.For? || t.If?
  {
    if t.For? then ForBlock else IfBlock
  }

  function Block(t: Token, body: seq<Node>): Node
    requires t.For? || t.If?
  {
    match t
    case For(names, expression) => ForNode(names, expression, body)
    case If(condition) => IfNode(condition, body)
  }

  function ParseFrom(ts: seq<Token>, pos: nat, terminator: Option<Kind>): (r: Parse)
    requires pos <= |ts|
    ensures r.Some? ==> pos <= r.value.1 <= |ts|
    decreases |ts| - pos
  {
    if pos == |ts| then
      if terminator.Some? then None else Some(([], pos))
    else
      var t := ts[pos];
      if t.End? then
        if terminator == Some(t.kind) then Some(([], pos + 1)) else None
      else if t.Malformed? then None
      else if t.Text? || t.Set? then Prepend([Leaf(t)], ParseFrom(ts, pos + 1, terminator))
      else
        match ParseFrom(ts, pos + 1, Some(BlockKind(t)))
        case None => None
        case Some((body, p)) => Prepend([Block(t, body)], ParseFrom(ts, p, terminator))
  }

  lemma PrependNothing(r: Parse)
    ensures Prepend([], r) == r
  {
    if r.Some? { assert [] + r.value.0 == r.value.0; }
  }

  lemma PrependTwice(a: seq<Node>, b: seq<Node>, r: Parse)
    ensures Prepend(a, Prepend(b, r)) == Prepend(a + b, r)
  {
    if r.Some? { assert a + (b + r.value.0) == a + b + r.value.0; }
  }

  /** The loop and recursion of `parse_template`. */
  method ParseTemplate(ts: seq<Token>, start: nat, terminator: Option<Kind>) returns (r: Parse)
    requires start <= |ts|
    ensures r == ParseFrom(ts, start, terminator)
    decreases |ts| - start
  {
    var nodes, pos := [], start;
    PrependNothing(ParseFrom(ts, start, terminator));
    while pos < |ts|
      invariant start <= pos <= |ts|
      invariant ParseFrom(ts, start, terminator) == Prepend(nodes, ParseFrom(ts, pos, terminator))
      decreases |ts| - pos
    {
      var t := ts[pos];
      if t.End? {
        if terminator != Some(t.kind) {
          return None;
        }
        assert nodes + [] == nodes;
        return Some((nodes, pos + 1));
      }
      if t.Malformed? {
        return None;
      }
      if t.For? || t.If? {
        var nested := ParseTemplate(ts, pos + 1, Some(BlockKind(t)));
        if nested.None? {
          return None;
        }
        PrependTwice(nodes, [Block(t, nested.value.0)], ParseFrom(ts, nested.value.1, terminator));
        nodes, pos := nodes + [Block(t, nested.value.0)], nested.value.1;
      } else {
        PrependTwice(nodes, [Leaf(t)], ParseFrom(ts, pos + 1, terminator));
        nodes, pos := nodes + [Leaf(t)], pos + 1;
      }
    }
    if terminator.Some? {
      return None;
    }
    assert nodes + [] == nodes;
    return Some((nodes, pos));
  }

  // ----- Which token lists parse

  /** The directives from `pos` on close the open blocks, the innermost first, by kind. */
  predicate WellBracketed(ts: seq<Token>, pos: nat, open: seq<Kind>)
    requires pos <= |ts|
    decreases |ts| - pos
  {
    if pos == |ts| then open == []
    else
      match ts[pos]
      case Text(_) => WellBracketed(ts, pos + 1, open)
      case Set(_, _) => WellBracketed(ts, pos + 1, open)
      case For(_, _) => WellBracketed(ts, pos + 1, [ForBlock] + open)
      case If(_) => WellBracketed(ts, pos + 1, [IfBlock] + open)
      case End(kind) => open != [] && open[0] == kind && WellBracketed(ts, pos + 1, open[1..])
      case Malformed => false
  }

  /** A block that parses closes itself and nothing else. */
  lemma {:induction false} ParsedBlock(ts: seq<Token>, pos: nat, kind: Kind, open: seq<Kind>)
    requires pos <= |ts| && ParseFrom(ts, pos, Some(kind)).Some?
    ensures WellBracketed(ts, pos, [kind] + open) ==
            WellBracketed(ts, ParseFrom(ts, pos, Some(kind)).value.1, open)
    decreases |ts| - pos
  {
    var t := ts[pos];
    if t.Text? || t.Set? {
      ParsedBlock(ts, pos + 1, kind, open);
    } else if t.For? || t.If? {
      var k := BlockKind(t);
      ParsedBlock(ts, pos + 1, k, [kind] + open);
      ParsedBlock(ts, ParseFrom(ts, pos + 1, Some(k)).value.1, kind, open);
    } else {
      assert ([kind] + open)[1..] == open;
    }
  }

  lemma {:induction false} ParsedTop(ts: seq<Token>, pos: nat)
    requires pos <= |ts| && ParseFrom(ts, pos, None).Some?
    ensures WellBracketed(ts, pos, []) && ParseFrom(ts, pos, None).value.1 == |ts|
    decreases |ts| - pos
  {
    if pos == |ts| {
    } else {
      var t := ts[pos];
      if t.Text? || t.Set? {
        ParsedTop(ts, pos + 1);
      } else {
        var k := BlockKind(t);
        ParsedBlock(ts, pos + 1, k, []);
        ParsedTop(ts, ParseFrom(ts, pos + 1, Some(k)).value.1);
      }
    }
  }

  lemma {:induction false} BracketedBlockParses(ts: seq<Token>, pos: nat, kind: Kind, open: seq<Kind>)
    requires pos <= |ts| && WellBracketed(ts, pos, [kind] + open)
    ensures ParseFrom(ts, pos, Some(kind)).Some?
    decreases |ts| - pos
  {
    var t := ts[pos];
    if t.Text? || t.Set? {
      BracketedBlockParses(ts, pos + 1, kind, open);
    } else if t.For? || t.If? {
      var k := BlockKind(t);
      BracketedBlockParses(ts, pos + 1, k, [kind] + open);
      ParsedBlock(ts, pos + 1, k, [kind] + open);
      BracketedBlockParses(ts, ParseFrom(ts, pos + 1, Some(k)).value.1, kind, open);
    }
  }

  lemma {:induction false} BracketedTopParses(ts: seq<Token>, pos: nat)
    requires pos <= |ts| && WellBracketed(ts, pos, [])
    ensures ParseFrom(ts, pos, None).Some?
    decreases |ts| - pos
  {
    if pos == |ts| {
    } else {
      var t := ts[pos];
      if t.Text? || t.Set? {
        BracketedTopParses(ts, pos + 1);
      } else {
        var k := BlockKind(t);
        assert [k] == [k] + [];
        BracketedBlockParses(ts, pos + 1, k, []);
        ParsedBlock(ts, pos + 1, k, []);
        BracketedTopParses(ts, ParseFrom(ts, pos + 1, Some(k)).value.1);
      }
    }
  }

  /** A template parses exactly when its directives are well bracketed by kind, and then
      wholly. */
  lemma ParsesExactlyWellBracketed(ts: seq<Token>)
    ensures ParseFrom(ts, 0, None).Some? <==> WellBracketed(ts, 0, [])
    ensures ParseFrom(ts, 0, None).Some? ==> ParseFrom(ts, 0, None).value.1 == |ts|
  {
    if ParseFrom(ts, 0, None).Some? { ParsedTop(ts, 0); }
    if WellBracketed(ts, 0, []) { BracketedTopParses(ts, 0); }
  }

  // ----- Parsing and printing

  function Print(nodes: seq<Node>): seq<Token>
    decreases nodes, 1
  {
    if nodes == [] then [] else PrintNode(nodes[0]) + Print(nodes[1..])
  }

  function PrintNode(n: Node): seq<Token>
    decreases n, 0
  {
    match n
    case TextNode(line) => [Text(line)]
    case SetNode(name, expression) => [Set(name, expression)]
    case ForNode(names, expression, body) => [For(names, expression)] + Print(body) + [End(ForBlock)]
    case IfNode(condition, body) => [If(condition)] + Print(body) + [End(IfBlock)]
  }

  function Closing(terminator: Option<Kind>): seq<Token> {
    match terminator
    case None => []
    case Some(kind) => [End(kind)]
  }

  /** `nodes`, with what closes them, print as the tokens from `pos` to `p`. */
  ghost predicate PrintsAs(nodes: seq<Node>, terminator: Option<Kind>, ts: seq<Token>, pos: nat, p: nat) {
    pos <= p <= |ts| && ts[pos..p] == Print(nodes) + Closing(terminator)
  }

  ghost predicate Reprints(ts: seq<Token>, pos: nat, terminator: Option<Kind>)
    requires pos <= |ts|
  {
    var r := ParseFrom(ts, pos, terminator);
    r.Some? && PrintsAs(r.value.0, terminator, ts, pos, r.value.1)
  }

  /** What was parsed prints as the tokens it was parsed from. */
  lemma {:induction false} ParseThenPrint(ts: seq<Token>, pos: nat, terminator: Option<Kind>)
    requires pos <= |ts| && ParseFrom(ts, pos, terminator).Some?
    ensures Reprints(ts, pos, terminator)
    decreases |ts| - pos
  {
    if pos == |ts| {
    } else {
      var t := ts[pos];
      if t.Text? || t.Set? {
        ParseThenPrint(ts, pos + 1, terminator);
        LeafReprints(ts, pos, terminator);
      } else if t.For? || t.If? {
        ParseThenPrint(ts, pos + 1, Some(BlockKind(t)));
        ParseThenPrint(ts, ParseFrom(ts, pos + 1, Some(BlockKind(t))).value.1, terminator);
        BlockReprints(ts, pos, terminator);
      }
    }
  }

  lemma LeafReprints(ts: seq<Token>, pos: nat, terminator: Option<Kind>)
    requires pos < |ts| && (ts[pos].Text? || ts[pos].Set?) && Reprints(ts, pos + 1, terminator)
    ensures Reprints(ts, pos, terminator)
  {}

  lemma PrintsAsFirst(n: Node, nodes: seq<Node>, terminator: Option<Kind>, ts: seq<Token>,
                      pos: nat, q: nat, p: nat)
    requires pos <= q && PrintsAs(nodes, terminator, ts, q, p) && ts[pos..q] == PrintNode(n)
    ensures PrintsAs([n] + nodes, terminator, ts, pos, p)
  {}

  lemma BlockReprints(ts: seq<Token>, pos: nat, terminator: Option<Kind>)
    requires pos < |ts| && (ts[pos].For? || ts[pos].If?)
    requires Reprints(ts, pos + 1, Some(BlockKind(ts[pos])))
    requires Reprints(ts, ParseFrom(ts, pos + 1, Some(BlockKind(ts[pos]))).value.1, terminator)
    ensures Reprints(ts, pos, terminator)
  {
    var t, k := ts[pos], BlockKind(ts[pos]);
    var inner := ParseFrom(ts, pos + 1, Some(k)).value;
    var rest := ParseFrom(ts, inner.1, terminator).value;
    BlockPrints(t, inner.0, ts, pos, inner.1);
    PrintsAsFirst(Block(t, inner.0), rest.0, terminator, ts, pos, inner.1, rest.1);
  }

  lemma BlockPrints(t: Token, body: seq<Node>, ts: seq<Token>, pos: nat, q: nat)
    requires (t.For? || t.If?) && pos < |ts| && ts[pos] == t
    requires PrintsAs(body, Some(BlockKind(t)), ts, pos + 1, q)
    ensures ts[pos..q] == PrintNode(Block(t, body))
  {}

  /** The printed nodes stand at `pos`. */
  ghost predicate PrintedAt(printed: seq<Token>, ts: seq<Token>, pos: nat) {
    pos + |printed| <= |ts| && forall i | 0 <= i < |printed| :: ts[pos + i] == printed[i]
  }

  lemma PrintedParts(a: seq<Token>, b: seq<Token>, ts: seq<Token>, pos: nat)
    requires PrintedAt(a + b, ts, pos)
    ensures PrintedAt(a, ts, pos) && PrintedAt(b, ts, pos + |a|)
  {
    forall i | 0 <= i < |a| ensures ts[pos + i] == a[i] { assert (a + b)[i] == a[i]; }
    forall i | 0 <= i < |b| ensures ts[pos + |a| + i] == b[i] {
      assert (a + b)[|a| + i] == b[i];
      assert ts[pos + (|a| + i)] == (a + b)[|a| + i];
    }
  }

  /** Printed nodes parse back, whatever follows them. */
  lemma {:induction false} PrintThenParse(nodes: seq<Node>, ts: seq<Token>, pos: nat, terminator: Option<Kind>)
    requires PrintedAt(Print(nodes), ts, pos)
    ensures ParseFrom(ts, pos, terminator) ==
            Prepend(nodes, ParseFrom(ts, pos + |Print(nodes)|, terminator))
    decreases nodes, 1
  {
    if nodes == [] {
      PrependNothing(ParseFrom(ts, pos, terminator));
    } else {
      var n, rest := nodes[0], nodes[1..];
      PrintedParts(PrintNode(n), Print(rest), ts, pos);
      PrintNodeThenParse(n, ts, pos, terminator);
      PrintThenParse(rest, ts, pos + |PrintNode(n)|, terminator);
      PrependTwice([n], rest, ParseFrom(ts, pos + |Print(nodes)|, terminator));
      assert [n] + rest == nodes;
    }
  }

  lemma {:induction false} PrintNodeThenParse(n: Node, ts: seq<Token>, pos: nat, terminator: Option<Kind>)
    requires PrintedAt(PrintNode(n), ts, pos)
    ensures ParseFrom(ts, pos, terminator) ==
            Prepend([n], ParseFrom(ts, pos + |PrintNode(n)|, terminator))
    decreases n, 0
  {
    assert ts[pos + 0] == PrintNode(n)[0];
    if n.ForNode? || n.IfNode? {
      BlockTokens(n, ts, pos);
      PrintThenParse(n.body, ts, pos + 1, Some(BlockKind(ts[pos])));
      assert n.body + [] == n.body;
    }
  }

  /** Where the parts of a printed block stand. */
  lemma BlockTokens(n: Node, ts: seq<Token>, pos: nat)
    requires (n.ForNode? || n.IfNode?) && PrintedAt(PrintNode(n), ts, pos)
    ensures |PrintNode(n)| == |Print(n.body)| + 2
    ensures (ts[pos].For? || ts[pos].If?) && n == Block(ts[pos], n.body)
    ensures PrintedAt(Print(n.body), ts, pos + 1)
    ensures ts[pos + 1 + |Print(n.body)|] == End(BlockKind(ts[pos]))
  {
    var whole, inner := PrintNode(n), Print(n.body);
    PrintedBlock(n);
    assert ts[pos + 0] == whole[0];
    assert ts[pos + (1 + |inner|)] == whole[1 + |inner|];
    forall i | 0 <= i < |inner| ensures ts[pos + 1 + i] == inner[i] {
      assert ts[pos + (1 + i)] == whole[1 + i];
    }
  }

  /** A sequence with one more element at either end. */
  lemma Enclosed(first: Token, inner: seq<Token>, last: Token)
    ensures var whole := [first] + inner + [last];
            && |whole| == |inner| + 2 && whole[0] == first && whole[1 + |inner|] == last
            && (forall i | 0 <= i < |inner| :: whole[1 + i] == inner[i])
  {}

  lemma PrintedBlock(n: Node)
    requires n.ForNode? || n.IfNode?
    ensures var whole, inner := PrintNode(n), Print(n.body);
            && |whole| == |inner| + 2
            && (whole[0].For? || whole[0].If?) && n == Block(whole[0], n.body)
            && (forall i | 0 <= i < |inner| :: whole[1 + i] == inner[i])
            && whole[1 + |inner|] == End(BlockKind(whole[0]))
  {
    match n
    case ForNode(names, expression, body) => Enclosed(For(names, expression), Print(body), End(ForBlock));
    case IfNode(condition, body) => Enclosed(If(condition), Print(body), End(IfBlock));
  }

  /** Parsing and printing are inverse to each other. */
  lemma ParsePrintInverse(ts: seq<Token>, nodes: seq<Node>)
    ensures ParseFrom(ts, 0, None) == Some((nodes, |ts|)) <==> ts == Print(nodes)
  {
    if ParseFrom(ts, 0, None) == Some((nodes, |ts|)) {
      ParseThenPrint(ts, 0, None);
      assert Reprints(ts, 0, None);
      assert ts[0..|ts|] == ts;
      assert Print(nodes) + [] == Print(nodes);
    }
    if ts == Print(nodes) {
      PrintThenParse(nodes, ts, 0, None);
      assert nodes + [] == nodes;
    }
  }

  // ----- Rendering

  type Values<V> = map<string, V>

  /** Python's evaluation of expressions, taken as given. */
  datatype Evaluator<!V> = Evaluator(
    evaluate: (string, Values<V>) -> V,
    truth: V -> bool,
    items: V -> seq<V>,
    unpack: V -> seq<V>,
    substitute: (string, Values<V>) -> string)

  /** `values.update(zip(names, unpacked))` */
  function Zipped<V>(values: Values<V>, names: seq<string>, unpacked: seq<V>): Values<V>
    decreases |names|
  {
    if names == [] || unpacked == [] then values
    else Zipped(values[names[0] := unpacked[0]], names[1..], unpacked[1..])
  }

  function Bound<V>(ev: Evaluator<V>, values: Values<V>, names: seq<string>, item: V): Values<V> {
    Zipped(values, names, if |names| > 1 then ev.unpack(item) else [item])
  }

  /** The lines that nodes render to, and the environment after them. */
  function Render<V>(ev: Evaluator<V>, nodes: seq<Node>, values: Values<V>): (seq<string>, Values<V>)
    decreases nodes, 0
  {
    if nodes == [] then ([], values)
    else
      var (lines, values') := RenderNode(ev, nodes[0], values);
      var (more, values'') := Render(ev, nodes[1..], values');
      (lines + more, values'')
  }

  function RenderNode<V>(ev: Evaluator<V>, n: Node, values: Values<V>): (seq<string>, Values<V>)
    decreases n, 0
  {
    match n
    case TextNode(line) => ([ev.substitute(line, values)], values)
    case SetNode(name, expression) => ([], values[name := ev.evaluate(expression, values)])
    case IfNode(condition, body) =>
      (if ev.truth(ev.evaluate(condition, values)) then Render(ev, body, values).0 else [], values)
    case ForNode(names, expression, body) =>
      (RenderItems(ev, names, body, ev.items(ev.evaluate(expression, values)), values), values)
  }

  function RenderItems<V>(ev: Evaluator<V>, names: seq<string>, body: seq<Node>, items: seq<V>,
                          values: Values<V>): seq<string>
    decreases body, 1, |items|
  {
    if items == [] then []
    else
      Render(ev, body, Bound(ev, values, names, items[0])).0 +
      RenderItems(ev, names, body, items[1..], values)
  }

  /** The //#set nodes outside every block, in order. */
  function TopSets(nodes: seq<Node>): seq<(string, string)> {
    if nodes == [] then []
    else if nodes[0].SetNode? then [(nodes[0].name, nodes[0].expression)] + TopSets(nodes[1..])
    else TopSets(nodes[1..])
  }

  function Assigned<V>(ev: Evaluator<V>, sets: seq<(string, string)>, values: Values<V>): Values<V>
    decreases |sets|
  {
    if sets == [] then values
    else Assigned(ev, sets[1..], values[sets[0].0 := ev.evaluate(sets[0].1, values)])
  }

  /** Rendering changes the environment by the top-level sets, in order, and by nothing that is
      set inside a block. */
  lemma {:induction false} RenderAssignsTopSets<V>(ev: Evaluator<V>, nodes: seq<Node>, values: Values<V>)
    ensures Render(ev, nodes, values).1 == Assigned(ev, TopSets(nodes), values)
    decreases |nodes|
  {
    if nodes == [] {
    } else {
      RenderAssignsTopSets(ev, nodes[1..], RenderNode(ev, nodes[0], values).1);
    }
  }

  lemma {:induction false} RenderAppend<V>(ev: Evaluator<V>, a: seq<Node>, b: seq<Node>, values: Values<V>)
    ensures var (lines, values') := Render(ev, a, values);
            var (more, values'') := Render(ev, b, values');
            Render(ev, a + b, values) == (lines + more, values'')
    decreases |a|
  {
    if a == [] {
      assert a + b == b;
      assert [] + Render(ev, b, values).0 == Render(ev, b, values).0;
    } else {
      assert (a + b)[0] == a[0] && (a + b)[1..] == a[1..] + b;
      var (first, values1) := RenderNode(ev, a[0], values);
      RenderAppend(ev, a[1..], b, values1);
      var (lines, values2) := Render(ev, a[1..], values1);
      var more := Render(ev, b, values2).0;
      assert first + (lines + more) == first + lines + more;
    }
  }

  /** A dictionary of values that rendering updates in place. */
  class Environment<V> {
    var values: Values<V>

    constructor (values: Values<V>)
      ensures this.values == values
    {
      this.values := values;
    }
  }

  method RenderNodes<V>(ev: Evaluator<V>, nodes: seq<Node>, env: Environment<V>) returns (lines: seq<string>)
    modifies env
    ensures (lines, env.values) == Render(ev, nodes, old(env.values))
    decreases nodes, 0
  {
    lines := [];
    for i := 0 to |nodes|
      invariant (lines, env.values) == Render(ev, nodes[..i], old(env.values))
    {
      RenderUpTo(ev, nodes, i, old(env.values));
      var more := RenderOne(ev, nodes[i], env);
      lines := lines + more;
    }
    assert nodes[..|nodes|] == nodes;
  }

  lemma RenderUpTo<V>(ev: Evaluator<V>, nodes: seq<Node>, i: nat, values: Values<V>)
    requires i < |nodes|
    ensures var (lines, values') := Render(ev, nodes[..i], values);
            var (more, values'') := RenderNode(ev, nodes[i], values');
            Render(ev, nodes[..i + 1], values) == (lines + more, values'')
  {
    assert nodes[..i + 1] == nodes[..i] + [nodes[i]];
    RenderAppend(ev, nodes[..i], [nodes[i]], values);
    RenderSingle(ev, nodes[i], Render(ev, nodes[..i], values).1);
  }

  lemma RenderSingle<V>(ev: Evaluator<V>, n: Node, values: Values<V>)
    ensures Render(ev, [n], values) == RenderNode(ev, n, values)
  {
    assert [n][1..] == [];
    var (lines, values') := RenderNode(ev, n, values);
    assert lines + [] == lines;
  }

  /** One round of the loop over nodes. */
  method RenderOne<V>(ev: Evaluator<V>, n: Node, env: Environment<V>) returns (lines: seq<string>)
    modifies env
    ensures (lines, env.values) == RenderNode(ev, n, old(env.values))
    decreases n, 0
  {
    lines := [];
    match n
    case TextNode(line) =>
      lines := [ev.substitute(line, env.values)];
    case SetNode(name, expression) =>
      env.values := env.values[name := ev.evaluate(expression, env.values)];
    case IfNode(condition, body) =>
      if ev.truth(ev.evaluate(condition, env.values)) {
        var nested := new Environment(env.values);
        lines := RenderNodes(ev, body, nested);
      }
    case ForNode(names, expression, body) =>
      lines := RenderEach(ev, names, body, ev.items(ev.evaluate(expression, env.values)), env.values);
  }

  method RenderEach<V>(ev: Evaluator<V>, names: seq<string>, body: seq<Node>, items: seq<V>, values: Values<V>)
    returns (lines: seq<string>)
    ensures lines == RenderItems(ev, names, body, items, values)
    decreases body, 1
  {
    lines := [];
    for i := 0 to |items|
      invariant RenderItems(ev, names, body, items, values) ==
                lines + RenderItems(ev, names, body, items[i..], values)
    {
      ItemsFrom(ev, names, body, items, i, values, lines);
      var nested := new Environment(Bound(ev, values, names, items[i]));
      var more := RenderNodes(ev, body, nested);
      lines := lines + more;
    }
  }

  lemma ItemsFrom<V>(ev: Evaluator<V>, names: seq<string>, body: seq<Node>, items: seq<V>, i: nat,
                     values: Values<V>, lines: seq<string>)
    requires i < |items|
    ensures lines + RenderItems(ev, names, body, items[i..], values) ==
            lines + Render(ev, body, Bound(ev, values, names, items[i])).0 +
            RenderItems(ev, names, body, items[i + 1..], values)
  {}

  // ----- Several templates

  /** Templates rendered one after the other in one environment, as `main` does. */
  function RenderAll<V>(ev: Evaluator<V>, templates: seq<seq<Node>>, values: Values<V>)
    : (r: (seq<seq<string>>, Values<V>))
    ensures |r.0| == |templates|
    decreases |templates|
  {
    if templates == [] then ([], values)
    else
      var (lines, values') := Render(ev, templates[0], values);
      var (more, values'') := RenderAll(ev, templates[1..], values');
      ([lines] + more, values'')
  }

  function AllTopSets(templates: seq<seq<Node>>): seq<(string, string)> {
    if templates == [] then [] else TopSets(templates[0]) + AllTopSets(templates[1..])
  }

  /** Template `i` starts with the top-level sets of all templates before it. */
  lemma {:induction false} SetsCarryOver<V>(ev: Evaluator<V>, templates: seq<seq<Node>>, values: Values<V>, i: nat)
    requires i < |templates|
    ensures RenderAll(ev, templates, values).0[i] ==
            Render(ev, templates[i], Assigned(ev, AllTopSets(templates[..i]), values)).0
    decreases |templates|
  {
    if i == 0 {
    } else {
      var values' := Render(ev, templates[0], values).1;
      SetsCarryOver(ev, templates[1..], values', i - 1);
      assert templates[1..][..i - 1] == templates[..i][1..];
      RenderAssignsTopSets(ev, templates[0], values);
      AssignedAppend(ev, TopSets(templates[0]), AllTopSets(templates[..i][1..]), values);
    }
  }

  lemma {:induction false} AssignedAppend<V>(ev: Evaluator<V>, a: seq<(string, string)>,
                                             b: seq<(string, string)>, values: Values<V>)
    ensures Assigned(ev, a + b, values) == Assigned(ev, b, Assigned(ev, a, values))
    decreases |a|
  {
    if a == [] {
      assert a + b == b;
    } else {
      assert (a + b)[0] == a[0] && (a + b)[1..] == a[1..] + b;
      AssignedAppend(ev, a[1..], b, values[a[0].0 := ev.evaluate(a[0].1, values)]);
    }
  }

  // ----- What one template leaves to the next

  /** The output of a template after others. */
  function OutputAfter<V>(ev: Evaluator<V>, before: seq<seq<Node>>, t: seq<Node>, values: Values<V>): seq<string> {
    RenderAll(ev, before + [t], values).0[|before|]
  }

  lemma OutputAfterSets<V>(ev: Evaluator<V>, before: seq<seq<Node>>, t: seq<Node>, values: Values<V>)
    ensures OutputAfter(ev, before, t, values) == Render(ev, t, Assigned(ev, AllTopSets(before), values)).0
  {
    assert (before + [t])[..|before|] == before && (before + [t])[|before|] == t;
    SetsCarryOver(ev, before + [t], values, |before|);
  }

  lemma {:induction false} AssignedDefines<V>(ev: Evaluator<V>, sets: seq<(string, string)>, values: Values<V>,
                                              name: string)
    requires name in values || (sets != [] && sets[0].0 == name)
    ensures name in Assigned(ev, sets, values)
    decreases |sets|
  {
    if sets == [] {
    } else {
      AssignedDefines(ev, sets[1..], values[sets[0].0 := ev.evaluate(sets[0].1, values)], name);
    }
  }

  /** Shows a line only where `name` is defined. */
  function Revealing(name: string): Evaluator<bool> {
    Evaluator((e, values) => true, v => v, v => [], v => [v],
              (line, values: Values<bool>) => if name in values then line else "")
  }

  /** A template after one that sets a name at top level may print what it does not print alone. */
  lemma SetsLeak(before: seq<seq<Node>>, name: string)
    requires AllTopSets(before) != [] && AllTopSets(before)[0].0 == name
    ensures OutputAfter(Revealing(name), before, [TextNode("x")], map[]) == ["x"]
    ensures Render(Revealing(name), [TextNode("x")], map[]).0 == [""]
  {
    var ev, t := Revealing(name), [TextNode("x")];
    OutputAfterSets(ev, before, t, map[]);
    AssignedDefines(ev, AllTopSets(before), map[], name);
    assert t[1..] == [];
  }

  /** Templates rendered one after another come out as each does alone, whatever they are and whatever
      the expressions mean, exactly when no template before sets a name at top level. */
  lemma IndependentExactly(before: seq<seq<Node>>)
    ensures (forall ev: Evaluator<bool>, t, values ::
               OutputAfter(ev, before, t, values) == Render(ev, t, values).0) <==>
            AllTopSets(before) == []
  {
    if AllTopSets(before) == [] {
      forall ev: Evaluator<bool>, t, values ensures OutputAfter(ev, before, t, values) == Render(ev, t, values).0 {
        OutputAfterSets(ev, before, t, values);
      }
    } else {
      var name := AllTopSets(before)[0].0;
      SetsLeak(before, name);
      assert OutputAfter(Revealing(name), before, [TextNode("x")], map[]) !=
             Render(Revealing(name), [TextNode("x")], map[]).0;
    }
  }

  method RenderTemplates<V>(ev: Evaluator<V>, templates: seq<seq<Node>>, env: Environment<V>)
    returns (outputs: seq<seq<string>>)
    modifies env
    ensures (outputs, env.values) == RenderAll(ev, templates, old(env.values))
  {
    outputs := [];
    ghost var whole := RenderAll(ev, templates, env.values);
    assert templates[0..] == templates && [] + whole.0 == whole.0;
    for i := 0 to |templates|
      invariant whole == (outputs + RenderAll(ev, templates[i..], env.values).0,
                          RenderAll(ev, templates[i..], env.values).1)
    {
      RenderAllFrom(ev, templates, i, env.values, outputs);
      var lines := RenderNodes(ev, templates[i], env);
      outputs := outputs + [lines];
    }
    assert outputs + [] == outputs;
  }

  lemma RenderAllFrom<V>(ev: Evaluator<V>, templates: seq<seq<Node>>, i: nat, values: Values<V>,
                         outputs: seq<seq<string>>)
    requires i < |templates|
    ensures var (lines, values') := Render(ev, templates[i], values);
            var now, next := RenderAll(ev, templates[i..], values), RenderAll(ev, templates[i + 1..], values');
            outputs + now.0 == outputs + [lines] + next.0 && now.1 == next.1
  {}

  /** The second of two templates, rendered after the first and alone. */
  method SecondTemplateDiffers() returns (together: seq<string>, alone: seq<string>)
    ensures together == ["x"] && alone == [""]
  {
    var ev, first, second := Revealing("n"), [SetNode("n", "1")], [TextNode("x")];
    var shared := new Environment(map[]);
    var outputs := RenderTemplates(ev, [first] + [second], shared);
    together := outputs[1];
    var own := new Environment(map[]);
    alone := RenderNodes(ev, second, own);
    assert TopSets(first)[0] == ("n", "1") && AllTopSets([first]) == TopSets(first) + AllTopSets([first][1..]);
    SetsLeak([first], "n");
  }
}
