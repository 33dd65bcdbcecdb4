/**
 * Properties of the rendering engine (codenode/writer.py) stated over the
 * specification `Engine.RenderSeq`, which the imperative writer is proved to follow.
 */
module RenderingLaws {
  import opened Wrappers
  import opened Markers
  import opened Engine
  import Text
  import Lines

  /** Trees built only from strings and nested sequences. */
  predicate TextOnly(nodes: seq<Node>)
    decreases nodes
  {
    forall i | 0 <= i < |nodes| :: nodes[i].Str? || (nodes[i].Seq? && TextOnly(nodes[i].items))
  }

  /** The strings of a tree in depth-first, left-to-right order. */
  function Leaves(nodes: seq<Node>): seq<string>
    decreases nodes
  {
    if nodes == [] then []
    else
      (match nodes[0]
       case Str(s) => [s]
       case Seq(items) => Leaves(items)
       case _ => [])
      + Leaves(nodes[1..])
  }

  /** Order preservation: a marker-free tree renders as its leaves, in depth-first order. */
  lemma {:induction false} LeafOrder(nodes: seq<Node>, depth: int, cfg: Config)
    requires TextOnly(nodes)
    ensures RenderSeq(nodes, depth, cfg) == Outcome(Leaves(nodes), depth, None)
    decreases nodes
  {
    if nodes != [] {
      assert TextOnly(nodes[1..]) by {
        forall i | 0 <= i < |nodes[1..]| ensures nodes[1..][i] == nodes[i + 1] {}
      }
      if nodes[0].Seq? {
        LeafOrder(nodes[0].items, depth, cfg);
      }
      LeafOrder(nodes[1..], depth, cfg);
    }
  }

  /** No node can raise: no unsupported value and no abstract marker. */
  predicate Supported(nodes: seq<Node>)
    decreases nodes
  {
    forall i | 0 <= i < |nodes| ::
      match nodes[i]
      case Other(_) => false
      case DepthNode(c) => !c.AbstractDepthChange?
      case IndentNode(ind) => !ind.AbstractIndentation?
      case Seq(items) => Supported(items)
      case _ => true
  }

  /** No absolute depth change anywhere in the tree. */
  predicate RelativeOnly(nodes: seq<Node>)
    decreases nodes
  {
    forall i | 0 <= i < |nodes| ::
      match nodes[i]
      case DepthNode(c) => !c.AbsoluteDepthChange?
      case Seq(items) => RelativeOnly(items)
      case _ => true
  }

  /** The sum of the offsets of the relative depth changes in the tree. */
  function NetOffset(nodes: seq<Node>): int
    decreases nodes
  {
    if nodes == [] then 0
    else
      (match nodes[0]
       case DepthNode(RelativeDepthChange(k)) => k
       case Seq(items) => NetOffset(items)
       case _ => 0)
      + NetOffset(nodes[1..])
  }

  lemma TailProperties(nodes: seq<Node>)
    requires nodes != []
    ensures Supported(nodes) ==> Supported(nodes[1..])
    ensures RelativeOnly(nodes) ==> RelativeOnly(nodes[1..])
  {
    forall i | 0 <= i < |nodes[1..]| ensures nodes[1..][i] == nodes[i + 1] {}
  }

  /**
   * A supported tree renders without error, and with only relative changes its
   * depth moves by exactly the sum of their offsets: depth changes inside a
   * sequence persist after it ends.
   */
  lemma {:induction false} NetDepth(nodes: seq<Node>, depth: int, cfg: Config)
    requires Supported(nodes)
    ensures RenderSeq(nodes, depth, cfg).error.None?
    ensures RelativeOnly(nodes) ==> RenderSeq(nodes, depth, cfg).depth == depth + NetOffset(nodes)
    decreases nodes
  {
    if nodes != [] {
      TailProperties(nodes);
      var head :=
        if nodes[0].Seq? then RenderSeq(nodes[0].items, depth, cfg)
        else
          var e := ProcessNode(nodes[0], depth, cfg);
          Outcome(e.chunks, e.depth, e.error);
      if nodes[0].Seq? {
        NetDepth(nodes[0].items, depth, cfg);
      }
      NetDepth(nodes[1..], head.depth, cfg);
    }
  }

  /** A relative depth change emits nothing and moves the depth for everything after it. */
  lemma RelativeStep(offset: int, rest: seq<Node>, depth: int, cfg: Config)
    ensures RenderSeq([DepthNode(RelativeDepthChange(offset))] + rest, depth, cfg)
         == RenderSeq(rest, depth + offset, cfg)
  {
    var node := DepthNode(RelativeDepthChange(offset));
    Unfold(node, rest, depth, cfg);
    assert ProcessNode(node, depth, cfg) == Effect([], depth + offset, None, None);
  }

  /** A current-indentation marker emits the indentation string once per level of depth. */
  lemma CurrentStep(rest: seq<Node>, depth: int, cfg: Config)
    ensures RenderSeq([CurrentIndent] + rest, depth, cfg)
         == Prepend([Repeat(cfg.indentation, depth)], RenderSeq(rest, depth, cfg))
  {
    Unfold(CurrentIndent, rest, depth, cfg);
    assert ProcessNode(CurrentIndent, depth, cfg) == Effect([Repeat(cfg.indentation, depth)], depth, None, None);
  }

  /** A string or newline node emits itself (or the configured newline) and leaves the depth alone. */
  lemma TextStep(node: Node, rest: seq<Node>, depth: int, cfg: Config)
    requires node.Str? || node.NewlineNode?
    ensures RenderSeq([node] + rest, depth, cfg)
         == Prepend([if node.Str? then node.text else cfg.newline], RenderSeq(rest, depth, cfg))
  {
    Unfold(node, rest, depth, cfg);
  }

  /** A marker inside a sequence still applies after the sequence ends. */
  lemma DepthPersistsPastSequenceEnd(offset: int, depth: int, cfg: Config)
    ensures RenderSeq([Seq([DepthNode(RelativeDepthChange(offset))]), CurrentIndent], depth, cfg)
         == Outcome([Repeat(cfg.indentation, depth + offset)], depth + offset, None)
  {
    var inner := [DepthNode(RelativeDepthChange(offset))];
    assert [Seq(inner), CurrentIndent] == [Seq(inner)] + [CurrentIndent];
    Flatten(inner, [CurrentIndent], depth, cfg);
    RelativeStep(offset, [CurrentIndent], depth, cfg);
    assert [CurrentIndent] == [CurrentIndent] + [];
    CurrentStep([], depth + offset, cfg);
  }

  /** An empty sequence node contributes no chunk and no depth change. */
  lemma EmptySequence(rest: seq<Node>, depth: int, cfg: Config)
    ensures RenderSeq([Seq([])] + rest, depth, cfg) == RenderSeq(rest, depth, cfg)
  {
    Flatten([], rest, depth, cfg);
    assert [] + rest == rest;
  }

  /** `k` nested levels of `indent, [...], dedent` around a current-indentation marker. */
  function Nested(k: nat): seq<Node> {
    if k == 0 then [CurrentIndent] else [Indent, Seq(Nested(k - 1)), Dedent]
  }

  /** Depth scoping: the innermost marker gets `k` more indents, and the depth is back afterwards. */
  lemma {:induction false} NestedScoping(k: nat, depth: int, cfg: Config)
    ensures RenderSeq(Nested(k), depth, cfg) == Outcome([Repeat(cfg.indentation, depth + k)], depth, None)
  {
    if k == 0 {
      NestedZero(depth, cfg);
    } else {
      var marker := Repeat(cfg.indentation, depth + k);
      NestedUnfold(k, depth, cfg);
      NestedScoping(k - 1, depth + 1, cfg);
      assert depth + 1 + (k - 1) == depth + k;
      var inner := RenderSeq(Nested(k - 1), depth + 1, cfg);
      assert inner == Outcome([marker], depth + 1, None);
      ThenDedent(marker, depth, cfg);
      assert Then(inner, [Dedent], cfg) == Outcome([marker], depth, None);
    }
  }

  /** A single chunk followed by a closing dedent: the chunk, one level shallower. */
  lemma ThenDedent(marker: string, depth: int, cfg: Config)
    ensures Then(Outcome([marker], depth + 1, None), [Dedent], cfg) == Outcome([marker], depth, None)
  {
    DedentLast(depth, cfg);
    assert [marker] + [] == [marker];
  }

  /** No level of `Nested`: the marker alone. */
  lemma NestedZero(depth: int, cfg: Config)
    ensures RenderSeq(Nested(0), depth, cfg) == Outcome([Repeat(cfg.indentation, depth)], depth, None)
  {
    assert Nested(0) == [CurrentIndent] + [];
    CurrentStep([], depth, cfg);
  }

  /** One level of `Nested`: the inner levels one deeper, then the dedent. */
  lemma NestedUnfold(k: nat, depth: int, cfg: Config)
    requires k > 0
    ensures RenderSeq(Nested(k), depth, cfg) == Then(RenderSeq(Nested(k - 1), depth + 1, cfg), [Dedent], cfg)
  {
    var inner := Nested(k - 1);
    assert Nested(k) == [Indent] + ([Seq(inner)] + [Dedent]);
    RelativeStep(1, [Seq(inner)] + [Dedent], depth, cfg);
    Flatten(inner, [Dedent], depth + 1, cfg);
    RenderSeqAppend(inner, [Dedent], depth + 1, cfg);
  }

  /** A closing dedent emits nothing and takes the depth back one level. */
  lemma DedentLast(depth: int, cfg: Config)
    ensures RenderSeq([Dedent], depth + 1, cfg) == Outcome([], depth, None)
  {
    assert [Dedent] == [Dedent] + [];
    RelativeStep(-1, [], depth + 1, cfg);
  }

  /** `line(s)` renders as the indentation for the current depth, `s`, and the newline. */
  lemma LineRenders(s: string, rest: seq<Node>, depth: int, cfg: Config)
    ensures RenderSeq([Line(s)] + rest, depth, cfg)
         == Prepend([Repeat(cfg.indentation, depth), s, cfg.newline], RenderSeq(rest, depth, cfg))
  {
    LineFlatten(s, rest, depth, cfg);
    LineParts(s, rest, depth, cfg);
  }

  lemma LineFlatten(s: string, rest: seq<Node>, depth: int, cfg: Config)
    ensures RenderSeq([Line(s)] + rest, depth, cfg)
         == RenderSeq([CurrentIndent] + ([Str(s)] + ([Newline] + rest)), depth, cfg)
  {
    Flatten([CurrentIndent, Str(s), Newline], rest, depth, cfg);
    assert [CurrentIndent, Str(s), Newline] + rest == [CurrentIndent] + ([Str(s)] + ([Newline] + rest));
  }

  lemma LineParts(s: string, rest: seq<Node>, depth: int, cfg: Config)
    ensures RenderSeq([CurrentIndent] + ([Str(s)] + ([Newline] + rest)), depth, cfg)
         == Prepend([Repeat(cfg.indentation, depth), s, cfg.newline], RenderSeq(rest, depth, cfg))
  {
    var margin := Repeat(cfg.indentation, depth);
    var after := RenderSeq(rest, depth, cfg);
    CurrentStep([Str(s)] + ([Newline] + rest), depth, cfg);
    TextStep(Str(s), [Newline] + rest, depth, cfg);
    TextStep(Newline, rest, depth, cfg);
    PrependThree(margin, s, cfg.newline, after);
  }

  lemma PrependThree(a: string, b: string, c: string, o: Outcome)
    ensures Prepend([a], Prepend([b], Prepend([c], o))) == Prepend([a, b, c], o)
  {
    assert [a] + ([b] + ([c] + o.chunks)) == [a, b, c] + o.chunks;
  }

  /** A sequence of `line(...)` nodes renders one indented line per string. */
  function LinesChunks(lines: seq<string>, depth: int, cfg: Config): seq<string> {
    if lines == [] then []
    else [Repeat(cfg.indentation, depth), lines[0], cfg.newline] + LinesChunks(lines[1..], depth, cfg)
  }

  function LineNodes(lines: seq<string>): (r: seq<Node>)
    ensures |r| == |lines|
  {
    if lines == [] then [] else [Line(lines[0])] + LineNodes(lines[1..])
  }

  lemma {:induction false} LinesRender(lines: seq<string>, depth: int, cfg: Config)
    ensures RenderSeq(LineNodes(lines), depth, cfg) == Outcome(LinesChunks(lines, depth, cfg), depth, None)
  {
    if lines != [] {
      LineRenders(lines[0], LineNodes(lines[1..]), depth, cfg);
      LinesRender(lines[1..], depth, cfg);
    }
  }

  /** The text of those lines: each string indented for the depth and followed by the newline. */
  lemma {:induction false} LinesText(lines: seq<string>, depth: int, cfg: Config)
    ensures Text.Concat(LinesChunks(lines, depth, cfg))
         == Lines.Terminated(Lines.AddPrefix(Repeat(cfg.indentation, depth), lines), cfg.newline)
  {
    if lines != [] {
      var ind := Repeat(cfg.indentation, depth);
      var rest := LinesChunks(lines[1..], depth, cfg);
      Text.ConcatAppend([ind, lines[0], cfg.newline], rest);
      assert Text.Concat([ind, lines[0], cfg.newline]) == ind + lines[0] + cfg.newline by {
        assert [ind, lines[0], cfg.newline][1..] == [lines[0], cfg.newline];
        assert [lines[0], cfg.newline][1..] == [cfg.newline];
      }
      LinesText(lines[1..], depth, cfg);
      assert Lines.AddPrefix(ind, lines)[1..] == Lines.AddPrefix(ind, lines[1..]);
    }
  }

  /** The tree of tests/basic_test.py: a header line, then four indented lines. */
  const Body := ["print(0)", "print(1)", "print(2)", "print(3)"]
  const TestTree := Seq([Line("def test():"), Indent, Seq(LineNodes(Body)), Dedent])

  lemma TestTreeChunks(depth: int, cfg: Config)
    ensures Render(TestTree, depth, cfg)
         == Outcome([Repeat(cfg.indentation, depth), "def test():", cfg.newline]
                    + LinesChunks(Body, depth + 1, cfg), depth, None)
  {
    var body := LineNodes(Body);
    var top := [Line("def test():"), Indent, Seq(body), Dedent];
    var rest := [Indent] + ([Seq(body)] + [Dedent]);
    assert [TestTree] == [Seq(top)] + [];
    Flatten(top, [], depth, cfg);
    assert top + [] == [Line("def test():")] + rest;
    LineRenders("def test():", rest, depth, cfg);
    RelativeStep(1, [Seq(body)] + [Dedent], depth, cfg);
    BlockThenDedent(Body, depth, cfg);
  }

  /** An indented block of lines followed by its dedent: the lines one level in, and the depth back. */
  lemma BlockThenDedent(lines: seq<string>, depth: int, cfg: Config)
    ensures RenderSeq([Seq(LineNodes(lines))] + [Dedent], depth + 1, cfg)
         == Outcome(LinesChunks(lines, depth + 1, cfg), depth, None)
  {
    var body := LineNodes(lines);
    Flatten(body, [Dedent], depth + 1, cfg);
    RenderSeqAppend(body, [Dedent], depth + 1, cfg);
    LinesRender(lines, depth + 1, cfg);
    DedentLast(depth, cfg);
    assert LinesChunks(lines, depth + 1, cfg) + [] == LinesChunks(lines, depth + 1, cfg);
  }

  /** First scenario of tests/basic_test.py: the default configuration gives four-space indentation. */
  lemma DefaultScenario()
    ensures Render(TestTree, 0, DefaultConfig).chunks
         == ["", "def test():", "\n",
             "    ", "print(0)", "\n", "    ", "print(1)", "\n",
             "    ", "print(2)", "\n", "    ", "print(3)", "\n"]
  {
    TestTreeChunks(0, DefaultConfig);
    assert Repeat("    ", 1) == "    ";
  }

  /** Second scenario: newline `+`, one-space indentation, base depth 2 adds two indents to every line. */
  lemma AlteredScenario()
    ensures Render(TestTree, 2, Config(" ", "+", Strict)).chunks
         == ["  ", "def test():", "+",
             "   ", "print(0)", "+", "   ", "print(1)", "+",
             "   ", "print(2)", "+", "   ", "print(3)", "+"]
  {
    TestTreeChunks(2, Config(" ", "+", Strict));
    assert Repeat(" ", 2) == "  ";
    assert Repeat(" ", 3) == "   ";
  }
}
