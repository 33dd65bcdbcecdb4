/**
 * codenode_utilities/joined.py: `joined(nodes, start, separator, end)` yields
 * the start node, the nodes with a separator between neighbours, and the end
 * node — the end node only when there was at least one node.
 */
module Joining {
  import opened Engine
  import Text
  import Lines
  import RenderingLaws

  /** The nodes with `separator` between each neighbouring pair. */
  function Interleaved(nodes: seq<Node>, separator: Node): (r: seq<Node>)
    requires nodes != []
    ensures |r| == 2 * |nodes| - 1
  {
    if |nodes| == 1 then [nodes[0]] else [nodes[0], separator] + Interleaved(nodes[1..], separator)
  }

  /** Items sit at the even positions of the interleaving, separators at the odd ones. */
  lemma {:induction false} InterleavedSlots(nodes: seq<Node>, separator: Node)
    requires nodes != []
    ensures var r := Interleaved(nodes, separator);
      && (forall i | 0 <= i < |nodes| :: r[2 * i] == nodes[i])
      && (forall i | 0 <= i < |nodes| - 1 :: r[2 * i + 1] == separator)
  {
    if |nodes| > 1 {
      InterleavedSlots(nodes[1..], separator);
      var rest := Interleaved(nodes[1..], separator);
      var r := [nodes[0], separator] + rest;
      forall i | 1 <= i < |nodes| ensures r[2 * i] == nodes[i] {
        assert r[2 * i] == rest[2 * (i - 1)];
      }
      forall i | 1 <= i < |nodes| - 1 ensures r[2 * i + 1] == separator {
        assert r[2 * i + 1] == rest[2 * (i - 1) + 1];
      }
    }
  }

  /** What `joined` yields, in order. */
  function JoinedNodes(nodes: seq<Node>, start: Node, separator: Node, end: Node): (r: seq<Node>)
    ensures nodes == [] ==> r == [start]
    ensures nodes != [] ==> |r| == 2 * |nodes| + 1
  {
    if nodes == [] then [start] else [start] + Interleaved(nodes, separator) + [end]
  }

  /**
   * The order of the output: the start node first; the `i`-th node at position
   * `2i + 1`; a separator between neighbouring nodes; the end node last.
   */
  lemma JoinedSlots(nodes: seq<Node>, start: Node, separator: Node, end: Node)
    requires nodes != []
    ensures var r := JoinedNodes(nodes, start, separator, end);
      && r[0] == start
      && r[|r| - 1] == end
      && (forall i | 0 <= i < |nodes| :: r[2 * i + 1] == nodes[i])
      && (forall i | 0 <= i < |nodes| - 1 :: r[2 * i + 2] == separator)
  {
    var inter := Interleaved(nodes, separator);
    assert JoinedNodes(nodes, start, separator, end) == [start] + inter + [end];
    InterleavedSlots(nodes, separator);
    EnclosedItems(nodes, separator, start, end, inter);
    EnclosedSeparators(nodes, separator, start, end, inter);
  }

  lemma EnclosedItems(nodes: seq<Node>, separator: Node, start: Node, end: Node, inter: seq<Node>)
    requires |inter| == 2 * |nodes| - 1
    requires forall i | 0 <= i < |nodes| :: inter[2 * i] == nodes[i]
    ensures forall i | 0 <= i < |nodes| :: ([start] + inter + [end])[2 * i + 1] == nodes[i]
  {
    forall i | 0 <= i < |nodes| ensures ([start] + inter + [end])[2 * i + 1] == nodes[i] {
      Enclosed(start, inter, end, 2 * i);
    }
  }

  lemma EnclosedSeparators(nodes: seq<Node>, separator: Node, start: Node, end: Node, inter: seq<Node>)
    requires |inter| == 2 * |nodes| - 1
    requires forall i | 0 <= i < |nodes| - 1 :: inter[2 * i + 1] == separator
    ensures forall i | 0 <= i < |nodes| - 1 :: ([start] + inter + [end])[2 * i + 2] == separator
  {
    forall i | 0 <= i < |nodes| - 1 ensures ([start] + inter + [end])[2 * i + 2] == separator {
      Enclosed(start, inter, end, 2 * i + 1);
    }
  }

  lemma Enclosed(start: Node, inter: seq<Node>, end: Node, k: nat)
    requires k < |inter|
    ensures ([start] + inter + [end])[k + 1] == inter[k]
  {
  }

  /** The defaults: start `''`, separator and end `newline`. */
  const DefaultStart := Str("")

  /**
   * The generator's loop: look one item ahead, yield the current item, then the
   * separator if another item follows, else the end node.
   */
  method Joined(nodes: seq<Node>, start: Node, separator: Node, end: Node) returns (r: seq<Node>)
    ensures r == JoinedNodes(nodes, start, separator, end)
  {
    ghost var expected := JoinedNodes(nodes, start, separator, end);
    r := [start];
    var i := 0;
    while i < |nodes|
      invariant 0 <= i <= |nodes|
      invariant r == expected[..2 * i + 1]
    {
      NextSlots(nodes, start, separator, end, i);
      r := r + [nodes[i]];
      i := i + 1;
      if i < |nodes| {
        r := r + [separator];
      } else {
        r := r + [end];
      }
    }
    assert expected[..2 * i + 1] == expected;
  }

  /** The two slots that follow the `i`-th prefix of the output: the item and what comes after it. */
  lemma NextSlots(nodes: seq<Node>, start: Node, separator: Node, end: Node, i: nat)
    requires i < |nodes|
    ensures var expected := JoinedNodes(nodes, start, separator, end);
      expected[..2 * i + 3]
      == expected[..2 * i + 1] + [nodes[i], if i + 1 < |nodes| then separator else end]
  {
    var expected := JoinedNodes(nodes, start, separator, end);
    JoinedSlots(nodes, start, separator, end);
    assert expected[2 * i + 1] == nodes[i];
    assert expected[2 * i + 2] == if i + 1 < |nodes| then separator else end;
  }

  /** String nodes for each text. */
  function Strs(texts: seq<string>): (r: seq<Node>)
    ensures |r| == |texts|
    ensures forall i | 0 <= i < |r| :: r[i] == Str(texts[i])
  {
    seq(|texts|, i requires 0 <= i < |texts| => Str(texts[i]))
  }

  /** Each string followed by the newline, the strings separated by single newlines. */
  lemma {:induction false} InterleavedLines(texts: seq<string>, depth: int, cfg: Config)
    requires texts != []
    ensures var o := RenderSeq(Interleaved(Strs(texts), Newline) + [Newline], depth, cfg);
      o.depth == depth && o.error.None? && Text.Concat(o.chunks) == Lines.Terminated(texts, cfg.newline)
  {
    if |texts| == 1 {
      InterleavedOne(texts[0]);
      TextThenNewline(texts[0], [], depth, cfg);
      assert texts[1..] == [];
    } else {
      var rest := Interleaved(Strs(texts[1..]), Newline) + [Newline];
      InterleavedMore(texts);
      TextThenNewline(texts[0], rest, depth, cfg);
      InterleavedLines(texts[1..], depth, cfg);
      ConcatPair(texts[0], cfg.newline, RenderSeq(rest, depth, cfg).chunks);
    }
  }

  lemma InterleavedOne(text: string)
    ensures Interleaved(Strs([text]), Newline) + [Newline] == [Str(text)] + ([Newline] + [])
  {
  }

  lemma InterleavedMore(texts: seq<string>)
    requires |texts| > 1
    ensures Interleaved(Strs(texts), Newline) + [Newline]
         == [Str(texts[0])] + ([Newline] + (Interleaved(Strs(texts[1..]), Newline) + [Newline]))
  {
    var nodes := Strs(texts);
    assert nodes[1..] == Strs(texts[1..]);
    assert Interleaved(nodes, Newline) == [nodes[0], Newline] + Interleaved(nodes[1..], Newline);
  }

  /** A string node and a newline emit the text and the configured newline. */
  lemma TextThenNewline(text: string, rest: seq<Node>, depth: int, cfg: Config)
    ensures RenderSeq([Str(text)] + ([Newline] + rest), depth, cfg)
         == Prepend([text, cfg.newline], RenderSeq(rest, depth, cfg))
  {
    var tail := RenderSeq(rest, depth, cfg);
    RenderingLaws.TextStep(Str(text), [Newline] + rest, depth, cfg);
    RenderingLaws.TextStep(Newline, rest, depth, cfg);
    PrependTwice([text], [cfg.newline], tail);
    assert [text] + [cfg.newline] == [text, cfg.newline];
  }

  lemma ConcatPair(a: string, b: string, rest: seq<string>)
    ensures Text.Concat([a, b] + rest) == a + b + Text.Concat(rest)
  {
    Text.ConcatAppend([a, b], rest);
    assert [a, b][1..] == [b];
  }

  /**
   * With the defaults, joining strings renders each of them followed by the
   * newline; with no strings only the empty start is written.
   */
  lemma JoinedRendersLines(texts: seq<string>, depth: int, cfg: Config)
    ensures var o := RenderSeq(JoinedNodes(Strs(texts), DefaultStart, Newline, Newline), depth, cfg);
      o.depth == depth && o.error.None? && Text.Concat(o.chunks) == Lines.Terminated(texts, cfg.newline)
  {
    var nodes := JoinedNodes(Strs(texts), DefaultStart, Newline, Newline);
    if texts == [] {
      assert nodes == [DefaultStart] + [];
      RenderingLaws.TextStep(DefaultStart, [], depth, cfg);
    } else {
      assert nodes == [DefaultStart] + (Interleaved(Strs(texts), Newline) + [Newline]);
      RenderingLaws.TextStep(DefaultStart, Interleaved(Strs(texts), Newline) + [Newline], depth, cfg);
      InterleavedLines(texts, depth, cfg);
      var rest := RenderSeq(Interleaved(Strs(texts), Newline) + [Newline], depth, cfg).chunks;
      Text.ConcatAppend([""], rest);
      assert "" + Text.Concat(rest) == Text.Concat(rest);
    }
  }
}
