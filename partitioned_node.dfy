/**
 * codenode_utilities/partitioned_node.py: a node made of a header, an indented
 * body (its list of children) and a footer, with helpers to add children and
 * to dump itself through the default writer.
 */
module Partitioned {
  import opened Wrappers
  import opened Engine
  import opened Writing
  import RenderingLaws
  import Text

  /** The sections in iteration order: header, indent, body, dedent, footer. */
  function Sections(header: seq<Node>, body: seq<Node>, footer: seq<Node>): (r: seq<Node>)
    ensures |r| == |header| + |body| + |footer| + 2
  {
    header + [Indent] + body + [Dedent] + footer
  }

  class PartitionedNode {
    /** What `header()` and `footer()` yield: nothing by default, fixed by a subclass. */
    const header: seq<Node>
    const footer: seq<Node>
    /** The children, yielded as the body. */
    var children: seq<Node>

    constructor(header: seq<Node>, footer: seq<Node>)
      ensures this.header == header && this.footer == footer && children == []
    {
      this.header := header;
      this.footer := footer;
      children := [];
    }

    /**
     * The node as the writer sees it, an iterable read when it is iterated: the
     * header, one indent, the children in order, one dedent, then the footer.
     */
    function AsNode(): (r: Node)
      reads this
      ensures r.Seq? && |r.items| == |header| + |children| + |footer| + 2
      ensures r.items[..|header|] == header
      ensures r.items[|header|] == Indent
      ensures r.items[|header| + 1..|header| + 1 + |children|] == children
      ensures r.items[|header| + 1 + |children|] == Dedent
      ensures r.items[|header| + 2 + |children|..] == footer
    {
      Seq(Sections(header, children, footer))
    }

    /** `add_child`: append one child and hand it back. */
    method AddChild(node: Node) returns (added: Node)
      modifies this
      ensures children == old(children) + [node]
      ensures added == node
    {
      children := children + [node];
      added := node;
    }

    /** `add_children`: append the nodes in order and hand them back. */
    method AddChildren(nodes: seq<Node>) returns (added: seq<Node>)
      modifies this
      ensures children == old(children) + nodes
      ensures added == nodes
    {
      children := children + nodes;
      added := nodes;
    }

    /** `dump`: write the node to `stream` with the given settings. */
    method Dump(stream: Stream, indentation: string, newline: string, depth: int)
      returns (error: Option<Exception>)
      modifies stream
      ensures var o := Render(AsNode(), depth, Config(indentation, newline, Strict));
        stream.written == old(stream.written) + o.chunks && error == o.error
    {
      var writer := new Writer(AsNode(), indentation, newline, depth, Strict, None);
      error := writer.Dump(stream);
    }

    /** `dumps`: the node as a string with the given settings, or the exception raised. */
    method Dumps(indentation: string, newline: string, depth: int) returns (r: Result<string, Exception>)
      ensures r == DumpsResult(Render(AsNode(), depth, Config(indentation, newline, Strict)))
    {
      r := RenderToString(AsNode(), indentation, newline, depth, Strict);
    }
  }

  /**
   * How the sections are written: the header from the starting depth, the body
   * one level deeper than where the header left off, the footer one level
   * shallower than where the body left off, when neither the header nor the body raises.
   */
  lemma SectionsRender(header: seq<Node>, body: seq<Node>, footer: seq<Node>, depth: int, cfg: Config,
                       h: Outcome, b: Outcome, f: Outcome)
    requires h == RenderSeq(header, depth, cfg) && h.error.None?
    requires b == RenderSeq(body, h.depth + 1, cfg) && b.error.None?
    requires f == RenderSeq(footer, b.depth - 1, cfg)
    ensures RenderSeq(Sections(header, body, footer), depth, cfg) == Outcome(h.chunks + b.chunks + f.chunks, f.depth, f.error)
  {
    var afterHeader := [Indent] + (body + ([Dedent] + footer));
    SectionsShape(header, body, footer);
    RenderSeqAppend(header, afterHeader, depth, cfg);
    IndentedPart(body, footer, h.depth, cfg, b, f);
    assert Then(h, afterHeader, cfg) == Outcome(h.chunks + (b.chunks + f.chunks), f.depth, f.error);
    Text.AppendAssoc(h.chunks, b.chunks, f.chunks);
  }

  lemma SectionsShape(header: seq<Node>, body: seq<Node>, footer: seq<Node>)
    ensures Sections(header, body, footer) == header + ([Indent] + (body + ([Dedent] + footer)))
  {
  }

  /** The part after the header: indent, body, dedent, footer. */
  lemma IndentedPart(body: seq<Node>, footer: seq<Node>, depth: int, cfg: Config, b: Outcome, f: Outcome)
    requires b == RenderSeq(body, depth + 1, cfg) && b.error.None?
    requires f == RenderSeq(footer, b.depth - 1, cfg)
    ensures RenderSeq([Indent] + (body + ([Dedent] + footer)), depth, cfg) == Outcome(b.chunks + f.chunks, f.depth, f.error)
  {
    var closing := [Dedent] + footer;
    RenderingLaws.RelativeStep(1, body + closing, depth, cfg);
    RenderSeqAppend(body, closing, depth + 1, cfg);
    RenderingLaws.RelativeStep(-1, footer, b.depth, cfg);
    assert RenderSeq(closing, b.depth, cfg) == f;
    assert Then(b, closing, cfg) == Outcome(b.chunks + f.chunks, f.depth, f.error);
  }

  /**
   * A body whose markers are relative and balance out is written one level
   * deeper than the node, and the depth is the node's again afterwards.
   */
  lemma IndentedBody(body: seq<Node>, depth: int, cfg: Config)
    requires RenderingLaws.Supported(body) && RenderingLaws.RelativeOnly(body)
    requires RenderingLaws.NetOffset(body) == 0
    ensures Render(Seq(Sections([], body, [])), depth, cfg)
         == Outcome(RenderSeq(body, depth + 1, cfg).chunks, depth, None)
  {
    var h := RenderSeq([], depth, cfg);
    var b := RenderSeq(body, depth + 1, cfg);
    var f := RenderSeq([], b.depth - 1, cfg);
    RenderingLaws.NetDepth(body, depth + 1, cfg);
    SectionsRender([], body, [], depth, cfg, h, b, f);
    Flatten(Sections([], body, []), [], depth, cfg);
    assert [Seq(Sections([], body, []))] == [Seq(Sections([], body, []))] + [];
    assert Sections([], body, []) + [] == Sections([], body, []);
    assert h.chunks + b.chunks + f.chunks == b.chunks;
  }
}
