/**
 * The earlier node class of base/nodes/codenode.py, whose default header, body and
 * footer are all empty, and its writer in base/codenode_writer.py, which keeps one
 * running depth counter: it adds the parent's `child_depth_offset` when it pushes a
 * node and subtracts the stored amount when it pops one.
 */
module EarlyLayer {
  import Text
  import Lines
  import Engine
  import Writing

  /**
   * A node: what its (possibly overridden) `header`, `body` and `footer` yield, its
   * `children` list and its `child_depth_offset`.
   */
  datatype EarlyNode = EarlyNode(header: seq<EarlyItem>, body: seq<EarlyItem>, footer: seq<EarlyItem>,
                                 children: seq<EarlyNode>, offset: int)

  /** An item of `total()`: a value written as text, or a nested node. */
  datatype EarlyItem = Str(text: string) | Sub(node: EarlyNode)

  /** `total()`: the header, then the body, then the footer; the children take no part. */
  function Total(n: EarlyNode): seq<EarlyItem> {
    n.header + n.body + n.footer
  }

  /** A node with no overrides: `CodeNode()` itself. */
  function PlainNode(children: seq<EarlyNode>): EarlyNode {
    EarlyNode([], [], [], children, 1)
  }

  /** A plain node yields nothing, whatever children it holds, and indents its children by one level. */
  lemma PlainYieldsNothing(children: seq<EarlyNode>, indent: string, depth: int)
    ensures Total(PlainNode(children)) == []
    ensures NodeLines(PlainNode(children), indent, depth) == []
    ensures PlainNode(children).offset == 1
  {
  }

  /**
   * The lines produced from `items` yielded by `owner` at `depth`: a value as
   * `indent * depth` followed by its text, a nested node one `child_depth_offset` deeper.
   */
  function ItemLines(owner: EarlyNode, items: seq<EarlyItem>, indent: string, depth: int): seq<string>
    decreases items
  {
    if items == [] then [] else OneLines(owner, items[0], indent, depth) + ItemLines(owner, items[1..], indent, depth)
  }

  function OneLines(owner: EarlyNode, item: EarlyItem, indent: string, depth: int): seq<string>
    decreases item
  {
    match item
    case Str(s) => [Engine.Repeat(indent, depth) + s]
    case Sub(c) => NodeLines(c, indent, depth + owner.offset)
  }

  /** The lines of a node whose items sit at `depth`. */
  function NodeLines(n: EarlyNode, indent: string, depth: int): seq<string>
    decreases n
  {
    ItemLines(n, n.header, indent, depth) + ItemLines(n, n.body, indent, depth)
    + ItemLines(n, n.footer, indent, depth)
  }

  lemma {:induction false} ItemLinesAppend(owner: EarlyNode, a: seq<EarlyItem>, b: seq<EarlyItem>, indent: string, depth: int)
    ensures ItemLines(owner, a + b, indent, depth) == ItemLines(owner, a, indent, depth) + ItemLines(owner, b, indent, depth)
    decreases a
  {
    if a == [] {
      assert a + b == b;
    } else {
      assert (a + b)[0] == a[0];
      assert (a + b)[1..] == a[1..] + b;
      ItemLinesAppend(owner, a[1..], b, indent, depth);
    }
  }

  /** A node's lines are those of its `total()` items. */
  lemma TotalLines(n: EarlyNode, indent: string, depth: int)
    ensures NodeLines(n, indent, depth) == ItemLines(n, Total(n), indent, depth)
  {
    ItemLinesAppend(n, n.header, n.body, indent, depth);
    ItemLinesAppend(n, n.header + n.body, n.footer, indent, depth);
  }

  // ---------------------------------------------------------------------------
  // The stack loop of `node_to_lines`

  /**
   * A stack entry: a node, the offset that was added to the depth when it was pushed
   * (0 for the root), and its `total()` iterator as the items still to come.
   */
  datatype Frame = Frame(node: EarlyNode, stored: int, rest: seq<EarlyItem>)

  /** The offsets stored in the stack's entries, summed. */
  function StoredSum(stack: seq<Frame>): int {
    if stack == [] then 0 else StoredSum(stack[..|stack| - 1]) + stack[|stack| - 1].stored
  }

  /**
   * The lines the stack has still to produce when the counter stands at `depth`: the
   * top entry's items at `depth`, then the rest at the depth before the top was pushed.
   */
  function PendingLines(stack: seq<Frame>, indent: string, depth: int): seq<string>
    decreases |stack|
  {
    if stack == [] then []
    else
      var top := stack[|stack| - 1];
      ItemLines(top.node, top.rest, indent, depth)
      + PendingLines(stack[..|stack| - 1], indent, depth - top.stored)
  }

  /** How many loop rounds the items still take: one per value, two plus the node's own per node. */
  ghost function ItemWork(items: seq<EarlyItem>): nat
    decreases items
  {
    if items == [] then 0 else OneWork(items[0]) + ItemWork(items[1..])
  }

  ghost function OneWork(item: EarlyItem): nat
    decreases item
  {
    match item
    case Str(_) => 1
    case Sub(c) => 2 + NodeWork(c)
  }

  ghost function NodeWork(n: EarlyNode): nat
    decreases n
  {
    ItemWork(n.header) + ItemWork(n.body) + ItemWork(n.footer)
  }

  lemma {:induction false} ItemWorkAppend(a: seq<EarlyItem>, b: seq<EarlyItem>)
    ensures ItemWork(a + b) == ItemWork(a) + ItemWork(b)
    decreases a
  {
    if a == [] {
      assert a + b == b;
    } else {
      assert (a + b)[0] == a[0];
      assert (a + b)[1..] == a[1..] + b;
      ItemWorkAppend(a[1..], b);
    }
  }

  ghost function StackWork(stack: seq<Frame>): nat
    decreases |stack|
  {
    if stack == [] then 0
    else 1 + ItemWork(stack[|stack| - 1].rest) + StackWork(stack[..|stack| - 1])
  }

  lemma PushFrame(stack: seq<Frame>, f: Frame, indent: string, depth: int)
    ensures StoredSum(stack + [f]) == StoredSum(stack) + f.stored
    ensures PendingLines(stack + [f], indent, depth)
         == ItemLines(f.node, f.rest, indent, depth) + PendingLines(stack, indent, depth - f.stored)
    ensures StackWork(stack + [f]) == 1 + ItemWork(f.rest) + StackWork(stack)
  {
    PushLines(stack, f, indent, depth);
    PushWork(stack, f);
  }

  lemma PushLines(stack: seq<Frame>, f: Frame, indent: string, depth: int)
    ensures StoredSum(stack + [f]) == StoredSum(stack) + f.stored
    ensures PendingLines(stack + [f], indent, depth)
         == ItemLines(f.node, f.rest, indent, depth) + PendingLines(stack, indent, depth - f.stored)
  {
    assert (stack + [f])[..|stack|] == stack;
  }

  lemma PushWork(stack: seq<Frame>, f: Frame)
    ensures StackWork(stack + [f]) == 1 + ItemWork(f.rest) + StackWork(stack)
  {
    assert (stack + [f])[..|stack|] == stack;
  }

  /**
   * One round of the loop: pop an exhausted entry and subtract its stored offset, write
   * the next value at the current depth, or push the next nested node and add the
   * parent's offset.
   */
  method Round(stack: seq<Frame>, depth: int, lines: seq<string>, indent: string, ghost start: int)
    returns (stack': seq<Frame>, depth': int, lines': seq<string>)
    requires stack != [] && depth == start + StoredSum(stack)
    ensures depth' == start + StoredSum(stack')
    ensures lines' + PendingLines(stack', indent, depth') == lines + PendingLines(stack, indent, depth)
    ensures StackWork(stack') < StackWork(stack)
  {
    var top := stack[|stack| - 1];
    var below := stack[..|stack| - 1];
    assert stack == below + [top];
    if top.rest == [] {
      PopStep(below, top, indent, depth);
      stack', depth', lines' := below, depth - top.stored, lines;
    } else {
      var next := top.(rest := top.rest[1..]);
      if top.rest[0].Str? {
        var line := Engine.Repeat(indent, depth) + top.rest[0].text;
        StrStep(below, top, indent, depth);
        stack', depth' := below + [next], depth;
        lines' := lines + [line];
        Text.AppendAssoc(lines, [line], PendingLines(stack', indent, depth'));
      } else {
        var c := top.rest[0].node;
        SubStep(below, top, indent, depth);
        stack' := below + [next] + [Frame(c, top.node.offset, Total(c))];
        depth', lines' := depth + top.node.offset, lines;
      }
    }
  }

  lemma PopStep(below: seq<Frame>, top: Frame, indent: string, depth: int)
    requires top.rest == []
    ensures StoredSum(below + [top]) == StoredSum(below) + top.stored
    ensures PendingLines(below + [top], indent, depth) == PendingLines(below, indent, depth - top.stored)
    ensures StackWork(below) < StackWork(below + [top])
  {
    PushFrame(below, top, indent, depth);
  }

  /** Taking a value: one line at the current depth, and the work shrinks. */
  lemma StrStep(below: seq<Frame>, top: Frame, indent: string, depth: int)
    requires top.rest != [] && top.rest[0].Str?
    ensures var next := top.(rest := top.rest[1..]);
      && StoredSum(below + [next]) == StoredSum(below + [top])
      && PendingLines(below + [top], indent, depth)
         == [Engine.Repeat(indent, depth) + top.rest[0].text] + PendingLines(below + [next], indent, depth)
      && StackWork(below + [next]) < StackWork(below + [top])
  {
    var next := top.(rest := top.rest[1..]);
    StrStepLines(below, top, next, indent, depth);
    StrStepWork(below, top, next);
  }

  lemma StrStepLines(below: seq<Frame>, top: Frame, next: Frame, indent: string, depth: int)
    requires top.rest != [] && top.rest[0].Str?
    requires next == top.(rest := top.rest[1..])
    ensures StoredSum(below + [next]) == StoredSum(below + [top])
    ensures PendingLines(below + [top], indent, depth)
         == [Engine.Repeat(indent, depth) + top.rest[0].text] + PendingLines(below + [next], indent, depth)
  {
    var line := Engine.Repeat(indent, depth) + top.rest[0].text;
    TextHead(top.node, top.rest, indent, depth);
    ReplaceTop(below, top, next, [line], indent, depth);
  }

  lemma TextHead(owner: EarlyNode, items: seq<EarlyItem>, indent: string, depth: int)
    requires items != [] && items[0].Str?
    ensures ItemLines(owner, items, indent, depth)
         == [Engine.Repeat(indent, depth) + items[0].text] + ItemLines(owner, items[1..], indent, depth)
  {
  }

  /** Replacing the top entry by one with the same stored offset that has `head` fewer lines to go. */
  lemma ReplaceTop(below: seq<Frame>, top: Frame, next: Frame, head: seq<string>, indent: string, depth: int)
    requires next.stored == top.stored
    requires ItemLines(top.node, top.rest, indent, depth) == head + ItemLines(next.node, next.rest, indent, depth)
    ensures StoredSum(below + [next]) == StoredSum(below + [top])
    ensures PendingLines(below + [top], indent, depth) == head + PendingLines(below + [next], indent, depth)
  {
    var outer := depth - top.stored;
    PushLinesAt(below, top, indent, depth, outer);
    PushLinesAt(below, next, indent, depth, outer);
    Text.AppendAssoc(head, ItemLines(next.node, next.rest, indent, depth), PendingLines(below, indent, outer));
  }

  lemma StrStepWork(below: seq<Frame>, top: Frame, next: Frame)
    requires top.rest != [] && top.rest[0].Str?
    requires next == top.(rest := top.rest[1..])
    ensures StackWork(below + [next]) < StackWork(below + [top])
  {
    PushWork(below, top);
    PushWork(below, next);
    assert ItemWork(top.rest) == 1 + ItemWork(next.rest);
  }

  /** Taking a nested node: its lines come first, one offset deeper, and the work shrinks. */
  lemma SubStep(below: seq<Frame>, top: Frame, indent: string, depth: int)
    requires top.rest != [] && top.rest[0].Sub?
    ensures var c := top.rest[0].node;
            var next := top.(rest := top.rest[1..]);
            var after := below + [next] + [Frame(c, top.node.offset, Total(c))];
      && StoredSum(after) == StoredSum(below + [top]) + top.node.offset
      && PendingLines(after, indent, depth + top.node.offset) == PendingLines(below + [top], indent, depth)
      && StackWork(after) < StackWork(below + [top])
  {
    var c := top.rest[0].node;
    var next := top.(rest := top.rest[1..]);
    var child := Frame(c, top.node.offset, Total(c));
    SubStepLines(below, top, next, child, indent, depth);
    SubStepWork(below, top, next, child);
  }

  lemma SubStepLines(below: seq<Frame>, top: Frame, next: Frame, child: Frame, indent: string, depth: int)
    requires top.rest != [] && top.rest[0].Sub?
    requires next == top.(rest := top.rest[1..])
    requires child == Frame(top.rest[0].node, top.node.offset, Total(top.rest[0].node))
    ensures StoredSum(below + [next] + [child]) == StoredSum(below + [top]) + top.node.offset
    ensures PendingLines(below + [next] + [child], indent, depth + top.node.offset)
         == PendingLines(below + [top], indent, depth)
  {
    var c := child.node;
    var inner := depth + top.node.offset;
    NestedLines(top.node, top.rest, indent, depth);
    FreshLines(c, indent, inner);
    PushChild(below, top, next, child, indent, depth);
  }

  /**
   * Replacing the top entry by `next` and pushing `child` above it, when the top's
   * lines are the child's lines, `child.stored` deeper, followed by those of `next`.
   */
  lemma PushChild(below: seq<Frame>, top: Frame, next: Frame, child: Frame, indent: string, depth: int)
    requires next.stored == top.stored
    requires ItemLines(top.node, top.rest, indent, depth)
          == ItemLines(child.node, child.rest, indent, depth + child.stored) + ItemLines(next.node, next.rest, indent, depth)
    ensures StoredSum(below + [next] + [child]) == StoredSum(below + [top]) + child.stored
    ensures PendingLines(below + [next] + [child], indent, depth + child.stored)
         == PendingLines(below + [top], indent, depth)
  {
    var middle := below + [next];
    var inner := depth + child.stored;
    var outer := depth - top.stored;
    PushLinesAt(middle, child, indent, inner, depth);
    PushLinesAt(below, next, indent, depth, outer);
    PushLinesAt(below, top, indent, depth, outer);
    Text.AppendAssoc(ItemLines(child.node, child.rest, indent, inner), ItemLines(next.node, next.rest, indent, depth),
             PendingLines(below, indent, outer));
  }

  lemma PushLinesAt(stack: seq<Frame>, f: Frame, indent: string, depth: int, outer: int)
    requires outer == depth - f.stored
    ensures StoredSum(stack + [f]) == StoredSum(stack) + f.stored
    ensures PendingLines(stack + [f], indent, depth)
         == ItemLines(f.node, f.rest, indent, depth) + PendingLines(stack, indent, outer)
  {
    PushLines(stack, f, indent, depth);
  }

  lemma SubStepWork(below: seq<Frame>, top: Frame, next: Frame, child: Frame)
    requires top.rest != [] && top.rest[0].Sub?
    requires next == top.(rest := top.rest[1..])
    requires child == Frame(top.rest[0].node, top.node.offset, Total(top.rest[0].node))
    ensures StackWork(below + [next] + [child]) < StackWork(below + [top])
  {
    NestedWork(top.rest);
    FreshWork(child.node);
    PushWork(below, top);
    PushWork(below, next);
    PushWork(below + [next], child);
  }

  lemma NestedLines(owner: EarlyNode, items: seq<EarlyItem>, indent: string, depth: int)
    requires items != [] && items[0].Sub?
    ensures ItemLines(owner, items, indent, depth)
         == NodeLines(items[0].node, indent, depth + owner.offset) + ItemLines(owner, items[1..], indent, depth)
  {
  }

  lemma NestedWork(items: seq<EarlyItem>)
    requires items != [] && items[0].Sub?
    ensures ItemWork(items) == 2 + NodeWork(items[0].node) + ItemWork(items[1..])
  {
  }

  lemma FreshLines(c: EarlyNode, indent: string, depth: int)
    ensures ItemLines(c, Total(c), indent, depth) == NodeLines(c, indent, depth)
  {
    TotalLines(c, indent, depth);
  }

  lemma FreshWork(c: EarlyNode)
    ensures ItemWork(Total(c)) == NodeWork(c)
  {
    ItemWorkAppend(c.header, c.body);
    ItemWorkAppend(c.header + c.body, c.footer);
  }

  /**
   * `node_to_lines(node, indent, depth)`: every value the tree yields, as the indent
   * repeated to the depth of its node and then the value; the counter is back at the
   * initial depth once the stack is empty.
   */
  method NodeToLines(root: EarlyNode, indent: string, depth: int)
    returns (lines: seq<string>, ghost finalDepth: int)
    ensures lines == NodeLines(root, indent, depth)
    ensures finalDepth == depth
  {
    var stack := [Frame(root, 0, Total(root))];
    var current := depth;
    PushFrame([], Frame(root, 0, Total(root)), indent, depth);
    TotalLines(root, indent, depth);
    lines := [];
    while stack != []
      invariant current == depth + StoredSum(stack)
      invariant lines + PendingLines(stack, indent, current) == NodeLines(root, indent, depth)
      decreases StackWork(stack)
    {
      stack, current, lines := Round(stack, current, lines, indent, depth);
    }
    finalDepth := current;
  }

  /** What `dump` writes: each line, then '\n'. */
  function DumpChunks(lines: seq<string>): (r: seq<string>)
    ensures |r| == 2 * |lines|
  {
    if lines == [] then [] else [lines[0], "\n"] + DumpChunks(lines[1..])
  }

  lemma {:induction false} DumpChunksSnoc(lines: seq<string>, line: string)
    ensures DumpChunks(lines + [line]) == DumpChunks(lines) + [line, "\n"]
  {
    if lines == [] {
      assert lines + [line] == [line];
    } else {
      assert (lines + [line])[1..] == lines[1..] + [line];
      DumpChunksSnoc(lines[1..], line);
    }
  }

  /** `dump`: writes each line and a '\n', in order. */
  method Dump(root: EarlyNode, stream: Writing.Stream, indent: string, depth: int)
    modifies stream
    ensures stream.written == old(stream.written) + DumpChunks(NodeLines(root, indent, depth))
  {
    var lines, _ := NodeToLines(root, indent, depth);
    var i := 0;
    while i < |lines|
      invariant 0 <= i <= |lines|
      invariant stream.written == old(stream.written) + DumpChunks(lines[..i])
    {
      DumpChunksSnoc(lines[..i], lines[i]);
      assert lines[..i] + [lines[i]] == lines[..i + 1];
      stream.Write(lines[i]);
      stream.Write("\n");
      i := i + 1;
    }
    assert lines[..i] == lines;
  }

  /** `dumps`: the text `dump` writes into a fresh buffer. */
  method Dumps(root: EarlyNode, indent: string, depth: int) returns (r: string)
    ensures r == Text.Concat(DumpChunks(NodeLines(root, indent, depth)))
  {
    var buffer := new Writing.Stream();
    Dump(root, buffer, indent, depth);
    assert buffer.written == DumpChunks(NodeLines(root, indent, depth));
    r := buffer.GetValue();
  }

  /** The dumped text is every line followed by exactly one '\n'. */
  lemma {:induction false} DumpText(lines: seq<string>)
    ensures Text.Concat(DumpChunks(lines)) == Lines.Terminated(lines, "\n")
  {
    if lines != [] {
      Text.ConcatAppend([lines[0], "\n"], DumpChunks(lines[1..]));
      assert [lines[0], "\n"] == [lines[0]] + ["\n"];
      Text.ConcatAppend([lines[0]], ["\n"]);
      DumpText(lines[1..]);
    }
  }

  /** The earlier `CodeNode` object: fixed overrides, a mutable `children` list. */
  class CodeNode {
    const header: seq<EarlyItem>
    const body: seq<EarlyItem>
    const footer: seq<EarlyItem>
    var children: seq<EarlyNode>
    const offset: int

    /** A node with the given overrides (all empty for `CodeNode()` itself), no children, offset 1. */
    constructor(header: seq<EarlyItem>, body: seq<EarlyItem>, footer: seq<EarlyItem>)
      ensures this.header == header && this.body == body && this.footer == footer
      ensures children == [] && offset == 1
    {
      this.header, this.body, this.footer := header, body, footer;
      children := [];
      offset := 1;
    }

    function Value(): EarlyNode
      reads this
    {
      EarlyNode(header, body, footer, children, offset)
    }

    /** `add_child`: appends the child as given; `total()` does not change. */
    method AddChild(child: EarlyNode)
      modifies this
      ensures children == old(children) + [child]
      ensures Total(Value()) == old(Total(Value()))
    {
      children := children + [child];
    }
  }
}
