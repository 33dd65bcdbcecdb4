/**
 * The `CodeNodeWriter` of codenode/base/writer.py: an explicit stack of
 * (node, depth, position in `total()`) entries turns a node tree into
 * (depth, line) pairs; `dump` writes each pair as indentation, line and '\n'.
 */
module TreeWriter {
  import opened Wrappers
  import opened CodeTree
  import Text
  import Lines
  import Engine
  import Writing

  /** Every node among `items` ranks below `owner`. */
  predicate Below(owner: Tree, items: seq<Item>) {
    forall j :: 0 <= j < |items| && items[j].Nested? ==> Rank(items[j].node) < Rank(owner)
  }

  lemma TotalBelow(t: Tree)
    ensures Below(t, Total(t))
  {
    forall j | 0 <= j < |Total(t)| && Total(t)[j].Nested?
      ensures Rank(Total(t)[j].node) < Rank(t)
    {
      NestedSmaller(t, j);
    }
  }

  /**
   * The pairs produced from `items`, yielded by `owner` at `depth`: a text item at that
   * depth, a nested node at `depth + owner.child_depth_offset`.
   */
  function ItemLines(owner: Tree, items: seq<Item>, depth: int): seq<(int, string)>
    requires Below(owner, items)
    decreases Rank(owner), |items|
  {
    if items == [] then []
    else
      assert Below(owner, items[1..]) by {
        forall j | 0 <= j < |items[1..]| && items[1..][j].Nested?
          ensures Rank(items[1..][j].node) < Rank(owner)
        {
          assert items[1..][j] == items[j + 1];
        }
      }
      (match items[0]
       case Emit(s) => [(depth, s)]
       case Nested(c) => NodeLines(c, depth + owner.offset))
      + ItemLines(owner, items[1..], depth)
  }

  /** The pairs `node_to_lines` yields for `t` when its items sit at `depth`. */
  function NodeLines(t: Tree, depth: int): seq<(int, string)>
    decreases Rank(t), |Total(t)| + 1
  {
    TotalBelow(t);
    ItemLines(t, Total(t), depth)
  }

  /** The pairs of a list of sibling nodes, all at `depth`, in order. */
  function ChildrenLines(ts: seq<Tree>, depth: int): seq<(int, string)>
    decreases ts
  {
    if ts == [] then [] else NodeLines(ts[0], depth) + ChildrenLines(ts[1..], depth)
  }

  lemma {:induction false} ItemLinesAppend(owner: Tree, a: seq<Item>, b: seq<Item>, depth: int)
    requires Below(owner, a) && Below(owner, b)
    ensures Below(owner, a + b)
    ensures ItemLines(owner, a + b, depth) == ItemLines(owner, a, depth) + ItemLines(owner, b, depth)
    decreases |a|
  {
    BelowConcat(owner, a, b);
    if a == [] {
      assert a + b == b;
    } else {
      BelowTail(owner, a);
      ItemLinesAppend(owner, a[1..], b, depth);
      AppendStep(owner, a, b, depth);
    }
  }

  /** One step of the induction: peel the first item off `a`. */
  lemma AppendStep(owner: Tree, a: seq<Item>, b: seq<Item>, depth: int)
    requires Below(owner, a) && Below(owner, b) && Below(owner, a + b) && a != []
    requires Below(owner, a[1..]) && Below(owner, a[1..] + b)
    requires ItemLines(owner, a[1..] + b, depth) == ItemLines(owner, a[1..], depth) + ItemLines(owner, b, depth)
    ensures ItemLines(owner, a + b, depth) == ItemLines(owner, a, depth) + ItemLines(owner, b, depth)
  {
    var ab := a + b;
    assert ab[..1] == a[..1];
    assert ab[1..] == a[1..] + b;
    HeadLines(owner, a, depth);
    HeadLines(owner, ab, depth);
    PairsAssoc(ItemLines(owner, a[..1], depth), ItemLines(owner, a[1..], depth), ItemLines(owner, b, depth));
  }

  lemma BelowConcat(owner: Tree, a: seq<Item>, b: seq<Item>)
    requires Below(owner, a) && Below(owner, b)
    ensures Below(owner, a + b)
  {
    forall j | 0 <= j < |a + b| && (a + b)[j].Nested?
      ensures Rank((a + b)[j].node) < Rank(owner)
    {
      if j < |a| {
        assert (a + b)[j] == a[j];
      } else {
        assert (a + b)[j] == b[j - |a|];
      }
    }
  }

  /** The first item's lines, then the rest's. */
  lemma HeadLines(owner: Tree, items: seq<Item>, depth: int)
    requires Below(owner, items) && items != []
    ensures Below(owner, items[..1]) && Below(owner, items[1..])
    ensures ItemLines(owner, items, depth) == ItemLines(owner, items[..1], depth) + ItemLines(owner, items[1..], depth)
  {
    BelowTail(owner, items);
    var one := items[..1];
    assert one[0] == items[0] && one[1..] == [];
  }

  lemma PairsAssoc(a: seq<(int, string)>, b: seq<(int, string)>, c: seq<(int, string)>)
    ensures a + (b + c) == (a + b) + c
  {
  }

  /** The children of `owner`, as its items, render one after another one level in. */
  lemma {:induction false} ChildItems(owner: Tree, ts: seq<Tree>, depth: int)
    requires Below(owner, Nodes(ts))
    ensures ItemLines(owner, Nodes(ts), depth) == ChildrenLines(ts, depth + owner.offset)
    decreases |ts|
  {
    if ts != [] {
      assert Nodes(ts)[1..] == Nodes(ts[1..]);
      ChildItems(owner, ts[1..], depth);
    }
  }

  /** `(d + k, line)` for every `(d, line)`. */
  function Shift(pairs: seq<(int, string)>, k: int): (r: seq<(int, string)>)
    ensures |r| == |pairs|
    ensures forall j :: 0 <= j < |pairs| ==> r[j] == (pairs[j].0 + k, pairs[j].1)
  {
    seq(|pairs|, j requires 0 <= j < |pairs| => (pairs[j].0 + k, pairs[j].1))
  }

  lemma ShiftAppend(a: seq<(int, string)>, b: seq<(int, string)>, k: int)
    ensures Shift(a + b, k) == Shift(a, k) + Shift(b, k)
  {
    assert Shift(a + b, k) == Shift(a, k) + Shift(b, k);
  }

  /**
   * Depth is relative: rendering a tree `k` levels deeper moves every pair `k` levels
   * deeper and changes nothing else.
   */
  lemma {:induction false} NodeLinesShift(t: Tree, depth: int, k: int)
    ensures NodeLines(t, depth + k) == Shift(NodeLines(t, depth), k)
    decreases Rank(t), |Total(t)| + 1
  {
    TotalBelow(t);
    ItemLinesShift(t, Total(t), depth, k);
  }

  lemma {:induction false} ItemLinesShift(owner: Tree, items: seq<Item>, depth: int, k: int)
    requires Below(owner, items)
    ensures ItemLines(owner, items, depth + k) == Shift(ItemLines(owner, items, depth), k)
    decreases Rank(owner), |items|
  {
    if items != [] {
      BelowTail(owner, items);
      ItemLinesShift(owner, items[1..], depth, k);
      var tail := ItemLines(owner, items[1..], depth);
      match items[0]
      case Emit(s) =>
        ShiftAppend([(depth, s)], tail, k);
      case Nested(c) =>
        assert Rank(items[0].node) < Rank(owner);
        NodeLinesShift(c, depth + owner.offset, k);
        assert depth + k + owner.offset == depth + owner.offset + k;
        ShiftAppend(NodeLines(c, depth + owner.offset), tail, k);
    }
  }

  /**
   * A C++ function renders its signature and `{` at its own depth, its children one
   * `child_depth_offset` deeper, and `}` back at its own depth.
   */
  lemma CppFunctionLines(t: Tree, depth: int)
    requires t.kind.CppFunction?
    ensures NodeLines(t, depth)
         == [(depth, t.kind.returnType + " " + t.kind.name + "("
                     + Text.Join(t.kind.args + Assignments(t.kind.kwargs), ", ") + ")"),
             (depth, "{")]
            + ChildrenLines(t.children, depth + t.offset)
            + [(depth, "}")]
  {
    var k := t.kind;
    var signature := k.returnType + " " + k.name + "(" + Text.Join(k.args + Assignments(k.kwargs), ", ") + ")";
    CppFunctionTotal(k.returnType, k.name, k.args, k.kwargs, t.children, t.offset);
    var open, close := Emits([signature, "{"]), Emits(["}"]);
    assert open == [Emit(signature), Emit("{")];
    assert close == [Emit("}")];
    ThreeParts(t, open, Nodes(t.children), close, depth);
    TextItems(t, [signature, "{"], depth);
    TextItems(t, ["}"], depth);
    ChildItems(t, t.children, depth);
    assert AtDepth([signature, "{"], depth) == [(depth, signature), (depth, "{")];
    assert AtDepth(["}"], depth) == [(depth, "}")];
  }

  /** A node whose items come in three parts renders the three parts in turn. */
  lemma ThreeParts(t: Tree, a: seq<Item>, b: seq<Item>, c: seq<Item>, depth: int)
    requires Total(t) == a + b + c
    ensures Below(t, a) && Below(t, b) && Below(t, c)
    ensures NodeLines(t, depth) == ItemLines(t, a, depth) + ItemLines(t, b, depth) + ItemLines(t, c, depth)
  {
    TotalBelow(t);
    forall j | 0 <= j < |a| && a[j].Nested? ensures Rank(a[j].node) < Rank(t) {
      assert a[j] == Total(t)[j];
    }
    forall j | 0 <= j < |b| && b[j].Nested? ensures Rank(b[j].node) < Rank(t) {
      assert b[j] == Total(t)[|a| + j];
    }
    forall j | 0 <= j < |c| && c[j].Nested? ensures Rank(c[j].node) < Rank(t) {
      assert c[j] == Total(t)[|a| + |b| + j];
    }
    ItemLinesAppend(t, a, b, depth);
    ItemLinesAppend(t, a + b, c, depth);
  }

  /** Text lines as items. */
  function Emits(texts: seq<string>): (r: seq<Item>)
    ensures |r| == |texts|
    ensures forall i :: 0 <= i < |texts| ==> r[i] == Emit(texts[i])
  {
    seq(|texts|, i requires 0 <= i < |texts| => Emit(texts[i]))
  }

  /** Text lines paired with one depth. */
  function AtDepth(texts: seq<string>, depth: int): (r: seq<(int, string)>)
    ensures |r| == |texts|
    ensures forall i :: 0 <= i < |texts| ==> r[i] == (depth, texts[i])
  {
    seq(|texts|, i requires 0 <= i < |texts| => (depth, texts[i]))
  }

  /** Text items, one pair each, all at the owner's depth. */
  lemma {:induction false} TextItems(owner: Tree, texts: seq<string>, depth: int)
    ensures Below(owner, Emits(texts))
    ensures ItemLines(owner, Emits(texts), depth) == AtDepth(texts, depth)
    decreases |texts|
  {
    if texts != [] {
      assert Emits(texts)[1..] == Emits(texts[1..]);
      TextItems(owner, texts[1..], depth);
      assert AtDepth(texts, depth) == [(depth, texts[0])] + AtDepth(texts[1..], depth);
    }
  }

  /**
   * A Python function with no children renders its decorator lines and its `def` line at
   * its own depth and a `pass` line one `child_depth_offset` deeper.
   */
  lemma ChildlessPyFunctionLines(t: Tree, depth: int)
    requires t.kind.PyFunction? && t.children == []
    ensures var k := t.kind;
      NodeLines(t, depth)
      == seq(|k.decorators|, i requires 0 <= i < |k.decorators| => (depth, "@" + k.decorators[i]))
         + [(depth, "def " + k.name + "(" + Text.Join(k.args + Assignments(k.kwargs), ", ") + "):")]
         + [(depth + t.offset, "pass")]
  {
    var k := t.kind;
    var defText := "def " + k.name + "(" + Text.Join(k.args + Assignments(k.kwargs), ", ") + "):";
    var decorated := DecoratorLines(k.decorators);
    var defLine := Emits([defText]);
    var pass := [Nested(PassNode())];
    ChildlessPyFunctionTotal(t, defText);
    ThreeParts(t, decorated, defLine, pass, depth);
    DecoratorItems(t, k.decorators, depth);
    TextItems(t, [defText], depth);
    PassItem(t, depth);
  }

  lemma ChildlessPyFunctionTotal(t: Tree, defText: string)
    requires t.kind.PyFunction? && t.children == []
    requires defText == "def " + t.kind.name + "(" + Text.Join(t.kind.args + Assignments(t.kind.kwargs), ", ") + "):"
    ensures Total(t) == DecoratorLines(t.kind.decorators) + Emits([defText]) + [Nested(PassNode())]
  {
    var k := t.kind;
    var expected := DecoratorLines(k.decorators) + Emits([defText]) + [Nested(PassNode())];
    assert t == Tree(PyFunction(k.name, k.args, k.kwargs, k.decorators), [], t.offset);
    PyFunctionTotal(k.name, k.args, k.kwargs, k.decorators, [], t.offset);
    var r := Total(t);
    assert |r| == |expected|;
    forall i | 0 <= i < |r| ensures r[i] == expected[i] {
      if i < |k.decorators| {
        assert r[i] == Emit("@" + k.decorators[i]);
      }
    }
  }

  /** A lone `Pass()` item renders one `pass` line one `child_depth_offset` deeper. */
  lemma PassItem(owner: Tree, depth: int)
    requires Below(owner, [Nested(PassNode())])
    ensures ItemLines(owner, [Nested(PassNode())], depth) == [(depth + owner.offset, "pass")]
  {
    var inner := depth + owner.offset;
    assert ItemLines(owner, [Nested(PassNode())], depth) == NodeLines(PassNode(), inner) + ItemLines(owner, [], depth);
    assert Total(PassNode()) == [Emit("pass")];
    TotalBelow(PassNode());
    assert NodeLines(PassNode(), inner) == [(inner, "pass")] + ItemLines(PassNode(), [], inner);
  }

  lemma {:induction false} DecoratorItems(owner: Tree, decorators: seq<string>, depth: int)
    ensures Below(owner, DecoratorLines(decorators))
    ensures ItemLines(owner, DecoratorLines(decorators), depth)
         == seq(|decorators|, i requires 0 <= i < |decorators| => (depth, "@" + decorators[i]))
    decreases |decorators|
  {
    if decorators != [] {
      assert DecoratorLines(decorators)[1..] == DecoratorLines(decorators[1..]);
      DecoratorItems(owner, decorators[1..], depth);
    }
  }

  // ---------------------------------------------------------------------------
  // The stack loop of `node_to_lines`

  /**
   * A stack entry: a node, the depth of its items, and its `total()` iterator,
   * modelled as the items it has still to produce.
   */
  datatype Entry = Entry(node: Tree, depth: int, rest: seq<Item>)

  /** Every entry's remaining nested nodes rank below the entry's node. */
  predicate WellFormed(stack: seq<Entry>)
    decreases |stack|
  {
    stack == [] || (Below(stack[|stack| - 1].node, stack[|stack| - 1].rest) && WellFormed(stack[..|stack| - 1]))
  }

  /** The pairs an entry has still to yield. */
  function Remaining(e: Entry): seq<(int, string)>
    requires Below(e.node, e.rest)
  {
    ItemLines(e.node, e.rest, e.depth)
  }

  /** The pairs the whole stack has still to yield, from the top entry down. */
  function PendingLines(stack: seq<Entry>): seq<(int, string)>
    requires WellFormed(stack)
    decreases |stack|
  {
    if stack == [] then []
    else Remaining(stack[|stack| - 1]) + PendingLines(stack[..|stack| - 1])
  }

  /** How many loop rounds the items still take: one per text, two plus the node's own per node. */
  ghost function ItemWork(owner: Tree, items: seq<Item>): nat
    requires Below(owner, items)
    decreases Rank(owner), |items|
  {
    if items == [] then 0
    else
      BelowTail(owner, items);
      (match items[0]
       case Emit(_) => 1
       case Nested(c) => 2 + NodeWork(c))
      + ItemWork(owner, items[1..])
  }

  ghost function NodeWork(t: Tree): nat
    decreases Rank(t), |Total(t)| + 1
  {
    TotalBelow(t);
    ItemWork(t, Total(t))
  }

  ghost function StackWork(stack: seq<Entry>): nat
    requires WellFormed(stack)
    decreases |stack|
  {
    if stack == [] then 0
    else
      var top := stack[|stack| - 1];
      1 + ItemWork(top.node, top.rest) + StackWork(stack[..|stack| - 1])
  }

  lemma BelowTail(owner: Tree, items: seq<Item>)
    requires Below(owner, items) && items != []
    ensures Below(owner, items[1..])
  {
    forall j | 0 <= j < |items[1..]| && items[1..][j].Nested?
      ensures Rank(items[1..][j].node) < Rank(owner)
    {
      assert items[1..][j] == items[j + 1];
    }
  }

  lemma PushTop(stack: seq<Entry>, e: Entry)
    requires WellFormed(stack) && Below(e.node, e.rest)
    ensures WellFormed(stack + [e])
    ensures PendingLines(stack + [e]) == Remaining(e) + PendingLines(stack)
    ensures StackWork(stack + [e]) == 1 + ItemWork(e.node, e.rest) + StackWork(stack)
  {
    PushLines(stack, e);
    PushWork(stack, e);
  }

  lemma PushWellFormed(stack: seq<Entry>, e: Entry)
    requires WellFormed(stack) && Below(e.node, e.rest)
    ensures WellFormed(stack + [e])
    ensures (stack + [e])[..|stack|] == stack
  {
    assert (stack + [e])[..|stack|] == stack;
  }

  lemma PushLines(stack: seq<Entry>, e: Entry)
    requires WellFormed(stack) && Below(e.node, e.rest)
    ensures WellFormed(stack + [e])
    ensures PendingLines(stack + [e]) == Remaining(e) + PendingLines(stack)
  {
    PushWellFormed(stack, e);
  }

  lemma PushWork(stack: seq<Entry>, e: Entry)
    requires WellFormed(stack) && Below(e.node, e.rest)
    ensures WellFormed(stack + [e])
    ensures StackWork(stack + [e]) == 1 + ItemWork(e.node, e.rest) + StackWork(stack)
  {
    PushWellFormed(stack, e);
  }

  /** The top entry of a well-formed stack has its nested nodes below it. */
  lemma TopBelow(stack: seq<Entry>, top: Entry)
    requires WellFormed(stack + [top])
    ensures WellFormed(stack) && Below(top.node, top.rest)
  {
    assert (stack + [top])[..|stack|] == stack;
  }

  /** Taking a text item off the front of the items. */
  lemma TextHead(owner: Tree, items: seq<Item>, s: string, depth: int)
    requires Below(owner, items) && items != [] && items[0] == Emit(s)
    ensures Below(owner, items[1..])
    ensures ItemLines(owner, items, depth) == [(depth, s)] + ItemLines(owner, items[1..], depth)
    ensures ItemWork(owner, items) == 1 + ItemWork(owner, items[1..])
  {
    BelowTail(owner, items);
  }

  /** Taking a nested node off the front of the items. */
  lemma NestedHead(owner: Tree, items: seq<Item>, c: Tree, depth: int)
    requires Below(owner, items) && items != [] && items[0] == Nested(c)
    ensures Below(owner, items[1..]) && Below(c, Total(c))
    ensures ItemLines(owner, items, depth) == NodeLines(c, depth + owner.offset) + ItemLines(owner, items[1..], depth)
    ensures ItemLines(c, Total(c), depth + owner.offset) == NodeLines(c, depth + owner.offset)
    ensures ItemWork(owner, items) == 2 + ItemWork(c, Total(c)) + ItemWork(owner, items[1..])
  {
    BelowTail(owner, items);
    TotalBelow(c);
  }

  /** The round that takes a text item from the top entry. */
  lemma TextStep(stack: seq<Entry>, top: Entry, s: string)
    requires WellFormed(stack + [top]) && top.rest != [] && top.rest[0] == Emit(s)
    ensures WellFormed(stack + [top.(rest := top.rest[1..])])
    ensures PendingLines(stack + [top]) == [(top.depth, s)] + PendingLines(stack + [top.(rest := top.rest[1..])])
    ensures StackWork(stack + [top.(rest := top.rest[1..])]) < StackWork(stack + [top])
  {
    TopBelow(stack, top);
    TextHead(top.node, top.rest, s, top.depth);
    PushTop(stack, top);
    PushTop(stack, top.(rest := top.rest[1..]));
  }

  /** The round that takes a nested node from the top entry and pushes an entry for it. */
  lemma NestedStep(stack: seq<Entry>, top: Entry, c: Tree)
    requires WellFormed(stack + [top]) && top.rest != [] && top.rest[0] == Nested(c)
    ensures var after := stack + [top.(rest := top.rest[1..])] + [Entry(c, top.depth + top.node.offset, Total(c))];
      && WellFormed(after)
      && PendingLines(stack + [top]) == PendingLines(after)
      && StackWork(after) < StackWork(stack + [top])
  {
    var next := top.(rest := top.rest[1..]);
    var child := Entry(c, top.depth + top.node.offset, Total(c));
    TopBelow(stack, top);
    NestedHead(top.node, top.rest, c, top.depth);
    assert Remaining(top) == Remaining(child) + Remaining(next);
    assert ItemWork(top.node, top.rest) == 2 + ItemWork(child.node, child.rest) + ItemWork(next.node, next.rest);
    NestedStepLines(stack, top, next, child);
    NestedStepWork(stack, top, next, child);
  }

  lemma NestedStepLines(stack: seq<Entry>, top: Entry, next: Entry, child: Entry)
    requires WellFormed(stack) && Below(top.node, top.rest)
    requires Below(next.node, next.rest) && Below(child.node, child.rest)
    requires Remaining(top) == Remaining(child) + Remaining(next)
    ensures WellFormed(stack + [next] + [child])
    ensures PendingLines(stack + [top]) == PendingLines(stack + [next] + [child])
  {
    var middle := stack + [next];
    PushLines(stack, top);
    PushLines(stack, next);
    PushLines(middle, child);
    var rest := PendingLines(stack);
    calc {
      PendingLines(middle + [child]);
      Remaining(child) + PendingLines(middle);
      Remaining(child) + (Remaining(next) + rest);
      (Remaining(child) + Remaining(next)) + rest;
      PendingLines(stack + [top]);
    }
  }

  lemma NestedStepWork(stack: seq<Entry>, top: Entry, next: Entry, child: Entry)
    requires WellFormed(stack) && Below(top.node, top.rest)
    requires Below(next.node, next.rest) && Below(child.node, child.rest)
    requires ItemWork(top.node, top.rest) == 2 + ItemWork(child.node, child.rest) + ItemWork(next.node, next.rest)
    ensures WellFormed(stack + [next] + [child])
    ensures StackWork(stack + [next] + [child]) < StackWork(stack + [top])
  {
    PushWork(stack, top);
    PushWork(stack, next);
    PushWork(stack + [next], child);
  }

  /**
   * `node_to_lines`: the root's items at depth 0, and every nested node's items
   * `child_depth_offset` deeper than the node yielding it, in depth-first order.
   */
  method NodeToLines(root: Tree) returns (lines: seq<(int, string)>)
    ensures lines == NodeLines(root, 0)
  {
    TotalBelow(root);
    var stack := [Entry(root, 0, Total(root))];
    PushTop([], Entry(root, 0, Total(root)));
    lines := [];
    while stack != []
      invariant WellFormed(stack)
      invariant lines + PendingLines(stack) == NodeLines(root, 0)
      decreases StackWork(stack)
    {
      stack, lines := Round(stack, lines);
    }
  }

  /**
   * One round of the loop: pop an exhausted entry, yield the top entry's next text
   * item, or push an entry for its next nested node.
   */
  method Round(stack: seq<Entry>, lines: seq<(int, string)>)
    returns (stack': seq<Entry>, lines': seq<(int, string)>)
    requires WellFormed(stack) && stack != []
    ensures WellFormed(stack')
    ensures lines' + PendingLines(stack') == lines + PendingLines(stack)
    ensures StackWork(stack') < StackWork(stack)
  {
    var top := stack[|stack| - 1];
    var below := stack[..|stack| - 1];
    assert stack == below + [top];
    if top.rest == [] {
      PushTop(below, top);
      stack', lines' := below, lines;
    } else {
      var item := top.rest[0];
      var next := top.(rest := top.rest[1..]);
      if item.Emit? {
        TextStep(below, top, item.text);
        stack', lines' := below + [next], lines + [(top.depth, item.text)];
      } else {
        NestedStep(below, top, item.node);
        stack' := below + [next] + [Entry(item.node, top.depth + top.node.offset, Total(item.node))];
        lines' := lines;
      }
    }
  }

  // ---------------------------------------------------------------------------
  // `dump` and `dumps`

  /** The indent used when none is given. */
  const DefaultIndent: string := "    "

  /** What `dump` writes for the pairs: indentation, the line and '\n', per pair. */
  function DumpChunks(pairs: seq<(int, string)>, indent: string, baseDepth: int): (r: seq<string>)
    ensures |r| == 3 * |pairs|
  {
    if pairs == [] then []
    else [Engine.Repeat(indent, pairs[0].0 + baseDepth), pairs[0].1, "\n"]
         + DumpChunks(pairs[1..], indent, baseDepth)
  }

  lemma {:induction false} DumpChunksSnoc(pairs: seq<(int, string)>, p: (int, string), indent: string, baseDepth: int)
    ensures DumpChunks(pairs + [p], indent, baseDepth)
         == DumpChunks(pairs, indent, baseDepth) + [Engine.Repeat(indent, p.0 + baseDepth), p.1, "\n"]
  {
    if pairs == [] {
      assert pairs + [p] == [p];
    } else {
      assert (pairs + [p])[1..] == pairs[1..] + [p];
      DumpChunksSnoc(pairs[1..], p, indent, baseDepth);
    }
  }

  function IndentOrDefault(indent: Option<string>): string {
    if indent.Some? then indent.value else DefaultIndent
  }

  /** `dump`: writes three chunks per pair, in order, to the stream. */
  method Dump(root: Tree, stream: Writing.Stream, indent: Option<string>, baseDepth: int)
    modifies stream
    ensures stream.written
         == old(stream.written) + DumpChunks(NodeLines(root, 0), IndentOrDefault(indent), baseDepth)
  {
    var pairs := NodeToLines(root);
    WritePairs(pairs, stream, IndentOrDefault(indent), baseDepth);
  }

  /** The loop of `dump`: indentation, line and '\n' for each pair. */
  method WritePairs(pairs: seq<(int, string)>, stream: Writing.Stream, indent: string, baseDepth: int)
    modifies stream
    ensures stream.written == old(stream.written) + DumpChunks(pairs, indent, baseDepth)
  {
    var i := 0;
    while i < |pairs|
      invariant 0 <= i <= |pairs|
      invariant stream.written == old(stream.written) + DumpChunks(pairs[..i], indent, baseDepth)
    {
      var p := pairs[i];
      var margin := Engine.Repeat(indent, p.0 + baseDepth);
      ghost var before := stream.written;
      stream.Write(margin);
      stream.Write(p.1);
      stream.Write("\n");
      assert stream.written == before + [margin, p.1, "\n"];
      DumpChunksSnoc(pairs[..i], p, indent, baseDepth);
      assert pairs[..i] + [p] == pairs[..i + 1];
      i := i + 1;
    }
    assert pairs[..i] == pairs;
  }

  /** `dumps`: the text `dump` writes into a fresh buffer. */
  method Dumps(root: Tree, indent: Option<string>, baseDepth: int) returns (r: string)
    ensures r == Text.Concat(DumpChunks(NodeLines(root, 0), IndentOrDefault(indent), baseDepth))
  {
    var buffer := new Writing.Stream();
    Dump(root, buffer, indent, baseDepth);
    assert buffer.written == DumpChunks(NodeLines(root, 0), IndentOrDefault(indent), baseDepth);
    r := buffer.GetValue();
  }

  /** Each pair as the text line `dump` writes for it, without the '\n'. */
  function IndentedLines(pairs: seq<(int, string)>, indent: string, baseDepth: int): (r: seq<string>)
    ensures |r| == |pairs|
    ensures forall j :: 0 <= j < |pairs| ==> r[j] == Engine.Repeat(indent, pairs[j].0 + baseDepth) + pairs[j].1
  {
    seq(|pairs|, j requires 0 <= j < |pairs| => Engine.Repeat(indent, pairs[j].0 + baseDepth) + pairs[j].1)
  }

  /** The dumped text is every pair's indented line, each followed by exactly one '\n'. */
  lemma {:induction false} DumpText(pairs: seq<(int, string)>, indent: string, baseDepth: int)
    ensures Text.Concat(DumpChunks(pairs, indent, baseDepth))
         == Lines.Terminated(IndentedLines(pairs, indent, baseDepth), "\n")
  {
    if pairs != [] {
      var head := [Engine.Repeat(indent, pairs[0].0 + baseDepth), pairs[0].1, "\n"];
      Text.ConcatAppend(head, DumpChunks(pairs[1..], indent, baseDepth));
      assert Text.Concat(head) == Engine.Repeat(indent, pairs[0].0 + baseDepth) + pairs[0].1 + "\n" by {
        assert head == [head[0]] + [head[1], head[2]];
        Text.ConcatAppend([head[0]], [head[1], head[2]]);
        assert [head[1], head[2]] == [head[1]] + [head[2]];
        Text.ConcatAppend([head[1]], [head[2]]);
      }
      assert IndentedLines(pairs, indent, baseDepth)[1..] == IndentedLines(pairs[1..], indent, baseDepth);
      DumpText(pairs[1..], indent, baseDepth);
    }
  }

  /**
   * When neither the indent nor any line holds a line break, splitting the dumped text
   * into lines gives back one indented line per pair, in order.
   */
  lemma DumpLines(pairs: seq<(int, string)>, indent: string, baseDepth: int)
    requires Lines.NoBreak(indent)
    requires forall j :: 0 <= j < |pairs| ==> Lines.NoBreak(pairs[j].1)
    ensures Lines.SplitLines(Text.Concat(DumpChunks(pairs, indent, baseDepth)))
         == IndentedLines(pairs, indent, baseDepth)
  {
    var lines := IndentedLines(pairs, indent, baseDepth);
    DumpText(pairs, indent, baseDepth);
    IndentedNoBreak(pairs, indent, baseDepth);
    Lines.SplitLinesInverse(lines);
  }

  lemma IndentedNoBreak(pairs: seq<(int, string)>, indent: string, baseDepth: int)
    requires Lines.NoBreak(indent)
    requires forall j :: 0 <= j < |pairs| ==> Lines.NoBreak(pairs[j].1)
    ensures Lines.AllNoBreak(IndentedLines(pairs, indent, baseDepth))
  {
    var lines := IndentedLines(pairs, indent, baseDepth);
    forall j | 0 <= j < |lines|
      ensures Lines.NoBreak(lines[j])
    {
      RepeatNoBreak(indent, pairs[j].0 + baseDepth);
    }
  }

  lemma {:induction false} RepeatNoBreak(s: string, n: int)
    requires Lines.NoBreak(s)
    ensures Lines.NoBreak(Engine.Repeat(s, n))
    decreases n
  {
    if n > 0 {
      RepeatNoBreak(s, n - 1);
    }
  }

  /** `base_depth` only deepens the indentation: dumping at base `b` is dumping the tree rendered `b` deeper. */
  lemma BaseDepth(root: Tree, indent: string, baseDepth: int)
    ensures DumpChunks(NodeLines(root, 0), indent, baseDepth) == DumpChunks(NodeLines(root, baseDepth), indent, 0)
  {
    NodeLinesShift(root, 0, baseDepth);
    ShiftedChunks(NodeLines(root, 0), indent, baseDepth);
  }

  lemma {:induction false} ShiftedChunks(pairs: seq<(int, string)>, indent: string, k: int)
    ensures DumpChunks(pairs, indent, k) == DumpChunks(Shift(pairs, k), indent, 0)
  {
    if pairs != [] {
      assert Shift(pairs, k)[1..] == Shift(pairs[1..], k);
      ShiftedChunks(pairs[1..], indent, k);
    }
  }
}
