/**
 * The node trees of the `CodeNode` layer (codenode/base/nodes/codenode.py), of the
 * `Node` layer (codenode/node.py) and of the Python and C++ node types built on them,
 * as values. A node's `kind` decides what its `header`, `body` and `footer` yield;
 * `total` is the three in order. `walk` is a stack loop proved to be the reversed
 * post-order of the tree.
 */
module CodeTree {
  import opened Wrappers
  import Text

  /** What a node is; the subclass that overrides `header`, `body` or `footer`. */
  datatype Kind =
    | Plain                                  // `CodeNode` / `Node` themselves
    | BodyLine(content: string)              // codenode/base/nodes/line.py: the body yields the content
    | HeaderLine(content: string)            // codenode/node.py `Line`: the header yields the content
    | Pass                                   // the `pass` statement
    | PyFunction(name: string, args: seq<string>, kwargs: seq<(string, string)>, decorators: seq<string>)
    | If(condition: string)
    | Elif(condition: string)
    | Else
    | Conditional(ifNode: Option<Tree>, elifNodes: seq<Tree>, elseNode: Option<Tree>)
    | CppFunction(returnType: string, name: string, args: seq<string>, kwargs: seq<(string, string)>)

  /** A node: its kind, its `children` list and its `child_depth_offset`. */
  datatype Tree = Tree(kind: Kind, children: seq<Tree>, offset: int)

  /** One item of `total()`: a text line, or a nested node the writers descend into. */
  datatype Item = Emit(text: string) | Nested(node: Tree)

  // The constructors of the node classes; every class keeps the default offset 1,
  // except `Conditional`, whose offset comes from its `Block` base.
  function PlainNode(): Tree { Tree(Plain, [], 1) }
  function LineNode(content: string): Tree { Tree(BodyLine(content), [], 1) }
  function PassNode(): Tree { Tree(Pass, [], 1) }
  function IfNode(condition: string): Tree { Tree(If(condition), [], 1) }
  function ElifNode(condition: string): Tree { Tree(Elif(condition), [], 1) }
  function ElseNode(): Tree { Tree(Else, [], 1) }

  /** The children as items, in order. */
  function Nodes(ts: seq<Tree>): (r: seq<Item>)
    ensures |r| == |ts|
    ensures forall i :: 0 <= i < |ts| ==> r[i] == Nested(ts[i])
  {
    seq(|ts|, i requires 0 <= i < |ts| => Nested(ts[i]))
  }

  lemma NodesSnoc(ts: seq<Tree>, t: Tree)
    ensures Nodes(ts + [t]) == Nodes(ts) + [Nested(t)]
  {
    assert |Nodes(ts + [t])| == |Nodes(ts) + [Nested(t)]|;
  }

  /** The `k=v` strings of the keyword arguments, in insertion order. */
  function Assignments(kwargs: seq<(string, string)>): (r: seq<string>)
    ensures |r| == |kwargs|
  {
    seq(|kwargs|, i requires 0 <= i < |kwargs| => kwargs[i].0 + "=" + kwargs[i].1)
  }

  /** The argument string of a function header, assembled as the source does. */
  function ArgString(args: seq<string>, kwargs: seq<(string, string)>): string {
    var positional := Text.Join(args, ", ");
    if kwargs == [] then positional
    else (if args != [] then positional + ", " else positional) + Text.Join(Assignments(kwargs), ", ")
  }

  /** The argument string is one join of every positional and keyword argument. */
  lemma ArgStringIsOneJoin(args: seq<string>, kwargs: seq<(string, string)>)
    ensures ArgString(args, kwargs) == Text.Join(args + Assignments(kwargs), ", ")
  {
    var named := Assignments(kwargs);
    if kwargs == [] {
      assert named == [];
      assert args + named == args;
    } else if args == [] {
      assert args + named == named;
    } else {
      Text.JoinAppend(args, named, ", ");
    }
  }

  /** The `@decorator` lines, in insertion order. */
  function DecoratorLines(decorators: seq<string>): (r: seq<Item>)
    ensures |r| == |decorators|
  {
    seq(|decorators|, i requires 0 <= i < |decorators| => Emit("@" + decorators[i]))
  }

  /** The body of `Function`, `If`, `Elif` and `Else`: the children, or a lone `Pass()`. */
  function ChildrenOrPass(children: seq<Tree>): seq<Item> {
    if children == [] then [Nested(PassNode())] else Nodes(children)
  }

  function Header(t: Tree): seq<Item> {
    match t.kind
    case HeaderLine(content) => [Emit(content)]
    case Pass => [Emit("pass")]
    case PyFunction(name, args, kwargs, decorators) =>
      DecoratorLines(decorators) + [Emit("def " + name + "(" + ArgString(args, kwargs) + "):")]
    case If(condition) => [Emit("if " + condition + ":")]
    case Elif(condition) => [Emit("elif " + condition + ":")]
    case Else => [Emit("else:")]
    case Conditional(ifNode, _, _) => if ifNode.Some? then [Nested(ifNode.value)] else []
    case CppFunction(returnType, name, args, kwargs) =>
      [Emit(returnType + " " + name + "(" + ArgString(args, kwargs) + ")"), Emit("{")]
    case _ => []
  }

  function Body(t: Tree): seq<Item> {
    match t.kind
    case BodyLine(content) => [Emit(content)]
    case PyFunction(_, _, _, _) => ChildrenOrPass(t.children)
    case If(_) => ChildrenOrPass(t.children)
    case Elif(_) => ChildrenOrPass(t.children)
    case Else => ChildrenOrPass(t.children)
    case Conditional(_, elifNodes, _) => Nodes(elifNodes)
    case _ => Nodes(t.children)
  }

  function Footer(t: Tree): seq<Item> {
    match t.kind
    case Conditional(_, _, elseNode) => if elseNode.Some? then [Nested(elseNode.value)] else []
    case CppFunction(_, _, _, _) => [Emit("}")]
    case _ => []
  }

  /** `total()`: the header, then the body, then the footer. */
  function Total(t: Tree): seq<Item> {
    Header(t) + Body(t) + Footer(t)
  }

  /** A plain node has no header or footer, and its body is its children in order. */
  lemma PlainTotal(children: seq<Tree>, offset: int)
    ensures Total(Tree(Plain, children, offset)) == Nodes(children)
    ensures forall i :: 0 <= i < |children| ==> Total(Tree(Plain, children, offset))[i] == Nested(children[i])
  {
  }

  /** A `Line` of the `CodeNode` layer yields its content and nothing else, children or not. */
  lemma BodyLineTotal(content: string, children: seq<Tree>, offset: int)
    ensures Total(Tree(BodyLine(content), children, offset)) == [Emit(content)]
  {
  }

  /** A `Line` of the `Node` layer yields its content first, then its children. */
  lemma HeaderLineTotal(content: string, children: seq<Tree>, offset: int)
    ensures Total(Tree(HeaderLine(content), children, offset)) == [Emit(content)] + Nodes(children)
    ensures children == [] ==> Total(Tree(HeaderLine(content), children, offset)) == [Emit(content)]
  {
  }

  /**
   * A Python function yields one `@d` per decorator, in order, then its `def` line,
   * then its children, or a single `Pass()` when it has none.
   */
  lemma PyFunctionTotal(name: string, args: seq<string>, kwargs: seq<(string, string)>,
                        decorators: seq<string>, children: seq<Tree>, offset: int)
    ensures var r := Total(Tree(PyFunction(name, args, kwargs, decorators), children, offset));
      && |r| == |decorators| + 1 + (if children == [] then 1 else |children|)
      && (forall i :: 0 <= i < |decorators| ==> r[i] == Emit("@" + decorators[i]))
      && r[|decorators|] == Emit("def " + name + "(" + Text.Join(args + Assignments(kwargs), ", ") + "):")
      && (children == [] ==> r[|decorators| + 1] == Nested(PassNode()))
      && (forall i :: 0 <= i < |children| ==> r[|decorators| + 1 + i] == Nested(children[i]))
  {
    ArgStringIsOneJoin(args, kwargs);
    var t := Tree(PyFunction(name, args, kwargs, decorators), children, offset);
    var d := DecoratorLines(decorators);
    var defLine := Emit("def " + name + "(" + ArgString(args, kwargs) + "):");
    assert Header(t) == d + [defLine];
    assert Footer(t) == [];
    var r := Total(t);
    assert r == d + [defLine] + ChildrenOrPass(children);
    forall i | 0 <= i < |decorators|
      ensures r[i] == Emit("@" + decorators[i])
    {
      assert r[i] == d[i];
    }
    forall i | 0 <= i < |children|
      ensures r[|decorators| + 1 + i] == Nested(children[i])
    {
      assert r[|decorators| + 1 + i] == ChildrenOrPass(children)[i];
    }
  }

  /** The `if`, `elif` and `else` branches: their header line, then their children or a `Pass()`. */
  lemma BranchTotals(condition: string, children: seq<Tree>, offset: int)
    ensures Total(Tree(If(condition), children, offset)) == [Emit("if " + condition + ":")] + ChildrenOrPass(children)
    ensures Total(Tree(Elif(condition), children, offset)) == [Emit("elif " + condition + ":")] + ChildrenOrPass(children)
    ensures Total(Tree(Else, children, offset)) == [Emit("else:")] + ChildrenOrPass(children)
    ensures ChildrenOrPass(children) == if children == [] then [Nested(PassNode())] else Nodes(children)
  {
  }

  /**
   * A conditional yields its `if` node when set, then every `elif` node in order,
   * then its `else` node when set; its own children are not yielded.
   */
  lemma ConditionalTotal(ifNode: Option<Tree>, elifNodes: seq<Tree>, elseNode: Option<Tree>,
                         children: seq<Tree>, offset: int)
    ensures Total(Tree(Conditional(ifNode, elifNodes, elseNode), children, offset))
         == (if ifNode.Some? then [Nested(ifNode.value)] else [])
            + Nodes(elifNodes)
            + (if elseNode.Some? then [Nested(elseNode.value)] else [])
  {
  }

  /** A C++ function yields its signature and `{`, then its children, then `}`. */
  lemma CppFunctionTotal(returnType: string, name: string, args: seq<string>,
                         kwargs: seq<(string, string)>, children: seq<Tree>, offset: int)
    ensures var r := Total(Tree(CppFunction(returnType, name, args, kwargs), children, offset));
      && r == [Emit(returnType + " " + name + "(" + Text.Join(args + Assignments(kwargs), ", ") + ")"), Emit("{")]
              + Nodes(children) + [Emit("}")]
      && |r| == |children| + 3
  {
    ArgStringIsOneJoin(args, kwargs);
  }

  // ---------------------------------------------------------------------------
  // Termination measure for the writers: every node that `total()` yields is
  // smaller than the node yielding it, including the `Pass()` made on the fly.

  function Rank(t: Tree): nat
    decreases t
  {
    if t.kind.Pass? && t.children == [] then 1
    else 2 + RankSum(t.children) + KindRank(t.kind)
  }

  function RankSum(ts: seq<Tree>): nat
    decreases ts
  {
    if ts == [] then 0 else Rank(ts[0]) + RankSum(ts[1..])
  }

  function KindRank(k: Kind): nat
    decreases k
  {
    match k
    case Conditional(ifNode, elifNodes, elseNode) =>
      (if ifNode.Some? then Rank(ifNode.value) else 0)
      + RankSum(elifNodes)
      + (if elseNode.Some? then Rank(elseNode.value) else 0)
    case _ => 0
  }

  lemma {:induction false} RankSumBound(ts: seq<Tree>, i: nat)
    requires i < |ts|
    ensures Rank(ts[i]) <= RankSum(ts)
    decreases i
  {
    if i > 0 {
      RankSumBound(ts[1..], i - 1);
    }
  }

  /** Every node among `total()`'s items ranks below the node itself. */
  lemma NestedSmaller(t: Tree, i: nat)
    requires i < |Total(t)| && Total(t)[i].Nested?
    ensures Rank(Total(t)[i].node) < Rank(t)
  {
    var h, b := Header(t), Body(t);
    var c := Total(t)[i].node;
    if i < |h| {
      assert Total(t)[i] == h[i];
    } else if i < |h| + |b| {
      assert Total(t)[i] == b[i - |h|];
      if t.kind.Conditional? {
        RankSumBound(t.kind.elifNodes, i - |h|);
      } else if t.children != [] {
        RankSumBound(t.children, i - |h|);
      }
    } else {
      assert Total(t)[i] == Footer(t)[i - |h| - |b|];
    }
  }

  // ---------------------------------------------------------------------------
  // `walk`

  /**
   * What the loop of `walk` still yields from `stack` (top at the end): the top item,
   * then everything it pushes, then the rest of the stack.
   */
  function Pending(stack: seq<Tree>): seq<Tree>
    decreases stack
  {
    if stack == [] then []
    else
      var top := stack[|stack| - 1];
      [top] + Pending(top.children) + Pending(stack[..|stack| - 1])
  }

  lemma {:induction false} PendingAppend(a: seq<Tree>, b: seq<Tree>)
    ensures Pending(a + b) == Pending(b) + Pending(a)
    decreases b
  {
    if b == [] {
      assert a + b == a;
    } else {
      var top := b[|b| - 1];
      assert (a + b)[..|a + b| - 1] == a + b[..|b| - 1];
      PendingAppend(a, b[..|b| - 1]);
    }
  }

  /** Post-order, the standard enumeration of a tree's nodes: children left to right, then the node. */
  function PostOrder(t: Tree): seq<Tree>
    decreases t
  {
    PostOrderAll(t.children) + [t]
  }

  function PostOrderAll(ts: seq<Tree>): seq<Tree>
    decreases ts
  {
    if ts == [] then [] else PostOrder(ts[0]) + PostOrderAll(ts[1..])
  }

  function Reverse<T>(s: seq<T>): (r: seq<T>)
    ensures |r| == |s|
    ensures multiset(r) == multiset(s)
  {
    if s == [] then []
    else
      assert s == [s[0]] + s[1..];
      Reverse(s[1..]) + [s[0]]
  }

  lemma {:induction false} ReverseAppend<T>(a: seq<T>, b: seq<T>)
    ensures Reverse(a + b) == Reverse(b) + Reverse(a)
  {
    if a == [] {
      assert a + b == b;
    } else {
      assert (a + b)[1..] == a[1..] + b;
      ReverseAppend(a[1..], b);
    }
  }

  lemma {:induction false} PostOrderSnoc(ts: seq<Tree>, t: Tree)
    ensures PostOrderAll(ts + [t]) == PostOrderAll(ts) + PostOrder(t)
  {
    if ts == [] {
      assert [] + [t] == [t];
      assert [t][1..] == [];
    } else {
      assert (ts + [t])[1..] == ts[1..] + [t];
      PostOrderSnoc(ts[1..], t);
    }
  }

  /** The walk order is exactly the reversed post-order of the stacked subtrees. */
  lemma {:induction false} PendingIsReversedPostOrder(stack: seq<Tree>)
    ensures Pending(stack) == Reverse(PostOrderAll(stack))
    decreases stack
  {
    if stack != [] {
      var top := stack[|stack| - 1];
      var rest := stack[..|stack| - 1];
      assert stack == rest + [top];
      PostOrderSnoc(rest, top);
      ReverseAppend(PostOrderAll(rest), PostOrder(top));
      ReverseAppend(PostOrderAll(top.children), [top]);
      assert Reverse([top]) == [top];
      PendingIsReversedPostOrder(top.children);
      PendingIsReversedPostOrder(rest);
    }
  }

  /** Every node post-order reaches from `ts` is at most as large as the whole enumeration. */
  lemma {:induction false} SubtreeSmaller(ts: seq<Tree>, x: Tree)
    requires x in PostOrderAll(ts)
    ensures |PostOrder(x)| <= |PostOrderAll(ts)|
    decreases ts
  {
    var first := PostOrder(ts[0]);
    if x in first {
      if x != ts[0] {
        assert x in PostOrderAll(ts[0].children);
        SubtreeSmaller(ts[0].children, x);
      }
    } else {
      SubtreeSmaller(ts[1..], x);
    }
  }

  /**
   * The stack loop of `walk`: pop the top, yield it, push its children.
   */
  method WalkStack(start: seq<Tree>) returns (visited: seq<Tree>)
    ensures visited == Pending(start)
  {
    var stack := start;
    visited := [];
    while stack != []
      invariant visited + Pending(stack) == Pending(start)
      decreases |Pending(stack)|
    {
      var item := stack[|stack| - 1];
      PopPush(stack);
      stack := stack[..|stack| - 1] + item.children;
      visited := visited + [item];
    }
  }

  /** One round of the loop: popping the top and pushing its children leaves the rest to yield. */
  lemma PopPush(stack: seq<Tree>)
    requires stack != []
    ensures Pending(stack) == [stack[|stack| - 1]] + Pending(stack[..|stack| - 1] + stack[|stack| - 1].children)
  {
    var top := stack[|stack| - 1];
    PendingAppend(stack[..|stack| - 1], top.children);
  }

  /**
   * `walk(yield_self)`: the root first when asked for, then every descendant in
   * reversed post-order, so the last child's subtree comes before its siblings;
   * the root is yielded only when asked for.
   */
  method Walk(root: Tree, yieldSelf: bool) returns (visited: seq<Tree>)
    ensures visited == (if yieldSelf then [root] else []) + Reverse(PostOrderAll(root.children))
    ensures yieldSelf ==> visited == Reverse(PostOrder(root))
    ensures !yieldSelf ==> root !in visited
    ensures |visited| == |PostOrder(root)| - (if yieldSelf then 0 else 1)
  {
    if yieldSelf {
      visited := WalkStack([root]);
      assert [root][..0] == [];
      PendingIsReversedPostOrder(root.children);
      ReverseAppend(PostOrderAll(root.children), [root]);
      assert Reverse([root]) == [root];
    } else {
      visited := WalkStack(root.children);
      PendingIsReversedPostOrder(root.children);
      if root in visited {
        assert root in multiset(PostOrderAll(root.children));
        SubtreeSmaller(root.children, root);
        assert false;
      }
    }
  }
}
