/**
 * The `Node` class of codenode/node.py: like `CodeNode`, but `add_child` also turns a
 * list or tuple into a fresh `Node` holding its coerced elements, returns what it stored,
 * and its `Line` yields the content from its header, ahead of any children.
 */
module NodeLayer {
  import opened CodeTree

  /** An argument of `add_child`: a string, a list or tuple of arguments, or a node. */
  datatype NodeArg = Text(s: string) | Group(items: seq<NodeArg>) | Existing(t: Tree)

  /** `add_child`'s coercion, applied recursively to the elements of a list or tuple. */
  function CoerceArg(arg: NodeArg): (t: Tree)
    decreases arg
    ensures arg.Text? ==> t == Tree(HeaderLine(arg.s), [], 1) && Total(t) == [Emit(arg.s)]
    ensures arg.Group? ==> t.kind == Plain && t.offset == 1 && |t.children| == |arg.items|
                           && Total(t) == Nodes(t.children)
    ensures arg.Existing? ==> t == arg.t
  {
    match arg
    case Text(s) => Tree(HeaderLine(s), [], 1)
    case Group(items) => Tree(Plain, CoerceArgs(items), 1)
    case Existing(t) => t
  }

  function CoerceArgs(args: seq<NodeArg>): (r: seq<Tree>)
    decreases args
    ensures |r| == |args|
  {
    if args == [] then [] else [CoerceArg(args[0])] + CoerceArgs(args[1..])
  }

  /** The i-th coerced argument is the coercion of the i-th argument. */
  lemma {:induction false} CoerceArgsAt(args: seq<NodeArg>, i: nat)
    requires i < |args|
    ensures CoerceArgs(args)[i] == CoerceArg(args[i])
    decreases i
  {
    if i > 0 {
      CoerceArgsAt(args[1..], i - 1);
    }
  }

  lemma {:induction false} CoerceArgsAppend(a: seq<NodeArg>, b: seq<NodeArg>)
    ensures CoerceArgs(a + b) == CoerceArgs(a) + CoerceArgs(b)
  {
    if a == [] {
      assert a + b == b;
    } else {
      assert (a + b)[1..] == a[1..] + b;
      CoerceArgsAppend(a[1..], b);
    }
  }

  lemma CoerceArgsPrefix(args: seq<NodeArg>, i: nat)
    requires i < |args|
    ensures CoerceArgs(args[..i + 1]) == CoerceArgs(args[..i]) + [CoerceArg(args[i])]
  {
    CoerceArgsAppend(args[..i], [args[i]]);
    assert args[..i] + [args[i]] == args[..i + 1];
    assert CoerceArgs([args[i]]) == [CoerceArg(args[i])] + CoerceArgs([]);
  }

  /**
   * A list becomes a plain node whose children are its elements, coerced one by one
   * and in order, at every level of nesting.
   */
  lemma GroupChildren(items: seq<NodeArg>)
    ensures forall i :: 0 <= i < |items| ==> CoerceArg(Group(items)).children[i] == CoerceArg(items[i])
  {
    forall i | 0 <= i < |items|
      ensures CoerceArg(Group(items)).children[i] == CoerceArg(items[i])
    {
      CoerceArgsAt(items, i);
    }
  }

  class Node {
    var kind: Kind
    var children: seq<Tree>
    const offset: int

    /** `Node()` (a plain node) or `Line(content)`, with no children. */
    constructor(kind: Kind)
      ensures this.kind == kind && children == [] && offset == 1
    {
      this.kind := kind;
      children := [];
      offset := 1;
    }

    function Value(): Tree
      reads this
    {
      Tree(kind, children, offset)
    }

    /** `add_child`: appends exactly one coerced child and returns the stored child. */
    method AddChild(arg: NodeArg) returns (child: Tree)
      modifies this
      ensures child == CoerceArg(arg)
      ensures kind == old(kind)
      ensures children == old(children) + [child]
    {
      child := CoerceArg(arg);
      children := children + [child];
    }

    /** `add_children`: adds every argument, in order. */
    method AddChildren(args: seq<NodeArg>)
      modifies this
      ensures kind == old(kind)
      ensures children == old(children) + CoerceArgs(args)
    {
      var i := 0;
      while i < |args|
        invariant 0 <= i <= |args|
        invariant kind == old(kind)
        invariant children == old(children) + CoerceArgs(args[..i])
      {
        CoerceArgsPrefix(args, i);
        var _ := AddChild(args[i]);
        i := i + 1;
      }
      assert args[..i] == args;
    }

    /** `__call__`: adds every argument, in order, and returns the node itself. */
    method Call(args: seq<NodeArg>) returns (self: Node)
      modifies this
      ensures self == this
      ensures kind == old(kind)
      ensures children == old(children) + CoerceArgs(args)
    {
      AddChildren(args);
      self := this;
    }

    /** `walk(yield_self)`: the same traversal as `CodeNode.walk`. */
    method Walk(yieldSelf: bool) returns (visited: seq<Tree>)
      ensures visited == (if yieldSelf then [Value()] else []) + Reverse(PostOrderAll(children))
      ensures !yieldSelf ==> Value() !in visited
      ensures |visited| == |PostOrder(Value())| - (if yieldSelf then 0 else 1)
    {
      visited := CodeTree.Walk(Value(), yieldSelf);
    }
  }
}
