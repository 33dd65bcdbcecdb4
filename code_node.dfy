/**
 * The mutable `CodeNode` of codenode/base/nodes/codenode.py together with the mutators
 * its Python subclasses add (`Function.add_decorator`, `Conditional.add_if/add_elif/add_else`).
 * The node's own fields live in the object; the children it holds are tree values.
 */
module CodeNodes {
  import opened Wrappers
  import opened CodeTree

  /** An argument of `add_child`: a string, or a node. */
  datatype ChildArg = Str(s: string) | Node(t: Tree)

  /** `add_child`'s coercion: a string becomes a `Line` with that content; a node is kept. */
  function Coerce(child: ChildArg): (t: Tree)
    ensures child.Str? ==> t.kind == BodyLine(child.s) && t.children == [] && Total(t) == [Emit(child.s)]
    ensures child.Node? ==> t == child.t
  {
    match child
    case Str(s) => LineNode(s)
    case Node(t) => t
  }

  function CoerceAll(children: seq<ChildArg>): (r: seq<Tree>)
    ensures |r| == |children|
    ensures forall i :: 0 <= i < |children| ==> r[i] == Coerce(children[i])
  {
    seq(|children|, i requires 0 <= i < |children| => Coerce(children[i]))
  }

  lemma CoerceAllSnoc(args: seq<ChildArg>, i: nat)
    requires i < |args|
    ensures CoerceAll(args[..i + 1]) == CoerceAll(args[..i]) + [Coerce(args[i])]
  {
    assert args[..i + 1] == args[..i] + [args[i]];
  }

  class CodeNode {
    var kind: Kind
    var children: seq<Tree>
    const offset: int

    /** A fresh node of the given class, with no children. */
    constructor(kind: Kind, offset: int)
      ensures this.kind == kind && children == [] && this.offset == offset
    {
      this.kind := kind;
      children := [];
      this.offset := offset;
    }

    /** The node as a tree value, for `total()`, `walk()` and the writers. */
    function Value(): Tree
      reads this
    {
      Tree(kind, children, offset)
    }

    /** `add_child`: appends exactly one (coerced) child and changes nothing else. */
    method AddChild(child: ChildArg)
      modifies this
      ensures kind == old(kind)
      ensures children == old(children) + [Coerce(child)]
    {
      children := children + [Coerce(child)];
    }

    /** `add_children`: adds every argument, in order. */
    method AddChildren(args: seq<ChildArg>)
      modifies this
      ensures kind == old(kind)
      ensures children == old(children) + CoerceAll(args)
    {
      var i := 0;
      while i < |args|
        invariant 0 <= i <= |args|
        invariant kind == old(kind)
        invariant children == old(children) + CoerceAll(args[..i])
      {
        CoerceAllSnoc(args, i);
        AddChild(args[i]);
        i := i + 1;
      }
      assert args[..i] == args;
    }

    /** `__call__`: adds every argument, in order, and returns the node itself. */
    method Call(args: seq<ChildArg>) returns (self: CodeNode)
      modifies this
      ensures self == this
      ensures kind == old(kind)
      ensures children == old(children) + CoerceAll(args)
    {
      AddChildren(args);
      self := this;
    }

    /** `walk(yield_self)`: self only when asked for, then every descendant in reversed post-order. */
    method Walk(yieldSelf: bool) returns (visited: seq<Tree>)
      ensures visited == (if yieldSelf then [Value()] else []) + Reverse(PostOrderAll(children))
      ensures !yieldSelf ==> Value() !in visited
      ensures |visited| == |PostOrder(Value())| - (if yieldSelf then 0 else 1)
    {
      visited := CodeTree.Walk(Value(), yieldSelf);
    }

    /** Python `Function.add_decorator`: appends exactly one decorator. */
    method AddDecorator(decorator: string)
      requires kind.PyFunction?
      modifies this
      ensures kind == old(kind).(decorators := old(kind).decorators + [decorator])
      ensures children == old(children)
    {
      kind := kind.(decorators := kind.decorators + [decorator]);
    }

    /** `Conditional.add_if`: replaces any previous `if` branch and returns the new one. */
    method AddIf(condition: string) returns (node: Tree)
      requires kind.Conditional?
      modifies this
      ensures node == IfNode(condition)
      ensures kind == old(kind).(ifNode := Some(node))
      ensures children == old(children)
    {
      node := IfNode(condition);
      kind := kind.(ifNode := Some(node));
    }

    /** `Conditional.add_elif`: appends a new `elif` branch after the others and returns it. */
    method AddElif(condition: string) returns (node: Tree)
      requires kind.Conditional?
      modifies this
      ensures node == ElifNode(condition)
      ensures kind == old(kind).(elifNodes := old(kind).elifNodes + [node])
      ensures children == old(children)
    {
      node := ElifNode(condition);
      kind := kind.(elifNodes := kind.elifNodes + [node]);
    }

    /** `Conditional.add_else`: replaces any previous `else` branch and returns the new one. */
    method AddElse() returns (node: Tree)
      requires kind.Conditional?
      modifies this
      ensures node == ElseNode()
      ensures kind == old(kind).(elseNode := Some(node))
      ensures children == old(children)
    {
      node := ElseNode();
      kind := kind.(elseNode := Some(node));
    }
  }

  /** A string child renders as a `Line`: one item, its content. */
  lemma StringChildIsLine(parent: Tree, s: string)
    requires parent.kind == Plain
    ensures Total(parent.(children := parent.children + [Coerce(Str(s))]))
         == Total(parent) + [Nested(LineNode(s))]
    ensures Total(LineNode(s)) == [Emit(s)]
  {
    var kids := parent.children + [LineNode(s)];
    assert parent.(children := parent.children + [Coerce(Str(s))]) == Tree(Plain, kids, parent.offset);
    assert parent == Tree(Plain, parent.children, parent.offset);
    PlainTotal(parent.children, parent.offset);
    PlainTotal(kids, parent.offset);
    NodesSnoc(parent.children, LineNode(s));
  }
}
