/**
 * codenode_utilities/node_transformer.py: `node_transformer(func)` builds a
 * function that rebuilds a node tree, applying `func` to every string and to
 * every value that cannot be iterated, and keeping the nesting of iterables.
 */
module Transforming {
  import opened Engine

  /**
   * `wrapper(node)`: a string or a non-iterable node becomes the one-item
   * iterable `[func(node)]`; an iterable becomes the iterable of its children's
   * wrappers.
   */
  function Transform(f: Node -> Node, node: Node): (r: Node)
    ensures r.Seq?
    ensures !node.Seq? ==> r.items == [f(node)]
    ensures node.Seq? ==> |r.items| == |node.items|
    decreases node
  {
    match node
    case Seq(items) => Seq(seq(|items|, i requires 0 <= i < |items| => Transform(f, items[i])))
    case _ => Seq([f(node)])
  }

  /** The non-sequence nodes of a forest, depth first, left to right. */
  function LeafNodes(nodes: seq<Node>): seq<Node>
    decreases nodes
  {
    if nodes == [] then []
    else (if nodes[0].Seq? then LeafNodes(nodes[0].items) else [nodes[0]]) + LeafNodes(nodes[1..])
  }

  function MapNodes(f: Node -> Node, nodes: seq<Node>): (r: seq<Node>)
    ensures |r| == |nodes|
    ensures forall i | 0 <= i < |nodes| :: r[i] == f(nodes[i])
  {
    seq(|nodes|, i requires 0 <= i < |nodes| => f(nodes[i]))
  }

  lemma {:induction false} LeafNodesAppend(a: seq<Node>, b: seq<Node>)
    ensures LeafNodes(a + b) == LeafNodes(a) + LeafNodes(b)
    decreases a
  {
    if a == [] {
      assert a + b == b;
    } else {
      assert (a + b)[0] == a[0];
      assert (a + b)[1..] == a[1..] + b;
      LeafNodesAppend(a[1..], b);
    }
  }

  lemma MapNodesAppend(f: Node -> Node, a: seq<Node>, b: seq<Node>)
    ensures MapNodes(f, a + b) == MapNodes(f, a) + MapNodes(f, b)
  {
  }

  /** Rendering a forest only depends on its leaves: nesting adds nothing and restores nothing. */
  lemma {:induction false} RenderLeaves(nodes: seq<Node>, depth: int, cfg: Config)
    ensures RenderSeq(nodes, depth, cfg) == RenderSeq(LeafNodes(nodes), depth, cfg)
    decreases nodes
  {
    if nodes != [] {
      var rest := nodes[1..];
      assert nodes == [nodes[0]] + rest;
      if nodes[0].Seq? {
        var items := nodes[0].items;
        Flatten(items, rest, depth, cfg);
        RenderSeqAppend(items, rest, depth, cfg);
        RenderLeaves(items, depth, cfg);
        var o := RenderSeq(items, depth, cfg);
        RenderLeaves(rest, o.depth, cfg);
        LeafNodesAppend(items, rest);
        RenderSeqAppend(LeafNodes(items), LeafNodes(rest), depth, cfg);
      } else {
        Unfold(nodes[0], rest, depth, cfg);
        var e := ProcessNode(nodes[0], depth, cfg);
        RenderLeaves(rest, e.depth, cfg);
        Unfold(nodes[0], LeafNodes(rest), depth, cfg);
      }
    }
  }

  /** The transformed forest has, as leaves, the leaves of `func` applied to each original leaf. */
  lemma {:induction false} TransformLeaves(f: Node -> Node, nodes: seq<Node>)
    ensures LeafNodes(seq(|nodes|, i requires 0 <= i < |nodes| => Transform(f, nodes[i])))
         == LeafNodes(MapNodes(f, LeafNodes(nodes)))
    decreases nodes
  {
    var t := seq(|nodes|, i requires 0 <= i < |nodes| => Transform(f, nodes[i]));
    if nodes != [] {
      var rest := nodes[1..];
      var trest := seq(|rest|, i requires 0 <= i < |rest| => Transform(f, rest[i]));
      assert t[1..] == trest;
      TransformLeaves(f, rest);
      var head := if nodes[0].Seq? then LeafNodes(nodes[0].items) else [nodes[0]];
      assert LeafNodes(nodes) == head + LeafNodes(rest);
      MapNodesAppend(f, head, LeafNodes(rest));
      LeafNodesAppend(MapNodes(f, head), MapNodes(f, LeafNodes(rest)));
      assert LeafNodes(t) == LeafNodes(t[0].items) + LeafNodes(trest);
      if nodes[0].Seq? {
        var items := nodes[0].items;
        TransformLeaves(f, items);
        assert t[0].items == seq(|items|, i requires 0 <= i < |items| => Transform(f, items[i]));
      } else {
        assert t[0].items == [f(nodes[0])];
        assert MapNodes(f, head) == [f(nodes[0])];
      }
    }
  }

  /**
   * What the transformed tree writes: exactly what `func` applied to every leaf
   * of the original, in depth-first order, writes.
   */
  lemma TransformRenders(f: Node -> Node, node: Node, depth: int, cfg: Config)
    ensures RenderSeq([Transform(f, node)], depth, cfg)
         == RenderSeq(MapNodes(f, LeafNodes([node])), depth, cfg)
  {
    RenderLeaves([Transform(f, node)], depth, cfg);
    RenderLeaves(MapNodes(f, LeafNodes([node])), depth, cfg);
    TransformedLeaves(f, node);
  }

  /** The leaves of one transformed node: `func` applied to each of the node's own leaves. */
  lemma TransformedLeaves(f: Node -> Node, node: Node)
    ensures LeafNodes([Transform(f, node)]) == LeafNodes(MapNodes(f, LeafNodes([node])))
  {
    var t := Transform(f, node);
    LeafSingleton(t);
    LeafSingleton(node);
    if node.Seq? {
      var items := node.items;
      TransformLeaves(f, items);
      assert t.items == seq(|items|, i requires 0 <= i < |items| => Transform(f, items[i]));
    } else {
      assert MapNodes(f, [node]) == [f(node)] == t.items;
    }
  }

  /** The leaves of a single node: its own leaves when it is a sequence, itself otherwise. */
  lemma LeafSingleton(node: Node)
    ensures LeafNodes([node]) == if node.Seq? then LeafNodes(node.items) else [node]
  {
    assert [node][1..] == [];
    var head := if node.Seq? then LeafNodes(node.items) else [node];
    assert LeafNodes([node]) == head + LeafNodes([]);
    assert head + [] == head;
  }

  /** The identity transformer changes nothing that is written. */
  lemma IdentityTransform(node: Node, depth: int, cfg: Config)
    ensures RenderSeq([Transform(n => n, node)], depth, cfg) == RenderSeq([node], depth, cfg)
  {
    TransformRenders(n => n, node, depth, cfg);
    var leaves := LeafNodes([node]);
    assert MapNodes(n => n, leaves) == leaves;
    RenderLeaves([node], depth, cfg);
    RenderLeaves(leaves, depth, cfg);
    LeavesAreLeaves([node]);
  }

  /** Leaves contain no sequence, so taking them again changes nothing. */
  lemma {:induction false} LeavesAreLeaves(nodes: seq<Node>)
    ensures LeafNodes(LeafNodes(nodes)) == LeafNodes(nodes)
    decreases nodes
  {
    if nodes != [] {
      var head := if nodes[0].Seq? then LeafNodes(nodes[0].items) else [nodes[0]];
      if nodes[0].Seq? {
        LeavesAreLeaves(nodes[0].items);
      } else {
        assert LeafNodes([nodes[0]]) == [nodes[0]] + LeafNodes([]);
      }
      LeavesAreLeaves(nodes[1..]);
      LeafNodesAppend(head, LeafNodes(nodes[1..]));
    }
  }
}
