/**
 * Properties of `auto_coerce_patch` (codenode_utilities/auto_coerce.py): the
 * patched `process_node` differs from the original only where the original
 * raised a TypeError.
 */
module CoercionLaws {
  import opened Wrappers
  import opened Markers
  import opened Engine
  import Text

  /** No value the writer cannot classify appears anywhere in the tree. */
  predicate NoOther(nodes: seq<Node>)
    decreases nodes
  {
    forall i | 0 <= i < |nodes| :: !nodes[i].Other? && (nodes[i].Seq? ==> NoOther(nodes[i].items))
  }

  /** Without the patch, an unsupported value raises a TypeError naming it and writes nothing. */
  lemma UnsupportedValueRaises(display: string, depth: int, indentation: string, newline: string)
    ensures var o := Render(Other(display), depth, Config(indentation, newline, Strict));
      && o.chunks == []
      && o.depth == depth
      && o.error.Some?
      && o.error.value.kind == TypeError
      && Text.Contains(o.error.value.args[0], display)
  {
    Unfold(Other(display), [], depth, Config(indentation, newline, Strict));
  }

  /** With the patch, the same value is written as its coerced text. */
  lemma UnsupportedValueCoerced(display: string, depth: int, indentation: string, newline: string, coerce: string -> string)
    ensures Render(Other(display), depth, Config(indentation, newline, AutoCoerce(coerce)))
         == Outcome([coerce(display)], depth, None)
  {
    var cfg := Config(indentation, newline, AutoCoerce(coerce));
    assert [Other(display)] == [Other(display)] + [];
    Unfold(Other(display), [], depth, cfg);
    assert RenderSeq([], depth, cfg) == Outcome([], depth, None);
  }

  /** On trees the original writer can classify, the patch changes nothing. */
  lemma {:induction false} PatchTransparent(nodes: seq<Node>, depth: int, indentation: string, newline: string, coerce: string -> string)
    requires NoOther(nodes)
    ensures RenderSeq(nodes, depth, Config(indentation, newline, AutoCoerce(coerce)))
         == RenderSeq(nodes, depth, Config(indentation, newline, Strict))
    decreases nodes
  {
    if nodes != [] {
      assert NoOther(nodes[1..]) by {
        forall i | 0 <= i < |nodes[1..]| ensures nodes[1..][i] == nodes[i + 1] {}
      }
      var patched := Config(indentation, newline, AutoCoerce(coerce));
      var strict := Config(indentation, newline, Strict);
      if nodes[0].Seq? {
        PatchTransparent(nodes[0].items, depth, indentation, newline, coerce);
      }
      var head :=
        if nodes[0].Seq? then RenderSeq(nodes[0].items, depth, strict)
        else
          var e := ProcessNode(nodes[0], depth, strict);
          Outcome(e.chunks, e.depth, e.error);
      PatchTransparent(nodes[1..], head.depth, indentation, newline, coerce);
    }
  }

  /** Under the patch no TypeError escapes; only the abstract markers' NotImplementedError can. */
  lemma {:induction false} PatchedNeverTypeError(nodes: seq<Node>, depth: int, indentation: string, newline: string, coerce: string -> string)
    ensures var o := RenderSeq(nodes, depth, Config(indentation, newline, AutoCoerce(coerce)));
      o.error.Some? ==> o.error.value == NotImplemented
    decreases nodes
  {
    if nodes != [] {
      var cfg := Config(indentation, newline, AutoCoerce(coerce));
      if nodes[0].Seq? {
        PatchedNeverTypeError(nodes[0].items, depth, indentation, newline, coerce);
      }
      var head :=
        if nodes[0].Seq? then RenderSeq(nodes[0].items, depth, cfg)
        else
          var e := ProcessNode(nodes[0], depth, cfg);
          Outcome(e.chunks, e.depth, e.error);
      PatchedNeverTypeError(nodes[1..], head.depth, indentation, newline, coerce);
    }
  }
}
