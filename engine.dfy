/**
 * The rendering engine of codenode/writer.py, as a specification.
 *
 * A node is a string, a marker, or a sequence of nodes; anything else is an
 * unsupported value, represented by the text `str()` would give for it.
 * `RenderSeq` is the meaning of a traversal: the chunks written, the depth left
 * behind and the exception that stopped it, if any.  The imperative writer in
 * module Writing is proved to produce exactly this.
 */
module Engine {
  import opened Wrappers
  import opened Markers
  import Text

  datatype Node =
    | Str(text: string)
    | DepthNode(change: DepthChange)
    | IndentNode(indentation: Indentation)
    | NewlineNode
    | Seq(items: seq<Node>)
    | Other(display: string)

  /** `codenode.indent` and `codenode.dedent`: relative depth changes of +1 and -1. */
  const Indent := DepthNode(RelativeDepthChange(1))
  const Dedent := DepthNode(RelativeDepthChange(-1))
  /** `codenode.indentation`: indentation at the current depth. */
  const CurrentIndent := IndentNode(CurrentIndentation)
  /** `codenode.newline`. */
  const Newline := NewlineNode

  /** `codenode.line(s)`: renders like `(indentation, s, newline)`. */
  function Line(s: string): Node {
    Seq([CurrentIndent, Str(s), Newline])
  }

  /** Whether unsupported values raise (the plain writer) or are converted (auto_coerce_patch). */
  datatype Coercion = Strict | AutoCoerce(coerce: string -> string)

  /** The default conversion of auto_coerce_patch is `str`: the value's own display text. */
  const AutoStr := AutoCoerce(s => s)

  /** Per-traversal configuration: the indentation unit, the newline string, the coercion policy. */
  datatype Config = Config(indentation: string, newline: string, coercion: Coercion)

  /** The defaults of `Writer.__init__`: four spaces, `'\n'`, no coercion. */
  const DefaultConfig := Config("    ", "\n", Strict)

  /** Python's `s * n`: `n` copies of `s`, and the empty string when `n <= 0`. */
  function Repeat(s: string, n: int): (r: string)
    ensures n <= 0 ==> r == ""
    decreases n
  {
    if n <= 0 then "" else s + Repeat(s, n - 1)
  }

  /** The TypeError raised for a node that is neither a string, a marker nor iterable. */
  function UnsupportedNode(display: string): (e: Exception)
    ensures e.kind == TypeError && |e.args| == 1
    ensures Text.Contains(e.args[0], display)
  {
    var message :=
      "Unable to process node \"" + display + "\".\n"
      + "Either convert it to a string, iterable or override Writer.process_node to handle nodes of this type.";
    assert Text.OccursAt(message, display, 24);
    Exception(TypeError, [message])
  }

  /** What processing one node does: the chunks it yields, the depth after it, the sequence it pushes, the exception it raises. */
  datatype Effect = Effect(chunks: seq<string>, depth: int, push: Option<seq<Node>>, error: Option<Exception>)

  /**
   * `Writer.process_node`: classify in the fixed order str, DepthChange,
   * Indentation, Newline, then "push as a new cursor".
   */
  function BaseProcessNode(node: Node, depth: int, indentation: string, newline: string): (e: Effect)
    ensures |e.chunks| <= 1
    ensures e.error.Some? ==> e.chunks == [] && e.depth == depth && e.push.None?
    ensures e.push.Some? <==> node.Seq?
    ensures e.depth != depth ==> node.DepthNode?
    ensures node.Str? ==> e == Effect([node.text], depth, None, None)
    ensures node.IndentNode? && e.error.None? ==>
              && IndentsFor(node.indentation, depth).Success?
              && e.chunks == [Repeat(indentation, IndentsFor(node.indentation, depth).value)]
    ensures node.NewlineNode? ==> e.chunks == [newline]
    ensures node.DepthNode? ==> e.chunks == [] && e.push.None?
    ensures node.DepthNode? ==> (e.error.None? <==> NewDepthFor(node.change, depth).Success?)
    ensures node.DepthNode? && e.error.None? ==> e.depth == NewDepthFor(node.change, depth).value
    ensures e.error.Some? && e.error.value.kind == TypeError <==> node.Other?
  {
    match node
    case Str(text) => Effect([text], depth, None, None)
    case DepthNode(change) =>
      (match NewDepthFor(change, depth)
       case Success(d) => Effect([], d, None, None)
       case Failure(err) => Effect([], depth, None, Some(err)))
    case IndentNode(ind) =>
      (match IndentsFor(ind, depth)
       case Success(n) => Effect([Repeat(indentation, n)], depth, None, None)
       case Failure(err) => Effect([], depth, None, Some(err)))
    case NewlineNode => Effect([newline], depth, None, None)
    case Seq(items) => Effect([], depth, Some(items), None)
    case Other(display) => Effect([], depth, None, Some(UnsupportedNode(display)))
  }

  /**
   * `auto_coerce_patch`: a TypeError from the base `process_node` is replaced by
   * the single chunk `coerce(node)`; any other outcome passes through unchanged.
   */
  function ProcessNode(node: Node, depth: int, cfg: Config): (e: Effect)
    ensures !node.Other? || cfg.coercion.Strict? ==> e == BaseProcessNode(node, depth, cfg.indentation, cfg.newline)
    ensures node.Other? && cfg.coercion.AutoCoerce? ==> e == Effect([cfg.coercion.coerce(node.display)], depth, None, None)
  {
    var base := BaseProcessNode(node, depth, cfg.indentation, cfg.newline);
    if cfg.coercion.AutoCoerce? && base.error.Some? && base.error.value.kind == TypeError then
      Effect([cfg.coercion.coerce(node.display)], depth, None, None)
    else base
  }

  /** The result of a traversal: the chunks written, the final depth and the exception that stopped it. */
  datatype Outcome = Outcome(chunks: seq<string>, depth: int, error: Option<Exception>)

  /**
   * Depth-first, left-to-right rendering of `nodes` starting at `depth`.  A nested
   * sequence is rendered in full before its following siblings, and the depth it
   * leaves behind is where its siblings continue: popping a cursor restores nothing.
   * The first exception stops the traversal; the chunks before it stand.
   */
  function RenderSeq(nodes: seq<Node>, depth: int, cfg: Config): (o: Outcome)
    decreases nodes
  {
    if nodes == [] then Outcome([], depth, None)
    else
      var head :=
        if nodes[0].Seq? then RenderSeq(nodes[0].items, depth, cfg)
        else
          var e := ProcessNode(nodes[0], depth, cfg);
          Outcome(e.chunks, e.depth, e.error);
      if head.error.Some? then head
      else
        var tail := RenderSeq(nodes[1..], head.depth, cfg);
        Outcome(head.chunks + tail.chunks, tail.depth, tail.error)
  }

  /** Rendering a whole tree: the writer starts from the single cursor `(node,)`. */
  function Render(node: Node, depth: int, cfg: Config): Outcome {
    RenderSeq([node], depth, cfg)
  }

  /** An outcome preceded by chunks already written. */
  function Prepend(chunks: seq<string>, o: Outcome): Outcome {
    Outcome(chunks + o.chunks, o.depth, o.error)
  }

  lemma PrependTwice(a: seq<string>, b: seq<string>, o: Outcome)
    ensures Prepend(a, Prepend(b, o)) == Prepend(a + b, o)
  {
    assert a + (b + o.chunks) == (a + b) + o.chunks;
  }

  /** Continue an outcome with the rendering of `rest`, unless it already failed. */
  function Then(o: Outcome, rest: seq<Node>, cfg: Config): Outcome {
    if o.error.Some? then o
    else
      var tail := RenderSeq(rest, o.depth, cfg);
      Outcome(o.chunks + tail.chunks, tail.depth, tail.error)
  }

  /** `dumps`: the concatenated chunks, or the exception (no partial string). */
  function DumpsResult(o: Outcome): (r: Result<string, Exception>)
    ensures r.Success? <==> o.error.None?
    ensures r.Success? ==> r.value == Text.Concat(o.chunks)
    ensures r.Failure? ==> r.error == o.error.value
  {
    if o.error.Some? then Failure(o.error.value) else Success(Text.Concat(o.chunks))
  }

  /** Rendering a concatenation is rendering the first part, then the second from where it left off. */
  lemma {:induction false} RenderSeqAppend(a: seq<Node>, b: seq<Node>, depth: int, cfg: Config)
    ensures RenderSeq(a + b, depth, cfg) == Then(RenderSeq(a, depth, cfg), b, cfg)
    decreases a
  {
    if a == [] {
      assert a + b == b;
    } else {
      assert (a + b)[0] == a[0];
      assert (a + b)[1..] == a[1..] + b;
      var head :=
        if a[0].Seq? then RenderSeq(a[0].items, depth, cfg)
        else
          var e := ProcessNode(a[0], depth, cfg);
          Outcome(e.chunks, e.depth, e.error);
      if head.error.None? {
        RenderSeqAppend(a[1..], b, head.depth, cfg);
        var t := RenderSeq(a[1..], head.depth, cfg);
        if t.error.None? {
          var u := RenderSeq(b, t.depth, cfg);
          assert head.chunks + (t.chunks + u.chunks) == (head.chunks + t.chunks) + u.chunks;
        }
      }
    }
  }

  /** A pushed sequence is drained before its parent resumes: it renders as if spliced in place. */
  lemma Flatten(items: seq<Node>, rest: seq<Node>, depth: int, cfg: Config)
    ensures RenderSeq([Seq(items)] + rest, depth, cfg) == RenderSeq(items + rest, depth, cfg)
  {
    var nodes := [Seq(items)] + rest;
    assert nodes[0] == Seq(items) && nodes[1..] == rest;
    RenderSeqAppend(items, rest, depth, cfg);
  }

  /** A node that is not a sequence contributes exactly its own effect, then the rest continues. */
  lemma Unfold(node: Node, rest: seq<Node>, depth: int, cfg: Config)
    requires !node.Seq?
    ensures var e := ProcessNode(node, depth, cfg);
      RenderSeq([node] + rest, depth, cfg) == Then(Outcome(e.chunks, e.depth, e.error), rest, cfg)
  {
    var nodes := [node] + rest;
    assert nodes[0] == node && nodes[1..] == rest;
  }
}
