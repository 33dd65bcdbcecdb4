/**
 * The imperative writer of codenode/writer.py: an explicit stack of cursors, a
 * mutable depth, and a stream that receives the chunks as they are produced.
 * `Writer.Dump` is proved to write exactly the chunks of `Engine.RenderSeq`.
 */
module Writing {
  import opened Wrappers
  import opened Markers
  import opened Engine
  import Text
  import Debug

  /** An iterator over a sequence node: the items and how many have been pulled. */
  datatype Cursor = Cursor(nodes: seq<Node>, index: nat)

  predicate WellFormed(stack: seq<Cursor>) {
    forall i :: 0 <= i < |stack| ==> stack[i].index <= |stack[i].nodes|
  }

  /**
   * The nodes still to be pulled from `stack`, in the order they will be pulled:
   * the rest of the top cursor, then the rest of the one below it, and so on.
   */
  function Work(stack: seq<Cursor>): seq<Node>
    requires WellFormed(stack)
    decreases |stack|
  {
    if stack == [] then []
    else
      var top := stack[|stack| - 1];
      top.nodes[top.index..] + Work(stack[..|stack| - 1])
  }

  /**
   * One resumption of `WriterStack.__iter__`: exhausted cursors are popped until
   * one yields an item, or the stack is empty and iteration ends (`None`).
   */
  function Pull(stack: seq<Cursor>): (r: (Option<Node>, seq<Cursor>))
    requires WellFormed(stack)
    ensures WellFormed(r.1) && |r.1| <= |stack|
    ensures r.0.None? ==> r.1 == [] && Work(stack) == []
    ensures r.0.Some? ==> Work(stack) == [r.0.value] + Work(r.1)
    decreases |stack|
  {
    if stack == [] then (None, [])
    else
      var top := stack[|stack| - 1];
      if top.index < |top.nodes| then
        var rest := stack[..|stack| - 1] + [Cursor(top.nodes, top.index + 1)];
        AdvanceWork(stack);
        (Some(top.nodes[top.index]), rest)
      else
        PopWork(stack);
        Pull(stack[..|stack| - 1])
  }

  /** Pulling from a top cursor that has items left moves its index on by one. */
  lemma AdvanceWork(stack: seq<Cursor>)
    requires WellFormed(stack) && stack != []
    requires stack[|stack| - 1].index < |stack[|stack| - 1].nodes|
    ensures var top := stack[|stack| - 1];
      var rest := stack[..|stack| - 1] + [Cursor(top.nodes, top.index + 1)];
      && WellFormed(rest)
      && Work(stack) == [top.nodes[top.index]] + Work(rest)
  {
    var top := stack[|stack| - 1];
    var below := stack[..|stack| - 1];
    var rest := below + [Cursor(top.nodes, top.index + 1)];
    assert WellFormed(below);
    assert rest[..|rest| - 1] == below;
    var w := Work(below);
    assert Work(stack) == top.nodes[top.index..] + w;
    assert Work(rest) == top.nodes[top.index + 1..] + w;
    assert top.nodes[top.index..] == [top.nodes[top.index]] + top.nodes[top.index + 1..];
    assert ([top.nodes[top.index]] + top.nodes[top.index + 1..]) + w == [top.nodes[top.index]] + (top.nodes[top.index + 1..] + w);
  }

  /** An exhausted top cursor contributes nothing: popping it leaves the work unchanged. */
  lemma PopWork(stack: seq<Cursor>)
    requires WellFormed(stack) && stack != []
    requires stack[|stack| - 1].index >= |stack[|stack| - 1].nodes|
    ensures WellFormed(stack[..|stack| - 1])
    ensures Work(stack) == Work(stack[..|stack| - 1])
  {
    var top := stack[|stack| - 1];
    assert top.nodes[top.index..] == [];
  }

  /** The number of node visits and pops left: it bounds the writer's loop. */
  function Size(nodes: seq<Node>): nat
    decreases nodes
  {
    if nodes == [] then 0
    else (if nodes[0].Seq? then 2 + Size(nodes[0].items) else 1) + Size(nodes[1..])
  }

  lemma {:induction false} SizeAppend(a: seq<Node>, b: seq<Node>)
    ensures Size(a + b) == Size(a) + Size(b)
    decreases a
  {
    if a == [] {
      assert a + b == b;
    } else {
      assert (a + b)[0] == a[0] && (a + b)[1..] == a[1..] + b;
      SizeAppend(a[1..], b);
    }
  }

  function Weight(stack: seq<Cursor>): nat
    requires WellFormed(stack)
  {
    |stack| + Size(Work(stack))
  }

  lemma PushWork(stack: seq<Cursor>, items: seq<Node>)
    requires WellFormed(stack)
    ensures WellFormed(stack + [Cursor(items, 0)])
    ensures Work(stack + [Cursor(items, 0)]) == items + Work(stack)
  {
    var s := stack + [Cursor(items, 0)];
    assert s[..|s| - 1] == stack;
  }

  /**
   * Processing the pulled node `n` accounts for the head of the pending work:
   * on an exception the traversal ends with the node's own effect; otherwise
   * the node's chunks come first and the rest is what the new stack holds.
   */
  lemma StepOutcome(before: seq<Cursor>, mid: seq<Cursor>, n: Node, d: int, cfg: Config, after: seq<Cursor>)
    requires WellFormed(before) && Pull(before) == (Some(n), mid)
    requires var e := Engine.ProcessNode(n, d, cfg);
      after == (if e.push.Some? then mid + [Cursor(e.push.value, 0)] else mid)
    ensures WellFormed(after)
    ensures var e := Engine.ProcessNode(n, d, cfg);
      var r := RenderSeq(Work(before), d, cfg);
      && (e.error.Some? ==> r == Outcome(e.chunks, e.depth, e.error))
      && (e.error.None? ==> Weight(after) < Weight(before) && r == Prepend(e.chunks, RenderSeq(Work(after), e.depth, cfg)))
  {
    var rest := Work(mid);
    assert Work(before) == [n] + rest;
    assert |mid| <= |before|;
    assert Weight(before) == |before| + Size([n] + rest);
    var e := Engine.ProcessNode(n, d, cfg);
    if n.Seq? {
      assert e == Effect([], d, Some(n.items), None);
      assert after == mid + [Cursor(n.items, 0)];
      PushedOutcome(n.items, rest, d, cfg);
      PushWork(mid, n.items);
      assert Weight(after) == |mid| + 1 + Size(n.items + rest);
    } else {
      assert e.push.None?;
      assert after == mid;
      LeafOutcome(n, rest, d, cfg);
      assert Weight(after) == |mid| + Size(rest);
    }
  }

  lemma PushedOutcome(items: seq<Node>, rest: seq<Node>, d: int, cfg: Config)
    ensures Size(items + rest) + 2 == Size([Seq(items)] + rest)
    ensures RenderSeq([Seq(items)] + rest, d, cfg) == RenderSeq(items + rest, d, cfg)
  {
    SizeAppend([Seq(items)], rest);
    SizeAppend(items, rest);
    assert [Seq(items)][1..] == [];
    assert Size([Seq(items)]) == 2 + Size(items);
    Flatten(items, rest, d, cfg);
  }

  lemma LeafOutcome(n: Node, rest: seq<Node>, d: int, cfg: Config)
    requires !n.Seq?
    ensures Size(rest) + 1 == Size([n] + rest)
    ensures var e := Engine.ProcessNode(n, d, cfg);
      RenderSeq([n] + rest, d, cfg) == Then(Outcome(e.chunks, e.depth, e.error), rest, cfg)
  {
    SizeAppend([n], rest);
    assert [n][1..] == [];
    assert Size([n]) == 1;
    Unfold(n, rest, d, cfg);
  }

  /** `WriterStack`: a stack of iterators, used once then discarded. */
  class WriterStack {
    var items: seq<Cursor>

    ghost predicate Valid()
      reads this
    {
      WellFormed(items)
    }

    constructor()
      ensures Valid() && items == []
    {
      items := [];
    }

    /** `push`: an iterator over `nodes` becomes the new top. */
    method Push(nodes: seq<Node>)
      requires Valid()
      modifies this
      ensures Valid()
      ensures items == old(items) + [Cursor(nodes, 0)]
    {
      PushWork(items, nodes);
      items := items + [Cursor(nodes, 0)];
    }

    /** One step of `__iter__`: the next item from the top iterator, popping exhausted ones. */
    method Next() returns (item: Option<Node>)
      requires Valid()
      modifies this
      ensures Valid()
      ensures (item, items) == Pull(old(items))
    {
      while items != []
        invariant WellFormed(items)
        invariant Pull(items) == Pull(old(items))
        decreases |items|
      {
        var top := items[|items| - 1];
        if top.index < |top.nodes| {
          item := Some(top.nodes[top.index]);
          items := items[..|items| - 1] + [Cursor(top.nodes, top.index + 1)];
          return;
        }
        items := items[..|items| - 1];
      }
      item := None;
    }
  }

  /** An object with a `write` method; what it has received, in order. */
  class Stream {
    var written: seq<string>

    constructor()
      ensures written == []
    {
      written := [];
    }

    method Write(chunk: string)
      modifies this
      ensures written == old(written) + [chunk]
    {
      written := written + [chunk];
    }

    /** `StringIO.getvalue()`. */
    function GetValue(): string
      reads this
    {
      Text.Concat(written)
    }
  }

  /** The error a (possibly debug-patched) writer reports for the traversal's exception. */
  ghost predicate Reported(debugging: bool, reported: Option<Exception>, raised: Option<Exception>) {
    && (reported.Some? <==> raised.Some?)
    && (raised.Some? && !debugging ==> reported == raised)
    && (raised.Some? && debugging ==> exists report :: reported.value == Debug.Augment(raised.value, report))
  }

  /**
   * `Writer`: one traversal of one tree.  `coercion` is the auto_coerce_patch
   * policy; `debugReport`, when present, is the debug_patch wrapper together with
   * the text `print_writer_stack` would write for a given stack.
   */
  class Writer {
    const node: Node
    const stack: WriterStack
    const indentation: string
    const newline: string
    const coercion: Coercion
    const debugReport: Option<seq<Cursor> -> string>
    var depth: int

    function Cfg(): Config {
      Config(indentation, newline, coercion)
    }

    ghost predicate Valid()
      reads this, stack
    {
      stack.Valid()
    }

    /** `Writer.__init__`: the stack starts as the single cursor `(node,)`. */
    constructor(node: Node, indentation: string, newline: string, depth: int,
                coercion: Coercion, debugReport: Option<seq<Cursor> -> string>)
      ensures Valid() && fresh(stack)
      ensures stack.items == [Cursor([node], 0)] && Work(stack.items) == [node]
      ensures this.node == node && this.depth == depth
      ensures this.indentation == indentation && this.newline == newline
      ensures this.coercion == coercion && this.debugReport == debugReport
    {
      this.node := node;
      this.indentation := indentation;
      this.newline := newline;
      this.depth := depth;
      this.coercion := coercion;
      this.debugReport := debugReport;
      var s := new WriterStack();
      s.Push([node]);
      this.stack := s;
      PushWork([], [node]);
    }

    /** `Writer.process_node`: yield chunks for one node and apply its side effects. */
    method BaseProcessNode(n: Node) returns (chunks: seq<string>, error: Option<Exception>)
      requires Valid()
      modifies this, stack
      ensures Valid()
      ensures var e := Engine.BaseProcessNode(n, old(depth), indentation, newline);
        && chunks == e.chunks && error == e.error && depth == e.depth
        && stack.items == (if e.push.Some? then old(stack.items) + [Cursor(e.push.value, 0)] else old(stack.items))
    {
      chunks, error := [], None;
      match n
      case Str(text) =>
        chunks := [text];
      case DepthNode(change) =>
        var r := NewDepthFor(change, depth);
        if r.Failure? {
          error := Some(r.error);
        } else {
          depth := r.value;
        }
      case IndentNode(ind) =>
        var r := IndentsFor(ind, depth);
        if r.Failure? {
          error := Some(r.error);
        } else {
          chunks := [Repeat(indentation, r.value)];
        }
      case NewlineNode =>
        chunks := [newline];
      case Seq(items) =>
        stack.Push(items);
      case Other(display) =>
        error := Some(UnsupportedNode(display));
    }

    /** The auto_coerce_patch override: a TypeError from the base method becomes `coerce(node)`. */
    method CoercingProcessNode(n: Node) returns (chunks: seq<string>, error: Option<Exception>)
      requires Valid()
      modifies this, stack
      ensures Valid()
      ensures var e := Engine.ProcessNode(n, old(depth), Cfg());
        && chunks == e.chunks && error == e.error && depth == e.depth
        && stack.items == (if e.push.Some? then old(stack.items) + [Cursor(e.push.value, 0)] else old(stack.items))
    {
      chunks, error := BaseProcessNode(n);
      if coercion.AutoCoerce? && error.Some? && error.value.kind == TypeError {
        chunks, error := [coercion.coerce(n.display)], None;
      }
    }

    /**
     * The debug_patch override: on success exactly what the wrapped method yields;
     * on failure the same exception, its message augmented with the stack report.
     */
    method ProcessNode(n: Node) returns (chunks: seq<string>, error: Option<Exception>)
      requires Valid()
      modifies this, stack
      ensures Valid()
      ensures var e := Engine.ProcessNode(n, old(depth), Cfg());
        && chunks == e.chunks && Reported(debugReport.Some?, error, e.error) && depth == e.depth
        && stack.items == (if e.push.Some? then old(stack.items) + [Cursor(e.push.value, 0)] else old(stack.items))
    {
      chunks, error := CoercingProcessNode(n);
      if debugReport.Some? && error.Some? {
        var report := debugReport.value(stack.items);
        error := Some(Debug.Augment(error.value, report));
      }
    }

    /**
     * `print_writer_stack` as written: `enumerate(writer.stack)` runs
     * `WriterStack.__iter__`, which pulls every pending node (the nodes it lists)
     * and pops every cursor; `writer.stack[-1]` then raises `NotSubscriptable`.
     */
    method PrintWriterStackAsWritten() returns (listed: seq<Node>, error: Exception)
      requires Valid()
      modifies stack
      ensures Valid()
      ensures listed == Work(old(stack.items)) && stack.items == []
      ensures error == Debug.NotSubscriptable
    {
      listed := [];
      while true
        invariant Valid()
        invariant Work(old(stack.items)) == listed + Work(stack.items)
        decreases Size(Work(stack.items))
      {
        var item := stack.Next();
        if item.None? {
          break;
        }
        var x := item.value;
        SizeAppend([x], Work(stack.items));
        assert [x][1..] == [];
        assert listed + ([x] + Work(stack.items)) == (listed + [x]) + Work(stack.items);
        listed := listed + [x];
      }
      assert listed + [] == listed;
      error := Debug.NotSubscriptable;
    }

    /**
     * The debug_patch override as written: on success the wrapped method's chunks;
     * on failure the handler's call to `print_writer_stack` drains the stack and
     * raises its own TypeError, which replaces the exception being reported.
     */
    method AsWrittenProcessNode(n: Node) returns (chunks: seq<string>, error: Option<Exception>)
      requires Valid()
      modifies this, stack
      ensures Valid()
      ensures var e := Engine.ProcessNode(n, old(depth), Cfg());
        && chunks == e.chunks && depth == e.depth
        && (error.Some? <==> e.error.Some?)
        && (e.error.Some? ==> error == Some(Debug.NotSubscriptable) && stack.items == [])
        && (e.error.None? ==> stack.items == (if e.push.Some? then old(stack.items) + [Cursor(e.push.value, 0)] else old(stack.items)))
    {
      chunks, error := CoercingProcessNode(n);
      if error.Some? {
        var listed, raised := PrintWriterStackAsWritten();
        error := Some(raised);
      }
    }

    /** What the rest of the traversal will produce from the current stack and depth. */
    ghost function Pending(): Outcome
      requires Valid()
      reads this, stack
    {
      RenderSeq(Work(stack.items), depth, Cfg())
    }

    /** Write `chunks` to `stream` one by one, as `dump` does for what `process_node` yields. */
    static method WriteAll(stream: Stream, chunks: seq<string>)
      modifies stream
      ensures stream.written == old(stream.written) + chunks
    {
      for i := 0 to |chunks|
        invariant stream.written == old(stream.written) + chunks[..i]
      {
        stream.Write(chunks[i]);
      }
      assert chunks[..|chunks|] == chunks;
    }

    /**
     * One iteration of the loop in `dump`: pull a node, process it, write its chunks.
     * `finished` is set when the stack is exhausted or the node raised.
     */
    method Step(stream: Stream) returns (finished: bool, error: Option<Exception>, ghost emitted: seq<string>)
      requires Valid()
      modifies this, stack, stream
      ensures Valid()
      ensures stream.written == old(stream.written) + emitted
      ensures var before := old(Pending());
        if finished then
          && before.chunks == emitted && before.depth == depth
          && Reported(debugReport.Some?, error, before.error)
        else
          && Weight(stack.items) < old(Weight(stack.items))
          && before == Prepend(emitted, Pending())
    {
      ghost var d := depth;
      ghost var start := stack.items;
      var next := stack.Next();
      if next.None? {
        return true, None, [];
      }
      var n := next.value;
      ghost var mid := stack.items;
      var chunks, e := ProcessNode(n);
      StepOutcome(start, mid, n, d, Cfg(), stack.items);
      WriteAll(stream, chunks);
      return e.Some?, e, chunks;
    }

    /** `dump`: process every pulled node and write its chunks to `stream`. */
    method Dump(stream: Stream) returns (error: Option<Exception>)
      requires Valid()
      modifies this, stack, stream
      ensures Valid()
      ensures var r := RenderSeq(Work(old(stack.items)), old(depth), Cfg());
        && stream.written == old(stream.written) + r.chunks
        && depth == r.depth
        && Reported(debugReport.Some?, error, r.error)
    {
      ghost var goal := Pending();
      ghost var done: seq<string> := [];
      var finished := false;
      error := None;
      while !finished
        invariant Valid()
        invariant stream.written == old(stream.written) + done
        invariant !finished ==> goal == Prepend(done, Pending())
        invariant finished ==> goal.chunks == done && goal.depth == depth && Reported(debugReport.Some?, error, goal.error)
        decreases !finished, Weight(stack.items)
      {
        ghost var emitted;
        ghost var before := Pending();
        finished, error, emitted := Step(stream);
        Text.AppendAssoc(old(stream.written), done, emitted);
        if !finished {
          PrependTwice(done, emitted, Pending());
        }
        done := done + emitted;
      }
    }

    /** `dumps`: dump into a fresh buffer and return its text, or the exception. */
    method Dumps() returns (r: Result<string, Exception>)
      requires Valid()
      modifies this, stack
      ensures Valid()
      ensures var o := RenderSeq(Work(old(stack.items)), old(depth), Cfg());
        && (r.Success? <==> o.error.None?)
        && (r.Success? ==> r.value == Text.Concat(o.chunks))
        && (r.Failure? && debugReport.None? ==> r.error == o.error.value)
        && (r.Failure? && debugReport.Some? ==> exists report :: r.error == Debug.Augment(o.error.value, report))
    {
      var buffer := new Stream();
      var error := Dump(buffer);
      assert buffer.written == RenderSeq(Work(old(stack.items)), old(depth), Cfg()).chunks;
      if error.Some? {
        r := Failure(error.value);
      } else {
        r := Success(buffer.GetValue());
      }
    }
  }

  /**
   * On the tree `Other(d)` the plain writer raises the TypeError naming `d`; the
   * debug-patched writer as written raises `NotSubscriptable` instead, which is
   * no augmentation of it: the message naming the node is lost.
   */
  lemma AsWrittenLosesReport(d: string, depth: int, cfg: Config, report: string)
    requires cfg.coercion.Strict?
    ensures Render(Other(d), depth, cfg).error == Some(UnsupportedNode(d))
    ensures Debug.NotSubscriptable != Debug.Augment(UnsupportedNode(d), report)
  {
    Unfold(Other(d), [], depth, cfg);
    Debug.NotSubscriptableIsNoReport(UnsupportedNode(d), report);
  }

  /** `Writer(node, indentation=..., newline=..., depth=...).dumps()` for a fresh, undecorated writer. */
  method RenderToString(node: Node, indentation: string, newline: string, depth: int, coercion: Coercion)
    returns (r: Result<string, Exception>)
    ensures r == DumpsResult(Render(node, depth, Config(indentation, newline, coercion)))
  {
    var writer := new Writer(node, indentation, newline, depth, coercion, None);
    r := writer.Dumps();
  }
}
