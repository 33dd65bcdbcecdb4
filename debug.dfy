/**
 * codenode/debug.py: the instrumented iterator and the error augmentation of
 * the debug-patched writer.  As written, `print_writer_stack` never returns a
 * report: it raises `NotSubscriptable`.  The augmentation the handler evidently
 * intends takes the report as a string.
 */
module Debug {
  import opened Wrappers
  import Text

  /** The `maxlen` of `DebugIterator.item_buffer`. */
  const BufferSize := 8

  /** The most recent `BufferSize` elements of `s`, in order. */
  function Window<T>(s: seq<T>): (r: seq<T>)
    ensures |r| <= BufferSize
  {
    if |s| <= BufferSize then s else s[|s| - BufferSize..]
  }

  /** `deque(maxlen=8).append(x)`: a full deque drops its oldest element first. */
  function DequeAppend<T>(buffer: seq<T>, x: T): seq<T> {
    if |buffer| >= BufferSize then buffer[|buffer| - BufferSize + 1..] + [x] else buffer + [x]
  }

  /** Appending to the deque of the last items gives the deque of the last items one step later. */
  lemma WindowAppend<T>(s: seq<T>, x: T)
    ensures DequeAppend(Window(s), x) == Window(s + [x])
  {
    var n := |s|;
    if n < BufferSize {
      assert Window(s) == s;
      assert Window(s + [x]) == s + [x];
    } else {
      var w := s[n - BufferSize..];
      assert Window(s) == w && |w| == BufferSize;
      assert DequeAppend(w, x) == w[1..] + [x];
      assert w[1..] == s[n - BufferSize + 1..];
      assert Window(s + [x]) == (s + [x])[n + 1 - BufferSize..];
      TailSnoc(s, x, n - BufferSize + 1);
    }
  }

  lemma TailSnoc<T>(s: seq<T>, x: T, k: nat)
    requires k <= |s|
    ensures (s + [x])[k..] == s[k..] + [x]
  {
  }

  /** One more item pulled: the deque of the last items advances by that item. */
  lemma NextWindow<T>(iterable: seq<T>, position: nat)
    requires position < |iterable|
    ensures DequeAppend(Window(iterable[..position]), iterable[position]) == Window(iterable[..position + 1])
  {
    WindowAppend(iterable[..position], iterable[position]);
    assert iterable[..position] + [iterable[position]] == iterable[..position + 1];
  }

  class DebugIterator<T> {
    /** The wrapped iterable, and how far `iter(iterable)` has advanced. */
    const iterable: seq<T>
    var position: nat
    var itemsYielded: nat
    var itemBuffer: seq<T>

    /** The counter is the number of items pulled; the buffer holds the last ones, oldest first. */
    ghost predicate Valid()
      reads this
    {
      && position <= |iterable|
      && itemsYielded == position
      && itemBuffer == Window(iterable[..position])
    }

    constructor(iterable: seq<T>)
      ensures Valid()
      ensures this.iterable == iterable && itemsYielded == 0 && itemBuffer == []
    {
      this.iterable := iterable;
      position := 0;
      itemsYielded := 0;
      itemBuffer := [];
    }

    /**
     * `__next__`: the next item of the wrapped iterable (`None` is StopIteration,
     * raised before the counter or the buffer changes).
     */
    method Next() returns (item: Option<T>)
      requires Valid()
      modifies this
      ensures Valid()
      ensures item.None? <==> old(position) == |iterable|
      ensures item.None? ==> position == old(position) && itemsYielded == old(itemsYielded) && itemBuffer == old(itemBuffer)
      ensures item.Some? ==>
                && item == Some(iterable[old(position)])
                && itemsYielded == old(itemsYielded) + 1
                && itemBuffer == DequeAppend(old(itemBuffer), item.value)
    {
      if position == |iterable| {
        item := None;
      } else {
        var x := iterable[position];
        NextWindow(iterable, position);
        position, itemsYielded, itemBuffer := position + 1, itemsYielded + 1, DequeAppend(itemBuffer, x);
        item := Some(x);
      }
    }

    /** `current_item`: the last item yielded, or None before the first. */
    function CurrentItem(): (r: Option<T>)
      requires Valid()
      reads this
      ensures itemsYielded == 0 ==> r.None?
      ensures itemsYielded > 0 ==> r == Some(iterable[itemsYielded - 1])
    {
      if |itemBuffer| > 0 then Some(itemBuffer[|itemBuffer| - 1]) else None
    }
  }

  /** The text that precedes the stack report in an augmented message. */
  const StackHeader := "\n\nWriter stack:\n"

  /**
   * The patched `process_node` on failure: the same exception, with its args
   * replaced by the single string `''.join(args) + '\n\nWriter stack:\n' + report`.
   */
  function Augment(e: Exception, report: string): (r: Exception)
    ensures r.kind == e.kind && |r.args| == 1
    ensures Text.IsPrefix(Text.Concat(e.args) + StackHeader, r.args[0])
  {
    Exception(e.kind, [Text.Concat(e.args) + StackHeader + report])
  }

  /**
   * The exception `writer.stack[-1]` raises in `print_writer_stack`: a
   * `WriterStack` can be iterated but has no `__getitem__`.
   */
  const NotSubscriptable := Exception(TypeError, ["'WriterStack' object is not subscriptable"])

  /**
   * Whatever exception the handler meant to augment, and whatever report it
   * meant to append, the exception raised as written is not that augmentation:
   * its message has no line break, while an augmented one holds `StackHeader`.
   */
  lemma NotSubscriptableIsNoReport(raised: Exception, report: string)
    ensures NotSubscriptable != Augment(raised, report)
  {
    var message := NotSubscriptable.args[0];
    var k := |Text.Concat(raised.args)|;
    var augmented := Augment(raised, report).args[0];
    assert augmented[k] == '\n';
    if |message| > k {
      assert forall i | 0 <= i < |message| :: message[i] != '\n';
    }
  }
}
