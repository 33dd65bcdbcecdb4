/**
 * codenode_utilities/prefixer.py: `prefixer` and `prefixer_iter` re-emit the
 * rendered output of a node as `line(prefix + text)` nodes, one per line;
 * `yield_lines` cuts a stream of chunks into lines for the iterative variant.
 */
module Prefixing {
  import opened Engine
  import Text
  import opened Lines
  import RenderingLaws

  /** `s.find('\n')`: the index of the first line break, or -1 when there is none. */
  function FindBreak(s: string): (r: int)
    ensures -1 <= r < |s|
    ensures r == -1 <==> NoBreak(s)
    ensures r >= 0 ==> s[r] == '\n' && NoBreak(s[..r])
  {
    if s == [] then -1
    else if s[0] == '\n' then 0
    else
      var k := FindBreak(s[1..]);
      if k == -1 then -1 else k + 1
  }

  /**
   * One chunk of `yield_lines` as written: only the first break of the chunk
   * ends a line; everything after it, further breaks included, becomes the buffer.
   */
  function AsWrittenStep(st: Split, chunk: string): Split {
    var p := FindBreak(chunk);
    if p >= 0 then Split(st.lines + [st.pending + chunk[..p]], chunk[p + 1..])
    else Split(st.lines, st.pending + chunk)
  }

  function AsWrittenScan(chunks: seq<string>): Split {
    if chunks == [] then Split([], "")
    else AsWrittenStep(AsWrittenScan(chunks[..|chunks| - 1]), chunks[|chunks| - 1])
  }

  /** `yield_lines` as written: the lines ended so far, then the buffer if it is not empty. */
  function YieldLinesAsWritten(chunks: seq<string>): seq<string> {
    var st := AsWrittenScan(chunks);
    if st.pending == "" then st.lines else st.lines + [st.pending]
  }

  /** A chunk holding at most one line break. */
  predicate AtMostOneBreak(chunk: string) {
    var p := FindBreak(chunk);
    p == -1 || NoBreak(chunk[p + 1..])
  }

  /** Where no chunk holds two breaks, `yield_lines` as written is `splitlines` of the whole output. */
  lemma {:induction false} AsWrittenAgrees(chunks: seq<string>)
    requires forall i | 0 <= i < |chunks| :: AtMostOneBreak(chunks[i])
    ensures AsWrittenScan(chunks) == Scan(Text.Concat(chunks))
    ensures YieldLinesAsWritten(chunks) == SplitLines(Text.Concat(chunks))
  {
    if chunks != [] {
      var init := chunks[..|chunks| - 1];
      var chunk := chunks[|chunks| - 1];
      AsWrittenAgrees(init);
      assert chunks == init + [chunk];
      Text.ConcatSnoc(init, chunk);
      StepAgrees(Text.Concat(init), chunk);
    }
  }

  /** On a chunk with at most one break, one step as written is scanning the chunk. */
  lemma StepAgrees(x: string, chunk: string)
    requires AtMostOneBreak(chunk)
    ensures AsWrittenStep(Scan(x), chunk) == Scan(x + chunk)
  {
    var p := FindBreak(chunk);
    if p >= 0 {
      CutAt(x, chunk, p);
      ScanNoBreak(x + chunk[..p] + "\n", chunk[p + 1..]);
      assert "" + chunk[p + 1..] == chunk[p + 1..];
    } else {
      ScanNoBreak(x, chunk);
    }
  }

  /** Cutting a text at its first break: the text up to the break, the break, the rest. */
  lemma CutAt(x: string, chunk: string, p: int)
    requires 0 <= p < |chunk| && chunk[p] == '\n' && NoBreak(chunk[..p])
    ensures x + chunk == (x + chunk[..p] + "\n") + chunk[p + 1..]
    ensures Scan(x + chunk[..p] + "\n") == Split(Scan(x).lines + [Scan(x).pending + chunk[..p]], "")
  {
    CutShape(x, chunk, p);
    ScanLine(x, chunk[..p]);
  }

  lemma CutShape(x: string, chunk: string, p: int)
    requires 0 <= p < |chunk| && chunk[p] == '\n'
    ensures x + chunk == (x + chunk[..p] + "\n") + chunk[p + 1..]
  {
    assert chunk[..p + 1] == chunk[..p] + "\n";
    assert chunk == chunk[..p + 1] + chunk[p + 1..];
  }

  /** A single chunk with two breaks: `yield_lines` as written leaves a break inside a line. */
  lemma AsWrittenKeepsBreak()
    ensures YieldLinesAsWritten(["a\nb\nc"]) == ["a", "b\nc"]
    ensures SplitLines("a\nb\nc") == ["a", "b", "c"]
  {
    AsWrittenOnOneChunk();
    SplitThreeLines();
  }

  lemma AsWrittenOnOneChunk()
    ensures YieldLinesAsWritten(["a\nb\nc"]) == ["a", "b\nc"]
  {
    var chunk := "a\nb\nc";
    assert FindBreak(chunk) == 1;
    assert chunk[..1] == "a" && chunk[2..] == "b\nc";
    assert ["a\nb\nc"][..0] == [];
    var one := [chunk];
    assert one[..|one| - 1] == [] && one[|one| - 1] == chunk;
    assert AsWrittenScan([]) == Split([], "");
    assert "" + chunk[..1] == "a";
    assert AsWrittenStep(Split([], ""), chunk) == Split(["a"], "b\nc");
    assert AsWrittenScan(one) == Split(["a"], "b\nc");
  }

  lemma SplitThreeLines()
    ensures SplitLines("a\nb\nc") == ["a", "b", "c"]
  {
    var chunk := "a\nb\nc";
    assert chunk[..4] == "a\nb\n" && chunk[..3] == "a\nb" && chunk[..2] == "a\n" && chunk[..1] == "a";
    assert "a\nb\n"[..3] == "a\nb";
    assert "a\nb"[..2] == "a\n";
    assert "a\n"[..1] == "a";
    assert "a"[..0] == "";
    assert Scan("a") == Split([], "a");
    assert Scan("a\n") == Split(["a"], "");
    assert Scan("a\nb") == Split(["a"], "b");
    assert Scan("a\nb\n") == Split(["a", "b"], "");
    assert Scan(chunk) == Split(["a", "b"], "c");
  }

  /**
   * `yield_lines`, corrected: the buffer is cut at every break of a chunk, not
   * only the first, so the lines are those of the concatenated output.
   */
  method YieldLines(chunks: seq<string>) returns (lines: seq<string>)
    ensures lines == SplitLines(Text.Concat(chunks))
  {
    lines := [];
    var buffer := "";
    for i := 0 to |chunks|
      invariant Scan(Text.Concat(chunks[..i])) == Split(lines, buffer)
    {
      assert chunks[..i + 1] == chunks[..i] + [chunks[i]];
      Text.ConcatSnoc(chunks[..i], chunks[i]);
      lines, buffer := FeedChunk(Text.Concat(chunks[..i]), chunks[i], lines, buffer);
    }
    assert chunks[..|chunks|] == chunks;
    if buffer != "" {
      lines := lines + [buffer];
    }
  }

  /** The body of the corrected loop: one chunk, cut at each of its breaks. */
  method FeedChunk(ghost before: string, chunk: string, lines0: seq<string>, buffer0: string)
    returns (lines: seq<string>, buffer: string)
    requires Scan(before) == Split(lines0, buffer0)
    ensures Scan(before + chunk) == Split(lines, buffer)
  {
    lines, buffer := lines0, buffer0;
    var consumed := 0;
    assert before + chunk[..consumed] == before;
    var p := FindBreak(chunk);
    while p >= 0
      invariant 0 <= consumed <= |chunk|
      invariant p == FindBreak(chunk[consumed..])
      invariant Scan(before + chunk[..consumed]) == Split(lines, buffer)
      decreases |chunk| - consumed
    {
      var line := chunk[consumed..][..p];
      LineOfChunk(before, chunk, consumed, p, lines, buffer);
      lines := lines + [buffer + line];
      buffer := "";
      consumed := consumed + p + 1;
      p := FindBreak(chunk[consumed..]);
    }
    LastOfChunk(before, chunk, consumed, lines, buffer);
    buffer := buffer + chunk[consumed..];
  }

  /** One round of the loop: the text up to the next break of the chunk ends a line. */
  lemma LineOfChunk(before: string, chunk: string, consumed: int, p: int, lines: seq<string>, buffer: string)
    requires 0 <= consumed <= |chunk| && 0 <= p && p == FindBreak(chunk[consumed..])
    requires Scan(before + chunk[..consumed]) == Split(lines, buffer)
    ensures consumed + p + 1 <= |chunk|
    ensures Scan(before + chunk[..consumed + p + 1]) == Split(lines + [buffer + chunk[consumed..][..p]], "")
  {
    var rest := chunk[consumed..];
    CutAt(before + chunk[..consumed], rest, p);
    TakeMore(before, chunk, consumed, p);
  }

  /** After the last break, the rest of the chunk joins the buffer. */
  lemma LastOfChunk(before: string, chunk: string, consumed: int, lines: seq<string>, buffer: string)
    requires 0 <= consumed <= |chunk| && FindBreak(chunk[consumed..]) < 0
    requires Scan(before + chunk[..consumed]) == Split(lines, buffer)
    ensures Scan(before + chunk) == Split(lines, buffer + chunk[consumed..])
  {
    ScanNoBreak(before + chunk[..consumed], chunk[consumed..]);
    assert before + chunk[..consumed] + chunk[consumed..] == before + chunk;
  }

  /** Consuming a line of `chunk` that starts at `consumed` and ends with the break at `consumed + p`. */
  lemma TakeMore(before: string, chunk: string, consumed: int, p: int)
    requires 0 <= consumed && 0 <= p && consumed + p < |chunk| && chunk[consumed + p] == '\n'
    ensures before + chunk[..consumed + p + 1] == (before + chunk[..consumed]) + chunk[consumed..][..p] + "\n"
    ensures chunk[consumed + p + 1..] == chunk[consumed..][p + 1..]
  {
    assert chunk[..consumed + p + 1] == chunk[..consumed] + chunk[consumed..][..p] + "\n";
  }

  /** `prefixer(prefix)(node, dumps)`: one `line(prefix + text)` per line of the dumped output. */
  function Prefixed(prefix: string, dumped: string): (r: seq<Node>)
    ensures |r| == |SplitLines(dumped)|
  {
    RenderingLaws.LineNodes(AddPrefix(prefix, SplitLines(dumped)))
  }

  /**
   * Rendering the prefixed lines writes every line of the original output
   * behind the current indentation and the prefix, each with the newline.
   */
  lemma PrefixedRenders(prefix: string, dumped: string, depth: int, cfg: Config)
    ensures var o := RenderSeq(Prefixed(prefix, dumped), depth, cfg);
      && o.depth == depth
      && o.error.None?
      && Text.Concat(o.chunks)
         == Terminated(AddPrefix(Repeat(cfg.indentation, depth), AddPrefix(prefix, SplitLines(dumped))), cfg.newline)
  {
    RenderingLaws.LinesRender(AddPrefix(prefix, SplitLines(dumped)), depth, cfg);
    RenderingLaws.LinesText(AddPrefix(prefix, SplitLines(dumped)), depth, cfg);
  }

  /**
   * With an empty prefix, at depth 0 and with '\n' as newline, re-rendering the
   * lines reproduces the dumped output (with a final newline ensured).
   */
  lemma EmptyPrefixReproduces(dumped: string, indentation: string)
    ensures var o := RenderSeq(Prefixed("", dumped), 0, Config(indentation, "\n", Strict));
      Text.Concat(o.chunks) == if dumped == "" || dumped[|dumped| - 1] == '\n' then dumped else dumped + "\n"
  {
    var cfg := Config(indentation, "\n", Strict);
    PrefixedRenders("", dumped, 0, cfg);
    EmptyPrefix(SplitLines(dumped));
    assert Repeat(indentation, 0) == "";
    EmptyPrefix(AddPrefix("", SplitLines(dumped)));
    SplitLinesRoundTrip(dumped);
  }

  /**
   * `prefixer_iter(prefix)(node, dump_iter)` built on the corrected `YieldLines`:
   * the same lines as `prefixer`, cut from the chunk stream of the writer
   * instead of the whole string.
   */
  method PrefixedIter(prefix: string, chunks: seq<string>) returns (nodes: seq<Node>)
    ensures nodes == Prefixed(prefix, Text.Concat(chunks))
  {
    var lines := YieldLines(chunks);
    nodes := [];
    for i := 0 to |lines|
      invariant nodes == RenderingLaws.LineNodes(AddPrefix(prefix, lines[..i]))
    {
      LineNodesSnoc(AddPrefix(prefix, lines[..i]), prefix + lines[i]);
      assert AddPrefix(prefix, lines[..i + 1]) == AddPrefix(prefix, lines[..i]) + [prefix + lines[i]];
      nodes := nodes + [Line(prefix + lines[i])];
    }
    assert lines[..|lines|] == lines;
  }

  /**
   * `prefixer_iter(prefix)(node, dump_iter)` as written: one `line(prefix + text)`
   * per line that `yield_lines` as written cuts from the chunks.
   */
  function PrefixedIterAsWritten(prefix: string, chunks: seq<string>): (r: seq<Node>)
    ensures |r| == |YieldLinesAsWritten(chunks)|
  {
    RenderingLaws.LineNodes(AddPrefix(prefix, YieldLinesAsWritten(chunks)))
  }

  /** Where no chunk holds two breaks, `prefixer_iter` as written gives the nodes of `prefixer`. */
  lemma PrefixedIterAsWrittenAgrees(prefix: string, chunks: seq<string>)
    requires forall i | 0 <= i < |chunks| :: AtMostOneBreak(chunks[i])
    ensures PrefixedIterAsWritten(prefix, chunks) == Prefixed(prefix, Text.Concat(chunks))
  {
    AsWrittenAgrees(chunks);
  }

  /**
   * On the single chunk `"a\nb\nc"`, `prefixer_iter` as written prefixes two
   * lines, the second still holding a break, where `prefixer` prefixes three.
   */
  lemma PrefixedIterAsWrittenKeepsBreak(prefix: string)
    ensures PrefixedIterAsWritten(prefix, ["a\nb\nc"]) == [Line(prefix + "a"), Line(prefix + "b\nc")]
    ensures Prefixed(prefix, Text.Concat(["a\nb\nc"])) == [Line(prefix + "a"), Line(prefix + "b"), Line(prefix + "c")]
  {
    AsWrittenKeepsBreak();
    var two := AddPrefix(prefix, ["a", "b\nc"]);
    assert two == [prefix + "a", prefix + "b\nc"];
    assert two[1..][1..] == [];
    assert RenderingLaws.LineNodes(two[1..]) == [Line(prefix + "b\nc")] + RenderingLaws.LineNodes([]);
    assert RenderingLaws.LineNodes(two) == [Line(prefix + "a")] + RenderingLaws.LineNodes(two[1..]);
    var three := AddPrefix(prefix, ["a", "b", "c"]);
    assert three == [prefix + "a", prefix + "b", prefix + "c"];
    assert three[1..][1..][1..] == [];
    assert RenderingLaws.LineNodes(three[1..][1..]) == [Line(prefix + "c")] + RenderingLaws.LineNodes([]);
    assert RenderingLaws.LineNodes(three[1..]) == [Line(prefix + "b")] + RenderingLaws.LineNodes(three[1..][1..]);
    assert RenderingLaws.LineNodes(three) == [Line(prefix + "a")] + RenderingLaws.LineNodes(three[1..]);
  }

  lemma {:induction false} LineNodesSnoc(lines: seq<string>, line: string)
    ensures RenderingLaws.LineNodes(lines + [line]) == RenderingLaws.LineNodes(lines) + [Line(line)]
  {
    if lines == [] {
      assert [] + [line] == [line];
      assert [line][1..] == [];
    } else {
      assert (lines + [line])[1..] == lines[1..] + [line];
      LineNodesSnoc(lines[1..], line);
    }
  }
}
