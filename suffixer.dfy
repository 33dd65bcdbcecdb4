/**
 * codenode_utilities/suffixer.py: `suffixer(suffix, dumps)(node)` re-emits each
 * line of the dumped output followed by padding and `suffix`, the padding
 * aligning every suffix to the end of the longest line.
 */
module Suffixing {
  import opened Wrappers
  import opened Engine
  import Text
  import opened Lines
  import RenderingLaws

  /** `max(map(len, lines))`. */
  function MaxLength(lines: seq<string>): (r: nat)
    requires lines != []
    ensures forall i | 0 <= i < |lines| :: |lines[i]| <= r
    ensures exists i | 0 <= i < |lines| :: |lines[i]| == r
  {
    if |lines| == 1 then |lines[0]|
    else
      var m := MaxLength(lines[1..]);
      assert forall i | 1 <= i < |lines| :: lines[i] == lines[1..][i - 1];
      if |lines[0]| >= m then |lines[0]| else m
  }

  /** `max` of an empty sequence raises ValueError. */
  const EmptyMax := Exception(ValueError, ["max() arg is an empty sequence"])

  /** The five nodes written for one line. */
  function SuffixLine(line: string, width: int, suffix: string): seq<Node> {
    [CurrentIndent, Str(line), Str(Repeat(" ", width - |line|)), Str(suffix), Newline]
  }

  function SuffixLines(lines: seq<string>, width: int, suffix: string): (r: seq<Node>)
    ensures |r| == 5 * |lines|
  {
    if lines == [] then [] else SuffixLine(lines[0], width, suffix) + SuffixLines(lines[1..], width, suffix)
  }

  /** The output of `suffixed(node)`, given what `dumps(node)` returned. */
  function Suffixed(suffix: string, dumped: string): (r: Result<seq<Node>, Exception>)
    ensures r.Failure? <==> SplitLines(dumped) == []
    ensures r.Failure? ==> r.error.kind == ValueError
    ensures r.Success? ==> |r.value| == 5 * |SplitLines(dumped)|
  {
    var lines := SplitLines(dumped);
    if lines == [] then Failure(EmptyMax)
    else Success(SuffixLines(lines, MaxLength(lines), suffix))
  }

  /** Each line padded with spaces to `width`, then the suffix. */
  function Padded(lines: seq<string>, width: int, suffix: string): (r: seq<string>)
    ensures |r| == |lines|
  {
    if lines == [] then [] else [lines[0] + Repeat(" ", width - |lines[0]|) + suffix] + Padded(lines[1..], width, suffix)
  }

  /**
   * Alignment: padded to the longest line, every line keeps its text, is
   * followed by spaces only, and its suffix starts at the same column.
   */
  lemma {:induction false} PaddedAligned(lines: seq<string>, width: int, suffix: string)
    requires forall i | 0 <= i < |lines| :: |lines[i]| <= width
    ensures forall i | 0 <= i < |lines| ::
      var p := Padded(lines, width, suffix)[i];
      && |p| == width + |suffix|
      && p[..|lines[i]|] == lines[i]
      && (forall k | |lines[i]| <= k < width :: p[k] == ' ')
      && p[width..] == suffix
  {
    if lines != [] {
      var l := lines[0];
      var pad := Repeat(" ", width - |l|);
      RepeatSpaces(width - |l|);
      PaddedAligned(lines[1..], width, suffix);
      var p := Padded(lines, width, suffix);
      assert p[0] == l + pad + suffix;
      forall i | 1 <= i < |lines| ensures p[i] == Padded(lines[1..], width, suffix)[i - 1] && lines[i] == lines[1..][i - 1] {}
    }
  }

  lemma {:induction false} RepeatSpaces(n: int)
    ensures forall k | 0 <= k < |Repeat(" ", n)| :: Repeat(" ", n)[k] == ' '
    ensures n >= 0 ==> |Repeat(" ", n)| == n
    decreases n
  {
    if n > 0 {
      RepeatSpaces(n - 1);
      assert Repeat(" ", n) == " " + Repeat(" ", n - 1);
    }
  }

  lemma SuffixLineRenders(line: string, width: int, suffix: string, rest: seq<Node>, depth: int, cfg: Config)
    ensures RenderSeq(SuffixLine(line, width, suffix) + rest, depth, cfg)
         == Prepend([Repeat(cfg.indentation, depth), line, Repeat(" ", width - |line|), suffix, cfg.newline],
                    RenderSeq(rest, depth, cfg))
  {
    var pad := Repeat(" ", width - |line|);
    var tail := [Str(line)] + ([Str(pad)] + ([Str(suffix)] + ([Newline] + rest)));
    assert SuffixLine(line, width, suffix) + rest == [CurrentIndent] + tail;
    SuffixSteps(line, pad, suffix, rest, depth, cfg);
    PrependFive(Repeat(cfg.indentation, depth), line, pad, suffix, cfg.newline, RenderSeq(rest, depth, cfg));
  }

  lemma SuffixSteps(line: string, pad: string, suffix: string, rest: seq<Node>, depth: int, cfg: Config)
    ensures RenderSeq([CurrentIndent] + ([Str(line)] + ([Str(pad)] + ([Str(suffix)] + ([Newline] + rest)))), depth, cfg)
         == Prepend([Repeat(cfg.indentation, depth)], Prepend([line], Prepend([pad], Prepend([suffix],
              Prepend([cfg.newline], RenderSeq(rest, depth, cfg))))))
  {
    RenderingLaws.CurrentStep([Str(line)] + ([Str(pad)] + ([Str(suffix)] + ([Newline] + rest))), depth, cfg);
    RenderingLaws.TextStep(Str(line), [Str(pad)] + ([Str(suffix)] + ([Newline] + rest)), depth, cfg);
    RenderingLaws.TextStep(Str(pad), [Str(suffix)] + ([Newline] + rest), depth, cfg);
    RenderingLaws.TextStep(Str(suffix), [Newline] + rest, depth, cfg);
    RenderingLaws.TextStep(Newline, rest, depth, cfg);
  }

  lemma PrependFive(a: string, b: string, c: string, d: string, e: string, o: Outcome)
    ensures Prepend([a], Prepend([b], Prepend([c], Prepend([d], Prepend([e], o))))) == Prepend([a, b, c, d, e], o)
  {
    assert [a] + ([b] + ([c] + ([d] + ([e] + o.chunks)))) == [a, b, c, d, e] + o.chunks;
  }

  lemma Concat5(a: string, b: string, c: string, d: string, e: string, rest: seq<string>)
    ensures Text.Concat([a, b, c, d, e] + rest) == a + (b + c + d) + e + Text.Concat(rest)
  {
    var l := [a, b, c, d, e];
    Text.ConcatAppend(l, rest);
    assert l[1..] == [b, c, d, e];
    assert l[1..][1..] == [c, d, e];
    assert l[1..][1..][1..] == [d, e];
    assert l[1..][1..][1..][1..] == [e];
    assert Text.Concat([d, e]) == d + e;
    assert Text.Concat([c, d, e]) == c + (d + e);
    assert Text.Concat([b, c, d, e]) == b + (c + (d + e));
    assert Text.Concat(l) == a + (b + (c + (d + e)));
  }

  /** The rendered text: every padded, suffixed line behind the current indentation, each with the newline. */
  lemma {:induction false} SuffixLinesText(lines: seq<string>, width: int, suffix: string, depth: int, cfg: Config)
    ensures var o := RenderSeq(SuffixLines(lines, width, suffix), depth, cfg);
      && o.depth == depth
      && o.error.None?
      && Text.Concat(o.chunks)
         == Terminated(AddPrefix(Repeat(cfg.indentation, depth), Padded(lines, width, suffix)), cfg.newline)
  {
    if lines == [] {
    } else {
      var l := lines[0];
      var ind := Repeat(cfg.indentation, depth);
      var pad := Repeat(" ", width - |l|);
      SuffixLineRenders(l, width, suffix, SuffixLines(lines[1..], width, suffix), depth, cfg);
      SuffixLinesText(lines[1..], width, suffix, depth, cfg);
      var rest := RenderSeq(SuffixLines(lines[1..], width, suffix), depth, cfg).chunks;
      Concat5(ind, l, pad, suffix, cfg.newline, rest);
      var padded := Padded(lines, width, suffix);
      assert padded[1..] == Padded(lines[1..], width, suffix);
      assert AddPrefix(ind, padded)[1..] == AddPrefix(ind, padded[1..]);
      assert ind + (l + pad + suffix) == ind + padded[0];
    }
  }

  /**
   * `suffixed(node)` renders as the lines of `dumps(node)`, each padded to the
   * longest one and followed by the suffix; with no lines it raises ValueError.
   */
  lemma SuffixedRenders(suffix: string, dumped: string, depth: int, cfg: Config)
    requires SplitLines(dumped) != []
    ensures var lines := SplitLines(dumped);
      var o := RenderSeq(Suffixed(suffix, dumped).value, depth, cfg);
      && o.error.None?
      && Text.Concat(o.chunks)
         == Terminated(AddPrefix(Repeat(cfg.indentation, depth), Padded(lines, MaxLength(lines), suffix)), cfg.newline)
  {
    var lines := SplitLines(dumped);
    SuffixLinesText(lines, MaxLength(lines), suffix, depth, cfg);
  }
}
