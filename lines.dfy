/**
 * Line splitting as the utilities use it: `str.splitlines()` with '\n' as the
 * line boundary, and its inverse, writing every line followed by a newline.
 */
module Lines {
  import Text

  /** `s` holds no line break. */
  predicate NoBreak(s: string) {
    forall i | 0 <= i < |s| :: s[i] != '\n'
  }

  /** Every line is free of line breaks. */
  predicate AllNoBreak(lines: seq<string>) {
    forall i | 0 <= i < |lines| :: NoBreak(lines[i])
  }

  /** A left-to-right scan: the lines completed so far and the text after the last break. */
  datatype Split = Split(lines: seq<string>, pending: string)

  function Feed(st: Split, c: char): Split {
    if c == '\n' then Split(st.lines + [st.pending], "") else Split(st.lines, st.pending + [c])
  }

  function Scan(s: string): Split
    decreases |s|
  {
    if s == [] then Split([], "") else Feed(Scan(s[..|s| - 1]), s[|s| - 1])
  }

  /**
   * `s.splitlines()`: the text between breaks; a final unterminated line is kept
   * and no empty line follows a final break, so `""` has no lines.
   */
  function SplitLines(s: string): seq<string> {
    var st := Scan(s);
    if st.pending == "" then st.lines else st.lines + [st.pending]
  }

  /** Every line followed by `newline`, concatenated. */
  function Terminated(lines: seq<string>, newline: string): string {
    if lines == [] then "" else lines[0] + newline + Terminated(lines[1..], newline)
  }

  /** `prefix` placed at the start of every line. */
  function AddPrefix(prefix: string, lines: seq<string>): (r: seq<string>)
    ensures |r| == |lines|
    ensures forall i | 0 <= i < |r| :: r[i] == prefix + lines[i]
  {
    seq(|lines|, i requires 0 <= i < |lines| => prefix + lines[i])
  }

  lemma EmptyPrefix(lines: seq<string>)
    ensures AddPrefix("", lines) == lines
  {
    forall i | 0 <= i < |lines| ensures AddPrefix("", lines)[i] == lines[i] {
      assert "" + lines[i] == lines[i];
    }
  }

  lemma {:induction false} TerminatedSnoc(lines: seq<string>, line: string, newline: string)
    ensures Terminated(lines + [line], newline) == Terminated(lines, newline) + line + newline
  {
    if lines == [] {
      assert [] + [line] == [line];
      assert [line][1..] == [];
    } else {
      assert (lines + [line])[1..] == lines[1..] + [line];
      TerminatedSnoc(lines[1..], line, newline);
    }
  }

  /**
   * The scan loses nothing: the completed lines, each with its break restored,
   * followed by the pending text give back `s`; neither holds a break, and the
   * pending text is empty exactly when `s` is empty or ends with a break.
   */
  lemma {:induction false} ScanInvariant(s: string)
    ensures var st := Scan(s);
      && Terminated(st.lines, "\n") + st.pending == s
      && AllNoBreak(st.lines)
      && NoBreak(st.pending)
      && (st.pending == "" <==> s == "" || s[|s| - 1] == '\n')
    decreases |s|
  {
    if s != [] {
      var init := s[..|s| - 1];
      var c := s[|s| - 1];
      assert s == init + [c];
      ScanInvariant(init);
      var st := Scan(init);
      if c == '\n' {
        TerminatedSnoc(st.lines, st.pending, "\n");
      } else {
        assert Terminated(st.lines, "\n") + (st.pending + [c]) == (Terminated(st.lines, "\n") + st.pending) + [c];
      }
    }
  }

  /** Round trip one way: writing the lines of `s` back, each with a break, gives `s` with a final break ensured. */
  lemma SplitLinesRoundTrip(s: string)
    ensures AllNoBreak(SplitLines(s))
    ensures Terminated(SplitLines(s), "\n") == if s == "" || s[|s| - 1] == '\n' then s else s + "\n"
  {
    ScanInvariant(s);
    var st := Scan(s);
    if st.pending != "" {
      TerminatedSnoc(st.lines, st.pending, "\n");
    }
  }

  /** Scanning break-free text only extends the pending line. */
  lemma {:induction false} ScanNoBreak(x: string, t: string)
    requires NoBreak(t)
    ensures Scan(x + t) == Split(Scan(x).lines, Scan(x).pending + t)
    decreases |t|
  {
    if t == [] {
      assert x + t == x;
    } else {
      var init := t[..|t| - 1];
      assert (x + t)[..|x + t| - 1] == x + init;
      assert (x + t)[|x + t| - 1] == t[|t| - 1];
      ScanNoBreak(x, init);
      assert (Scan(x).pending + init) + [t[|t| - 1]] == Scan(x).pending + t;
    }
  }

  /** Scanning one line and its break completes that line. */
  lemma ScanLine(x: string, line: string)
    requires NoBreak(line)
    ensures Scan(x + line + "\n") == Split(Scan(x).lines + [Scan(x).pending + line], "")
  {
    ScanNoBreak(x, line);
    var y := x + line + "\n";
    assert y[..|y| - 1] == x + line;
  }

  /** Scanning break-free lines, each terminated, completes exactly those lines. */
  lemma {:induction false} ScanTerminated(lines: seq<string>)
    requires AllNoBreak(lines)
    ensures Scan(Terminated(lines, "\n")) == Split(lines, "")
    decreases |lines|
  {
    if lines != [] {
      var init := lines[..|lines| - 1];
      var last := lines[|lines| - 1];
      assert lines == init + [last];
      ScanTerminated(init);
      TerminatedSnoc(init, last, "\n");
      ScanLine(Terminated(init, "\n"), last);
      assert [] + [last] == [last];
      assert "" + last == last;
    }
  }

  /** Round trip the other way: splitting terminated break-free lines gives them back. */
  lemma SplitLinesInverse(lines: seq<string>)
    requires AllNoBreak(lines)
    ensures SplitLines(Terminated(lines, "\n")) == lines
  {
    ScanTerminated(lines);
  }
}
