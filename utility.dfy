/**
 * functionality/utility.py: `isplit(string, sep)` yields the pieces of
 * `string` between the leftmost non-overlapping occurrences of `sep`, found one
 * after another with `str.find`.
 */
module Utility {
  import Text

  /**
   * `s.find(sub, start)`: the lowest index from `start` at which `sub` occurs, or
   * -1 when it occurs nowhere from there.
   */
  function FindFrom(s: string, sub: string, start: nat): (r: int)
    requires start <= |s|
    ensures r == -1 || (start <= r && Text.OccursAt(s, sub, r))
    ensures r == -1 ==> forall k | start <= k <= |s| :: !Text.OccursAt(s, sub, k)
    ensures r >= 0 ==> forall k | start <= k < r :: !Text.OccursAt(s, sub, k)
    decreases |s| - start
  {
    if start + |sub| > |s| then -1
    else if s[start..start + |sub|] == sub then start
    else FindFrom(s, sub, start + 1)
  }

  /** The pieces of `s[start..]`, cut at each leftmost occurrence of `sep` in turn. */
  function SplitFrom(s: string, sep: string, start: nat): (r: seq<string>)
    requires |sep| > 0 && start <= |s|
    ensures |r| >= 1
    decreases |s| - start
  {
    var k := FindFrom(s, sep, start);
    if k == -1 then [s[start..]] else [s[start..k]] + SplitFrom(s, sep, k + |sep|)
  }

  /** The generator's loop: search from `start`, yield the piece before the match, resume after it. */
  method ISplit(s: string, sep: string) returns (pieces: seq<string>)
    requires |sep| > 0
    ensures pieces == SplitFrom(s, sep, 0)
  {
    pieces := [];
    var start := 0;
    while true
      invariant start <= |s|
      invariant pieces + SplitFrom(s, sep, start) == SplitFrom(s, sep, 0)
      decreases |s| - start
    {
      var index := FindFrom(s, sep, start);
      if index > -1 {
        SplitStep(s, sep, start, index, pieces);
        pieces := pieces + [s[start..index]];
        start := start + (index - start) + |sep|;
        assert start == index + |sep|;
      } else {
        SplitLast(s, sep, start);
        break;
      }
    }
    pieces := pieces + [s[start..]];
  }

  /** Taking the piece before the next separator keeps what is still to come. */
  lemma SplitStep(s: string, sep: string, start: nat, k: int, pieces: seq<string>)
    requires |sep| > 0 && start <= |s| && k == FindFrom(s, sep, start) && k > -1
    ensures start <= k && k + |sep| <= |s|
    ensures pieces + SplitFrom(s, sep, start) == (pieces + [s[start..k]]) + SplitFrom(s, sep, k + |sep|)
  {
    SplitUnfold(s, sep, start);
    Text.AppendAssoc(pieces, [s[start..k]], SplitFrom(s, sep, k + |sep|));
  }

  lemma SplitUnfold(s: string, sep: string, start: nat)
    requires |sep| > 0 && start <= |s| && FindFrom(s, sep, start) > -1
    ensures var k := FindFrom(s, sep, start);
      SplitFrom(s, sep, start) == [s[start..k]] + SplitFrom(s, sep, k + |sep|)
  {
  }

  /** With no separator left, the rest is the last piece. */
  lemma SplitLast(s: string, sep: string, start: nat)
    requires |sep| > 0 && start <= |s| && FindFrom(s, sep, start) == -1
    ensures SplitFrom(s, sep, start) == [s[start..]]
  {
  }

  /** Joining the pieces with the separator gives the string back. */
  lemma {:induction false} JoinSplit(s: string, sep: string, start: nat)
    requires |sep| > 0 && start <= |s|
    ensures Text.Join(SplitFrom(s, sep, start), sep) == s[start..]
    decreases |s| - start
  {
    var k := FindFrom(s, sep, start);
    if k != -1 {
      JoinSplit(s, sep, k + |sep|);
      assert s[start..] == s[start..k] + sep + s[k + |sep|..];
    }
  }

  /** No piece contains the separator. */
  lemma {:induction false} PiecesFree(s: string, sep: string, start: nat)
    requires |sep| > 0 && start <= |s|
    ensures forall i | 0 <= i < |SplitFrom(s, sep, start)| :: !Text.Contains(SplitFrom(s, sep, start)[i], sep)
    decreases |s| - start
  {
    var k := FindFrom(s, sep, start);
    FirstPieceFree(s, sep, start);
    if k == -1 {
      SplitLast(s, sep, start);
      assert s[start..|s|] == s[start..];
    } else {
      PiecesFree(s, sep, k + |sep|);
      SplitUnfold(s, sep, start);
      ConsFree(s[start..k], SplitFrom(s, sep, k + |sep|), sep);
    }
  }

  lemma ConsFree(piece: string, rest: seq<string>, sep: string)
    requires !Text.Contains(piece, sep)
    requires forall i | 0 <= i < |rest| :: !Text.Contains(rest[i], sep)
    ensures forall i | 0 <= i < |[piece] + rest| :: !Text.Contains(([piece] + rest)[i], sep)
  {
    var r := [piece] + rest;
    forall i | 0 <= i < |r| ensures !Text.Contains(r[i], sep) {
      if i > 0 {
        assert r[i] == rest[i - 1];
      }
    }
  }

  /** The piece before the first separator from `start` (or the whole rest) holds no separator. */
  lemma FirstPieceFree(s: string, sep: string, start: nat)
    requires |sep| > 0 && start <= |s|
    ensures var k := FindFrom(s, sep, start);
      !Text.Contains(s[start..if k == -1 then |s| else k], sep)
  {
    var k := FindFrom(s, sep, start);
    var end := if k == -1 then |s| else k;
    var piece := s[start..end];
    forall j | 0 <= j <= |piece| && Text.OccursAt(piece, sep, j)
      ensures start + j < end && Text.OccursAt(s, sep, start + j)
    {
      OccursInSlice(s, sep, start, end, j);
    }
  }

  /** An occurrence inside a slice is an occurrence in the whole string. */
  lemma OccursInSlice(s: string, sub: string, lo: nat, hi: nat, j: nat)
    requires lo <= hi <= |s| && Text.OccursAt(s[lo..hi], sub, j)
    ensures Text.OccursAt(s, sub, lo + j)
  {
    var piece := s[lo..hi];
    assert j + |sub| <= hi - lo;
    forall i | 0 <= i < |sub| ensures s[lo + j + i] == sub[i] {
      assert piece[j..j + |sub|][i] == sub[i];
      assert piece[j + i] == s[lo + j + i];
    }
    assert s[lo + j..lo + j + |sub|] == sub;
  }

  /**
   * The number of leftmost non-overlapping occurrences of `sep` from `start`, counted
   * position by position: a match is counted and skipped over whole, a mismatch moves on by one.
   */
  function Occurrences(s: string, sep: string, start: nat): nat
    requires |sep| > 0 && start <= |s|
    decreases |s| - start
  {
    if start + |sep| > |s| then 0
    else if Text.OccursAt(s, sep, start) then 1 + Occurrences(s, sep, start + |sep|)
    else Occurrences(s, sep, start + 1)
  }

  /** Positions without a match contribute nothing to the count. */
  lemma {:induction false} SkipUnmatched(s: string, sep: string, start: nat, k: nat)
    requires |sep| > 0 && start <= k <= |s|
    requires forall j | start <= j < k :: !Text.OccursAt(s, sep, j)
    ensures Occurrences(s, sep, start) == Occurrences(s, sep, k)
    decreases k - start
  {
    if start < k && start + |sep| <= |s| {
      assert !Text.OccursAt(s, sep, start);
      SkipUnmatched(s, sep, start + 1, k);
    }
  }

  /** There is one piece more than there are separators. */
  lemma {:induction false} PiecesCount(s: string, sep: string, start: nat)
    requires |sep| > 0 && start <= |s|
    ensures |SplitFrom(s, sep, start)| == Occurrences(s, sep, start) + 1
    decreases |s| - start
  {
    var k := FindFrom(s, sep, start);
    if k == -1 {
      SkipUnmatched(s, sep, start, |s|);
    } else {
      SkipUnmatched(s, sep, start, k);
      PiecesCount(s, sep, k + |sep|);
    }
  }

  /** The whole-string statement of the facts for `isplit(string, sep)`. */
  lemma ISplitSpec(s: string, sep: string)
    requires |sep| > 0
    ensures Text.Join(SplitFrom(s, sep, 0), sep) == s
    ensures forall i | 0 <= i < |SplitFrom(s, sep, 0)| :: !Text.Contains(SplitFrom(s, sep, 0)[i], sep)
    ensures |SplitFrom(s, sep, 0)| == Occurrences(s, sep, 0) + 1
  {
    JoinSplit(s, sep, 0);
    PiecesFree(s, sep, 0);
    PiecesCount(s, sep, 0);
    assert s[0..] == s;
  }
}
