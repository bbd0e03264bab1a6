/** The diff segmenter (src/main.py:204): a regular-expression split of the
    patch on the lookahead `(?=^diff --git )` in multi-line mode. The pattern is a zero-width lookahead, so the split keeps
    every character: each cut falls just before a line that starts with the
    per-file header, and the header stays at the front of the following piece.
    As in Python 3.7 and later, a match at position 0 yields a leading empty piece. */
module DiffSegmenter {
  import opened Sequences
  import opened Text

  /** The text the lookahead looks for at the start of a line. */
  const Marker := "diff --git "

  /** The lookahead `(?=^diff --git )` matches at position `i` of `s`:
      `i` is a line start (the string start or just after a newline)
      and the marker follows. */
  predicate IsHeaderAt(s: string, i: int) {
    0 <= i && i + |Marker| <= |s| && s[i..i + |Marker|] == Marker && (i == 0 || s[i - 1] == '\n')
  }

  /** No match at any position of `[lo, hi)`. */
  ghost predicate NoHeaderIn(s: string, lo: int, hi: int) {
    forall q :: lo <= q < hi ==> !IsHeaderAt(s, q)
  }

  /** `segs` are the pieces `re.split` produces from `s[start..]` when `start`
      is either 0 or a match: the first piece is the text from `start` up to
      some `e` with no match strictly inside it; then either the text ends at
      `e`, or a match sits at `e` and the remaining pieces (the first of them
      non-empty) split the text from `e` the same way. */
  ghost predicate IsSplitFrom(s: string, start: nat, segs: seq<string>)
    decreases |segs|
  {
    && start <= |s|
    && |segs| >= 1
    && start + |segs[0]| <= |s|
    && s[start..start + |segs[0]|] == segs[0]
    && NoHeaderIn(s, start + 1, start + |segs[0]|)
    && if |segs| == 1 then start + |segs[0]| == |s|
       else segs[1] != [] && IsHeaderAt(s, start + |segs[0]|)
            && IsSplitFrom(s, start + |segs[0]|, segs[1..])
  }

  /** The result of the lookahead split of the whole of `s`: a match at
      position 0 cuts off an empty first piece, so a non-empty first piece
      never starts at a match. */
  ghost predicate IsLookaheadSplit(s: string, segs: seq<string>) {
    IsSplitFrom(s, 0, segs) && (segs[0] != [] ==> !IsHeaderAt(s, 0))
  }

  /** The first match at or after `i`, or `|s|` when there is none. */
  function NextHeader(s: string, i: nat): (j: nat)
    requires i <= |s|
    ensures i <= j <= |s|
    ensures j < |s| ==> IsHeaderAt(s, j)
    ensures NoHeaderIn(s, i, j)
    ensures j == |s| ==> NoHeaderIn(s, i, |s| + 1)
    decreases |s| - i
  {
    if i == |s| || IsHeaderAt(s, i) then i else NextHeader(s, i + 1)
  }

  /** Splits `s[start..]` at every match strictly after `start`. */
  function SplitFrom(s: string, start: nat): (segs: seq<string>)
    requires start <= |s|
    ensures |segs| >= 1
    ensures start < |s| ==> segs[0] != []
    decreases |s| - start
  {
    if start == |s| then
      [""]
    else
      var j := NextHeader(s, start + 1);
      if j == |s| then [s[start..]] else [s[start..j]] + SplitFrom(s, j)
  }

  /** A piece that runs to the end of the text with no match inside it is a
      whole split on its own. */
  lemma SplitOfLastPiece(s: string, start: nat)
    requires start <= |s| && NoHeaderIn(s, start + 1, |s|)
    ensures IsSplitFrom(s, start, [s[start..]])
  {
  }

  /** A first piece ending at a match, followed by a split from that match
      whose first piece is non-empty, is a split. */
  lemma SplitOfFirstPiece(s: string, start: nat, first: string, rest: seq<string>)
    requires start + |first| <= |s| && s[start..start + |first|] == first
    requires NoHeaderIn(s, start + 1, start + |first|) && IsHeaderAt(s, start + |first|)
    requires IsSplitFrom(s, start + |first|, rest) && rest[0] != []
    ensures IsSplitFrom(s, start, [first] + rest)
  {
    assert ([first] + rest)[1..] == rest;
  }

  /** `SplitFrom` meets the split conditions. */
  lemma {:induction false} SplitFromIsSplit(s: string, start: nat)
    requires start <= |s|
    ensures IsSplitFrom(s, start, SplitFrom(s, start))
    decreases |s| - start
  {
    if start < |s| {
      var j := NextHeader(s, start + 1);
      if j < |s| {
        SplitFromIsSplit(s, j);
        SplitFromStep(s, start);
        SplitOfFirstPiece(s, start, s[start..j], SplitFrom(s, j));
      } else {
        SplitOfLastPiece(s, start);
      }
    }
  }

  /** The lookahead split of the whole of `s`. */
  function Split(s: string): (segs: seq<string>)
    ensures IsLookaheadSplit(s, segs)
  {
    SplitFromIsSplit(s, 0);
    if IsHeaderAt(s, 0) then
      var rest := SplitFrom(s, 0);
      assert ([""] + rest)[1..] == rest;
      [""] + rest
    else
      SplitFrom(s, 0)
  }

  /** A split from `start` concatenates back to `s[start..]`. */
  lemma {:induction false} SplitFromConcat(s: string, start: nat, segs: seq<string>)
    requires IsSplitFrom(s, start, segs)
    ensures Concat(segs) == s[start..]
    decreases |segs|
  {
    var e := start + |segs[0]|;
    if |segs| > 1 {
      SplitFromConcat(s, e, segs[1..]);
      assert s[start..] == s[start..e] + s[e..];
    }
  }

  /** Lossless split: the pieces concatenate back to exactly the patch. */
  lemma SplitLossless(s: string)
    ensures Concat(Split(s)) == s
  {
    SplitFromConcat(s, 0, Split(s));
  }

  /** With a non-empty first piece, that piece reaches exactly to the next
      match after `start`, or to the end of the text when there is none. */
  lemma FirstPieceEnd(s: string, start: nat, segs: seq<string>)
    requires IsSplitFrom(s, start, segs)
    requires start < |s| && segs[0] != []
    ensures start + |segs[0]| == NextHeader(s, start + 1)
    ensures segs[0] == s[start..start + |segs[0]|]
  {
  }

  /** With a match after `start`, the computed split is the text up to that
      match followed by the split from the match. */
  lemma SplitFromStep(s: string, start: nat)
    requires start < |s| && NextHeader(s, start + 1) < |s|
    ensures var e := NextHeader(s, start + 1);
      SplitFrom(s, start) == [s[start..e]] + SplitFrom(s, e)
  {
  }

  /** After the first piece of a split with more than one piece, the
      remaining pieces split the rest of the text, starting with a non-empty one. */
  lemma SplitFromRest(s: string, start: nat, segs: seq<string>)
    requires IsSplitFrom(s, start, segs) && |segs| > 1
    ensures var e := start + |segs[0]|;
      e < |s| && IsSplitFrom(s, e, segs[1..]) && segs[1..][0] != []
  {
    assert IsHeaderAt(s, start + |segs[0]|);
  }

  /** From the end of the text, the only split is one empty piece. */
  lemma SplitAtEnd(s: string, segs: seq<string>)
    requires IsSplitFrom(s, |s|, segs)
    ensures segs == SplitFrom(s, |s|)
  {
    assert !IsHeaderAt(s, |s| + |segs[0]|);
    Singleton(segs, "");
  }

  /** A split whose non-empty first piece reaches the end of the text is that one piece. */
  lemma SplitLastPiece(s: string, start: nat, segs: seq<string>)
    requires IsSplitFrom(s, start, segs) && start < |s| && segs[0] != [] && |segs| == 1
    ensures segs == SplitFrom(s, start)
  {
    FirstPieceEnd(s, start, segs);
    assert segs[0] == s[start..];
    Singleton(segs, s[start..]);
  }

  /** A list whose first piece is the text from `start` up to the next match,
      and whose other pieces are the computed split from that match, is the
      computed split. */
  lemma SplitFirstPiece(s: string, start: nat, segs: seq<string>)
    requires start < |s| && |segs| > 1
    requires start + |segs[0]| == NextHeader(s, start + 1) < |s|
    requires segs[0] == s[start..start + |segs[0]|]
    requires segs[1..] == SplitFrom(s, start + |segs[0]|)
    ensures segs == SplitFrom(s, start)
  {
    SplitFromStep(s, start);
    HeadTail(segs, s[start..start + |segs[0]|], segs[1..]);
  }

  /** A split whose non-empty first piece is followed by the computed split
      from the end of that piece is the computed split. */
  lemma SplitFromCons(s: string, start: nat, segs: seq<string>)
    requires IsSplitFrom(s, start, segs) && start < |s| && segs[0] != [] && |segs| > 1
    requires segs[1..] == SplitFrom(s, start + |segs[0]|)
    ensures segs == SplitFrom(s, start)
  {
    SplitFromRest(s, start, segs);
    FirstPieceEnd(s, start, segs);
    SplitFirstPiece(s, start, segs);
  }

  /** Only one list of pieces satisfies the split conditions from `start`
      with a non-empty first piece, and `SplitFrom` computes it. */
  lemma {:induction false} SplitFromUnique(s: string, start: nat, segs: seq<string>)
    requires IsSplitFrom(s, start, segs)
    requires start < |s| ==> segs[0] != []
    ensures segs == SplitFrom(s, start)
    decreases |segs|
  {
    if start == |s| {
      SplitAtEnd(s, segs);
    } else if |segs| == 1 {
      SplitLastPiece(s, start, segs);
    } else {
      SplitFromRest(s, start, segs);
      SplitFromUnique(s, start + |segs[0]|, segs[1..]);
      SplitFromCons(s, start, segs);
    }
  }

  /** The split conditions determine the pieces: `Split` is the only list of
      pieces that satisfies them. */
  lemma {:induction false} LookaheadSplitUnique(s: string, segs: seq<string>)
    requires IsLookaheadSplit(s, segs)
    ensures segs == Split(s)
  {
    if IsHeaderAt(s, 0) {
      SplitFromUnique(s, 0, segs[1..]);
      assert segs == [""] + segs[1..];
    } else {
      SplitFromUnique(s, 0, segs);
    }
  }

  /** A patch without any per-file header is one piece holding the whole text. */
  lemma NoHeaderOnePiece(s: string)
    requires NoHeaderIn(s, 0, |s|)
    ensures Split(s) == [s]
  {
    LookaheadSplitUnique(s, [s]);
  }

  /** A piece that starts at a match begins with the whole marker: the next
      cut needs a newline before it, and the marker has none. */
  lemma PieceHoldsMarker(s: string, start: nat, segs: seq<string>)
    requires IsSplitFrom(s, start, segs) && IsHeaderAt(s, start) && segs[0] != []
    ensures StartsWith(segs[0], Marker)
  {
    var e := start + |segs[0]|;
    if |segs| > 1 {
      assert IsHeaderAt(s, e);
      assert s[e - 1] == '\n';
      assert forall i :: start <= i < start + |Marker| ==> s[i] == Marker[i - start];
    }
    assert segs[0][..|Marker|] == s[start..start + |Marker|];
  }

  /** Where piece `k` of a split from `start` lies in `s`, and what the split
      conditions say about it. */
  lemma {:induction false} PieceAt(s: string, start: nat, segs: seq<string>, k: nat)
    requires IsSplitFrom(s, start, segs) && k < |segs|
    ensures var off := start + Offset(segs, k);
      && off + |segs[k]| <= |s|
      && s[off..off + |segs[k]|] == segs[k]
      && NoHeaderIn(s, off + 1, off + |segs[k]|)
      && (k > 0 ==> IsHeaderAt(s, off) && StartsWith(segs[k], Marker))
    decreases k
  {
    if k > 0 {
      var e := start + |segs[0]|;
      var rest := segs[1..];
      PieceAt(s, e, rest, k - 1);
      assert [segs[0]] + rest == segs;
      OffsetCons(segs[0], rest, k - 1);
      assert start + Offset(segs, k) == e + Offset(rest, k - 1);
      assert segs[k] == rest[k - 1];
      if k == 1 {
        PieceHoldsMarker(s, e, rest);
      }
    }
  }

  /** Every piece after the first starts with `diff --git ` at a line start of
      the patch, and the first piece contains no such line start at all. */
  lemma PiecesStartAtHeaders(s: string, k: nat)
    requires k < |Split(s)|
    ensures var segs := Split(s);
      && Offset(segs, k) + |segs[k]| <= |s|
      && s[Offset(segs, k)..Offset(segs, k) + |segs[k]|] == segs[k]
      && (k == 0 ==> NoHeaderIn(s, 0, |segs[0]|))
      && (k > 0 ==> IsHeaderAt(s, Offset(segs, k)) && StartsWith(segs[k], Marker)
                    && NoHeaderIn(s, Offset(segs, k) + 1, Offset(segs, k) + |segs[k]|))
  {
    PieceAt(s, 0, Split(s), k);
  }
}
