/** Patch-mode aggregation (src/main.py:204-213): every piece of the split
    patch that is not blank becomes one markdown block, headed by the file
    name taken from the piece and holding the stripped piece in a `diff`
    fence; the blocks are joined in the order the pieces appear. */
module PatchAggregation {
  import opened Sequences
  import opened Text
  import opened DiffSegmenter
  import opened DiffHeader

  /** The markdown block of one piece: a file heading, then the body in a `diff` fence. */
  function DiffBlock(name: string, body: string): string {
    "\n### File: " + name + "\n```diff\n" + body + "```\n"
  }

  /** The piece holds something other than whitespace, so it gets a block. */
  predicate HasContent(piece: string) {
    Strip(piece) != ""
  }

  /** The block a non-blank piece contributes. */
  function PieceBlock(piece: string): string {
    DiffBlock(FileName(piece), Strip(piece))
  }

  /** Reference description of the aggregation: one block per non-blank
      piece, in the order of the pieces. */
  function Blocks(pieces: seq<string>): (blocks: seq<string>)
    ensures |blocks| <= |pieces|
  {
    Map(Select(pieces, HasContent), PieceBlock)
  }

  /** Appending one piece appends its block, if it has one. */
  lemma BlocksSnoc(pieces: seq<string>, piece: string)
    ensures Blocks(pieces + [piece]) ==
            Blocks(pieces) + (if HasContent(piece) then [PieceBlock(piece)] else [])
  {
    SelectAppend(pieces, [piece], HasContent);
    MapAppend(Select(pieces, HasContent), Select([piece], HasContent), PieceBlock);
  }

  /** The aggregation is compositional: the blocks of `a + b` are those of
      `a` followed by those of `b`, so no block is merged, reordered or dropped. */
  lemma BlocksAppend(a: seq<string>, b: seq<string>)
    ensures Blocks(a + b) == Blocks(a) + Blocks(b)
  {
    SelectAppend(a, b, HasContent);
    MapAppend(Select(a, HasContent), Select(b, HasContent), PieceBlock);
  }

  /** Blank pieces contribute nothing, and a non-blank piece contributes
      exactly its own block. */
  lemma BlockOfOnePiece(piece: string)
    ensures Blocks([piece]) == if AllSpace(piece) then [] else [PieceBlock(piece)]
  {
    StripEmptyIffAllSpace(piece);
    assert [piece][1..] == [];
  }

  /** One iteration of the aggregation loop extends the joined blocks of
      the pieces seen so far by the block of the next piece, if it has one. */
  lemma CombineStep(pieces: seq<string>, i: nat)
    requires i < |pieces|
    ensures Concat(Blocks(pieces[..i + 1])) ==
            Concat(Blocks(pieces[..i])) + (if HasContent(pieces[i]) then PieceBlock(pieces[i]) else "")
  {
    assert pieces[..i + 1] == pieces[..i] + [pieces[i]];
    JoinSelectedSnoc(pieces[..i], pieces[i], HasContent, PieceBlock);
  }

  /** The loop of src/main.py:206-213: starting from the empty text, append
      the block of each non-blank piece, in order. */
  method CombinePieces(pieces: seq<string>) returns (combined: string)
    ensures combined == Concat(Blocks(pieces))
  {
    combined := "";
    var i := 0;
    while i < |pieces|
      invariant 0 <= i <= |pieces|
      invariant combined == Concat(Blocks(pieces[..i]))
    {
      var piece := pieces[i];
      CombineStep(pieces, i);
      if Strip(piece) != "" {
        combined := combined + DiffBlock(FileName(piece), Strip(piece));
      }
      i := i + 1;
    }
    assert pieces[..i] == pieces;
  }

  /** Split the patch (src/main.py:204), then aggregate its pieces. */
  method CombineDiff(patch: string) returns (combined: string)
    ensures combined == Concat(Blocks(Split(patch)))
  {
    var pieces := Split(patch);
    combined := CombinePieces(pieces);
  }

  /** The aggregated patch content, as a value. */
  function PatchContent(patch: string): string {
    Concat(Blocks(Split(patch)))
  }

  /** A line where the file-name pattern matches starts with the split marker. */
  lemma MatchStartsWithMarker(piece: string, p: int)
    requires MatchesAt(piece, p)
    ensures p + |Marker| <= |piece| && piece[p..p + |Marker|] == Marker
  {
    var line := LineAt(piece, p);
    var i :| SeparatorAt(line, i);
    assert line[..|HeaderPrefix|] == HeaderPrefix;
    assert piece[p..p + |Marker|] == line[..|Marker|];
  }

  /** A matching line inside a piece of `s` is a place where the split
      pattern matches in `s` itself. */
  lemma MatchIsHeader(s: string, off: nat, piece: string, p: int)
    requires off + |piece| <= |s| && s[off..off + |piece|] == piece
    requires p > 0 || off == 0
    ensures MatchesAt(piece, p) ==> p < |piece| && IsHeaderAt(s, off + p)
  {
    if MatchesAt(piece, p) {
      MatchStartsWithMarker(piece, p);
      SliceOfSlice(s, off, piece, p, p + |Marker|);
      if p > 0 {
        assert s[off + p - 1] == piece[p - 1];
      }
    }
  }

  /** Which name each piece of the split gets: the first piece never
      contains a matching header line, so it is always "Unknown file"; any
      other piece is named by its first line alone, because a later header
      line would have started a new piece. */
  lemma PieceNames(s: string, k: nat)
    requires k < |Split(s)|
    ensures var piece := Split(s)[k];
      FileName(piece) ==
        if k > 0 && MatchLine(LineAt(piece, 0)).Some? then MatchLine(LineAt(piece, 0)).value
        else UnknownFile
  {
    var segs := Split(s);
    var piece := segs[k];
    var off := Offset(segs, k);
    PiecesStartAtHeaders(s, k);
    FileNameIsFirstMatch(piece);
    forall p | k == 0 || p > 0
      ensures !MatchesAt(piece, p)
    {
      MatchIsHeader(s, off, piece, p);
    }
    if k > 0 && MatchesAt(piece, 0) {
      assert IsFirstMatch(piece, 0, 0);
    }
  }

  /** A patch without any per-file header line is one piece named
      "Unknown file": it yields one block holding the whole stripped patch,
      or nothing when the patch is only whitespace. */
  lemma NoHeaderPatch(s: string)
    requires NoHeaderIn(s, 0, |s|)
    ensures PatchContent(s) == if AllSpace(s) then "" else DiffBlock(UnknownFile, Strip(s))
  {
    NoHeaderOnePiece(s);
    BlockOfOnePiece(s);
    PieceNames(s, 0);
  }
}
