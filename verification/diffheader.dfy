/** File-name extraction from one diff piece (src/main.py:210-211): a
    multi-line search for the pattern `^diff --git a\/.+ b\/(.+)`; the name is
    the captured group, or "Unknown file" when no line matches.

    The regular expression is stated here by what it accepts. `^` matches at
    a line start, `.` matches any character except a newline, and the first
    `.+` is greedy, so on a matching line the captured name is the rest of the
    line after the LAST ` b/` that leaves at least one character on either
    side. The search reports the first line (from the top) that matches. */
module DiffHeader {
  import opened Text
  import opened Options

  /** The fixed text the pattern requires at the start of the line. */
  const HeaderPrefix := "diff --git a/"

  /** The separator before the captured destination path. */
  const DestSeparator := " b/"

  /** The name used when no line of the piece matches. */
  const UnknownFile := "Unknown file"

  /** `line` (which holds no newline) matches the pattern with the separator
      ` b/` at index `i`: the line starts with `diff --git a/`, at least one
      character lies between that prefix and the separator, and at least one
      character follows the separator. */
  predicate SeparatorAt(line: string, i: int) {
    && StartsWith(line, HeaderPrefix)
    && |HeaderPrefix| < i
    && i + |DestSeparator| < |line|
    && line[i..i + |DestSeparator|] == DestSeparator
  }

  /** The greatest separator index at or below `i`, or -1 when there is none. */
  function LastSeparator(line: string, i: int): (j: int)
    requires i < |line|
    ensures j == -1 || (j <= i && SeparatorAt(line, j))
    ensures forall q :: j < q <= i ==> !SeparatorAt(line, q)
    decreases i
  {
    if i <= |HeaderPrefix| then -1
    else if SeparatorAt(line, i) then i
    else LastSeparator(line, i - 1)
  }

  /** The pattern matches at the start of `line`. */
  ghost predicate LineMatches(line: string) {
    exists i :: SeparatorAt(line, i)
  }

  /** The captured group when the pattern matches at the start of `line`. */
  function MatchLine(line: string): (r: Option<string>)
    ensures r.Some? <==> LineMatches(line)
    ensures r.Some? ==>
      exists i :: SeparatorAt(line, i) && r.value == line[i + |DestSeparator|..]
                  && forall q :: SeparatorAt(line, q) ==> q <= i
    ensures r.Some? ==> r.value != [] && EndsWith(line, r.value)
    ensures r.Some? && '\n' !in line ==> '\n' !in r.value
  {
    var j := LastSeparator(line, |line| - 1);
    if j < 0 then None else Some(line[j + |DestSeparator|..])
  }

  /** `i` is where `^` matches in MULTILINE mode. */
  predicate LineStart(s: string, i: int) {
    0 <= i <= |s| && (i == 0 || s[i - 1] == '\n')
  }

  /** The end of the line that contains index `i`: the next newline or the end of `s`. */
  function LineEnd(s: string, i: nat): (j: nat)
    requires i <= |s|
    ensures i <= j <= |s|
    ensures j < |s| ==> s[j] == '\n'
    ensures forall q :: i <= q < j ==> s[q] != '\n'
    decreases |s| - i
  {
    if i == |s| || s[i] == '\n' then i else LineEnd(s, i + 1)
  }

  /** The text `.` can range over from line start `i`. */
  function LineAt(s: string, i: nat): (line: string)
    requires i <= |s|
    ensures '\n' !in line
  {
    s[i..LineEnd(s, i)]
  }

  /** The pattern matches at line start `p` of `s`. */
  ghost predicate MatchesAt(s: string, p: int) {
    LineStart(s, p) && LineMatches(LineAt(s, p))
  }

  /** `p` is the first line start at or after `i` where the pattern matches. */
  ghost predicate IsFirstMatch(s: string, i: int, p: int) {
    i <= p && MatchesAt(s, p) && forall q :: i <= q < p ==> !MatchesAt(s, q)
  }

  /** Between a line start and the end of its line there is no other line start. */
  lemma SkipLine(s: string, i: nat)
    requires LineStart(s, i)
    ensures forall q :: i < q <= LineEnd(s, i) ==> !LineStart(s, q)
    ensures LineEnd(s, i) < |s| ==> LineStart(s, LineEnd(s, i) + 1)
  {
  }

  /** If the pattern matches somewhere at or after `i`, there is a first such line. */
  lemma {:induction false} FirstMatchExists(s: string, i: int, p: int)
    requires i <= p && MatchesAt(s, p)
    ensures exists f :: IsFirstMatch(s, i, f)
    decreases p - i
  {
    if forall q :: i <= q < p ==> !MatchesAt(s, q) {
      assert IsFirstMatch(s, i, p);
    } else {
      var q :| i <= q < p && MatchesAt(s, q);
      FirstMatchExists(s, i, q);
    }
  }

  /** A line that does not match can be skipped: the first match from `i`
      is the first match from the next line start. */
  lemma SkipUnmatchedLine(s: string, i: nat)
    requires LineStart(s, i) && !MatchesAt(s, i) && LineEnd(s, i) < |s|
    ensures LineStart(s, LineEnd(s, i) + 1)
    ensures forall p :: IsFirstMatch(s, i, p) <==> IsFirstMatch(s, LineEnd(s, i) + 1, p)
    ensures (forall p :: i <= p ==> !MatchesAt(s, p)) <==> (forall p :: LineEnd(s, i) + 1 <= p ==> !MatchesAt(s, p))
  {
    SkipLine(s, i);
  }

  /** After a last line that does not match, nothing matches. */
  lemma NoMatchAfterLastLine(s: string, i: nat)
    requires LineStart(s, i) && !MatchesAt(s, i) && LineEnd(s, i) == |s|
    ensures forall p :: i <= p ==> !MatchesAt(s, p)
  {
    SkipLine(s, i);
  }

  /** The name the search yields scanning lines from line start `i` on: the
      group of the first matching line, or the fallback when none matches. */
  function NameFrom(s: string, i: nat): (name: string)
    requires LineStart(s, i)
    ensures name != [] && '\n' !in name
    decreases |s| - i
  {
    var m := MatchLine(LineAt(s, i));
    if m.Some? then m.value
    else if LineEnd(s, i) == |s| then UnknownFile
    else NameFrom(s, LineEnd(s, i) + 1)
  }

  /** `NameFrom` is the search: it yields the group of the first matching
      line at or after `i`, and the fallback when no line there matches. */
  lemma {:induction false} NameFromIsFirstMatch(s: string, i: nat)
    requires LineStart(s, i)
    ensures forall p :: IsFirstMatch(s, i, p) ==> NameFrom(s, i) == MatchLine(LineAt(s, p)).value
    ensures (forall p :: i <= p ==> !MatchesAt(s, p)) ==> NameFrom(s, i) == UnknownFile
    decreases |s| - i
  {
    if MatchLine(LineAt(s, i)).Some? {
      assert IsFirstMatch(s, i, i);
    } else if LineEnd(s, i) == |s| {
      NoMatchAfterLastLine(s, i);
    } else {
      SkipUnmatchedLine(s, i);
      NameFromIsFirstMatch(s, LineEnd(s, i) + 1);
    }
  }

  /** The name of a piece: the group captured on its first matching line, or the fallback. */
  function FileName(diffText: string): (name: string)
    ensures name != [] && '\n' !in name
  {
    NameFrom(diffText, 0)
  }

  /** The name of a piece is the group of its first matching line, and
      "Unknown file" when no line matches. */
  lemma FileNameIsFirstMatch(diffText: string)
    ensures forall p :: IsFirstMatch(diffText, 0, p) ==> FileName(diffText) == MatchLine(LineAt(diffText, p)).value
    ensures (forall p :: !MatchesAt(diffText, p)) ==> FileName(diffText) == UnknownFile
  {
    NameFromIsFirstMatch(diffText, 0);
  }
}
