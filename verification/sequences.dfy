/** Generic facts about sequences used by every stage of the review pipeline:
    order-preserving selection (a list comprehension with an `if`), counting,
    flattening a list of strings, and the subsequence relation. */
module Sequences {

  /** `a` can be obtained from `b` by deleting elements, without reordering. */
  ghost predicate IsSubsequence<T>(a: seq<T>, b: seq<T>)
    decreases |b|
  {
    |a| == 0 ||
    (|b| > 0 && (IsSubsequence(a, b[1..]) || (a[0] == b[0] && IsSubsequence(a[1..], b[1..]))))
  }

  /** `[x for x in s if keep(x)]`. */
  function Select<T(==)>(s: seq<T>, keep: T -> bool): (r: seq<T>)
    ensures |r| <= |s|
    ensures forall i :: 0 <= i < |r| ==> keep(r[i]) && r[i] in s
  {
    if |s| == 0 then []
    else if keep(s[0]) then [s[0]] + Select(s[1..], keep)
    else Select(s[1..], keep)
  }

  /** Nothing that passes is dropped. */
  lemma {:induction false} SelectKeeps<T>(s: seq<T>, keep: T -> bool)
    ensures forall i :: 0 <= i < |s| && keep(s[i]) ==> s[i] in Select(s, keep)
    decreases |s|
  {
    if |s| > 0 {
      SelectKeeps(s[1..], keep);
      assert forall i :: 1 <= i < |s| ==> s[i] == s[1..][i - 1];
    }
  }

  /** Selection distributes over concatenation: the kept elements of `a + b`
      are those of `a` followed by those of `b`. */
  lemma {:induction false} SelectAppend<T>(a: seq<T>, b: seq<T>, keep: T -> bool)
    ensures Select(a + b, keep) == Select(a, keep) + Select(b, keep)
    decreases |a|
  {
    if |a| == 0 {
      assert a + b == b;
    } else {
      assert (a + b)[0] == a[0];
      assert (a + b)[1..] == a[1..] + b;
      SelectAppend(a[1..], b, keep);
    }
  }

  /** Whatever is selected is a subsequence of the input: selection never
      invents, duplicates or reorders elements. */
  lemma {:induction false} SelectIsSubsequence<T>(s: seq<T>, keep: T -> bool)
    ensures IsSubsequence(Select(s, keep), s)
    decreases |s|
  {
    if |s| > 0 {
      SelectIsSubsequence(s[1..], keep);
      if keep(s[0]) {
        var r := Select(s, keep);
        assert r[0] == s[0] && r[1..] == Select(s[1..], keep);
      }
    }
  }

  /** Selecting twice with two predicates is selecting once with their conjunction. */
  lemma {:induction false} SelectSelect<T>(s: seq<T>, p: T -> bool, q: T -> bool)
    ensures Select(Select(s, p), q) == Select(s, x => p(x) && q(x))
    decreases |s|
  {
    if |s| > 0 {
      SelectSelect(s[1..], p, q);
      if p(s[0]) {
        var r := Select(s, p);
        assert r[0] == s[0] && r[1..] == Select(s[1..], p);
      }
    }
  }

  /** Selecting with two predicates that agree on every element gives the same result. */
  lemma {:induction false} SelectSame<T>(s: seq<T>, p: T -> bool, q: T -> bool)
    requires forall i :: 0 <= i < |s| ==> p(s[i]) == q(s[i])
    ensures Select(s, p) == Select(s, q)
    decreases |s|
  {
    if |s| > 0 {
      SelectSame(s[1..], p, q);
    }
  }

  /** Selecting with a predicate that every element satisfies changes nothing. */
  lemma {:induction false} SelectAll<T>(s: seq<T>, keep: T -> bool)
    requires forall i :: 0 <= i < |s| ==> keep(s[i])
    ensures Select(s, keep) == s
    decreases |s|
  {
    if |s| > 0 {
      SelectAll(s[1..], keep);
    }
  }

  /** Selecting with a predicate that no element satisfies gives nothing. */
  lemma {:induction false} SelectNone<T>(s: seq<T>, keep: T -> bool)
    requires forall i :: 0 <= i < |s| ==> !keep(s[i])
    ensures Select(s, keep) == []
    decreases |s|
  {
    if |s| > 0 {
      SelectNone(s[1..], keep);
    }
  }

  /** A non-empty sequence is its head followed by its tail. */
  lemma HeadTail<T>(s: seq<T>, x: T, r: seq<T>)
    requires |s| > 0 && s[0] == x && s[1..] == r
    ensures s == [x] + r
  {
    assert s == [s[0]] + s[1..];
  }

  /** A one-element sequence is the singleton of its element. */
  lemma Singleton<T>(s: seq<T>, x: T)
    requires |s| == 1 && s[0] == x
    ensures s == [x]
  {
    assert s == [s[0]];
  }

  /** Regrouping a trace built by prepending one element to a three-part concatenation. */
  lemma PrependRegroup<T>(x: T, y: T, m: seq<T>, r: seq<T>)
    ensures [x] + ([y] + m + r) == [x, y] + m + r
  {
    assert [x] + ([y] + m + r) == [x, y] + m + r;
  }

  /** A slice of a slice of `s` is a slice of `s`. */
  lemma SliceOfSlice<T>(s: seq<T>, off: nat, part: seq<T>, i: nat, j: nat)
    requires off + |part| <= |s| && s[off..off + |part|] == part
    requires i <= j <= |part|
    ensures s[off + i..off + j] == part[i..j]
  {
    assert forall k :: 0 <= k < j - i ==> part[i..j][k] == s[off + i + k];
    assert s[off + i..off + j] == part[i..j];
  }

  /** The middle part of a three-part concatenation is found at its offset. */
  lemma MiddleSlice<T>(a: seq<T>, b: seq<T>, c: seq<T>)
    ensures |a| + |b| <= |a + b + c|
    ensures (a + b + c)[|a|..|a| + |b|] == b
  {
    assert (a + b + c)[|a|..|a| + |b|] == b;
  }

  /** `[f(x) for x in s]`. */
  function Map<T, U>(s: seq<T>, f: T -> U): (r: seq<U>)
    ensures |r| == |s|
    ensures forall i :: 0 <= i < |s| ==> r[i] == f(s[i])
  {
    if |s| == 0 then [] else [f(s[0])] + Map(s[1..], f)
  }

  lemma {:induction false} MapAppend<T, U>(a: seq<T>, b: seq<T>, f: T -> U)
    ensures Map(a + b, f) == Map(a, f) + Map(b, f)
    decreases |a|
  {
    if |a| == 0 {
      assert a + b == b;
    } else {
      assert (a + b)[0] == a[0];
      assert (a + b)[1..] == a[1..] + b;
      MapAppend(a[1..], b, f);
    }
  }

  /** Left-to-right accumulation: starting from the empty text, append
      `f(x)` for each element `x` of `s` in turn. */
  function JoinLeft<T>(s: seq<T>, f: T -> string): (r: string)
    ensures |s| == 0 ==> r == ""
    decreases |s|
  {
    if |s| == 0 then "" else JoinLeft(s[..|s| - 1], f) + f(s[|s| - 1])
  }

  /** Accumulating with two functions that agree on every element of `s`
      gives the same text. */
  lemma {:induction false} JoinLeftSame<T>(s: seq<T>, f: T -> string, g: T -> string)
    requires forall i :: 0 <= i < |s| ==> f(s[i]) == g(s[i])
    ensures JoinLeft(s, f) == JoinLeft(s, g)
    decreases |s|
  {
    if |s| > 0 {
      JoinLeftSame(s[..|s| - 1], f, g);
    }
  }

  /** When the elements that `keep` rejects add nothing, accumulating over
      all of `s` gives the join of the images of the kept elements. */
  lemma {:induction false} JoinLeftSelect<T>(s: seq<T>, keep: T -> bool, f: T -> string)
    requires forall i :: 0 <= i < |s| && !keep(s[i]) ==> f(s[i]) == ""
    ensures JoinLeft(s, f) == Concat(Map(Select(s, keep), f))
    decreases |s|
  {
    if |s| > 0 {
      var init := s[..|s| - 1];
      var x := s[|s| - 1];
      JoinLeftSelect(init, keep, f);
      assert init + [x] == s;
      JoinSelectedSnoc(init, x, keep, f);
    }
  }

  /** Appending one element to the input of a select-map-join pipeline
      appends that element's image, if it is kept, to the output. */
  lemma JoinSelectedSnoc<T>(s: seq<T>, x: T, keep: T -> bool, f: T -> string)
    ensures Concat(Map(Select(s + [x], keep), f)) ==
            Concat(Map(Select(s, keep), f)) + (if keep(x) then f(x) else "")
  {
    SelectAppend(s, [x], keep);
    assert [x][1..] == [];
    MapAppend(Select(s, keep), Select([x], keep), f);
    ConcatAppend(Map(Select(s, keep), f), Map(Select([x], keep), f));
  }

  /** Number of elements of `s` satisfying `p`. */
  function Count<T>(s: seq<T>, p: T -> bool): (n: nat)
    ensures n <= |s|
    ensures n == 0 <==> forall i :: 0 <= i < |s| ==> !p(s[i])
  {
    if |s| == 0 then 0
    else (if p(s[0]) then 1 else 0) + Count(s[1..], p)
  }

  lemma {:induction false} CountAppend<T>(a: seq<T>, b: seq<T>, p: T -> bool)
    ensures Count(a + b, p) == Count(a, p) + Count(b, p)
    decreases |a|
  {
    if |a| == 0 {
      assert a + b == b;
    } else {
      assert (a + b)[0] == a[0];
      assert (a + b)[1..] == a[1..] + b;
      CountAppend(a[1..], b, p);
    }
  }

  /** `"".join(parts)`. */
  function Concat(parts: seq<string>): (r: string)
    ensures |parts| == 1 ==> r == parts[0]
  {
    if |parts| == 0 then "" else parts[0] + Concat(parts[1..])
  }

  lemma {:induction false} ConcatAppend(a: seq<string>, b: seq<string>)
    ensures Concat(a + b) == Concat(a) + Concat(b)
    decreases |a|
  {
    if |a| == 0 {
      assert a + b == b;
    } else {
      assert (a + b)[0] == a[0];
      assert (a + b)[1..] == a[1..] + b;
      ConcatAppend(a[1..], b);
    }
  }

  /** Position at which part `k` starts inside `Concat(parts)`. */
  function Offset(parts: seq<string>, k: nat): nat
    requires k <= |parts|
  {
    |Concat(parts[..k])|
  }

  lemma OffsetCons(x: string, rest: seq<string>, k: nat)
    requires k <= |rest|
    ensures Offset([x] + rest, k + 1) == |x| + Offset(rest, k)
  {
    assert ([x] + rest)[..k + 1] == [x] + rest[..k];
    assert ([x] + rest[..k])[1..] == rest[..k];
  }

  /** Part `k` occupies `[Offset(parts, k), Offset(parts, k) + |parts[k]|)` of the concatenation. */
  lemma {:induction false} OffsetSlice(parts: seq<string>, k: nat)
    requires k < |parts|
    ensures Offset(parts, k) + |parts[k]| <= |Concat(parts)|
    ensures Concat(parts)[Offset(parts, k)..Offset(parts, k) + |parts[k]|] == parts[k]
  {
    assert parts == parts[..k] + [parts[k]] + parts[k + 1..];
    ConcatAppend(parts[..k] + [parts[k]], parts[k + 1..]);
    ConcatAppend(parts[..k], [parts[k]]);
  }

  lemma OffsetNext(parts: seq<string>, k: nat)
    requires k < |parts|
    ensures Offset(parts, k + 1) == Offset(parts, k) + |parts[k]|
  {
    assert parts[..k + 1] == parts[..k] + [parts[k]];
    ConcatAppend(parts[..k], [parts[k]]);
  }

  /** The last part ends where the concatenation ends. */
  lemma OffsetLast(parts: seq<string>)
    requires |parts| > 0
    ensures Offset(parts, |parts| - 1) + |parts[|parts| - 1]| == |Concat(parts)|
  {
    OffsetNext(parts, |parts| - 1);
    assert parts[..|parts|] == parts;
  }
}
