/** Python list idioms over Dafny sequences: slicing with Python's stop
    semantics, flattening, and the subsequence relation used to state that a
    pipeline stage only drops elements. */
module Seqs {
  import opened Base

  /** Python's `s[:e]`: a negative stop counts from the end. */
  function SliceTo<T>(s: seq<T>, e: int): (r: seq<T>)
    ensures |r| <= |s| && r == s[..|r|]
    ensures e >= 0 ==> |r| == Min(e, |s|)
    ensures e < 0 ==> |r| == Max(0, |s| + e)
  {
    if e >= 0 then (if e <= |s| then s[..e] else s)
    else if -e <= |s| then s[..|s| + e]
    else []
  }

  /** Python's `s[b:]` for a non-negative start. */
  function Drop<T>(s: seq<T>, b: nat): (r: seq<T>)
    ensures |r| == Max(0, |s| - b)
    ensures b <= |s| ==> s == s[..b] + r
  {
    if b <= |s| then s[b..] else []
  }

  /** The elements of `xss` in order, as `[x for xs in xss for x in xs]`. */
  function Concat<T>(xss: seq<seq<T>>): seq<T>
  {
    if |xss| == 0 then [] else xss[0] + Concat(xss[1..])
  }

  /** `a` can be obtained from `b` by deleting elements. */
  predicate IsSubsequence<T(==)>(a: seq<T>, b: seq<T>)
    decreases |b|
  {
    if |a| == 0 then true
    else if |b| == 0 then false
    else (a[0] == b[0] && IsSubsequence(a[1..], b[1..])) || IsSubsequence(a, b[1..])
  }

  lemma {:induction false} SubsequenceOfPrefix<T>(a: seq<T>, b: seq<T>, n: nat)
    requires IsSubsequence(a, b)
    requires n <= |a|
    ensures IsSubsequence(a[..n], b)
    decreases |b|
  {
    if n == 0 {
    } else if a[0] == b[0] && IsSubsequence(a[1..], b[1..]) {
      SubsequenceOfPrefix(a[1..], b[1..], n - 1);
      assert a[..n][1..] == a[1..][..n - 1];
    } else {
      SubsequenceOfPrefix(a, b[1..], n);
    }
  }

  /** Every element of a subsequence occurs in the sequence it came from. */
  lemma {:induction false} SubsequenceElements<T>(a: seq<T>, b: seq<T>)
    requires IsSubsequence(a, b)
    ensures forall x :: x in a ==> x in b
    decreases |b|
  {
    if |a| == 0 {
    } else if a[0] == b[0] && IsSubsequence(a[1..], b[1..]) {
      SubsequenceElements(a[1..], b[1..]);
      assert forall x :: x in a ==> x == a[0] || x in a[1..];
    } else {
      SubsequenceElements(a, b[1..]);
    }
  }

  /** `[f(i, x) for i, x in enumerate(xs, first)]` */
  function Numbered<T, U>(xs: seq<T>, first: nat, f: (nat, T) -> U): (r: seq<U>)
    ensures |r| == |xs|
    ensures forall i :: 0 <= i < |xs| ==> r[i] == f(first + i, xs[i])
  {
    if |xs| == 0 then [] else [f(first, xs[0])] + Numbered(xs[1..], first + 1, f)
  }

  /** Numbering continues where it left off when one more element is appended. */
  lemma NumberedSnoc<T, U>(xs: seq<T>, x: T, first: nat, f: (nat, T) -> U)
    ensures Numbered(xs + [x], first, f) == Numbered(xs, first, f) + [f(first + |xs|, x)]
  {
    var b, c := Numbered(xs + [x], first, f), Numbered(xs, first, f) + [f(first + |xs|, x)];
    forall i | 0 <= i < |b| ensures b[i] == c[i] {
      if i < |xs| {
        assert (xs + [x])[i] == xs[i];
      }
    }
  }

  /** `[f(x) for x in xs]` */
  function MapSeq<T, U>(xs: seq<T>, f: T -> U): (r: seq<U>)
    ensures |r| == |xs|
    ensures forall i :: 0 <= i < |xs| ==> r[i] == f(xs[i])
  {
    if |xs| == 0 then [] else [f(xs[0])] + MapSeq(xs[1..], f)
  }
}
