/** Python's stable `list.sort(key=..., reverse=True)` on a list of keys,
    returned as the order in which the original positions come out.
    `reverse=True` keeps equal keys in their original order, so the result is
    fully determined: higher key first, and among equal keys the smaller
    original position first. */
module Ranking {

  /** Position `a` comes out before position `b`. */
  predicate Before(keys: seq<real>, a: nat, b: nat)
    requires a < |keys| && b < |keys|
  {
    keys[a] > keys[b] || (keys[a] == keys[b] && a < b)
  }

  predicate InRange(keys: seq<real>, s: seq<nat>)
  {
    forall i :: 0 <= i < |s| ==> s[i] < |keys|
  }

  /** `s` lists positions of `keys` in `Before` order (hence without repeats). */
  predicate Ranked(keys: seq<real>, s: seq<nat>)
  {
    && InRange(keys, s)
    && forall i, j :: 0 <= i < j < |s| ==> Before(keys, s[i], s[j])
  }

  /** A permutation of the positions `0 .. n-1`. */
  predicate PositionsBelow(s: seq<nat>, n: nat)
  {
    && |s| == n
    && (forall i :: 0 <= i < |s| ==> s[i] < n)
    && (forall y :: 0 <= y < n ==> y in s)
  }

  /** Where `x` goes: after every position whose key is at least `keys[x]`. */
  function InsertPos(keys: seq<real>, x: nat, s: seq<nat>): (p: nat)
    requires x < |keys| && InRange(keys, s)
    ensures p <= |s|
    ensures forall i :: 0 <= i < p ==> keys[s[i]] >= keys[x]
    ensures p < |s| ==> keys[s[p]] < keys[x]
  {
    if |s| == 0 || keys[s[0]] < keys[x] then 0
    else 1 + InsertPos(keys, x, s[1..])
  }

  /** Insert a position that is larger than every position already ranked. */
  function Insert(keys: seq<real>, x: nat, s: seq<nat>): (r: seq<nat>)
    requires x < |keys| && Ranked(keys, s)
    requires forall i :: 0 <= i < |s| ==> s[i] < x
    ensures Ranked(keys, r)
    ensures |r| == |s| + 1
    ensures forall y :: y in r <==> y == x || y in s
  {
    var p := InsertPos(keys, x, s);
    InsertKeepsRanked(keys, x, s, p);
    InsertMembers(x, s, p);
    s[..p] + [x] + s[p..]
  }

  /** The element at position `i` once `x` is spliced in at `p`. */
  function Spliced(s: seq<nat>, p: nat, x: nat, i: nat): nat
    requires p <= |s| && i <= |s|
  {
    if i < p then s[i] else if i == p then x else s[i - 1]
  }

  lemma InsertKeepsRanked(keys: seq<real>, x: nat, s: seq<nat>, p: nat)
    requires x < |keys| && Ranked(keys, s)
    requires forall i :: 0 <= i < |s| ==> s[i] < x
    requires p == InsertPos(keys, x, s)
    ensures Ranked(keys, s[..p] + [x] + s[p..])
  {
    var r := s[..p] + [x] + s[p..];
    assert forall i :: 0 <= i < |r| ==> r[i] == Spliced(s, p, x, i);
    forall i, j | 0 <= i < j < |r|
      ensures Before(keys, r[i], r[j])
    {
      InsertPair(keys, x, s, p, i, j);
    }
  }

  /** Any two places of the spliced sequence are in `Before` order. */
  lemma InsertPair(keys: seq<real>, x: nat, s: seq<nat>, p: nat, i: nat, j: nat)
    requires x < |keys| && Ranked(keys, s)
    requires forall i :: 0 <= i < |s| ==> s[i] < x
    requires p == InsertPos(keys, x, s)
    requires i < j <= |s|
    ensures Spliced(s, p, x, i) < |keys| && Spliced(s, p, x, j) < |keys|
    ensures Before(keys, Spliced(s, p, x, i), Spliced(s, p, x, j))
  {
    if j < p {
      assert Before(keys, s[i], s[j]);
    } else if j == p {
      assert keys[s[i]] >= keys[x] && s[i] < x;
    } else if i < p {
      assert Before(keys, s[i], s[j - 1]);
    } else if i == p {
      if j - 1 > p { assert Before(keys, s[p], s[j - 1]); }
      assert keys[s[j - 1]] < keys[x];
    } else {
      assert Before(keys, s[i - 1], s[j - 1]);
    }
  }

  lemma InsertMembers(x: nat, s: seq<nat>, p: nat)
    requires p <= |s|
    ensures forall y :: y in s[..p] + [x] + s[p..] <==> y == x || y in s
  {
    assert s == s[..p] + s[p..];
  }

  /** The ranking of the first `n` positions. */
  function RankPrefix(keys: seq<real>, n: nat): (r: seq<nat>)
    requires n <= |keys|
    ensures Ranked(keys, r)
    ensures PositionsBelow(r, n)
  {
    if n == 0 then []
    else Insert(keys, n - 1, RankPrefix(keys, n - 1))
  }

  /** The order in which a stable descending sort emits the positions of `keys`. */
  function Rank(keys: seq<real>): (r: seq<nat>)
    ensures Ranked(keys, r)
    ensures PositionsBelow(r, |keys|)
  {
    RankPrefix(keys, |keys|)
  }

  /** `Before`-ordered sequences hold no repeats. */
  lemma RankedDistinct(keys: seq<real>, s: seq<nat>, i: int, j: int)
    requires Ranked(keys, s)
    requires 0 <= i < |s| && 0 <= j < |s| && i != j
    ensures s[i] != s[j]
  {
    if i < j { assert Before(keys, s[i], s[j]); } else { assert Before(keys, s[j], s[i]); }
  }

  /** Two rankings of the same positions are the same sequence: `Ranked`
      alone specifies the sort, and `Rank` is its only solution. */
  lemma {:induction false} RankedUnique(keys: seq<real>, s: seq<nat>, t: seq<nat>)
    requires Ranked(keys, s) && Ranked(keys, t)
    requires forall y :: y in s <==> y in t
    ensures s == t
    decreases |s|
  {
    if |s| == 0 {
      if |t| > 0 { RankedHeads(keys, t, s); }
    } else {
      RankedHeads(keys, s, t);
      RankedTail(keys, s);
      RankedTail(keys, t);
      RankedUnique(keys, s[1..], t[1..]);
      assert s == [s[0]] + s[1..] && t == [t[0]] + t[1..];
    }
  }

  /** Two non-empty rankings of the same positions start alike: each head
      comes before every other member. */
  lemma RankedHeads(keys: seq<real>, s: seq<nat>, t: seq<nat>)
    requires Ranked(keys, s) && Ranked(keys, t)
    requires forall y :: y in s <==> y in t
    requires |s| > 0
    ensures |t| > 0 && s[0] == t[0]
  {
    assert s[0] in t;
    var j :| 0 <= j < |t| && t[j] == s[0];
    assert t[0] in s;
    var i :| 0 <= i < |s| && s[i] == t[0];
    if j > 0 && i > 0 {
      assert false;
    } else if j > 0 {
      RankedDistinct(keys, t, 0, j);
    } else if i > 0 {
      RankedDistinct(keys, s, 0, i);
    }
  }

  /** The tail of a ranking is a ranking of the other members. */
  lemma RankedTail(keys: seq<real>, s: seq<nat>)
    requires Ranked(keys, s) && |s| > 0
    ensures Ranked(keys, s[1..])
    ensures forall y :: y in s[1..] <==> y in s && y != s[0]
  {
    forall y
      ensures y in s[1..] <==> y in s && y != s[0]
    {
      if y in s[1..] {
        var k :| 1 <= k < |s| && s[k] == y;
        RankedDistinct(keys, s, 0, k);
      }
      if y in s && y != s[0] {
        var m :| 0 <= m < |s| && s[m] == y;
        assert s[1..][m - 1] == y;
      }
    }
  }

  /** `Rank` is the only ranking of all positions: any sequence that lists
      every position of `keys` once, in `Before` order, is `Rank(keys)`. */
  lemma RankCharacterised(keys: seq<real>, s: seq<nat>)
    requires Ranked(keys, s) && PositionsBelow(s, |keys|)
    ensures s == Rank(keys)
  {
    var t := Rank(keys);
    forall y
      ensures y in s <==> y in t
    {
      if y in s {
        var i :| 0 <= i < |s| && s[i] == y;
      }
      if y in t {
        var i :| 0 <= i < |t| && t[i] == y;
      }
    }
    RankedUnique(keys, s, t);
  }

  /** `[xs[i] for i in idx]` */
  function Select<T>(xs: seq<T>, idx: seq<nat>): (r: seq<T>)
    requires forall i :: 0 <= i < |idx| ==> idx[i] < |xs|
    ensures |r| == |idx|
    ensures forall i {:trigger r[i]} :: 0 <= i < |idx| ==> r[i] == xs[idx[i]]
  {
    if |idx| == 0 then [] else [xs[idx[0]]] + Select(xs, idx[1..])
  }

  lemma {:induction false} SelectAppend<T>(xs: seq<T>, a: seq<nat>, b: seq<nat>)
    requires forall i :: 0 <= i < |a| ==> a[i] < |xs|
    requires forall i :: 0 <= i < |b| ==> b[i] < |xs|
    ensures Select(xs, a + b) == Select(xs, a) + Select(xs, b)
  {
    if |a| > 0 {
      assert (a + b)[1..] == a[1..] + b;
      SelectAppend(xs, a[1..], b);
    } else {
      assert a + b == b;
    }
  }

  /** Selecting by concatenated positions unions the selections. */
  lemma SelectAppendMultiset<T>(xs: seq<T>, a: seq<nat>, b: seq<nat>)
    requires forall i :: 0 <= i < |a| ==> a[i] < |xs|
    requires forall i :: 0 <= i < |b| ==> b[i] < |xs|
    ensures multiset(Select(xs, a + b)) == multiset(Select(xs, a)) + multiset(Select(xs, b))
  {
    SelectAppend(xs, a, b);
  }

  lemma SelectInsert<T>(xs: seq<T>, keys: seq<real>, x: nat, s: seq<nat>)
    requires |keys| == |xs|
    requires x < |keys| && Ranked(keys, s)
    requires forall i :: 0 <= i < |s| ==> s[i] < x
    ensures multiset(Select(xs, Insert(keys, x, s))) == multiset(Select(xs, s)) + multiset{xs[x]}
  {
    InsertShape(keys, x, s);
    SelectSplice(xs, s, InsertPos(keys, x, s), x);
  }

  lemma InsertShape(keys: seq<real>, x: nat, s: seq<nat>)
    requires x < |keys| && Ranked(keys, s)
    requires forall i :: 0 <= i < |s| ==> s[i] < x
    ensures Insert(keys, x, s) == s[..InsertPos(keys, x, s)] + [x] + s[InsertPos(keys, x, s)..]
  {
  }

  /** Selecting with one more position, spliced in anywhere, adds exactly that element. */
  lemma SelectSplice<T>(xs: seq<T>, s: seq<nat>, p: nat, x: nat)
    requires forall i :: 0 <= i < |s| ==> s[i] < |xs|
    requires p <= |s| && x < |xs|
    ensures multiset(Select(xs, s[..p] + [x] + s[p..])) == multiset(Select(xs, s)) + multiset{xs[x]}
  {
    var a, b := s[..p], s[p..];
    assert a + b == s;
    SelectAppendMultiset(xs, a + [x], b);
    SelectAppendMultiset(xs, a, [x]);
    SelectAppendMultiset(xs, a, b);
    assert Select(xs, [x]) == [xs[x]];
  }

  /** Reordering by a ranking of the first `n` positions permutes `xs[..n]`. */
  lemma {:induction false} SelectRankPrefixPermutes<T>(xs: seq<T>, keys: seq<real>, n: nat)
    requires n <= |keys| == |xs|
    ensures multiset(Select(xs, RankPrefix(keys, n))) == multiset(xs[..n])
  {
    if n > 0 {
      SelectRankPrefixPermutes(xs, keys, n - 1);
      SelectInsertStep(xs, keys, n, RankPrefix(keys, n - 1), RankPrefix(keys, n));
    }
  }

  /** One step of the induction: inserting position `n - 1` into a
      selection that permutes `xs[..n - 1]` gives one that permutes `xs[..n]`. */
  lemma SelectInsertStep<T>(xs: seq<T>, keys: seq<real>, n: nat, s: seq<nat>, r: seq<nat>)
    requires 0 < n <= |keys| == |xs|
    requires Ranked(keys, s) && forall i :: 0 <= i < |s| ==> s[i] < n - 1
    requires r == Insert(keys, n - 1, s)
    requires multiset(Select(xs, s)) == multiset(xs[..n - 1])
    ensures forall i :: 0 <= i < |r| ==> r[i] < |xs|
    ensures multiset(Select(xs, r)) == multiset(xs[..n])
  {
    SelectInsert(xs, keys, n - 1, s);
    PrefixSnoc(xs, n);
  }

  lemma PrefixSnoc<T>(xs: seq<T>, n: nat)
    requires 0 < n <= |xs|
    ensures multiset(xs[..n]) == multiset(xs[..n - 1]) + multiset{xs[n - 1]}
  {
    assert xs[..n] == xs[..n - 1] + [xs[n - 1]];
  }

  /** Reordering by `Rank` is a permutation: nothing invented, dropped or duplicated. */
  lemma SelectRankPermutes<T>(xs: seq<T>, keys: seq<real>)
    requires |keys| == |xs|
    ensures multiset(Select(xs, Rank(keys))) == multiset(xs)
  {
    SelectRankPrefixPermutes(xs, keys, |xs|);
    assert xs[..|xs|] == xs;
  }
}
