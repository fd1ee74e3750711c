/** Suggestion mixing for the compare endpoint (`search_compare` in main.py):
    database and web suggestions are interleaved in three loops that skip
    titles already taken, compared case-insensitively, and the mix is cut at
    five. */
module CompareMix {
  import opened Base
  import opened Seqs
  import opened Text
  import opened QueryEnhancement


  /** A suggestion's rating: the parsed score of a database suggestion, or a
      fixed label for a web one. */
  datatype Rating = Numeric(value: real) | Label(text: string)

  /** A suggestion as the endpoint returns it. */
  datatype Pick = Pick(title: string, genre: string, rating: Rating, source: string, year: string)

  /** A web title as a suggestion with the fixed fields of web picks. */
  function WebPick(title: string): Pick
  {
    Pick(title, "Web Pick", Label("Fresh"), "web", "2024")
  }

  /** The web suggestions: the first five extracted titles that are not empty. */
  function WebPicks(titles: seq<string>): (r: seq<Pick>)
    ensures |r| <= 5
    ensures forall i :: 0 <= i < |r| ==> r[i].title != "" && r[i] == WebPick(r[i].title)
  {
    var kept := NonEmpty(SliceTo(titles, 5));
    MapSeq(kept, WebPick)
  }

  /** Titles that are all non-empty give one web pick each, for the first
      five of them, in order. */
  lemma WebPicksOfTitles(titles: seq<string>)
    requires forall i :: 0 <= i < |titles| ==> titles[i] != ""
    ensures |WebPicks(titles)| == Min(5, |titles|)
    ensures forall i :: 0 <= i < |WebPicks(titles)| ==> WebPicks(titles)[i] == WebPick(titles[i])
  {
    NonEmptyKeeps(SliceTo(titles, 5));
  }

  /** An empty title among the first five is dropped: it takes no place. */
  lemma WebPicksSkipsEmpty(before: seq<string>, after: seq<string>)
    requires |before| + 1 + |after| <= 5
    ensures WebPicks(before + [""] + after) == WebPicks(before + after)
  {
    NonEmptySkipsBlank(before, after);
    assert SliceTo(before + [""] + after, 5) == before + [""] + after;
    assert SliceTo(before + after, 5) == before + after;
  }

  function LowerTitle(p: Pick): string
  {
    Lower(p.title)
  }

  /** The lower-cased titles of `picks`. */
  function LowerSet(picks: seq<Pick>): (s: set<string>)
    ensures forall i :: 0 <= i < |picks| ==> LowerTitle(picks[i]) in s
  {
    if |picks| == 0 then {} else {LowerTitle(picks[0])} + LowerSet(picks[1..])
  }

  /** No two picks share a title once lower-cased. */
  predicate DistinctLower(picks: seq<Pick>)
  {
    forall i, j :: 0 <= i < j < |picks| ==> LowerTitle(picks[i]) != LowerTitle(picks[j])
  }

  /** The reference order: each pick whose lower-cased title has not been
      seen, in input order. */
  function DedupLower(picks: seq<Pick>, seen: set<string>): (r: seq<Pick>)
    ensures |r| <= |picks|
    ensures forall p :: p in r ==> p in picks && LowerTitle(p) !in seen
  {
    if |picks| == 0 then []
    else
      var t := LowerTitle(picks[0]);
      if t in seen then DedupLower(picks[1..], seen)
      else [picks[0]] + DedupLower(picks[1..], seen + {t})
  }

  /** The kept picks have distinct titles up to case. */
  lemma {:induction false} DedupLowerDistinct(picks: seq<Pick>, seen: set<string>)
    ensures DistinctLower(DedupLower(picks, seen))
    decreases |picks|
  {
    if |picks| > 0 {
      var t := LowerTitle(picks[0]);
      if t in seen {
        DedupLowerDistinct(picks[1..], seen);
      } else {
        var rest := DedupLower(picks[1..], seen + {t});
        DedupLowerDistinct(picks[1..], seen + {t});
        DistinctLowerCons(picks[0], rest, seen + {t});
      }
    }
  }

  /** A pick whose title is among `taken` can go in front of distinct picks
      whose titles are not. */
  lemma DistinctLowerCons(p: Pick, rest: seq<Pick>, taken: set<string>)
    requires DistinctLower(rest) && LowerTitle(p) in taken
    requires forall q :: q in rest ==> LowerTitle(q) !in taken
    ensures DistinctLower([p] + rest)
  {
    var r := [p] + rest;
    forall i, j | 0 <= i < j < |r| ensures LowerTitle(r[i]) != LowerTitle(r[j]) {
      assert r[j] == rest[j - 1];
      if i > 0 {
        assert r[i] == rest[i - 1];
      } else {
        assert rest[j - 1] in rest;
      }
    }
  }

  /** The kept picks appear in input order. */
  lemma {:induction false} DedupLowerInOrder(picks: seq<Pick>, seen: set<string>)
    ensures IsSubsequence(DedupLower(picks, seen), picks)
    decreases |picks|
  {
    if |picks| > 0 {
      var t := LowerTitle(picks[0]);
      if t in seen {
        DedupLowerInOrder(picks[1..], seen);
        SubsequenceSkip(DedupLower(picks[1..], seen), picks);
      } else {
        var rest := DedupLower(picks[1..], seen + {t});
        DedupLowerInOrder(picks[1..], seen + {t});
        assert ([picks[0]] + rest)[1..] == rest;
      }
    }
  }

  /** Skipping the head of the longer list keeps a subsequence one. */
  lemma SubsequenceSkip<T>(a: seq<T>, b: seq<T>)
    requires |b| > 0 && IsSubsequence(a, b[1..])
    ensures IsSubsequence(a, b)
  {
  }

  /** Nothing is lost: every pick with an unseen title is represented by a
      kept pick with the same title up to case. */
  lemma {:induction false} DedupLowerCovers(picks: seq<Pick>, seen: set<string>, i: nat)
    requires i < |picks| && LowerTitle(picks[i]) !in seen
    ensures exists p :: p in DedupLower(picks, seen) && LowerTitle(p) == LowerTitle(picks[i])
    decreases |picks|
  {
    var t := LowerTitle(picks[0]);
    var r := DedupLower(picks, seen);
    if t in seen {
      assert picks[1..][i - 1] == picks[i];
      DedupLowerCovers(picks[1..], seen, i - 1);
    } else if LowerTitle(picks[i]) == t {
      assert picks[0] in r;
    } else {
      assert picks[1..][i - 1] == picks[i];
      DedupLowerCovers(picks[1..], seen + {t}, i - 1);
      var p :| p in DedupLower(picks[1..], seen + {t}) && LowerTitle(p) == LowerTitle(picks[i]);
      assert p in r;
    }
  }

  /** One of the endpoint's three mixing loops, from the list built so far and
      its set of lower-cased titles; `capped` loops stop once five picks are in. */
  function MixLoop(picks: seq<Pick>, acc: seq<Pick>, seen: set<string>, capped: bool): (seq<Pick>, set<string>)
    decreases |picks|
  {
    if |picks| == 0 then (acc, seen)
    else if capped && |acc| >= 5 then (acc, seen)
    else
      var t := LowerTitle(picks[0]);
      if t !in seen then MixLoop(picks[1..], acc + [picks[0]], seen + {t}, capped)
      else MixLoop(picks[1..], acc, seen, capped)
  }

  /** The endpoint's mix: new titles from the first three database picks, then
      from the first two web picks, then database picks from the fourth on
      while fewer than five are in. */
  function Mix(rag: seq<Pick>, web: seq<Pick>): seq<Pick>
  {
    var first := MixLoop(SliceTo(rag, 3), [], {}, false);
    var second := MixLoop(SliceTo(web, 2), first.0, first.1, false);
    MixLoop(Drop(rag, 3), second.0, second.1, true).0
  }

  lemma {:induction false} LowerSetAppend(x: seq<Pick>, y: seq<Pick>)
    ensures LowerSet(x + y) == LowerSet(x) + LowerSet(y)
  {
    if |x| > 0 {
      assert (x + y)[1..] == x[1..] + y;
      LowerSetAppend(x[1..], y);
    } else {
      assert x + y == y;
    }
  }

  /** An uncapped loop appends the reference order and records every title. */
  lemma MixLoopUncapped(picks: seq<Pick>, acc: seq<Pick>, seen: set<string>)
    ensures MixLoop(picks, acc, seen, false) == (acc + DedupLower(picks, seen), seen + LowerSet(picks))
  {
    MixLoopUncappedPicks(picks, acc, seen);
    MixLoopUncappedSeen(picks, acc, seen);
  }

  lemma {:induction false} MixLoopUncappedPicks(picks: seq<Pick>, acc: seq<Pick>, seen: set<string>)
    ensures MixLoop(picks, acc, seen, false).0 == acc + DedupLower(picks, seen)
    decreases |picks|
  {
    if |picks| == 0 {
      assert acc + [] == acc;
    } else {
      var t := LowerTitle(picks[0]);
      if t !in seen {
        var rest := DedupLower(picks[1..], seen + {t});
        assert DedupLower(picks, seen) == [picks[0]] + rest;
        MixLoopUncappedPicks(picks[1..], acc + [picks[0]], seen + {t});
        assert acc + [picks[0]] + rest == acc + ([picks[0]] + rest);
      } else {
        MixLoopUncappedPicks(picks[1..], acc, seen);
      }
    }
  }

  lemma {:induction false} MixLoopUncappedSeen(picks: seq<Pick>, acc: seq<Pick>, seen: set<string>)
    ensures MixLoop(picks, acc, seen, false).1 == seen + LowerSet(picks)
    decreases |picks|
  {
    if |picks| > 0 {
      var t := LowerTitle(picks[0]);
      assert LowerSet(picks) == {t} + LowerSet(picks[1..]);
      if t !in seen {
        MixLoopUncappedSeen(picks[1..], acc + [picks[0]], seen + {t});
      } else {
        MixLoopUncappedSeen(picks[1..], acc, seen);
      }
    }
  }

  /** A capped loop appends the reference order until five picks are in. */
  lemma {:induction false} MixLoopCapped(picks: seq<Pick>, acc: seq<Pick>, seen: set<string>)
    requires |acc| <= 5
    ensures MixLoop(picks, acc, seen, true).0 == acc + SliceTo(DedupLower(picks, seen), 5 - |acc|)
    decreases |picks|
  {
    var d := DedupLower(picks, seen);
    if |picks| == 0 {
      assert acc + [] == acc;
    } else if |acc| == 5 {
      assert SliceTo(d, 0) == [];
      assert acc + [] == acc;
    } else {
      var t := LowerTitle(picks[0]);
      if t !in seen {
        var rest := DedupLower(picks[1..], seen + {t});
        MixLoopCapped(picks[1..], acc + [picks[0]], seen + {t});
        assert d == [picks[0]] + rest;
        SliceToCons(acc, picks[0], rest, 5 - |acc|);
      } else {
        MixLoopCapped(picks[1..], acc, seen);
      }
    }
  }

  lemma SliceToCons<T>(acc: seq<T>, x: T, rest: seq<T>, n: int)
    requires n >= 1
    ensures acc + [x] + SliceTo(rest, n - 1) == acc + SliceTo([x] + rest, n)
  {
    assert SliceTo([x] + rest, n) == [x] + SliceTo(rest, n - 1);
  }

  /** Deduplicating a concatenation is deduplicating the parts in turn. */
  lemma {:induction false} DedupLowerAppend(x: seq<Pick>, y: seq<Pick>, seen: set<string>)
    ensures DedupLower(x + y, seen) == DedupLower(x, seen) + DedupLower(y, seen + LowerSet(x))
    decreases |x|
  {
    if |x| == 0 {
      assert x + y == y;
      assert seen + LowerSet(x) == seen;
    } else {
      var t := LowerTitle(x[0]);
      assert (x + y)[0] == x[0] && (x + y)[1..] == x[1..] + y;
      if t in seen {
        DedupLowerAppend(x[1..], y, seen);
        assert seen + LowerSet(x) == seen + LowerSet(x[1..]);
      } else {
        DedupLowerAppend(x[1..], y, seen + {t});
        assert seen + {t} + LowerSet(x[1..]) == seen + LowerSet(x);
      }
    }
  }

  /** The mix is the first five picks of the case-insensitive, first-wins
      deduplication of database picks 1-3, web picks 1-2 and database picks
      from 4 on. */
  lemma MixIsCappedDedup(rag: seq<Pick>, web: seq<Pick>)
    ensures Mix(rag, web) == SliceTo(DedupLower(SliceTo(rag, 3) + SliceTo(web, 2) + Drop(rag, 3), {}), 5)
  {
    ThreeLoops(SliceTo(rag, 3), SliceTo(web, 2), Drop(rag, 3));
  }

  /** The three loops over `x`, `y` and `z` (the last one capped) keep the
      reference order of `x + y + z`, cut at five, as long as the first two
      loops cannot overfill. */
  lemma ThreeLoops(x: seq<Pick>, y: seq<Pick>, z: seq<Pick>)
    requires |x| + |y| <= 5
    ensures var first := MixLoop(x, [], {}, false);
            var second := MixLoop(y, first.0, first.1, false);
            MixLoop(z, second.0, second.1, true).0 == SliceTo(DedupLower(x + y + z, {}), 5)
  {
    var first := MixLoop(x, [], {}, false);
    var second := MixLoop(y, first.0, first.1, false);
    var a1, s1 := DedupLower(x, {}), LowerSet(x);
    MixLoopUncapped(x, [], {});
    assert [] + a1 == a1 && {} + s1 == s1;
    var a2, s2 := a1 + DedupLower(y, s1), s1 + LowerSet(y);
    MixLoopUncapped(y, a1, s1);
    var d := DedupLower(z, s2);
    MixLoopCapped(z, a2, s2);
    DedupLowerOfThree(x, y, z);
    SliceToAppend(a2, d, 5);
  }

  lemma DedupLowerOfThree(x: seq<Pick>, y: seq<Pick>, z: seq<Pick>)
    ensures DedupLower(x + y + z, {})
         == DedupLower(x, {}) + DedupLower(y, LowerSet(x)) + DedupLower(z, LowerSet(x) + LowerSet(y))
  {
    DedupLowerAppend(x, y, {});
    LowerSetAppend(x, y);
    DedupLowerAppend(x + y, z, {});
    assert {} + LowerSet(x) == LowerSet(x);
    assert {} + LowerSet(x + y) == LowerSet(x) + LowerSet(y);
  }

  lemma SliceToAppend<T>(a: seq<T>, b: seq<T>, n: nat)
    requires |a| <= n
    ensures SliceTo(a + b, n) == a + SliceTo(b, n - |a|)
  {
  }

  /** Without web picks the mix is the first five database picks with new
      titles. */
  lemma MixWithoutWeb(rag: seq<Pick>)
    ensures Mix(rag, []) == SliceTo(DedupLower(rag, {}), 5)
  {
    MixIsCappedDedup(rag, []);
    assert SliceTo(rag, 3) + SliceTo([], 2) + Drop(rag, 3) == rag;
  }

  /** The mix holds at most five picks, no two with the same title up to
      case, database picks 1-3 first. */
  lemma MixShape(rag: seq<Pick>, web: seq<Pick>)
    ensures |Mix(rag, web)| <= 5
    ensures DistinctLower(Mix(rag, web))
    ensures |DedupLower(SliceTo(rag, 3), {})| <= |Mix(rag, web)|
    ensures DedupLower(SliceTo(rag, 3), {}) == Mix(rag, web)[..|DedupLower(SliceTo(rag, 3), {})|]
  {
    var r3 := SliceTo(rag, 3);
    var tail := SliceTo(web, 2) + Drop(rag, 3);
    MixIsCappedDedup(rag, web);
    assert r3 + SliceTo(web, 2) + Drop(rag, 3) == r3 + tail;
    var d := DedupLower(r3 + tail, {});
    DedupLowerDistinct(r3 + tail, {});
    DistinctLowerPrefix(d, |SliceTo(d, 5)|);
    DedupLowerAppend(r3, tail, {});
    PrefixOfPrefix(DedupLower(r3, {}), DedupLower(tail, {} + LowerSet(r3)), 5);
  }

  /** A prefix of a list with distinct titles has distinct titles. */
  lemma DistinctLowerPrefix(picks: seq<Pick>, n: nat)
    requires DistinctLower(picks) && n <= |picks|
    ensures DistinctLower(picks[..n])
  {
  }

  lemma PrefixOfPrefix<T>(a: seq<T>, b: seq<T>, n: nat)
    requires |a| <= n
    ensures |a| <= |SliceTo(a + b, n)|
    ensures SliceTo(a + b, n)[..|a|] == a
  {
    assert (a + b)[..|a|] == a;
  }
}
