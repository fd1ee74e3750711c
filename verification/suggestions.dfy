/** Movie suggestions (`CorrectiveRAG.get_movie_suggestions` in
    corrective_rag.py): over-retrieve, keep the first document per title whose
    rating reaches the quality bar, stop at the requested count, and list the
    kept suggestions best-rated first. */
module Suggestions {
  import opened Base
  import opened Seqs
  import opened Text
  import opened Ranking
  import opened Documents
  import opened Oracles
  import opened BasicRag

  /** One suggestion. The rating is kept as the number it was parsed to; the
      service renders it as that number followed by "/10". */
  datatype Suggestion = Suggestion(title: string, genre: string, rating: real, source: string, year: string)

  // ---------------------------------------------------------------------------
  // Ratings
  // ---------------------------------------------------------------------------

  /** `float(str(rating_str).split('/')[0])`, with 0.0 when that raises: the
      text before the first '/' read as a number. */
  function ParseRating(s: string): (v: real)
    ensures ParseNumber(SplitOn(s, '/')[0]).None? ==> v == 0.0
    ensures ParseNumber(SplitOn(s, '/')[0]).Some? ==> v == ParseNumber(SplitOn(s, '/')[0]).value
    ensures v != 0.0 ==> NumberText(Strip(SplitOn(s, '/')[0]))
  {
    match ParseNumber(SplitOn(s, '/')[0])
    case None => 0.0
    case Some(x) => x
  }

  lemma DigitsHaveNoSlash(d: string)
    requires AllDigits(d)
    ensures '/' !in d
  {
    assert forall j :: 0 <= j < |d| ==> d[j] != '/';
  }

  /** A whole-number rating written "n/10" reads as n. */
  lemma RatingOutOfTen(n: nat)
    ensures ParseRating(NatToString(n) + "/10") == n as real
  {
    var d := NatToString(n);
    DigitsHaveNoSlash(d);
    SplitOnPieceThenRest(d, '/', "10");
    assert d + "/10" == d + ['/'] + "10";
    NatRoundTrip(n);
  }

  /** A decimal rating written "w.f/10" reads as the decimal number w.f. */
  lemma RatingDecimalOutOfTen(whole: string, frac: string)
    requires AllDigits(whole) && AllDigits(frac) && |whole| + |frac| > 0
    ensures ParseRating(whole + "." + frac + "/10") == DecimalValue(whole, frac)
  {
    var d := whole + "." + frac;
    DigitsHaveNoSlash(whole);
    DigitsHaveNoSlash(frac);
    assert '/' !in d by {
      assert forall j :: 0 <= j < |d| ==> d[j] != '/' by {
        assert forall j :: 0 <= j < |whole| ==> d[j] == whole[j];
        assert forall j :: |whole| < j < |d| ==> d[j] == frac[j - |whole| - 1];
      }
    }
    SplitOnPieceThenRest(d, '/', "10");
    assert d + "/10" == d + ['/'] + "10";
    DecimalRoundTrip(whole, frac);
  }

  /** A concrete rating: "7.5/10" reads as seven and a half. */
  lemma RatingExample(s: string)
    requires s == "7.5/10"
    ensures ParseRating(s) == 7.5
  {
    var whole, frac := s[..1], s[2..3];
    assert s == whole + "." + frac + "/10";
    assert whole[0] == '7' && frac[0] == '5';
    RatingDecimalOutOfTen(whole, frac);
    assert DigitsValue(whole) == 7 && DigitsValue(frac) == 5;
    assert Shift(5.0, 1) == 0.5;
  }

  /** A rating with a second decimal point before the first '/' (such as
      "7.5.1/10") makes `float` raise, so it reads as 0. */
  lemma RatingTwoPointsIsZero(s: string, i: int, j: int)
    requires var t := Strip(SplitOn(s, '/')[0]); 0 <= i < j < |t| && t[i] == '.' && t[j] == '.'
    ensures ParseRating(s) == 0.0
  {
    TwoPointsFail(SplitOn(s, '/')[0], i, j);
  }

  /** A rating with no digit before the first '/' (such as "-/10" or
      "N/A") reads as 0. */
  lemma RatingWithoutDigitIsZero(s: string)
    requires forall i :: 0 <= i < |Strip(SplitOn(s, '/')[0])| ==> !IsDigit(Strip(SplitOn(s, '/')[0])[i])
    ensures ParseRating(s) == 0.0
  {
    DigitlessFails(SplitOn(s, '/')[0]);
  }

  /** A plain whole-number rating reads as itself. */
  lemma RatingPlain(n: nat)
    ensures ParseRating(NatToString(n)) == n as real
  {
    var d := NatToString(n);
    DigitsHaveNoSlash(d);
    SplitOnPiece(d, '/');
    NatRoundTrip(n);
  }

  /** A rating whose text before the first '/' is blank (a missing rating
      stored as "") reads as 0. */
  lemma BlankRatingIsZero(s: string)
    requires AllSpace(SplitOn(s, '/')[0])
    ensures ParseRating(s) == 0.0
  {
    BlankFails(SplitOn(s, '/')[0]);
  }

  // ---------------------------------------------------------------------------
  // Collecting
  // ---------------------------------------------------------------------------

  /** The suggestion one document would give: title 'Unknown', genre 'N/A',
      rating '0', source 'Unknown' when missing; the year is `year`, else
      `release_year`, else 'N/A'. */
  function Proposal(d: Doc): (p: Suggestion)
    ensures p.title == Meta(d, "title", "Unknown")
    ensures p.genre == Meta(d, "genre", "N/A")
    ensures p.rating == ParseRating(Meta(d, "rating", "0"))
    ensures p.source == Meta(d, "source", "Unknown")
    ensures "year" in d.metadata ==> p.year == d.metadata["year"]
    ensures "year" !in d.metadata ==> p.year == Meta(d, "release_year", "N/A")
  {
    Suggestion(Meta(d, "title", "Unknown"), Meta(d, "genre", "N/A"),
               ParseRating(Meta(d, "rating", "0")), Meta(d, "source", "Unknown"),
               Meta(d, "year", Meta(d, "release_year", "N/A")))
  }

  /** One proposal per document, in document order. */
  function Proposals(docs: seq<Doc>): (ps: seq<Suggestion>)
    ensures |ps| == |docs|
    ensures forall i :: 0 <= i < |docs| ==> ps[i] == Proposal(docs[i])
  {
    MapSeq(docs, Proposal)
  }

  /** A proposal the loop accepts: a title not yet taken and a rating at
      least the quality bar. */
  predicate Accepts(p: Suggestion, seen: set<string>)
  {
    p.title !in seen && p.rating >= MinRatingThreshold
  }

  /** The collecting loop with `room` places left: stop when no room is left,
      otherwise take each accepted proposal and remember its title. */
  function Collect(props: seq<Suggestion>, room: int, seen: set<string>): (r: seq<Suggestion>)
    ensures |r| <= Max(0, room)
    ensures forall i :: 0 <= i < |r| ==> Accepts(r[i], seen)
    ensures DistinctTitles(r)
    ensures IsSubsequence(r, props)
    decreases |props|
  {
    if |props| == 0 || room <= 0 then []
    else
      var p := props[0];
      if Accepts(p, seen) then
        var rest := Collect(props[1..], room - 1, seen + {p.title});
        var r := [p] + rest;
        assert r[1..] == rest;
        assert forall i :: 1 <= i < |r| ==> r[i] == rest[i - 1];
        r
      else Collect(props[1..], room, seen)
  }

  /** When the loop never fills up, nothing acceptable is missed: every
      proposal with a good enough rating and an untaken title is represented
      by its title. */
  lemma {:induction false} CollectComplete(props: seq<Suggestion>, room: int, seen: set<string>, i: nat)
    requires |Collect(props, room, seen)| < room
    requires i < |props| && Accepts(props[i], seen)
    ensures exists j :: 0 <= j < |Collect(props, room, seen)| && Collect(props, room, seen)[j].title == props[i].title
    decreases |props|
  {
    var p := props[0];
    var r := Collect(props, room, seen);
    if Accepts(p, seen) {
      var rest := Collect(props[1..], room - 1, seen + {p.title});
      assert r == [p] + rest;
      if props[i].title == p.title {
        assert r[0].title == props[i].title;
      } else {
        assert props[1..][i - 1] == props[i];
        CollectComplete(props[1..], room - 1, seen + {p.title}, i - 1);
        var j :| 0 <= j < |rest| && rest[j].title == props[i].title;
        assert r[j + 1] == rest[j];
      }
    } else {
      assert i > 0;
      assert props[1..][i - 1] == props[i];
      CollectComplete(props[1..], room, seen, i - 1);
    }
  }

  /** Where the first document with title `title` and a good enough rating
      stands in `props` (`|props|` when there is none). */
  function FirstGood(props: seq<Suggestion>, title: string): (i: nat)
    ensures i <= |props|
    ensures i < |props| ==> props[i].title == title && props[i].rating >= MinRatingThreshold
    ensures forall j :: 0 <= j < i ==> !(props[j].title == title && props[j].rating >= MinRatingThreshold)
  {
    if |props| == 0 then 0
    else if props[0].title == title && props[0].rating >= MinRatingThreshold then 0
    else 1 + FirstGood(props[1..], title)
  }

  /** Each of `r` is the first proposal of `props` carrying its title with a
      good enough rating. */
  predicate FirstWins(props: seq<Suggestion>, r: seq<Suggestion>)
  {
    forall j :: 0 <= j < |r| ==>
      FirstGood(props, r[j].title) < |props| && r[j] == props[FirstGood(props, r[j].title)]
  }

  /** The first occurrence wins: each kept suggestion is the first proposal
      carrying its title with a good enough rating. `seen_titles` grows only
      when a proposal is kept, so an earlier low-rated one with the same title
      does not block it, and a later better-rated one never replaces it. */
  lemma {:induction false} CollectFirstWins(props: seq<Suggestion>, room: int, seen: set<string>)
    ensures FirstWins(props, Collect(props, room, seen))
    decreases |props|
  {
    if |props| > 0 && room > 0 {
      var p := props[0];
      if Accepts(p, seen) {
        var seen' := seen + {p.title};
        var rest := Collect(props[1..], room - 1, seen');
        CollectFirstWins(props[1..], room - 1, seen');
        assert Collect(props, room, seen) == [p] + rest;
        assert forall j :: 0 <= j < |rest| ==> Accepts(rest[j], seen');
        FirstWinsCons(props, rest);
      } else {
        var rest := Collect(props[1..], room, seen);
        CollectFirstWins(props[1..], room, seen);
        assert Collect(props, room, seen) == rest;
        assert forall j :: 0 <= j < |rest| ==> Accepts(rest[j], seen);
        FirstWinsSkip(props, rest);
      }
    }
  }

  /** Keeping the head in front of a list that wins among the tail and avoids
      its title. */
  lemma FirstWinsCons(props: seq<Suggestion>, rest: seq<Suggestion>)
    requires |props| > 0 && props[0].rating >= MinRatingThreshold
    requires FirstWins(props[1..], rest)
    requires forall j :: 0 <= j < |rest| ==> rest[j].title != props[0].title
    ensures FirstWins(props, [props[0]] + rest)
  {
    var r := [props[0]] + rest;
    forall j | 0 <= j < |r|
      ensures FirstGood(props, r[j].title) < |props| && r[j] == props[FirstGood(props, r[j].title)]
    {
      if j > 0 {
        assert r[j] == rest[j - 1];
        FirstGoodStep(props, r[j].title);
      }
    }
  }

  /** Skipping a head that no kept suggestion could be mistaken for. */
  lemma FirstWinsSkip(props: seq<Suggestion>, rest: seq<Suggestion>)
    requires |props| > 0 && FirstWins(props[1..], rest)
    requires forall j :: 0 <= j < |rest| ==>
      !(props[0].title == rest[j].title && props[0].rating >= MinRatingThreshold)
    ensures FirstWins(props, rest)
  {
    forall j | 0 <= j < |rest|
      ensures FirstGood(props, rest[j].title) < |props| && rest[j] == props[FirstGood(props, rest[j].title)]
    {
      FirstGoodStep(props, rest[j].title);
    }
  }

  lemma FirstGoodStep(props: seq<Suggestion>, title: string)
    requires |props| > 0 && !(props[0].title == title && props[0].rating >= MinRatingThreshold)
    ensures FirstGood(props, title) == 1 + FirstGood(props[1..], title)
  {
  }

  /** First come, first kept: with `room` places the loop keeps the first
      `room` of what it would keep with room for everything. */
  lemma CollectFirstCome(props: seq<Suggestion>, room: int, seen: set<string>)
    ensures Collect(props, room, seen) == SliceTo(Collect(props, |props|, seen), Max(0, room))
  {
    if room <= |props| {
      CollectPrefix(props, Max(0, room), |props|, seen);
    } else {
      CollectRoomBeyond(props, |props|, room, seen);
    }
  }

  /** Less room keeps a prefix of what more room keeps. */
  lemma {:induction false} CollectPrefix(props: seq<Suggestion>, a: int, b: int, seen: set<string>)
    requires 0 <= a <= b
    ensures Collect(props, a, seen) == SliceTo(Collect(props, b, seen), a)
    decreases |props|
  {
    if |props| > 0 && a > 0 {
      var p := props[0];
      if Accepts(p, seen) {
        var seen' := seen + {p.title};
        CollectPrefix(props[1..], a - 1, b - 1, seen');
        var rest := Collect(props[1..], b - 1, seen');
        assert SliceTo([p] + rest, a) == [p] + SliceTo(rest, a - 1);
      } else {
        CollectPrefix(props[1..], a, b, seen);
      }
    }
  }

  /** Room beyond the number of proposals changes nothing. */
  lemma {:induction false} CollectRoomBeyond(props: seq<Suggestion>, a: int, b: int, seen: set<string>)
    requires |props| <= a <= b
    ensures Collect(props, a, seen) == Collect(props, b, seen)
    decreases |props|
  {
    if |props| == 0 {
      CollectNothing(props, a, seen);
      CollectNothing(props, b, seen);
    } else {
      var p := props[0];
      CollectStep(props, a, seen);
      CollectStep(props, b, seen);
      if Accepts(p, seen) {
        CollectRoomBeyond(props[1..], a - 1, b - 1, seen + {p.title});
      } else {
        CollectRoomBeyond(props[1..], a, b, seen);
      }
    }
  }

  lemma CollectNothing(props: seq<Suggestion>, room: int, seen: set<string>)
    requires |props| == 0 || room <= 0
    ensures Collect(props, room, seen) == []
  {
  }

  /** One turn of the loop with room left. */
  lemma CollectStep(props: seq<Suggestion>, room: int, seen: set<string>)
    requires |props| > 0 && room > 0
    ensures Collect(props, room, seen)
         == if Accepts(props[0], seen)
            then [props[0]] + Collect(props[1..], room - 1, seen + {props[0].title})
            else Collect(props[1..], room, seen)
  {
  }

  // ---------------------------------------------------------------------------
  // Sorting
  // ---------------------------------------------------------------------------

  function RatingKeys(ss: seq<Suggestion>): (keys: seq<real>)
    ensures |keys| == |ss|
    ensures forall i :: 0 <= i < |ss| ==> keys[i] == ss[i].rating
  {
    MapSeq(ss, (s: Suggestion) => s.rating)
  }

  /** `suggestions.sort(key=rating, reverse=True)`: a rearrangement with the
      best rating first; titles that were distinct stay distinct. */
  function SortByRating(ss: seq<Suggestion>): (r: seq<Suggestion>)
    ensures |r| == |ss|
    ensures multiset(r) == multiset(ss)
    ensures forall i, j :: 0 <= i < j < |r| ==> r[i].rating >= r[j].rating
    ensures DistinctTitles(ss) ==> DistinctTitles(r)
  {
    var keys := RatingKeys(ss);
    SelectRankPermutes(ss, keys);
    RankSortsRatings(ss);
    RankKeepsDistinctTitles(ss);
    Select(ss, Rank(keys))
  }

  predicate DistinctTitles(ss: seq<Suggestion>)
  {
    forall i, j :: 0 <= i < j < |ss| ==> ss[i].title != ss[j].title
  }

  lemma RankSortsRatings(ss: seq<Suggestion>)
    ensures var r := Select(ss, Rank(RatingKeys(ss)));
      forall i, j :: 0 <= i < j < |r| ==> r[i].rating >= r[j].rating
  {
    var keys := RatingKeys(ss);
    var order := Rank(keys);
    var r := Select(ss, order);
    forall i, j | 0 <= i < j < |r| ensures r[i].rating >= r[j].rating {
      assert Before(keys, order[i], order[j]);
    }
  }

  lemma RankKeepsDistinctTitles(ss: seq<Suggestion>)
    ensures DistinctTitles(ss) ==> DistinctTitles(Select(ss, Rank(RatingKeys(ss))))
  {
    var keys := RatingKeys(ss);
    var order := Rank(keys);
    var r := Select(ss, order);
    if DistinctTitles(ss) {
      forall i, j | 0 <= i < j < |r| ensures r[i].title != r[j].title {
        RankedDistinct(keys, order, i, j);
        if order[i] < order[j] {
          assert ss[order[i]].title != ss[order[j]].title;
        } else {
          assert ss[order[j]].title != ss[order[i]].title;
        }
      }
    }
  }

  /** Rearranging keeps every element's properties. */
  lemma PermutationKeepsRatingBar(a: seq<Suggestion>, b: seq<Suggestion>)
    requires multiset(a) == multiset(b)
    requires forall i :: 0 <= i < |b| ==> b[i].rating >= MinRatingThreshold
    ensures forall i :: 0 <= i < |a| ==> a[i].rating >= MinRatingThreshold
  {
    forall i | 0 <= i < |a| ensures a[i].rating >= MinRatingThreshold {
      assert a[i] in multiset(b);
      var j :| 0 <= j < |b| && b[j] == a[i];
    }
  }

  /** The sort is the stable one: any ordering of positions that puts better
      ratings first and keeps the collected order among equal ratings gives
      the same list. */
  lemma SortIsStable(ss: seq<Suggestion>, order: seq<nat>)
    requires Ranked(RatingKeys(ss), order) && PositionsBelow(order, |ss|)
    ensures SortByRating(ss) == Select(ss, order)
  {
    RankCharacterised(RatingKeys(ss), order);
  }

  // ---------------------------------------------------------------------------
  // The operation
  // ---------------------------------------------------------------------------

  /** `get_movie_suggestions(query, n)`: retrieve `4n` documents, collect up to
      `n` acceptable suggestions with distinct titles, and sort them by rating. */
  function GetMovieSuggestions(svc: Services, query: string, n: int): (r: seq<Suggestion>)
    ensures |r| <= Max(0, n)
    ensures forall i :: 0 <= i < |r| ==> r[i].rating >= MinRatingThreshold
    ensures forall i, j :: 0 <= i < j < |r| ==> r[i].title != r[j].title
    ensures forall i, j :: 0 <= i < j < |r| ==> r[i].rating >= r[j].rating
    ensures multiset(r) == multiset(Collect(Proposals(Retrieve(svc.search, query, n * 4)), n, {}))
    ensures var picked := Collect(Proposals(Retrieve(svc.search, query, n * 4)), n, {});
      forall order :: Ranked(RatingKeys(picked), order) && PositionsBelow(order, |picked|) ==> r == Select(picked, order)
  {
    var picked := Collect(Proposals(Retrieve(svc.search, query, n * 4)), n, {});
    var r := SortByRating(picked);
    PermutationKeepsRatingBar(r, picked);
    forall order | Ranked(RatingKeys(picked), order) && PositionsBelow(order, |picked|)
      ensures r == Select(picked, order)
    {
      SortIsStable(picked, order);
    }
    r
  }
}
