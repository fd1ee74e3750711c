/** Query rewriting (query_enhancement.py). The three model calls are
    uninterpreted: `hyde` and `expand_query` hand the model's reply back
    unchanged, so they are the `hydeReply` and `expansionReply` oracles
    themselves. What is left to model is how `multi_query` turns the model's
    reply into the list of queries to search with. */
module QueryEnhancement {
  import opened Base
  import opened Seqs
  import opened Text

  /** `[x for x in xs if x]`: the non-empty strings, in order. */
  function NonEmpty(xs: seq<string>): (r: seq<string>)
    ensures |r| <= |xs|
    ensures forall i :: 0 <= i < |r| ==> r[i] != ""
    ensures IsSubsequence(r, xs)
    ensures forall i :: 0 <= i < |xs| && xs[i] != "" ==> xs[i] in r
  {
    if |xs| == 0 then []
    else
      var rest := NonEmpty(xs[1..]);
      assert forall i :: 1 <= i < |xs| ==> xs[i] == xs[1..][i - 1];
      if xs[0] != "" then [xs[0]] + rest else rest
  }

  /** `[line.strip() for line in lines]` */
  function StripAll(lines: seq<string>): (r: seq<string>)
    ensures |r| == |lines|
    ensures forall i :: 0 <= i < |lines| ==> r[i] == Strip(lines[i]) && Trimmed(r[i])
  {
    if |lines| == 0 then [] else [Strip(lines[0])] + StripAll(lines[1..])
  }

  /** The candidate variations in a multi-query reply: its lines, trimmed,
      with blank lines dropped, in reply order. */
  function Variations(reply: string): (r: seq<string>)
    ensures forall i :: 0 <= i < |r| ==> |r[i]| > 0 && Trimmed(r[i])
    ensures IsSubsequence(r, StripAll(SplitOn(reply, '\n')))
  {
    var m := StripAll(SplitOn(reply, '\n'));
    NonEmptyTrimmed(m);
    NonEmpty(m)
  }

  lemma {:induction false} NonEmptyTrimmed(xs: seq<string>)
    requires forall i :: 0 <= i < |xs| ==> Trimmed(xs[i])
    ensures forall i :: 0 <= i < |NonEmpty(xs)| ==> Trimmed(NonEmpty(xs)[i])
  {
    if |xs| > 0 {
      var rest := NonEmpty(xs[1..]);
      assert forall i :: 0 <= i < |xs[1..]| ==> xs[1..][i] == xs[i + 1];
      NonEmptyTrimmed(xs[1..]);
      if xs[0] != "" {
        assert NonEmpty(xs) == [xs[0]] + rest;
        assert forall i :: 1 <= i < |NonEmpty(xs)| ==> NonEmpty(xs)[i] == rest[i - 1];
      } else {
        assert NonEmpty(xs) == rest;
      }
    }
  }

  /** The original query followed by the variations `v`, cut to `n + 1` entries. */
  function QueriesFrom(query: string, v: seq<string>, n: int): (r: seq<string>)
    ensures n >= 0 ==> |r| == Min(n, |v|) + 1 && r[0] == query && r[1..] == v[..|r| - 1]
  {
    var r := SliceTo([query] + v, n + 1);
    if n < 0 then r
    else ConsPrefix(query, v, |r|); r
  }

  /** `QueryEnhancer.multi_query`: the original query followed by the reply's
      variations, cut to `numVariations + 1` entries. */
  function MultiQuery(query: string, reply: string, numVariations: int): (r: seq<string>)
    ensures numVariations >= 0 ==> |r| == Min(numVariations, |Variations(reply)|) + 1
    ensures numVariations >= 0 ==> 1 <= |r| <= numVariations + 1 && r[0] == query
    ensures numVariations >= 0 ==> r[1..] == Variations(reply)[..|r| - 1]
  {
    QueriesFrom(query, Variations(reply), numVariations)
  }

  lemma ConsPrefix<T>(x: T, v: seq<T>, n: nat)
    requires 1 <= n <= |v| + 1
    ensures ([x] + v)[..n][0] == x && ([x] + v)[..n][1..] == v[..n - 1]
  {
  }

  /** Lines that are already non-empty are all kept. */
  lemma {:induction false} NonEmptyKeeps(xs: seq<string>)
    requires forall i :: 0 <= i < |xs| ==> xs[i] != ""
    ensures NonEmpty(xs) == xs
  {
    if |xs| > 0 {
      NonEmptyKeeps(xs[1..]);
      assert [xs[0]] + xs[1..] == xs;
    }
  }

  /** Blank lines contribute nothing wherever they stand. */
  lemma {:induction false} NonEmptySkipsBlank(before: seq<string>, after: seq<string>)
    ensures NonEmpty(before + [""] + after) == NonEmpty(before + after)
    decreases |before|
  {
    if |before| == 0 {
      assert (before + [""] + after)[1..] == after;
      assert before + after == after;
    } else {
      NonEmptySkipsBlank(before[1..], after);
      assert (before + [""] + after)[1..] == before[1..] + [""] + after;
      assert (before + after)[1..] == before[1..] + after;
    }
  }

  /** Trimming leaves trimmed lines alone. */
  lemma StripTrimmedLines(lines: seq<string>)
    requires forall i :: 0 <= i < |lines| ==> Trimmed(lines[i])
    ensures StripAll(lines) == lines
  {
    forall i | 0 <= i < |lines| ensures Strip(lines[i]) == lines[i] {
      StripTrimmed(lines[i]);
    }
  }

  /** A reply written as one variation per line is read back exactly. */
  lemma VariationsOfLines(lines: seq<string>)
    requires forall i :: 0 <= i < |lines| ==> |lines[i]| > 0 && Trimmed(lines[i]) && '\n' !in lines[i]
    ensures Variations(Join(lines, "\n")) == lines
  {
    if |lines| == 0 {
      assert SplitOn("", '\n') == [""];
      assert Strip("") == "";
    } else {
      JoinSplitOn(lines, '\n');
      StripTrimmedLines(lines);
      NonEmptyKeeps(lines);
    }
  }

  /** Asked for `n` variations, a reply of exactly `n` trimmed, non-empty
      lines yields the query followed by all of them. */
  lemma MultiQueryOfLines(query: string, lines: seq<string>)
    requires forall i :: 0 <= i < |lines| ==> |lines[i]| > 0 && Trimmed(lines[i]) && '\n' !in lines[i]
    ensures MultiQuery(query, Join(lines, "\n"), |lines|) == [query] + lines
  {
    VariationsOfLines(lines);
  }
}
