/** Python string behaviour the pipeline relies on: `strip`, `split(sep)`,
    `split()`, `lower`, the `in` substring test, `sep.join`, `str(n)` and
    `float(s)`. Strings are sequences of Unicode scalar values, as Python's
    `str` is a sequence of code points. */
module Text {
  import opened Base

  // ---------------------------------------------------------------------------
  // Whitespace and stripping
  // ---------------------------------------------------------------------------

  /** Python's `str.isspace` for one character. */
  predicate IsSpace(c: char)
  {
    || c == ' '
    || ('\t' <= c <= '\r')
    || ('\U{1C}' <= c <= '\U{1F}')
    || c == '\U{85}' || c == '\U{A0}' || c == '\U{1680}'
    || ('\U{2000}' <= c <= '\U{200A}')
    || c == '\U{2028}' || c == '\U{2029}' || c == '\U{202F}'
    || c == '\U{205F}' || c == '\U{3000}'
  }

  predicate AllSpace(s: string)
  {
    forall i :: 0 <= i < |s| ==> IsSpace(s[i])
  }

  /** Neither end of `s` is whitespace: `s` is what `strip` leaves alone. */
  predicate Trimmed(s: string)
  {
    |s| == 0 || (!IsSpace(s[0]) && !IsSpace(s[|s| - 1]))
  }

  /** `s.lstrip()`: the longest suffix that does not start with whitespace. */
  function LStrip(s: string): (r: string)
    ensures |r| <= |s| && r == s[|s| - |r|..]
    ensures forall i :: 0 <= i < |s| - |r| ==> IsSpace(s[i])
    ensures |r| == 0 || !IsSpace(r[0])
    decreases |s|
  {
    if |s| > 0 && IsSpace(s[0]) then LStrip(s[1..]) else s
  }

  /** `s.rstrip()`: the longest prefix that does not end with whitespace. */
  function RStrip(s: string): (r: string)
    ensures |r| <= |s| && r == s[..|r|]
    ensures forall i :: |r| <= i < |s| ==> IsSpace(s[i])
    ensures |r| == 0 || !IsSpace(r[|r| - 1])
    decreases |s|
  {
    if |s| > 0 && IsSpace(s[|s| - 1]) then RStrip(s[..|s| - 1]) else s
  }

  /** `s.strip()` */
  function Strip(s: string): (r: string)
    ensures Trimmed(r)
    ensures |r| <= |s|
  {
    RStrip(LStrip(s))
  }

  /** A string with no whitespace at either end is its own `strip()`. */
  lemma StripTrimmed(s: string)
    requires Trimmed(s)
    ensures Strip(s) == s
  {
    LStripVisible(s);
    RStripVisible(s);
  }

  lemma LStripVisible(s: string)
    requires |s| == 0 || !IsSpace(s[0])
    ensures LStrip(s) == s
  {
  }

  lemma RStripVisible(s: string)
    requires |s| == 0 || !IsSpace(s[|s| - 1])
    ensures RStrip(s) == s
  {
  }

  /** `strip` is idempotent. */
  lemma StripStrip(s: string)
    ensures Strip(Strip(s)) == Strip(s)
  {
    StripTrimmed(Strip(s));
  }

  /** `lstrip` skips a run of whitespace and stops at the first visible character. */
  lemma {:induction false} LStripSkips(ws: string, t: string)
    requires AllSpace(ws)
    requires |t| == 0 || !IsSpace(t[0])
    ensures LStrip(ws + t) == t
    decreases |ws|
  {
    if |ws| == 0 {
      assert ws + t == t;
    } else {
      assert (ws + t)[1..] == ws[1..] + t;
      LStripSkips(ws[1..], t);
    }
  }

  /** Stripping `ws + p + q`, where `ws` is whitespace and `p` starts and ends
      with a visible character, keeps `p` as a prefix. This is how the
      f-string templates of the source keep their first line through `.strip()`. */
  lemma StripKeepsFramedPrefix(ws: string, p: string, q: string)
    requires AllSpace(ws)
    requires |p| > 0 && Trimmed(p)
    ensures |Strip(ws + p + q)| >= |p|
    ensures Strip(ws + p + q)[..|p|] == p
  {
    assert ws + p + q == ws + (p + q);
    LStripSkips(ws, p + q);
    RStripKeepsPrefix(p + q, |p|);
    assert (p + q)[..|p|] == p;
  }

  lemma ConcatFirst(a: string, b: string)
    requires |a| > 0
    ensures |a + b| > 0 && (a + b)[0] == a[0]
  {
  }

  lemma ConcatLast(a: string, b: string)
    requires |b| > 0
    ensures (a + b)[|a + b| - 1] == b[|b| - 1]
  {
  }

  lemma PrefixOfConcat(a: string, b: string)
    ensures IsPrefix(a, a + b)
  {
    assert (a + b)[..|a|] == a;
  }

  /** `rstrip` of a text whose first part ends with a visible character only
      touches the rest. */
  lemma {:induction false} RStripAfterVisible(p: string, tail: string)
    requires |p| > 0 && !IsSpace(p[|p| - 1])
    ensures RStrip(p + tail) == p + RStrip(tail)
    decreases |tail|
  {
    if |tail| == 0 {
      assert p + tail == p;
    } else if IsSpace(tail[|tail| - 1]) {
      assert (p + tail)[..|p + tail| - 1] == p + tail[..|tail| - 1];
      RStripAfterVisible(p, tail[..|tail| - 1]);
    }
  }

  /** `(ws + p + tail).strip()` for whitespace `ws` and a visible-ended `p`:
      the way the source's multi-line f-string templates are stripped. */
  lemma StripTemplate(ws: string, p: string, tail: string)
    requires AllSpace(ws)
    requires |p| > 0 && Trimmed(p)
    ensures Strip(ws + p + tail) == p + RStrip(tail)
  {
    assert ws + p + tail == ws + (p + tail);
    LStripSkips(ws, p + tail);
    RStripAfterVisible(p, tail);
  }

  /** `rstrip` never cuts into a prefix that ends with a visible character. */
  lemma RStripKeepsPrefix(t: string, n: nat)
    requires 0 < n <= |t| && !IsSpace(t[n - 1])
    ensures |RStrip(t)| >= n && RStrip(t)[..n] == t[..n]
  {
  }

  // ---------------------------------------------------------------------------
  // Joining and splitting
  // ---------------------------------------------------------------------------

  /** `sep.join(parts)` */
  function Join(parts: seq<string>, sep: string): string
  {
    if |parts| == 0 then ""
    else if |parts| == 1 then parts[0]
    else parts[0] + sep + Join(parts[1..], sep)
  }

  /** `s.split(sep)` for a one-character separator: never empty, and no piece
      contains the separator. */
  function SplitOn(s: string, sep: char): (r: seq<string>)
    ensures |r| >= 1
    ensures forall i :: 0 <= i < |r| ==> sep !in r[i]
    decreases |s|
  {
    if |s| == 0 then [""]
    else
      var rest := SplitOn(s[1..], sep);
      if s[0] == sep then [""] + rest
      else [[s[0]] + rest[0]] + rest[1..]
  }

  /** Splitting loses nothing: joining the pieces back gives the input. */
  lemma {:induction false} SplitOnJoin(s: string, sep: char)
    ensures Join(SplitOn(s, sep), [sep]) == s
    decreases |s|
  {
    if |s| > 0 {
      var rest := SplitOn(s[1..], sep);
      SplitOnJoin(s[1..], sep);
      if s[0] != sep && |rest| > 1 {
        assert Join(rest, [sep]) == rest[0] + [sep] + Join(rest[1..], [sep]);
        assert ([[s[0]] + rest[0]] + rest[1..])[1..] == rest[1..];
      }
    }
  }

  lemma {:induction false} SplitOnPiece(x: string, sep: char)
    requires sep !in x
    ensures SplitOn(x, sep) == [x]
    decreases |x|
  {
    if |x| > 0 {
      SplitOnPiece(x[1..], sep);
      assert [x[0]] + x[1..] == x;
    }
  }

  lemma {:induction false} SplitOnPieceThenRest(x: string, sep: char, rest: string)
    requires sep !in x
    ensures SplitOn(x + [sep] + rest, sep) == [x] + SplitOn(rest, sep)
    decreases |x|
  {
    var s := x + [sep] + rest;
    if |x| == 0 {
      assert s[1..] == rest;
    } else {
      assert s[1..] == x[1..] + [sep] + rest;
      SplitOnPieceThenRest(x[1..], sep, rest);
      assert [x[0]] + x[1..] == x;
    }
  }

  /** Splitting is the inverse of joining separator-free pieces, so `SplitOn`
      is the only decomposition with that property. */
  lemma {:induction false} JoinSplitOn(parts: seq<string>, sep: char)
    requires |parts| >= 1
    requires forall i :: 0 <= i < |parts| ==> sep !in parts[i]
    ensures SplitOn(Join(parts, [sep]), sep) == parts
    decreases |parts|
  {
    if |parts| == 1 {
      SplitOnPiece(parts[0], sep);
    } else {
      JoinSplitOn(parts[1..], sep);
      SplitOnPieceThenRest(parts[0], sep, Join(parts[1..], [sep]));
      assert [parts[0]] + parts[1..] == parts;
    }
  }

  /** A word of `str.split()`: non-empty, no whitespace. */
  predicate IsWord(w: string)
  {
    |w| > 0 && forall j :: 0 <= j < |w| ==> !IsSpace(w[j])
  }

  /** `s.split()` with no argument: the maximal runs of non-whitespace. */
  function Words(s: string): (r: seq<string>)
    ensures forall i :: 0 <= i < |r| ==> IsWord(r[i])
    ensures |s| > 0 && !IsSpace(s[0]) ==> |r| > 0 && |r[0]| > 0 && r[0][0] == s[0]
    decreases |s|
  {
    if |s| == 0 then []
    else if IsSpace(s[0]) then Words(s[1..])
    else
      var rest := Words(s[1..]);
      if |s| > 1 && !IsSpace(s[1]) then [[s[0]] + rest[0]] + rest[1..]
      else [[s[0]]] + rest
  }

  lemma {:induction false} WordsOfWordThen(w: string, t: string)
    requires IsWord(w)
    requires |t| == 0 || IsSpace(t[0])
    ensures Words(w + t) == [w] + Words(t)
    decreases |w|
  {
    var s := w + t;
    assert s[0] == w[0] && s[1..] == w[1..] + t;
    if |w| > 1 {
      assert s[1] == w[1];
      WordsOfWordThen(w[1..], t);
      assert [w[0]] + w[1..] == w;
    } else {
      assert w == [w[0]] && s[1..] == t;
    }
  }

  /** Splitting words joined by single spaces gives the words back. */
  lemma {:induction false} WordsJoin(ws: seq<string>)
    requires forall i :: 0 <= i < |ws| ==> IsWord(ws[i])
    ensures Words(Join(ws, " ")) == ws
    decreases |ws|
  {
    if |ws| == 1 {
      WordsOfWordThen(ws[0], "");
      assert ws[0] + "" == ws[0];
    } else if |ws| > 1 {
      var tail := Join(ws[1..], " ");
      WordsJoin(ws[1..]);
      assert ws[0] + " " + tail == ws[0] + (" " + tail);
      WordsOfWordThen(ws[0], " " + tail);
      assert (" " + tail)[1..] == tail;
      assert [ws[0]] + ws[1..] == ws;
    }
  }

  // ---------------------------------------------------------------------------
  // Case and substrings
  // ---------------------------------------------------------------------------

  function LowerChar(c: char): char
  {
    if 'A' <= c <= 'Z' then (c as int + 32) as char else c
  }

  /** `s.lower()` (ASCII letters). */
  function Lower(s: string): (r: string)
    ensures |r| == |s|
    ensures forall i :: 0 <= i < |s| ==> r[i] == LowerChar(s[i])
  {
    if |s| == 0 then "" else [LowerChar(s[0])] + Lower(s[1..])
  }

  predicate IsPrefix(p: string, s: string)
  {
    |p| <= |s| && s[..|p|] == p
  }

  /** `needle` occurs in `hay` starting at index `i`. */
  predicate OccursAt(hay: string, needle: string, i: int)
  {
    0 <= i && i + |needle| <= |hay| && hay[i..i + |needle|] == needle
  }

  /** `needle` occurs somewhere in `hay`. */
  ghost predicate Occurs(hay: string, needle: string)
  {
    exists i :: OccursAt(hay, needle, i)
  }

  /** Python's `needle in hay`. */
  predicate Contains(hay: string, needle: string)
    decreases |hay|
  {
    IsPrefix(needle, hay) || (|hay| > 0 && Contains(hay[1..], needle))
  }

  /** `Contains` holds exactly when the needle occurs at some index. */
  lemma {:induction false} ContainsIffOccurs(hay: string, needle: string)
    ensures Contains(hay, needle) <==> Occurs(hay, needle)
    decreases |hay|
  {
    if IsPrefix(needle, hay) {
      assert OccursAt(hay, needle, 0);
    }
    if |hay| > 0 {
      ContainsIffOccurs(hay[1..], needle);
      if Contains(hay[1..], needle) {
        var i :| OccursAt(hay[1..], needle, i);
        assert hay[1..][i..i + |needle|] == hay[i + 1..i + 1 + |needle|];
        assert OccursAt(hay, needle, i + 1);
      }
      if i :| OccursAt(hay, needle, i) {
        if i > 0 {
          assert hay[1..][i - 1..i - 1 + |needle|] == hay[i..i + |needle|];
          assert OccursAt(hay[1..], needle, i - 1);
        } else {
          assert IsPrefix(needle, hay);
        }
      }
    } else {
      if i :| OccursAt(hay, needle, i) {
        assert |needle| == 0 && IsPrefix(needle, hay);
      }
    }
  }

  // ---------------------------------------------------------------------------
  // Numbers
  // ---------------------------------------------------------------------------

  predicate IsDigit(c: char) { '0' <= c <= '9' }

  predicate AllDigits(s: string)
  {
    forall i :: 0 <= i < |s| ==> IsDigit(s[i])
  }

  /** The value of a string of decimal digits (0 for the empty string). */
  function DigitsValue(s: string): nat
    requires AllDigits(s)
  {
    if |s| == 0 then 0
    else 10 * DigitsValue(s[..|s| - 1]) + (s[|s| - 1] as int - '0' as int)
  }

  function DigitChar(d: nat): (c: char)
    requires d < 10
    ensures IsDigit(c) && c as int - '0' as int == d
  {
    ('0' as int + d) as char
  }

  /** `str(n)` for a natural number: its decimal digits, read back exactly. */
  function NatToString(n: nat): (r: string)
    ensures |r| > 0 && AllDigits(r)
    ensures DigitsValue(r) == n
  {
    if n < 10 then [DigitChar(n)]
    else
      var p := NatToString(n / 10);
      var r := p + [DigitChar(n % 10)];
      assert r[..|r| - 1] == p;
      r
  }

  function Pow10(n: nat): (r: nat)
    ensures r > 0
  {
    if n == 0 then 1 else 10 * Pow10(n - 1)
  }

  /** Index of the first `c` in `s`, or `|s|` when there is none. */
  function IndexOf(s: string, c: char): (i: nat)
    ensures i <= |s|
    ensures i < |s| ==> s[i] == c
    ensures c !in s[..i]
  {
    if |s| == 0 then 0
    else if s[0] == c then 0
    else
      var j := IndexOf(s[1..], c);
      assert s[..j + 1] == [s[0]] + s[1..][..j];
      j + 1
  }

  /** Characters that can occur in a string `ParseNumber` accepts. */
  predicate NumberChar(c: char)
  {
    IsDigit(c) || c == '.' || c == '-' || c == '+'
  }

  /** Unsigned decimal: digits, optionally one '.', at least one digit. */
  function ParseUnsigned(t: string): (r: Option<real>)
    ensures r.Some? ==> r.value >= 0.0
    ensures r.Some? ==> NumberText(t)
  {
    var i := IndexOf(t, '.');
    var whole := t[..i];
    var frac := if i < |t| then t[i + 1..] else "";
    if AllDigits(whole) && AllDigits(frac) && (|whole| > 0 || |frac| > 0) then
      assert forall j :: 0 <= j < i ==> t[j] == whole[j];
      assert forall j :: i < j < |t| ==> t[j] == frac[j - i - 1];
      assert |whole| > 0 ==> IsDigit(t[0]);
      assert |whole| == 0 ==> i == 0 && IsDigit(t[1..][0]);
      Some(DecimalValue(whole, frac))
    else None
  }

  /** `x` divided by ten, `n` times. */
  function Shift(x: real, n: nat): real
  {
    if n == 0 then x else Shift(x, n - 1) / 10.0
  }

  /** Shifting `n` places and scaling back by `10^n` gives `x` again. */
  lemma {:induction false} ShiftScale(x: real, n: nat)
    ensures Shift(x, n) * Pow10(n) as real == x
  {
    if n > 0 {
      ShiftScale(x, n - 1);
      var a, b := Shift(x, n - 1), Pow10(n - 1) as real;
      assert (a / 10.0) * (10.0 * b) == a * b;
    }
  }

  lemma ShiftNonNegative(x: real, n: nat)
    requires x >= 0.0
    ensures Shift(x, n) >= 0.0
  {
  }

  /** The value of `whole.frac` written in decimal: the whole part plus the
      fraction digits shifted right by their count. */
  function DecimalValue(whole: string, frac: string): (v: real)
    requires AllDigits(whole) && AllDigits(frac)
    ensures v >= 0.0
    ensures |frac| == 0 ==> v == DigitsValue(whole) as real
  {
    ShiftNonNegative(DigitsValue(frac) as real, |frac|);
    DigitsValue(whole) as real + Shift(DigitsValue(frac) as real, |frac|)
  }

  /** Python's `float(s)` on plain decimal notation: surrounding whitespace is
      ignored, one optional sign, digits with at most one point. `None` stands
      for the `ValueError` Python raises. */
  function ParseNumber(s: string): (r: Option<real>)
    ensures r.Some? ==> NumberText(Strip(s))
  {
    ParseSigned(Strip(s))
  }

  /** `float` on text without surrounding whitespace: one optional sign, then
      an unsigned decimal. */
  function ParseSigned(t: string): (r: Option<real>)
    ensures r.Some? ==> NumberText(t)
  {
    if |t| > 0 && (t[0] == '-' || t[0] == '+') then
      var u := ParseUnsigned(t[1..]);
      if u.None? then None
      else
        SignedText(t);
        Some(if t[0] == '-' then -u.value else u.value)
    else ParseUnsigned(t)
  }

  /** A sign in front of number text gives number text. */
  lemma SignedText(t: string)
    requires |t| > 0 && NumberChar(t[0]) && NumberText(t[1..])
    ensures NumberText(t)
  {
    assert forall i :: 0 < i < |t| ==> t[i] == t[1..][i - 1];
  }

  /** Made only of digits, signs and points, with at least one digit. */
  predicate NumberText(t: string)
  {
    && (forall i :: 0 <= i < |t| ==> NumberChar(t[i]))
    && HasDigit(t)
  }

  /** Some character of `t` is a digit. */
  predicate HasDigit(t: string)
    decreases |t|
  {
    |t| > 0 && (IsDigit(t[0]) || HasDigit(t[1..]))
  }

  /** `HasDigit` means what it says: some position holds a digit. */
  lemma {:induction false} HasDigitAt(t: string)
    ensures HasDigit(t) <==> exists i :: 0 <= i < |t| && IsDigit(t[i])
    decreases |t|
  {
    if |t| > 0 {
      HasDigitAt(t[1..]);
      if HasDigit(t[1..]) && !IsDigit(t[0]) {
        var i :| 0 <= i < |t[1..]| && IsDigit(t[1..][i]);
        assert IsDigit(t[i + 1]);
      }
      if !IsDigit(t[0]) && exists i :: 0 <= i < |t| && IsDigit(t[i]) {
        var i :| 0 <= i < |t| && IsDigit(t[i]);
        assert t[1..][i - 1] == t[i];
      }
    }
  }

  /** A non-empty digit string is read as its decimal value. */
  lemma ParseUnsignedDigits(d: string)
    requires |d| > 0 && AllDigits(d)
    ensures ParseUnsigned(d) == Some(DigitsValue(d) as real)
  {
    assert IndexOf(d, '.') == |d| by {
      assert '.' !in d;
    }
    assert d[..|d|] == d;
  }

  /** A string with a character outside digits, sign and point never parses. */
  lemma NonNumericFails(s: string, i: int)
    requires 0 <= i < |Strip(s)| && !NumberChar(Strip(s)[i])
    ensures ParseNumber(s) == None
  {
  }

  /** Blank text never parses. */
  lemma BlankFails(s: string)
    requires AllSpace(s)
    ensures ParseNumber(s) == None
  {
    LStripSkips(s, "");
    assert s + "" == s;
  }

  /** The decimal text of a natural number parses back to that number. */
  lemma NatRoundTrip(n: nat)
    ensures ParseNumber(NatToString(n)) == Some(n as real)
  {
    var s := NatToString(n);
    assert IsDigit(s[0]) && IsDigit(s[|s| - 1]);
    StripTrimmed(s);
    ParseUnsignedDigits(s);
  }

  /** The same with a leading minus sign. */
  lemma NegativeNatRoundTrip(n: nat)
    ensures ParseNumber("-" + NatToString(n)) == Some(-(n as real))
  {
    var d := NatToString(n);
    var s := "-" + d;
    assert s[|s| - 1] == d[|d| - 1] && IsDigit(d[|d| - 1]);
    StripTrimmed(s);
    assert s[1..] == d;
    ParseUnsignedDigits(d);
  }

  /** Digits, a point and digits (either side may be empty, not both) are
      read as the decimal they spell. */
  lemma UnsignedDecimal(whole: string, frac: string)
    requires AllDigits(whole) && AllDigits(frac) && |whole| + |frac| > 0
    ensures ParseUnsigned(whole + "." + frac) == Some(DecimalValue(whole, frac))
  {
    var t := whole + "." + frac;
    var i := IndexOf(t, '.');
    assert t[|whole|] == '.';
    assert i == |whole| < |t|;
    assert t[..i] == whole && t[i + 1..] == frac;
  }

  /** `float(w + "." + f)` for digit strings `w` and `f`, not both empty, is
      the decimal number they spell. */
  lemma DecimalRoundTrip(whole: string, frac: string)
    requires AllDigits(whole) && AllDigits(frac) && |whole| + |frac| > 0
    ensures ParseNumber(whole + "." + frac) == Some(DecimalValue(whole, frac))
  {
    var t := whole + "." + frac;
    assert t[0] == if |whole| > 0 then whole[0] else '.';
    assert t[|t| - 1] == if |frac| > 0 then frac[|frac| - 1] else '.';
    StripTrimmed(t);
    UnsignedDecimal(whole, frac);
  }

  /** A concrete reading: "7.5" is seven and a half. */
  lemma DecimalExample(s: string)
    requires s == "7.5"
    ensures ParseNumber(s) == Some(7.5)
  {
    var whole, frac := s[..1], s[2..];
    assert s == whole + "." + frac;
    assert whole[0] == '7' && frac[0] == '5';
    DecimalRoundTrip(whole, frac);
    assert DigitsValue(whole) == 7 && DigitsValue(frac) == 5;
    assert Shift(5.0, 1) == 0.5;
  }

  /** A minus sign in front of any text that parses unsigned (digits, or a
      decimal as in `UnsignedDecimal`) gives the negated value. */
  lemma NegativeNumber(u: string)
    ensures ParseUnsigned(u).Some? ==> ParseNumber("-" + u) == Some(-ParseUnsigned(u).value)
  {
    if ParseUnsigned(u).Some? {
      var t := "-" + u;
      NumberTextEnds(u);
      assert t[|t| - 1] == u[|u| - 1];
      StripTrimmed(t);
      NegativeSign(t, u);
    }
  }

  /** Number text is non-empty and ends in a visible character. */
  lemma NumberTextEnds(u: string)
    requires NumberText(u)
    ensures |u| > 0 && !IsSpace(u[|u| - 1])
  {
    assert NumberChar(u[|u| - 1]);
  }

  /** The sign step of `ParseSigned`: a leading minus negates the rest. */
  lemma NegativeSign(t: string, u: string)
    requires t == "-" + u && ParseUnsigned(u).Some?
    ensures ParseSigned(t) == Some(-ParseUnsigned(u).value)
  {
    assert t[0] == '-' && t[1..] == u;
  }

  /** Unsigned text with two points never parses. */
  lemma UnsignedTwoPointsFail(u: string, i: int, j: int)
    requires 0 <= i < j < |u| && u[i] == '.' && u[j] == '.'
    ensures ParseUnsigned(u) == None
  {
    var k := IndexOf(u, '.');
    assert u[k + 1..][j - k - 1] == '.';
  }

  /** Text with a second decimal point (such as "7.5.1") never parses. */
  lemma TwoPointsFail(s: string, i: int, j: int)
    requires 0 <= i < j < |Strip(s)| && Strip(s)[i] == '.' && Strip(s)[j] == '.'
    ensures ParseNumber(s) == None
  {
    SignedTwoPointsFail(Strip(s), i, j);
  }

  lemma SignedTwoPointsFail(t: string, i: int, j: int)
    requires 0 <= i < j < |t| && t[i] == '.' && t[j] == '.'
    ensures ParseSigned(t) == None
  {
    if t[0] == '-' || t[0] == '+' {
      var u := t[1..];
      assert i > 0 && u[i - 1] == t[i] && u[j - 1] == t[j];
      UnsignedTwoPointsFail(u, i - 1, j - 1);
    } else {
      UnsignedTwoPointsFail(t, i, j);
    }
  }

  /** Text without a digit (a bare sign, a bare point) never parses. */
  lemma DigitlessFails(s: string)
    requires forall i :: 0 <= i < |Strip(s)| ==> !IsDigit(Strip(s)[i])
    ensures ParseNumber(s) == None
  {
    HasDigitAt(Strip(s));
  }
}
