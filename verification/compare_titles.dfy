/** Title extraction for the compare endpoint (`search_compare` in main.py):
    the extraction model's reply is split into lines, short lines are dropped,
    and each remaining line is trimmed and loses its bullet characters. */
module CompareTitles {
  import opened Base
  import opened Seqs
  import opened Text


  /** `s.lstrip(c)` for one character `c`. */
  function LStripChar(s: string, c: char): (r: string)
    ensures |r| <= |s| && r == s[|s| - |r|..]
    ensures |r| == 0 || r[0] != c
  {
    if |s| > 0 && s[0] == c then LStripChar(s[1..], c) else s
  }

  /** One extracted line made into a title: trimmed, then leading '-', then
      '*', then '•' removed, then trimmed again. */
  function CleanTitle(line: string): (t: string)
    ensures Trimmed(t)
  {
    Strip(LStripChar(LStripChar(LStripChar(Strip(line), '-'), '*'), '•'))
  }

  /** `lstrip` stops at the first other character. */
  lemma LStripCharStops(s: string, c: char)
    requires |s| == 0 || s[0] != c
    ensures LStripChar(s, c) == s
  {
  }

  /** One leading `c` before another character is removed. */
  lemma LStripCharOne(c: char, s: string)
    requires |s| == 0 || s[0] != c
    ensures LStripChar([c] + s, c) == s
  {
    assert ([c] + s)[1..] == s;
  }

  /** A dash bullet in front of a title is removed. */
  lemma DashBulletRemoved(t: string)
    requires |t| > 0 && Trimmed(t) && t[0] != '-' && t[0] != '*' && t[0] != '•'
    ensures CleanTitle("- " + t) == t
  {
    var u := " " + t;
    var s := "- " + t;
    assert s == ['-'] + u;
    assert s[0] == '-' && s[|s| - 1] == t[|t| - 1];
    StripTrimmed(s);
    LStripCharOne('-', u);
    LStripCharStops(u, '*');
    LStripCharStops(u, '•');
    StripOneSpace(t);
    CleanTitleSteps(s, s, u, u, u, t);
  }

  /** `CleanTitle` step by step. */
  lemma CleanTitleSteps(line: string, a: string, b: string, c: string, d: string, e: string)
    requires Strip(line) == a && LStripChar(a, '-') == b && LStripChar(b, '*') == c
    requires LStripChar(c, '•') == d && Strip(d) == e
    ensures CleanTitle(line) == e
  {
  }

  lemma StripOneSpace(t: string)
    requires |t| > 0 && Trimmed(t)
    ensures Strip(" " + t) == t
  {
    StripTemplate(" ", t, "");
    assert " " + t + "" == " " + t;
  }

  /** The bullets are stripped one kind after the other, so a '*' in front of
      a '-' leaves the dash in the title. */
  lemma StarThenDashKeepsDash(t: string)
    requires |t| > 0 && Trimmed(t) && t[0] != '-'
    ensures CleanTitle("*-" + t) == "-" + t
  {
    var u := "-" + t;
    var s := "*-" + t;
    assert s == ['*'] + u;
    assert s[0] == '*' && s[|s| - 1] == t[|t| - 1];
    StripTrimmed(s);
    LStripCharStops(s, '-');
    LStripCharOne('*', u);
    LStripCharStops(u, '•');
    assert u[0] == '-' && u[|u| - 1] == t[|t| - 1];
    StripTrimmed(u);
  }

  /** `[clean(line) for line in lines if line.strip() and len(line.strip()) > 3]` */
  function KeepTitles(lines: seq<string>): (r: seq<string>)
    ensures |r| <= |lines|
    ensures forall t :: t in r ==> Trimmed(t)
  {
    if |lines| == 0 then []
    else
      var rest := KeepTitles(lines[1..]);
      if |Strip(lines[0])| > 3 then [CleanTitle(lines[0])] + rest else rest
  }

  /** A line whose trimmed text is at most three characters long never gives a title. */
  lemma ShortLineSkipped(line: string, lines: seq<string>)
    requires |Strip(line)| <= 3
    ensures KeepTitles([line] + lines) == KeepTitles(lines)
  {
    assert ([line] + lines)[1..] == lines;
  }

  /** A line whose trimmed text is longer than three characters gives its
      cleaned title, ahead of the titles of the lines after it. */
  lemma LongLineKept(line: string, lines: seq<string>)
    requires |Strip(line)| > 3
    ensures KeepTitles([line] + lines) == [CleanTitle(line)] + KeepTitles(lines)
  {
    assert ([line] + lines)[1..] == lines;
  }

  /** The titles the extraction model's reply yields, one per kept line. */
  function ExtractTitles(extracted: string): (r: seq<string>)
    ensures forall t :: t in r ==> Trimmed(t)
  {
    KeepTitles(SplitOn(extracted, '\n'))
  }
}
