/** The CSV loaders (document_loader.py): each row of a dataset becomes one
    document whose content is a block of labelled lines and whose metadata
    carries the keys the later stages read (source, title, genre, rating).
    The CSV file itself is given as its rows; a row maps column names to
    cells, and a cell pandas read as NaN is `Missing`. */
module DocumentLoader {
  import opened Base
  import opened Seqs
  import opened Text
  import opened Documents

  // ---------------------------------------------------------------------------
  // Rows and cells
  // ---------------------------------------------------------------------------

  /** One CSV cell: its text, or NaN for an empty cell. */
  datatype Cell = Present(text: string) | Missing

  /** One row of the data frame, by column name. */
  type Row = map<string, Cell>

  /** `row[column]` after `df.fillna("")`: a NaN cell reads as the empty
      string. Only used for columns the row has. */
  function Val(row: Row, column: string): (v: string)
    ensures column in row && row[column].Missing? ==> v == ""
    ensures column in row && row[column].Present? ==> v == row[column].text
  {
    if column in row then
      match row[column]
      case Present(s) => s
      case Missing => ""
    else ""
  }

  /** The first of `columns` the row lacks: the `KeyError` raised while the
      row is read, the columns being listed in the order the loader reads
      them. */
  function FirstMissing(row: Row, columns: seq<string>): (r: Option<string>)
    ensures r.None? <==> forall i :: 0 <= i < |columns| ==> columns[i] in row
    ensures r.Some? ==> exists i :: 0 <= i < |columns| && columns[i] == r.value && r.value !in row
                                    && forall j :: 0 <= j < i ==> columns[j] in row
  {
    if |columns| == 0 then None
    else if columns[0] !in row then Some(columns[0])
    else
      var r := FirstMissing(row, columns[1..]);
      assert forall i :: 1 <= i < |columns| ==> columns[i] == columns[1..][i - 1];
      r
  }

  // ---------------------------------------------------------------------------
  // Content blocks
  // ---------------------------------------------------------------------------

  /** One labelled line of a content block. */
  datatype Field = Field(name: string, value: string)

  function Line(f: Field): string
  {
    f.name + ": " + f.value
  }

  /** The labelled lines, one per field, separated by newlines. */
  function Body(fields: seq<Field>): string
  {
    if |fields| == 0 then ""
    else if |fields| == 1 then Line(fields[0])
    else Line(fields[0]) + "\n" + Body(fields[1..])
  }

  /** The indentation before the closing quotes of the source's templates. */
  const Trailer: string := "\n            "

  /** The triple-quoted template (a newline, the labelled lines, then the
      indented closing line) after `.strip()`. */
  function Content(fields: seq<Field>): string
  {
    Strip("\n" + Body(fields) + Trailer)
  }

  /** A label starts with a visible character. */
  predicate Labelled(f: Field)
  {
    |f.name| > 0 && !IsSpace(f.name[0])
  }

  /** The content opens with the first labelled line, followed by the line
      break before the second one. */
  lemma ContentOpensWith(fields: seq<Field>)
    requires |fields| >= 2 && Labelled(fields[0]) && Labelled(fields[1])
    ensures IsPrefix(Line(fields[0]) + "\n", Content(fields))
  {
    var first := Line(fields[0]) + "\n";
    var b := Body(fields);
    var t := b + Trailer;
    BodyOpening(fields);
    BodyFirst(fields);
    assert "\n" + b + Trailer == "\n" + t;
    LStripSkips("\n", t);
    var n := |first| + |fields[1].name| + 1;
    assert t[n - 1] == ':';
    RStripKeepsPrefix(t, n);
    assert t[..|first|] == first;
    assert RStrip(t)[..|first|] == RStrip(t)[..n][..|first|];
  }

  /** A body of two or more lines begins with the first line, a line break,
      and the second label followed by its colon. */
  lemma BodyOpening(fields: seq<Field>)
    requires |fields| >= 2
    ensures var first := Line(fields[0]) + "\n";
            |Body(fields)| > |first| + |fields[1].name|
            && Body(fields)[..|first|] == first
            && Body(fields)[|first| + |fields[1].name|] == ':'
  {
    var first := Line(fields[0]) + "\n";
    var rest := fields[1..];
    var b := Body(rest);
    assert Body(fields) == first + b;
    BodyOpensWithLine(rest);
    var l := Line(rest[0]);
    assert l[|rest[0].name|] == ':';
    assert (first + b)[|first| + |rest[0].name|] == b[|rest[0].name|];
  }

  lemma BodyOpensWithLine(fields: seq<Field>)
    requires |fields| > 0
    ensures IsPrefix(Line(fields[0]), Body(fields))
  {
    var l := Line(fields[0]);
    if |fields| > 1 {
      var b := Body(fields[1..]);
      assert Body(fields) == l + ("\n" + b);
      PrefixOfConcat(l, "\n" + b);
    }
  }

  lemma BodyFirst(fields: seq<Field>)
    requires |fields| > 0 && Labelled(fields[0])
    ensures |Body(fields)| > 0 && Body(fields)[0] == fields[0].name[0]
  {
    assert Line(fields[0])[0] == fields[0].name[0];
  }

  lemma {:induction false} BodyLast(fields: seq<Field>)
    requires |fields| > 0
    ensures var last := Line(fields[|fields| - 1]);
            |Body(fields)| > 0 && Body(fields)[|Body(fields)| - 1] == last[|last| - 1]
    decreases |fields|
  {
    if |fields| > 1 {
      var rest := fields[1..];
      BodyLast(rest);
      assert rest[|rest| - 1] == fields[|fields| - 1];
    }
  }

  lemma RStripBlank(ws: string)
    requires AllSpace(ws)
    ensures RStrip(ws) == ""
  {
  }

  /** Once the last labelled line ends with a visible character, `.strip()`
      removes exactly the template's framing: the content is the labelled
      lines themselves. */
  lemma ContentIsBody(fields: seq<Field>)
    requires |fields| > 0 && Labelled(fields[0])
    requires var last := Line(fields[|fields| - 1]); !IsSpace(last[|last| - 1])
    ensures Content(fields) == Body(fields)
  {
    BodyFirst(fields);
    BodyLast(fields);
    StripTemplate("\n", Body(fields), Trailer);
    assert AllSpace(Trailer);
    RStripBlank(Trailer);
  }

  // ---------------------------------------------------------------------------
  // The four loaders
  // ---------------------------------------------------------------------------

  /** What reading one row gives: the document, or the missing column. */
  type RowResult = Result<Doc, string>

  /** A loader's metadata: the entries only that loader writes, and the four
      every loader writes (source tag, title, genre and rating), which later
      stages read. */
  function Tagged(source: string, title: string, genre: string, rating: string,
                  others: map<string, string>): (m: map<string, string>)
    ensures "source" in m && m["source"] == source
    ensures "title" in m && m["title"] == title
    ensures "genre" in m && m["genre"] == genre
    ensures "rating" in m && m["rating"] == rating
    ensures forall k :: k in others && k !in {"source", "title", "genre", "rating"} ==> k in m && m[k] == others[k]
  {
    others["rating" := rating]["genre" := genre]["title" := title]["source" := source]
  }

  /** A row's document once every column the loader reads is present. */
  function Checked(row: Row, columns: seq<string>, d: Doc): (r: RowResult)
    ensures r.Success? <==> FirstMissing(row, columns).None?
    ensures r.Success? ==> r.value == d
    ensures r.Failure? ==> r.error == FirstMissing(row, columns).value
  {
    match FirstMissing(row, columns)
    case Some(c) => Failure(c)
    case None => Success(d)
  }

  /** The Netflix columns in the order `load_netflix_data` reads them: the
      content lines first, then the metadata entries not read before. */
  const NetflixColumns: seq<string> :=
    ["title", "type", "description", "director", "cast", "country", "listed_in",
     "show_id", "release_year", "rating", "duration"]

  function NetflixFields(row: Row): seq<Field>
  {
    [Field("Title", Val(row, "title")), Field("Type", Val(row, "type")),
     Field("Description", Val(row, "description")), Field("Director", Val(row, "director")),
     Field("Cast", Val(row, "cast")), Field("Country", Val(row, "country")),
     Field("Listed In", Val(row, "listed_in"))]
  }

  /** One Netflix row as a document; the genre is the `listed_in` column. */
  function NetflixDoc(row: Row): (r: RowResult)
    ensures r.Success? <==> FirstMissing(row, NetflixColumns).None?
    ensures r.Success? ==> Meta(r.value, "source", "") == "netflix"
    ensures r.Success? ==> Meta(r.value, "title", "") == Val(row, "title")
    ensures r.Success? ==> Meta(r.value, "genre", "") == Val(row, "listed_in")
    ensures r.Success? ==> Meta(r.value, "rating", "") == Val(row, "rating")
    ensures r.Success? ==> IsPrefix(Line(Field("Title", Val(row, "title"))) + "\n", r.value.content)
  {
    var fields := NetflixFields(row);
    TitleLineOpens(fields, Val(row, "title"));
    Checked(row, NetflixColumns,
            Doc(Content(fields),
                Tagged("netflix", Val(row, "title"), Val(row, "listed_in"), Val(row, "rating"),
                       map["show_id" := Val(row, "show_id"), "type" := Val(row, "type"),
                           "release_year" := Val(row, "release_year"), "duration" := Val(row, "duration"),
                           "country" := Val(row, "country")])))
  }

  /** The TV-show columns in the order `load_tv_shows_data` reads them. */
  const TvColumns: seq<string> :=
    ["title", "original_title", "overview", "genre", "country_origin", "original_language",
     "id", "premiere_date", "popularity", "rating", "votes"]

  function TvFields(row: Row): seq<Field>
  {
    [Field("Title", Val(row, "title")), Field("Original Title", Val(row, "original_title")),
     Field("Overview", Val(row, "overview")), Field("Genre", Val(row, "genre")),
     Field("Country", Val(row, "country_origin")), Field("Language", Val(row, "original_language"))]
  }

  /** One TV-show row as a document. */
  function TvDoc(row: Row): (r: RowResult)
    ensures r.Success? <==> FirstMissing(row, TvColumns).None?
    ensures r.Success? ==> Meta(r.value, "source", "") == "tv_shows"
    ensures r.Success? ==> Meta(r.value, "title", "") == Val(row, "title")
    ensures r.Success? ==> Meta(r.value, "genre", "") == Val(row, "genre")
    ensures r.Success? ==> Meta(r.value, "rating", "") == Val(row, "rating")
    ensures r.Success? ==> IsPrefix(Line(Field("Title", Val(row, "title"))) + "\n", r.value.content)
  {
    var fields := TvFields(row);
    TitleLineOpens(fields, Val(row, "title"));
    Checked(row, TvColumns,
            Doc(Content(fields),
                Tagged("tv_shows", Val(row, "title"), Val(row, "genre"), Val(row, "rating"),
                       map["show_id" := Val(row, "id"), "premiere_date" := Val(row, "premiere_date"),
                           "popularity" := Val(row, "popularity"), "country" := Val(row, "country_origin"),
                           "language" := Val(row, "original_language"), "votes" := Val(row, "votes")])))
  }

  /** The IMDB Indian-movie columns in the order `load_imdb_movies_data` reads them. */
  const ImdbColumns: seq<string> :=
    ["Name", "Year", "Duration", "Genre", "Rating", "Director", "Actor 1", "Actor 2", "Actor 3", "Votes"]

  /** The duration line carries the unit, and the cast line lists the three
      actors separated by commas. */
  function ImdbFields(row: Row): seq<Field>
  {
    [Field("Title", Val(row, "Name")), Field("Year", Val(row, "Year")),
     Field("Duration", Val(row, "Duration") + " minutes"), Field("Genre", Val(row, "Genre")),
     Field("Rating", Val(row, "Rating")), Field("Director", Val(row, "Director")),
     Field("Cast", Val(row, "Actor 1") + ", " + Val(row, "Actor 2") + ", " + Val(row, "Actor 3"))]
  }

  /** One IMDB Indian-movie row as a document; the title is the `Name` column. */
  function ImdbDoc(row: Row): (r: RowResult)
    ensures r.Success? <==> FirstMissing(row, ImdbColumns).None?
    ensures r.Success? ==> Meta(r.value, "source", "") == "imdb_indian"
    ensures r.Success? ==> Meta(r.value, "title", "") == Val(row, "Name")
    ensures r.Success? ==> Meta(r.value, "genre", "") == Val(row, "Genre")
    ensures r.Success? ==> Meta(r.value, "rating", "") == Val(row, "Rating")
    ensures r.Success? ==> IsPrefix(Line(Field("Title", Val(row, "Name"))) + "\n", r.value.content)
  {
    var fields := ImdbFields(row);
    TitleLineOpens(fields, Val(row, "Name"));
    Checked(row, ImdbColumns,
            Doc(Content(fields),
                Tagged("imdb_indian", Val(row, "Name"), Val(row, "Genre"), Val(row, "Rating"),
                       map["year" := Val(row, "Year"), "duration" := Val(row, "Duration"),
                           "votes" := Val(row, "Votes"), "director" := Val(row, "Director")])))
  }

  /** The columns of the newer IMDB file in the order `load_new_imdb_data` reads them. */
  const NewImdbColumns: seq<string> :=
    ["title", "year", "duration", "genre", "rating", "description", "stars", "votes"]

  function NewImdbFields(row: Row): seq<Field>
  {
    [Field("Title", Val(row, "title")), Field("Year", Val(row, "year")),
     Field("Duration", Val(row, "duration")), Field("Genre", Val(row, "genre")),
     Field("Rating", Val(row, "rating")), Field("Description", Val(row, "description")),
     Field("Stars", Val(row, "stars")), Field("Votes", Val(row, "votes"))]
  }

  /** One row of the newer IMDB file as a document. */
  function NewImdbDoc(row: Row): (r: RowResult)
    ensures r.Success? <==> FirstMissing(row, NewImdbColumns).None?
    ensures r.Success? ==> Meta(r.value, "source", "") == "new_imdb"
    ensures r.Success? ==> Meta(r.value, "title", "") == Val(row, "title")
    ensures r.Success? ==> Meta(r.value, "genre", "") == Val(row, "genre")
    ensures r.Success? ==> Meta(r.value, "rating", "") == Val(row, "rating")
    ensures r.Success? ==> IsPrefix(Line(Field("Title", Val(row, "title"))) + "\n", r.value.content)
  {
    var fields := NewImdbFields(row);
    TitleLineOpens(fields, Val(row, "title"));
    Checked(row, NewImdbColumns,
            Doc(Content(fields),
                Tagged("new_imdb", Val(row, "title"), Val(row, "genre"), Val(row, "rating"),
                       map["year" := Val(row, "year"), "duration" := Val(row, "duration"),
                           "votes" := Val(row, "votes"), "description" := Val(row, "description"),
                           "stars" := Val(row, "stars")])))
  }

  /** Every template opens with its title line. */
  lemma TitleLineOpens(fields: seq<Field>, title: string)
    requires |fields| >= 2 && fields[0] == Field("Title", title)
    requires |fields[1].name| > 0 && 'A' <= fields[1].name[0] <= 'Z'
    ensures IsPrefix(Line(Field("Title", title)) + "\n", Content(fields))
  {
    assert Labelled(fields[0]);
    ContentOpensWith(fields);
  }

  /** The title line reads "Title: " and the title. */
  lemma TitleLineText(title: string)
    ensures Line(Field("Title", title)) == "Title: " + title
  {
    assert "Title" + ": " == "Title: ";
  }

  // ---------------------------------------------------------------------------
  // Whole files
  // ---------------------------------------------------------------------------

  /** The `iterrows` loop: one document per row, in row order; the first row
      that raises ends the load with its error. */
  function Load(rows: seq<Row>, docOf: Row -> RowResult): (r: Result<seq<Doc>, string>)
    ensures r.Success? <==> forall i :: 0 <= i < |rows| ==> docOf(rows[i]).Success?
    ensures r.Success? ==> |r.value| == |rows|
    ensures r.Success? ==> forall i :: 0 <= i < |rows| ==> docOf(rows[i]) == Success(r.value[i])
    ensures r.Failure? ==> exists i :: 0 <= i < |rows| && docOf(rows[i]) == Failure(r.error)
                                       && forall j :: 0 <= j < i ==> docOf(rows[j]).Success?
  {
    if |rows| == 0 then Success([])
    else
      var rest := Load(rows[1..], docOf);
      assert forall i :: 1 <= i < |rows| ==> rows[i] == rows[1..][i - 1];
      match docOf(rows[0])
      case Failure(e) => Failure(e)
      case Success(d) =>
        match rest
        case Failure(e) => Failure(e)
        case Success(ds) => Success([d] + ds)
  }

  function LoadNetflix(rows: seq<Row>): Result<seq<Doc>, string> { Load(rows, NetflixDoc) }

  function LoadTvShows(rows: seq<Row>): Result<seq<Doc>, string> { Load(rows, TvDoc) }

  function LoadImdbMovies(rows: seq<Row>): Result<seq<Doc>, string> { Load(rows, ImdbDoc) }

  function LoadNewImdb(rows: seq<Row>): Result<seq<Doc>, string> { Load(rows, NewImdbDoc) }

  /** Every document a successful load returns carries the loader's source tag. */
  lemma LoadTags(rows: seq<Row>, docOf: Row -> RowResult, source: string)
    requires forall row :: docOf(row).Success? ==> Meta(docOf(row).value, "source", "") == source
    ensures Load(rows, docOf).Success? ==>
      forall i :: 0 <= i < |Load(rows, docOf).value| ==> Meta(Load(rows, docOf).value[i], "source", "") == source
  {
    var r := Load(rows, docOf);
    if r.Success? {
      forall i | 0 <= i < |r.value| ensures Meta(r.value[i], "source", "") == source {
        assert docOf(rows[i]) == Success(r.value[i]);
      }
    }
  }

  /** `load_all_datasets`: the Netflix documents, then the TV-show documents,
      then the IMDB Indian-movie documents; the newer IMDB file is not part
      of it. The first file that fails fails the whole load with its error. */
  function LoadAll(netflix: seq<Row>, tvShows: seq<Row>, imdb: seq<Row>): (r: Result<seq<Doc>, string>)
    ensures r.Success? <==> LoadNetflix(netflix).Success? && LoadTvShows(tvShows).Success? && LoadImdbMovies(imdb).Success?
    ensures r.Success? ==> r.value == LoadNetflix(netflix).value + LoadTvShows(tvShows).value + LoadImdbMovies(imdb).value
    ensures LoadNetflix(netflix).Failure? ==> r == Failure(LoadNetflix(netflix).error)
    ensures LoadNetflix(netflix).Success? && LoadTvShows(tvShows).Failure? ==> r == Failure(LoadTvShows(tvShows).error)
    ensures LoadNetflix(netflix).Success? && LoadTvShows(tvShows).Success? && LoadImdbMovies(imdb).Failure? ==>
      r == Failure(LoadImdbMovies(imdb).error)
  {
    var n := LoadNetflix(netflix);
    var t := LoadTvShows(tvShows);
    var m := LoadImdbMovies(imdb);
    if n.Failure? then Failure(n.error)
    else if t.Failure? then Failure(t.error)
    else if m.Failure? then Failure(m.error)
    else Success(n.value + t.value + m.value)
  }

  /** One file's documents placed at an offset of a longer list. */
  predicate LoadedAt(rows: seq<Row>, docOf: Row -> RowResult, ds: seq<Doc>, offset: nat)
  {
    offset + |rows| <= |ds| && forall i :: 0 <= i < |rows| ==> docOf(rows[i]) == Success(ds[offset + i])
  }

  /** Three row-by-row loads laid end to end: each row's document sits at
      its row's offset. */
  lemma ConcatLayout(a: seq<Row>, b: seq<Row>, c: seq<Row>,
                     fa: Row -> RowResult, fb: Row -> RowResult, fc: Row -> RowResult,
                     x: seq<Doc>, y: seq<Doc>, z: seq<Doc>)
    requires |x| == |a| && LoadedAt(a, fa, x, 0)
    requires |y| == |b| && LoadedAt(b, fb, y, 0)
    requires |z| == |c| && LoadedAt(c, fc, z, 0)
    ensures |x + y + z| == |a| + |b| + |c|
    ensures LoadedAt(a, fa, x + y + z, 0)
    ensures LoadedAt(b, fb, x + y + z, |a|)
    ensures LoadedAt(c, fc, x + y + z, |a| + |b|)
  {
    var ds := x + y + z;
    forall i | 0 <= i < |a| ensures fa(a[i]) == Success(ds[i]) {
      assert ds[i] == x[i];
    }
    forall i | 0 <= i < |b| ensures fb(b[i]) == Success(ds[|a| + i]) {
      assert ds[|x| + i] == y[i];
    }
    forall i | 0 <= i < |c| ensures fc(c[i]) == Success(ds[|a| + |b| + i]) {
      assert ds[|x| + |y| + i] == z[i];
    }
  }

  /** A successful load places each row's document at the row's position. */
  lemma LoadPlaces(rows: seq<Row>, docOf: Row -> RowResult)
    requires Load(rows, docOf).Success?
    ensures |Load(rows, docOf).value| == |rows| && LoadedAt(rows, docOf, Load(rows, docOf).value, 0)
  {
  }

  /** A successful combined load holds one document per row of the three
      files, each row's document at its offset. */
  lemma LoadAllLayout(netflix: seq<Row>, tvShows: seq<Row>, imdb: seq<Row>)
    requires LoadAll(netflix, tvShows, imdb).Success?
    ensures var ds := LoadAll(netflix, tvShows, imdb).value;
      |ds| == |netflix| + |tvShows| + |imdb|
      && LoadedAt(netflix, NetflixDoc, ds, 0)
      && LoadedAt(tvShows, TvDoc, ds, |netflix|)
      && LoadedAt(imdb, ImdbDoc, ds, |netflix| + |tvShows|)
  {
    LoadPlaces(netflix, NetflixDoc);
    LoadPlaces(tvShows, TvDoc);
    LoadPlaces(imdb, ImdbDoc);
    ConcatLayout(netflix, tvShows, imdb, NetflixDoc, TvDoc, ImdbDoc,
                 LoadNetflix(netflix).value, LoadTvShows(tvShows).value, LoadImdbMovies(imdb).value);
  }

  /** The source tag of a document by its position in three placed files. */
  lemma SourcesByRange(netflix: seq<Row>, tvShows: seq<Row>, imdb: seq<Row>, ds: seq<Doc>, i: nat)
    requires LoadedAt(netflix, NetflixDoc, ds, 0)
    requires LoadedAt(tvShows, TvDoc, ds, |netflix|)
    requires LoadedAt(imdb, ImdbDoc, ds, |netflix| + |tvShows|)
    requires i < |netflix| + |tvShows| + |imdb|
    ensures Meta(ds[i], "source", "") ==
      if i < |netflix| then "netflix"
      else if i < |netflix| + |tvShows| then "tv_shows"
      else "imdb_indian"
  {
    if i < |netflix| {
      assert NetflixDoc(netflix[i]) == Success(ds[i]);
    } else if i < |netflix| + |tvShows| {
      assert TvDoc(tvShows[i - |netflix|]) == Success(ds[i]);
    } else {
      assert ImdbDoc(imdb[i - (|netflix| + |tvShows|)]) == Success(ds[i]);
    }
  }

  /** Each document of a successful combined load is tagged with the file it
      came from, by position; none is tagged as the newer IMDB file. */
  lemma LoadAllSources(netflix: seq<Row>, tvShows: seq<Row>, imdb: seq<Row>, i: nat)
    requires LoadAll(netflix, tvShows, imdb).Success?
    requires i < |LoadAll(netflix, tvShows, imdb).value|
    ensures Meta(LoadAll(netflix, tvShows, imdb).value[i], "source", "") ==
      if i < |netflix| then "netflix"
      else if i < |netflix| + |tvShows| then "tv_shows"
      else "imdb_indian"
    ensures Meta(LoadAll(netflix, tvShows, imdb).value[i], "source", "") != "new_imdb"
  {
    LoadAllLayout(netflix, tvShows, imdb);
    SourcesByRange(netflix, tvShows, imdb, LoadAll(netflix, tvShows, imdb).value, i);
  }
}
