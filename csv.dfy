/** CSV interchange: the per-row mapping of `parseCSV` and the per-item
    mapping of `exportToCSV`. A row is the record CSV tokenisation yields with
    a header line, restricted to the nine columns the catalogue reads and
    writes: a map from column to cell text, a column the row lacks being
    absent. `parseFloat` and `Number.prototype.toString` are parameters. */
module Csv {
  import opened Wrappers
  import opened Seqs
  import opened Strings
  import opened Types

  datatype Column =
    | TitleColumn | TypeColumn | GenresColumn | DescriptionColumn | RatingColumn
    | StatusColumn | InWatchlistColumn | WatchlistStatusColumn | ImageUrlColumn

  /** The header text of a column. */
  function ColumnName(c: Column): string
  {
    match c
    case TitleColumn => "title"
    case TypeColumn => "type"
    case GenresColumn => "genres"
    case DescriptionColumn => "description"
    case RatingColumn => "rating"
    case StatusColumn => "status"
    case InWatchlistColumn => "inWatchlist"
    case WatchlistStatusColumn => "watchlistStatus"
    case ImageUrlColumn => "imageUrl"
  }

  type Row = map<Column, string>

  /** The error a row raises: `trim` called on a column the row lacks. */
  datatype CsvError = MissingColumn(column: Column)

  /** `row[column]`, `undefined` when the row lacks the column. */
  function Field(row: Row, c: Column): Option<string>
  {
    if c in row then Some(row[c]) else None
  }

  /** JavaScript truthiness of an optional string: defined and non-empty. */
  predicate Truthy(v: Option<string>)
  {
    v.Some? && v.value != ""
  }

  /** `v || fallback`. */
  function OrElse(v: Option<string>, fallback: string): (r: string)
    ensures Truthy(v) ==> r == v.value
    ensures !Truthy(v) ==> r == fallback
  {
    if Truthy(v) then v.value else fallback
  }

  /** `v || undefined`. */
  function NonEmpty(v: Option<string>): (r: Option<string>)
    ensures r.Some? <==> Truthy(v)
    ensures r.Some? ==> r == v
  {
    if Truthy(v) then v else None
  }

  function GenreNames(gs: seq<Genre>): (r: seq<string>)
    ensures |r| == |gs|
    ensures forall i :: 0 <= i < |gs| ==> r[i] == GenreName(gs[i])
  {
    seq(|gs|, i requires 0 <= i < |gs| => GenreName(gs[i]))
  }

  /** `genreOptions.includes(s)`. */
  predicate IsGenreName(s: string)
  {
    GenreNamed(s).Some?
  }

  /** `tokens.filter(t => genreOptions.includes(t))`, as genres: the known
      genre names among `tokens`, in order, duplicates kept. */
  function KnownGenres(tokens: seq<string>): (r: seq<Genre>)
    ensures GenreNames(r) == Filter(tokens, IsGenreName)
  {
    if tokens == [] then []
    else
      var rest := KnownGenres(tokens[1..]);
      match GenreNamed(tokens[0])
      case Some(g) =>
        assert GenreNames([g] + rest) == [GenreName(g)] + GenreNames(rest);
        [g] + rest
      case None => rest
  }

  function TrimAll(parts: seq<string>): (r: seq<string>)
    ensures |r| == |parts|
    ensures forall i :: 0 <= i < |parts| ==> r[i] == Trim(parts[i])
  {
    seq(|parts|, i requires 0 <= i < |parts| => Trim(parts[i]))
  }

  /** `parseGenres`: nothing for a missing or empty cell; otherwise the known
      genres among the comma-separated, trimmed tokens. */
  function ParseGenres(raw: Option<string>): (r: seq<Genre>)
    ensures !Truthy(raw) ==> r == []
    ensures Truthy(raw) ==> GenreNames(r) == Filter(TrimAll(Split(raw.value, ',')), IsGenreName)
  {
    if !Truthy(raw) then [] else KnownGenres(TrimAll(Split(raw.value, ',')))
  }

  /** `parseMediaType`: the trimmed cell if it names a media type, else Anime. */
  function ParseMediaType(s: string): (r: MediaType)
    ensures forall t :: MediaTypeName(t) == Trim(s) ==> r == t
    ensures (forall t :: MediaTypeName(t) != Trim(s)) ==> r == Anime
  {
    match MediaTypeNamed(Trim(s))
    case Some(t) =>
      assert forall u :: MediaTypeName(u) == Trim(s) ==> u == t by {
        forall u | MediaTypeName(u) == Trim(s) {
          EnumNamesInjective(u, t, Ongoing, Ongoing);
        }
      }
      t
    case None => Anime
  }

  /** `parseStatus`: the trimmed cell if it names a status, else Ongoing. */
  function ParseStatus(s: string): (r: Status)
    ensures forall st :: StatusName(st) == Trim(s) ==> r == st
    ensures (forall st :: StatusName(st) != Trim(s)) ==> r == Ongoing
  {
    match StatusNamed(Trim(s))
    case Some(st) =>
      assert forall su :: StatusName(su) == Trim(s) ==> su == st by {
        forall su | StatusName(su) == Trim(s) {
          EnumNamesInjective(Anime, Anime, su, st);
        }
      }
      st
    case None => Ongoing
  }

  /** `parseFloat(raw) || 0`: a missing cell and an unparsable one (NaN) give 0. */
  function ParseRating(raw: Option<string>, parseNumber: string -> Option<real>): (r: real)
    ensures raw.None? ==> r == 0.0
    ensures raw.Some? && parseNumber(raw.value).None? ==> r == 0.0
    ensures raw.Some? && parseNumber(raw.value).Some? ==> r == parseNumber(raw.value).value
  {
    if raw.None? then 0.0
    else match parseNumber(raw.value)
      case Some(x) => x
      case None => 0.0
  }

  /** The draft `parseCSV` builds from one row, or the error raised when the
      row lacks its type or status cell (the type cell is read first). */
  function ParseRow(row: Row, parseNumber: string -> Option<real>): (r: Result<ItemDraft, CsvError>)
    ensures r.Success? <==> TypeColumn in row && StatusColumn in row
    ensures TypeColumn !in row ==> r == Failure(MissingColumn(TypeColumn))
    ensures TypeColumn in row && StatusColumn !in row ==> r == Failure(MissingColumn(StatusColumn))
    ensures r.Success? ==>
      && r.value.title != ""
      && (Truthy(Field(row, TitleColumn)) ==> r.value.title == row[TitleColumn])
      && (!Truthy(Field(row, TitleColumn)) ==> r.value.title == "Untitled")
      && r.value.mediaType == ParseMediaType(row[TypeColumn])
      && r.value.genres == ParseGenres(Field(row, GenresColumn))
      && r.value.description == OrElse(Field(row, DescriptionColumn), "")
      && r.value.rating == ParseRating(Field(row, RatingColumn), parseNumber)
      && r.value.status == ParseStatus(row[StatusColumn])
      && (r.value.inWatchlist <==> Field(row, InWatchlistColumn) == Some("true"))
      && r.value.watchlistStatus == NonEmpty(Field(row, WatchlistStatusColumn))
      && r.value.imageUrl == NonEmpty(Field(row, ImageUrlColumn))
  {
    if TypeColumn !in row then Failure(MissingColumn(TypeColumn))
    else if StatusColumn !in row then Failure(MissingColumn(StatusColumn))
    else Success(ItemDraft(
      OrElse(Field(row, TitleColumn), "Untitled"),
      ParseMediaType(row[TypeColumn]),
      ParseGenres(Field(row, GenresColumn)),
      OrElse(Field(row, DescriptionColumn), ""),
      ParseRating(Field(row, RatingColumn), parseNumber),
      ParseStatus(row[StatusColumn]),
      Field(row, InWatchlistColumn) == Some("true"),
      NonEmpty(Field(row, WatchlistStatusColumn)),
      NonEmpty(Field(row, ImageUrlColumn))))
  }

  /** `parseCSV` after tokenisation: one draft per row, in row order, unless
      some row lacks its type or status, which aborts the whole parse with
      the first such row's error. */
  function ParseRows(rows: seq<Row>, parseNumber: string -> Option<real>): (r: Result<seq<ItemDraft>, CsvError>)
    ensures r.Success? <==> forall i :: 0 <= i < |rows| ==> TypeColumn in rows[i] && StatusColumn in rows[i]
    ensures r.Success? ==> |r.value| == |rows|
    ensures r.Success? ==> forall i :: 0 <= i < |rows| ==> ParseRow(rows[i], parseNumber) == Success(r.value[i])
    ensures r.Failure? ==>
      exists i :: 0 <= i < |rows| && ParseRow(rows[i], parseNumber) == Failure(r.error)
        && (forall j :: 0 <= j < i ==> ParseRow(rows[j], parseNumber).Success?)
  {
    var f := row => ParseRow(row, parseNumber);
    assert forall i :: 0 <= i < |rows| ==> f(rows[i]) == ParseRow(rows[i], parseNumber);
    var r := MapResults(rows, f);
    if r.Failure? then
      var k :| FirstFailure(rows, f, k) && f(rows[k]) == Failure(r.error);
      assert ParseRow(rows[k], parseNumber) == Failure(r.error);
      r
    else
      r
  }

  /** The exported header: every column once, in the order of the record `exportToCSV` builds. */
  function Header(): (r: seq<Column>)
    ensures |r| == 9 && NoDuplicates(r)
  {
    [TitleColumn, TypeColumn, GenresColumn, DescriptionColumn, RatingColumn,
     StatusColumn, InWatchlistColumn, WatchlistStatusColumn, ImageUrlColumn]
  }

  /** The cell `exportToCSV` writes for one column of an item. */
  function ExportCell(item: MediaItem, c: Column, showNumber: real -> string): string
  {
    match c
    case TitleColumn => item.title
    case TypeColumn => MediaTypeName(item.mediaType)
    case GenresColumn => Join(GenreNames(item.genres), ", ")
    case DescriptionColumn => item.description
    case RatingColumn => showNumber(item.rating)
    case StatusColumn => StatusName(item.status)
    case InWatchlistColumn => if item.inWatchlist then "true" else "false"
    case WatchlistStatusColumn => OrElse(item.watchlistStatus, "")
    case ImageUrlColumn => OrElse(item.imageUrl, "")
  }

  /** The record `exportToCSV` builds for one item: every column filled,
      genres joined with ", ", the flag as "true"/"false", absent optional
      fields as "". */
  function ExportRow(item: MediaItem, showNumber: real -> string): (row: Row)
    ensures forall c :: c in row
    ensures row[TitleColumn] == item.title && row[TypeColumn] == MediaTypeName(item.mediaType)
    ensures row[DescriptionColumn] == item.description
    ensures row[RatingColumn] == showNumber(item.rating) && row[StatusColumn] == StatusName(item.status)
    ensures row[GenresColumn] == Join(GenreNames(item.genres), ", ")
    ensures row[InWatchlistColumn] == (if item.inWatchlist then "true" else "false")
    ensures row[WatchlistStatusColumn] == OrElse(item.watchlistStatus, "")
    ensures row[ImageUrlColumn] == OrElse(item.imageUrl, "")
  {
    map c: Column | true :: ExportCell(item, c, showNumber)
  }

  /** `exportToCSV` before `Papa.unparse`: one record per item, in order. */
  function ExportRows(items: seq<MediaItem>, showNumber: real -> string): (rows: seq<Row>)
    ensures |rows| == |items|
    ensures forall i :: 0 <= i < |items| ==> rows[i] == ExportRow(items[i], showNumber)
  {
    seq(|items|, i requires 0 <= i < |items| => ExportRow(items[i], showNumber))
  }

  /** `parts` each with a leading space, as `join(", ")` leaves all but the
      first after a split on ",". */
  function Spaced(parts: seq<string>): (r: seq<string>)
    ensures |r| == |parts|
    ensures forall i :: 0 <= i < |parts| ==> r[i] == " " + parts[i]
  {
    seq(|parts|, i requires 0 <= i < |parts| => " " + parts[i])
  }

  /** Splitting a ", "-join on "," gives the first piece and the rest with a leading space. */
  lemma {:induction false} SplitJoinedWithSpace(parts: seq<string>)
    requires |parts| >= 1
    requires forall i :: 0 <= i < |parts| ==> ',' !in parts[i]
    ensures Split(Join(parts, ", "), ',') == [parts[0]] + Spaced(parts[1..])
  {
    if |parts| == 1 {
      SplitNoSeparator(parts[0], ',');
    } else {
      var tail := Join(parts[1..], ", ");
      assert Join(parts, ", ") == parts[0] + [','] + (" " + tail);
      SplitAtFirst(parts[0], " " + tail, ',');
      SplitJoinedWithSpace(parts[1..]);
      var s := " " + tail;
      assert s[1..] == tail;
      assert Split(s, ',') == [" " + Split(tail, ',')[0]] + Split(tail, ',')[1..];
      assert Spaced(parts[1..]) == [" " + parts[1]] + Spaced(parts[2..]);
      assert parts[1..][1..] == parts[2..];
    }
  }

  /** A token `join(", ")` and a split on "," followed by `trim` preserve:
      non-empty, free of commas, no surrounding whitespace. */
  predicate CleanToken(s: string)
  {
    s != [] && ',' !in s && !IsWhitespace(s[0]) && !IsWhitespace(s[|s| - 1])
  }

  /** Trimming undoes the leading spaces `Spaced` adds to clean tokens. */
  lemma TrimSpaced(parts: seq<string>)
    requires |parts| >= 1
    requires forall i :: 0 <= i < |parts| ==> CleanToken(parts[i])
    ensures TrimAll([parts[0]] + Spaced(parts[1..])) == parts
  {
    var pieces := [parts[0]] + Spaced(parts[1..]);
    forall i | 0 <= i < |parts| ensures Trim(pieces[i]) == parts[i] {
      if i == 0 {
        FirstPieceTrims(parts);
      } else {
        LaterPieceTrims(parts, i);
      }
    }
    var trimmed := TrimAll(pieces);
    assert |trimmed| == |parts|;
  }

  lemma FirstPieceTrims(parts: seq<string>)
    requires |parts| >= 1 && CleanToken(parts[0])
    ensures Trim(([parts[0]] + Spaced(parts[1..]))[0]) == parts[0]
  {
    TrimUnpadded(parts[0]);
  }

  lemma LaterPieceTrims(parts: seq<string>, i: int)
    requires 1 <= i < |parts| && CleanToken(parts[i])
    ensures Trim(([parts[0]] + Spaced(parts[1..]))[i]) == parts[i]
  {
    assert ([parts[0]] + Spaced(parts[1..]))[i] == " " + parts[i];
    TrimPadded(" ", parts[i]);
  }

  /** A join whose first part is non-empty is non-empty. */
  lemma JoinNonEmpty(parts: seq<string>, sep: string)
    requires |parts| >= 1 && parts[0] != []
    ensures Join(parts, sep) != []
  {
    if |parts| > 1 {
      assert Join(parts, sep) == parts[0] + sep + Join(parts[1..], sep);
    }
  }

  /** Clean tokens joined with ", " split and trim back to themselves. */
  lemma SplitTrimJoined(parts: seq<string>)
    requires |parts| >= 1
    requires forall i :: 0 <= i < |parts| ==> CleanToken(parts[i])
    ensures Join(parts, ", ") != []
    ensures TrimAll(Split(Join(parts, ", "), ',')) == parts
  {
    SplitJoinedWithSpace(parts);
    TrimSpaced(parts);
    JoinNonEmpty(parts, ", ");
  }

  lemma GenreNameShape(g: Genre)
    ensures CleanToken(GenreName(g))
  {
  }

  lemma GenreNamedInverse(g: Genre)
    ensures GenreNamed(GenreName(g)) == Some(g)
  {
    var r := GenreNamed(GenreName(g));
    if r.Some? {
      GenreNameInjective(r.value, g);
    }
  }

  /** Reading back the names of some genres gives those genres. */
  lemma {:induction false} KnownGenresOfNames(gs: seq<Genre>)
    ensures KnownGenres(GenreNames(gs)) == gs
  {
    if gs != [] {
      var names := GenreNames(gs);
      assert names[1..] == GenreNames(gs[1..]);
      KnownGenresOfNames(gs[1..]);
      GenreNamedInverse(gs[0]);
      assert KnownGenres(names) == [gs[0]] + KnownGenres(names[1..]);
      assert [gs[0]] + gs[1..] == gs;
    }
  }

  /** Exported genres parse back to the same list. */
  lemma GenresRoundTrip(gs: seq<Genre>)
    ensures ParseGenres(Some(Join(GenreNames(gs), ", "))) == gs
  {
    var names := GenreNames(gs);
    if gs != [] {
      forall i | 0 <= i < |names| ensures CleanToken(names[i]) {
        GenreNameShape(gs[i]);
      }
      SplitTrimJoined(names);
      KnownGenresOfNames(gs);
    }
  }

  /** An exported type cell parses back to the same type. */
  lemma MediaTypeCellRoundTrip(t: MediaType)
    ensures ParseMediaType(MediaTypeName(t)) == t
  {
    TrimUnpadded(MediaTypeName(t));
  }

  /** An exported status cell parses back to the same status. */
  lemma StatusCellRoundTrip(st: Status)
    ensures ParseStatus(StatusName(st)) == st
  {
    TrimUnpadded(StatusName(st));
  }

  /** A row whose cells read back as an item's fields maps back to the item's
      draft, up to the title and rating fallbacks. */
  lemma ExportedCellsParse(item: MediaItem, row: Row, parseNumber: string -> Option<real>, showNumber: real -> string)
    requires Field(row, TitleColumn) == Some(item.title)
    requires TypeColumn in row && ParseMediaType(row[TypeColumn]) == item.mediaType
    requires ParseGenres(Field(row, GenresColumn)) == item.genres
    requires Field(row, DescriptionColumn) == Some(item.description)
    requires Field(row, RatingColumn) == Some(showNumber(item.rating))
    requires StatusColumn in row && ParseStatus(row[StatusColumn]) == item.status
    requires Field(row, InWatchlistColumn) == Some(if item.inWatchlist then "true" else "false")
    requires NonEmpty(Field(row, WatchlistStatusColumn)) == item.watchlistStatus
    requires NonEmpty(Field(row, ImageUrlColumn)) == item.imageUrl
    ensures ParseRow(row, parseNumber)
      == Success(DraftOf(item).(
           title := if item.title == "" then "Untitled" else item.title,
           rating := ParseRating(Some(showNumber(item.rating)), parseNumber)))
  {
  }

  /** Exporting an item and mapping the record back reproduces every field
      except that an empty title becomes "Untitled" and the rating goes
      through the number printer and parser. Optional fields must be absent
      or non-empty, since an empty one is exported as "" and read back as absent. */
  lemma RowRoundTrip(item: MediaItem, parseNumber: string -> Option<real>, showNumber: real -> string)
    requires item.watchlistStatus != Some("") && item.imageUrl != Some("")
    ensures ParseRow(ExportRow(item, showNumber), parseNumber)
      == Success(DraftOf(item).(
           title := if item.title == "" then "Untitled" else item.title,
           rating := ParseRating(Some(showNumber(item.rating)), parseNumber)))
  {
    var row := ExportRow(item, showNumber);
    assert Field(row, TitleColumn) == Some(item.title);
    assert Field(row, DescriptionColumn) == Some(item.description);
    assert Field(row, RatingColumn) == Some(showNumber(item.rating));
    MediaTypeCellRoundTrip(item.mediaType);
    StatusCellRoundTrip(item.status);
    GenresRoundTrip(item.genres);
    ExportedCellsParse(item, row, parseNumber, showNumber);
  }

  /** When the number printer and parser agree on every rating and every title
      is non-empty, exporting a whole list and parsing it back gives the same
      drafts, in the same order. */
  lemma ListRoundTrip(items: seq<MediaItem>, parseNumber: string -> Option<real>, showNumber: real -> string)
    requires forall i :: 0 <= i < |items| ==>
      && items[i].title != ""
      && items[i].watchlistStatus != Some("") && items[i].imageUrl != Some("")
      && parseNumber(showNumber(items[i].rating)) == Some(items[i].rating)
    ensures ParseRows(ExportRows(items, showNumber), parseNumber).Success?
    ensures ParseRows(ExportRows(items, showNumber), parseNumber).value
      == seq(|items|, i requires 0 <= i < |items| => DraftOf(items[i]))
  {
    var rows := ExportRows(items, showNumber);
    var drafts := seq(|items|, i requires 0 <= i < |items| => DraftOf(items[i]));
    ExportedRowsParse(items, parseNumber, showNumber);
    ParseRowsAll(rows, drafts, parseNumber);
  }

  /** Under the same conditions, each exported row parses back on its own. */
  lemma ExportedRowsParse(items: seq<MediaItem>, parseNumber: string -> Option<real>, showNumber: real -> string)
    requires forall i :: 0 <= i < |items| ==>
      && items[i].title != ""
      && items[i].watchlistStatus != Some("") && items[i].imageUrl != Some("")
      && parseNumber(showNumber(items[i].rating)) == Some(items[i].rating)
    ensures forall i :: 0 <= i < |items| ==>
      ParseRow(ExportRows(items, showNumber)[i], parseNumber) == Success(DraftOf(items[i]))
  {
    forall i | 0 <= i < |items|
      ensures ParseRow(ExportRows(items, showNumber)[i], parseNumber) == Success(DraftOf(items[i]))
    {
      RowRoundTrip(items[i], parseNumber, showNumber);
    }
  }

  /** Rows that each parse to a draft parse together to those drafts, in order. */
  lemma ParseRowsAll(rows: seq<Row>, drafts: seq<ItemDraft>, parseNumber: string -> Option<real>)
    requires |rows| == |drafts|
    requires forall i :: 0 <= i < |rows| ==> ParseRow(rows[i], parseNumber) == Success(drafts[i])
    ensures ParseRows(rows, parseNumber) == Success(drafts)
  {
    var r := ParseRows(rows, parseNumber);
    assert r.Success?;
    assert r.value == drafts;
  }

}
