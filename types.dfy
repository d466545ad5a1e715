/** The catalogue's entities: the four closed enumerations, their option
    tables, and the `MediaItem` record. */
module Types {
  import opened Wrappers
  import opened Seqs

  datatype MediaType = Anime | Manhwa

  datatype Status = Ongoing | Ended | Live

  datatype Genre =
    | Action | Adventure | Comedy | Drama | Fantasy | Horror | Mystery
    | Psychological | Romance | SciFi | SliceOfLife | Supernatural | Thriller

  datatype WatchlistStatus = Planning | Current | Completed | Dropped

  /** A catalogue entry. `watchlistStatus` holds the raw text the item carries:
      the store writes the names of `WatchlistStatus`, a CSV import passes any
      non-empty text through. */
  datatype MediaItem = MediaItem(
    id: string,
    title: string,
    mediaType: MediaType,
    genres: seq<Genre>,
    description: string,
    rating: real,
    status: Status,
    inWatchlist: bool,
    watchlistStatus: Option<string>,
    imageUrl: Option<string>)

  /** An entry before the store gives it an id (`Omit<MediaItem, "id">`). */
  datatype ItemDraft = ItemDraft(
    title: string,
    mediaType: MediaType,
    genres: seq<Genre>,
    description: string,
    rating: real,
    status: Status,
    inWatchlist: bool,
    watchlistStatus: Option<string>,
    imageUrl: Option<string>)

  /** `{ id, ...draft }`. */
  function WithId(id: string, d: ItemDraft): (item: MediaItem)
    ensures item.id == id && DraftOf(item) == d
  {
    MediaItem(id, d.title, d.mediaType, d.genres, d.description, d.rating,
              d.status, d.inWatchlist, d.watchlistStatus, d.imageUrl)
  }

  /** Every field of `item` but its id. */
  function DraftOf(item: MediaItem): ItemDraft
  {
    ItemDraft(item.title, item.mediaType, item.genres, item.description, item.rating,
              item.status, item.inWatchlist, item.watchlistStatus, item.imageUrl)
  }

  function MediaTypeName(t: MediaType): string
  {
    match t
    case Anime => "Anime"
    case Manhwa => "Manhwa"
  }

  function StatusName(s: Status): string
  {
    match s
    case Ongoing => "Ongoing"
    case Ended => "Ended"
    case Live => "Live"
  }

  function GenreName(g: Genre): string
  {
    match g
    case Action => "Action"
    case Adventure => "Adventure"
    case Comedy => "Comedy"
    case Drama => "Drama"
    case Fantasy => "Fantasy"
    case Horror => "Horror"
    case Mystery => "Mystery"
    case Psychological => "Psychological"
    case Romance => "Romance"
    case SciFi => "Sci-Fi"
    case SliceOfLife => "Slice of Life"
    case Supernatural => "Supernatural"
    case Thriller => "Thriller"
  }

  function WatchlistStatusName(w: WatchlistStatus): string
  {
    match w
    case Planning => "Planning"
    case Current => "Current"
    case Completed => "Completed"
    case Dropped => "Dropped"
  }

  /** `genreOptions`: every genre, once, in display order. */
  function GenreOptions(): (r: seq<Genre>)
    ensures |r| == 13 && NoDuplicates(r)
  {
    [Action, Adventure, Comedy, Drama, Fantasy, Horror, Mystery, Psychological, Romance, SciFi, SliceOfLife, Supernatural, Thriller]
  }

  /** `statusOptions`. */
  function StatusOptions(): (r: seq<Status>)
    ensures |r| == 3 && NoDuplicates(r)
  {
    [Ongoing, Ended, Live]
  }

  /** `mediaTypeOptions`. */
  function MediaTypeOptions(): (r: seq<MediaType>)
    ensures |r| == 2 && NoDuplicates(r)
  {
    [Anime, Manhwa]
  }

  /** `watchlistStatusOptions`. */
  function WatchlistStatusOptions(): (r: seq<WatchlistStatus>)
    ensures |r| == 4 && NoDuplicates(r)
  {
    [Planning, Current, Completed, Dropped]
  }

  /** The option tables list every value of their enumeration. */
  lemma OptionTablesComplete()
    ensures forall g :: g in GenreOptions()
    ensures forall st :: st in StatusOptions()
    ensures forall t :: t in MediaTypeOptions()
    ensures forall w :: w in WatchlistStatusOptions()
  {
    var gs, ss, ts, ws := GenreOptions(), StatusOptions(), MediaTypeOptions(), WatchlistStatusOptions();
    forall g ensures g in gs {
      match g
      case Action => assert gs[0] == g;
      case Adventure => assert gs[1] == g;
      case Comedy => assert gs[2] == g;
      case Drama => assert gs[3] == g;
      case Fantasy => assert gs[4] == g;
      case Horror => assert gs[5] == g;
      case Mystery => assert gs[6] == g;
      case Psychological => assert gs[7] == g;
      case Romance => assert gs[8] == g;
      case SciFi => assert gs[9] == g;
      case SliceOfLife => assert gs[10] == g;
      case Supernatural => assert gs[11] == g;
      case Thriller => assert gs[12] == g;
    }
    forall st ensures st in ss {
      match st
      case Ongoing => assert ss[0] == st;
      case Ended => assert ss[1] == st;
      case Live => assert ss[2] == st;
    }
    forall t ensures t in ts {
      match t
      case Anime => assert ts[0] == t;
      case Manhwa => assert ts[1] == t;
    }
    forall w ensures w in ws {
      match w
      case Planning => assert ws[0] == w;
      case Current => assert ws[1] == w;
      case Completed => assert ws[2] == w;
      case Dropped => assert ws[3] == w;
    }
  }

  /** The first of `options` whose name is `s`: the `includes` test of the
      forms and the CSV import, returning the value found. */
  function Lookup<T(==,!new)>(options: seq<T>, name: T -> string, s: string): (r: Option<T>)
    ensures r.Some? ==> r.value in options && name(r.value) == s
    ensures r.None? ==> forall x :: x in options ==> name(x) != s
  {
    if options == [] then None
    else if name(options[0]) == s then Some(options[0])
    else Lookup(options[1..], name, s)
  }

  /** The media type named `s`, if any. */
  function MediaTypeNamed(s: string): (r: Option<MediaType>)
    ensures r.Some? ==> MediaTypeName(r.value) == s
    ensures r.None? ==> forall t :: MediaTypeName(t) != s
  {
    OptionTablesComplete();
    Lookup(MediaTypeOptions(), MediaTypeName, s)
  }

  /** The status named `s`, if any. */
  function StatusNamed(s: string): (r: Option<Status>)
    ensures r.Some? ==> StatusName(r.value) == s
    ensures r.None? ==> forall st :: StatusName(st) != s
  {
    OptionTablesComplete();
    Lookup(StatusOptions(), StatusName, s)
  }

  /** The genre named `s`, if any. */
  function GenreNamed(s: string): (r: Option<Genre>)
    ensures r.Some? ==> GenreName(r.value) == s
    ensures r.None? ==> forall g :: GenreName(g) != s
  {
    OptionTablesComplete();
    Lookup(GenreOptions(), GenreName, s)
  }

  /** Distinct genres have distinct names. */
  lemma GenreNameInjective(a: Genre, b: Genre)
    requires GenreName(a) == GenreName(b)
    ensures a == b
  {
  }

  /** Distinct media types and distinct statuses have distinct names. */
  lemma EnumNamesInjective(t: MediaType, u: MediaType, st: Status, su: Status)
    ensures MediaTypeName(t) == MediaTypeName(u) ==> t == u
    ensures StatusName(st) == StatusName(su) ==> st == su
  {
  }

  /** Looking up a media type's or a status's own name finds it. */
  lemma NamedInverse(t: MediaType, st: Status)
    ensures MediaTypeNamed(MediaTypeName(t)) == Some(t)
    ensures StatusNamed(StatusName(st)) == Some(st)
  {
    var rt := MediaTypeNamed(MediaTypeName(t));
    var rs := StatusNamed(StatusName(st));
    assert rt.Some? && rs.Some?;
    EnumNamesInjective(rt.value, t, rs.value, st);
  }

  /** Distinct watchlist statuses have distinct names, so an item's status
      text matches at most one of them. */
  lemma WatchlistStatusNamesDistinct(v: WatchlistStatus, w: WatchlistStatus)
    requires v != w
    ensures WatchlistStatusName(v) != WatchlistStatusName(w)
  {
  }
}
