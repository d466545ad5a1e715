/** The advanced filter page: multi-select type, status and genre lists, an
    inclusive rating range, and a sort, applied when the user asks for it. */
module AdvancedFilter {
  import opened Wrappers
  import opened Seqs
  import opened Types
  import opened Sorting
  import opened MediaOrder

  /** The selections the page holds when the filter is applied. */
  datatype Criteria = Criteria(
    types: seq<MediaType>,
    statuses: seq<Status>,
    genres: seq<Genre>,
    ratingMin: Option<real>,
    ratingMax: Option<real>)

  /** The five filter passes of `handleFilter`. */
  datatype Pass = TypePass | StatusPass | GenrePass | MinPass | MaxPass

  /** The passes in the order `handleFilter` runs them. */
  function PassOrder(): seq<Pass>
  {
    [TypePass, StatusPass, GenrePass, MinPass, MaxPass]
  }

  /** `item` gets through pass `p`. An empty selection or a null bound skips
      the pass; genres need one selected genre in common (OR); bounds are
      inclusive. */
  predicate Admits(c: Criteria, p: Pass, item: MediaItem)
  {
    match p
    case TypePass => |c.types| == 0 || item.mediaType in c.types
    case StatusPass => |c.statuses| == 0 || item.status in c.statuses
    case GenrePass => |c.genres| == 0 || exists g :: g in c.genres && g in item.genres
    case MinPass => c.ratingMin.None? || item.rating >= c.ratingMin.value
    case MaxPass => c.ratingMax.None? || item.rating <= c.ratingMax.value
  }

  /** `item` gets through all five passes. */
  predicate Survives(c: Criteria, item: MediaItem)
  {
    && Admits(c, TypePass, item)
    && Admits(c, StatusPass, item)
    && Admits(c, GenrePass, item)
    && Admits(c, MinPass, item)
    && Admits(c, MaxPass, item)
  }

  /** The items that survive, in store order. */
  function Survivors(items: seq<MediaItem>, c: Criteria): (r: seq<MediaItem>)
    ensures forall x :: x in r <==> x in items && Survives(c, x)
    ensures IsSubsequence(r, items)
  {
    var survives := x => Survives(c, x);
    FilterIsSubsequence(items, survives);
    FilterMembers(items, survives);
    Filter(items, survives)
  }

  /** Each surviving item is kept as many times as the store holds it; the
      others are dropped entirely. */
  lemma SurvivorsMultiplicity(items: seq<MediaItem>, c: Criteria)
    ensures forall x :: multiset(Survivors(items, c))[x] == if Survives(c, x) then multiset(items)[x] else 0
  {
    FilterMultiplicity(items, x => Survives(c, x));
  }

  /** `item` gets through the first `n` passes. */
  predicate AdmittedUpTo(c: Criteria, n: nat, item: MediaItem)
  {
    forall k :: 0 <= k < |PassOrder()| && k < n ==> Admits(c, PassOrder()[k], item)
  }

  /** What `filtered` holds after the first `n` passes. */
  function AfterPasses(items: seq<MediaItem>, c: Criteria, n: nat): seq<MediaItem>
  {
    Filter(items, x => AdmittedUpTo(c, n, x))
  }

  /** Before any pass, `filtered` is the copy of the store's list. */
  lemma NoPassesYet(items: seq<MediaItem>, c: Criteria)
    ensures AfterPasses(items, c, 0) == items
  {
    FilterKeepsAll(items, x => AdmittedUpTo(c, 0, x));
  }

  /** A pass that runs, with a test that agrees with `Admits`, advances the stage. */
  lemma PassRuns(items: seq<MediaItem>, c: Criteria, n: nat, p: Pass, test: MediaItem -> bool)
    requires n < |PassOrder()| && PassOrder()[n] == p
    requires forall x :: test(x) == Admits(c, p, x)
    ensures Filter(AfterPasses(items, c, n), test) == AfterPasses(items, c, n + 1)
  {
    FilterFuse(items, x => AdmittedUpTo(c, n, x), test, x => AdmittedUpTo(c, n + 1, x));
  }

  /** A pass that is skipped admits everything, so the stage advances unchanged. */
  lemma PassSkipped(items: seq<MediaItem>, c: Criteria, n: nat, p: Pass)
    requires n < |PassOrder()| && PassOrder()[n] == p
    requires forall x :: Admits(c, p, x)
    ensures AfterPasses(items, c, n) == AfterPasses(items, c, n + 1)
  {
    FilterAgrees(items, x => AdmittedUpTo(c, n, x), x => AdmittedUpTo(c, n + 1, x));
  }

  /** After all five passes, `filtered` is the survivors. */
  lemma AllPassesDone(items: seq<MediaItem>, c: Criteria)
    ensures AfterPasses(items, c, 5) == Survivors(items, c)
  {
    var order := PassOrder();
    assert order[0] == TypePass && order[1] == StatusPass && order[2] == GenrePass;
    assert order[3] == MinPass && order[4] == MaxPass;
    FilterAgrees(items, x => AdmittedUpTo(c, 5, x), x => Survives(c, x));
  }

  /** With nothing selected and no bounds, every item survives in store order. */
  lemma NoCriteriaKeepAll(items: seq<MediaItem>)
    ensures Survivors(items, Criteria([], [], [], None, None)) == items
  {
    FilterKeepsAll(items, x => Survives(Criteria([], [], [], None, None), x));
  }

  /** A minimum above the maximum lets nothing through. */
  lemma EmptyRatingRange(items: seq<MediaItem>, c: Criteria)
    requires c.ratingMin.Some? && c.ratingMax.Some? && c.ratingMin.value > c.ratingMax.value
    ensures Survivors(items, c) == []
  {
    FilterNone(items, x => Survives(c, x));
  }

  /** Genres combine with OR: selecting one more genre never drops a survivor. */
  lemma MoreGenresKeepSurvivors(items: seq<MediaItem>, c: Criteria, g: Genre)
    requires |c.genres| > 0
    ensures IsSubsequence(Survivors(items, c), Survivors(items, c.(genres := c.genres + [g])))
  {
    var wider := c.(genres := c.genres + [g]);
    forall i | 0 <= i < |items| && Survives(c, items[i])
      ensures Survives(wider, items[i])
    {
      var h :| h in c.genres && h in items[i].genres;
      assert h in wider.genres;
    }
    FilterMonotone(items, x => Survives(c, x), x => Survives(wider, x));
  }

  /** The body of `handleFilter` up to the sort: `filtered` starts as a copy
      of the list and each pass that runs narrows it. */
  method FilterPasses(mediaItems: seq<MediaItem>, types: seq<MediaType>, statuses: seq<Status>,
                      genres: seq<Genre>, ratingMin: Option<real>, ratingMax: Option<real>)
    returns (filtered: seq<MediaItem>)
    ensures filtered == Survivors(mediaItems, Criteria(types, statuses, genres, ratingMin, ratingMax))
  {
    var c := Criteria(types, statuses, genres, ratingMin, ratingMax);
    filtered := mediaItems;
    NoPassesYet(mediaItems, c);

    if |types| > 0 {
      var ofType := (item: MediaItem) => item.mediaType in types;
      filtered := Filter(filtered, ofType);
      assert filtered == AfterPasses(mediaItems, c, 1) by {
        PassRuns(mediaItems, c, 0, TypePass, ofType);
      }
    } else {
      assert filtered == AfterPasses(mediaItems, c, 1) by {
        PassSkipped(mediaItems, c, 0, TypePass);
      }
    }

    if |statuses| > 0 {
      var ofStatus := (item: MediaItem) => item.status in statuses;
      filtered := Filter(filtered, ofStatus);
      assert filtered == AfterPasses(mediaItems, c, 2) by {
        PassRuns(mediaItems, c, 1, StatusPass, ofStatus);
      }
    } else {
      assert filtered == AfterPasses(mediaItems, c, 2) by {
        PassSkipped(mediaItems, c, 1, StatusPass);
      }
    }

    if |genres| > 0 {
      var sharesGenre := (item: MediaItem) => exists g :: g in genres && g in item.genres;
      filtered := Filter(filtered, sharesGenre);
      assert filtered == AfterPasses(mediaItems, c, 3) by {
        PassRuns(mediaItems, c, 2, GenrePass, sharesGenre);
      }
    } else {
      assert filtered == AfterPasses(mediaItems, c, 3) by {
        PassSkipped(mediaItems, c, 2, GenrePass);
      }
    }

    if ratingMin.Some? {
      var lo := ratingMin.value;
      var atLeast := (item: MediaItem) => item.rating >= lo;
      filtered := Filter(filtered, atLeast);
      assert filtered == AfterPasses(mediaItems, c, 4) by {
        PassRuns(mediaItems, c, 3, MinPass, atLeast);
      }
    } else {
      assert filtered == AfterPasses(mediaItems, c, 4) by {
        PassSkipped(mediaItems, c, 3, MinPass);
      }
    }

    if ratingMax.Some? {
      var hi := ratingMax.value;
      var atMost := (item: MediaItem) => item.rating <= hi;
      filtered := Filter(filtered, atMost);
      assert filtered == AfterPasses(mediaItems, c, 5) by {
        PassRuns(mediaItems, c, 4, MaxPass, atMost);
      }
    } else {
      assert filtered == AfterPasses(mediaItems, c, 5) by {
        PassSkipped(mediaItems, c, 4, MaxPass);
      }
    }
    AllPassesDone(mediaItems, c);
  }

  /** The page's state. */
  class FilterPage {
    var selectedTypes: seq<MediaType>
    var selectedStatuses: seq<Status>
    var selectedGenres: seq<Genre>
    var ratingMin: Option<real>
    var ratingMax: Option<real>
    var sortBy: SortKey
    var sortOrder: SortOrder
    var results: seq<MediaItem>
    var searched: bool

    /** No value is selected twice. */
    ghost predicate Valid()
      reads this
    {
      NoDuplicates(selectedTypes) && NoDuplicates(selectedStatuses) && NoDuplicates(selectedGenres)
    }

    /** The criteria `handleFilter` reads from the state. */
    function Selection(): Criteria
      reads this
    {
      Criteria(selectedTypes, selectedStatuses, selectedGenres, ratingMin, ratingMax)
    }

    constructor()
      ensures Valid()
      ensures selectedTypes == [] && selectedStatuses == [] && selectedGenres == []
      ensures ratingMin == None && ratingMax == None
      ensures sortBy == ByTitle && sortOrder == Asc
      ensures results == [] && !searched
    {
      selectedTypes, selectedStatuses, selectedGenres := [], [], [];
      ratingMin, ratingMax := None, None;
      sortBy, sortOrder := ByTitle, Asc;
      results, searched := [], false;
    }

    /** `handleTypeToggle`: flips the membership of `t` in the type selection. */
    method HandleTypeToggle(t: MediaType)
      requires Valid()
      modifies this
      ensures Valid()
      ensures selectedTypes == Toggle(old(selectedTypes), t)
      ensures selectedStatuses == old(selectedStatuses) && selectedGenres == old(selectedGenres)
      ensures ratingMin == old(ratingMin) && ratingMax == old(ratingMax)
      ensures sortBy == old(sortBy) && sortOrder == old(sortOrder)
      ensures results == old(results) && searched == old(searched)
    {
      ToggleKeepsNoDuplicates(selectedTypes, t);
      selectedTypes := Toggle(selectedTypes, t);
    }

    /** `handleStatusToggle`: flips the membership of `s` in the status selection. */
    method HandleStatusToggle(s: Status)
      requires Valid()
      modifies this
      ensures Valid()
      ensures selectedStatuses == Toggle(old(selectedStatuses), s)
      ensures selectedTypes == old(selectedTypes) && selectedGenres == old(selectedGenres)
      ensures ratingMin == old(ratingMin) && ratingMax == old(ratingMax)
      ensures sortBy == old(sortBy) && sortOrder == old(sortOrder)
      ensures results == old(results) && searched == old(searched)
    {
      ToggleKeepsNoDuplicates(selectedStatuses, s);
      selectedStatuses := Toggle(selectedStatuses, s);
    }

    /** `handleGenreToggle`: flips the membership of `g` in the genre selection. */
    method HandleGenreToggle(g: Genre)
      requires Valid()
      modifies this
      ensures Valid()
      ensures selectedGenres == Toggle(old(selectedGenres), g)
      ensures selectedTypes == old(selectedTypes) && selectedStatuses == old(selectedStatuses)
      ensures ratingMin == old(ratingMin) && ratingMax == old(ratingMax)
      ensures sortBy == old(sortBy) && sortOrder == old(sortOrder)
      ensures results == old(results) && searched == old(searched)
    {
      ToggleKeepsNoDuplicates(selectedGenres, g);
      selectedGenres := Toggle(selectedGenres, g);
    }

    /** The minimum-rating select: "Any" is `None`, otherwise the parsed value. */
    method SetRatingMin(bound: Option<real>)
      modifies this
      ensures ratingMin == bound
      ensures Selection() == old(Selection()).(ratingMin := bound)
      ensures Valid() == old(Valid())
      ensures sortBy == old(sortBy) && sortOrder == old(sortOrder)
      ensures results == old(results) && searched == old(searched)
    {
      ratingMin := bound;
    }

    /** The maximum-rating select: "Any" is `None`, otherwise the parsed value. */
    method SetRatingMax(bound: Option<real>)
      modifies this
      ensures ratingMax == bound
      ensures Selection() == old(Selection()).(ratingMax := bound)
      ensures Valid() == old(Valid())
      ensures sortBy == old(sortBy) && sortOrder == old(sortOrder)
      ensures results == old(results) && searched == old(searched)
    {
      ratingMax := bound;
    }

    /** The two sort radio groups. */
    method SetSort(key: SortKey, order: SortOrder)
      modifies this
      ensures sortBy == key && sortOrder == order
      ensures Selection() == old(Selection())
      ensures Valid() == old(Valid())
      ensures results == old(results) && searched == old(searched)
    {
      sortBy, sortOrder := key, order;
    }

    /** `handleFilter`: five filter passes over a copy of the store's list,
        then an in-place sort of that copy. The results are exactly the
        survivors, ordered by the chosen key and order. */
    method HandleFilter(mediaItems: seq<MediaItem>)
      modifies this
      ensures multiset(results) == multiset(Survivors(mediaItems, Selection()))
      ensures InOrder(results, sortBy, sortOrder)
      ensures searched
      ensures Selection() == old(Selection())
      ensures Valid() == old(Valid())
      ensures sortBy == old(sortBy) && sortOrder == old(sortOrder)
    {
      var filtered := FilterPasses(mediaItems, selectedTypes, selectedStatuses, selectedGenres, ratingMin, ratingMax);
      var copy := new MediaItem[|filtered|](i requires 0 <= i < |filtered| => filtered[i]);
      assert copy[..] == filtered;
      var key, order := sortBy, sortOrder;
      PrecedesIsTotalPreorder(key, order);
      SortInPlace(copy, Comparator(key, order));
      results := copy[..];
      searched := true;
    }

    /** `handleClearFilters`: selections emptied, bounds cleared, sort back to
        title ascending, and the results hidden (but kept). */
    method HandleClearFilters()
      modifies this
      ensures Valid()
      ensures Selection() == Criteria([], [], [], None, None)
      ensures sortBy == ByTitle && sortOrder == Asc
      ensures !searched
      ensures results == old(results)
    {
      selectedTypes, selectedStatuses, selectedGenres := [], [], [];
      ratingMin, ratingMax := None, None;
      sortBy, sortOrder := ByTitle, Asc;
      searched := false;
    }
  }
}
