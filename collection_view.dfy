/** The collection page: the conjunctive filter over the store's items and
    the sort of a copy of the result by the filter bar's key and order. */
module CollectionView {
  import opened Seqs
  import opened Strings
  import opened Types
  import opened Sorting
  import opened MediaOrder
  import opened FilterBar

  /** An empty term imposes nothing; otherwise the lower-cased title contains the lower-cased term. */
  predicate TitleMatches(item: MediaItem, term: string)
  {
    term == "" || Contains(Lower(item.title), Lower(term))
  }

  /** "All" imposes nothing; otherwise the value must be the one selected. */
  predicate ChoiceAdmits<T(==)>(c: Choice<T>, v: T)
  {
    c.All? || c.value == v
  }

  /** "All" imposes nothing; otherwise the item must carry the selected genre. */
  predicate GenreAdmits(c: Choice<Genre>, item: MediaItem)
  {
    c.All? || c.value in item.genres
  }

  /** The page's filter callback: every one of the four checks passes. */
  predicate Shown(f: FilterOptions, item: MediaItem)
  {
    && TitleMatches(item, f.searchTerm)
    && ChoiceAdmits(f.typeChoice, item.mediaType)
    && ChoiceAdmits(f.statusChoice, item.status)
    && GenreAdmits(f.genreChoice, item)
  }

  /** `filteredItems`: the shown items, in store order. */
  function FilteredItems(items: seq<MediaItem>, f: FilterOptions): (r: seq<MediaItem>)
    ensures forall x :: x in r <==> x in items && Shown(f, x)
    ensures IsSubsequence(r, items)
  {
    var shown := x => Shown(f, x);
    FilterIsSubsequence(items, shown);
    FilterMembers(items, shown);
    Filter(items, shown)
  }

  /** Each shown item appears as many times as the store holds it; the others
      are dropped entirely. */
  lemma FilteredItemsMultiplicity(items: seq<MediaItem>, f: FilterOptions)
    ensures forall x :: multiset(FilteredItems(items, f))[x] == if Shown(f, x) then multiset(items)[x] else 0
  {
    FilterMultiplicity(items, x => Shown(f, x));
  }

  /** `sortedItems`: the filtered items, copied and sorted in place. The
      store's list is a value here, so it is untouched. */
  method SortedItems(items: seq<MediaItem>, f: FilterOptions) returns (sorted: seq<MediaItem>)
    ensures multiset(sorted) == multiset(FilteredItems(items, f))
    ensures InOrder(sorted, f.sortBy, f.sortOrder)
    ensures |sorted| <= |items|
  {
    var filtered := FilteredItems(items, f);
    var copy := new MediaItem[|filtered|](i requires 0 <= i < |filtered| => filtered[i]);
    assert copy[..] == filtered;
    PrecedesIsTotalPreorder(f.sortBy, f.sortOrder);
    SortInPlace(copy, Comparator(f.sortBy, f.sortOrder));
    sorted := copy[..];
    assert |sorted| == |multiset(sorted)| == |multiset(filtered)| == |filtered|;
  }

  /** With the initial filters every item is shown. */
  lemma InitialFiltersShowAll(items: seq<MediaItem>)
    ensures FilteredItems(items, InitialFilters()) == items
  {
    FilterKeepsAll(items, x => Shown(InitialFilters(), x));
  }

  /** Narrowing the type from "All" to one value only removes items. */
  lemma NarrowingTypeShrinks(items: seq<MediaItem>, f: FilterOptions, t: MediaType)
    requires f.typeChoice.All?
    ensures IsSubsequence(FilteredItems(items, f.(typeChoice := Only(t))), FilteredItems(items, f))
  {
    var g := f.(typeChoice := Only(t));
    FilterFuse(items, x => Shown(f, x), (x: MediaItem) => x.mediaType == t, x => Shown(g, x));
    FilterIsSubsequence(FilteredItems(items, f), (x: MediaItem) => x.mediaType == t);
  }

  /** Choosing a genre keeps exactly the shown items that carry it. */
  lemma ChoosingGenreKeepsCarriers(items: seq<MediaItem>, f: FilterOptions, g: Genre)
    requires f.genreChoice.All?
    ensures FilteredItems(items, f.(genreChoice := Only(g)))
         == Filter(FilteredItems(items, f), (x: MediaItem) => g in x.genres)
  {
    var f' := f.(genreChoice := Only(g));
    FilterFuse(items, x => Shown(f, x), (x: MediaItem) => g in x.genres, x => Shown(f', x));
  }
}
