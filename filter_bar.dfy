/** The filter-option record behind the collection page: its initial value,
    the one-key update `handleFilterChange` performs, and the sort-order flip. */
module FilterBar {
  import opened Types
  import opened MediaOrder

  /** A select whose first entry is "All". */
  datatype Choice<T> = All | Only(value: T)

  datatype FilterOptions = FilterOptions(
    searchTerm: string,
    typeChoice: Choice<MediaType>,
    statusChoice: Choice<Status>,
    genreChoice: Choice<Genre>,
    sortBy: SortKey,
    sortOrder: SortOrder)

  /** The record both the filter bar and the collection page start from. */
  function InitialFilters(): FilterOptions
  {
    FilterOptions("", All, All, All, ByTitle, Asc)
  }

  /** The keys of `FilterOptions`. */
  datatype FilterKey = SearchTermKey | TypeKey | StatusKey | GenreKey | SortByKey | SortOrderKey

  /** A call `handleFilterChange(key, value)`: a key with a value of its type. */
  datatype FilterChange =
    | SetSearchTerm(term: string)
    | SetType(typeChoice: Choice<MediaType>)
    | SetStatus(statusChoice: Choice<Status>)
    | SetGenre(genreChoice: Choice<Genre>)
    | SetSortBy(sortBy: SortKey)
    | SetSortOrder(sortOrder: SortOrder)

  function KeyOf(c: FilterChange): FilterKey
  {
    match c
    case SetSearchTerm(_) => SearchTermKey
    case SetType(_) => TypeKey
    case SetStatus(_) => StatusKey
    case SetGenre(_) => GenreKey
    case SetSortBy(_) => SortByKey
    case SetSortOrder(_) => SortOrderKey
  }

  /** `f` carries the value of change `c` under its key. */
  predicate Carries(f: FilterOptions, c: FilterChange)
  {
    match c
    case SetSearchTerm(t) => f.searchTerm == t
    case SetType(t) => f.typeChoice == t
    case SetStatus(s) => f.statusChoice == s
    case SetGenre(g) => f.genreChoice == g
    case SetSortBy(k) => f.sortBy == k
    case SetSortOrder(o) => f.sortOrder == o
  }

  /** `f` and `g` agree on every key except possibly `k`. */
  predicate AgreeExcept(f: FilterOptions, g: FilterOptions, k: FilterKey)
  {
    && (k != SearchTermKey ==> f.searchTerm == g.searchTerm)
    && (k != TypeKey ==> f.typeChoice == g.typeChoice)
    && (k != StatusKey ==> f.statusChoice == g.statusChoice)
    && (k != GenreKey ==> f.genreChoice == g.genreChoice)
    && (k != SortByKey ==> f.sortBy == g.sortBy)
    && (k != SortOrderKey ==> f.sortOrder == g.sortOrder)
  }

  /** `{ ...filters, [key]: value }`: the given key takes the new value and
      every other key keeps its old one. */
  function Changed(f: FilterOptions, c: FilterChange): (r: FilterOptions)
    ensures Carries(r, c)
    ensures AgreeExcept(f, r, KeyOf(c))
  {
    match c
    case SetSearchTerm(t) => f.(searchTerm := t)
    case SetType(t) => f.(typeChoice := t)
    case SetStatus(s) => f.(statusChoice := s)
    case SetGenre(g) => f.(genreChoice := g)
    case SetSortBy(k) => f.(sortBy := k)
    case SetSortOrder(o) => f.(sortOrder := o)
  }

  /** Those two facts determine the new record: any record carrying the
      change and otherwise agreeing with the old one is the result. */
  lemma ChangedIsUnique(f: FilterOptions, c: FilterChange, g: FilterOptions)
    requires Carries(g, c) && AgreeExcept(f, g, KeyOf(c))
    ensures g == Changed(f, c)
  {
  }

  /** Repeating a change changes nothing more. */
  lemma ChangedIdempotent(f: FilterOptions, c: FilterChange)
    ensures Changed(Changed(f, c), c) == Changed(f, c)
  {
  }

  /** The sort-order item: ascending becomes descending and back. */
  function Flip(o: SortOrder): (r: SortOrder)
    ensures r != o
  {
    match o
    case Asc => Desc
    case Desc => Asc
  }

  /** Two activations of the sort-order item restore the original order. */
  lemma FlipTwice(o: SortOrder)
    ensures Flip(Flip(o)) == o
  {
  }

  /** The filter bar's state, and the record it hands to the page. */
  class FilterBarState {
    var filters: FilterOptions

    constructor()
      ensures filters == InitialFilters()
    {
      filters := InitialFilters();
    }

    /** `handleFilterChange`: stores the updated record and returns it as the
        value passed to `onFilterChange`. */
    method HandleFilterChange(c: FilterChange) returns (passed: FilterOptions)
      modifies this
      ensures filters == Changed(old(filters), c)
      ensures passed == filters
    {
      filters := Changed(filters, c);
      passed := filters;
    }

    /** The sort-order item's handler. */
    method ToggleSortOrder() returns (passed: FilterOptions)
      modifies this
      ensures filters == old(filters).(sortOrder := Flip(old(filters).sortOrder))
      ensures passed == filters
    {
      passed := HandleFilterChange(SetSortOrder(Flip(filters.sortOrder)));
    }
  }
}
