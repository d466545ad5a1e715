/** The search page: a case-insensitive substring search over title,
    description and genre names, and the flag that shows the results. */
module Search {
  import opened Seqs
  import opened Strings
  import opened Types

  /** The search callback: the lower-cased query occurs in the lower-cased
      title, the lower-cased description or some lower-cased genre name. */
  predicate Matches(item: MediaItem, query: string)
  {
    || Contains(Lower(item.title), Lower(query))
    || Contains(Lower(item.description), Lower(query))
    || exists g :: g in item.genres && Contains(Lower(GenreName(g)), Lower(query))
  }

  /** `filteredItems`: the matching items, in store order and unsorted. */
  function SearchResults(items: seq<MediaItem>, query: string): (r: seq<MediaItem>)
    ensures forall x :: x in r <==> x in items && Matches(x, query)
    ensures IsSubsequence(r, items)
  {
    var matches := x => Matches(x, query);
    FilterIsSubsequence(items, matches);
    FilterMembers(items, matches);
    Filter(items, matches)
  }

  /** Each matching item is listed as many times as the store holds it; the
      others are dropped entirely. */
  lemma SearchResultsMultiplicity(items: seq<MediaItem>, query: string)
    ensures forall x :: multiset(SearchResults(items, query))[x] == if Matches(x, query) then multiset(items)[x] else 0
  {
    FilterMultiplicity(items, x => Matches(x, query));
  }

  /** The empty query matches every item, so the page starts by listing the
      whole collection. */
  lemma EmptyQueryMatchesAll(items: seq<MediaItem>)
    ensures SearchResults(items, "") == items
  {
    forall i | 0 <= i < |items|
      ensures Matches(items[i], "")
    {
      ContainsEmpty(Lower(items[i].title));
    }
    FilterKeepsAll(items, x => Matches(x, ""));
  }

  /** Queries that lower-case alike find the same items. */
  lemma QueryCaseInsensitive(items: seq<MediaItem>, q1: string, q2: string)
    requires Lower(q1) == Lower(q2)
    ensures SearchResults(items, q1) == SearchResults(items, q2)
  {
    FilterAgrees(items, x => Matches(x, q1), x => Matches(x, q2));
  }

  /** Typing more characters only narrows the results. */
  lemma LongerQueryNarrows(items: seq<MediaItem>, query: string, more: string)
    ensures IsSubsequence(SearchResults(items, query + more), SearchResults(items, query))
  {
    LowerAppend(query, more);
    forall i | 0 <= i < |items| && Matches(items[i], query + more)
      ensures Matches(items[i], query)
    {
      var item := items[i];
      if Contains(Lower(item.title), Lower(query + more)) {
        ContainsPrefix(Lower(item.title), Lower(query), Lower(more));
      } else if Contains(Lower(item.description), Lower(query + more)) {
        ContainsPrefix(Lower(item.description), Lower(query), Lower(more));
      } else {
        var g :| g in item.genres && Contains(Lower(GenreName(g)), Lower(query + more));
        ContainsPrefix(Lower(GenreName(g)), Lower(query), Lower(more));
      }
    }
    FilterMonotone(items, x => Matches(x, query + more), x => Matches(x, query));
  }

  /** The page's two pieces of state. */
  class SearchPage {
    var query: string
    var searched: bool

    constructor()
      ensures query == "" && !searched
    {
      query, searched := "", false;
    }

    /** The input's change handler: the query takes the typed text and any
        shown search is withdrawn. */
    method OnQueryChange(text: string)
      modifies this
      ensures query == text && !searched
    {
      query := text;
      if searched {
        searched := false;
      }
    }

    /** `handleSearch`: submitting shows the results for the current query. */
    method HandleSearch()
      modifies this
      ensures searched && query == old(query)
    {
      searched := true;
    }
  }
}
