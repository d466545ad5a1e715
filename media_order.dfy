/** The comparator the collection page and the advanced filter page sort with:
    by title, rating or status, ascending or descending. Title and status
    compare with `localeCompare`, rating by subtraction. */
module MediaOrder {
  import opened Strings
  import opened Types
  import opened Sorting

  datatype SortKey = ByTitle | ByRating | ByStatus

  datatype SortOrder = Asc | Desc

  /** `compare(a, b) <= 0` for the ascending comparison on `key`. */
  predicate KeyLe(a: MediaItem, b: MediaItem, key: SortKey)
  {
    match key
    case ByTitle => StringLe(a.title, b.title)
    case ByRating => a.rating <= b.rating
    case ByStatus => StringLe(StatusName(a.status), StatusName(b.status))
  }

  /** `a` may precede `b`: the comparator, which swaps its arguments for a
      descending order, is at most 0. */
  predicate Precedes(a: MediaItem, b: MediaItem, key: SortKey, order: SortOrder)
  {
    match order
    case Asc => KeyLe(a, b, key)
    case Desc => KeyLe(b, a, key)
  }

  /** The comparator handed to `sort`, as a test "may precede". */
  function Comparator(key: SortKey, order: SortOrder): (MediaItem, MediaItem) -> bool
  {
    (a: MediaItem, b: MediaItem) => Precedes(a, b, key, order)
  }

  /** `s` is ordered as a sort with this key and order leaves it. */
  ghost predicate InOrder(s: seq<MediaItem>, key: SortKey, order: SortOrder)
  {
    SortedBy(s, Comparator(key, order))
  }

  lemma KeyLeTotal(a: MediaItem, b: MediaItem, key: SortKey)
    ensures KeyLe(a, b, key) || KeyLe(b, a, key)
  {
    match key
    case ByTitle => StringLeTotal(a.title, b.title);
    case ByRating =>
    case ByStatus => StringLeTotal(StatusName(a.status), StatusName(b.status));
  }

  lemma KeyLeTransitive(a: MediaItem, b: MediaItem, c: MediaItem, key: SortKey)
    requires KeyLe(a, b, key) && KeyLe(b, c, key)
    ensures KeyLe(a, c, key)
  {
    match key
    case ByTitle => StringLeTransitive(a.title, b.title, c.title);
    case ByRating =>
    case ByStatus => StringLeTransitive(StatusName(a.status), StatusName(b.status), StatusName(c.status));
  }

  /** The comparator for a key and an order is total and transitive, so
      sorting with it is well defined up to the order of ties. */
  lemma PrecedesIsTotalPreorder(key: SortKey, order: SortOrder)
    ensures TotalPreorder(Comparator(key, order))
  {
    var le := Comparator(key, order);
    forall a: MediaItem, b: MediaItem
      ensures le(a, b) || le(b, a)
    {
      KeyLeTotal(a, b, key);
    }
    forall a: MediaItem, b: MediaItem, c: MediaItem | le(a, b) && le(b, c)
      ensures le(a, c)
    {
      match order
      case Asc => KeyLeTransitive(a, b, c, key);
      case Desc => KeyLeTransitive(c, b, a, key);
    }
  }

  /** Items in descending order are in ascending order read backwards. */
  lemma DescendingIsReversedAscending(s: seq<MediaItem>, key: SortKey)
    requires InOrder(s, key, Desc)
    ensures InOrder(seq(|s|, k requires 0 <= k < |s| => s[|s| - 1 - k]), key, Asc)
  {
    var r := seq(|s|, k requires 0 <= k < |s| => s[|s| - 1 - k]);
    forall i, j | 0 <= i < j < |r|
      ensures Precedes(r[i], r[j], key, Asc)
    {
      assert Precedes(s[|s| - 1 - j], s[|s| - 1 - i], key, Desc);
    }
  }

  /** Sorting by rating in ascending order puts ratings in non-decreasing order. */
  lemma ByRatingAscending(s: seq<MediaItem>)
    requires InOrder(s, ByRating, Asc)
    ensures forall i, j :: 0 <= i < j < |s| ==> s[i].rating <= s[j].rating
  {
    forall i, j | 0 <= i < j < |s|
      ensures s[i].rating <= s[j].rating
    {
      assert Precedes(s[i], s[j], ByRating, Asc);
    }
  }

  /** Sorting by rating in descending order puts ratings in non-increasing order. */
  lemma ByRatingDescending(s: seq<MediaItem>)
    requires InOrder(s, ByRating, Desc)
    ensures forall i, j :: 0 <= i < j < |s| ==> s[i].rating >= s[j].rating
  {
    forall i, j | 0 <= i < j < |s|
      ensures s[i].rating >= s[j].rating
    {
      assert Precedes(s[i], s[j], ByRating, Desc);
    }
  }
}
