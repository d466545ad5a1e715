/** `Array.prototype.sort` with a comparator, as an in-place insertion sort.
    The comparator is given as `le(x, y)`, "x may precede y", which is
    `compare(x, y) <= 0` for the source's three-way comparators. */
module Sorting {

  /** `le` is total and transitive, so a sort can honour it. */
  ghost predicate TotalPreorder<T(!new)>(le: (T, T) -> bool)
  {
    && (forall x, y :: le(x, y) || le(y, x))
    && (forall x, y, z :: le(x, y) && le(y, z) ==> le(x, z))
  }

  /** Every element may precede every later one. */
  ghost predicate SortedBy<T>(s: seq<T>, le: (T, T) -> bool)
  {
    forall i, j :: 0 <= i < j < |s| ==> le(s[i], s[j])
  }

  /** Sorts `a` in place: afterwards it is ordered by `le` and holds the same
      elements as before. */
  method SortInPlace<T(==,!new)>(a: array<T>, le: (T, T) -> bool)
    requires TotalPreorder(le)
    modifies a
    ensures SortedBy(a[..], le)
    ensures multiset(a[..]) == multiset(old(a[..]))
  {
    var i := 0;
    while i < a.Length
      invariant 0 <= i <= a.Length
      invariant SortedBy(a[..i], le)
      invariant multiset(a[..]) == multiset(old(a[..]))
    {
      Insert(a, i, le);
      i := i + 1;
    }
    assert a[..a.Length] == a[..];
  }

  /** Moves `a[i]` left into the sorted prefix `a[..i]`, by adjacent swaps. */
  method Insert<T(==,!new)>(a: array<T>, i: int, le: (T, T) -> bool)
    requires 0 <= i < a.Length
    requires TotalPreorder(le)
    requires SortedBy(a[..i], le)
    modifies a
    ensures SortedBy(a[..i + 1], le)
    ensures multiset(a[..]) == multiset(old(a[..]))
    ensures a[i + 1..] == old(a[i + 1..])
  {
    var j := i;
    assert SortedExcept(a[..], i, j, le);
    while j > 0 && !le(a[j - 1], a[j])
      invariant 0 <= j <= i
      invariant multiset(a[..]) == multiset(old(a[..]))
      invariant SortedExcept(a[..], i, j, le)
      invariant PrecedesLater(a[..], i, j, le)
      invariant a[i + 1..] == old(a[i + 1..])
    {
      Total(le, a[j - 1], a[j]);
      SwapStep(a[..], i, j, le);
      a[j - 1], a[j] := a[j], a[j - 1];
      j := j - 1;
    }
    Settled(a[..], i, j, le);
  }

  /** Positions `0..i` are in order, except possibly position `j`. */
  ghost predicate SortedExcept<T>(s: seq<T>, i: int, j: int, le: (T, T) -> bool)
    requires 0 <= i < |s|
  {
    forall p, q :: 0 <= p < q <= i && p != j && q != j ==> le(s[p], s[q])
  }

  /** `s[j]` may precede every element after it, up to position `i`. */
  ghost predicate PrecedesLater<T>(s: seq<T>, i: int, j: int, le: (T, T) -> bool)
    requires 0 <= j <= i < |s|
  {
    forall q :: j < q <= i ==> le(s[j], s[q])
  }

  lemma Total<T(!new)>(le: (T, T) -> bool, x: T, y: T)
    requires TotalPreorder(le)
    ensures le(x, y) || le(y, x)
  {
  }

  /** Swapping the element being inserted with its left neighbour, which it
      must precede, keeps both invariants with the element one step left. */
  lemma SwapStep<T>(s: seq<T>, i: int, j: int, le: (T, T) -> bool)
    requires 0 < j <= i < |s|
    requires SortedExcept(s, i, j, le) && PrecedesLater(s, i, j, le)
    requires le(s[j], s[j - 1])
    ensures SortedExcept(s[j - 1 := s[j]][j := s[j - 1]], i, j - 1, le)
    ensures PrecedesLater(s[j - 1 := s[j]][j := s[j - 1]], i, j - 1, le)
  {
  }

  /** Once the inserted element may follow its left neighbour, the prefix is sorted. */
  lemma Settled<T(!new)>(s: seq<T>, i: int, j: int, le: (T, T) -> bool)
    requires 0 <= j <= i < |s|
    requires TotalPreorder(le)
    requires SortedExcept(s, i, j, le) && PrecedesLater(s, i, j, le)
    requires j == 0 || le(s[j - 1], s[j])
    ensures SortedBy(s[..i + 1], le)
  {
    forall p | 0 <= p < j
      ensures le(s[p], s[j])
    {
      if p < j - 1 {
        assert le(s[p], s[j - 1]);
      }
    }
  }
}
