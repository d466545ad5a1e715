/** The item store: one list of media items, replaced wholesale by seven
    actions. Each action's new list is a pure function of the old one. */
module MediaStore {
  import opened Wrappers
  import opened Seqs
  import opened Types

  /** The ids of `items`, in order. */
  function Ids(items: seq<MediaItem>): seq<string>
  {
    seq(|items|, i requires 0 <= i < |items| => items[i].id)
  }

  /** No two items share an id. */
  predicate UniqueIds(items: seq<MediaItem>)
  {
    forall i, j :: 0 <= i < j < |items| ==> items[i].id != items[j].id
  }

  /** The length of the longest string in `used`. */
  function MaxLength(used: seq<string>): (n: nat)
    ensures forall i :: 0 <= i < |used| ==> |used[i]| <= n
  {
    if used == [] then 0
    else
      var m := MaxLength(used[1..]);
      assert forall i :: 1 <= i < |used| ==> used[i] == used[1..][i - 1];
      if |used[0]| > m then |used[0]| else m
  }

  /** `uuidv4()`, modelled as an oracle that returns an id no item in `used` has. */
  function FreshId(used: seq<string>): (id: string)
    ensures id !in used
  {
    seq(MaxLength(used) + 1, _ => 'x')
  }

  /** `{ ...item, ...patch }` for a `Partial<MediaItem>`: a field the patch names
      replaces the item's; `watchlistStatus` and `imageUrl` may be named with the
      value `undefined` (`Some(None)`), which clears them. */
  datatype ItemPatch = ItemPatch(
    id: Option<string>,
    title: Option<string>,
    mediaType: Option<MediaType>,
    genres: Option<seq<Genre>>,
    description: Option<string>,
    rating: Option<real>,
    status: Option<Status>,
    inWatchlist: Option<bool>,
    watchlistStatus: Option<Option<string>>,
    imageUrl: Option<Option<string>>)

  /** The patch that names no field. */
  function EmptyPatch(): ItemPatch
  {
    ItemPatch(None, None, None, None, None, None, None, None, None, None)
  }

  function Pick<T>(patched: Option<T>, current: T): T
  {
    if patched.Some? then patched.value else current
  }

  function Merge(item: MediaItem, patch: ItemPatch): MediaItem
  {
    MediaItem(
      Pick(patch.id, item.id),
      Pick(patch.title, item.title),
      Pick(patch.mediaType, item.mediaType),
      Pick(patch.genres, item.genres),
      Pick(patch.description, item.description),
      Pick(patch.rating, item.rating),
      Pick(patch.status, item.status),
      Pick(patch.inWatchlist, item.inWatchlist),
      Pick(patch.watchlistStatus, item.watchlistStatus),
      Pick(patch.imageUrl, item.imageUrl))
  }

  /** `item` after `toggleWatchlist`. */
  function ToggledItem(item: MediaItem): MediaItem
  {
    item.(inWatchlist := !item.inWatchlist,
          watchlistStatus := if !item.inWatchlist then Some(WatchlistStatusName(Planning)) else None)
  }

  /** `item` after `updateWatchlistStatus(_, status)`. */
  function StatusSetItem(item: MediaItem, status: WatchlistStatus): MediaItem
  {
    item.(watchlistStatus := Some(WatchlistStatusName(status)), inWatchlist := true)
  }

  /** The new list of `addMediaItem(d)`: the old list, then `d` under a new id. */
  function Appended(items: seq<MediaItem>, d: ItemDraft): (r: seq<MediaItem>)
    ensures |r| == |items| + 1 && r[..|items|] == items
    ensures DraftOf(r[|items|]) == d && r[|items|].id !in Ids(items)
  {
    items + [WithId(FreshId(Ids(items)), d)]
  }

  /** The new list of `updateMediaItem(id, patch)`. */
  function Updated(items: seq<MediaItem>, id: string, patch: ItemPatch): (r: seq<MediaItem>)
    ensures |r| == |items|
    ensures forall i :: 0 <= i < |items| && items[i].id != id ==> r[i] == items[i]
    ensures forall i :: 0 <= i < |items| && items[i].id == id ==> r[i] == Merge(items[i], patch)
    ensures id !in Ids(items) ==> r == items
  {
    assert forall i :: 0 <= i < |items| ==> items[i].id == Ids(items)[i];
    seq(|items|, i requires 0 <= i < |items| => if items[i].id == id then Merge(items[i], patch) else items[i])
  }

  /** The new list of `deleteMediaItem(id)`. */
  function Deleted(items: seq<MediaItem>, id: string): (r: seq<MediaItem>)
    ensures IsSubsequence(r, items)
    ensures forall x :: x in r <==> x in items && x.id != id
    ensures id !in Ids(r)
    ensures id !in Ids(items) ==> r == items
  {
    var keep := (x: MediaItem) => x.id != id;
    FilterIsSubsequence(items, keep);
    FilterMembers(items, keep);
    var r := Filter(items, keep);
    assert id !in Ids(items) ==> r == items by {
      if id !in Ids(items) {
        assert forall i :: 0 <= i < |items| ==> items[i].id == Ids(items)[i];
        FilterKeepsAll(items, keep);
      }
    }
    assert forall i :: 0 <= i < |r| ==> r[i] in r;
    r
  }

  /** Every item with another id is kept as many times as the list holds it. */
  lemma DeletedMultiplicity(items: seq<MediaItem>, id: string)
    ensures forall x :: multiset(Deleted(items, id))[x] == if x.id != id then multiset(items)[x] else 0
  {
    FilterMultiplicity(items, (x: MediaItem) => x.id != id);
  }

  /** The new list of `toggleWatchlist(id)`. */
  function Toggled(items: seq<MediaItem>, id: string): (r: seq<MediaItem>)
    ensures |r| == |items| && Ids(r) == Ids(items)
    ensures forall i :: 0 <= i < |items| && items[i].id != id ==> r[i] == items[i]
    ensures forall i :: 0 <= i < |items| && items[i].id == id ==>
      && r[i].inWatchlist == !items[i].inWatchlist
      && (r[i].watchlistStatus.Some? <==> r[i].inWatchlist)
      && (r[i].inWatchlist ==> r[i].watchlistStatus == Some("Planning"))
      && DraftOf(r[i]).(inWatchlist := items[i].inWatchlist, watchlistStatus := items[i].watchlistStatus) == DraftOf(items[i])
  {
    seq(|items|, i requires 0 <= i < |items| => if items[i].id == id then ToggledItem(items[i]) else items[i])
  }

  /** The new list of `updateWatchlistStatus(id, status)`. */
  function StatusSet(items: seq<MediaItem>, id: string, status: WatchlistStatus): (r: seq<MediaItem>)
    ensures |r| == |items| && Ids(r) == Ids(items)
    ensures forall i :: 0 <= i < |items| && items[i].id != id ==> r[i] == items[i]
    ensures forall i :: 0 <= i < |items| && items[i].id == id ==>
      && r[i].inWatchlist
      && r[i].watchlistStatus == Some(WatchlistStatusName(status))
      && DraftOf(r[i]).(inWatchlist := items[i].inWatchlist, watchlistStatus := items[i].watchlistStatus) == DraftOf(items[i])
  {
    seq(|items|, i requires 0 <= i < |items| => if items[i].id == id then StatusSetItem(items[i], status) else items[i])
  }

  /** `drafts.map(d => ({ id: uuidv4(), ...d }))`: each draft, in order, under an
      id that is not in `used` and not given to any other draft. */
  function WithFreshIds(used: seq<string>, drafts: seq<ItemDraft>): (r: seq<MediaItem>)
    ensures |r| == |drafts|
    ensures forall i :: 0 <= i < |drafts| ==> DraftOf(r[i]) == drafts[i] && r[i].id !in used
    ensures UniqueIds(r)
    decreases |drafts|
  {
    if drafts == [] then []
    else
      var id := FreshId(used);
      var rest := WithFreshIds(used + [id], drafts[1..]);
      assert forall i :: 0 <= i < |rest| ==> rest[i].id !in used && rest[i].id != id by {
        forall i | 0 <= i < |rest| ensures rest[i].id !in used && rest[i].id != id {
          assert rest[i].id !in used + [id];
        }
      }
      [WithId(id, drafts[0])] + rest
  }

  /** The new list of `importFromCSV(drafts)`: the old list, then every draft in
      input order, each under a new id. */
  function Imported(items: seq<MediaItem>, drafts: seq<ItemDraft>): (r: seq<MediaItem>)
    ensures |r| == |items| + |drafts| && r[..|items|] == items
    ensures forall i :: 0 <= i < |drafts| ==>
      DraftOf(r[|items| + i]) == drafts[i] && r[|items| + i].id !in Ids(items)
  {
    items + WithFreshIds(Ids(items), drafts)
  }

  /** Adding keeps ids unique. */
  lemma AppendedKeepsIdsUnique(items: seq<MediaItem>, d: ItemDraft)
    requires UniqueIds(items)
    ensures UniqueIds(Appended(items, d))
  {
    var r := Appended(items, d);
    forall i, j | 0 <= i < j < |r| ensures r[i].id != r[j].id {
      if j == |items| {
        assert r[i].id == Ids(items)[i];
      }
    }
  }

  /** A bulk import keeps ids unique, across the old items and among the new ones. */
  lemma ImportedKeepsIdsUnique(items: seq<MediaItem>, drafts: seq<ItemDraft>)
    requires UniqueIds(items)
    ensures UniqueIds(Imported(items, drafts))
  {
    var r := Imported(items, drafts);
    var added := WithFreshIds(Ids(items), drafts);
    assert r == items + added;
    forall i, j | 0 <= i < j < |r| ensures r[i].id != r[j].id {
      if i >= |items| {
        assert r[i] == added[i - |items|] && r[j] == added[j - |items|];
      } else if j >= |items| {
        assert r[i].id == Ids(items)[i];
        assert r[j] == added[j - |items|];
      }
    }
  }

  /** Deleting keeps ids unique. */
  lemma DeletedKeepsIdsUnique(items: seq<MediaItem>, id: string)
    requires UniqueIds(items)
    ensures UniqueIds(Deleted(items, id))
  {
    var r := Deleted(items, id);
    SubsequenceKeepsIdsUnique(r, items);
  }

  /** A subsequence of a list with unique ids has unique ids. */
  lemma {:induction false} SubsequenceKeepsIdsUnique(a: seq<MediaItem>, b: seq<MediaItem>)
    requires IsSubsequence(a, b) && UniqueIds(b)
    ensures UniqueIds(a)
  {
    if a != [] {
      if a[0] == b[0] {
        SubsequenceKeepsIdsUnique(a[1..], b[1..]);
        SubsequenceMembers(a[1..], b[1..]);
        forall j | 1 <= j < |a| ensures a[0].id != a[j].id {
          assert a[j] in a[1..];
          var k :| 0 <= k < |b[1..]| && b[1..][k] == a[j];
          assert b[k + 1] == a[j];
        }
      } else {
        SubsequenceKeepsIdsUnique(a, b[1..]);
      }
    }
  }

  /** An update whose patch does not name `id` keeps every id, so keeps them unique. */
  lemma UpdatedWithoutIdKeepsIds(items: seq<MediaItem>, id: string, patch: ItemPatch)
    requires patch.id.None?
    ensures Ids(Updated(items, id, patch)) == Ids(items)
    ensures UniqueIds(items) ==> UniqueIds(Updated(items, id, patch))
  {
    var r := Updated(items, id, patch);
    assert forall i :: 0 <= i < |items| ==> r[i].id == items[i].id;
  }

  /** `Partial<MediaItem>` lets an update rename an item to an id already in
      use, after which ids are no longer unique. */
  lemma UpdateCanDuplicateIds(a: MediaItem, b: MediaItem)
    requires a.id == "1" && b.id == "2"
    ensures UniqueIds([a, b])
    ensures !UniqueIds(Updated([a, b], "1", EmptyPatch().(id := Some("2"))))
  {
    var r := Updated([a, b], "1", EmptyPatch().(id := Some("2")));
    assert r[0].id == "2" && r[1].id == "2";
  }

  /** An empty patch changes nothing. */
  lemma EmptyPatchIsNoOp(items: seq<MediaItem>, id: string)
    ensures Updated(items, id, EmptyPatch()) == items
  {
  }

  /** Applying the same update twice is applying it once, as long as the patch
      keeps the id it matched on. */
  lemma UpdateIdempotent(items: seq<MediaItem>, id: string, patch: ItemPatch)
    requires patch.id.None? || patch.id == Some(id)
    ensures Updated(Updated(items, id, patch), id, patch) == Updated(items, id, patch)
  {
  }

  /** Two toggles restore `inWatchlist` and every field other than
      `watchlistStatus`, which becomes "Planning" or absent. */
  lemma ToggleTwice(items: seq<MediaItem>, id: string)
    ensures var r := Toggled(Toggled(items, id), id);
      && |r| == |items|
      && (forall i :: 0 <= i < |items| && items[i].id != id ==> r[i] == items[i])
      && (forall i :: 0 <= i < |items| && items[i].id == id ==>
            r[i] == items[i].(watchlistStatus := if items[i].inWatchlist then Some("Planning") else None))
  {
  }

  /** Two toggles do not restore a watchlist status other than "Planning". */
  lemma ToggleTwiceCanLoseStatus(item: MediaItem)
    requires item.inWatchlist && item.watchlistStatus == Some("Current")
    ensures Toggled(Toggled([item], item.id), item.id) != [item]
  {
    assert Toggled(Toggled([item], item.id), item.id)[0].watchlistStatus == Some("Planning");
  }

  /** Two lists with the same ids in the same order are alike in having unique ids. */
  lemma SameIdsKeepUnique(a: seq<MediaItem>, b: seq<MediaItem>)
    requires Ids(a) == Ids(b) && UniqueIds(a)
    ensures UniqueIds(b)
  {
    forall i, j | 0 <= i < j < |b| ensures b[i].id != b[j].id {
      assert b[i].id == Ids(b)[i] && b[j].id == Ids(b)[j];
      assert a[i].id == Ids(a)[i] && a[j].id == Ids(a)[j];
    }
  }

  /** The store itself: one list, replaced by each action. */
  class Store {
    var mediaItems: seq<MediaItem>

    /** No two stored items share an id. Every action but an update whose
        patch names `id` keeps this. */
    ghost predicate Valid()
      reads this
    {
      UniqueIds(mediaItems)
    }

    /** The store starts empty. */
    constructor ()
      ensures mediaItems == [] && Valid()
    {
      mediaItems := [];
    }

    method AddMediaItem(item: ItemDraft)
      modifies this
      ensures mediaItems == Appended(old(mediaItems), item)
      ensures old(Valid()) ==> Valid()
    {
      if Valid() {
        AppendedKeepsIdsUnique(mediaItems, item);
      }
      mediaItems := Appended(mediaItems, item);
    }

    method UpdateMediaItem(id: string, patch: ItemPatch)
      modifies this
      ensures mediaItems == Updated(old(mediaItems), id, patch)
      ensures old(Valid()) && patch.id.None? ==> Valid()
    {
      if patch.id.None? {
        UpdatedWithoutIdKeepsIds(mediaItems, id, patch);
      }
      mediaItems := Updated(mediaItems, id, patch);
    }

    method DeleteMediaItem(id: string)
      modifies this
      ensures mediaItems == Deleted(old(mediaItems), id)
      ensures old(Valid()) ==> Valid()
    {
      if Valid() {
        DeletedKeepsIdsUnique(mediaItems, id);
      }
      mediaItems := Deleted(mediaItems, id);
    }

    method ToggleWatchlist(id: string)
      modifies this
      ensures mediaItems == Toggled(old(mediaItems), id)
      ensures old(Valid()) ==> Valid()
    {
      if Valid() {
        SameIdsKeepUnique(mediaItems, Toggled(mediaItems, id));
      }
      mediaItems := Toggled(mediaItems, id);
    }

    method UpdateWatchlistStatus(id: string, status: WatchlistStatus)
      modifies this
      ensures mediaItems == StatusSet(old(mediaItems), id, status)
      ensures old(Valid()) ==> Valid()
    {
      if Valid() {
        SameIdsKeepUnique(mediaItems, StatusSet(mediaItems, id, status));
      }
      mediaItems := StatusSet(mediaItems, id, status);
    }

    method ImportFromCsv(items: seq<ItemDraft>)
      modifies this
      ensures mediaItems == Imported(old(mediaItems), items)
      ensures old(Valid()) ==> Valid()
    {
      if Valid() {
        ImportedKeepsIdsUnique(mediaItems, items);
      }
      mediaItems := Imported(mediaItems, items);
    }

    method ClearAllMediaItems()
      modifies this
      ensures mediaItems == [] && Valid()
    {
      mediaItems := [];
    }
  }
}
