/** The watchlist page: the items on the watchlist, and the tab that narrows
    them to one watchlist status. */
module Watchlist {
  import opened Wrappers
  import opened Seqs
  import opened Types

  /** `"All"` or one of the four watchlist statuses. */
  datatype Tab = AllTab | StatusTab(status: WatchlistStatus)

  /** `watchlistItems`: the items with `inWatchlist` set, in store order. */
  function WatchlistItems(items: seq<MediaItem>): (r: seq<MediaItem>)
    ensures forall x :: x in r <==> x in items && x.inWatchlist
    ensures IsSubsequence(r, items)
  {
    FilterIsSubsequence(items, (x: MediaItem) => x.inWatchlist);
    FilterMembers(items, (x: MediaItem) => x.inWatchlist);
    Filter(items, (x: MediaItem) => x.inWatchlist)
  }

  /** The tab callback: "All" shows everything, a status tab the items whose
      status text is that status's name. */
  predicate OnTab(tab: Tab, item: MediaItem)
  {
    match tab
    case AllTab => true
    case StatusTab(s) => item.watchlistStatus == Some(WatchlistStatusName(s))
  }

  /** The tab callback as the value handed to `filter`. */
  function TabTest(tab: Tab): MediaItem -> bool
  {
    x => OnTab(tab, x)
  }

  /** `filteredItems`: the watchlist items shown under `tab`, in store order. */
  function TabItems(items: seq<MediaItem>, tab: Tab): (r: seq<MediaItem>)
    ensures forall x :: x in r <==> x in items && x.inWatchlist && OnTab(tab, x)
    ensures IsSubsequence(r, WatchlistItems(items))
  {
    var listed := WatchlistItems(items);
    FilterIsSubsequence(listed, TabTest(tab));
    FilterMembers(listed, TabTest(tab));
    Filter(listed, TabTest(tab))
  }

  /** Each watchlist item on the tab is shown as many times as the watchlist
      holds it; the others are dropped entirely. */
  lemma TabItemsMultiplicity(items: seq<MediaItem>, tab: Tab)
    ensures forall x :: multiset(TabItems(items, tab))[x] == if OnTab(tab, x) then multiset(WatchlistItems(items))[x] else 0
  {
    FilterMultiplicity(WatchlistItems(items), TabTest(tab));
  }

  /** The "All" tab shows the whole watchlist. */
  lemma AllTabShowsWatchlist(items: seq<MediaItem>)
    ensures TabItems(items, AllTab) == WatchlistItems(items)
  {
    FilterKeepsAll(WatchlistItems(items), TabTest(AllTab));
  }

  /** An item is under at most one status tab. */
  lemma AtMostOneStatusTab(item: MediaItem, v: WatchlistStatus, w: WatchlistStatus)
    requires OnTab(StatusTab(v), item) && OnTab(StatusTab(w), item)
    ensures v == w
  {
    if v != w {
      WatchlistStatusNamesDistinct(v, w);
    }
  }

  /** An item without a watchlist status appears only under "All". */
  lemma NoStatusOnlyUnderAll(item: MediaItem, tab: Tab)
    requires item.watchlistStatus.None? && OnTab(tab, item)
    ensures tab == AllTab
  {
  }

  /** The number of items under `s`'s status tab, counted over any list. */
  function CountOn(s: seq<MediaItem>, w: WatchlistStatus): nat
  {
    |Filter(s, TabTest(StatusTab(w)))|
  }

  /** The four status tabs together hold no more items than `s`: no item is
      counted under two of them. */
  lemma {:induction false} StatusTabsDisjoint(s: seq<MediaItem>)
    ensures CountOn(s, Planning) + CountOn(s, Current) + CountOn(s, Completed) + CountOn(s, Dropped) <= |s|
  {
    if s != [] {
      StatusTabsDisjoint(s[1..]);
      var h := s[0];
      forall v, w | OnTab(StatusTab(v), h) && OnTab(StatusTab(w), h)
        ensures v == w
      {
        AtMostOneStatusTab(h, v, w);
      }
    }
  }

  /** The status tabs split the watchlist without overlap, so their sizes add
      up to at most the header count, which does not depend on the tab. */
  lemma StatusTabsWithinWatchlist(items: seq<MediaItem>)
    ensures |TabItems(items, StatusTab(Planning))| + |TabItems(items, StatusTab(Current))|
          + |TabItems(items, StatusTab(Completed))| + |TabItems(items, StatusTab(Dropped))|
         <= |WatchlistItems(items)|
  {
    StatusTabsDisjoint(WatchlistItems(items));
  }

  /** The page's tab state. */
  class WatchlistPage {
    var activeTab: Tab

    constructor()
      ensures activeTab == AllTab
    {
      activeTab := AllTab;
    }

    /** The tab list's change handler. */
    method SelectTab(tab: Tab)
      modifies this
      ensures activeTab == tab
    {
      activeTab := tab;
    }

    /** The items shown for the active tab. */
    function Shown(items: seq<MediaItem>): (r: seq<MediaItem>)
      reads this
      ensures forall x :: x in r <==> x in items && x.inWatchlist && OnTab(activeTab, x)
    {
      TabItems(items, activeTab)
    }
  }
}
