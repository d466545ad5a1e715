# otaku-chronicle-keeper, modelled in Dafny

The application is a personal catalogue of anime and manhwa. Each entry
records a title, a type, genres, a description, a rating from 0 to 10, a
publication status, an optional cover URL and a watchlist flag with an
optional watchlist sub-state. All state is held client-side in one store.

This project models the following parts:

- **The item store** (`MediaStore`, `media_store.dfy`). It adds items, patches
  them, deletes them, toggles an item's watchlist flag, sets its watchlist
  status, imports a batch and clears the list. The operations are pure
  functions over the item list. The `Store` class reassigns its
  `mediaItems` field through those functions, and its methods keep the
  invariant that item ids are unique, except an update whose patch carries
  an id.
- **The CSV mapping** (`Csv`, `csv.dfy`). Import turns a parsed row into an
  item draft: genres are trimmed and kept only when known, an unknown type
  or status falls back to a default, and an unparsable rating becomes 0.
  Export turns an item into a row. The round-trip lemmas say what survives
  an export followed by an import.
- **The query pages:**
  - the collection page's filter and sort (`CollectionView`, with the
    `FilterBar` record and its one-key updates);
  - the advanced filter page, which runs five successive filter passes and
    then a sort (`AdvancedFilter`);
  - the search page (`Search`);
  - the watchlist tabs (`Watchlist`).

  Both sorting pages sort a copy of their result in place with one
  comparator (`MediaOrder`). That comparator is proved total and transitive,
  and is handed to an in-place insertion sort over an `array` (`Sorting`).
- **The media form** (`MediaForm`). This covers the form schema's validation
  with its exact set of failing fields, the default values for a new or
  edited item, the genre picker's toggle, the removal of an empty cover URL
  on submit, and the rating slider's grid.

Supporting modules:

- `Seqs` holds `filter`, the selection-toggle idiom and subsequences.
- `Strings` holds `trim`, `split`/`join`, ASCII lower-casing, substring
  search and code-point string order.
- `Types` holds the enumerations, their display names and the option tables.

The two watchlist paths behave differently, as the code does:

- toggling the flag off clears the watchlist status, and toggling it on sets "Planning";
- setting a status always turns the flag on.

`MediaStore.ToggleTwiceCanLoseStatus` exhibits the consequence: toggling
twice replaces a status such as "Current" with "Planning".

## Model

| member | source | states |
|---|---|---|
| Types.GenreOptions | src/store/mediaStore.ts:75-89 | the genre list has the thirteen genres, each once |
| Types.StatusOptions | src/store/mediaStore.ts:91 | the status list has three statuses, each once |
| Types.MediaTypeOptions | src/store/mediaStore.ts:93 | the type list has two types, each once |
| Types.WatchlistStatusOptions | src/store/mediaStore.ts:95-100 | the watchlist-status list has four sub-states, each once |
| Types.OptionTablesComplete | src/store/mediaStore.ts:75-100 | every value of each enumeration appears in its option list |
| Types.WithId | src/store/mediaStore.ts:24 | `{ id, ...item }` carries the given id and exactly the draft's fields |
| Types.MediaTypeNamed | src/utils/csvUtils.ts:17 | `mediaTypeOptions.includes(s)`: finds the type named `s`, or reports that no type has that name |
| Types.StatusNamed | src/utils/csvUtils.ts:25 | `statusOptions.includes(s)`: finds the status named `s`, or reports that none has that name |
| Types.GenreNamed | src/utils/csvUtils.ts:11 | `genreOptions.includes(g)`: finds the genre named `g`, or reports that none has that name |
| Types.GenreNameInjective | src/types/index.ts:6-19 | distinct genres have distinct names |
| Types.EnumNamesInjective | src/types/index.ts:2-4 | distinct types and distinct statuses have distinct names |
| Types.NamedInverse | src/utils/csvUtils.ts:15-28 | looking up a type's or status's own name finds that type or status |
| Types.WatchlistStatusNamesDistinct | src/types/index.ts:21 | distinct watchlist sub-states have distinct names, so a status tab matches one sub-state |
| MediaStore.FreshId | src/store/mediaStore.ts:24 | the id given to a new item is not used by any existing item |
| MediaStore.Appended | src/store/mediaStore.ts:22-25 | adding keeps the old items in order and appends one item with the draft's fields and an unused id |
| MediaStore.Updated | src/store/mediaStore.ts:26-31 | every item with the id is replaced by the patch merged over it, every other item is unchanged, and an unknown id changes nothing |
| MediaStore.Deleted | src/store/mediaStore.ts:32-35 | deleting keeps exactly the items with another id, in their order, and an unknown id changes nothing |
| MediaStore.DeletedMultiplicity | src/store/mediaStore.ts:32-35 | each item with another id is kept as often as the list holds it |
| MediaStore.Toggled | src/store/mediaStore.ts:36-47 | the matching items flip the watchlist flag, get the status "Planning" when it turns on and lose the status when it turns off; their other fields, the other items and all ids are unchanged |
| MediaStore.StatusSet | src/store/mediaStore.ts:48-59 | the matching items get the status and the flag turned on; their other fields, the other items and all ids are unchanged |
| MediaStore.WithFreshIds | src/store/mediaStore.ts:62-65 | each imported draft gets an id that is unused and distinct from the other new ids |
| MediaStore.Imported | src/store/mediaStore.ts:60-66 | importing keeps the old items and appends the drafts, in order, with fresh ids |
| MediaStore.AppendedKeepsIdsUnique | src/store/mediaStore.ts:22-25 | adding keeps ids unique |
| MediaStore.ImportedKeepsIdsUnique | src/store/mediaStore.ts:60-66 | importing keeps ids unique |
| MediaStore.DeletedKeepsIdsUnique | src/store/mediaStore.ts:32-35 | deleting keeps ids unique |
| MediaStore.SubsequenceKeepsIdsUnique | src/store/mediaStore.ts:34 | any list obtained by dropping items from a list with unique ids has unique ids |
| MediaStore.UpdatedWithoutIdKeepsIds | src/store/mediaStore.ts:26-31 | a patch without an id leaves the id list, and so its uniqueness, unchanged |
| MediaStore.UpdateCanDuplicateIds | src/store/mediaStore.ts:26-31 | a patch that carries another item's id breaks id uniqueness |
| MediaStore.EmptyPatchIsNoOp | src/store/mediaStore.ts:29 | an empty patch changes nothing |
| MediaStore.UpdateIdempotent | src/store/mediaStore.ts:26-31 | applying the same patch twice equals applying it once, unless it changes the item's id |
| MediaStore.ToggleTwice | src/store/mediaStore.ts:36-47 | toggling twice restores every item except the status of a matching item, which becomes "Planning" if it was on the watchlist and absent otherwise |
| MediaStore.ToggleTwiceCanLoseStatus | src/store/mediaStore.ts:42-43 | an item on the watchlist with status "Current" is not restored by two toggles |
| MediaStore.SameIdsKeepUnique | src/store/mediaStore.ts:36-59 | an operation that keeps the id list keeps ids unique |
| MediaStore.Store.constructor | src/store/mediaStore.ts:21 | the store starts empty, with unique ids |
| MediaStore.Store.AddMediaItem | src/store/mediaStore.ts:22-25 | the new list is the appended list, and unique ids stay unique |
| MediaStore.Store.UpdateMediaItem | src/store/mediaStore.ts:26-31 | the new list is the updated list, and unique ids stay unique when the patch has no id |
| MediaStore.Store.DeleteMediaItem | src/store/mediaStore.ts:32-35 | the new list is the list without the id, and unique ids stay unique |
| MediaStore.Store.ToggleWatchlist | src/store/mediaStore.ts:36-47 | the new list is the toggled list, and unique ids stay unique |
| MediaStore.Store.UpdateWatchlistStatus | src/store/mediaStore.ts:48-59 | the new list is the list with the status set, and unique ids stay unique |
| MediaStore.Store.ImportFromCsv | src/store/mediaStore.ts:60-66 | the new list is the imported list, and unique ids stay unique |
| MediaStore.Store.ClearAllMediaItems | src/store/mediaStore.ts:67 | the list becomes empty |
| Csv.OrElse | src/utils/csvUtils.ts:45 | `v \|\| fallback`: a present, non-empty cell, otherwise the fallback |
| Csv.NonEmpty | src/utils/csvUtils.ts:49-50 | `v \|\| undefined`: present exactly when the cell is non-empty |
| Csv.GenreNames | src/utils/csvUtils.ts:59 | the genre names, one per genre, in order |
| Csv.KnownGenres | src/utils/csvUtils.ts:11 | keeps exactly the tokens that name a genre, in order |
| Csv.TrimAll | src/utils/csvUtils.ts:10 | each piece trimmed, in order |
| Csv.ParseGenres | src/utils/csvUtils.ts:7-12 | an empty cell gives no genres; otherwise the comma-separated, trimmed tokens that name a genre |
| Csv.ParseMediaType | src/utils/csvUtils.ts:15-20 | the type named by the trimmed cell, otherwise Anime |
| Csv.ParseStatus | src/utils/csvUtils.ts:23-28 | the status named by the trimmed cell, otherwise Ongoing |
| Csv.ParseRating | src/utils/csvUtils.ts:46 | the parsed number, or 0 for a missing or unparsable cell |
| Csv.ParseRow | src/utils/csvUtils.ts:41-51 | a row without a type or status column fails (the source throws on `undefined.trim()`); otherwise the draft has a non-empty title (the cell, or "Untitled" when it is missing or empty), the type, genres, rating and status parsed from their cells, the description or "", the flag true only for the text "true", and empty optional cells dropped |
| Csv.ParseRows | src/utils/csvUtils.ts:31-52 | succeeds exactly when every row has the type and status columns, with one draft per row in order; otherwise it fails with the first failing row's error |
| Csv.Header | src/utils/csvUtils.ts:56-66 | the nine exported columns, each once |
| Csv.ExportRow | src/utils/csvUtils.ts:56-66 | every column is filled: the title, type name, description and status name as they are, the rating through the number-to-text conversion, genres joined with ", ", the flag as "true"/"false", missing optional fields as "" |
| Csv.ExportRows | src/utils/csvUtils.ts:55-67 | one row per item, in order |
| Csv.SplitJoinedWithSpace | src/utils/csvUtils.ts:10 | splitting ", "-joined names at commas gives the names, each later one preceded by a space |
| Csv.TrimSpaced | src/utils/csvUtils.ts:10 | trimming those pieces gives back the names |
| Csv.SplitTrimJoined | src/utils/csvUtils.ts:10 | split-and-trim inverts the export's ", " join of clean names |
| Csv.GenreNamedInverse | src/utils/csvUtils.ts:11 | a genre's own name is recognised as that genre |
| Csv.KnownGenresOfNames | src/utils/csvUtils.ts:11 | keeping the known names of a genre list gives back the list, duplicates and order included |
| Csv.GenresRoundTrip | src/utils/csvUtils.ts:44-59 | exported genres parse back to the same list |
| Csv.MediaTypeCellRoundTrip | src/utils/csvUtils.ts:15-20 | an exported type cell parses back to the type |
| Csv.StatusCellRoundTrip | src/utils/csvUtils.ts:23-28 | an exported status cell parses back to the status |
| Csv.ExportedCellsParse | src/utils/csvUtils.ts:41-51 | a row whose cells parse back to an item's fields imports as that item's draft, with the title and rating caveats of the round trip |
| Csv.RowRoundTrip | src/utils/csvUtils.ts:41-66 | exporting an item and importing the row gives its draft back, except that an empty title becomes "Untitled" and the rating goes through the number round trip |
| Csv.ListRoundTrip | src/utils/csvUtils.ts:31-69 | exporting and re-importing items with titles, exact ratings and no empty optional fields gives back their drafts in order |
| Csv.ExportedRowsParse | src/utils/csvUtils.ts:41-66 | under the list round trip's conditions, every exported row parses back on its own to its item's draft |
| Csv.ParseRowsAll | src/utils/csvUtils.ts:41-51 | rows that each parse to a draft parse together to exactly those drafts, in order |
| Seqs.FilterMembers | src/pages/Index.tsx:21 | `filter` keeps exactly the elements that pass |
| Seqs.FilterIsSubsequence | src/pages/Index.tsx:21 | `filter` never reorders |
| Seqs.FilterMultiplicity | src/pages/Index.tsx:21 | `filter` keeps every passing element as many times as it occurs and drops every other element entirely |
| Seqs.FilterFuse | src/pages/Filter.tsx:66-89 | two successive filter passes equal one pass with the conjunction |
| Seqs.FilterMonotone | src/pages/Filter.tsx:76-81 | a weaker test keeps everything a stronger test keeps |
| Seqs.Toggle | src/pages/Filter.tsx:38-44 | the toggled value is selected exactly when it was not; every other value keeps its number of occurrences; a new value is appended; removing shortens the selection without reordering |
| Seqs.ToggleTwiceRestores | src/pages/Filter.tsx:38-44 | selecting and then deselecting a value restores the selection |
| Seqs.ToggleKeepsNoDuplicates | src/pages/Filter.tsx:38-60 | toggling never introduces a duplicate selection |
| Seqs.MapResults | src/utils/csvUtils.ts:41-51 | a `map` whose callback may throw: all results in order, or the first failure |
| Strings.Trim | src/utils/csvUtils.ts:16 | the result is the slice of the input that starts right after its leading whitespace and is followed only by whitespace, and it neither starts nor ends with whitespace |
| Strings.LeadingWhitespace | src/utils/csvUtils.ts:16 | the count of whitespace characters the input starts with: all of them are whitespace and the next one is not |
| Strings.MiddleSlice | src/utils/csvUtils.ts:16 | a prefix of a suffix is a slice of the whole, and whitespace after it in the suffix is whitespace in the whole |
| Strings.TrimPadded | src/utils/csvUtils.ts:10 | trimming a clean token behind leading whitespace gives the token |
| Strings.Split | src/utils/csvUtils.ts:10 | the pieces contain no separator and join back to the input |
| Strings.SplitJoin | src/utils/csvUtils.ts:10 | splitting a join of separator-free pieces gives the pieces |
| Strings.Lower | src/pages/Index.tsx:25 | each character lower-cased, length kept |
| Strings.LowerIdempotent | src/pages/Search.tsx:16 | lower-casing twice equals lower-casing once |
| Strings.LowerAppend | src/pages/Search.tsx:16 | lower-casing distributes over concatenation |
| Strings.ContainsEmpty | src/pages/Search.tsx:16 | every string includes the empty string |
| Strings.ContainsPrefix | src/pages/Search.tsx:16 | a string that includes `a + b` includes `a` |
| Strings.StringLeReflexive | src/pages/Index.tsx:52 | the string order is reflexive |
| Strings.StringLeTotal | src/pages/Index.tsx:52 | any two strings are ordered one way or the other |
| Strings.StringLeTransitive | src/pages/Index.tsx:52 | the string order is transitive |
| Sorting.SortInPlace | src/pages/Index.tsx:49-64 | `sort` with a total, transitive comparator leaves the array ordered and a permutation of its old contents |
| Sorting.Insert | src/pages/Filter.tsx:92-107 | one insertion step extends the sorted prefix by one element, permutes the array and leaves the positions after that element untouched |
| MediaOrder.KeyLeTotal | src/pages/Index.tsx:50-61 | the comparison on title, rating or status is total |
| MediaOrder.KeyLeTransitive | src/pages/Index.tsx:50-61 | the comparison on title, rating or status is transitive |
| MediaOrder.PrecedesIsTotalPreorder | src/pages/Filter.tsx:92-107 | the comparator for every key and order is a total preorder, so the sort is well defined up to ties |
| MediaOrder.DescendingIsReversedAscending | src/pages/Index.tsx:50-61 | a list in descending order, read backwards, is in ascending order |
| MediaOrder.ByRatingAscending | src/pages/Index.tsx:54-57 | sorted by rating ascending, ratings never decrease |
| MediaOrder.ByRatingDescending | src/pages/Filter.tsx:97-100 | sorted by rating descending, ratings never increase |
| FilterBar.Changed | src/components/FilterBar.tsx:55 | `{ ...filters, [key]: value }` carries the new value under its key and agrees with the old record elsewhere |
| FilterBar.ChangedIsUnique | src/components/FilterBar.tsx:55 | those two facts determine the new record |
| FilterBar.ChangedIdempotent | src/components/FilterBar.tsx:55 | repeating a change changes nothing more |
| FilterBar.Flip | src/components/FilterBar.tsx:165 | the sort-order item always changes the order |
| FilterBar.FlipTwice | src/components/FilterBar.tsx:162-166 | two activations restore the order |
| FilterBar.FilterBarState.constructor | src/components/FilterBar.tsx:42-49 | the bar starts from the initial record |
| FilterBar.FilterBarState.HandleFilterChange | src/components/FilterBar.tsx:51-58 | stores the changed record and passes that same record to the page |
| FilterBar.FilterBarState.ToggleSortOrder | src/components/FilterBar.tsx:162-166 | flips only the sort order and passes the new record on |
| CollectionView.FilteredItems | src/pages/Index.tsx:21-46 | exactly the items passing the search, type, status and genre checks, in store order |
| CollectionView.FilteredItemsMultiplicity | src/pages/Index.tsx:21-46 | each shown item appears as often as the store holds it, and the others are dropped |
| CollectionView.SortedItems | src/pages/Index.tsx:49-64 | a permutation of the filtered items, in the order of the selected key and direction |
| CollectionView.InitialFiltersShowAll | src/pages/Index.tsx:11-18 | the initial filters show every item in store order |
| CollectionView.NarrowingTypeShrinks | src/pages/Index.tsx:31-33 | choosing a type instead of "All" only removes items |
| CollectionView.ChoosingGenreKeepsCarriers | src/pages/Index.tsx:41-43 | choosing a genre keeps exactly the shown items that carry it |
| AdvancedFilter.Survivors | src/pages/Filter.tsx:62-89 | exactly the items that pass all five criteria, in store order |
| AdvancedFilter.SurvivorsMultiplicity | src/pages/Filter.tsx:62-89 | each surviving item is kept as often as the store holds it, and the others are dropped |
| AdvancedFilter.NoPassesYet | src/pages/Filter.tsx:64 | the copy before any pass is the store's list |
| AdvancedFilter.PassRuns | src/pages/Filter.tsx:66-89 | running a pass's callback adds that pass to those applied |
| AdvancedFilter.PassSkipped | src/pages/Filter.tsx:66-89 | a pass whose criterion is unset can be skipped |
| AdvancedFilter.AllPassesDone | src/pages/Filter.tsx:66-89 | after the five passes the list is the survivors |
| AdvancedFilter.NoCriteriaKeepAll | src/pages/Filter.tsx:66-89 | with nothing selected every item survives |
| AdvancedFilter.EmptyRatingRange | src/pages/Filter.tsx:84-89 | a minimum above the maximum leaves nothing |
| AdvancedFilter.MoreGenresKeepSurvivors | src/pages/Filter.tsx:76-81 | adding a genre to a non-empty genre selection only widens the result |
| AdvancedFilter.FilterPasses | src/pages/Filter.tsx:62-89 | the five conditional passes compute the survivors |
| AdvancedFilter.FilterPage.constructor | src/pages/Filter.tsx:25-36 | nothing is selected, the sort is title ascending, and there are no results |
| AdvancedFilter.FilterPage.HandleTypeToggle | src/pages/Filter.tsx:38-44 | toggles the type selection and changes nothing else |
| AdvancedFilter.FilterPage.HandleStatusToggle | src/pages/Filter.tsx:46-52 | toggles the status selection and changes nothing else |
| AdvancedFilter.FilterPage.HandleGenreToggle | src/pages/Filter.tsx:54-60 | toggles the genre selection and changes nothing else |
| AdvancedFilter.FilterPage.SetRatingMin | src/pages/Filter.tsx:223-225 | sets or clears the minimum rating only; the type, status and genre selections are untouched, so the no-duplicates invariant holds afterwards exactly when it held before |
| AdvancedFilter.FilterPage.SetRatingMax | src/pages/Filter.tsx:241-243 | sets or clears the maximum rating only; the type, status and genre selections are untouched, so the no-duplicates invariant holds afterwards exactly when it held before |
| AdvancedFilter.FilterPage.SetSort | src/pages/Filter.tsx:261-279 | sets the sort key and order only; the type, status and genre selections are untouched, so the no-duplicates invariant holds afterwards exactly when it held before |
| AdvancedFilter.FilterPage.HandleFilter | src/pages/Filter.tsx:62-117 | the results are a permutation of the survivors of the current selection, sorted by the current key and order, and marked as searched; the selections and the no-duplicates invariant are untouched |
| AdvancedFilter.FilterPage.HandleClearFilters | src/pages/Filter.tsx:119-134 | clears the selection, resets the sort to title ascending and the searched flag, and keeps the last results |
| Search.SearchResults | src/pages/Search.tsx:15-19 | exactly the items whose title, description or a genre contains the query, ignoring case, in store order |
| Search.SearchResultsMultiplicity | src/pages/Search.tsx:15-19 | each matching item is listed as often as the store holds it, and the others are dropped |
| Search.EmptyQueryMatchesAll | src/pages/Search.tsx:15-19 | the empty query matches every item |
| Search.QueryCaseInsensitive | src/pages/Search.tsx:16-18 | queries that lower-case alike give the same results |
| Search.LongerQueryNarrows | src/pages/Search.tsx:15-19 | extending the query only removes results |
| Search.SearchPage.constructor | src/pages/Search.tsx:12-13 | the query starts empty and unsearched |
| Search.SearchPage.OnQueryChange | src/pages/Search.tsx:40-43 | typing stores the text and clears the searched flag |
| Search.SearchPage.HandleSearch | src/pages/Search.tsx:21-24 | submitting sets the searched flag and keeps the query |
| Watchlist.WatchlistItems | src/pages/Watchlist.tsx:16 | exactly the items on the watchlist, in store order |
| Watchlist.TabItems | src/pages/Watchlist.tsx:19-22 | exactly the watchlist items on the tab, in watchlist order |
| Watchlist.TabItemsMultiplicity | src/pages/Watchlist.tsx:19-22 | each watchlist item on the tab is shown as often as the watchlist holds it, and the others are dropped |
| Watchlist.AllTabShowsWatchlist | src/pages/Watchlist.tsx:19-20 | the "All" tab shows the whole watchlist |
| Watchlist.AtMostOneStatusTab | src/pages/Watchlist.tsx:19-22 | an item is on at most one status tab |
| Watchlist.NoStatusOnlyUnderAll | src/pages/Watchlist.tsx:19-22 | an item without a status appears only under "All" |
| Watchlist.StatusTabsDisjoint | src/pages/Watchlist.tsx:19-22 | the four status counts of a list add up to at most its length |
| Watchlist.StatusTabsWithinWatchlist | src/pages/Watchlist.tsx:19-30 | the four status tabs together hold no more items than the watchlist count |
| Watchlist.WatchlistPage.constructor | src/pages/Watchlist.tsx:17 | the page opens on "All" |
| Watchlist.WatchlistPage.SelectTab | src/pages/Watchlist.tsx:37 | selecting a tab makes it active |
| Watchlist.WatchlistPage.Shown | src/pages/Watchlist.tsx:19-22 | the shown items are exactly the watchlist items on the active tab |
| MediaForm.Validate | src/components/MediaForm.tsx:43-51 | the values are accepted exactly when no field breaks its rule, and otherwise refused with exactly the set of failing fields |
| MediaForm.DefaultValues | src/components/MediaForm.tsx:72-80 | a new form starts empty with the type Anime, the status Ongoing, rating 5 and an empty cover URL; an edited item's title, type, genres, description and status are carried over, its cover URL or "", and its rating unless it is 0, which the `\|\| 5` fallback turns into 5 |
| MediaForm.Submitted | src/components/MediaForm.tsx:101-106 | an empty cover URL is removed and nothing else changes |
| MediaForm.NewFormNeedsTitleAndGenres | src/components/MediaForm.tsx:72-80 | a new form submitted untouched is refused for exactly its title and its genres |
| MediaForm.UnchangedEditResubmits | src/components/MediaForm.tsx:72-106 | editing a valid item and submitting untouched gives back its fields |
| MediaForm.ZeroRatingResubmitsAsFive | src/components/MediaForm.tsx:77 | an item rated 0 is resubmitted with rating 5, because of the `\|\| 5` fallback |
| MediaForm.SliderValue | src/components/MediaForm.tsx:253-258 | every slider position is a rating from 0 to 10 |
| MediaForm.SliderRatingValid | src/components/MediaForm.tsx:253-258 | a rating chosen on the slider never fails the rating rule |
| MediaForm.MediaFormState.constructor | src/components/MediaForm.tsx:70-86 | the form holds the default values, and the genre chips agree with them |
| MediaForm.MediaFormState.HandleGenreSelect | src/components/MediaForm.tsx:88-99 | toggles the genre in the form values only, and keeps the chips in agreement |

## Left out

- Persistence to local storage (the `persist` middleware) is not modelled, because the store is modelled in memory only.
- `uuidv4` is modelled by `FreshId`, a deterministic choice of an unused id. The model therefore treats id uniqueness as certain, while the source relies on UUIDs being unlikely to collide.
- Papa Parse tokenisation, quoting, `header: true` and `skipEmptyLines` are not modelled. A parsed row is a map over the nine known columns, and other columns are ignored.
- Csv.ParseRows: the parse errors that the source only logs are not modelled, because the tokeniser is left out.
- `parseFloat` and the number-to-text conversion are parameters (`parseNumber`, `showNumber`). Ratings are `real`, so NaN and floating-point rounding are not modelled. An unparsable cell is `None`, which `|| 0` turns into 0.
- `localeCompare` is modelled as code-point lexicographic order, because locale collation is platform data.
- `toLowerCase` is modelled on ASCII letters only.
- `trim` is modelled with a fixed whitespace set rather than the full Unicode set.
- Sorting.SortInPlace: stability is not promised. `Array.prototype.sort` is stable, so tied items keep their prior order. The insertion sort here swaps only neighbours that are strictly out of order, so it keeps ties in order too, but no lemma proves this.
- CollectionView.SortedItems: the order of tied items is not promised, for the reason given for Sorting.SortInPlace.
- AdvancedFilter.FilterPage.HandleFilter: the order of tied results is not promised, for the reason given for Sorting.SortInPlace.
- MediaForm.Validate: zod's URL check is a parameter `isUrl`, because URL syntax is outside the model.
- MediaForm.FormValues: genres are `Genre` values, because only the genre picker writes them. The schema's check of plain strings is not modelled.
- Form field edits other than the genre picker (the text inputs and selects handled by react-hook-form) are not modelled.
- Rendering, toasts, routing, file download and file reading are not modelled, and neither is the page wiring in AddMedia, EditMedia and ImportExportPage.
- The import/export panel's guards are not modelled: it refuses an import that parses to no items and an export of an empty collection.
- The `searched` flags on the search and filter pages only decide what is displayed, so the model records them without modelling the display.
- AdvancedFilter.FilterPage.SetRatingMin: the select's text is taken as an already-parsed bound, because `parseFloat` is a parameter elsewhere.
- MediaStore.Store.UpdateMediaItem: unique ids are kept only when the patch has no id, because the source accepts any patch (see `MediaStore.UpdateCanDuplicateIds`).
- MediaStore.ItemPatch: a patch cannot set a required field to `undefined`, because the source's `Partial<MediaItem>` is modelled as one optional value per field.
