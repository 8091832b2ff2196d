# CineVault core, modelled in Dafny

CineVault is a personal movie and TV tracker. Local **profiles** (no
passwords) each own named **watchlists** of saved titles. A title is
identified by its TMDB id and its media type (`movie` or `tv`), and every
saved item has a status: `plan_to_watch`, `watching` or `watched`. A FastAPI
backend keeps profiles and watchlists in two MongoDB collections. It also
proxies TMDB and OMDB and normalizes their records. A React client holds two
stores: the profile store and the watchlist store. Each store patches its
local copy after every acknowledged call to the backend.

This project models that core and proves what it promises:

- `records.dfy`, `wrappers.dfy`: the records exchanged between client and
  backend (profile, watchlist, item). `Option` stands for a missing value.
  `Remote` is the outcome of one awaited API call: the decoded body, or a
  rejection.
- `backend_store.dfy`: the profile and watchlist endpoints.
  - Each endpoint is a function over the two collections, held as sequences in
    storage order. MongoDB's first-match `update_one`/`delete_one`, the
    positional `$`, `$pull` and `to_list(100)` are written out.
  - The collection invariant: distinct list ids, and inside each list distinct
    item ids and distinct titles. Lemmas show that every endpoint keeps it.
  - The class `Database` updates the two collections in place. Its add
    endpoint keeps the source's duplicate-scan loop.
- `watchlist_store.dfy`: the client watchlist store. The `map`/`filter`/spread
  patches are functions. The store is a class whose methods apply a patch only
  when the remote call succeeded. `FindItemInWatchlists` is the early-return
  loop, proved equal to a first-match specification.
- `user_store.dfy`: the client profile store. The class holds the profiles, the
  active profile, the loading flag and the persisted `cinevault_user_id` key.
  The model proves when a stored profile is restored on reload.
- `sync.dfy`: refinement lemmas. Take the backend's update on the whole
  collection, then keep only the active profile's lists: the result is exactly
  what the client's patch gives on its copy. This holds for create, rename,
  add, remove item, delete, and status update with a non-empty status. The
  same holds for profile removal.
- `media.dfy`: the backend's shaping helpers.
  - image URLs and `normalize_media_item`
  - the watch-provider merge: the first record per provider id wins, in
    first-seen order. It is a loop proved against a fold.
  - the OMDB ratings block: the last matching `Ratings` entry wins, also a loop
  - the discover query, including the request helper's dropping of `None`
    values
- `browse.dfy`: the browse page.
  - Provider ordering is a permutation of the fetched list: the popular ids
    first, in their pinned order, then the rest by name.
  - The discover filters sent for each control, and the "active filters" badge.
  - Result paging: the first page replaces the results and later pages append;
    the page count is capped at 500.
- `format.dfy`, `decimal.dfy`: status labels and CSS classes,
  `formatRuntime` (with a read-back round trip), `formatYear`, and the
  decimal printing and `parseInt` they rely on.

Ids (uuid4) are parameters of the operations that create documents. Each
remote reply is a parameter of the client operation that awaits it.

## Model

| member | source | states |
|---|---|---|
| Records.ItemsWithout | frontend/src/context/WatchlistContext.js:71 | never longer than the list; no match leaves the list unchanged |
| Records.ItemsWithoutMembers | frontend/src/context/WatchlistContext.js:71 | an item survives iff it was there and its id differs |
| Records.ItemsWithoutConcat | frontend/src/context/WatchlistContext.js:71 | the filter keeps order and multiplicity: it distributes over concatenation |
| Records.ItemsWithoutOne | frontend/src/context/WatchlistContext.js:71 | one item is kept iff its id differs |
| WatchlistStore.PatchWhere | frontend/src/context/WatchlistContext.js:55-57 | same length; exactly the lists with the id are patched, the others are unchanged |
| WatchlistStore.PatchWhereUnchanged | frontend/src/context/WatchlistContext.js:62-64 | a patch that fixes every matching list leaves the whole sequence unchanged |
| WatchlistStore.WithoutWatchlist | frontend/src/context/WatchlistContext.js:50 | never longer than the held lists; an absent id changes nothing |
| WatchlistStore.WithoutWatchlistMembers | frontend/src/context/WatchlistContext.js:50 | a list survives iff it was held and its id differs |
| WatchlistStore.WithoutWatchlistConcat | frontend/src/context/WatchlistContext.js:50 | the filter keeps order: it distributes over concatenation |
| WatchlistStore.ItemsWithStatus | frontend/src/context/WatchlistContext.js:79 | same length; each item with the id gets the status and every other item is unchanged |
| WatchlistStore.Renamed | frontend/src/context/WatchlistContext.js:55-57 | only the name of the lists with the id changes; ids, owners and items are kept |
| WatchlistStore.WithItem | frontend/src/context/WatchlistContext.js:62-64 | the item is appended to the lists with the id only; nothing else changes |
| WatchlistStore.WithoutItem | frontend/src/context/WatchlistContext.js:70-72 | same length and same ids, owners and names; lists with another id keep their items; in the lists with the id the items become exactly the filter of their items by that item id, so an item is kept iff its id differs |
| WatchlistStore.WithItemStatus | frontend/src/context/WatchlistContext.js:77-81 | only the status of matching items in matching lists changes; ids, names and lengths are kept |
| WatchlistStore.FindInItems | frontend/src/context/WatchlistContext.js:87-89 | None iff no item has the (tmdb id, media type); otherwise the first such item |
| WatchlistStore.FindItem | frontend/src/context/WatchlistContext.js:85-95 | None iff no held item matches; otherwise the first list holding a match, with its first matching item |
| WatchlistStore.FindAfterAdd | frontend/src/context/WatchlistContext.js:60-66 | after an item is added to a held list, looking up its title finds something |
| WatchlistStore.FindAfterRemove | frontend/src/context/WatchlistContext.js:68-73 | after a removal, a title is found iff a match other than the removed item remains |
| WatchlistStore.Store.constructor | frontend/src/context/WatchlistContext.js:17-18 | starts with no lists and not loading |
| WatchlistStore.Store.FetchWatchlists | frontend/src/context/WatchlistContext.js:20-35 | no active profile gives no lists; otherwise the fetched lists replace the held ones, and a failure keeps the old lists |
| WatchlistStore.Store.CreateWatchlist | frontend/src/context/WatchlistContext.js:41-46 | null without an active profile; otherwise the created list is returned and appended after all held lists |
| WatchlistStore.Store.DeleteWatchlist | frontend/src/context/WatchlistContext.js:48-51 | on success the lists with the id are filtered out; on failure nothing changes |
| WatchlistStore.Store.UpdateWatchlist | frontend/src/context/WatchlistContext.js:53-58 | on success the rename patch is applied; on failure nothing changes |
| WatchlistStore.Store.AddItem | frontend/src/context/WatchlistContext.js:60-66 | on success the backend's item is appended to the matching lists; there is no local duplicate check |
| WatchlistStore.Store.RemoveItem | frontend/src/context/WatchlistContext.js:68-73 | on success the item filter is applied to the matching lists; on failure nothing changes |
| WatchlistStore.Store.UpdateItemStatus | frontend/src/context/WatchlistContext.js:75-82 | on success the status patch is applied; on failure nothing changes |
| WatchlistStore.Store.FindItemInWatchlists | frontend/src/context/WatchlistContext.js:85-95 | the early-return loop returns the first-match specification `FindItem` |
| UserStore.FindUser | frontend/src/context/UserContext.js:19 | None iff no profile has the id; otherwise the first profile with it |
| UserStore.UsersWithout | frontend/src/context/UserContext.js:53 | a profile survives iff it was there and its id differs |
| UserStore.Session.constructor | frontend/src/context/UserContext.js:7-9 | no profiles, none active, loading, and the stored key as found |
| UserStore.Session.Restored | frontend/src/context/UserContext.js:16-23 | a profile is restored iff a non-empty id is stored and a fetched profile has it; that profile is fetched and has the stored id |
| UserStore.Session.FetchUsers | frontend/src/context/UserContext.js:11-29 | the fetched profiles replace the list; the active profile changes only to the restored one; a failure changes nothing but the loading flag |
| UserStore.Session.SelectUser | frontend/src/context/UserContext.js:35-38 | the profile becomes active and its id is stored, with no membership check |
| UserStore.Session.Logout | frontend/src/context/UserContext.js:40-43 | no active profile and no stored id |
| UserStore.Session.CreateUser | frontend/src/context/UserContext.js:45-49 | on success the created profile is appended |
| UserStore.Session.RemoveUser | frontend/src/context/UserContext.js:51-57 | on success the profiles with the id are dropped, and the store logs out iff the active profile had that id |
| UserStore.Mount | frontend/src/context/UserContext.js:31-33 | mounting then fetching: a profile is active iff the stored id is restored, and it has the stored id |
| UserStore.SelectThenReload | frontend/src/context/UserContext.js:35-38 | after selecting (once or twice) and reloading, a profile is active iff one with its non-empty id is still served |
| Decimal.NatToString | frontend/src/lib/utils.js:57 | the decimal text is non-empty and made of digits, has no leading zero (it starts with 0 iff the number is 0), and is one digit long iff the number is below ten |
| Decimal.DigitsValueOfNatToString | frontend/src/lib/utils.js:57 | reading the printed digits back gives the number |
| Decimal.ParseInt | frontend/src/pages/BrowsePage.jsx:100 | NaN iff the text is empty or does not start with a digit |
| Decimal.ParseIntOfNatToString | frontend/src/pages/BrowsePage.jsx:100 | parseInt reads back every printed natural number |
| Format.FindOption | frontend/src/lib/utils.js:26 | None iff no option has the value; otherwise the first option with it |
| Format.StatusLabel | frontend/src/lib/utils.js:25-27 | the picker label for each of the three statuses; any other status is returned as it is |
| Format.StatusClass | frontend/src/lib/utils.js:29-36 | the CSS class of each known status; the empty class iff the status is unknown |
| Format.StatusTablesAgree | frontend/src/lib/utils.js:8-12 | the option table and the class table know the same statuses, and a status has a class iff its label differs from it |
| Format.JsRem | frontend/src/lib/utils.js:56 | JavaScript `%`: the remainder takes the dividend's sign, is smaller in size than the divisor, and the dividend is the divisor times the truncated quotient plus the remainder |
| Format.FormatRuntime | frontend/src/lib/utils.js:53-58 | empty iff no runtime or zero; "{h}h {m}m" with a whole hour, "{m}m" for a positive runtime under an hour, and for a negative runtime "{m}m" with JavaScript's sign-keeping remainder |
| Format.RuntimeRoundTrip | frontend/src/lib/utils.js:53-58 | for a positive runtime, reading the formatted text back gives the runtime |
| Format.FormatYear | frontend/src/lib/utils.js:48-51 | empty iff the date is missing or empty; otherwise a prefix of at most four characters |
| Backend.UserIndex | backend/server.py:199 | find_one: the first profile with the id, or the length when none has it |
| Backend.WatchlistIndex | backend/server.py:232 | find_one: the first list with the id, or the length when none has it |
| Backend.ItemIndex | backend/server.py:283 | the item the positional `$` names: the first with the id |
| Backend.HolderIndex | backend/server.py:282 | the first list matching both the list id and an item id |
| Backend.Take | backend/server.py:185 | to_list(n): a prefix of length min(n, size) |
| Backend.OwnedBy | backend/server.py:218 | a list is selected iff it is stored and owned by the profile |
| Backend.NotOwnedBy | backend/server.py:210 | never longer than the stored lists; when the profile owns none, nothing is dropped |
| Backend.NotOwnedByMembers | backend/server.py:210 | delete_many keeps a list iff it is stored and not owned by the profile |
| Backend.NotOwnedByConcat | backend/server.py:210 | the survivors keep storage order and multiplicity: the filter distributes over concatenation |
| Backend.NotOwnedByOne | backend/server.py:210 | one list is kept iff another profile owns it |
| Backend.UsersPage | backend/server.py:182-186 | the first hundred profiles in storage order |
| Backend.NewUser | backend/server.py:188-194 | the given id and name; the default avatar colour when none is sent |
| Backend.UserLookup | backend/server.py:196-202 | 404 iff no profile has the id; otherwise the first stored profile with it |
| Backend.AfterUserDelete | backend/server.py:204-211 | 404 iff no profile has the id; otherwise exactly the first such profile goes, and the lists become `NotOwnedBy` the id, so a list survives iff that profile does not own it |
| Backend.WatchlistsPage | backend/server.py:215-219 | a prefix of the profile's lists in storage order, of length the smaller of their number and a hundred |
| Backend.NewWatchlist | backend/server.py:221-227 | the given id, owner and name, with no items; the owner is not checked |
| Backend.WatchlistLookup | backend/server.py:229-235 | 404 iff no list has the id; otherwise the first stored list with it |
| Backend.AfterRename | backend/server.py:237-246 | 404 iff no list has the id; otherwise only the name of the first such list changes |
| Backend.AfterWatchlistDelete | backend/server.py:248-254 | 404 iff no list has the id; otherwise exactly the first such list goes |
| Backend.NewItem | backend/server.py:62-77 | the given id and title key; status plan_to_watch when none is sent |
| Backend.AfterAdd | backend/server.py:258-275 | 404 iff no list has the id; 400 iff that list already holds the title; otherwise the new item is appended to that list alone |
| Backend.AfterStatusUpdate | backend/server.py:277-285 | nothing changes for a missing or empty status; otherwise only the first matching item of the first list holding it can change, and it gets the status |
| Backend.AfterPull | backend/server.py:287-294 | only the first list with the id changes, losing every item with the item id; there is no error when nothing matched |
| Backend.AddKeepsKeysUnique | backend/server.py:265-268 | the duplicate check keeps every list free of repeated titles |
| Backend.AddKeepsWellFormed | backend/server.py:258-275 | with a fresh item id, a successful add keeps the collection invariant |
| Backend.CreateKeepsWellFormed | backend/server.py:221-227 | with a fresh list id, creating a list keeps the collection invariant |
| Backend.PullKeepsDistinct | backend/server.py:290-293 | removing items never creates a repeated title or item id |
| Backend.RenameKeepsWellFormed | backend/server.py:240-243 | renaming keeps the collection invariant |
| Backend.StatusKeepsWellFormed | backend/server.py:280-284 | a status update keeps the collection invariant |
| Backend.PullKeepsWellFormed | backend/server.py:290-293 | removing an item keeps the collection invariant |
| Backend.WatchlistDeleteKeepsWellFormed | backend/server.py:251-253 | deleting a list keeps the collection invariant |
| Backend.DropListsKeepsWellFormed | backend/server.py:210 | dropping a profile's lists keeps the collection invariant |
| Backend.UserDeleteKeepsWellFormed | backend/server.py:207-210 | deleting a profile keeps the collection invariant |
| Backend.Database.constructor | backend/server.py:21-22 | both collections start empty |
| Backend.Database.GetUsers | backend/server.py:182-186 | returns the first hundred profiles |
| Backend.Database.CreateUser | backend/server.py:188-194 | stores and returns the new profile at the end of the collection |
| Backend.Database.GetUser | backend/server.py:196-202 | returns the lookup answer, 404 included |
| Backend.Database.DeleteUser | backend/server.py:204-211 | 404 with nothing changed, or the profile and its lists are removed |
| Backend.Database.GetWatchlists | backend/server.py:215-219 | returns the first hundred of the profile's lists |
| Backend.Database.CreateWatchlist | backend/server.py:221-227 | stores and returns the new list at the end of the collection |
| Backend.Database.GetWatchlist | backend/server.py:229-235 | returns the lookup answer, 404 included |
| Backend.Database.UpdateWatchlist | backend/server.py:237-246 | 404 with nothing changed, or the rename |
| Backend.Database.DeleteWatchlist | backend/server.py:248-254 | 404 with nothing changed, or the delete |
| Backend.Database.AddToWatchlist | backend/server.py:258-275 | the duplicate-scan loop gives the add endpoint's 404, 400 or pushed item |
| Backend.Database.UpdateWatchlistItem | backend/server.py:277-285 | always succeeds and applies the status update |
| Backend.Database.RemoveFromWatchlist | backend/server.py:287-294 | always succeeds and applies the pull |
| Media.ImageUrl | backend/server.py:157-159 | no URL iff the path is missing or empty; otherwise base, then size, then path |
| Media.ImageUrlInjective | backend/server.py:159 | at one size, equal URLs come from equal paths |
| Media.Normalize | backend/server.py:161-178 | media type: the caller's, else the record's, else movie; title and release-date fallbacks; poster URL at w342 and backdrop at w1280; genre ids and genres default to empty |
| Media.NormalizeAll | backend/server.py:501 | each result is normalized with the route's media type, in order |
| Media.DiscoverPageTyped | backend/server.py:501 | every discover result carries the route's media type and keeps its TMDB id |
| Media.ToProvider | backend/server.py:643-647 | keeps id and name; the logo becomes a w92 URL |
| Media.Shape | backend/server.py:649 | the reshaped providers, in order |
| Media.FirstIndexOfId | backend/server.py:642 | the first record with the id, or the length when none has it |
| Media.Dedup | backend/server.py:640-647 | the merged ids are distinct, and every fetched id is present |
| Media.DedupFirstWins | backend/server.py:640-647 | each kept record is the first one with its id, in first-seen order |
| Media.WatchProviders | backend/server.py:633-649 | the loop returns movie then TV providers merged by id; a failed request contributes nothing |
| Media.MovieListingWins | backend/server.py:641-642 | a provider listed for movies is returned as the movie listing first describes it |
| Media.WithoutCommas | backend/server.py:670 | never longer than the text; a text without commas is unchanged |
| Media.WithoutCommasMembers | backend/server.py:670 | the characters kept are exactly the non-commas |
| Media.WithoutCommasConcat | backend/server.py:670 | the other characters keep their order: the filter distributes over concatenation |
| Media.WithoutCommasOne | backend/server.py:670 | one character is dropped iff it is a comma |
| Media.ImdbOf | backend/server.py:666-671 | no IMDb block iff the rating is missing, empty or "N/A"; otherwise the rating is passed through and the vote count is the `imdbVotes` text with its commas removed, empty when the key is missing |
| Media.ScanRatings | backend/server.py:673-680 | no entries give no scores; when the last entry names Rotten Tomatoes, or else Metacritic, that site's score is its value |
| Media.LastRatingWins | backend/server.py:673-680 | a site's score is present iff some entry names it, and it is the last such entry's value; Rotten Tomatoes is checked first |
| Media.LastRottenTomatoesWins | backend/server.py:673-680 | the Rotten Tomatoes score is present iff some entry names the site, and it is the last such entry's value |
| Media.LastMetacriticWins | backend/server.py:673-680 | the Metacritic score is present iff some entry names Metacritic but not Rotten Tomatoes, and it is the last such entry's value |
| Media.OmdbRatings | backend/server.py:653-687 | null ratings when OMDB gave nothing; otherwise the IMDb block, the scan of Ratings and three pass-through fields |
| Media.DiscoverParams | backend/server.py:481-495 | each key's value, with the region only alongside a truthy provider filter and the year under the media type's key |
| Media.DropNone | backend/server.py:113 | a key is sent iff its value is not None, and with that value |
| Media.DiscoverQuery | backend/server.py:467-497 | the page always; each optional filter iff given; the region iff the provider filter is non-empty; the year under the right key iff non-zero |
| Browse.Rank | frontend/src/pages/BrowsePage.jsx:72 | a position in the pinned list iff the provider is popular |
| Browse.IndexOf | frontend/src/pages/BrowsePage.jsx:72 | indexOf: the position of the first occurrence of the value, or the length when absent |
| Browse.LexLeTotal | frontend/src/pages/BrowsePage.jsx:68 | the name order is total |
| Browse.LexLeTransitive | frontend/src/pages/BrowsePage.jsx:68 | the name order is transitive |
| Browse.LeTotal | frontend/src/pages/BrowsePage.jsx:71-73 | both comparators are total |
| Browse.LeTransitive | frontend/src/pages/BrowsePage.jsx:71-73 | both comparators are transitive |
| Browse.Insert | frontend/src/pages/BrowsePage.jsx:68 | insertion adds exactly the one element |
| Browse.InsertSorted | frontend/src/pages/BrowsePage.jsx:68 | insertion keeps a sorted list sorted |
| Browse.SortBy | frontend/src/pages/BrowsePage.jsx:71-73 | sorting is a permutation |
| Browse.SortBySorted | frontend/src/pages/BrowsePage.jsx:71-73 | sorting yields a sorted list |
| Browse.Select | frontend/src/pages/BrowsePage.jsx:65-67 | each selected provider comes from the list and has the requested popularity |
| Browse.SelectPartition | frontend/src/pages/BrowsePage.jsx:65-67 | the popular and the other providers together are the whole list |
| Browse.SortedPartPopularity | frontend/src/pages/BrowsePage.jsx:65-68 | sorting a group keeps its popularity |
| Browse.OrderProvidersPermutation | frontend/src/pages/BrowsePage.jsx:64-75 | the panel shows each fetched provider as often as it was fetched |
| Browse.OrderProvidersGrouped | frontend/src/pages/BrowsePage.jsx:64-75 | popular providers first, in pinned order, then the rest by name |
| Browse.OrderProviders | frontend/src/pages/BrowsePage.jsx:64-75 | the panel shows as many providers as were fetched, and a provider is shown iff it was fetched |
| Browse.DiscoverFilters | frontend/src/pages/BrowsePage.jsx:97-104 | each filter is undefined iff its control is at its default, and otherwise carries the control's value |
| Browse.YearFilterReadsBack | frontend/src/pages/BrowsePage.jsx:100 | a chosen year option is sent as that year |
| Browse.ActiveFiltersIffNotDefault | frontend/src/pages/BrowsePage.jsx:158 | for filters the controls can produce, no active filter iff every control is at its default |
| Browse.HasActiveFilters | frontend/src/pages/BrowsePage.jsx:158 | no active filter iff discover gets only the default sort and no other parameter |
| Browse.OfType | frontend/src/pages/BrowsePage.jsx:92-94 | never longer than the results; if all have the type, nothing is dropped |
| Browse.OfTypeMembers | frontend/src/pages/BrowsePage.jsx:92-94 | a result is kept iff it has the media type |
| Browse.OfTypeConcat | frontend/src/pages/BrowsePage.jsx:92-94 | the kept results keep their order: the filter distributes over concatenation |
| Browse.OfTypeOne | frontend/src/pages/BrowsePage.jsx:92-94 | one result is kept iff its type matches |
| Browse.CapPages | frontend/src/pages/BrowsePage.jsx:113 | at most 500; a missing or zero count is 0; otherwise the count |
| Browse.Received | frontend/src/pages/BrowsePage.jsx:88-111 | throws iff searching with a type filter and no results list; otherwise the type-filtered or plain results |
| Browse.BrowseView.constructor | frontend/src/pages/BrowsePage.jsx:35-40 | no results, page 1, no pages, not loading, no providers |
| Browse.BrowseView.FetchResults | frontend/src/pages/BrowsePage.jsx:84-120 | page 1 replaces and later pages append; the page count is capped; a failure or throw changes only the spinner |
| Browse.BrowseView.LoadProviders | frontend/src/pages/BrowsePage.jsx:63-75 | on success the options are the ordered fetched list; on failure they are kept |
| Browse.LoadThreePages | frontend/src/pages/BrowsePage.jsx:108-114 | loading pages 1, 2, 3 shows their results in page order and ends at page 3 |
| Sync.OwnedByConcat | backend/server.py:218 | selecting by owner distributes over concatenation |
| Sync.PatchWhereConcat | frontend/src/context/WatchlistContext.js:55-57 | patching distributes over concatenation |
| Sync.OwnedByPatchWhere | frontend/src/context/WatchlistContext.js:55-57 | patching then selecting a profile equals selecting then patching |
| Sync.UpdateAtIsPatchWhere | backend/server.py:240-243 | with distinct ids, updating the first list with an id is patching every list with it |
| Sync.AbsentIdPatchesNothing | frontend/src/context/WatchlistContext.js:55-57 | an absent id patches nothing |
| Sync.PatchAgrees | frontend/src/context/WatchlistContext.js:55-57 | the client's patch on the profile's lists equals the backend's update, selected to the profile |
| Sync.CreateAgrees | frontend/src/context/WatchlistContext.js:41-46 | appending the created list locally equals selecting the profile's lists after the insert |
| Sync.RenameAgrees | frontend/src/context/WatchlistContext.js:53-58 | the local rename equals the backend's rename, selected to the profile |
| Sync.AddAgrees | frontend/src/context/WatchlistContext.js:60-66 | appending the returned item locally equals the backend's push, selected to the profile |
| Sync.PullAgrees | frontend/src/context/WatchlistContext.js:68-73 | the local item filter equals the backend's pull, selected to the profile |
| Sync.StatusOfItems | backend/server.py:280-284 | with distinct item ids, setting the first item with the id is setting all of them |
| Sync.StatusUpdateAt | backend/server.py:280-284 | when the list holds the item, the backend's update is the status patch on that list |
| Sync.StatusUpdateAbsent | backend/server.py:280-284 | when the list lacks the item, neither side changes anything |
| Sync.StatusAgrees | frontend/src/context/WatchlistContext.js:75-82 | for a non-empty status, the local patch equals the backend's update, selected to the profile |
| Sync.OwnedWithoutId | frontend/src/context/WatchlistContext.js:50 | the profile's lists from a stretch without the id contain none with it |
| Sync.WithoutWatchlistOne | frontend/src/context/WatchlistContext.js:50 | filtering out the id of the only list with it drops exactly that list |
| Sync.OwnedWithoutOne | frontend/src/context/WatchlistContext.js:50 | the same holds after selecting the profile's lists |
| Sync.OwnedWithoutAt | frontend/src/context/WatchlistContext.js:50 | with distinct ids, the local filter equals deleting that position, selected to the profile |
| Sync.DeleteAgrees | frontend/src/context/WatchlistContext.js:48-51 | the local filter equals the backend's delete, selected to the profile |
| Sync.UsersWithoutConcat | frontend/src/context/UserContext.js:53 | the profile filter distributes over concatenation |
| Sync.UsersWithoutAbsent | frontend/src/context/UserContext.js:53 | filtering an absent id changes nothing |
| Sync.UsersWithoutOne | frontend/src/context/UserContext.js:53 | filtering out the id of the only profile with it drops exactly that profile |
| Sync.UsersWithoutAt | frontend/src/context/UserContext.js:53 | with distinct ids, the filter equals deleting that position |
| Sync.RemoveUserAgrees | frontend/src/context/UserContext.js:51-57 | with distinct profile ids, the local removal equals the backend's delete |

## Left out

- Network, storage and the event loop are not modelled. Each awaited call's outcome is a parameter. The `localStorage` key is a field. Interleavings of concurrent async calls and React re-renders are not modelled: each store operation is one atomic step.
- `frontend/src/lib/api.js` (the HTTP client) is not part of this model. A rejection of any kind is `Remote.Fail`.
- uuid4 ids are parameters. The invariant lemmas assume they are fresh. The `created_at` and `added_at` timestamps are not modelled.
- The TMDB/OMDB response cache with its TTL, the 429 retry, the API keys and the HTTP timeouts are not modelled. A TMDB or OMDB request is its optional decoded body.
- `vote_average`, `vote_count` and `popularity` are floats that `normalize_media_item` only copies, so `MediaItem` leaves them out. The discover vote bounds are passed on as opaque reals. The rating slider's 0.5 steps are counted in half-points (0 to 20).
- `formatDate`, `formatVoteAverage`, `cn` and `AVATAR_COLORS` in utils.js are left out: they depend on locale and float formatting, or only compose CSS classes.
- Browse.LexLe: `localeCompare` is locale-dependent. The model orders names by Unicode code points instead.
- Browse.SortBy: states a sorted permutation, but not the stability of JavaScript's `Array.prototype.sort`. The comparator's ties (same rank, equal names) may come out in any order.
- Media.Normalize: a key present with an explicit `null` value differs from a missing key only for `media_type`, `genre_ids` and `genres`. The model has one `None` for both. For `media_type`, `None` means the key is missing.
- Media.OmdbRatings: an OMDB `Ratings` entry that is not an object, or a `Source` that is `null`, would raise in the endpoint. The model treats a missing key as the empty string and does not model the raise.
- Media.ImdbOf: an `imdbVotes` key present with a `null` value makes `.replace` raise in the endpoint. The model's `None` is a missing key and gives empty votes. The raise is not modelled.
- Media.ScanRatings: a `Value` that is `null` reaches the reply as `null` in the endpoint. The model's `None` gives the empty string instead.
- Sync.PatchAgrees, Sync.CreateAgrees, Sync.RenameAgrees, Sync.AddAgrees, Sync.PullAgrees, Sync.StatusAgrees, Sync.DeleteAgrees, Sync.RemoveUserAgrees: each compares the client's copy with every list the profile owns. The client holds only the page `GET /watchlists` returns, at most a hundred lists. So the two copies are shown to agree only while the profile owns fewer than a hundred lists, when `Backend.WatchlistsPage` returns all of them.
- Decimal.ParseInt: leading white space, a sign and the `0x` prefix are not modelled. The year options are always plain digits.
- The genre list of the filter panel, the search box, the URL parameters and every presentation component are left out.
- Format.StatusClass: JavaScript's lookup also finds inherited object keys (`statusClasses['constructor']` is a function). The model gives the empty class for every unknown status.
- Sync.StatusAgrees: requires a non-empty status. With `""` the client sets the status to empty while the backend ignores the update, so the two copies diverge.
- WatchlistStore.Store.FetchWatchlists: a failed fetch keeps the previous profile's lists, as the source does. The model proves no "held lists belong to the active profile" invariant, because the source does not keep one.
- UserStore.Session.SelectUser: does not check that the profile is among the known ones, as in the source. So no "active profile is a known profile" invariant is stated.
- Browse.DiscoverFilters: a year text that does not start with a digit becomes `NaN`. The model carries it as `JsNumber.NaN`. How the query string then encodes it is not modelled.
