# Netflix-clone client state, modelled in Dafny

This project models the client-side state of a Netflix-style catalogue site.
It covers four stores and one set of helpers:

- **Liked items** (`LikedItems`). An in-memory list mirrored into one
  local-storage entry. A toggle changes the list at once, then follows up on the
  liked_items table when a user is signed in. A refused insert is rolled back
  by filtering out the temporary entry. A refused delete is rolled back by
  reloading from the table.
- **My list** (`MyList`). This store is not optimistic. The list is only
  replaced by a reload after the backend accepts an insert or a delete. An
  anonymous add is sent to `/login`.
- **Continue watching** (`ContinueWatching`). Watch percentages are clamped to
  [0, 100] and upserted under the key (user, media id, media type). The local
  list is the twenty most recently watched rows. The mount effect is guarded
  so that it runs once.
- **Toasts** (`Toast`). A module-level registry of listeners. `showToast`
  broadcasts to every listener. Each mounted container appends the toasts it
  receives and drops them by id. A toast's default type is `info`.
- **Catalogue helpers** (`Tmdb`). Image URLs with a placeholder for a missing
  path. Request queries with the API key first. The path, page and
  `append_to_response` parameters of each endpoint wrapper.

The hosted backend is the class `Remote.Backend`. It holds three tables, each
kept in the order its select returns (newest first). Every backend call takes
its outcome as an `ok` flag, so every success and error branch of the hooks is
verified. Clocks, fresh ids and random toast ids are parameters.

Shared modules:

- `Seqs`: order-preserving filter, membership test, newest-first insertion.
- `Decimal`: decimal rendering and parsing of integers, for `toString()`.
- `Media`: the row types.

## Model

| member | source | states |
|---|---|---|
| LikedItems.GetLocalLikes | src/hooks/use-liked-items.ts:16-24 | a missing or unparsable entry reads as the empty list; a stored list reads back as itself |
| LikedItems.IsLiked | src/hooks/use-liked-items.ts:94-96 | true exactly when some item carries both the media id and the media type; the type defaults to movie |
| LikedItems.WithoutPair | src/hooks/use-liked-items.ts:103-108 | after the optimistic removal the pair is no longer liked, and every item with another pair is still there |
| LikedItems.RemovalKeepsOrder | src/hooks/use-liked-items.ts:104-106 | the removal distributes over concatenation, so the remaining items keep their original order |
| LikedItems.ToggleFlipsOnlyThePair | src/hooks/use-liked-items.ts:98-143 | the optimistic toggle flips whether the pair is liked and leaves whether any other pair is liked unchanged |
| LikedItems.AddPrependsOneTempItem | src/hooks/use-liked-items.ts:131-143 | adding puts exactly one item in front: it carries the pair and a `temp_` id, and the rest is the old list unchanged |
| LikedItems.ToggleKeepsNoDuplicates | src/hooks/use-liked-items.ts:99-143 | a list with no duplicate (media id, media type) pair has none after a toggle |
| LikedItems.TempIdsDiffer | src/hooks/use-liked-items.ts:133 | toggles at different instants produce different temporary ids |
| LikedItems.RollbackRestores | src/hooks/use-liked-items.ts:154-161 | filtering the temporary id out of the prepended list gives back the list from before the toggle, provided no earlier item had that id |
| LikedItems.LikedItemsHook.constructor | src/hooks/use-liked-items.ts:36-45 | the list starts from the local copy; loading is on and no user is known |
| LikedItems.LikedItemsHook.SetLocalLikes | src/hooks/use-liked-items.ts:26-33 | the entry holds the serialised list, or is left as it was when storage refuses the write |
| LikedItems.LikedItemsHook.FetchFromSupabase | src/hooks/use-liked-items.ts:76-92 | on success the list and its local copy become the user's rows, newest first; on error neither changes |
| LikedItems.LikedItemsHook.Init | src/hooks/use-liked-items.ts:49-57 | records the user, loads that user's likes when there is one, and always ends loading. The local copy follows a successful load when storage accepts writes, and is otherwise unchanged |
| LikedItems.LikedItemsHook.OnAuthStateChange | src/hooks/use-liked-items.ts:62-71 | a session reloads from the backend, and the local copy follows a successful load when storage accepts writes; a sign-out resets the list to the local copy without a backend call and leaves the copy as it was |
| LikedItems.LikedItemsHook.ToggleLike | src/hooks/use-liked-items.ts:98-167 | every branch: without a user only the local toggle happens and the result is true. With a user, a refused insert is rolled back, a refused delete is refetched, an accepted insert is refetched, and the result is whether the backend accepted. When storage accepts writes, the local copy equals the list after the call; when it refuses them, the copy is left as it was |
| Remote.LikedViewNewestFirst | src/hooks/use-liked-items.ts:78-82 | the likes select is ordered newest first |
| Remote.LikedViewHasUsersRows | src/hooks/use-liked-items.ts:78-82 | every row of the user appears in the likes select |
| Remote.LikedViewOnlyUsersRows | src/hooks/use-liked-items.ts:78-82 | every entry of the likes select comes from a row of that user |
| Remote.NewestWatchedIsTop | src/hooks/use-continue-watching.ts:49-53 | the select returns at most twenty rows, twenty when the table has that many, newest first, and no row left out was watched later than a returned one |
| Remote.UpsertStoresRow | src/hooks/use-continue-watching.ts:84-88 | the upsert stores the new columns in exactly one row under the key |
| Remote.UpsertKeepsOtherRows | src/hooks/use-continue-watching.ts:84-88 | rows under every other key are unchanged and keep their order |
| Remote.UpsertKeepsOrder | src/hooks/use-continue-watching.ts:84-88 | the table stays ordered newest first |
| Remote.UpsertKeepsKeysUnique | src/hooks/use-continue-watching.ts:84-88 | the table keeps at most one row per (user, media id, media type) key |
| Remote.DeleteKeepsOrder | src/hooks/use-my-list.ts:87-92 | deleting rows keeps a table ordered newest first |
| Remote.Backend.SelectLiked | src/hooks/use-liked-items.ts:78-82 | returns the user's likes newest first, or an error with no data |
| Remote.Backend.InsertLiked | src/hooks/use-liked-items.ts:150-152 | an accepted insert adds the row in newest-first position; the other tables are unchanged |
| Remote.Backend.DeleteLiked | src/hooks/use-liked-items.ts:116-121 | an accepted delete removes the user's rows for the pair; the other tables are unchanged |
| Remote.Backend.SelectMyList | src/hooks/use-my-list.ts:40-43 | returns the signed-in user's rows newest first, as the backend's row rule filters them, or an error with no data |
| Remote.Backend.InsertMyList | src/hooks/use-my-list.ts:69-71 | an accepted insert adds the row in newest-first position; the other tables are unchanged |
| Remote.Backend.DeleteMyList | src/hooks/use-my-list.ts:87-92 | an accepted delete removes the user's rows for the pair; the other tables are unchanged |
| Remote.Backend.SelectWatchProgress | src/hooks/use-continue-watching.ts:49-53 | returns at most twenty of the signed-in user's rows, as the backend's row rule filters them, newest watched first, or an error with no data |
| Remote.Backend.UpsertWatchProgress | src/hooks/use-continue-watching.ts:84-88 | an accepted upsert replaces the row under the key and keeps the keys unique; the other tables are unchanged |
| Remote.Backend.DeleteWatchProgress | src/hooks/use-continue-watching.ts:102-107 | an accepted delete removes the user's row for the pair; the other tables are unchanged |
| MyList.IsInList | src/hooks/use-my-list.ts:55-59 | true exactly when some entry carries both the media id and the media type; the type defaults to movie |
| MyList.DeleteThenNotInList | src/hooks/use-my-list.ts:83-96 | after an accepted delete, the user's rows no longer hold the title |
| MyList.InsertThenInList | src/hooks/use-my-list.ts:62-75 | after an accepted insert, the user's rows hold the title |
| MyList.MyListHook.constructor | src/hooks/use-my-list.ts:16-18 | the list starts empty, loading is on and no user is known |
| MyList.MyListHook.FetchMyList | src/hooks/use-my-list.ts:37-52 | on success the list becomes the signed-in user's rows, newest first; an error leaves it unchanged; loading ends either way |
| MyList.MyListHook.CheckUser | src/hooks/use-my-list.ts:23-34 | records the user and loads the list when there is one; loading ends either way |
| MyList.MyListHook.AddToList | src/hooks/use-my-list.ts:62-80 | with no user the only effect is a push of `/login`, and the result is undefined. With a user the list changes only by a reload after an accepted insert, after which the title is in the list, and the result says whether the insert was accepted |
| MyList.MyListHook.RemoveFromList | src/hooks/use-my-list.ts:83-101 | a no-op returning undefined without a user; otherwise the list changes only by a reload after an accepted delete, after which the title is no longer in the list, and the result says whether the delete was accepted |
| MyList.MyListHook.ToggleList | src/hooks/use-my-list.ts:104-110 | deletes exactly when the pair is in the list, and adds otherwise; after an accepted call and a reload, membership of the title is flipped. Loading ends after an accepted call, and the likes and watch-progress tables are unchanged |
| ContinueWatching.Clamp | src/hooks/use-continue-watching.ts:80 | the result lies in [0, 100], equals the input inside that range, and is the nearer bound outside it |
| ContinueWatching.GetProgress | src/hooks/use-continue-watching.ts:116-121 | the progress of the first entry for the pair, or 0 when there is none |
| ContinueWatching.GetProgressInRange | src/hooks/use-continue-watching.ts:116-121 | a list of in-range entries only ever reports progress in [0, 100] |
| ContinueWatching.UpsertKeepsRange | src/hooks/use-continue-watching.ts:78-88 | upserting a clamped row keeps every stored percentage in [0, 100] |
| ContinueWatching.DeleteKeepsRange | src/hooks/use-continue-watching.ts:101-107 | deleting keeps every stored percentage in [0, 100] |
| ContinueWatching.UpdateThenGetProgress | src/hooks/use-continue-watching.ts:67-93 | after an upsert at a time no earlier than any stored row, the list reloaded for that user reports exactly the percentage written |
| ContinueWatching.DeleteThenNoProgress | src/hooks/use-continue-watching.ts:97-114 | after an accepted delete, the list reloaded for that user reports progress 0 for the title |
| ContinueWatching.ContinueWatchingHook.constructor | src/hooks/use-continue-watching.ts:19-22 | the list starts empty, nothing is loading, no user is known and the effect has not run |
| ContinueWatching.ContinueWatchingHook.FetchWatchProgress | src/hooks/use-continue-watching.ts:43-65 | does nothing without any user; otherwise the list becomes the signed-in user's twenty newest rows on success and is unchanged on error; loading ends |
| ContinueWatching.ContinueWatchingHook.Effect | src/hooks/use-continue-watching.ts:24-41 | runs at most once; a failed or anonymous auth check changes nothing else; otherwise it records the user and loads the list |
| ContinueWatching.ContinueWatchingHook.UpdateProgress | src/hooks/use-continue-watching.ts:67-95 | a no-op without a user; otherwise the clamped percentage is upserted under the key, and the list is reloaded only after an accepted upsert. Loading ends after an accepted upsert, and when the clock has not gone back the reloaded list reports the clamped percentage |
| ContinueWatching.ContinueWatchingHook.RemoveFromWatching | src/hooks/use-continue-watching.ts:97-114 | a no-op without a user; otherwise the user's row for the pair is deleted, and the list is reloaded only after an accepted delete. Loading ends after an accepted delete, and the reloaded list reports progress 0 for the title |
| Toast.WithoutToast | src/components/toast.tsx:96-98 | no toast with the id is left, and every toast with another id is still there |
| Toast.DismissKeepsOrder | src/components/toast.tsx:96-98 | dismissing distributes over concatenation, so the other toasts keep their order |
| Toast.DismissUnknownId | src/components/toast.tsx:96-98 | dismissing an id that no toast carries changes nothing |
| Toast.ToastContainer.constructor | src/components/toast.tsx:83 | a container starts with no toasts |
| Toast.ToastContainer.Receive | src/components/toast.tsx:86-88 | the new toast is appended after the unchanged earlier ones |
| Toast.ToastContainer.RemoveToast | src/components/toast.tsx:96-98 | the container's toasts become those without the id, in order |
| Toast.RegisteredOnceReceivesOnce | src/components/toast.tsx:86-93 | when each container is registered once, it receives each broadcast exactly once |
| Toast.ToastRegistry.constructor | src/components/toast.tsx:71 | the registry starts with no listeners |
| Toast.ToastRegistry.Subscribe | src/components/toast.tsx:86-89 | a fresh listener for the container is appended to the registry |
| Toast.ToastRegistry.Unsubscribe | src/components/toast.tsx:91-93 | exactly that listener is removed, and the others stay in order |
| Toast.ToastRegistry.ShowToast | src/components/toast.tsx:73-80 | the same toast reaches every registered listener: each container receives it once per registration, after its earlier toasts, and nothing else changes |
| Tmdb.GetImageUrl | src/lib/tmdb.ts:130-133 | the placeholder exactly for a null or empty path; otherwise base, `/`, size and path, with size defaulting to `original` |
| Tmdb.ImageUrlRoundTrip | src/lib/tmdb.ts:130-133 | the path can be read back from every image URL built for a size, and never from the placeholder |
| Tmdb.GetPosterUrl | src/lib/tmdb.ts:135 | the placeholder exactly for a missing path; otherwise an image URL at size `w500` from which the path reads back |
| Tmdb.GetBackdropUrl | src/lib/tmdb.ts:136 | the placeholder exactly for a missing path; otherwise an image URL at size `original` from which the path reads back |
| Tmdb.BuildUrl | src/lib/tmdb.ts:101-112 | the address is base plus endpoint, and the query is `api_key` (empty when no key is set) followed by the parameters in the order given |
| Tmdb.PagedRequestsSendPage | src/lib/tmdb.ts:153-233 | every paged wrapper sends `page` as a decimal string that parses back to the page number |
| Tmdb.EndpointUrl | src/lib/tmdb.ts:5-243 | every request goes to the configured base URL plus the endpoint path, or to the public API address when no base URL or an empty one is configured. Its query starts with the key. Paged calls carry their page, the search carries its text, and both detail calls ask for `videos,credits` |

## Left out

- Network I/O. Every backend select, insert, upsert and delete, and the catalogue `fetch`, is reduced to an outcome flag. A failed call is taken to leave the tables unchanged. The catalogue responses, their JSON bodies and the `revalidate` cache hint are not modelled.
- Backend access rules. The my_list and watch_progress selects have no user filter in the query; they rely on the backend's row-level rules. The model states that rule: `SelectMyList` and `SelectWatchProgress` return only the rows of the signed-in user, passed as `viewer`. The tables themselves hold every user's rows. The rules are taken to be exactly this filter, and nothing else about them is modelled.
- Tie order. Rows with equal timestamps may come back from the backend in any order; the model fixes one order.
- JSON. Local storage is reduced to the datatype `Stored`: nothing, unparsable text, or a list. Text that parses to something other than a list is not modelled. A write that storage refuses (quota, private mode) is the flag `storageWritable`. The flag is fixed for the lifetime of the hook, so a refusal that comes and goes between writes (a quota hit, then a successful write) is not represented.
- The server-side check `typeof window === 'undefined'` is not modelled. The model is the browser case.
- `Date.now()`, `new Date().toISOString()` and `Math.random()` are parameters. Timestamps are natural numbers of milliseconds, whose order agrees with the order of the ISO strings.
- Concurrency. Toggles overlapping in flight, and auth events arriving during an `await`, are not modelled. Each operation runs to completion before the next begins.
- Timers. The toast auto-dismiss timeout and its fade-out delay are not modelled. The default duration of 3000 ms is not modelled, and closing a toast is `RemoveToast`.
- Rendering. All JSX, the toast icons and colours, and the pages and presentational components are left out.
- Tmdb.BuildUrl: the query is kept as name and value pairs. The percent-encoding done by `url.toString()`, and the normalisation of the base URL by `new URL`, are not modelled.
- Tmdb.BuildUrl: the parameters are a sequence of pairs, which may repeat a name and keep any order. The source passes an object, whose keys are unique and whose integer-like keys `Object.entries` lists first. No wrapper uses such keys, and each lists distinct names.
- Tmdb.PagedRequestsSendPage: numbers are integers. JavaScript's rendering of fractional, huge or non-finite numbers by `toString()` is not modelled. The same holds for ids in paths.
- ContinueWatching.Clamp: progress is an integer. Fractional percentages and `NaN` are not modelled.
- ContinueWatching.ContinueWatchingHook.Valid: it assumes every stored percentage is in range. Only this hook writes the table, and it always clamps.
- Rollback after a refused delete. The code reloads the list from the liked_items table instead of re-inserting the removed item; the model follows the code.
