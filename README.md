# Page navigator, back-fallback route and sport record store

This project models the logic inside `main.js`, the navigation layer of a personal website. Three pieces are modelled.

- **The navigator** (module `Navigation`). On the *composing page*, the one with a `main-content` element, `loadPage(page)` pushes an entry onto a global page stack and then fetches the page into the container. If the fetch fails, it redirects to the same page. `goBack()` pops the current entry, pops the previous one and replays it. The replay pushes that entry again, so the net effect is dropping the last entry and showing the new top. Off the composing page, `loadPage` is a plain redirect. `goBack` defers to the browser history when the stack cannot be used, and to a fallback route when the history is empty.
  - Every stack entry is the closure `() => loadPage(page, options)`, so the model records an entry as the page it replays.
  - `isMainPage()` is `Navigator.IsMainPage`: the document's set of element ids contains `main-content`.
  - The fetch is modelled by how its whole promise chain settles. `Fetched` means the fetch, `res.text()` and the success handler all complete. `Failed` means any of them rejects or throws, including the content swap and `options.onLoad`, so the `.catch` redirect runs. The browser's reaction is an `Outcome`: `Redirect(target)`, `Show(page)` or `HistoryBack`.
  - `Load` and `Back` are value-level specification functions over `NavState`, which holds the stack and whether the container is present. The class `Navigator` holds the page stack as a field. Its methods `LoadPage` and `GoBack` update the stack in place, and `GoBack` replays through `LoadPage`, as the source does. Each method is proved equal to the matching specification function.
  - `Run` folds a sequence of calls. The lemmas over it describe whole browsing sessions.
- **The back-fallback route** (module `Paths`). This function maps `window.location.pathname` to a redirect target. `Includes` models `String.prototype.includes`, and `Split`/`LastSegment` model `split('/').pop()`. Each is proved against an independent definition: substring positions, `Join`, and the longest slash-free suffix. The if-chain of keywords is proved equal to a table lookup (`Sections`, in the order sport, book, code, writing, art), which makes the order that decides ties explicit.
- **The sport record store** (module `SportRecords`). `localStorage` is modelled by its decoded contents, a map from key to record list. This treats the JSON encode/decode as an exact round trip. `addSportRecord` reads the list under `"sport_" + type`, pushes the record and writes the list back. `getSportRecords` returns the stored list, or the empty list when the key is absent.

The initial view of the composing page is never pushed. After N navigations, N-1 backs reach the first navigated page. The N-th back finds a single entry, leaves the stack alone and defers to the browser history, or, when the history is empty and the path does not contain `pages/`, to `index.html` (`FirstPageBackDefers`).

## Model

| member | source | states |
|---|---|---|
| `Paths.IncludesIff` | main.js:100 | `includes` holds exactly when the word occurs at some position of the text |
| `Paths.JoinSplit` | main.js:102 | splitting on `/` loses nothing: joining the parts with `/` gives back the path |
| `Paths.SplitJoin` | main.js:102 | splitting a join of slash-free parts gives back those parts |
| `Paths.LastSegmentIsFinalComponent` | main.js:102 | `split('/').pop()` has no `/`, ends the path, and either is the whole path or follows a `/` |
| `Paths.FirstSection` | main.js:105-118 | the section picked is the first whose keyword the page name contains; none is picked only when no keyword occurs |
| `Paths.BackFallback` | main.js:99-122 | the target is `index.html` exactly when the path lacks `pages/`, and it is always one of the two index pages or the five list pages |
| `Paths.BackFallbackBySections` | main.js:99-122 | a path without `pages/` goes to `index.html`; a path under `pages/` goes to the list page of the first matching section, else to `../index.html` |
| `Paths.FirstKeywordWins` | main.js:105-118 | when several keywords occur in the page name, the earliest in the order sport, book, code, writing, art decides the target |
| `Navigation.Load` | main.js:13-56 | off the composing page: the stack is unchanged and the outcome is a redirect to exactly the page; on it: exactly one entry for the page is appended, and the outcome is Show on a fetched page and a redirect to the same page on a failed fetch |
| `Navigation.Back` | main.js:82-124 | on the composing page with more than one entry: the stack loses exactly its last entry and the new top is the page replayed; otherwise the stack is unchanged and the outcome is history back when history length > 1, else the fallback redirect |
| `Navigation.Navigator.IsMainPage` | main.js:8-10 | the composing-page test: the document has an element with id `main-content`; `LoadPage` and `GoBack` may modify only `pageStack` (``modifies this`pageStack``), so neither changes the element ids it reads |
| `Navigation.Deferred` | main.js:93-123 | when the stack cannot be used, the outcome never shows a stack page: history back exactly when history length > 1, otherwise a redirect to the fallback route |
| `Navigation.Navigator.LoadPage` | main.js:13-56 | the in-place push and outcome match `Load` on the state before the call |
| `Navigation.Navigator.GoBack` | main.js:82-124 | the two in-place pops, the replay through `LoadPage` and the deferral match `Back` on the state before the call |
| `Navigation.Navigator.constructor` | main.js:5 | the page stack starts empty |
| `Navigation.RunKeepsMainPage` | main.js:8-10 | no navigation call adds or removes the main container |
| `Navigation.OffMainPageStackUnchanged` | main.js:15-18 | off the composing page, no sequence of calls changes the page stack |
| `Navigation.EntriesWereNavigated` | main.js:21 | every stack entry replays a page that was on the stack already or was navigated to |
| `Navigation.StackBounds` | main.js:84-88 | going back never empties a stack that has an entry; the stack grows by at most one entry per navigation |
| `Navigation.NavigationsPush` | main.js:21 | on the composing page, navigations push their pages in order, and a failed fetch does not remove its entry |
| `Navigation.ReturnsPop` | main.js:84-88 | on the composing page, k backs drop exactly the last k entries while at least one entry remains |
| `Navigation.NavigateThenReturn` | main.js:84-88 | after navigating to n pages from an empty stack and going back j < n times, the stack is the first n - j pages |
| `Navigation.NavigateThenReturnShows` | main.js:84-88 | in that session the j-th back shows the page navigated to j steps before the last one, the new top of the stack |
| `Navigation.FirstPageBackDefers` | main.js:93-122 | after n navigations and n - 1 backs, the stack is the first page alone, and a further back leaves it unchanged and defers; on a path without `pages/` with no history, it redirects to `index.html` |
| `SportRecords.KeyInjective` | main.js:160 | distinct sport types never share a storage key |
| `SportRecords.GetSportRecords` | main.js:165-168 | an absent key reads as the empty list; a present key reads as its stored list, decoded unchanged |
| `SportRecords.WithRecord` | main.js:159-164 | adding a record appends it to its type's list, leaves every other type's list as it was, and creates or changes no other key |
| `SportRecords.LocalStorage.AddSportRecord` | main.js:159-164 | the read-modify-write leaves the store equal to `WithRecord` of the old store, so the type's list is the old list plus the new record |
| `SportRecords.LocalStorage.constructor` | main.js:161 | the store starts with the given decoded contents of `localStorage` |
| `SportRecords.ReplayAppendsInOrder` | main.js:159-168 | after a sequence of additions, reading a type gives its earlier list followed by exactly the records added for it, in insertion order |
| `SportRecords.NeverAddedIsEmpty` | main.js:165-168 | a type to which nothing was added reads as the empty list |

## Left out

- DOM replacement and script re-instantiation (main.js:26-44): these are browser DOM operations. The model records only that the page is shown.
- The `options.onLoad` callback (main.js:48): a throw from it is covered by `Failed`, which yields the `.catch` redirect. It runs again on every replay, because the stack entry captures `options`. Calls it makes back into `loadPage` or `goBack` are not modelled.
- Fade and scale transitions, `animateMainContent` and its timers (main.js:59-79): they are cosmetic.
- The asynchrony of `fetch`: a call's outcome is taken once its fetch settles. Racing rapid navigations are not modelled. `fetch` rejects only on network failure, so an HTTP error page counts as `Fetched` and is shown.
- After a redirect or a history back the browser leaves the page and the stack is lost. `Run` does not end the session there. `RunKeepsMainPage`, `OffMainPageStackUnchanged`, `EntriesWereNavigated` and `StackBounds` hold for any sequence of calls and any fetch results. `NavigationsPush` covers a run of navigations on the composing page whose fetches all settle the same way, either `Fetched` or `Failed`. These lemmas describe the stack as `Run` folds it, not a browser session that goes on past a redirect. `NavigateThenReturn`, `NavigateThenReturnShows` and `FirstPageBackDefers` fix every fetch to `Fetched`, so no redirect happens before their last call.
- The `window.location.href = 'index.html'` branch of `goBack` (main.js:89-92): it cannot be reached, because every stack entry is a closure. It has no counterpart in the model.
- `renderMarkdown` (main.js:133-144): it loads a library from a CDN and calls it.
- `showPhotoModal` and `renderBackButton` (main.js:128-156): they only build UI markup.
- Event wiring and global exports (main.js:171-186): these are plumbing.
- JSON serialisation and `localStorage` internals: the store is modelled by decoded lists, so JSON round-trips are exact. A corrupt stored value, on which `JSON.parse` would throw, is not modelled. Record fields and the sport type are kept as strings. JavaScript coerces the type in `'sport_' + type`, so `1` and `"1"` share a key. `KeyInjective` holds only for string types.
