# PR Tracker — a verified model of the page logic and the offline service worker

PR Tracker is a small progressive web app for logging strength-training
personal records (PRs) and body weight. The page (`main.js`) keeps three
collections in a global `app` object: exercises, PR entries and weight
entries. It mirrors them into `localStorage` and, once a Firebase
configuration is saved, also into a Firestore database. The service worker
(`sw.js`) pre-caches the application shell and the CDN scripts at install,
deletes caches of older versions at activation, and answers fetches
cache-first (own files and the listed CDN scripts) or network-first
(everything else). When offline, a page request gets the cached start page
or a short offline text.

The Dafny project models both halves.

- `wrappers.dfy` — `Option` and `Result`.
- `text.dfy` — the JavaScript string operations the core relies on: `trim`
  (ECMAScript white space), `toLowerCase` (Basic Latin and Latin-1 letters)
  and `includes`.
- `sequences.dfy` — `Array.prototype.filter` as a function, with its
  membership, multiplicity, order, concatenation and no-duplicates facts,
  and `Array.prototype.some` (`Any`).
- `records.dfy` — the stored records, the input checks of the three "add"
  handlers, deletion by id, the period filter, the remote refresh and the
  local store. Save, load and clear are pure functions on a
  `map<string, Stored>`.
- `app_state.dfy` — `class App`: the `app` object and `localStorage` as
  fields, one method per handler. Each method is specified against the
  functions of `records.dfy`.
- `cache_policy.dfy` — the cache names and file lists, request routing, and
  CacheStorage as a value (cache names in creation order plus their
  contents). Open, put, delete, `addAll`, `match`, install and activate are
  functions on that value, with the lemmas about them.
- `service_worker.dfy` — `class CacheStorage`: the browser's cache storage
  as mutable fields, with the install and activate handlers (activation is a
  loop of deletes), `cacheFirst`, `networkFirst` and the fetch handler as
  methods proved against `cache_policy.dfy`.

The page and the service worker get their surroundings as parameters:

- the form fields, and the answers of `confirm()` (taken as "yes");
- the id a Firestore `add` returns (`Option<Id>`), and the outcome of each
  query (`Query`);
- `JSON.parse` of the configuration (a function returning `Option`), and
  whether `initializeFirebase` connects (a `bool`);
- the network (a function from URL to `Network`).

## Model

| member | source | states |
|---|---|---|
| Text.Trim | main.js:241 | the trimmed name is the slice of the input between an all-white-space front and an all-white-space back, and it neither starts nor ends with white space |
| Text.TrimEmptyIffBlank | main.js:241-246 | `trim()` gives the empty (falsy) string exactly when the input is all white space |
| Text.TrimUnpadded | main.js:241 | a name that neither starts nor ends with white space is its own trim |
| Text.TrimSkipsLeading | main.js:241 | a leading white-space character never survives `trim` |
| Text.Lower | main.js:248 | `toLowerCase` keeps the length, turns each capital letter into its own small letter (32 code points on), and leaves every other character as it was |
| Text.LowerIdempotent | main.js:248 | lower-casing an already lower-cased name changes nothing |
| Text.Includes | sw.js:82 | `url.includes(resource)` holds exactly when the resource occurs at some index of the URL |
| Text.IncludesPrefix | sw.js:82 | a URL includes each of its prefixes |
| Sequences.Filter | main.js:329 | filtering keeps only elements that pass the test and never lengthens the list |
| Sequences.FilterMembers | main.js:329 | an element survives a filter exactly when it was present and passes the test |
| Sequences.FilterCount | main.js:329 | an element that passes the test survives as many times as it occurs; one that fails never does |
| Sequences.Any | sw.js:82 | `some` holds exactly when some element passes the test |
| Records.NameTaken | main.js:248 | the `some` check holds exactly when an existing exercise has the name up to case |
| Records.CheckExerciseName | main.js:241-251 | blank input is refused as "name required"; otherwise a name equal up to case to an existing one is refused as a duplicate; otherwise the trimmed, non-empty, not yet taken name is accepted |
| Records.AppendKeepsNamesUnique | main.js:248-260 | appending a name that is not yet taken keeps exercise names unique up to case |
| Records.RepsField | main.js:298 | `parseInt(..) \|\| null`: NaN and 0 become null, any other count is kept |
| Records.CheckPrEntry | main.js:295-311 | refused exactly when the exercise or the date is empty or the weight is NaN or 0; otherwise the entry carries the given fields |
| Records.CheckWeightEntry | main.js:360-372 | refused exactly when the date is empty or the weight is NaN or 0; otherwise the entry carries the given fields |
| Records.WithoutId | main.js:329 | exactly the entries whose id differs from the deleted one remain, each as many times as before and in their old order; nothing changes when no entry has that id |
| Records.FilterByPeriod | main.js:591-599 | "max" returns the list itself; any other period keeps exactly the entries on or after the cutoff, each as many times as before; order is kept |
| Records.FromDocs | main.js:177-180 | one entity per document, in order, each carrying the document's id and fields |
| Records.Refresh | main.js:171-203 | each successful query replaces its collection; the first failing query stops the refresh and keeps the replacements made before it |
| Records.RefreshedEntitiesHaveIds | main.js:175-194 | after a complete refresh every entity in memory has a remote id |
| Records.SaveAll | main.js:165-169 | after saving, the store holds exactly the three collections under their keys and every other key is unchanged |
| Records.SaveAllTwice | main.js:165-169 | saving twice leaves what the second save wrote |
| Records.LoadAll | main.js:155-163 | the keys are read in order; each present, readable key replaces its collection and an absent key leaves it alone; an unreadable value stops the load, so its collection and every later one keep their old value; the load is complete exactly when every present value is readable |
| Records.LoadMirrored | main.js:155-169 | loading a store that mirrors some collections yields exactly those collections |
| Records.LoadAfterSave | main.js:155-169 | save followed by load reproduces the collections |
| Records.Cleared | main.js:688-690 | clearing removes exactly the three collection keys and keeps every other key, the Firebase configuration included |
| Records.LoadAfterClear | main.js:683-690 | loading a cleared store leaves the (emptied) collections as they are |
| AppState.DeleteRequests | main.js:674-678 | one remote delete per entity, in order, for that entity's id |
| AppState.App.constructor | main.js:2-13 | the page starts with no database and empty collections |
| AppState.App.LoadLocalData | main.js:155-163 | the new collections and the completion flag are those of loading the store into the old collections |
| AppState.App.SaveLocalData | main.js:165-169 | the store becomes the save of the current collections and then mirrors memory |
| AppState.App.SaveToFirebase | main.js:205-222 | without a database it saves locally and returns nothing; with one it returns the new document id only for an `add` that succeeded |
| AppState.App.DeleteFromFirebase | main.js:224-236 | without a database it saves locally and sends nothing; with one it sends exactly one delete for the given id |
| AppState.App.PushExercise | main.js:259-262 | the exercise is appended with the id a successful remote `add` returned (none without a database) and the store is rewritten from memory |
| AppState.App.AddExercise | main.js:239-266 | a refused name changes nothing; an accepted one is appended with the remote id (if any), the store mirrors memory, and names stay unique up to case |
| AppState.App.AddPrEntry | main.js:292-323 | a refused entry changes nothing; an accepted one is put first and the store mirrors memory |
| AppState.App.DeletePrEntry | main.js:325-334 | the PR entries become those without the id; the store mirrors memory; one remote delete when a database is set |
| AppState.App.AddWeightEntry | main.js:357-384 | a refused entry changes nothing; an accepted one is put first and the store mirrors memory |
| AppState.App.DeleteWeightEntry | main.js:386-395 | the weight entries become those without the id; the store mirrors memory; one remote delete when a database is set |
| AppState.App.ClearAllData | main.js:663-694 | all collections become empty; only their three keys leave the store (the configuration stays); with a database one remote delete per entity is sent |
| AppState.App.LoadDataFromFirebase | main.js:171-203 | without a database nothing changes; otherwise memory is the refresh of the queries, and the store is rewritten only when all three queries succeeded |
| AppState.App.SaveFirebaseConfig | main.js:105-121 | blank or unparsable input changes nothing; otherwise the configuration is stored, and a successful connection sets the database and refreshes the data |
| AppState.App.ExportSnapshot | main.js:641-647 | the export holds the three collections as they are, with the export date |
| AppState.ExportRoundTrip | main.js:641-647 | saving an export's collections and loading them back reproduces them, order included |
| AppState.SquatIsDuplicateOfSquat | main.js:248 | "Squat" is accepted on an empty list and " squat" is then refused as a duplicate |
| AppState.DuplicateNameScenario | main.js:239-266 | adding "Squat" and then " squat" accepts the first, refuses the second, and leaves one exercise |
| CachePolicy.IsExternalResource | sw.js:82 | a URL counts as a CDN resource exactly when one of the listed CDN URLs occurs in it |
| CachePolicy.RouteOf | sw.js:69-89 | non-GET requests are left to the browser; a GET goes network-first exactly when it is cross-origin and includes no listed CDN URL |
| CachePolicy.SameOriginIsCacheFirst | sw.js:79-81 | every same-origin GET is served cache-first |
| CachePolicy.ListedResourceIsCacheFirst | sw.js:82-84 | a listed CDN URL, with anything appended, is served cache-first |
| CachePolicy.EmbeddedResourceIsCacheFirst | sw.js:82 | any URL containing a listed CDN URL, even in its query, is served cache-first |
| CachePolicy.FirstHit | sw.js:94 | the index of the oldest cache holding the URL: no earlier cache holds it, and the cache at the index does |
| CachePolicy.Match | sw.js:94 | `caches.match` finds a response exactly when some cache holds the URL, and returns the response one of them stores |
| CachePolicy.MatchPrefersOldest | sw.js:94 | when several caches hold the URL, the oldest one answers |
| CachePolicy.MatchFindsListed | sw.js:94-98 | a listed cache that holds the URL makes the match succeed |
| CachePolicy.Opened | sw.js:30 | opening an existing cache changes nothing; a new cache is created empty and goes last in the creation order, the older order kept; the storage stays consistent |
| CachePolicy.Put | sw.js:105 | a put writes the response under the URL in that one cache; the cache's other entries, every other cache and the order are unchanged |
| CachePolicy.Stash | sw.js:104-105 | a fetched response is written to the runtime cache under its URL (created last in the order if missing); the runtime cache's other URLs and every other cache, the shell cache included, are unchanged |
| CachePolicy.Deleted | sw.js:57 | the deleted cache is gone from both the order and the contents; every other cache keeps its contents and its place in the order |
| CachePolicy.MatchAfterPut | sw.js:103-106 | after a put the URL is matched, and by the new response when no cache held it before |
| CachePolicy.MatchAfterStash | sw.js:100-109 | once a missed response is stored, the next request for that URL is served from cache with that response |
| CachePolicy.FetchAll | sw.js:32 | `addAll` stores something exactly when every fetch is delivered with an ok status, and then it stores each URL's response |
| CachePolicy.AddedAll | sw.js:30-33 | `addAll` changes only its own cache, and only when every URL was fetched ok; then each URL maps to its fetched response, the cache gains exactly those URLs, and its entries for other URLs are kept |
| CachePolicy.StaticUrls | sw.js:6-14 | each shell path resolved against the worker's origin, in order |
| CachePolicy.AddedAllFills | sw.js:32 | `addAll` leaves its cache filled with the URLs (other entries kept) when every URL was fetched ok, and as it was otherwise |
| CachePolicy.Installed | sw.js:24-44 | installation succeeds exactly when every shell file and every CDN script is fetched ok; both current caches exist afterwards; each of them is filled with its own list when that list was fetched ok and otherwise stays as opened, whatever happened to the other; the name order is that of opening the two caches, no other cache is created, and older caches are untouched, in their old order |
| CachePolicy.InstalledCachesHoldFiles | sw.js:27-39 | after a successful install the shell cache holds every shell file and the runtime cache every CDN script |
| CachePolicy.InstalledFilesAreCached | sw.js:27-39 | after a successful install every shell file and CDN script is matched, so cache-first never goes to the network for them |
| CachePolicy.FirstInstallServesShell | sw.js:30-33 | on a first install each shell file is served exactly as it was fetched |
| CachePolicy.FirstInstallServesStartPage | sw.js:115 | on a first install the start page was delivered, and the cache serves that copy |
| CachePolicy.FirstInstallOrder | sw.js:28-38 | a first install creates the shell cache before the runtime cache |
| CachePolicy.Activated | sw.js:47-66 | exactly the current caches survive activation, with their contents unchanged and in their old creation order |
| CachePolicy.ActivateIdempotent | sw.js:55 | a second activation deletes nothing more |
| CachePolicy.ActivationStep | sw.js:53-59 | one turn of the activation loop deletes the cache exactly when it is not current |
| CachePolicy.KeptEntriesStep | sw.js:55-57 | looking at one more cache name removes that cache exactly when it is not current |
| CachePolicy.ActivationNamesStep | sw.js:53-59 | one turn of the activation loop drops the name from the order exactly when it is not current, keeping the rest in order |
| CachePolicy.ActivateKeepsShell | sw.js:55 | activation leaves exactly the two current caches and keeps the shell matched |
| CachePolicy.InstallThenActivate | sw.js:24-66 | after install and activation only the two current caches remain, and every shell file is still served from cache |
| CachePolicy.WantsHtml | sw.js:114 | a request counts as a page request exactly when it has an `Accept` header in which "text/html" occurs |
| CachePolicy.OfflineReply | sw.js:113-119 | a page request gets the cached start page or, failing that, the offline text; any other request rejects |
| ServiceWorker.CacheStorage.constructor | sw.js:51 | the worker starts on the storage earlier versions left: those cache names in that order, with their contents |
| ServiceWorker.CacheStorage.Open | sw.js:30 | the storage becomes the opened storage |
| ServiceWorker.CacheStorage.Put | sw.js:105 | the storage becomes the storage with the response put |
| ServiceWorker.CacheStorage.Delete | sw.js:57 | the storage loses the cache; the result tells whether it existed |
| ServiceWorker.CacheStorage.AddAll | sw.js:32 | the loop of fetches stores all responses or none, as `AddedAll` says |
| ServiceWorker.CacheStorage.Install | sw.js:24-44 | the storage and the result are those of `Installed` |
| ServiceWorker.CacheStorage.Activate | sw.js:47-66 | the loop of deletes leaves the storage `Activated` describes |
| ServiceWorker.CacheStorage.CacheFirst | sw.js:92-121 | a cached response is returned without any change; on a miss the fetched response is returned and stored if ok; on a network failure the offline reply is returned |
| ServiceWorker.CacheStorage.NetworkFirst | sw.js:124-145 | the fetched response is returned and stored if ok; on a network failure the cached response is returned, or the request rejects |
| ServiceWorker.CacheStorage.HandleFetch | sw.js:69-145 | only GET requests are answered; the storage changes only by writing a delivered ok response back to the runtime cache on the network-first route or after a cache-first miss; cache-first serves a hit, else the network's response, else the offline reply; network-first serves the network's response, else the cached copy, else rejects |
| ServiceWorker.OfflineAfterFirstInstall | sw.js:24-121 | after a successful first install, a page request with the network down gets the start page as it was fetched at install |

## Left out

- Rendering is not modelled: the DOM, the select lists, the entry lists,
  messages, tab switching, date inputs and the Chart.js charts. These only
  read the collections.
- The sort in `updateWeightChart` (main.js:517-518) is not modelled. It
  sorts `app.weightEntries` by date in place, without saving. The page
  calls it from every `updateUI` (start-up, the end of a remote refresh,
  `clearAllData`), on switching to the weight tab (main.js:52), on a
  change of the weight-chart period (main.js:82), and right after the
  local save in `addWeightEntry` and `deleteWeightEntry` (main.js:379,
  main.js:393). The model keeps the
  order the handlers build, so "the store mirrors memory" in
  AddWeightEntry, DeleteWeightEntry and LoadDataFromFirebase holds for
  that order; on the page, memory is re-sorted afterwards and may differ
  from the stored order until the next save.
- Dates and clocks are not modelled: `createdAt` and the export date are
  parameters, and the date arithmetic of `filterByPeriod` is the abstract
  test `onOrAfterCutoff`.
- `parseFloat`/`parseInt` are given as results: weights as `Option<real>`
  and reps as `Option<int>`, with `None` for NaN. Infinity and the float
  format are not modelled.
- `JSON.stringify`/`JSON.parse` of the collections are not modelled: the
  store holds typed values (`Stored`). A stored value of the wrong shape
  is treated like one that does not parse: the load stops. An empty string
  stored under a key is not modelled (the page would skip that key).
- Records.FromDocs: a document whose data carries its own `id` field would
  overwrite the document id in `{ id: doc.id, ...doc.data() }`; that case
  is not modelled.
- `loadFirebaseConfig` at start-up is not modelled. `initializeFirebase` is
  modelled only through the `connects` flag of `SaveFirebaseConfig`.
  Deleting the previous Firebase app and the connection indicator are not
  modelled.
- Concurrency is not modelled: each awaited Firestore call completes
  before the next statement. That covers the `.then` continuations of the
  add handlers, the unawaited remote deletes, `Promise.all` in
  `clearAllData`, and the unawaited `cache.put` in both strategies. The
  outcomes of remote deletes are only logged, so the model returns the
  requests it would send.
- The `confirm()` dialogs are taken as answered "yes"; the "no" answer
  returns before any change.
- The export's Blob download is not modelled, and neither is a backup
  import (the page has none). `ExportRoundTrip` relates the snapshot to the
  local store instead.
- Text.Lower: `toLowerCase` is modelled for ASCII and Latin-1 letters only;
  other scripts are left as they are.
- The background sync, push and notification-click handlers (sw.js:148-213)
  are not modelled, nor `skipWaiting` and `clients.claim`. They log or
  show notifications and do not touch the caches.
- `caches.match` is modelled by URL only: request methods, `Vary` and match
  options are not modelled. Requests carry their origin as a field instead
  of parsing the URL.
- The two `addAll` calls of the install handler run one after the other
  in the model; in the page they run side by side under `Promise.all`.
  They touch different caches, so the end state is the same. Storage quota
  errors and `addAll`'s duplicate-request error are not modelled.
- Errors thrown by the storage APIs themselves (`localStorage` quota,
  `caches.open` failures) are not modelled.
- `cache.put` and `cache.addAll` reject a 206 (partial content) response,
  which `Response.Ok()` accepts; the model stores it. Range requests are
  not modelled.
