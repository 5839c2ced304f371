/**
 * The offline cache of the service worker, as values: the two cache names and
 * the files they hold, the browser's CacheStorage (named caches in creation
 * order, each a map from URL to response), how a request is routed, and what
 * opening, filling, deleting and matching caches do to that storage.
 */
module CachePolicy {
  import opened Wrappers
  import opened Text
  import opened Sequences

  /** The runtime cache: external resources and anything fetched later. */
  const CACHE_NAME: string := "pr-tracker-v1"
  /** The cache of the application shell. */
  const STATIC_CACHE: string := "pr-tracker-static-v1"

  /** The start page, which also stands in for any page while offline. */
  const INDEX_PAGE: string := "/index.html"

  /** The application shell, as paths relative to the worker's origin. */
  const STATIC_FILES: seq<string> := [
    "/", INDEX_PAGE, "/main.css", "/main.js", "/manifest.json", "/icon-192.png", "/icon-512.png"
  ]

  /** The CDN scripts the page loads. */
  const EXTERNAL_RESOURCES: seq<string> := [
    "https://www.gstatic.com/firebasejs/10.7.1/firebase-app-compat.js",
    "https://www.gstatic.com/firebasejs/10.7.1/firebase-firestore-compat.js",
    "https://cdn.jsdelivr.net/npm/chart.js"
  ]

  /** The page shown when neither the network nor the cached shell is available. */
  const OFFLINE_TEXT: string := "Offline - Bitte Internetverbindung pr\U{FC}fen"

  /** An HTTP response; only its status and body matter here. */
  datatype Response = Response(status: int, body: string) {
    /** `response.ok`: a status in the range 200-299. */
    predicate Ok() {
      200 <= status <= 299
    }
  }

  /** `new Response(text)`, which has status 200. */
  const OFFLINE_RESPONSE: Response := Response(200, OFFLINE_TEXT)

  /** A request: its method, its URL, the origin of that URL and its `Accept` header. */
  datatype Request = Request(httpMethod: string, url: string, origin: string, accept: Option<string>)

  /** What `fetch` does with a URL: it rejects on a network failure, otherwise resolves (even for 404). */
  datatype Network = NetworkError | Delivered(response: Response)

  /** How the promise handed to `respondWith` settles. */
  datatype Reply = Respond(response: Response) | Reject

  /** The three ways the fetch handler treats a request. */
  datatype Route = PassThrough | UseCacheFirst | UseNetworkFirst

  type Cache = map<string, Response>

  /** CacheStorage: the names of the caches in creation order, and their contents. */
  datatype Storage = Storage(names: seq<string>, entries: map<string, Cache>)

  /** Every listed cache exists, every existing cache is listed once. */
  ghost predicate Valid(s: Storage) {
    && Distinct(s.names)
    && (forall n :: n in s.names <==> n in s.entries)
  }

  /** A cache the current version uses; activation keeps exactly these. */
  predicate IsCurrentCache(name: string) {
    name == CACHE_NAME || name == STATIC_CACHE
  }

  /** `EXTERNAL_RESOURCES.some(resource => url.includes(resource))`: some CDN URL occurs in `url`. */
  function IsExternalResource(url: string): (r: bool)
    ensures r <==> exists i :: 0 <= i < |EXTERNAL_RESOURCES| && Includes(url, EXTERNAL_RESOURCES[i])
  {
    Any(EXTERNAL_RESOURCES, (resource: string) => Includes(url, resource))
  }

  // ----------------------------------------------------------------- routing

  /** The decision the fetch handler makes for a request. */
  function RouteOf(req: Request, selfOrigin: string): (r: Route)
    ensures r == PassThrough <==> req.httpMethod != "GET"
    ensures r == UseNetworkFirst <==> req.httpMethod == "GET" && req.origin != selfOrigin && !IsExternalResource(req.url)
  {
    if req.httpMethod != "GET" then PassThrough
    else if req.origin == selfOrigin || IsExternalResource(req.url) then UseCacheFirst
    else UseNetworkFirst
  }

  /** Every request for one of the worker's own files is served cache-first. */
  lemma SameOriginIsCacheFirst(req: Request, selfOrigin: string)
    requires req.httpMethod == "GET" && req.origin == selfOrigin
    ensures RouteOf(req, selfOrigin) == UseCacheFirst
  {
  }

  /** A listed CDN URL, with or without anything appended, is served cache-first from any origin. */
  lemma ListedResourceIsCacheFirst(i: nat, suffix: string, origin: string, accept: Option<string>, selfOrigin: string)
    requires i < |EXTERNAL_RESOURCES|
    ensures RouteOf(Request("GET", EXTERNAL_RESOURCES[i] + suffix, origin, accept), selfOrigin) == UseCacheFirst
  {
    IncludesPrefix(EXTERNAL_RESOURCES[i], suffix);
  }

  /** `includes` also matches a listed URL inside an unrelated one, for instance in its query string. */
  lemma EmbeddedResourceIsCacheFirst(i: nat, before: string, after: string, origin: string, selfOrigin: string)
    requires i < |EXTERNAL_RESOURCES|
    ensures RouteOf(Request("GET", before + EXTERNAL_RESOURCES[i] + after, origin, None), selfOrigin) == UseCacheFirst
  {
    var url := before + EXTERNAL_RESOURCES[i] + after;
    assert OccursAt(url, EXTERNAL_RESOURCES[i], |before|) by {
      assert url[|before|..|before| + |EXTERNAL_RESOURCES[i]|] == EXTERNAL_RESOURCES[i];
    }
  }

  // ---------------------------------------------------------------- matching

  /** Cache `name` exists and holds an entry for `url`. */
  predicate Holds(s: Storage, name: string, url: string) {
    name in s.entries && url in s.entries[name]
  }

  /** The index of the first cache, in creation order, that holds `url` (`|names|` when none does). */
  function FirstHit(s: Storage, names: seq<string>, url: string): (k: nat)
    ensures k <= |names|
    ensures forall j :: 0 <= j < k ==> !Holds(s, names[j], url)
    ensures k < |names| ==> Holds(s, names[k], url)
  {
    if names == [] then 0
    else if Holds(s, names[0], url) then 0
    else 1 + FirstHit(s, names[1..], url)
  }

  /** `caches.match(url)`: the entry of the oldest cache that holds `url`. */
  function Match(s: Storage, url: string): (r: Option<Response>)
    ensures r.Some? <==> exists i :: 0 <= i < |s.names| && Holds(s, s.names[i], url)
    ensures r.Some? ==> exists i :: 0 <= i < |s.names| && Holds(s, s.names[i], url) && r.value == s.entries[s.names[i]][url]
  {
    var k := FirstHit(s, s.names, url);
    if k < |s.names| then Some(s.entries[s.names[k]][url]) else None
  }

  /** When cache `k` is the oldest holding `url`, its entry is the match. */
  lemma MatchPrefersOldest(s: Storage, url: string, k: nat)
    requires k < |s.names| && Holds(s, s.names[k], url)
    requires forall j :: 0 <= j < k ==> !Holds(s, s.names[j], url)
    ensures Match(s, url) == Some(s.entries[s.names[k]][url])
  {
    var first := FirstHit(s, s.names, url);
    assert first == k;
  }

  // ------------------------------------------------------- changing storage

  /** `caches.open(name)`: the cache, created empty and appended to the order when it is new. */
  function Opened(s: Storage, name: string): (r: Storage)
    ensures name in r.entries && r.entries == (if name in s.entries then s.entries else s.entries[name := map[]])
    ensures r.names == if name in s.entries then s.names else s.names + [name]
    ensures Valid(s) ==> Valid(r)
  {
    if name in s.entries then s
    else Storage(s.names + [name], s.entries[name := map[]])
  }

  /** `cache.put(url, response)` on an open cache: one entry of one cache is written, nothing else changes. */
  function Put(s: Storage, name: string, url: string, response: Response): (r: Storage)
    requires name in s.entries
    ensures r.names == s.names && r.entries.Keys == s.entries.Keys
    ensures r.entries[name].Keys == s.entries[name].Keys + {url} && r.entries[name][url] == response
    ensures forall u :: u in s.entries[name] && u != url ==> r.entries[name][u] == s.entries[name][u]
    ensures forall n :: n in s.entries && n != name ==> r.entries[n] == s.entries[n]
    ensures Valid(s) ==> Valid(r)
  {
    Storage(s.names, s.entries[name := s.entries[name][url := response]])
  }

  /** Opening the runtime cache and putting a response into it. */
  function Stash(s: Storage, url: string, response: Response): (r: Storage)
    ensures Valid(s) ==> Valid(r)
    ensures CACHE_NAME in r.entries && url in r.entries[CACHE_NAME] && r.entries[CACHE_NAME][url] == response
    ensures forall n :: n in s.entries && n != CACHE_NAME ==> n in r.entries && r.entries[n] == s.entries[n]
    ensures STATIC_CACHE in s.entries ==> r.entries[STATIC_CACHE] == s.entries[STATIC_CACHE]
    ensures r.entries.Keys == s.entries.Keys + {CACHE_NAME}
    ensures r.names == if CACHE_NAME in s.entries then s.names else s.names + [CACHE_NAME]
    ensures CACHE_NAME in s.entries ==> forall u :: u in s.entries[CACHE_NAME] && u != url ==>
      u in r.entries[CACHE_NAME] && r.entries[CACHE_NAME][u] == s.entries[CACHE_NAME][u]
    ensures r.entries[CACHE_NAME].Keys == (if CACHE_NAME in s.entries then s.entries[CACHE_NAME].Keys else {}) + {url}
  {
    Put(Opened(s, CACHE_NAME), CACHE_NAME, url, response)
  }

  /** A predicate that holds for every name except `name`. */
  function Except(name: string): string -> bool {
    n => n != name
  }

  /** `caches.delete(name)`: that cache goes, every other cache keeps its contents and its place in the order. */
  function Deleted(s: Storage, name: string): (r: Storage)
    ensures name !in r.names && name !in r.entries
    ensures forall n :: n in r.names <==> n in s.names && n != name
    ensures forall n :: multiset(r.names)[n] == if n != name then multiset(s.names)[n] else 0
    ensures IsSubsequence(r.names, s.names)
    ensures r.entries.Keys == s.entries.Keys - {name}
    ensures forall n :: n in s.entries && n != name ==> r.entries[n] == s.entries[n]
    ensures Valid(s) ==> Valid(r)
  {
    var names := Filter(s.names, Except(name));
    assert forall n :: n in names <==> n in s.names && n != name by {
      FilterMembers(s.names, Except(name));
    }
    assert forall n :: multiset(names)[n] == if n != name then multiset(s.names)[n] else 0 by {
      FilterCount(s.names, Except(name));
    }
    assert IsSubsequence(names, s.names) by {
      FilterIsSubsequence(s.names, Except(name));
    }
    assert Distinct(s.names) ==> Distinct(names) by {
      if Distinct(s.names) {
        FilterDistinct(s.names, Except(name));
      }
    }
    Storage(names, s.entries - {name})
  }

  /** After a put, the URL is matched; if no cache held it before, the match is the new response. */
  lemma MatchAfterPut(s: Storage, name: string, url: string, response: Response)
    requires Valid(s) && name in s.entries
    ensures Match(Put(s, name, url, response), url).Some?
    ensures Match(s, url).None? ==> Match(Put(s, name, url, response), url) == Some(response)
  {
    var after := Put(s, name, url, response);
    var i :| 0 <= i < |s.names| && s.names[i] == name;
    assert Holds(after, s.names[i], url);
    if Match(s, url).None? {
      var r := Match(after, url);
      var j :| 0 <= j < |after.names| && Holds(after, after.names[j], url) && r.value == after.entries[after.names[j]][url];
      assert after.names[j] == s.names[j] && !Holds(s, s.names[j], url);
    }
  }

  /** Once `cacheFirst` has stored a missed response, the same URL is served from the cache. */
  lemma MatchAfterStash(s: Storage, url: string, response: Response)
    requires Valid(s) && Match(s, url).None?
    ensures Match(Stash(s, url, response), url) == Some(response)
  {
    var prepared := Opened(s, CACHE_NAME);
    forall i | 0 <= i < |prepared.names|
      ensures !Holds(prepared, prepared.names[i], url)
    {
      if i < |s.names| {
        assert prepared.names[i] == s.names[i];
        assert !Holds(s, s.names[i], url);
      }
    }
    MatchAfterPut(prepared, CACHE_NAME, url, response);
  }

  // ------------------------------------------------------------------ install

  /** A fetch whose result `addAll` accepts: delivered, with an ok status. */
  predicate Fetched(n: Network) {
    n.Delivered? && n.response.Ok()
  }

  /**
   * The responses `cache.addAll(urls)` stores: all of them when every fetch
   * succeeds with an ok status, otherwise none.
   */
  function FetchAll(urls: seq<string>, net: string -> Network): (r: Option<Cache>)
    ensures r.Some? <==> forall i :: 0 <= i < |urls| ==> Fetched(net(urls[i]))
    ensures r.Some? ==> r.value.Keys == set u | u in urls
    ensures r.Some? ==> forall u :: u in r.value ==> r.value[u] == net(u).response
  {
    if urls == [] then Some(map[])
    else
      var rest := FetchAll(urls[1..], net);
      if !Fetched(net(urls[0])) || rest.None? then None
      else
        assert forall u :: u in urls <==> u == urls[0] || u in urls[1..];
        Some(rest.value[urls[0] := net(urls[0]).response])
  }

  /** The storage after a step and whether the step's promise resolved. */
  datatype Done = Done(storage: Storage, ok: bool)

  /** `cache.addAll(urls)` on the open cache `name`: all entries are put, or none. */
  function AddedAll(s: Storage, name: string, urls: seq<string>, net: string -> Network): (r: Done)
    requires name in s.entries
    ensures r.ok <==> forall i :: 0 <= i < |urls| ==> Fetched(net(urls[i]))
    ensures !r.ok ==> r.storage == s
    ensures r.storage.names == s.names && r.storage.entries.Keys == s.entries.Keys
    ensures forall n :: n in s.entries && n != name ==> r.storage.entries[n] == s.entries[n]
    ensures r.ok ==> forall i :: 0 <= i < |urls| ==>
      Holds(r.storage, name, urls[i]) && r.storage.entries[name][urls[i]] == net(urls[i]).response
    ensures r.ok ==> r.storage.entries[name].Keys == s.entries[name].Keys + set u | u in urls
    ensures forall u :: u in s.entries[name] && u !in urls ==>
      Holds(r.storage, name, u) && r.storage.entries[name][u] == s.entries[name][u]
    ensures Valid(s) ==> Valid(r.storage)
  {
    match FetchAll(urls, net)
    case None => Done(s, false)
    case Some(fetched) => Done(Storage(s.names, s.entries[name := s.entries[name] + fetched]), true)
  }

  /** Every URL is fetched with an ok status. */
  predicate AllFetched(urls: seq<string>, net: string -> Network) {
    forall i :: 0 <= i < |urls| ==> Fetched(net(urls[i]))
  }

  /**
   * `after` is the cache `before` once `addAll(urls)` succeeded: it gains
   * exactly the URLs, each with its fetched response, and keeps its entries
   * for every other URL.
   */
  ghost predicate FilledWith(before: Cache, after: Cache, urls: seq<string>, net: string -> Network) {
    && after.Keys == before.Keys + set u | u in urls
    && (forall i :: 0 <= i < |urls| ==> urls[i] in after && net(urls[i]).Delivered? && after[urls[i]] == net(urls[i]).response)
    && (forall u :: u in before && u !in urls ==> u in after && after[u] == before[u])
  }

  /** `after` is `before` after `addAll(urls)`: filled when every URL was fetched ok, otherwise unchanged. */
  ghost predicate FilledOrKept(before: Cache, after: Cache, urls: seq<string>, net: string -> Network) {
    if AllFetched(urls, net) then FilledWith(before, after, urls, net) else after == before
  }

  /** Both current caches opened, the shell cache first: the storage the two `addAll` calls start from. */
  function Prepared(s: Storage): (r: Storage)
    ensures r.entries.Keys == s.entries.Keys + {STATIC_CACHE, CACHE_NAME}
  {
    Opened(Opened(s, STATIC_CACHE), CACHE_NAME)
  }

  /** The shell's URLs: each static path resolved against the worker's origin. */
  function StaticUrls(origin: string): (r: seq<string>)
    ensures |r| == |STATIC_FILES|
    ensures forall i :: 0 <= i < |r| ==> r[i] == origin + STATIC_FILES[i]
  {
    seq(|STATIC_FILES|, i requires 0 <= i < |STATIC_FILES| => origin + STATIC_FILES[i])
  }

  /**
   * The install handler: open the shell cache and the runtime cache, then
   * `addAll` the shell into the first and the CDN scripts into the second.
   * Each `addAll` is all-or-nothing on its own cache; installation succeeds
   * when both do.
   */
  function Installed(s: Storage, origin: string, net: string -> Network): (r: Done)
    ensures r.ok <==>
      && (forall i :: 0 <= i < |STATIC_FILES| ==> Fetched(net(StaticUrls(origin)[i])))
      && (forall i :: 0 <= i < |EXTERNAL_RESOURCES| ==> Fetched(net(EXTERNAL_RESOURCES[i])))
    ensures STATIC_CACHE in r.storage.entries && CACHE_NAME in r.storage.entries
    ensures forall n :: n in s.entries && !IsCurrentCache(n) ==> n in r.storage.entries && r.storage.entries[n] == s.entries[n]
    ensures Valid(s) ==> Valid(r.storage)
    ensures r.storage.names == Prepared(s).names
    ensures r.storage.entries.Keys == s.entries.Keys + {STATIC_CACHE, CACHE_NAME}
    ensures FilledOrKept(Prepared(s).entries[STATIC_CACHE], r.storage.entries[STATIC_CACHE], StaticUrls(origin), net)
    ensures FilledOrKept(Prepared(s).entries[CACHE_NAME], r.storage.entries[CACHE_NAME], EXTERNAL_RESOURCES, net)
  {
    var prepared := Prepared(s);
    var shell := AddedAll(prepared, STATIC_CACHE, StaticUrls(origin), net);
    var scripts := AddedAll(shell.storage, CACHE_NAME, EXTERNAL_RESOURCES, net);
    assert scripts.storage.names == prepared.names && scripts.storage.entries.Keys == prepared.entries.Keys by {
      assert shell.storage.names == prepared.names && shell.storage.entries.Keys == prepared.entries.Keys;
    }
    forall n | n in s.entries && !IsCurrentCache(n)
      ensures n in scripts.storage.entries && scripts.storage.entries[n] == s.entries[n]
    {
      assert prepared.entries[n] == s.entries[n];
      assert shell.storage.entries[n] == prepared.entries[n];
    }
    assert FilledOrKept(prepared.entries[STATIC_CACHE], scripts.storage.entries[STATIC_CACHE], StaticUrls(origin), net) by {
      AddedAllFills(prepared, STATIC_CACHE, StaticUrls(origin), net);
      assert scripts.storage.entries[STATIC_CACHE] == shell.storage.entries[STATIC_CACHE];
    }
    assert FilledOrKept(prepared.entries[CACHE_NAME], scripts.storage.entries[CACHE_NAME], EXTERNAL_RESOURCES, net) by {
      AddedAllFills(shell.storage, CACHE_NAME, EXTERNAL_RESOURCES, net);
      assert shell.storage.entries[CACHE_NAME] == prepared.entries[CACHE_NAME];
    }
    Done(scripts.storage, shell.ok && scripts.ok)
  }

  /** What `addAll` leaves in its own cache: the URLs added when all were fetched ok, otherwise the cache as it was. */
  lemma AddedAllFills(s: Storage, name: string, urls: seq<string>, net: string -> Network)
    requires name in s.entries
    ensures FilledOrKept(s.entries[name], AddedAll(s, name, urls, net).storage.entries[name], urls, net)
  {
  }

  /** After a successful install the shell cache holds every shell file and the runtime cache every CDN script. */
  lemma InstalledCachesHoldFiles(s: Storage, origin: string, net: string -> Network)
    requires Installed(s, origin, net).ok
    ensures forall i :: 0 <= i < |STATIC_FILES| ==>
      && Holds(Installed(s, origin, net).storage, STATIC_CACHE, origin + STATIC_FILES[i])
      && Installed(s, origin, net).storage.entries[STATIC_CACHE][origin + STATIC_FILES[i]] == net(origin + STATIC_FILES[i]).response
    ensures forall i :: 0 <= i < |EXTERNAL_RESOURCES| ==> Holds(Installed(s, origin, net).storage, CACHE_NAME, EXTERNAL_RESOURCES[i])
  {
    var prepared := Opened(Opened(s, STATIC_CACHE), CACHE_NAME);
    var shell := AddedAll(prepared, STATIC_CACHE, StaticUrls(origin), net);
    forall i | 0 <= i < |STATIC_FILES|
      ensures Holds(shell.storage, STATIC_CACHE, origin + STATIC_FILES[i])
      ensures shell.storage.entries[STATIC_CACHE][origin + STATIC_FILES[i]] == net(origin + STATIC_FILES[i]).response
    {
      assert StaticUrls(origin)[i] == origin + STATIC_FILES[i];
    }
  }

  /** A cache that holds `url` and is listed makes `caches.match(url)` succeed. */
  lemma MatchFindsListed(s: Storage, name: string, url: string)
    requires Valid(s) && Holds(s, name, url)
    ensures Match(s, url).Some?
  {
    var i :| 0 <= i < |s.names| && s.names[i] == name;
    assert Holds(s, s.names[i], url);
  }

  /** After a successful install every shell file and every CDN script is matched by the cache. */
  lemma InstalledFilesAreCached(s: Storage, origin: string, net: string -> Network)
    requires Valid(s) && Installed(s, origin, net).ok
    ensures forall i :: 0 <= i < |STATIC_FILES| ==> Match(Installed(s, origin, net).storage, origin + STATIC_FILES[i]).Some?
    ensures forall i :: 0 <= i < |EXTERNAL_RESOURCES| ==> Match(Installed(s, origin, net).storage, EXTERNAL_RESOURCES[i]).Some?
  {
    var after := Installed(s, origin, net).storage;
    InstalledCachesHoldFiles(s, origin, net);
    forall i | 0 <= i < |STATIC_FILES|
      ensures Match(after, origin + STATIC_FILES[i]).Some?
    {
      MatchFindsListed(after, STATIC_CACHE, origin + STATIC_FILES[i]);
    }
    forall i | 0 <= i < |EXTERNAL_RESOURCES|
      ensures Match(after, EXTERNAL_RESOURCES[i]).Some?
    {
      MatchFindsListed(after, CACHE_NAME, EXTERNAL_RESOURCES[i]);
    }
  }

  /** On a first install the shell cache is the oldest, so each shell file is served as it was fetched. */
  lemma FirstInstallServesShell(origin: string, net: string -> Network)
    requires Installed(Storage([], map[]), origin, net).ok
    ensures forall i :: 0 <= i < |STATIC_FILES| ==>
      Match(Installed(Storage([], map[]), origin, net).storage, origin + STATIC_FILES[i]) == Some(net(origin + STATIC_FILES[i]).response)
  {
    var after := Installed(Storage([], map[]), origin, net).storage;
    FirstInstallOrder(origin, net);
    InstalledCachesHoldFiles(Storage([], map[]), origin, net);
    forall i | 0 <= i < |STATIC_FILES|
      ensures Match(after, origin + STATIC_FILES[i]) == Some(net(origin + STATIC_FILES[i]).response)
    {
      MatchPrefersOldest(after, origin + STATIC_FILES[i], 0);
    }
  }

  /** A first install creates the shell cache first and the runtime cache second. */
  lemma FirstInstallOrder(origin: string, net: string -> Network)
    ensures Installed(Storage([], map[]), origin, net).storage.names == [STATIC_CACHE, CACHE_NAME]
  {
    var prepared := Opened(Opened(Storage([], map[]), STATIC_CACHE), CACHE_NAME);
    assert prepared.names == [STATIC_CACHE, CACHE_NAME];
  }

  /** The start page is the second shell file. */
  lemma StartPageIsShellFile(origin: string)
    ensures STATIC_FILES[1] == INDEX_PAGE && StaticUrls(origin)[1] == origin + INDEX_PAGE
  {
  }

  /** In particular the start page: it was delivered, and it is what the cache now serves. */
  lemma FirstInstallServesStartPage(origin: string, net: string -> Network)
    requires Installed(Storage([], map[]), origin, net).ok
    ensures net(origin + INDEX_PAGE).Delivered?
    ensures Match(Installed(Storage([], map[]), origin, net).storage, origin + INDEX_PAGE) == Some(net(origin + INDEX_PAGE).response)
  {
    StartPageIsShellFile(origin);
    FirstInstallServesShell(origin, net);
  }

  // ----------------------------------------------------------------- activate

  /** The activate handler: every cache other than the two current ones is deleted. */
  function Activated(s: Storage): (r: Storage)
    ensures forall n :: n in r.entries <==> n in s.entries && IsCurrentCache(n)
    ensures forall n :: n in r.entries ==> r.entries[n] == s.entries[n]
    ensures IsSubsequence(r.names, s.names)
    ensures Valid(s) ==> Valid(r)
  {
    FilterMembers(s.names, IsCurrentCache);
    FilterIsSubsequence(s.names, IsCurrentCache);
    assert Distinct(s.names) ==> Distinct(Filter(s.names, IsCurrentCache)) by {
      if Distinct(s.names) {
        FilterDistinct(s.names, IsCurrentCache);
      }
    }
    Storage(Filter(s.names, IsCurrentCache), map n | n in s.entries && IsCurrentCache(n) :: s.entries[n])
  }

  /** The storage once the activate loop has looked at the first `i` cache names. */
  function ActivationProgress(s: Storage, i: nat): Storage
    requires i <= |s.names|
  {
    Storage(Filter(s.names[..i], IsCurrentCache) + s.names[i..], KeptEntries(s.entries, s.names[i..]))
  }

  /** The caches that survive so far: the current ones and those not yet looked at. */
  function KeptEntries(entries: map<string, Cache>, pending: seq<string>): map<string, Cache> {
    map n | n in entries && (IsCurrentCache(n) || n in pending) :: entries[n]
  }

  /** Looking at one more pending name deletes its cache unless it is current. */
  lemma KeptEntriesStep(entries: map<string, Cache>, name: string, rest: seq<string>)
    requires name !in rest
    ensures KeptEntries(entries, rest) ==
      if IsCurrentCache(name) then KeptEntries(entries, [name] + rest) else KeptEntries(entries, [name] + rest) - {name}
  {
    var before, after := KeptEntries(entries, [name] + rest), KeptEntries(entries, rest);
    forall n
      ensures n in after <==> n in before && (IsCurrentCache(name) || n != name)
    {
      assert n in [name] + rest <==> n == name || n in rest;
    }
    var expected := if IsCurrentCache(name) then before else before - {name};
    assert after.Keys == expected.Keys;
  }

  /** Before the loop nothing is deleted yet. */
  lemma ActivationStart(s: Storage)
    requires Valid(s)
    ensures ActivationProgress(s, 0) == s
  {
    assert s.names[0..] == s.names;
  }

  /** After the loop exactly the current caches remain. */
  lemma ActivationEnd(s: Storage)
    ensures ActivationProgress(s, |s.names|) == Activated(s)
  {
    assert s.names[..|s.names|] == s.names;
  }

  /** The names after one turn of the activate loop. */
  lemma {:induction false} ActivationNamesStep(names: seq<string>, i: nat)
    requires Distinct(names) && i < |names|
    ensures Filter(names[..i + 1], IsCurrentCache) + names[i + 1..] ==
      var before := Filter(names[..i], IsCurrentCache) + names[i..];
      if IsCurrentCache(names[i]) then before else Filter(before, Except(names[i]))
  {
    var name, rest := names[i], names[i + 1..];
    var kept := Filter(names[..i], IsCurrentCache);
    assert names[i..] == [name] + rest;
    assert Filter(names[..i + 1], IsCurrentCache) == kept + Filter([name], IsCurrentCache) by {
      assert names[..i + 1] == names[..i] + [name];
      FilterAppend(names[..i], [name], IsCurrentCache);
    }
    FilterSingle(name, IsCurrentCache);
    if !IsCurrentCache(name) {
      assert Filter(kept, Except(name)) == kept by {
        FilterKeepsAll(kept, Except(name));
      }
      assert Filter([name] + rest, Except(name)) == rest by {
        assert name !in rest by {
          assert forall j :: 0 <= j < |rest| ==> rest[j] == names[i + 1 + j];
        }
        FilterAppend([name], rest, Except(name));
        FilterSingle(name, Except(name));
        FilterKeepsAll(rest, Except(name));
      }
      FilterAppend(kept, [name] + rest, Except(name));
    } else {
      assert kept + [name] + rest == kept + ([name] + rest);
    }
  }

  /** The caches after one turn of the activate loop. */
  lemma ActivationEntriesStep(s: Storage, i: nat)
    requires Valid(s) && i < |s.names|
    ensures ActivationProgress(s, i + 1).entries ==
      if IsCurrentCache(s.names[i]) then ActivationProgress(s, i).entries
      else ActivationProgress(s, i).entries - {s.names[i]}
  {
    var name, rest := s.names[i], s.names[i + 1..];
    assert s.names[i..] == [name] + rest;
    assert name !in rest by {
      assert forall j :: 0 <= j < |rest| ==> rest[j] == s.names[i + 1 + j];
    }
    KeptEntriesStep(s.entries, name, rest);
  }

  /** One turn of the activate loop: a cache that is not current is deleted, any other is kept. */
  lemma ActivationStep(s: Storage, i: nat)
    requires Valid(s) && i < |s.names|
    ensures ActivationProgress(s, i + 1) ==
      if IsCurrentCache(s.names[i]) then ActivationProgress(s, i) else Deleted(ActivationProgress(s, i), s.names[i])
  {
    ActivationNamesStep(s.names, i);
    ActivationEntriesStep(s, i);
  }

  /** Activating twice deletes nothing more. */
  lemma ActivateIdempotent(s: Storage)
    ensures Activated(Activated(s)) == Activated(s)
  {
    FilterKeepsAll(Filter(s.names, IsCurrentCache), IsCurrentCache);
  }

  /** Activation keeps both current caches, and with them whatever the shell cache holds. */
  lemma ActivateKeepsShell(s: Storage, origin: string)
    requires Valid(s) && STATIC_CACHE in s.entries && CACHE_NAME in s.entries
    requires forall i :: 0 <= i < |STATIC_FILES| ==> Holds(s, STATIC_CACHE, origin + STATIC_FILES[i])
    ensures Activated(s).entries.Keys == {STATIC_CACHE, CACHE_NAME}
    ensures forall i :: 0 <= i < |STATIC_FILES| ==> Match(Activated(s), origin + STATIC_FILES[i]).Some?
  {
    var active := Activated(s);
    forall i | 0 <= i < |STATIC_FILES|
      ensures Match(active, origin + STATIC_FILES[i]).Some?
    {
      MatchFindsListed(active, STATIC_CACHE, origin + STATIC_FILES[i]);
    }
  }

  /** After a successful install and activation, only the two current caches exist and the shell is served from them. */
  lemma InstallThenActivate(s: Storage, origin: string, net: string -> Network)
    requires Valid(s) && Installed(s, origin, net).ok
    ensures Activated(Installed(s, origin, net).storage).entries.Keys == {STATIC_CACHE, CACHE_NAME}
    ensures forall i :: 0 <= i < |STATIC_FILES| ==> Match(Activated(Installed(s, origin, net).storage), origin + STATIC_FILES[i]).Some?
  {
    InstalledCachesHoldFiles(s, origin, net);
    ActivateKeepsShell(Installed(s, origin, net).storage, origin);
  }

  // ------------------------------------------------------------ offline reply

  /**
   * `request.headers.get('accept').includes('text/html')`: the header names
   * HTML somewhere. A missing header makes the expression throw, so the
   * request is not treated as a page request.
   */
  function WantsHtml(req: Request): (r: bool)
    ensures r <==> req.accept.Some? && exists k :: OccursAt(req.accept.value, "text/html", k)
  {
    req.accept.Some? && Includes(req.accept.value, "text/html")
  }

  /**
   * The fetch handler writes the network's response back into the runtime
   * cache: the request is answered from the network (network-first, or a
   * cache-first miss) and the response was delivered with an ok status.
   */
  predicate WritesBack(s: Storage, origin: string, req: Request, net: string -> Network) {
    && req.httpMethod == "GET"
    && (RouteOf(req, origin) == UseNetworkFirst || Match(s, req.url).None?)
    && Fetched(net(req.url))
  }

  /**
   * The catch block of `cacheFirst`: a page request gets the cached shell or
   * the offline text; anything else rethrows.
   */
  function OfflineReply(s: Storage, origin: string, req: Request): (r: Reply)
    ensures r.Respond? <==> WantsHtml(req)
    ensures r.Respond? && Match(s, origin + INDEX_PAGE).Some? ==> r.response == Match(s, origin + INDEX_PAGE).value
    ensures r.Respond? && Match(s, origin + INDEX_PAGE).None? ==> r.response == OFFLINE_RESPONSE
  {
    if WantsHtml(req) then
      match Match(s, origin + INDEX_PAGE)
      case Some(shell) => Respond(shell)
      case None => Respond(OFFLINE_RESPONSE)
    else Reject
  }
}
