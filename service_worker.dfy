/**
 * The service worker's handlers acting on the browser's CacheStorage: install,
 * activate, and the fetch handler with its cache-first and network-first
 * strategies. `fetch` is the parameter `net`, which says what the network
 * delivers for each URL.
 */
module ServiceWorker {
  import opened Wrappers
  import opened Sequences
  import opened CachePolicy

  /** CacheStorage as the worker registered at `origin` sees it. */
  class CacheStorage {
    const origin: string
    var names: seq<string>
    var entries: map<string, Cache>

    /** The current contents as a value. */
    function Snapshot(): Storage
      reads this
    {
      Storage(names, entries)
    }

    ghost predicate Valid()
      reads this
    {
      CachePolicy.Valid(Snapshot())
    }

    /** The storage a worker finds when it starts: whatever earlier versions left. */
    constructor (origin: string, names: seq<string>, entries: map<string, Cache>)
      requires CachePolicy.Valid(Storage(names, entries))
      ensures this.origin == origin && Snapshot() == Storage(names, entries) && Valid()
    {
      this.origin := origin;
      this.names := names;
      this.entries := entries;
    }

    /** `caches.open(name)` */
    method Open(name: string)
      requires Valid()
      modifies this`names, this`entries
      ensures Snapshot() == Opened(old(Snapshot()), name) && Valid()
    {
      if name !in entries {
        names := names + [name];
        entries := entries[name := map[]];
      }
    }

    /** `cache.put(url, response)` on the open cache `name`. */
    method Put(name: string, url: string, response: Response)
      requires Valid() && name in entries
      modifies this`entries
      ensures Snapshot() == CachePolicy.Put(old(Snapshot()), name, url, response) && Valid()
    {
      entries := entries[name := entries[name][url := response]];
    }

    /** `caches.delete(name)`, which tells whether the cache existed. */
    method Delete(name: string) returns (deleted: bool)
      requires Valid()
      modifies this`names, this`entries
      ensures Snapshot() == Deleted(old(Snapshot()), name) && Valid()
      ensures deleted <==> name in old(entries)
    {
      deleted := name in entries;
      names := Filter(names, Except(name));
      entries := entries - {name};
    }

    /** `cache.addAll(urls)`: fetch every URL; store them all if each is ok, otherwise store nothing. */
    method AddAll(name: string, urls: seq<string>, net: string -> Network) returns (ok: bool)
      requires Valid() && name in entries
      modifies this`entries
      ensures Done(Snapshot(), ok) == AddedAll(old(Snapshot()), name, urls, net) && Valid()
    {
      var fetched: Cache := map[];
      for i := 0 to |urls|
        invariant forall j :: 0 <= j < i ==> Fetched(net(urls[j]))
        invariant fetched.Keys == set u | u in urls[..i]
        invariant forall u :: u in fetched ==> fetched[u] == net(u).response
      {
        if !Fetched(net(urls[i])) {
          return false;
        }
        assert urls[..i + 1] == urls[..i] + [urls[i]];
        fetched := fetched[urls[i] := net(urls[i]).response];
      }
      assert urls[..|urls|] == urls;
      var all := FetchAll(urls, net);
      assert all.Some? && all.value.Keys == fetched.Keys;
      assert all.value == fetched;
      entries := entries[name := entries[name] + fetched];
      return true;
    }

    /** The install handler. */
    method Install(net: string -> Network) returns (installed: bool)
      requires Valid()
      modifies this`names, this`entries
      ensures Done(Snapshot(), installed) == Installed(old(Snapshot()), origin, net) && Valid()
    {
      Open(STATIC_CACHE);
      Open(CACHE_NAME);
      var shellOk := AddAll(STATIC_CACHE, StaticUrls(origin), net);
      var scriptsOk := AddAll(CACHE_NAME, EXTERNAL_RESOURCES, net);
      installed := shellOk && scriptsOk;
    }

    /** The activate handler: delete, one by one, every cache the current version does not use. */
    method Activate()
      requires Valid()
      modifies this`names, this`entries
      ensures Snapshot() == Activated(old(Snapshot())) && Valid()
    {
      var cacheNames := names;
      ghost var start := Snapshot();
      ActivationStart(start);
      for i := 0 to |cacheNames|
        invariant Valid()
        invariant Snapshot() == ActivationProgress(start, i)
      {
        ActivationStep(start, i);
        if !IsCurrentCache(cacheNames[i]) {
          var deleted := Delete(cacheNames[i]);
        }
      }
      ActivationEnd(start);
    }

    /** `cacheFirst(request)` */
    method CacheFirst(req: Request, net: string -> Network) returns (reply: Reply)
      requires Valid()
      modifies this`names, this`entries
      ensures Valid()
      ensures Match(old(Snapshot()), req.url).Some? ==>
        reply == Respond(Match(old(Snapshot()), req.url).value) && Snapshot() == old(Snapshot())
      ensures Match(old(Snapshot()), req.url).None? && net(req.url).Delivered? ==>
        && reply == Respond(net(req.url).response)
        && Snapshot() == (if net(req.url).response.Ok() then Stash(old(Snapshot()), req.url, net(req.url).response) else old(Snapshot()))
      ensures Match(old(Snapshot()), req.url).None? && net(req.url).NetworkError? ==>
        reply == OfflineReply(old(Snapshot()), origin, req) && Snapshot() == old(Snapshot())
    {
      var cached := Match(Snapshot(), req.url);
      if cached.Some? {
        return Respond(cached.value);
      }
      match net(req.url)
      case Delivered(response) =>
        if response.Ok() {
          Open(CACHE_NAME);
          Put(CACHE_NAME, req.url, response);
        }
        return Respond(response);
      case NetworkError =>
        if WantsHtml(req) {
          var shell := Match(Snapshot(), origin + INDEX_PAGE);
          if shell.Some? {
            return Respond(shell.value);
          }
          return Respond(OFFLINE_RESPONSE);
        }
        return Reject;
    }

    /** `networkFirst(request)` */
    method NetworkFirst(req: Request, net: string -> Network) returns (reply: Reply)
      requires Valid()
      modifies this`names, this`entries
      ensures Valid()
      ensures net(req.url).Delivered? ==>
        && reply == Respond(net(req.url).response)
        && Snapshot() == (if net(req.url).response.Ok() then Stash(old(Snapshot()), req.url, net(req.url).response) else old(Snapshot()))
      ensures net(req.url).NetworkError? ==>
        && Snapshot() == old(Snapshot())
        && reply == (if Match(old(Snapshot()), req.url).Some? then Respond(Match(old(Snapshot()), req.url).value) else Reject)
    {
      match net(req.url)
      case Delivered(response) =>
        if response.Ok() {
          Open(CACHE_NAME);
          Put(CACHE_NAME, req.url, response);
        }
        return Respond(response);
      case NetworkError =>
        var cached := Match(Snapshot(), req.url);
        if cached.Some? {
          return Respond(cached.value);
        }
        return Reject;
    }

    /**
     * The fetch handler: `None` when the request is left to the browser,
     * otherwise how the promise given to `respondWith` settles.
     */
    method HandleFetch(req: Request, net: string -> Network) returns (handled: Option<Reply>)
      requires Valid()
      modifies this`names, this`entries
      ensures Valid()
      ensures handled.None? <==> req.httpMethod != "GET"
      ensures Snapshot() ==
        if WritesBack(old(Snapshot()), origin, req, net) then Stash(old(Snapshot()), req.url, net(req.url).response)
        else old(Snapshot())
      ensures RouteOf(req, origin) == UseCacheFirst && Match(old(Snapshot()), req.url).Some? ==>
        handled == Some(Respond(Match(old(Snapshot()), req.url).value))
      ensures RouteOf(req, origin) == UseCacheFirst && Match(old(Snapshot()), req.url).None? ==>
        handled == Some(if net(req.url).Delivered? then Respond(net(req.url).response) else OfflineReply(old(Snapshot()), origin, req))
      ensures RouteOf(req, origin) == UseNetworkFirst && net(req.url).Delivered? ==>
        handled == Some(Respond(net(req.url).response))
      ensures RouteOf(req, origin) == UseNetworkFirst && net(req.url).NetworkError? ==>
        handled == Some(if Match(old(Snapshot()), req.url).Some? then Respond(Match(old(Snapshot()), req.url).value) else Reject)
    {
      match RouteOf(req, origin)
      case PassThrough =>
        return None;
      case UseCacheFirst =>
        var reply := CacheFirst(req, net);
        return Some(reply);
      case UseNetworkFirst =>
        var reply := NetworkFirst(req, net);
        return Some(reply);
    }
  }

  /**
   * A first visit installs the worker; later, with the network down, a page
   * request for the shell gets the copy fetched at install time.
   */
  method OfflineAfterFirstInstall(origin: string, net: string -> Network) returns (installed: bool, reply: Reply)
    ensures installed ==> net(origin + INDEX_PAGE).Delivered? && reply == Respond(net(origin + INDEX_PAGE).response)
  {
    var storage := new CacheStorage(origin, [], map[]);
    installed := storage.Install(net);
    if installed {
      FirstInstallServesStartPage(origin, net);
    }
    var offline := (u: string) => NetworkError;
    reply := storage.CacheFirst(Request("GET", origin + INDEX_PAGE, origin, Some("text/html")), offline);
  }
}
