/** The memoisation in `parseM3U` (index.js:33-53): a module-level cache keyed
    by the exact playlist URL, filled only by a successful fetch and parse. */
module StreamCache {
  import opened Js
  import opened Playlist

  /** Why loading a playlist throws: the HTTP request fails, or the parser rejects the text. */
  datatype LoadFailure = FetchError | ParseError

  /** What fetching the URL and parsing the response would give on this request:
      the parser's item list, or the failure thrown. */
  datatype Fetch = Parsed(items: seq<Item>) | Failed(failure: LoadFailure)

  /** index.js:37-49, the work done on a miss: the stream records of the
      fetched playlist, or the failure that escapes `parseM3U`. */
  function Load(fetch: Fetch): Result<seq<Stream>, LoadFailure> {
    match fetch
    case Parsed(items) => Ok(Project(items))
    case Failed(failure) => Err(failure)
  }

  predicate AllWellFormed(streams: seq<Stream>) {
    forall s :: s in streams ==> WellFormed(s)
  }

  /** The `node-cache` instance of index.js:10, seen as a map from URL to stream list. */
  class Cache {
    var entries: map<string, seq<Stream>>
    /** How many times a fetch and parse has been started through this cache. */
    ghost var fetches: nat

    /** Only successful loads are stored, so every stored list is well formed. */
    ghost predicate Valid()
      reads this
    {
      forall url :: url in entries ==> AllWellFormed(entries[url])
    }

    constructor ()
      ensures Valid()
      ensures entries == map[] && fetches == 0
    {
      entries := map[];
      fetches := 0;
    }

    /** What `parseM3U(url)` gives in the current state of the cache. */
    function Lookup(url: string, fetch: Fetch): Result<seq<Stream>, LoadFailure>
      reads this
    {
      if url in entries then Ok(entries[url]) else Load(fetch)
    }

    /** `parseM3U(url)`: a hit returns the stored list without fetching; a miss
        fetches, stores the list under `url` only if nothing was thrown, and
        returns it. No other key is touched. */
    method GetOrLoad(url: string, fetch: Fetch) returns (r: Result<seq<Stream>, LoadFailure>)
      requires Valid()
      modifies this
      ensures Valid()
      ensures r == old(Lookup(url, fetch))
      ensures url in old(entries) ==> r == Ok(old(entries)[url]) && entries == old(entries) && fetches == old(fetches)
      ensures url !in old(entries) ==> fetches == old(fetches) + 1
      ensures url !in old(entries) && fetch.Parsed? ==> r == Ok(Project(fetch.items)) && entries == old(entries)[url := r.value]
      ensures url !in old(entries) && fetch.Failed? ==> r == Err(fetch.failure) && entries == old(entries)
      ensures r.Ok? ==> AllWellFormed(r.value)
    {
      if url in entries {
        r := Ok(entries[url]);
        return;
      }
      fetches := fetches + 1;
      match fetch
      case Failed(failure) =>
        r := Err(failure);
      case Parsed(items) =>
        var streams := Project(items);
        ProjectShape(items);
        entries := entries[url := streams];
        r := Ok(streams);
    }

    /** The entry for `url` reaching the end of its five-minute lifetime (or being evicted). */
    method Expire(url: string)
      requires Valid()
      modifies this
      ensures Valid()
      ensures entries == old(entries) - {url} && fetches == old(fetches)
    {
      entries := entries - {url};
    }
  }

  /** Two requests for one URL within its lifetime: the second is a hit that
      fetches nothing and returns what the first stored, whatever the network
      would have given the second time. */
  method RepeatedRequest(cache: Cache, url: string, first: Fetch, second: Fetch)
    returns (r1: Result<seq<Stream>, LoadFailure>, r2: Result<seq<Stream>, LoadFailure>)
    requires cache.Valid()
    modifies cache
    ensures r1.Ok? ==> r2 == r1 && cache.fetches == old(cache.fetches) + (if url in old(cache.entries) then 0 else 1)
    ensures r1.Err? ==> url !in old(cache.entries) && cache.fetches == old(cache.fetches) + 2
  {
    r1 := cache.GetOrLoad(url, first);
    r2 := cache.GetOrLoad(url, second);
  }

  /** Once an entry has expired, the next request for it fetches again, exactly once. */
  method RequestAfterExpiry(cache: Cache, url: string, fetch: Fetch)
    returns (r: Result<seq<Stream>, LoadFailure>)
    requires cache.Valid()
    modifies cache
    ensures cache.fetches == old(cache.fetches) + 1
    ensures r == Load(fetch)
  {
    cache.Expire(url);
    r := cache.GetOrLoad(url, fetch);
  }
}
