/** The two read endpoints of the addon, `/catalog` (index.js:59-76) and
    `/stream` (index.js:79-94): parameter checks, the projection or lookup
    over the stream list, and the choice of status code. */
module Addon {
  import opened Js
  import opened ChannelId
  import opened Playlist
  import opened StreamCache

  /** A catalog entry `{id, name, type, poster}`. */
  datatype Meta = Meta(id: string, name: string, kind: string, poster: string)

  /** A playable entry `{title, url, type, poster}`. */
  datatype Link = Link(title: string, url: string, kind: string, poster: string)

  /** A JSON document `{metas}` or `{streams}`, or a plain-text message. */
  datatype Body = MetaList(metas: seq<Meta>) | LinkList(links: seq<Link>) | Text(message: string)

  datatype Response = Response(status: int, body: Body)

  const MissingUrl := "Missing \"url\" parameter"
  const CatalogError := "Error parsing M3U playlist"
  const MissingParameters := "Missing parameters"
  const NotFound := "Channel not found"
  const StreamError := "Error fetching stream"

  /** The `streams.map` callback of index.js:65-70. */
  function ToMeta(s: Stream): Meta {
    Meta(s.id, s.name, "channel", s.poster)
  }

  /** The body of the catalog handler once `parseM3U` has settled: 400 without
      a url, 500 when loading threw, otherwise one entry per stream, in order. */
  function CatalogReply(url: Option<string>, loaded: Result<seq<Stream>, LoadFailure>): (resp: Response)
    ensures resp.status in {200, 400, 500}
    ensures resp.status == 400 <==> !Truthy(url)
    ensures resp.status == 500 <==> Truthy(url) && loaded.Err?
    ensures resp.status == 200 <==> Truthy(url) && loaded.Ok?
    ensures resp.status != 200 ==> resp.body.Text?
    ensures resp.status == 200 ==>
      && resp.body.MetaList?
      && |resp.body.metas| == |loaded.value|
      && forall i :: 0 <= i < |loaded.value| ==>
           var m, s := resp.body.metas[i], loaded.value[i];
           m.id == s.id && m.name == s.name && m.kind == "channel" && m.poster == s.poster
  {
    if !Truthy(url) then Response(400, Text(MissingUrl))
    else match loaded
      case Err(_) => Response(500, Text(CatalogError))
      case Ok(streams) => Response(200, MetaList(seq(|streams|, i requires 0 <= i < |streams| => ToMeta(streams[i]))))
  }

  /** `streams.find(s => s.id === channelId)`, as the position of the first match. */
  function FindFirst(streams: seq<Stream>, channelId: string): (k: Option<nat>)
    ensures k.Some? ==> k.value < |streams| && streams[k.value].id == channelId
    ensures k.Some? ==> forall j :: 0 <= j < k.value ==> streams[j].id != channelId
    ensures k.None? ==> forall j :: 0 <= j < |streams| ==> streams[j].id != channelId
  {
    if streams == [] then None
    else if streams[0].id == channelId then Some(0)
    else match FindFirst(streams[1..], channelId)
      case None => None
      case Some(k) => Some(k + 1)
  }

  /** The body of the stream handler once `parseM3U` has settled. */
  function StreamReply(url: Option<string>, channelId: Option<string>, loaded: Result<seq<Stream>, LoadFailure>): (resp: Response)
    ensures resp.status in {200, 400, 404, 500}
    ensures resp.status == 400 <==> !Truthy(url) || !Truthy(channelId)
    ensures resp.status == 500 <==> Truthy(url) && Truthy(channelId) && loaded.Err?
    ensures resp.status == 404 <==>
      Truthy(url) && Truthy(channelId) && loaded.Ok? && forall s :: s in loaded.value ==> s.id != channelId.value
    ensures resp.status != 200 ==> resp.body.Text?
    ensures resp.status == 200 ==>
      && Truthy(url) && Truthy(channelId) && loaded.Ok?
      && (exists k :: 0 <= k < |loaded.value| && loaded.value[k].id == channelId.value
            && (forall j :: 0 <= j < k ==> loaded.value[j].id != channelId.value)
            && var c := loaded.value[k];
               resp.body == LinkList([Link(c.name, c.url, "live", c.poster)]))
  {
    if !Truthy(url) || !Truthy(channelId) then Response(400, Text(MissingParameters))
    else match loaded
      case Err(_) => Response(500, Text(StreamError))
      case Ok(streams) =>
        match FindFirst(streams, channelId.value)
        case None => Response(404, Text(NotFound))
        case Some(k) =>
          var c := streams[k];
          Response(200, LinkList([Link(c.name, c.url, "live", c.poster)]))
  }

  /** The cache state after one `parseM3U(url)`: a hit changes nothing and
      fetches nothing; a miss fetches once and stores the list only when the
      load succeeded. */
  twostate predicate Loaded(cache: Cache, url: string, fetch: Fetch)
    reads cache
  {
    && cache.fetches == old(cache.fetches) + (if url in old(cache.entries) then 0 else 1)
    && cache.entries == (if url in old(cache.entries) || fetch.Failed? then old(cache.entries)
                         else old(cache.entries)[url := Project(fetch.items)])
  }

  /** `GET /catalog?url=...`: a request without `url` never reaches the cache. */
  method CatalogHandler(cache: Cache, url: Option<string>, fetch: Fetch) returns (resp: Response)
    requires cache.Valid()
    modifies cache
    ensures cache.Valid()
    ensures !Truthy(url) ==> resp.status == 400 && unchanged(cache)
    ensures Truthy(url) ==> resp == CatalogReply(url, old(cache.Lookup(url.value, fetch)))
    ensures Truthy(url) ==> Loaded(cache, url.value, fetch)
  {
    if !Truthy(url) {
      return Response(400, Text(MissingUrl));
    }
    var loaded := cache.GetOrLoad(url.value, fetch);
    resp := CatalogReply(url, loaded);
  }

  /** `GET /stream?url=...&channelId=...`: a request missing either never reaches the cache. */
  method StreamHandler(cache: Cache, url: Option<string>, channelId: Option<string>, fetch: Fetch) returns (resp: Response)
    requires cache.Valid()
    modifies cache
    ensures cache.Valid()
    ensures (!Truthy(url) || !Truthy(channelId)) ==> resp.status == 400 && unchanged(cache)
    ensures Truthy(url) && Truthy(channelId) ==> resp == StreamReply(url, channelId, old(cache.Lookup(url.value, fetch)))
    ensures Truthy(url) && Truthy(channelId) ==> Loaded(cache, url.value, fetch)
  {
    if !Truthy(url) || !Truthy(channelId) {
      return Response(400, Text(MissingParameters));
    }
    var loaded := cache.GetOrLoad(url.value, fetch);
    resp := StreamReply(url, channelId, loaded);
  }

  /** A catalog request followed by a stream request for the same playlist:
      if the catalog loaded, the stream request is a hit that fetches nothing
      and looks the channel up in the very list the catalog listed. */
  method CatalogThenStream(cache: Cache, url: string, channelId: string, first: Fetch, second: Fetch)
    returns (catalog: Response, stream: Response)
    requires cache.Valid()
    requires url != "" && channelId != ""
    modifies cache
    ensures catalog.status == 200 ==>
      && cache.fetches == old(cache.fetches) + (if url in old(cache.entries) then 0 else 1)
      && url in cache.entries
      && catalog == CatalogReply(Some(url), Ok(cache.entries[url]))
      && stream == StreamReply(Some(url), Some(channelId), Ok(cache.entries[url]))
    ensures catalog.status == 500 ==>
      && url !in old(cache.entries) && first.Failed?
      && cache.fetches == old(cache.fetches) + 2
  {
    catalog := CatalogHandler(cache, Some(url), first);
    stream := StreamHandler(cache, Some(url), Some(channelId), second);
  }

  /** Every catalog entry with a non-empty id can be played through `/stream`:
      the lookup lands on the first stream carrying that id, which is the entry
      itself unless an earlier stream shares its id. */
  lemma CatalogEntryResolves(url: Option<string>, streams: seq<Stream>, k: nat)
    requires Truthy(url)
    requires k < |streams| && streams[k].id != ""
    ensures var metas := CatalogReply(url, Ok(streams)).body.metas;
      var resp := StreamReply(url, Some(metas[k].id), Ok(streams));
      && resp.status == 200
      && (exists j :: 0 <= j <= k && streams[j].id == metas[k].id
            && (forall i :: 0 <= i < j ==> streams[i].id != metas[k].id)
            && resp.body == LinkList([Link(streams[j].name, streams[j].url, "live", streams[j].poster)]))
    ensures (forall j :: 0 <= j < k ==> streams[j].id != streams[k].id) ==>
      StreamReply(url, Some(streams[k].id), Ok(streams)).body
        == LinkList([Link(streams[k].name, streams[k].url, "live", streams[k].poster)])
  {
    var id := streams[k].id;
    var found := FindFirst(streams, id);
    assert streams[k].id == id;
    assert found.Some? && found.value <= k;
  }

  /** A successful catalog has one entry per track item of the playlist, in
      playlist order, each carrying that item's id, name and logo. */
  lemma CatalogListsTracks(url: Option<string>, items: seq<Item>)
    requires Truthy(url)
    ensures var resp := CatalogReply(url, Load(Parsed(items)));
      var pos := TrackPositions(items);
      && resp.status == 200
      && |resp.body.metas| == |pos|
      && forall i :: 0 <= i < |pos| ==>
           var m, item := resp.body.metas[i], items[pos[i]];
           && IsTrack(item)
           && m.name == item.name
           && m.kind == "channel"
           && m.poster == (if Truthy(item.tvgLogo) then item.tvgLogo.value else "")
           && m.id == Normalise(if Truthy(item.tvgId) then item.tvgId.value else item.name)
  {
    ProjectShape(items);
    TracksInOrder(items);
  }

  /** An entry whose tag and name are both empty is listed with the empty id,
      and `/stream` can never select it: the empty `channelId` is rejected as missing. */
  lemma EmptyIdIsListedButNotPlayable(url: string, uri: string)
    requires url != ""
    ensures var streams := Project([Item("track", "", uri, None, None)]);
      && CatalogReply(Some(url), Ok(streams)).body.metas == [Meta("", "", "channel", "")]
      && StreamReply(Some(url), Some(""), Ok(streams)).status == 400
  {
    var item := Item("track", "", uri, None, None);
    assert Tracks([item]) == [item];
    assert Normalise("") == "";
  }

  /** The one-channel playlist: tag "hbo", name "HBO", its stream and logo URLs. */
  lemma OneChannelScenario(url: string)
    requires url != ""
    ensures var item := Item("track", "HBO", "http://example.com/hbo.m3u8", Some("hbo"), Some("http://example.com/hbo.png"));
      var streams := Project([item]);
      && CatalogReply(Some(url), Ok(streams))
         == Response(200, MetaList([Meta("hbo", "HBO", "channel", "http://example.com/hbo.png")]))
      && StreamReply(Some(url), Some("hbo"), Ok(streams))
         == Response(200, LinkList([Link("HBO", "http://example.com/hbo.m3u8", "live", "http://example.com/hbo.png")]))
  {
    var item := Item("track", "HBO", "http://example.com/hbo.m3u8", Some("hbo"), Some("http://example.com/hbo.png"));
    assert Tracks([item]) == [item];
    NormaliseWord("hbo");
    LowerKeepsLower("hbo");
    assert ToStream(item).id == "hbo";
  }
}
