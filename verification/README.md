# M3U catalog addon — a Dafny model of its request logic

The addon turns an M3U playlist, named by a URL in the query string, into a
channel catalog and a stream lookup for a media-player client. This project
models what `index.js` does after the playlist has been fetched and parsed:

- **Track projection** (`Playlist`). The parser's item list is filtered down to
  the items of type `track`. Each track becomes a stream record
  `{id, name, url, type: 'live', poster, epg}`.
- **Channel id** (`ChannelId`). The id is `(tvg.id || name).replace(/\s+/g, '-').toLowerCase()`.
  Each whitespace run becomes one hyphen, then ASCII capitals become lower case.
  Nothing is trimmed.
- **Per-URL memoisation** (`StreamCache`). The module-level cache is a class
  `Cache` holding a map from the exact URL string to a stream list.
  `GetOrLoad` is `parseM3U`. A hit returns the stored list and fetches nothing.
  A miss fetches, stores only on success, and returns the result.
  A ghost counter `fetches` records how many fetches were started.
- **Endpoints** (`Addon`). `CatalogReply` and `StreamReply` are the handler
  bodies as functions from the query parameters and the outcome of `parseM3U`
  to a status and body. The methods `CatalogHandler` and `StreamHandler` wire them to the cache.

Fetching and parsing are one input, `Fetch`. It is either the parser's item
list or the failure thrown (`FetchError` or `ParseError`). Query parameters are
`Option<string>`, with `None` for an absent parameter. `tvg.id` and `tvg.logo`
are `Option<string>` too. This keeps JavaScript's `x || ''` exact: `undefined`
and `''` both fall back.

Files:

- `js.dfy`: `Option`, `Result`, string truthiness, the `\s` class, ASCII lower-casing.
- `channel_id.dfy`: the id normalisation.
- `playlist.dfy`: the projection.
- `stream_cache.dfy`: the cache.
- `addon.dfy`: the endpoints.

## Behaviour to note

- Nothing is trimmed. A trailing space in a tag or name becomes a trailing
  hyphen, so the tag `"HBO "` gives the id `"hbo-"`
  (`ChannelId.TrailingSpaceExample`).
- Ids need not be unique. When two streams share an id, `/catalog` lists both,
  and `/stream` returns the first, because `Array.prototype.find` stops at the
  first match (`Addon.FindFirst`, `Addon.CatalogEntryResolves`).

## Model

| member | source | states |
|---|---|---|
| ChannelId.Collapse | index.js:43 | `replace(/\s+/g, '-')` leaves no whitespace character and never lengthens the text |
| ChannelId.Lower | index.js:43 | the ASCII lower-casing that models `toLowerCase()` keeps the length and lower-cases each character on its own |
| ChannelId.Normalise | index.js:43 | an id has no whitespace and no ASCII capital letter, and, with ASCII lower-casing, is never longer than its source text |
| ChannelId.CollapseKeepsWords | index.js:43 | text without whitespace passes through the replacement unchanged |
| ChannelId.CollapseRun | index.js:43 | a non-empty whitespace run on its own becomes exactly one hyphen |
| ChannelId.CollapseAppend | index.js:43 | the replacement works piecewise: cutting the text anywhere except inside a whitespace run cuts the result in the same place |
| ChannelId.NormaliseRun | index.js:43 | each maximal whitespace run becomes exactly one `-`, and the text on either side is normalised independently |
| ChannelId.NormaliseIdempotent | index.js:43 | normalising an id again changes nothing |
| ChannelId.TrailingSpaceBecomesHyphen | index.js:43 | trailing whitespace is not trimmed: it becomes one trailing hyphen |
| ChannelId.TrailingSpaceExample | index.js:43 | `"HBO "` gives `"hbo-"`: no trimming, replacement before lower-casing |
| Playlist.ToStream | index.js:42-49 | name and url are copied, type is `live`, poster is the logo or `''`, epg is the tag or `''`; the id has no whitespace or capitals and is the normal form of the epg tag, or of the name when the tag is empty |
| Playlist.Tracks | index.js:40-41 | the filter keeps only track items and never lengthens the list |
| Playlist.Project | index.js:40-49 | one stream record per kept item, in the same order, each built from that item |
| Playlist.TracksInOrder | index.js:40-41 | the filter's i-th element is the item at the i-th track position; positions strictly increase; a position is listed exactly when its item is a track |
| Playlist.TracksAppend | index.js:40-41 | filtering a concatenation is concatenating the filtered parts |
| Playlist.TracksCount | index.js:40-41 | each track item is kept as often as it occurs, and each other item is dropped |
| Playlist.ProjectShape | index.js:40-49 | the stream list has one record per track item, in playlist order, and every record is well formed |
| StreamCache.Cache.constructor | index.js:10 | the cache starts empty, with no fetch made |
| StreamCache.Cache.GetOrLoad | index.js:33-53 | a hit returns the stored list with no fetch and no change; a miss fetches once and returns the projection or the failure; only a successful miss stores, and only under the requested URL; every stored list stays well formed |
| StreamCache.Cache.Expire | index.js:10 | expiry removes the one entry and nothing else |
| StreamCache.RepeatedRequest | index.js:34-35 | a second request for a URL that loaded successfully returns the same list and fetches nothing more; after a failure the second request fetches again |
| StreamCache.RequestAfterExpiry | index.js:34-51 | after expiry, the next request fetches exactly once and returns the fresh projection |
| Addon.CatalogReply | index.js:60-75 | 400 exactly when `url` is missing or empty; 500 exactly when loading threw; otherwise 200 with one `{id, name, type: 'channel', poster}` per stream, in order |
| Addon.FindFirst | index.js:86 | the result is a stream with the requested id and no earlier stream has that id; none is found only when no stream has it |
| Addon.StreamReply | index.js:81-92 | 400 exactly when `url` or `channelId` is missing or empty; 500 exactly when loading threw; 404 exactly when no stream has the id; otherwise one `{title, url, type: 'live', poster}` built from the first stream with that id |
| Addon.CatalogHandler | index.js:59-76 | without `url` the reply is 400 and the cache is untouched; otherwise the reply is `CatalogReply` of what the cache gives for the URL, and the cache's new entries and fetch count are those of one `parseM3U` call |
| Addon.StreamHandler | index.js:79-94 | without `url` or `channelId` the reply is 400 and the cache is untouched; otherwise the reply is `StreamReply` of what the cache gives for the URL, and the cache's new entries and fetch count are those of one `parseM3U` call |
| Addon.CatalogThenStream | index.js:34-35 | after a successful `/catalog` for a URL, a `/stream` for the same URL fetches nothing and looks the channel up in the list the catalog listed; after a failed one, it fetches again |
| Addon.CatalogEntryResolves | index.js:65-89 | every catalog entry with a non-empty id resolves through `/stream` to the first stream with that id, and to the entry itself when no earlier stream shares its id |
| Addon.CatalogListsTracks | index.js:40-70 | a loaded catalog lists exactly the playlist's track items in playlist order, with each one's name, logo and derived id |
| Addon.EmptyIdIsListedButNotPlayable | index.js:43-82 | a track with no tag and the empty string as its name is listed with the empty id, and asking `/stream` for the empty id is rejected with 400 |
| Addon.OneChannelScenario | index.js:40-89 | the one-channel playlist `hbo`/`HBO` gives the expected catalog entry and stream link |

## Left out

- The HTTP request (`axios.get`, index.js:37). It is network I/O. Its outcome is the input `Fetch`.
- The M3U parser (`m3uParser.parse`, index.js:38). It is a library whose code is not part of this model. The model starts from its item list.
- `node-cache` timing (index.js:10). The five-minute lifetime and eviction are not modelled as time. They appear only as the explicit `Expire` event. `node-cache` returns a copy of the stored value; with value types this cannot be told apart from the stored list.
- Express wiring: `app.get`, `express.static`, `app.listen`, the `PORT` lookup and the static manifest (index.js:1-30, 56, 96). index.js:3 uses `app` before its declaration on line 8. That would throw when the module loads, and it is not modelled.
- Concurrency. Interleaved requests sharing the cache, and the awaits inside `parseM3U`, are not modelled. Each request runs to completion on its own.
- `console.error` logging (index.js:73, 91).
- Unicode lower-casing. `toLowerCase` is modelled for ASCII letters only. `\s` is modelled by its ECMAScript code-point list. JavaScript strings are UTF-16 code units, while Dafny characters are Unicode scalar values.
- Non-string JavaScript values. The model does not cover an item without a `tvg` object, an item whose `name` is undefined and whose tag is missing or empty, or a truthy non-string `tvg.id`. Each of these makes `parseM3U` throw a `TypeError`. It also does not cover a track whose `name` or `uri` is undefined while its `tvg.id` is a non-empty string: nothing throws, the record carries `undefined`, and `res.json` leaves that key out of the meta or link (index.js:44-45, 66-67, 89). Nor does it cover a query parameter that Express's default query parser turns into an array (a parameter given more than once) or an object (a bracketed name such as `url[a]=b`). Each such input is outside the types of the model.
