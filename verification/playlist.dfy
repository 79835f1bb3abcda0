/** The projection in `parseM3U` (index.js:40-49): the parser's items are
    filtered down to the tracks and each track becomes a stream record. */
module Playlist {
  import opened Js
  import opened ChannelId

  /** One entry of the parser's `items` list, with the fields the addon reads:
      `type`, `name`, `uri`, `tvg.id` and `tvg.logo` (the last two may be undefined). */
  datatype Item = Item(kind: string, name: string, uri: string, tvgId: Option<string>, tvgLogo: Option<string>)

  /** The stream record `{id, name, url, type, poster, epg}` kept in the cache. */
  datatype Stream = Stream(id: string, name: string, url: string, kind: string, poster: string, epg: string)

  predicate IsTrack(item: Item) {
    item.kind == "track"
  }

  /** What every stream record satisfies: it is live, and its id is the normal
      form of its EPG tag, or of its name when there is no tag. */
  predicate WellFormed(s: Stream) {
    && s.kind == "live"
    && s.id == Normalise(if s.epg != "" then s.epg else s.name)
  }

  /** The `.map` callback of index.js:42-49. */
  function ToStream(item: Item): (s: Stream)
    ensures s.name == item.name && s.url == item.uri
    ensures s.poster == (if Truthy(item.tvgLogo) then item.tvgLogo.value else "")
    ensures s.epg == (if Truthy(item.tvgId) then item.tvgId.value else "")
    ensures WellFormed(s)
    ensures NoSpace(s.id) && NoUpper(s.id)
  {
    Stream(
      id := Normalise(OrElse(item.tvgId, item.name)),
      name := item.name,
      url := item.uri,
      kind := "live",
      poster := OrElse(item.tvgLogo, ""),
      epg := OrElse(item.tvgId, ""))
  }

  /** `items.filter(item => item.type === 'track')`. */
  function Tracks(items: seq<Item>): (r: seq<Item>)
    ensures |r| <= |items|
    ensures forall x :: x in r ==> IsTrack(x)
  {
    if items == [] then []
    else (if IsTrack(items[0]) then [items[0]] else []) + Tracks(items[1..])
  }

  /** The whole chain `.filter(...).map(...)`. */
  function Project(items: seq<Item>): (streams: seq<Stream>)
    ensures |streams| == |Tracks(items)|
    ensures forall i :: 0 <= i < |streams| ==> streams[i] == ToStream(Tracks(items)[i])
  {
    var tracks := Tracks(items);
    seq(|tracks|, i requires 0 <= i < |tracks| => ToStream(tracks[i]))
  }

  /** The positions of the track items, in increasing order: a reference
      description of the filter that does not use it. */
  function TrackPositions(items: seq<Item>): (pos: seq<nat>)
    ensures forall i :: 0 <= i < |pos| ==> pos[i] < |items|
  {
    if items == [] then []
    else (if IsTrack(items[0]) then [0] else []) + Shifted(TrackPositions(items[1..]))
  }

  function Shifted(pos: seq<nat>): (r: seq<nat>)
    ensures |r| == |pos| && forall i :: 0 <= i < |pos| ==> r[i] == pos[i] + 1
  {
    seq(|pos|, i requires 0 <= i < |pos| => pos[i] + 1)
  }

  predicate Increasing(pos: seq<nat>) {
    forall i, j :: 0 <= i < j < |pos| ==> pos[i] < pos[j]
  }

  /** The filter keeps exactly the track items, each once, in their original
      order: its i-th element is the item at the i-th track position. */
  lemma TracksInOrder(items: seq<Item>)
    ensures var pos := TrackPositions(items);
      && |pos| == |Tracks(items)|
      && Increasing(pos)
      && (forall i :: 0 <= i < |pos| ==> Tracks(items)[i] == items[pos[i]])
      && (forall k :: 0 <= k < |items| ==> (k in pos <==> IsTrack(items[k])))
  {
    PositionsSelect(items);
    PositionsIncreasing(items);
    PositionsExact(items);
  }

  lemma {:induction false} PositionsSelect(items: seq<Item>)
    ensures |TrackPositions(items)| == |Tracks(items)|
    ensures forall i :: 0 <= i < |Tracks(items)| ==> Tracks(items)[i] == items[TrackPositions(items)[i]]
  {
    if items != [] {
      var tail := items[1..];
      PositionsSelect(tail);
      var t, p := Tracks(tail), TrackPositions(tail);
      var sp := Shifted(p);
      var tracks, pos := Tracks(items), TrackPositions(items);
      var k := if IsTrack(items[0]) then 1 else 0;
      assert tracks == (if IsTrack(items[0]) then [items[0]] else []) + t;
      assert pos == (if IsTrack(items[0]) then [0] else []) + sp;
      forall i | k <= i < |tracks|
        ensures tracks[i] == items[pos[i]]
      {
        assert tracks[i] == t[i - k];
        assert pos[i] == sp[i - k] == p[i - k] + 1;
        assert items[p[i - k] + 1] == tail[p[i - k]];
      }
    }
  }

  lemma {:induction false} PositionsIncreasing(items: seq<Item>)
    ensures Increasing(TrackPositions(items))
  {
    if items != [] {
      PositionsIncreasing(items[1..]);
      var sp := Shifted(TrackPositions(items[1..]));
      assert Increasing(sp);
      if IsTrack(items[0]) {
        var pos := [0] + sp;
        assert TrackPositions(items) == pos;
        forall i, j | 0 <= i < j < |pos|
          ensures pos[i] < pos[j]
        {
          if i > 0 {
            assert pos[i] == sp[i - 1] && pos[j] == sp[j - 1];
          } else {
            assert pos[j] == sp[j - 1];
          }
        }
      } else {
        assert TrackPositions(items) == sp;
      }
    }
  }

  lemma {:induction false} PositionsExact(items: seq<Item>)
    ensures forall k :: 0 <= k < |items| ==> (k in TrackPositions(items) <==> IsTrack(items[k]))
  {
    if items != [] {
      var tail := items[1..];
      PositionsExact(tail);
      var p := TrackPositions(tail);
      var sp := Shifted(p);
      var pos := TrackPositions(items);
      assert pos == (if IsTrack(items[0]) then [0] else []) + sp;
      assert 0 !in sp;
      forall k | 0 <= k < |items|
        ensures k in pos <==> IsTrack(items[k])
      {
        if k > 0 {
          assert items[k] == tail[k - 1];
          if k in sp {
            var i :| 0 <= i < |sp| && sp[i] == k;
            assert p[i] == k - 1;
          }
          if k - 1 in p {
            var i :| 0 <= i < |p| && p[i] == k - 1;
            assert sp[i] == k;
          }
        }
      }
    }
  }

  /** The filter distributes over concatenation of playlists. */
  lemma {:induction false} TracksAppend(a: seq<Item>, b: seq<Item>)
    ensures Tracks(a + b) == Tracks(a) + Tracks(b)
  {
    if a == [] {
      assert a + b == b;
    } else {
      assert (a + b)[0] == a[0];
      assert (a + b)[1..] == a[1..] + b;
      TracksAppend(a[1..], b);
    }
  }

  /** Every track item, and nothing else, is kept, as often as it occurs. */
  lemma {:induction false} TracksCount(items: seq<Item>, x: Item)
    ensures multiset(Tracks(items))[x] == if IsTrack(x) then multiset(items)[x] else 0
  {
    if items != [] {
      TracksCount(items[1..], x);
      assert items == [items[0]] + items[1..];
    }
  }

  /** The stream list has one record per track item, in order, and every record is well formed. */
  lemma ProjectShape(items: seq<Item>)
    ensures var streams := Project(items);
      && |streams| == |TrackPositions(items)|
      && (forall i :: 0 <= i < |streams| ==> streams[i] == ToStream(items[TrackPositions(items)[i]]))
      && (forall s :: s in streams ==> WellFormed(s))
  {
    TracksInOrder(items);
  }
}
