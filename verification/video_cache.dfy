/** `VideoCacheService`: two independent in-memory maps from a resource
    id to the last payload fetched for it and the ETag that came with
    that payload. Entries are replaced whole and never expire. */
module VideoCache {
  import opened Wrappers

  /** An immutable cache entry; the Java entry's timestamp is not
      modelled. The ETag may be null. */
  datatype CacheEntry<T> = CacheEntry(data: T, etag: Option<string>)

  /** The video map (keyed by video id) and the channel map (keyed by
      channel id). */
  datatype Cache<V, C> = Cache(videos: map<string, CacheEntry<V>>, channels: map<string, CacheEntry<C>>)

  function EmptyCache<V, C>(): Cache<V, C> {
    Cache(map[], map[])
  }

  /** `getCachedVideo`: the entry, or null for an id never stored. */
  function GetCachedVideo<V, C>(c: Cache<V, C>, videoId: string): (r: Option<CacheEntry<V>>)
    ensures r.Some? <==> videoId in c.videos
    ensures r.Some? ==> r.value == c.videos[videoId]
  {
    if videoId in c.videos then Some(c.videos[videoId]) else None
  }

  /** `getCachedChannel`. */
  function GetCachedChannel<V, C>(c: Cache<V, C>, channelId: string): (r: Option<CacheEntry<C>>)
    ensures r.Some? <==> channelId in c.channels
    ensures r.Some? ==> r.value == c.channels[channelId]
  {
    if channelId in c.channels then Some(c.channels[channelId]) else None
  }

  /** `cacheVideo`: a new entry replaces any previous one for this id;
      every other video id and the whole channel map are untouched. */
  function CacheVideo<V, C>(c: Cache<V, C>, videoId: string, video: V, etag: Option<string>): (c': Cache<V, C>)
    ensures GetCachedVideo(c', videoId) == Some(CacheEntry(video, etag))
    ensures forall id :: id != videoId ==> GetCachedVideo(c', id) == GetCachedVideo(c, id)
    ensures forall id :: GetCachedChannel(c', id) == GetCachedChannel(c, id)
  {
    c.(videos := c.videos[videoId := CacheEntry(video, etag)])
  }

  /** `cacheChannelData`: the channel-side mirror of `CacheVideo`. */
  function CacheChannelData<V, C>(c: Cache<V, C>, channelId: string, channel: C, etag: Option<string>): (c': Cache<V, C>)
    ensures GetCachedChannel(c', channelId) == Some(CacheEntry(channel, etag))
    ensures forall id :: id != channelId ==> GetCachedChannel(c', id) == GetCachedChannel(c, id)
    ensures forall id :: GetCachedVideo(c', id) == GetCachedVideo(c, id)
  {
    c.(channels := c.channels[channelId := CacheEntry(channel, etag)])
  }

  /** `clearCache`: every later lookup, on either side, is absent. */
  function ClearCache<V, C>(c: Cache<V, C>): (c': Cache<V, C>)
    ensures forall id :: GetCachedVideo(c', id) == None && GetCachedChannel(c', id) == None
  {
    EmptyCache()
  }

  /** The If-None-Match header a request carries: the cached entry's
      ETag when there is an entry, otherwise none. */
  function IfNoneMatch<T>(cached: Option<CacheEntry<T>>): (h: Option<string>)
    ensures cached.Some? ==> h == cached.value.etag
    ensures cached.None? ==> h.None?
  {
    if cached.Some? then cached.value.etag else None
  }

  /** A history of calls to the cache service, for stating what a
      lookup returns after any sequence of writes. */
  datatype CacheOp<V, C> =
    | PutVideo(videoId: string, video: V, etag: Option<string>)
    | PutChannel(channelId: string, channel: C, etag: Option<string>)
    | Clear

  function Apply<V, C>(c: Cache<V, C>, op: CacheOp<V, C>): Cache<V, C> {
    match op
    case PutVideo(id, v, e) => CacheVideo(c, id, v, e)
    case PutChannel(id, ch, e) => CacheChannelData(c, id, ch, e)
    case Clear => ClearCache(c)
  }

  function Replay<V, C>(c: Cache<V, C>, ops: seq<CacheOp<V, C>>): Cache<V, C>
    decreases |ops|
  {
    if |ops| == 0 then c else Replay(Apply(c, ops[0]), ops[1..])
  }

  /** The entry a history leaves for `videoId`, read backwards: the most
      recent `PutVideo` for that id, unless a `Clear` came after it. */
  function LastVideoWrite<V, C>(ops: seq<CacheOp<V, C>>, videoId: string): Option<CacheEntry<V>>
    decreases |ops|
  {
    if |ops| == 0 then None
    else
      match ops[|ops| - 1]
      case PutVideo(id, v, e) =>
        if id == videoId then Some(CacheEntry(v, e)) else LastVideoWrite(ops[..|ops| - 1], videoId)
      case PutChannel(_, _, _) => LastVideoWrite(ops[..|ops| - 1], videoId)
      case Clear => None
  }

  /** Last store wins: starting from an empty cache, a video lookup
      returns the latest write for that id since the last clear, and is
      absent for an id never stored; channel writes never affect it. */
  lemma {:induction false} ReplayVideoLookup<V, C>(ops: seq<CacheOp<V, C>>, videoId: string)
    ensures GetCachedVideo(Replay(EmptyCache(), ops), videoId) == LastVideoWrite(ops, videoId)
    decreases |ops|
  {
    if |ops| > 0 {
      var init := ops[..|ops| - 1];
      ReplaySplit(EmptyCache(), init, ops[|ops| - 1]);
      assert ops == init + [ops[|ops| - 1]];
      ReplayVideoLookup(init, videoId);
    }
  }

  lemma {:induction false} ReplaySplit<V, C>(c: Cache<V, C>, ops: seq<CacheOp<V, C>>, op: CacheOp<V, C>)
    ensures Replay(c, ops + [op]) == Apply(Replay(c, ops), op)
    decreases |ops|
  {
    if |ops| > 0 {
      assert (ops + [op])[1..] == ops[1..] + [op];
      ReplaySplit(Apply(c, ops[0]), ops[1..], op);
    }
  }
}
