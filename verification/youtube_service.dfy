/** `YouTubeService.fetchVideoData` and `fetchChannelData`: ETag-aware
    conditional fetches (If-None-Match, answered by 304 Not Modified as
    in sections 13.1.2 and 15.4.5 of RFC 9110) over the two-map cache,
    followed by persisting and routing a freshly assembled record.

    The Google API is not called: each fetch receives the answers the
    three list calls would give (`Answers`), and the calls the service
    makes are recorded in the state, with the If-None-Match value each
    one carries. */
module YouTubeFetch {
  import opened Wrappers
  import opened Videos
  import opened VideoIdExtraction
  import opened VideoCache
  import opened VideoRepository
  import opened KafkaProducer

  /** The fields of a `videos.list` item the service reads (snippet and
      statistics). */
  datatype ApiVideo = ApiVideo(
    channelId: string,
    channelTitle: Option<string>,
    title: Option<string>,
    viewCount: Option<nat>,
    likeCount: Option<nat>,
    commentCount: Option<nat>)

  /** The statistics of a `channels.list` item. */
  datatype ApiChannel = ApiChannel(subscriberCount: Option<nat>, videoCount: Option<nat>)

  /** What one list call yields: items with the response ETag, or an
      HTTP status carried by a `GoogleJsonResponseException`. */
  datatype ListAnswer<T> = Listed(items: seq<T>, etag: Option<string>) | HttpError(code: int)

  /** The answers to the video, channel and comment-thread calls of one
      fetch; a comment thread is represented by its top-level comment's
      display text. */
  datatype Answers = Answers(
    video: ListAnswer<ApiVideo>,
    channel: ListAnswer<ApiChannel>,
    comments: ListAnswer<string>)

  datatype ApiCall =
    | VideoCall(videoId: string, ifNoneMatch: Option<string>)
    | ChannelCall(channelId: string, ifNoneMatch: Option<string>)
    | CommentCall(videoId: string)

  /** What `fetchVideoData` throws. The first three are
      IllegalArgumentExceptions; `FetchFailed` is the RuntimeException
      wrapping an IOException (any HTTP error the service does not
      absorb). */
  datatype Fault =
    | InvalidUrl(url: string)
    | VideoNotFound(videoId: string)
    | ChannelNotFound(channelId: string)
    | FetchFailed(code: int)
  {
    predicate IsIllegalArgument() {
      !FetchFailed?
    }

    function Message(): string {
      match this
      case InvalidUrl(url) => "Invalid YouTube URL: " + url
      case VideoNotFound(id) => "Video not found: " + id
      case ChannelNotFound(id) => "Channel not found: " + id
      case FetchFailed(_) => "Failed to fetch YouTube data"
    }
  }

  /** Everything the producer side changes: the cache, the repository,
      the Kafka outbox and the log of API calls. */
  datatype ProducerState = ProducerState(
    cache: Cache<Video, ApiChannel>,
    repo: Repository,
    outbox: seq<Message>,
    calls: seq<ApiCall>)

  /** A call's effect on the state and its return value or exception. */
  datatype Outcome<T> = Outcome(state: ProducerState, result: Result<T, Fault>)

  const NotModified := 304
  const Forbidden := 403

  /** `fetchChannelData`. A listed channel is cached with the response's
      ETag and returned; a 304 with a cached entry returns the cached
      channel; an empty list is "Channel not found"; any other status is
      rethrown. Only the channel cache and the call log can change. */
  function FetchChannelData(s: ProducerState, channelId: string, answer: ListAnswer<ApiChannel>): (r: Outcome<ApiChannel>)
    ensures r.state.repo == s.repo && r.state.outbox == s.outbox
    ensures r.state.cache.videos == s.cache.videos
    ensures r.state.calls == s.calls + [ChannelCall(channelId, IfNoneMatch(GetCachedChannel(s.cache, channelId)))]
    ensures answer.Listed? && |answer.items| > 0 ==>
      r.result == Success(answer.items[0])
      && GetCachedChannel(r.state.cache, channelId) == Some(CacheEntry(answer.items[0], answer.etag))
    ensures !(answer.Listed? && |answer.items| > 0) ==> r.state.cache == s.cache
    ensures answer.Listed? && |answer.items| == 0 ==> r.result == Failure(ChannelNotFound(channelId))
    ensures answer.HttpError? ==>
      if answer.code == NotModified && channelId in s.cache.channels
      then r.result == Success(s.cache.channels[channelId].data)
      else r.result == Failure(FetchFailed(answer.code))
  {
    var cached := GetCachedChannel(s.cache, channelId);
    var s1 := s.(calls := s.calls + [ChannelCall(channelId, IfNoneMatch(cached))]);
    match answer
    case Listed(items, etag) =>
      if |items| == 0 then Outcome(s1, Failure(ChannelNotFound(channelId)))
      else Outcome(s1.(cache := CacheChannelData(s1.cache, channelId, items[0], etag)), Success(items[0]))
    case HttpError(code) =>
      if code == NotModified && cached.Some? then Outcome(s1, Success(cached.value.data))
      else Outcome(s1, Failure(FetchFailed(code)))
  }

  /** The conditional-request round trip on the channel side: after a
      listed channel answer, a second channel call sends that answer's
      ETag, and a 304 to it yields the same channel and changes nothing
      but the call log. */
  lemma ChannelFetchThenNotModified(s: ProducerState, channelId: string, first: ListAnswer<ApiChannel>)
    requires first.Listed? && |first.items| > 0
    ensures var r1 := FetchChannelData(s, channelId, first);
      var r2 := FetchChannelData(r1.state, channelId, HttpError(NotModified));
      && r2.result == r1.result
      && r2.state == r1.state.(calls := r1.state.calls + [ChannelCall(channelId, first.etag)])
  {
    var r1 := FetchChannelData(s, channelId, first);
    assert GetCachedChannel(r1.state.cache, channelId) == Some(CacheEntry(first.items[0], first.etag));
  }

  /** The record `fetchVideoData` assembles from fresh answers; every
      null statistic becomes 0. */
  function AssembleVideo(videoId: string, url: string, item: ApiVideo, channel: ApiChannel,
                         commentCount: Option<nat>, commentText: string): (v: Video)
    ensures v.videoId == Some(videoId) && v.videoUrl == Some(url) && v.commentText == Some(commentText)
    ensures v.title == item.title && v.channelId == Some(item.channelId) && v.channelName == item.channelTitle
    ensures v.viewCount == Some(OrZero(item.viewCount)) && v.likeCount == Some(OrZero(item.likeCount))
    ensures v.commentCount == Some(OrZero(commentCount))
    ensures v.subscriberCount == Some(OrZero(channel.subscriberCount))
    ensures v.videoCount == Some(OrZero(channel.videoCount))
    ensures forall m :: Count(v, m).Some?
  {
    Video(
      videoId := Some(videoId),
      title := item.title,
      channelId := Some(item.channelId),
      channelName := item.channelTitle,
      viewCount := Some(OrZero(item.viewCount)),
      likeCount := Some(OrZero(item.likeCount)),
      commentCount := Some(OrZero(commentCount)),
      commentText := Some(commentText),
      videoUrl := Some(url),
      subscriberCount := Some(OrZero(channel.subscriberCount)),
      videoCount := Some(OrZero(channel.videoCount)))
  }

  /** The comment-thread step: the newest top-level comment's text, "" if
      there is none; a 403 (comments disabled) also gives "" and zeroes
      the comment count; any other status is fatal. */
  function CommentOutcome(item: ApiVideo, answer: ListAnswer<string>): (r: Result<(Option<nat>, string), Fault>)
    ensures answer.Listed? ==> r == Success((item.commentCount, if |answer.items| == 0 then "" else answer.items[0]))
    ensures answer.HttpError? && answer.code == Forbidden ==> r == Success((Some(0), ""))
    ensures answer.HttpError? && answer.code != Forbidden ==> r == Failure(FetchFailed(answer.code))
  {
    match answer
    case Listed(texts, _) => Success((item.commentCount, if |texts| == 0 then "" else texts[0]))
    case HttpError(code) =>
      if code == Forbidden then Success((Some(0), "")) else Failure(FetchFailed(code))
  }

  /** What a freshly fetched record must hold, field by field, given the
      video item, the channel the channel call produced and the answer to
      the comment-thread call: the snippet and statistics with nulls as 0,
      the newest comment or "" (with a zero comment count when comments
      are disabled), and the channel's two counters with nulls as 0. */
  predicate FreshRecord(v: Video, id: string, url: string, item: ApiVideo, channel: ApiChannel,
                        comments: ListAnswer<string>) {
    && v.videoId == Some(id)
    && v.videoUrl == Some(url)
    && v.title == item.title
    && v.channelId == Some(item.channelId)
    && v.channelName == item.channelTitle
    && v.viewCount == Some(OrZero(item.viewCount))
    && v.likeCount == Some(OrZero(item.likeCount))
    && v.commentCount == Some(if comments.Listed? then OrZero(item.commentCount) else 0)
    && v.commentText == Some(if comments.Listed? && |comments.items| > 0 then comments.items[0] else "")
    && v.subscriberCount == Some(OrZero(channel.subscriberCount))
    && v.videoCount == Some(OrZero(channel.videoCount))
  }

  /** The channel step yields a channel: a non-empty listing, or a 304
      while the channel is cached. */
  predicate ChannelAvailable(c: Cache<Video, ApiChannel>, channelId: string, answer: ListAnswer<ApiChannel>) {
    || (answer.Listed? && |answer.items| > 0)
    || (answer.HttpError? && answer.code == NotModified && channelId in c.channels)
  }

  /** The comment-thread step lets the fetch go on: a listing (possibly
      empty) or a 403, comments being disabled. */
  predicate CommentsUsable(answer: ListAnswer<string>) {
    answer.Listed? || answer.code == Forbidden
  }

  /** When a fetch whose video call listed `item` succeeds, and what it
      throws otherwise: "Channel not found" for an empty channel listing,
      the channel call's status when that call fails, and the comment
      call's status for any comment error other than 403. */
  predicate FreshVerdict(c: Cache<Video, ApiChannel>, item: ApiVideo, a: Answers, result: Result<Video, Fault>) {
    && (result.Success? <==> ChannelAvailable(c, item.channelId, a.channel) && CommentsUsable(a.comments))
    && (a.channel.Listed? && |a.channel.items| == 0 ==> result == Failure(ChannelNotFound(item.channelId)))
    && (a.channel.HttpError? && !ChannelAvailable(c, item.channelId, a.channel) ==>
          result == Failure(FetchFailed(a.channel.code)))
    && (ChannelAvailable(c, item.channelId, a.channel) && !CommentsUsable(a.comments) ==>
          result == Failure(FetchFailed(a.comments.code)))
  }

  /** The channel cache after a fetch whose video call listed an item of
      channel `channelId`, whatever the comment call answered: a
      non-empty channel listing is cached with its response ETag, no
      other channel entry changes, and any other channel answer leaves
      the channel cache as it was. */
  ghost predicate ChannelCacheAfter(before: Cache<Video, ApiChannel>, after: Cache<Video, ApiChannel>,
                              channelId: string, answer: ListAnswer<ApiChannel>) {
    && (answer.Listed? && |answer.items| > 0 ==>
          GetCachedChannel(after, channelId) == Some(CacheEntry(answer.items[0], answer.etag)))
    && (forall k :: k != channelId ==> GetCachedChannel(after, k) == GetCachedChannel(before, k))
    && (!(answer.Listed? && |answer.items| > 0) ==> after.channels == before.channels)
  }

  /** The calls that follow a listing video call: the channel call with
      the cached channel's ETag, then the comment-thread call only when
      the channel step produced a channel. */
  function FreshCalls(c: Cache<Video, ApiChannel>, id: string, channelId: string,
                      answer: ListAnswer<ApiChannel>): (calls: seq<ApiCall>)
    ensures |calls| == 1 || |calls| == 2
    ensures calls[0] == ChannelCall(channelId, IfNoneMatch(GetCachedChannel(c, channelId)))
    ensures |calls| == 2 <==> ChannelAvailable(c, channelId, answer)
    ensures |calls| == 2 ==> calls[1] == CommentCall(id)
  {
    [ChannelCall(channelId, IfNoneMatch(GetCachedChannel(c, channelId)))]
      + (if ChannelAvailable(c, channelId, answer) then [CommentCall(id)] else [])
  }

  /** The three writes of a fresh fetch: cache the record with the
      response's ETag, save it, and hand it to the router. */
  function Publish(s: ProducerState, id: string, v: Video, etag: Option<string>): (r: ProducerState)
    requires v.videoId == Some(id)
    ensures r.calls == s.calls && r.cache.channels == s.cache.channels
    ensures GetCachedVideo(r.cache, id) == Some(CacheEntry(v, etag))
    ensures forall k :: k != id ==> GetCachedVideo(r.cache, k) == GetCachedVideo(s.cache, k)
    ensures r.repo == Save(s.repo, v)
    ensures r.outbox == s.outbox + SendVideoData(Some(v))
  {
    ProducerState(CacheVideo(s.cache, id, v, etag), Save(s.repo, v), s.outbox + SendVideoData(Some(v)), s.calls)
  }

  /** The part of `fetchVideoData` after the video call listed `item`:
      the channel call, the comment-thread call, then cache, save and
      route. */
  function FetchFresh(s: ProducerState, id: string, url: string, item: ApiVideo, etag: Option<string>, a: Answers): (r: Outcome<Video>)
    ensures r.result.Failure? ==>
      r.state.repo == s.repo && r.state.outbox == s.outbox && r.state.cache.videos == s.cache.videos
    // the channel call, then the comment call exactly when a channel was obtained
    ensures r.state.calls == s.calls + FreshCalls(s.cache, id, item.channelId, a.channel)
    // a listed channel is cached even when the comment call then fails the fetch
    ensures ChannelCacheAfter(s.cache, r.state.cache, item.channelId, a.channel)
    ensures r.result.Success? ==>
      var v := r.result.value;
      && v.videoId == Some(id) && v.videoUrl == Some(url) && v.commentText.Some?
      && (forall m :: Count(v, m).Some?)
      && GetCachedVideo(r.state.cache, id) == Some(CacheEntry(v, etag))
      && r.state.repo == Save(s.repo, v)
      && r.state.outbox == s.outbox + SendVideoData(Some(v))
    ensures r.result.Success? && a.comments.HttpError? ==>
      r.result.value.commentCount == Some(0) && r.result.value.commentText == Some("")
    ensures forall k :: k != id ==> GetCachedVideo(r.state.cache, k) == GetCachedVideo(s.cache, k)
    // success exactly when a channel is available and the comments are listed or disabled
    ensures FreshVerdict(s.cache, item, a, r.result)
    // the record's content: the listed channel, or the cached one after a 304
    ensures r.result.Success? && a.channel.Listed? ==>
      |a.channel.items| > 0 && FreshRecord(r.result.value, id, url, item, a.channel.items[0], a.comments)
    ensures r.result.Success? && a.channel.HttpError? ==>
      && item.channelId in s.cache.channels
      && FreshRecord(r.result.value, id, url, item, s.cache.channels[item.channelId].data, a.comments)
  {
    var ch := FetchChannelData(s, item.channelId, a.channel);
    if ch.result.Failure? then Outcome(ch.state, Failure(ch.result.error))
    else
      var s2 := ch.state.(calls := ch.state.calls + [CommentCall(id)]);
      var c := CommentOutcome(item, a.comments);
      if c.Failure? then Outcome(s2, Failure(c.error))
      else
        var v := AssembleVideo(id, url, item, ch.result.value, c.value.0, c.value.1);
        Outcome(Publish(s2, id, v, etag), Success(v))
  }

  /** `fetchVideoData` once the URL has given up the id `id`. */
  function FetchById(s: ProducerState, id: string, url: string, a: Answers): (r: Outcome<Video>)
    ensures r.result.Failure? ==>
      r.state.repo == s.repo && r.state.outbox == s.outbox && r.state.cache.videos == s.cache.videos
    ensures var cached := GetCachedVideo(s.cache, id);
      && |r.state.calls| > |s.calls|
      && r.state.calls[..|s.calls| + 1] == s.calls + [VideoCall(id, IfNoneMatch(cached))]
      && (a.video.HttpError? && a.video.code == NotModified && cached.Some? ==>
            r == Outcome(s.(calls := s.calls + [VideoCall(id, IfNoneMatch(cached))]), Success(cached.value.data)))
      && (a.video.HttpError? && !(a.video.code == NotModified && cached.Some?) ==>
            r.result == Failure(FetchFailed(a.video.code)) && r.state.cache == s.cache)
      && (a.video.Listed? && |a.video.items| == 0 ==>
            r.result == Failure(VideoNotFound(id)) && r.state.cache == s.cache)
    ensures r.result.Success? ==>
      GetCachedVideo(r.state.cache, id).Some? && GetCachedVideo(r.state.cache, id).value.data == r.result.value
    ensures r.result.Success? && a.video.Listed? ==>
      var v := r.result.value;
      && v.videoId == Some(id) && v.videoUrl == Some(url) && v.commentText.Some?
      && GetCachedVideo(r.state.cache, id) == Some(CacheEntry(v, a.video.etag))
      && r.state.repo == Save(s.repo, v)
      && r.state.outbox == s.outbox + SendVideoData(Some(v))
    // no other video's cache entry changes
    ensures forall k :: k != id ==> GetCachedVideo(r.state.cache, k) == GetCachedVideo(s.cache, k)
    // a fresh record is built from the first listed item, its channel and its comments
    // a non-empty listing is followed by the channel and comment steps
    ensures a.video.Listed? && |a.video.items| > 0 ==> FreshVerdict(s.cache, a.video.items[0], a, r.result)
    ensures a.video.Listed? && |a.video.items| > 0 ==>
      && r.state.calls == s.calls + [VideoCall(id, IfNoneMatch(GetCachedVideo(s.cache, id)))]
                          + FreshCalls(s.cache, id, a.video.items[0].channelId, a.channel)
      && ChannelCacheAfter(s.cache, r.state.cache, a.video.items[0].channelId, a.channel)
    // otherwise the video call is the only one
    ensures !(a.video.Listed? && |a.video.items| > 0) ==>
      r.state.calls == s.calls + [VideoCall(id, IfNoneMatch(GetCachedVideo(s.cache, id)))]
    ensures r.result.Success? && a.video.Listed? ==>
      && |a.video.items| > 0
      && (a.channel.Listed? ==>
            |a.channel.items| > 0
            && FreshRecord(r.result.value, id, url, a.video.items[0], a.channel.items[0], a.comments))
      && (a.channel.HttpError? ==>
            && a.video.items[0].channelId in s.cache.channels
            && FreshRecord(r.result.value, id, url, a.video.items[0],
                           s.cache.channels[a.video.items[0].channelId].data, a.comments))
  {
    var cached := GetCachedVideo(s.cache, id);
    var s1 := s.(calls := s.calls + [VideoCall(id, IfNoneMatch(cached))]);
    match a.video
    case HttpError(code) =>
      if code == NotModified && cached.Some? then Outcome(s1, Success(cached.value.data))
      else Outcome(s1, Failure(FetchFailed(code)))
    case Listed(items, etag) =>
      if |items| == 0 then Outcome(s1, Failure(VideoNotFound(id)))
      else
        var r := FetchFresh(s1, id, url, items[0], etag, a);
        assert r.state.calls[..|s.calls| + 1] == r.state.calls[..|s1.calls|][..|s.calls| + 1];
        r
  }

  /** `fetchVideoData(url)`. */
  function FetchVideoData(s: ProducerState, url: string, a: Answers): (r: Outcome<Video>)
    // an unparseable URL is rejected before any call
    ensures ExtractVideoId(url).None? ==> r == Outcome(s, Failure(InvalidUrl(url)))
    // every failure leaves the video cache, repository and outbox alone
    ensures r.result.Failure? ==>
      r.state.repo == s.repo && r.state.outbox == s.outbox && r.state.cache.videos == s.cache.videos
    ensures ExtractVideoId(url).Some? ==>
      var id := ExtractVideoId(url).value;
      var cached := GetCachedVideo(s.cache, id);
      // the video call goes first and carries the cached ETag
      && |r.state.calls| > |s.calls|
      && r.state.calls[..|s.calls| + 1] == s.calls + [VideoCall(id, IfNoneMatch(cached))]
      // 304 with an entry: the cached record, verbatim, and nothing else happens
      && (a.video.HttpError? && a.video.code == NotModified && cached.Some? ==>
            r == Outcome(s.(calls := s.calls + [VideoCall(id, IfNoneMatch(cached))]), Success(cached.value.data)))
      // any other status, including 304 without an entry, is a wrapped IOException
      && (a.video.HttpError? && !(a.video.code == NotModified && cached.Some?) ==>
            r.result == Failure(FetchFailed(a.video.code)) && r.state.cache == s.cache)
      && (a.video.Listed? && |a.video.items| == 0 ==>
            r.result == Failure(VideoNotFound(id)) && r.state.cache == s.cache)
      // a successful fetch returns exactly the record the cache now holds for the id
      && (r.result.Success? ==>
            GetCachedVideo(r.state.cache, id).Some? && GetCachedVideo(r.state.cache, id).value.data == r.result.value)
      // a fresh success caches with the new ETag, saves, and routes exactly once
      && (r.result.Success? && a.video.Listed? ==>
            var v := r.result.value;
            && v.videoId == Some(id) && v.videoUrl == Some(url) && v.commentText.Some?
            && GetCachedVideo(r.state.cache, id) == Some(CacheEntry(v, a.video.etag))
            && r.state.repo == Save(s.repo, v)
            && r.state.outbox == s.outbox + SendVideoData(Some(v)))
      // no other video's cache entry changes
      && (forall k :: k != id ==> GetCachedVideo(r.state.cache, k) == GetCachedVideo(s.cache, k))
      // a non-empty listing is followed by the channel and comment steps
      && (a.video.Listed? && |a.video.items| > 0 ==> FreshVerdict(s.cache, a.video.items[0], a, r.result))
      && (a.video.Listed? && |a.video.items| > 0 ==>
            && r.state.calls == s.calls + [VideoCall(id, IfNoneMatch(cached))]
                                + FreshCalls(s.cache, id, a.video.items[0].channelId, a.channel)
            && ChannelCacheAfter(s.cache, r.state.cache, a.video.items[0].channelId, a.channel))
      // otherwise the video call is the only one
      && (!(a.video.Listed? && |a.video.items| > 0) ==> r.state.calls == s.calls + [VideoCall(id, IfNoneMatch(cached))])
      // a fresh record is built from the first listed item, its channel and its comments
      && (r.result.Success? && a.video.Listed? ==>
            && |a.video.items| > 0
            && (a.channel.Listed? ==>
                  |a.channel.items| > 0
                  && FreshRecord(r.result.value, id, url, a.video.items[0], a.channel.items[0], a.comments))
            && (a.channel.HttpError? ==>
                  && a.video.items[0].channelId in s.cache.channels
                  && FreshRecord(r.result.value, id, url, a.video.items[0],
                                 s.cache.channels[a.video.items[0].channelId].data, a.comments)))
  {
    match ExtractVideoId(url)
    case None => Outcome(s, Failure(InvalidUrl(url)))
    case Some(id) => FetchById(s, id, url, a)
  }

  /** A failed fetch can still change the channel cache: when the video
      and its channel are listed and the comment call then fails with a
      status other than 403, the fetch throws that status, yet the channel
      stays cached with the listing's ETag; the video cache, repository
      and outbox are untouched. */
  lemma CommentFailureKeepsChannel(s: ProducerState, url: string, a: Answers)
    requires ExtractVideoId(url).Some?
    requires a.video.Listed? && |a.video.items| > 0
    requires a.channel.Listed? && |a.channel.items| > 0
    requires a.comments.HttpError? && a.comments.code != Forbidden
    ensures var r := FetchVideoData(s, url, a);
      && r.result == Failure(FetchFailed(a.comments.code))
      && GetCachedChannel(r.state.cache, a.video.items[0].channelId)
           == Some(CacheEntry(a.channel.items[0], a.channel.etag))
      && r.state.cache.videos == s.cache.videos && r.state.repo == s.repo && r.state.outbox == s.outbox
  {
  }

  /** What every cached video record looks like: stored under its own id,
      with a (possibly empty) comment text and every count present. */
  predicate CacheWellFormed(c: Cache<Video, ApiChannel>) {
    forall id :: id in c.videos ==>
      && c.videos[id].data.videoId == Some(id)
      && c.videos[id].data.commentText.Some?
      && (forall m :: Count(c.videos[id].data, m).Some?)
  }

  /** The producer's invariant: a well-formed cache and a well-keyed
      repository. */
  predicate ProducerInvariant(s: ProducerState) {
    CacheWellFormed(s.cache) && WellKeyed(s.repo)
  }

  /** Fetching keeps the invariant, whatever the answers, and a
      successful fetch returns a record of the cached shape. */
  lemma FetchPreservesInvariant(s: ProducerState, url: string, a: Answers)
    requires ProducerInvariant(s)
    ensures ProducerInvariant(FetchVideoData(s, url, a).state)
    ensures var r := FetchVideoData(s, url, a);
      r.result.Success? ==>
        && r.result.value.videoId == ExtractVideoId(url)
        && r.result.value.commentText.Some?
        && (forall m :: Count(r.result.value, m).Some?)
  {
    if ExtractVideoId(url).Some? {
      var id := ExtractVideoId(url).value;
      assert FetchVideoData(s, url, a) == FetchById(s, id, url, a);
      ByIdPreservesInvariant(s, id, url, a);
    }
  }

  lemma ByIdPreservesInvariant(s: ProducerState, id: string, url: string, a: Answers)
    requires ProducerInvariant(s)
    ensures ProducerInvariant(FetchById(s, id, url, a).state)
    ensures var r := FetchById(s, id, url, a);
      r.result.Success? ==>
        && r.result.value.videoId == Some(id)
        && r.result.value.commentText.Some?
        && (forall m :: Count(r.result.value, m).Some?)
  {
    var r := FetchById(s, id, url, a);
    if r.result.Failure? {
      assert r.state.cache.videos == s.cache.videos && r.state.repo == s.repo;
    } else if !a.video.Listed? {
      assert r.state == s.(calls := r.state.calls);
    } else {
      var items := a.video.items;
      var s1 := s.(calls := s.calls + [VideoCall(id, IfNoneMatch(GetCachedVideo(s.cache, id)))]);
      assert r == FetchFresh(s1, id, url, items[0], a.video.etag, a);
      FreshPreservesInvariant(s1, id, url, items[0], a.video.etag, a);
    }
  }

  lemma FreshPreservesInvariant(s: ProducerState, id: string, url: string, item: ApiVideo, etag: Option<string>, a: Answers)
    requires ProducerInvariant(s)
    ensures ProducerInvariant(FetchFresh(s, id, url, item, etag, a).state)
  {
    var r := FetchFresh(s, id, url, item, etag, a);
    var c := r.state.cache;
    forall k | k in c.videos
      ensures c.videos[k].data.videoId == Some(k) && c.videos[k].data.commentText.Some?
      ensures forall m :: Count(c.videos[k].data, m).Some?
    {
      assert GetCachedVideo(c, k).Some?;
      if k != id {
        assert GetCachedVideo(c, k) == GetCachedVideo(s.cache, k);
      }
    }
  }

  /** The conditional-fetch round trip: after a fresh fetch of a URL, a
      second fetch of the same URL sends the ETag the first response
      carried, and when the API answers 304 it returns the same record
      and changes nothing but the call log. */
  lemma FetchThenNotModified(s: ProducerState, url: string, a: Answers, b: Answers)
    requires FetchVideoData(s, url, a).result.Success? && a.video.Listed?
    requires b.video == HttpError(NotModified)
    ensures var first := FetchVideoData(s, url, a);
      var second := FetchVideoData(first.state, url, b);
      && second.result == first.result
      && second.state == first.state.(calls := first.state.calls + [VideoCall(ExtractVideoId(url).value, a.video.etag)])
  {
    var first := FetchVideoData(s, url, a);
    assert ExtractVideoId(url).Some?;
    var id := ExtractVideoId(url).value;
    assert GetCachedVideo(first.state.cache, id) == Some(CacheEntry(first.result.value, a.video.etag));
  }

  /** A fetch never removes a repository row and only appends routed
      video records to the outbox. */
  lemma FetchOnlyAppends(s: ProducerState, url: string, a: Answers)
    ensures var r := FetchVideoData(s, url, a);
      && r.state.repo.Keys >= s.repo.Keys
      && (r.state.outbox == s.outbox
          || (r.result.Success? && r.state.outbox == s.outbox + SendVideoData(Some(r.result.value))))
  {
  }
}
