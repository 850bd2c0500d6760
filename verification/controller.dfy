/** `YoutubeController`: the `/search` endpoint that turns a query into a
    URL and maps the fetch's exceptions to HTTP statuses, and the
    `/videos/{videoId}` delete endpoint. */
module Controller {
  import opened Wrappers
  import opened JavaText
  import opened Videos
  import opened VideoIdExtraction
  import opened VideoRepository
  import opened YouTubeFetch

  const WatchPrefix := "https://www.youtube.com/watch?v="

  /** The controller's test for "the query is already a URL". */
  predicate LooksLikeUrl(query: string) {
    Contains(query, "youtube.com/") || Contains(query, "youtu.be/")
  }

  /** The URL handed to `fetchVideoData`: a URL-looking query verbatim,
      anything else taken as a bare video id. */
  function NormalizeQuery(query: string): (url: string)
    ensures LooksLikeUrl(query) ==> url == query
    ensures !LooksLikeUrl(query) ==> url == WatchPrefix + query && LooksLikeUrl(url)
  {
    if LooksLikeUrl(query) then query
    else
      WatchLinkLooksLikeUrl(query);
      WatchPrefix + query
  }

  /** Every watch link passes the controller's URL test. */
  lemma WatchLinkLooksLikeUrl(id: string)
    ensures LooksLikeUrl(WatchPrefix + id)
  {
    var u := WatchPrefix + id;
    assert u[12..][..12] == WatchPrefix[12..24];
    assert WatchPrefix[12..24] == "youtube.com/";
    assert "youtube.com/" <= u[12..];
  }

  /** The bare-id round trip: a query that is not a URL and holds none of
      `#&?` or a newline is exactly the id the fetch extracts. */
  lemma BareIdRoundTrip(query: string)
    requires !LooksLikeUrl(query)
    requires forall k :: 0 <= k < |query| ==> !IsStop(query[k])
    ensures ExtractVideoId(NormalizeQuery(query)) == Some(query)
  {
    assert WatchPrefix + query + "" == WatchPrefix + query;
    ExtractWatchLink(query, "");
  }

  /** A response body: the video as JSON, a text, or nothing. */
  datatype Body = VideoBody(video: Video) | TextBody(text: string) | NoBody

  datatype Response = Response(status: int, body: Body)

  /** A request's effect on the producer and the response it gets. */
  datatype Served = Served(state: ProducerState, response: Response)

  /** `searchVideo(query)`. */
  function SearchVideo(s: ProducerState, query: string, a: Answers): (r: Served)
    ensures var f := FetchVideoData(s, NormalizeQuery(query), a);
      && r.state == f.state
      && (r.response.status == 200 <==> f.result.Success?)
      && (f.result.Success? ==> r.response.body == VideoBody(f.result.value))
      && (f.result.Failure? && f.result.error.IsIllegalArgument() ==>
            r.response == Response(400, TextBody("Invalid YouTube URL or video ID: " + f.result.error.Message())))
      && (f.result.Failure? && !f.result.error.IsIllegalArgument() ==>
            r.response == Response(500, TextBody("Error processing video request: " + f.result.error.Message())))
  {
    var f := FetchVideoData(s, NormalizeQuery(query), a);
    match f.result
    case Success(v) => Served(f.state, Response(200, VideoBody(v)))
    case Failure(e) =>
      if e.IsIllegalArgument() then Served(f.state, Response(400, TextBody("Invalid YouTube URL or video ID: " + e.Message())))
      else Served(f.state, Response(500, TextBody("Error processing video request: " + e.Message())))
  }

  /** Searching by a bare id and by its watch link are the same request. */
  lemma SearchByIdIsSearchByWatchLink(s: ProducerState, id: string, a: Answers)
    requires !LooksLikeUrl(id)
    ensures SearchVideo(s, id, a) == SearchVideo(s, WatchPrefix + id, a)
  {
    WatchLinkLooksLikeUrl(id);
  }

  /** A search that answers 400 is a rejected URL or a missing video or
      channel, and it changed neither the repository nor the outbox; a
      500 is a wrapped API failure. */
  lemma SearchStatusMeaning(s: ProducerState, query: string, a: Answers)
    ensures var r := SearchVideo(s, query, a);
      && r.response.status in {200, 400, 500}
      && (r.response.status != 200 ==> r.state.repo == s.repo && r.state.outbox == s.outbox)
      && (r.response.status == 400 <==> var f := FetchVideoData(s, NormalizeQuery(query), a);
            f.result.Failure? && !f.result.error.FetchFailed?)
      && (r.response.status == 500 <==> var f := FetchVideoData(s, NormalizeQuery(query), a);
            f.result.Failure? && f.result.error.FetchFailed?)
  {
  }

  /** A search whose video call lists the video answers 200 exactly when
      its channel is available and its comments are listed or disabled
      (403); a channel missing from the listing is a 400, and any other
      channel or comment error a 500. */
  lemma SearchListedVideoStatus(s: ProducerState, query: string, a: Answers)
    requires ExtractVideoId(NormalizeQuery(query)).Some?
    requires a.video.Listed? && |a.video.items| > 0
    ensures var item := a.video.items[0];
      var status := SearchVideo(s, query, a).response.status;
      && (status == 200 <==> ChannelAvailable(s.cache, item.channelId, a.channel) && CommentsUsable(a.comments))
      && (a.channel.Listed? && |a.channel.items| == 0 ==> status == 400)
      && (!(a.channel.Listed? && |a.channel.items| == 0) && status != 200 ==> status == 500)
  {
  }

  /** `deleteVideo(videoId)`: 404 when absent, otherwise the row is
      deleted and 200 returned. No delete notification is published. */
  function DeleteVideo(s: ProducerState, videoId: string): (r: Served)
    ensures !ExistsById(s.repo, videoId) ==> r == Served(s, Response(404, NoBody))
    ensures ExistsById(s.repo, videoId) ==>
      && r.response == Response(200, NoBody)
      && !ExistsById(r.state.repo, videoId)
      && r.state.repo.Keys == s.repo.Keys - {videoId}
    ensures r.state.outbox == s.outbox && r.state.cache == s.cache && r.state.calls == s.calls
    ensures forall id :: id in r.state.repo ==> id in s.repo && r.state.repo[id] == s.repo[id]
  {
    if !ExistsById(s.repo, videoId) then Served(s, Response(404, NoBody))
    else Served(s.(repo := DeleteById(s.repo, videoId)), Response(200, NoBody))
  }
}
