/** The `YoutubeVideo` record that travels from the producer through Kafka
    to both consumers. The three Java classes of that name share one shape
    here; timestamps are not modelled. A `None` count or text is a Java
    `null`. */
module Videos {
  import opened Wrappers

  datatype Video = Video(
    videoId: Option<string>,
    title: Option<string>,
    channelId: Option<string>,
    channelName: Option<string>,
    viewCount: Option<nat>,
    likeCount: Option<nat>,
    commentCount: Option<nat>,
    commentText: Option<string>,
    videoUrl: Option<string>,
    subscriberCount: Option<nat>,
    videoCount: Option<nat>)

  /** A freshly constructed `new YoutubeVideo()`: every field null. */
  const EmptyVideo := Video(None, None, None, None, None, None, None, None, None, None, None)

  /** The five counters the scheduler and the analytics compare. */
  datatype Metric = Views | Likes | Comments | Subscribers | ChannelVideos

  function Count(v: Video, m: Metric): Option<nat> {
    match m
    case Views => v.viewCount
    case Likes => v.likeCount
    case Comments => v.commentCount
    case Subscribers => v.subscriberCount
    case ChannelVideos => v.videoCount
  }

  /** `x != null ? x : 0`, the null-to-zero reading used by every service
      (and by `convertBigIntegerToLong`). */
  function OrZero(x: Option<nat>): (n: nat)
    ensures x.Some? ==> n == x.value
    ensures x.None? ==> n == 0
  {
    x.GetOr(0)
  }

  /** A keyed collection of videos (the producer's repository, the
      consumer's live set) holds every record under its own id. */
  predicate WellKeyed(m: map<string, Video>) {
    forall id :: id in m ==> m[id].videoId == Some(id)
  }
}
