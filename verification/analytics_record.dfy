/** The persisted analytics row built from a consumed record. */
module AnalyticsRecord {
  import opened Wrappers
  import opened Videos

  /** `YoutubeVideoAnalytics` without its two timestamps; `id` is assigned
      by the database, so a freshly built row has none. */
  datatype AnalyticsRow = AnalyticsRow(
    id: Option<nat>,
    videoId: Option<string>,
    title: Option<string>,
    channelName: Option<string>,
    commentCount: Option<nat>,
    likeCount: Option<nat>,
    subscriberCount: Option<nat>,
    videoCount: Option<nat>,
    viewCount: Option<nat>,
    videoUrl: Option<string>,
    commentText: Option<string>)

  /** The constructor from a record: the comment, like and view counts
      default to zero when null; subscriber and video counts are kept as
      they are, null included; the text fields are copied. */
  function FromVideo(v: Video): (r: AnalyticsRow)
    ensures r.id.None?
    ensures r.commentCount.Some? && r.likeCount.Some? && r.viewCount.Some?
    ensures v.commentCount.Some? ==> r.commentCount == v.commentCount
    ensures v.likeCount.Some? ==> r.likeCount == v.likeCount
    ensures v.viewCount.Some? ==> r.viewCount == v.viewCount
    ensures v.commentCount.None? ==> r.commentCount == Some(0)
    ensures v.likeCount.None? ==> r.likeCount == Some(0)
    ensures v.viewCount.None? ==> r.viewCount == Some(0)
    ensures r.subscriberCount == v.subscriberCount && r.videoCount == v.videoCount
    ensures r.videoId == v.videoId && r.title == v.title && r.channelName == v.channelName
    ensures r.videoUrl == v.videoUrl && r.commentText == v.commentText
  {
    AnalyticsRow(
      None, v.videoId, v.title, v.channelName,
      Some(OrZero(v.commentCount)), Some(OrZero(v.likeCount)),
      v.subscriberCount, v.videoCount,
      Some(OrZero(v.viewCount)),
      v.videoUrl, v.commentText)
  }

  /** Reading a row back as a record. The source has no such reader: this
      is a reference inverse, there only to state what `FromVideo` keeps.
      The row has no channel id, so none comes back. */
  function ToVideo(r: AnalyticsRow): Video {
    Video(r.videoId, r.title, None, r.channelName,
          r.viewCount, r.likeCount, r.commentCount,
          r.commentText, r.videoUrl, r.subscriberCount, r.videoCount)
  }

  /** Building a row loses nothing but the channel id and the nulls of the
      three defaulted counts: reading it back gives the record itself with
      those counts defaulted to zero. */
  lemma RowRoundTrip(v: Video)
    ensures ToVideo(FromVideo(v)) == v.(channelId := None,
                                        viewCount := Some(OrZero(v.viewCount)),
                                        likeCount := Some(OrZero(v.likeCount)),
                                        commentCount := Some(OrZero(v.commentCount)))
    ensures v.channelId.None? && v.viewCount.Some? && v.likeCount.Some? && v.commentCount.Some?
            ==> ToVideo(FromVideo(v)) == v
  {
  }

  /** Building a row from a row read back changes nothing: the defaults
      are applied once. */
  lemma FromVideoIdempotent(v: Video)
    ensures FromVideo(ToVideo(FromVideo(v))) == FromVideo(v)
  {
  }
}
