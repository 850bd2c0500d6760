/** `KafkaProducerService`: the content-based router and the delete
    notification. A Kafka send is an append to an outbox. Failures that
    complete a send's future are only logged; an exception thrown by
    `send` itself is caught on the comments path only, and this model
    has every send succeed. */
module KafkaProducer {
  import opened Wrappers
  import opened JavaText
  import opened Videos

  /** The three configured topics: `kafka.topic.youtube-data` (analytics),
      `kafka.topic.youtube-comments` (Telegram) and
      `kafka.topic.youtube-delete`. */
  datatype Topic = AnalyticsTopic | CommentsTopic | DeleteTopic

  /** A record handed to `KafkaTemplate.send(topic, key, payload)`. */
  datatype Message = Message(topic: Topic, key: Option<string>, payload: Video)

  /** The comment text routes somewhere: present and not blank. */
  predicate HasComment(v: Video) {
    v.commentText.Some? && !IsBlank(v.commentText.value)
  }

  /** `sendVideoData`: the messages sent for one video. A video with a
      comment goes to exactly one topic, chosen by the parity of the
      trimmed comment's `String.length`; the payload is the video as
      received and the key its id. */
  function SendVideoData(video: Option<Video>): (sent: seq<Message>)
    ensures |sent| <= 1
    ensures |sent| == 1 <==> video.Some? && HasComment(video.value)
    ensures |sent| == 1 ==> sent[0].payload == video.value && sent[0].key == video.value.videoId
    ensures |sent| == 1 ==> sent[0].topic != DeleteTopic
    ensures |sent| == 1 ==>
      (sent[0].topic == AnalyticsTopic <==> Utf16Length(Trim(video.value.commentText.value)) % 2 == 0)
  {
    match video
    case None => []
    case Some(v) =>
      match v.commentText
      case None => []
      case Some(c) =>
        var trimmed := Trim(c);
        if |trimmed| == 0 then []
        else if Utf16Length(trimmed) % 2 == 0 then [Message(AnalyticsTopic, v.videoId, v)]
        else [Message(CommentsTopic, v.videoId, v)]
  }

  /** `sendDeleteNotification`: nothing for a null or blank id; otherwise
      one message on the delete topic, keyed by the id as given (not
      trimmed), whose payload carries only that id. */
  function SendDeleteNotification(videoId: Option<string>): (sent: seq<Message>)
    ensures videoId.None? || IsBlank(videoId.value) ==> sent == []
    ensures videoId.Some? && !IsBlank(videoId.value) ==>
      sent == [Message(DeleteTopic, videoId, EmptyVideo.(videoId := videoId))]
  {
    if videoId.None? || |Trim(videoId.value)| == 0 then []
    else [Message(DeleteTopic, videoId, EmptyVideo.(videoId := videoId))]
  }

  /** Routing reads the comment only through its trimmed form: padding a
      comment with spaces or line breaks never changes where it goes. */
  lemma RoutingIgnoresPadding(v: Video, c: string, pad1: string, pad2: string)
    requires v.commentText == Some(c)
    requires IsBlank(pad1) && IsBlank(pad2)
    ensures var w := v.(commentText := Some(pad1 + c + pad2));
      |SendVideoData(Some(w))| == |SendVideoData(Some(v))|
      && (|SendVideoData(Some(v))| == 1 ==> SendVideoData(Some(w))[0].topic == SendVideoData(Some(v))[0].topic)
  {
    TrimPadding(c, pad1, pad2);
    SameTrimSameRoute(v, v.(commentText := Some(pad1 + c + pad2)));
  }

  lemma SameTrimSameRoute(v: Video, w: Video)
    requires v.commentText.Some? && w.commentText.Some?
    requires Trim(v.commentText.value) == Trim(w.commentText.value)
    ensures |SendVideoData(Some(w))| == |SendVideoData(Some(v))|
    ensures |SendVideoData(Some(v))| == 1 ==> SendVideoData(Some(w))[0].topic == SendVideoData(Some(v))[0].topic
  {
  }

  lemma TrimPadding(c: string, pad1: string, pad2: string)
    requires IsBlank(pad1) && IsBlank(pad2)
    ensures Trim(pad1 + c + pad2) == Trim(c)
  {
    var s := pad1 + c + pad2;
    assert s == pad1 + (c + pad2);
    StripLeadingBlankPrefix(pad1, c + pad2);
    StripLeadingAppend(c, pad2);
    if IsBlank(c) {
      assert Trim(c) == [];
    } else {
      StripTrailingBlankSuffix(StripLeading(c), pad2);
    }
  }

  lemma {:induction false} StripLeadingBlankPrefix(pad: string, s: string)
    requires IsBlank(pad)
    ensures StripLeading(pad + s) == StripLeading(s)
    decreases |pad|
  {
    if |pad| > 0 {
      assert (pad + s)[0] == pad[0];
      assert (pad + s)[1..] == pad[1..] + s;
      StripLeadingBlankPrefix(pad[1..], s);
    } else {
      assert pad + s == s;
    }
  }

  /** Appending blank text after `c` only adds blank text after the
      leading-stripped `c`, unless `c` is itself blank. */
  lemma {:induction false} StripLeadingAppend(c: string, pad: string)
    requires IsBlank(pad)
    ensures IsBlank(c) ==> StripLeading(c + pad) == []
    ensures !IsBlank(c) ==> StripLeading(c + pad) == StripLeading(c) + pad
    decreases |c|
  {
    if |c| == 0 {
      assert c + pad == pad;
      StripLeadingBlankPrefix(pad, []);
      assert pad + [] == pad;
    } else {
      assert (c + pad)[1..] == c[1..] + pad;
      StripLeadingAppend(c[1..], pad);
    }
  }

  lemma {:induction false} StripTrailingBlankSuffix(s: string, pad: string)
    requires IsBlank(pad)
    ensures StripTrailing(s + pad) == StripTrailing(s)
    decreases |pad|
  {
    if |pad| > 0 {
      assert (s + pad)[..|s + pad| - 1] == s + pad[..|pad| - 1];
      StripTrailingBlankSuffix(s, pad[..|pad| - 1]);
    } else {
      assert s + pad == s;
    }
  }

  /** An odd-length comment such as "hello" goes to Telegram. */
  lemma RouteOddComment(v: Video)
    requires v.commentText == Some("hello")
    ensures SendVideoData(Some(v)) == [Message(CommentsTopic, v.videoId, v)]
  {
    assert StripLeading("hello") == "hello";
    assert StripTrailing("hello") == "hello";
  }

  /** An even-length comment such as "hi" goes to analytics. */
  lemma RouteEvenComment(v: Video)
    requires v.commentText == Some("hi")
    ensures SendVideoData(Some(v)) == [Message(AnalyticsTopic, v.videoId, v)]
  {
    assert StripLeading("hi") == "hi";
    assert StripTrailing("hi") == "hi";
  }

  /** A comment of spaces goes nowhere. */
  lemma RouteBlankComment(v: Video)
    requires v.commentText == Some("  ")
    ensures SendVideoData(Some(v)) == []
  {
    assert IsBlank("  ");
  }

  /** One emoji outside the Basic Multilingual Plane is two UTF-16 code
      units, so it goes to analytics. */
  lemma RouteAstralComment(v: Video)
    requires v.commentText == Some(" \U{1F600} ")
    ensures SendVideoData(Some(v)) == [Message(AnalyticsTopic, v.videoId, v)]
  {
    assert StripLeading(" \U{1F600} ") == "\U{1F600} ";
    assert StripTrailing("\U{1F600} ") == "\U{1F600}";
  }
}
