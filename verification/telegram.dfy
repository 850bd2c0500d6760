/** The Telegram side: a listener on the comments topic that turns each
    record with a non-blank comment into one chat message. */
module TelegramNotifier {
  import opened Wrappers
  import opened JavaText
  import opened Videos
  import opened KafkaProducer

  const Header := "\U{1F3A5} New YouTube Video Update!"

  /** `%s` applied to a `String`: a null prints as "null". */
  function Show(s: Option<string>): string {
    match s
    case None => "null"
    case Some(t) => t
  }

  /** `%d` applied to a `Long`: a null prints as "null", a value as its
      plain decimal digits. */
  function ShowCount(n: Option<nat>): string {
    match n
    case None => "null"
    case Some(k) => NatToDecimal(k)
  }

  /** The lines of the text block in `consume`, once its indentation is
      stripped, with the seven fields filled in. */
  function MessageLines(v: Video): seq<string> {
    [ Header,
      "",
      "Title: " + Show(v.title),
      "Channel: " + Show(v.channelName),
      "Comment: " + Show(v.commentText),
      "",
      "Stats:",
      "\U{1F441}\U{FE0F} Views: " + ShowCount(v.viewCount),
      "\U{1F44D} Likes: " + ShowCount(v.likeCount),
      "\U{1F4AC} Comments: " + ShowCount(v.commentCount),
      "",
      "URL: " + Show(v.videoUrl) ]
  }

  /** Each line followed by a line break, as a Java text block ends every
      line, the last one included. */
  function JoinLines(ls: seq<string>): string {
    if |ls| == 0 then "" else ls[0] + "\n" + JoinLines(ls[1..])
  }

  function ComposeMessage(v: Video): string {
    JoinLines(MessageLines(v))
  }

  /** Splitting at every line break: the reference reading of a message,
      independent of how it was assembled. */
  function Lines(s: string): (r: seq<string>)
    ensures |r| >= 1
  {
    if |s| == 0 then [""]
    else if s[0] == '\n' then [""] + Lines(s[1..])
    else var rest := Lines(s[1..]); [[s[0]] + rest[0]] + rest[1..]
  }

  predicate SingleLine(s: string) {
    forall i :: 0 <= i < |s| ==> s[i] != '\n'
  }

  lemma {:induction false} LinesOfLine(a: string, b: string)
    requires SingleLine(a)
    ensures Lines(a + "\n" + b) == [a] + Lines(b)
  {
    if |a| == 0 {
      assert a + "\n" + b == "\n" + b;
      assert ("\n" + b)[1..] == b;
    } else {
      LinesOfLine(a[1..], b);
      assert (a + "\n" + b)[1..] == a[1..] + "\n" + b;
      assert [a[0]] + a[1..] == a;
    }
  }

  lemma {:induction false} LinesOfJoin(ls: seq<string>)
    requires forall i :: 0 <= i < |ls| ==> SingleLine(ls[i])
    ensures Lines(JoinLines(ls)) == ls + [""]
  {
    if |ls| > 0 {
      LinesOfJoin(ls[1..]);
      LinesOfLine(ls[0], JoinLines(ls[1..]));
      assert [ls[0]] + ls[1..] == ls;
    }
  }

  lemma SingleLineConcat(a: string, b: string)
    requires SingleLine(a) && SingleLine(b)
    ensures SingleLine(a + b)
  {
    assert forall i :: |a| <= i < |a + b| ==> (a + b)[i] == b[i - |a|];
  }

  lemma ShowCountSingleLine(n: Option<nat>)
    ensures SingleLine(ShowCount(n))
  {
    if n.Some? {
      var s := NatToDecimal(n.value);
      forall i | 0 <= i < |s| ensures s[i] != '\n' {
        assert IsDigit(s[i]);
      }
    }
  }

  /** A message read back line by line gives exactly the twelve lines of
      the template, in order, followed by the empty tail after the final
      line break, provided no text field spans several lines. */
  lemma MessageLayout(v: Video)
    requires SingleLine(Show(v.title)) && SingleLine(Show(v.channelName))
    requires SingleLine(Show(v.commentText)) && SingleLine(Show(v.videoUrl))
    ensures Lines(ComposeMessage(v)) == MessageLines(v) + [""]
    ensures |Lines(ComposeMessage(v))| == 13
    ensures Lines(ComposeMessage(v))[2] == "Title: " + Show(v.title)
    ensures Lines(ComposeMessage(v))[4] == "Comment: " + Show(v.commentText)
    ensures Lines(ComposeMessage(v))[11] == "URL: " + Show(v.videoUrl)
  {
    var ls := MessageLines(v);
    ShowCountSingleLine(v.viewCount);
    ShowCountSingleLine(v.likeCount);
    ShowCountSingleLine(v.commentCount);
    SingleLineConcat("Title: ", Show(v.title));
    SingleLineConcat("Channel: ", Show(v.channelName));
    SingleLineConcat("Comment: ", Show(v.commentText));
    SingleLineConcat("\U{1F441}\U{FE0F} Views: ", ShowCount(v.viewCount));
    SingleLineConcat("\U{1F44D} Likes: ", ShowCount(v.likeCount));
    SingleLineConcat("\U{1F4AC} Comments: ", ShowCount(v.commentCount));
    SingleLineConcat("URL: ", Show(v.videoUrl));
    LinesOfJoin(ls);
  }

  /** `consume`: a null record throws inside the `try` at the first log
      line and is swallowed, so nothing is sent; a record whose comment is
      non-null and not blank after `trim` yields exactly one message; any
      other record yields none. */
  function Consume(video: Option<Video>): (sent: seq<string>)
    ensures |sent| <= 1
    ensures |sent| == 1 <==>
      video.Some? && video.value.commentText.Some? && !IsBlank(video.value.commentText.value)
    ensures |sent| == 1 ==> sent[0] == ComposeMessage(video.value)
  {
    match video
    case None => []
    case Some(v) =>
      if v.commentText.Some? && |Trim(v.commentText.value)| != 0 then [ComposeMessage(v)]
      else []
  }

  /** Every record the producer routes to the comments topic reaches the
      chat: its trimmed comment has odd length, so it is never blank. */
  lemma CommentsTopicAlwaysNotifies(v: Video)
    ensures forall m :: m in SendVideoData(Some(v)) && m.topic == CommentsTopic ==>
      Consume(Some(m.payload)) == [ComposeMessage(v)]
  {
    var sent := SendVideoData(Some(v));
    forall m | m in sent && m.topic == CommentsTopic
      ensures Consume(Some(m.payload)) == [ComposeMessage(v)]
    {
      assert m == sent[0];
      OddIsNotEmpty(Trim(v.commentText.value));
    }
  }

  lemma OddIsNotEmpty(t: string)
    requires Utf16Length(t) % 2 == 1
    ensures |t| != 0
  {
  }
}
