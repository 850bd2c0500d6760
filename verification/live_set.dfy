/** The spring consumer's in-memory live set: the latest record per id,
    written by the data listener and evicted by the delete listener, and
    the analytics computed over it. */
module LiveSet {
  import opened Wrappers
  import opened Videos
  import opened Analytics
  import opened JavaText
  import opened KafkaProducer

  type LiveMap = map<string, Video>

  /** `consume(video)`: a null record or id is skipped; otherwise the
      record replaces whatever was stored under its id. */
  function Consume(live: LiveMap, video: Option<Video>): (live': LiveMap)
    ensures video.None? || video.value.videoId.None? ==> live' == live
    ensures video.Some? && video.value.videoId.Some? ==>
      var id := video.value.videoId.value;
      && live'.Keys == live.Keys + {id}
      && live'[id] == video.value
      && forall k :: k in live && k != id ==> live'[k] == live[k]
  {
    match video
    case None => live
    case Some(v) =>
      match v.videoId
      case None => live
      case Some(id) => live[id := v]
  }

  /** `handleDeleteNotification(video)`: a null record or id is skipped;
      otherwise the id is removed, which is a no-op when it is absent. */
  function HandleDeleteNotification(live: LiveMap, video: Option<Video>): (live': LiveMap)
    ensures video.None? || video.value.videoId.None? ==> live' == live
    ensures video.Some? && video.value.videoId.Some? ==>
      var id := video.value.videoId.value;
      && live'.Keys == live.Keys - {id}
      && forall k :: k in live' ==> live'[k] == live[k]
  {
    match video
    case None => live
    case Some(v) =>
      match v.videoId
      case None => live
      case Some(id) => live - {id}
  }

  /** Both listeners keep every record under its own id. */
  lemma ListenersKeepWellKeyed(live: LiveMap, video: Option<Video>)
    requires WellKeyed(live)
    ensures WellKeyed(Consume(live, video))
    ensures WellKeyed(HandleDeleteNotification(live, video))
  {
  }

  /** Redelivering the same record changes nothing. */
  lemma ConsumeIdempotent(live: LiveMap, video: Option<Video>)
    ensures Consume(Consume(live, video), video) == Consume(live, video)
  {
  }

  /** Evicting an id forgets any record consumed under it before. */
  lemma EvictAfterConsume(live: LiveMap, v: Video)
    requires v.videoId.Some?
    ensures HandleDeleteNotification(Consume(live, Some(v)), Some(v)) == HandleDeleteNotification(live, Some(v))
  {
    var id := v.videoId.value;
    assert Consume(live, Some(v)) - {id} == live - {id};
  }

  /** Evicting an absent id is a no-op. */
  lemma EvictAbsent(live: LiveMap, v: Video)
    requires v.videoId.Some? && v.videoId.value !in live
    ensures HandleDeleteNotification(live, Some(v)) == live
  {
    assert live - {v.videoId.value} == live;
  }

  /** The producer's delete notification, delivered to the delete
      listener: a non-blank id evicts exactly that id, and a blank one
      sends nothing, so nothing is evicted. */
  lemma DeleteNotificationEvicts(live: LiveMap, id: string)
    ensures var sent := SendDeleteNotification(Some(id));
      && (|sent| == 0 <==> IsBlank(id))
      && forall m :: m in sent ==> HandleDeleteNotification(live, Some(m.payload)) == live - {id}
  {
  }

  /** The keys of a map in some order, each once. */
  method EnumerateKeys(keys: set<string>) returns (r: seq<string>)
    ensures |r| == |keys|
    ensures forall i :: 0 <= i < |r| ==> r[i] in keys
    ensures forall k :: k in keys ==> k in r
    ensures forall i, j :: 0 <= i < j < |r| ==> r[i] != r[j]
  {
    r := [];
    var todo := keys;
    ghost var done: set<string> := {};
    while todo != {}
      invariant todo !! done && todo + done == keys
      invariant |r| == |done|
      invariant forall i :: 0 <= i < |r| ==> r[i] in done
      invariant forall k :: k in done ==> k in r
      invariant forall i, j :: 0 <= i < j < |r| ==> r[i] != r[j]
      decreases |todo|
    {
      var k :| k in todo;
      r := r + [k];
      todo := todo - {k};
      done := done + {k};
    }
  }

  /** `getAllVideos`: every stored record once, in the map's own order. */
  method GetAllVideos(live: LiveMap) returns (rows: seq<Video>)
    ensures |rows| == |live|
    ensures forall i :: 0 <= i < |rows| ==> rows[i] in live.Values
    ensures forall k :: k in live ==> live[k] in rows
    // when every record is stored under its own id, each is listed once
    ensures WellKeyed(live) ==> forall i, j :: 0 <= i < j < |rows| ==> rows[i] != rows[j]
  {
    var ks := EnumerateKeys(live.Keys);
    rows := seq(|ks|, i requires 0 <= i < |ks| => live[ks[i]]);
    forall k | k in live ensures live[k] in rows {
      var i :| 0 <= i < |ks| && ks[i] == k;
      assert rows[i] == live[k];
    }
    if WellKeyed(live) {
      forall i, j | 0 <= i < j < |rows| ensures rows[i] != rows[j] {
        assert rows[i].videoId == Some(ks[i]) && rows[j].videoId == Some(ks[j]);
      }
    }
  }

  /** `getAnalytics` over the live set: the empty map for no records,
      otherwise a snapshot over all of them whose holders are live
      records. */
  method ComputeAnalytics(live: LiveMap) returns (r: Result<Option<Snapshot>, AnalyticsFault>)
    ensures |live| == 0 <==> r == Success(None)
    ensures r.Success? && r.value.Some? ==>
      && r.value.value.totalVideos == |live|
      && (forall m :: m in r.value.value.highest ==> r.value.value.highest[m] in live.Values)
      && (r.value.value.highestEngagement.Some? ==> r.value.value.highestEngagement.value in live.Values)
  {
    var rows := GetAllVideos(live);
    r := GetAnalytics(rows);
    HoldersAreRows(rows);
  }

  /** Every holder of a snapshot is one of the records it was computed
      from. */
  lemma HoldersAreRows(rows: seq<Video>)
    ensures var r := GetAnalytics(rows);
      r.Success? && r.value.Some? ==>
        && (forall m :: m in r.value.value.highest ==> r.value.value.highest[m] in rows)
        && (r.value.value.highestEngagement.Some? ==> r.value.value.highestEngagement.value in rows)
  {
    GetAnalyticsCorrect(rows);
    var r := GetAnalytics(rows);
    if r.Success? && r.value.Some? {
      var snap := r.value.value;
      forall m | m in snap.highest ensures snap.highest[m] in rows {
        assert HoldsFirstMax(rows, m, snap.highest);
        var k :| 0 <= k < |rows| && IsFirstMax(rows, m, k) && snap.highest[m] == rows[k];
      }
      if snap.highestEngagement.Some? {
        var k :| 0 <= k < |rows| && IsFirstMaxRate(rows, k) && snap.highestEngagement.value == rows[k];
      }
    }
  }

  /** After an eviction no snapshot over the live set reports a record
      with the evicted id. */
  lemma EvictedNeverReported(live: LiveMap, v: Video, rows: seq<Video>)
    requires WellKeyed(live) && v.videoId.Some?
    requires forall i :: 0 <= i < |rows| ==> rows[i] in HandleDeleteNotification(live, Some(v)).Values
    ensures var r := GetAnalytics(rows);
      r.Success? && r.value.Some? ==>
        && (forall m :: m in r.value.value.highest ==> r.value.value.highest[m].videoId != v.videoId)
        && (r.value.value.highestEngagement.Some? ==> r.value.value.highestEngagement.value.videoId != v.videoId)
  {
    var live' := HandleDeleteNotification(live, Some(v));
    ListenersKeepWellKeyed(live, Some(v));
    HoldersAreRows(rows);
    forall w | w in rows ensures w.videoId != v.videoId {
      var i :| 0 <= i < |rows| && rows[i] == w;
      var k :| k in live' && live'[k] == w;
    }
  }
}
