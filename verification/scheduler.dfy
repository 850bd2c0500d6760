/** `VideoUpdateScheduler.updateVideoData`: one scheduled pass that
    re-fetches every stored video and routes the fresh record again when
    `hasSignificantChanges` says so. Exceptions of one video are logged
    and the pass continues with the next. */
module VideoUpdate {
  import opened Wrappers
  import opened Videos
  import opened VideoRepository
  import opened KafkaProducer
  import opened YouTubeFetch
  import opened VideoIdExtraction

  /** Why one video's update ended in the catch block. */
  datatype UpdateError = NullPointer | FetchError(fault: Fault)

  /** The counters compared by `hasSignificantChanges`, in source order. */
  const StatsOrder: seq<Metric> := [Comments, Likes, Views, Subscribers, ChannelVideos]

  /** The short-circuit chain `!oldVideo.getX().equals(newVideo.getX()) || ...` over
      `ms`: true at the first counter that differs, a NullPointerException
      at the first before counter that is null (unless an earlier one already
      differed), false when all are present and equal. */
  function StatsChanged(before: Video, after: Video, ms: seq<Metric>): (r: Result<bool, UpdateError>)
    ensures r.Failure? ==> r.error == NullPointer
  {
    if |ms| == 0 then Success(false)
    else
      match Count(before, ms[0])
      case None => Failure(NullPointer)
      case Some(x) =>
        if Count(after, ms[0]) != Some(x) then Success(true)
        else StatsChanged(before, after, ms[1..])
  }

  /** The counters of `ms` up to (not including) position `i` are present
      before and unchanged after. */
  predicate SameUpTo(before: Video, after: Video, ms: seq<Metric>, i: int)
    requires i <= |ms|
  {
    forall j :: 0 <= j < i ==> Count(before, ms[j]).Some? && Count(before, ms[j]) == Count(after, ms[j])
  }

  /** The chain answers false exactly when every counter is present and
      equal, and throws exactly when it reaches a null before counter
      while all earlier ones were equal. */
  lemma {:induction false} StatsChangedSpec(before: Video, after: Video, ms: seq<Metric>)
    ensures StatsChanged(before, after, ms) == Success(false) <==> SameUpTo(before, after, ms, |ms|)
    ensures StatsChanged(before, after, ms).Failure? <==>
      exists i :: 0 <= i < |ms| && Count(before, ms[i]).None? && SameUpTo(before, after, ms, i)
  {
    if |ms| > 0 && Count(before, ms[0]).Some? && Count(after, ms[0]) == Count(before, ms[0]) {
      var tail := ms[1..];
      StatsChangedSpec(before, after, tail);
      assert forall i :: 1 <= i < |ms| ==> ms[i] == tail[i - 1];
      assert SameUpTo(before, after, ms, |ms|) <==> SameUpTo(before, after, tail, |tail|);
      if StatsChanged(before, after, tail).Failure? {
        var k :| 0 <= k < |tail| && Count(before, tail[k]).None? && SameUpTo(before, after, tail, k);
        assert SameUpTo(before, after, ms, k + 1);
        assert Count(before, ms[k + 1]).None?;
      }
      if i :| 0 <= i < |ms| && Count(before, ms[i]).None? && SameUpTo(before, after, ms, i) {
        assert i > 0;
        assert SameUpTo(before, after, tail, i - 1);
        assert Count(before, tail[i - 1]).None?;
      }
    } else if |ms| > 0 {
      if Count(before, ms[0]).None? {
        assert SameUpTo(before, after, ms, 0);
      }
    }
  }

  /** `hasSignificantChanges(oldVideo, newVideo)`: any comment text, before or after,
      counts as a change; otherwise the counters are compared. */
  function HasSignificantChanges(before: Video, after: Video): (r: Result<bool, UpdateError>)
    ensures before.commentText.Some? || after.commentText.Some? ==> r == Success(true)
    ensures before.commentText.None? && after.commentText.None? ==>
      (r == Success(false) <==> forall m :: Count(before, m).Some? && Count(before, m) == Count(after, m))
    // with no comments, a null old counter reached before any difference throws
    ensures before.commentText.None? && after.commentText.None? ==>
      (r == Failure(NullPointer) <==>
         exists i :: 0 <= i < |StatsOrder| && Count(before, StatsOrder[i]).None? && SameUpTo(before, after, StatsOrder, i))
  {
    if before.commentText.Some? || after.commentText.Some? then Success(true)
    else
      var r := StatsChanged(before, after, StatsOrder);
      StatsChangedSpec(before, after, StatsOrder);
      StatsOrderCoversMetrics(before, after);
      r
  }

  /** Position of each counter in `StatsOrder`. */
  function StatsIndex(m: Metric): (i: nat)
    ensures i < |StatsOrder| && StatsOrder[i] == m
  {
    match m
    case Comments => 0
    case Likes => 1
    case Views => 2
    case Subscribers => 3
    case ChannelVideos => 4
  }

  /** Comparing along `StatsOrder` compares every counter. */
  lemma StatsOrderCoversMetrics(before: Video, after: Video)
    ensures SameUpTo(before, after, StatsOrder, |StatsOrder|)
        <==> (forall m :: Count(before, m).Some? && Count(before, m) == Count(after, m))
  {
    if SameUpTo(before, after, StatsOrder, |StatsOrder|) {
      forall m ensures Count(before, m).Some? && Count(before, m) == Count(after, m) {
        var i := StatsIndex(m);
        assert Count(before, StatsOrder[i]) == Count(before, m);
      }
    }
  }

  /** When every before counter is present no NullPointerException is
      possible, and the comparison is plain inequality of the counters. */
  lemma StatsWithoutNulls(before: Video, after: Video)
    requires before.commentText.None? && after.commentText.None?
    requires forall m :: Count(before, m).Some?
    ensures HasSignificantChanges(before, after) == Success(exists m :: Count(before, m) != Count(after, m))
  {
    var r := StatsChanged(before, after, StatsOrder);
    StatsChangedSpec(before, after, StatsOrder);
    StatsOrderCoversMetrics(before, after);
    if r.Failure? {
      assert false;
    }
    assert HasSignificantChanges(before, after) == r;
    if r == Success(true) {
      var m :| !(Count(before, m).Some? && Count(before, m) == Count(after, m));
      assert Count(before, m) != Count(after, m);
    } else {
      assert r.Success?;
      assert !r.value;
      assert r == Success(false);
      assert forall m :: Count(before, m) == Count(after, m);
    }
  }

  /** One video's update: the state after it and whether it sent. */
  datatype Updated = Updated(state: ProducerState, result: Result<bool, UpdateError>)

  /** The update of one stored video: fetch by its URL (a null URL throws
      before any call), compare, and send the fresh record again on a
      change. `Success(b)` says whether it was sent. */
  function UpdateOne(s: ProducerState, before: Video, a: Answers): (r: Updated)
    ensures before.videoUrl.None? ==> r == Updated(s, Failure(NullPointer))
    ensures before.videoUrl.Some? ==>
      var f := FetchVideoData(s, before.videoUrl.value, a);
      && (f.result.Failure? ==> r == Updated(f.state, Failure(FetchError(f.result.error))))
      && (f.result.Success? ==>
            && r.state.cache == f.state.cache && r.state.repo == f.state.repo && r.state.calls == f.state.calls
            && (r.result == Success(true) <==> HasSignificantChanges(before, f.result.value) == Success(true))
            && (r.result == Success(false) <==> HasSignificantChanges(before, f.result.value) == Success(false))
            && (HasSignificantChanges(before, f.result.value).Failure? ==> r.result == Failure(NullPointer))
            && r.state.outbox == f.state.outbox + (if r.result == Success(true) then SendVideoData(Some(f.result.value)) else []))
  {
    match before.videoUrl
    case None => Updated(s, Failure(NullPointer))
    case Some(url) =>
      var f := FetchVideoData(s, url, a);
      match f.result
      case Failure(e) => Updated(f.state, Failure(FetchError(e)))
      case Success(v) =>
        match HasSignificantChanges(before, v)
        case Failure(e) => Updated(f.state, Failure(e))
        case Success(changed) =>
          if changed then Updated(f.state.(outbox := f.state.outbox + SendVideoData(Some(v))), Success(true))
          else Updated(f.state, Success(false))
  }

  /** `after` is `before` followed by messages none of which is a delete
      notification. */
  predicate AppendsOnlyRoutes(before: seq<Message>, after: seq<Message>) {
    && |before| <= |after|
    && after[..|before|] == before
    && forall k :: |before| <= k < |after| ==> after[k].topic != DeleteTopic
  }

  lemma {:induction false} AppendsOnlyRoutesTrans(a: seq<Message>, b: seq<Message>, c: seq<Message>)
    requires AppendsOnlyRoutes(a, b) && AppendsOnlyRoutes(b, c)
    ensures AppendsOnlyRoutes(a, c)
  {
    assert c[..|a|] == c[..|b|][..|a|];
    forall k | |a| <= k < |c| ensures c[k].topic != DeleteTopic {
      if k < |b| {
        assert c[k] == c[..|b|][k];
      }
    }
  }

  lemma RoutingAppendsOnlyRoutes(o: seq<Message>, v: Video)
    ensures AppendsOnlyRoutes(o, o + SendVideoData(Some(v)))
  {
    var o' := o + SendVideoData(Some(v));
    assert o'[..|o|] == o;
    forall k | |o| <= k < |o'| ensures o'[k].topic != DeleteTopic {
      assert o'[k] == SendVideoData(Some(v))[0];
    }
  }

  /** Updating `before` from state `s` leads to state `s'` with outcome
      `result`. */
  predicate RowStep(s: ProducerState, before: Video, a: Answers, s': ProducerState, result: Result<bool, UpdateError>) {
    UpdateOne(s, before, a) == Updated(s', result)
  }

  /** The state after the pass, one result per listed row, and the
      state each row's update started from followed by the final one. */
  datatype Pass = Pass(state: ProducerState, results: seq<Result<bool, UpdateError>>, states: seq<ProducerState>)

  /** `updateVideoData` over the rows `findAll` returned, with the API's
      answers for each row's fetch. Each row is updated in turn from the
      state the previous one left, and its outcome, exception or not, is
      recorded before the next row starts. An empty listing does
      nothing. */
  function UpdateVideoData(s: ProducerState, rows: seq<Video>, answers: seq<Answers>): (p: Pass)
    requires |answers| == |rows|
    ensures |p.results| == |rows| && |p.states| == |rows| + 1
    ensures p.states[0] == s && p.states[|rows|] == p.state
    // row i is updated from the state row i - 1 left, whatever its outcome
    ensures forall i :: 0 <= i < |rows| ==> RowStep(p.states[i], rows[i], answers[i], p.states[i + 1], p.results[i])
    // a row without a URL fails on its own and the pass goes on
    ensures forall i :: 0 <= i < |rows| && rows[i].videoUrl.None? ==> p.results[i] == Failure(NullPointer)
    ensures p.state.repo.Keys >= s.repo.Keys
    ensures AppendsOnlyRoutes(s.outbox, p.state.outbox)
    ensures |rows| == 0 ==> p == Pass(s, [], [s])
    decreases |rows|
  {
    if |rows| == 0 then Pass(s, [], [s])
    else
      var one := UpdateOne(s, rows[0], answers[0]);
      var rest := UpdateVideoData(one.state, rows[1..], answers[1..]);
      UpdateOneGrows(s, rows[0], answers[0]);
      AppendsOnlyRoutesTrans(s.outbox, one.state.outbox, rest.state.outbox);
      StepsCons(s, rows, answers, rest.results, rest.states);
      Pass(rest.state, [one.result] + rest.results, [s] + rest.states)
  }

  /** Prefixing the first row's update to the steps of the remaining
      rows gives the steps of all rows. */
  lemma StepsCons(s: ProducerState, rows: seq<Video>, answers: seq<Answers>,
                  results: seq<Result<bool, UpdateError>>, states: seq<ProducerState>)
    requires |rows| > 0 && |answers| == |rows|
    requires |results| == |rows| - 1 && |states| == |rows|
    requires states[0] == UpdateOne(s, rows[0], answers[0]).state
    requires forall i :: 0 <= i < |rows| - 1 ==>
      RowStep(states[i], rows[1..][i], answers[1..][i], states[i + 1], results[i])
    ensures var results' := [UpdateOne(s, rows[0], answers[0]).result] + results;
      var states' := [s] + states;
      forall i :: 0 <= i < |rows| ==> RowStep(states'[i], rows[i], answers[i], states'[i + 1], results'[i])
  {
    var results' := [UpdateOne(s, rows[0], answers[0]).result] + results;
    var states' := [s] + states;
    forall i | 0 <= i < |rows|
      ensures RowStep(states'[i], rows[i], answers[i], states'[i + 1], results'[i])
    {
      if i > 0 {
        assert rows[i] == rows[1..][i - 1] && answers[i] == answers[1..][i - 1];
        assert RowStep(states[i - 1], rows[1..][i - 1], answers[1..][i - 1], states[i], results[i - 1]);
      }
    }
  }

  /** One update only adds rows and only appends non-delete messages. */
  lemma UpdateOneGrows(s: ProducerState, before: Video, a: Answers)
    ensures var r := UpdateOne(s, before, a);
      r.state.repo.Keys >= s.repo.Keys && AppendsOnlyRoutes(s.outbox, r.state.outbox)
  {
    var r := UpdateOne(s, before, a);
    if before.videoUrl.Some? {
      var f := FetchVideoData(s, before.videoUrl.value, a);
      FetchOnlyAppends(s, before.videoUrl.value, a);
      assert AppendsOnlyRoutes(s.outbox, f.state.outbox) by {
        if f.state.outbox != s.outbox {
          RoutingAppendsOnlyRoutes(s.outbox, f.result.value);
        } else {
          assert s.outbox[..|s.outbox|] == s.outbox;
        }
      }
      if r.state.outbox != f.state.outbox {
        RoutingAppendsOnlyRoutes(f.state.outbox, f.result.value);
        AppendsOnlyRoutesTrans(s.outbox, f.state.outbox, r.state.outbox);
      }
    } else {
      assert s.outbox[..|s.outbox|] == s.outbox;
    }
  }

  /** Every record a fetch returns carries a comment text, so
      `hasSignificantChanges` always answers true: each successfully
      fetched video is routed again, and a fresh fetch (one that was not
      answered 304) is routed twice, once inside the fetch and once by the
      scheduler. */
  lemma UpdateAlwaysResends(s: ProducerState, before: Video, a: Answers)
    requires ProducerInvariant(s)
    requires before.videoUrl.Some?
    ensures var f := FetchVideoData(s, before.videoUrl.value, a);
      var r := UpdateOne(s, before, a);
      && (f.result.Success? ==> r.result == Success(true))
      && (f.result.Success? && a.video.Listed? ==>
            r.state.outbox == s.outbox + SendVideoData(Some(f.result.value)) + SendVideoData(Some(f.result.value)))
      && (f.result.Success? && !a.video.Listed? ==>
            r.state.outbox == s.outbox + SendVideoData(Some(f.result.value)))
  {
    var url := before.videoUrl.value;
    FetchPreservesInvariant(s, url, a);
    var f := FetchVideoData(s, url, a);
    if f.result.Success? {
      assert HasSignificantChanges(before, f.result.value) == Success(true);
      if !a.video.Listed? {
        assert ExtractVideoId(url).Some?;
        assert f.state.outbox == s.outbox;
      }
    }
  }

  /** One row under the producer invariant: it throws a
      NullPointerException exactly when its URL is null, succeeds exactly
      when its fetch does, and then always sends again; the invariant
      survives either way. */
  lemma UpdateOneOutcome(s: ProducerState, before: Video, a: Answers)
    requires ProducerInvariant(s)
    ensures var r := UpdateOne(s, before, a);
      && ProducerInvariant(r.state)
      && (r.result == Failure(NullPointer) <==> before.videoUrl.None?)
      && (r.result.Success? <==> before.videoUrl.Some? && FetchVideoData(s, before.videoUrl.value, a).result.Success?)
      && (r.result.Success? ==> r.result == Success(true))
  {
    if before.videoUrl.Some? {
      FetchPreservesInvariant(s, before.videoUrl.value, a);
      UpdateAlwaysResends(s, before, a);
    }
  }

  /** Every state a pass goes through satisfies the producer invariant
      when the first one does. */
  lemma {:induction false} PassStateInvariant(s: ProducerState, rows: seq<Video>, answers: seq<Answers>, i: nat)
    requires |answers| == |rows| && i <= |rows|
    requires ProducerInvariant(s)
    ensures ProducerInvariant(UpdateVideoData(s, rows, answers).states[i])
  {
    var p := UpdateVideoData(s, rows, answers);
    if i > 0 {
      PassStateInvariant(s, rows, answers, i - 1);
      assert RowStep(p.states[i - 1], rows[i - 1], answers[i - 1], p.states[i], p.results[i - 1]);
      UpdateOneOutcome(p.states[i - 1], rows[i - 1], answers[i - 1]);
    }
  }

  /** The per-row try/catch: in a pass that starts from a well-formed
      state, row i fails with a NullPointerException exactly when its own
      URL is null, and succeeds (and is sent again) exactly when its own
      fetch succeeds, whatever happened to the rows before it. */
  lemma PassIsolation(s: ProducerState, rows: seq<Video>, answers: seq<Answers>)
    requires |answers| == |rows|
    requires ProducerInvariant(s)
    ensures var p := UpdateVideoData(s, rows, answers);
      forall i :: 0 <= i < |rows| ==>
        && (p.results[i] == Failure(NullPointer) <==> rows[i].videoUrl.None?)
        && (p.results[i].Success? <==>
              rows[i].videoUrl.Some? && FetchVideoData(p.states[i], rows[i].videoUrl.value, answers[i]).result.Success?)
        && (p.results[i].Success? ==> p.results[i] == Success(true))
  {
    var p := UpdateVideoData(s, rows, answers);
    forall i | 0 <= i < |rows|
      ensures p.results[i] == Failure(NullPointer) <==> rows[i].videoUrl.None?
      ensures p.results[i].Success? <==>
        rows[i].videoUrl.Some? && FetchVideoData(p.states[i], rows[i].videoUrl.value, answers[i]).result.Success?
      ensures p.results[i].Success? ==> p.results[i] == Success(true)
    {
      PassStateInvariant(s, rows, answers, i);
      assert RowStep(p.states[i], rows[i], answers[i], p.states[i + 1], p.results[i]);
      UpdateOneOutcome(p.states[i], rows[i], answers[i]);
    }
  }

  /** A pass keeps the producer invariant. */
  lemma UpdatePreservesInvariant(s: ProducerState, rows: seq<Video>, answers: seq<Answers>)
    requires |answers| == |rows|
    requires ProducerInvariant(s)
    ensures ProducerInvariant(UpdateVideoData(s, rows, answers).state)
  {
    PassStateInvariant(s, rows, answers, |rows|);
  }

  /** A pass over what `findAll` returned updates every stored video
      exactly once, each from its own stored row, and an empty repository
      makes the pass do nothing. */
  lemma PassCoversRepository(s: ProducerState, rows: seq<Video>, answers: seq<Answers>)
    requires |answers| == |rows|
    requires IsListing(s.repo, rows)
    ensures var p := UpdateVideoData(s, rows, answers);
      && |p.results| == |s.repo|
      && (forall id :: id in s.repo <==> exists i :: 0 <= i < |rows| && rows[i].videoId == Some(id))
      && (forall i :: 0 <= i < |rows| ==>
            RowStep(p.states[i], s.repo[rows[i].videoId.value], answers[i], p.states[i + 1], p.results[i]))
      && (|s.repo| == 0 ==> p.state == s && p.results == [])
  {
    ListingCoversRepository(s.repo, rows);
  }
}
