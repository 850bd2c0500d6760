/** `getAnalytics` of the spring consumer: one pass over the live records
    accumulating totals, first-wins holders of the five count maxima, and
    the holder of the highest engagement rate, then the average rate.
    Rates are exact rationals here; the source computes them in `double`
    and formats the average with two decimals. */
module Analytics {
  import opened Wrappers
  import opened Videos

  /** The five count maxima in the order the loop updates them. */
  const HolderOrder: seq<Metric> := [Views, Likes, Comments, Subscribers, ChannelVideos]

  /** Comparing with a holder whose count is null unboxes null. */
  datatype AnalyticsFault = NullHolderCount(metric: Metric)

  /** The holders found so far; a missing metric is a `null` holder. */
  type Holders = map<Metric, Video>

  function Get(hs: Holders, m: Metric): Option<Video> {
    if m in hs then Some(hs[m]) else None
  }

  /** `(likes + comments) * 100 / views`, or 0 without views. */
  function Rate(v: Video): (r: real)
    ensures r >= 0.0
    ensures OrZero(v.viewCount) == 0 ==> r == 0.0
  {
    var views := OrZero(v.viewCount);
    if views > 0 then ((OrZero(v.likeCount) + OrZero(v.commentCount)) * 100) as real / views as real
    else 0.0
  }

  /** The average rate over the totals, 0 without views. */
  function AverageRate(views: nat, likes: nat, comments: nat): (r: real)
    ensures views == 0 ==> r == 0.0
  {
    if views > 0 then ((likes + comments) * 100) as real / views as real else 0.0
  }

  /** Comparing `v` against holder `h` on `m` throws. */
  predicate Faults(h: Option<Video>, v: Video, m: Metric) {
    h.Some? && Count(h.value, m).None? && Count(v, m).Some?
  }

  /** `if (h == null || (v.getM() != null && v.getM() > h.getM())) h = v;` */
  function UpdateHolder(h: Option<Video>, v: Video, m: Metric): (r: Result<Video, AnalyticsFault>)
    ensures r.Failure? <==> Faults(h, v, m)
    ensures r.Success? ==> r.value == v || (h.Some? && r.value == h.value)
    // the first record leads whatever its counts; a later null count never does
    ensures h.None? ==> r == Success(v)
    ensures h.Some? && Count(v, m).None? ==> r == Success(h.value)
  {
    match h
    case None => Success(v)
    case Some(cur) =>
      match Count(v, m)
      case None => Success(cur)
      case Some(x) =>
        match Count(cur, m)
        case None => Failure(NullHolderCount(m))
        case Some(y) => if x > y then Success(v) else Success(cur)
  }

  /** The holder updates of one loop iteration, over the metrics `ms`. */
  function UpdateHolders(hs: Holders, v: Video, ms: seq<Metric>): (r: Result<Holders, AnalyticsFault>)
    requires forall i, j :: 0 <= i < j < |ms| ==> ms[i] != ms[j]
    ensures r.Failure? <==> exists m :: m in ms && Faults(Get(hs, m), v, m)
    ensures r.Success? ==> forall m :: m !in ms ==> Get(r.value, m) == Get(hs, m)
    ensures r.Success? ==> forall m :: m in ms ==> Get(r.value, m) == Some(UpdateHolder(Get(hs, m), v, m).value)
    decreases |ms|
  {
    if |ms| == 0 then Success(hs)
    else
      var h :- UpdateHolder(Get(hs, ms[0]), v, ms[0]);
      DistinctTail(ms);
      UpdateHolders(hs[ms[0] := h], v, ms[1..])
  }

  /** Splitting a repetition-free metric list at its head. */
  lemma DistinctTail(ms: seq<Metric>)
    requires |ms| > 0
    requires forall i, j :: 0 <= i < j < |ms| ==> ms[i] != ms[j]
    ensures forall i, j :: 0 <= i < j < |ms[1..]| ==> ms[1..][i] != ms[1..][j]
    ensures ms[0] !in ms[1..]
    ensures forall m :: m in ms <==> m == ms[0] || m in ms[1..]
  {
    assert ms == [ms[0]] + ms[1..];
  }

  /** The holder updates of one loop iteration, over all five metrics. */
  function UpdateAll(hs: Holders, v: Video): (r: Result<Holders, AnalyticsFault>)
    ensures r.Failure? <==> exists m :: Faults(Get(hs, m), v, m)
    ensures r.Success? ==> forall m :: Get(r.value, m) == Some(UpdateHolder(Get(hs, m), v, m).value)
  {
    HolderOrderDistinct();
    AllMetricsInOrder();
    UpdateHolders(hs, v, HolderOrder)
  }

  /** What the loop carries from one record to the next. */
  datatype Acc = Acc(views: nat, likes: nat, comments: nat, holders: Holders, maxRate: real, engagement: Option<Video>)

  const Init := Acc(0, 0, 0, map[], 0.0, None)

  /** One iteration of the loop. */
  function Step(acc: Acc, v: Video): Result<Acc, AnalyticsFault> {
    var hs :- UpdateAll(acc.holders, v);
    var rate := Rate(v);
    Success(Acc(
      acc.views + OrZero(v.viewCount),
      acc.likes + OrZero(v.likeCount),
      acc.comments + OrZero(v.commentCount),
      hs,
      if rate > acc.maxRate then rate else acc.maxRate,
      if rate > acc.maxRate then Some(v) else acc.engagement))
  }

  /** The loop over `rows`, in iteration order; the first exception ends it. */
  function Scan(rows: seq<Video>): Result<Acc, AnalyticsFault> {
    if |rows| == 0 then Success(Init)
    else
      var acc :- Scan(rows[..|rows| - 1]);
      Step(acc, rows[|rows| - 1])
  }

  /** The result map: absent for an empty live set. */
  datatype Snapshot = Snapshot(
    totalVideos: nat,
    totalViews: nat,
    totalLikes: nat,
    totalComments: nat,
    averageEngagementRate: real,
    highest: Holders,
    highestEngagement: Option<Video>)

  /** `getAnalytics` over the records in the order `getAllVideos` lists them. */
  function GetAnalytics(rows: seq<Video>): (r: Result<Option<Snapshot>, AnalyticsFault>)
    ensures |rows| == 0 <==> r == Success(None)
    ensures r.Success? && r.value.Some? ==> r.value.value.totalVideos == |rows|
  {
    if |rows| == 0 then Success(None)
    else
      var acc :- Scan(rows);
      Success(Some(Snapshot(
        |rows|, acc.views, acc.likes, acc.comments,
        AverageRate(acc.views, acc.likes, acc.comments),
        acc.holders, acc.engagement)))
  }

  // ---------------------------------------------------------------------
  // Reference definitions, independent of the loop.

  /** The sum of `m` over `rows`, null counted as 0. */
  function SumOf(rows: seq<Video>, m: Metric): nat {
    if |rows| == 0 then 0 else SumOf(rows[..|rows| - 1], m) + OrZero(Count(rows[|rows| - 1], m))
  }

  /** `rows[k]` holds the first-seen maximum of `m` among non-null
      counts; when every count is null it is the first record. */
  predicate IsFirstMax(rows: seq<Video>, m: Metric, k: int) {
    && 0 <= k < |rows|
    && (forall j :: 0 <= j < |rows| ==>
          Count(rows[j], m).None? || (Count(rows[k], m).Some? && Count(rows[j], m).value <= Count(rows[k], m).value))
    && (forall j :: 0 <= j < k ==>
          Count(rows[j], m).None? || (Count(rows[k], m).Some? && Count(rows[j], m).value < Count(rows[k], m).value))
    && (Count(rows[k], m).None? ==> k == 0)
  }

  /** The holder of `m` in `hs` is a first-seen maximum of `rows`. */
  predicate HoldsFirstMax(rows: seq<Video>, m: Metric, hs: Holders) {
    m in hs && exists k :: 0 <= k < |rows| && IsFirstMax(rows, m, k) && hs[m] == rows[k]
  }

  /** `rows[k]` has the first-seen maximal rate, and it is positive. */
  predicate IsFirstMaxRate(rows: seq<Video>, k: int) {
    && 0 <= k < |rows|
    && Rate(rows[k]) > 0.0
    && (forall j :: 0 <= j < |rows| ==> Rate(rows[j]) <= Rate(rows[k]))
    && (forall j :: 0 <= j < k ==> Rate(rows[j]) < Rate(rows[k]))
  }

  /** The source's NullPointerException: the first record has a null
      count for some metric that a later record has non-null. */
  predicate NullHolderFault(rows: seq<Video>) {
    exists m, j :: 0 < j < |rows| && Count(rows[0], m).None? && Count(rows[j], m).Some?
  }

  // ---------------------------------------------------------------------
  // The loop agrees with the reference definitions.

  lemma AllMetricsInOrder()
    ensures forall m :: m in HolderOrder
  {
    forall m ensures m in HolderOrder {
      match m
      case Views => assert HolderOrder[0] == m;
      case Likes => assert HolderOrder[1] == m;
      case Comments => assert HolderOrder[2] == m;
      case Subscribers => assert HolderOrder[3] == m;
      case ChannelVideos => assert HolderOrder[4] == m;
    }
  }

  /** The totals are the sums, nulls counting 0. */
  lemma ScanTotals(rows: seq<Video>)
    requires Scan(rows).Success?
    ensures Scan(rows).value.views == SumOf(rows, Views)
    ensures Scan(rows).value.likes == SumOf(rows, Likes)
    ensures Scan(rows).value.comments == SumOf(rows, Comments)
  {
    ScanTotal(rows, Views);
    ScanTotal(rows, Likes);
    ScanTotal(rows, Comments);
  }

  /** The running total the loop keeps for `m`, one of the three summed
      metrics. */
  function Total(acc: Acc, m: Metric): nat
    requires m == Views || m == Likes || m == Comments
  {
    if m == Views then acc.views else if m == Likes then acc.likes else acc.comments
  }

  lemma {:induction false} ScanTotal(rows: seq<Video>, m: Metric)
    requires m == Views || m == Likes || m == Comments
    requires Scan(rows).Success?
    ensures Total(Scan(rows).value, m) == SumOf(rows, m)
  {
    if |rows| > 0 {
      var p := rows[..|rows| - 1];
      var v := rows[|rows| - 1];
      assert Scan(rows) == Step(Scan(p).value, v);
      ScanTotal(p, m);
      StepTotal(Scan(p).value, v, m);
    }
  }

  /** One iteration adds the record's count, null counting 0. */
  lemma StepTotal(acc: Acc, v: Video, m: Metric)
    requires m == Views || m == Likes || m == Comments
    requires Step(acc, v).Success?
    ensures Total(Step(acc, v).value, m) == Total(acc, m) + OrZero(Count(v, m))
  {
  }

  /** At most one record is the first-seen maximum. */
  lemma IsFirstMaxUnique(rows: seq<Video>, m: Metric, k1: int, k2: int)
    requires IsFirstMax(rows, m, k1) && IsFirstMax(rows, m, k2)
    ensures k1 == k2
  {
  }

  /** Without an earlier fault, the holder's count is null exactly when
      the first record's is. */
  lemma HolderNullIffFirstNull(p: seq<Video>, m: Metric, k: int)
    requires IsFirstMax(p, m, k) && !NullHolderFault(p)
    ensures Count(p[k], m).None? <==> Count(p[0], m).None?
  {
    if Count(p[0], m).None? && Count(p[k], m).Some? {
      assert k != 0;
      assert Count(p[k], m).Some? && Count(p[0], m).None?;
      assert NullHolderFault(p);
    }
  }

  /** One iteration moves the first-seen maximum of `m` from `p` to
      `p + [v]`. */
  lemma StepHolder(p: seq<Video>, v: Video, m: Metric, k: int) returns (k': int)
    requires IsFirstMax(p, m, k)
    requires !Faults(Some(p[k]), v, m)
    ensures IsFirstMax(p + [v], m, k')
    ensures UpdateHolder(Some(p[k]), v, m) == Success((p + [v])[k'])
  {
    var rows := p + [v];
    assert forall j :: 0 <= j < |p| ==> rows[j] == p[j];
    if Count(v, m).Some? && Count(p[k], m).Some? && Count(v, m).value > Count(p[k], m).value {
      k' := |p|;
    } else {
      k' := k;
    }
  }

  /** A throwing iteration after a fault-free prefix completes a
      `NullHolderFault`. */
  lemma StepFaultIsNullHolderFault(p: seq<Video>, v: Video, hs: Holders, m: Metric)
    requires |p| > 0 && !NullHolderFault(p)
    requires HoldsFirstMax(p, m, hs)
    requires Faults(Get(hs, m), v, m)
    ensures NullHolderFault(p + [v])
  {
    var k :| 0 <= k < |p| && IsFirstMax(p, m, k) && hs[m] == p[k];
    HolderNullIffFirstNull(p, m, k);
    var rows := p + [v];
    assert rows[0] == p[0] && rows[|p|] == v;
    assert Count(rows[0], m).None? && Count(rows[|p|], m).Some?;
  }

  /** A `NullHolderFault` that the prefix lacks is met by the last
      iteration. */
  lemma NullHolderFaultIsStepFault(p: seq<Video>, v: Video, hs: Holders)
    requires |p| > 0 && !NullHolderFault(p)
    requires forall m :: HoldsFirstMax(p, m, hs)
    requires NullHolderFault(p + [v])
    ensures exists m :: Faults(Get(hs, m), v, m)
  {
    var rows := p + [v];
    var m, j :| 0 < j < |rows| && Count(rows[0], m).None? && Count(rows[j], m).Some?;
    assert rows[0] == p[0];
    if j < |p| {
      assert false;
    }
    assert rows[j] == v;
    assert HoldsFirstMax(p, m, hs);
    var k :| 0 <= k < |p| && IsFirstMax(p, m, k) && hs[m] == p[k];
    HolderNullIffFirstNull(p, m, k);
    AllMetricsInOrder();
    assert Faults(Get(hs, m), v, m);
  }

  /** The loop after one more record. */
  lemma ScanSnoc(p: seq<Video>, v: Video)
    ensures Scan(p + [v]) == if Scan(p).Failure? then Failure(Scan(p).error) else Step(Scan(p).value, v)
  {
    assert (p + [v])[..|p|] == p;
  }

  lemma StepParts(acc: Acc, v: Video)
    ensures Step(acc, v).Failure? <==> UpdateAll(acc.holders, v).Failure?
    ensures Step(acc, v).Success? ==>
      && Step(acc, v).value.holders == UpdateAll(acc.holders, v).value
      && Step(acc, v).value.maxRate == (if Rate(v) > acc.maxRate then Rate(v) else acc.maxRate)
      && Step(acc, v).value.engagement == (if Rate(v) > acc.maxRate then Some(v) else acc.engagement)
  {
  }

  /** The first record holds every maximum. */
  lemma HoldersOfFirst(v: Video)
    ensures UpdateAll(map[], v).Success?
    ensures forall m :: HoldsFirstMax([v], m, UpdateAll(map[], v).value)
  {
    AllMetricsInOrder();
    var hs := UpdateAll(map[], v).value;
    forall m ensures HoldsFirstMax([v], m, hs) {
      assert Get(hs, m) == Some(v);
      assert IsFirstMax([v], m, 0);
    }
  }

  /** A fault-free iteration keeps every holder a first-seen maximum. */
  lemma HoldersAfterStep(p: seq<Video>, v: Video, hs: Holders)
    requires forall m :: HoldsFirstMax(p, m, hs)
    requires UpdateAll(hs, v).Success?
    ensures forall m :: HoldsFirstMax(p + [v], m, UpdateAll(hs, v).value)
  {
    var hs' := UpdateAll(hs, v).value;
    forall m ensures HoldsFirstMax(p + [v], m, hs') {
      HolderAfterStep(p, v, hs, m);
    }
  }

  lemma HolderAfterStep(p: seq<Video>, v: Video, hs: Holders, m: Metric)
    requires HoldsFirstMax(p, m, hs)
    requires UpdateAll(hs, v).Success?
    ensures HoldsFirstMax(p + [v], m, UpdateAll(hs, v).value)
  {
    var hs' := UpdateAll(hs, v).value;
    var k :| 0 <= k < |p| && IsFirstMax(p, m, k) && hs[m] == p[k];
    assert Get(hs, m) == Some(p[k]);
    var k' := StepHolder(p, v, m, k);
    assert Get(hs', m) == Some((p + [v])[k']);
  }

  /** The loop throws exactly on `NullHolderFault`, and otherwise every
      holder is the first-seen maximum of its metric. */
  lemma {:induction false} ScanHolders(rows: seq<Video>)
    ensures Scan(rows).Failure? <==> NullHolderFault(rows)
    ensures Scan(rows).Success? && |rows| > 0 ==> forall m :: HoldsFirstMax(rows, m, Scan(rows).value.holders)
  {
    if |rows| == 0 {
      return;
    }
    var p := rows[..|rows| - 1];
    var v := rows[|rows| - 1];
    assert rows == p + [v];
    ScanHolders(p);
    ScanSnoc(p, v);
    if Scan(p).Failure? {
      var m, j :| 0 < j < |p| && Count(p[0], m).None? && Count(p[j], m).Some?;
      assert rows[0] == p[0] && rows[j] == p[j];
      return;
    }
    var acc := Scan(p).value;
    StepParts(acc, v);
    if |p| == 0 {
      assert acc == Init;
      HoldersOfFirst(v);
      return;
    }
    if Scan(rows).Failure? {
      var m :| Faults(Get(acc.holders, m), v, m);
      StepFaultIsNullHolderFault(p, v, acc.holders, m);
    } else {
      if NullHolderFault(rows) {
        NullHolderFaultIsStepFault(p, v, acc.holders);
      }
      HoldersAfterStep(p, v, acc.holders);
    }
  }

  /** The running maximum rate and its holder describe `rows`. */
  predicate EngagementSpec(rows: seq<Video>, maxRate: real, engagement: Option<Video>) {
    && (engagement.None? <==> forall j :: 0 <= j < |rows| ==> Rate(rows[j]) == 0.0)
    && (engagement.None? ==> maxRate == 0.0)
    && (engagement.Some? ==>
          exists k :: 0 <= k < |rows| && IsFirstMaxRate(rows, k) && engagement.value == rows[k] && maxRate == Rate(rows[k]))
  }

  lemma EngagementStep(p: seq<Video>, v: Video, maxRate: real, engagement: Option<Video>)
    requires EngagementSpec(p, maxRate, engagement)
    ensures EngagementSpec(p + [v],
      if Rate(v) > maxRate then Rate(v) else maxRate,
      if Rate(v) > maxRate then Some(v) else engagement)
  {
    var rows := p + [v];
    assert forall j :: 0 <= j < |p| ==> rows[j] == p[j];
    assert rows[|p|] == v;
    if Rate(v) > maxRate {
      assert IsFirstMaxRate(rows, |p|);
    } else if engagement.Some? {
      var k :| 0 <= k < |p| && IsFirstMaxRate(p, k) && engagement.value == p[k] && maxRate == Rate(p[k]);
      assert IsFirstMaxRate(rows, k);
    }
  }

  /** The engagement holder is the first record of maximal positive
      rate, and absent when every rate is 0. */
  lemma {:induction false} ScanEngagement(rows: seq<Video>)
    ensures Scan(rows).Success? ==> EngagementSpec(rows, Scan(rows).value.maxRate, Scan(rows).value.engagement)
  {
    if |rows| > 0 {
      var p := rows[..|rows| - 1];
      var v := rows[|rows| - 1];
      assert rows == p + [v];
      ScanSnoc(p, v);
      ScanEngagement(p);
      if Scan(rows).Failure? {
        return;
      }
      var acc := Scan(p).value;
      StepParts(acc, v);
      var acc' := Scan(rows).value;
      assert acc'.maxRate == (if Rate(v) > acc.maxRate then Rate(v) else acc.maxRate);
      assert acc'.engagement == (if Rate(v) > acc.maxRate then Some(v) else acc.engagement);
      EngagementStep(p, v, acc.maxRate, acc.engagement);
    }
  }

  /** `getAnalytics` against the reference definitions: it throws exactly
      on `NullHolderFault`; otherwise the totals are the null-as-0 sums,
      the average is computed from them, every count holder is the
      first-seen maximum, and the engagement holder is the first record
      of maximal positive rate (absent when all rates are 0). */
  lemma GetAnalyticsCorrect(rows: seq<Video>)
    ensures GetAnalytics(rows).Failure? <==> NullHolderFault(rows)
    ensures GetAnalytics(rows).Success? && |rows| > 0 ==>
      var snap := GetAnalytics(rows).value.value;
      && snap.totalViews == SumOf(rows, Views)
      && snap.totalLikes == SumOf(rows, Likes)
      && snap.totalComments == SumOf(rows, Comments)
      && snap.averageEngagementRate == AverageRate(SumOf(rows, Views), SumOf(rows, Likes), SumOf(rows, Comments))
      && (forall m :: HoldsFirstMax(rows, m, snap.highest))
      && (snap.highestEngagement.None? <==> forall j :: 0 <= j < |rows| ==> Rate(rows[j]) == 0.0)
      && (snap.highestEngagement.Some? ==>
            exists k :: 0 <= k < |rows| && IsFirstMaxRate(rows, k) && snap.highestEngagement.value == rows[k])
  {
    ScanHolders(rows);
    ScanEngagement(rows);
    if |rows| > 0 && Scan(rows).Success? {
      ScanTotals(rows);
    }
  }

  /** Ties keep the earlier record: of two records with the same
      non-null count, the first is reported. */
  lemma TieKeepsFirst(a: Video, b: Video, m: Metric)
    requires Count(a, m).Some? && Count(b, m) == Count(a, m)
    requires GetAnalytics([a, b]).Success?
    ensures m in GetAnalytics([a, b]).value.value.highest
    ensures GetAnalytics([a, b]).value.value.highest[m] == a
  {
    var rows := [a, b];
    GetAnalyticsCorrect(rows);
    var hs := GetAnalytics(rows).value.value.highest;
    assert HoldsFirstMax(rows, m, hs);
    var k :| 0 <= k < |rows| && IsFirstMax(rows, m, k) && hs[m] == rows[k];
    assert IsFirstMax(rows, m, 0);
    IsFirstMaxUnique(rows, m, k, 0);
  }

  lemma HolderOrderDistinct()
    ensures forall i, j :: 0 <= i < j < |HolderOrder| ==> HolderOrder[i] != HolderOrder[j]
  {
  }

  /** The loop after its first record: every holder is that record. */
  lemma ScanOfOne(a: Video)
    ensures Scan([a]).Success?
    ensures Scan([a]).value.views == OrZero(a.viewCount)
    ensures Scan([a]).value.likes == OrZero(a.likeCount)
    ensures Scan([a]).value.comments == OrZero(a.commentCount)
    ensures forall m :: Get(Scan([a]).value.holders, m) == Some(a)
    ensures Scan([a]).value.maxRate == Rate(a)
    ensures Scan([a]).value.engagement == if Rate(a) > 0.0 then Some(a) else None
  {
    assert Scan([a]) == Step(Init, a);
    FirstStep(a);
  }

  lemma FirstStep(a: Video)
    ensures Step(Init, a).Success?
    ensures Step(Init, a).value.views == OrZero(a.viewCount)
    ensures Step(Init, a).value.likes == OrZero(a.likeCount)
    ensures Step(Init, a).value.comments == OrZero(a.commentCount)
    ensures forall m :: Get(Step(Init, a).value.holders, m) == Some(a)
    ensures Step(Init, a).value.maxRate == Rate(a)
    ensures Step(Init, a).value.engagement == if Rate(a) > 0.0 then Some(a) else None
  {
    FirstHolders(a);
    StepParts(Init, a);
    StepTotal(Init, a, Views);
    StepTotal(Init, a, Likes);
    StepTotal(Init, a, Comments);
  }

  /** Against no leaders at all, the first record leads every metric. */
  lemma FirstHolders(a: Video)
    ensures UpdateAll(map[], a).Success?
    ensures forall m :: Get(UpdateAll(map[], a).value, m) == Some(a)
  {
    AllMetricsInOrder();
    HolderOrderDistinct();
  }

  lemma ScanOfTwo(a: Video, b: Video)
    ensures Scan([a, b]) == if Scan([a]).Failure? then Failure(Scan([a]).error) else Step(Scan([a]).value, b)
  {
    ScanSnoc([a], b);
    assert [a] + [b] == [a, b];
  }

  /** The second iteration when the first record holds everything and
      no comparison meets a null. */
  lemma StepAfterFirst(acc: Acc, a: Video, b: Video)
    requires forall m :: Get(acc.holders, m) == Some(a)
    requires forall m :: !Faults(Some(a), b, m)
    ensures Step(acc, b).Success?
    ensures forall m :: Get(Step(acc, b).value.holders, m) == Some(UpdateHolder(Some(a), b, m).value)
    ensures Step(acc, b).value.views == acc.views + OrZero(b.viewCount)
    ensures Step(acc, b).value.likes == acc.likes + OrZero(b.likeCount)
    ensures Step(acc, b).value.comments == acc.comments + OrZero(b.commentCount)
    ensures Step(acc, b).value.engagement == if Rate(b) > acc.maxRate then Some(b) else acc.engagement
  {
    AllMetricsInOrder();
    StepParts(acc, b);
  }

  lemma ScenarioRates(a: Video, b: Video)
    requires a.viewCount == Some(100) && a.likeCount == Some(10) && a.commentCount == Some(5)
    requires b.viewCount == Some(50) && b.likeCount == Some(20) && b.commentCount == Some(1)
    ensures Rate(a) == 15.0 && Rate(b) == 42.0
  {
  }

  /** The loop over the records of `TwoRecordScenario`. */
  lemma TwoRecordScan(a: Video, b: Video)
    requires a.viewCount == Some(100) && a.likeCount == Some(10) && a.commentCount == Some(5)
    requires b.viewCount == Some(50) && b.likeCount == Some(20) && b.commentCount == Some(1)
    requires a.subscriberCount.None? && a.videoCount.None? && b.subscriberCount.None? && b.videoCount.None?
    ensures Scan([a, b]).Success?
    ensures var acc := Scan([a, b]).value;
      && acc.views == 150 && acc.likes == 30 && acc.comments == 6
      && Get(acc.holders, Views) == Some(a) && Get(acc.holders, Likes) == Some(b)
      && acc.engagement == Some(b)
  {
    ScenarioRates(a, b);
    ScanOfOne(a);
    ScanOfTwo(a, b);
    var acc1 := Scan([a]).value;
    forall m ensures !Faults(Some(a), b, m) {
      if Count(a, m).None? {
        assert m == Subscribers || m == ChannelVideos;
      }
    }
    StepAfterFirst(acc1, a, b);
    assert UpdateHolder(Some(a), b, Views) == Success(a);
    assert UpdateHolder(Some(a), b, Likes) == Success(b);
  }

  /** Two records A {views 100, likes 10, comments 5} and
      B {views 50, likes 20, comments 1}, channel counters unknown:
      totals 150, 30 and 6, A holds the views maximum, B the likes
      maximum, B the engagement maximum (42 against 15), and the average
      rate is (30 + 6) * 100 / 150 = 24. */
  lemma TwoRecordScenario(a: Video, b: Video)
    requires a.viewCount == Some(100) && a.likeCount == Some(10) && a.commentCount == Some(5)
    requires b.viewCount == Some(50) && b.likeCount == Some(20) && b.commentCount == Some(1)
    requires a.subscriberCount.None? && a.videoCount.None? && b.subscriberCount.None? && b.videoCount.None?
    ensures
      var r := GetAnalytics([a, b]);
      && r.Success? && r.value.Some?
      && r.value.value.totalVideos == 2
      && r.value.value.totalViews == 150
      && r.value.value.totalLikes == 30
      && r.value.value.totalComments == 6
      && r.value.value.averageEngagementRate == 24.0
      && Get(r.value.value.highest, Views) == Some(a)
      && Get(r.value.value.highest, Likes) == Some(b)
      && r.value.value.highestEngagement == Some(b)
  {
    TwoRecordScan(a, b);
    assert AverageRate(150, 30, 6) == 24.0;
  }
}
