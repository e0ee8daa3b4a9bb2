/** The asset page: the chart period, the newest prediction per horizon, the
    chart points and the price history. Times are epoch seconds unless a
    name says milliseconds; the clock is a parameter. ISO-8601 rendering of a
    time is not modelled: a time is shown as its epoch value. */
module AssetController {
  import opened Wrappers
  import opened PhpText
  import opened Sorting
  import opened Projection
  import Horizon

  // ---- chart period ----

  const Periods: set<int> := {7, 30, 90, 180}

  /** `chartPeriod`: the `period` parameter cast to an integer when it is one
      of the offered periods, else 7 days (also when the parameter is absent). */
  function ChartPeriod(period: Option<string>): (d: int)
    ensures d in Periods
    ensures period.Some? && PhpIntCast(period.value) in Periods ==> d == PhpIntCast(period.value)
    ensures (period.None? || PhpIntCast(period.value) !in Periods) ==> d == 7
  {
    var requested := if period.Some? then PhpIntCast(period.value) else 7;
    if requested in Periods then requested else 7
  }

  /** Every offered period, written in decimal, is taken as it is. */
  lemma ChartPeriodOffered(d: int)
    requires d in Periods
    ensures ChartPeriod(Some(IntToString(d))) == d
  {
    PhpIntCastOfInt(d);
  }

  /** The cast reads exponent notation: `period=3e1` asks for 30 days. */
  lemma ChartPeriodExponent()
    ensures ChartPeriod(Some("3e1")) == 30
  {
    PhpIntCastExponent();
  }

  // ---- predictions of one asset ----

  datatype Prediction = Prediction(pid: string, horizon: string, pricePrediction: real, confidence: real, timestamp: int)

  function PredictionHorizon(p: Prediction): string { p.horizon }
  function PredictionStamp(p: Prediction): int { p.timestamp }

  /** `where('pid', …)->orderByDesc('timestamp')->get()`: the asset's rows,
      newest first. Among rows with the same timestamp the database may pick
      any order; the model keeps the table order. */
  function NewestFirst(pid: string, rows: seq<Prediction>): (r: seq<Prediction>)
    ensures SortedBy(r, ByKeyDesc(PredictionStamp))
    ensures forall p :: multiset(r)[p] == if p.pid == pid then multiset(rows)[p] else 0
  {
    ByKeyDescPreorder(PredictionStamp);
    InsertionSort(Filter(rows, (p: Prediction) => p.pid == pid), ByKeyDesc(PredictionStamp))
  }

  lemma NewestFirstElements(pid: string, rows: seq<Prediction>, p: Prediction)
    ensures p in NewestFirst(pid, rows) <==> p in rows && p.pid == pid
  {
    var r := NewestFirst(pid, rows);
    assert p in r <==> multiset(r)[p] > 0;
    assert p in rows <==> multiset(rows)[p] > 0;
  }

  /** The newest prediction of every horizon of the asset, newest horizon
      first. */
  function LatestPerHorizon(pid: string, rows: seq<Prediction>): (r: seq<Prediction>)
    ensures forall i, j :: 0 <= i < j < |r| ==> r[i].horizon != r[j].horizon
    ensures forall i :: 0 <= i < |r| ==> r[i] in rows && r[i].pid == pid
  {
    var sorted := NewestFirst(pid, rows);
    var r := FirstPerKey(sorted, PredictionHorizon);
    assert forall i :: 0 <= i < |r| ==> r[i] in sorted;
    forall i | 0 <= i < |r| ensures r[i] in rows && r[i].pid == pid {
      NewestFirstElements(pid, rows, r[i]);
    }
    r
  }

  /** Every horizon predicted for the asset is listed, with a prediction at
      least as new as any other of that horizon. */
  lemma LatestPerHorizonNewest(pid: string, rows: seq<Prediction>, p: Prediction)
    requires p in rows && p.pid == pid
    ensures exists q :: q in LatestPerHorizon(pid, rows) && q.horizon == p.horizon && p.timestamp <= q.timestamp
  {
    var sorted := NewestFirst(pid, rows);
    NewestFirstElements(pid, rows, p);
    assert forall i, j :: 0 <= i < j < |sorted| ==> ByKeyDesc(PredictionStamp)(sorted[i], sorted[j]);
    FirstPerKeyNewest(sorted, PredictionHorizon, PredictionStamp, p);
  }

  // ---- derived values ----

  /** `$asset->cachedPrice?->price ?? $asset->latestPrice?->last ?? 0`. */
  function CurrentPrice(cachedPrice: Option<real>, latestLast: Option<real>): (c: real)
    ensures cachedPrice.Some? ==> c == cachedPrice.value
    ensures cachedPrice.None? && latestLast.Some? ==> c == latestLast.value
    ensures cachedPrice.None? && latestLast.None? ==> c == 0.0
  {
    if cachedPrice.Some? then cachedPrice.value else latestLast.GetOr(0.0)
  }

  /** The expected gain in percent; 0 when there is no positive current price. */
  function ExpectedGain(currentPrice: real, predicted: real): (g: real)
    ensures currentPrice <= 0.0 ==> g == 0.0
    ensures currentPrice > 0.0 ==> g * currentPrice == (predicted - currentPrice) * 100.0
  {
    if currentPrice > 0.0 then ((predicted - currentPrice) / currentPrice) * 100.0 else 0.0
  }

  /** PHP's `round($x)`: to the nearest integer, halves away from zero. */
  function RoundHalfAway(x: real): (n: int)
    ensures x >= 0.0 ==> n as real - 0.5 <= x < n as real + 0.5
    ensures x < 0.0 ==> n as real - 0.5 < x <= n as real + 0.5
  {
    if x >= 0.0 then (x + 0.5).Floor else 0 - (0.5 - x).Floor
  }

  /** `round($x, 2)`: a whole number of hundredths, the nearest one to `x`,
      halves away from zero. */
  function Round2(x: real): (r: real)
    ensures (r * 100.0).Floor as real == r * 100.0
    ensures x >= 0.0 ==> r * 100.0 - 0.5 <= x * 100.0 < r * 100.0 + 0.5
    ensures x < 0.0 ==> r * 100.0 - 0.5 < x * 100.0 <= r * 100.0 + 0.5
    ensures r - 0.005 <= x <= r + 0.005
  {
    var n := RoundHalfAway(x * 100.0);
    assert (n as real / 100.0) * 100.0 == n as real;
    n as real / 100.0
  }

  /** A value already in hundredths is left as it is, so rounding twice is
      rounding once. */
  lemma Round2Idempotent(x: real)
    ensures Round2(Round2(x)) == Round2(x)
  {
    var r := Round2(x);
    var n := (r * 100.0).Floor;
    assert r * 100.0 == n as real;
    assert RoundHalfAway(n as real) == n;
  }

  /** The time the prediction is shown at: none for a falsy (zero) timestamp. */
  function ShownTime(ts: int): (t: Option<int>)
    ensures t.Some? <==> ts != 0
    ensures t.Some? ==> t.value == ts
  {
    if ts != 0 then Some(ts) else None
  }

  /** `targetTimestamp`: the prediction time moved forward by the length of its
      horizon, when the time is set and the horizon has a positive length. */
  function TargetTime(ts: int, horizon: string): (t: Option<int>)
    ensures t.Some? <==> ts != 0 && Horizon.IsKnown(horizon)
    ensures t.Some? ==> t.value == ts + Horizon.MinutesOf[horizon] * 60
  {
    Horizon.MinutesPositiveIffKnown(horizon);
    var minutes := Horizon.Minutes(horizon);
    if ts != 0 && minutes > 0 then Some(ts + minutes * 60) else None
  }

  datatype AssetPrediction = AssetPrediction(
    horizon: string, horizonLabel: string, predictedPrice: real, confidence: real,
    expectedGainPercent: real, timestamp: Option<int>, targetTimestamp: Option<int>)

  function AssetPredictionOf(currentPrice: real, p: Prediction): (a: AssetPrediction)
    ensures a.horizon == p.horizon
  {
    AssetPrediction(p.horizon, Horizon.Label(p.horizon), p.pricePrediction, p.confidence,
      Round2(ExpectedGain(currentPrice, p.pricePrediction)), ShownTime(p.timestamp),
      TargetTime(p.timestamp, p.horizon))
  }

  /** `getAssetPredictions`: one entry per horizon predicted for the asset,
      built from the newest prediction of that horizon. */
  function GetAssetPredictions(currentPrice: real, pid: string, rows: seq<Prediction>): (r: seq<AssetPrediction>)
    ensures forall i, j :: 0 <= i < j < |r| ==> r[i].horizon != r[j].horizon
    ensures forall i :: 0 <= i < |r| ==>
      exists p :: p in rows && p.pid == pid && r[i] == AssetPredictionOf(currentPrice, p)
    ensures |r| == |LatestPerHorizon(pid, rows)|
    ensures forall i :: 0 <= i < |r| ==> r[i] == AssetPredictionOf(currentPrice, LatestPerHorizon(pid, rows)[i])
  {
    var latest := LatestPerHorizon(pid, rows);
    var r := seq(|latest|, i requires 0 <= i < |latest| => AssetPredictionOf(currentPrice, latest[i]));
    assert forall i :: 0 <= i < |r| ==> latest[i] in rows && r[i] == AssetPredictionOf(currentPrice, latest[i]);
    r
  }

  /** Every horizon of the asset has an entry, built from a prediction at least
      as new as every other prediction of that horizon. */
  lemma AssetPredictionsCoverHorizons(currentPrice: real, pid: string, rows: seq<Prediction>, p: Prediction)
    requires p in rows && p.pid == pid
    ensures exists q ::
      q in rows && q.pid == pid && q.horizon == p.horizon && p.timestamp <= q.timestamp
      && AssetPredictionOf(currentPrice, q) in GetAssetPredictions(currentPrice, pid, rows)
  {
    LatestPerHorizonNewest(pid, rows, p);
    var latest := LatestPerHorizon(pid, rows);
    var q :| q in latest && q.horizon == p.horizon && p.timestamp <= q.timestamp;
    LatestShown(currentPrice, pid, rows, q);
  }

  /** Each newest prediction of a horizon has its entry. */
  lemma LatestShown(currentPrice: real, pid: string, rows: seq<Prediction>, q: Prediction)
    requires q in LatestPerHorizon(pid, rows)
    ensures AssetPredictionOf(currentPrice, q) in GetAssetPredictions(currentPrice, pid, rows)
  {
    var latest := LatestPerHorizon(pid, rows);
    var i :| 0 <= i < |latest| && latest[i] == q;
    var r := GetAssetPredictions(currentPrice, pid, rows);
    assert r[i] == AssetPredictionOf(currentPrice, q);
  }

  datatype HistoryEntry = HistoryEntry(
    predictedPrice: real, confidence: real, horizon: string, horizonLabel: string,
    timestamp: Option<int>, targetTimestamp: Option<int>)

  function HistoryEntryOf(p: Prediction): (e: HistoryEntry)
    ensures e.horizon == p.horizon
  {
    HistoryEntry(p.pricePrediction, p.confidence, p.horizon, Horizon.Label(p.horizon),
      ShownTime(p.timestamp), TargetTime(p.timestamp, p.horizon))
  }

  function EntryHorizon(e: HistoryEntry): string { e.horizon }

  /** The entries of `getPredictionHistory` before `sortBy`: the i-th built
      from the i-th newest-per-horizon prediction. */
  function HistoryEntries(pid: string, rows: seq<Prediction>): (e: seq<HistoryEntry>)
    ensures forall i, j :: 0 <= i < j < |e| ==> e[i].horizon != e[j].horizon
    ensures forall i :: 0 <= i < |e| ==> exists p :: p in rows && p.pid == pid && e[i] == HistoryEntryOf(p)
    ensures |e| == |LatestPerHorizon(pid, rows)|
    ensures forall i :: 0 <= i < |e| ==> e[i] == HistoryEntryOf(LatestPerHorizon(pid, rows)[i])
  {
    var latest := LatestPerHorizon(pid, rows);
    var e := seq(|latest|, i requires 0 <= i < |latest| => HistoryEntryOf(latest[i]));
    assert forall i :: 0 <= i < |e| ==> latest[i] in rows && e[i] == HistoryEntryOf(latest[i]);
    e
  }

  /** `getPredictionHistory`: the same newest prediction per horizon, then
      `sortBy('horizon')`, which compares the codes with PHP's `<=`: numeric
      codes by value, the others by `strcmp`. */
  function GetPredictionHistory(pid: string, rows: seq<Prediction>): (r: seq<HistoryEntry>)
    ensures SortedBy(r, ByPhpKey(EntryHorizon))
    ensures multiset(r) == multiset(HistoryEntries(pid, rows))
    ensures forall i, j :: 0 <= i < j < |r| ==> r[i].horizon != r[j].horizon
    ensures forall i :: 0 <= i < |r| ==> exists p :: p in rows && p.pid == pid && r[i] == HistoryEntryOf(p)
  {
    var entries := HistoryEntries(pid, rows);
    ByPhpKeyPreorder(EntryHorizon);
    var r := InsertionSort(entries, ByPhpKey(EntryHorizon));
    DistinctKeysPermutation(entries, r, EntryHorizon);
    forall i | 0 <= i < |r| ensures exists p :: p in rows && p.pid == pid && r[i] == HistoryEntryOf(p) {
      assert r[i] in multiset(entries);
      var k :| 0 <= k < |entries| && entries[k] == r[i];
    }
    r
  }

  /** Every horizon predicted for the asset has its history entry, built from
      a prediction at least as new as every other prediction of that horizon. */
  lemma HistoryCoversHorizons(pid: string, rows: seq<Prediction>, p: Prediction)
    requires p in rows && p.pid == pid
    ensures exists q ::
      q in rows && q.pid == pid && q.horizon == p.horizon && p.timestamp <= q.timestamp
      && HistoryEntryOf(q) in GetPredictionHistory(pid, rows)
  {
    LatestPerHorizonNewest(pid, rows, p);
    var latest := LatestPerHorizon(pid, rows);
    var q :| q in latest && q.horizon == p.horizon && p.timestamp <= q.timestamp;
    var i :| 0 <= i < |latest| && latest[i] == q;
    var entries := HistoryEntries(pid, rows);
    assert entries[i] == HistoryEntryOf(q);
    assert HistoryEntryOf(q) in multiset(entries);
  }

  /** The registry's codes are not numeric, so the history puts them in
      string order, not in order of length: a 15-minute prediction precedes a
      2-minute one. */
  lemma HistoryIsAlphabetical()
    ensures !IsIntegerString("15min") && !IsIntegerString("2min")
    ensures PhpSortLe("15min", "2min") && !PhpSortLe("2min", "15min")
    ensures Horizon.Minutes("2min") < Horizon.Minutes("15min")
  {
    assert !IsDigit("15min"[2]) && !IsDigit("2min"[1]);
  }

  /** Numeric codes, as a `smallInteger` column read back as a string gives
      them, are listed by value. */
  lemma HistoryByValue(pid: string, rows: seq<Prediction>, i: nat, j: nat)
    requires i < j < |GetPredictionHistory(pid, rows)|
    requires IsIntegerString(GetPredictionHistory(pid, rows)[i].horizon)
    requires IsIntegerString(GetPredictionHistory(pid, rows)[j].horizon)
    ensures IntegerValue(GetPredictionHistory(pid, rows)[i].horizon) <= IntegerValue(GetPredictionHistory(pid, rows)[j].horizon)
  {
    HistoryPairOrdered(GetPredictionHistory(pid, rows), i, j);
  }

  /** A 5-minute code comes before a 15-minute one, though `strcmp` would put
      `"15"` first. */
  lemma FiveBeforeFifteen(pid: string, rows: seq<Prediction>, i: nat, j: nat)
    requires i < |GetPredictionHistory(pid, rows)| && j < |GetPredictionHistory(pid, rows)|
    requires GetPredictionHistory(pid, rows)[i].horizon == "5"
    requires GetPredictionHistory(pid, rows)[j].horizon == "15"
    ensures i < j
    ensures StrLe("15", "5")
  {
    FiveAndFifteen();
    if j < i {
      HistoryPairOrdered(GetPredictionHistory(pid, rows), j, i);
      assert false;
    }
    if i == j {
      assert false;
    }
  }

  /** `"5"` and `"15"` are numeric, of values 5 and 15, and `strcmp` puts
      `"15"` first. */
  lemma FiveAndFifteen()
    ensures IsIntegerString("5") && IsIntegerString("15")
    ensures IntegerValue("5") == 5 && IntegerValue("15") == 15
    ensures StrLe("15", "5")
  {
    assert "15"[..1] == "1";
  }

  /** Two entries of a history are in `PhpSortLe` order of their codes. */
  lemma HistoryPairOrdered(r: seq<HistoryEntry>, i: nat, j: nat)
    requires SortedBy(r, ByPhpKey(EntryHorizon)) && i < j < |r|
    ensures PhpSortLe(r[i].horizon, r[j].horizon)
  {
    assert ByPhpKey(EntryHorizon)(r[i], r[j]);
    assert EntryHorizon(r[i]) == r[i].horizon && EntryHorizon(r[j]) == r[j].horizon;
  }

  // ---- chart ----

  datatype ChartPoint = ChartPoint(timestampMs: int, price: real, isPrediction: bool, horizon: Option<string>)

  function PointTime(c: ChartPoint): int { c.timestampMs }

  /** The first point: the current price at the time of the last price. */
  function StartPoint(currentPrice: real, last: int): ChartPoint {
    ChartPoint(last * 1000, currentPrice, false, None)
  }

  /** The point of a prediction: its price at the time of the last price
      moved forward by the length of its horizon. */
  function PredictionPoint(last: int, p: Prediction): ChartPoint {
    ChartPoint((last + Horizon.Minutes(p.horizon) * 60) * 1000, p.pricePrediction, true, Some(p.horizon))
  }

  /** The points the loop appends for the groups in `groups`, skipping a
      horizon without positive length. */
  function PredictionPoints(last: int, groups: seq<Prediction>): (r: seq<ChartPoint>)
    ensures forall i :: 0 <= i < |r| ==>
      r[i].isPrediction && r[i].horizon.Some? && Horizon.Minutes(r[i].horizon.value) > 0
      && r[i].timestampMs == (last + Horizon.Minutes(r[i].horizon.value) * 60) * 1000
    decreases |groups|
  {
    if groups == [] then []
    else
      var p := groups[|groups| - 1];
      PredictionPoints(last, groups[..|groups| - 1])
      + (if Horizon.Minutes(p.horizon) > 0 then [PredictionPoint(last, p)] else [])
  }

  lemma PredictionPointsStep(last: int, groups: seq<Prediction>, i: nat)
    requires i < |groups|
    ensures PredictionPoints(last, groups[..i + 1]) == PredictionPoints(last, groups[..i])
      + (if Horizon.Minutes(groups[i].horizon) > 0 then [PredictionPoint(last, groups[i])] else [])
  {
    assert groups[..i + 1][..i] == groups[..i];
  }

  /** The points are those of the groups with a known horizon, at the target
      time of the horizon's length. */
  lemma PredictionPointsKnown(last: int, groups: seq<Prediction>, i: nat)
    requires i < |PredictionPoints(last, groups)|
    ensures var c := PredictionPoints(last, groups)[i];
      Horizon.IsKnown(c.horizon.value) && c.timestampMs == (last + Horizon.MinutesOf[c.horizon.value] * 60) * 1000
  {
    Horizon.MinutesPositiveIffKnown(PredictionPoints(last, groups)[i].horizon.value);
  }

  /** Horizons without positive length contribute no point. */
  lemma {:induction false} PredictionPointsCount(last: int, groups: seq<Prediction>)
    ensures |PredictionPoints(last, groups)| <= |groups|
    ensures (forall i :: 0 <= i < |groups| ==> Horizon.IsKnown(groups[i].horizon)) ==> |PredictionPoints(last, groups)| == |groups|
    decreases |groups|
  {
    if groups != [] {
      var init := groups[..|groups| - 1];
      PredictionPointsCount(last, init);
      Horizon.MinutesPositiveIffKnown(groups[|groups| - 1].horizon);
      if forall i :: 0 <= i < |groups| ==> Horizon.IsKnown(groups[i].horizon) {
        assert forall i :: 0 <= i < |init| ==> init[i] == groups[i];
      }
    }
  }

  /** `getPredictionChartData` without its confidence bands: the start point,
      one point per predicted horizon of positive length, ordered by time
      (`usort` on the timestamp). `cachedPriceTime` is the time of the cached
      price, if any; otherwise the chart starts at `now`. */
  method GetPredictionChartData(currentPrice: real, cachedPriceTime: Option<int>, now: int, pid: string, rows: seq<Prediction>)
    returns (chartPoints: seq<ChartPoint>)
    ensures SortedBy(chartPoints, ByKey(PointTime))
    ensures multiset(chartPoints) == multiset([StartPoint(currentPrice, cachedPriceTime.GetOr(now))]
      + PredictionPoints(cachedPriceTime.GetOr(now), LatestPerHorizon(pid, rows)))
    ensures chartPoints != [] && chartPoints[0] == StartPoint(currentPrice, cachedPriceTime.GetOr(now))
  {
    var lastTimestamp := cachedPriceTime.GetOr(now);
    var predictions := LatestPerHorizon(pid, rows);
    var start := StartPoint(currentPrice, lastTimestamp);
    chartPoints := AppendPoints(start, lastTimestamp, predictions);
    ByKeyPreorder(PointTime);
    StartComesFirst(start, lastTimestamp, predictions);
    chartPoints := InsertionSort(chartPoints, ByKey(PointTime));
  }

  /** The `foreach` over the groups: after the start point, one point per
      group whose horizon has a positive length. */
  method AppendPoints(start: ChartPoint, lastTimestamp: int, predictions: seq<Prediction>) returns (chartPoints: seq<ChartPoint>)
    ensures chartPoints == [start] + PredictionPoints(lastTimestamp, predictions)
  {
    chartPoints := [start];
    var i := 0;
    while i < |predictions|
      invariant 0 <= i <= |predictions|
      invariant chartPoints == [start] + PredictionPoints(lastTimestamp, predictions[..i])
    {
      var p := predictions[i];
      var horizonMinutes := Horizon.Minutes(p.horizon);
      PredictionPointsStep(lastTimestamp, predictions, i);
      if horizonMinutes > 0 {
        var targetTimestamp := (lastTimestamp + horizonMinutes * 60) * 1000;
        var point := ChartPoint(targetTimestamp, p.pricePrediction, true, Some(p.horizon));
        assert point == PredictionPoint(lastTimestamp, p);
        chartPoints := chartPoints + [point];
      }
      i := i + 1;
    }
    assert predictions[..i] == predictions;
  }

  /** Every prediction point lies after the start point, so sorting keeps the
      start point in front. */
  lemma StartComesFirst(start: ChartPoint, last: int, predictions: seq<Prediction>)
    requires start.timestampMs == last * 1000
    ensures TotalPreorder(ByKey(PointTime))
    ensures var sorted := InsertionSort([start] + PredictionPoints(last, predictions), ByKey(PointTime));
      sorted != [] && sorted[0] == start
  {
    ByKeyPreorder(PointTime);
    var points := [start] + PredictionPoints(last, predictions);
    forall y | y in points && y != start ensures !ByKey(PointTime)(y, start) {
      var k := IndexOf(points, y);
      assert y == PredictionPoints(last, predictions)[k - 1];
      var m := Horizon.Minutes(y.horizon.value);
      assert m > 0 && y.timestampMs == (last + m * 60) * 1000;
      assert PointTime(y) > PointTime(start);
    }
    StrictMinimumFirst(points, ByKey(PointTime), start);
  }

  // ---- price history ----

  datatype PriceRecord = PriceRecord(pid: string, timestamp: int, last: real, high: real, low: real, lastClose: real, turnover: Option<real>)

  datatype PricePoint = PricePoint(timestampMs: int, close: real, high: real, low: real, open: real, volume: real)

  function RecordStamp(r: PriceRecord): int { r.timestamp }

  function PricePointOf(r: PriceRecord): PricePoint {
    PricePoint(r.timestamp * 1000, r.last, r.high, r.low, r.lastClose, r.turnover.GetOr(0.0))
  }

  function PricePoints(records: seq<PriceRecord>): (r: seq<PricePoint>)
    ensures |r| == |records|
    ensures forall i :: 0 <= i < |r| ==> r[i] == PricePointOf(records[i])
  {
    seq(|records|, i requires 0 <= i < |records| => PricePointOf(records[i]))
  }

  /** `where('pid', …)->where('timestamp', '>=', start)->orderBy('timestamp')`. */
  function PricesSince(start: int, pid: string, rows: seq<PriceRecord>): (r: seq<PriceRecord>)
    ensures SortedBy(r, ByKey(RecordStamp))
    ensures forall x :: multiset(r)[x] == if x.pid == pid && x.timestamp >= start then multiset(rows)[x] else 0
  {
    ByKeyPreorder(RecordStamp);
    InsertionSort(Filter(rows, (x: PriceRecord) => x.pid == pid && x.timestamp >= start), ByKey(RecordStamp))
  }

  lemma PricesSinceElements(start: int, pid: string, rows: seq<PriceRecord>, x: PriceRecord)
    ensures x in PricesSince(start, pid, rows) <==> x in rows && x.pid == pid && x.timestamp >= start
  {
    var r := PricesSince(start, pid, rows);
    assert x in r <==> multiset(r)[x] > 0;
    assert x in rows <==> multiset(rows)[x] > 0;
  }

  /** `getPriceHistory`: the asset's prices of the last `days` days (a day is
      86400 seconds), oldest first, with times in milliseconds. */
  function GetPriceHistory(now: int, days: int, pid: string, rows: seq<PriceRecord>): (r: seq<PricePoint>)
    ensures forall i, j :: 0 <= i < j < |r| ==> r[i].timestampMs <= r[j].timestampMs
  {
    var sorted := PricesSince(now - days * 86400, pid, rows);
    var r := PricePoints(sorted);
    forall i, j | 0 <= i < j < |r| ensures r[i].timestampMs <= r[j].timestampMs {
      assert ByKey(RecordStamp)(sorted[i], sorted[j]);
      assert RecordStamp(sorted[i]) <= RecordStamp(sorted[j]);
    }
    r
  }

  /** A point is in the history exactly when it is the point of one of the
      asset's prices of the period. */
  lemma PriceHistoryPoints(now: int, days: int, pid: string, rows: seq<PriceRecord>, p: PricePoint)
    ensures p in GetPriceHistory(now, days, pid, rows) <==>
      exists x :: x in rows && x.pid == pid && x.timestamp >= now - days * 86400 && p == PricePointOf(x)
  {
    if p in GetPriceHistory(now, days, pid, rows) {
      var x := PriceHistorySource(now, days, pid, rows, p);
    }
    if exists x :: x in rows && x.pid == pid && x.timestamp >= now - days * 86400 && p == PricePointOf(x) {
      var x :| x in rows && x.pid == pid && x.timestamp >= now - days * 86400 && p == PricePointOf(x);
      PriceHistoryKeeps(now, days, pid, rows, x);
    }
  }

  lemma PriceHistorySource(now: int, days: int, pid: string, rows: seq<PriceRecord>, p: PricePoint) returns (x: PriceRecord)
    requires p in GetPriceHistory(now, days, pid, rows)
    ensures x in rows && x.pid == pid && x.timestamp >= now - days * 86400 && p == PricePointOf(x)
  {
    var sorted := PricesSince(now - days * 86400, pid, rows);
    var r := GetPriceHistory(now, days, pid, rows);
    assert r == PricePoints(sorted);
    var k := IndexOf(r, p);
    x := sorted[k];
    PricesSinceElements(now - days * 86400, pid, rows, x);
  }

  lemma PriceHistoryKeeps(now: int, days: int, pid: string, rows: seq<PriceRecord>, x: PriceRecord)
    requires x in rows && x.pid == pid && x.timestamp >= now - days * 86400
    ensures PricePointOf(x) in GetPriceHistory(now, days, pid, rows)
  {
    var sorted := PricesSince(now - days * 86400, pid, rows);
    var r := GetPriceHistory(now, days, pid, rows);
    assert r == PricePoints(sorted);
    PricesSinceElements(now - days * 86400, pid, rows, x);
    var k := IndexOf(sorted, x);
    assert r[k] == PricePointOf(x);
  }
}
