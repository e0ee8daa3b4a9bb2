/** The two materialized views over prices and predictions: the newest row per
    asset (`pid`), tagged with a freshness bucket. The database clock enters as
    a parameter: `now` in epoch seconds and the current date as a day number,
    whose epoch value is `day * 86400`. */
module PriceViews {
  import opened Projection

  datatype DbClock = DbClock(now: int, currentDate: int)

  /** `EXTRACT(EPOCH FROM <date>)` for a date given as a day number. */
  function DayStart(day: int): int {
    day * 86400
  }

  // ---- mv_latest_asset_prices ----

  datatype PriceRow = PriceRow(pid: string, price: real, timestamp: int)

  datatype PriceFreshness = Live | Today | Yesterday | Older

  /** How recent a price is: within the last hour, since midnight, since the
      previous midnight, or before that. */
  function PriceFreshnessOf(c: DbClock, ts: int): (f: PriceFreshness)
    ensures f == Live <==> ts >= c.now - 3600
    ensures f == Today <==> ts < c.now - 3600 && ts >= DayStart(c.currentDate)
    ensures f == Yesterday <==> ts < c.now - 3600 && DayStart(c.currentDate) - 86400 <= ts < DayStart(c.currentDate)
    ensures f == Older <==> ts < c.now - 3600 && ts < DayStart(c.currentDate) - 86400
  {
    if ts >= c.now - 3600 then Live
    else if ts >= DayStart(c.currentDate) then Today
    else if ts >= DayStart(c.currentDate - 1) then Yesterday
    else Older
  }

  /** Buckets from the stalest to the freshest. */
  function PriceRank(f: PriceFreshness): nat {
    match f
    case Older => 0
    case Yesterday => 1
    case Today => 2
    case Live => 3
  }

  /** A newer timestamp is never in a staler bucket. */
  lemma PriceFreshnessMonotone(c: DbClock, ts1: int, ts2: int)
    requires ts1 <= ts2
    ensures PriceRank(PriceFreshnessOf(c, ts1)) <= PriceRank(PriceFreshnessOf(c, ts2))
  {
  }

  /** Postgres `ROUND` of a numeric quotient: to the nearest integer, halves
      away from zero. */
  function RoundDiv(n: int, d: int): (q: int)
    requires d > 0
    ensures n >= 0 ==> q >= 0 && 2 * q * d - d <= 2 * n < 2 * q * d + d
    ensures n < 0 ==> q <= 0 && 2 * q * d - d < 2 * n <= 2 * q * d + d
  {
    if n >= 0 then (2 * n + d) / (2 * d) else 0 - (2 * (0 - n) + d) / (2 * d)
  }

  /** `hours_ago`: the age of the price in hours, rounded to the nearest hour,
      with a half hour rounded away from zero. */
  function HoursAgo(c: DbClock, ts: int): (h: int)
    ensures ts <= c.now ==> h >= 0
    ensures ts <= c.now ==> h * 3600 - 1800 <= c.now - ts < h * 3600 + 1800
    ensures ts > c.now ==> h * 3600 - 1800 < c.now - ts <= h * 3600 + 1800
  {
    RoundDiv(c.now - ts, 3600)
  }

  datatype LatestPriceRow = LatestPriceRow(
    pid: string, price: real, timestamp: int, freshness: PriceFreshness, hoursAgo: int)

  function PriceTimestamp(r: PriceRow): int {
    r.timestamp
  }

  function PricePid(r: PriceRow): string {
    r.pid
  }

  function PriceViewRow(c: DbClock, r: PriceRow): LatestPriceRow {
    LatestPriceRow(r.pid, r.price, r.timestamp, PriceFreshnessOf(c, r.timestamp), HoursAgo(c, r.timestamp))
  }

  /** The contents of `mv_latest_asset_prices` as of its last refresh: one row
      per pid, the newest price of that pid. */
  function LatestAssetPrices(c: DbClock, rows: seq<PriceRow>): (v: map<string, LatestPriceRow>)
    ensures forall r :: r in rows ==> r.pid in v && r.timestamp <= v[r.pid].timestamp
    ensures forall p :: p in v ==>
      v[p].pid == p && exists r :: r in rows && PriceViewRow(c, r) == v[p]
  {
    var m := LatestBy(rows, PricePid, PriceTimestamp);
    map p | p in m :: PriceViewRow(c, m[p])
  }

  /** The view holds a row for a pid exactly when the table holds prices for it. */
  lemma LatestAssetPricesKeys(c: DbClock, rows: seq<PriceRow>, pid: string)
    ensures pid in LatestAssetPrices(c, rows) <==> exists r :: r in rows && r.pid == pid
  {
    LatestByKeys(rows, PricePid, PriceTimestamp, pid);
  }

  // ---- mv_latest_predictions ----

  datatype PredictionRow = PredictionRow(
    pid: string, symbol: string, pricePrediction: real, confidence: real,
    horizon: string, predictionTime: int, timestamp: int)

  datatype PredictionFreshness = Current | PredYesterday | PredOlder

  /** How recent a prediction is: made today, yesterday, or before that. There
      is no bucket for the last hour. */
  function PredictionFreshnessOf(c: DbClock, ts: int): (f: PredictionFreshness)
    ensures f == Current <==> ts >= DayStart(c.currentDate)
    ensures f == PredYesterday <==> DayStart(c.currentDate) - 86400 <= ts < DayStart(c.currentDate)
    ensures f == PredOlder <==> ts < DayStart(c.currentDate) - 86400
  {
    if ts >= DayStart(c.currentDate) then Current
    else if ts >= DayStart(c.currentDate - 1) then PredYesterday
    else PredOlder
  }

  /** A price that is at least `today` and a prediction that is `current` are
      the same condition when the last hour lies within the current day. */
  lemma CurrentMatchesToday(c: DbClock, ts: int)
    requires DayStart(c.currentDate) <= c.now - 3600
    ensures PredictionFreshnessOf(c, ts) == Current <==> PriceFreshnessOf(c, ts) in {Live, Today}
  {
  }

  /** `days_old`: whole days between the prediction's date and today. The
      timestamp column `prediction_time` is stored without a time zone, so its
      date is its epoch value divided by 86400, rounded down. */
  function DaysOld(c: DbClock, predictionTime: int): (d: int)
    ensures DayStart(c.currentDate - d) <= predictionTime < DayStart(c.currentDate - d) + 86400
  {
    c.currentDate - predictionTime / 86400
  }

  datatype LatestPredictionRow = LatestPredictionRow(
    pid: string, symbol: string, pricePrediction: real, confidence: real, horizon: string,
    predictionTime: int, timestamp: int, freshness: PredictionFreshness, daysOld: int)

  function PredictionTimestamp(r: PredictionRow): int {
    r.timestamp
  }

  function PredictionPid(r: PredictionRow): string {
    r.pid
  }

  function PredictionViewRow(c: DbClock, r: PredictionRow): LatestPredictionRow {
    LatestPredictionRow(r.pid, r.symbol, r.pricePrediction, r.confidence, r.horizon,
      r.predictionTime, r.timestamp, PredictionFreshnessOf(c, r.timestamp), DaysOld(c, r.predictionTime))
  }

  /** The contents of `mv_latest_predictions`: one row per pid (not per
      horizon), the newest prediction of that pid whatever its horizon. */
  function LatestPredictions(c: DbClock, rows: seq<PredictionRow>): (v: map<string, LatestPredictionRow>)
    ensures forall r :: r in rows ==> r.pid in v && r.timestamp <= v[r.pid].timestamp
    ensures forall p :: p in v ==>
      v[p].pid == p && exists r :: r in rows && PredictionViewRow(c, r) == v[p]
  {
    var m := LatestBy(rows, PredictionPid, PredictionTimestamp);
    map p | p in m :: PredictionViewRow(c, m[p])
  }

  /** Two predictions of one asset for different horizons yield a single view
      row: the one of the newer prediction. */
  lemma OneRowPerPidNotPerHorizon(c: DbClock, a: PredictionRow, b: PredictionRow)
    requires a.pid == b.pid && a.horizon != b.horizon && a.timestamp < b.timestamp
    ensures LatestPredictions(c, [a, b]).Keys == {a.pid}
    ensures LatestPredictions(c, [a, b])[a.pid].horizon == b.horizon
  {
    var v := LatestPredictions(c, [a, b]);
    var r :| r in [a, b] && PredictionViewRow(c, r) == v[a.pid];
  }
}
