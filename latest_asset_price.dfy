/** The model over `mv_latest_asset_prices`: tests on a row's freshness bucket. */
module LatestAssetPrice {
  import opened PriceViews

  /** The price is from the last hour. */
  predicate IsLive(row: LatestPriceRow) {
    row.freshness == Live
  }

  /** The price is from today (the last hour included). */
  predicate IsToday(row: LatestPriceRow) {
    row.freshness in {Live, Today}
  }

  /** The price is from before today. */
  predicate IsStale(row: LatestPriceRow) {
    row.freshness in {Yesterday, Older}
  }

  /** Every row is either from today or stale, never both, and a live price is
      a price from today. */
  lemma TodayAndStaleComplementary(row: LatestPriceRow)
    ensures IsToday(row) <==> !IsStale(row)
    ensures IsLive(row) ==> IsToday(row)
  {
    match row.freshness
    case Live =>
    case Today =>
    case Yesterday =>
    case Older =>
  }

  /** What the tests mean for a row of the view, in terms of its timestamp. */
  lemma TestsOnViewRows(c: DbClock, rows: seq<PriceRow>, pid: string)
    requires pid in LatestAssetPrices(c, rows)
    ensures var row := LatestAssetPrices(c, rows)[pid];
      && (IsLive(row) <==> row.timestamp >= c.now - 3600)
      && (IsToday(row) <==> row.timestamp >= c.now - 3600 || row.timestamp >= DayStart(c.currentDate))
      && (IsStale(row) <==> row.timestamp < c.now - 3600 && row.timestamp < DayStart(c.currentDate))
  {
    var v := LatestAssetPrices(c, rows);
    var r :| r in rows && PriceViewRow(c, r) == v[pid];
  }
}
