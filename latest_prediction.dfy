/** The model over `mv_latest_predictions`: freshness tests and the horizon label. */
module LatestPrediction {
  import opened PriceViews
  import Horizon

  /** The prediction was made today. */
  predicate IsCurrent(row: LatestPredictionRow) {
    row.freshness == Current
  }

  /** The prediction was made before today. */
  predicate IsStale(row: LatestPredictionRow) {
    row.freshness != Current
  }

  lemma StaleIsNotCurrent(row: LatestPredictionRow)
    ensures IsStale(row) <==> !IsCurrent(row)
  {
  }

  /** The `horizon_label` attribute. */
  function HorizonLabel(row: LatestPredictionRow): (s: string)
    ensures Horizon.IsKnown(row.horizon) ==> s == Horizon.Labels[row.horizon]
    ensures !Horizon.IsKnown(row.horizon) ==> s == row.horizon
  {
    Horizon.Label(row.horizon)
  }

  /** A row of the view is current exactly when its timestamp is not before
      today's midnight, and the row found under a pid is that pid's. */
  lemma TestsOnViewRows(c: DbClock, rows: seq<PredictionRow>, pid: string)
    requires pid in LatestPredictions(c, rows)
    ensures var row := LatestPredictions(c, rows)[pid];
      && row.pid == pid
      && (IsCurrent(row) <==> row.timestamp >= DayStart(c.currentDate))
      && (IsStale(row) <==> row.timestamp < DayStart(c.currentDate))
  {
    var v := LatestPredictions(c, rows);
    var r :| r in rows && PredictionViewRow(c, r) == v[pid];
  }
}
