/** The recommendation views: three newest-row-per-asset projections
    (recommendations, pattern detections, signal classifications) and two
    30-minute windows (detected signals, anomalies) that keep every recent row
    and only order them. Times are epoch seconds; `now` is a parameter. */
module RecommendationViews {
  import opened Wrappers
  import opened Projection
  import opened Sorting

  /** The width of the two windows, in seconds. */
  const Window: int := 30 * 60

  // ---- newest row per pid ----

  datatype RecommendationRow = RecommendationRow(id: string, pid: string, score: real, recommendation: string, createdAt: int)

  function RecommendationPid(r: RecommendationRow): string { r.pid }
  function RecommendationCreated(r: RecommendationRow): int { r.createdAt }

  /** `latest_recommendations`: per pid, the recommendation created last. */
  function LatestRecommendations(rows: seq<RecommendationRow>): (v: map<string, RecommendationRow>)
    ensures forall r :: r in rows ==> r.pid in v && r.createdAt <= v[r.pid].createdAt
    ensures forall p :: p in v ==> v[p] in rows && v[p].pid == p
  {
    LatestBy(rows, RecommendationPid, RecommendationCreated)
  }

  datatype PatternFlags = PatternFlags(
    headShoulder: bool, multipleTopsBottoms: bool, triangle: bool, wedge: bool, channel: bool,
    doubleTopBottom: bool, trendline: bool, supportResistance: bool, pivots: bool)

  datatype PatternDetectionRow = PatternDetectionRow(pid: string, timestamp: int, flags: PatternFlags, patternCount: int, createdAt: int)

  function PatternPid(r: PatternDetectionRow): string { r.pid }
  function PatternTimestamp(r: PatternDetectionRow): int { r.timestamp }

  /** `latest_pattern_detections`: per pid, the detection with the greatest
      timestamp. */
  function LatestPatternDetections(rows: seq<PatternDetectionRow>): (v: map<string, PatternDetectionRow>)
    ensures forall r :: r in rows ==> r.pid in v && r.timestamp <= v[r.pid].timestamp
    ensures forall p :: p in v ==> v[p] in rows && v[p].pid == p
  {
    LatestBy(rows, PatternPid, PatternTimestamp)
  }

  /** `(pid, timestamp)` is the primary key of the detections table, so the
      kept row is determined: it is the one detection of its pid with the
      greatest timestamp. */
  lemma LatestPatternDetectionDetermined(rows: seq<PatternDetectionRow>, r: PatternDetectionRow)
    requires forall a, b :: a in rows && b in rows && a.pid == b.pid && a.timestamp == b.timestamp ==> a == b
    requires r in rows
    requires forall s :: s in rows && s.pid == r.pid ==> s.timestamp <= r.timestamp
    ensures LatestPatternDetections(rows)[r.pid] == r
  {
    LatestByUnique(rows, PatternPid, PatternTimestamp, r);
  }

  datatype ClassificationRow = ClassificationRow(id: string, pid: string, signalId: string, classification: string, confidence: real, createdAt: int)

  function ClassificationPid(r: ClassificationRow): string { r.pid }
  function ClassificationCreated(r: ClassificationRow): int { r.createdAt }

  /** `latest_signal_classifications`: per pid, the classification created last. */
  function LatestSignalClassifications(rows: seq<ClassificationRow>): (v: map<string, ClassificationRow>)
    ensures forall r :: r in rows ==> r.pid in v && r.createdAt <= v[r.pid].createdAt
    ensures forall p :: p in v ==> v[p] in rows && v[p].pid == p
  {
    LatestBy(rows, ClassificationPid, ClassificationCreated)
  }

  // ---- 30-minute windows ----

  datatype DetectedSignalRow = DetectedSignalRow(
    id: string, pid: string, timestamp: int, indicator: string, signalType: string,
    strength: Option<real>, createdAt: int)

  function SignalPid(r: DetectedSignalRow): string { r.pid }
  function SignalStrength(r: DetectedSignalRow): Option<real> { r.strength }
  function SignalCreated(r: DetectedSignalRow): int { r.createdAt }

  /** `ORDER BY pid, strength DESC`. */
  function SignalOrder(): (DetectedSignalRow, DetectedSignalRow) -> bool {
    ThenBy(SignalPid, NullsFirstDesc(SignalStrength))
  }

  /** `latest_detected_signals`: every signal created in the last 30 minutes,
      ordered by pid and, within a pid, strongest first. */
  function LatestDetectedSignals(now: int, rows: seq<DetectedSignalRow>): (v: seq<DetectedSignalRow>)
    ensures SortedBy(v, SignalOrder())
    ensures forall x :: multiset(v)[x] == if x.createdAt >= now - Window then multiset(rows)[x] else 0
  {
    NullsFirstDescPreorder(SignalStrength);
    ThenByPreorder(SignalPid, NullsFirstDesc(SignalStrength));
    InsertionSort(Filter(rows, (r: DetectedSignalRow) => r.createdAt >= now - Window), SignalOrder())
  }

  /** The window keeps several signals of one asset: there is no `DISTINCT ON`. */
  lemma DetectedSignalsKeepsAll(now: int, a: DetectedSignalRow, b: DetectedSignalRow)
    requires a != b && a.pid == b.pid
    requires a.createdAt >= now - Window && b.createdAt >= now - Window
    ensures a in LatestDetectedSignals(now, [a, b]) && b in LatestDetectedSignals(now, [a, b])
  {
    var v := LatestDetectedSignals(now, [a, b]);
    assert multiset(v)[a] == multiset([a, b])[a] >= 1;
    assert multiset(v)[b] == multiset([a, b])[b] >= 1;
  }

  datatype AnomalyRow = AnomalyRow(
    id: string, symbol: string, anomalyType: string, confidenceScore: Option<real>, detectedAt: int)

  function AnomalySymbol(r: AnomalyRow): string { r.symbol }
  function AnomalyDetected(r: AnomalyRow): int { r.detectedAt }

  /** `ORDER BY symbol, detected_at DESC`. */
  function AnomalyOrder(): (AnomalyRow, AnomalyRow) -> bool {
    ThenBy(AnomalySymbol, ByKeyDesc(AnomalyDetected))
  }

  /** `latest_anomalies`: every anomaly detected in the last 30 minutes,
      ordered by symbol and, within a symbol, newest first. */
  function LatestAnomalies(now: int, rows: seq<AnomalyRow>): (v: seq<AnomalyRow>)
    ensures SortedBy(v, AnomalyOrder())
    ensures forall x :: multiset(v)[x] == if x.detectedAt >= now - Window then multiset(rows)[x] else 0
  {
    ByKeyDescPreorder(AnomalyDetected);
    ThenByPreorder(AnomalySymbol, ByKeyDesc(AnomalyDetected));
    InsertionSort(Filter(rows, (r: AnomalyRow) => r.detectedAt >= now - Window), AnomalyOrder())
  }

  /** Within one symbol the window lists anomalies newest first. */
  lemma AnomaliesNewestFirst(now: int, rows: seq<AnomalyRow>, i: nat, j: nat)
    requires i < j < |LatestAnomalies(now, rows)|
    requires LatestAnomalies(now, rows)[i].symbol == LatestAnomalies(now, rows)[j].symbol
    ensures LatestAnomalies(now, rows)[i].detectedAt >= LatestAnomalies(now, rows)[j].detectedAt
  {
    var v := LatestAnomalies(now, rows);
    assert SortedBy(v, AnomalyOrder());
    assert AnomalyOrder()(v[i], v[j]);
    assert AnomalySymbol(v[i]) == AnomalySymbol(v[j]);
    assert ByKeyDesc(AnomalyDetected)(v[i], v[j]);
    assert AnomalyDetected(v[i]) >= AnomalyDetected(v[j]);
  }
}
