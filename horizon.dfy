/** The registry of prediction horizons: the codes stored with predictions, their
    short labels and their length in minutes. */
module Horizon {

  /** The codes, shortest horizon first. */
  const All: seq<string> := ["2min", "5min", "15min", "1hour", "1day", "1week", "1month", "3month", "6month", "1year"]

  const Labels: map<string, string> := map[
    "2min" := "2m", "5min" := "5m", "15min" := "15m", "1hour" := "1H", "1day" := "1D",
    "1week" := "1W", "1month" := "1M", "3month" := "3M", "6month" := "6M", "1year" := "1Y"]

  const MinutesOf: map<string, int> := map[
    "2min" := 2, "5min" := 5, "15min" := 15, "1hour" := 60, "1day" := 1440,
    "1week" := 10080, "1month" := 43200, "3month" := 129600, "6month" := 259200, "1year" := 525600]

  predicate IsKnown(h: string) {
    h in All
  }

  /** The label of a known code; an unknown code is shown as itself. */
  function Label(h: string): (r: string)
    ensures IsKnown(h) ==> r == Labels[h]
    ensures !IsKnown(h) ==> r == h
  {
    if h in Labels then Labels[h] else h
  }

  /** The length of a known code in minutes; 0 for an unknown code. */
  function Minutes(h: string): (r: int)
    ensures IsKnown(h) ==> r == MinutesOf[h]
    ensures !IsKnown(h) ==> r == 0
  {
    if h in MinutesOf then MinutesOf[h] else 0
  }

  /** A code has a label and a length exactly when it is listed in `All`. */
  lemma TablesCoverAll()
    ensures Labels.Keys == MinutesOf.Keys == set h | h in All
    ensures |All| == 10
  {
  }

  /** A positive length (what the target-time computations test for) marks
      exactly the known codes. */
  lemma MinutesPositiveIffKnown(h: string)
    ensures Minutes(h) > 0 <==> IsKnown(h)
  {
  }

  /** `All` is ordered by length, strictly. */
  lemma MinutesIncreasing(i: nat, j: nat)
    requires i < j < |All|
    ensures Minutes(All[i]) < Minutes(All[j])
  {
  }

  /** No two known codes share a label, so a label names its horizon. */
  lemma LabelsDistinct(i: nat, j: nat)
    requires i < j < |All|
    ensures Label(All[i]) != Label(All[j])
  {
  }

  datatype HorizonOption = HorizonOption(value: string, labelText: string)

  /** Every code of `All` has a label. */
  lemma AllLabelled()
    ensures forall i :: 0 <= i < |All| ==> All[i] in Labels
  {
    TablesCoverAll();
    forall i | 0 <= i < |All| ensures All[i] in Labels {
      assert All[i] in set h | h in All;
    }
  }

  /** One option per code of `All`, in the same order, each with its label. */
  function Options(): (r: seq<HorizonOption>)
    ensures |r| == |All|
    ensures forall i :: 0 <= i < |All| ==> r[i].value == All[i] && r[i].labelText == Label(All[i])
  {
    AllLabelled();
    seq(|All|, i requires 0 <= i < |All| => HorizonOption(All[i], Labels[All[i]]))
  }
}
