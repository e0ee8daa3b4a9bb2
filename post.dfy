/** The news-post model: the impact level derived from a post's score. */
module Post {
  import opened Wrappers

  datatype Impact = High | Medium | Low

  /** `impact_level`: none for a missing or zero score; high from 7, medium
      from 4, low below that (negative scores included). */
  function ImpactLevel(score: Option<int>): (r: Option<Impact>)
    ensures r.None? <==> score.None? || score.value == 0
    ensures r == Some(High) <==> score.Some? && score.value >= 7
    ensures r == Some(Medium) <==> score.Some? && 4 <= score.value < 7
    ensures r == Some(Low) <==> score.Some? && score.value < 4 && score.value != 0
  {
    if score.None? || score.value == 0 then None
    else if score.value >= 7 then Some(High)
    else if score.value >= 4 then Some(Medium)
    else Some(Low)
  }

  /** A higher score never has a lower impact level. */
  lemma ImpactMonotone(a: int, b: int)
    requires 0 < a <= b
    ensures ImpactLevel(Some(a)) == Some(High) ==> ImpactLevel(Some(b)) == Some(High)
    ensures ImpactLevel(Some(a)) == Some(Medium) ==> ImpactLevel(Some(b)) != Some(Low)
  {
  }
}
