/** The model over `latest_recommendations`: whether a recommendation is stale. */
module LatestRecommendation {
  import opened Wrappers

  /** `created_at?->diffInMinutes(now()) > 30`: the signed difference in minutes
      from `created_at` to now is above 30; a missing `created_at` makes the
      comparison `null > 30`, which is false. Times are epoch seconds. */
  function IsStale(createdAt: Option<int>, now: int): (stale: bool)
    ensures stale <==> createdAt.Some? && (now - createdAt.value) as real / 60.0 > 30.0
  {
    createdAt.Some? && now - createdAt.value > 1800
  }

  /** Exactly 30 minutes is not yet stale; one second more is. */
  lemma ThirtyMinutesBoundary(created: int)
    ensures !IsStale(Some(created), created + 1800)
    ensures IsStale(Some(created), created + 1801)
  {
  }

  /** Once stale, a recommendation stays stale as time goes on. */
  lemma StaleMonotone(createdAt: Option<int>, now1: int, now2: int)
    requires now1 <= now2 && IsStale(createdAt, now1)
    ensures IsStale(createdAt, now2)
  {
  }
}
