# Horin core, modelled in Dafny

Horin is a web application that publishes AI stock-price predictions for Middle
East markets. This project models, and proves properties of, the rules at its
core.

- **Latest-value views and freshness buckets.** The materialized views keep one
  row per asset `pid`: the newest price, prediction, recommendation, pattern
  detection or signal classification. Each row is tagged with its freshness:
  `live`/`today`/`yesterday`/`older` for prices and `current`/`yesterday`/`older`
  for predictions. The two 30-minute window views keep every recent signal or
  anomaly. The models read these views back (`isLive`, `isToday`, `isStale`,
  `isCurrent`, `horizon_label`, the impact level of a post).
- **Horizons.** The registry of prediction horizons, with their labels and
  minutes. The asset page picks the newest prediction per horizon, computes
  target times, and orders chart and price-history points.
- **Market hours.** `Market::isOpenNow` parses a trading-day string such as
  `Sun-Thu` (ranges may wrap round the week), then combines the day set with
  the opening window and the status flag.
- **Reference-data cache.** A keyed cache with `remember`, `forget`,
  `clearAll` and `warmAll`, the prediction counts cached beside it, and the
  observer that clears the cache whenever reference data changes.
- **The home page.** The featured predictions per market and the recent ones.
  The recent ones keep the keys Laravel's `filter` leaves them: when one of
  the five newest predictions has no asset and a later one has, the keys have
  a gap and the answer encodes as a JSON object rather than a list
  (`HomeController.RecentKeysGap`).
- **Three migrations of saved table filter sets.** Toggled columns become the
  v4 `tableColumns` list, the two v4 column flags are backfilled, and the sort
  is folded into `tableSort`.
- **Output builders.** The XML sitemaps; the SEO metadata, hreflang alternates
  and JSON-LD schemas; the Telegram login data-check-string.
- **Small state machines and classifiers.**
  - The phone-verification code lifecycle, phone masking and the Telegram
    webhook that verifies a phone from a shared contact.
  - The onboarding wizard.
  - The locale middleware and the pagination block.
  - The front end's recommendation formatters.

There is one module per source file. The module is functional where the
source is a pure expression or query, and imperative where the source changes
state: classes with `modifies` clauses (`CacheStore.Store`, `User.User`,
`SeoService.SeoService`, `SetLocale.Application`), and loops with invariants
wherever the source loops. Each loop method is proved against a specification
function, and the properties are proved as lemmas about those functions.

Six shared modules hold the language and framework semantics the rest relies
on:

- `Wrappers`: the `Option` and `Result` types. A PHP error or exception is a
  `Failure`.
- `PhpText`: decimal conversion, PHP's `(int)` cast, falsiness, `trim`,
  `explode`/`implode` and `htmlspecialchars`.
- `Sorting`: insertion sort with a comparator, and the orders it is used with.
- `PhpArray`: decoded JSON as PHP arrays (ordered key/value entries), with
  `Arr::dot`.
- `Projection`: latest value per group, and Laravel's key-preserving `filter`.
- `CacheStore`: Laravel's cache as a map.

Clocks, random draws, the search engine's hits, the signature function and
the database rows are all parameters. The current day is a day number, whose
midnight is `day * 86400` seconds since the epoch.

Where the schema and the code disagree, the model follows the code.
`predicted_asset_prices.horizon` is declared `smallInteger`, but `Horizon`
and the controllers treat horizons as string codes. The model uses strings.
A stored integer reads back as a numeric string such as `"5"`, and PHP 8
compares two numeric strings by value. So the history's `sortBy('horizon')`
orders numeric codes by value and the registry's codes (`2min`, `15min`, …)
by `strcmp`.

Not every property the observer might promise holds. After a `deleted`
event, `clearAll` runs with the model already gone from the database. It
plucks the ids it clears from what is left, so the per-market (or per-sector)
asset list of the deleted row stays cached. `StaticDataObserver.NoStaticKeyRemains`
proves what does hold, for the ids still present.
`StaticDataObserver.DeletedMarketKeySurvives` shows the surviving key.

## Model

| member | source | states |
|---|---|---|
| Horizon.Label | app/Support/Horizon.php:68-71 | a known code is shown by its entry in the label table; any other code is shown as itself |
| Horizon.Minutes | app/Support/Horizon.php:73-76 | a known code has its entry in the minutes table; any other code has 0 minutes |
| Horizon.TablesCoverAll | app/Support/Horizon.php:28-66 | the label table and the minutes table have exactly the ten codes of `ALL` as keys |
| Horizon.MinutesPositiveIffKnown | app/Support/Horizon.php:55-66 | `minutes(h) > 0` holds exactly for the known codes, so the `> 0` tests of the controllers mean "known horizon" |
| Horizon.MinutesIncreasing | app/Support/Horizon.php:55-66 | the minutes strictly increase along `ALL` |
| Horizon.LabelsDistinct | app/Support/Horizon.php:28-52 | no two codes of `ALL` share a label |
| Horizon.AllLabelled | app/Support/Horizon.php:28-52 | every code of `ALL` has a label-table entry, so `options()` never reads a missing key |
| Horizon.Options | app/Support/Horizon.php:78-84 | one option per code of `ALL`, in order, each with that code as value and its label |
| PriceViews.PriceFreshnessOf | database/migrations/2025_12_03_103028_create_price_materialized_views.php:30-38 | `live` iff ts >= now-3600; `today` iff not live and ts >= today's midnight; `yesterday` iff neither and ts >= the previous midnight; `older` otherwise |
| PriceViews.PriceFreshnessMonotone | database/migrations/2025_12_03_103028_create_price_materialized_views.php:30-38 | a larger timestamp is never in a staler bucket |
| PriceViews.RoundDiv | database/migrations/2025_12_03_103028_create_price_materialized_views.php:39 | Postgres `ROUND` of n/d: the nearest integer, halves away from zero, with the sign of n |
| PriceViews.HoursAgo | database/migrations/2025_12_03_103028_create_price_materialized_views.php:39 | `hours_ago` is within half an hour of the age in hours and is non-negative when ts <= now |
| PriceViews.LatestAssetPrices | database/migrations/2025_12_03_103028_create_price_materialized_views.php:17-45 | one row per pid; every price of a pid is no newer than the kept row; each kept row is the tagged form of a row of `asset_prices` of that pid |
| PriceViews.LatestAssetPricesKeys | database/migrations/2025_12_03_103028_create_price_materialized_views.php:19-41 | the view has a row for a pid iff `asset_prices` has a price for it |
| PriceViews.PredictionFreshnessOf | database/migrations/2025_12_03_103028_create_price_materialized_views.php:60-66 | `current` iff ts >= today's midnight; `yesterday` iff in the previous day; `older` otherwise; there is no live bucket |
| PriceViews.CurrentMatchesToday | database/migrations/2025_12_03_103028_create_price_materialized_views.php:60-66 | when the last hour lies inside today, `current` for a prediction coincides with `live` or `today` for a price |
| PriceViews.DaysOld | database/migrations/2025_12_03_103028_create_price_materialized_views.php:67 | `days_old` is d exactly when the prediction time falls on day currentDate - d |
| PriceViews.LatestPredictions | database/migrations/2025_12_03_103028_create_price_materialized_views.php:48-73 | one row per pid (not per horizon), no older than any prediction of that pid, taken from `predicted_asset_prices` |
| PriceViews.OneRowPerPidNotPerHorizon | database/migrations/2025_12_03_103028_create_price_materialized_views.php:50-73 | two predictions of one pid for different horizons give one view row, the newer one's |
| Projection.LatestBy | database/migrations/2025_12_03_103028_create_price_materialized_views.php:19-41 | `DISTINCT ON (key) ... ORDER BY key, t DESC`: every key of the input is kept; the kept row of a key is an input row of that key with the greatest t |
| Projection.LatestByKeys | database/migrations/2025_12_03_103028_create_price_materialized_views.php:19-41 | the keys kept are exactly the keys of the input |
| Projection.LatestByUnique | database/migrations/2025_12_03_103028_create_price_materialized_views.php:19-41 | with (key, t) unique, the kept row is the one row of its key with the greatest t |
| Projection.LatestByGrows | database/migrations/2025_12_03_103028_create_price_materialized_views.php:19-41 | more input rows never make the kept row of a key older |
| LatestAssetPrice.TodayAndStaleComplementary | app/Models/LatestAssetPrice.php:63-82 | `isToday` iff not `isStale`; `isLive` implies `isToday` |
| LatestAssetPrice.TestsOnViewRows | app/Models/LatestAssetPrice.php:63-82 | on a view row, `isLive`, `isToday` and `isStale` are the stated conditions on its timestamp |
| LatestPrediction.StaleIsNotCurrent | app/Models/LatestPrediction.php:72-83 | `isStale` is exactly the negation of `isCurrent` |
| LatestPrediction.HorizonLabel | app/Models/LatestPrediction.php:64-67 | the label-table entry of a known horizon, the horizon itself otherwise |
| LatestPrediction.TestsOnViewRows | app/Models/LatestPrediction.php:72-83 | the row found under a pid is that pid's; it is current iff its timestamp is not before today's midnight |
| LatestRecommendation.IsStale | app/Models/LatestRecommendation.php:59-62 | stale iff `created_at` is set and more than 30 minutes (as a real number of minutes) lie between it and now |
| LatestRecommendation.ThirtyMinutesBoundary | app/Models/LatestRecommendation.php:61 | exactly 30 minutes is not stale; one second more is |
| LatestRecommendation.StaleMonotone | app/Models/LatestRecommendation.php:61 | once stale, stale at every later time |
| Post.ImpactLevel | app/Models/Post.php:79-92 | none iff the score is missing or 0; `high` iff >= 7; `medium` iff 4..6; `low` iff below 4 and non-zero |
| Post.ImpactMonotone | app/Models/Post.php:85-91 | a higher positive score never has a lower level |
| RecommendationViews.LatestRecommendations | database/migrations/2025_12_08_071239_create_recommendation_views.php:11-21 | one row per pid, no older (by `created_at`) than any recommendation of that pid, taken from the table |
| RecommendationViews.LatestPatternDetections | database/migrations/2025_12_08_071239_create_recommendation_views.php:41-60 | one row per pid, with the greatest timestamp of that pid, taken from the table |
| RecommendationViews.LatestPatternDetectionDetermined | database/migrations/2025_12_08_071239_create_recommendation_views.php:43-59 | with (pid, timestamp) unique, the kept detection is the newest one of its pid |
| RecommendationViews.LatestSignalClassifications | database/migrations/2025_12_08_071239_create_recommendation_views.php:81-93 | one row per pid, no older (by `created_at`) than any classification of that pid, taken from the table |
| RecommendationViews.LatestDetectedSignals | database/migrations/2025_12_08_071239_create_recommendation_views.php:24-38 | ordered by pid then strength descending (nulls first); holds each signal of the last 30 minutes as often as the table does, and nothing else |
| RecommendationViews.DetectedSignalsKeepsAll | database/migrations/2025_12_08_071239_create_recommendation_views.php:36-37 | two recent signals of one pid are both kept: no deduplication |
| RecommendationViews.LatestAnomalies | database/migrations/2025_12_08_071239_create_recommendation_views.php:63-78 | ordered by symbol then `detected_at` descending; holds each anomaly of the last 30 minutes as often as the table does, and nothing else |
| RecommendationViews.AnomaliesNewestFirst | database/migrations/2025_12_08_071239_create_recommendation_views.php:77 | within one symbol, anomalies are listed newest first |
| AssetController.ChartPeriod | app/Http/Controllers/AssetController.php:20 | always one of 7, 30, 90, 180: the `(int)` cast of `period` (leading blanks, sign, digits, fraction and exponent read as PHP does) when it is one of them, else 7, also when `period` is absent |
| AssetController.ChartPeriodOffered | app/Http/Controllers/AssetController.php:20 | each offered period, sent in decimal, is the period used |
| AssetController.ChartPeriodExponent | app/Http/Controllers/AssetController.php:20 | `period=3e1` casts to 30 and selects the 30-day chart |
| PhpText.PhpIntCastExponent | app/Http/Controllers/AssetController.php:20 | the `(int)` cast reads an exponent: `"3e1"` is 30 |
| PhpText.PhpIntCastFraction | app/Http/Controllers/OnboardingController.php:25 | the `(int)` cast truncates a fraction toward zero: `"-1.9"` is -1 |
| AssetController.NewestFirst | app/Http/Controllers/AssetController.php:68-70 | the asset's predictions (with their multiplicities, and no others), ordered by timestamp descending |
| AssetController.NewestFirstElements | app/Http/Controllers/AssetController.php:68-70 | a prediction is in the query result iff it is in the table with the asset's pid |
| AssetController.LatestPerHorizon | app/Http/Controllers/AssetController.php:68-73 | `groupBy('horizon')` then `first()`: no horizon twice; every entry is a prediction of the asset |
| AssetController.LatestPerHorizonNewest | app/Http/Controllers/AssetController.php:68-73 | every horizon predicted for the asset appears, with a prediction at least as new as any of that horizon |
| AssetController.CurrentPrice | app/Http/Controllers/AssetController.php:66 | the cached price if present, else the latest price's `last`, else 0 |
| AssetController.ExpectedGain | app/Http/Controllers/AssetController.php:74-76 | 0 when the current price is <= 0; otherwise gain times price equals 100 times the price difference |
| AssetController.RoundHalfAway | app/Http/Controllers/AssetController.php:90 | PHP `round`: the nearest integer, halves away from zero |
| AssetController.Round2 | app/Http/Controllers/AssetController.php:90 | `round(x, 2)` is a whole number of hundredths, within 0.005 of x, with halves rounded away from zero |
| AssetController.Round2Idempotent | app/Http/Controllers/AssetController.php:90 | rounding a rounded value changes nothing |
| AssetController.ShownTime | app/Http/Controllers/AssetController.php:79 | a time is shown iff the timestamp is non-zero, and it is that timestamp |
| AssetController.TargetTime | app/Http/Controllers/AssetController.php:79-83 | a target iff the timestamp is set and the horizon is known; then timestamp + minutes*60 |
| AssetController.GetAssetPredictions | app/Http/Controllers/AssetController.php:64-97 | one entry per distinct horizon, the i-th built from the i-th newest-per-horizon prediction of the asset |
| AssetController.AssetPredictionsCoverHorizons | app/Http/Controllers/AssetController.php:64-97 | every horizon of the asset has an entry built from a prediction at least as new as all others of that horizon |
| AssetController.LatestShown | app/Http/Controllers/AssetController.php:71-94 | every newest-per-horizon prediction has its entry |
| AssetController.HistoryEntries | app/Http/Controllers/AssetController.php:152-174 | one entry per distinct horizon, built from the newest prediction of the asset for that horizon |
| AssetController.GetPredictionHistory | app/Http/Controllers/AssetController.php:149-178 | a permutation of the per-horizon entries, ordered by horizon code under PHP 8's comparison: numeric codes by value, other codes by `strcmp`; no horizon twice; each entry built from a prediction of the asset |
| AssetController.HistoryCoversHorizons | app/Http/Controllers/AssetController.php:152-157 | every horizon the asset has a prediction for appears, with a prediction at least as new as any of that horizon |
| AssetController.HistoryIsAlphabetical | app/Http/Controllers/AssetController.php:175 | the registry's codes are not numeric, so they are ordered by `strcmp`, which puts `15min` before `2min` although 2 minutes is the shorter horizon |
| AssetController.HistoryByValue | app/Http/Controllers/AssetController.php:175 | numeric codes (a `smallInteger` horizon read back as a string) appear in the history in order of value |
| AssetController.FiveBeforeFifteen | app/Http/Controllers/AssetController.php:175 | the code `5` is listed before `15`, although `strcmp` puts `15` first |
| AssetController.PredictionPoints | app/Http/Controllers/AssetController.php:210-240 | every point is a prediction point of a horizon with positive minutes, at (last + minutes*60)*1000 |
| AssetController.PredictionPointsStep | app/Http/Controllers/AssetController.php:210-240 | one more group adds its point exactly when its horizon has positive minutes |
| AssetController.PredictionPointsKnown | app/Http/Controllers/AssetController.php:216-222 | every prediction point has a known horizon and its target time from the minutes table |
| AssetController.PredictionPointsCount | app/Http/Controllers/AssetController.php:216-219 | at most one point per group, and exactly one per group when all horizons are known |
| AssetController.GetPredictionChartData | app/Http/Controllers/AssetController.php:185-246 | sorted ascending by timestamp; a permutation of the start point plus the prediction points; the start point (current price, not a prediction, at the last price time or now) comes first |
| AssetController.AppendPoints | app/Http/Controllers/AssetController.php:197-240 | the loop yields the start point followed by the prediction points, in group order |
| AssetController.StartComesFirst | app/Http/Controllers/AssetController.php:243 | every prediction point lies strictly after the start point, so the sort keeps the start point first |
| AssetController.PricePoints | app/Http/Controllers/AssetController.php:137-145 | one point per price row, in order, with the timestamp times 1000 and a missing turnover read as 0 |
| AssetController.PricesSince | app/Http/Controllers/AssetController.php:133-136 | the asset's rows with timestamp >= start (with multiplicities, and no others), ascending by timestamp |
| AssetController.PricesSinceElements | app/Http/Controllers/AssetController.php:133-136 | a row is selected iff it is the asset's and not before the start |
| AssetController.GetPriceHistory | app/Http/Controllers/AssetController.php:128-147 | the points are in ascending time order |
| AssetController.PriceHistoryPoints | app/Http/Controllers/AssetController.php:128-147 | a point is in the history iff it is the point of one of the asset's prices since now - days*86400 |
| AssetController.PriceHistorySource | app/Http/Controllers/AssetController.php:133-145 | every point of the history comes from a selected price row |
| AssetController.PriceHistoryKeeps | app/Http/Controllers/AssetController.php:133-145 | every selected price row has its point in the history |
| Market.DaysDistinct | app/Models/Market.php:85 | the seven day tokens are pairwise different |
| Market.DayIndex | app/Models/Market.php:97-98 | `array_search` in the day list: the position of the token when it is a day token, none otherwise |
| Market.RemoveSpaces | app/Models/Market.php:89 | the result has no space and has every other character the input has |
| Market.Interval | app/Models/Market.php:103-112 | the days of a counting loop from `lo` up to, not including, `hi` |
| Market.WeekRangeDays | app/Models/Market.php:102-113 | a range A–B has the days A..B when A <= B, and A..Sat then Sun..B when A > B |
| Market.SegmentDays | app/Models/Market.php:91-119 | a segment contributes only days of the week |
| Market.DayIndexOf | app/Models/Market.php:97-98 | each day token is found at its own position |
| Market.TokenHasNoSep | app/Models/Market.php:90-94 | no day token contains a list or range separator |
| Market.RangeSegment | app/Models/Market.php:94-113 | a range of two day tokens, with `-` or `–`, contributes exactly its (possibly wrapping) days |
| Market.SingleSegment | app/Models/Market.php:114-118 | a single day token contributes exactly its day |
| Market.CollectDays | app/Models/Market.php:90-120 | a day is collected from the first n segments iff one of them contributes it |
| Market.CollectDaysStep | app/Models/Market.php:90-120 | one more segment appends exactly its days |
| Market.TradingDaysMembership | app/Models/Market.php:87-121 | a day is a trading day iff some segment of the space-free list names it |
| Market.TradingDaysDistinct | app/Models/Market.php:121 | after `array_unique` no day is listed twice, and all are days of the week |
| Market.AppendInterval | app/Models/Market.php:103-112 | the `for` loop appends exactly the days `lo` to `hi - 1` |
| Market.AddSegment | app/Models/Market.php:91-119 | the body for one segment appends exactly the days of that segment; empty and unknown segments append nothing |
| Market.AppendRange | app/Models/Market.php:102-113 | the range branch appends exactly the days of the range, wrapping when A > B |
| Market.CollectSegments | app/Models/Market.php:90-120 | the `foreach` over the segments appends the days of every segment, in order |
| Market.ParseTradingDays | app/Models/Market.php:86-122 | the parsed day list equals the reference `TradingDays`: empty for a null or empty value, else the collected days without duplicates |
| Market.ParseTimeOfDay | app/Models/Market.php:129-130 | a parsed time of day lies within one day (up to 24:59:60) |
| Market.IsOpenNow | app/Models/Market.php:78-139 | open if the stored flag is set; the stored flag alone when the evaluation throws; otherwise open iff the flag is set or (trading day and inside the window and status 1) |
| Market.NoListEveryDay | app/Models/Market.php:125 | with no or an empty trading-day list every day is a trading day |
| CacheStore.Store.constructor | app/Services/StaticDataCacheService.php:23 | an empty application cache |
| CacheStore.Store.Remember | app/Services/StaticDataCacheService.php:23-27 | `Cache::remember`: a fresh entry is returned and nothing changes; otherwise the computed value is returned and stored until now + ttl (a non-positive ttl stores nothing and drops the key) |
| CacheStore.Store.Forget | app/Services/StaticDataCacheService.php:130 | `Cache::forget` removes exactly that key |
| StaticDataCache.Key | app/Services/StaticDataCacheService.php:16 | every key starts with `static:` |
| StaticDataCache.KeyInjective | app/Services/StaticDataCacheService.php:24-91 | two keys are the same string iff they are the same key, so no two values share an entry |
| StaticDataCache.AssetsOfMarket | app/Services/StaticDataCacheService.php:77-81 | exactly the assets of the market (with multiplicities), ordered by symbol |
| StaticDataCache.AssetsOfSector | app/Services/StaticDataCacheService.php:93-97 | exactly the assets of the sector (with multiplicities), ordered by symbol |
| StaticDataCache.AssetsOfMarketElements | app/Services/StaticDataCacheService.php:77-81 | an asset is listed for a market iff it belongs to it |
| StaticDataCache.AssetsOfSectorElements | app/Services/StaticDataCacheService.php:93-97 | an asset is listed for a sector iff it belongs to it |
| StaticDataCache.Get | app/Services/StaticDataCacheService.php:14-99 | every getter returns a fresh cached value unchanged, and otherwise the query's answer, stored for 86400 seconds under its key |
| StaticDataCache.GetTwice | app/Services/StaticDataCacheService.php:23-27 | within the TTL a second read returns what the first returned, even after the database changed |
| StaticDataCache.MarketByCode | app/Services/StaticDataCacheService.php:104-107 | the first market of the (cached or queried) list with the code, or none; a fresh list leaves the cache alone, a missed one is stored with the TTL |
| StaticDataCache.SectorById | app/Services/StaticDataCacheService.php:112-115 | the first sector of the (cached or queried) list with the id, or none; a fresh list leaves the cache alone, a missed one is stored with the TTL |
| StaticDataCache.MarketByCodeFound | app/Services/StaticDataCacheService.php:104-107 | a fresh lookup finds a market iff the table has one with that code |
| StaticDataCache.StaticKeys | app/Services/StaticDataCacheService.php:122-142 | the cleared keys are the four global keys plus the per-market and per-sector asset keys of the ids now in the database |
| StaticDataCache.ForgetAll | app/Services/StaticDataCacheService.php:129-131 | forgetting each key in turn removes exactly those keys |
| StaticDataCache.KeysOfSnoc | app/Services/StaticDataCacheService.php:129-131 | one more key in the loop removes one more entry |
| StaticDataCache.MarketKeys | app/Services/StaticDataCacheService.php:134-137 | one per-market asset key per market id, in order |
| StaticDataCache.SectorKeys | app/Services/StaticDataCacheService.php:140-143 | one per-sector asset key per sector id, in order |
| StaticDataCache.StaticKeysSplit | app/Services/StaticDataCacheService.php:122-143 | the static keys are the union of the keys of the three loops |
| StaticDataCache.ClearAll | app/Services/StaticDataCacheService.php:120-144 | `clearAll` removes exactly the static keys and keeps every other entry |
| StaticDataCache.ClearedKeys | app/Services/StaticDataCacheService.php:122-143 | the keys of the three loops together are the static keys |
| StaticDataCache.RemoveInTurn | app/Services/StaticDataCacheService.php:129-143 | removing three key sets in turn removes their union |
| StaticDataCache.GetAll | app/Services/StaticDataCacheService.php:151-164 | after reading each key in turn every one is fresh, earlier entries survive, and each changed entry is the query's answer to one of the keys |
| StaticDataCache.QueryOf | app/Services/StaticDataCacheService.php:23-98 | the database's answer to every key is the query behind it |
| StaticDataCache.RefreshedStep | app/Services/StaticDataCacheService.php:151-164 | one more read keeps the cache refreshed and fresh for one more key |
| StaticDataCache.RefreshedMore | app/Services/StaticDataCacheService.php:151-164 | a hit leaves the cache refreshed for the longer key list |
| StaticDataCache.AllHitMore | app/Services/StaticDataCacheService.php:151-164 | a hit keeps all keys so far fresh |
| StaticDataCache.RefreshedMiss | app/Services/StaticDataCacheService.php:151-164 | storing the answer of a miss keeps the cache refreshed |
| StaticDataCache.AllHitMiss | app/Services/StaticDataCacheService.php:151-164 | storing the answer of a miss makes that key fresh and keeps the others fresh |
| StaticDataCache.WarmAll | app/Services/StaticDataCacheService.php:149-165 | afterwards every static key is fresh; no entry is dropped and a fresh one is unchanged; every entry is the one held before or the query's answer to a static key |
| StaticDataCache.ClearKeepsOtherKeys | app/Services/StaticDataCacheService.php:120-144 | a key without the `static:` prefix is never cleared |
| PredictionStats.AssetsWithInvId | app/Services/PredictionStatsService.php:17 | the assets joined to one prediction are assets with that `inv_id` |
| PredictionStats.JoinedOf | app/Services/PredictionStatsService.php:16-17 | every joined row is an asset whose `inv_id` is a predicted pid |
| PredictionStats.CountOf | app/Services/PredictionStatsService.php:18-19 | `COUNT(*)` of a group is at most the row count and positive iff the key occurs |
| PredictionStats.CountsBy | app/Services/PredictionStatsService.php:18-20 | one positive count per key that occurs in the joined rows, and no other key |
| PredictionStats.CountForIsCount | app/Services/PredictionStatsService.php:35-43 | `->get($id, 0)` is the number of joined rows with that id, 0 included |
| PredictionStats.OccurrencesOfDistinct | app/Services/PredictionStatsService.php:18-20 | in a list of distinct keys a key occurs once or not at all |
| PredictionStats.SumCountsSnoc | app/Services/PredictionStatsService.php:18-20 | one more row adds one to the count of its own key only |
| PredictionStats.CountsSumToRows | app/Services/PredictionStatsService.php:16-20 | summed over the distinct keys, the counts give the number of joined rows |
| PredictionStats.SumValuesOfCounts | app/Services/PredictionStatsService.php:35-43 | the sum of the looked-up counts is the sum of the group counts |
| PredictionStats.CountsMapSum | app/Services/PredictionStatsService.php:16-20 | the cached per-key counts sum to the number of joined rows |
| PredictionStats.ZeroCounts | app/Services/PredictionStatsService.php:18-20 | without rows every count is 0 |
| PredictionStats.CountsByMarket | app/Services/PredictionStatsService.php:13-22 | the cached counts while fresh; otherwise the per-market counts, stored for 60 seconds |
| PredictionStats.CountsBySector | app/Services/PredictionStatsService.php:24-33 | the cached counts while fresh; otherwise the per-sector counts, stored for 60 seconds |
| PredictionStats.CountForMarket | app/Services/PredictionStatsService.php:35-38 | a fresh cached count table gives its count of the market (0 when absent) and leaves the cache alone; a miss stores the freshly computed counts and answers from them |
| PredictionStats.CountForSector | app/Services/PredictionStatsService.php:40-43 | a fresh cached count table gives its count of the sector (0 when absent) and leaves the cache alone; a miss stores the freshly computed counts and answers from them |
| PredictionStats.ClearCache | app/Services/PredictionStatsService.php:45-49 | removes the two count keys and nothing else |
| PredictionStats.CountKeysAreNotStatic | app/Services/PredictionStatsService.php:15-26 | the count keys are not `static:` keys, so each clearing leaves the other's entries alone |
| StaticDataObserver.Handle | app/Observers/StaticDataObserver.php:13-56 | every hook, for every observed model, removes exactly the static keys |
| StaticDataObserver.NoStaticKeyRemains | app/Observers/StaticDataObserver.php:53-56 | after a hook no global key and no asset key of a market or sector still in the database remains |
| StaticDataObserver.DeletedMarketKeySurvives | app/Observers/StaticDataObserver.php:29-32 | after `deleted` the asset list of the deleted market survives, as `clearAll` reads the ids after the deletion |
| HomeController.Take | app/Http/Controllers/HomeController.php:114-115 | `limit(n)`: a prefix of the rows of length exactly n, or all rows when there are no more than n |
| HomeController.NewestFirst | app/Http/Controllers/HomeController.php:114-123 | `orderByDesc`/`sortByDesc('timestamp')`: a permutation ordered by timestamp descending |
| HomeController.LimitNewestFirst | app/Http/Controllers/HomeController.php:114-115 | `orderByDesc('timestamp')->limit(n)`: min(n, rows) rows drawn from the input, newest first; no row newer than a kept one is left out |
| Sorting.LimitNewest | app/Http/Controllers/HomeController.php:114-115 | a prefix of a descending sort is a sub-multiset, still sorted, and keeps every row newer than one it holds |
| Sorting.PrefixKeepsNewer | app/Http/Controllers/HomeController.php:114-115 | in a descending sort, a row newer than one in a prefix is in that prefix |
| Sorting.PhpSortLeAgrees | app/Http/Controllers/AssetController.php:175 | where PHP 8's `<=` on strings is a comparator (both strings numeric, or neither), the sort order is exactly it: by value for numeric strings, by `strcmp` otherwise |
| HomeController.MarketQuery | app/Http/Controllers/HomeController.php:105-117 | the limit newest of the market's matching predictions (all of them when fewer), newest first, each stored, of an asset in that market, and a search hit when there was a search |
| HomeController.QueryOf | app/Http/Controllers/HomeController.php:96-117 | each market's query holds exactly the per-market limit, or all its matching rows when fewer, never passing over a newer matching row |
| HomeController.GatheredWithElements | app/Http/Controllers/HomeController.php:99-120 | every gathered row comes from the query of a market the filter selects |
| HomeController.GatheredElements | app/Http/Controllers/HomeController.php:99-120 | every gathered prediction is stored, of an asset in a selected market, and a search hit when there was a search |
| HomeController.GatheredWithBound | app/Http/Controllers/HomeController.php:99-120 | with queries of at most `limit` rows, the gathered list has at most `limit` per selected market |
| HomeController.GatheredBound | app/Http/Controllers/HomeController.php:96-120 | at most 10 rows per selected market with a market filter, 2 without |
| HomeController.PredictionIdRecovers | app/Http/Controllers/HomeController.php:199 | the id starts with pid and `-`, and the `(int)` cast of the rest gives back the timestamp |
| HomeController.TargetTime | app/Http/Controllers/HomeController.php:192-196 | a target iff the timestamp is set and `horizon_minutes ?? minutes(horizon)` is positive; then timestamp + minutes*60 |
| HomeController.TargetNeedsKnownHorizon | app/Http/Controllers/HomeController.php:193-196 | without stored minutes a target exists iff the timestamp is set and the horizon is known |
| HomeController.FormatPrediction | app/Http/Controllers/HomeController.php:183-215 | every field: id pid-timestamp, asset id, symbol, name and market code; the current price only when positive; price, confidence, horizon, label; the rounded expected gain over the cached price (0 without one); time, target and freshness |
| HomeController.FormattedGain | app/Http/Controllers/HomeController.php:186-189 | the gain shown is 0 without a current price, else within 0.005 of the percent change from it to the prediction |
| HomeController.AssetOfFound | app/Http/Controllers/HomeController.php:106-107 | a prediction matched by `whereHas('asset')` has its asset loaded |
| HomeController.FormatAll | app/Http/Controllers/HomeController.php:126 | one formatted entry per row, in order |
| HomeController.GatherWith | app/Http/Controllers/HomeController.php:94-120 | the `foreach` concatenates the query of each market the filter does not skip, in market order |
| HomeController.GatherPredictions | app/Http/Controllers/HomeController.php:94-120 | the loop with the real per-market query yields the gathered list |
| HomeController.GetFeaturedPredictions | app/Http/Controllers/HomeController.php:71-128 | a search without hits gives empty data; otherwise the gathered list sorted newest first, each row with its asset, formatted |
| HomeController.GatheredHaveAssets | app/Http/Controllers/HomeController.php:106-117 | every gathered prediction has its asset |
| HomeController.FeaturedRows | app/Http/Controllers/HomeController.php:99-123 | each featured row is a stored prediction of an asset in a selected market, and a search hit when there was a search |
| HomeController.Newest5 | app/Http/Controllers/HomeController.php:152-154 | exactly five rows, or all of them when there are fewer, a prefix of the newest-first order |
| Projection.KeyedFilter | app/Http/Controllers/HomeController.php:156 | Laravel `filter`: the kept elements in order, each under its original index, the keys strictly increasing |
| Projection.KeyedFilterKeeps | app/Http/Controllers/HomeController.php:156 | every element the test keeps is there under its own index |
| Projection.KeyedFilterAll | app/Http/Controllers/HomeController.php:156 | when nothing is dropped the keys are 0, 1, … |
| Projection.KeyedFilterGap | app/Http/Controllers/HomeController.php:156 | a dropped element followed by a kept one leaves some key differing from its position |
| HomeController.RecentRows | app/Http/Controllers/HomeController.php:152-156 | at most 5 rows, newest first, each a stored prediction with its asset; no prediction with an asset newer than one kept is left out (completeness among the five newest: `RecentRowsComplete`) |
| HomeController.RecentRowsComplete | app/Http/Controllers/HomeController.php:152-156 | each of the five newest predictions whose asset exists is kept: it is among the recent rows, and the answer has an entry under its index |
| HomeController.GetRecentPredictions | app/Http/Controllers/HomeController.php:150-181 | one entry per recent row (so up to five, and every one of the five newest with an asset has its entry: `RecentRowsComplete`), under its index among the five newest (keys increasing), with every field: id, asset id, symbol, name, price, confidence, horizon, label, time, target and freshness |
| HomeController.RecentKeysConsecutive | app/Http/Controllers/HomeController.php:152-180 | when all five newest have their asset, the answer is all of them under keys 0, 1, … |
| HomeController.RecentKeysGap | app/Http/Controllers/HomeController.php:152-180 | a newest row without its asset before one with leaves a gap in the keys, so the array is not a list |
| ColumnFlagsMigration.WithFlags | database/migrations/2025_10_19_105150_migrate_v4_table_columns_to_new_structure.php:26-29 | by-reference write of both flags: an array gets both set false and keeps every other key; null and false become a new array with just the flags; any other scalar is an error |
| ColumnFlagsMigration.MapColumns | database/migrations/2025_10_19_105150_migrate_v4_table_columns_to_new_structure.php:26-29 | succeeds exactly when every column can be changed; then the same keys in the same order, each value changed |
| ColumnFlagsMigration.GetMapped | database/migrations/2025_10_19_105150_migrate_v4_table_columns_to_new_structure.php:26-29 | a key is present after the change exactly when it was before, and maps to the changed column |
| ColumnFlagsMigration.Backfilled | database/migrations/2025_10_19_105150_migrate_v4_table_columns_to_new_structure.php:26-29 | the `foreach` succeeds exactly when every column takes the flags; keys and order are kept |
| ColumnFlagsMigration.MigrateFilters | database/migrations/2025_10_19_105150_migrate_v4_table_columns_to_new_structure.php:14-33 | a set without `tableColumns`, or with an empty one, is unchanged; `tableColumns` that is not an array, or has no entry 0, is an error; a first column already carrying both flags leaves the set unchanged; otherwise `tableColumns` is replaced by its backfilled columns (every column gets both flags false, keys and order kept) and nothing else changes, failing exactly when a column cannot take the flags |
| ColumnFlagsMigration.BackfillColumns | database/migrations/2025_10_19_105150_migrate_v4_table_columns_to_new_structure.php:26-29 | the loop fails exactly when the specification fails, and otherwise yields the same flagged columns |
| ColumnFlagsMigration.FlaggedStep | database/migrations/2025_10_19_105150_migrate_v4_table_columns_to_new_structure.php:26-29 | one more flagged column extends the loop invariant |
| ColumnFlagsMigration.MigrateRecord | database/migrations/2025_10_19_105150_migrate_v4_table_columns_to_new_structure.php:14-29 | the record body agrees with the specification on success and on error |
| ColumnFlagsMigration.Up | database/migrations/2025_10_19_105150_migrate_v4_table_columns_to_new_structure.php:8-36 | all rows are migrated with ids kept, or there is an error exactly when some row fails |
| ColumnFlagsMigration.MigratedColumns | database/migrations/2025_10_19_105150_migrate_v4_table_columns_to_new_structure.php:20-33 | a changed set keeps every other field; every column, under its own key and in order, has both flags false |
| ColumnFlagsMigration.GetBackfilled | database/migrations/2025_10_19_105150_migrate_v4_table_columns_to_new_structure.php:26-29 | looking up a key in the flagged columns finds that column, flagged |
| ColumnFlagsMigration.Idempotent | database/migrations/2025_10_19_105150_migrate_v4_table_columns_to_new_structure.php:20-24 | migrating a migrated set again changes nothing, because its first column is then flagged |
| TableSortMigration.MigrateFilters | database/migrations/2025_10_19_105151_migrate_table_sort_to_v4.php:15-27 | a non-array or a set without a sort column is unchanged. Otherwise `tableSort` is column, colon and direction (default `asc`), both old keys are gone and every other key is kept. It is an error exactly when a part does not convert to a string |
| TableSortMigration.MigrateRecord | database/migrations/2025_10_19_105151_migrate_table_sort_to_v4.php:15-27 | the loop body computes the rewrite of one record's filters |
| TableSortMigration.Idempotent | database/migrations/2025_10_19_105151_migrate_table_sort_to_v4.php:21-27 | running the rewrite on its own result changes nothing more |
| TableSortMigration.Up | database/migrations/2025_10_19_105151_migrate_table_sort_to_v4.php:9-34 | succeeds exactly when every record's rewrite does; then one row per record, in order, with its id and its rewritten filters (untouched records unchanged) |
| ToggledColumnsMigration.ShapesExclusive | database/migrations/2025_10_19_105149_migrate_toggled_columns_to_v4.php:147-165 | the order and bool shapes exclude each other, and the array shape is never the bool shape |
| ToggledColumnsMigration.ArrayForm | database/migrations/2025_10_19_105149_migrate_toggled_columns_to_v4.php:55-67 | succeeds exactly when every item is an array with both keys; then one column per item, in order, named by `column` and toggled by `isVisible` |
| ToggledColumnsMigration.Names | database/migrations/2025_10_19_105149_migrate_toggled_columns_to_v4.php:73-74 | the keys as strings, one per entry, in order |
| ToggledColumnsMigration.ToggledOr | database/migrations/2025_10_19_105149_migrate_toggled_columns_to_v4.php:80 | the flattened toggle when present and not null, else true |
| ToggledColumnsMigration.Missing | database/migrations/2025_10_19_105149_migrate_toggled_columns_to_v4.php:85-96 | exactly the toggled keys that are not ordered columns, and nothing else |
| ToggledColumnsMigration.OrderForm | database/migrations/2025_10_19_105149_migrate_toggled_columns_to_v4.php:70-101 | the ordered keys come first, each toggled as the flattened toggles say (default true), followed by the missing toggled columns |
| ToggledColumnsMigration.BoolForm | database/migrations/2025_10_19_105149_migrate_toggled_columns_to_v4.php:104-117 | one column per key, in order, toggled by its boolean |
| ToggledColumnsMigration.TransformOrdered | database/migrations/2025_10_19_105149_migrate_toggled_columns_to_v4.php:53-120 | a non-array argument is an error; the shapes are tried in the order array, order, bool; none of them gives no columns |
| ToggledColumnsMigration.BoolArgument | database/migrations/2025_10_19_105149_migrate_toggled_columns_to_v4.php:127 | a typed `bool` parameter in coercive mode: succeeds exactly for scalars, and a boolean is itself |
| ToggledColumnsMigration.TransformToggled | database/migrations/2025_10_19_105149_migrate_toggled_columns_to_v4.php:122-136 | a non-array is an error; one short column per flattened key, in order; it succeeds whenever every value converts to bool |
| ToggledColumnsMigration.ToggledColumns | database/migrations/2025_10_19_105149_migrate_toggled_columns_to_v4.php:126-135 | one column per flattened entry, in order; it succeeds whenever every value converts to bool |
| ToggledColumnsMigration.TransformTableColumns | database/migrations/2025_10_19_105149_migrate_toggled_columns_to_v4.php:37-51 | the ordered columns take priority over the toggled ones (toggled default `[]`); with neither set there are no columns |
| ToggledColumnsMigration.MigrateFilters | database/migrations/2025_10_19_105149_migrate_toggled_columns_to_v4.php:15-28 | a non-array, or a set that yields no columns, is unchanged; a failing transform is an error; otherwise both old keys are gone, `tableColumns` holds the columns and every other key is kept |
| ToggledColumnsMigration.Up | database/migrations/2025_10_19_105149_migrate_toggled_columns_to_v4.php:9-35 | all rows are migrated with ids kept, or there is an error exactly when some row fails |
| ToggledColumnsMigration.WithoutOldKeysUntouched | database/migrations/2025_10_19_105149_migrate_toggled_columns_to_v4.php:23-25 | a set with neither old key comes out exactly as it went in |
| ToggledColumnsMigration.MissingDistinct | database/migrations/2025_10_19_105149_migrate_toggled_columns_to_v4.php:85-96 | with distinct flattened keys, no missing column is added twice |
| Sitemap.UrlEntries | app/Http/Controllers/SitemapController.php:128-152 | two `<url>` elements per page, its ar and en versions together and in that order |
| Sitemap.UrlSetFrame | app/Http/Controllers/SitemapController.php:125-126 | the document starts with the XML declaration and `<urlset …>`, and ends with `</urlset>` |
| Sitemap.LocReadsBack | app/Http/Controllers/SitemapController.php:130-133 | the escaped `<loc>` holds no markup character and unescapes to base, slash, locale and path |
| Sitemap.LastModOnlyWhenSet | app/Http/Controllers/SitemapController.php:144-146 | `<lastmod>` is written exactly when the page has one |
| Sitemap.AppendAlternates | app/Http/Controllers/SitemapController.php:136-139 | the inner loop appends the ar alternate and then the en alternate |
| Sitemap.AppendUrlHead | app/Http/Controllers/SitemapController.php:132-139 | appends the first four parts of the element: tag, `<loc>`, and both alternates |
| Sitemap.AppendUrl | app/Http/Controllers/SitemapController.php:130-150 | appends exactly one `<url>` element of the page in that locale |
| Sitemap.GenerateUrlSet | app/Http/Controllers/SitemapController.php:120-157 | the nested loops build exactly the specified document |
| Sitemap.RowPages | app/Http/Controllers/SitemapController.php:67-74 | one page per row, in order: prefix plus segment, the given priority, daily, and the row's `updated_at` |
| Sitemap.IndexEntries | app/Http/Controllers/SitemapController.php:16-31 | four entries, one per listed sitemap, in order |
| Sitemap.Index | app/Http/Controllers/SitemapController.php:23-35 | the loop builds the index document from those four entries |
| SeoService.SiteName | app/Services/SeoService.php:23 | `config('app.name', 'Horin')`: the configured name, else `Horin` |
| SeoService.ListItems | app/Services/SeoService.php:174-182 | one item per crumb, in order, at position index + 1, with the crumb's name and its url or null |
| SeoService.BreadcrumbSchema | app/Services/SeoService.php:168-189 | no schema exactly for an empty trail; otherwise a breadcrumb list of those items |
| SeoService.PositionsConsecutive | app/Services/SeoService.php:178 | positions start at 1, end at the trail's length and rise by one each step |
| SeoService.OgLocalesDistinct | app/Services/SeoService.php:120-121 | `og:locale` and `og:locale:alternate` differ, and together they are `ar_SA` and `en_US` |
| SeoService.OrganizationSchema | app/Services/SeoService.php:135-146 | an Organization with the site name, the app URL, the default image as logo and the default description of the locale |
| SeoService.WebsiteSchema | app/Services/SeoService.php:148-166 | a WebSite with the site name, app URL and default description, the language `ar-SA` for Arabic and `en-US` otherwise, and the search template `<app URL>/<locale>/search?q={search_term_string}` |
| SeoService.SchemasAgree | app/Services/SeoService.php:135-166 | both schemas give the same name, URL and description, and the website's language matches the Open Graph locale |
| SeoService.Relocalize | app/Services/SeoService.php:94-98 | a URL under `app.url/<from>` comes back under `app.url/<to>`; any other URL is unchanged |
| SeoService.RelocalizeLocalized | app/Services/SeoService.php:94-98 | replacing the locale keeps the rest of the URL |
| SeoService.RelocalizeRoundTrip | app/Services/SeoService.php:94-98 | switching to another locale and back gives the original URL |
| SeoService.AlternateUrls | app/Services/SeoService.php:87-109 | the alternate for the current locale is the current URL itself |
| SeoService.AlternatesOfLocalizedPage | app/Services/SeoService.php:87-109 | on a page under `app.url/ar` or `app.url/en`, the alternates are that page under `/ar` and `/en`, and `x-default` is the Arabic one |
| SeoService.AlternatesOfOtherPage | app/Services/SeoService.php:87-109 | on a page outside `app.url/<locale>`, every alternate is the page itself |
| SeoService.SeoService.constructor | app/Services/SeoService.php:15-25 | the site name as title, the locale's default description, no image, type `website` and no breadcrumbs |
| SeoService.SeoService.SetTitle | app/Services/SeoService.php:27-32 | sets the title only and returns the same object |
| SeoService.SeoService.SetDescription | app/Services/SeoService.php:34-39 | sets the description only and returns the same object |
| SeoService.SeoService.SetImage | app/Services/SeoService.php:41-46 | sets the image (possibly null) only and returns the same object |
| SeoService.SeoService.SetType | app/Services/SeoService.php:48-53 | sets the type only and returns the same object |
| SeoService.SeoService.SetBreadcrumbs | app/Services/SeoService.php:55-60 | sets the trail only and returns the same object |
| SeoService.SeoService.GetImage | app/Services/SeoService.php:72-75 | the image that was set, else `app.url/og-image.png` |
| SeoService.SeoService.OpenGraphTags | app/Services/SeoService.php:111-123 | eight tags in order: the title, description and type set, the resolved image, the current URL, the site name, and `ar_SA`/`en_US` as locale and alternate by the request locale |
| SeoService.SeoService.TwitterTags | app/Services/SeoService.php:125-133 | four tags in order: a large-image card, the title and description set, and the resolved image |
| SeoService.SeoService.TagsAgree | app/Services/SeoService.php:111-133 | Open Graph and Twitter show the same title, description and image; no tag name repeats |
| SeoService.SeoService.GetBreadcrumbSchema | app/Services/SeoService.php:168-189 | the loop builds the specified breadcrumb schema |
| SeoService.SeoService.GetAllSchemas | app/Services/SeoService.php:191-204 | the organization and the website, plus the breadcrumb list exactly when the trail is not empty |
| TelegramHashValidator.KSort | app/Services/TelegramHashValidator.php:28 | `ksort`: the same fields (a permutation) in key order |
| TelegramHashValidator.SignedFields | app/Services/TelegramHashValidator.php:24-28 | the fields other than `hash` (a permutation of them), in key order |
| TelegramHashValidator.SignedFieldsExcludeHash | app/Services/TelegramHashValidator.php:24-28 | the signed fields are sorted, exactly the fields other than `hash`, and none of them is `hash` |
| TelegramHashValidator.Line | app/Services/TelegramHashValidator.php:30 | `key=value`; an error exactly when the value is an array |
| TelegramHashValidator.Lines | app/Services/TelegramHashValidator.php:29-31 | one line per field, in order; an error exactly when a field holds an array |
| TelegramHashValidator.DataCheckString | app/Services/TelegramHashValidator.php:24-31 | can be written exactly when no signed field holds an array; empty without signed fields; otherwise, when no line has a newline of its own, it splits at its newlines into exactly the lines of the signed fields |
| TelegramHashValidator.Validate | app/Services/TelegramHashValidator.php:12-40 | false without `hash` or `auth_date`, and false when the login is older than the timeout. Otherwise true exactly when the signature of the data-check-string equals `hash`. It is an error when a field is an array or `hash` is not a string |
| TelegramHashValidator.SplitAfterPiece | app/Services/TelegramHashValidator.php:31 | splitting at the first newline separates a piece without newlines from the rest |
| TelegramHashValidator.ImplodeSplit | app/Services/TelegramHashValidator.php:29-31 | lines without newlines are recovered by splitting their implosion: the data-check-string determines its lines |
| TelegramWebhookController.TokenCheck | app/Http/Controllers/Auth/TelegramWebhookController.php:24-34 | with a truthy secret, a request passes exactly when its token header equals the secret; without one every request passes |
| TelegramWebhookController.Offset | app/Http/Controllers/Auth/TelegramWebhookController.php:52-56 | `$v[$k]` succeeds exactly when `v` is an array holding `k`, and yields that value |
| TelegramWebhookController.ReadContact | app/Http/Controllers/Auth/TelegramWebhookController.php:52-56 | succeeds exactly when contact, from, chat, chat id, `user_id` and from id are all present; then yields those values |
| TelegramWebhookController.FindUser | app/Http/Controllers/Auth/TelegramWebhookController.php:65 | `where('telegram_id', …)->first()`: the first user linked to the id, or none when no user is |
| TelegramWebhookController.PhoneArg | app/Http/Controllers/Auth/TelegramWebhookController.php:98 | a `string` parameter: succeeds exactly for scalars, and a string is itself |
| TelegramWebhookController.ContactPhone | app/Http/Controllers/Auth/TelegramWebhookController.php:76 | succeeds exactly when `phone_number` is present and is accepted as a string |
| TelegramWebhookController.NormalizePhone | app/Http/Controllers/Auth/TelegramWebhookController.php:98-107 | the result is trimmed and starts with `+`: the trimmed phone when it already does, else `+` in front of it |
| TelegramWebhookController.NormalizePhoneIdempotent | app/Http/Controllers/Auth/TelegramWebhookController.php:98-107 | normalising twice is normalising once |
| TelegramWebhookController.ChatIdOf | app/Http/Controllers/Auth/TelegramWebhookController.php:90 | an `int` parameter: an integer is itself; null and arrays are a type error |
| TelegramWebhookController.Decide | app/Http/Controllers/Auth/TelegramWebhookController.php:56-78 | mismatch exactly when `user_id !== from.id`; unknown exactly when no user is linked; an error exactly when the phone cannot be read; otherwise the first linked user and the normalised phone |
| TelegramWebhookController.VerifiedOnlyOwnContact | app/Http/Controllers/Auth/TelegramWebhookController.php:56-79 | a phone is verified only for the user whose Telegram id is that of the sender who shared their own contact |
| TelegramWebhookController.Apply | app/Http/Controllers/Auth/TelegramWebhookController.php:78-79 | on the verified branch that user gets the phone and is verified now; no other user changes |
| TelegramWebhookController.HandleContact | app/Http/Controllers/Auth/TelegramWebhookController.php:50-85 | an unreadable message fails and changes no user. Otherwise the reply carries the branch's text and goes to the chat id, and only the linked user is changed. The user is saved before the chat id is checked |
| TelegramWebhookController.Handle | app/Http/Controllers/Auth/TelegramWebhookController.php:21-45 | 403 with nothing changed when the token is refused; `ok` with nothing changed without a contact; otherwise `ok` with the reply, after the contact has been handled |
| User.CodeOf | app/Models/User.php:174 | six decimal digits whose value is the drawn number, zero-padded on the left |
| User.CodesDistinct | app/Models/User.php:172-182 | two different draws give two different codes |
| User.User.StatusTests | app/Models/User.php:146-154 | `hasVerifiedPhone` and `hasCompletedOnboarding` hold exactly when their timestamp is set |
| User.User.CodeValidity | app/Models/User.php:184-189 | `isPhoneVerificationCodeValid`: only the stored code can be valid, none without a stored code, a code valid now was valid before, and none is valid once the expiry is reached |
| User.User.MarkPhoneAsVerified | app/Models/User.php:156-163 | verified now, with the code and its expiry cleared; no field outside verification changes, and afterwards no code is valid |
| User.User.MarkOnboardingAsComplete | app/Models/User.php:165-170 | onboarding is completed now, and every other field is unchanged |
| User.User.GeneratePhoneVerificationCode | app/Models/User.php:172-189 | stores and returns the six-digit code of the draw, valid exactly until ten minutes from now; the verification date and every non-verification field are unchanged |
| OnboardingController.ClampStep | app/Http/Controllers/OnboardingController.php:26 | `max(1, min(4, step))`: always between 1 and 4, a step in range is kept, and one outside goes to the nearer end |
| OnboardingController.RequestedStep | app/Http/Controllers/OnboardingController.php:25 | step 1 when the query has none; else the `(int)` cast of the text given, or the integer given |
| OnboardingController.Show | app/Http/Controllers/OnboardingController.php:19-44 | a finished user is sent to the dashboard. Otherwise the wizard shows the requested step clamped to 1..4 (`max(1, min(4, step))`, step 1 by default) out of 4, and the user's seven saved selections; countries and markets are loaded exactly on step 3, and sectors exactly on step 4 |
| OnboardingController.ShowRequestedStep | app/Http/Controllers/OnboardingController.php:25-29 | a link `?step=n` to a step in range shows that very step |
| OnboardingController.ShowClampedStep | app/Http/Controllers/OnboardingController.php:25-26 | a link to a step past the last shows the last step, and one to a step below 1 shows step 1 |
| OnboardingController.Store | app/Http/Controllers/OnboardingController.php:49-91 | a step outside 1 to 4 is an error that changes nothing. Otherwise only that step's fields are saved; step 4 completes the onboarding and the others redirect to the next step. The phone fields stay as they were |
| OnboardingController.NextStepShown | app/Http/Controllers/OnboardingController.php:73 | the step `store` sends the user to is a step `show` displays unchanged |
| PhoneVerificationController.MaskPhone | app/Http/Controllers/Auth/PhoneVerificationController.php:68-80 | empty for a missing or falsy phone, and a phone of at most six characters as it is. A longer phone keeps its length, its first four and last two characters, with `*` in between |
| PhoneVerificationController.MaskHidesMiddle | app/Http/Controllers/Auth/PhoneVerificationController.php:79 | two long phones of one length that agree on their first four and last two characters are masked alike |
| PhoneVerificationController.Show | app/Http/Controllers/Auth/PhoneVerificationController.php:17-26 | redirect exactly when the phone is verified; otherwise the page shows the masked phone |
| PhoneVerificationController.Verify | app/Http/Controllers/Auth/PhoneVerificationController.php:31-44 | a code that is not valid is refused with the user unchanged; a valid one verifies the phone now, after which no code is accepted |
| PhoneVerificationController.Resend | app/Http/Controllers/Auth/PhoneVerificationController.php:49-63 | a verified user gets no code and is unchanged; any other user gets the code of the draw, valid for ten minutes |
| PhoneVerificationController.CodeOfIsStoredCode | app/Models/User.php:174 | the code the model stores is the padded decimal form of the draw |
| PhoneVerificationController.DigitsDetermined | app/Models/User.php:174 | two digit strings of one length with the same value are equal |
| RecommendationFormatters.ToUpperIdempotent | resources/js/composables/useRecommendationFormatters.ts:11 | upper-casing twice is upper-casing once |
| RecommendationFormatters.ActionColor | resources/js/composables/useRecommendationFormatters.ts:10-25 | `getActionColor`: the action is upper-cased, then each of the five actions gets its own badge colour, in both directions; gray-400 exactly for a missing or unknown action |
| RecommendationFormatters.ColorOfUpper | resources/js/composables/useRecommendationFormatters.ts:10-25 | each of the five actions has its own badge colour, in both directions; gray-400 exactly for a missing or unknown action |
| RecommendationFormatters.TextColorOfUpper | resources/js/composables/useRecommendationFormatters.ts:30-41 | green exactly for the two buys, red exactly for the two sells, gray exactly for anything else (`HOLD`, unknown, none) |
| RecommendationFormatters.ActionTextColor | resources/js/composables/useRecommendationFormatters.ts:30-41 | `getActionTextColor`: after upper-casing, green exactly for the two buys, red exactly for the two sells, gray exactly for anything else |
| RecommendationFormatters.ColorsIgnoreCase | resources/js/composables/useRecommendationFormatters.ts:11 | both colours depend on the action only up to letter case |
| RecommendationFormatters.ActionIcon | resources/js/composables/useRecommendationFormatters.ts:46-51 | up exactly when the upper-cased action contains `BUY`; down exactly when it contains `SELL` and not `BUY` |
| RecommendationFormatters.IconMatchesTextColor | resources/js/composables/useRecommendationFormatters.ts:30-51 | on every recognised action except HOLD, the up icon goes with the green text colour and only with it |
| RecommendationFormatters.BuyActions | resources/js/composables/useRecommendationFormatters.ts:48 | of the five actions, exactly the two buys contain `BUY` |
| RecommendationFormatters.RiskRewardLabel | resources/js/composables/useRecommendationFormatters.ts:56-62 | `-` exactly for no ratio; excellent from 3, good from 2 to 3, fair from 1 to 2, and poor below 1, each in both directions |
| RecommendationFormatters.RiskRewardColor | resources/js/composables/useRecommendationFormatters.ts:67-73 | gray exactly for no ratio; green-600 from 3, green-500 from 2 to 3, yellow from 1 to 2, red below 1 |
| RecommendationFormatters.RiskRewardMonotone | resources/js/composables/useRecommendationFormatters.ts:56-73 | a better ratio never gets a worse band, and the label and the colour determine each other |
| RecommendationFormatters.FormatTimeAgo | resources/js/composables/useRecommendationFormatters.ts:78-88 | `-` for no date, `NaNd` for an unparsable one, and `just_now` under a minute |
| RecommendationFormatters.TimeAgoUnits | resources/js/composables/useRecommendationFormatters.ts:81-87 | past a minute, the elapsed time is floored to whole minutes, hours or days, in the largest unit that reaches one |
| RecommendationFormatters.IsStale | resources/js/composables/useRecommendationFormatters.ts:93-97 | a missing date is stale and an unparsable one never is; otherwise stale exactly when more than the threshold has passed |
| RecommendationFormatters.StaleMonotone | resources/js/composables/useRecommendationFormatters.ts:93-97 | once stale, a date stays stale as time goes on |
| RecommendationFormatters.StrengthColor | resources/js/composables/useRecommendationFormatters.ts:102-106 | green from 80, yellow from 60 to 80, red below 60, each in both directions |
| SetLocale.ResolveLocale | app/Http/Middleware/SetLocale.php:27-51 | the result is always supported, and is none (a 404) exactly when the route names a truthy unsupported locale. A supported route locale wins; without a route locale the user's supported language is used, else Arabic |
| SetLocale.RouteLocaleWins | app/Http/Middleware/SetLocale.php:29-45 | when the route names a locale, the user's language does not matter |
| SetLocale.Handle | app/Http/Middleware/SetLocale.php:27-51 | 404 exactly when the locale is refused, with the application locale left as it was; otherwise the application runs in the resolved locale, which stays a supported one |
| PaginationHelper.MetaLossless | app/Support/PaginationHelper.php:9-17 | `meta` reports the paginator's current page, last page, page size and total unchanged: equal meta means equal paginators |
| PaginationHelper.MetaOfPaginator | app/Support/PaginationHelper.php:9-17 | for a query of `total` rows, `meta` reports that page, total and size, and the fewest pages (at least one) that hold them |
| PaginationHelper.EmptyIsMetaOfNothing | app/Support/PaginationHelper.php:9-27 | `empty` is what `meta` reports for the first page of a query that found nothing |
| PaginationHelper.EmptyDefault | app/Support/PaginationHelper.php:19 | without an argument, the page size is 10 |
| LatestPatternDetection.NamesDistinct | app/Models/LatestPatternDetection.php:76-102 | the nine pattern names are pairwise different |
| LatestPatternDetection.Picked | app/Models/LatestPatternDetection.php:74-104 | at most one name per flag examined |
| LatestPatternDetection.PickedElements | app/Models/LatestPatternDetection.php:76-102 | every picked name is the name of a set flag |
| LatestPatternDetection.PickedMembership | app/Models/LatestPatternDetection.php:76-102 | with distinct names, a name is picked exactly when its flag is set |
| LatestPatternDetection.PickedInOrder | app/Models/LatestPatternDetection.php:76-102 | picked names appear in the order of their flags |
| LatestPatternDetection.PickedDistinct | app/Models/LatestPatternDetection.php:76-102 | with distinct names, no name is picked twice |
| LatestPatternDetection.NonePicked | app/Models/LatestPatternDetection.php:74-104 | with no flag set, the list is empty |
| LatestPatternDetection.PickedAll | app/Models/LatestPatternDetection.php:72-105 | over all the flags: no name twice, a name exactly when its flag is set, in flag order, and none when no flag is set |
| LatestPatternDetection.DetectedNames | app/Models/LatestPatternDetection.php:72-105 | the nine patterns: at most nine names, none twice, each exactly when its flag is set, in the order of the flags, and none when no flag is set |
| LatestPatternDetection.AppendIf | app/Models/LatestPatternDetection.php:76-78 | the name is appended exactly when its flag is set; the list is kept otherwise |
| LatestPatternDetection.GetDetectedPatternNames | app/Models/LatestPatternDetection.php:72-105 | the nine conditional appends build exactly the specified selection |

## Left out

- Refreshing the materialized views and the `pg_cron` schedule are not modelled: they are database infrastructure, and the model states what each view holds.
- Floating-point arithmetic is not modelled. Prices and gains are exact reals, so binary rounding error is not captured. The chart's confidence bands and the home page's percentage parsing are left out entirely.
- LatestRecommendation.IsStale: `diffInMinutes` is read as Carbon 3 gives it, a signed real number of minutes. Carbon 2 returns the absolute whole number of minutes, under which the boundary is 1860 seconds and a `created_at` in the future can be stale.
- GetPredictionHistory: PHP 8's `<=` is not transitive once numeric and non-numeric codes are mixed, and the order `sortBy` then gives depends on PHP's sort algorithm. The model puts the numeric codes first in that case.
- GetPredictionHistory: only integer-form strings (an optional `-` and digits) count as numeric. Numeric strings with surrounding whitespace, a `+`, a fraction or an exponent are compared by `strcmp`. A `smallInteger` column never yields them.
- OrganizationSchema: the constant `@context` entry and the empty `sameAs` list are not modelled.
- WebsiteSchema: the constant `@context` entry and the nested `@type` entries of the search action, and `query-input` (`required name=search_term_string`), are not modelled.
- Time zones, calendars and ISO-8601 formatting are not modelled, and neither is Carbon's clock. Times are integers and the current day and time of day are parameters. Formatted dates (`toW3cString`, `toIso8601String`) are passed in as strings.
- An invalid market time zone is modelled as the clock being absent. The market's exception fallback covers that case.
- Text is unbounded Unicode text rather than bytes. `strlen` and `substr` in `maskPhone` count characters, not bytes. Upper-casing touches ASCII letters only.
- Integers are unbounded: PHP's 64-bit overflow in timestamp arithmetic is not modelled.
- Database order of strings is modelled as code-point order, not the database collation.
- SHA-256 and HMAC-SHA-256 are kept abstract: the signature is a function parameter.
- `random_int` is a parameter that draws the code.
- Calls into services and the network are not modelled: the Telegram Bot API call, Scout search (its hits are a parameter), SMS sending.
- Logging is not modelled.
- The sitemap's own `Cache::remember` is not modelled; the model builds the document it caches.
- `url()` and `config('app.url')` are a base URL parameter.
- Inertia renders, redirects and JSON responses are datatypes holding what the user sees. Translated reply texts are their translation keys.
- The onboarding form's validation (a FormRequest) is not modelled; `store` receives the validated fields.
- The onboarding relation `sync` is modelled as replacing a set of ids.
- `LengthAwarePaginator` is modelled only by the four figures it reports.
- `ksort` compares keys by their string form; its numeric comparison of numeric-string keys is not modelled.
- The webhook's `telegram_id` query matches integer ids only.
- A chat id in float form, or a numeric string with spaces or a leading `+`, is refused rather than converted.
- JSON floats are not part of the decoded values: numbers are integers.
- The `webhook_secret` configuration is read as an optional string; `env()` coercion of `"true"`/`"null"` is not modelled.
- The queries of other controllers (prediction, market, search and sector pages), `getTopMovers` and `getAssetIndicators` are not modelled. They are query glue over the same views.
- SeoService's rendering into HTML (`og:*` meta tags, `@context` keys of the schemas) is not modelled; the model keeps the values.
- SeoService.Relocalize: URLs are assumed to hold no newline, where the regex's `$` would behave differently.
- The observer's registration on Country, Market, Sector and Asset is modelled by a datatype of the four observed models. The service provider is not part of this model.
- PhpIntCast: the fraction and exponent of a numeric string are read as an exact decimal and truncated toward zero. Double rounding, 64-bit saturation and non-finite results (`"1e999"`) are not modelled; this also holds for AssetController.ChartPeriod and OnboardingController.RequestedStep, which use it.
- MarketByCode: `firstWhere` compares with PHP's loose `==`, so `"01"` would find market `"1"`; the model compares codes exactly.
- SectorById: `firstWhere` compares with PHP's loose `==`; the model compares ids exactly.
- CountForMarket: a cached value of another kind under the counts key, where the source's `->get` would fail, is read as no counts (0).
- CountForSector: a cached value of another kind under the counts key is read as no counts (0), as for markets.
