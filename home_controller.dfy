/** The home page's prediction lists: the featured predictions (a few of the
    newest per market, optionally for one market and restricted to the assets a
    search found) and the five newest predictions overall. The search engine is
    a parameter: `searchHits` is the `inv_id` list it returned. */
module HomeController {
  import opened Wrappers
  import opened PhpText
  import opened Sorting
  import opened Projection
  import Horizon
  import AssetController

  datatype Market = Market(id: string, code: string)

  /** An asset with its eager-loaded relations: `marketCode` is the code of
      `asset.market`, `cachedPrice` the price of `asset.cachedPrice`. */
  datatype Asset = Asset(
    id: string, invId: string, symbol: string, name: string, marketId: string, marketCode: string,
    cachedPrice: Option<real>)

  /** A row of the latest-predictions view. */
  datatype Prediction = Prediction(
    pid: string, timestamp: int, pricePrediction: real, confidence: real,
    horizon: string, horizonMinutes: Option<int>, freshness: Option<string>)

  function PredictionTime(p: Prediction): int { p.timestamp }

  /** A request parameter that PHP treats as true. */
  predicate Truthy(s: Option<string>) {
    s.Some? && !IsFalsy(s.value)
  }

  /** The `asset` relation: the first asset whose `inv_id` is the pid. */
  function AssetOf(assets: seq<Asset>, pid: string): Option<Asset> {
    FirstWhere(assets, (a: Asset) => a.invId == pid)
  }

  /** `whereHas('asset', market_id = …)`: some asset of the pid is in the market. */
  predicate InMarket(assets: seq<Asset>, pid: string, marketId: string) {
    exists a :: a in assets && a.invId == pid && a.marketId == marketId
  }

  /** The first `n` rows, or all of them when there are fewer (`limit`,
      `take`). */
  function Take<T>(s: seq<T>, n: nat): (r: seq<T>)
    ensures |r| == if |s| <= n then |s| else n
    ensures r <= s
    ensures |s| <= n ==> r == s
  {
    if |s| <= n then s else s[..n]
  }

  /** The newest first, by a stable sort (`orderByDesc('timestamp')`,
      `sortByDesc('timestamp')`). */
  function NewestFirst(s: seq<Prediction>): (r: seq<Prediction>)
    ensures SortedBy(r, ByKeyDesc(PredictionTime))
    ensures multiset(r) == multiset(s)
  {
    ByKeyDescPreorder(PredictionTime);
    InsertionSort(s, ByKeyDesc(PredictionTime))
  }

  // ---- featured predictions ----

  /** 10 per market when one market is asked for, 2 per market otherwise. */
  function LimitPerMarket(marketFilter: Option<string>): nat {
    if Truthy(marketFilter) then 10 else 2
  }

  /** The market loop skips a market whose code differs from the filter. */
  predicate Selected(marketFilter: Option<string>, m: Market) {
    !Truthy(marketFilter) || m.code == marketFilter.value
  }

  /** The rows the query of one market selects before `orderByDesc` and
      `limit`: those of an asset in the market (`whereHas`), found by the
      search when there was one (`whereIn`). */
  predicate Matches(m: Market, hits: Option<seq<string>>, assets: seq<Asset>, p: Prediction) {
    InMarket(assets, p.pid, m.id) && (hits.None? || p.pid in hits.value)
  }

  function Matching(m: Market, hits: Option<seq<string>>, preds: seq<Prediction>, assets: seq<Asset>): seq<Prediction> {
    Filter(preds, (p: Prediction) => Matches(m, hits, assets, p))
  }

  /** `orderByDesc('timestamp')->limit($limit)`: the `limit` newest rows,
      newest first; fewer only when there are fewer rows. A row strictly newer
      than one that is kept is kept too. */
  function LimitNewestFirst(rows: seq<Prediction>, limit: nat): (r: seq<Prediction>)
    ensures |r| == if |rows| <= limit then |rows| else limit
    ensures multiset(r) <= multiset(rows)
    ensures SortedBy(r, ByKeyDesc(PredictionTime))
    ensures forall p, q :: p in rows && q in r && p.timestamp > q.timestamp ==> p in r
  {
    var sorted := NewestFirst(rows);
    LimitNewest(rows, sorted, PredictionTime, limit);
    var r := if |sorted| <= limit then sorted else sorted[..limit];
    assert forall p, q :: p in rows && q in r && PredictionTime(p) > PredictionTime(q) ==> p in r;
    assert Take(sorted, limit) == r;
    r
  }

  /** The query of one market: the `limit` newest of its matching rows. */
  function MarketQuery(m: Market, hits: Option<seq<string>>, preds: seq<Prediction>, assets: seq<Asset>, limit: nat)
    : (r: seq<Prediction>)
    ensures |r| == if |Matching(m, hits, preds, assets)| <= limit then |Matching(m, hits, preds, assets)| else limit
    ensures multiset(r) <= multiset(Matching(m, hits, preds, assets))
    ensures SortedBy(r, ByKeyDesc(PredictionTime))
    ensures forall p, q :: p in Matching(m, hits, preds, assets) && q in r && p.timestamp > q.timestamp ==> p in r
    ensures forall p :: p in r ==> p in preds && InMarket(assets, p.pid, m.id) && (hits.Some? ==> p.pid in hits.value)
  {
    var matching := Matching(m, hits, preds, assets);
    var r := LimitNewestFirst(matching, limit);
    forall p | p in r ensures p in preds && InMarket(assets, p.pid, m.id) && (hits.Some? ==> p.pid in hits.value) {
      assert p in multiset(matching);
      MatchingElements(m, hits, preds, assets, p);
    }
    r
  }

  lemma MatchingElements(m: Market, hits: Option<seq<string>>, preds: seq<Prediction>, assets: seq<Asset>, p: Prediction)
    requires p in Matching(m, hits, preds, assets)
    ensures p in preds && InMarket(assets, p.pid, m.id) && (hits.Some? ==> p.pid in hits.value)
  {
    FilterElements(preds, (p: Prediction) => Matches(m, hits, assets, p), p);
  }

  /** The query of each market, with the limit the filter gives. */
  function QueryOf(marketFilter: Option<string>, hits: Option<seq<string>>, preds: seq<Prediction>, assets: seq<Asset>)
    : (query: Market -> seq<Prediction>)
    ensures forall m :: |query(m)| <= LimitPerMarket(marketFilter)
    ensures forall m :: |query(m)| == LimitPerMarket(marketFilter) || |query(m)| == |Matching(m, hits, preds, assets)|
    ensures forall m, p, q :: p in Matching(m, hits, preds, assets) && q in query(m) && p.timestamp > q.timestamp ==> p in query(m)
    ensures forall m, p :: p in query(m) ==>
      p in preds && InMarket(assets, p.pid, m.id) && (hits.Some? ==> p.pid in hits.value)
  {
    (m: Market) => MarketQuery(m, hits, preds, assets, LimitPerMarket(marketFilter))
  }

  /** What the market loop concatenates for a given query: the query of each
      selected market, in market order. */
  function GatheredWith(marketFilter: Option<string>, markets: seq<Market>, query: Market -> seq<Prediction>)
    : seq<Prediction>
  {
    if markets == [] then []
    else
      var m := markets[|markets| - 1];
      GatheredWith(marketFilter, markets[..|markets| - 1], query) + (if Selected(marketFilter, m) then query(m) else [])
  }

  /** What the market loop concatenates: the query of each selected market,
      in market order. */
  function Gathered(marketFilter: Option<string>, hits: Option<seq<string>>, markets: seq<Market>,
                    preds: seq<Prediction>, assets: seq<Asset>): seq<Prediction>
  {
    GatheredWith(marketFilter, markets, QueryOf(marketFilter, hits, preds, assets))
  }

  /** Every gathered row comes from the query of a selected market. */
  lemma {:induction false} GatheredWithElements(marketFilter: Option<string>, markets: seq<Market>,
                                               query: Market -> seq<Prediction>, p: Prediction)
    requires p in GatheredWith(marketFilter, markets, query)
    ensures exists m :: m in markets && Selected(marketFilter, m) && p in query(m)
  {
    var init := markets[..|markets| - 1];
    var m := markets[|markets| - 1];
    if p in GatheredWith(marketFilter, init, query) {
      GatheredWithElements(marketFilter, init, query, p);
      var m' :| m' in init && Selected(marketFilter, m') && p in query(m');
      assert m' in markets;
    } else {
      assert m in markets;
    }
  }

  /** Every gathered prediction is one of the stored predictions, of an
      asset in a market the filter selects, and found by the search when
      there was one. */
  lemma GatheredElements(marketFilter: Option<string>, hits: Option<seq<string>>, markets: seq<Market>,
                         preds: seq<Prediction>, assets: seq<Asset>, p: Prediction)
    requires p in Gathered(marketFilter, hits, markets, preds, assets)
    ensures p in preds && exists m :: m in markets && Selected(marketFilter, m) && InMarket(assets, p.pid, m.id)
    ensures hits.Some? ==> p.pid in hits.value
  {
    var query := QueryOf(marketFilter, hits, preds, assets);
    GatheredWithElements(marketFilter, markets, query, p);
    var m :| m in markets && Selected(marketFilter, m) && p in query(m);
  }

  /** The number of markets the loop does not skip. */
  function SelectedCount(marketFilter: Option<string>, markets: seq<Market>): nat {
    if markets == [] then 0
    else SelectedCount(marketFilter, markets[..|markets| - 1]) + (if Selected(marketFilter, markets[|markets| - 1]) then 1 else 0)
  }

  /** With a query of at most `limit` rows, each market the loop visits adds
      at most `limit`. */
  lemma {:induction false} GatheredWithBound(marketFilter: Option<string>, markets: seq<Market>,
                                            query: Market -> seq<Prediction>, limit: nat)
    requires forall m :: |query(m)| <= limit
    ensures |GatheredWith(marketFilter, markets, query)| <= limit * SelectedCount(marketFilter, markets)
  {
    if markets != [] {
      var init := markets[..|markets| - 1];
      var m := markets[|markets| - 1];
      GatheredWithBound(marketFilter, init, query, limit);
      MulStep(limit, SelectedCount(marketFilter, init), Selected(marketFilter, m));
    }
  }

  /** Each market the loop visits adds at most the limit: 10 when a market is
      asked for, 2 otherwise. */
  lemma GatheredBound(marketFilter: Option<string>, hits: Option<seq<string>>, markets: seq<Market>,
                      preds: seq<Prediction>, assets: seq<Asset>)
    ensures |Gathered(marketFilter, hits, markets, preds, assets)| <= LimitPerMarket(marketFilter) * SelectedCount(marketFilter, markets)
    ensures Truthy(marketFilter) ==> |Gathered(marketFilter, hits, markets, preds, assets)| <= 10 * SelectedCount(marketFilter, markets)
    ensures !Truthy(marketFilter) ==> |Gathered(marketFilter, hits, markets, preds, assets)| <= 2 * SelectedCount(marketFilter, markets)
  {
    GatheredWithBound(marketFilter, markets, QueryOf(marketFilter, hits, preds, assets), LimitPerMarket(marketFilter));
  }

  lemma MulStep(limit: nat, n: nat, selected: bool)
    ensures limit * (n + (if selected then 1 else 0)) == limit * n + (if selected then limit else 0)
  {
  }

  datatype FeaturedPrediction = FeaturedPrediction(
    id: string, assetId: string, symbol: string, name: string, marketCode: string, currentPrice: Option<real>,
    predictedPrice: real, confidence: real, horizon: string, horizonLabel: string,
    expectedGainPercent: real, timestamp: Option<int>, targetTimestamp: Option<int>, freshness: Option<string>)

  /** `pid-timestamp`. */
  function PredictionId(p: Prediction): string {
    p.pid + "-" + IntToString(p.timestamp)
  }

  /** The id names its prediction: after the pid and the dash, PHP's `(int)`
      cast of the rest gives the timestamp back. */
  lemma PredictionIdRecovers(p: Prediction)
    ensures StartsWith(PredictionId(p), p.pid + "-")
    ensures PhpIntCast(PredictionId(p)[|p.pid| + 1..]) == p.timestamp
  {
    assert PredictionId(p)[|p.pid| + 1..] == IntToString(p.timestamp);
    PhpIntCastOfInt(p.timestamp);
  }

  /** `horizon_minutes ?? Horizon::minutes(horizon)`, then a target only for a
      set timestamp and a positive length. */
  function TargetTime(p: Prediction): (t: Option<int>)
    ensures t.Some? <==> p.timestamp != 0 && p.horizonMinutes.GetOr(Horizon.Minutes(p.horizon)) > 0
    ensures t.Some? ==> t.value == p.timestamp + p.horizonMinutes.GetOr(Horizon.Minutes(p.horizon)) * 60
  {
    var minutes := p.horizonMinutes.GetOr(Horizon.Minutes(p.horizon));
    if p.timestamp != 0 && minutes > 0 then Some(p.timestamp + minutes * 60) else None
  }

  /** Without a stored length the target falls back to the horizon table: an
      unknown horizon gets no target. */
  lemma TargetNeedsKnownHorizon(p: Prediction)
    requires p.horizonMinutes.None?
    ensures TargetTime(p).Some? <==> p.timestamp != 0 && Horizon.IsKnown(p.horizon)
  {
    Horizon.MinutesPositiveIffKnown(p.horizon);
  }

  /** `formatPrediction`: the prediction with its asset and market, the
      current price shown only when positive, and the expected gain over the
      cached price (0 without one) rounded to two decimals. */
  function FormatPrediction(p: Prediction, asset: Asset): (f: FeaturedPrediction)
    ensures f.id == PredictionId(p) && f.assetId == asset.id
    ensures f.symbol == asset.symbol && f.name == asset.name && f.marketCode == asset.marketCode
    ensures f.currentPrice.Some? <==> asset.cachedPrice.GetOr(0.0) > 0.0
    ensures f.currentPrice.Some? ==> f.currentPrice.value == asset.cachedPrice.value
    ensures f.predictedPrice == p.pricePrediction && f.confidence == p.confidence
    ensures f.horizon == p.horizon && f.horizonLabel == Horizon.Label(p.horizon)
    ensures f.expectedGainPercent == AssetController.Round2(AssetController.ExpectedGain(asset.cachedPrice.GetOr(0.0), p.pricePrediction))
    ensures f.timestamp == AssetController.ShownTime(p.timestamp) && f.targetTimestamp == TargetTime(p)
    ensures f.freshness == p.freshness
  {
    var currentPrice := asset.cachedPrice.GetOr(0.0);
    FeaturedPrediction(
      PredictionId(p), asset.id, asset.symbol, asset.name, asset.marketCode,
      if currentPrice > 0.0 then Some(currentPrice) else None,
      p.pricePrediction, p.confidence, p.horizon, Horizon.Label(p.horizon),
      AssetController.Round2(AssetController.ExpectedGain(currentPrice, p.pricePrediction)),
      AssetController.ShownTime(p.timestamp), TargetTime(p), p.freshness)
  }

  /** The gain shown is within half a hundredth of the percent change from
      the current price to the predicted one, and 0 without a current price. */
  lemma FormattedGain(p: Prediction, asset: Asset)
    ensures var f := FormatPrediction(p, asset);
      (f.currentPrice.None? ==> f.expectedGainPercent == 0.0)
      && (f.currentPrice.Some? ==>
        var g := (p.pricePrediction - f.currentPrice.value) * 100.0 / f.currentPrice.value;
        f.expectedGainPercent - 0.005 <= g <= f.expectedGainPercent + 0.005)
  {
    var f := FormatPrediction(p, asset);
    if f.currentPrice.None? {
      assert AssetController.Round2(0.0) == 0.0 by {
        assert AssetController.RoundHalfAway(0.0) == 0;
      }
    } else {
      var c := f.currentPrice.value;
      var e := AssetController.ExpectedGain(c, p.pricePrediction);
      assert e * c == (p.pricePrediction - c) * 100.0;
      assert e == (p.pricePrediction - c) * 100.0 / c;
    }
  }

  /** A prediction that some asset matches has its `asset` relation loaded. */
  lemma AssetOfFound(assets: seq<Asset>, pid: string, marketId: string)
    requires InMarket(assets, pid, marketId)
    ensures AssetOf(assets, pid).Some? && AssetOf(assets, pid).value.invId == pid
  {
  }

  function FormatAll(rows: seq<Prediction>, assets: seq<Asset>): (r: seq<FeaturedPrediction>)
    requires forall p :: p in rows ==> AssetOf(assets, p.pid).Some?
    ensures |r| == |rows|
    ensures forall i :: 0 <= i < |rows| ==> r[i] == FormatPrediction(rows[i], AssetOf(assets, rows[i].pid).value)
  {
    seq(|rows|, i requires 0 <= i < |rows| => FormatPrediction(rows[i], AssetOf(assets, rows[i].pid).value))
  }

  /** The search part of `getFeaturedPredictions`: none without a search,
      otherwise the hits. */
  function SearchIds(search: Option<string>, searchHits: seq<string>): Option<seq<string>> {
    if Truthy(search) then Some(searchHits) else None
  }

  /** The concatenation loop over the markets, with the query of a market
      as `query`. */
  method GatherWith(marketFilter: Option<string>, markets: seq<Market>, query: Market -> seq<Prediction>)
    returns (allPredictions: seq<Prediction>)
    ensures allPredictions == GatheredWith(marketFilter, markets, query)
  {
    allPredictions := [];
    var k := 0;
    while k < |markets|
      invariant k <= |markets|
      invariant allPredictions == GatheredWith(marketFilter, markets[..k], query)
    {
      var market := markets[k];
      assert markets[..k + 1][..k] == markets[..k];
      if Truthy(marketFilter) && market.code != marketFilter.value {
        k := k + 1;
        continue;
      }
      allPredictions := allPredictions + query(market);
      k := k + 1;
    }
    assert markets[..k] == markets;
  }

  /** The concatenation loop over the markets. */
  method GatherPredictions(marketFilter: Option<string>, hits: Option<seq<string>>, markets: seq<Market>,
                           preds: seq<Prediction>, assets: seq<Asset>) returns (allPredictions: seq<Prediction>)
    ensures allPredictions == Gathered(marketFilter, hits, markets, preds, assets)
  {
    allPredictions := GatherWith(marketFilter, markets, QueryOf(marketFilter, hits, preds, assets));
  }

  /** `getFeaturedPredictions`. */
  method GetFeaturedPredictions(search: Option<string>, searchHits: seq<string>, marketFilter: Option<string>,
                                markets: seq<Market>, preds: seq<Prediction>, assets: seq<Asset>)
    returns (data: seq<FeaturedPrediction>)
    ensures Truthy(search) && searchHits == [] ==> data == []
    ensures !(Truthy(search) && searchHits == []) ==>
      var sorted := NewestFirst(Gathered(marketFilter, SearchIds(search, searchHits), markets, preds, assets));
      (forall p :: p in sorted ==> AssetOf(assets, p.pid).Some?) && data == FormatAll(sorted, assets)
  {
    var searchAssetIds := SearchIds(search, searchHits);
    if Truthy(search) && searchHits == [] {
      return [];
    }
    var allPredictions := GatherPredictions(marketFilter, searchAssetIds, markets, preds, assets);
    var sorted := NewestFirst(allPredictions);
    GatheredHaveAssets(marketFilter, searchAssetIds, markets, preds, assets);
    data := FormatAll(sorted, assets);
  }

  /** Every gathered prediction has its asset. */
  lemma GatheredHaveAssets(marketFilter: Option<string>, hits: Option<seq<string>>, markets: seq<Market>,
                           preds: seq<Prediction>, assets: seq<Asset>)
    ensures forall p :: p in NewestFirst(Gathered(marketFilter, hits, markets, preds, assets)) ==>
      AssetOf(assets, p.pid).Some?
  {
    var all := Gathered(marketFilter, hits, markets, preds, assets);
    forall p | p in NewestFirst(all) ensures AssetOf(assets, p.pid).Some? {
      assert p in multiset(all);
      assert p in all;
      GatheredElements(marketFilter, hits, markets, preds, assets, p);
      var m :| m in markets && Selected(marketFilter, m) && InMarket(assets, p.pid, m.id);
      AssetOfFound(assets, p.pid, m.id);
    }
  }

  /** The featured list holds only predictions of assets in a market the
      filter selects, found by the search when there was one, newest first. */
  lemma FeaturedRows(search: Option<string>, searchHits: seq<string>, marketFilter: Option<string>,
                     markets: seq<Market>, preds: seq<Prediction>, assets: seq<Asset>, p: Prediction)
    requires p in NewestFirst(Gathered(marketFilter, SearchIds(search, searchHits), markets, preds, assets))
    ensures p in preds
    ensures Truthy(search) ==> p.pid in searchHits
    ensures exists m :: m in markets && Selected(marketFilter, m) && InMarket(assets, p.pid, m.id)
  {
    var hits := SearchIds(search, searchHits);
    var all := Gathered(marketFilter, hits, markets, preds, assets);
    assert p in multiset(all);
    GatheredElements(marketFilter, hits, markets, preds, assets, p);
  }

  // ---- recent predictions ----

  datatype RecentPrediction = RecentPrediction(
    id: string, assetId: string, symbol: string, name: string, predictedPrice: real, confidence: real,
    horizon: string, horizonLabel: string, timestamp: Option<int>, targetTimestamp: Option<int>,
    freshness: Option<string>)

  /** `orderByDesc('timestamp')->limit(5)`: the five newest predictions. */
  function Newest5(preds: seq<Prediction>): (r: seq<Prediction>)
    ensures |r| == if |preds| <= 5 then |preds| else 5
    ensures r <= NewestFirst(preds)
  {
    Take(NewestFirst(preds), 5)
  }

  /** The prediction's asset relation is loaded (`$p->asset !== null`). */
  function HasAsset(assets: seq<Asset>): Prediction -> bool {
    (p: Prediction) => AssetOf(assets, p.pid).Some?
  }

  /** `filter(fn ($p) => $p->asset !== null)` on the five newest: the rows
      with an asset, each under the key it had among the five. */
  function KeyedRecentRows(preds: seq<Prediction>, assets: seq<Asset>): seq<(nat, Prediction)> {
    KeyedFilter(Newest5(preds), HasAsset(assets))
  }

  /** The recent rows in order, without their keys: of the five newest
      predictions, those with an asset, newest first. No prediction with an
      asset strictly newer than one of them is left out. */
  function RecentRows(preds: seq<Prediction>, assets: seq<Asset>): (r: seq<Prediction>)
    ensures |r| <= 5
    ensures forall p :: p in r ==> p in preds && AssetOf(assets, p.pid).Some?
    ensures SortedBy(r, ByKeyDesc(PredictionTime))
    ensures forall p, q :: p in preds && AssetOf(assets, p.pid).Some? && q in r && p.timestamp > q.timestamp ==> p in r
  {
    var keyed := KeyedRecentRows(preds, assets);
    var r := seq(|keyed|, i requires 0 <= i < |keyed| => keyed[i].1);
    RecentRowsFacts(preds, assets, keyed, r);
    r
  }

  lemma RecentRowsFacts(preds: seq<Prediction>, assets: seq<Asset>, keyed: seq<(nat, Prediction)>, r: seq<Prediction>)
    requires keyed == KeyedFilter(Newest5(preds), HasAsset(assets))
    requires |r| == |keyed| && forall i :: 0 <= i < |r| ==> r[i] == keyed[i].1
    ensures |r| <= 5
    ensures forall p :: p in r ==> p in preds && AssetOf(assets, p.pid).Some?
    ensures SortedBy(r, ByKeyDesc(PredictionTime))
    ensures forall p, q :: p in preds && AssetOf(assets, p.pid).Some? && q in r && p.timestamp > q.timestamp ==> p in r
  {
    var newest := Newest5(preds);
    var sorted := NewestFirst(preds);
    LimitNewest(preds, sorted, PredictionTime, 5);
    assert newest == if |sorted| <= 5 then sorted else sorted[..5];
    KeyedValues(preds, newest, HasAsset(assets), r);
  }

  /** The values `filter` keeps from the newest rows: rows of the input that
      pass, newest first, leaving out no passing row strictly newer than one
      of them. */
  lemma KeyedValues(rows: seq<Prediction>, newest: seq<Prediction>, keep: Prediction -> bool, r: seq<Prediction>)
    requires multiset(newest) <= multiset(rows) && SortedBy(newest, ByKeyDesc(PredictionTime))
    requires forall x, y :: x in rows && y in newest && PredictionTime(x) > PredictionTime(y) ==> x in newest
    requires |r| == |KeyedFilter(newest, keep)|
    requires forall i :: 0 <= i < |r| ==> r[i] == KeyedFilter(newest, keep)[i].1
    ensures |r| <= |newest|
    ensures forall p :: p in r ==> p in rows && keep(p)
    ensures SortedBy(r, ByKeyDesc(PredictionTime))
    ensures forall p, q :: p in rows && keep(p) && q in r && p.timestamp > q.timestamp ==> p in r
  {
    var keyed := KeyedFilter(newest, keep);
    KeyedValuesSorted(newest, keep, PredictionTime, r);
    if |keyed| > 0 {
      KeysAtLeastIndex(keyed, |keyed| - 1);
    }
    forall p | p in r ensures p in rows && keep(p) {
      KeyedValueMember(rows, newest, keep, r, p);
    }
    forall p, q | p in rows && keep(p) && q in r && PredictionTime(p) > PredictionTime(q) ensures p in r {
      KeyedValueNewer(rows, newest, keep, r, p, q);
    }
  }

  /** The kept values of a list sorted newest first stay newest first. */
  lemma KeyedValuesSorted(s: seq<Prediction>, keep: Prediction -> bool, key: Prediction -> int, r: seq<Prediction>)
    requires SortedBy(s, ByKeyDesc(key))
    requires |r| == |KeyedFilter(s, keep)| && forall i :: 0 <= i < |r| ==> r[i] == KeyedFilter(s, keep)[i].1
    ensures SortedBy(r, ByKeyDesc(key))
  {
    var keyed := KeyedFilter(s, keep);
    forall i, j | 0 <= i < j < |r| ensures ByKeyDesc(key)(r[i], r[j]) {
      assert r[i] == s[keyed[i].0] && r[j] == s[keyed[j].0];
    }
  }

  lemma KeyedValueMember(rows: seq<Prediction>, newest: seq<Prediction>, keep: Prediction -> bool, r: seq<Prediction>, p: Prediction)
    requires multiset(newest) <= multiset(rows)
    requires |r| == |KeyedFilter(newest, keep)|
    requires forall i :: 0 <= i < |r| ==> r[i] == KeyedFilter(newest, keep)[i].1
    requires p in r
    ensures p in rows && keep(p)
  {
    var keyed := KeyedFilter(newest, keep);
    var i :| 0 <= i < |r| && r[i] == p;
    assert keyed[i].1 == newest[keyed[i].0];
    assert p in multiset(newest);
  }

  lemma KeyedValueNewer(rows: seq<Prediction>, newest: seq<Prediction>, keep: Prediction -> bool, r: seq<Prediction>,
                        p: Prediction, q: Prediction)
    requires forall x, y :: x in rows && y in newest && PredictionTime(x) > PredictionTime(y) ==> x in newest
    requires |r| == |KeyedFilter(newest, keep)|
    requires forall i :: 0 <= i < |r| ==> r[i] == KeyedFilter(newest, keep)[i].1
    requires p in rows && keep(p) && q in r && PredictionTime(p) > PredictionTime(q)
    ensures p in r
  {
    var keyed := KeyedFilter(newest, keep);
    var i :| 0 <= i < |r| && r[i] == q;
    assert keyed[i].1 == newest[keyed[i].0];
    assert q in newest;
    var k :| 0 <= k < |newest| && newest[k] == p;
    KeyedFilterKeeps(newest, keep, k);
    var j :| 0 <= j < |keyed| && keyed[j] == (k, newest[k]);
    assert r[j] == p;
  }

  /** Strictly increasing natural keys are at least their position. */
  lemma {:induction false} KeysAtLeastIndex(keyed: seq<(nat, Prediction)>, i: nat)
    requires forall a, b :: 0 <= a < b < |keyed| ==> keyed[a].0 < keyed[b].0
    requires i < |keyed|
    ensures keyed[i].0 >= i
  {
    if i > 0 {
      KeysAtLeastIndex(keyed, i - 1);
    }
  }

  function RecentOf(p: Prediction, a: Asset): RecentPrediction {
    RecentPrediction(PredictionId(p), a.id, a.symbol, a.name, p.pricePrediction, p.confidence,
      p.horizon, Horizon.Label(p.horizon), AssetController.ShownTime(p.timestamp), TargetTime(p), p.freshness)
  }

  /** `getRecentPredictions`: the recent rows with their asset, label and
      target, each under its key among the five newest (`toArray` after
      `filter`, without `values`). */
  function GetRecentPredictions(preds: seq<Prediction>, assets: seq<Asset>): (r: seq<(nat, RecentPrediction)>)
    ensures |r| == |RecentRows(preds, assets)| <= 5
    ensures forall i, j :: 0 <= i < j < |r| ==> r[i].0 < r[j].0
    ensures forall i :: 0 <= i < |r| ==>
      var p := RecentRows(preds, assets)[i];
      r[i].0 < |Newest5(preds)| && Newest5(preds)[r[i].0] == p &&
      r[i].1.id == PredictionId(p) && r[i].1.assetId == AssetOf(assets, p.pid).value.id &&
      r[i].1.symbol == AssetOf(assets, p.pid).value.symbol && r[i].1.name == AssetOf(assets, p.pid).value.name &&
      r[i].1.predictedPrice == p.pricePrediction && r[i].1.confidence == p.confidence &&
      r[i].1.horizon == p.horizon && r[i].1.horizonLabel == Horizon.Label(p.horizon) &&
      r[i].1.timestamp == AssetController.ShownTime(p.timestamp) && r[i].1.targetTimestamp == TargetTime(p) &&
      r[i].1.freshness == p.freshness
  {
    var keyed := KeyedRecentRows(preds, assets);
    seq(|keyed|, i requires 0 <= i < |keyed| => (keyed[i].0, RecentOf(keyed[i].1, AssetOf(assets, keyed[i].1.pid).value)))
  }

  /** Each of the five newest predictions that has its asset is among the
      recent rows, and the answer has an entry under its key. */
  lemma RecentRowsComplete(preds: seq<Prediction>, assets: seq<Asset>, k: nat)
    requires k < |Newest5(preds)| && AssetOf(assets, Newest5(preds)[k].pid).Some?
    ensures Newest5(preds)[k] in RecentRows(preds, assets)
    ensures exists i :: 0 <= i < |GetRecentPredictions(preds, assets)| && GetRecentPredictions(preds, assets)[i].0 == k
  {
    KeyedFilterKeeps(Newest5(preds), HasAsset(assets), k);
    var keyed := KeyedRecentRows(preds, assets);
    var i :| 0 <= i < |keyed| && keyed[i] == (k, Newest5(preds)[k]);
    assert RecentRows(preds, assets)[i] == keyed[i].1;
    assert GetRecentPredictions(preds, assets)[i].0 == keyed[i].0;
  }

  /** When each of the five newest predictions has its asset, the keys are
      0, 1, … and the answer encodes as a JSON list of all five. */
  lemma RecentKeysConsecutive(preds: seq<Prediction>, assets: seq<Asset>)
    requires forall k :: 0 <= k < |Newest5(preds)| ==> AssetOf(assets, Newest5(preds)[k].pid).Some?
    ensures var r := GetRecentPredictions(preds, assets);
      |r| == |Newest5(preds)| && forall i :: 0 <= i < |r| ==> r[i].0 == i
  {
    KeyedFilterAll(Newest5(preds), HasAsset(assets));
  }

  /** A prediction among the five newest without its asset, followed by one
      with, leaves a gap in the keys: the answer encodes as a JSON object,
      not a list. */
  lemma RecentKeysGap(preds: seq<Prediction>, assets: seq<Asset>, k: nat, k': nat)
    requires k < k' < |Newest5(preds)|
    requires AssetOf(assets, Newest5(preds)[k].pid).None? && AssetOf(assets, Newest5(preds)[k'].pid).Some?
    ensures exists i :: 0 <= i < |GetRecentPredictions(preds, assets)| && GetRecentPredictions(preds, assets)[i].0 != i
  {
    KeyedFilterGap(Newest5(preds), HasAsset(assets), k, k');
    var keyed := KeyedRecentRows(preds, assets);
    var i :| 0 <= i < |keyed| && keyed[i].0 != i;
    assert GetRecentPredictions(preds, assets)[i].0 == keyed[i].0;
  }
}
