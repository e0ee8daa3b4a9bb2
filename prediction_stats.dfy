/** `PredictionStatsService`: the number of predictions per market and per
    sector, counted over predictions joined to their asset (`p.pid =
    a.inv_id`) and cached for a minute. */
module PredictionStats {
  import opened CacheStore
  import opened StaticDataCache

  const CacheTtl: int := 60
  const MarketCountsKey: string := "prediction_counts_by_market"
  const SectorCountsKey: string := "prediction_counts_by_sector"

  /** The assets matching one prediction `pid`, in table order. */
  function AssetsWithInvId(assets: seq<Asset>, pid: string): (r: seq<Asset>)
    ensures forall a :: a in r ==> a in assets && a.invId == pid
  {
    if assets == [] then []
    else (if assets[0].invId == pid then [assets[0]] else []) + AssetsWithInvId(assets[1..], pid)
  }

  /** The asset side of `predicted_asset_prices p JOIN assets a ON p.pid =
      a.inv_id`: one asset per joined pair. */
  function Joined(db: Database): seq<Asset> {
    JoinedOf(db.predictionPids, db.assets)
  }

  function JoinedOf(pids: seq<string>, assets: seq<Asset>): (r: seq<Asset>)
    ensures forall a :: a in r ==> a in assets && a.invId in pids
  {
    if pids == [] then []
    else
      var last := pids[|pids| - 1];
      var r := JoinedOf(pids[..|pids| - 1], assets) + AssetsWithInvId(assets, last);
      assert forall p :: p in pids[..|pids| - 1] ==> p in pids;
      r
  }

  function AssetMarket(a: Asset): string { a.marketId }
  function AssetSector(a: Asset): string { a.sectorId }

  /** The number of rows whose key is `k`. */
  function CountOf(rows: seq<Asset>, key: Asset -> string, k: string): (n: nat)
    ensures n <= |rows|
    ensures n > 0 <==> exists r :: r in rows && key(r) == k
  {
    if rows == [] then 0
    else
      var rest := CountOf(rows[..|rows| - 1], key, k);
      assert rows == rows[..|rows| - 1] + [rows[|rows| - 1]];
      rest + (if key(rows[|rows| - 1]) == k then 1 else 0)
  }

  /** `groupBy(key)->pluck(COUNT(*), key)`: one count per key that occurs. */
  function CountsBy(rows: seq<Asset>, key: Asset -> string): (m: map<string, nat>)
    ensures forall k :: k in m <==> exists r :: r in rows && key(r) == k
    ensures forall k :: k in m ==> m[k] == CountOf(rows, key, k) && m[k] > 0
  {
    map k | k in (set r | r in rows :: key(r)) :: CountOf(rows, key, k)
  }

  /** `->get($id, 0)`: the count of a key, or 0 for a key that does not occur. */
  function CountFor(m: map<string, nat>, k: string): nat {
    if k in m then m[k] else 0
  }

  /** Looking a key up in the counts always gives the number of rows with that
      key, 0 included. */
  lemma CountForIsCount(rows: seq<Asset>, key: Asset -> string, k: string)
    ensures CountFor(CountsBy(rows, key), k) == CountOf(rows, key, k)
  {
  }

  function SumCounts(ks: seq<string>, rows: seq<Asset>, key: Asset -> string): nat {
    if ks == [] then 0 else CountOf(rows, key, ks[0]) + SumCounts(ks[1..], rows, key)
  }

  function Occurrences(ks: seq<string>, k: string): nat {
    if ks == [] then 0 else (if ks[0] == k then 1 else 0) + Occurrences(ks[1..], k)
  }

  lemma {:induction false} OccurrencesOfDistinct(ks: seq<string>, k: string)
    requires forall i, j :: 0 <= i < j < |ks| ==> ks[i] != ks[j]
    ensures Occurrences(ks, k) == if k in ks then 1 else 0
  {
    if ks != [] {
      OccurrencesOfDistinct(ks[1..], k);
      if ks[0] == k {
        forall j | 0 <= j < |ks[1..]| ensures ks[1..][j] != k {
          assert ks[1..][j] == ks[j + 1];
        }
      } else {
        assert k in ks <==> k in ks[1..] by {
          assert ks == [ks[0]] + ks[1..];
        }
      }
    }
  }

  lemma {:induction false} SumCountsSnoc(ks: seq<string>, rows: seq<Asset>, r: Asset, key: Asset -> string)
    ensures SumCounts(ks, rows + [r], key) == SumCounts(ks, rows, key) + Occurrences(ks, key(r))
  {
    if ks != [] {
      SumCountsSnoc(ks[1..], rows, r, key);
      assert (rows + [r])[..|rows + [r]| - 1] == rows;
    }
  }

  /** Summed over a list of the keys, each once, the counts add up to the
      number of joined rows: every row is counted once, under its own key. */
  lemma {:induction false} CountsSumToRows(ks: seq<string>, rows: seq<Asset>, key: Asset -> string)
    requires forall i, j :: 0 <= i < j < |ks| ==> ks[i] != ks[j]
    requires forall r :: r in rows ==> key(r) in ks
    ensures SumCounts(ks, rows, key) == |rows|
  {
    if rows == [] {
      ZeroCounts(ks, key);
    } else {
      var init := rows[..|rows| - 1];
      var last := rows[|rows| - 1];
      assert rows == init + [last];
      assert forall r :: r in init ==> r in rows;
      CountsSumToRows(ks, init, key);
      SumCountsSnoc(ks, init, last, key);
      OccurrencesOfDistinct(ks, key(last));
    }
  }

  /** The sum of the values of `m` at the keys `ks`. */
  function SumValues(ks: seq<string>, m: map<string, nat>): nat {
    if ks == [] then 0 else CountFor(m, ks[0]) + SumValues(ks[1..], m)
  }

  lemma {:induction false} SumValuesOfCounts(ks: seq<string>, rows: seq<Asset>, key: Asset -> string)
    ensures SumValues(ks, CountsBy(rows, key)) == SumCounts(ks, rows, key)
  {
    if ks != [] {
      SumValuesOfCounts(ks[1..], rows, key);
      CountForIsCount(rows, key, ks[0]);
    }
  }

  /** The cached counts, summed over their keys, give the number of joined
      rows. */
  lemma CountsMapSum(ks: seq<string>, rows: seq<Asset>, key: Asset -> string)
    requires forall i, j :: 0 <= i < j < |ks| ==> ks[i] != ks[j]
    requires forall k :: k in ks <==> k in CountsBy(rows, key)
    ensures SumValues(ks, CountsBy(rows, key)) == |rows|
  {
    SumValuesOfCounts(ks, rows, key);
    CountsSumToRows(ks, rows, key);
  }

  lemma {:induction false} ZeroCounts(ks: seq<string>, key: Asset -> string)
    ensures SumCounts(ks, [], key) == 0
  {
    if ks != [] {
      ZeroCounts(ks[1..], key);
    }
  }

  /** `countsByMarket`. */
  method CountsByMarket(cache: Store<Cached>, db: Database, now: int) returns (v: Cached)
    modifies cache
    ensures Hit(old(cache.entries), MarketCountsKey, now) ==>
      v == old(cache.entries)[MarketCountsKey].value && cache.entries == old(cache.entries)
    ensures !Hit(old(cache.entries), MarketCountsKey, now) ==>
      v == Counts(CountsBy(Joined(db), AssetMarket)) &&
      cache.entries == old(cache.entries)[MarketCountsKey := Entry(v, now + CacheTtl)]
  {
    v := cache.Remember(MarketCountsKey, CacheTtl, now, Counts(CountsBy(Joined(db), AssetMarket)));
  }

  /** `countsBySector`. */
  method CountsBySector(cache: Store<Cached>, db: Database, now: int) returns (v: Cached)
    modifies cache
    ensures Hit(old(cache.entries), SectorCountsKey, now) ==>
      v == old(cache.entries)[SectorCountsKey].value && cache.entries == old(cache.entries)
    ensures !Hit(old(cache.entries), SectorCountsKey, now) ==>
      v == Counts(CountsBy(Joined(db), AssetSector)) &&
      cache.entries == old(cache.entries)[SectorCountsKey := Entry(v, now + CacheTtl)]
  {
    v := cache.Remember(SectorCountsKey, CacheTtl, now, Counts(CountsBy(Joined(db), AssetSector)));
  }

  /** `countForMarket`: the count of the market in the counts, 0 when the
      market has no prediction. */
  method CountForMarket(cache: Store<Cached>, db: Database, now: int, marketId: string) returns (n: nat)
    modifies cache
    ensures !Hit(old(cache.entries), MarketCountsKey, now) ==> n == CountOf(Joined(db), AssetMarket, marketId)
    ensures Hit(old(cache.entries), MarketCountsKey, now) && old(cache.entries)[MarketCountsKey].value.Counts? ==>
      n == CountFor(old(cache.entries)[MarketCountsKey].value.counts, marketId)
    ensures Hit(old(cache.entries), MarketCountsKey, now) && !old(cache.entries)[MarketCountsKey].value.Counts? ==> n == 0
    ensures Hit(old(cache.entries), MarketCountsKey, now) ==> cache.entries == old(cache.entries)
    ensures !Hit(old(cache.entries), MarketCountsKey, now) ==>
      cache.entries == old(cache.entries)[MarketCountsKey := Entry(Counts(CountsBy(Joined(db), AssetMarket)), now + CacheTtl)]
  {
    var counts := CountsByMarket(cache, db, now);
    n := if counts.Counts? then CountFor(counts.counts, marketId) else 0;
    CountForIsCount(Joined(db), AssetMarket, marketId);
  }

  /** `countForSector`. */
  method CountForSector(cache: Store<Cached>, db: Database, now: int, sectorId: string) returns (n: nat)
    modifies cache
    ensures !Hit(old(cache.entries), SectorCountsKey, now) ==> n == CountOf(Joined(db), AssetSector, sectorId)
    ensures Hit(old(cache.entries), SectorCountsKey, now) && old(cache.entries)[SectorCountsKey].value.Counts? ==>
      n == CountFor(old(cache.entries)[SectorCountsKey].value.counts, sectorId)
    ensures Hit(old(cache.entries), SectorCountsKey, now) && !old(cache.entries)[SectorCountsKey].value.Counts? ==> n == 0
    ensures Hit(old(cache.entries), SectorCountsKey, now) ==> cache.entries == old(cache.entries)
    ensures !Hit(old(cache.entries), SectorCountsKey, now) ==>
      cache.entries == old(cache.entries)[SectorCountsKey := Entry(Counts(CountsBy(Joined(db), AssetSector)), now + CacheTtl)]
  {
    var counts := CountsBySector(cache, db, now);
    n := if counts.Counts? then CountFor(counts.counts, sectorId) else 0;
    CountForIsCount(Joined(db), AssetSector, sectorId);
  }

  /** `clearCache`: forgets the two count keys and nothing else. */
  method ClearCache(cache: Store<Cached>)
    modifies cache
    ensures cache.entries == old(cache.entries) - {MarketCountsKey, SectorCountsKey}
  {
    cache.Forget(MarketCountsKey);
    cache.Forget(SectorCountsKey);
  }

  /** The count keys lie outside the `static:` prefix: clearing the reference
      data keeps them, and clearing the counts keeps every reference key. */
  lemma CountKeysAreNotStatic(k: StaticKey)
    ensures Key(k) != MarketCountsKey && Key(k) != SectorCountsKey
  {
    assert Key(k)[0] == 's';
    assert MarketCountsKey[0] == 'p' && SectorCountsKey[0] == 'p';
  }
}
