/** `StaticDataObserver`: attached to countries, markets, sectors and assets;
    every lifecycle event of one of them clears the reference-data cache. The
    database passed in is the one the event leaves behind (a deleted market is
    no longer in it). */
module StaticDataObserver {
  import opened CacheStore
  import opened StaticDataCache

  /** The models the observer is attached to. */
  datatype ObservedModel = CountryModel | MarketModel | SectorModel | AssetModel

  /** The five hooks. */
  datatype Event = Created | Updated | Deleted | Restored | ForceDeleted

  /** Each hook: `StaticDataCacheService::clearAll()`, whatever the event and
      whichever model it concerns. */
  method Handle(cache: Store<Cached>, db: Database, model: ObservedModel, event: Event)
    modifies cache
    ensures cache.entries == old(cache.entries) - Keys(StaticKeys(db))
  {
    ClearAll(cache, db);
  }

  /** After a hook no global key and no asset list of a market or sector still
      in the database remains. */
  lemma NoStaticKeyRemains(db: Database, before: map<string, Entry<Cached>>, k: StaticKey)
    requires k in GlobalKeys || (k.MarketAssetsKey? && k.marketId in MarketIds(db)) ||
      (k.SectorAssetsKey? && k.sectorId in SectorIds(db))
    ensures Key(k) !in before - Keys(StaticKeys(db))
  {
    assert k in StaticKeys(db);
  }

  /** The asset list of a market that is no longer in the database survives:
      `clearAll` forgets per-market keys only for the markets it finds. */
  lemma DeletedMarketKeySurvives(db: Database, before: map<string, Entry<Cached>>, marketId: string)
    requires Key(MarketAssetsKey(marketId)) in before
    requires forall m :: m in db.markets ==> m.id != marketId
    ensures Key(MarketAssetsKey(marketId)) in before - Keys(StaticKeys(db))
  {
    var gone := MarketAssetsKey(marketId);
    assert marketId !in MarketIds(db) by {
      forall i | 0 <= i < |MarketIds(db)| ensures MarketIds(db)[i] != marketId {
        assert db.markets[i] in db.markets;
      }
    }
    forall k | k in StaticKeys(db) ensures Key(k) != Key(gone) {
      KeyInjective(k, gone);
    }
  }
}
