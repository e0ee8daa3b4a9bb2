/** `StaticDataCacheService`: reference data (countries, markets, sectors,
    assets, and the assets of each market and of each sector) read through the
    application cache under keys prefixed `static:` and kept for a day. The
    database is a parameter of every operation; its queries are the functions
    below. */
module StaticDataCache {
  import opened Wrappers
  import opened PhpText
  import opened Sorting
  import opened Projection
  import opened CacheStore

  const Ttl: int := 86400
  const Prefix: string := "static:"

  datatype Country = Country(id: string, nameEn: string)
  datatype MarketRef = MarketRef(id: string, code: string)
  datatype Sector = Sector(id: string, nameEn: string)
  datatype Asset = Asset(id: string, invId: string, symbol: string, marketId: string, sectorId: string)

  /** The tables read through the cache; a prediction row enters only through
      its `pid`. */
  datatype Database = Database(
    countries: seq<Country>, markets: seq<MarketRef>, sectors: seq<Sector>, assets: seq<Asset>,
    predictionPids: seq<string>)

  /** The values held in the application cache: the reference lists of this
      service and the prediction counts of `PredictionStatsService`. */
  datatype Cached =
    | Countries(countries: seq<Country>)
    | Markets(markets: seq<MarketRef>)
    | Sectors(sectors: seq<Sector>)
    | Assets(assets: seq<Asset>)
    | Counts(counts: map<string, nat>)

  /** The six kinds of key. */
  datatype StaticKey =
    | CountriesKey
    | MarketsKey
    | SectorsKey
    | AllAssetsKey
    | MarketAssetsKey(marketId: string)
    | SectorAssetsKey(sectorId: string)

  function Key(k: StaticKey): (s: string)
    ensures StartsWith(s, Prefix)
  {
    Prefix + KeySuffix(k)
  }

  function KeySuffix(k: StaticKey): string {
    match k
    case CountriesKey => "countries"
    case MarketsKey => "markets"
    case SectorsKey => "sectors"
    case AllAssetsKey => "assets:all"
    case MarketAssetsKey(id) => "assets:market:" + id
    case SectorAssetsKey(id) => "assets:sector:" + id
  }

  /** Different keys are different strings, so no two cached values share an
      entry. */
  lemma KeyInjective(a: StaticKey, b: StaticKey)
    ensures Key(a) == Key(b) <==> a == b
  {
    if Key(a) == Key(b) {
      var x, y := KeySuffix(a), KeySuffix(b);
      assert x == Key(a)[7..] == Key(b)[7..] == y;
      assert x[0] == y[0];
      if x[0] == 'a' {
        assert x[7] == y[7];
        if a.MarketAssetsKey? {
          assert a.marketId == x[14..] == y[14..] == b.marketId;
        } else if a.SectorAssetsKey? {
          assert a.sectorId == x[14..] == y[14..] == b.sectorId;
        }
      }
    }
  }

  function CountryName(c: Country): string { c.nameEn }
  function MarketCode(m: MarketRef): string { m.code }
  function SectorName(c: Sector): string { c.nameEn }
  function AssetSymbol(a: Asset): string { a.symbol }

  /** The query behind each key. */
  function Query(db: Database, k: StaticKey): Cached {
    ByStringKeyPreorder(CountryName);
    ByStringKeyPreorder(MarketCode);
    ByStringKeyPreorder(SectorName);
    ByStringKeyPreorder(AssetSymbol);
    match k
    case CountriesKey => Countries(InsertionSort(db.countries, ByStringKey(CountryName)))
    case MarketsKey => Markets(InsertionSort(db.markets, ByStringKey(MarketCode)))
    case SectorsKey => Sectors(InsertionSort(db.sectors, ByStringKey(SectorName)))
    case AllAssetsKey => Assets(InsertionSort(db.assets, ByStringKey(AssetSymbol)))
    case MarketAssetsKey(id) => Assets(AssetsOfMarket(db, id))
    case SectorAssetsKey(id) => Assets(AssetsOfSector(db, id))
  }

  /** `Asset::where('market_id', $marketId)->orderBy('symbol')`: exactly the
      assets of the market, by symbol. */
  function AssetsOfMarket(db: Database, marketId: string): (r: seq<Asset>)
    ensures SortedBy(r, ByStringKey(AssetSymbol))
    ensures forall a :: multiset(r)[a] == if a.marketId == marketId then multiset(db.assets)[a] else 0
  {
    ByStringKeyPreorder(AssetSymbol);
    InsertionSort(Filter(db.assets, (a: Asset) => a.marketId == marketId), ByStringKey(AssetSymbol))
  }

  /** `Asset::where('sector_id', $sectorId)->orderBy('symbol')`. */
  function AssetsOfSector(db: Database, sectorId: string): (r: seq<Asset>)
    ensures SortedBy(r, ByStringKey(AssetSymbol))
    ensures forall a :: multiset(r)[a] == if a.sectorId == sectorId then multiset(db.assets)[a] else 0
  {
    ByStringKeyPreorder(AssetSymbol);
    InsertionSort(Filter(db.assets, (a: Asset) => a.sectorId == sectorId), ByStringKey(AssetSymbol))
  }

  /** An asset is listed for a market exactly when it belongs to it. */
  lemma AssetsOfMarketElements(db: Database, marketId: string, a: Asset)
    ensures a in AssetsOfMarket(db, marketId) <==> a in db.assets && a.marketId == marketId
  {
    assert a in AssetsOfMarket(db, marketId) <==> a in multiset(AssetsOfMarket(db, marketId));
  }

  lemma AssetsOfSectorElements(db: Database, sectorId: string, a: Asset)
    ensures a in AssetsOfSector(db, sectorId) <==> a in db.assets && a.sectorId == sectorId
  {
    assert a in AssetsOfSector(db, sectorId) <==> a in multiset(AssetsOfSector(db, sectorId));
  }

  /** Every getter: `Cache::remember(PREFIX.<key>, TTL, <query>)`. */
  method Get(cache: Store<Cached>, db: Database, now: int, k: StaticKey) returns (v: Cached)
    modifies cache
    ensures Hit(old(cache.entries), Key(k), now) ==>
      v == old(cache.entries)[Key(k)].value && cache.entries == old(cache.entries)
    ensures !Hit(old(cache.entries), Key(k), now) ==>
      v == Query(db, k) && cache.entries == old(cache.entries)[Key(k) := Entry(Query(db, k), now + Ttl)]
  {
    v := cache.Remember(Key(k), Ttl, now, Query(db, k));
  }

  /** Within the TTL a second read returns what the first one returned, even
      when the database has changed in between. */
  method GetTwice(cache: Store<Cached>, db: Database, changed: Database, now: int, later: int, k: StaticKey)
    returns (first: Cached, second: Cached)
    requires now <= later < now + Ttl
    modifies cache
    ensures !Hit(old(cache.entries), Key(k), now) ==> first == second == Query(db, k)
    ensures Hit(old(cache.entries), Key(k), later) ==> first == second == old(cache.entries)[Key(k)].value
  {
    first := Get(cache, db, now, k);
    second := Get(cache, changed, later, k);
  }

  /** `marketByCode`: the first cached market with the code, or none. */
  method MarketByCode(cache: Store<Cached>, db: Database, now: int, code: string) returns (m: Option<MarketRef>)
    modifies cache
    ensures !Hit(old(cache.entries), Key(MarketsKey), now) ==>
      m == FirstWhere(Query(db, MarketsKey).markets, (x: MarketRef) => x.code == code)
    ensures Hit(old(cache.entries), Key(MarketsKey), now) ==>
      m == if old(cache.entries)[Key(MarketsKey)].value.Markets? then
        FirstWhere(old(cache.entries)[Key(MarketsKey)].value.markets, (x: MarketRef) => x.code == code)
      else None
    ensures Hit(old(cache.entries), Key(MarketsKey), now) ==> cache.entries == old(cache.entries)
    ensures !Hit(old(cache.entries), Key(MarketsKey), now) ==>
      cache.entries == old(cache.entries)[Key(MarketsKey) := Entry(Query(db, MarketsKey), now + Ttl)]
  {
    var all := Get(cache, db, now, MarketsKey);
    if all.Markets? {
      m := FirstWhere(all.markets, (x: MarketRef) => x.code == code);
    } else {
      m := None;
    }
  }

  /** `sectorById`: the first cached sector with the id, or none. */
  method SectorById(cache: Store<Cached>, db: Database, now: int, id: string) returns (s: Option<Sector>)
    modifies cache
    ensures !Hit(old(cache.entries), Key(SectorsKey), now) ==>
      s == FirstWhere(Query(db, SectorsKey).sectors, (x: Sector) => x.id == id)
    ensures Hit(old(cache.entries), Key(SectorsKey), now) ==>
      s == if old(cache.entries)[Key(SectorsKey)].value.Sectors? then
        FirstWhere(old(cache.entries)[Key(SectorsKey)].value.sectors, (x: Sector) => x.id == id)
      else None
    ensures Hit(old(cache.entries), Key(SectorsKey), now) ==> cache.entries == old(cache.entries)
    ensures !Hit(old(cache.entries), Key(SectorsKey), now) ==>
      cache.entries == old(cache.entries)[Key(SectorsKey) := Entry(Query(db, SectorsKey), now + Ttl)]
  {
    var all := Get(cache, db, now, SectorsKey);
    if all.Sectors? {
      s := FirstWhere(all.sectors, (x: Sector) => x.id == id);
    } else {
      s := None;
    }
  }

  /** A fresh lookup finds a market exactly when the table has one with the code. */
  lemma MarketByCodeFound(db: Database, code: string)
    ensures FirstWhere(Query(db, MarketsKey).markets, (x: MarketRef) => x.code == code).Some? <==>
      exists x :: x in db.markets && x.code == code
  {
    var sorted := Query(db, MarketsKey).markets;
    ByStringKeyPreorder(MarketCode);
    forall x ensures x in sorted <==> x in db.markets {
      SortedElements(db.markets, ByStringKey(MarketCode), x);
    }
  }

  // ---- invalidation and warming ----

  /** The four keys that do not depend on an id. */
  const GlobalKeys: seq<StaticKey> := [CountriesKey, MarketsKey, SectorsKey, AllAssetsKey]

  function MarketIds(db: Database): seq<string> {
    seq(|db.markets|, i requires 0 <= i < |db.markets| => db.markets[i].id)
  }

  function SectorIds(db: Database): seq<string> {
    seq(|db.sectors|, i requires 0 <= i < |db.sectors| => db.sectors[i].id)
  }

  /** The keys `clearAll` removes and `warmAll` fills, for the markets and
      sectors in the database at the time of the call. */
  function StaticKeys(db: Database): (ks: set<StaticKey>)
    ensures forall k :: k in ks <==>
      k in GlobalKeys ||
      (k.MarketAssetsKey? && k.marketId in MarketIds(db)) || (k.SectorAssetsKey? && k.sectorId in SectorIds(db))
  {
    (set k | k in GlobalKeys) +
    (set id | id in MarketIds(db) :: MarketAssetsKey(id)) +
    (set id | id in SectorIds(db) :: SectorAssetsKey(id))
  }

  function Keys(ks: set<StaticKey>): set<string> {
    set k | k in ks :: Key(k)
  }

  /** `forget` of each key in turn. */
  method ForgetAll(cache: Store<Cached>, keys: seq<StaticKey>)
    modifies cache
    ensures cache.entries == old(cache.entries) - KeysOf(keys)
  {
    var i := 0;
    while i < |keys|
      invariant i <= |keys|
      invariant cache.entries == old(cache.entries) - KeysOf(keys[..i])
    {
      cache.Forget(Key(keys[i]));
      KeysOfSnoc(keys[..i], keys[i]);
      PrefixSnoc(keys, i);
      i := i + 1;
    }
    assert keys[..i] == keys;
  }

  function KeysOf(keys: seq<StaticKey>): set<string> {
    set k | k in keys :: Key(k)
  }

  lemma KeysOfSnoc(keys: seq<StaticKey>, k: StaticKey)
    ensures KeysOf(keys + [k]) == KeysOf(keys) + {Key(k)}
  {
    assert forall x :: x in keys + [k] <==> x in keys || x == k;
  }

  function MarketKeys(ids: seq<string>): (ks: seq<StaticKey>)
    ensures |ks| == |ids| && forall i :: 0 <= i < |ids| ==> ks[i] == MarketAssetsKey(ids[i])
  {
    seq(|ids|, i requires 0 <= i < |ids| => MarketAssetsKey(ids[i]))
  }

  function SectorKeys(ids: seq<string>): (ks: seq<StaticKey>)
    ensures |ks| == |ids| && forall i :: 0 <= i < |ids| ==> ks[i] == SectorAssetsKey(ids[i])
  {
    seq(|ids|, i requires 0 <= i < |ids| => SectorAssetsKey(ids[i]))
  }

  lemma StaticKeysSplit(db: Database)
    ensures StaticKeys(db) ==
      (set k | k in GlobalKeys) + (set k | k in MarketKeys(MarketIds(db))) + (set k | k in SectorKeys(SectorIds(db)))
  {
    var ms := MarketKeys(MarketIds(db));
    var ss := SectorKeys(SectorIds(db));
    forall k | k in StaticKeys(db) && k.MarketAssetsKey? && k !in GlobalKeys
      ensures k in ms
    {
      var i := IndexOf(MarketIds(db), k.marketId);
      assert ms[i] == k;
    }
    forall k | k in StaticKeys(db) && k.SectorAssetsKey? && k !in GlobalKeys
      ensures k in ss
    {
      var i := IndexOf(SectorIds(db), k.sectorId);
      assert ss[i] == k;
    }
  }

  /** `clearAll`: forgets the four global keys, then the asset list of every
      market and of every sector now in the database. */
  method ClearAll(cache: Store<Cached>, db: Database)
    modifies cache
    ensures cache.entries == old(cache.entries) - Keys(StaticKeys(db))
  {
    ForgetAll(cache, GlobalKeys);
    ForgetAll(cache, MarketKeys(MarketIds(db)));
    ForgetAll(cache, SectorKeys(SectorIds(db)));
    ClearedKeys(db);
    RemoveInTurn(old(cache.entries), KeysOf(GlobalKeys), KeysOf(MarketKeys(MarketIds(db))), KeysOf(SectorKeys(SectorIds(db))));
  }

  /** The keys the three loops of `clearAll` forget are the static keys. */
  lemma ClearedKeys(db: Database)
    ensures KeysOf(GlobalKeys) + KeysOf(MarketKeys(MarketIds(db))) + KeysOf(SectorKeys(SectorIds(db))) == Keys(StaticKeys(db))
  {
    StaticKeysSplit(db);
  }

  lemma RemoveInTurn(m: map<string, Entry<Cached>>, a: set<string>, b: set<string>, c: set<string>)
    ensures m - a - b - c == m - (a + b + c)
  {
  }

  /** Reads each key in turn, so that each is fresh afterwards. */
  method GetAll(cache: Store<Cached>, db: Database, now: int, keys: seq<StaticKey>)
    modifies cache
    ensures AllHit(cache.entries, keys, now)
    ensures Refreshed(old(cache.entries), cache.entries, keys, QueryOf(db), now)
  {
    var i := 0;
    while i < |keys|
      invariant i <= |keys|
      invariant AllHit(cache.entries, keys[..i], now)
      invariant Refreshed(old(cache.entries), cache.entries, keys[..i], QueryOf(db), now)
    {
      ghost var before := cache.entries;
      var _ := Get(cache, db, now, keys[i]);
      assert QueryOf(db)(keys[i]) == Query(db, keys[i]);
      RefreshedStep(old(cache.entries), before, cache.entries, keys[..i], keys[i], QueryOf(db), now);
      PrefixSnoc(keys, i);
      i := i + 1;
    }
    assert keys[..i] == keys;
  }

  /** The answer of the database to each key. */
  function QueryOf(db: Database): (answer: StaticKey -> Cached)
    ensures forall k :: answer(k) == Query(db, k)
  {
    (k: StaticKey) => Query(db, k)
  }

  /** Every one of `keys` is fresh in `entries`. */
  ghost predicate AllHit(entries: map<string, Entry<Cached>>, keys: seq<StaticKey>, now: int) {
    forall k :: k in keys ==> Hit(entries, Key(k), now)
  }

  /** Every entry `before` holds is still in `after`, one that was fresh
      unchanged, and every entry of `after` is either the one `before` held or
      the fresh `answer` to one of `keys`. */
  ghost predicate Refreshed(before: map<string, Entry<Cached>>, after: map<string, Entry<Cached>>,
                            keys: seq<StaticKey>, answer: StaticKey -> Cached, now: int) {
    (forall s :: s in before ==> s in after) &&
    (forall s :: Hit(before, s, now) ==> after[s] == before[s]) &&
    forall s :: s in after ==>
      (s in before && after[s] == before[s]) ||
      exists k :: k in keys && s == Key(k) && after[s] == Entry(answer(k), now + Ttl)
  }

  /** One more read keeps the cache refreshed, now for one more key. */
  lemma RefreshedStep(before: map<string, Entry<Cached>>, mid: map<string, Entry<Cached>>,
                      after: map<string, Entry<Cached>>, keys: seq<StaticKey>, k: StaticKey, answer: StaticKey -> Cached, now: int)
    requires Refreshed(before, mid, keys, answer, now)
    requires AllHit(mid, keys, now)
    requires Hit(mid, Key(k), now) ==> after == mid
    requires !Hit(mid, Key(k), now) ==> after == mid[Key(k) := Entry(answer(k), now + Ttl)]
    ensures Refreshed(before, after, keys + [k], answer, now)
    ensures AllHit(after, keys + [k], now)
  {
    if Hit(mid, Key(k), now) {
      RefreshedMore(before, mid, keys, k, answer, now);
      AllHitMore(mid, keys, k, now);
    } else {
      RefreshedMiss(before, mid, keys, k, answer, now);
      AllHitMiss(mid, keys, k, answer, now);
    }
  }

  /** A longer key list keeps a refreshed cache refreshed. */
  lemma RefreshedMore(before: map<string, Entry<Cached>>, mid: map<string, Entry<Cached>>,
                      keys: seq<StaticKey>, k: StaticKey, answer: StaticKey -> Cached, now: int)
    requires Refreshed(before, mid, keys, answer, now)
    ensures Refreshed(before, mid, keys + [k], answer, now)
  {
    forall s | s in mid
      ensures (s in before && mid[s] == before[s]) ||
        exists k' :: k' in keys + [k] && s == Key(k') && mid[s] == Entry(answer(k'), now + Ttl)
    {
      if !(s in before && mid[s] == before[s]) {
        var k' :| k' in keys && s == Key(k') && mid[s] == Entry(answer(k'), now + Ttl);
        assert k' in keys + [k];
      }
    }
  }

  lemma AllHitMore(mid: map<string, Entry<Cached>>, keys: seq<StaticKey>, k: StaticKey, now: int)
    requires AllHit(mid, keys, now) && Hit(mid, Key(k), now)
    ensures AllHit(mid, keys + [k], now)
  {
  }

  /** Storing the fresh answer for a `k` that missed keeps the cache
      refreshed, now for one more key. */
  lemma RefreshedMiss(before: map<string, Entry<Cached>>, mid: map<string, Entry<Cached>>,
                      keys: seq<StaticKey>, k: StaticKey, answer: StaticKey -> Cached, now: int)
    requires Refreshed(before, mid, keys, answer, now)
    requires !Hit(mid, Key(k), now)
    ensures Refreshed(before, mid[Key(k) := Entry(answer(k), now + Ttl)], keys + [k], answer, now)
  {
    var after := mid[Key(k) := Entry(answer(k), now + Ttl)];
    RefreshedMore(before, mid, keys, k, answer, now);
    // a key fresh before would still be fresh in `mid`, so `Key(k)` was not
    assert !Hit(before, Key(k), now);
    forall s | s in after
      ensures (s in before && after[s] == before[s]) ||
        exists k' :: k' in keys + [k] && s == Key(k') && after[s] == Entry(answer(k'), now + Ttl)
    {
      if s == Key(k) {
        assert k in keys + [k];
      } else {
        assert s in mid && after[s] == mid[s];
      }
    }
  }

  lemma AllHitMiss(mid: map<string, Entry<Cached>>, keys: seq<StaticKey>, k: StaticKey, answer: StaticKey -> Cached, now: int)
    requires AllHit(mid, keys, now)
    ensures AllHit(mid[Key(k) := Entry(answer(k), now + Ttl)], keys + [k], now)
  {
    var after := mid[Key(k) := Entry(answer(k), now + Ttl)];
    forall k' | k' in keys + [k] ensures Hit(after, Key(k'), now) {
      if Key(k') != Key(k) {
        assert k' in keys;
      }
    }
  }

  /** `warmAll`: reads the four global keys, then the asset list of every
      market and of every sector; afterwards every one of those keys is fresh,
      holding what it held (when still fresh) or the query's answer. */
  method WarmAll(cache: Store<Cached>, db: Database, now: int)
    modifies cache
    ensures forall k :: k in StaticKeys(db) ==> Hit(cache.entries, Key(k), now)
    ensures forall s :: s in old(cache.entries) ==> s in cache.entries
    ensures forall s :: Hit(old(cache.entries), s, now) ==> cache.entries[s] == old(cache.entries)[s]
    ensures forall s :: s in cache.entries ==>
      (s in old(cache.entries) && cache.entries[s] == old(cache.entries)[s]) ||
      exists k :: k in StaticKeys(db) && s == Key(k) && cache.entries[s] == Entry(Query(db, k), now + Ttl)
  {
    GetAll(cache, db, now, GlobalKeys + MarketKeys(MarketIds(db)) + SectorKeys(SectorIds(db)));
    StaticKeysSplit(db);
  }

  /** Clearing leaves every key outside the `static:` prefix alone. */
  lemma ClearKeepsOtherKeys(db: Database, s: string)
    requires !StartsWith(s, Prefix)
    ensures s !in Keys(StaticKeys(db))
  {
    forall k | k in StaticKeys(db) ensures Key(k) != s {
      assert StartsWith(Key(k), Prefix);
    }
  }
}
