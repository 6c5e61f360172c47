/**
  The LRU cache with time-to-live of market-data/cache/ttl-manager.js, with the clock as a parameter in milliseconds.
 */
module TtlCache {
  import opened Options

  const DEFAULT_TTL := 60000
  const DEFAULT_MAX_SIZE := 1000
  const MAX_EXTENDED_TTL := 300000

  datatype Entry<V> = Entry(data: V, expiresAt: int, accessCount: nat)

  /** `order` is the iteration order that both maps of the source share: keys by first insertion. */
  datatype State<V> = State(cache: map<string, Entry<V>>, order: seq<string>, accessHistory: map<string, int>)

  datatype Config = Config(defaultTTL: int, maxCacheSize: int)

  ghost predicate Distinct(order: seq<string>) {
    forall i, j :: 0 <= i < j < |order| ==> order[i] != order[j]
  }

  /** The cache and the access history hold the same keys, each once in the iteration order. */
  ghost predicate Valid<V>(s: State<V>) {
    && s.cache.Keys == s.accessHistory.Keys
    && Distinct(s.order)
    && (forall k :: k in s.order <==> k in s.accessHistory)
  }

  function Without(order: seq<string>, key: string): (r: seq<string>)
    ensures forall k :: k in r <==> k in order && k != key
    ensures Distinct(order) ==> Distinct(r)
  {
    if order == [] then []
    else
      var init, last := Without(order[..|order| - 1], key), order[|order| - 1];
      assert order == order[..|order| - 1] + [last];
      assert Distinct(order) ==> last !in order[..|order| - 1];
      if last == key then init else init + [last]
  }

  function Deleted<V>(s: State<V>, key: string): (r: State<V>)
    ensures Valid(s) ==> Valid(r)
  {
    State(s.cache - {key}, Without(s.order, key), s.accessHistory - {key})
  }

  /** The first of the first `n` keys in iteration order with the smallest access time. */
  function Oldest(order: seq<string>, accessHistory: map<string, int>, n: nat): (k: string)
    requires 0 < n <= |order| && forall k :: k in order ==> k in accessHistory
    ensures k in order
    ensures forall i :: 0 <= i < n ==> accessHistory[k] <= accessHistory[order[i]]
  {
    if n == 1 then order[0]
    else
      var best := Oldest(order, accessHistory, n - 1);
      if accessHistory[order[n - 1]] < accessHistory[best] then order[n - 1] else best
  }

  /** Among the keys with the smallest access time it is the first in iteration order. */
  lemma {:induction false} OldestIsFirst(order: seq<string>, accessHistory: map<string, int>, n: nat) returns (i: nat)
    requires 0 < n <= |order| && forall k :: k in order ==> k in accessHistory
    ensures i < n && order[i] == Oldest(order, accessHistory, n)
    ensures forall j :: 0 <= j < i ==> accessHistory[order[i]] < accessHistory[order[j]]
    ensures forall j :: 0 <= j < n ==> accessHistory[order[i]] <= accessHistory[order[j]]
  {
    i := n - 1;
    if n > 1 {
      var k := OldestIsFirst(order, accessHistory, n - 1);
      if accessHistory[order[n - 1]] >= accessHistory[order[k]] {
        i := k;
      }
    }
  }

  /** The key that eviction picks; the empty key is falsy, so a cache whose oldest key is empty evicts nothing. */
  function Victim<V>(s: State<V>): (victim: Option<string>)
    requires Valid(s)
    ensures victim.Some? ==> victim.value in s.accessHistory
  {
    if s.order == [] then None
    else
      var oldest := Oldest(s.order, s.accessHistory, |s.order|);
      if oldest == "" then None else Some(oldest)
  }

  function Evicted<V>(s: State<V>): (r: State<V>)
    requires Valid(s)
    ensures Valid(r)
  {
    match Victim(s)
    case Some(key) => Deleted(s, key)
    case None => s
  }

  function MadeRoom<V>(c: Config, s: State<V>): (r: State<V>)
    requires Valid(s)
    ensures Valid(r)
  {
    if |s.cache| >= c.maxCacheSize then Evicted(s) else s
  }

  function Lifetime(c: Config, ttl: Option<int>): int {
    if ttl.Some? && ttl.value != 0 then ttl.value else c.defaultTTL
  }

  function Inserted<V>(room: State<V>, key: string, entry: Entry<V>, now: int): (r: State<V>)
    requires Valid(room)
    ensures Valid(r)
  {
    State(room.cache[key := entry],
          if key in room.accessHistory then room.order else room.order + [key],
          room.accessHistory[key := now])
  }

  function Stored<V>(c: Config, s: State<V>, key: string, value: V, ttl: Option<int>, now: int): (r: State<V>)
    requires Valid(s)
    ensures Valid(r)
  {
    Inserted(MadeRoom(c, s), key, Entry(value, now + Lifetime(c, ttl), 0), now)
  }

  function ExtendedTTL(c: Config): int {
    if 2 * c.defaultTTL < MAX_EXTENDED_TTL then 2 * c.defaultTTL else MAX_EXTENDED_TTL
  }

  /** An entry is still served at the very instant it expires. */
  predicate Hit<V>(s: State<V>, key: string, now: int) {
    key in s.cache && now <= s.cache[key].expiresAt
  }

  function Fetched<V>(c: Config, s: State<V>, key: string, now: int): (r: State<V>)
    requires Valid(s)
    ensures Valid(r)
  {
    if key !in s.cache then s
    else if now > s.cache[key].expiresAt then Deleted(s, key)
    else
      var e := s.cache[key];
      s.(cache := s.cache[key := Entry(e.data, now + ExtendedTTL(c), e.accessCount + 1)],
         accessHistory := s.accessHistory[key := now])
  }

  function Result<V>(s: State<V>, key: string, now: int): Option<V> {
    if Hit(s, key, now) then Some(s.cache[key].data) else None
  }

  /** Deletion of the expired entries among the given keys, one after the other. */
  function CleanedKeys<V>(s: State<V>, keys: seq<string>, now: int): (r: State<V>)
    requires Valid(s)
    ensures Valid(r)
  {
    if keys == [] then s
    else
      var t, key := CleanedKeys(s, keys[..|keys| - 1], now), keys[|keys| - 1];
      if key in t.cache && now > t.cache[key].expiresAt then Deleted(t, key) else t
  }

  function Cleaned<V>(s: State<V>, now: int): (r: State<V>)
    requires Valid(s)
    ensures Valid(r)
  {
    CleanedKeys(s, s.order, now)
  }

  function Retimed<V>(s: State<V>, key: string, ttl: int, now: int): (r: State<V>)
    requires Valid(s)
    ensures Valid(r)
  {
    if key in s.cache then s.(cache := s.cache[key := s.cache[key].(expiresAt := now + ttl)]) else s
  }

  class MarketDataCache<V> {
    const defaultTTL: int
    const maxCacheSize: int
    var cache: map<string, Entry<V>>
    var order: seq<string>
    var accessHistory: map<string, int>

    function Conf(): Config {
      Config(defaultTTL, maxCacheSize)
    }

    function Abs(): State<V>
      reads this
    {
      State(cache, order, accessHistory)
    }

    constructor (defaultTTL: int, maxCacheSize: int)
      ensures Conf() == Config(if defaultTTL == 0 then 60000 else defaultTTL,
                               if maxCacheSize == 0 then 1000 else maxCacheSize)
      ensures Abs() == State(map[], [], map[]) && Valid(Abs())
    {
      this.defaultTTL := if defaultTTL == 0 then DEFAULT_TTL else defaultTTL;
      this.maxCacheSize := if maxCacheSize == 0 then DEFAULT_MAX_SIZE else maxCacheSize;
      cache, order, accessHistory := map[], [], map[];
    }

    method Set(key: string, value: V, ttl: Option<int>, now: int)
      requires Valid(Abs())
      modifies this
      ensures Abs() == Stored(Conf(), old(Abs()), key, value, ttl, now)
    {
      MakeRoom();
      ghost var stored := Inserted(Abs(), key, Entry(value, now + Lifetime(Conf(), ttl), 0), now);
      assert stored == Stored(Conf(), old(Abs()), key, value, ttl, now);
      var expiresAt := if ttl.Some? && ttl.value != 0 then now + ttl.value else now + defaultTTL;
      cache := cache[key := Entry(value, expiresAt, 0)];
      if key !in accessHistory {
        order := order + [key];
      }
      accessHistory := accessHistory[key := now];
      assert cache == stored.cache && order == stored.order && accessHistory == stored.accessHistory;
    }

    method Get(key: string, now: int) returns (data: Option<V>)
      requires Valid(Abs())
      modifies this
      ensures Abs() == Fetched(Conf(), old(Abs()), key, now)
      ensures data == Result(old(Abs()), key, now)
    {
      if key !in cache {
        return None;
      }
      if now > cache[key].expiresAt {
        var _ := Delete(key);
        return None;
      }
      var entry := cache[key];
      accessHistory := accessHistory[key := now];
      var newTTL := if MAX_EXTENDED_TTL < 2 * defaultTTL then MAX_EXTENDED_TTL else 2 * defaultTTL;
      cache := cache[key := Entry(entry.data, now + newTTL, entry.accessCount + 1)];
      return Some(entry.data);
    }

    method Delete(key: string) returns (deleted: bool)
      requires Valid(Abs())
      modifies this
      ensures Abs() == Deleted(old(Abs()), key)
      ensures deleted <==> key in old(cache)
    {
      deleted := key in cache;
      if deleted {
        cache := cache - {key};
        order := Without(order, key);
        accessHistory := accessHistory - {key};
      } else {
        assert cache - {key} == cache && accessHistory - {key} == accessHistory;
        WithoutAbsent(order, key);
      }
    }

    /** The size check at the start of a store. */
    method MakeRoom()
      requires Valid(Abs())
      modifies this
      ensures Abs() == MadeRoom(Conf(), old(Abs()))
    {
      if |cache| >= maxCacheSize {
        EvictOldest();
      }
    }

    method EvictOldest()
      requires Valid(Abs())
      modifies this
      ensures Abs() == Evicted(old(Abs()))
    {
      var oldestKey: Option<string> := None;
      for i := 0 to |order|
        invariant Abs() == old(Abs())
        invariant i == 0 ==> oldestKey == None
        invariant i > 0 ==> oldestKey == Some(Oldest(order, accessHistory, i))
      {
        if oldestKey.None? || accessHistory[order[i]] < accessHistory[oldestKey.value] {
          oldestKey := Some(order[i]);
        }
      }
      if oldestKey.Some? && oldestKey.value != "" {
        var _ := Delete(oldestKey.value);
      }
    }

    method CleanupExpired(now: int) returns (deletedCount: nat)
      requires Valid(Abs())
      modifies this
      ensures Abs() == Cleaned(old(Abs()), now)
      ensures deletedCount + |cache| == |old(cache)|
    {
      deletedCount := 0;
      var keys := order;
      for i := 0 to |keys|
        invariant Valid(Abs())
        invariant Abs() == CleanedKeys(old(Abs()), keys[..i], now)
        invariant deletedCount + |cache| == |old(cache)|
      {
        CleanedSnoc(old(Abs()), keys, i, now);
        CardinalityOfDeletion(cache, keys[i]);
        if keys[i] in cache && now > cache[keys[i]].expiresAt {
          var _ := Delete(keys[i]);
          deletedCount := deletedCount + 1;
        }
      }
      assert keys[..|keys|] == keys;
    }

    method SetTTL(key: string, ttl: int, now: int)
      requires Valid(Abs())
      modifies this
      ensures Abs() == Retimed(old(Abs()), key, ttl, now)
    {
      if key in cache {
        cache := cache[key := cache[key].(expiresAt := now + ttl)];
      }
    }

    method Clear()
      modifies this
      ensures Abs() == State(map[], [], map[])
    {
      cache, order, accessHistory := map[], [], map[];
    }

    /** Existence check without counting as an access. */
    function Has(key: string, now: int): bool
      reads this
    {
      key in cache && now < cache[key].expiresAt
    }
  }

  lemma CleanedSnoc<V>(s: State<V>, keys: seq<string>, i: nat, now: int)
    requires Valid(s) && i < |keys|
    ensures var t := CleanedKeys(s, keys[..i], now);
      CleanedKeys(s, keys[..i + 1], now)
        == if keys[i] in t.cache && now > t.cache[keys[i]].expiresAt then Deleted(t, keys[i]) else t
  {
    assert keys[..i + 1][..i] == keys[..i];
  }

  lemma {:induction false} WithoutAbsent(order: seq<string>, key: string)
    requires key !in order
    ensures Without(order, key) == order
  {
    if order != [] {
      assert order == order[..|order| - 1] + [order[|order| - 1]];
      WithoutAbsent(order[..|order| - 1], key);
    }
  }

  lemma CardinalityOfDeletion<V>(m: map<string, V>, key: string)
    ensures |m - {key}| == |m| - if key in m then 1 else 0
  {
    assert (m - {key}).Keys == m.Keys - {key};
    assert |m - {key}| == |(m - {key}).Keys| && |m| == |m.Keys|;
  }

  lemma CardinalityOfUpdate<V>(m: map<string, V>, key: string, value: V)
    ensures |m[key := value]| == |m| + if key in m then 0 else 1
  {
    assert m[key := value].Keys == m.Keys + {key};
    assert |m[key := value]| == |m[key := value].Keys| && |m| == |m.Keys|;
  }

  /** Cleanup removes exactly the expired entries and touches nothing else. */
  lemma CleanupRemovesExactlyExpired<V>(s: State<V>, now: int)
    requires Valid(s)
    ensures Cleaned(s, now).cache == map k | k in s.cache && now <= s.cache[k].expiresAt :: s.cache[k]
    ensures Cleaned(s, now).accessHistory == map k | k in s.cache && now <= s.cache[k].expiresAt :: s.accessHistory[k]
  {
    CleanedKeysMeaning(s, s.order, now);
  }

  lemma {:induction false} CleanedKeysMeaning<V>(s: State<V>, keys: seq<string>, now: int)
    requires Valid(s)
    ensures var t := CleanedKeys(s, keys, now);
      && (forall k :: k in t.cache <==> k in s.cache && !(k in keys && now > s.cache[k].expiresAt))
      && (forall k :: k in t.cache ==> t.cache[k] == s.cache[k] && t.accessHistory[k] == s.accessHistory[k])
  {
    if keys != [] {
      CleanedKeysMeaning(s, keys[..|keys| - 1], now);
      assert keys == keys[..|keys| - 1] + [keys[|keys| - 1]];
    }
  }

  /** `Has` and a lookup disagree exactly at the instant of expiry, when only the lookup still finds the entry. */
  lemma HasDisagreesOnlyAtExpiry<V>(cache: MarketDataCache<V>, key: string, now: int)
    ensures cache.Has(key, now) != Hit(cache.Abs(), key, now) <==>
            key in cache.cache && cache.cache[key].expiresAt == now
  {
  }
}
