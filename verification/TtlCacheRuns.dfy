/** Properties of the cache over whole runs: key sets, capacity, LRU order, freshness of data, time to live. */
module TtlCacheRuns {
  import opened Options
  import opened TtlCache

  datatype Event<V> =
    | Set(key: string, value: V, ttl: Option<int>)
    | Get(key: string)
    | Delete(key: string)
    | Cleanup
    | SetTTL(key: string, newTTL: int)
    | Clear

  /** An event and the clock reading at which it happens. */
  datatype Timed<V> = At(now: int, event: Event<V>)

  /** The cache, and what the latest set of each key wrote, unless deleted since. */
  datatype Trace<V> = Trace(state: State<V>, written: map<string, V>)

  function StateStep<V>(c: Config, s: State<V>, te: Timed<V>): (r: State<V>)
    requires Valid(s)
    ensures Valid(r)
  {
    match te.event
    case Set(key, value, ttl) => Stored(c, s, key, value, ttl, te.now)
    case Get(key) => Fetched(c, s, key, te.now)
    case Delete(key) => Deleted(s, key)
    case Cleanup => Cleaned(s, te.now)
    case SetTTL(key, ttl) => Retimed(s, key, ttl, te.now)
    case Clear => State(map[], [], map[])
  }

  function WrittenStep<V>(w: map<string, V>, e: Event<V>): map<string, V> {
    match e
    case Set(key, value, _) => w[key := value]
    case Delete(key) => w - {key}
    case Clear => map[]
    case _ => w
  }

  function Run<V>(c: Config, es: seq<Timed<V>>): (t: Trace<V>)
    ensures Valid(t.state)
  {
    if es == [] then Trace(State(map[], [], map[]), map[])
    else
      var t, te := Run(c, es[..|es| - 1]), es[|es| - 1];
      Trace(StateStep(c, t.state, te), WrittenStep(t.written, te.event))
  }

  ghost predicate Chronological<V>(es: seq<Timed<V>>) {
    forall i, j :: 0 <= i <= j < |es| ==> es[i].now <= es[j].now
  }

  /** On every run the cache and the access history have the same keys. */
  lemma KeySetsCoincide<V>(c: Config, es: seq<Timed<V>>)
    ensures var s := Run(c, es).state; s.cache.Keys == s.accessHistory.Keys && (set k | k in s.order) == s.cache.Keys
  {
  }

  lemma RoomIsMade<V>(c: Config, s: State<V>)
    requires Valid(s) && 1 <= c.maxCacheSize && |s.cache| <= c.maxCacheSize && "" !in s.cache
    ensures |MadeRoom(c, s).cache| < c.maxCacheSize && "" !in MadeRoom(c, s).cache
  {
    if |s.cache| >= c.maxCacheSize {
      assert |s.cache.Keys| > 0;
      var k :| k in s.cache.Keys;
      assert k in s.order && Victim(s).Some?;
      CardinalityOfDeletion(s.cache, Victim(s).value);
    }
  }

  ghost predicate Fits<V>(c: Config, s: State<V>) {
    |s.cache| <= c.maxCacheSize && "" !in s.cache
  }

  lemma FewerKeys<V>(s: State<V>, t: State<V>)
    requires t.cache.Keys <= s.cache.Keys
    ensures |t.cache| <= |s.cache|
  {
    assert s.cache.Keys == t.cache.Keys + (s.cache.Keys - t.cache.Keys);
    assert |s.cache| == |s.cache.Keys| && |t.cache| == |t.cache.Keys|;
  }

  lemma StoreFits<V>(c: Config, s: State<V>, key: string, value: V, ttl: Option<int>, now: int)
    requires Valid(s) && 1 <= c.maxCacheSize && Fits(c, s) && key != ""
    ensures Fits(c, Stored(c, s, key, value, ttl, now))
  {
    RoomIsMade(c, s);
    CardinalityOfUpdate(MadeRoom(c, s).cache, key, Entry(value, now + Lifetime(c, ttl), 0));
  }

  lemma StepFits<V>(c: Config, s: State<V>, te: Timed<V>)
    requires Valid(s) && 1 <= c.maxCacheSize && Fits(c, s)
    requires !(te.event.Set? && te.event.key == "")
    ensures Fits(c, StateStep(c, s, te))
  {
    if te.event.Set? {
      StoreFits(c, s, te.event.key, te.event.value, te.event.ttl, te.now);
    } else {
      StepEffect(c, s, te);
      FewerKeys(s, StateStep(c, s, te));
    }
  }

  /** On every run that never sets the empty key, the cache stays within its capacity. */
  lemma {:induction false} SizeBound<V>(c: Config, es: seq<Timed<V>>)
    requires 1 <= c.maxCacheSize
    requires forall i :: 0 <= i < |es| ==> !(es[i].event.Set? && es[i].event.key == "")
    ensures |Run(c, es).state.cache| <= c.maxCacheSize
    ensures Fits(c, Run(c, es).state)
  {
    if es != [] {
      SizeBound(c, es[..|es| - 1]);
      StepFits(c, Run(c, es[..|es| - 1]).state, es[|es| - 1]);
    }
  }

  /** Nothing is evicted exactly when the cache is empty or the least recently used key is the empty one. */
  lemma NoVictimIff<V>(s: State<V>)
    requires Valid(s)
    ensures Victim(s).None? <==> s.cache == map[] || Oldest(s.order, s.accessHistory, |s.order|) == ""
  {
    if s.order != [] {
      assert s.order[0] in s.cache;
    }
    assert forall k :: k in s.cache ==> k in s.order;
  }

  /** A store overflows exactly when it adds a key to a full cache whose least recently used key is the empty one. */
  lemma StoreOverflowsIff<V>(c: Config, s: State<V>, key: string, value: V, ttl: Option<int>, now: int)
    requires Valid(s) && 1 <= c.maxCacheSize && |s.cache| <= c.maxCacheSize
    ensures |Stored(c, s, key, value, ttl, now).cache| > c.maxCacheSize <==> Overflows(c, s, key)
    ensures |s.cache| == c.maxCacheSize ==>
            (Victim(s).None? <==> Oldest(s.order, s.accessHistory, |s.order|) == "")
  {
    NoVictimIff(s);
    CardinalityOfUpdate(MadeRoom(c, s).cache, key, Entry(value, now + Lifetime(c, ttl), 0));
    if Victim(s).Some? {
      CardinalityOfDeletion(s.cache, Victim(s).value);
    }
  }

  predicate Overflows<V>(c: Config, s: State<V>, key: string)
    requires Valid(s)
  {
    |s.cache| == c.maxCacheSize && key !in s.cache && Victim(s).None?
  }

  /** The cache is within its capacity after every event. */
  predicate AlwaysFits<V>(c: Config, es: seq<Timed<V>>) {
    |Run(c, es).state.cache| <= c.maxCacheSize && (es != [] ==> AlwaysFits(c, es[..|es| - 1]))
  }

  /** No event stores a key that overflows the cache as it then is. */
  predicate NeverOverflows<V>(c: Config, es: seq<Timed<V>>) {
    es != [] ==>
      var init, e := es[..|es| - 1], es[|es| - 1].event;
      NeverOverflows(c, init) && !(e.Set? && Overflows(c, Run(c, init).state, e.key))
  }

  lemma StepFitsIff<V>(c: Config, s: State<V>, te: Timed<V>)
    requires Valid(s) && 1 <= c.maxCacheSize && |s.cache| <= c.maxCacheSize
    ensures |StateStep(c, s, te).cache| <= c.maxCacheSize <==> !(te.event.Set? && Overflows(c, s, te.event.key))
  {
    if te.event.Set? {
      StoreOverflowsIff(c, s, te.event.key, te.event.value, te.event.ttl, te.now);
    } else {
      StepEffect(c, s, te);
      FewerKeys(s, StateStep(c, s, te));
    }
  }

  /** A run stays within the capacity throughout exactly when none of its stores overflows. */
  lemma {:induction false} RunFitsIff<V>(c: Config, es: seq<Timed<V>>)
    requires 1 <= c.maxCacheSize
    ensures AlwaysFits(c, es) <==> NeverOverflows(c, es)
  {
    if es != [] {
      RunFitsIff(c, es[..|es| - 1]);
      if AlwaysFits(c, es[..|es| - 1]) {
        StepFitsIff(c, Run(c, es[..|es| - 1]).state, es[|es| - 1]);
      }
    }
  }

  function Name(n: nat): (name: string)
    ensures |name| == n
  {
    seq(n, _ => 'a')
  }

  /** The empty key is the only one that was touched first, and no key is longer than `n`. */
  ghost predicate EmptyIsOldest<V>(s: State<V>, n: nat)
    requires Valid(s)
  {
    && "" in s.cache && s.accessHistory[""] == 1
    && forall k :: k in s.cache ==> |k| <= n && (k != "" ==> s.accessHistory[k] > 1)
  }

  lemma EmptyIsNoVictim<V>(s: State<V>, n: nat)
    requires Valid(s) && EmptyIsOldest(s, n)
    ensures Victim(s).None?
  {
    assert "" in s.order;
    var i :| 0 <= i < |s.order| && s.order[i] == "";
    var oldest := Oldest(s.order, s.accessHistory, |s.order|);
    assert s.accessHistory[oldest] <= s.accessHistory[s.order[i]];
  }

  lemma StoreAnother<V>(c: Config, s: State<V>, n: nat, te: Timed<V>, t: State<V>)
    requires Valid(s) && Overgrown(s, n)
    requires te.now == n + 2 && te.event.Set? && |te.event.key| == n + 1 && t == StateStep(c, s, te)
    ensures Overgrown(t, n + 1)
  {
    EmptyIsNoVictim(s, n);
    assert MadeRoom(c, s) == s;
    CardinalityOfUpdate(s.cache, te.event.key, Entry(te.event.value, te.now + Lifetime(c, te.event.ttl), 0));
  }

  lemma FirstEmpty<V>(c: Config, v: V, ttl: Option<int>)
    ensures var s := Stored(c, State(map[], [], map[]), "", v, ttl, 1); Overgrown(s, 0)
  {
    var none: State<V> := State(map[], [], map[]);
    assert MadeRoom(c, none) == none;
    CardinalityOfUpdate(none.cache, "", Entry(v, 1 + Lifetime(c, ttl), 0));
  }

  lemma RunSnoc<V>(c: Config, es: seq<Timed<V>>, te: Timed<V>)
    ensures Run(c, es + [te]).state == StateStep(c, Run(c, es).state, te)
  {
    assert (es + [te])[..|es|] == es;
  }

  /** Nothing but stores, at times 1, 2, and so on. */
  ghost predicate StoresOnly<V>(es: seq<Timed<V>>) {
    forall i :: 0 <= i < |es| ==> es[i].now == i + 1 && es[i].event.Set?
  }

  ghost predicate Overgrown<V>(s: State<V>, n: nat)
    requires Valid(s)
  {
    |s.cache| == n + 1 && EmptyIsOldest(s, n)
  }

  /**
    The empty key defeats the bound altogether: it is never evicted, and while it is the oldest nothing is, so that
    whatever the capacity the cache grows with every new key.
   */
  lemma {:induction false} EmptyKeyDefeatsBound<V>(c: Config, v: V, ttl: Option<int>, n: nat)
    returns (es: seq<Timed<V>>, s: State<V>)
    ensures |es| == n + 1 && StoresOnly(es)
    ensures s == Run(c, es).state && |s.cache| == n + 1 && Overgrown(s, n)
  {
    if n == 0 {
      es, s := StoreOnTop(c, [], State(map[], [], map[]), At(1, Set("", v, ttl)));
      FirstEmpty(c, v, ttl);
    } else {
      var fewer, before := EmptyKeyDefeatsBound(c, v, ttl, n - 1);
      var te := At(n + 1, Set(Name(n), v, ttl));
      es, s := StoreOnTop(c, fewer, before, te);
      StoreAnother(c, before, n - 1, te, s);
    }
  }

  lemma StoreOnTop<V>(c: Config, fewer: seq<Timed<V>>, before: State<V>, te: Timed<V>)
    returns (es: seq<Timed<V>>, s: State<V>)
    requires Run(c, fewer).state == before && StoresOnly(fewer) && te.now == |fewer| + 1 && te.event.Set?
    ensures |es| == |fewer| + 1 && StoresOnly(es) && Valid(before)
    ensures s == Run(c, es).state == StateStep(c, before, te)
  {
    es, s := fewer + [te], StateStep(c, before, te);
    RunSnoc(c, fewer, te);
  }

  /** Overwriting a resident key in a full cache still evicts the oldest key, so the cache ends up one short. */
  lemma OverwriteWhenFullEvicts<V>(c: Config, s: State<V>, key: string, value: V, ttl: Option<int>, now: int)
    requires Valid(s) && |s.cache| >= c.maxCacheSize && key in s.cache
    ensures |Stored(c, s, key, value, ttl, now).cache| == |s.cache| - 1 <==>
            Victim(s).Some? && Victim(s).value != key
  {
    CardinalityOfUpdate(MadeRoom(c, s).cache, key, Entry(value, now + Lifetime(c, ttl), 0));
    if Victim(s).Some? {
      CardinalityOfDeletion(s.cache, Victim(s).value);
    }
  }

  lemma VictimIsOldest<V>(s: State<V>, k: string)
    requires Valid(s) && Victim(s).Some? && k in s.accessHistory
    ensures s.accessHistory[Victim(s).value] <= s.accessHistory[k]
  {
    assert k in s.order;
    var i :| 0 <= i < |s.order| && s.order[i] == k;
  }

  /** The event uses `key`: it sets it, or it is a lookup that hits. */
  predicate Touches<V>(s: State<V>, te: Timed<V>, key: string) {
    match te.event
    case Set(k, _, _) => k == key
    case Get(k) => k == key && Hit(s, key, te.now)
    case _ => false
  }

  /** When `key` was last set or found by a lookup. */
  function LastTouch<V>(c: Config, es: seq<Timed<V>>, key: string): Option<int> {
    if es == [] then None
    else
      var init, te := es[..|es| - 1], es[|es| - 1];
      if Touches(Run(c, init).state, te, key) then Some(te.now) else LastTouch(c, init, key)
  }

  /** What one event can do to access times and data: nothing but what its kind allows. */
  ghost predicate Effect<V>(s: State<V>, te: Timed<V>, t: State<V>) {
    && (forall k :: k in t.accessHistory ==>
          if Touches(s, te, k) then t.accessHistory[k] == te.now
          else k in s.accessHistory && t.accessHistory[k] == s.accessHistory[k])
    && (forall k :: k in t.cache ==>
          if te.event.Set? && te.event.key == k then t.cache[k].data == te.event.value
          else k in s.cache && t.cache[k].data == s.cache[k].data)
    && (te.event.Delete? ==> te.event.key !in t.cache)
    && (te.event.Clear? ==> t.cache == map[])
  }

  lemma StoreEffect<V>(c: Config, s: State<V>, key: string, value: V, ttl: Option<int>, now: int)
    requires Valid(s)
    ensures Effect(s, At(now, Set(key, value, ttl)), Stored(c, s, key, value, ttl, now))
  {
    var room := MadeRoom(c, s);
    assert forall k :: k in room.cache ==> k in s.cache && room.cache[k] == s.cache[k];
    assert forall k :: k in room.accessHistory ==> k in s.accessHistory && room.accessHistory[k] == s.accessHistory[k];
  }

  lemma FetchEffect<V>(c: Config, s: State<V>, key: string, now: int)
    requires Valid(s)
    ensures Effect(s, At(now, Get(key)), Fetched(c, s, key, now))
  {
  }

  lemma CleanupEffect<V>(s: State<V>, now: int)
    requires Valid(s)
    ensures Effect(s, At(now, Cleanup), Cleaned(s, now))
  {
    CleanupRemovesExactlyExpired(s, now);
  }

  lemma RetimeEffect<V>(s: State<V>, key: string, ttl: int, now: int)
    requires Valid(s)
    ensures Effect(s, At(now, SetTTL(key, ttl)), Retimed(s, key, ttl, now))
  {
  }

  lemma StepEffect<V>(c: Config, s: State<V>, te: Timed<V>)
    requires Valid(s)
    ensures Effect(s, te, StateStep(c, s, te))
  {
    match te.event
    case Set(key, value, ttl) => StoreEffect(c, s, key, value, ttl, te.now);
    case Get(key) => FetchEffect(c, s, key, te.now);
    case Cleanup => CleanupEffect(s, te.now);
    case SetTTL(key, ttl) => RetimeEffect(s, key, ttl, te.now);
    case Delete(_) =>
    case Clear =>
  }

  /** The last event used `key`, or `key` was there before with the same time of last use. */
  lemma LastEventOn<V>(c: Config, es: seq<Timed<V>>, key: string) returns (used: bool)
    requires key in Run(c, es).state.cache
    ensures es != []
    ensures var now, at := es[|es| - 1].now, Run(c, es).state.accessHistory[key];
      used ==> LastTouch(c, es, key) == Some(now) && at == now
    ensures var init := es[..|es| - 1];
      !used ==>
        && key in Run(c, init).state.cache && LastTouch(c, es, key) == LastTouch(c, init, key)
        && Run(c, es).state.accessHistory[key] == Run(c, init).state.accessHistory[key]
  {
    var s, te := Run(c, es[..|es| - 1]).state, es[|es| - 1];
    StepEffect(c, s, te);
    used := Touches(s, te, key);
  }

  /** On every run the access history holds, for each resident key, the time it was last set or found. */
  lemma {:induction false} AccessHistoryIsLastTouch<V>(c: Config, es: seq<Timed<V>>, key: string)
    requires key in Run(c, es).state.cache
    ensures LastTouch(c, es, key) == Some(Run(c, es).state.accessHistory[key])
  {
    var used := LastEventOn(c, es, key);
    if !used {
      AccessHistoryIsLastTouch(c, es[..|es| - 1], key);
    }
  }

  lemma {:induction false} TouchedByNow<V>(c: Config, es: seq<Timed<V>>, key: string)
    requires LastTouch(c, es, key).Some? && Chronological(es)
    ensures LastTouch(c, es, key).value <= es[|es| - 1].now
  {
    var init := es[..|es| - 1];
    if !Touches(Run(c, init).state, es[|es| - 1], key) {
      TouchedByNow(c, init, key);
    }
  }

  /** At event `i`, making room for a store drops the key `v`. */
  ghost predicate EvictedAt<V>(c: Config, es: seq<Timed<V>>, i: nat, v: string) {
    && i < |es| && es[i].event.Set?
    && var s := Run(c, es[..i]).state;
    v in s.cache && v !in MadeRoom(c, s).cache
  }

  /** What is evicted was last used no later than anything else that was there. */
  lemma EvictedIsLeastRecent<V>(c: Config, es: seq<Timed<V>>, i: nat, v: string, k: string)
    requires EvictedAt(c, es, i, v) && k in Run(c, es[..i]).state.cache
    ensures LastTouch(c, es[..i], v).Some? && LastTouch(c, es[..i], k).Some?
    ensures LastTouch(c, es[..i], v).value <= LastTouch(c, es[..i], k).value
  {
    var s := Run(c, es[..i]).state;
    assert Victim(s) == Some(v);
    VictimIsOldest(s, k);
    AccessHistoryIsLastTouch(c, es[..i], v);
    AccessHistoryIsLastTouch(c, es[..i], k);
  }

  /** Everything resident was used at `at` or later. */
  ghost predicate AllUsedSince<V>(c: Config, es: seq<Timed<V>>, at: int) {
    forall k :: k in Run(c, es).state.cache ==> LastTouch(c, es, k).Some? && at <= LastTouch(c, es, k).value
  }

  lemma StepKeepsUsedSince<V>(c: Config, es: seq<Timed<V>>, at: int)
    requires es != [] && AllUsedSince(c, es[..|es| - 1], at) && at <= es[|es| - 1].now
    ensures AllUsedSince(c, es, at)
  {
    forall k | k in Run(c, es).state.cache ensures LastTouch(c, es, k).Some? && at <= LastTouch(c, es, k).value {
      var used := LastEventOn(c, es, k);
    }
  }

  lemma {:induction false} RunKeepsUsedSince<V>(c: Config, es: seq<Timed<V>>, i: nat, at: int)
    requires i <= |es| && AllUsedSince(c, es[..i], at) && forall j :: i <= j < |es| ==> at <= es[j].now
    ensures AllUsedSince(c, es, at)
  {
    if i == |es| {
      assert es[..i] == es;
    } else {
      assert es[..|es| - 1][..i] == es[..i];
      RunKeepsUsedSince(c, es[..|es| - 1], i, at);
      StepKeepsUsedSince(c, es, at);
    }
  }

  lemma EvictionLeavesUsedSince<V>(c: Config, es: seq<Timed<V>>, i: nat, v: string)
    requires EvictedAt(c, es, i, v)
    ensures LastTouch(c, es[..i], v).Some? && AllUsedSince(c, es[..i], LastTouch(c, es[..i], v).value)
  {
    forall k | k in Run(c, es[..i]).state.cache
      ensures LastTouch(c, es[..i], v).Some? && LastTouch(c, es[..i], k).Some?
      ensures LastTouch(c, es[..i], v).value <= LastTouch(c, es[..i], k).value
    {
      EvictedIsLeastRecent(c, es, i, v, k);
    }
  }

  /**
    The LRU guarantee, over every run: whatever is resident was last used, by a set or a hit, no earlier than
    anything that was evicted had been at its eviction.
   */
  lemma LeastRecentlyUsedIsEvicted<V>(c: Config, es: seq<Timed<V>>, i: nat, v: string, k: string)
    requires Chronological(es) && EvictedAt(c, es, i, v) && k in Run(c, es).state.cache
    ensures LastTouch(c, es[..i], v).Some? && LastTouch(c, es, k).Some?
    ensures LastTouch(c, es[..i], v).value <= LastTouch(c, es, k).value
  {
    EvictionLeavesUsedSince(c, es, i, v);
    TouchedByNow(c, es[..i], v);
    RunKeepsUsedSince(c, es, i, LastTouch(c, es[..i], v).value);
  }

  ghost predicate Current<V>(s: State<V>, written: map<string, V>) {
    forall k :: k in s.cache ==> k in written && s.cache[k].data == written[k]
  }

  lemma StepKeepsCurrent<V>(s: State<V>, te: Timed<V>, t: State<V>, written: map<string, V>)
    requires Current(s, written) && Effect(s, te, t)
    ensures Current(t, WrittenStep(written, te.event))
  {
  }

  /** Every resident entry carries the value of the latest set of its key that was not deleted since. */
  lemma {:induction false} ResidentIsLatestWritten<V>(c: Config, es: seq<Timed<V>>)
    ensures Current(Run(c, es).state, Run(c, es).written)
  {
    if es != [] {
      var t, te := Run(c, es[..|es| - 1]), es[|es| - 1];
      ResidentIsLatestWritten(c, es[..|es| - 1]);
      StepEffect(c, t.state, te);
      StepKeepsCurrent(t.state, te, StateStep(c, t.state, te), t.written);
    }
  }

  /** A lookup returns null, or the value of the latest set that was not deleted since: never a stale one. */
  lemma GetReturnsLatestWritten<V>(c: Config, es: seq<Timed<V>>, key: string, now: int)
    ensures var t := Run(c, es);
      Result(t.state, key, now) == None || (key in t.written && Result(t.state, key, now) == Some(t.written[key]))
  {
    ResidentIsLatestWritten(c, es);
  }

  // ---------- How long an entry is served ----------

  function After<V>(c: Config, s: State<V>, es: seq<Timed<V>>): (r: State<V>)
    requires Valid(s)
    ensures Valid(r)
  {
    if es == [] then s else StateStep(c, After(c, s, es[..|es| - 1]), es[|es| - 1])
  }

  /** The event neither names `key`, nor clears the cache, nor evicts `key`. */
  ghost predicate LeavesAlone<V>(c: Config, s: State<V>, e: Event<V>, key: string)
    requires Valid(s)
  {
    match e
    case Set(k, _, _) => k != key && (|s.cache| >= c.maxCacheSize ==> Victim(s) != Some(key))
    case Get(k) => k != key
    case Delete(k) => k != key
    case SetTTL(k, _) => k != key
    case Cleanup => true
    case Clear => false
  }

  /** The entry is as it was, or it has expired by `now` and is gone. */
  ghost predicate KeptUntilExpiry<V>(s: State<V>, key: string, e: Entry<V>, now: int) {
    if key in s.cache then s.cache[key] == e else now > e.expiresAt
  }

  lemma StepKeepsEntry<V>(c: Config, s: State<V>, te: Timed<V>, key: string, e: Entry<V>, now: int)
    requires Valid(s) && LeavesAlone(c, s, te.event, key) && te.now <= now
    requires KeptUntilExpiry(s, key, e, now)
    ensures KeptUntilExpiry(StateStep(c, s, te), key, e, now)
  {
    match te.event
    case Set(k, _, _) => assert key in MadeRoom(c, s).cache <==> key in s.cache;
    case Cleanup => CleanupRemovesExactlyExpired(s, te.now);
    case _ =>
  }

  /**
    An entry that is left alone is served with its data up to and including its expiry, and not after it, whatever
    happens to other keys and however often expired entries are cleaned up.
   */
  lemma {:induction false} ServedExactlyUntilExpiry<V>(c: Config, s: State<V>, es: seq<Timed<V>>, key: string, now: int)
    requires Valid(s) && key in s.cache
    requires forall i :: 0 <= i < |es| ==> es[i].now <= now && LeavesAlone(c, After(c, s, es[..i]), es[i].event, key)
    ensures KeptUntilExpiry(After(c, s, es), key, s.cache[key], now)
    ensures Result(After(c, s, es), key, now) == if now <= s.cache[key].expiresAt then Some(s.cache[key].data) else None
  {
    if es != [] {
      var init := es[..|es| - 1];
      forall i | 0 <= i < |init|
        ensures init[i].now <= now && LeavesAlone(c, After(c, s, init[..i]), init[i].event, key)
      {
        assert init[..i] == es[..i];
      }
      ServedExactlyUntilExpiry(c, s, init, key, now);
      StepKeepsEntry(c, After(c, s, init), es[|es| - 1], key, s.cache[key], now);
    }
  }

  /** A value that was set is served for its lifetime: the custom one, or the default when that is absent or zero. */
  lemma SetIsServedForLifetime<V>(
    c: Config, s: State<V>, key: string, value: V, ttl: Option<int>, at: int, es: seq<Timed<V>>, now: int)
    requires Valid(s)
    requires var t := Stored(c, s, key, value, ttl, at);
      forall i :: 0 <= i < |es| ==> es[i].now <= now && LeavesAlone(c, After(c, t, es[..i]), es[i].event, key)
    ensures Result(After(c, Stored(c, s, key, value, ttl, at), es), key, now)
         == if now - at <= (if ttl.Some? && ttl.value != 0 then ttl.value else c.defaultTTL) then Some(value) else None
  {
    ServedExactlyUntilExpiry(c, Stored(c, s, key, value, ttl, at), es, key, now);
  }

  /** A hit resets the lifetime to twice the default, at most five minutes. */
  lemma HitResetsLifetime<V>(c: Config, s: State<V>, key: string, at: int, es: seq<Timed<V>>, now: int)
    requires Valid(s) && Hit(s, key, at)
    requires var t := Fetched(c, s, key, at);
      forall i :: 0 <= i < |es| ==> es[i].now <= now && LeavesAlone(c, After(c, t, es[..i]), es[i].event, key)
    ensures Result(After(c, Fetched(c, s, key, at), es), key, now)
         == if now - at <= 2 * c.defaultTTL && now - at <= 300000 then Some(s.cache[key].data) else None
  {
    ServedExactlyUntilExpiry(c, Fetched(c, s, key, at), es, key, now);
  }

  /** A hit shortens the life of an entry exactly when more than that remained of it. */
  lemma HitShortensLifeIff<V>(c: Config, s: State<V>, key: string, at: int)
    requires Valid(s) && Hit(s, key, at)
    ensures Fetched(c, s, key, at).cache[key].expiresAt < s.cache[key].expiresAt <==>
            s.cache[key].expiresAt - at > 2 * c.defaultTTL || s.cache[key].expiresAt - at > 300000
  {
  }

  /** So a value set for `ttl` and looked up `d` later loses lifetime to the lookup exactly for long lifetimes. */
  lemma LookupShortensLongLifetime<V>(c: Config, key: string, v: V, at: int, ttl: int, d: nat)
    requires ttl != 0 && d <= ttl
    ensures var e1, e2 := At(at, Set(key, v, Some(ttl))), At(at + d, Get(key));
      var before, after := Run(c, [e1]).state.cache, Run(c, [e1, e2]).state.cache;
      && key in before && before[key].expiresAt == at + ttl
      && key in after && (after[key].expiresAt < at + ttl <==> ttl - d > 2 * c.defaultTTL || ttl - d > 300000)
  {
    var e1: Timed<V>, e2: Timed<V> := At(at, Set(key, v, Some(ttl))), At(at + d, Get(key));
    RunSnoc(c, [], e1);
    RunSnoc(c, [e1], e2);
    assert [] + [e1] == [e1] && [e1] + [e2] == [e1, e2];
    HitShortensLifeIff(c, Run(c, [e1]).state, key, at + d);
  }

  // ---------- The entries, from the trace ----------

  /** What a lookup, a set or a new lifetime leaves as the expiry of `key`: the latest of them decides. */
  function LatestExpiry<V>(c: Config, es: seq<Timed<V>>, key: string): int {
    if es == [] then 0
    else
      var init, te := es[..|es| - 1], es[|es| - 1];
      match te.event
      case Set(k, _, ttl) =>
        if k != key then LatestExpiry(c, init, key)
        else if ttl == None || ttl == Some(0) then te.now + c.defaultTTL else te.now + ttl.value
      case Get(k) =>
        if k != key || te.now > LatestExpiry(c, init, key) then LatestExpiry(c, init, key)
        else if 2 * c.defaultTTL <= 300000 then te.now + 2 * c.defaultTTL else te.now + 300000
      case SetTTL(k, ttl) => if k == key then te.now + ttl else LatestExpiry(c, init, key)
      case _ => LatestExpiry(c, init, key)
  }

  /** `key` was set, and since then not deleted, cleared, evicted, or met after its expiry. */
  predicate Present<V>(c: Config, es: seq<Timed<V>>, key: string) {
    es != [] &&
      var init, te := es[..|es| - 1], es[|es| - 1];
      match te.event
      case Set(k, _, _) => k == key || (Present(c, init, key) && !Evicts(c, init, key))
      case Get(k) => Present(c, init, key) && (k == key ==> te.now <= LatestExpiry(c, init, key))
      case Delete(k) => Present(c, init, key) && k != key
      case Cleanup => Present(c, init, key) && te.now <= LatestExpiry(c, init, key)
      case SetTTL(_, _) => Present(c, init, key)
      case Clear => false
  }

  /** A store after these events drops `key` to make room: the cache is full, and `key` is not empty and the oldest. */
  predicate Evicts<V>(c: Config, es: seq<Timed<V>>, key: string) {
    var s := Run(c, es).state;
    |s.cache| >= c.maxCacheSize && s.order != [] && key != "" && Oldest(s.order, s.accessHistory, |s.order|) == key
  }

  /** How often `key` was found since it was last set. */
  function HitsSinceSet<V>(c: Config, es: seq<Timed<V>>, key: string): nat {
    if es == [] then 0
    else
      var init, te := es[..|es| - 1], es[|es| - 1];
      if te.event.Set? && te.event.key == key then 0
      else HitsSinceSet(c, init, key) + if Touches(Run(c, init).state, te, key) then 1 else 0
  }

  lemma EvictsIff<V>(c: Config, es: seq<Timed<V>>, key: string)
    requires key in Run(c, es).state.cache
    ensures Evicts(c, es, key) <==> key !in MadeRoom(c, Run(c, es).state).cache
  {
  }

  lemma StoreOnEntry<V>(c: Config, s: State<V>, te: Timed<V>, key: string)
    requires Valid(s) && te.event.Set?
    ensures var t := StateStep(c, s, te);
      if te.event.key == key then
        && key in t.cache && t.cache[key].accessCount == 0 && t.cache[key].data == te.event.value
        && t.cache[key].expiresAt == te.now + (if te.event.ttl == None || te.event.ttl == Some(0) then c.defaultTTL
                                               else te.event.ttl.value)
      else
        && (key in t.cache <==> key in MadeRoom(c, s).cache)
        && (key in t.cache ==> key in s.cache && t.cache[key] == s.cache[key])
  {
  }

  lemma LookupOnEntry<V>(c: Config, s: State<V>, te: Timed<V>, key: string)
    requires Valid(s) && te.event.Get?
    ensures var t := StateStep(c, s, te);
      if te.event.key != key || key !in s.cache then
        (key in t.cache <==> key in s.cache) && (key in t.cache ==> t.cache[key] == s.cache[key])
      else if te.now > s.cache[key].expiresAt then key !in t.cache
      else
        && key in t.cache && t.cache[key].accessCount == s.cache[key].accessCount + 1
        && t.cache[key].expiresAt
             == if 2 * c.defaultTTL <= 300000 then te.now + 2 * c.defaultTTL else te.now + 300000
  {
  }

  lemma OtherOnEntry<V>(c: Config, s: State<V>, te: Timed<V>, key: string)
    requires Valid(s) && !te.event.Set? && !te.event.Get?
    ensures var t := StateStep(c, s, te);
      && (key in t.cache <==>
            && key in s.cache && te.event != Clear && te.event != Delete(key)
            && (te.event == Cleanup ==> te.now <= s.cache[key].expiresAt))
      && (key in t.cache ==> t.cache[key].accessCount == s.cache[key].accessCount)
      && var retimed := te.event.SetTTL? && te.event.key == key;
      key in t.cache ==> t.cache[key].expiresAt == if retimed then te.now + te.event.newTTL else s.cache[key].expiresAt
  {
    if te.event == Cleanup {
      CleanupRemovesExactlyExpired(s, te.now);
    }
  }

  ghost predicate EntryAsTraced<V>(c: Config, es: seq<Timed<V>>, key: string) {
    var s := Run(c, es).state;
    && (key in s.cache <==> Present(c, es, key))
    && (key in s.cache ==>
          && s.cache[key].expiresAt == LatestExpiry(c, es, key)
          && s.cache[key].accessCount == HitsSinceSet(c, es, key))
  }

  lemma StoreKeepsTrace<V>(c: Config, es: seq<Timed<V>>, key: string)
    requires es != [] && EntryAsTraced(c, es[..|es| - 1], key) && es[|es| - 1].event.Set?
    ensures EntryAsTraced(c, es, key)
  {
    var init, te := es[..|es| - 1], es[|es| - 1];
    StoreOnEntry(c, Run(c, init).state, te, key);
    if key in Run(c, init).state.cache {
      EvictsIff(c, init, key);
    }
  }

  lemma LookupKeepsTrace<V>(c: Config, es: seq<Timed<V>>, key: string)
    requires es != [] && EntryAsTraced(c, es[..|es| - 1], key) && es[|es| - 1].event.Get?
    ensures EntryAsTraced(c, es, key)
  {
    LookupOnEntry(c, Run(c, es[..|es| - 1]).state, es[|es| - 1], key);
  }

  lemma OtherKeepsTrace<V>(c: Config, es: seq<Timed<V>>, key: string)
    requires es != [] && EntryAsTraced(c, es[..|es| - 1], key)
    requires !es[|es| - 1].event.Set? && !es[|es| - 1].event.Get?
    ensures EntryAsTraced(c, es, key)
  {
    OtherOnEntry(c, Run(c, es[..|es| - 1]).state, es[|es| - 1], key);
  }

  /**
    On every run, exactly those keys are resident that were set and since then not removed, evicted or found expired;
    each expires when its latest set, hit or new lifetime says, and counts its hits since it was set.
   */
  lemma {:induction false} EntriesFollowTrace<V>(c: Config, es: seq<Timed<V>>, key: string)
    ensures EntryAsTraced(c, es, key)
  {
    if es != [] {
      EntriesFollowTrace(c, es[..|es| - 1], key);
      match es[|es| - 1].event
      case Set(_, _, _) => StoreKeepsTrace(c, es, key);
      case Get(_) => LookupKeepsTrace(c, es, key);
      case _ => OtherKeepsTrace(c, es, key);
    }
  }

  /** When `key` last became resident: the number of the store that added it. */
  function InsertedAt<V>(c: Config, es: seq<Timed<V>>, key: string): nat {
    if es == [] then 0
    else
      var init, te := es[..|es| - 1], es[|es| - 1];
      if te.event.Set? && te.event.key == key && key !in MadeRoom(c, Run(c, init).state).cache then |es|
      else InsertedAt(c, init, key)
  }

  ghost predicate Increasing(order: seq<string>, rank: string -> nat) {
    forall i, j :: 0 <= i < j < |order| ==> rank(order[i]) < rank(order[j])
  }

  lemma {:induction false} WithoutIncreases(order: seq<string>, key: string, rank: string -> nat)
    requires Increasing(order, rank)
    ensures Increasing(Without(order, key), rank)
  {
    if order != [] {
      var init, last := order[..|order| - 1], order[|order| - 1];
      WithoutIncreases(init, key, rank);
      var kept := Without(init, key);
      forall i | 0 <= i < |kept| ensures rank(kept[i]) < rank(last) {
        assert kept[i] in init;
        var j :| 0 <= j < |init| && init[j] == kept[i];
        assert order[j] == kept[i];
      }
    }
  }

  lemma {:induction false} CleanedIncreases<V>(s: State<V>, keys: seq<string>, now: int, rank: string -> nat)
    requires Valid(s) && Increasing(s.order, rank)
    ensures Increasing(CleanedKeys(s, keys, now).order, rank)
  {
    if keys != [] {
      var t := CleanedKeys(s, keys[..|keys| - 1], now);
      CleanedIncreases(s, keys[..|keys| - 1], now, rank);
      WithoutIncreases(t.order, keys[|keys| - 1], rank);
    }
  }

  /** One event keeps some of the keys in their order, and at most adds one at the end. */
  lemma StepOnOrder<V>(c: Config, s: State<V>, te: Timed<V>, rank: string -> nat) returns (kept: seq<string>)
    requires Valid(s) && Increasing(s.order, rank)
    ensures Increasing(kept, rank) && (te.event.Set? ==> kept == MadeRoom(c, s).order)
    ensures StateStep(c, s, te).order
         == if te.event.Set? && te.event.key !in MadeRoom(c, s).cache then kept + [te.event.key] else kept
  {
    kept := StateStep(c, s, te).order;
    match te.event
    case Set(key, _, _) =>
      kept := MadeRoom(c, s).order;
      if Victim(s).Some? {
        WithoutIncreases(s.order, Victim(s).value, rank);
      }
    case Get(key) => WithoutIncreases(s.order, key, rank);
    case Delete(key) => WithoutIncreases(s.order, key, rank);
    case Cleanup => CleanedIncreases(s, s.order, te.now, rank);
    case _ =>
  }

  lemma {:induction false} InsertedBefore<V>(c: Config, es: seq<Timed<V>>, key: string)
    ensures InsertedAt(c, es, key) <= |es|
  {
    if es != [] {
      InsertedBefore(c, es[..|es| - 1], key);
    }
  }

  /**
    On every run the keys are iterated in the order in which they last became resident, so that ties go to the first.
   */
  lemma {:induction false} IterationIsByInsertion<V>(c: Config, es: seq<Timed<V>>)
    ensures Increasing(Run(c, es).state.order, k => InsertedAt(c, es, k))
  {
    if es != [] {
      var init, te := es[..|es| - 1], es[|es| - 1];
      IterationIsByInsertion(c, init);
      var kept := StepOnOrder(c, Run(c, init).state, te, k => InsertedAt(c, init, k));
      KeptRanks(c, es, kept);
    }
  }

  /** A key that is there after making room keeps the number of its insertion, which is in the past. */
  lemma KeptRank<V>(c: Config, es: seq<Timed<V>>, key: string)
    requires es != []
    requires var init, te := es[..|es| - 1], es[|es| - 1];
      te.event.Set? ==> key in MadeRoom(c, Run(c, init).state).cache
    ensures InsertedAt(c, es, key) == InsertedAt(c, es[..|es| - 1], key) < |es|
  {
    InsertedBefore(c, es[..|es| - 1], key);
  }

  lemma KeptRanks<V>(c: Config, es: seq<Timed<V>>, kept: seq<string>)
    requires es != []
    requires var init, te := es[..|es| - 1], es[|es| - 1];
      && Increasing(kept, k => InsertedAt(c, init, k))
      && (te.event.Set? ==> kept == MadeRoom(c, Run(c, init).state).order)
    ensures Increasing(kept, k => InsertedAt(c, es, k))
    ensures var te := es[|es| - 1];
      te.event.Set? && te.event.key !in MadeRoom(c, Run(c, es[..|es| - 1]).state).cache ==>
        Increasing(kept + [te.event.key], k => InsertedAt(c, es, k))
  {
    forall i | 0 <= i < |kept|
      ensures InsertedAt(c, es, kept[i]) == InsertedAt(c, es[..|es| - 1], kept[i]) < |es|
    {
      assert kept[i] in kept;
      KeptRank(c, es, kept[i]);
    }
  }
}
