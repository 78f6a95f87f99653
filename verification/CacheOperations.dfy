/** What each operation of the validation cache answers and leaves behind, and what all of them keep. */
module CacheOperations {
  import opened Prelude
  import opened Sorting
  import opened CacheEntries

  // ----- what the operations do -----

  function Get(cfg: Config, c: Cache, key: Key, now: real): (Cache, Value) {
    if !cfg.enabled then (c, Null)
    else
      match Find(c.entries, key)
      case None => (c, Null)
      case Some(i) =>
        var e := c.entries[i];
        if Expired(e, now) then (c.(entries := WithoutKeys(c.entries, {key})), Null)
        else (Touched(c, i), e.value)
  }

  function Touched(c: Cache, i: nat): Cache
    requires i < |c.entries|
  {
    var e := c.entries[i];
    Cache(c.entries[i := e.(accessed := c.clock + 1, accessCount := e.accessCount + 1)], c.clock + 1)
  }

  /** A tenth of the entries, rounded up */
  function Tenth(n: nat): nat {
    CeilDiv(n, 10)
  }

  /** What is left once the memory check has evicted what it would */
  function MakeRoom(cfg: Config, entries: seq<Entry>, size: nat): seq<Entry> {
    if Memory(entries) + size > cfg.memoryLimit then Evict(entries, cfg.strategy, Tenth(|entries|)) else entries
  }

  /** Making room by count, once the memory check has passed */
  function Slim(cfg: Config, others: seq<Entry>): seq<Entry> {
    if |others| >= cfg.maxSize then Evict(others, cfg.strategy, 1) else others
  }

  /** The entry that set makes, with the next stamp of the clock */
  function NewEntry(cfg: Config, c: Cache, key: Key, value: Value, ttl: Option<real>, size: nat, now: real): Entry {
    Entry(key, value, ttl.GetOr(cfg.defaultTTL), now, c.clock + 1, 1, size)
  }

  function Stored(cfg: Config, c: Cache, e: Entry): Cache {
    Cache(Slim(cfg, WithoutKeys(MakeRoom(cfg, c.entries, e.size), {e.key})) + [e], e.accessed)
  }

  predicate Fits(cfg: Config, c: Cache, size: nat) {
    Memory(MakeRoom(cfg, c.entries, size)) + size <= cfg.memoryLimit
  }

  function Set(cfg: Config, c: Cache, key: Key, value: Value, ttl: Option<real>, size: nat, now: real): (Cache, bool) {
    if !cfg.enabled then (c, false)
    else if !Fits(cfg, c, size) then (c.(entries := MakeRoom(cfg, c.entries, size)), false)
    else (Stored(cfg, c, NewEntry(cfg, c, key, value, ttl, size, now)), true)
  }

  function Delete(c: Cache, key: Key): (Cache, bool) {
    (c.(entries := WithoutKeys(c.entries, {key})), HasKey(c.entries, key))
  }

  function Has(cfg: Config, c: Cache, key: Key, now: real): (Cache, bool) {
    if !cfg.enabled then (c, false)
    else
      match Find(c.entries, key)
      case None => (c, false)
      case Some(i) => if Expired(c.entries[i], now) then (Delete(c, key).0, false) else (c, true)
  }

  /** The clock runs on. */
  function Clear(c: Cache): Cache {
    c.(entries := [])
  }

  function CollectGarbage(c: Cache, now: real): Cache {
    c.(entries := WithoutKeys(c.entries, ExpiredKeys(c.entries, now)))
  }

  /** That is the least number of entries that is at least a tenth of them. */
  lemma {:induction false} TenthIsLeast(n: nat, k: nat)
    ensures Tenth(n) <= k <==> n <= 10 * k
  {
  }

  // ----- what they keep -----

  lemma RemovalKeepsInv(cfg: Config, c: Cache, keys: set<Key>)
    requires Inv(cfg, c)
    ensures Inv(cfg, c.(entries := WithoutKeys(c.entries, keys)))
  {
    DistinctKeysSurvive(c.entries, keys);
    StampsSurvive(c.entries, keys, c.clock);
    WithoutKeysShrinks(c.entries, keys);
  }

  lemma {:induction false} TouchKeepsMemory(entries: seq<Entry>, i: nat, e: Entry)
    requires i < |entries| && e.size == entries[i].size
    ensures Memory(entries[i := e]) == Memory(entries)
  {
    var init := entries[..|entries| - 1];
    if i == |entries| - 1 {
      assert entries[i := e][..|entries| - 1] == init;
    } else {
      assert entries[i := e][..|entries| - 1] == init[i := e];
      TouchKeepsMemory(init, i, e);
    }
  }

  lemma GetKeepsInv(cfg: Config, c: Cache, key: Key, now: real)
    requires Inv(cfg, c)
    ensures Inv(cfg, Get(cfg, c, key, now).0)
  {
    var found := Find(c.entries, key);
    if found.Some? {
      var i := found.value;
      var e := c.entries[i];
      if Expired(e, now) {
        RemovalKeepsInv(cfg, c, {key});
      } else {
        TouchKeepsMemory(c.entries, i, e.(accessed := c.clock + 1, accessCount := e.accessCount + 1));
      }
    }
  }

  lemma EvictKeepsInv(cfg: Config, c: Cache, count: nat)
    requires Inv(cfg, c)
    ensures Inv(cfg, c.(entries := Evict(c.entries, cfg.strategy, count)))
  {
    RemovalKeepsInv(cfg, c, KeysOf(Take(EvictionOrder(c.entries, cfg.strategy), count)));
  }

  lemma SlimMakesRoom(cfg: Config, c: Cache)
    requires Inv(cfg, c)
    ensures Inv(cfg, c.(entries := Slim(cfg, c.entries)))
    ensures |Slim(cfg, c.entries)| < MaxInt(1, cfg.maxSize)
    ensures Memory(Slim(cfg, c.entries)) <= Memory(c.entries)
    ensures forall e | e in Slim(cfg, c.entries) :: e in c.entries
  {
    var victims := KeysOf(Take(EvictionOrder(c.entries, cfg.strategy), 1));
    EvictKeepsInv(cfg, c, 1);
    WithoutKeysShrinks(c.entries, victims);
    WithoutKeysMembers(c.entries, victims);
    if c.entries != [] { EvictOne(c.entries, cfg.strategy); }
  }

  lemma SlimIsSubset(cfg: Config, entries: seq<Entry>)
    ensures forall e | e in Slim(cfg, entries) :: e in entries
  {
    WithoutKeysMembers(entries, KeysOf(Take(EvictionOrder(entries, cfg.strategy), 1)));
  }

  lemma SlimIsOthers(cfg: Config, entries: seq<Entry>, key: Key)
    ensures !HasKey(Slim(cfg, WithoutKeys(entries, {key})), key)
  {
    var slim := Slim(cfg, WithoutKeys(entries, {key}));
    SlimIsSubset(cfg, WithoutKeys(entries, {key}));
    WithoutKeysMembers(entries, {key});
    forall i | 0 <= i < |slim| ensures slim[i].key != key {
      assert slim[i] in slim;
    }
  }

  lemma StoreKeepsInv(cfg: Config, c: Cache, e: Entry)
    requires Inv(cfg, c) && e.accessed == c.clock + 1 && Memory(c.entries) + e.size <= cfg.memoryLimit
    ensures Inv(cfg, Cache(Slim(cfg, WithoutKeys(c.entries, {e.key})) + [e], e.accessed))
  {
    RemovalKeepsInv(cfg, c, {e.key});
    WithoutKeysShrinks(c.entries, {e.key});
    WithoutKeysMembers(c.entries, {e.key});
    var others := c.(entries := WithoutKeys(c.entries, {e.key}));
    SlimMakesRoom(cfg, others);
    SnocKeepsInv(cfg, others.(entries := Slim(cfg, others.entries)), e);
  }

  lemma StoredKeepsInv(cfg: Config, c: Cache, e: Entry)
    requires Inv(cfg, c) && e.accessed == c.clock + 1 && Fits(cfg, c, e.size)
    ensures Inv(cfg, Stored(cfg, c, e))
  {
    RoomKeepsInv(cfg, c, e.size);
    StoreKeepsInv(cfg, c.(entries := MakeRoom(cfg, c.entries, e.size)), e);
  }

  lemma SetKeepsInv(cfg: Config, c: Cache, key: Key, value: Value, ttl: Option<real>, size: nat, now: real)
    requires Inv(cfg, c)
    ensures Inv(cfg, Set(cfg, c, key, value, ttl, size, now).0)
  {
    RoomKeepsInv(cfg, c, size);
    if Fits(cfg, c, size) { StoredKeepsInv(cfg, c, NewEntry(cfg, c, key, value, ttl, size, now)); }
  }

  lemma RoomKeepsInv(cfg: Config, c: Cache, size: nat)
    requires Inv(cfg, c)
    ensures Inv(cfg, c.(entries := MakeRoom(cfg, c.entries, size)))
  {
    if Memory(c.entries) + size > cfg.memoryLimit { EvictKeepsInv(cfg, c, Tenth(|c.entries|)); }
  }

  lemma {:induction false} SnocKeepsInv(cfg: Config, c: Cache, e: Entry)
    requires Inv(cfg, c) && e.accessed == c.clock + 1 && (forall f | f in c.entries :: f.key != e.key)
    requires Memory(c.entries) + e.size <= cfg.memoryLimit
    requires |c.entries| < MaxInt(1, cfg.maxSize)
    ensures Inv(cfg, Cache(c.entries + [e], e.accessed))
  {
    MemorySnoc(c.entries, e);
  }

  /** What was stored is what is read back, until it has outlived its TTL. */
  lemma {:induction false} SetThenGet(cfg: Config, c: Cache, key: Key, value: Value, ttl: Option<real>, size: nat, stored: real, now: real)
    requires Set(cfg, c, key, value, ttl, size, stored).1
    ensures var lifetime := ttl.GetOr(cfg.defaultTTL);
      Get(cfg, Set(cfg, c, key, value, ttl, size, stored).0, key, now).1
      == if lifetime > 0.0 && now > stored + lifetime * 1000.0 then Null else value
  {
    var e := NewEntry(cfg, c, key, value, ttl, size, stored);
    var entries := Stored(cfg, c, e).entries;
    assert entries[|entries| - 1] == e;
  }

  /** Garbage collection keeps exactly the entries without a TTL or within it. */
  lemma {:induction false} GarbageIsExpired(c: Cache, now: real, e: Entry)
    requires DistinctKeys(c.entries)
    ensures e in CollectGarbage(c, now).entries <==> e in c.entries && (e.ttl <= 0.0 || now <= e.created + e.ttl * 1000.0)
  {
    WithoutKeysMembers(c.entries, ExpiredKeys(c.entries, now));
    if e in c.entries && e.key in ExpiredKeys(c.entries, now) {
      var f :| f in c.entries && Expired(f, now) && f.key == e.key;
      SameKeySameEntry(c.entries, e, f);
    }
  }

  // ----- the tracking maps -----

  /** One figure of each entry, by key */
  function Tracking(entries: seq<Entry>, figure: Entry -> nat): map<Key, nat> {
    if entries == [] then map[]
    else
      var last := entries[|entries| - 1];
      Tracking(entries[..|entries| - 1], figure)[last.key := figure(last)]
  }

  function Accessed(e: Entry): nat {
    e.accessed
  }

  function AccessCount(e: Entry): nat {
    e.accessCount
  }

  ghost predicate Consistent(cfg: Config, c: Cache, order: map<Key, nat>, count: map<Key, nat>, usage: int) {
    && Inv(cfg, c)
    && usage == Memory(c.entries)
    && order == Tracking(c.entries, Accessed)
    && count == Tracking(c.entries, AccessCount)
  }

  /** A tracking map has the keys of the entries, and for each the figure its entry has. */
  lemma {:induction false} TrackingMirrors(entries: seq<Entry>, figure: Entry -> nat)
    requires DistinctKeys(entries)
    ensures forall k :: k in Tracking(entries, figure) <==> HasKey(entries, k)
    ensures forall i | 0 <= i < |entries| ::
      entries[i].key in Tracking(entries, figure) && Tracking(entries, figure)[entries[i].key] == figure(entries[i])
  {
    if entries != [] {
      var n := |entries| - 1;
      TrackingMirrors(entries[..n], figure);
      assert forall i | 0 <= i < n :: entries[..n][i] == entries[i];
      forall k ensures k in Tracking(entries, figure) <==> HasKey(entries, k) {
        HasKeySnoc(entries, k);
      }
    }
  }

  lemma HasKeySnoc(entries: seq<Entry>, k: Key)
    requires entries != []
    ensures HasKey(entries, k) <==> HasKey(entries[..|entries| - 1], k) || entries[|entries| - 1].key == k
  {
    var init := entries[..|entries| - 1];
    if HasKey(init, k) {
      var i :| 0 <= i < |init| && init[i].key == k;
      assert entries[i].key == k;
    }
    if HasKey(entries, k) {
      var i :| 0 <= i < |entries| && entries[i].key == k;
      assert i < |init| ==> init[i].key == k;
    }
  }

  lemma UpdateThenRemove(m: map<Key, nat>, k: Key, v: nat, key: Key)
    ensures m[k := v] - {key} == if k == key then m - {key} else (m - {key})[k := v]
  {
  }

  lemma {:induction false} TrackingAfterRemoval(entries: seq<Entry>, figure: Entry -> nat, key: Key)
    ensures Tracking(WithoutKeys(entries, {key}), figure) == Tracking(entries, figure) - {key}
  {
    if entries != [] {
      var init, last := entries[..|entries| - 1], entries[|entries| - 1];
      var rest := WithoutKeys(init, {key});
      TrackingAfterRemoval(init, figure, key);
      UpdateThenRemove(Tracking(init, figure), last.key, figure(last), key);
      TrackingSnoc(rest, figure, last);
      assert WithoutKeys(entries, {key}) == if last.key == key then rest else rest + [last];
    }
  }

  lemma {:induction false} TrackingSnoc(entries: seq<Entry>, figure: Entry -> nat, e: Entry)
    ensures Tracking(entries + [e], figure) == Tracking(entries, figure)[e.key := figure(e)]
  {
    assert (entries + [e])[..|entries|] == entries;
  }

  lemma {:induction false} TrackingAfterTouch(entries: seq<Entry>, figure: Entry -> nat, i: nat, e: Entry)
    requires i < |entries| && DistinctKeys(entries) && e.key == entries[i].key
    ensures Tracking(entries[i := e], figure) == Tracking(entries, figure)[e.key := figure(e)]
  {
    var n := |entries| - 1;
    if i == n {
      assert entries[i := e][..n] == entries[..n];
    } else {
      assert entries[i := e][..n] == entries[..n][i := e];
      TrackingAfterTouch(entries[..n], figure, i, e);
    }
  }

  /** Removing victims one by one */
  lemma RemoveNext(entries: seq<Entry>, victims: seq<Entry>, i: nat)
    requires i < |victims|
    ensures WithoutKeys(WithoutKeys(entries, KeysOf(victims[..i])), {victims[i].key}) == WithoutKeys(entries, KeysOf(victims[..i + 1]))
  {
    RemoveTwice(entries, KeysOf(victims[..i]), {victims[i].key});
    assert victims[..i + 1] == victims[..i] + [victims[i]];
    assert KeysOf(victims[..i + 1]) == KeysOf(victims[..i]) + {victims[i].key};
  }

  lemma {:induction false} RemoveEnds(entries: seq<Entry>, victims: seq<Entry>)
    ensures WithoutKeys(entries, KeysOf(victims[..0])) == entries
    ensures WithoutKeys(entries, KeysOf(victims[..|victims|])) == WithoutKeys(entries, KeysOf(victims))
  {
    RemoveAbsent(entries, KeysOf(victims[..0]));
    assert victims[..|victims|] == victims;
  }

  // ----- how many are evicted -----

  lemma {:induction false} DistinctEntriesOnce(entries: seq<Entry>, e: Entry)
    requires DistinctKeys(entries)
    ensures multiset(entries)[e] <= 1
  {
    if entries != [] {
      var init, last := entries[..|entries| - 1], entries[|entries| - 1];
      DistinctEntriesOnce(init, e);
      assert entries == init + [last];
      if e == last { assert e !in init; }
    }
  }

  /** The eviction order is a rearrangement, so its keys are distinct as well. */
  lemma {:induction false} OrderIsDistinct(entries: seq<Entry>, strategy: Strategy)
    requires DistinctKeys(entries)
    ensures DistinctKeys(EvictionOrder(entries, strategy))
  {
    var order := EvictionOrder(entries, strategy);
    StableSortFacts(entries, EvictionKey(strategy));
    EvictionOrderMembers(entries, strategy);
    forall i, j | 0 <= i < j < |order| ensures order[i].key != order[j].key {
      assert order[i] in entries && order[j] in entries;
      if order[i].key == order[j].key {
        SameKeySameEntry(entries, order[i], order[j]);
        TwiceInOrder(order, i, j);
        DistinctEntriesOnce(entries, order[i]);
      }
    }
  }

  lemma TwiceInOrder(entries: seq<Entry>, i: nat, j: nat)
    requires i < j < |entries| && entries[i] == entries[j]
    ensures multiset(entries)[entries[i]] >= 2
  {
    assert entries == entries[..j] + entries[j..];
    assert entries[i] in entries[..j] && entries[j] in entries[j..] by {
      assert entries[..j][i] == entries[i] && entries[j..][0] == entries[j];
    }
  }

  /** A victim is still there while only others have gone, and then takes one entry with it. */
  lemma NextRemoval(entries: seq<Entry>, victims: seq<Entry>, i: nat)
    requires DistinctKeys(entries) && DistinctKeys(victims) && i < |victims| && victims[i] in entries
    ensures |WithoutKeys(entries, KeysOf(victims[..i + 1]))| == |WithoutKeys(entries, KeysOf(victims[..i]))| - 1
  {
    var rest, victim := WithoutKeys(entries, KeysOf(victims[..i])), victims[i];
    DistinctKeysSurvive(entries, KeysOf(victims[..i]));
    assert victim in rest by {
      WithoutKeysMembers(entries, KeysOf(victims[..i]));
      assert victim.key !in KeysOf(victims[..i]);
    }
    var k :| 0 <= k < |rest| && rest[k] == victim;
    RemoveOne(rest, k);
    RemoveNext(entries, victims, i);
  }

  /** Removing entries with distinct keys one by one removes that many. */
  lemma {:induction false} RemovalCount(entries: seq<Entry>, victims: seq<Entry>, n: nat)
    requires DistinctKeys(entries) && DistinctKeys(victims) && n <= |victims|
    requires forall i | 0 <= i < |victims| :: victims[i] in entries
    ensures |WithoutKeys(entries, KeysOf(victims[..n]))| == |entries| - n
  {
    if n == 0 {
      RemoveEnds(entries, victims);
    } else {
      RemovalCount(entries, victims, n - 1);
      NextRemoval(entries, victims, n - 1);
    }
  }

  /** Under every strategy exactly as many entries go as were asked for, or all there are. */
  lemma {:induction false} EvictCount(entries: seq<Entry>, strategy: Strategy, count: nat)
    requires DistinctKeys(entries)
    ensures |Evict(entries, strategy, count)| == if count < |entries| then |entries| - count else 0
  {
    var order := EvictionOrder(entries, strategy);
    var n := if count < |order| then count else |order|;
    EvictionOrderMembers(entries, strategy);
    OrderIsDistinct(entries, strategy);
    RemovalCount(entries, order, n);
    assert Take(order, count) == order[..n];
  }
}
