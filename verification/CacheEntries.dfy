/** The entries of the validation cache, in the insertion order of the Map that holds them. */
module CacheEntries {
  import opened Prelude
  import opened Sorting

  /** A key stands for its hash, which is taken to be injective. */
  type Key = string

  /** Null is a miss as well as a value; the other falsy values are not told apart. */
  datatype Value = Null | Falsy | Verdict(success: bool, detail: string)

  /** `ttl` in seconds, `created` in milliseconds; `accessed` is a stamp of the access clock. */
  datatype Entry = Entry(key: Key, value: Value, ttl: real, created: real, accessed: nat, accessCount: nat, size: nat)

  /** Unknown strategies fall back to LRU. */
  datatype Strategy = LRU | LFU | FIFO | Unknown

  predicate Expired(e: Entry, now: real) {
    e.ttl > 0.0 && now > e.created + e.ttl * 1000.0
  }

  predicate HasKey(entries: seq<Entry>, key: Key) {
    exists i :: 0 <= i < |entries| && entries[i].key == key
  }

  /** Map.get */
  function Find(entries: seq<Entry>, key: Key): (index: Option<nat>)
    ensures index.Some? ==> index.value < |entries| && entries[index.value].key == key
    ensures index.Some? <==> HasKey(entries, key)
  {
    if entries == [] then None
    else if entries[|entries| - 1].key == key then Some(|entries| - 1)
    else
      assert forall i | 0 <= i < |entries| - 1 :: entries[..|entries| - 1][i] == entries[i];
      Find(entries[..|entries| - 1], key)
  }

  function Memory(entries: seq<Entry>): nat {
    if entries == [] then 0 else Memory(entries[..|entries| - 1]) + entries[|entries| - 1].size
  }

  /** What is left when the entries with these keys are removed. */
  function WithoutKeys(entries: seq<Entry>, keys: set<Key>): seq<Entry> {
    if entries == [] then []
    else
      var last := entries[|entries| - 1];
      WithoutKeys(entries[..|entries| - 1], keys) + if last.key in keys then [] else [last]
  }

  function KeysOf(entries: seq<Entry>): set<Key> {
    set e | e in entries :: e.key
  }

  function ExpiredKeys(entries: seq<Entry>, now: real): set<Key> {
    set e | e in entries && Expired(e, now) :: e.key
  }

  function Stamp(e: Entry): real {
    e.accessed as real
  }

  function Uses(e: Entry): real {
    e.accessCount as real
  }

  function Birth(e: Entry): real {
    e.created
  }

  function EvictionKey(strategy: Strategy): Entry -> real {
    match strategy
    case LFU => Uses
    case FIFO => Birth
    case _ => Stamp
  }

  /** The order in which entries are given up */
  function EvictionOrder(entries: seq<Entry>, strategy: Strategy): seq<Entry> {
    StableSort(entries, EvictionKey(strategy))
  }

  /** slice(0, count) */
  function Take(entries: seq<Entry>, count: nat): seq<Entry> {
    if count < |entries| then entries[..count] else entries
  }

  function Evict(entries: seq<Entry>, strategy: Strategy, count: nat): seq<Entry> {
    WithoutKeys(entries, KeysOf(Take(EvictionOrder(entries, strategy), count)))
  }

  ghost predicate DistinctKeys(entries: seq<Entry>) {
    forall i, j | 0 <= i < j < |entries| :: entries[i].key != entries[j].key
  }

  /** Stamps are distinct, and none is ahead of the clock. */
  ghost predicate Stamped(entries: seq<Entry>, clock: nat) {
    && (forall i, j | 0 <= i < j < |entries| :: entries[i].accessed != entries[j].accessed)
    && (forall i | 0 <= i < |entries| :: entries[i].accessed <= clock)
  }

  /** `maxSize` counts entries, `memoryLimit` bytes, `defaultTTL` seconds. */
  datatype Config = Config(enabled: bool, defaultTTL: real, maxSize: int, strategy: Strategy, memoryLimit: nat)

  datatype Cache = Cache(entries: seq<Entry>, clock: nat)

  const EMPTY := Cache([], 0)

  ghost predicate Inv(cfg: Config, c: Cache) {
    && DistinctKeys(c.entries)
    && Stamped(c.entries, c.clock)
    && Memory(c.entries) <= cfg.memoryLimit
    && |c.entries| <= MaxInt(1, cfg.maxSize)
  }

  // ----- removal -----

  lemma {:induction false} WithoutKeysMembers(entries: seq<Entry>, keys: set<Key>)
    ensures forall e :: e in WithoutKeys(entries, keys) <==> e in entries && e.key !in keys
  {
    if entries != [] {
      var init, last := entries[..|entries| - 1], entries[|entries| - 1];
      WithoutKeysMembers(init, keys);
      assert entries == init + [last];
    }
  }

  lemma {:induction false} WithoutKeysShrinks(entries: seq<Entry>, keys: set<Key>)
    ensures |WithoutKeys(entries, keys)| <= |entries|
    ensures Memory(WithoutKeys(entries, keys)) <= Memory(entries)
  {
    if entries != [] {
      var init, last := entries[..|entries| - 1], entries[|entries| - 1];
      WithoutKeysShrinks(init, keys);
      MemorySnoc(WithoutKeys(init, keys), last);
      assert WithoutKeys(init, keys) + [] == WithoutKeys(init, keys);
    }
  }

  lemma {:induction false} MemorySnoc(entries: seq<Entry>, e: Entry)
    ensures Memory(entries + [e]) == Memory(entries) + e.size
  {
    assert (entries + [e])[..|entries|] == entries;
  }

  ghost predicate Pairwise(entries: seq<Entry>, r: (Entry, Entry) -> bool) {
    forall i, j | 0 <= i < j < |entries| :: r(entries[i], entries[j])
  }

  /** What holds of each pair in order still does when some are gone. */
  lemma {:induction false} PairsSurvive(entries: seq<Entry>, keys: set<Key>, r: (Entry, Entry) -> bool)
    requires Pairwise(entries, r)
    ensures Pairwise(WithoutKeys(entries, keys), r)
  {
    if entries != [] {
      var n := |entries| - 1;
      var rest := WithoutKeys(entries[..n], keys);
      PairsSurvive(entries[..n], keys, r);
      WithoutKeysMembers(entries[..n], keys);
      forall i | 0 <= i < |rest| ensures r(rest[i], entries[n]) {
        assert rest[i] in entries[..n];
        var j :| 0 <= j < n && entries[j] == rest[i];
      }
    }
  }

  lemma DistinctKeysSurvive(entries: seq<Entry>, keys: set<Key>)
    requires DistinctKeys(entries)
    ensures DistinctKeys(WithoutKeys(entries, keys))
  {
    var r := (a: Entry, b: Entry) => a.key != b.key;
    PairsSurvive(entries, keys, r);
    var rest := WithoutKeys(entries, keys);
    assert forall i, j | 0 <= i < j < |rest| :: r(rest[i], rest[j]);
  }

  lemma StampsSurvive(entries: seq<Entry>, keys: set<Key>, clock: nat)
    requires Stamped(entries, clock)
    ensures Stamped(WithoutKeys(entries, keys), clock)
  {
    var r := (a: Entry, b: Entry) => a.accessed != b.accessed;
    PairsSurvive(entries, keys, r);
    var rest := WithoutKeys(entries, keys);
    assert forall i, j | 0 <= i < j < |rest| :: r(rest[i], rest[j]);
    WithoutKeysMembers(entries, keys);
    forall i | 0 <= i < |rest| ensures rest[i].accessed <= clock {
      assert rest[i] in entries;
    }
  }

  lemma RecencySurvives(entries: seq<Entry>, keys: set<Key>)
    requires StrictlySortedBy(entries, Stamp)
    ensures StrictlySortedBy(WithoutKeys(entries, keys), Stamp)
  {
    var r := (a: Entry, b: Entry) => Stamp(a) < Stamp(b);
    PairsSurvive(entries, keys, r);
    var rest := WithoutKeys(entries, keys);
    assert forall i, j | 0 <= i < j < |rest| :: r(rest[i], rest[j]);
  }

  lemma {:induction false} RemoveTwice(entries: seq<Entry>, a: set<Key>, b: set<Key>)
    ensures WithoutKeys(WithoutKeys(entries, a), b) == WithoutKeys(entries, a + b)
  {
    if entries != [] {
      var init, last := entries[..|entries| - 1], entries[|entries| - 1];
      RemoveTwice(init, a, b);
      var rest := WithoutKeys(init, a);
      assert (rest + [last])[..|rest|] == rest;
      assert rest + [] == rest;
    }
  }

  lemma {:induction false} RemoveAbsent(entries: seq<Entry>, keys: set<Key>)
    requires forall i | 0 <= i < |entries| :: entries[i].key !in keys
    ensures WithoutKeys(entries, keys) == entries
  {
    if entries != [] { RemoveAbsent(entries[..|entries| - 1], keys); }
  }

  /** Removing one present key removes one entry. */
  lemma {:induction false} RemoveOne(entries: seq<Entry>, i: nat)
    requires i < |entries| && DistinctKeys(entries)
    ensures |WithoutKeys(entries, {entries[i].key})| == |entries| - 1
    ensures Memory(WithoutKeys(entries, {entries[i].key})) == Memory(entries) - entries[i].size
  {
    var init, last := entries[..|entries| - 1], entries[|entries| - 1];
    if i == |entries| - 1 {
      RemoveAbsent(init, {last.key});
      assert init + [] == init;
    } else {
      RemoveOne(init, i);
      MemorySnoc(WithoutKeys(init, {init[i].key}), last);
    }
  }

  lemma LaterKeyIsNew(entries: seq<Entry>, n: nat)
    requires n < |entries| && DistinctKeys(entries)
    ensures entries[|entries| - 1].key !in KeysOf(entries[..n])
  {
    var first := entries[..n];
    forall e | e in first ensures e.key != entries[|entries| - 1].key {
      var i :| 0 <= i < n && first[i] == e;
      assert entries[i] == e;
    }
  }

  lemma {:induction false} DropFirst(entries: seq<Entry>, n: nat)
    requires n <= |entries| && DistinctKeys(entries)
    ensures WithoutKeys(entries, KeysOf(entries[..n])) == entries[n..]
  {
    var keys := KeysOf(entries[..n]);
    if n == |entries| {
      AllRemoved(entries, keys);
    } else {
      var init, last := entries[..|entries| - 1], entries[|entries| - 1];
      DropFirst(init, n);
      assert init[..n] == entries[..n];
      LaterKeyIsNew(entries, n);
      assert WithoutKeys(entries, keys) == WithoutKeys(init, keys) + [last];
      assert entries[n..] == init[n..] + [last];
    }
  }

  lemma {:induction false} AllRemoved(entries: seq<Entry>, keys: set<Key>)
    requires forall i | 0 <= i < |entries| :: entries[i].key in keys
    ensures WithoutKeys(entries, keys) == []
  {
    if entries != [] { AllRemoved(entries[..|entries| - 1], keys); }
  }

  // ----- eviction -----

  lemma EvictionOrderMembers(entries: seq<Entry>, strategy: Strategy)
    ensures |EvictionOrder(entries, strategy)| == |entries|
    ensures forall e :: e in EvictionOrder(entries, strategy) <==> e in entries
  {
    StableSortMembers(entries, EvictionKey(strategy));
  }

  /** Evicting one entry of a non-empty cache makes room for one. */
  lemma EvictOne(entries: seq<Entry>, strategy: Strategy)
    requires DistinctKeys(entries) && entries != []
    ensures |Evict(entries, strategy, 1)| == |entries| - 1
  {
    var order := EvictionOrder(entries, strategy);
    EvictionOrderMembers(entries, strategy);
    var victim := order[0];
    assert Take(order, 1) == [victim];
    assert KeysOf(Take(order, 1)) == {victim.key};
    assert victim in entries;
    var i :| 0 <= i < |entries| && entries[i] == victim;
    RemoveOne(entries, i);
  }

  /** Goes at or before, by the strategy's measure */
  predicate GoesFirst(strategy: Strategy, victim: Entry, survivor: Entry) {
    match strategy
    case LFU => victim.accessCount <= survivor.accessCount
    case FIFO => victim.created <= survivor.created
    case LRU => victim.accessed <= survivor.accessed
    case Unknown => victim.accessed <= survivor.accessed
  }

  /** No survivor should have gone before a victim: it was used more recently, or more often, or is younger. */
  lemma {:induction false} EvictsTheLeast(entries: seq<Entry>, strategy: Strategy, count: nat, victim: Entry, survivor: Entry)
    requires DistinctKeys(entries) && victim in entries && victim !in Evict(entries, strategy, count)
    requires survivor in Evict(entries, strategy, count)
    ensures GoesFirst(strategy, victim, survivor)
  {
    EvictsTheFirst(entries, strategy, count, victim, survivor);
  }

  lemma EvictsTheFirst(entries: seq<Entry>, strategy: Strategy, count: nat, victim: Entry, survivor: Entry)
    requires DistinctKeys(entries) && victim in entries && victim !in Evict(entries, strategy, count)
    requires survivor in Evict(entries, strategy, count)
    ensures EvictionKey(strategy)(victim) <= EvictionKey(strategy)(survivor)
  {
    var order := EvictionOrder(entries, strategy);
    assert forall e :: e in order <==> e in entries by { EvictionOrderMembers(entries, strategy); }
    assert SortedBy(order, EvictionKey(strategy)) by { StableSortFacts(entries, EvictionKey(strategy)); }
    WithoutKeysMembers(entries, KeysOf(Take(order, count)));
    var i := PlaceOf(entries, order, count, victim);
    var j := PlaceBeyond(order, count, survivor);
    assert i < j;
  }

  lemma PlaceBeyond(order: seq<Entry>, count: nat, survivor: Entry) returns (j: nat)
    requires survivor in order && survivor.key !in KeysOf(Take(order, count))
    ensures count <= j < |order| && order[j] == survivor
  {
    j :| 0 <= j < |order| && order[j] == survivor;
    var first := Take(order, count);
    assert forall k | 0 <= k < |first| :: order[k] == first[k] && first[k] in first;
  }

  lemma PlaceOf(entries: seq<Entry>, order: seq<Entry>, count: nat, victim: Entry) returns (i: nat)
    requires DistinctKeys(entries) && victim in entries && victim.key in KeysOf(Take(order, count))
    requires forall e | e in order :: e in entries
    ensures i < |order| && i < count && order[i] == victim
  {
    var first := Take(order, count);
    var e :| e in first && e.key == victim.key;
    i :| 0 <= i < |first| && first[i] == e;
    assert order[i] == e;
    SameKeySameEntry(entries, e, victim);
  }

  lemma {:induction false} SameKeySameEntry(entries: seq<Entry>, a: Entry, b: Entry)
    requires DistinctKeys(entries) && a in entries && b in entries && a.key == b.key
    ensures a == b
  {
    var i :| 0 <= i < |entries| && entries[i] == a;
    var j :| 0 <= j < |entries| && entries[j] == b;
    assert i == j;
  }
}
