/**
 * Under the LRU strategy the cache is a plain list, least recently used first: no stamps, no
 * counts, no sorting. Every run of operations gives the same answers and loses the same entries.
 */
module CacheRecency {
  import opened Prelude
  import opened Sorting
  import opened CacheEntries
  import opened CacheOperations

  // ----- the list -----

  /** An entry of the list carries no stamp and no count. */
  function Plain(e: Entry): Entry {
    e.(accessed := 0, accessCount := 0)
  }

  function ListGet(cfg: Config, list: seq<Entry>, key: Key, now: real): (seq<Entry>, Value) {
    if !cfg.enabled then (list, Null)
    else
      match Find(list, key)
      case None => (list, Null)
      case Some(i) =>
        if Expired(list[i], now) then (WithoutKeys(list, {key}), Null)
        else (WithoutKeys(list, {key}) + [list[i]], list[i].value)
  }

  function Drop(list: seq<Entry>, n: nat): seq<Entry> {
    if n < |list| then list[n..] else []
  }

  function ListRoom(cfg: Config, list: seq<Entry>, size: nat): seq<Entry> {
    if Memory(list) + size > cfg.memoryLimit then Drop(list, Tenth(|list|)) else list
  }

  function ListSlim(cfg: Config, list: seq<Entry>): seq<Entry> {
    if |list| >= cfg.maxSize then Drop(list, 1) else list
  }

  function ListStored(cfg: Config, list: seq<Entry>, e: Entry): seq<Entry> {
    ListSlim(cfg, WithoutKeys(ListRoom(cfg, list, e.size), {e.key})) + [e]
  }

  function ListSet(cfg: Config, list: seq<Entry>, key: Key, value: Value, ttl: Option<real>, size: nat, now: real): (seq<Entry>, bool) {
    if !cfg.enabled then (list, false)
    else if Memory(ListRoom(cfg, list, size)) + size > cfg.memoryLimit then (ListRoom(cfg, list, size), false)
    else (ListStored(cfg, list, Entry(key, value, ttl.GetOr(cfg.defaultTTL), now, 0, 0, size)), true)
  }

  function ListHas(cfg: Config, list: seq<Entry>, key: Key, now: real): (seq<Entry>, bool) {
    if !cfg.enabled then (list, false)
    else
      match Find(list, key)
      case None => (list, false)
      case Some(i) => if Expired(list[i], now) then (WithoutKeys(list, {key}), false) else (list, true)
  }

  // ----- runs -----

  datatype Op =
    | GetOp(key: Key)
    | SetOp(key: Key, value: Value, ttl: Option<real>, size: nat)
    | DeleteOp(key: Key)
    | HasOp(key: Key)
    | ClearOp
    | CollectOp

  datatype Answer = Got(value: Value) | Said(yes: bool) | Nothing

  function CacheStep(cfg: Config, c: Cache, op: Op, now: real): (Cache, Answer) {
    match op
    case GetOp(key) =>
      var r := Get(cfg, c, key, now);
      (r.0, Got(r.1))
    case SetOp(key, value, ttl, size) =>
      var r := Set(cfg, c, key, value, ttl, size, now);
      (r.0, Said(r.1))
    case DeleteOp(key) => (Delete(c, key).0, Said(Delete(c, key).1))
    case HasOp(key) =>
      var r := Has(cfg, c, key, now);
      (r.0, Said(r.1))
    case ClearOp => (Clear(c), Nothing)
    case CollectOp => (CollectGarbage(c, now), Nothing)
  }

  function ListStep(cfg: Config, list: seq<Entry>, op: Op, now: real): (seq<Entry>, Answer) {
    match op
    case GetOp(key) =>
      var r := ListGet(cfg, list, key, now);
      (r.0, Got(r.1))
    case SetOp(key, value, ttl, size) =>
      var r := ListSet(cfg, list, key, value, ttl, size, now);
      (r.0, Said(r.1))
    case DeleteOp(key) => (WithoutKeys(list, {key}), Said(HasKey(list, key)))
    case HasOp(key) =>
      var r := ListHas(cfg, list, key, now);
      (r.0, Said(r.1))
    case ClearOp => ([], Nothing)
    case CollectOp => (WithoutKeys(list, ExpiredKeys(list, now)), Nothing)
  }

  /** Operations with the times they run at, in any order of times */
  type Ops = seq<(Op, real)>

  function CacheRun(cfg: Config, ops: Ops): (Cache, seq<Answer>) {
    if ops == [] then (EMPTY, [])
    else
      var before, last := CacheRun(cfg, ops[..|ops| - 1]), ops[|ops| - 1];
      var r := CacheStep(cfg, before.0, last.0, last.1);
      (r.0, before.1 + [r.1])
  }

  function ListRun(cfg: Config, ops: Ops): (seq<Entry>, seq<Answer>) {
    if ops == [] then ([], [])
    else
      var before, last := ListRun(cfg, ops[..|ops| - 1]), ops[|ops| - 1];
      var r := ListStep(cfg, before.0, last.0, last.1);
      (r.0, before.1 + [r.1])
  }

  // ----- the list a cache stands for -----

  function Plains(entries: seq<Entry>): seq<Entry> {
    seq(|entries|, i requires 0 <= i < |entries| => Plain(entries[i]))
  }

  function Recency(entries: seq<Entry>): seq<Entry> {
    Plains(StableSort(entries, Stamp))
  }

  lemma {:induction false} PlainsWithout(entries: seq<Entry>, keys: set<Key>)
    ensures Plains(WithoutKeys(entries, keys)) == WithoutKeys(Plains(entries), keys)
  {
    if entries != [] {
      var init, last := entries[..|entries| - 1], entries[|entries| - 1];
      PlainsWithout(init, keys);
      assert Plains(entries)[..|entries| - 1] == Plains(init);
      assert WithoutKeys(init, keys) + [] == WithoutKeys(init, keys);
    }
  }

  lemma {:induction false} PlainsMemory(entries: seq<Entry>)
    ensures Memory(Plains(entries)) == Memory(entries)
  {
    if entries != [] {
      PlainsMemory(entries[..|entries| - 1]);
      assert Plains(entries)[..|entries| - 1] == Plains(entries[..|entries| - 1]);
    }
  }

  lemma SortIsStrict(entries: seq<Entry>, clock: nat)
    requires Stamped(entries, clock)
    ensures StrictlySortedBy(StableSort(entries, Stamp), Stamp)
    ensures forall e :: e in StableSort(entries, Stamp) <==> e in entries
    ensures |StableSort(entries, Stamp)| == |entries|
  {
    assert DistinctBy(entries, Stamp);
    DistinctKeysSortStrictly(entries, Stamp);
    StableSortMembers(entries, Stamp);
  }

  /** Removal and sorting commute. */
  lemma {:induction false} SortWithout(entries: seq<Entry>, keys: set<Key>, clock: nat)
    requires Stamped(entries, clock)
    ensures StableSort(WithoutKeys(entries, keys), Stamp) == WithoutKeys(StableSort(entries, Stamp), keys)
  {
    SortIsStrict(entries, clock);
    StampsSurvive(entries, keys, clock);
    SortIsStrict(WithoutKeys(entries, keys), clock);
    RecencySurvives(StableSort(entries, Stamp), keys);
    WithoutKeysMembers(entries, keys);
    WithoutKeysMembers(StableSort(entries, Stamp), keys);
    StrictOrderIsUnique(StableSort(WithoutKeys(entries, keys), Stamp), WithoutKeys(StableSort(entries, Stamp), keys), Stamp);
  }

  lemma RecencyWithout(entries: seq<Entry>, keys: set<Key>, clock: nat)
    requires Stamped(entries, clock)
    ensures Recency(WithoutKeys(entries, keys)) == WithoutKeys(Recency(entries), keys)
  {
    SortWithout(entries, keys, clock);
    PlainsWithout(StableSort(entries, Stamp), keys);
  }

  lemma SortSnoc(entries: seq<Entry>, e: Entry, clock: nat)
    requires Stamped(entries, clock) && e.accessed > clock
    ensures StableSort(entries + [e], Stamp) == StableSort(entries, Stamp) + [e]
  {
    assert (entries + [e])[..|entries|] == entries;
    var order := StableSort(entries, Stamp);
    SortIsStrict(entries, clock);
    if order == [] {
      assert order + [e] == [e];
    } else {
      var last := order[|order| - 1];
      assert last in entries;
      var i :| 0 <= i < |entries| && entries[i] == last;
    }
  }

  /** A new stamp goes to the end. */
  lemma RecencySnoc(entries: seq<Entry>, e: Entry, clock: nat)
    requires Stamped(entries, clock) && e.accessed > clock
    ensures Recency(entries + [e]) == Recency(entries) + [Plain(e)]
  {
    SortSnoc(entries, e, clock);
  }

  lemma SortDistinct(entries: seq<Entry>, clock: nat)
    requires DistinctKeys(entries) && Stamped(entries, clock)
    ensures DistinctKeys(StableSort(entries, Stamp))
  {
    SortIsStrict(entries, clock);
    var order := StableSort(entries, Stamp);
    forall i, j | 0 <= i < j < |order| ensures order[i].key != order[j].key {
      assert order[i] in entries && order[j] in entries;
      assert Stamp(order[i]) < Stamp(order[j]);
      if order[i].key == order[j].key { SameKeySameEntry(entries, order[i], order[j]); }
    }
  }

  lemma SortEvict(entries: seq<Entry>, n: nat, clock: nat)
    requires DistinctKeys(entries) && Stamped(entries, clock) && n <= |StableSort(entries, Stamp)|
    ensures var order := StableSort(entries, Stamp); StableSort(WithoutKeys(entries, KeysOf(order[..n])), Stamp) == order[n..]
  {
    var order := StableSort(entries, Stamp);
    SortDistinct(entries, clock);
    DropFirst(order, n);
    SortWithout(entries, KeysOf(order[..n]), clock);
  }

  /** The LRU victims are the head of the list. */
  lemma {:induction false} RecencyEvict(entries: seq<Entry>, strategy: Strategy, count: nat, clock: nat)
    requires DistinctKeys(entries) && Stamped(entries, clock) && (strategy == LRU || strategy == Unknown)
    ensures Recency(Evict(entries, strategy, count)) == Drop(Recency(entries), count)
  {
    var order := StableSort(entries, Stamp);
    assert EvictionOrder(entries, strategy) == order;
    var n := if count < |order| then count else |order|;
    assert Take(order, count) == order[..n];
    SortEvict(entries, n, clock);
    PlainsDrop(order, n);
  }

  lemma {:induction false} PlainsDrop(entries: seq<Entry>, n: nat)
    requires n <= |entries|
    ensures Plains(entries[n..]) == Plains(entries)[n..]
  {
  }

  lemma {:induction false} InsertMemory(entries: seq<Entry>, e: Entry, key: Entry -> real)
    ensures Memory(Insert(entries, e, key)) == Memory(entries) + e.size
  {
    MemorySnoc(entries, e);
    if entries != [] && key(e) < key(entries[|entries| - 1]) {
      InsertMemory(entries[..|entries| - 1], e, key);
      MemorySnoc(Insert(entries[..|entries| - 1], e, key), entries[|entries| - 1]);
    } else {
      assert entries == [] ==> entries + [e] == [e];
    }
  }

  lemma {:induction false} SortMemory(entries: seq<Entry>)
    ensures Memory(StableSort(entries, Stamp)) == Memory(entries)
  {
    if entries != [] {
      SortMemory(entries[..|entries| - 1]);
      InsertMemory(StableSort(entries[..|entries| - 1], Stamp), entries[|entries| - 1], Stamp);
    }
  }

  lemma RecencySize(entries: seq<Entry>, clock: nat)
    requires Stamped(entries, clock)
    ensures Memory(Recency(entries)) == Memory(entries) && |Recency(entries)| == |entries|
  {
    SortIsStrict(entries, clock);
    SortMemory(entries);
    PlainsMemory(StableSort(entries, Stamp));
  }

  /** Looking a key up finds the same entry. */
  lemma RecencyFind(entries: seq<Entry>, key: Key, clock: nat)
    requires DistinctKeys(entries) && Stamped(entries, clock)
    ensures HasKey(entries, key) <==> HasKey(Recency(entries), key)
    ensures var i, j := Find(entries, key), Find(Recency(entries), key);
      i.Some? && j.Some? ==> Plain(entries[i.value]) == Recency(entries)[j.value]
  {
    var order := StableSort(entries, Stamp);
    SortIsStrict(entries, clock);
    var i, j := Find(entries, key), Find(Recency(entries), key);
    if i.Some? {
      assert entries[i.value] in order;
      var k :| 0 <= k < |order| && order[k] == entries[i.value];
      assert Recency(entries)[k].key == key;
    }
    if j.Some? {
      assert order[j.value] in entries;
      var k :| 0 <= k < |entries| && entries[k] == order[j.value];
      assert entries[k].key == key;
      if i.Some? { SameKeySameEntry(entries, entries[i.value], entries[k]); }
    }
  }

  lemma PlainsExpired(entries: seq<Entry>, now: real)
    ensures ExpiredKeys(Plains(entries), now) == ExpiredKeys(entries, now)
  {
    var plains := Plains(entries);
    forall k | k in ExpiredKeys(plains, now) ensures k in ExpiredKeys(entries, now) {
      var p :| p in plains && Expired(p, now) && p.key == k;
      var i :| 0 <= i < |plains| && plains[i] == p;
      assert entries[i] in entries && Expired(entries[i], now);
    }
    forall k | k in ExpiredKeys(entries, now) ensures k in ExpiredKeys(plains, now) {
      var e :| e in entries && Expired(e, now) && e.key == k;
      var i :| 0 <= i < |entries| && entries[i] == e;
      assert plains[i] in plains && Expired(plains[i], now);
    }
  }

  lemma RecencyExpired(entries: seq<Entry>, now: real, clock: nat)
    requires Stamped(entries, clock)
    ensures ExpiredKeys(Recency(entries), now) == ExpiredKeys(entries, now)
  {
    var order := StableSort(entries, Stamp);
    PlainsExpired(order, now);
    SortIsStrict(entries, clock);
    assert ExpiredKeys(order, now) == ExpiredKeys(entries, now);
  }

  // ----- one operation -----

  ghost predicate ActsAsLRU(cfg: Config) {
    cfg.strategy == LRU || cfg.strategy == Unknown
  }

  lemma TouchedMembers(c: Cache, i: nat)
    requires i < |c.entries| && DistinctKeys(c.entries)
    ensures var t := Touched(c, i).entries;
      forall x :: x in t <==> x in WithoutKeys(c.entries, {c.entries[i].key}) + [t[i]]
  {
    var key, t := c.entries[i].key, Touched(c, i).entries;
    var rest := WithoutKeys(c.entries, {key});
    WithoutKeysMembers(c.entries, {key});
    forall x | x in t ensures x in rest + [t[i]] {
      var j :| 0 <= j < |t| && t[j] == x;
      assert j != i ==> c.entries[j] == x && x.key != key;
    }
    forall x | x in rest ensures x in t {
      var j :| 0 <= j < |c.entries| && c.entries[j] == x;
      assert t[j] == x;
    }
  }

  lemma SameMembersSameSort(a: seq<Entry>, b: seq<Entry>, clock: nat)
    requires Stamped(a, clock) && Stamped(b, clock) && forall x :: x in a <==> x in b
    ensures StableSort(a, Stamp) == StableSort(b, Stamp)
  {
    SortIsStrict(a, clock);
    SortIsStrict(b, clock);
    StrictOrderIsUnique(StableSort(a, Stamp), StableSort(b, Stamp), Stamp);
  }

  lemma TouchMovesToEnd(c: Cache, i: nat)
    requires i < |c.entries| && DistinctKeys(c.entries) && Stamped(c.entries, c.clock)
    ensures Recency(Touched(c, i).entries) == WithoutKeys(Recency(c.entries), {c.entries[i].key}) + [Plain(c.entries[i])]
  {
    var key, t := c.entries[i].key, Touched(c, i);
    var rest := WithoutKeys(c.entries, {key});
    StampsSurvive(c.entries, {key}, c.clock);
    TouchedMembers(c, i);
    SameMembersSameSort(t.entries, rest + [t.entries[i]], t.clock);
    RecencySnoc(rest, t.entries[i], c.clock);
    RecencyWithout(c.entries, {key}, c.clock);
  }

  lemma GetRefines(cfg: Config, c: Cache, key: Key, now: real)
    requires Inv(cfg, c)
    ensures (Recency(Get(cfg, c, key, now).0.entries), Get(cfg, c, key, now).1) == ListGet(cfg, Recency(c.entries), key, now)
  {
    RecencyFind(c.entries, key, c.clock);
    RecencyWithout(c.entries, {key}, c.clock);
    var i := Find(c.entries, key);
    if i.Some? { TouchMovesToEnd(c, i.value); }
  }

  lemma RoomRefines(cfg: Config, c: Cache, size: nat)
    requires Inv(cfg, c) && ActsAsLRU(cfg)
    ensures Recency(MakeRoom(cfg, c.entries, size)) == ListRoom(cfg, Recency(c.entries), size)
  {
    RecencySize(c.entries, c.clock);
    RecencyEvict(c.entries, cfg.strategy, Tenth(|c.entries|), c.clock);
  }

  lemma StoreRefines(cfg: Config, c: Cache, e: Entry)
    requires Inv(cfg, c) && ActsAsLRU(cfg) && e.accessed == c.clock + 1
    ensures Recency(Slim(cfg, WithoutKeys(c.entries, {e.key})) + [e])
         == ListSlim(cfg, WithoutKeys(Recency(c.entries), {e.key})) + [Plain(e)]
  {
    var others := WithoutKeys(c.entries, {e.key});
    RemovalKeepsInv(cfg, c, {e.key});
    RecencyWithout(c.entries, {e.key}, c.clock);
    RecencySize(others, c.clock);
    RecencyEvict(others, cfg.strategy, 1, c.clock);
    SlimMakesRoom(cfg, c.(entries := others));
    RecencySnoc(Slim(cfg, others), e, c.clock);
  }

  lemma MemoryCheckRefines(cfg: Config, c: Cache, size: nat)
    requires Inv(cfg, c) && ActsAsLRU(cfg)
    ensures Recency(MakeRoom(cfg, c.entries, size)) == ListRoom(cfg, Recency(c.entries), size)
    ensures Memory(ListRoom(cfg, Recency(c.entries), size)) == Memory(MakeRoom(cfg, c.entries, size))
  {
    RoomRefines(cfg, c, size);
    RoomKeepsInv(cfg, c, size);
    RecencySize(MakeRoom(cfg, c.entries, size), c.clock);
  }

  lemma StoredRefines(cfg: Config, c: Cache, e: Entry)
    requires Inv(cfg, c) && ActsAsLRU(cfg) && e.accessed == c.clock + 1
    ensures Recency(Stored(cfg, c, e).entries) == ListStored(cfg, Recency(c.entries), Plain(e))
  {
    RoomRefines(cfg, c, e.size);
    RoomKeepsInv(cfg, c, e.size);
    StoreRefines(cfg, c.(entries := MakeRoom(cfg, c.entries, e.size)), e);
  }

  lemma SetRefines(cfg: Config, c: Cache, key: Key, value: Value, ttl: Option<real>, size: nat, now: real)
    requires Inv(cfg, c) && ActsAsLRU(cfg)
    ensures Recency(Set(cfg, c, key, value, ttl, size, now).0.entries) == ListSet(cfg, Recency(c.entries), key, value, ttl, size, now).0
    ensures Set(cfg, c, key, value, ttl, size, now).1 == ListSet(cfg, Recency(c.entries), key, value, ttl, size, now).1
  {
    MemoryCheckRefines(cfg, c, size);
    StoredRefines(cfg, c, NewEntry(cfg, c, key, value, ttl, size, now));
  }

  lemma DeleteRefines(c: Cache, key: Key, now: real)
    requires DistinctKeys(c.entries) && Stamped(c.entries, c.clock)
    ensures Recency(Delete(c, key).0.entries) == WithoutKeys(Recency(c.entries), {key})
    ensures Delete(c, key).1 == HasKey(Recency(c.entries), key)
    ensures Recency(CollectGarbage(c, now).entries) == WithoutKeys(Recency(c.entries), ExpiredKeys(Recency(c.entries), now))
  {
    RecencyFind(c.entries, key, c.clock);
    RecencyWithout(c.entries, {key}, c.clock);
    RecencyExpired(c.entries, now, c.clock);
    RecencyWithout(c.entries, ExpiredKeys(c.entries, now), c.clock);
  }

  lemma HasRefines(cfg: Config, c: Cache, key: Key, now: real)
    requires DistinctKeys(c.entries) && Stamped(c.entries, c.clock)
    ensures (Recency(Has(cfg, c, key, now).0.entries), Has(cfg, c, key, now).1) == ListHas(cfg, Recency(c.entries), key, now)
  {
    RecencyFind(c.entries, key, c.clock);
    RecencyWithout(c.entries, {key}, c.clock);
  }

  lemma StepRefines(cfg: Config, c: Cache, op: Op, now: real)
    requires Inv(cfg, c) && ActsAsLRU(cfg)
    ensures Recency(CacheStep(cfg, c, op, now).0.entries) == ListStep(cfg, Recency(c.entries), op, now).0
    ensures CacheStep(cfg, c, op, now).1 == ListStep(cfg, Recency(c.entries), op, now).1
  {
    match op
    case GetOp(key) => GetRefines(cfg, c, key, now);
    case SetOp(key, value, ttl, size) => SetRefines(cfg, c, key, value, ttl, size, now);
    case DeleteOp(key) => DeleteRefines(c, key, now);
    case HasOp(key) => HasRefines(cfg, c, key, now);
    case ClearOp =>
    case CollectOp => DeleteRefines(c, "", now);
  }

  lemma {:induction false} StepKeepsInv(cfg: Config, c: Cache, op: Op, now: real)
    requires Inv(cfg, c)
    ensures Inv(cfg, CacheStep(cfg, c, op, now).0)
  {
    match op
    case GetOp(key) => GetKeepsInv(cfg, c, key, now);
    case SetOp(key, value, ttl, size) => SetKeepsInv(cfg, c, key, value, ttl, size, now);
    case DeleteOp(key) => RemovalKeepsInv(cfg, c, {key});
    case HasOp(key) => HasKeepsInv(cfg, c, key, now);
    case ClearOp =>
    case CollectOp => RemovalKeepsInv(cfg, c, ExpiredKeys(c.entries, now));
  }

  lemma {:induction false} HasKeepsInv(cfg: Config, c: Cache, key: Key, now: real)
    requires Inv(cfg, c)
    ensures Inv(cfg, Has(cfg, c, key, now).0)
  {
    RemovalKeepsInv(cfg, c, {key});
  }

  /** Under any strategy, every run keeps within the limits, with distinct keys and distinct stamps. */
  lemma {:induction false} InvAlways(cfg: Config, ops: Ops)
    ensures Inv(cfg, CacheRun(cfg, ops).0)
  {
    if ops != [] {
      var init, last := ops[..|ops| - 1], ops[|ops| - 1];
      InvAlways(cfg, init);
      StepKeepsInv(cfg, CacheRun(cfg, init).0, last.0, last.1);
    }
  }

  /** Every run gives the answers of the list, and the cache holds what the list holds. */
  lemma {:induction false} CacheIsRecencyList(cfg: Config, ops: Ops)
    requires ActsAsLRU(cfg)
    ensures CacheRun(cfg, ops).1 == ListRun(cfg, ops).1
    ensures Recency(CacheRun(cfg, ops).0.entries) == ListRun(cfg, ops).0
  {
    if ops != [] {
      var init, last := ops[..|ops| - 1], ops[|ops| - 1];
      CacheIsRecencyList(cfg, init);
      InvAlways(cfg, init);
      StepRefines(cfg, CacheRun(cfg, init).0, last.0, last.1);
    }
  }
}
