/** What the figures of an entry say about the run it was in, and so which entries each strategy gives up. */
module CacheHistory {
  import opened Prelude
  import opened CacheEntries
  import opened CacheOperations
  import opened CacheRecency

  /** How often a key was read from some operation of a run on */
  function Gets(ops: Ops, key: Key, from: nat): nat {
    if |ops| <= from then 0
    else Gets(ops[..|ops| - 1], key, from) + if ops[|ops| - 1].0 == GetOp(key) then 1 else 0
  }

  /** The last operation of a run to read the key after it was set */
  function LastUse(ops: Ops, key: Key, set_: nat): (i: nat)
    ensures set_ <= i && (set_ < |ops| ==> i < |ops|)
  {
    if |ops| <= set_ + 1 then set_
    else if ops[|ops| - 1].0 == GetOp(key) then |ops| - 1
    else LastUse(ops[..|ops| - 1], key, set_)
  }

  predicate Stores(op: Op, answer: Answer, key: Key) {
    op.SetOp? && op.key == key && answer == Said(true)
  }

  /** The entry is that of a set, made at the time of the set. */
  predicate MadeBy(cfg: Config, op: Op, now: real, e: Entry) {
    op.SetOp? && e.key == op.key && e.value == op.value && e.ttl == op.ttl.GetOr(cfg.defaultTTL) && e.size == op.size && e.created == now
  }

  /** Operation i was the last to store the key, and made the entry. */
  ghost predicate IsSetAt(cfg: Config, ops: Ops, i: nat, e: Entry) {
    && i < |ops| && |CacheRun(cfg, ops).1| == |ops|
    && MadeBy(cfg, ops[i].0, ops[i].1, e) && Stores(ops[i].0, CacheRun(cfg, ops).1[i], e.key)
    && forall j | i < j < |ops| :: !Stores(ops[j].0, CacheRun(cfg, ops).1[j], e.key)
  }

  /** Counted once for the set and once for each read since, and stamped with the clock after the last of them. */
  ghost predicate IsUsedSince(cfg: Config, ops: Ops, i: nat, e: Entry) {
    && e.accessCount == 1 + Gets(ops, e.key, i + 1)
    && LastUse(ops, e.key, i) < |ops|
    && e.accessed == CacheRun(cfg, ops[..LastUse(ops, e.key, i) + 1]).0.clock
  }

  // ----- one operation -----

  /** The same entry, but for its use */
  predicate SameBirth(e: Entry, f: Entry) {
    e == f.(accessed := e.accessed, accessCount := e.accessCount)
  }

  lemma {:induction false} GetEntry(cfg: Config, c: Cache, key: Key, now: real, e: Entry) returns (f: Entry)
    requires cfg.enabled && DistinctKeys(c.entries) && e in Get(cfg, c, key, now).0.entries
    ensures f in c.entries && SameBirth(e, f)
    ensures if e.key == key then e.accessCount == f.accessCount + 1 && e.accessed == Get(cfg, c, key, now).0.clock else e == f
  {
    f := e;
    var found := Find(c.entries, key);
    if found.Some? {
      var i := found.value;
      if Expired(c.entries[i], now) {
        WithoutKeysMembers(c.entries, {key});
      } else {
        var t := Touched(c, i).entries;
        var j :| 0 <= j < |t| && t[j] == e;
        f := c.entries[j];
      }
    }
  }

  lemma {:induction false} SetEntry(cfg: Config, c: Cache, key: Key, value: Value, ttl: Option<real>, size: nat, now: real, e: Entry)
    requires e in Set(cfg, c, key, value, ttl, size, now).0.entries
    ensures var (d, stored) := Set(cfg, c, key, value, ttl, size, now);
      || (e in c.entries && (stored ==> e.key != key))
      || (stored && e.accessCount == 1 && e.accessed == d.clock && MadeBy(cfg, SetOp(key, value, ttl, size), now, e))
  {
    var room := MakeRoom(cfg, c.entries, size);
    RoomIsSubset(cfg, c.entries, size);
    SlimIsSubset(cfg, WithoutKeys(room, {key}));
    WithoutKeysMembers(room, {key});
  }

  lemma {:induction false} RoomIsSubset(cfg: Config, entries: seq<Entry>, size: nat)
    ensures forall e | e in MakeRoom(cfg, entries, size) :: e in entries
  {
    WithoutKeysMembers(entries, KeysOf(Take(EvictionOrder(entries, cfg.strategy), Tenth(|entries|))));
  }

  /** An entry was there before, used once more if it was read, or is the one just set. */
  lemma {:induction false} StepEntry(cfg: Config, c: Cache, op: Op, now: real, e: Entry) returns (f: Entry)
    requires cfg.enabled && DistinctKeys(c.entries) && e in CacheStep(cfg, c, op, now).0.entries
    ensures var (d, answer) := CacheStep(cfg, c, op, now);
      || (&& f in c.entries && SameBirth(e, f) && !Stores(op, answer, e.key)
          && (if op == GetOp(e.key) then e.accessCount == f.accessCount + 1 && e.accessed == d.clock else e == f))
      || (Stores(op, answer, e.key) && e.accessCount == 1 && e.accessed == d.clock && MadeBy(cfg, op, now, e))
  {
    f := e;
    match op
    case GetOp(key) => f := GetEntry(cfg, c, key, now, e);
    case SetOp(key, value, ttl, size) => SetEntry(cfg, c, key, value, ttl, size, now, e);
    case DeleteOp(key) => WithoutKeysMembers(c.entries, {key});
    case HasOp(key) => WithoutKeysMembers(c.entries, {key});
    case ClearOp =>
    case CollectOp => WithoutKeysMembers(c.entries, ExpiredKeys(c.entries, now));
  }

  // ----- runs -----

  lemma {:induction false} DisabledStaysEmpty(cfg: Config, ops: Ops)
    requires !cfg.enabled
    ensures CacheRun(cfg, ops).0.entries == []
  {
    if ops != [] { DisabledStaysEmpty(cfg, ops[..|ops| - 1]); }
  }

  lemma {:induction false} OneAnswerEach(cfg: Config, ops: Ops)
    ensures |CacheRun(cfg, ops).1| == |ops|
  {
    if ops != [] { OneAnswerEach(cfg, ops[..|ops| - 1]); }
  }

  lemma {:induction false} RunsOn(cfg: Config, init: Ops, last: (Op, real))
    ensures CacheRun(cfg, init + [last]).0 == CacheStep(cfg, CacheRun(cfg, init).0, last.0, last.1).0
    ensures CacheRun(cfg, init + [last]).1 == CacheRun(cfg, init).1 + [CacheStep(cfg, CacheRun(cfg, init).0, last.0, last.1).1]
  {
    assert (init + [last])[..|init|] == init;
  }

  lemma {:induction false} SetStays(cfg: Config, init: Ops, last: (Op, real), i: nat, f: Entry, e: Entry)
    requires IsSetAt(cfg, init, i, f) && SameBirth(e, f)
    requires !Stores(last.0, CacheStep(cfg, CacheRun(cfg, init).0, last.0, last.1).1, e.key)
    ensures IsSetAt(cfg, init + [last], i, e)
  {
    RunsOn(cfg, init, last);
    OneAnswerEach(cfg, init);
  }

  lemma {:induction false} UseStays(cfg: Config, init: Ops, last: (Op, real), i: nat, f: Entry, e: Entry)
    requires i < |init| && IsUsedSince(cfg, init, i, f) && SameBirth(e, f)
    requires var d := CacheRun(cfg, init + [last]).0;
      if last.0 == GetOp(e.key) then e.accessCount == f.accessCount + 1 && e.accessed == d.clock else e == f
    ensures IsUsedSince(cfg, init + [last], i, e)
  {
    var ops := init + [last];
    assert ops[..|init|] == init;
    assert ops[..|ops|] == ops;
    var k := LastUse(init, e.key, i);
    assert ops[..k + 1] == init[..k + 1];
  }

  lemma {:induction false} JustSet(cfg: Config, init: Ops, last: (Op, real), e: Entry)
    requires var r := CacheStep(cfg, CacheRun(cfg, init).0, last.0, last.1); Stores(last.0, r.1, e.key) && MadeBy(cfg, last.0, last.1, e)
    ensures IsSetAt(cfg, init + [last], |init|, e)
  {
    RunsOn(cfg, init, last);
    OneAnswerEach(cfg, init);
  }

  lemma {:induction false} NotUsedYet(cfg: Config, init: Ops, last: (Op, real), e: Entry)
    requires e.accessCount == 1 && e.accessed == CacheRun(cfg, init + [last]).0.clock
    ensures IsUsedSince(cfg, init + [last], |init|, e)
  {
    var ops := init + [last];
    assert LastUse(ops, e.key, |init|) == |init|;
    assert ops[..|init| + 1] == ops;
  }

  /** In every run, under every strategy: what an entry holds and counts, from the operation that set it. */
  lemma {:induction false} EntryHistory(cfg: Config, ops: Ops, e: Entry) returns (i: nat)
    requires e in CacheRun(cfg, ops).0.entries
    ensures IsSetAt(cfg, ops, i, e) && IsUsedSince(cfg, ops, i, e)
  {
    if !cfg.enabled { DisabledStaysEmpty(cfg, ops); }
    var init, last := ops[..|ops| - 1], ops[|ops| - 1];
    assert init + [last] == ops;
    InvAlways(cfg, init);
    var f := StepEntry(cfg, CacheRun(cfg, init).0, last.0, last.1, e);
    if Stores(last.0, CacheStep(cfg, CacheRun(cfg, init).0, last.0, last.1).1, e.key) {
      i := |init|;
      JustSet(cfg, init, last, e);
      RunsOn(cfg, init, last);
      NotUsedYet(cfg, init, last, e);
    } else {
      i := EntryHistory(cfg, init, f);
      SetStays(cfg, init, last, i, f, e);
      UseStays(cfg, init, last, i, f, e);
    }
  }

  // ----- what each strategy gives up -----

  lemma {:induction false} ClockGrows(cfg: Config, ops: Ops, n: nat)
    requires n <= |ops|
    ensures CacheRun(cfg, ops[..n]).0.clock <= CacheRun(cfg, ops).0.clock
    decreases |ops|
  {
    if n == |ops| {
      assert ops[..n] == ops;
    } else {
      ClockGrows(cfg, ops[..|ops| - 1], n);
      assert ops[..|ops| - 1][..n] == ops[..n];
    }
  }

  lemma {:induction false} StampsFollowUses(cfg: Config, ops: Ops, i: nat, a: Entry, j: nat, b: Entry)
    requires i < |ops| && IsUsedSince(cfg, ops, i, a) && j < |ops| && IsUsedSince(cfg, ops, j, b) && a.accessed < b.accessed
    ensures LastUse(ops, a.key, i) < LastUse(ops, b.key, j)
  {
    var m, n := LastUse(ops, a.key, i) + 1, LastUse(ops, b.key, j) + 1;
    assert n <= m ==> ops[..m][..n] == ops[..n];
    if n <= m { ClockGrows(cfg, ops[..m], n); }
  }

  /**
   * After every run: where an entry is evicted and another is not, LFU gives up one that was read no more often since it
   * was set, FIFO one that was set no later, and LRU, which unknown strategies fall back to, one whose last use came earlier.
   */
  lemma {:induction false} EvictsByHistory(cfg: Config, ops: Ops, count: nat, victim: Entry, survivor: Entry) returns (i: nat, j: nat)
    requires var entries := CacheRun(cfg, ops).0.entries;
      victim in entries && victim !in Evict(entries, cfg.strategy, count) && survivor in Evict(entries, cfg.strategy, count)
    ensures IsSetAt(cfg, ops, i, victim) && IsSetAt(cfg, ops, j, survivor)
    ensures match cfg.strategy
      case LFU => Gets(ops, victim.key, i + 1) <= Gets(ops, survivor.key, j + 1)
      case FIFO => ops[i].1 <= ops[j].1
      case LRU => LastUse(ops, victim.key, i) < LastUse(ops, survivor.key, j)
      case Unknown => LastUse(ops, victim.key, i) < LastUse(ops, survivor.key, j)
  {
    var c := CacheRun(cfg, ops).0;
    InvAlways(cfg, ops);
    EvictsTheLeast(c.entries, cfg.strategy, count, victim, survivor);
    SurvivorIsEntry(c.entries, cfg.strategy, count, survivor);
    i := EntryHistory(cfg, ops, victim);
    j := EntryHistory(cfg, ops, survivor);
    DistinctStamps(c, victim, survivor);
    if victim.accessed < survivor.accessed { StampsFollowUses(cfg, ops, i, victim, j, survivor); }
  }

  lemma {:induction false} SurvivorIsEntry(entries: seq<Entry>, strategy: Strategy, count: nat, survivor: Entry)
    requires survivor in Evict(entries, strategy, count)
    ensures survivor in entries
  {
    WithoutKeysMembers(entries, KeysOf(Take(EvictionOrder(entries, strategy), count)));
  }

  lemma {:induction false} DistinctStamps(c: Cache, a: Entry, b: Entry)
    requires Stamped(c.entries, c.clock) && a in c.entries && b in c.entries && a != b
    ensures a.accessed != b.accessed
  {
    var i :| 0 <= i < |c.entries| && c.entries[i] == a;
    var j :| 0 <= j < |c.entries| && c.entries[j] == b;
    assert i < j || j < i;
  }
}
