/**
 * createCachedValidator: a validator behind a cache of its own. A call reads the cache, may run the
 * validator, and may store the result; other calls and the cache's own chores run in between.
 */
module CachedValidator {
  import opened Prelude
  import opened CacheEntries
  import opened CacheOperations
  import opened ValidationCache

  /** The data to validate, with its validation options */
  type Data = string

  datatype Outcome = Returned(value: Value) | Thrown(message: string)

  datatype Validator = Validator(run: Data -> Outcome, keyOf: Data -> Key, ttl: Option<real>, sizeOf: Value -> nat)

  /** Truthy, and not marked as a failure */
  predicate IsCacheable(value: Value) {
    value.Verdict? && value.success
  }

  predicate IsStored(outcome: Outcome) {
    outcome.Returned? && IsCacheable(outcome.value)
  }

  /** A call up to its read of the cache, and a call that missed from its result on; and the rest of the cache's life. */
  datatype Step =
    | Begin(data: Data, now: real)
    | Finish(data: Data, now: real)
    | Has(key: Key, now: real)
    | Delete(key: Key)
    | Clear
    | Collect(now: real)

  function Next(cfg: Config, v: Validator, c: Cache, step: Step): Cache {
    match step
    case Begin(data, now) => Get(cfg, c, v.keyOf(data), now).0
    case Finish(data, now) =>
      var outcome := v.run(data);
      if IsStored(outcome) then Set(cfg, c, v.keyOf(data), outcome.value, v.ttl, v.sizeOf(outcome.value), now).0 else c
    case Has(key, now) => CacheOperations.Has(cfg, c, key, now).0
    case Delete(key) => CacheOperations.Delete(c, key).0
    case Clear => CacheOperations.Clear(c)
    case Collect(now) => CollectGarbage(c, now)
  }

  function After(cfg: Config, v: Validator, steps: seq<Step>): Cache {
    if steps == [] then EMPTY else Next(cfg, v, After(cfg, v, steps[..|steps| - 1]), steps[|steps| - 1])
  }

  /** What a call answers that finds the cache like this */
  function CachedAnswer(cfg: Config, v: Validator, c: Cache, data: Data, now: real): Outcome {
    var cached := Get(cfg, c, v.keyOf(data), now).1;
    if cached != Null then Returned(cached) else v.run(data)
  }

  /** A result that some call of the validator can leave in the cache */
  predicate CanBeStored(cfg: Config, v: Validator, outcome: Outcome) {
    cfg.enabled && IsStored(outcome) && v.sizeOf(outcome.value) <= cfg.memoryLimit
  }

  /** Data that share a key share the result, as far as it can be stored. An injective key leaves no other choice. */
  ghost predicate KeysDetermineResults(cfg: Config, v: Validator) {
    forall a, b | v.keyOf(a) == v.keyOf(b) && CanBeStored(cfg, v, v.run(a)) :: v.run(b) == v.run(a)
  }

  lemma InjectiveKeysDetermineResults(cfg: Config, v: Validator)
    requires forall a, b | v.keyOf(a) == v.keyOf(b) :: a == b
    ensures KeysDetermineResults(cfg, v)
  {
  }

  /** Whatever is cached under a datum's key is what the validator returns for it. */
  ghost predicate Faithful(v: Validator, c: Cache) {
    forall i, data | 0 <= i < |c.entries| && v.keyOf(data) == c.entries[i].key :: v.run(data) == Returned(c.entries[i].value)
  }

  /** Each entry holds what some entry held before under its key. */
  ghost predicate NothingNew(before: seq<Entry>, after: seq<Entry>) {
    forall i | 0 <= i < |after| :: HoldsPair(before, after[i].key, after[i].value)
  }

  ghost predicate HoldsPair(entries: seq<Entry>, key: Key, value: Value) {
    exists j :: 0 <= j < |entries| && entries[j].key == key && entries[j].value == value
  }

  lemma {:induction false} FaithfulStays(v: Validator, c: Cache, d: Cache)
    requires Faithful(v, c) && NothingNew(c.entries, d.entries)
    ensures Faithful(v, d)
  {
    forall i, data | 0 <= i < |d.entries| && v.keyOf(data) == d.entries[i].key
      ensures v.run(data) == Returned(d.entries[i].value)
    {
      assert HoldsPair(c.entries, d.entries[i].key, d.entries[i].value);
    }
  }

  lemma {:induction false} RemovalNothingNew(entries: seq<Entry>, keys: set<Key>)
    ensures NothingNew(entries, WithoutKeys(entries, keys))
  {
    var rest := WithoutKeys(entries, keys);
    WithoutKeysMembers(entries, keys);
    forall i | 0 <= i < |rest| ensures HoldsPair(entries, rest[i].key, rest[i].value) {
      assert rest[i] in entries;
      var j :| 0 <= j < |entries| && entries[j] == rest[i];
    }
  }

  lemma {:induction false} NothingNewTransitive(a: seq<Entry>, b: seq<Entry>, c: seq<Entry>)
    requires NothingNew(a, b) && NothingNew(b, c)
    ensures NothingNew(a, c)
  {
    forall i | 0 <= i < |c| ensures HoldsPair(a, c[i].key, c[i].value) {
      assert HoldsPair(b, c[i].key, c[i].value);
      var j :| 0 <= j < |b| && b[j].key == c[i].key && b[j].value == c[i].value;
      assert HoldsPair(a, b[j].key, b[j].value);
    }
  }

  lemma RoomNothingNew(cfg: Config, c: Cache, size: nat)
    ensures NothingNew(c.entries, MakeRoom(cfg, c.entries, size))
  {
    RemovalNothingNew(c.entries, KeysOf(Take(EvictionOrder(c.entries, cfg.strategy), Tenth(|c.entries|))));
  }

  lemma SlimNothingNew(cfg: Config, entries: seq<Entry>)
    ensures NothingNew(entries, Slim(cfg, entries))
  {
    RemovalNothingNew(entries, KeysOf(Take(EvictionOrder(entries, cfg.strategy), 1)));
  }

  lemma GetKeepsFaithful(cfg: Config, v: Validator, c: Cache, key: Key, now: real)
    requires Faithful(v, c)
    ensures Faithful(v, Get(cfg, c, key, now).0)
  {
    var found := Find(c.entries, key);
    RemovalNothingNew(c.entries, {key});
    FaithfulStays(v, c, c.(entries := WithoutKeys(c.entries, {key})));
    if found.Some? {
      var t := Touched(c, found.value);
      assert forall i | 0 <= i < |t.entries| :: t.entries[i].key == c.entries[i].key && t.entries[i].value == c.entries[i].value;
    }
  }

  lemma SetKeepsFaithful(cfg: Config, v: Validator, c: Cache, data: Data, now: real)
    requires Faithful(v, c) && KeysDetermineResults(cfg, v) && IsStored(v.run(data))
    ensures Faithful(v, Set(cfg, c, v.keyOf(data), v.run(data).value, v.ttl, v.sizeOf(v.run(data).value), now).0)
  {
    var size := v.sizeOf(v.run(data).value);
    var roomy := MakeRoom(cfg, c.entries, size);
    RoomNothingNew(cfg, c, size);
    FaithfulStays(v, c, c.(entries := roomy));
    if cfg.enabled && Fits(cfg, c, size) {
      var e := NewEntry(cfg, c, v.keyOf(data), v.run(data).value, v.ttl, size, now);
      var others := WithoutKeys(roomy, {e.key});
      RemovalNothingNew(roomy, {e.key});
      SlimNothingNew(cfg, others);
      NothingNewTransitive(roomy, others, Slim(cfg, others));
      NothingNewTransitive(c.entries, roomy, Slim(cfg, others));
      FaithfulStays(v, c, Cache(Slim(cfg, others), c.clock));
      AppendKeepsFaithful(cfg, v, Slim(cfg, others), e, data);
    }
  }

  lemma AppendKeepsFaithful(cfg: Config, v: Validator, entries: seq<Entry>, e: Entry, data: Data)
    requires Faithful(v, Cache(entries, 0)) && KeysDetermineResults(cfg, v) && CanBeStored(cfg, v, v.run(data))
    requires e.key == v.keyOf(data) && e.value == v.run(data).value
    ensures Faithful(v, Cache(entries + [e], e.accessed))
  {
    forall i, d | 0 <= i < |entries + [e]| && v.keyOf(d) == (entries + [e])[i].key
      ensures v.run(d) == Returned((entries + [e])[i].value)
    {
      if i < |entries| { assert (entries + [e])[i] == Cache(entries, 0).entries[i]; }
    }
  }

  lemma StepKeepsFaithful(cfg: Config, v: Validator, c: Cache, step: Step)
    requires Faithful(v, c) && KeysDetermineResults(cfg, v)
    ensures Faithful(v, Next(cfg, v, c, step))
  {
    match step
    case Begin(data, now) => GetKeepsFaithful(cfg, v, c, v.keyOf(data), now);
    case Finish(data, now) =>
      if IsStored(v.run(data)) { SetKeepsFaithful(cfg, v, c, data, now); }
    case Has(key, now) =>
      RemovalNothingNew(c.entries, {key});
      FaithfulStays(v, c, c.(entries := WithoutKeys(c.entries, {key})));
    case Delete(key) =>
      RemovalNothingNew(c.entries, {key});
      FaithfulStays(v, c, c.(entries := WithoutKeys(c.entries, {key})));
    case Clear =>
    case Collect(now) =>
      RemovalNothingNew(c.entries, ExpiredKeys(c.entries, now));
      FaithfulStays(v, c, c.(entries := WithoutKeys(c.entries, ExpiredKeys(c.entries, now))));
  }

  lemma {:induction false} FaithfulAlways(cfg: Config, v: Validator, steps: seq<Step>)
    requires KeysDetermineResults(cfg, v)
    ensures Faithful(v, After(cfg, v, steps))
  {
    if steps != [] {
      FaithfulAlways(cfg, v, steps[..|steps| - 1]);
      StepKeepsFaithful(cfg, v, After(cfg, v, steps[..|steps| - 1]), steps[|steps| - 1]);
    }
  }

  /** Whatever is ever cached was a success. */
  lemma {:induction false} OnlySuccessesAreCached(cfg: Config, v: Validator, steps: seq<Step>)
    ensures forall i | 0 <= i < |After(cfg, v, steps).entries| ::
      After(cfg, v, steps).entries[i].value.Verdict? && After(cfg, v, steps).entries[i].value.success
  {
    if steps != [] {
      var c := After(cfg, v, steps[..|steps| - 1]);
      OnlySuccessesAreCached(cfg, v, steps[..|steps| - 1]);
      assert AllSuccesses(c.entries);
      StepCachesSuccesses(cfg, v, c, steps[|steps| - 1]);
    }
  }

  /** And a success is, whatever else the cache holds, if it fits. */
  lemma {:induction false} SuccessIsCached(cfg: Config, v: Validator, c: Cache, data: Data, now: real)
    requires v.run(data).Returned? && v.run(data).value.Verdict? && v.run(data).value.success
    requires cfg.enabled && Fits(cfg, c, v.sizeOf(v.run(data).value))
    ensures Get(cfg, Next(cfg, v, c, Finish(data, now)), v.keyOf(data), now).1 == v.run(data).value
  {
    SetThenGet(cfg, c, v.keyOf(data), v.run(data).value, v.ttl, v.sizeOf(v.run(data).value), now, now);
  }

  ghost predicate AllSuccesses(entries: seq<Entry>) {
    forall i | 0 <= i < |entries| :: entries[i].value.Verdict? && entries[i].value.success
  }

  lemma {:induction false} SuccessesStay(before: seq<Entry>, after: seq<Entry>)
    requires AllSuccesses(before) && NothingNew(before, after)
    ensures AllSuccesses(after)
  {
    forall i | 0 <= i < |after| ensures after[i].value.Verdict? && after[i].value.success {
      assert HoldsPair(before, after[i].key, after[i].value);
    }
  }

  lemma {:induction false} GetNothingNew(cfg: Config, c: Cache, key: Key, now: real)
    ensures NothingNew(c.entries, Get(cfg, c, key, now).0.entries)
  {
    RemovalNothingNew(c.entries, {key});
    var t := Get(cfg, c, key, now).0.entries;
    if |t| == |c.entries| {
      forall i | 0 <= i < |t| && t[i].key == c.entries[i].key && t[i].value == c.entries[i].value
        ensures HoldsPair(c.entries, t[i].key, t[i].value) { }
    }
  }

  lemma {:induction false} StepCachesSuccesses(cfg: Config, v: Validator, c: Cache, step: Step)
    requires AllSuccesses(c.entries)
    ensures AllSuccesses(Next(cfg, v, c, step).entries)
  {
    match step
    case Begin(data, now) =>
      GetNothingNew(cfg, c, v.keyOf(data), now);
      SuccessesStay(c.entries, Next(cfg, v, c, step).entries);
    case Finish(data, now) => if IsStored(v.run(data)) { SetCachesSuccesses(cfg, v, c, data, now); }
    case Has(key, now) =>
      RemovalNothingNew(c.entries, {key});
      SuccessesStay(c.entries, WithoutKeys(c.entries, {key}));
    case Delete(key) =>
      RemovalNothingNew(c.entries, {key});
      SuccessesStay(c.entries, WithoutKeys(c.entries, {key}));
    case Clear =>
    case Collect(now) =>
      RemovalNothingNew(c.entries, ExpiredKeys(c.entries, now));
      SuccessesStay(c.entries, WithoutKeys(c.entries, ExpiredKeys(c.entries, now)));
  }

  lemma {:induction false} SetCachesSuccesses(cfg: Config, v: Validator, c: Cache, data: Data, now: real)
    requires AllSuccesses(c.entries) && IsStored(v.run(data))
    ensures AllSuccesses(Set(cfg, c, v.keyOf(data), v.run(data).value, v.ttl, v.sizeOf(v.run(data).value), now).0.entries)
  {
    var size := v.sizeOf(v.run(data).value);
    var roomy := MakeRoom(cfg, c.entries, size);
    RoomNothingNew(cfg, c, size);
    SuccessesStay(c.entries, roomy);
    var others := WithoutKeys(roomy, {v.keyOf(data)});
    RemovalNothingNew(roomy, {v.keyOf(data)});
    SlimNothingNew(cfg, others);
    SuccessesStay(roomy, others);
    SuccessesStay(others, Slim(cfg, others));
  }

  /** Where a storable result shares its key with another result, one call's answer reaches the other. */
  lemma CollisionShows(cfg: Config, v: Validator, a: Data, b: Data, now: real)
    requires v.keyOf(a) == v.keyOf(b) && CanBeStored(cfg, v, v.run(a)) && v.run(b) != v.run(a)
    ensures CachedAnswer(cfg, v, After(cfg, v, [Begin(a, now), Finish(a, now)]), b, now) == v.run(a) != v.run(b)
  {
    var steps := [Begin(a, now), Finish(a, now)];
    assert steps[..1][..0] == [] && steps[..1][0] == Begin(a, now);
    assert After(cfg, v, steps[..1]) == EMPTY;
    var value := v.run(a).value;
    var size := v.sizeOf(value);
    assert After(cfg, v, steps) == Set(cfg, EMPTY, v.keyOf(a), value, v.ttl, size, now).0;
    assert MakeRoom(cfg, [], size) == [];
    SetThenGet(cfg, EMPTY, v.keyOf(a), value, v.ttl, size, now, now);
  }

  /** Every call of every run answers what the plain validator answers. */
  ghost predicate IsTransparent(cfg: Config, v: Validator) {
    forall steps, data, now :: CachedAnswer(cfg, v, After(cfg, v, steps), data, now) == v.run(data)
  }

  /**
   * Through hits, expiry, eviction, memory refusals and results that are not stored, the cached validator is the
   * validator exactly when data that share a key share their storable results.
   */
  lemma CachedIsPlainIff(cfg: Config, v: Validator)
    ensures IsTransparent(cfg, v) <==> KeysDetermineResults(cfg, v)
  {
    if KeysDetermineResults(cfg, v) {
      forall steps, data, now ensures CachedAnswer(cfg, v, After(cfg, v, steps), data, now) == v.run(data) {
        FaithfulAlways(cfg, v, steps);
      }
    }
    if IsTransparent(cfg, v) {
      forall a, b | v.keyOf(a) == v.keyOf(b) && CanBeStored(cfg, v, v.run(a)) ensures v.run(b) == v.run(a) {
        if v.run(b) != v.run(a) { CollisionShows(cfg, v, a, b, 0.0); }
      }
    }
  }

  /** One call, run to its end: the same result, and the cache is left fit for the next. */
  method Validate(v: Validator, cache: ValidationCache, data: Data, asked: real, stored: real) returns (outcome: Outcome)
    requires cache.Valid() && Faithful(v, cache.View()) && KeysDetermineResults(cache.config, v)
    modifies cache
    ensures cache.Valid() && Faithful(v, cache.View())
    ensures outcome == v.run(data)
    ensures cache.View() == if Get(cache.config, old(cache.View()), v.keyOf(data), asked).1 != Null
                            then Next(cache.config, v, old(cache.View()), Begin(data, asked))
                            else Next(cache.config, v, Next(cache.config, v, old(cache.View()), Begin(data, asked)), Finish(data, stored))
  {
    var cacheKey := v.keyOf(data);
    GetKeepsFaithful(cache.config, v, cache.View(), cacheKey, asked);
    var cachedResult := cache.GetValue(cacheKey, asked);
    if cachedResult != Null {
      return Returned(cachedResult);
    }
    outcome := v.run(data);
    if IsStored(outcome) {
      StepKeepsFaithful(cache.config, v, cache.View(), Finish(data, stored));
      var _ := cache.SetValue(cacheKey, outcome.value, v.ttl, v.sizeOf(outcome.value), stored);
    }
  }
}
