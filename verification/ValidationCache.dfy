/** The cache of validation results as it runs, with its tracking maps and its memory counter. */
module ValidationCache {
  import opened Prelude
  import opened CacheEntries
  import opened CacheOperations

  class ValidationCache {
    const config: Config
    var entries: seq<Entry>
    var accessOrder: map<Key, nat>
    var accessCount: map<Key, nat>
    var memoryUsage: int
    var accessSequence: nat

    function View(): Cache
      reads this
    {
      Cache(entries, accessSequence)
    }

    /** The tracking maps mirror the entries, and the counter is their total size. */
    ghost predicate Valid()
      reads this
    {
      Consistent(config, View(), accessOrder, accessCount, memoryUsage)
    }

    constructor (config: Config)
      ensures Valid() && View() == EMPTY && this.config == config
    {
      this.config := config;
      entries, accessOrder, accessCount, memoryUsage, accessSequence := [], map[], map[], 0, 0;
    }

    method RemoveEntry(key: Key) returns (removed: bool)
      requires Valid()
      modifies this`entries, this`accessOrder, this`accessCount, this`memoryUsage
      ensures Valid() && entries == WithoutKeys(old(entries), {key}) && removed == HasKey(old(entries), key)
    {
      RemovalKeepsInv(config, View(), {key});
      TrackingAfterRemoval(entries, Accessed, key);
      TrackingAfterRemoval(entries, AccessCount, key);
      var found := Find(entries, key);
      if found.None? {
        RemoveAbsent(entries, {key});
        return false;
      }
      var entry := entries[found.value];
      RemoveOne(entries, found.value);
      entries := WithoutKeys(entries, {key});
      accessOrder := accessOrder - {key};
      accessCount := accessCount - {key};
      memoryUsage := memoryUsage - entry.size;
      return true;
    }

    method EvictEntries(count: nat)
      requires Valid()
      modifies this`entries, this`accessOrder, this`accessCount, this`memoryUsage
      ensures Valid() && entries == Evict(old(entries), config.strategy, count)
    {
      var toEvict := Take(EvictionOrder(entries, config.strategy), count);
      RemoveAll(toEvict);
    }

    method RemoveAll(victims: seq<Entry>)
      requires Valid()
      modifies this`entries, this`accessOrder, this`accessCount, this`memoryUsage
      ensures Valid() && entries == WithoutKeys(old(entries), KeysOf(victims))
    {
      var i := 0;
      RemoveEnds(entries, victims);
      while i < |victims|
        invariant 0 <= i <= |victims|
        invariant Valid()
        invariant entries == WithoutKeys(old(entries), KeysOf(victims[..i]))
      {
        RemoveNext(old(entries), victims, i);
        var _ := RemoveEntry(victims[i].key);
        i := i + 1;
      }
    }

    method CheckMemoryLimits(newEntrySize: nat) returns (ok: bool)
      requires Valid()
      modifies this`entries, this`accessOrder, this`accessCount, this`memoryUsage
      ensures Valid() && entries == MakeRoom(config, old(entries), newEntrySize)
      ensures ok <==> Fits(config, old(View()), newEntrySize)
    {
      if memoryUsage + newEntrySize > config.memoryLimit {
        EvictEntries(Tenth(|entries|));
        if memoryUsage + newEntrySize > config.memoryLimit {
          return false;
        }
      }
      return true;
    }

    method GetValue(key: Key, now: real) returns (value: Value)
      requires Valid()
      modifies this
      ensures Valid() && (View(), value) == Get(config, old(View()), key, now)
    {
      if !config.enabled {
        return Null;
      }
      var found := Find(entries, key);
      if found.None? {
        return Null;
      }
      var entry := entries[found.value];
      if Expired(entry, now) {
        var _ := RemoveEntry(key);
        return Null;
      }
      GetKeepsInv(config, View(), key, now);
      UpdateAccess(found.value);
      return entry.value;
    }

    method UpdateAccess(i: nat)
      requires Valid() && i < |entries| && Inv(config, Touched(View(), i))
      modifies this
      ensures Valid() && View() == Touched(old(View()), i)
    {
      var entry := Touched(View(), i).entries[i];
      TouchKeepsMemory(entries, i, entry);
      TrackingAfterTouch(entries, Accessed, i, entry);
      TrackingAfterTouch(entries, AccessCount, i, entry);
      accessSequence := accessSequence + 1;
      entries := entries[i := entry];
      accessOrder := accessOrder[entry.key := entry.accessed];
      accessCount := accessCount[entry.key := entry.accessCount];
    }

    method SetValue(key: Key, value: Value, ttl: Option<real>, size: nat, now: real) returns (stored: bool)
      requires Valid()
      modifies this
      ensures Valid() && (View(), stored) == Set(config, old(View()), key, value, ttl, size, now)
    {
      if !config.enabled {
        return false;
      }
      var entry := NewEntry(config, View(), key, value, ttl, size, now);
      stored := CheckMemoryLimits(size);
      if stored {
        Store(entry);
      }
    }

    /** The rest of set, once there is memory for the entry */
    method Store(entry: Entry)
      requires Valid() && entry.accessed == accessSequence + 1 && entry.accessCount == 1
      requires Memory(entries) + entry.size <= config.memoryLimit
      modifies this
      ensures Valid() && View() == Cache(Slim(config, WithoutKeys(old(entries), {entry.key})) + [entry], entry.accessed)
    {
      StoreKeepsInv(config, View(), entry);
      SlimIsOthers(config, entries, entry.key);
      Replace(entry.key);
      Append(entry);
    }

    /** Makes way for an entry with this key */
    method Replace(key: Key)
      requires Valid()
      modifies this`entries, this`accessOrder, this`accessCount, this`memoryUsage
      ensures Valid() && entries == Slim(config, WithoutKeys(old(entries), {key}))
    {
      var _ := RemoveEntry(key);
      if |entries| >= config.maxSize {
        EvictEntries(1);
      }
    }

    method Append(entry: Entry)
      requires Valid() && !HasKey(entries, entry.key) && entry.accessCount == 1
      requires Inv(config, Cache(entries + [entry], entry.accessed))
      modifies this
      ensures Valid() && View() == Cache(old(entries) + [entry], entry.accessed)
    {
      MemorySnoc(entries, entry);
      TrackingSnoc(entries, Accessed, entry);
      TrackingSnoc(entries, AccessCount, entry);
      accessSequence := entry.accessed;
      entries := entries + [entry];
      accessOrder := accessOrder[entry.key := entry.accessed];
      accessCount := accessCount[entry.key := 1];
      memoryUsage := memoryUsage + entry.size;
    }

    method HasValue(key: Key, now: real) returns (has: bool)
      requires Valid()
      modifies this
      ensures Valid() && (View(), has) == Has(config, old(View()), key, now)
    {
      if !config.enabled {
        return false;
      }
      var found := Find(entries, key);
      if found.None? {
        return false;
      }
      if Expired(entries[found.value], now) {
        var _ := RemoveEntry(key);
        return false;
      }
      return true;
    }

    method ClearAll()
      requires Valid()
      modifies this
      ensures Valid() && View() == Clear(old(View()))
    {
      entries, accessOrder, accessCount, memoryUsage := [], map[], map[], 0;
    }

    method RunGarbageCollection(now: real)
      requires Valid()
      modifies this
      ensures Valid() && View() == CollectGarbage(old(View()), now)
    {
      var expired := ExpiredEntries(entries, now);
      RemoveAll(expired);
    }
  }

  /** The first loop of the garbage collection */
  method ExpiredEntries(entries: seq<Entry>, now: real) returns (expired: seq<Entry>)
    ensures KeysOf(expired) == ExpiredKeys(entries, now)
  {
    expired := [];
    var i := 0;
    while i < |entries|
      invariant 0 <= i <= |entries|
      invariant forall e :: e in expired <==> e in entries[..i] && Expired(e, now)
    {
      assert entries[..i + 1] == entries[..i] + [entries[i]];
      if Expired(entries[i], now) {
        expired := expired + [entries[i]];
      }
      i := i + 1;
    }
    assert entries[..i] == entries;
  }
}
