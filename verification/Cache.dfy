/** cache/cache.go and cache/memory.go: a map whose records can expire. Time is an integer clock. */
module Cache {
  import opened Wrappers

  // No expiry is the zero time.
  datatype CacheRecord<T> = CacheRecord(expiresAt: Option<int>, value: T) {
    predicate IsExpired(now: int) {
      expiresAt.Some? && now > expiresAt.value
    }
  }

  function Put<T>(data: map<string, CacheRecord<T>>, key: string, value: T, ttl: int, now: int)
    : map<string, CacheRecord<T>>
  {
    data[key := CacheRecord(if ttl > 0 then Some(now + ttl) else None, value)]
  }

  function Find<T>(data: map<string, CacheRecord<T>>, key: string, now: int): Option<T> {
    if key in data && !data[key].IsExpired(now) then Some(data[key].value) else None
  }

  // A value is found until its time to live is over, for ever when it has none, and under its own
  // key only.
  lemma FoundUntilExpiry<T>(data: map<string, CacheRecord<T>>, key: string, value: T, ttl: int, now: int,
                            other: string, later: int)
    ensures Find(Put(data, key, value, ttl, now), other, later)
         == if other != key then Find(data, other, later)
            else if ttl > 0 && later > now + ttl then None else Some(value)
  {
  }

  class MemoryCache<T> {
    const defaultTTL: int
    var data: map<string, CacheRecord<T>>

    constructor (defaultTTL: int)
      ensures this.defaultTTL == defaultTTL && data == map[]
    {
      this.defaultTTL := defaultTTL;
      data := map[];
    }

    method AddWithTTL(key: string, value: T, ttl: int, now: int)
      modifies this
      ensures data == Put(old(data), key, value, ttl, now)
    {
      var expiresAt: Option<int> := None;
      if ttl > 0 {
        expiresAt := Some(now + ttl);
      }
      data := data[key := CacheRecord(expiresAt, value)];
    }

    method Add(key: string, value: T, now: int)
      modifies this
      ensures data == Put(old(data), key, value, defaultTTL, now)
    {
      AddWithTTL(key, value, defaultTTL, now);
    }

    method Get(key: string, now: int) returns (r: Option<T>)
      ensures r == Find(data, key, now)
    {
      if key !in data {
        return None;
      }
      var rec := data[key];
      if rec.IsExpired(now) {
        return None;
      }
      return Some(rec.value);
    }

    method Delete(key: string)
      modifies this
      ensures data == old(data) - {key}
    {
      data := data - {key};
    }
  }
}
