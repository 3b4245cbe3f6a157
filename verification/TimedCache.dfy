/**
 timedCache of internal/collector/cache.go as one object: the two critical sections of GetOrFetch and
 AgeSeconds, each atomic under its lock. How they interleave is the subject of CacheProtocol.
 */
module TimedCache {
  import opened Numbers

  newtype Byte = x: int | 0 <= x < 256

  /** The freshness test: something has been stored, and less than ttl ago. */
  predicate Fresh(fetchAt: Option<int>, ttl: int, now: int) {
    fetchAt.Some? && now - fetchAt.value < ttl
  }

  /** Times are nanoseconds of a clock that never goes backwards; None is the zero time. */
  class TimedCache {
    var data: array<Byte>
    var fetchAt: Option<int>
    const ttl: int

    constructor (ttl: int)
      ensures fetchAt == None && this.ttl == ttl && data.Length == 0 && fresh(data)
    {
      this.ttl := ttl;
      data := new Byte[0];
      fetchAt := None;
    }

    /** A new slice with the stored bytes. */
    method Copy() returns (copy: array<Byte>)
      ensures fresh(copy) && copy[..] == data[..]
    {
      copy := new Byte[data.Length];
      for i := 0 to data.Length
        invariant copy[..i] == data[..i]
      {
        copy[i] := data[i];
      }
      assert copy[..] == copy[..data.Length] && data[..] == data[..data.Length];
    }

    /** Fast path, under the read lock: a copy when the data is fresh, nothing otherwise. */
    method Lookup(now: int) returns (hit: Option<array<Byte>>)
      ensures hit.Some? <==> Fresh(fetchAt, ttl, now)
      ensures hit.Some? ==> fresh(hit.value) && hit.value[..] == data[..]
    {
      hit := None;
      if Fresh(fetchAt, ttl, now) {
        var copy := Copy();
        hit := Some(copy);
      }
    }

    /**
     Slow path, under the write lock: the test again, then the fetch. fetched is what the fetch would
     return, storedAt the time at which its result is stored. A hit hands out a copy; a miss hands out
     the stored slice itself.
     */
    method FetchLocked(now: int, fetched: Option<array<Byte>>, storedAt: int) returns (result: Option<array<Byte>>)
      modifies this
      ensures Fresh(old(fetchAt), ttl, now) ==>
                unchanged(this) && result.Some? && fresh(result.value) && result.value[..] == old(data[..])
      ensures !Fresh(old(fetchAt), ttl, now) ==> result == fetched
      ensures !Fresh(old(fetchAt), ttl, now) && fetched.None? ==> unchanged(this)
      ensures !Fresh(old(fetchAt), ttl, now) && fetched.Some? ==>
                data == fetched.value && fetchAt == Some(storedAt)
    {
      if Fresh(fetchAt, ttl, now) {
        var copy := Copy();
        return Some(copy);
      }
      if fetched.None? {
        return None;
      }
      data := fetched.value;
      fetchAt := Some(storedAt);
      return fetched;
    }

    /**
     GetOrFetch when nobody interferes between its two critical sections: fresh data is copied and nothing
     changes; otherwise the second test fails too, and the fetch decides.
     */
    method GetOrFetch(now: int, retest: int, fetched: Option<array<Byte>>, storedAt: int)
      returns (result: Option<array<Byte>>)
      requires now <= retest
      modifies this
      ensures Fresh(old(fetchAt), ttl, now) ==>
                unchanged(this) && result.Some? && fresh(result.value) && result.value[..] == old(data[..])
      ensures !Fresh(old(fetchAt), ttl, now) && fetched.None? ==> unchanged(this) && result.None?
      ensures !Fresh(old(fetchAt), ttl, now) && fetched.Some? ==>
                result == fetched && data == fetched.value && fetchAt == Some(storedAt)
    {
      result := Lookup(now);
      if result.None? {
        result := FetchLocked(retest, fetched, storedAt);
      }
    }

    /** AgeSeconds, in nanoseconds; -1 before the first successful fetch. */
    method Age(now: int) returns (age: int)
      requires fetchAt.Some? ==> fetchAt.value <= now
      ensures age == -1 <==> fetchAt.None?
      ensures fetchAt.Some? ==> age == now - fetchAt.value
    {
      if fetchAt.None? {
        return -1;
      }
      return now - fetchAt.value;
    }
  }
}
