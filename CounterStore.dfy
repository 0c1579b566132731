/**
 * The shared key-value counter store (Redis) at the boundary the rate
 * limiter uses: GET, SET, INCR, EXPIRE and TTL on string keys holding
 * integer counters, plus the passage of time that makes keys expire.
 *
 * `StoreState` is the store's contents as a value, with one function per
 * command; `Store` is the shared, mutable store whose methods perform the
 * commands in place and are proved against those functions.
 */
module CounterStore {
  import opened Optional

  /** Redis' TTL reply for a key that does not exist. */
  const NoSuchKey := -2
  /** Redis' TTL reply for a key that exists but has no expiry. */
  const NoExpiry := -1

  /**
   * `counts` holds every live key's counter; `ttls` holds the seconds left
   * before expiry of those live keys that have one.
   */
  datatype StoreState = StoreState(counts: map<string, int>, ttls: map<string, int>)
  {
    /** Only live keys carry an expiry, and an expiry is always in the future. */
    predicate Valid() {
      ttls.Keys <= counts.Keys && forall k :: k in ttls ==> ttls[k] > 0
    }

    /** GET: the counter, or nothing when the key is absent or expired. */
    function Get(k: string): (v: Option<int>)
      ensures v.Some? <==> k in counts
      ensures v.Some? ==> v.value == counts[k]
    {
      if k in counts then Some(counts[k]) else None
    }

    /** GET followed by Ruby's `to_i`: an absent key reads as 0. */
    function CountOf(k: string): int {
      ToI(Get(k))
    }

    /** TTL: seconds left, or the replies for "no such key" and "no expiry". */
    function Ttl(k: string): (t: int)
      ensures Valid() ==> (t == NoSuchKey <==> k !in counts)
      ensures Valid() ==> (t == NoExpiry <==> k in counts && k !in ttls)
      ensures Valid() ==> (t > 0 <==> k in ttls)
    {
      if k !in counts then NoSuchKey else if k !in ttls then NoExpiry else ttls[k]
    }

    /** SET: stores the value and, as in Redis, discards any expiry. */
    function Set(k: string, v: int): (r: StoreState)
      ensures r.Get(k) == Some(v) && r.Ttl(k) == NoExpiry
      ensures forall j :: j != k ==> r.Get(j) == Get(j) && r.Ttl(j) == Ttl(j)
      ensures Valid() ==> r.Valid()
    {
      StoreState(counts[k := v], ttls - {k})
    }

    /**
     * EXPIRE: gives a live key `secs` seconds to live. A missing key is left
     * alone; a non-positive time deletes the key at once, as Redis does.
     */
    function Expire(k: string, secs: int): (r: StoreState)
      ensures k !in counts ==> r == this
      ensures k in counts && secs > 0 ==> r.Get(k) == Get(k) && r.Ttl(k) == secs
      ensures k in counts && secs <= 0 ==> r.Get(k) == None
      ensures forall j :: j != k ==> r.Get(j) == Get(j) && r.Ttl(j) == Ttl(j)
      ensures Valid() ==> r.Valid()
    {
      if k !in counts then this
      else if secs <= 0 then StoreState(counts - {k}, ttls - {k})
      else StoreState(counts, ttls[k := secs])
    }

    /** INCR: adds one to the counter, an absent key counting as 0; the expiry is kept. */
    function Incr(k: string): (r: StoreState)
      ensures r.Get(k) == Some(CountOf(k) + 1)
      ensures k in counts ==> r.Ttl(k) == Ttl(k)
      ensures Valid() && k !in counts ==> r.Ttl(k) == NoExpiry
      ensures forall j :: j != k ==> r.Get(j) == Get(j) && r.Ttl(j) == Ttl(j)
      ensures Valid() ==> r.Valid()
    {
      StoreState(counts[k := CountOf(k) + 1], ttls)
    }

    /**
     * `secs` seconds pass: every expiry counts down, and a key whose time
     * runs out is removed together with its counter.
     */
    function Elapse(secs: nat): (r: StoreState)
      ensures forall k :: k in ttls && ttls[k] <= secs ==> r.Get(k) == None
      ensures forall k :: k in counts && k !in ttls ==> r.Get(k) == Get(k) && r.Ttl(k) == Ttl(k)
      ensures Valid() ==> forall k :: k in ttls && ttls[k] > secs ==> r.Get(k) == Get(k) && r.Ttl(k) == ttls[k] - secs
      ensures Valid() ==> r.Valid()
    {
      StoreState(
        map k | k in counts && (k !in ttls || ttls[k] > secs) :: counts[k],
        map k | k in ttls && ttls[k] > secs :: ttls[k] - secs)
    }
  }

  /** Ruby's `to_i` on a GET reply: `nil` becomes 0. */
  function ToI(reply: Option<int>): int {
    match reply
    case None => 0
    case Some(n) => n
  }

  /** The empty store, as after FLUSHDB. */
  const Empty := StoreState(map[], map[])

  /** The shared store: one object that every request limit reads and updates. */
  class Store {
    var counts: map<string, int>
    var ttls: map<string, int>

    function State(): StoreState
      reads this
    {
      StoreState(counts, ttls)
    }

    constructor ()
      ensures State() == Empty
    {
      counts, ttls := map[], map[];
    }

    method Get(k: string) returns (v: Option<int>)
      ensures v == State().Get(k)
    {
      v := if k in counts then Some(counts[k]) else None;
    }

    method Set(k: string, v: int)
      modifies this
      ensures State() == old(State()).Set(k, v)
    {
      counts := counts[k := v];
      ttls := ttls - {k};
    }

    /** Returns whether a timeout was set, as Redis' reply 1 or 0. */
    method Expire(k: string, secs: int) returns (applied: bool)
      modifies this
      ensures State() == old(State()).Expire(k, secs)
      ensures applied <==> k in old(counts)
    {
      applied := k in counts;
      if !applied {
      } else if secs <= 0 {
        counts := counts - {k};
        ttls := ttls - {k};
      } else {
        ttls := ttls[k := secs];
      }
    }

    /** Returns the new counter. */
    method Incr(k: string) returns (n: int)
      modifies this
      ensures State() == old(State()).Incr(k)
      ensures n == old(State()).CountOf(k) + 1
    {
      n := if k in counts then counts[k] + 1 else 1;
      counts := counts[k := n];
    }

    method Ttl(k: string) returns (t: int)
      ensures t == State().Ttl(k)
    {
      t := if k !in counts then NoSuchKey else if k !in ttls then NoExpiry else ttls[k];
    }

    /** The clock moves on by `secs` seconds. */
    method Elapse(secs: nat)
      modifies this
      ensures State() == old(State()).Elapse(secs)
    {
      counts := map k | k in counts && (k !in ttls || ttls[k] > secs) :: counts[k];
      ttls := map k | k in ttls && ttls[k] > secs :: ttls[k] - secs;
    }
  }

}
