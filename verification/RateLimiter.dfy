// The limiter's shared state: bucket objects updated in place, reached through one table.
module RateLimiter {
  import opened TokenBucket
  import opened Eviction

  class BucketObject {
    var tokens: real
    var lastSeen: real

    constructor (tokens: real, lastSeen: real)
      ensures State() == Bucket(tokens, lastSeen)
    {
      this.tokens, this.lastSeen := tokens, lastSeen;
    }

    function State(): Bucket
      reads this
    {
      Bucket(tokens, lastSeen)
    }

    // The part of a request under the bucket's lock.
    method Take(c: Config, now: real) returns (admitted: bool)
      modifies this
      ensures Decision(State(), admitted) == Decide(c, old(State()), now)
    {
      var elapsed := now - lastSeen;
      tokens := MinFloat(c.limit, tokens + elapsed * c.rate);
      lastSeen := now;
      if tokens < 1.0 {
        return false;
      }
      tokens := tokens - 1.0;
      return true;
    }
  }

  // One client's bucket per entry.
  type Table = map<Ip, Bucket>

  // A request with nothing between its lookup and its update.
  function Served(c: Config, t: Table, ip: Ip, now: real): Decision {
    Decide(c, if ip in t then t[ip] else Fresh(c, now), now)
  }

  // The clients the evictor finds idle, each looked at in its own time.
  function StaleKeys(c: Config, t: Table, clock: Ip -> real): set<Ip> {
    set ip | ip in t && Stale(c, t[ip], clock(ip))
  }

  class Limiter {
    const c: Config
    var buckets: map<Ip, BucketObject>

    // The bucket refills to the limit in one window.
    constructor (limit: real, window: real)
      requires window > 0.0
      ensures c.limit == limit && c.window == window && c.rate * window == limit
      ensures limit >= 0.0 ==> TokenBucket.Valid(c)
      ensures Valid() && buckets == map[]
    {
      c := Config(limit, window, limit / window);
      buckets := map[];
    }

    // No two clients share a bucket.
    ghost predicate Valid()
      reads this
    {
      forall p, q :: p in buckets && q in buckets && p != q ==> buckets[p] != buckets[q]
    }

    ghost function Contents(): Table
      reads this, buckets.Values
    {
      map ip | ip in buckets :: buckets[ip].State()
    }

    // A missing client gets a new full bucket.
    method LoadOrStore(ip: Ip, now: real) returns (b: BucketObject)
      requires Valid()
      modifies this
      ensures Valid()
      ensures buckets == old(buckets)[ip := b]
      ensures if ip in old(buckets) then b == old(buckets)[ip] else fresh(b) && b.State() == Fresh(c, now)
    {
      if ip in buckets {
        b := buckets[ip];
      } else {
        b := new BucketObject(c.limit, now);
        buckets := buckets[ip := b];
      }
    }

    // One request, when nothing comes between the lookup and the update.
    method Handle(ip: Ip, now: real) returns (admitted: bool)
      requires Valid()
      modifies this, buckets.Values
      ensures Valid()
      ensures Contents() == old(Contents())[ip := Served(c, old(Contents()), ip, now).bucket]
      ensures admitted == Served(c, old(Contents()), ip, now).admitted
      ensures buckets.Keys == old(buckets).Keys + {ip}
      ensures fresh(buckets.Values - old(buckets.Values))
    {
      var b := LoadOrStore(ip, now);
      admitted := b.Take(c, now);
    }

    // The evictor's pass over the table, undisturbed: exactly the clients stale when looked at lose their buckets.
    method Sweep(clock: Ip -> real)
      requires Valid()
      modifies this
      ensures Valid()
      ensures buckets == old(buckets) - StaleKeys(c, old(Contents()), clock)
      ensures forall ip :: ip in old(buckets) ==>
                (ip in buckets <==> clock(ip) - old(buckets)[ip].lastSeen <= 5.0 * c.window)
    {
      var keys := buckets.Keys;
      ghost var start, table := buckets, Contents();
      while keys != {}
        invariant keys <= buckets.Keys <= start.Keys == table.Keys
        invariant Remaining(c, start, buckets, table, clock, keys)
        decreases |keys|
      {
        var ip :| ip in keys;
        var b := buckets[ip];
        assert b == start[ip] && table[ip] == b.State();
        LookedAt(c, start, buckets, table, clock, keys, ip);
        if clock(ip) - b.lastSeen > 5.0 * c.window {
          buckets := buckets - {ip};
        }
        keys := keys - {ip};
      }
    }
  }

  // The entries left when the clients in keys are yet to be looked at.
  ghost predicate Remaining<T>(
    c: Config, start: map<Ip, T>, left: map<Ip, T>, t: Table, clock: Ip -> real, keys: set<Ip>)
  {
    left == start - (StaleKeys(c, t, clock) - keys)
  }

  lemma {:induction false} LookedAt<T>(
    c: Config, start: map<Ip, T>, left: map<Ip, T>, t: Table, clock: Ip -> real, keys: set<Ip>, ip: Ip)
    requires Remaining(c, start, left, t, clock, keys) && ip in keys && ip in t
    ensures Remaining(c, start, if Stale(c, t[ip], clock(ip)) then left - {ip} else left, t, clock, keys - {ip})
  {
    var stale := StaleKeys(c, t, clock);
    if Stale(c, t[ip], clock(ip)) {
      assert stale - (keys - {ip}) == (stale - keys) + {ip};
    } else {
      assert stale - (keys - {ip}) == stale - keys;
    }
  }
}
