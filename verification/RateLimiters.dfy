/** The rate limiters over buckets that are updated in place: the one per tenant and the one
    per client address run the same steps with different limits. */
module RateLimiters {
  import opened Common
  import opened TokenBucket

  /** Tokens per second, and a burst. */
  function TenantPolicy(rate: real, burst: int): Policy { Policy(rate, burst, 600.0) }

  /** Requests per minute, and a burst; no burst means the rate. */
  function ClientPolicy(rate: int, burst: int): Policy {
    Policy(rate as real / 60.0, if burst == 0 then rate else burst, 300.0)
  }

  /** One key's bucket. */
  class Cell {
    const policy: Policy
    var tokens: real
    var last: real

    constructor (policy: Policy, now: real)
      ensures this.policy == policy && Value() == Present(policy, None, now)
    {
      this.policy, tokens, last := policy, policy.capacity as real, now;
    }

    function Value(): Bucket
      reads this
    {
      Bucket(tokens, last)
    }

    /** Refills by the time since the last call, then takes a token if there is one. */
    method Take(now: real) returns (ok: bool)
      modifies this
      ensures ok == Admits(policy, Some(old(Value())), now)
      ensures Value() == Taken(policy, Some(old(Value())), now)
    {
      var elapsed := now - last;
      tokens := tokens + Inflow(policy, elapsed);
      if tokens > policy.capacity as real {
        tokens := policy.capacity as real;
      }
      last := now;
      ok := tokens >= 1.0;
      if ok {
        tokens := tokens - 1.0;
      }
    }
  }

  type Cells = map<string, Cell>

  class RateLimiter {
    const policy: Policy
    var buckets: Cells

    /** No two keys share a bucket. */
    ghost predicate Valid()
      reads this
    {
      && (forall k :: k in buckets ==> buckets[k].policy == policy)
      && (forall j, k :: j in buckets && k in buckets && j != k ==> buckets[j] != buckets[k])
    }

    ghost function View(): Buckets
      reads this, buckets.Values
    {
      map k | k in buckets :: buckets[k].Value()
    }

    constructor PerTenant(rate: real, burst: int)
      ensures Valid() && View() == map[] && policy == TenantPolicy(rate, burst)
    {
      policy, buckets := TenantPolicy(rate, burst), map[];
    }

    constructor PerClient(rate: int, burst: int)
      ensures Valid() && View() == map[] && policy == ClientPolicy(rate, burst)
    {
      policy, buckets := ClientPolicy(rate, burst), map[];
    }

    /** The bucket of a key, a full one if there was none. */
    method BucketOf(key: string, now: real) returns (b: Cell)
      requires Valid()
      modifies this
      ensures Valid() && key in buckets && buckets[key] == b && b.policy == policy
      ensures b.Value() == Present(policy, Get(old(View()), key), now)
      ensures View() == old(View())[key := b.Value()]
      ensures forall c :: c in buckets.Values && c !in old(buckets.Values) ==> fresh(c)
    {
      if key !in buckets {
        b := new Cell(policy, now);
        buckets := buckets[key := b];
      }
      b := buckets[key];
    }

    method Allow(key: string, now: real) returns (ok: bool)
      requires Valid()
      modifies this, buckets.Values
      ensures Valid() && forall c :: c in buckets.Values && c !in old(buckets.Values) ==> fresh(c)
      ensures ok == Admits(policy, Get(old(View()), key), now)
      ensures View() == old(View())[key := Taken(policy, Get(old(View()), key), now)]
    {
      var b := BucketOf(key, now);
      label Found:
      ok := b.Take(now);
      assert forall k :: k in buckets && k != key ==> buckets[k].Value() == old@Found(buckets[k].Value());
    }

    /** Drops the buckets that were not used for the idle time. */
    method CleanUp(now: real)
      requires Valid()
      modifies this
      ensures Valid() && buckets.Values <= old(buckets.Values)
      ensures View() == CleanedUp(policy, old(View()), now)
    {
      var todo := buckets.Keys;
      while todo != {}
        invariant todo <= buckets.Keys <= old(buckets).Keys
        invariant forall k :: k in buckets ==> buckets[k] == old(buckets)[k]
        invariant forall k :: k in old(buckets) && k !in todo ==>
          (k in buckets <==> !Idle(policy, old(buckets)[k].Value(), now))
        decreases |todo|
      {
        var k :| k in todo;
        if now - buckets[k].last > policy.idle {
          buckets := buckets - {k};
        }
        todo := todo - {k};
      }
    }
  }

  /** Without a burst of its own a client's bucket always refills within the idle time; with one,
      exactly if five minutes of its rate make up the burst. */
  lemma ClientCleanupsHarmless(rate: int, burst: int)
    requires rate >= 0
    ensures var p := ClientPolicy(rate, burst);
            Sound(p) && (p.capacity as real <= p.idle * p.rate <==> burst == 0 || burst <= 5 * rate)
  {
    assert 300.0 * (rate as real / 60.0) == 5.0 * rate as real;
  }

  /** A tenant's does exactly if ten minutes of its rate make up the burst. */
  lemma TenantCleanupsHarmless(rate: real, burst: int)
    ensures var p := TenantPolicy(rate, burst);
            p.capacity as real <= p.idle * p.rate <==> burst as real <= 600.0 * rate
  {
  }

  /** In every minute of every run without cleanups a client gets no more than its rate beyond the
      burst, or beyond the rate itself when it has no burst. */
  lemma ClientMinute(rate: int, burst: int, evs: seq<Event>, key: string, s: real)
    requires rate >= 0 && burst >= 0
    requires NoCleanup(evs) && Ordered(evs)
    ensures Count(ClientPolicy(rate, burst), evs, key, s, s + 60.0) <= rate + if burst == 0 then rate else burst
  {
    var p := ClientPolicy(rate, burst);
    WindowBound(p, evs, key, s, s + 60.0);
    assert Inflow(p, s + 60.0 - s) == 60.0 * (rate as real / 60.0) == rate as real;
  }

  /** And a tenant in every second no more than its rate beyond the burst. */
  lemma TenantSecond(rate: real, burst: int, evs: seq<Event>, key: string, s: real)
    requires rate >= 0.0 && burst >= 0
    requires NoCleanup(evs) && Ordered(evs)
    ensures Count(TenantPolicy(rate, burst), evs, key, s, s + 1.0) as real <= rate + burst as real
  {
    var p := TenantPolicy(rate, burst);
    WindowBound(p, evs, key, s, s + 1.0);
    assert Inflow(p, s + 1.0 - s) == rate;
  }
}
