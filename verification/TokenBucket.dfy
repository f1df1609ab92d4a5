/** Token buckets, one per key, created on demand and dropped when idle: what the two rate
    limiters share. Time is in seconds. */
module TokenBucket {
  import opened Common

  /** `idle` is how long a bucket must be unused for a cleanup to drop it. */
  datatype Policy = Policy(rate: real, capacity: int, idle: real)

  ghost predicate Sound(p: Policy) { p.rate >= 0.0 && p.idle >= 0.0 }

  datatype Bucket = Bucket(tokens: real, last: real)

  type Buckets = map<string, Bucket>

  function Least(a: real, b: real): real { if a > b then b else a }

  /** What flows into a bucket in a stretch of time. */
  function Inflow(p: Policy, dt: real): real { dt * p.rate }

  /** Tokens in the bucket at time `now`. */
  function Refilled(p: Policy, b: Bucket, now: real): real {
    Least(b.tokens + Inflow(p, now - b.last), p.capacity as real)
  }

  function Present(p: Policy, b: Option<Bucket>, now: real): Bucket {
    if b.Some? then b.value else Bucket(p.capacity as real, now)
  }

  /** Whether a call at time `now` is admitted, and the bucket it leaves. */
  function Admits(p: Policy, b: Option<Bucket>, now: real): bool {
    Refilled(p, Present(p, b, now), now) >= 1.0
  }

  function Taken(p: Policy, b: Option<Bucket>, now: real): Bucket {
    Bucket(Refilled(p, Present(p, b, now), now) - (if Admits(p, b, now) then 1.0 else 0.0), now)
  }

  function Get(m: Buckets, k: string): Option<Bucket> { if k in m then Some(m[k]) else None }

  function Idle(p: Policy, b: Bucket, now: real): bool { now - b.last > p.idle }

  function CleanedUp(p: Policy, m: Buckets, now: real): Buckets {
    map k | k in m && !Idle(p, m[k], now) :: m[k]
  }

  // ---------------------------------------------------------------- runs

  datatype Event = Call(key: string, at: real) | Cleanup(at: real)

  ghost predicate Ordered(evs: seq<Event>) {
    forall i, j :: 0 <= i < j < |evs| ==> evs[i].at <= evs[j].at
  }

  function Run(p: Policy, evs: seq<Event>): Buckets {
    if evs == [] then map[]
    else
      var n := |evs| - 1;
      var m := Run(p, evs[..n]);
      match evs[n]
      case Call(k, t) => m[k := Taken(p, Get(m, k), t)]
      case Cleanup(t) => CleanedUp(p, m, t)
  }

  /** Whether the i-th event is a call that is admitted. */
  predicate Admitted(p: Policy, evs: seq<Event>, i: nat)
    requires i < |evs|
  {
    evs[i].Call? && Admits(p, Get(Run(p, evs[..i]), evs[i].key), evs[i].at)
  }

  /** The admitted calls of a key in the time window [s, t]. */
  function Count(p: Policy, evs: seq<Event>, k: string, s: real, t: real): nat {
    if evs == [] then 0
    else
      var n := |evs| - 1;
      Count(p, evs[..n], k, s, t)
      + if Admitted(p, evs, n) && evs[n].key == k && s <= evs[n].at <= t then 1 else 0
  }

  // ---------------------------------------------------------------- one key

  /** The calls of a key and the cleanups. */
  function Only(evs: seq<Event>, k: string): (r: seq<Event>)
    ensures |r| <= |evs|
  {
    if evs == [] then []
    else
      var n := |evs| - 1;
      Only(evs[..n], k) + if evs[n].Cleanup? || evs[n].key == k then [evs[n]] else []
  }

  /** A key's bucket is what its own calls and the cleanups leave: keys do not affect each
      other. */
  lemma {:induction false} KeysApart(p: Policy, evs: seq<Event>, k: string)
    ensures Get(Run(p, evs), k) == Get(Run(p, Only(evs, k)), k)
  {
    if evs != [] {
      var n := |evs| - 1;
      KeysApart(p, evs[..n], k);
      var own := Only(evs[..n], k);
      if evs[n].Cleanup? || evs[n].key == k {
        assert (own + [evs[n]])[..|own|] == own;
      } else {
        assert own + [] == own;
      }
    }
  }

  /** And so is every decision on it. */
  lemma DecisionsApart(p: Policy, evs: seq<Event>, k: string, at: real)
    ensures Admitted(p, evs + [Call(k, at)], |evs|) ==
            Admitted(p, Only(evs, k) + [Call(k, at)], |Only(evs, k)|)
  {
    KeysApart(p, evs, k);
    assert (evs + [Call(k, at)])[..|evs|] == evs;
    var own := Only(evs, k);
    assert (own + [Call(k, at)])[..|own|] == own;
  }

  /** When the key was last called, if ever. */
  function LastCall(evs: seq<Event>, k: string): Option<real> {
    if evs == [] then None
    else if evs[|evs| - 1].Call? && evs[|evs| - 1].key == k then Some(evs[|evs| - 1].at)
    else LastCall(evs[..|evs| - 1], k)
  }

  lemma {:induction false} BucketIsOfLastCall(p: Policy, evs: seq<Event>, k: string)
    ensures var b := Get(Run(p, evs), k); b.Some? ==> LastCall(evs, k) == Some(b.value.last)
  {
    if evs != [] { BucketIsOfLastCall(p, evs[..|evs| - 1], k); }
  }

  /** A cleanup drops exactly the buckets whose keys were last called longer ago than the idle
      time, and leaves the others as they are. */
  lemma CleanupDrops(p: Policy, evs: seq<Event>, k: string, at: real)
    requires Get(Run(p, evs), k).Some?
    ensures var b, after := Get(Run(p, evs), k), Get(Run(p, evs + [Cleanup(at)]), k);
            && LastCall(evs, k).Some?
            && after == if at - LastCall(evs, k).value > p.idle then None else b
  {
    BucketIsOfLastCall(p, evs, k);
    assert (evs + [Cleanup(at)])[..|evs|] == evs;
  }

  // ---------------------------------------------------------------- the window bound

  ghost predicate NoCleanup(evs: seq<Event>) {
    forall i :: 0 <= i < |evs| ==> evs[i].Call?
  }

  lemma InflowGrows(p: Policy, a: real, b: real)
    requires Sound(p) && a <= b
    ensures Inflow(p, a) <= Inflow(p, b) && Inflow(p, b) - Inflow(p, a) == Inflow(p, b - a)
    ensures a >= 0.0 ==> Inflow(p, a) >= 0.0
  {
    assert (b - a) * p.rate >= 0.0;
  }

  /** What the bucket can still give by time t: its tokens and what flows in; before its
      first use in the window, a full bucket and what flows in. */
  function Budget(p: Policy, b: Option<Bucket>, s: real, t: real): real {
    if b.Some? && b.value.last >= s then b.value.tokens + Inflow(p, t - b.value.last)
    else p.capacity as real + Inflow(p, t - s)
  }

  function Min0(n: int): real { if n > 0 then 0.0 else n as real }

  ghost predicate BucketOk(p: Policy, b: Option<Bucket>, now: real) {
    b.Some? ==> Min0(p.capacity) <= b.value.tokens <= p.capacity as real && b.value.last <= now
  }

  /** A call keeps the tokens between zero and the capacity. */
  lemma TakeOk(p: Policy, b: Option<Bucket>, now: real)
    requires Sound(p) && BucketOk(p, b, now)
    ensures BucketOk(p, Some(Taken(p, b, now)), now)
  {
    var before := Present(p, b, now);
    InflowGrows(p, 0.0, now - before.last);
    assert Refilled(p, before, now) == Least(before.tokens + Inflow(p, now - before.last), p.capacity as real);
  }

  /** A call is paid for: by the tokens of the bucket, by what flowed in since its last call,
      or, when it is the first in the window, by a full bucket. */
  lemma TakePays(p: Policy, b: Option<Bucket>, s: real, now: real, t: real)
    requires Sound(p) && BucketOk(p, b, now) && s <= now <= t
    ensures Budget(p, Some(Taken(p, b, now)), s, t) + (if Admits(p, b, now) then 1.0 else 0.0)
            <= Budget(p, b, s, t)
  {
    InflowGrows(p, t - now, t - s);
    var before := Present(p, b, now);
    InflowGrows(p, now - before.last, t - before.last);
    assert t - before.last - (now - before.last) == t - now;
    assert Refilled(p, before, now) == Least(before.tokens + Inflow(p, now - before.last), p.capacity as real);
  }

  lemma {:induction false} RunOk(p: Policy, evs: seq<Event>, k: string, now: real)
    requires Sound(p) && Ordered(evs) && (evs != [] ==> evs[|evs| - 1].at <= now)
    ensures BucketOk(p, Get(Run(p, evs), k), now)
  {
    if evs != [] {
      var n := |evs| - 1;
      RunOk(p, evs[..n], k, evs[n].at);
      TakeOk(p, Get(Run(p, evs[..n]), k), evs[n].at);
    }
  }

  lemma {:induction false} Spent(p: Policy, evs: seq<Event>, k: string, s: real, t: real)
    requires Sound(p) && NoCleanup(evs) && Ordered(evs) && s <= t
    requires evs != [] ==> evs[|evs| - 1].at <= t
    ensures Count(p, evs, k, s, t) as real + Budget(p, Get(Run(p, evs), k), s, t)
            <= p.capacity as real + Inflow(p, t - s)
  {
    if evs != [] {
      var n := |evs| - 1;
      var b := Get(Run(p, evs[..n]), k);
      Spent(p, evs[..n], k, s, t);
      RunOk(p, evs[..n], k, evs[n].at);
      if evs[n].key == k {
        assert Get(Run(p, evs), k) == Some(Taken(p, b, evs[n].at));
        if evs[n].at >= s {
          TakePays(p, b, s, evs[n].at, t);
        }
      } else {
        assert Get(Run(p, evs), k) == b;
      }
    }
  }

  /** Events past the window admit nothing in it. */
  lemma {:induction false} PastWindow(p: Policy, evs: seq<Event>, k: string, s: real, t: real, n: nat)
    requires n <= |evs| && forall i :: n <= i < |evs| ==> evs[i].at > t
    ensures Count(p, evs, k, s, t) == Count(p, evs[..n], k, s, t)
    decreases |evs|
  {
    if n < |evs| {
      PastWindow(p, evs[..|evs| - 1], k, s, t, n);
      assert evs[..|evs| - 1][..n] == evs[..n];
    } else {
      assert evs[..n] == evs;
    }
  }

  lemma {:induction false} WindowEnd(evs: seq<Event>, t: real) returns (n: nat)
    requires Ordered(evs)
    ensures n <= |evs|
    ensures forall i :: 0 <= i < n ==> evs[i].at <= t
    ensures forall i :: n <= i < |evs| ==> evs[i].at > t
  {
    if evs == [] || evs[|evs| - 1].at <= t {
      n := |evs|;
    } else {
      n := WindowEnd(evs[..|evs| - 1], t);
    }
  }

  lemma {:induction false} NothingAdmitted(p: Policy, evs: seq<Event>, k: string, s: real, t: real)
    requires p.capacity < 1
    ensures Count(p, evs, k, s, t) == 0
  {
    if evs != [] {
      NothingAdmitted(p, evs[..|evs| - 1], k, s, t);
    }
  }

  function Max0(n: int): real { if n < 0 then 0.0 else n as real }

  /** In every window of every run without cleanups, a key is admitted at most capacity +
      rate * length times. */
  lemma WindowBound(p: Policy, evs: seq<Event>, k: string, s: real, t: real)
    requires Sound(p) && NoCleanup(evs) && Ordered(evs) && s <= t
    ensures Count(p, evs, k, s, t) as real <= Max0(p.capacity) + Inflow(p, t - s)
  {
    if p.capacity < 1 {
      NothingAdmitted(p, evs, k, s, t);
      InflowGrows(p, 0.0, t - s);
    } else {
      WindowSpent(p, evs, k, s, t);
    }
  }

  lemma WindowSpent(p: Policy, evs: seq<Event>, k: string, s: real, t: real)
    requires Sound(p) && NoCleanup(evs) && Ordered(evs) && s <= t && p.capacity >= 1
    ensures Count(p, evs, k, s, t) as real <= p.capacity as real + Inflow(p, t - s)
  {
    var n := WindowEnd(evs, t);
    PastWindow(p, evs, k, s, t, n);
    var front := evs[..n];
    assert NoCleanup(front) && Ordered(front);
    Spent(p, front, k, s, t);
    RunOk(p, front, k, t);
    NonNegative(p, Get(Run(p, front), k), s, t);
  }

  lemma NonNegative(p: Policy, b: Option<Bucket>, s: real, t: real)
    requires Sound(p) && BucketOk(p, b, t) && s <= t && p.capacity >= 0
    ensures Budget(p, b, s, t) >= 0.0
  {
    InflowGrows(p, 0.0, t - s);
    if b.Some? { InflowGrows(p, 0.0, t - b.value.last); }
  }

  // ---------------------------------------------------------------- exactly the window bound

  /** Admitting one more call at `at` keeps to the bound in every window that ends there. */
  ghost predicate FitsWindows(p: Policy, evs: seq<Event>, k: string, at: real) {
    forall s: real {:trigger Count(p, evs, k, s, at)} :: s <= at ==>
      (Count(p, evs, k, s, at) + 1) as real <= p.capacity as real + Inflow(p, at - s)
  }

  /** A window that ends after all events counts what a longer one does. */
  lemma {:induction false} CountLater(p: Policy, evs: seq<Event>, k: string, s: real, t: real, now: real)
    requires t <= now && forall i :: 0 <= i < |evs| ==> evs[i].at <= t
    ensures Count(p, evs, k, s, t) == Count(p, evs, k, s, now)
  {
    if evs != [] { CountLater(p, evs[..|evs| - 1], k, s, t, now); }
  }

  lemma {:induction false} CountNothing(p: Policy, evs: seq<Event>, k: string, s: real, t: real)
    requires forall i :: 0 <= i < |evs| ==> evs[i].at < s
    ensures Count(p, evs, k, s, t) == 0
  {
    if evs != [] { CountNothing(p, evs[..|evs| - 1], k, s, t); }
  }

  /** A key without a bucket was never called. */
  lemma {:induction false} NeverCalled(p: Policy, evs: seq<Event>, k: string, s: real, t: real)
    requires NoCleanup(evs) && Get(Run(p, evs), k) == None
    ensures Count(p, evs, k, s, t) == 0
  {
    if evs != [] {
      NeverCalled(p, evs[..|evs| - 1], k, s, t);
    }
  }

  lemma FreshIsFull(p: Policy, now: real)
    ensures Refilled(p, Present(p, None, now), now) == p.capacity as real && Inflow(p, now - now) == 0.0
  {
    assert now - now == 0.0;
  }

  lemma OtherCall(p: Policy, evs: seq<Event>, k: string, s: real, t: real)
    requires evs != [] && evs[|evs| - 1].Call? && evs[|evs| - 1].key != k
    ensures Get(Run(p, evs), k) == Get(Run(p, evs[..|evs| - 1]), k)
    ensures Count(p, evs, k, s, t) == Count(p, evs[..|evs| - 1], k, s, t)
  {
  }

  /** The tokens at hand are what some window ending now leaves of its bound: the one that begins
      when the bucket was last full. */
  lemma {:induction false} FullSince(p: Policy, evs: seq<Event>, k: string, now: real) returns (s: real)
    requires Sound(p) && NoCleanup(evs) && Ordered(evs) && (evs != [] ==> evs[|evs| - 1].at <= now)
    ensures s <= now
    ensures Refilled(p, Present(p, Get(Run(p, evs), k), now), now) ==
            p.capacity as real + Inflow(p, now - s) - Count(p, evs, k, s, now) as real
  {
    if Get(Run(p, evs), k) == None {
      s := now;
      NeverCalled(p, evs, k, now, now);
      FreshIsFull(p, now);
    } else {
      var n := |evs| - 1;
      if evs[n].key == k {
        var since := FullSince(p, evs[..n], k, evs[n].at);
        RunOk(p, evs, k, now);
        s := StillFullSince(p, evs, k, now, since);
      } else {
        s := FullSince(p, evs[..n], k, now);
        OtherCall(p, evs, k, s, now);
      }
    }
  }

  /** What a call leaves, and how it is counted. */
  lemma CallCounted(p: Policy, evs: seq<Event>, k: string, s: real, now: real)
    requires evs != [] && evs[|evs| - 1] == Call(k, evs[|evs| - 1].at) && s <= evs[|evs| - 1].at <= now
    ensures var front, t := evs[..|evs| - 1], evs[|evs| - 1].at;
            var b := Get(Run(p, front), k);
            var one := if Admits(p, b, t) then 1 else 0;
            && Get(Run(p, evs), k) == Some(Bucket(Refilled(p, Present(p, b, t), t) - one as real, t))
            && Count(p, evs, k, s, now) == Count(p, front, k, s, now) + one
  {
  }

  /** One call later. */
  lemma StillFullSince(p: Policy, evs: seq<Event>, k: string, now: real, since: real) returns (s: real)
    requires Sound(p) && Ordered(evs) && evs != [] && evs[|evs| - 1].at <= now
    requires evs[|evs| - 1] == Call(k, evs[|evs| - 1].at)
    requires var front, t := evs[..|evs| - 1], evs[|evs| - 1].at;
             && since <= t
             && Refilled(p, Present(p, Get(Run(p, front), k), t), t) ==
                p.capacity as real + Inflow(p, t - since) - Count(p, front, k, since, t) as real
    requires BucketOk(p, Get(Run(p, evs), k), now)
    ensures s <= now
    ensures Refilled(p, Present(p, Get(Run(p, evs), k), now), now) ==
            p.capacity as real + Inflow(p, now - s) - Count(p, evs, k, s, now) as real
  {
    var n := |evs| - 1;
    var front, t := evs[..n], evs[n].at;
    var b := Get(Run(p, evs), k).value;
    CallCounted(p, evs, k, since, now);
    CountLater(p, front, k, since, t, now);
    SplitInflow(p, since, t, now);
    var full := p.capacity as real;
    assert b.last == t;
    assert b.tokens + Inflow(p, now - t) == full + Inflow(p, now - since) - Count(p, evs, k, since, now) as real;
    assert Refilled(p, b, now) == Least(b.tokens + Inflow(p, now - b.last), full);
    if b.tokens + Inflow(p, now - t) <= full {
      s := since;
    } else {
      s := now;
      NoneAtNow(p, evs, k, now);
    }
  }

  lemma SplitInflow(p: Policy, a: real, b: real, c: real)
    ensures Inflow(p, c - a) == Inflow(p, b - a) + Inflow(p, c - b)
  {
  }

  /** A bucket that refills was not called at this very moment. */
  lemma NoneAtNow(p: Policy, evs: seq<Event>, k: string, now: real)
    requires Ordered(evs) && evs != [] && Get(Run(p, evs), k).Some? && evs[|evs| - 1].at <= now
    requires var b := Get(Run(p, evs), k).value;
             b.tokens <= p.capacity as real < b.tokens + Inflow(p, now - evs[|evs| - 1].at)
    ensures Count(p, evs, k, now, now) == 0 && Inflow(p, now - now) == 0.0
  {
    assert evs[|evs| - 1].at < now;
    CountNothing(p, evs, k, now, now);
  }

  /** The limiter admits a call if and only if it may: in every window that ends with it, of any
      length, the admitted calls are then at most capacity + rate * length. No call is refused
      without need. */
  lemma AdmitsIffFits(p: Policy, evs: seq<Event>, k: string, at: real)
    requires Sound(p) && NoCleanup(evs) && Ordered(evs) && (evs != [] ==> evs[|evs| - 1].at <= at)
    requires p.capacity >= 1
    ensures Admitted(p, evs + [Call(k, at)], |evs|) <==> FitsWindows(p, evs, k, at)
  {
    NextDecision(p, evs, k, at);
    var more := evs + [Call(k, at)];
    assert more[..|evs|] == evs;
    if Admits(p, Get(Run(p, evs), k), at) {
      forall s: real | s <= at
        ensures (Count(p, evs, k, s, at) + 1) as real <= p.capacity as real + Inflow(p, at - s)
      {
        WindowBound(p, more, k, s, at);
      }
    } else {
      var s := FullSince(p, evs, k, at);
      assert Count(p, evs, k, s, at) >= 0;
    }
  }

  // ---------------------------------------------------------------- cleanups

  /** The run with its cleanups left out. */
  function Calls(evs: seq<Event>): (r: seq<Event>)
    ensures |r| <= |evs|
    ensures forall i :: 0 <= i < |r| ==> r[i].Call?
  {
    if evs == [] then []
    else Calls(evs[..|evs| - 1]) + if evs[|evs| - 1].Call? then [evs[|evs| - 1]] else []
  }

  /** A dropped bucket and the bucket it was: the latter would be full by now. */
  ghost predicate AsGood(p: Policy, b: Option<Bucket>, kept: Option<Bucket>, now: real) {
    || b == kept
    || (b.None? && kept.Some? && kept.value.last <= now
        && kept.value.tokens + Inflow(p, now - kept.value.last) >= p.capacity as real)
  }

  lemma FullTakes(p: Policy, b: Option<Bucket>, kept: Option<Bucket>, now: real, at: real)
    requires Sound(p) && AsGood(p, b, kept, now) && now <= at
    ensures Taken(p, b, at) == Taken(p, kept, at) && Admits(p, b, at) == Admits(p, kept, at)
  {
    if b != kept {
      InflowGrows(p, now - kept.value.last, at - kept.value.last);
      assert Refilled(p, kept.value, at) ==
             Least(kept.value.tokens + Inflow(p, at - kept.value.last), p.capacity as real);
      assert Refilled(p, Present(p, b, at), at) == p.capacity as real;
    }
  }

  lemma StillAsGood(p: Policy, b: Option<Bucket>, kept: Option<Bucket>, now: real, at: real)
    requires Sound(p) && AsGood(p, b, kept, now) && now <= at
    ensures AsGood(p, b, kept, at)
  {
    if b != kept {
      InflowGrows(p, now - kept.value.last, at - kept.value.last);
    }
  }

  /** When an idle bucket would have refilled, dropping it loses nothing. */
  lemma DroppedAsGood(p: Policy, b: Option<Bucket>, kept: Option<Bucket>, before: real, now: real)
    requires Sound(p) && AsGood(p, b, kept, before) && before <= now && BucketOk(p, kept, before)
    requires p.capacity as real <= p.idle * p.rate
    ensures AsGood(p, if b.Some? && Idle(p, b.value, now) then None else b, kept, now)
  {
    StillAsGood(p, b, kept, before, now);
    if b.Some? && Idle(p, b.value, now) {
      InflowGrows(p, p.idle, now - b.value.last);
    }
  }

  /** At every moment every bucket is the one of the run without cleanups, or as good. */
  lemma {:induction false} CleanupsHarmless(p: Policy, evs: seq<Event>, k: string, now: real)
    requires Sound(p) && Ordered(evs) && (evs != [] ==> evs[|evs| - 1].at <= now)
    requires p.capacity as real <= p.idle * p.rate
    ensures AsGood(p, Get(Run(p, evs), k), Get(Run(p, Calls(evs)), k), now)
    ensures BucketOk(p, Get(Run(p, Calls(evs)), k), now)
  {
    if evs != [] {
      var n := |evs| - 1;
      CleanupsHarmless(p, evs[..n], k, evs[n].at);
      var b, kept := Get(Run(p, evs[..n]), k), Get(Run(p, Calls(evs[..n])), k);
      CallsLast(evs);
      if evs[n].Cleanup? {
        DroppedAsGood(p, b, kept, evs[n].at, evs[n].at);
      } else if evs[n].key == k {
        FullTakes(p, b, kept, evs[n].at, evs[n].at);
        TakeOk(p, kept, evs[n].at);
      }
      StillAsGood(p, Get(Run(p, evs), k), Get(Run(p, Calls(evs)), k), evs[n].at, now);
    }
  }

  lemma CallsLast(evs: seq<Event>)
    requires evs != []
    ensures var n := |evs| - 1;
            if evs[n].Call? then Calls(evs) != [] && Calls(evs)[|Calls(evs)| - 1] == evs[n]
                                 && Calls(evs)[..|Calls(evs)| - 1] == Calls(evs[..n])
            else Calls(evs) == Calls(evs[..n])
  {
    var n := |evs| - 1;
    assert Calls(evs[..n]) + [] == Calls(evs[..n]);
  }

  /** Cleanups at any moments change no decision, as long as an idle bucket would have
      refilled: capacity <= idle * rate. */
  lemma CleanupsChangeNothing(p: Policy, evs: seq<Event>, k: string, at: real)
    requires Sound(p) && Ordered(evs) && (evs != [] ==> evs[|evs| - 1].at <= at)
    requires p.capacity as real <= p.idle * p.rate
    ensures Admitted(p, evs + [Call(k, at)], |evs|) ==
            Admitted(p, Calls(evs) + [Call(k, at)], |Calls(evs)|)
  {
    CleanupsHarmless(p, evs, k, at);
    FullTakes(p, Get(Run(p, evs), k), Get(Run(p, Calls(evs)), k), at, at);
    assert (evs + [Call(k, at)])[..|evs|] == evs;
    assert (Calls(evs) + [Call(k, at)])[..|Calls(evs)|] == Calls(evs);
  }

  /** A run's last call is admitted exactly when it is without the cleanups. */
  lemma LastAdmitted(p: Policy, evs: seq<Event>)
    requires Sound(p) && Ordered(evs) && p.capacity as real <= p.idle * p.rate
    requires evs != [] && evs[|evs| - 1].Call?
    ensures Calls(evs) != []
    ensures Admitted(p, evs, |evs| - 1) == Admitted(p, Calls(evs), |Calls(evs)| - 1)
  {
    var n := |evs| - 1;
    CallsLast(evs);
    CleanupsChangeNothing(p, evs[..n], evs[n].key, evs[n].at);
    assert evs[..n] + [Call(evs[n].key, evs[n].at)] == evs;
    assert Calls(evs[..n]) + [Call(evs[n].key, evs[n].at)] == Calls(evs);
  }

  lemma {:induction false} CountSame(p: Policy, evs: seq<Event>, k: string, s: real, t: real)
    requires Sound(p) && Ordered(evs) && p.capacity as real <= p.idle * p.rate
    ensures Count(p, evs, k, s, t) == Count(p, Calls(evs), k, s, t)
  {
    if evs != [] {
      var n := |evs| - 1;
      CountSame(p, evs[..n], k, s, t);
      CallsLast(evs);
      if evs[n].Call? {
        LastAdmitted(p, evs);
      }
    }
  }

  lemma {:induction false} CallsOrdered(evs: seq<Event>, now: real)
    requires Ordered(evs) && (evs != [] ==> evs[|evs| - 1].at <= now)
    ensures Ordered(Calls(evs))
    ensures forall i :: 0 <= i < |Calls(evs)| ==> Calls(evs)[i].at <= now
  {
    if evs != [] {
      CallsOrdered(evs[..|evs| - 1], evs[|evs| - 1].at);
    }
  }

  /** The window bound holds for every run with cleanups too, under the same condition. */
  lemma WindowBoundWithCleanups(p: Policy, evs: seq<Event>, k: string, s: real, t: real)
    requires Sound(p) && Ordered(evs) && s <= t && p.capacity as real <= p.idle * p.rate
    ensures Count(p, evs, k, s, t) as real <= Max0(p.capacity) + Inflow(p, t - s)
  {
    CountSame(p, evs, k, s, t);
    CallsOrdered(evs, if evs == [] then 0.0 else evs[|evs| - 1].at);
    WindowBound(p, Calls(evs), k, s, t);
  }

  // ---------------------------------------------------------------- and only then

  /** The bucket after n calls at one moment. */
  function TakenN(p: Policy, b: Option<Bucket>, at: real, n: nat): Option<Bucket> {
    if n == 0 then b else Some(Taken(p, TakenN(p, b, at, n - 1), at))
  }

  lemma JustUsed(p: Policy, tokens: real, at: real)
    ensures Refilled(p, Bucket(tokens, at), at) == Least(tokens, p.capacity as real)
  {
    assert (at - at) * p.rate == 0.0;
  }

  /** Calls at one moment take one token each while there are any, and then none. */
  lemma {:induction false} Drain(p: Policy, b: Option<Bucket>, at: real, n: nat)
    ensures var r := Refilled(p, Present(p, b, at), at);
            && (n as real <= r && n > 0 ==> TakenN(p, b, at, n) == Some(Bucket(r - n as real, at)))
            && (n as real <= r < (n + 1) as real ==> !Admits(p, TakenN(p, b, at, n), at))
            && (r >= (n + 1) as real ==> Admits(p, TakenN(p, b, at, n), at))
            && (r < (n + 1) as real ==> !Admits(p, TakenN(p, b, at, n), at))
  {
    var r := Refilled(p, Present(p, b, at), at);
    if n > 0 {
      Drain(p, b, at, n - 1);
      var last := TakenN(p, b, at, n - 1);
      var next := Taken(p, last, at);
      JustUsed(p, next.tokens, at);
      if n > 1 {
        JustUsed(p, last.value.tokens, at);
      }
    }
  }

  function Repeat(k: string, at: real, n: nat): (r: seq<Event>)
    ensures |r| == n
  {
    if n == 0 then [] else Repeat(k, at, n - 1) + [Call(k, at)]
  }

  lemma {:induction false} RunRepeat(p: Policy, evs: seq<Event>, k: string, at: real, n: nat)
    ensures Get(Run(p, evs + Repeat(k, at, n)), k) == TakenN(p, Get(Run(p, evs), k), at, n)
  {
    if n == 0 {
      assert evs + Repeat(k, at, 0) == evs;
    } else {
      RunRepeat(p, evs, k, at, n - 1);
      RunCall(p, evs + Repeat(k, at, n - 1), k, at);
      Regroup(evs, Repeat(k, at, n - 1), [Call(k, at)]);
    }
  }

  lemma RunCall(p: Policy, evs: seq<Event>, k: string, at: real)
    ensures Get(Run(p, evs + [Call(k, at)]), k) == Some(Taken(p, Get(Run(p, evs), k), at))
  {
    assert (evs + [Call(k, at)])[..|evs|] == evs;
  }

  lemma CallsMore(evs: seq<Event>, k: string, at: real)
    ensures Calls(evs + [Call(k, at)]) == Calls(evs) + [Call(k, at)]
  {
    assert (evs + [Call(k, at)])[..|evs|] == evs;
  }

  lemma {:induction false} CallsRepeat(evs: seq<Event>, k: string, at: real, n: nat)
    ensures Calls(evs + Repeat(k, at, n)) == Calls(evs) + Repeat(k, at, n)
  {
    if n == 0 {
      assert evs + Repeat(k, at, 0) == evs && Calls(evs) + Repeat(k, at, 0) == Calls(evs);
    } else {
      CallsRepeat(evs, k, at, n - 1);
      CallsMore(evs + Repeat(k, at, n - 1), k, at);
      Regroup(evs, Repeat(k, at, n - 1), [Call(k, at)]);
      Regroup(Calls(evs), Repeat(k, at, n - 1), [Call(k, at)]);
    }
  }

  lemma {:induction false} RepeatOrdered(a: seq<Event>, k: string, at: real, n: nat)
    requires Ordered(a) && forall i :: 0 <= i < |a| ==> a[i].at <= at
    ensures Ordered(a + Repeat(k, at, n))
    ensures forall i :: 0 <= i < |a| + n ==> (a + Repeat(k, at, n))[i].at <= at
  {
    if n == 0 {
      assert a + Repeat(k, at, 0) == a;
    } else {
      RepeatOrdered(a, k, at, n - 1);
      assert a + Repeat(k, at, n) == a + Repeat(k, at, n - 1) + [Call(k, at)];
    }
  }

  /** Drain the bucket, let a cleanup drop it, and call again until one call is left. */
  function Drained(p: Policy, k: string): seq<Event>
    requires p.capacity >= 1
  {
    [] + Repeat(k, 0.0, p.capacity)
  }

  function Again(p: Policy, k: string, wait: real): seq<Event>
    requires p.capacity >= 1
  {
    Drained(p, k) + [Cleanup(wait)] + Repeat(k, wait, p.capacity - 1)
  }

  lemma AgainOrdered(p: Policy, k: string, wait: real)
    requires p.capacity >= 1 && wait >= 0.0
    ensures Ordered(Again(p, k, wait)) && Again(p, k, wait)[|Again(p, k, wait)| - 1].at <= wait
  {
    RepeatOrdered([], k, 0.0, p.capacity);
    RepeatOrdered(Drained(p, k) + [Cleanup(wait)], k, wait, p.capacity - 1);
  }

  /** What a cleanup leaves of a run that drained the bucket. */
  lemma DrainedRun(p: Policy, k: string)
    requires p.capacity >= 1
    ensures Get(Run(p, Drained(p, k)), k) == Some(Bucket(0.0, 0.0))
    ensures Calls(Drained(p, k)) == Drained(p, k)
  {
    RunRepeat(p, [], k, 0.0, p.capacity);
    CallsRepeat([], k, 0.0, p.capacity);
    JustUsed(p, p.capacity as real, 0.0);
    Drain(p, None, 0.0, p.capacity);
    assert Calls([]) == [];
  }

  lemma WithCleanup(p: Policy, k: string, wait: real)
    requires p.capacity >= 1 && wait > p.idle
    ensures Admits(p, Get(Run(p, Again(p, k, wait)), k), wait)
    ensures Calls(Again(p, k, wait)) == Drained(p, k) + Repeat(k, wait, p.capacity - 1)
  {
    DrainedRun(p, k);
    var cleaned := Drained(p, k) + [Cleanup(wait)];
    assert cleaned[..|Drained(p, k)|] == Drained(p, k);
    assert Get(Run(p, cleaned), k) == None;
    assert Calls(Drained(p, k)) + [] == Calls(Drained(p, k));
    RunRepeat(p, cleaned, k, wait, p.capacity - 1);
    CallsRepeat(cleaned, k, wait, p.capacity - 1);
    JustUsed(p, p.capacity as real, wait);
    Drain(p, None, wait, p.capacity - 1);
  }

  lemma WithoutCleanup(p: Policy, k: string, wait: real)
    requires p.capacity >= 1 && wait * p.rate < p.capacity as real
    ensures !Admits(p, Get(Run(p, Drained(p, k) + Repeat(k, wait, p.capacity - 1)), k), wait)
  {
    DrainedRun(p, k);
    RunRepeat(p, Drained(p, k), k, wait, p.capacity - 1);
    Exhausted(p, wait, p.capacity - 1);
  }

  lemma Exhausted(p: Policy, wait: real, n: nat)
    requires wait * p.rate < (n + 1) as real && p.capacity == n + 1
    ensures !Admits(p, TakenN(p, Some(Bucket(0.0, 0.0)), wait, n), wait)
  {
    PartlyRefilled(p, wait);
    Drain(p, Some(Bucket(0.0, 0.0)), wait, n);
  }

  lemma PartlyRefilled(p: Policy, wait: real)
    requires wait * p.rate < p.capacity as real
    ensures Refilled(p, Bucket(0.0, 0.0), wait) < p.capacity as real
  {
    var empty := Bucket(0.0, 0.0);
    assert wait - empty.last == wait;
    assert (wait - empty.last) * p.rate == wait * p.rate;
    assert Refilled(p, empty, wait) == Least(empty.tokens + (wait - empty.last) * p.rate, p.capacity as real);
  }

  /** A moment past the idle limit at which an emptied bucket is not yet full again. */
  lemma NotYetFull(p: Policy) returns (wait: real)
    requires Sound(p) && p.capacity as real > p.idle * p.rate
    ensures wait > p.idle && wait * p.rate < p.capacity as real
  {
    if p.rate > 0.0 {
      var gap := p.capacity as real - p.idle * p.rate;
      var extra := gap / (2.0 * p.rate);
      assert extra * p.rate == gap / 2.0;
      wait := p.idle + extra;
      assert wait * p.rate == p.idle * p.rate + extra * p.rate;
      assert extra > 0.0;
    } else {
      wait := p.idle + 1.0;
      assert p.rate == 0.0;
    }
  }

  /** The condition is exact: a bucket that holds a call or more, and that an idle stretch
      would not have refilled, admits a call that it refuses when it is not cleaned up. */
  lemma CleanupCanMatter(p: Policy, k: string) returns (evs: seq<Event>, at: real)
    requires Sound(p) && p.capacity >= 1 && p.capacity as real > p.idle * p.rate
    ensures Ordered(evs) && evs != [] && evs[|evs| - 1].at <= at
    ensures Admitted(p, evs + [Call(k, at)], |evs|)
    ensures !Admitted(p, Calls(evs) + [Call(k, at)], |Calls(evs)|)
  {
    at := NotYetFull(p);
    evs := Again(p, k, at);
    AgainOrdered(p, k, at);
    AgainDiffers(p, k, at);
  }

  lemma AgainDiffers(p: Policy, k: string, wait: real)
    requires p.capacity >= 1 && wait > p.idle && wait * p.rate < p.capacity as real
    ensures var evs := Again(p, k, wait);
            && Admitted(p, evs + [Call(k, wait)], |evs|)
            && !Admitted(p, Calls(evs) + [Call(k, wait)], |Calls(evs)|)
  {
    WithCleanup(p, k, wait);
    WithoutCleanup(p, k, wait);
    NextDecision(p, Again(p, k, wait), k, wait);
    NextDecision(p, Calls(Again(p, k, wait)), k, wait);
  }

  lemma NextDecision(p: Policy, evs: seq<Event>, k: string, at: real)
    ensures Admitted(p, evs + [Call(k, at)], |evs|) == Admits(p, Get(Run(p, evs), k), at)
  {
    assert (evs + [Call(k, at)])[..|evs|] == evs;
  }

  /** A bucket that never holds a call admits nothing, cleaned up or not. */
  lemma EmptyPolicy(p: Policy, evs: seq<Event>, i: nat)
    requires i < |evs| && p.capacity < 1
    ensures !Admitted(p, evs, i)
  {
  }
}
