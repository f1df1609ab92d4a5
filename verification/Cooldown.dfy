/** How long a failing provider is left alone. Times are nanoseconds; 0 is the zero time. */
module Cooldown {
  import opened Common

  datatype Reason = Auth | RateLimit | Billing | Timeout | Format | Overloaded | Unknown

  function Minutes(n: int): int { 60_000_000_000 * n }

  function Hours(n: int): int { 3_600_000_000_000 * n }

  const WINDOW: int := 86_400_000_000_000

  function Pow(b: nat, e: nat): nat { if e == 0 then 1 else b * Pow(b, e - 1) }

  // ---------------------------------------------------------------- durations

  function CalculateCooldown(n: int): int {
    if n <= 0 then 0
    else
      var raw := Pow(5, Min(n - 1, 3));
      if raw > 60 then Hours(1) else Min(Minutes(raw), Hours(1))
  }

  function CalculateBilling(count: int): int {
    var raw := Hours(5 * Pow(2, Min(Max(1, count) - 1, 10)));
    if raw > Hours(24) then Hours(24) else raw
  }

  lemma Times(b: nat, x: nat)
    requires b >= 1
    ensures x <= b * x
  {
  }

  lemma {:induction false} PowGrows(b: nat, d: nat, e: nat)
    requires b >= 1 && d <= e
    ensures Pow(b, d) <= Pow(b, e)
    decreases e
  {
    if d < e {
      PowGrows(b, d, e - 1);
      Times(b, Pow(b, e - 1));
    }
  }

  lemma Powers()
    ensures Pow(5, 0) == 1 && Pow(5, 1) == 5 && Pow(5, 2) == 25 && Pow(5, 3) == 125
    ensures Pow(2, 0) == 1 && Pow(2, 1) == 2 && Pow(2, 2) == 4 && Pow(2, 3) == 8
  {
    assert Pow(5, 3) == 5 * Pow(5, 2);
    assert Pow(2, 3) == 2 * Pow(2, 2);
  }

  /** The capped exponent makes no difference under the cap on the duration. */
  lemma CooldownClosedForm(n: int)
    requires n >= 1
    ensures CalculateCooldown(n) == Minutes(Min(60, Pow(5, n - 1)))
  {
    Powers();
    if n > 4 {
      PowGrows(5, 3, n - 1);
    }
  }

  lemma BillingClosedForm(n: int)
    requires n >= 1
    ensures CalculateBilling(n) == Hours(Min(24, 5 * Pow(2, n - 1)))
  {
    Powers();
    if n > 4 {
      PowGrows(2, 3, n - 1);
      PowGrows(2, 3, Min(n - 1, 10));
    }
  }

  lemma CooldownValues(n: int)
    ensures CalculateCooldown(n) ==
      if n <= 0 then 0 else if n == 1 then Minutes(1) else if n == 2 then Minutes(5)
      else if n == 3 then Minutes(25) else Hours(1)
  {
    Powers();
  }

  lemma BillingValues(n: int)
    ensures CalculateBilling(n) ==
      if n <= 1 then Hours(5) else if n == 2 then Hours(10) else if n == 3 then Hours(20) else WINDOW
  {
    Powers();
    if n > 3 {
      PowGrows(2, 3, Min(n - 1, 10));
    }
  }

  /** More failures never mean a shorter wait, and every wait fits the failure window. */
  lemma WaitsGrow(m: int, n: int)
    requires m <= n
    ensures 0 <= CalculateCooldown(m) <= CalculateCooldown(n) <= Hours(1)
    ensures Hours(5) <= CalculateBilling(m) <= CalculateBilling(n) <= WINDOW
    ensures n >= 1 ==> CalculateCooldown(n) >= Minutes(1)
  {
    CooldownValues(m);
    CooldownValues(n);
    BillingValues(m);
    BillingValues(n);
  }

  // ---------------------------------------------------------------- one provider's entry

  type Tally = map<Reason, nat>

  function Of(c: Tally, r: Reason): nat { if r in c then c[r] else 0 }

  function Bump(c: Tally, r: Reason): Tally { c[r := Of(c, r) + 1] }

  function Total(c: Tally): nat {
    Of(c, Auth) + Of(c, RateLimit) + Of(c, Billing) + Of(c, Timeout) + Of(c, Format)
    + Of(c, Overloaded) + Of(c, Unknown)
  }

  /** `counts` is the number of failures by reason. */
  datatype Entry = Entry(errors: int, counts: Tally, cooldownEnd: int, disabledUntil: int,
                         disabledReason: Option<Reason>, lastFailure: int)

  const BLANK := Entry(0, map[], 0, 0, None, 0)

  function Existing(e: Option<Entry>): Entry { if e.Some? then e.value else BLANK }

  predicate Stale(e: Entry, now: int) { e.lastFailure != 0 && now - e.lastFailure > WINDOW }

  function Errors(e: Entry, now: int): int { (if Stale(e, now) then 0 else e.errors) + 1 }

  function Counts(e: Entry, reason: Reason, now: int): Tally {
    Bump(if Stale(e, now) then map[] else e.counts, reason)
  }

  /** A billing failure disables the provider, any other one cools it down. */
  function Failed(e: Entry, reason: Reason, now: int): Entry {
    var counts := Counts(e, reason, now);
    if reason == Billing then
      Entry(Errors(e, now), counts, e.cooldownEnd, now + CalculateBilling(Of(counts, Billing)), Some(Billing), now)
    else
      Entry(Errors(e, now), counts, now + CalculateCooldown(Errors(e, now)), e.disabledUntil, e.disabledReason, now)
  }

  function Succeeded(e: Option<Entry>): Option<Entry> {
    if e.None? then None else Some(BLANK.(lastFailure := e.value.lastFailure))
  }

  predicate Waits(until: int, now: int) { until != 0 && now < until }

  predicate Available(e: Option<Entry>, now: int) {
    e.None? || (!Waits(e.value.disabledUntil, now) && !Waits(e.value.cooldownEnd, now))
  }

  function Left(until: int, now: int): int { if Waits(until, now) then until - now else 0 }

  function Remaining(e: Option<Entry>, now: int): int {
    if e.None? then 0
    else Max(Left(e.value.disabledUntil, now), Left(e.value.cooldownEnd, now))
  }

  // ---------------------------------------------------------------- histories of one provider

  datatype Event = Failure(reason: Reason, at: int) | Success(at: int)

  function After(e: Option<Entry>, ev: Event): Option<Entry> {
    match ev
    case Failure(r, t) => Some(Failed(Existing(e), r, t))
    case Success(_) => Succeeded(e)
  }

  function Run(h: seq<Event>): Option<Entry> {
    if h == [] then None else After(Run(h[..|h| - 1]), h[|h| - 1])
  }

  /** The clock does not go back and is past the zero time. */
  ghost predicate Clocked(h: seq<Event>) {
    && (forall i :: 0 <= i < |h| ==> h[i].at > 0)
    && (forall i, j :: 0 <= i < j < |h| ==> h[i].at <= h[j].at)
  }

  predicate Linked(a: Event, b: Event) { b.at - a.at <= WINDOW }

  /** From `s` on there are only failures, no two neighbours more than the window apart, and
      the chain cannot be made longer at its start. */
  ghost predicate LatestChain(h: seq<Event>, s: nat) {
    && s <= |h|
    && (forall i :: s <= i < |h| ==> h[i].Failure?)
    && (forall i :: s < i < |h| ==> Linked(h[i - 1], h[i]))
    && (s > 0 ==> h[s - 1].Success? || (s < |h| && !Linked(h[s - 1], h[s])))
  }

  /** The failures with a reason. */
  function Number(h: seq<Event>, r: Reason): nat {
    if h == [] then 0
    else
      var last := h[|h| - 1];
      Number(h[..|h| - 1], r) + if last.Failure? && last.reason == r then 1 else 0
  }

  lemma {:induction false} HasLatestChain(h: seq<Event>) returns (s: nat)
    ensures LatestChain(h, s)
  {
    var n := |h|;
    if h == [] || h[n - 1].Success? {
      s := n;
    } else {
      s := HasLatestChain(h[..n - 1]);
      if s < n - 1 && !Linked(h[n - 2], h[n - 1]) {
        s := n - 1;
      }
    }
  }

  /** What the entry remembers of the history's last failure. */
  lemma {:induction false} Remembers(h: seq<Event>)
    requires Clocked(h) && h != []
    ensures h[|h| - 1].Failure? ==> Run(h).Some? && Run(h).value.lastFailure == h[|h| - 1].at
    ensures h[|h| - 1].Success? ==> Existing(Run(h)).errors == 0 && Existing(Run(h)).counts == map[]
  {
  }

  /** The counters count exactly the failures of the latest chain. */
  lemma {:induction false} CountsLatestChain(h: seq<Event>, s: nat, r: Reason)
    requires Clocked(h) && LatestChain(h, s)
    ensures Existing(Run(h)).errors == |h| - s
    ensures Of(Existing(Run(h)).counts, r) == Number(h[s..], r)
  {
    if s == |h| {
      if h != [] { Remembers(h); }
    } else {
      var front, last := h[..|h| - 1], h[|h| - 1];
      var starts := s == |h| - 1;
      if !starts {
        CountsLatestChain(front, s, r);
      }
      NextFailure(front, last, starts);
      BumpOf(if starts then map[] else Existing(Run(front)).counts, last.reason, r);
      NumberNext(h, s, r);
    }
  }

  /** How long a failure makes its provider wait: exactly the closed form of the number of
      failures in the latest chain, for a billing failure of the billing failures in it. It
      counts from the failure, and the other of the two waits stays as it was. */
  lemma WaitAfterFailure(h: seq<Event>, s: nat)
    requires Clocked(h) && h != [] && h[|h| - 1].Failure? && LatestChain(h, s)
    ensures s < |h| && Run(h).Some?
    ensures var e, was, last := Run(h).value, Existing(Run(h[..|h| - 1])), h[|h| - 1];
            if last.reason == Billing then
              && Number(h[s..], Billing) >= 1
              && e.disabledUntil == last.at + Hours(Min(24, 5 * Pow(2, Number(h[s..], Billing) - 1)))
              && e.disabledReason == Some(Billing) && e.cooldownEnd == was.cooldownEnd
            else
              && e.cooldownEnd == last.at + Minutes(Min(60, Pow(5, |h| - s - 1)))
              && e.disabledUntil == was.disabledUntil && e.disabledReason == was.disabledReason
  {
    var front, last := h[..|h| - 1], h[|h| - 1];
    CountsLatestChain(h, s, Billing);
    CooldownClosedForm(|h| - s);
    if last.reason == Billing {
      NumberNext(h, s, Billing);
      BillingClosedForm(Number(h[s..], Billing));
    }
  }

  lemma NumberNext(h: seq<Event>, s: nat, r: Reason)
    requires s < |h|
    ensures var front, last := h[..|h| - 1], h[|h| - 1];
            Number(h[s..], r) == Number(front[s..], r) + if last.Failure? && last.reason == r then 1 else 0
  {
    assert h[s..][..|h| - 1 - s] == h[..|h| - 1][s..];
  }

  /** A failure starts a chain or makes the latest one longer. */
  lemma NextFailure(h: seq<Event>, ev: Event, starts: bool)
    requires Clocked(h) && ev.Failure?
    requires starts ==> h == [] || h[|h| - 1].Success? || !Linked(h[|h| - 1], ev)
    requires !starts ==> h != [] && h[|h| - 1].Failure? && Linked(h[|h| - 1], ev)
    ensures var e, next := Existing(Run(h)), Existing(After(Run(h), ev));
            && next.errors == (if starts then 0 else e.errors) + 1
            && next.counts == Bump(if starts then map[] else e.counts, ev.reason)
  {
    if h != [] { Remembers(h); }
  }

  /** The two counters never disagree: the error count is the sum over all reasons. */
  lemma {:induction false} CountersAgree(h: seq<Event>)
    ensures Existing(Run(h)).errors == Total(Existing(Run(h)).counts)
  {
    if h != [] {
      CountersAgree(h[..|h| - 1]);
      StillAgree(Run(h[..|h| - 1]), h[|h| - 1]);
    }
  }

  lemma StillAgree(e: Option<Entry>, ev: Event)
    requires Existing(e).errors == Total(Existing(e).counts)
    ensures Existing(After(e, ev)).errors == Total(Existing(After(e, ev)).counts)
  {
    if ev.Failure? {
      BumpTotal(map[], ev.reason);
      BumpTotal(Existing(e).counts, ev.reason);
    }
  }

  lemma BumpTotal(c: Tally, r: Reason)
    ensures Total(Bump(c, r)) == Total(c) + 1
  {
    BumpOf(c, r, Auth);
    BumpOf(c, r, RateLimit);
    BumpOf(c, r, Billing);
    BumpOf(c, r, Timeout);
    BumpOf(c, r, Format);
    BumpOf(c, r, Overloaded);
    BumpOf(c, r, Unknown);
  }

  lemma BumpOf(c: Tally, r: Reason, q: Reason)
    ensures Of(Bump(c, r), q) == Of(c, q) + if q == r then 1 else 0
  {
  }

  // ---------------------------------------------------------------- waits

  /** What every reachable entry keeps: a wait reaches no further than the last failure
      and the counters allow. */
  ghost predicate Bounded(e: Entry, now: int) {
    && 0 < e.lastFailure <= now
    && e.errors >= 0
    && 0 <= e.cooldownEnd <= e.lastFailure + CalculateCooldown(e.errors)
    && 0 <= e.disabledUntil <= e.lastFailure + CalculateBilling(Of(e.counts, Billing))
  }

  ghost predicate Sane(e: Option<Entry>, now: int) { now > 0 && (e.Some? ==> Bounded(e.value, now)) }

  /** A failure keeps the bounds and moves no wait earlier, even when it resets the counters. */
  lemma FailureKeeps(e: Option<Entry>, reason: Reason, before: int, now: int)
    requires Sane(e, before) && before <= now
    ensures Sane(Some(Failed(Existing(e), reason, now)), now)
    ensures Failed(Existing(e), reason, now).cooldownEnd >= Existing(e).cooldownEnd
    ensures Failed(Existing(e), reason, now).disabledUntil >= Existing(e).disabledUntil
  {
    var was := Existing(e);
    var next := Failed(was, reason, now);
    WaitsGrow(next.errors - 1, next.errors);
    WaitsGrow(Of(next.counts, Billing) - 1, Of(next.counts, Billing));
    WaitsGrow(was.errors, was.errors);
    WaitsGrow(Of(was.counts, Billing), Of(was.counts, Billing));
  }

  lemma SuccessKeeps(e: Option<Entry>, before: int, now: int)
    requires Sane(e, before) && before <= now
    ensures Sane(Succeeded(e), now)
  {
    WaitsGrow(0, 0);
  }

  lemma {:induction false} RunBounded(h: seq<Event>, now: int)
    requires Clocked(h) && now > 0 && (h != [] ==> h[|h| - 1].at <= now)
    ensures Sane(Run(h), now)
  {
    if h != [] {
      var last := h[|h| - 1];
      RunBounded(h[..|h| - 1], last.at);
      match last
      case Failure(r, t) => FailureKeeps(Run(h[..|h| - 1]), r, t, t);
      case Success(t) => SuccessKeeps(Run(h[..|h| - 1]), t, t);
    }
  }

  /** Between two successes no wait is ever moved earlier. */
  lemma {:induction false} WaitsNeverEarlier(h: seq<Event>, i: nat)
    requires Clocked(h) && i <= |h| && forall j :: i <= j < |h| ==> h[j].Failure?
    ensures Existing(Run(h[..i])).cooldownEnd <= Existing(Run(h)).cooldownEnd
    ensures Existing(Run(h[..i])).disabledUntil <= Existing(Run(h)).disabledUntil
    decreases |h|
  {
    if i == |h| {
      assert h[..i] == h;
    } else {
      var front, last := h[..|h| - 1], h[|h| - 1];
      WaitsNeverEarlier(front, i);
      assert front[..i] == h[..i];
      RunBounded(front, last.at);
      FailureKeeps(Run(front), last.reason, last.at, last.at);
    }
  }

  /** The remaining time says exactly from when on the provider is available: never more
      than a day away. */
  lemma AvailableWhenOver(h: seq<Event>, now: int, at: int)
    requires Clocked(h) && 0 < now <= at && (h != [] ==> h[|h| - 1].at <= now)
    ensures 0 <= Remaining(Run(h), now) <= WINDOW
    ensures Available(Run(h), at) <==> at >= now + Remaining(Run(h), now)
  {
    RunBounded(h, now);
    var e := Existing(Run(h));
    WaitsGrow(e.errors, e.errors);
    WaitsGrow(Of(e.counts, Billing), Of(e.counts, Billing));
  }

  /** A failure makes the provider unavailable for the whole of its own wait. */
  lemma FailureBlocks(h: seq<Event>, reason: Reason, now: int, at: int)
    requires Clocked(h) && 0 < now <= at && (h != [] ==> h[|h| - 1].at <= now)
    requires at < now + (if reason == Billing then Hours(5) else Minutes(1))
    ensures !Available(Run(h + [Failure(reason, now)]), at)
  {
    RunBounded(h, now);
    assert (h + [Failure(reason, now)])[..|h|] == h;
    Blocks(Run(h), reason, now, at);
  }

  lemma Blocks(e: Option<Entry>, reason: Reason, now: int, at: int)
    requires Sane(e, now) && now <= at
    requires at < now + (if reason == Billing then Hours(5) else Minutes(1))
    ensures !Available(Some(Failed(Existing(e), reason, now)), at)
  {
    var next := Failed(Existing(e), reason, now);
    WaitsGrow(next.errors, next.errors);
    WaitsGrow(Of(next.counts, Billing), Of(next.counts, Billing));
  }
}
