/** The tracker's methods, on entries that are updated in place. */
module CooldownTracking {
  import opened Common
  import opened Cooldown

  type Tracker = map<string, Entry>

  function Get(t: Tracker, p: string): Option<Entry> { if p in t then Some(t[p]) else None }

  function MarkedFailure(t: Tracker, p: string, reason: Reason, now: int): Tracker {
    t[p := Failed(Existing(Get(t, p)), reason, now)]
  }

  function MarkedSuccess(t: Tracker, p: string): Tracker {
    if p in t then t[p := Succeeded(Get(t, p)).value] else t
  }

  /** A mark of the tracker, by whatever call. */
  datatype Mark = FailureMark(provider: string, reason: Reason, at: int) | SuccessMark(provider: string, at: int)

  function MarkedBy(t: Tracker, m: Mark): Tracker {
    match m
    case FailureMark(p, r, at) => MarkedFailure(t, p, r, at)
    case SuccessMark(p, _) => MarkedSuccess(t, p)
  }

  function MarkedAll(t: Tracker, ms: seq<Mark>): Tracker {
    if ms == [] then t else MarkedBy(MarkedAll(t, ms[..|ms| - 1]), ms[|ms| - 1])
  }

  ghost predicate InTime(ms: seq<Mark>, from: int, to: int) {
    && from <= to
    && (forall k :: 0 <= k < |ms| ==> from <= ms[k].at <= to)
    && (forall k, l :: 0 <= k < l < |ms| ==> ms[k].at <= ms[l].at)
  }

  predicate NoSuccess(ms: seq<Mark>, p: string) {
    forall k :: 0 <= k < |ms| ==> !(ms[k].SuccessMark? && ms[k].provider == p)
  }

  /** The later of an entry's two waits. */
  function Until(e: Option<Entry>): int { Max(Existing(e).cooldownEnd, Existing(e).disabledUntil) }

  lemma OneMark(t: Tracker, m: Mark, p: string, before: int)
    requires Sane(Get(t, p), before) && before <= m.at
    ensures Sane(Get(MarkedBy(t, m), p), m.at)
    ensures !(m.SuccessMark? && m.provider == p) ==> Until(Get(MarkedBy(t, m), p)) >= Until(Get(t, p))
  {
    if m.provider == p {
      SuccessKeeps(Get(t, p), before, m.at);
      if m.FailureMark? { FailureKeeps(Get(t, p), m.reason, before, m.at); }
    }
  }

  /** Marks keep the bounds of a provider's entry, and without a success of it no wait of it
      is moved earlier. */
  lemma {:induction false} ManyMarks(t: Tracker, ms: seq<Mark>, p: string, from: int, to: int)
    requires Sane(Get(t, p), from) && InTime(ms, from, to)
    ensures Sane(Get(MarkedAll(t, ms), p), to)
    ensures NoSuccess(ms, p) ==> Until(Get(MarkedAll(t, ms), p)) >= Until(Get(t, p))
  {
    if ms != [] {
      var n := |ms| - 1;
      ManyMarks(t, ms[..n], p, from, ms[n].at);
      OneMark(MarkedAll(t, ms[..n]), ms[n], p, ms[n].at);
    }
  }

  class CooldownEntry {
    var errorCount: int
    var failureCounts: Tally
    var cooldownEnd: int
    var disabledUntil: int
    var disabledReason: Option<Reason>
    var lastFailure: int

    constructor ()
      ensures Value() == BLANK
    {
      errorCount, failureCounts, cooldownEnd, disabledUntil := 0, map[], 0, 0;
      disabledReason, lastFailure := None, 0;
    }

    function Value(): Entry
      reads this
    {
      Entry(errorCount, failureCounts, cooldownEnd, disabledUntil, disabledReason, lastFailure)
    }

    method Fail(reason: Reason, now: int)
      modifies this
      ensures Value() == Failed(old(Value()), reason, now)
    {
      if lastFailure != 0 && now - lastFailure > WINDOW {
        errorCount := 0;
        failureCounts := map[];
      }
      errorCount := errorCount + 1;
      failureCounts := Bump(failureCounts, reason);
      lastFailure := now;
      if reason == Billing {
        disabledUntil := now + CalculateBilling(Of(failureCounts, Billing));
        disabledReason := Some(Billing);
      } else {
        cooldownEnd := now + CalculateCooldown(errorCount);
      }
    }

    method Reset()
      modifies this
      ensures Some(Value()) == Succeeded(Some(old(Value())))
    {
      errorCount := 0;
      failureCounts := map[];
      cooldownEnd := 0;
      disabledUntil := 0;
      disabledReason := None;
    }
  }

  class CooldownTracker {
    var entries: map<string, CooldownEntry>

    /** No two providers share an entry. */
    ghost predicate Valid()
      reads this
    {
      forall p, q :: p in entries && q in entries && p != q ==> entries[p] != entries[q]
    }

    ghost function View(): Tracker
      reads this, entries.Values
    {
      map p | p in entries :: entries[p].Value()
    }

    constructor ()
      ensures Valid() && View() == map[] && entries == map[]
    {
      entries := map[];
    }

    method GetOrCreate(provider: string) returns (entry: CooldownEntry)
      requires Valid()
      modifies this
      ensures Valid() && provider in entries && entries[provider] == entry
      ensures entry.Value() == Existing(Get(old(View()), provider))
      ensures View() == old(View())[provider := entry.Value()]
      ensures forall e :: e in entries.Values && e !in old(entries.Values) ==> fresh(e)
    {
      if provider !in entries {
        entry := new CooldownEntry();
        entries := entries[provider := entry];
      }
      entry := entries[provider];
    }

    method MarkFailure(provider: string, reason: Reason, now: int)
      requires Valid()
      modifies this, entries.Values
      ensures Valid() && forall e :: e in entries.Values && e !in old(entries.Values) ==> fresh(e)
      ensures View() == MarkedFailure(old(View()), provider, reason, now)
    {
      ghost var was := Existing(Get(View(), provider));
      var entry := GetOrCreate(provider);
      FailEntry(provider, entry, reason, now);
      assert entry.Value() == Failed(was, reason, now);
    }

    method FailEntry(provider: string, entry: CooldownEntry, reason: Reason, now: int)
      requires Valid() && provider in entries && entries[provider] == entry
      modifies entry
      ensures entry.Value() == Failed(old(entry.Value()), reason, now)
      ensures View() == old(View())[provider := entry.Value()]
    {
      entry.Fail(reason, now);
      assert forall p :: p in entries && p != provider ==> entries[p].Value() == old(entries[p].Value());
    }

    method MarkSuccess(provider: string)
      requires Valid()
      modifies entries.Values
      ensures Valid() && View() == MarkedSuccess(old(View()), provider)
    {
      if provider !in entries {
        return;
      }
      entries[provider].Reset();
      assert forall p :: p in entries && p != provider ==> entries[p].Value() == old(entries[p].Value());
    }

    /** What other calls mark meanwhile. */
    method Meanwhile(marks: seq<Mark>)
      requires Valid()
      modifies this, entries.Values
      ensures Valid() && forall e :: e in entries.Values && e !in old(entries.Values) ==> fresh(e)
      ensures View() == MarkedAll(old(View()), marks)
    {
      for i := 0 to |marks|
        invariant Valid() && forall e :: e in entries.Values && e !in old(entries.Values) ==> fresh(e)
        invariant View() == MarkedAll(old(View()), marks[..i])
      {
        assert marks[..i + 1][..i] == marks[..i];
        match marks[i]
        case FailureMark(p, r, at) => MarkFailure(p, r, at);
        case SuccessMark(p, _) => MarkSuccess(p);
      }
      assert marks[..|marks|] == marks;
    }

    method IsAvailable(provider: string, now: int) returns (ok: bool)
      ensures ok == Available(Get(View(), provider), now)
    {
      if provider !in entries {
        return true;
      }
      var entry := entries[provider];
      if entry.disabledUntil != 0 && now < entry.disabledUntil {
        return false;
      }
      return !(entry.cooldownEnd != 0 && now < entry.cooldownEnd);
    }

    method CooldownRemaining(provider: string, now: int) returns (remaining: int)
      ensures remaining == Remaining(Get(View(), provider), now)
    {
      if provider !in entries {
        return 0;
      }
      var entry := entries[provider];
      remaining := 0;
      if entry.disabledUntil != 0 && now < entry.disabledUntil && entry.disabledUntil - now > remaining {
        remaining := entry.disabledUntil - now;
      }
      if entry.cooldownEnd != 0 && now < entry.cooldownEnd && entry.cooldownEnd - now > remaining {
        remaining := entry.cooldownEnd - now;
      }
    }
  }
}
