/** The fallback chain: candidates tried in order, each at most once, under the cooldowns. */
module Failover {
  import opened Common
  import opened Cooldown
  import opened CooldownTracking

  datatype Candidate = Candidate(provider: string, model: string)

  /** What a run gave; `kind` is what the error is classified as, if it is. */
  datatype Outcome<+E> = Done | Broken(error: E, kind: Option<Reason>)

  /** The surroundings of one candidate's turn: whether the caller has cancelled before and
      after its run, the clock at its start and when its outcome is marked, and what other calls
      make of the tracker before its start and during its run. */
  datatype Moment = Moment(cancelled: bool, at: int, cancelledAfter: bool, marked: int,
                           before: Tracker -> Tracker, during: Tracker -> Tracker)

  /** A skipped attempt has no error of its own, an aborted one no reason. */
  datatype Attempt<+E> = Attempt(candidate: Candidate, skipped: bool, reason: Option<Reason>, error: Option<E>)

  datatype End<+E> = Served(index: nat) | Cancelled | Refused(error: E, reason: Reason) | Exhausted | NoCandidates

  datatype Walk<+E> = Walk(tracker: Tracker, attempts: seq<Attempt<E>>, ran: seq<nat>, end: Option<End<E>>)

  /** The candidate's provider is available when its turn starts. */
  predicate Free(t: Tracker, c: Candidate, m: Moment) {
    Available(Get(m.before(t), c.provider), m.at)
  }

  predicate Runs<E>(w: Walk<E>, c: Candidate, m: Moment) {
    w.end.None? && !m.cancelled && Free(w.tracker, c, m)
  }

  function Skipped<E>(c: Candidate): Attempt<E> { Attempt(c, true, Some(RateLimit), None) }

  function Tried<E>(c: Candidate, error: E, reason: Option<Reason>): Attempt<E> {
    Attempt(c, false, reason, Some(error))
  }

  /** What the outcome of a run leads to. */
  function Settle<E>(w: Walk<E>, c: Candidate, m: Moment, i: nat, o: Outcome<E>): Walk<E> {
    match o
    case Done => w.(tracker := MarkedSuccess(w.tracker, c.provider), end := Some(Served(i)))
    case Broken(error, kind) =>
      if m.cancelledAfter then
        w.(attempts := w.attempts + [Tried(c, error, None)], end := Some(Cancelled))
      else if kind == None then
        w.(attempts := w.attempts + [Tried(c, error, Some(Timeout))])
      else if kind == Some(Format) then
        w.(attempts := w.attempts + [Tried(c, error, kind)], end := Some(Refused(error, Format)))
      else
        w.(tracker := MarkedFailure(w.tracker, c.provider, kind.value, m.marked),
           attempts := w.attempts + [Tried(c, error, kind)])
  }

  function Turn<E>(w: Walk<E>, c: Candidate, m: Moment, i: nat, o: Outcome<E>): Walk<E> {
    if w.end.Some? then w
    else
      var v := w.(tracker := m.before(w.tracker));
      if m.cancelled then v.(end := Some(Cancelled))
      else if !Free(w.tracker, c, m) then v.(attempts := w.attempts + [Skipped(c)])
      else Settle(v.(ran := w.ran + [i], tracker := m.during(v.tracker)), c, m, i, o)
  }

  /** A whole call: what the candidates, the surroundings and the runs are. */
  datatype Call<+E> = Call(candidates: seq<Candidate>, moments: seq<Moment>, outcomes: seq<Outcome<E>>, start: Tracker)

  ghost predicate Sized<E>(x: Call<E>) {
    |x.candidates| == |x.moments| == |x.outcomes|
  }

  function Upto<E>(x: Call<E>, n: nat): Walk<E>
    requires Sized(x) && n <= |x.candidates|
  {
    if n == 0 then Walk(x.start, [], [], None)
    else Turn(Upto(x, n - 1), x.candidates[n - 1], x.moments[n - 1], n - 1, x.outcomes[n - 1])
  }

  function Whole<E>(x: Call<E>): Walk<E>
    requires Sized(x)
  {
    Upto(x, |x.candidates|)
  }

  function Ending<E>(x: Call<E>): End<E>
    requires Sized(x)
  {
    if x.candidates == [] then NoCandidates
    else if Whole(x).end.Some? then Whole(x).end.value
    else Exhausted
  }

  // ---------------------------------------------------------------- what runs

  /** The i-th candidate is run. */
  predicate RunsAt<E>(x: Call<E>, i: nat)
    requires Sized(x) && i < |x.candidates|
  {
    Runs(Upto(x, i), x.candidates[i], x.moments[i])
  }

  /** The i-th turn leaves the rest to the next candidate. */
  predicate Passes<E>(x: Call<E>, i: nat)
    requires Sized(x) && i < |x.candidates|
  {
    && !x.moments[i].cancelled
    && (Free(Upto(x, i).tracker, x.candidates[i], x.moments[i]) ==>
          && x.outcomes[i].Broken? && !x.moments[i].cancelledAfter && x.outcomes[i].kind != Some(Format))
  }

  ghost predicate Increasing(s: seq<nat>) { forall i, j :: 0 <= i < j < |s| ==> s[i] < s[j] }

  lemma TurnRuns<E>(w: Walk<E>, c: Candidate, m: Moment, i: nat, o: Outcome<E>)
    ensures Turn(w, c, m, i, o).ran == w.ran + if Runs(w, c, m) then [i] else []
  {
  }

  lemma TurnEnds<E>(x: Call<E>, i: nat)
    requires Sized(x) && i < |x.candidates|
    ensures Upto(x, i + 1).end.None? <==> Upto(x, i).end.None? && Passes(x, i)
  {
  }

  /** The runs are in the candidates' order, each at most once, and exactly the turns that
      find the walk going on, not cancelled, and the provider available. */
  lemma RunsInOrder<E>(x: Call<E>, n: nat)
    requires Sized(x) && n <= |x.candidates|
    ensures var ran := Upto(x, n).ran;
            && Increasing(ran) && (forall k :: k in ran ==> k < n)
            && (forall i: nat :: i < n ==> (i in ran <==> RunsAt(x, i)))
  {
    RanIs(x, n);
    assert forall i: nat :: i < n ==> Running(x)(i) == RunsAt(x, i);
  }

  ghost function Running<E>(x: Call<E>): nat -> bool
    requires Sized(x)
  {
    (i: nat) => i < |x.candidates| && RunsAt(x, i)
  }

  /** The numbers below `n` with a property, in order. */
  ghost predicate Lists(s: seq<nat>, n: nat, f: nat -> bool) {
    Increasing(s) && (forall k :: k in s ==> k < n) && (forall i: nat :: i < n ==> (i in s <==> f(i)))
  }

  lemma ListsMore(s: seq<nat>, n: nat, f: nat -> bool)
    requires Lists(s, n, f)
    ensures Lists(s + (if f(n) then [n] else []), n + 1, f)
  {
    assert forall i :: 0 <= i < |s| ==> s[i] in s;
    assert s + [] == s;
  }

  lemma {:induction false} RanIs<E>(x: Call<E>, n: nat)
    requires Sized(x) && n <= |x.candidates|
    ensures Lists(Upto(x, n).ran, n, Running(x))
  {
    if n > 0 {
      RanIs(x, n - 1);
      TurnRuns(Upto(x, n - 1), x.candidates[n - 1], x.moments[n - 1], n - 1, x.outcomes[n - 1]);
      ListsMore(Upto(x, n - 1).ran, n - 1, Running(x));
    }
  }

  /** Nothing happens after the end. */
  lemma {:induction false} OverIsOver<E>(x: Call<E>, i: nat, n: nat)
    requires Sized(x) && i <= n <= |x.candidates| && Upto(x, i).end.Some?
    ensures Upto(x, n) == Upto(x, i)
    decreases n
  {
    if i < n {
      OverIsOver(x, i, n - 1);
    }
  }

  /** The walk goes on exactly as long as every turn passes. */
  lemma {:induction false} GoesOn<E>(x: Call<E>, n: nat)
    requires Sized(x) && n <= |x.candidates|
    ensures Upto(x, n).end.None? <==> forall i: nat :: i < n ==> Passes(x, i)
  {
    if n > 0 {
      GoesOn(x, n - 1);
      TurnEnds(x, n - 1);
    }
  }

  /** The turn at which the walk ends, if it does. */
  lemma {:induction false} LastTurn<E>(x: Call<E>, n: nat) returns (k: nat)
    requires Sized(x) && n <= |x.candidates| && Upto(x, n).end.Some?
    ensures k < n && !Passes(x, k) && Upto(x, k).end.None? && Upto(x, n) == Upto(x, k + 1)
  {
    if Upto(x, n - 1).end.Some? {
      k := LastTurn(x, n - 1);
    } else {
      k := n - 1;
    }
  }

  /** A success is the run of the first turn that does not pass; nothing runs after it. */
  lemma ServedByFirst<E>(x: Call<E>, k: nat)
    requires Sized(x) && k < |x.candidates|
    ensures Ending(x) == Served(k) <==>
      RunsAt(x, k) && x.outcomes[k].Done? && forall i: nat :: i < k ==> Passes(x, i)
    ensures Ending(x) == Served(k) ==> Whole(x).ran == Upto(x, k).ran + [k]
  {
    if Ending(x) == Served(k) {
      WasServed(x, k);
    } else if RunsAt(x, k) && x.outcomes[k].Done? {
      EndOf(x, k);
      OverIsOver(x, k + 1, |x.candidates|);
    }
  }

  lemma WasServed<E>(x: Call<E>, k: nat)
    requires Sized(x) && Ending(x) == Served(k)
    ensures k < |x.candidates| && RunsAt(x, k) && x.outcomes[k].Done?
    ensures forall i: nat :: i < k ==> Passes(x, i)
    ensures Whole(x).ran == Upto(x, k).ran + [k]
  {
    var j := LastTurn(x, |x.candidates|);
    EndOf(x, j);
    GoesOn(x, j);
  }

  /** How a turn that does not pass ends the walk. */
  lemma EndOf<E>(x: Call<E>, j: nat)
    requires Sized(x) && j < |x.candidates| && Upto(x, j).end.None? && !Passes(x, j)
    ensures Upto(x, j + 1).end.Some?
    ensures Upto(x, j + 1).end.value.Served? <==> RunsAt(x, j) && x.outcomes[j].Done?
    ensures Upto(x, j + 1).end.value.Served? ==> Upto(x, j + 1).end.value.index == j
    ensures RunsAt(x, j) ==> Upto(x, j + 1).ran == Upto(x, j).ran + [j]
  {
  }

  // ---------------------------------------------------------------- what the call leaves in the tracker

  /** A success forgets everything: no errors, no counts, no waits, so the provider is available
      at every clock. */
  lemma ServedResets<E>(x: Call<E>, k: nat, now: int)
    requires Sized(x) && Ending(x) == Served(k)
    ensures k < |x.candidates|
    ensures var e := Get(Whole(x).tracker, x.candidates[k].provider);
            && Available(e, now)
            && (e.Some? ==> e.value.errors == 0 && e.value.counts == map[]
                            && e.value.cooldownEnd == 0 && e.value.disabledUntil == 0)
  {
    WasServed(x, k);
    OverIsOver(x, k + 1, |x.candidates|);
  }

  /** An outcome that is told to the tracker: a success, or an error that is classified, says
      something of the provider, and finds the caller still there. */
  predicate Told<E>(m: Moment, o: Outcome<E>) {
    o.Done? || (!m.cancelledAfter && o.kind.Some? && o.kind != Some(Format))
  }

  /** What a turn says of a provider. */
  function Said<E>(x: Call<E>, i: nat, p: string): seq<Cooldown.Event>
    requires Sized(x) && i < |x.candidates|
  {
    if x.candidates[i].provider != p || !RunsAt(x, i) || !Told(x.moments[i], x.outcomes[i]) then []
    else if x.outcomes[i].Done? then [Success(x.moments[i].marked)]
    else [Failure(x.outcomes[i].kind.value, x.moments[i].marked)]
  }

  /** The marks of a provider, in order. */
  function OfProvider(ms: seq<Mark>, p: string): seq<Cooldown.Event> {
    if ms == [] then []
    else
      var last := ms[|ms| - 1];
      OfProvider(ms[..|ms| - 1], p)
      + if last.provider != p then []
        else match last case FailureMark(_, r, at) => [Failure(r, at)] case SuccessMark(_, at) => [Success(at)]
  }

  /** All that is said of a provider around a turn: by the other calls, and by this one if it runs
      the turn. */
  function TurnSays<E>(x: Call<E>, o: Others, i: nat, p: string): seq<Cooldown.Event>
    requires Sized(x) && i < |x.candidates|
  {
    if Upto(x, i).end.Some? then []
    else OfProvider(o.before, p) + ((if RunsAt(x, i) then OfProvider(o.during, p) else []) + Said(x, i, p))
  }

  function Story<E>(x: Call<E>, others: seq<Others>, n: nat, p: string): seq<Cooldown.Event>
    requires Sized(x) && n <= |x.candidates| && |others| == |x.moments|
  {
    if n == 0 then [] else Story(x, others, n - 1, p) + TurnSays(x, others[n - 1], n - 1, p)
  }

  lemma HistoryMore(h: seq<Cooldown.Event>, ev: Cooldown.Event)
    ensures Cooldown.Run(h + [ev]) == After(Cooldown.Run(h), ev)
  {
    assert (h + [ev])[..|h|] == h;
  }

  lemma {:induction false} MarkedHistory(t: Tracker, ms: seq<Mark>, p: string, h: seq<Cooldown.Event>)
    requires Get(t, p) == Cooldown.Run(h)
    ensures Get(MarkedAll(t, ms), p) == Cooldown.Run(h + OfProvider(ms, p))
  {
    if ms == [] {
      assert h + [] == h;
    } else {
      var n := |ms| - 1;
      MarkedHistory(t, ms[..n], p, h);
      var front := h + OfProvider(ms[..n], p);
      MarkHistory(MarkedAll(t, ms[..n]), ms[n], p, front);
      assert h + OfProvider(ms, p) == front + OfProvider([ms[n]], p) by { OneOfProvider(ms, p); }
    }
  }

  lemma OneOfProvider(ms: seq<Mark>, p: string)
    requires ms != []
    ensures OfProvider(ms, p) == OfProvider(ms[..|ms| - 1], p) + OfProvider([ms[|ms| - 1]], p)
  {
    assert [ms[|ms| - 1]][..0] == [];
  }

  lemma MarkHistory(t: Tracker, m: Mark, p: string, h: seq<Cooldown.Event>)
    requires Get(t, p) == Cooldown.Run(h)
    ensures Get(MarkedBy(t, m), p) == Cooldown.Run(h + OfProvider([m], p))
  {
    assert [m][..0] == [] && h + [] == h;
    if m.provider == p {
      HistoryMore(h, if m.FailureMark? then Failure(m.reason, m.at) else Success(m.at));
    }
  }

  lemma SettleHistory<E>(w: Walk<E>, c: Candidate, m: Moment, i: nat, o: Outcome<E>, p: string, h: seq<Cooldown.Event>)
    requires Get(w.tracker, p) == Cooldown.Run(h)
    ensures var said := if c.provider != p || !Told(m, o) then []
                        else if o.Done? then [Success(m.marked)] else [Failure(o.kind.value, m.marked)];
            Get(Settle(w, c, m, i, o).tracker, p) == Cooldown.Run(h + said)
  {
    assert h + [] == h;
    if c.provider == p && Told(m, o) {
      HistoryMore(h, if o.Done? then Success(m.marked) else Failure(o.kind.value, m.marked));
    }
  }

  /** The tracker that a call leaves holds of every provider exactly what its whole history makes
      of it, the history before the call and all that was said of it since: so all that is proved
      of histories holds of the tracker. A skipped or cancelled turn, a malformed request, an
      unclassified error and an error after a cancellation say nothing. */
  lemma TrackerIsHistory<E>(x: Call<E>, others: seq<Others>, n: nat, p: string, h: seq<Cooldown.Event>)
    requires Sized(x) && n <= |x.candidates| && AllDo(x.moments, others)
    requires Get(x.start, p) == Cooldown.Run(h)
    ensures Get(Upto(x, n).tracker, p) == Cooldown.Run(h + Story(x, others, n, p))
  {
    var f := (i: nat) => i <= n && AtHistory(x, others, i, p, h);
    StartHistory(x, others, p, h);
    forall i: nat | i < n && f(i) ensures f(i + 1) {
      StoryTurn(x, others, i, p, h);
    }
    Inductively(f, n);
  }

  lemma StartHistory<E>(x: Call<E>, others: seq<Others>, p: string, h: seq<Cooldown.Event>)
    requires Sized(x) && |others| == |x.moments| && Get(x.start, p) == Cooldown.Run(h)
    ensures AtHistory(x, others, 0, p, h)
  {
    assert h + [] == h;
  }

  ghost predicate AtHistory<E>(x: Call<E>, others: seq<Others>, n: nat, p: string, h: seq<Cooldown.Event>)
    requires Sized(x) && n <= |x.candidates| && |others| == |x.moments|
  {
    Get(Upto(x, n).tracker, p) == Cooldown.Run(h + Story(x, others, n, p))
  }

  lemma StoryTurn<E>(x: Call<E>, others: seq<Others>, i: nat, p: string, h: seq<Cooldown.Event>)
    requires Sized(x) && i < |x.candidates| && AllDo(x.moments, others)
    requires AtHistory(x, others, i, p, h)
    ensures AtHistory(x, others, i + 1, p, h)
  {
    var before, says := Story(x, others, i, p), TurnSays(x, others[i], i, p);
    assert Does(x.moments[i], others[i]);
    TurnHistory(x, others[i], i, p, h + before);
    Regroup(h, before, says);
    assert Story(x, others, i + 1, p) == before + says;
  }

  lemma TurnHistory<E>(x: Call<E>, o: Others, i: nat, p: string, h: seq<Cooldown.Event>)
    requires Sized(x) && i < |x.candidates| && Does(x.moments[i], o)
    requires Get(Upto(x, i).tracker, p) == Cooldown.Run(h)
    ensures Get(Upto(x, i + 1).tracker, p) == Cooldown.Run(h + TurnSays(x, o, i, p))
  {
    var w, m, c := Upto(x, i), x.moments[i], x.candidates[i];
    if w.end.Some? {
      assert h + [] == h;
    } else {
      var met := h + OfProvider(o.before, p);
      MarkedHistory(w.tracker, o.before, p, h);
      if RunsAt(x, i) {
        MarkedHistory(m.before(w.tracker), o.during, p, met);
        var v := w.(ran := w.ran + [i], tracker := m.during(m.before(w.tracker)));
        SettleHistory(v, c, m, i, x.outcomes[i], p, met + OfProvider(o.during, p));
        Regroup(h, OfProvider(o.before, p), OfProvider(o.during, p) + Said(x, i, p));
        Regroup(met, OfProvider(o.during, p), Said(x, i, p));
      } else {
        assert met + ([] + []) == met;
        assert h + TurnSays(x, o, i, p) == met;
      }
    }
  }

  // ---------------------------------------------------------------- the list of attempts

  /** As long as the walk goes on, every candidate so far has exactly one attempt, in order,
      skipped exactly when its provider was in cooldown, that is when it was not run. */
  lemma {:induction false} OneAttemptEach<E>(x: Call<E>, n: nat, i: nat)
    requires Sized(x) && i < n <= |x.candidates| && Upto(x, n).end.None?
    ensures var a := Upto(x, n).attempts;
            && |a| == n
            && a[i].candidate == x.candidates[i]
            && (a[i].skipped <==> !Free(Upto(x, i).tracker, x.candidates[i], x.moments[i]))
            && (!a[i].skipped <==> RunsAt(x, i))
            && (!a[i].skipped ==> x.outcomes[i].Broken? && a[i].error == Some(x.outcomes[i].error))
    decreases n
  {
    if i < n - 1 {
      OneAttemptEach(x, n - 1, i);
    } else if n > 1 {
      OneAttemptEach(x, n - 1, 0);
    }
  }

  /** The chain is exhausted exactly when every candidate passes; it then lists each
      candidate once. */
  lemma ExhaustedListsAll<E>(x: Call<E>, i: nat)
    requires Sized(x) && i < |x.candidates|
    ensures Ending(x).Exhausted? <==> forall j: nat :: j < |x.candidates| ==> Passes(x, j)
    ensures Ending(x).Exhausted? ==>
      var a := Whole(x).attempts;
      && |a| == |x.candidates|
      && a[i].candidate == x.candidates[i]
      && (a[i].skipped <==> !Free(Upto(x, i).tracker, x.candidates[i], x.moments[i]))
      && (a[i].skipped <==> i !in Whole(x).ran)
  {
    GoesOn(x, |x.candidates|);
    NeverExhaustedEarly(x, |x.candidates|);
    if Whole(x).end.None? {
      OneAttemptEach(x, |x.candidates|, i);
      RunsInOrder(x, |x.candidates|);
    }
  }

  lemma {:induction false} NeverExhaustedEarly<E>(x: Call<E>, n: nat)
    requires Sized(x) && n <= |x.candidates|
    ensures Upto(x, n).end != Some(Exhausted) && Upto(x, n).end != Some(NoCandidates)
  {
    if n > 0 {
      NeverExhaustedEarly(x, n - 1);
    }
  }

  // ---------------------------------------------------------------- no provider is hammered

  function Now<E>(x: Call<E>, n: nat, before: int): int
    requires Sized(x) && n <= |x.candidates|
  {
    if n == 0 then before else x.moments[n - 1].marked
  }

  /** The marks that other calls make around one turn. */
  datatype Others = Others(before: seq<Mark>, during: seq<Mark>)

  ghost predicate AllDo(moments: seq<Moment>, others: seq<Others>) {
    |moments| == |others| && forall i :: 0 <= i < |moments| ==> Does(moments[i], others[i])
  }

  /** What the others make of the tracker is what their marks make of it. */
  ghost predicate Does(m: Moment, o: Others) {
    && (forall t {:trigger m.before(t)} :: m.before(t) == MarkedAll(t, o.before))
    && (forall t {:trigger m.during(t)} :: m.during(t) == MarkedAll(t, o.during))
  }

  ghost predicate InOrder(m: Moment, o: Others, before: int) {
    Does(m, o) && InTime(o.before, before, m.at) && InTime(o.during, m.at, m.marked)
  }

  /** The clock does not go back during the call. */
  ghost predicate Timed<E>(x: Call<E>, others: seq<Others>, before: int) {
    && Sized(x) && before > 0 && |others| == |x.moments|
    && (forall p :: Sane(Get(x.start, p), before))
    && (forall i: nat {:trigger others[i]} :: i < |x.candidates| ==>
          InOrder(x.moments[i], others[i], Now(x, i, before)))
  }

  lemma StartOk<E>(x: Call<E>, others: seq<Others>, before: int, p: string)
    requires Timed(x, others, before)
    ensures Sane(Get(Upto(x, 0).tracker, p), before)
  {
  }

  lemma {:induction false} TrackerOk<E>(x: Call<E>, others: seq<Others>, before: int, n: nat, p: string)
    requires Timed(x, others, before) && n <= |x.candidates|
    ensures Sane(Get(Upto(x, n).tracker, p), Now(x, n, before))
  {
    if n == 0 {
      StartOk(x, others, before, p);
    } else {
      TrackerOk(x, others, before, n - 1, p);
      StepOk(x, others, before, n - 1, p);
    }
  }

  lemma StepOk<E>(x: Call<E>, others: seq<Others>, before: int, i: nat, p: string)
    requires Timed(x, others, before) && i < |x.candidates| && Sane(Get(Upto(x, i).tracker, p), Now(x, i, before))
    ensures Sane(Get(Upto(x, i + 1).tracker, p), Now(x, i + 1, before))
  {
    var w, m := Upto(x, i), x.moments[i];
    AtOutcomeOk(w.tracker, m, others[i], p, Now(x, i, before));
    OkLater(Get(w.tracker, p), Now(x, i, before), m.marked);
    OkLater(Get(m.before(w.tracker), p), m.at, m.marked);
    TurnOk(w, x.candidates[i], m, i, x.outcomes[i], p);
  }

  /** The tracker that a run's outcome is marked in. */
  function AtOutcome(t: Tracker, m: Moment): Tracker { m.during(m.before(t)) }

  lemma AtOutcomeOk(t: Tracker, m: Moment, o: Others, p: string, before: int)
    requires Sane(Get(t, p), before) && InOrder(m, o, before)
    ensures Sane(Get(m.before(t), p), m.at) && Sane(Get(AtOutcome(t, m), p), m.marked)
    ensures NoSuccess(o.before, p) ==> Until(Get(m.before(t), p)) >= Until(Get(t, p))
    ensures Undisturbed(o, p) ==> Until(Get(AtOutcome(t, m), p)) >= Until(Get(t, p))
  {
    ManyMarks(t, o.before, p, before, m.at);
    ManyMarks(m.before(t), o.during, p, m.at, m.marked);
  }

  lemma OkLater(e: Option<Entry>, before: int, now: int)
    requires Sane(e, before) && before <= now
    ensures Sane(e, now)
  {
  }

  lemma SettleOk<E>(w: Walk<E>, c: Candidate, m: Moment, i: nat, o: Outcome<E>, p: string)
    requires Sane(Get(w.tracker, p), m.marked)
    ensures var next := Settle(w, c, m, i, o);
            && Sane(Get(next.tracker, p), m.marked)
            && (next.end.None? ==> Until(Get(next.tracker, p)) >= Until(Get(w.tracker, p)))
  {
    if p == c.provider {
      SuccessKeeps(Get(w.tracker, p), m.marked, m.marked);
      if o.Broken? && o.kind.Some? {
        FailureKeeps(Get(w.tracker, p), o.kind.value, m.marked, m.marked);
      }
    }
  }

  lemma TurnOk<E>(w: Walk<E>, c: Candidate, m: Moment, i: nat, o: Outcome<E>, p: string)
    requires Sane(Get(w.tracker, p), m.marked) && Sane(Get(m.before(w.tracker), p), m.marked)
    requires Sane(Get(AtOutcome(w.tracker, m), p), m.marked)
    ensures Sane(Get(Turn(w, c, m, i, o).tracker, p), m.marked)
  {
    SettleOk(w.(ran := w.ran + [i], tracker := AtOutcome(w.tracker, m)), c, m, i, o, p);
  }

  /** No other call marks a success of the provider around this turn. */
  predicate Undisturbed(o: Others, p: string) { NoSuccess(o.before, p) && NoSuccess(o.during, p) }

  predicate Calm(others: seq<Others>, p: string) { forall k :: 0 <= k < |others| ==> Undisturbed(others[k], p) }

  lemma TurnWaits<E>(w: Walk<E>, c: Candidate, m: Moment, i: nat, o: Outcome<E>, p: string)
    requires Sane(Get(AtOutcome(w.tracker, m), p), m.marked)
    requires Until(Get(m.before(w.tracker), p)) >= Until(Get(w.tracker, p))
    requires Until(Get(AtOutcome(w.tracker, m), p)) >= Until(Get(w.tracker, p))
    ensures Holds(w, Turn(w, c, m, i, o), p)
  {
    SettleOk(w.(ran := w.ran + [i], tracker := AtOutcome(w.tracker, m)), c, m, i, o, p);
  }

  /** From one state to the next: unless that ends the walk, no wait of the provider is moved
      earlier. */
  predicate Holds<E>(w: Walk<E>, next: Walk<E>, p: string) {
    next.end.None? ==> w.end.None? && Until(Get(next.tracker, p)) >= Until(Get(w.tracker, p))
  }

  lemma {:induction false} HoldsOver<E>(ws: seq<Walk<E>>, p: string)
    requires ws != [] && ws[|ws| - 1].end.None?
    requires forall k :: 0 < k < |ws| ==> Holds(ws[k - 1], ws[k], p)
    ensures Until(Get(ws[|ws| - 1].tracker, p)) >= Until(Get(ws[0].tracker, p))
  {
    if |ws| > 1 {
      var n := |ws| - 1;
      assert Holds(ws[n - 1], ws[n], p);
      HoldsOver(ws[..n], p);
    }
  }

  lemma StepWaits<E>(x: Call<E>, others: seq<Others>, before: int, i: nat, p: string)
    requires Timed(x, others, before) && i < |x.candidates| && Undisturbed(others[i], p)
    ensures Holds(Upto(x, i), Upto(x, i + 1), p)
  {
    TrackerOk(x, others, before, i, p);
    AtOutcomeOk(Upto(x, i).tracker, x.moments[i], others[i], p, Now(x, i, before));
    TurnWaits(Upto(x, i), x.candidates[i], x.moments[i], i, x.outcomes[i], p);
  }

  /** The states from one turn to another. */
  ghost function States<E>(x: Call<E>, i: nat, n: nat): (ws: seq<Walk<E>>)
    requires Sized(x) && i <= n <= |x.candidates|
    ensures |ws| == n - i + 1 && forall k :: 0 <= k < |ws| ==> ws[k] == Upto(x, i + k)
  {
    seq(n - i + 1, k requires 0 <= k <= n - i => Upto(x, i + k))
  }

  /** One state after the other keeps the waits. */
  ghost predicate HoldsAt<E>(x: Call<E>, k: nat, p: string)
    requires Sized(x) && k < |x.candidates|
  {
    Holds(Upto(x, k), Upto(x, k + 1), p)
  }

  lemma StepHolds<E>(x: Call<E>, others: seq<Others>, before: int, i: nat, n: nat, k: nat, p: string)
    requires Timed(x, others, before) && i <= k < n <= |x.candidates| && Calm(others[i..n], p)
    ensures HoldsAt(x, k, p)
  {
    assert others[i..n][k - i] == others[k];
    StepWaits(x, others, before, k, p);
  }

  /** Waits do not shrink while the walk goes on and no other call marks a success. */
  lemma WaitsStay<E>(x: Call<E>, others: seq<Others>, before: int, i: nat, n: nat, p: string)
    requires Timed(x, others, before) && i <= n <= |x.candidates| && Upto(x, n).end.None?
    requires Calm(others[i..n], p)
    ensures Until(Get(Upto(x, n).tracker, p)) >= Until(Get(Upto(x, i).tracker, p))
  {
    forall k: nat | i <= k < n ensures HoldsAt(x, k, p) { StepHolds(x, others, before, i, n, k, p); }
    StaysIf(x, i, n, p);
  }

  lemma StaysIf<E>(x: Call<E>, i: nat, n: nat, p: string)
    requires Sized(x) && i <= n <= |x.candidates| && Upto(x, n).end.None?
    requires forall k: nat :: i <= k < n ==> HoldsAt(x, k, p)
    ensures Until(Get(Upto(x, n).tracker, p)) >= Until(Get(Upto(x, i).tracker, p))
  {
    var ws := States(x, i, n);
    forall k | 0 < k < |ws| ensures Holds(ws[k - 1], ws[k], p) {
      assert HoldsAt(x, i + k - 1, p);
    }
    HoldsOver(ws, p);
  }

  function Wait(r: Reason): int { if r == Billing then Hours(5) else Minutes(1) }

  lemma MarkedWaits(t: Tracker, p: string, r: Reason, now: int)
    requires Sane(Get(t, p), now)
    ensures Until(Get(MarkedFailure(t, p, r, now), p)) >= now + Wait(r)
  {
    var next := Failed(Existing(Get(t, p)), r, now);
    WaitsGrow(next.errors, next.errors);
    WaitsGrow(Of(next.counts, Billing), Of(next.counts, Billing));
    FailureKeeps(Get(t, p), r, now, now);
  }

  /** No success of the provider is marked by another call from the i-th outcome to the j-th
      start. */
  predicate NoneServed(others: seq<Others>, i: nat, j: nat, p: string)
    requires i < j < |others|
  {
    NoSuccess(others[j].before, p) && Calm(others[i + 1..j], p)
  }

  /** What a failure that leaves the walk going on makes its provider wait for. */
  lemma FailureWaits<E>(x: Call<E>, others: seq<Others>, before: int, i: nat)
    requires Timed(x, others, before) && i < |x.candidates| && RunsAt(x, i) && Upto(x, i + 1).end.None?
    requires x.outcomes[i].Broken? && x.outcomes[i].kind.Some?
    ensures Until(Get(Upto(x, i + 1).tracker, x.candidates[i].provider))
            >= x.moments[i].marked + Wait(x.outcomes[i].kind.value)
  {
    var p, m := x.candidates[i].provider, x.moments[i];
    TrackerOk(x, others, before, i, p);
    AtOutcomeOk(Upto(x, i).tracker, m, others[i], p, Now(x, i, before));
    MarkedWaits(AtOutcome(Upto(x, i).tracker, m), p, x.outcomes[i].kind.value, m.marked);
  }

  /** A candidate that is run has waited. */
  lemma RunsAfterWait<E>(x: Call<E>, others: seq<Others>, before: int, j: nat)
    requires Timed(x, others, before) && j < |x.candidates| && RunsAt(x, j)
    requires NoSuccess(others[j].before, x.candidates[j].provider)
    ensures x.moments[j].at >= Until(Get(Upto(x, j).tracker, x.candidates[j].provider))
  {
    var p, m := x.candidates[j].provider, x.moments[j];
    TrackerOk(x, others, before, j, p);
    AtOutcomeOk(Upto(x, j).tracker, m, others[j], p, Now(x, j, before));
    FreeWaited(Get(m.before(Upto(x, j).tracker), p), m.at);
  }

  lemma FreeWaited(e: Option<Entry>, now: int)
    requires Sane(e, now) && Available(e, now)
    ensures now >= Until(e)
  {
  }

  /** A provider that failed in this call is not run again in it, under any model, before its
      wait is over, a minute, or five hours after a billing failure: whatever other calls mark
      meanwhile, except a success of that provider. */
  lemma NotHammered<E>(x: Call<E>, others: seq<Others>, before: int, i: nat, j: nat)
    requires Timed(x, others, before) && i < j < |x.candidates|
    requires x.candidates[i].provider == x.candidates[j].provider
    requires NoneServed(others, i, j, x.candidates[i].provider)
    requires RunsAt(x, i) && RunsAt(x, j) && x.outcomes[i].Broken? && x.outcomes[i].kind.Some?
    ensures x.moments[j].at >= x.moments[i].marked + Wait(x.outcomes[i].kind.value)
  {
    StillWaits(x, others, before, i, j, x.candidates[i].provider);
    RunsAfterWait(x, others, before, j);
  }

  /** At a later turn a failed provider still has to wait. */
  lemma StillWaits<E>(x: Call<E>, others: seq<Others>, before: int, i: nat, j: nat, p: string)
    requires Timed(x, others, before) && i < j < |x.candidates| && p == x.candidates[i].provider
    requires Calm(others[i + 1..j], p) && Upto(x, j).end.None?
    requires RunsAt(x, i) && x.outcomes[i].Broken? && x.outcomes[i].kind.Some?
    ensures Until(Get(Upto(x, j).tracker, p)) >= x.moments[i].marked + Wait(x.outcomes[i].kind.value)
  {
    NotOverBefore(x, i + 1, j);
    FailureWaits(x, others, before, i);
    WaitsStay(x, others, before, i + 1, j, p);
  }

  lemma NotOverBefore<E>(x: Call<E>, k: nat, n: nat)
    requires Sized(x) && k <= n <= |x.candidates| && Upto(x, n).end.None?
    ensures Upto(x, k).end.None?
  {
    if Upto(x, k).end.Some? { OverIsOver(x, k, n); }
  }

  function Around(at: int, o: Others): (m: Moment)
    ensures Does(m, o)
  {
    Moment(false, at, false, at, t => MarkedAll(t, o.before), t => MarkedAll(t, o.during))
  }

  /** After such a success it can be run again at once. */
  lemma SuccessEndsWait<E>(error: E) returns (x: Call<E>, others: seq<Others>)
    ensures Timed(x, others, 1) && |x.candidates| == 2 && x.candidates[0].provider == x.candidates[1].provider
    ensures RunsAt(x, 0) && RunsAt(x, 1) && x.outcomes[0] == Broken(error, Some(Timeout))
    ensures x.moments[1].at < x.moments[0].marked + Wait(Timeout)
  {
    var c, o := Candidate("p", "m"), Broken(error, Some(Timeout));
    var served := [SuccessMark("p", 1)];
    others := [Others([], []), Others(served, [])];
    x := Call([c, c], [Around(1, others[0]), Around(1, others[1])], [o, o], map[]);
    var failed := MarkedFailure(map[], "p", Timeout, 1);
    assert MarkedAll(map[], []) == map[];
    assert Upto(x, 0) == Walk(map[], [], [], None);
    assert Upto(x, 1).tracker == failed && Upto(x, 1).end.None?;
    assert served[..0] == [];
    assert MarkedAll(failed, served) == MarkedSuccess(failed, "p");
  }
}
