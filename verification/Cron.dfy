/** The job scheduler as a transition system: edits of the job table interleave with a round
    of firing, which first collects the due jobs and then fires them one by one. Times are
    integers; 0 is the zero time. */
module Cron {
  import opened Common

  type Id = string

  /** A cron expression stands for its calculator; `Odd` is any other kind of schedule. */
  datatype Schedule = At(time: int) | Every(interval: int) | Expr(expr: string) | Odd

  datatype Job = Job(id: Id, schedule: Schedule, enabled: bool, deleteAfterRun: bool, nextRunAt: int, lastRunAt: int)

  type Calendar = (string, int) -> int

  /** The calendar gives a later time, or none: an expression that does not parse or that
      never comes. */
  ghost predicate Forward(next: Calendar) { forall e, t :: next(e, t) == 0 || next(e, t) > t }

  function ComputeNextRun(next: Calendar, j: Job, after: int): int {
    match j.schedule
    case At(t) => if t > after then t else 0
    case Every(d) =>
      if j.lastRunAt == 0 then after + d
      else if j.lastRunAt + d < after then after + d
      else j.lastRunAt + d
    case Expr(e) => next(e, after)
    case Odd => 0
  }

  predicate Due(j: Job, now: int) { j.enabled && j.nextRunAt != 0 && j.nextRunAt <= now }

  function Enabled(next: Calendar, j: Job, on: bool, now: int): Job {
    if on then j.(enabled := true, nextRunAt := ComputeNextRun(next, j, now)) else j.(enabled := false)
  }

  predicate Deletes(j: Job) { j.deleteAfterRun && j.schedule.At? }

  function Ran(next: Calendar, j: Job, now: int): Job {
    var run := j.(lastRunAt := now);
    if Deletes(j) then run else run.(nextRunAt := ComputeNextRun(next, run, now))
  }

  // ---------------------------------------------------------------- the system

  datatype Firing = Firing(ref: nat, at: int)

  /** `heap` holds every job ever added; `table` names the ones scheduled; `due` is what the
      current round, begun at `roundAt`, still has to fire. */
  datatype System = System(heap: seq<Job>, table: map<Id, nat>, due: seq<nat>, roundAt: int,
                           fired: seq<Firing>, clock: int)

  const START := System([], map[], [], 0, [], 1)

  /** `Add` computes the first run at `computedAt` and puts the job in the table later. */
  datatype Step =
    | Add(job: Job, computedAt: int, now: int)
    | Enable(id: Id, on: bool, now: int)
    | Remove(id: Id, now: int)
    | Collect(order: seq<nat>, now: int)
    | Fire(now: int)

  function WithRun(next: Calendar, j: Job, now: int): Job {
    if j.nextRunAt == 0 then j.(nextRunAt := ComputeNextRun(next, j, now)) else j
  }

  /** The due jobs of the table, in any order. */
  ghost predicate Collects(s: System, order: seq<nat>, now: int) {
    && Distinct(order)
    && (forall r :: r in order ==> r < |s.heap| && Due(s.heap[r], now))
    && (forall r :: r in order ==> exists id :: id in s.table && s.table[id] == r)
    && (forall id :: id in s.table && s.table[id] < |s.heap| && Due(s.heap[s.table[id]], now) ==> s.table[id] in order)
  }

  ghost predicate Allowed(s: System, step: Step) {
    && s.clock <= step.now
    && match step
       case Add(j, computedAt, _) => 0 < computedAt <= step.now && j.nextRunAt == 0 && j.lastRunAt == 0
       case Collect(order, now) => s.due == [] && Collects(s, order, now)
       case Fire(_) => s.due != [] && s.due[0] < |s.heap|
       case _ => true
  }

  function Next(next: Calendar, s: System, step: Step): System {
    var t := s.(clock := step.now);
    match step
    case Add(j, computedAt, _) =>
      t.(heap := s.heap + [WithRun(next, j, computedAt)], table := s.table[j.id := |s.heap|])
    case Enable(id, on, now) =>
      if id in s.table && s.table[id] < |s.heap| then
        t.(heap := s.heap[s.table[id] := Enabled(next, s.heap[s.table[id]], on, now)])
      else t
    case Remove(id, _) => t.(table := s.table - {id})
    case Collect(order, now) => t.(due := order, roundAt := now)
    case Fire(_) =>
      if s.due != [] && s.due[0] < |s.heap| then
        var r := s.due[0];
        var j := s.heap[r];
        t.(heap := s.heap[r := Ran(next, j, s.roundAt)], due := s.due[1..],
           fired := s.fired + [Firing(r, s.roundAt)],
           table := if Deletes(j) then s.table - {j.id} else s.table)
      else t
  }

  function Run(next: Calendar, steps: seq<Step>): System {
    if steps == [] then START else Next(next, Run(next, steps[..|steps| - 1]), steps[|steps| - 1])
  }

  ghost predicate Legal(next: Calendar, steps: seq<Step>) {
    forall i :: 0 <= i < |steps| ==> Allowed(Run(next, steps[..i]), steps[i])
  }

  // ---------------------------------------------------------------- one job

  /** What holds of a job: `listed` when the table has it, `pending` when the current round
      has still to fire it. A run that is over is remembered by `lastRunAt`. */
  ghost predicate JobOk(j: Job, listed: bool, pending: bool, roundAt: int, clock: int) {
    && 0 <= j.lastRunAt <= roundAt <= clock
    && (j.schedule.At? ==>
          && (j.nextRunAt == 0 || j.nextRunAt == j.schedule.time)
          && (pending ==> j.lastRunAt == 0 && j.schedule.time <= roundAt)
          && (j.lastRunAt != 0 ==> j.schedule.time <= j.lastRunAt && (j.nextRunAt == 0 || !listed)))
    && (j.schedule.Every? && j.lastRunAt != 0 ==>
          && j.nextRunAt >= j.lastRunAt + j.schedule.interval
          && (pending ==> roundAt >= j.lastRunAt + j.schedule.interval))
  }

  lemma EnabledOk(next: Calendar, j: Job, on: bool, pending: bool, roundAt: int, clock: int, now: int)
    requires JobOk(j, true, pending, roundAt, clock) && clock <= now
    ensures JobOk(Enabled(next, j, on, now), true, pending, roundAt, now)
  {
  }

  lemma CollectedOk(j: Job, listed: bool, pending: bool, roundAt: int, clock: int, now: int)
    requires JobOk(j, listed, false, roundAt, clock) && clock <= now && (pending ==> listed && Due(j, now))
    ensures JobOk(j, listed, pending, now, now)
  {
  }

  lemma RanOk(next: Calendar, j: Job, listed: bool, roundAt: int, clock: int, now: int)
    requires JobOk(j, listed, true, roundAt, clock) && clock <= now && 0 < roundAt <= clock
    ensures JobOk(Ran(next, j, roundAt), listed && !Deletes(j), false, roundAt, now)
    ensures j.schedule.At? ==> j.lastRunAt == 0 && j.schedule.time <= roundAt
    ensures j.schedule.Every? && j.lastRunAt != 0 ==> roundAt >= j.lastRunAt + j.schedule.interval
  {
  }

  // ---------------------------------------------------------------- the whole table

  predicate Listed(s: System, r: nat)
    requires r < |s.heap|
  {
    s.heap[r].id in s.table && s.table[s.heap[r].id] == r
  }

  ghost predicate JobsOk(s: System) {
    forall r: nat :: r < |s.heap| ==> JobOk(s.heap[r], Listed(s, r), r in s.due, s.roundAt, s.clock)
  }

  ghost predicate Shape(s: System) {
    && 0 < s.clock && 0 <= s.roundAt <= s.clock && (s.due != [] ==> 0 < s.roundAt)
    && Distinct(s.due) && (forall i :: 0 <= i < |s.due| ==> s.due[i] < |s.heap|)
    && (forall id :: id in s.table ==> s.table[id] < |s.heap| && s.heap[s.table[id]].id == id)
  }

  ghost predicate Logged(heap: seq<Job>, fired: seq<Firing>) {
    forall i :: 0 <= i < |fired| ==> fired[i].ref < |heap| && 0 < fired[i].at <= heap[fired[i].ref].lastRunAt
  }

  /** A one-shot job has fired once at most, and not early; the firings of a repeating job
      are its interval apart. */
  ghost predicate Punctual(heap: seq<Job>, fired: seq<Firing>) {
    && (forall i :: 0 <= i < |fired| ==> fired[i].ref < |heap|)
    && (forall i :: 0 <= i < |fired| && heap[fired[i].ref].schedule.At? ==>
          fired[i].at >= heap[fired[i].ref].schedule.time)
    && (forall i, k :: 0 <= i < k < |fired| && fired[i].ref == fired[k].ref ==>
          var schedule := heap[fired[i].ref].schedule;
          !schedule.At? && (schedule.Every? ==> fired[k].at - fired[i].at >= schedule.interval))
  }

  ghost predicate Inv(s: System) {
    Shape(s) && JobsOk(s) && Logged(s.heap, s.fired) && Punctual(s.heap, s.fired)
  }

  /** The same jobs and maybe more, with the runs they had. */
  ghost predicate Extends(was: seq<Job>, heap: seq<Job>) {
    && |was| <= |heap|
    && forall r :: 0 <= r < |was| ==> heap[r].schedule == was[r].schedule && heap[r].lastRunAt == was[r].lastRunAt
  }

  lemma LogStays(was: seq<Job>, heap: seq<Job>, fired: seq<Firing>)
    requires Extends(was, heap) && Logged(was, fired) && Punctual(was, fired)
    ensures Logged(heap, fired) && Punctual(heap, fired)
  {
  }

  lemma AddKeeps(next: Calendar, s: System, step: Step)
    requires Inv(s) && step.Add? && Allowed(s, step)
    ensures Inv(Next(next, s, step))
  {
    var t := Next(next, s, step);
    LogStays(s.heap, t.heap, s.fired);
    forall r: nat | r < |t.heap| ensures JobOk(t.heap[r], Listed(t, r), r in t.due, t.roundAt, t.clock) {
      if r < |s.heap| {
        assert JobOk(s.heap[r], Listed(s, r), r in s.due, s.roundAt, s.clock);
      }
    }
  }

  lemma EnableKeeps(next: Calendar, s: System, step: Step)
    requires Inv(s) && step.Enable? && Allowed(s, step)
    ensures Inv(Next(next, s, step))
  {
    var t := Next(next, s, step);
    if step.id in s.table {
      var q := s.table[step.id];
      assert JobOk(s.heap[q], Listed(s, q), q in s.due, s.roundAt, s.clock);
      EnabledOk(next, s.heap[q], step.on, q in s.due, s.roundAt, s.clock, step.now);
      LogStays(s.heap, t.heap, s.fired);
    }
    forall r: nat | r < |t.heap| ensures JobOk(t.heap[r], Listed(t, r), r in t.due, t.roundAt, t.clock) {
      assert JobOk(s.heap[r], Listed(s, r), r in s.due, s.roundAt, s.clock);
    }
  }

  lemma RemoveKeeps(next: Calendar, s: System, step: Step)
    requires Inv(s) && step.Remove? && Allowed(s, step)
    ensures Inv(Next(next, s, step))
  {
    var t := Next(next, s, step);
    forall r: nat | r < |t.heap| ensures JobOk(t.heap[r], Listed(t, r), r in t.due, t.roundAt, t.clock) {
      assert JobOk(s.heap[r], Listed(s, r), r in s.due, s.roundAt, s.clock);
    }
  }

  lemma CollectKeeps(next: Calendar, s: System, step: Step)
    requires Inv(s) && step.Collect? && Allowed(s, step)
    ensures Inv(Next(next, s, step))
  {
    var t := Next(next, s, step);
    forall i | 0 <= i < |t.due| ensures t.due[i] < |t.heap| {
      assert t.due[i] in step.order;
    }
    forall r: nat | r < |t.heap| ensures JobOk(t.heap[r], Listed(t, r), r in t.due, t.roundAt, t.clock) {
      assert JobOk(s.heap[r], Listed(s, r), r in s.due, s.roundAt, s.clock);
      CollectedOk(s.heap[r], Listed(s, r), r in t.due, s.roundAt, s.clock, step.now);
    }
  }

  lemma FireKeeps(next: Calendar, s: System, step: Step)
    requires Inv(s) && step.Fire? && Allowed(s, step)
    ensures Inv(Next(next, s, step))
  {
    var t := Next(next, s, step);
    var r := s.due[0];
    assert s.due == [r] + s.due[1..];
    assert JobOk(s.heap[r], Listed(s, r), r in s.due, s.roundAt, s.clock);
    RanOk(next, s.heap[r], Listed(s, r), s.roundAt, s.clock, step.now);
    FiredLog(s.heap, s.fired, r, Ran(next, s.heap[r], s.roundAt), s.roundAt);
    forall q: nat | q < |t.heap| ensures JobOk(t.heap[q], Listed(t, q), q in t.due, t.roundAt, t.clock) {
      assert JobOk(s.heap[q], Listed(s, q), q in s.due, s.roundAt, s.clock);
    }
  }

  lemma FiredLog(heap: seq<Job>, fired: seq<Firing>, r: nat, j: Job, at: int)
    requires Logged(heap, fired) && Punctual(heap, fired) && r < |heap| && 0 < at
    requires j.schedule == heap[r].schedule && j.lastRunAt == at && heap[r].lastRunAt <= at
    requires j.schedule.At? ==> heap[r].lastRunAt == 0 && j.schedule.time <= at
    requires j.schedule.Every? && heap[r].lastRunAt != 0 ==> at >= heap[r].lastRunAt + j.schedule.interval
    ensures Logged(heap[r := j], fired + [Firing(r, at)]) && Punctual(heap[r := j], fired + [Firing(r, at)])
  {
  }

  /** Every step keeps it. */
  lemma StepKeeps(next: Calendar, s: System, step: Step)
    requires Inv(s) && Allowed(s, step)
    ensures Inv(Next(next, s, step))
  {
    match step
    case Add(_, _, _) => AddKeeps(next, s, step);
    case Enable(_, _, _) => EnableKeeps(next, s, step);
    case Remove(_, _) => RemoveKeeps(next, s, step);
    case Collect(_, _) => CollectKeeps(next, s, step);
    case Fire(_) => FireKeeps(next, s, step);
  }

  lemma {:induction false} RunKeeps(next: Calendar, steps: seq<Step>)
    requires Legal(next, steps)
    ensures Inv(Run(next, steps))
  {
    if steps != [] {
      var n := |steps| - 1;
      LegalFront(next, steps);
      RunKeeps(next, steps[..n]);
      StepKeeps(next, Run(next, steps[..n]), steps[n]);
    }
  }

  /** In every run of adding, enabling, disabling, removing and firing, in any interleaving, no
      firing of a one-shot job is early, it has no second one, and the firings of a repeating
      job are its interval apart. */
  lemma FiresOnTime(next: Calendar, steps: seq<Step>, i: nat, k: nat)
    requires Legal(next, steps)
    ensures var s := Run(next, steps);
            i < |s.fired| ==>
              && s.fired[i].ref < |s.heap|
              && var schedule := s.heap[s.fired[i].ref].schedule;
              && (schedule.At? ==> s.fired[i].at >= schedule.time)
              && (schedule.At? && i != k && k < |s.fired| ==> s.fired[k].ref != s.fired[i].ref)
              && (schedule.Every? && i < k < |s.fired| && s.fired[k].ref == s.fired[i].ref ==>
                    s.fired[k].at - s.fired[i].at >= schedule.interval)
  {
    RunKeeps(next, steps);
    if i < |Run(next, steps).fired| {
      PunctualAt(Run(next, steps).heap, Run(next, steps).fired, i, k);
    }
  }

  lemma PunctualAt(heap: seq<Job>, fired: seq<Firing>, i: nat, k: nat)
    requires Punctual(heap, fired) && i < |fired|
    ensures var schedule := heap[fired[i].ref].schedule;
            && (schedule.At? ==> fired[i].at >= schedule.time)
            && (schedule.At? && i != k && k < |fired| ==> fired[k].ref != fired[i].ref)
            && (schedule.Every? && i < k < |fired| && fired[k].ref == fired[i].ref ==>
                  fired[k].at - fired[i].at >= schedule.interval)
  {
  }

  // ---------------------------------------------------------------- what is planned, and what fires

  /** When the next run of a job was last worked out: when it was added, switched on, or fired
      without deleting itself. */
  function PlannedAt(next: Calendar, steps: seq<Step>, r: nat): int {
    if steps == [] then 0
    else
      var n := |steps| - 1;
      var s, before := Run(next, steps[..n]), PlannedAt(next, steps[..n], r);
      match steps[n]
      case Add(_, computedAt, _) => if r == |s.heap| then computedAt else before
      case Enable(id, on, now) => if on && id in s.table && s.table[id] == r then now else before
      case Fire(_) =>
        if s.due != [] && s.due[0] == r && r < |s.heap| && !Deletes(s.heap[r]) then s.roundAt else before
      case _ => before
  }

  /** Whether the job is on: as it was added, until it is switched. */
  predicate On(next: Calendar, steps: seq<Step>, r: nat) {
    steps != [] &&
    var n := |steps| - 1;
    var s, before := Run(next, steps[..n]), On(next, steps[..n], r);
    match steps[n]
    case Add(j, _, _) => if r == |s.heap| then j.enabled else before
    case Enable(id, on, _) => if id in s.table && s.table[id] == r then on else before
    case _ => before
  }

  /** A one-shot job is planned for its time if that was still to come; a repeating one for its
      interval after its last run, or after the planning when it never ran or that is past; a cron
      expression for what it gives after the planning; any other schedule never. */
  predicate Planned(next: Calendar, j: Job, t: int) {
    match j.schedule
    case At(time) => j.nextRunAt == if time > t then time else 0
    case Every(d) => j.nextRunAt == d + if j.lastRunAt == 0 || j.lastRunAt + d < t then t else j.lastRunAt
    case Expr(e) => j.nextRunAt == next(e, t)
    case Odd => j.nextRunAt == 0
  }

  ghost predicate PlannedOk(next: Calendar, steps: seq<Step>, r: nat) {
    r < |Run(next, steps).heap| ==>
      var j := Run(next, steps).heap[r];
      Planned(next, j, PlannedAt(next, steps, r)) && (j.enabled <==> On(next, steps, r))
  }

  lemma LegalFront(next: Calendar, steps: seq<Step>)
    requires Legal(next, steps) && steps != []
    ensures var n := |steps| - 1; Legal(next, steps[..n]) && Allowed(Run(next, steps[..n]), steps[n])
  {
    var front := steps[..|steps| - 1];
    forall i | 0 <= i < |front| ensures Allowed(Run(next, front[..i]), front[i]) {
      assert front[..i] == steps[..i];
    }
  }

  /** In every run the next run of every job, on or off, is the one planned when it was last added,
      switched on or fired. */
  lemma {:induction false} NextRunIsPlanned(next: Calendar, steps: seq<Step>, r: nat)
    requires Legal(next, steps)
    ensures PlannedOk(next, steps, r)
  {
    if steps != [] {
      var n := |steps| - 1;
      LegalFront(next, steps);
      NextRunIsPlanned(next, steps[..n], r);
      RunKeeps(next, steps[..n]);
      StepPlans(next, steps, r);
    }
  }

  lemma StepPlans(next: Calendar, steps: seq<Step>, r: nat)
    requires steps != [] && PlannedOk(next, steps[..|steps| - 1], r)
    requires var s := Run(next, steps[..|steps| - 1]); Inv(s) && Allowed(s, steps[|steps| - 1])
    ensures PlannedOk(next, steps, r)
  {
    var front, step := steps[..|steps| - 1], steps[|steps| - 1];
    var s := Run(next, front);
    var before := PlannedAt(next, front, r);
    match step
    case Add(j, computedAt, _) =>
      if r == |s.heap| { AddPlans(next, j, computedAt); }
    case Enable(id, switched, now) =>
      if id in s.table && s.table[id] == r { EnablePlans(next, s.heap[r], switched, now, before); }
    case Fire(_) =>
      if s.due[0] == r { FirePlans(next, s.heap[r], s.roundAt, before); }
    case _ =>
  }

  lemma AddPlans(next: Calendar, j: Job, now: int)
    requires j.nextRunAt == 0 && j.lastRunAt == 0
    ensures Planned(next, WithRun(next, j, now), now) && (WithRun(next, j, now).enabled <==> j.enabled)
  {
  }

  lemma EnablePlans(next: Calendar, j: Job, switched: bool, now: int, t: int)
    requires Planned(next, j, t)
    ensures var e := Enabled(next, j, switched, now);
            Planned(next, e, if switched then now else t) && (e.enabled <==> switched)
  {
  }

  lemma FirePlans(next: Calendar, j: Job, now: int, t: int)
    requires Planned(next, j, t)
    ensures var e := Ran(next, j, now);
            Planned(next, e, if Deletes(j) then t else now) && (e.enabled <==> j.enabled)
  {
  }

  /** A round collected the job when it was in the table, on, and due. */
  ghost predicate CollectedIn(next: Calendar, steps: seq<Step>, k: nat, r: nat, at: int) {
    && k < |steps| && steps[k].Collect? && steps[k].now == at
    && var s := Run(next, steps[..k]);
    && r < |s.heap| && s.heap[r].enabled && s.heap[r].nextRunAt != 0 && s.heap[r].nextRunAt <= at
    && exists id :: id in s.table && s.table[id] == r
  }

  ghost predicate WasCollected(next: Calendar, steps: seq<Step>, r: nat, at: int) {
    exists k: nat :: CollectedIn(next, steps, k, r, at)
  }

  lemma CollectedBefore(next: Calendar, steps: seq<Step>, r: nat, at: int)
    requires steps != [] && WasCollected(next, steps[..|steps| - 1], r, at)
    ensures WasCollected(next, steps, r, at)
  {
    var k: nat :| CollectedIn(next, steps[..|steps| - 1], k, r, at);
    assert steps[..|steps| - 1][..k] == steps[..k];
    assert CollectedIn(next, steps, k, r, at);
  }

  ghost predicate AllCollected(next: Calendar, steps: seq<Step>) {
    var s := Run(next, steps);
    && (forall i :: 0 <= i < |s.due| ==> WasCollected(next, steps, s.due[i], s.roundAt))
    && (forall i :: 0 <= i < |s.fired| ==> WasCollected(next, steps, s.fired[i].ref, s.fired[i].at))
  }

  /** Whatever fires was collected: it was in the table, on and due when its round began. So a job
      that is off when a round begins, or is not due, does not fire in it. */
  lemma {:induction false} FiresOnlyCollected(next: Calendar, steps: seq<Step>)
    requires Legal(next, steps)
    ensures AllCollected(next, steps)
  {
    if steps != [] {
      LegalFront(next, steps);
      FiresOnlyCollected(next, steps[..|steps| - 1]);
      StepCollects(next, steps);
    }
  }

  lemma StepCollects(next: Calendar, steps: seq<Step>)
    requires steps != [] && AllCollected(next, steps[..|steps| - 1])
    requires Allowed(Run(next, steps[..|steps| - 1]), steps[|steps| - 1])
    ensures AllCollected(next, steps)
  {
    var n := |steps| - 1;
    var s, t := Run(next, steps[..n]), Run(next, steps);
    forall i | 0 <= i < |t.due| ensures WasCollected(next, steps, t.due[i], t.roundAt) {
      if steps[n].Collect? {
        assert t.due[i] in steps[n].order;
        assert CollectedIn(next, steps, n, t.due[i], t.roundAt);
      } else {
        assert t.due[i] == s.due[if steps[n].Fire? then i + 1 else i];
        CollectedBefore(next, steps, t.due[i], t.roundAt);
      }
    }
    forall i | 0 <= i < |t.fired| ensures WasCollected(next, steps, t.fired[i].ref, t.fired[i].at) {
      if i == |s.fired| { assert t.fired[i] == Firing(s.due[0], s.roundAt); } else { assert t.fired[i] == s.fired[i]; }
      CollectedBefore(next, steps, t.fired[i].ref, t.fired[i].at);
    }
  }

  // ---------------------------------------------------------------- the loop cannot spin

  /** The job does not make the loop fire again at `now`. */
  ghost predicate Settled(j: Job, now: int) { j.enabled ==> j.nextRunAt == 0 || j.nextRunAt > now }

  /** What was collected is fired without an edit in between. */
  function FireAll(next: Calendar, s: System): System
    decreases |s.due|
  {
    if s.due == [] || s.due[0] >= |s.heap| then s else FireAll(next, Next(next, s, Fire(s.clock)))
  }

  function Firings(due: seq<nat>, at: int): seq<Firing> {
    if due == [] then [] else [Firing(due[0], at)] + Firings(due[1..], at)
  }

  ghost predicate Intervals(heap: seq<Job>) {
    forall r :: 0 <= r < |heap| && heap[r].schedule.Every? ==> heap[r].schedule.interval > 0
  }

  /** All that is listed and not still to be fired is settled. */
  ghost predicate Calm(s: System) {
    forall id :: id in s.table && s.table[id] < |s.heap| && s.table[id] !in s.due ==>
                   Settled(s.heap[s.table[id]], s.roundAt)
  }

  lemma FireCalms(next: Calendar, s: System)
    requires Inv(s) && Calm(s) && Forward(next) && Intervals(s.heap) && s.due != []
    ensures var t := Next(next, s, Fire(s.clock)); Inv(t) && Calm(t) && Intervals(t.heap) && t.roundAt == s.roundAt
  {
    StepKeeps(next, s, Fire(s.clock));
    var t := Next(next, s, Fire(s.clock));
    var r := s.due[0];
    assert s.due == [r] + s.due[1..];
    RanSettled(next, s.heap[r], s.roundAt);
    forall id | id in t.table && t.table[id] !in t.due ensures Settled(t.heap[t.table[id]], t.roundAt) {
      assert t.table[id] == s.table[id];
    }
  }

  lemma RanSettled(next: Calendar, j: Job, now: int)
    requires Forward(next) && (j.schedule.Every? ==> j.schedule.interval > 0)
    ensures Deletes(j) || Settled(Ran(next, j, now), now)
  {
    if j.schedule.Expr? {
      var t := next(j.schedule.expr, now);
    }
  }

  /** After a round without edits, exactly the collected jobs have fired once each, and no
      job in the table is due at the round's time. */
  lemma {:induction false} RoundSettles(next: Calendar, s: System)
    requires Inv(s) && Calm(s) && Forward(next) && Intervals(s.heap)
    ensures var t := FireAll(next, s);
            && Inv(t) && t.due == [] && t.roundAt == s.roundAt
            && t.fired == s.fired + Firings(s.due, s.roundAt)
            && forall id :: id in t.table ==> Settled(t.heap[t.table[id]], s.roundAt)
    decreases |s.due|
  {
    if s.due == [] {
      assert s.fired + [] == s.fired;
    } else {
      FireCalms(next, s);
      RoundSettles(next, Next(next, s, Fire(s.clock)));
      Regroup(s.fired, [Firing(s.due[0], s.roundAt)], Firings(s.due[1..], s.roundAt));
    }
  }

  lemma RoundCannotSpin(next: Calendar, s: System, order: seq<nat>, now: int)
    requires Inv(s) && Allowed(s, Collect(order, now)) && Forward(next) && Intervals(s.heap)
    ensures var t := FireAll(next, Next(next, s, Collect(order, now)));
            && Inv(t) && t.fired == s.fired + Firings(order, now)
            && forall id :: id in t.table ==> Settled(t.heap[t.table[id]], now)
  {
    CollectKeeps(next, s, Collect(order, now));
    RoundSettles(next, Next(next, s, Collect(order, now)));
  }

  // ---------------------------------------------------------------- a replaced job

  /** Firing takes another job out of the table exactly when the fired one deletes itself and
      the other has meanwhile been added under its name. */
  lemma FireUnlists(next: Calendar, s: System, q: nat)
    requires Inv(s) && s.due != [] && q < |s.heap| && q != s.due[0] && Listed(s, q)
    ensures var t := Next(next, s, Fire(s.clock));
            !Listed(t, q) <==> Deletes(s.heap[s.due[0]]) && s.heap[q].id == s.heap[s.due[0]].id
  {
  }

  /** It happens: a one-shot job is collected, a new job replaces it in the table, and firing
      the old one removes the new one, which never ran. */
  lemma ReplacedJobLost(next: Calendar, id: Id, other: Job) returns (steps: seq<Step>)
    requires other.id == id && other.nextRunAt == 0 && other.lastRunAt == 0
    ensures Legal(next, steps)
    ensures var s := Run(next, steps);
            s.table == map[] && |s.heap| == 2 && s.heap[1].lastRunAt == 0 && s.fired == [Firing(0, 10)]
  {
    var first := Job(id, At(10), true, true, 0, 0);
    steps := [];
    steps := LegalNext(next, steps, START, Add(first, 1, 1));
    var s1 := Run(next, steps);
    assert s1.table[id] == 0 && Due(s1.heap[0], 10);
    steps := LegalNext(next, steps, s1, Collect([0], 10));
    steps := LegalNext(next, steps, Run(next, steps), Add(other, 11, 11));
    steps := LegalNext(next, steps, Run(next, steps), Fire(12));
  }

  lemma LegalNext(next: Calendar, steps: seq<Step>, s: System, step: Step) returns (more: seq<Step>)
    requires Legal(next, steps) && s == Run(next, steps) && Allowed(s, step)
    ensures Legal(next, more) && Run(next, more) == Next(next, s, step)
  {
    more := steps + [step];
    assert more[..|steps|] == steps;
    forall i | 0 <= i < |more| ensures Allowed(Run(next, more[..i]), more[i]) {
      if i < |steps| { assert more[..i] == steps[..i]; }
    }
  }
}
