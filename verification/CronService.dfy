/** The scheduler's methods on jobs that are updated in place; a job in the table is shared
    with the round that fires it. */
module CronService {
  import opened Common
  import opened Cron

  class CronJob {
    const id: Id
    const schedule: Schedule
    const deleteAfterRun: bool
    var enabled: bool
    var nextRunAt: int
    var lastRunAt: int

    constructor (j: Job)
      ensures Value() == j
    {
      id, schedule, deleteAfterRun := j.id, j.schedule, j.deleteAfterRun;
      enabled, nextRunAt, lastRunAt := j.enabled, j.nextRunAt, j.lastRunAt;
    }

    function Value(): Job
      reads this
    {
      Job(id, schedule, enabled, deleteAfterRun, nextRunAt, lastRunAt)
    }
  }

  class Service {
    const next: Calendar
    var jobs: map<Id, CronJob>

    /** Every job is under its own name. */
    ghost predicate Valid()
      reads this
    {
      forall id :: id in jobs ==> jobs[id].id == id
    }

    constructor (next: Calendar)
      ensures Valid() && jobs == map[] && this.next == next
    {
      this.next, jobs := next, map[];
    }

    method AddJob(job: CronJob, now: int)
      requires Valid()
      modifies this, job
      ensures Valid() && jobs == old(jobs)[job.id := job]
      ensures job.Value() == WithRun(next, old(job.Value()), now)
    {
      if job.nextRunAt == 0 {
        job.nextRunAt := ComputeNextRun(next, job.Value(), now);
      }
      jobs := jobs[job.id := job];
    }

    method RemoveJob(id: Id)
      requires Valid()
      modifies this
      ensures Valid() && jobs == old(jobs) - {id}
    {
      jobs := jobs - {id};
    }

    method EnableJob(id: Id, on: bool, now: int) returns (found: bool)
      requires Valid()
      modifies jobs.Values
      ensures Valid() && found == (id in jobs)
      ensures found ==> jobs[id].Value() == Enabled(next, old(jobs[id].Value()), on, now)
      ensures forall k :: k in jobs && k != id ==> jobs[k].Value() == old(jobs[k].Value())
    {
      if id !in jobs {
        return false;
      }
      var job := jobs[id];
      job.enabled := on;
      if on {
        job.nextRunAt := ComputeNextRun(next, job.Value(), now);
      }
      return true;
    }

    /** The soonest run of the enabled jobs, in whatever order the table gives them. */
    method EarliestRun() returns (earliest: Option<int>)
      ensures forall id :: id in jobs && jobs[id].enabled && jobs[id].nextRunAt != 0 ==>
                earliest.Some? && earliest.value <= jobs[id].nextRunAt
      ensures earliest.Some? ==>
                && earliest.value != 0
                && exists id :: id in jobs && jobs[id].enabled && jobs[id].nextRunAt == earliest.value
    {
      earliest := None;
      var todo := jobs.Keys;
      while todo != {}
        invariant todo <= jobs.Keys
        invariant forall id :: id in jobs && id !in todo && jobs[id].enabled && jobs[id].nextRunAt != 0 ==>
          earliest.Some? && earliest.value <= jobs[id].nextRunAt
        invariant earliest.Some? ==>
          earliest.value != 0 && exists id :: id in jobs && jobs[id].enabled && jobs[id].nextRunAt == earliest.value
        decreases |todo|
      {
        var id :| id in todo;
        todo := todo - {id};
        var j := jobs[id];
        if j.enabled && j.nextRunAt != 0 && (earliest.None? || j.nextRunAt < earliest.value) {
          earliest := Some(j.nextRunAt);
        }
      }
    }

    /** The due jobs, each once. */
    method CollectDue(now: int) returns (due: seq<CronJob>)
      requires Valid()
      ensures Distinct(due)
      ensures forall j :: j in due <==> j in jobs.Values && Due(j.Value(), now)
    {
      due := [];
      var todo := jobs.Keys;
      while todo != {}
        invariant todo <= jobs.Keys && Distinct(due)
        invariant forall j :: j in due <==> j in jobs.Values && j.id !in todo && Due(j.Value(), now)
        decreases |todo|
      {
        var id :| id in todo;
        var j := jobs[id];
        if j.enabled && j.nextRunAt != 0 && !(j.nextRunAt > now) {
          due := due + [j];
        }
        todo := todo - {id};
        assert forall k :: k in jobs.Values && k.id == id ==> k == j;
      }
    }

    method FireJob(job: CronJob, now: int)
      requires Valid()
      modifies this, job
      ensures Valid() && job.Value() == Ran(next, old(job.Value()), now)
      ensures jobs == if Deletes(old(job.Value())) then old(jobs) - {job.id} else old(jobs)
    {
      job.lastRunAt := now;
      if job.deleteAfterRun && job.schedule.At? {
        jobs := jobs - {job.id};
        return;
      }
      job.nextRunAt := ComputeNextRun(next, job.Value(), now);
    }

    /** A round without edits: every due job is fired once, no other is touched, and the ones
        left in the table are not due at the round's time any more. */
    method FireDueJobs(now: int) returns (ghost fired: seq<CronJob>)
      requires Valid() && Forward(next)
      requires forall id :: id in jobs && jobs[id].schedule.Every? ==> jobs[id].schedule.interval > 0
      modifies this, jobs.Values
      ensures Valid() && Distinct(fired)
      ensures forall j :: j in fired <==> j in old(jobs.Values) && Due(old(j.Value()), now)
      ensures forall j :: j in old(jobs.Values) ==>
                j.Value() == if j in fired then Ran(next, old(j.Value()), now) else old(j.Value())
      ensures forall id :: id in jobs ==> id in old(jobs) && jobs[id] == old(jobs)[id] && Settled(jobs[id].Value(), now)
    {
      var due := CollectDue(now);
      fired := due;
      ghost var all := jobs;
      var i := 0;
      while i < |due|
        invariant i <= |due| && Valid()
        invariant forall id :: id in jobs ==> id in all && jobs[id] == all[id]
        invariant forall j :: j in all.Values ==>
          j.Value() == if j in due[..i] then Ran(next, old(j.Value()), now) else old(j.Value())
        invariant forall id :: id in jobs && jobs[id] in due[..i] ==> Settled(jobs[id].Value(), now)
      {
        var j := due[i];
        assert j in due && j !in due[..i] && j in all.Values;
        assert due[..i + 1] == due[..i] + [j];
        RanSettled(next, j.Value(), now);
        FireJob(j, now);
        i := i + 1;
      }
      assert due[..|due|] == due;
    }
  }
}
