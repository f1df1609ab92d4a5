/** The one row of heartbeat_locks and the statements that compete for it. */
module Lease {
  import opened Common

  /** lockTimeout, in seconds. */
  const LOCK_TIMEOUT: int := 5 * 60

  datatype Row = Row(owner: nat, acquiredAt: int, expiresAt: int)

  type Table = Option<Row>

  predicate OwnedBy(t: Table, me: nat) { t.Some? && t.value.owner == me }

  /** Whether an instance reading clock `now` may take the row. */
  predicate Free(t: Table, now: int) { t.None? || t.value.expiresAt < now }

  // The statements as functions on the row.

  function Upserted(t: Table, me: nat, now: int): Table {
    if Free(t, now) then Some(Row(me, now, now + LOCK_TIMEOUT)) else t
  }

  function Renewed(t: Table, me: nat, now: int): Table {
    if OwnedBy(t, me) then Some(t.value.(expiresAt := now + LOCK_TIMEOUT)) else t
  }

  function Released(t: Table, me: nat): Table { if OwnedBy(t, me) then None else t }

  function CleanedUp(t: Table, now: int): Table {
    if t.Some? && t.value.expiresAt < now then None else t
  }

  class LockTable {
    var row: Table

    constructor ()
      ensures row == None
    {
      row := None;
    }

    /** INSERT ... ON DUPLICATE KEY UPDATE: the three assignments run from left to right, and
        each guard reads expires_at as the assignments before it left it. */
    method Upsert(me: nat, now: int)
      modifies this
      ensures row == Upserted(old(row), me, now)
    {
      if row.None? {
        row := Some(Row(me, now, now + LOCK_TIMEOUT));
      } else {
        row := Some(row.value.(owner := if row.value.expiresAt < now then me else row.value.owner));
        row := Some(row.value.(acquiredAt := if row.value.expiresAt < now then now else row.value.acquiredAt));
        row := Some(row.value.(expiresAt :=
                                 if row.value.expiresAt < now then now + LOCK_TIMEOUT else row.value.expiresAt));
      }
    }
  }

  datatype LockError = CheckLock | NotHeld

  class DistributedLock {
    const table: LockTable
    const instanceID: nat

    constructor (table: LockTable, instanceID: nat)
      ensures this.table == table && this.instanceID == instanceID
    {
      this.table, this.instanceID := table, instanceID;
    }

    /** Undisturbed, it succeeds exactly on a row that is free or already the caller's, and
        a failed attempt leaves the row as it was. */
    method TryAcquire(now: int) returns (r: Result<bool, LockError>)
      modifies table
      ensures table.row == Upserted(old(table.row), instanceID, now)
      ensures r == Ok(Free(old(table.row), now) || OwnedBy(old(table.row), instanceID))
      ensures r == Ok(false) ==> table.row == old(table.row)
    {
      table.Upsert(instanceID, now);
      if table.row.None? {
        return Err(CheckLock);
      }
      return Ok(table.row.value.owner == instanceID);
    }

    method Release()
      modifies table
      ensures table.row == Released(old(table.row), instanceID)
    {
      if table.row.Some? && table.row.value.owner == instanceID {
        table.row := None;
      }
    }

    method Renew(now: int) returns (r: Result<(), LockError>)
      modifies table
      ensures table.row == Renewed(old(table.row), instanceID, now)
      ensures r == if OwnedBy(old(table.row), instanceID) then Ok(()) else Err(NotHeld)
    {
      var affected := 0;
      if table.row.Some? && table.row.value.owner == instanceID {
        table.row := Some(table.row.value.(expiresAt := now + LOCK_TIMEOUT));
        affected := 1;
      }
      if affected == 0 {
        return Err(NotHeld);
      }
      return Ok(());
    }

    method CleanupExpired(now: int)
      modifies table
      ensures table.row == CleanedUp(old(table.row), now)
    {
      if table.row.Some? && table.row.value.expiresAt < now {
        table.row := None;
      }
    }
  }
}

/** Any number of instances over the row, every statement, clock read and flag write a step
    of its own, under one clock that never goes back. */
module LeaseRuns {
  import opened Common
  import opened Lease

  /** Where the goroutine of leaderLoop stands. */
  datatype Loop =
    | Idle
    | ClockRead(now: int)        // in TryAcquire, before the upsert
    | AfterUpsert                // in TryAcquire, before the select
    | Acquired(mine: bool)       // TryAcquire returned; the flag is not yet written
    | Releasing                  // in releaseLock, before the delete
    | AfterRelease               // in releaseLock, before the flag is cleared
    | Stopped

  /** Where a goroutine of runAsLeader stands. */
  datatype Worker = Waiting | RenewClockRead(now: int) | AfterRenew(ok: bool) | Gone

  /** Two fields are not the program's. `written` is the expiry that the row carried when a
      statement of the instance last wrote or found it in the instance's name, whether or not
      that reached the instance; `told` is the latest expiry that a statement which succeeded
      has told the instance. Both last until the instance deletes the row. */
  datatype Instance = Instance(loop: Loop, isLeader: bool, workers: seq<Worker>,
                               written: Option<int>, told: Option<int>)

  datatype Cluster = Cluster(clock: int, row: Table, instances: seq<Instance>)

  /** `executed` and `reported` say whether a statement took effect and whether its success
      reached the caller: a statement can fail either way. */
  datatype Step =
    | Tick(clock: int)
    | ReadClock(i: nat)
    | Upsert(i: nat)
    | AcquireFails(i: nat)
    | Select(i: nat)
    | WriteFlag(i: nat)
    | Stop(i: nat)
    | Delete(i: nat, executed: bool)
    | ClearFlag(i: nat)
    | RenewReadClock(i: nat, w: nat)
    | Renew(i: nat, w: nat, executed: bool, reported: bool)
    | RenewReturns(i: nat, w: nat)
    | Cancelled(i: nat, w: nat)
    | Cleanup(now: int)

  predicate InRange(c: Cluster, s: Step) {
    match s
    case Tick(_) => true
    case Cleanup(_) => true
    case RenewReadClock(i, w) => i < |c.instances| && w < |c.instances[i].workers|
    case Renew(i, w, _, _) => i < |c.instances| && w < |c.instances[i].workers|
    case RenewReturns(i, w) => i < |c.instances| && w < |c.instances[i].workers|
    case Cancelled(i, w) => i < |c.instances| && w < |c.instances[i].workers|
    case _ => s.i < |c.instances|
  }

  predicate Enabled(c: Cluster, s: Step) {
    && InRange(c, s)
    && match s
       case Tick(t) => c.clock <= t
       case ReadClock(i) => c.instances[i].loop.Idle?
       case Upsert(i) => c.instances[i].loop.ClockRead?
       case AcquireFails(i) => c.instances[i].loop.ClockRead? || c.instances[i].loop.AfterUpsert?
       case Select(i) => c.instances[i].loop.AfterUpsert?
       case WriteFlag(i) => c.instances[i].loop.Acquired?
       case Stop(i) => c.instances[i].loop.Idle?
       case Delete(i, _) => c.instances[i].loop.Releasing?
       case ClearFlag(i) => c.instances[i].loop.AfterRelease?
       case RenewReadClock(i, w) => c.instances[i].workers[w].Waiting?
       case Renew(i, w, _, _) => c.instances[i].workers[w].RenewClockRead?
       case RenewReturns(i, w) => c.instances[i].workers[w].AfterRenew?
       case Cancelled(i, w) => c.instances[i].workers[w].Waiting?
       case Cleanup(now) => now <= c.clock
  }

  function At(c: Cluster, i: nat, x: Instance): Cluster
    requires i < |c.instances|
  {
    c.(instances := c.instances[i := x])
  }

  /** What an instance has written after one of its statements left the row as `t`. */
  function Seen(t: Table, i: nat, written: Option<int>): Option<int> {
    if OwnedBy(t, i) then Some(t.value.expiresAt) else written
  }

  function Later(told: Option<int>, expiry: int): Option<int> {
    if told.Some? && told.value > expiry then told else Some(expiry)
  }

  /** The clock that a worker read before its renewal. */
  function RenewedAt(c: Cluster, i: nat, w: nat): int
    requires i < |c.instances| && w < |c.instances[i].workers| && c.instances[i].workers[w].RenewClockRead?
  {
    c.instances[i].workers[w].now
  }

  /** leaderLoop after TryAcquire returned. */
  function FlagWritten(x: Instance): Instance
    requires x.loop.Acquired?
  {
    if x.loop.mine && !x.isLeader then x.(loop := Idle, isLeader := true, workers := x.workers + [Waiting])
    else if !x.loop.mine && x.isLeader then x.(loop := Idle, isLeader := false)
    else x.(loop := Idle)
  }

  function Next(c: Cluster, s: Step): Cluster
    requires Enabled(c, s)
  {
    match s
    case Tick(t) => c.(clock := t)
    case ReadClock(i) => At(c, i, c.instances[i].(loop := ClockRead(c.clock)))
    case Upsert(i) =>
      var x := c.instances[i];
      var t := Upserted(c.row, i, x.loop.now);
      At(c.(row := t), i, x.(loop := AfterUpsert, written := Seen(t, i, x.written)))
    case AcquireFails(i) => At(c, i, c.instances[i].(loop := Idle))
    case Select(i) =>
      var x := c.instances[i];
      if c.row.None? then At(c, i, x.(loop := Idle))
      else if OwnedBy(c.row, i) then
        var expiry := c.row.value.expiresAt;
        At(c, i, x.(loop := Acquired(true), written := Some(expiry), told := Later(x.told, expiry)))
      else At(c, i, x.(loop := Acquired(false)))
    case WriteFlag(i) => At(c, i, FlagWritten(c.instances[i]))
    case Stop(i) =>
      var x := c.instances[i];
      At(c, i, x.(loop := if x.isLeader then Releasing else Stopped))
    case Delete(i, executed) =>
      var x := c.instances[i];
      At(if executed then c.(row := Released(c.row, i)) else c, i,
         x.(loop := AfterRelease, written := if executed then None else x.written,
            told := if executed then None else x.told))
    case ClearFlag(i) => At(c, i, c.instances[i].(loop := Stopped, isLeader := false))
    case RenewReadClock(i, w) =>
      var x := c.instances[i];
      At(c, i, x.(workers := x.workers[w := RenewClockRead(c.clock)]))
    case Renew(i, w, executed, reported) =>
      var x := c.instances[i];
      var t := if executed then Renewed(c.row, i, x.workers[w].now) else c.row;
      var ok := executed && reported && OwnedBy(c.row, i);
      At(c.(row := t), i,
         x.(workers := x.workers[w := AfterRenew(ok)],
            written := if executed then Seen(t, i, x.written) else x.written,
            told := if ok then Later(x.told, x.workers[w].now + LOCK_TIMEOUT) else x.told))
    case RenewReturns(i, w) =>
      var x := c.instances[i];
      if x.workers[w].ok then At(c, i, x.(workers := x.workers[w := Waiting]))
      else At(c, i, x.(workers := x.workers[w := Gone], isLeader := false))
    case Cancelled(i, w) =>
      var x := c.instances[i];
      At(c, i, x.(workers := x.workers[w := Gone]))
    case Cleanup(now) => c.(row := CleanedUp(c.row, now))
  }

  function Initial(n: nat, clock: int): Cluster {
    Cluster(clock, None, seq(n, _ => Instance(Idle, false, [], None, None)))
  }

  /** The state after a run; nothing when a step was not enabled. */
  function Run(n: nat, clock: int, steps: seq<Step>): Option<Cluster> {
    if steps == [] then Some(Initial(n, clock))
    else
      var k := |steps| - 1;
      match Run(n, clock, steps[..k])
      case None => None
      case Some(c) => if Enabled(c, steps[k]) then Some(Next(c, steps[k])) else None
  }

  // ---------------------------------------------------------------- invariant

  ghost predicate ClocksPast(c: Cluster, x: Instance) {
    && (x.loop.ClockRead? ==> x.loop.now <= c.clock)
    && (forall w :: 0 <= w < |x.workers| && x.workers[w].RenewClockRead? ==> x.workers[w].now <= c.clock)
  }

  /** What an instance has written, and is not in the row, has run out. */
  ghost predicate WrittenHeld(c: Cluster, i: nat, x: Instance) {
    x.written.Some? ==> OwnedBy(c.row, i) || x.written.value < c.clock
  }

  /** An instance that acts, or is about to act, as leader was told of a lease. */
  ghost predicate LeaderTold(x: Instance) {
    (x.isLeader && !x.loop.AfterRelease?) || x.loop == Acquired(true) ==> x.told.Some?
  }

  ghost predicate Inv(c: Cluster) {
    && (c.row.Some? ==> c.row.value.owner < |c.instances|
                        && c.instances[c.row.value.owner].written == Some(c.row.value.expiresAt))
    && forall i :: 0 <= i < |c.instances| ==>
                     && ClocksPast(c, c.instances[i])
                     && WrittenHeld(c, i, c.instances[i])
                     && LeaderTold(c.instances[i])
  }

  /** A statement of one instance, or a step of the clock, that breaks no lease: what the
      others need of it. */
  lemma InstanceKeeps(c: Cluster, c': Cluster, i: nat)
    requires Inv(c) && i < |c.instances| == |c'.instances| && c'.clock == c.clock
    requires c'.instances == c.instances[i := c'.instances[i]]
    requires c'.row != c.row ==> (c'.row.Some? ==> c'.row.value.owner == i)
                                 && (c.row.Some? && c.row.value.owner != i ==> c.row.value.expiresAt < c.clock)
    requires OwnedBy(c'.row, i) ==> c'.instances[i].written == Some(c'.row.value.expiresAt)
    requires ClocksPast(c', c'.instances[i])
    requires WrittenHeld(c', i, c'.instances[i])
    requires LeaderTold(c'.instances[i])
    ensures Inv(c')
  {
    forall j | 0 <= j < |c.instances| && j != i
      ensures WrittenHeld(c', j, c'.instances[j]) && ClocksPast(c', c'.instances[j]) && LeaderTold(c'.instances[j])
    {
      assert ClocksPast(c, c.instances[j]) && WrittenHeld(c, j, c.instances[j]) && LeaderTold(c.instances[j]);
    }
  }

  lemma LoopStepKeeps(c: Cluster, s: Step)
    requires Inv(c) && Enabled(c, s)
    requires s.ReadClock? || s.Upsert? || s.AcquireFails? || s.Select? || s.WriteFlag?
             || s.Stop? || s.Delete? || s.ClearFlag?
    ensures Inv(Next(c, s))
  {
    assert ClocksPast(c, c.instances[s.i]) && WrittenHeld(c, s.i, c.instances[s.i])
           && LeaderTold(c.instances[s.i]);
    InstanceKeeps(c, Next(c, s), s.i);
  }

  lemma WorkerStepKeeps(c: Cluster, s: Step)
    requires Inv(c) && Enabled(c, s)
    requires s.RenewReadClock? || s.Renew? || s.RenewReturns? || s.Cancelled?
    ensures Inv(Next(c, s))
  {
    assert ClocksPast(c, c.instances[s.i]) && WrittenHeld(c, s.i, c.instances[s.i])
           && LeaderTold(c.instances[s.i]);
    InstanceKeeps(c, Next(c, s), s.i);
  }

  lemma NextKeeps(c: Cluster, s: Step)
    requires Inv(c) && Enabled(c, s)
    ensures Inv(Next(c, s))
  {
    match s
    case Tick(_) =>
      forall i | 0 <= i < |c.instances| ensures WrittenHeld(Next(c, s), i, c.instances[i]) {
        assert WrittenHeld(c, i, c.instances[i]);
      }
    case Cleanup(_) =>
      forall i | 0 <= i < |c.instances| ensures WrittenHeld(Next(c, s), i, c.instances[i]) {
        assert WrittenHeld(c, i, c.instances[i]);
      }
    case RenewReadClock(_, _) => WorkerStepKeeps(c, s);
    case Renew(_, _, _, _) => WorkerStepKeeps(c, s);
    case RenewReturns(_, _) => WorkerStepKeeps(c, s);
    case Cancelled(_, _) => WorkerStepKeeps(c, s);
    case _ => LoopStepKeeps(c, s);
  }

  lemma {:induction false} RunKeeps(n: nat, clock: int, steps: seq<Step>)
    requires Run(n, clock, steps).Some?
    ensures Inv(Run(n, clock, steps).value)
    ensures |Run(n, clock, steps).value.instances| == n
  {
    if steps != [] {
      var k := |steps| - 1;
      RunKeeps(n, clock, steps[..k]);
      NextKeeps(Run(n, clock, steps[..k]).value, steps[k]);
    }
  }

  // ---------------------------------------------------------------- the row

  ghost predicate WrittenLive(c: Cluster, i: nat)
    requires i < |c.instances|
  {
    c.instances[i].written.Some? && c.clock <= c.instances[i].written.value
  }

  /** In every state of every run at most one instance has written an expiry that has not
      passed, and the row is its own. */
  lemma OneWrittenLease(n: nat, clock: int, steps: seq<Step>, i: nat, j: nat)
    requires Run(n, clock, steps).Some? && i < n && j < n
    ensures var c := Run(n, clock, steps).value;
            |c.instances| == n && (WrittenLive(c, i) && WrittenLive(c, j) ==> i == j && OwnedBy(c.row, i))
  {
    RunKeeps(n, clock, steps);
    var c := Run(n, clock, steps).value;
    assert WrittenHeld(c, i, c.instances[i]) && WrittenHeld(c, j, c.instances[j]);
  }

  /** The row leaves its owner only past its expiry, or by the owner's own delete. */
  lemma RowLeavesOwner(n: nat, clock: int, steps: seq<Step>, s: Step, i: nat)
    requires Run(n, clock, steps).Some? && Enabled(Run(n, clock, steps).value, s)
    requires var c := Run(n, clock, steps).value; OwnedBy(c.row, i) && !OwnedBy(Next(c, s).row, i)
    ensures var c := Run(n, clock, steps).value; c.row.value.expiresAt < c.clock || s == Delete(i, true)
  {
    RunKeeps(n, clock, steps);
    var c := Run(n, clock, steps).value;
    assert s.Upsert? ==> ClocksPast(c, c.instances[s.i]);
  }

  /** A cleanup with a clock that is not ahead takes the row from nobody whose lease lasts, and leaves
      a row only if it has not run out by that clock. */
  lemma CleanupFrees(n: nat, clock: int, steps: seq<Step>, now: int, i: nat)
    requires Run(n, clock, steps).Some? && Enabled(Run(n, clock, steps).value, Cleanup(now)) && i < n
    ensures |Run(n, clock, steps).value.instances| == n
    ensures var c := Run(n, clock, steps).value;
            var t := Next(c, Cleanup(now));
            && (t.row.Some? ==> t.row == c.row && t.row.value.expiresAt >= now)
            && (t.row.None? && c.row.Some? ==> c.row.value.expiresAt < now)
            && (WrittenLive(c, i) ==> OwnedBy(t.row, i))
  {
    RunKeeps(n, clock, steps);
    var c := Run(n, clock, steps).value;
    assert WrittenHeld(c, i, c.instances[i]);
  }

  // ---------------------------------------------------------------- the flag

  /** The state before the last step of a run. */
  function BeforeLast(n: nat, clock: int, steps: seq<Step>): Option<Cluster>
    requires steps != []
  {
    Run(n, clock, steps[..|steps| - 1])
  }

  /** What the last TryAcquire of the instance that found a row answered: whether the row was its
      own. */
  predicate Answered(n: nat, clock: int, steps: seq<Step>, i: nat) {
    steps != [] &&
    var c := BeforeLast(n, clock, steps);
    if c.Some? && steps[|steps| - 1] == Select(i) && c.value.row.Some? then OwnedBy(c.value.row, i)
    else Answered(n, clock, steps[..|steps| - 1], i)
  }

  /** Whether the last renewal of a worker was reported to it as done, of a row that was its
      instance's own. */
  predicate RenewalOk(n: nat, clock: int, steps: seq<Step>, i: nat, w: nat) {
    steps != [] &&
    var c, s := BeforeLast(n, clock, steps), steps[|steps| - 1];
    if c.Some? && s.Renew? && s.i == i && s.w == w then s.executed && s.reported && OwnedBy(c.value.row, i)
    else RenewalOk(n, clock, steps[..|steps| - 1], i, w)
  }

  /** The last answer that the instance acted on was true, and since then no worker of it acted on a
      renewal that failed, nor did it end its release. */
  predicate Elected(n: nat, clock: int, steps: seq<Step>, i: nat) {
    steps != [] &&
    var front, s := steps[..|steps| - 1], steps[|steps| - 1];
    if s == WriteFlag(i) then Answered(n, clock, front, i)
    else if s == ClearFlag(i) then false
    else if s.RenewReturns? && s.i == i && !RenewalOk(n, clock, front, i, s.w) then false
    else Elected(n, clock, front, i)
  }

  /** How often the instance became leader. */
  function Elections(n: nat, clock: int, steps: seq<Step>, i: nat): nat {
    if steps == [] then 0
    else
      var front := steps[..|steps| - 1];
      Elections(n, clock, front, i)
      + if steps[|steps| - 1] == WriteFlag(i) && Answered(n, clock, front, i) && !Elected(n, clock, front, i)
        then 1 else 0
  }

  ghost predicate Tells(n: nat, clock: int, steps: seq<Step>, i: nat, x: Instance) {
    && (x.isLeader <==> Elected(n, clock, steps, i))
    && |x.workers| == Elections(n, clock, steps, i)
    && (x.loop.Acquired? ==> x.loop.mine == Answered(n, clock, steps, i))
    && (forall w {:trigger x.workers[w]} :: 0 <= w < |x.workers| && x.workers[w].AfterRenew? ==>
          x.workers[w].ok == RenewalOk(n, clock, steps, i, w))
  }

  /** In every run the leader flag of an instance tells exactly that; and it started one worker each
      time it became leader. */
  lemma {:induction false} FlagTells(n: nat, clock: int, steps: seq<Step>, i: nat)
    requires Run(n, clock, steps).Some? && i < n
    ensures |Run(n, clock, steps).value.instances| == n
    ensures Tells(n, clock, steps, i, Run(n, clock, steps).value.instances[i])
  {
    if steps != [] {
      var k := |steps| - 1;
      FlagTells(n, clock, steps[..k], i);
      var c := Run(n, clock, steps[..k]).value;
      match steps[k]
      case Tick(_) =>
      case Cleanup(_) =>
      case RenewReadClock(_, _) => WorkerTells(n, clock, steps, i, c);
      case Renew(_, _, _, _) => WorkerTells(n, clock, steps, i, c);
      case RenewReturns(_, _) => WorkerTells(n, clock, steps, i, c);
      case Cancelled(_, _) => WorkerTells(n, clock, steps, i, c);
      case _ => LoopTells(n, clock, steps, i, c);
    }
  }

  lemma LoopTells(n: nat, clock: int, steps: seq<Step>, i: nat, c: Cluster)
    requires steps != [] && BeforeLast(n, clock, steps) == Some(c) && i < |c.instances|
    requires Tells(n, clock, steps[..|steps| - 1], i, c.instances[i])
    requires var s := steps[|steps| - 1];
             && Enabled(c, s) && !s.Tick? && !s.Cleanup? && !s.RenewReadClock? && !s.Renew?
             && !s.RenewReturns? && !s.Cancelled?
    ensures Tells(n, clock, steps, i, Next(c, steps[|steps| - 1]).instances[i])
  {
  }

  lemma WorkerTells(n: nat, clock: int, steps: seq<Step>, i: nat, c: Cluster)
    requires steps != [] && BeforeLast(n, clock, steps) == Some(c) && i < |c.instances|
    requires Tells(n, clock, steps[..|steps| - 1], i, c.instances[i])
    requires var s := steps[|steps| - 1];
             Enabled(c, s) && (s.RenewReadClock? || s.Renew? || s.RenewReturns? || s.Cancelled?)
    ensures Tells(n, clock, steps, i, Next(c, steps[|steps| - 1]).instances[i])
  {
    var s := steps[|steps| - 1];
    if s.i == i { assert c.instances[i].workers[s.w] == c.instances[i].workers[s.w]; }
  }

  // ---------------------------------------------------------------- what an instance was told

  /** The instance was told of a lease that the clock has not passed. */
  predicate Live(c: Cluster, i: nat)
    requires i < |c.instances|
  {
    c.instances[i].told.Some? && c.clock <= c.instances[i].told.value
  }

  /** A renewal takes effect that read its clock so long ago that it leaves the row below an
      expiry its instance was told of and that has not passed. */
  predicate Lowers(c: Cluster, s: Step)
    requires Enabled(c, s)
  {
    s.Renew? && s.executed && OwnedBy(c.row, s.i) && Live(c, s.i)
    && RenewedAt(c, s.i, s.w) + LOCK_TIMEOUT < c.instances[s.i].told.value
  }

  /** No renewal of the run lowers a live lease. */
  ghost predicate NoneLowers(n: nat, clock: int, steps: seq<Step>) {
    steps != [] ==>
      var k := |steps| - 1;
      && NoneLowers(n, clock, steps[..k])
      && match Run(n, clock, steps[..k])
         case None => false
         case Some(c) => Enabled(c, steps[k]) && !Lowers(c, steps[k])
  }

  /** A lease that the instance was told of and that has not run out is in the row. */
  ghost predicate ToldHeld(c: Cluster, i: nat)
    requires i < |c.instances|
  {
    Live(c, i) ==> OwnedBy(c.row, i) && c.instances[i].told.value <= c.row.value.expiresAt
  }

  ghost predicate AllToldHeld(c: Cluster) { forall i :: 0 <= i < |c.instances| ==> ToldHeld(c, i) }

  /** A step of one instance keeps what it was told itself. */
  lemma OwnStepToldHeld(c: Cluster, s: Step)
    requires Inv(c) && AllToldHeld(c) && Enabled(c, s) && !Lowers(c, s)
    requires !s.Tick? && !s.Cleanup?
    ensures ToldHeld(Next(c, s), s.i)
  {
    assert ToldHeld(c, s.i) && ClocksPast(c, c.instances[s.i]);
  }

  /** And what any other instance was told. */
  lemma OtherStepToldHeld(c: Cluster, s: Step, j: nat)
    requires Inv(c) && AllToldHeld(c) && Enabled(c, s) && j < |c.instances|
    requires s.Tick? || s.Cleanup? || s.i != j
    ensures ToldHeld(Next(c, s), j)
  {
    assert ToldHeld(c, j);
    if !s.Tick? && !s.Cleanup? { assert ClocksPast(c, c.instances[s.i]); }
  }

  lemma StepToldHeld(c: Cluster, s: Step)
    requires Inv(c) && AllToldHeld(c) && Enabled(c, s) && !Lowers(c, s)
    ensures AllToldHeld(Next(c, s))
  {
    forall j | 0 <= j < |c.instances| ensures ToldHeld(Next(c, s), j) {
      if s.Tick? || s.Cleanup? || s.i != j { OtherStepToldHeld(c, s, j); } else { OwnStepToldHeld(c, s); }
    }
  }

  lemma {:induction false} RunToldHeld(n: nat, clock: int, steps: seq<Step>)
    requires Run(n, clock, steps).Some? && NoneLowers(n, clock, steps)
    ensures AllToldHeld(Run(n, clock, steps).value)
  {
    if steps != [] {
      var k := |steps| - 1;
      RunToldHeld(n, clock, steps[..k]);
      RunKeeps(n, clock, steps[..k]);
      StepToldHeld(Run(n, clock, steps[..k]).value, steps[k]);
    }
  }

  /** In every state of every run in which no renewal lowers a live lease, at most one instance
      was told of a lease that has not run out, and the row holds it. */
  lemma OneLiveLease(n: nat, clock: int, steps: seq<Step>, i: nat, j: nat)
    requires Run(n, clock, steps).Some? && NoneLowers(n, clock, steps) && i < n && j < n
    ensures var c := Run(n, clock, steps).value;
            && |c.instances| == n
            && (Live(c, i) && Live(c, j) ==> i == j && OwnedBy(c.row, i))
            && (Live(c, i) ==> OwnedBy(c.row, i) && c.instances[i].told.value <= c.row.value.expiresAt)
  {
    RunKeeps(n, clock, steps);
    RunToldHeld(n, clock, steps);
    var c := Run(n, clock, steps).value;
    assert ToldHeld(c, i) && ToldHeld(c, j);
  }

  /** An instance that is leader and not past its delete. */
  predicate Leads(c: Cluster, i: nat)
    requires i < |c.instances|
  {
    c.instances[i].isLeader && !c.instances[i].loop.AfterRelease?
  }

  /** In such a run, of two instances that are leaders at once the last lease one was told of
      has run out, or one of them is between the delete and the flag in releaseLock. */
  lemma LeadersOverlapOnlyExpired(n: nat, clock: int, steps: seq<Step>, i: nat, j: nat)
    requires Run(n, clock, steps).Some? && NoneLowers(n, clock, steps) && i < n && j < n && i != j
    ensures var c := Run(n, clock, steps).value;
            && |c.instances| == n
            && (Leads(c, i) && Leads(c, j) ==>
                  && c.instances[i].told.Some? && c.instances[j].told.Some?
                  && (c.instances[i].told.value < c.clock || c.instances[j].told.value < c.clock))
  {
    OneLiveLease(n, clock, steps, i, j);
    RunKeeps(n, clock, steps);
    var c := Run(n, clock, steps).value;
    assert LeaderTold(c.instances[i]) && LeaderTold(c.instances[j]);
  }

  /** An instance only takes the row for its own when the clock it read lies past the expiry
      it finds: what it takes is no written lease, and, unless a renewal lowered one, none that
      another instance was told of. */
  lemma TakeoverIsSafe(n: nat, clock: int, steps: seq<Step>, i: nat, j: nat)
    requires Run(n, clock, steps).Some? && Enabled(Run(n, clock, steps).value, Upsert(i))
    requires i != j && j < |Run(n, clock, steps).value.instances|
    ensures var c := Run(n, clock, steps).value;
            !OwnedBy(c.row, i) && OwnedBy(Next(c, Upsert(i)).row, i) ==>
              !WrittenLive(c, j) && (NoneLowers(n, clock, steps) ==> !Live(c, j))
  {
    RunKeeps(n, clock, steps);
    var c := Run(n, clock, steps).value;
    assert WrittenHeld(c, j, c.instances[j]) && ClocksPast(c, c.instances[i]);
    if NoneLowers(n, clock, steps) {
      RunToldHeld(n, clock, steps);
      assert ToldHeld(c, j);
    }
  }

  // ---------------------------------------------------------------- leaders that overlap

  /** Two leaders, each with a lease that it was told of and that has not run out. */
  predicate Overlap(c: Cluster, i: nat, j: nat)
    requires i < |c.instances| && j < |c.instances|
  {
    i != j && Leads(c, i) && Leads(c, j) && Live(c, i) && Live(c, j)
  }

  /** Steps that lead from one state to another, none of which lowers a lease. */
  ghost predicate ComesTo(c: Cluster, steps: seq<Step>, c': Cluster)
    decreases |steps|
  {
    if steps == [] then c == c'
    else Enabled(c, steps[0]) && !Lowers(c, steps[0]) && ComesTo(Next(c, steps[0]), steps[1..], c')
  }

  lemma RunMore(n: nat, clock: int, steps: seq<Step>, c: Cluster, s: Step)
    requires Run(n, clock, steps) == Some(c) && NoneLowers(n, clock, steps) && Enabled(c, s) && !Lowers(c, s)
    ensures Run(n, clock, steps + [s]) == Some(Next(c, s)) && NoneLowers(n, clock, steps + [s])
  {
    assert (steps + [s])[..|steps|] == steps;
  }

  lemma {:induction false} Continued(n: nat, clock: int, steps: seq<Step>, c: Cluster, more: seq<Step>, c': Cluster)
    requires Run(n, clock, steps) == Some(c) && NoneLowers(n, clock, steps) && ComesTo(c, more, c')
    ensures Run(n, clock, steps + more) == Some(c') && NoneLowers(n, clock, steps + more)
    decreases |more|
  {
    if more == [] {
      assert steps + more == steps;
    } else {
      var s, rest := more[0], more[1..];
      RunMore(n, clock, steps, c, s);
      Continued(n, clock, steps + [s], Next(c, s), rest, c');
      assert more == [s] + rest;
      Regroup(steps, [s], rest);
    }
  }

  lemma {:induction false} ThenMore(c: Cluster, steps: seq<Step>, mid: Cluster, more: seq<Step>, c': Cluster)
    requires ComesTo(c, steps, mid) && ComesTo(mid, more, c')
    ensures ComesTo(c, steps + more, c')
    decreases |steps|
  {
    if steps == [] {
      assert steps + more == more;
    } else {
      assert (steps + more)[1..] == steps[1..] + more;
      ThenMore(Next(c, steps[0]), steps[1..], mid, more, c');
    }
  }

  lemma ThenStep(c: Cluster, steps: seq<Step>, mid: Cluster, s: Step)
    requires ComesTo(c, steps, mid) && Enabled(mid, s) && !Lowers(mid, s)
    ensures ComesTo(c, steps + [s], Next(mid, s))
  {
    assert [s][1..] == [];
    ThenMore(c, steps, mid, [s], Next(mid, s));
  }

  /** An acquisition that nothing interrupts, by an instance that finds the row free. */
  function Acquisition(i: nat): seq<Step> { [ReadClock(i)] + [Upsert(i)] + [Select(i)] + [WriteFlag(i)] }

  /** What it leaves of the cluster. */
  function AcquiredBy(c: Cluster, i: nat): Cluster
    requires i < |c.instances|
  {
    var x := c.instances[i];
    var expiry := c.clock + LOCK_TIMEOUT;
    At(c.(row := Some(Row(i, c.clock, expiry))), i,
       Instance(Idle, true, if x.isLeader then x.workers else x.workers + [Waiting],
                Some(expiry), Later(x.told, expiry)))
  }

  lemma AcquireRun(c: Cluster, i: nat)
    requires i < |c.instances| && c.instances[i].loop.Idle? && Free(c.row, c.clock)
    ensures ComesTo(c, Acquisition(i), AcquiredBy(c, i))
  {
    var x := c.instances[i];
    var c1 := Next(c, ReadClock(i));
    assert c1 == At(c, i, x.(loop := ClockRead(c.clock)));
    var c2 := Next(c1, Upsert(i));
    assert c2.row == Some(Row(i, c.clock, c.clock + LOCK_TIMEOUT));
    var c3 := Next(c2, Select(i));
    assert c3.instances[i].loop == Acquired(true);
    assert Next(c3, WriteFlag(i)).instances == AcquiredBy(c, i).instances;
    assert ComesTo(c, [], c);
    ThenStep(c, [], c, ReadClock(i));
    assert [] + [ReadClock(i)] == [ReadClock(i)];
    ThenStep(c, [ReadClock(i)], c1, Upsert(i));
    ThenStep(c, [ReadClock(i)] + [Upsert(i)], c2, Select(i));
    ThenStep(c, [ReadClock(i)] + [Upsert(i)] + [Select(i)], c3, WriteFlag(i));
  }

  /** The clock goes on to `t`, and then an instance acquires the row, which has run out. */
  lemma AcquireLater(c: Cluster, t: int, i: nat)
    requires i < |c.instances| && c.instances[i].loop.Idle? && c.clock <= t && Free(c.row, t)
    ensures ComesTo(c, [Tick(t)] + Acquisition(i), AcquiredBy(c.(clock := t), i))
  {
    AcquireRun(c.(clock := t), i);
    assert ([Tick(t)] + Acquisition(i))[1..] == Acquisition(i);
  }

  lemma FromStart(n: nat, clock: int, steps: seq<Step>, c: Cluster)
    requires ComesTo(Initial(n, clock), steps, c)
    ensures Run(n, clock, steps) == Some(c) && NoneLowers(n, clock, steps)
  {
    Continued(n, clock, [], Initial(n, clock), steps, c);
    assert [] + steps == steps;
  }

  /** The overlap is real even when no renewal lowers a lease: an instance that was not
      scheduled past the end of its lease still has its flag set when the next one becomes
      leader. */
  lemma OverlapHappens() returns (steps: seq<Step>)
    ensures Run(2, 0, steps).Some? && NoneLowers(2, 0, steps)
    ensures var c := Run(2, 0, steps).value;
            |c.instances| == 2 && c.instances[0].isLeader && c.instances[1].isLeader
  {
    var c := AcquiredBy(Initial(2, 0), 0);
    AcquireRun(Initial(2, 0), 0);
    AcquireLater(c, LOCK_TIMEOUT + 1, 1);
    steps := Acquisition(0) + ([Tick(LOCK_TIMEOUT + 1)] + Acquisition(1));
    var end := AcquiredBy(c.(clock := LOCK_TIMEOUT + 1), 1);
    ThenMore(Initial(2, 0), Acquisition(0), c, [Tick(LOCK_TIMEOUT + 1)] + Acquisition(1), end);
    FromStart(2, 0, steps, end);
  }

  /** Whether some continuation in which no renewal lowers a lease makes both leaders. */
  ghost predicate CanOverlap(c: Cluster, i: nat, j: nat) {
    exists more, c' :: ComesTo(c, more, c') && i < |c'.instances| && j < |c'.instances| && Overlap(c', i, j)
  }

  /** That condition is exact. After a run in which no renewal lowered a live lease, let a
      renewal of a leader take effect: then another instance can become leader while both have
      leases that have not run out, if and only if this renewal lowers one. */
  lemma OverlapIffLowered(n: nat, clock: int, steps: seq<Step>, s: Step, j: nat)
    requires Run(n, clock, steps).Some? && NoneLowers(n, clock, steps)
    requires var c := Run(n, clock, steps).value;
             && s.Renew? && s.executed && Enabled(c, s) && Leads(c, s.i)
             && j < |c.instances| && j != s.i && c.instances[j].loop.Idle?
    ensures var c := Run(n, clock, steps).value; CanOverlap(Next(c, s), s.i, j) <==> Lowers(c, s)
  {
    var c := Run(n, clock, steps).value;
    if Lowers(c, s) {
      LoweringLetsIn(c, s, j);
    } else {
      RunMore(n, clock, steps, c, s);
      NeverOverlaps(n, clock, steps + [s], Next(c, s), s.i, j);
    }
  }

  lemma LoweringLetsIn(c: Cluster, s: Step, j: nat)
    requires Enabled(c, s) && Lowers(c, s) && Leads(c, s.i)
    requires j < |c.instances| && j != s.i && c.instances[j].loop.Idle?
    ensures CanOverlap(Next(c, s), s.i, j)
  {
    var t := Next(c, s);
    assert t.instances[s.i].told == c.instances[s.i].told && t.instances[j] == c.instances[j];
    LoweredLetsIn(t, s.i, j);
  }

  lemma NeverOverlaps(n: nat, clock: int, steps: seq<Step>, c: Cluster, i: nat, j: nat)
    requires Run(n, clock, steps) == Some(c) && NoneLowers(n, clock, steps)
    ensures !CanOverlap(c, i, j)
  {
    forall more, c' | ComesTo(c, more, c') && i < |c'.instances| && j < |c'.instances|
      ensures !Overlap(c', i, j)
    {
      Continued(n, clock, steps, c, more, c');
      RunKeeps(n, clock, steps + more);
      OneLiveLease(n, clock, steps + more, i, j);
    }
  }

  /** A row that is below what its leader was told lets the next leader in: when the row's
      expiry has passed, before the leader's lease runs out. */
  lemma LoweredLetsIn(c: Cluster, i: nat, j: nat)
    requires i < |c.instances| && j < |c.instances| && i != j
    requires Leads(c, i) && Live(c, i) && OwnedBy(c.row, i) && c.row.value.expiresAt < c.instances[i].told.value
    requires c.instances[j].loop.Idle?
    ensures CanOverlap(c, i, j)
  {
    var expiry := c.row.value.expiresAt;
    var t := if c.clock > expiry then c.clock else expiry + 1;
    AcquireLater(c, t, j);
    var end := AcquiredBy(c.(clock := t), j);
    assert end.instances[i] == c.instances[i];
    assert Overlap(end, i, j);
  }

  /** A renewal reads the clock, the row runs out, and the instance takes the row anew. */
  function Stall(i: nat, w: nat, t: int): seq<Step> { [RenewReadClock(i, w)] + ([Tick(t)] + Acquisition(i)) }

  /** If the renewal takes effect only then, it lowers a lease. */
  lemma StalledRenewal(c: Cluster, i: nat, w: nat, t: int) returns (end: Cluster)
    requires i < |c.instances| && w < |c.instances[i].workers| && c.instances[i].workers[w].Waiting?
    requires c.instances[i].loop.Idle? && c.instances[i].isLeader && c.clock < t && Free(c.row, t)
    ensures ComesTo(c, Stall(i, w, t), end) && |end.instances| == |c.instances| && Leads(end, i)
    ensures Enabled(end, Renew(i, w, true, false)) && Lowers(end, Renew(i, w, true, false))
    ensures forall j :: 0 <= j < |c.instances| && j != i ==> end.instances[j] == c.instances[j]
  {
    var x := c.instances[i];
    var held := At(c, i, x.(workers := x.workers[w := RenewClockRead(c.clock)]));
    assert held == Next(c, RenewReadClock(i, w));
    AcquireLater(held, t, i);
    end := AcquiredBy(held.(clock := t), i);
    assert Stall(i, w, t)[1..] == [Tick(t)] + Acquisition(i);
    assert end.instances[i].workers[w] == RenewClockRead(c.clock);
  }

  /** The whole run, with two instances. */
  lemma StaleRenewalLowers() returns (steps: seq<Step>, s: Step)
    ensures Run(2, 0, steps).Some? && NoneLowers(2, 0, steps)
    ensures var c := Run(2, 0, steps).value;
            && |c.instances| == 2 && s == Renew(0, 0, true, false) && Enabled(c, s) && Lowers(c, s)
            && Leads(c, 0) && CanOverlap(Next(c, s), 0, 1)
  {
    var c, late := AcquiredBy(Initial(2, 0), 0), LOCK_TIMEOUT + 1;
    AcquireRun(Initial(2, 0), 0);
    var end := StalledRenewal(c, 0, 0, late);
    steps := Acquisition(0) + Stall(0, 0, late);
    ThenMore(Initial(2, 0), Acquisition(0), c, Stall(0, 0, late), end);
    FromStart(2, 0, steps, end);
    s := Renew(0, 0, true, false);
    OverlapIffLowered(2, 0, steps, s, 1);
  }
}
