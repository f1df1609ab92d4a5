/** Per-session serial lanes: producers look a channel up and then send on it, each channel
    has one worker that receives, executes, times out and takes its channel out of the map.
    Every interleaving of these steps is allowed. */
module SessionLane {
  import opened Common

  type Key = string

  const CAPACITY := 10

  /** A worker is `Leaving` between the end of its loop and the removal of its map entry. */
  datatype Worker = Waiting | Executing | Leaving | Gone

  /** A channel and its worker. The buffer holds positions in the log of sends; `birth` is the
      length of that log when the channel was made. */
  datatype Lane = Lane(key: Key, buffer: seq<nat>, birth: nat, worker: Worker)

  datatype Sent = Sent(command: nat, lane: nat)

  /** `lanes` are all channels ever made and `table` the current one of each key; `pending`
      are the producers between lookup and send; `executed` are positions in `sent`. */
  datatype System = System(lanes: seq<Lane>, table: map<Key, nat>, pending: map<nat, nat>,
                           sent: seq<Sent>, executed: seq<nat>, issued: nat, cancelled: bool)

  const START := System([], map[], map[], [], [], 0, false)

  datatype Step =
    | Lookup(key: Key)
    | Send(command: nat)
    | GiveUp(command: nat)
    | Receive(lane: nat)
    | Finish(lane: nat)
    | Leave(lane: nat)
    | CleanUp(lane: nat)
    | Cancel

  ghost predicate Allowed(s: System, step: Step) {
    match step
    case Lookup(_) => true
    case Send(m) => m in s.pending && s.pending[m] < |s.lanes| && |s.lanes[s.pending[m]].buffer| < CAPACITY
    case GiveUp(m) => s.cancelled && m in s.pending
    case Receive(c) => c < |s.lanes| && s.lanes[c].worker == Waiting && s.lanes[c].buffer != []
    case Finish(c) => c < |s.lanes| && s.lanes[c].worker == Executing
    case Leave(c) => c < |s.lanes| && s.lanes[c].worker == Waiting
    case CleanUp(c) => c < |s.lanes| && s.lanes[c].worker == Leaving
    case Cancel => true
  }

  function Put(s: System, c: nat, l: Lane): System
    requires c < |s.lanes|
  {
    s.(lanes := s.lanes[c := l])
  }

  function Next(s: System, step: Step): System
    requires Allowed(s, step)
  {
    match step
    case Lookup(k) =>
      if k in s.table then
        s.(issued := s.issued + 1, pending := s.pending[s.issued := s.table[k]])
      else
        s.(issued := s.issued + 1, pending := s.pending[s.issued := |s.lanes|],
           table := s.table[k := |s.lanes|], lanes := s.lanes + [Lane(k, [], |s.sent|, Waiting)])
    case Send(m) =>
      var c := s.pending[m];
      Put(s, c, s.lanes[c].(buffer := s.lanes[c].buffer + [|s.sent|]))
      .(sent := s.sent + [Sent(m, c)], pending := s.pending - {m})
    case GiveUp(m) => s.(pending := s.pending - {m})
    case Receive(c) =>
      var l := s.lanes[c];
      Put(s, c, l.(worker := Executing, buffer := l.buffer[1..])).(executed := s.executed + [l.buffer[0]])
    case Finish(c) => Put(s, c, s.lanes[c].(worker := Waiting))
    case Leave(c) => Put(s, c, s.lanes[c].(worker := Leaving))
    case CleanUp(c) => Put(s, c, s.lanes[c].(worker := Gone)).(table := s.table - {s.lanes[c].key})
    case Cancel => s.(cancelled := true)
  }

  /** The steps are allowed one after the other and lead from one system to the other. */
  ghost predicate Reaches(s: System, steps: seq<Step>, t: System)
    decreases |steps|
  {
    if steps == [] then s == t
    else Allowed(s, steps[0]) && Reaches(Next(s, steps[0]), steps[1..], t)
  }

  // ---------------------------------------------------------------- the invariant

  /** The map has a key exactly while a worker of that key lives, and that worker's channel. */
  ghost predicate OneWorker(s: System) {
    && (forall k :: k in s.table ==> s.table[k] < |s.lanes| && s.lanes[s.table[k]].key == k
                                     && s.lanes[s.table[k]].worker != Gone)
    && (forall c: nat :: c < |s.lanes| && s.lanes[c].worker != Gone ==>
          s.lanes[c].key in s.table && s.table[s.lanes[c].key] == c)
  }

  ghost predicate LogOk(s: System) {
    && (forall i :: 0 <= i < |s.sent| ==> s.sent[i].lane < |s.lanes| && s.sent[i].command < s.issued)
    && (forall i, j :: 0 <= i < j < |s.sent| ==> s.sent[i].command != s.sent[j].command)
    && (forall m :: m in s.pending ==> m < s.issued && s.pending[m] < |s.lanes|)
    && (forall i :: 0 <= i < |s.sent| ==> s.sent[i].command !in s.pending)
  }

  /** What waits in a buffer, in the order it was sent. */
  ghost predicate BuffersOk(s: System) {
    forall c :: 0 <= c < |s.lanes| ==> BufferOk(s, c)
  }

  ghost predicate BufferOk(s: System, c: nat)
    requires c < |s.lanes|
  {
    var b := s.lanes[c].buffer;
    && s.lanes[c].birth <= |s.sent|
    && (forall j :: 0 <= j < |b| ==> s.lanes[c].birth <= b[j] < |s.sent| && s.sent[b[j]].lane == c)
    && (forall j, k :: 0 <= j < k < |b| ==> b[j] < b[k])
  }

  function LaneOf(s: System, i: nat): nat { if i < |s.sent| then s.sent[i].lane else 0 }

  function KeyOf(s: System, i: nat): Key {
    if LaneOf(s, i) < |s.lanes| then s.lanes[LaneOf(s, i)].key else []
  }

  /** What was executed: of one key in the order it was sent. */
  ghost predicate InOrder(s: System) {
    && (forall i :: 0 <= i < |s.executed| ==> s.executed[i] < |s.sent|)
    && (forall i, j :: 0 <= i < j < |s.executed| && KeyOf(s, s.executed[i]) == KeyOf(s, s.executed[j]) ==>
          s.executed[i] < s.executed[j])
  }

  /** What was executed of a lane's key was sent before everything the lane has still to
      execute: on its own channel, or before the channel was made. */
  ghost predicate Behind(s: System) {
    forall i, c :: 0 <= i < |s.executed| && 0 <= c < |s.lanes| ==> BehindLane(s, s.executed[i], c)
  }

  ghost predicate BehindLane(s: System, e: nat, c: nat)
    requires c < |s.lanes|
  {
    && (LaneOf(s, e) == c ==> forall j :: 0 <= j < |s.lanes[c].buffer| ==> e < s.lanes[c].buffer[j])
    && (LaneOf(s, e) != c && KeyOf(s, e) == s.lanes[c].key && s.lanes[c].worker != Gone ==> e < s.lanes[c].birth)
  }

  /** What was sent was executed or waits in its channel's buffer, and not both. */
  ghost predicate Conserved(s: System) {
    forall i: nat :: i < |s.sent| && s.sent[i].lane < |s.lanes| ==>
                       (i in s.executed <==> i !in s.lanes[s.sent[i].lane].buffer)
  }

  ghost predicate Inv(s: System) {
    OneWorker(s) && LogOk(s) && BuffersOk(s) && InOrder(s) && Behind(s) && Conserved(s)
  }

  // ---------------------------------------------------------------- every step keeps it

  /** Nothing was sent or received: lanes changed their workers only, and new ones are empty. */
  ghost predicate Carries(s: System, t: System) {
    && t.sent == s.sent && t.executed == s.executed && |s.lanes| <= |t.lanes|
    && (forall d :: 0 <= d < |s.lanes| ==>
          && t.lanes[d] == s.lanes[d].(worker := t.lanes[d].worker)
          && (t.lanes[d].worker != Gone ==> s.lanes[d].worker != Gone))
    && (forall d :: |s.lanes| <= d < |t.lanes| ==> t.lanes[d].buffer == [] && t.lanes[d].birth == |s.sent|)
  }

  lemma SameKeys(s: System, t: System, i: nat)
    requires Inv(s) && Carries(s, t) && i < |s.sent|
    ensures LaneOf(t, i) == LaneOf(s, i) < |s.lanes| && KeyOf(t, i) == KeyOf(s, i)
  {
  }

  lemma CarriesBuffers(s: System, t: System)
    requires Inv(s) && Carries(s, t)
    ensures BuffersOk(t) && Conserved(t)
  {
    forall d | 0 <= d < |t.lanes| ensures BufferOk(t, d) {
      if d < |s.lanes| { assert BufferOk(s, d); }
    }
  }

  lemma CarriesOrder(s: System, t: System)
    requires Inv(s) && Carries(s, t)
    ensures InOrder(t) && Behind(t)
  {
    forall i | 0 <= i < |t.executed|
      ensures LaneOf(t, t.executed[i]) == LaneOf(s, s.executed[i]) && KeyOf(t, t.executed[i]) == KeyOf(s, s.executed[i])
    {
      SameKeys(s, t, s.executed[i]);
    }
    forall i, d | 0 <= i < |t.executed| && 0 <= d < |t.lanes| ensures BehindLane(t, t.executed[i], d) {
      SameKeys(s, t, s.executed[i]);
      if d < |s.lanes| { assert BehindLane(s, s.executed[i], d); }
    }
  }

  lemma CarriesKeeps(s: System, t: System)
    requires Inv(s) && Carries(s, t) && OneWorker(t) && LogOk(t)
    ensures Inv(t)
  {
    CarriesBuffers(s, t);
    CarriesOrder(s, t);
  }

  lemma LookupKeeps(s: System, k: Key)
    requires Inv(s)
    ensures Inv(Next(s, Lookup(k)))
  {
    LookupTables(s, k);
    CarriesKeeps(s, Next(s, Lookup(k)));
  }

  lemma LookupTables(s: System, k: Key)
    requires Inv(s)
    ensures var t := Next(s, Lookup(k)); OneWorker(t) && LogOk(t) && Carries(s, t)
  {
  }

  /** A change of a living worker's state. */
  lemma WorkerKeeps(s: System, c: nat, w: Worker)
    requires Inv(s) && c < |s.lanes| && s.lanes[c].worker != Gone && w != Gone
    ensures Inv(Put(s, c, s.lanes[c].(worker := w)))
  {
    CarriesKeeps(s, Put(s, c, s.lanes[c].(worker := w)));
  }

  lemma CleanUpKeeps(s: System, c: nat)
    requires Inv(s) && Allowed(s, CleanUp(c))
    ensures Inv(Next(s, CleanUp(c)))
  {
    CarriesKeeps(s, Next(s, CleanUp(c)));
  }

  lemma SendKeeps(s: System, m: nat)
    requires Inv(s) && Allowed(s, Send(m))
    ensures Inv(Next(s, Send(m)))
  {
    SendTables(s, m);
    SendOrder(s, m);
    SendConserves(s, m);
  }

  lemma SendTables(s: System, m: nat)
    requires Inv(s) && Allowed(s, Send(m))
    ensures var t := Next(s, Send(m)); OneWorker(t) && LogOk(t) && BuffersOk(t)
  {
    var t := Next(s, Send(m));
    forall d | 0 <= d < |t.lanes| ensures BufferOk(t, d) { assert BufferOk(s, d); }
  }

  lemma SendOrder(s: System, m: nat)
    requires Inv(s) && Allowed(s, Send(m))
    ensures InOrder(Next(s, Send(m))) && Behind(Next(s, Send(m)))
  {
    var t := Next(s, Send(m));
    forall i | 0 <= i < |t.executed|
      ensures LaneOf(t, t.executed[i]) == LaneOf(s, s.executed[i])
      ensures KeyOf(t, t.executed[i]) == KeyOf(s, s.executed[i]) { }
    forall i, d | 0 <= i < |t.executed| && 0 <= d < |t.lanes| ensures BehindLane(t, t.executed[i], d) {
      assert BehindLane(s, s.executed[i], d);
    }
  }

  lemma SendConserves(s: System, m: nat)
    requires Inv(s) && Allowed(s, Send(m))
    ensures Conserved(Next(s, Send(m)))
  {
    var t := Next(s, Send(m));
    forall i: nat | i < |t.sent| ensures i in t.executed <==> i !in t.lanes[t.sent[i].lane].buffer {
      if i == |s.sent| {
        assert i in t.lanes[s.pending[m]].buffer;
        assert i !in s.executed;
      }
    }
  }

  lemma ReceiveKeeps(s: System, c: nat)
    requires Inv(s) && Allowed(s, Receive(c))
    ensures Inv(Next(s, Receive(c)))
  {
    ReceiveTables(s, c);
    ReceiveInOrder(s, c);
    ReceiveBehind(s, c);
    ReceiveConserves(s, c);
  }

  lemma ReceiveTables(s: System, c: nat)
    requires Inv(s) && Allowed(s, Receive(c))
    ensures var t := Next(s, Receive(c)); OneWorker(t) && LogOk(t) && BuffersOk(t)
  {
    var t := Next(s, Receive(c));
    forall d | 0 <= d < |t.lanes| ensures BufferOk(t, d) { assert BufferOk(s, d); }
  }

  lemma ReceiveInOrder(s: System, c: nat)
    requires Inv(s) && Allowed(s, Receive(c))
    ensures InOrder(Next(s, Receive(c)))
  {
    var t := Next(s, Receive(c));
    var x := s.lanes[c].buffer[0];
    assert BufferOk(s, c);
    forall i: nat ensures KeyOf(t, i) == KeyOf(s, i) { }
    forall i | 0 <= i < |s.executed| && KeyOf(s, s.executed[i]) == s.lanes[c].key ensures s.executed[i] < x {
      assert BehindLane(s, s.executed[i], c);
    }
  }

  lemma ReceiveBehind(s: System, c: nat)
    requires Inv(s) && Allowed(s, Receive(c))
    ensures Behind(Next(s, Receive(c)))
  {
    var t := Next(s, Receive(c));
    forall i, d | 0 <= i < |t.executed| && 0 <= d < |t.lanes| ensures BehindLane(t, t.executed[i], d) {
      if i < |s.executed| {
        assert BehindLane(s, s.executed[i], d);
      } else {
        ReceivedBehind(s, c, d);
      }
    }
  }

  /** What is received is ahead of the rest of its buffer; no other worker of its key lives. */
  lemma ReceivedBehind(s: System, c: nat, d: nat)
    requires Inv(s) && Allowed(s, Receive(c)) && d < |s.lanes|
    ensures BehindLane(Next(s, Receive(c)), s.lanes[c].buffer[0], d)
  {
    assert BufferOk(s, c);
  }

  lemma ReceiveConserves(s: System, c: nat)
    requires Inv(s) && Allowed(s, Receive(c))
    ensures Conserved(Next(s, Receive(c)))
  {
    var t := Next(s, Receive(c));
    var b := s.lanes[c].buffer;
    assert BufferOk(s, c) && b == [b[0]] + b[1..] && b[0] !in b[1..];
    forall i: nat | i < |t.sent| ensures i in t.executed <==> i !in t.lanes[t.sent[i].lane].buffer {
      assert i in t.executed <==> i in s.executed || i == b[0];
    }
  }

  lemma StepKeeps(s: System, step: Step)
    requires Inv(s) && Allowed(s, step)
    ensures Inv(Next(s, step))
  {
    match step
    case Lookup(k) => LookupKeeps(s, k);
    case Send(m) => SendKeeps(s, m);
    case GiveUp(m) => GiveUpKeeps(s, m);
    case Receive(c) => ReceiveKeeps(s, c);
    case Finish(c) => WorkerKeeps(s, c, Waiting);
    case Leave(c) => WorkerKeeps(s, c, Leaving);
    case CleanUp(c) => CleanUpKeeps(s, c);
    case Cancel => CancelKeeps(s);
  }

  lemma GiveUpKeeps(s: System, m: nat)
    requires Inv(s) && Allowed(s, GiveUp(m))
    ensures Inv(Next(s, GiveUp(m)))
  {
    CarriesKeeps(s, Next(s, GiveUp(m)));
  }

  lemma CancelKeeps(s: System)
    requires Inv(s)
    ensures Inv(Next(s, Cancel))
  {
    CarriesKeeps(s, Next(s, Cancel));
  }

  lemma {:induction false} RunKeeps(s: System, steps: seq<Step>, t: System)
    requires Inv(s) && Reaches(s, steps, t)
    ensures Inv(t)
    decreases |steps|
  {
    if steps != [] {
      StepKeeps(s, steps[0]);
      RunKeeps(Next(s, steps[0]), steps[1..], t);
    }
  }

  // ---------------------------------------------------------------- the main results

  /** In every run: a key is in the map exactly while one worker of its lives, and never two. */
  lemma OneLiveWorker(steps: seq<Step>, t: System, c: nat, d: nat)
    requires Reaches(START, steps, t) && c < |t.lanes| && d < |t.lanes| && t.lanes[c].key == t.lanes[d].key
    ensures t.lanes[c].worker != Gone && t.lanes[d].worker != Gone ==> c == d
    ensures t.lanes[c].key in t.table <==>
            exists e: nat :: e < |t.lanes| && t.lanes[e].key == t.lanes[c].key && t.lanes[e].worker != Gone
  {
    RunKeeps(START, steps, t);
  }

  /** No command runs twice, and those of one key run in the order they were sent, also from
      one worker to the next. */
  lemma ExecutedOnceInOrder(steps: seq<Step>, t: System, i: nat, j: nat)
    requires Reaches(START, steps, t) && i < j < |t.executed|
    ensures t.executed[i] < |t.sent| && t.executed[j] < |t.sent|
    ensures t.sent[t.executed[i]].command != t.sent[t.executed[j]].command
    ensures KeyOf(t, t.executed[i]) == KeyOf(t, t.executed[j]) ==> t.executed[i] < t.executed[j]
  {
    RunKeeps(START, steps, t);
  }

  /** A sent command was executed or waits in its channel's buffer, and not both. */
  lemma SentIsSomewhere(steps: seq<Step>, t: System, i: nat)
    requires Reaches(START, steps, t) && i < |t.sent|
    ensures t.sent[i].lane < |t.lanes|
    ensures i in t.executed <==> !(i in t.lanes[t.sent[i].lane].buffer)
  {
    RunKeeps(START, steps, t);
  }

  // ---------------------------------------------------------------- which commands still run

  /** Sent, and waiting in the buffer of a worker that has left its loop. */
  ghost predicate Stranded(s: System, i: nat) {
    && i < |s.sent| && s.sent[i].lane < |s.lanes| && i in s.lanes[s.sent[i].lane].buffer
    && !InLoop(s.lanes[s.sent[i].lane].worker)
  }

  predicate InLoop(w: Worker) { w == Waiting || w == Executing }

  /** A stranded command stays stranded: it is never executed. */
  lemma {:induction false} StrandedForGood(s: System, steps: seq<Step>, t: System, i: nat)
    requires Inv(s) && Reaches(s, steps, t) && Stranded(s, i)
    ensures Stranded(t, i) && i !in t.executed
    decreases |steps|
  {
    if steps != [] {
      StepKeeps(s, steps[0]);
      StillStranded(s, steps[0], i);
      StrandedForGood(Next(s, steps[0]), steps[1..], t, i);
    }
  }

  lemma StillStranded(s: System, step: Step, i: nat)
    requires Inv(s) && Allowed(s, step) && Stranded(s, i)
    ensures Stranded(Next(s, step), i)
  {
  }

  lemma OneStepMore(s: System, step: Step, steps: seq<Step>, t: System)
    requires Allowed(s, step) && Reaches(Next(s, step), steps, t)
    ensures Reaches(s, [step] + steps, t)
  {
    assert ([step] + steps)[1..] == steps;
  }

  /** A worker in its loop can work off its buffer: whatever waits at position `p` is executed
      after the commands in front of it. */
  lemma {:induction false} WorksOff(s: System, c: nat, p: nat) returns (steps: seq<Step>, t: System)
    requires c < |s.lanes| && InLoop(s.lanes[c].worker) && p < |s.lanes[c].buffer|
    ensures Reaches(s, steps, t) && s.lanes[c].buffer[p] in t.executed
    decreases p, if s.lanes[c].worker == Executing then 1 else 0
  {
    if s.lanes[c].worker == Executing {
      steps, t := WorksOff(Next(s, Finish(c)), c, p);
      OneStepMore(s, Finish(c), steps, t);
      steps := [Finish(c)] + steps;
    } else {
      var next := Next(s, Receive(c));
      if p == 0 {
        steps, t := [], next;
      } else {
        steps, t := WorksOff(next, c, p - 1);
      }
      OneStepMore(s, Receive(c), steps, t);
      steps := [Receive(c)] + steps;
    }
  }

  ghost predicate CanRun(s: System, i: nat) { exists steps, t :: Reaches(s, steps, t) && i in t.executed }

  /** In every reachable system a command that was sent and not executed yet can still be
      executed if and only if the worker of its channel is in its loop. */
  lemma RunsIffInLoop(before: seq<Step>, s: System, i: nat)
    requires Reaches(START, before, s) && i < |s.sent| && i !in s.executed
    ensures s.sent[i].lane < |s.lanes|
    ensures CanRun(s, i) <==> InLoop(s.lanes[s.sent[i].lane].worker)
  {
    RunKeeps(START, before, s);
    var c := s.sent[i].lane;
    assert i in s.lanes[c].buffer;
    if InLoop(s.lanes[c].worker) {
      var p: nat :| p < |s.lanes[c].buffer| && s.lanes[c].buffer[p] == i;
      var steps, t := WorksOff(s, c, p);
    } else {
      forall steps, t | Reaches(s, steps, t) ensures i !in t.executed {
        StrandedForGood(s, steps, t, i);
      }
    }
  }

  /** A send decides it: what is sent on a channel whose worker has left its loop never runs,
      and what is sent on another can. */
  lemma SentTooLate(before: seq<Step>, s: System, m: nat)
    requires Reaches(START, before, s) && Allowed(s, Send(m))
    ensures CanRun(Next(s, Send(m)), |s.sent|) <==> InLoop(s.lanes[s.pending[m]].worker)
  {
    RunKeeps(START, before, s);
    var t := Next(s, Send(m));
    ReachesLast(START, before, s, Send(m));
    assert |s.sent| in t.lanes[s.pending[m]].buffer by {
      assert t.lanes[s.pending[m]].buffer[|s.lanes[s.pending[m]].buffer|] == |s.sent|;
    }
    StepKeeps(s, Send(m));
    RunsIffInLoop(before + [Send(m)], t, |s.sent|);
  }

  lemma {:induction false} ReachesLast(s: System, steps: seq<Step>, t: System, step: Step)
    requires Reaches(s, steps, t) && Allowed(t, step)
    ensures Reaches(s, steps + [step], Next(t, step))
    decreases |steps|
  {
    if steps == [] {
      assert [] + [step] == [step];
    } else {
      assert (steps + [step])[1..] == steps[1..] + [step];
      ReachesLast(Next(s, steps[0]), steps[1..], t, step);
    }
  }

  /** And it happens, without any cancellation: a producer finds the channel, its worker times
      out and cleans up, and the producer sends. */
  lemma CommandsCanStrand(k: Key) returns (steps: seq<Step>, t: System)
    ensures Reaches(START, steps, t) && !t.cancelled && t.pending == map[] && Stranded(t, 0)
  {
    var a := Next(START, Lookup(k));
    var b := Next(a, Leave(0));
    var c := Next(b, CleanUp(0));
    t := Next(c, Send(0));
    steps := [Lookup(k), Leave(0), CleanUp(0), Send(0)];
    assert Reaches(c, [Send(0)], t);
    assert Reaches(b, [CleanUp(0), Send(0)], t);
    assert Reaches(a, [Leave(0), CleanUp(0), Send(0)], t);
  }

  // ---------------------------------------------------------------- every command is accounted for

  /** The keys of the commands that were looked up, in order: the m-th is the key of command m. */
  function Keys(steps: seq<Step>): seq<Key> {
    if steps == [] then [] else (if steps[0].Lookup? then [steps[0].key] else []) + Keys(steps[1..])
  }

  /** The commands that were given up. */
  function GivenUp(steps: seq<Step>): set<nat> {
    if steps == [] then {} else (if steps[0].GiveUp? then {steps[0].command} else {}) + GivenUp(steps[1..])
  }

  ghost predicate WasSent(s: System, m: nat) { exists i :: 0 <= i < |s.sent| && s.sent[i].command == m }

  /** A command waits for its channel, was sent on it, or was given up: one of the three. */
  ghost predicate Accounted(s: System, gave: set<nat>, m: nat) {
    && (m in s.pending || WasSent(s, m) || m in gave)
    && !(m in s.pending && WasSent(s, m)) && !(m in s.pending && m in gave) && !(WasSent(s, m) && m in gave)
  }

  ghost predicate KeyAt(s: System, c: nat, k: Key) { c < |s.lanes| && s.lanes[c].key == k }

  ghost predicate Books(s: System, keys: seq<Key>, gave: set<nat>) {
    && s.issued == |keys|
    && (forall k :: k in s.table ==> KeyAt(s, s.table[k], k))
    && (forall m :: m in s.pending ==> m < |keys| && KeyAt(s, s.pending[m], keys[m]))
    && (forall i :: 0 <= i < |s.sent| ==>
          s.sent[i].command < |keys| && KeyAt(s, s.sent[i].lane, keys[s.sent[i].command]))
    && (forall m :: m in gave ==> m < |keys|)
    && (forall m: nat :: m < |keys| ==> Accounted(s, gave, m))
    && (forall c :: 0 <= c < |s.lanes| ==> |s.lanes[c].buffer| <= CAPACITY)
  }

  /** Every command is, after every run, in exactly one of three places: with its producer, in the
      log of its own key's channel, or given up; and it is given up only when the queue is stopped.
      No channel ever holds more than its capacity. */
  lemma CommandsKept(steps: seq<Step>, t: System)
    requires Reaches(START, steps, t)
    ensures Books(t, Keys(steps), GivenUp(steps))
    ensures GivenUp(steps) != {} ==> t.cancelled
  {
    BooksKept(START, [], {}, steps, t);
    assert [] + Keys(steps) == Keys(steps) && {} + GivenUp(steps) == GivenUp(steps);
  }

  lemma {:induction false} BooksKept(s: System, keys: seq<Key>, gave: set<nat>, steps: seq<Step>, t: System)
    requires Books(s, keys, gave) && Reaches(s, steps, t)
    ensures Books(t, keys + Keys(steps), gave + GivenUp(steps))
    ensures s.cancelled || GivenUp(steps) != {} ==> t.cancelled
    decreases |steps|
  {
    if steps == [] {
      assert keys + [] == keys && gave + {} == gave;
    } else {
      var step := steps[0];
      var more := if step.Lookup? then [step.key] else [];
      var given := if step.GiveUp? then {step.command} else {};
      StepBooks(s, keys, gave, step);
      BooksKept(Next(s, step), keys + more, gave + given, steps[1..], t);
      assert keys + more + Keys(steps[1..]) == keys + Keys(steps);
      assert gave + given + GivenUp(steps[1..]) == gave + GivenUp(steps);
    }
  }

  lemma StepBooks(s: System, keys: seq<Key>, gave: set<nat>, step: Step)
    requires Books(s, keys, gave) && Allowed(s, step)
    ensures Books(Next(s, step), keys + (if step.Lookup? then [step.key] else []),
                  gave + if step.GiveUp? then {step.command} else {})
  {
    match step
    case Lookup(k) => LookupBooks(s, keys, gave, k);
    case Send(m) => SendBooks(s, keys, gave, m);
    case _ => OtherBooks(s, keys, gave, step);
  }

  lemma LookupBooks(s: System, keys: seq<Key>, gave: set<nat>, k: Key)
    requires Books(s, keys, gave)
    ensures Books(Next(s, Lookup(k)), keys + [k], gave + {})
  {
    var t := Next(s, Lookup(k));
    assert t.sent == s.sent;
    forall m: nat | m < |keys| + 1 ensures Accounted(t, gave, m) {
      if m < |keys| {
        assert Accounted(s, gave, m);
        assert WasSent(t, m) == WasSent(s, m);
      } else {
        assert !WasSent(t, m) && m in t.pending;
      }
    }
    assert gave + {} == gave;
  }

  lemma SendBooks(s: System, keys: seq<Key>, gave: set<nat>, m: nat)
    requires Books(s, keys, gave) && Allowed(s, Send(m))
    ensures Books(Next(s, Send(m)), keys + [], gave + {})
  {
    var t := Next(s, Send(m));
    var n := |s.sent|;
    assert t.sent == s.sent + [Sent(m, s.pending[m])];
    forall x: nat | x < |keys| ensures Accounted(t, gave, x) {
      assert Accounted(s, gave, x);
      assert t.sent[n].command == m;
      assert WasSent(t, x) <==> WasSent(s, x) || x == m by {
        if WasSent(s, x) {
          var i :| 0 <= i < n && s.sent[i].command == x;
          assert t.sent[i] == s.sent[i];
        }
      }
    }
    assert keys + [] == keys && gave + {} == gave;
  }

  lemma OtherBooks(s: System, keys: seq<Key>, gave: set<nat>, step: Step)
    requires Books(s, keys, gave) && Allowed(s, step) && !step.Lookup? && !step.Send?
    ensures Books(Next(s, step), keys + [], gave + if step.GiveUp? then {step.command} else {})
  {
    var t := Next(s, step);
    assert t.sent == s.sent;
    var after := gave + if step.GiveUp? then {step.command} else {};
    forall x: nat | x < |keys| ensures Accounted(t, after, x) {
      assert Accounted(s, gave, x);
      assert WasSent(t, x) == WasSent(s, x);
    }
    assert keys + [] == keys;
  }
}
