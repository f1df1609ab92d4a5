/** The chain and the failover model as they run: loops over the candidates that update the
    tracker in place. */
module FailoverService {
  import opened Common
  import opened Cooldown
  import opened CooldownTracking
  import opened Failover
  import opened FallbackLlm

  class Chain {
    const cooldown: CooldownTracker

    constructor (cooldown: CooldownTracker)
      ensures this.cooldown == cooldown
    {
      this.cooldown := cooldown;
    }

    /** Marks the outcome of a run and records its attempt. */
    method Mark<E>(ghost w: Walk<E>, c: Candidate, m: Moment, i: nat, o: Outcome<E>, attempts: seq<Attempt<E>>)
      returns (more: seq<Attempt<E>>, end: Option<End<E>>)
      requires cooldown.Valid() && w.tracker == cooldown.View() && w.attempts == attempts && w.end == None
      modifies cooldown, cooldown.entries.Values
      ensures cooldown.Valid()
      ensures forall e :: e in cooldown.entries.Values && e !in old(cooldown.entries.Values) ==> fresh(e)
      ensures Settle(w, c, m, i, o) == Walk(cooldown.View(), more, w.ran, end)
    {
      more, end := attempts, None;
      if o.Done? {
        cooldown.MarkSuccess(c.provider);
        return attempts, Some(Served(i));
      }
      if m.cancelledAfter {
        return attempts + [Tried(c, o.error, None)], Some(Cancelled);
      }
      if o.kind.None? {
        return attempts + [Tried(c, o.error, Some(Timeout))], None;
      }
      if o.kind == Some(Format) {
        return attempts + [Tried(c, o.error, o.kind)], Some(Refused(o.error, Format));
      }
      cooldown.MarkFailure(c.provider, o.kind.value, m.marked);
      more := attempts + [Tried(c, o.error, o.kind)];
    }

    /** The turn of one candidate. */
    method OneTurn<E>(c: Candidate, m: Moment, others: Others, i: nat, o: Outcome<E>, attempts: seq<Attempt<E>>,
                      ghost ran: seq<nat>)
      returns (more: seq<Attempt<E>>, over: Option<End<E>>, ghost runs: seq<nat>)
      requires cooldown.Valid() && Does(m, others)
      modifies cooldown, cooldown.entries.Values
      ensures cooldown.Valid()
      ensures forall e :: e in cooldown.entries.Values && e !in old(cooldown.entries.Values) ==> fresh(e)
      ensures Turn(Walk(old(cooldown.View()), attempts, ran, None), c, m, i, o) ==
              Walk(cooldown.View(), more, runs, over)
    {
      more, over, runs := attempts, None, ran;
      cooldown.Meanwhile(others.before);
      if m.cancelled {
        over := Some(Cancelled);
        return;
      }
      var available := cooldown.IsAvailable(c.provider, m.at);
      if !available {
        more := attempts + [Skipped(c)];
      } else {
        runs := ran + [i];
        cooldown.Meanwhile(others.during);
        more, over := Mark(Walk(cooldown.View(), attempts, runs, None), c, m, i, o, attempts);
      }
    }

    /** `outcomes[i]` is what running the i-th candidate would give, `others[i]` what other calls
        mark around its turn. */
    method Execute<E>(candidates: seq<Candidate>, moments: seq<Moment>, others: seq<Others>, outcomes: seq<Outcome<E>>)
      returns (end: End<E>, attempts: seq<Attempt<E>>, ghost ran: seq<nat>)
      requires cooldown.Valid() && |candidates| == |moments| == |outcomes| && AllDo(moments, others)
      modifies cooldown, cooldown.entries.Values
      ensures cooldown.Valid()
      ensures var x := Call(candidates, moments, outcomes, old(cooldown.View()));
              && end == Ending(x) && attempts == Whole(x).attempts && ran == Whole(x).ran
              && cooldown.View() == Whole(x).tracker
    {
      attempts, ran := [], [];
      if candidates == [] {
        return NoCandidates, [], [];
      }
      ghost var x := Call(candidates, moments, outcomes, cooldown.View());
      var over: Option<End<E>> := None;
      var i := 0;
      while i < |candidates| && over.None?
        invariant i <= |candidates| && cooldown.Valid()
        invariant forall e :: e in cooldown.entries.Values && e !in old(cooldown.entries.Values) ==> fresh(e)
        invariant Upto(x, i) == Walk(cooldown.View(), attempts, ran, over)
      {
        attempts, over, ran := OneTurn(candidates[i], moments[i], others[i], i, outcomes[i], attempts, ran);
        i := i + 1;
      }
      if over.Some? {
        OverIsOver(x, i, |candidates|);
      }
      end := if over.Some? then over.value else Exhausted;
    }
  }

  class FallbackLLM<L> {
    const entries: seq<LlmEntry<L>>
    const chain: Chain

    constructor (entries: seq<LlmEntry<L>>, cooldown: CooldownTracker)
      ensures this.entries == entries && chain.cooldown == cooldown && fresh(chain)
    {
      this.entries := entries;
      chain := new Chain(cooldown);
    }

    ghost function CandidateAt(i: nat): Candidate
      requires i < |entries|
    {
      Candidate(entries[i].provider, entries[i].model)
    }

    /** The model that is asked for an entry: the one of the last entry of its provider. */
    ghost function Asked(i: nat): L
      requires i < |entries|
    {
      LastOfIsLast(entries, entries[i].provider);
      entries[LastOf(entries, entries[i].provider)].llm
    }

    ghost function RequestOf<R, E>(moments: seq<Moment>, reply: (L, nat) -> seq<Item<R, E>>,
                                   start: Tracker): (q: Request<R, E>)
      requires |moments| == |entries|
      ensures Fits(q) && q.moments == moments && q.start == start && |q.candidates| == |entries|
      ensures forall i :: 0 <= i < |entries| ==> q.candidates[i] == CandidateAt(i)
      ensures forall i :: 0 <= i < |entries| ==> q.streams[i] == reply(Asked(i), i)
    {
      Request(seq(|entries|, i requires 0 <= i < |entries| => CandidateAt(i)), moments,
              seq(|entries|, i requires 0 <= i < |entries| => reply(Asked(i), i)), start)
    }

    /** One run: passes the responses of a stream on until an error, the end, or the
        consumer stops it. */
    method Stream<R, E>(items: seq<Item<R, E>>, go: seq<R> -> bool, responses: seq<R>, lastErr: Option<E>)
      returns (all: seq<R>, err: Option<E>, stopped: bool, failure: Option<E>)
      ensures Out(all, err, stopped) == Play(go, items, Out(responses, lastErr, false))
      ensures failure == FallbackLlm.Failure(go, items, responses)
    {
      all, err, stopped := responses, lastErr, false;
      var i := 0;
      while i < |items|
        invariant i <= |items| && !stopped
        invariant Play(go, items, Out(responses, lastErr, false)) == Play(go, items[i..], Out(all, err, false))
        invariant FallbackLlm.Failure(go, items, responses) == FallbackLlm.Failure(go, items[i..], all)
      {
        var item := items[i];
        assert items[i..][1..] == items[i + 1..];
        if item.Error? {
          return all, Some(item.error), false, Some(item.error);
        }
        all, err := all + [item.response], None;
        if !go(all) {
          return all, err, true, None;
        }
        i := i + 1;
      }
      failure := None;
    }

    /** Streams from the model and marks how that ended; `during` is what other calls mark
        meanwhile. */
    method Ask<R, E>(c: Candidate, m: Moment, during: seq<Mark>, i: nat, items: seq<Item<R, E>>,
                     kinds: E -> Option<Reason>, go: seq<R> -> bool, attempts: seq<Attempt<E>>,
                     responses: seq<R>, lastErr: Option<E>, ghost runs: seq<nat>)
      returns (more: seq<Attempt<E>>, over: Option<End<E>>, all: seq<R>, err: Option<E>, stopped: bool)
      requires chain.cooldown.Valid()
      modifies chain.cooldown, chain.cooldown.entries.Values
      ensures chain.cooldown.Valid()
      ensures forall e :: e in chain.cooldown.entries.Values && e !in old(chain.cooldown.entries.Values) ==> fresh(e)
      ensures var w := Walk(MarkedAll(old(chain.cooldown.View()), during), attempts, runs, None);
              var o := Out(responses, lastErr, false);
              && Settle(w, c, m, i, OutcomeOf(go, kinds, items, o)) == Walk(chain.cooldown.View(), more, runs, over)
              && Out(all, err, stopped) == Play(go, items, o)
      ensures over.None? ==> !stopped
    {
      var failure;
      PlayedThrough(go, items, Out(responses, lastErr, false));
      all, err, stopped, failure := Stream(items, go, responses, lastErr);
      chain.cooldown.Meanwhile(during);
      var outcome := if failure.None? then Done else Broken(failure.value, kinds(failure.value));
      more, over := chain.Mark(Walk(chain.cooldown.View(), attempts, runs, None), c, m, i, outcome, attempts);
    }

    /** The turn of one candidate, whose model answers `items` if it is asked. */
    method OneTurn<R, E>(c: Candidate, m: Moment, others: Others, i: nat, items: seq<Item<R, E>>,
                         kinds: E -> Option<Reason>, go: seq<R> -> bool, attempts: seq<Attempt<E>>,
                         responses: seq<R>, lastErr: Option<E>,
                         ghost ran: seq<nat>)
      returns (more: seq<Attempt<E>>, over: Option<End<E>>, all: seq<R>, err: Option<E>, stopped: bool,
               ghost runs: seq<nat>)
      requires chain.cooldown.Valid() && Does(m, others)
      modifies chain.cooldown, chain.cooldown.entries.Values
      ensures chain.cooldown.Valid()
      ensures forall e :: e in chain.cooldown.entries.Values && e !in old(chain.cooldown.entries.Values) ==> fresh(e)
      ensures var w, o := Walk(old(chain.cooldown.View()), attempts, ran, None), Out(responses, lastErr, false);
              && Turn(w, c, m, i, OutcomeOf(go, kinds, items, o)) == Walk(chain.cooldown.View(), more, runs, over)
              && Out(all, err, stopped) == if Runs(w, c, m) then Play(go, items, o) else o
      ensures over.None? ==> !stopped
    {
      more, over, all, err, stopped, runs := attempts, None, responses, lastErr, false, ran;
      chain.cooldown.Meanwhile(others.before);
      if m.cancelled {
        over := Some(Cancelled);
        return;
      }
      var available := chain.cooldown.IsAvailable(c.provider, m.at);
      if !available {
        more := attempts + [Skipped(c)];
        return;
      }
      runs := ran + [i];
      more, over, all, err, stopped :=
        Ask(c, m, others.during, i, items, kinds, go, attempts, responses, lastErr, runs);
    }

    /** The i-th turn takes the i-th state of the generation to the next. */
    method NextTurn<R, E>(ghost q: Request<R, E>, c: Candidate, m: Moment, others: Others, i: nat,
                          items: seq<Item<R, E>>, kinds: E -> Option<Reason>, go: seq<R> -> bool,
                          attempts: seq<Attempt<E>>, responses: seq<R>, lastErr: Option<E>, ghost ran: seq<nat>)
      returns (more: seq<Attempt<E>>, over: Option<End<E>>, all: seq<R>, err: Option<E>, stopped: bool,
               ghost runs: seq<nat>)
      requires chain.cooldown.Valid() && Fits(q) && i < |q.candidates| && Does(m, others)
      requires q.candidates[i] == c && q.moments[i] == m && q.streams[i] == items
      requires Gen(q, go, kinds, i).walk == Walk(chain.cooldown.View(), attempts, ran, None)
      requires Gen(q, go, kinds, i).out == Out(responses, lastErr, false)
      modifies chain.cooldown, chain.cooldown.entries.Values
      ensures chain.cooldown.Valid()
      ensures forall e :: e in chain.cooldown.entries.Values && e !in old(chain.cooldown.entries.Values) ==> fresh(e)
      ensures Gen(q, go, kinds, i + 1).walk == Walk(chain.cooldown.View(), more, runs, over)
      ensures Gen(q, go, kinds, i + 1).out == Out(all, err, stopped)
      ensures over.None? ==> !stopped
    {
      more, over, all, err, stopped, runs :=
        OneTurn(c, m, others, i, items, kinds, go, attempts, responses, lastErr, ran);
    }

    /** The request is the one of these models: each turn streams what its model replies. */
    ghost predicate Streams<R, E>(q: Request<R, E>, llms: map<string, L>, reply: (L, nat) -> seq<Item<R, E>>)
      requires Fits(q) && |q.candidates| == |entries|
    {
      forall i: nat :: i < |entries| ==>
        && q.candidates[i] == CandidateAt(i) && entries[i].provider in llms
        && q.streams[i] == reply(llms[entries[i].provider], i)
    }

    lemma LookupStreams<R, E>(llms: map<string, L>, moments: seq<Moment>, reply: (L, nat) -> seq<Item<R, E>>,
                              start: Tracker)
      requires |moments| == |entries|
      requires forall p :: p in llms <==> LastOf(entries, p) >= 0
      requires forall p :: p in llms ==> llms[p] == entries[LastOf(entries, p)].llm
      ensures Streams(RequestOf(moments, reply, start), llms, reply)
    {
      forall i: nat | i < |entries| ensures entries[i].provider in llms && llms[entries[i].provider] == Asked(i) {
        LastOfIsLast(entries, entries[i].provider);
      }
    }

    /** All turns, until one ends the call. */
    method RunAll<R, E>(ghost q: Request<R, E>, llms: map<string, L>, moments: seq<Moment>, others: seq<Others>,
                        reply: (L, nat) -> seq<Item<R, E>>, kinds: E -> Option<Reason>, go: seq<R> -> bool)
      returns (responses: seq<R>, lastErr: Option<E>, stopped: bool, end: End<E>)
      requires chain.cooldown.Valid() && Fits(q) && |q.candidates| == |entries|
      requires q.moments == moments && AllDo(moments, others)
      requires q.start == chain.cooldown.View() && Streams(q, llms, reply)
      modifies chain.cooldown, chain.cooldown.entries.Values
      ensures chain.cooldown.Valid()
      ensures var p := Gen(q, go, kinds, |entries|);
              && p.out == Out(responses, lastErr, stopped) && p.walk.tracker == chain.cooldown.View()
              && end == Ending(ChainCall(q, go, kinds))
    {
      var attempts: seq<Attempt<E>>, over: Option<End<E>> := [], None;
      responses, lastErr, stopped := [], None, false;
      ghost var ran: seq<nat> := [];
      var i := 0;
      while i < |entries| && over.None?
        invariant i <= |entries| && chain.cooldown.Valid()
        invariant forall e :: e in chain.cooldown.entries.Values && e !in old(chain.cooldown.entries.Values) ==>
                                fresh(e)
        invariant Gen(q, go, kinds, i).walk == Walk(chain.cooldown.View(), attempts, ran, over)
        invariant Gen(q, go, kinds, i).out == Out(responses, lastErr, stopped)
        invariant over.None? ==> !stopped
      {
        attempts, over, responses, lastErr, stopped, ran :=
          NextTurn(q, Candidate(entries[i].provider, entries[i].model), moments[i], others[i], i,
                   reply(llms[entries[i].provider], i), kinds, go, attempts, responses, lastErr, ran);
        i := i + 1;
      }
      GenEnding(q, go, kinds, i);
      end := if entries == [] then NoCandidates else if over.Some? then over.value else Exhausted;
    }

    method RunAndClose<R, E>(ghost q: Request<R, E>, llms: map<string, L>, moments: seq<Moment>, others: seq<Others>,
                             reply: (L, nat) -> seq<Item<R, E>>, kinds: E -> Option<Reason>, go: seq<R> -> bool)
      returns (responses: seq<R>, last: Last<E>)
      requires chain.cooldown.Valid() && Fits(q) && |q.candidates| == |entries|
      requires q.moments == moments && AllDo(moments, others)
      requires q.start == chain.cooldown.View() && Streams(q, llms, reply)
      modifies chain.cooldown, chain.cooldown.entries.Values
      ensures chain.cooldown.Valid()
      ensures var p := Gen(q, go, kinds, |entries|);
              && responses == p.out.responses && last == Closing(p.out, Ending(ChainCall(q, go, kinds)))
              && chain.cooldown.View() == p.walk.tracker
    {
      var lastErr, stopped, end;
      responses, lastErr, stopped, end := RunAll(q, llms, moments, others, reply, kinds, go);
      last := Closing(Out(responses, lastErr, stopped), end);
    }

    /** `reply` is what a model asked at a turn answers, `kinds` how an error is classified,
        `go` whether the consumer goes on after what it has. */
    method GenerateWithFallback<R, E>(moments: seq<Moment>, others: seq<Others>, reply: (L, nat) -> seq<Item<R, E>>,
                                      kinds: E -> Option<Reason>, go: seq<R> -> bool)
      returns (responses: seq<R>, last: Last<E>, ghost q: Request<R, E>)
      requires chain.cooldown.Valid() && |moments| == |entries| && AllDo(moments, others)
      modifies chain.cooldown, chain.cooldown.entries.Values
      ensures chain.cooldown.Valid()
      ensures q == RequestOf(moments, reply, old(chain.cooldown.View()))
      ensures var p := Gen(q, go, kinds, |entries|);
              && responses == p.out.responses
              && last == Closing(p.out, Ending(ChainCall(q, go, kinds)))
              && chain.cooldown.View() == p.walk.tracker
    {
      q := RequestOf(moments, reply, chain.cooldown.View());
      var llms := BuildLookup(entries);
      LookupStreams(llms, moments, reply, q.start);
      responses, last := RunAndClose(q, llms, moments, others, reply, kinds, go);
    }
  }

  lemma {:induction false} GenOver<R, E>(q: Request<R, E>, go: seq<R> -> bool, kinds: E -> Option<Reason>, i: nat,
                                         n: nat)
    requires Fits(q) && i <= n <= |q.candidates| && (Gen(q, go, kinds, i).walk.end.Some? || i == n)
    ensures Gen(q, go, kinds, n).walk == Gen(q, go, kinds, i).walk
    ensures Gen(q, go, kinds, n).out == Gen(q, go, kinds, i).out
    decreases n
  {
    if i < n {
      GenOver(q, go, kinds, i, n - 1);
    }
  }

  /** The state in which the loop stops tells how the call ends. */
  lemma GenEnding<R, E>(q: Request<R, E>, go: seq<R> -> bool, kinds: E -> Option<Reason>, i: nat)
    requires Fits(q) && i <= |q.candidates|
    requires Gen(q, go, kinds, i).walk.end.Some? || i == |q.candidates|
    ensures var p, last := Gen(q, go, kinds, |q.candidates|), Gen(q, go, kinds, i);
            && p.walk == last.walk && p.out == last.out
            && Ending(ChainCall(q, go, kinds)) ==
               if q.candidates == [] then NoCandidates
               else if last.walk.end.Some? then last.walk.end.value else Exhausted
  {
    GenOver(q, go, kinds, i, |q.candidates|);
    IsChainCall(q, go, kinds, |q.candidates|);
  }
}
