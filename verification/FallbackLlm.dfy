/** Generation with failover: the chain's runs are streams that are passed on as they come. */
module FallbackLlm {
  import opened Common
  import opened Cooldown
  import opened CooldownTracking
  import opened Failover
  import Yields

  datatype Item<+R, +E> = Response(response: R) | Error(error: E)

  datatype LlmEntry<+L> = LlmEntry(provider: string, model: string, llm: L)

  // ---------------------------------------------------------------- which model is asked

  /** The last entry of a provider, -1 if there is none. */
  function LastOf<L>(entries: seq<LlmEntry<L>>, provider: string): (i: int)
    ensures -1 <= i < |entries|
  {
    if entries == [] then -1
    else if entries[|entries| - 1].provider == provider then |entries| - 1
    else LastOf(entries[..|entries| - 1], provider)
  }

  lemma {:induction false} LastOfIsLast<L>(entries: seq<LlmEntry<L>>, provider: string)
    ensures var i := LastOf(entries, provider);
            && (i >= 0 ==> entries[i].provider == provider)
            && forall j :: i < j < |entries| ==> entries[j].provider != provider
  {
    if entries != [] && entries[|entries| - 1].provider != provider {
      LastOfIsLast(entries[..|entries| - 1], provider);
    }
  }

  /** The lookup by provider: of several entries of one provider, the last one is asked,
      whatever model the candidate names. */
  method BuildLookup<L>(entries: seq<LlmEntry<L>>) returns (m: map<string, L>)
    ensures forall p :: p in m <==> LastOf(entries, p) >= 0
    ensures forall p :: p in m ==> m[p] == entries[LastOf(entries, p)].llm
  {
    m := map[];
    for n := 0 to |entries|
      invariant forall p :: p in m <==> LastOf(entries[..n], p) >= 0
      invariant forall p :: p in m ==> m[p] == entries[LastOf(entries[..n], p)].llm
    {
      m := m[entries[n].provider := entries[n].llm];
      assert entries[..n + 1][..n] == entries[..n];
    }
    assert entries[..|entries|] == entries;
  }

  // ---------------------------------------------------------------- one run

  /** What the consumer has and what the runs left behind. */
  datatype Out<+R, +E> = Out(responses: seq<R>, lastErr: Option<E>, stopped: bool)

  /** The responses of a stream before its first error. */
  function Before<R, E>(items: seq<Item<R, E>>): seq<R> {
    if items == [] || items[0].Error? then [] else [items[0].response] + Before(items[1..])
  }

  function FirstError<R, E>(items: seq<Item<R, E>>): Option<E> {
    if items == [] then None
    else if items[0].Error? then Some(items[0].error)
    else FirstError(items[1..])
  }

  /** One run passes responses on until an error, the end or the consumer stops it; `go` is
      whether the consumer goes on after what it has. */
  function Play<R, E>(go: seq<R> -> bool, items: seq<Item<R, E>>, o: Out<R, E>): Out<R, E>
    decreases |items|
  {
    if items == [] then o
    else if items[0].Error? then o.(lastErr := Some(items[0].error))
    else
      var next := Out(o.responses + [items[0].response], None, o.stopped);
      if go(next.responses) then Play(go, items[1..], next) else next.(stopped := true)
  }

  /** The error a run returns: none when the stream ended or the consumer stopped. */
  function Failure<R, E>(go: seq<R> -> bool, items: seq<Item<R, E>>, responses: seq<R>): Option<E>
    decreases |items|
  {
    if items == [] then None
    else if items[0].Error? then Some(items[0].error)
    else if go(responses + [items[0].response]) then Failure(go, items[1..], responses + [items[0].response])
    else None
  }

  /** A run that is not stopped passes on everything before the first error and returns it. */
  lemma {:induction false} PlayedThrough<R, E>(go: seq<R> -> bool, items: seq<Item<R, E>>, o: Out<R, E>)
    requires !o.stopped
    ensures var r := Play(go, items, o);
            && (!r.stopped ==> r.responses == o.responses + Before(items)
                               && Failure(go, items, o.responses) == FirstError(items)
                               && (FirstError(items).Some? ==> r.lastErr == FirstError(items)))
            && (r.stopped ==> Failure(go, items, o.responses) == None)
    decreases |items|
  {
    if items == [] || items[0].Error? {
      assert o.responses + [] == o.responses;
    } else {
      var next := o.responses + [items[0].response];
      if go(next) {
        PlayedThrough(go, items[1..], Out(next, None, false));
        Regroup(o.responses, [items[0].response], Before(items[1..]));
      }
    }
  }

  /** A run adds to what the consumer has, never after it stopped. */
  lemma {:induction false} PlayedOn<R, E>(go: seq<R> -> bool, items: seq<Item<R, E>>, o: Out<R, E>)
    requires !o.stopped
    ensures var r := Play(go, items, o);
            && |o.responses| <= |r.responses| && r.responses[..|o.responses|] == o.responses
            && (if r.stopped then |o.responses| < |r.responses| && !go(r.responses)
                                  && Yields.WentOn(go, r.responses, |o.responses|, |r.responses| - 1)
                else Yields.WentOn(go, r.responses, |o.responses|, |r.responses|))
            && (r.stopped ==> |r.responses| - |o.responses| <= |Before(items)|
                              && r.responses == o.responses + Before(items)[..|r.responses| - |o.responses|])
    decreases |items|
  {
    if items != [] && items[0].Response? {
      var next := o.responses + [items[0].response];
      if go(next) {
        PlayedOn(go, items[1..], Out(next, None, false));
      }
    }
  }

  // ---------------------------------------------------------------- the whole generation

  /** `streams[i]` is what the model asked at the i-th turn answers. */
  datatype Request<+R, +E> = Request(candidates: seq<Candidate>, moments: seq<Moment>,
                                     streams: seq<seq<Item<R, E>>>, start: Tracker)

  datatype Progress<+R, +E> = Progress(walk: Walk<E>, out: Out<R, E>, outcomes: seq<Outcome<E>>)

  ghost predicate Fits<R, E>(q: Request<R, E>) {
    |q.candidates| == |q.moments| == |q.streams|
  }

  function OutcomeOf<R, E>(go: seq<R> -> bool, kinds: E -> Option<Reason>, items: seq<Item<R, E>>,
                           o: Out<R, E>): Outcome<E> {
    var e := Failure(go, items, o.responses);
    if e.None? then Done else Broken(e.value, kinds(e.value))
  }

  /** The state after `n` turns; `kinds` classifies errors. */
  function Gen<R, E>(q: Request<R, E>, go: seq<R> -> bool, kinds: E -> Option<Reason>, n: nat): Progress<R, E>
    requires Fits(q) && n <= |q.candidates|
  {
    if n == 0 then Progress(Walk(q.start, [], [], None), Out([], None, false), [])
    else
      var i := n - 1;
      var p := Gen(q, go, kinds, i);
      var o := OutcomeOf(go, kinds, q.streams[i], p.out);
      Progress(Turn(p.walk, q.candidates[i], q.moments[i], i, o),
               if Runs(p.walk, q.candidates[i], q.moments[i]) then Play(go, q.streams[i], p.out) else p.out,
               p.outcomes + [o])
  }

  function ChainCall<R, E>(q: Request<R, E>, go: seq<R> -> bool, kinds: E -> Option<Reason>): (x: Call<E>)
    requires Fits(q)
    ensures Sized(x)
  {
    OutcomesGrow(q, go, kinds, 0, |q.candidates|);
    Call(q.candidates, q.moments, Gen(q, go, kinds, |q.candidates|).outcomes, q.start)
  }

  lemma {:induction false} OutcomesGrow<R, E>(q: Request<R, E>, go: seq<R> -> bool, kinds: E -> Option<Reason>, i: nat,
                                              n: nat)
    requires Fits(q) && i <= n <= |q.candidates|
    ensures |Gen(q, go, kinds, n).outcomes| == n
    ensures Gen(q, go, kinds, n).outcomes[..i] == Gen(q, go, kinds, i).outcomes
    decreases n
  {
    if i < n {
      OutcomesGrow(q, go, kinds, i, n - 1);
    } else if n > 0 {
      OutcomesGrow(q, go, kinds, n - 1, n - 1);
    }
  }

  lemma OutcomeAt<R, E>(q: Request<R, E>, go: seq<R> -> bool, kinds: E -> Option<Reason>, i: nat)
    requires Fits(q) && i < |q.candidates|
    ensures ChainCall(q, go, kinds).outcomes[i] == OutcomeOf(go, kinds, q.streams[i], Gen(q, go, kinds, i).out)
  {
    var all := Gen(q, go, kinds, |q.candidates|).outcomes;
    OutcomesGrow(q, go, kinds, i + 1, |q.candidates|);
    OutcomesGrow(q, go, kinds, i, i + 1);
    assert all[i] == all[..i + 1][i];
  }

  lemma SameTurn<R, E>(q: Request<R, E>, go: seq<R> -> bool, kinds: E -> Option<Reason>, x: Call<E>, i: nat)
    requires Fits(q) && i < |q.candidates| && Sized(x) && x.candidates == q.candidates && x.moments == q.moments
    requires x.outcomes[i] == OutcomeOf(go, kinds, q.streams[i], Gen(q, go, kinds, i).out)
    requires Gen(q, go, kinds, i).walk == Upto(x, i)
    ensures Gen(q, go, kinds, i + 1).walk == Upto(x, i + 1)
  {
  }

  /** The generation is a call of the chain, so all that is proved of the chain holds of it. */
  lemma {:induction false} IsChainCall<R, E>(q: Request<R, E>, go: seq<R> -> bool, kinds: E -> Option<Reason>, n: nat)
    requires Fits(q) && n <= |q.candidates|
    ensures Gen(q, go, kinds, n).walk == Upto(ChainCall(q, go, kinds), n)
  {
    if n > 0 {
      IsChainCall(q, go, kinds, n - 1);
      OutcomeAt(q, go, kinds, n - 1);
      SameTurn(q, go, kinds, ChainCall(q, go, kinds), n - 1);
    }
  }

  // ---------------------------------------------------------------- what the consumer gets

  ghost predicate Within(ran: seq<nat>, n: nat) { forall k :: 0 <= k < |ran| ==> ran[k] < n }

  /** Everything the runs have to say before they fail, in the order of the runs. */
  function Said<R, E>(q: Request<R, E>, ran: seq<nat>): seq<R>
    requires Within(ran, |q.streams|)
  {
    if ran == [] then []
    else Said(q, ran[..|ran| - 1]) + Before(q.streams[ran[|ran| - 1]])
  }

  lemma SaidNext<R, E>(q: Request<R, E>, ran: seq<nat>, i: nat)
    requires Within(ran, |q.streams|) && i < |q.streams|
    ensures Said(q, ran + [i]) == Said(q, ran) + Before(q.streams[i])
  {
    assert (ran + [i])[..|ran|] == ran;
  }

  /** What holds after every turn. */
  ghost predicate Sound<R, E>(q: Request<R, E>, go: seq<R> -> bool, p: Progress<R, E>)
    requires Fits(q)
  {
    && Within(p.walk.ran, |q.streams|)
    && (p.out.stopped ==> p.walk.end.Some? && p.walk.end.value.Served?)
    && (if p.out.stopped then p.out.responses <= Said(q, p.walk.ran) && Stopped(go, p.out.responses)
        else p.out.responses == Said(q, p.walk.ran) && Yields.WentOn(go, p.out.responses, 0, |p.out.responses|))
    && (!(p.walk.end.Some? && p.walk.end.value.Served?) ==> LastError(q, p.walk.ran) == p.out.lastErr)
    && (p.out.lastErr == None && !(p.walk.end.Some? && p.walk.end.value.Served?) ==> p.walk.ran == [])
  }

  /** The consumer stopped at the last response and not before. */
  ghost predicate Stopped<R>(go: seq<R> -> bool, responses: seq<R>) {
    responses != [] && !go(responses) && Yields.WentOn(go, responses, 0, |responses| - 1)
  }

  /** The error of the last run. */
  function LastError<R, E>(q: Request<R, E>, ran: seq<nat>): Option<E>
    requires Within(ran, |q.streams|)
  {
    if ran == [] then None else FirstError(q.streams[ran[|ran| - 1]])
  }

  lemma WentOnJoins<R>(go: seq<R> -> bool, a: seq<R>, b: seq<R>, to: int)
    requires |a| <= |b| && b[..|a|] == a && Yields.WentOn(go, a, 0, |a|) && Yields.WentOn(go, b, |a|, to)
    ensures Yields.WentOn(go, b, 0, to)
  {
    forall n | 0 < n <= to && n <= |b| ensures go(b[..n]) {
      if n <= |a| { assert b[..n] == a[..n]; }
    }
  }

  /** A run keeps it: while not stopped, all that the run says is passed on. */
  lemma RunKeeps<R, E>(q: Request<R, E>, go: seq<R> -> bool, p: Progress<R, E>, i: nat)
    requires Fits(q) && Sound(q, go, p) && p.walk.end.None? && i < |q.streams|
    ensures var r := Play(go, q.streams[i], p.out);
            && (r.stopped ==> r.responses <= Said(q, p.walk.ran + [i]) && Stopped(go, r.responses)
                              && Failure(go, q.streams[i], p.out.responses) == None)
            && (!r.stopped ==> r.responses == Said(q, p.walk.ran + [i])
                               && Yields.WentOn(go, r.responses, 0, |r.responses|)
                               && Failure(go, q.streams[i], p.out.responses) == FirstError(q.streams[i])
                               && (FirstError(q.streams[i]).Some? ==> r.lastErr == FirstError(q.streams[i])))
  {
    PlayedThrough(go, q.streams[i], p.out);
    SaidNext(q, p.walk.ran, i);
    StopsOrGoesOn(go, q.streams[i], p.out, Said(q, p.walk.ran));
  }

  lemma StopsOrGoesOn<R, E>(go: seq<R> -> bool, items: seq<Item<R, E>>, o: Out<R, E>, said: seq<R>)
    requires !o.stopped && o.responses == said && Yields.WentOn(go, said, 0, |said|)
    ensures var r := Play(go, items, o);
            && (r.stopped ==> r.responses <= said + Before(items) && Stopped(go, r.responses))
            && (!r.stopped ==> Yields.WentOn(go, r.responses, 0, |r.responses|))
  {
    var r := Play(go, items, o);
    PlayedOn(go, items, o);
    WentOnJoins(go, said, r.responses, if r.stopped then |r.responses| - 1 else |r.responses|);
  }

  /** A run ends served exactly when it returns no error; otherwise it was not stopped. */
  lemma TurnKeeps<R, E>(q: Request<R, E>, go: seq<R> -> bool, kinds: E -> Option<Reason>, n: nat)
    requires Fits(q) && n < |q.candidates| && Sound(q, go, Gen(q, go, kinds, n))
    ensures Sound(q, go, Gen(q, go, kinds, n + 1))
  {
    var p := Gen(q, go, kinds, n);
    var c, m := q.candidates[n], q.moments[n];
    var o := OutcomeOf(go, kinds, q.streams[n], p.out);
    TurnRuns(p.walk, c, m, n, o);
    if Runs(p.walk, c, m) {
      RunKeeps(q, go, p, n);
      ServedIfDone(p.walk, c, m, n, o);
      assert Gen(q, go, kinds, n + 1).walk.ran == p.walk.ran + [n];
    } else {
      assert p.walk.ran + [] == p.walk.ran;
      NotServed(p.walk, c, m, n, o);
    }
  }

  lemma ServedIfDone<E>(w: Walk<E>, c: Candidate, m: Moment, i: nat, o: Outcome<E>)
    requires Runs(w, c, m)
    ensures var end := Turn(w, c, m, i, o).end; (end.Some? && end.value.Served?) <==> o.Done?
  {
  }

  lemma NotServed<E>(w: Walk<E>, c: Candidate, m: Moment, i: nat, o: Outcome<E>)
    requires !Runs(w, c, m)
    ensures var end := Turn(w, c, m, i, o).end;
            (end.Some? && end.value.Served?) <==> (w.end.Some? && w.end.value.Served?)
  {
  }

  lemma SoundAtFirst<R, E>(q: Request<R, E>, go: seq<R> -> bool, kinds: E -> Option<Reason>)
    requires Fits(q)
    ensures Sound(q, go, Gen(q, go, kinds, 0))
  {
  }

  lemma {:induction false} AlwaysSound<R, E>(q: Request<R, E>, go: seq<R> -> bool, kinds: E -> Option<Reason>, n: nat)
    requires Fits(q) && n <= |q.candidates|
    ensures Sound(q, go, Gen(q, go, kinds, n))
  {
    if n == 0 {
      SoundAtFirst(q, go, kinds);
    } else {
      AlwaysSound(q, go, kinds, n - 1);
      TurnKeeps(q, go, kinds, n - 1);
    }
  }

  /** What is yielded after the responses. */
  datatype Last<+E> = Nothing | RunError(error: E) | ChainError(end: End<E>)

  function Closing<R, E>(o: Out<R, E>, end: End<E>): Last<E> {
    if o.stopped || end.Served? then Nothing
    else if o.lastErr.Some? then RunError(o.lastErr.value)
    else ChainError(end)
  }

  /** The responses are all that the runs said before their errors, in order, unless the
      consumer stopped: then a part of it that ends where it stopped, and nothing follows.
      Otherwise one error follows exactly when no candidate served: the one of the last run,
      or the chain's own when nothing was run. */
  lemma GenerationContract<R, E>(q: Request<R, E>, go: seq<R> -> bool, kinds: E -> Option<Reason>)
    requires Fits(q)
    ensures var p, end := Gen(q, go, kinds, |q.candidates|), Ending(ChainCall(q, go, kinds));
            && Within(p.walk.ran, |q.streams|)
            && var said := Said(q, p.walk.ran);
            && (p.out.stopped ==> p.out.responses <= said && Stopped(go, p.out.responses))
            && (!p.out.stopped ==> p.out.responses == said && Yields.WentOn(go, said, 0, |said|))
            && (p.out.stopped ==> Closing(p.out, end) == Nothing)
            && (Closing(p.out, end) == Nothing <==> end.Served?)
            && (!end.Served? && p.walk.ran == [] ==> Closing(p.out, end) == ChainError(end))
            && (!end.Served? && p.walk.ran != [] ==>
                  LastError(q, p.walk.ran).Some? && Closing(p.out, end) == RunError(LastError(q, p.walk.ran).value))
  {
    AlwaysSound(q, go, kinds, |q.candidates|);
    IsChainCall(q, go, kinds, |q.candidates|);
  }
}
