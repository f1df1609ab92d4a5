/** The compressor at work on a session service, step by step, with every step allowed to
    fail. */
module CompressionService {
  import opened Common
  import opened Compression
  import P = Pruning

  /** The first step of a replacement that fails, if any; `FailsAt` counts appends. */
  datatype Fault = NoFault | DeleteFails | CreateFails | FailsAt(append: nat)

  type Sessions = map<string, Session>

  class SessionService {
    var sessions: Sessions

    method Delete(id: string, fail: bool) returns (ok: bool)
      modifies this
      ensures ok == !fail && sessions == if fail then old(sessions) else old(sessions) - {id}
    {
      if !fail {
        sessions := sessions - {id};
      }
      return !fail;
    }

    /** Fails on an existing session too. */
    method Create(id: string, state: State, fail: bool) returns (ok: bool)
      modifies this
      ensures ok == (!fail && id !in old(sessions))
      ensures sessions == if ok then old(sessions)[id := Session(state, [])] else old(sessions)
    {
      if fail || id in sessions {
        return false;
      }
      sessions := sessions[id := Session(state, [])];
      return true;
    }

    method AppendEvent(id: string, e: Event, fail: bool) returns (ok: bool)
      requires id in sessions
      modifies this
      ensures ok == !fail
      ensures sessions == if fail then old(sessions) else
                old(sessions)[id := Session(old(sessions)[id].state + e.delta, old(sessions)[id].events + [e])]
    {
      if fail {
        return false;
      }
      sessions := sessions[id := Session(sessions[id].state + e.delta, sessions[id].events + [e])];
      return true;
    }
  }

  /** What deleting, creating and refilling leaves. After the deletion a failure loses what
      was not appended yet: only the events appended before it are in the service. */
  function Replaced(sessions: Sessions, id: string, state: State, events: seq<Event>, fault: Fault): Sessions {
    match fault
    case DeleteFails => sessions
    case CreateFails => sessions - {id}
    case NoFault => sessions[id := Built(state, events)]
    case FailsAt(n) => sessions[id := Built(state, if n < |events| then events[..n] else events)]
  }

  predicate Succeeds(events: seq<Event>, fault: Fault) {
    fault.NoFault? || (fault.FailsAt? && fault.append >= |events|)
  }

  lemma BuiltNext(state: State, events: seq<Event>, i: nat)
    requires i < |events|
    ensures var b := Built(state, events[..i]);
            Built(state, events[..i + 1]) == Session(b.state + events[i].delta, b.events + [events[i]])
  {
    assert events[..i + 1][..i] == events[..i];
  }

  // ---------------------------------------------------------------- what a failure leaves

  /** What events say about a session's state: the last value of every name they set. */
  function Says(events: seq<Event>): State { Applied(map[], events) }

  predicate Within(part: State, state: State) { forall k :: k in part ==> k in state && state[k] == part[k] }

  lemma {:induction false} AppliedSays(state: State, events: seq<Event>)
    ensures Applied(state, events) == state + Says(events)
  {
    if events != [] {
      AppliedSays(state, events[..|events| - 1]);
    }
  }

  lemma WithinKeeps(state: State, part: State)
    ensures state + part == state <==> Within(part, state)
  {
    if state + part == state {
      forall k | k in part ensures k in state && state[k] == part[k] {
        assert k in state + part && (state + part)[k] == part[k];
      }
    }
  }

  /** A compression changes its own session all or not at all if and only if no step fails
      after the deletion. Otherwise the session is gone, when it cannot be created, or holds
      the new events before the failing append and no others. No other session changes. */
  lemma FaultLeaves(strategy: P.Strategy, sessions: Sessions, id: string, r: Session, fault: Fault)
    requires id in sessions && Compresses(strategy, sessions[id], r) && FromEvents(sessions[id])
    requires |sessions[id].events| > MIN_EVENTS
    ensures var after := Replaced(sessions, id, sessions[id].state, r.events, fault);
            && (after == sessions || after == sessions[id := r] <==> fault.DeleteFails? || Succeeds(r.events, fault))
            && (id !in after <==> fault.CreateFails?)
            && (fault.FailsAt? && fault.append < |r.events| ==> after[id].events == r.events[..fault.append])
            && after - {id} == sessions - {id}
  {
    Shrinks(strategy, sessions[id], r);
    BuiltFrom(strategy, sessions[id], r);
    AllOrNothing(sessions, id, sessions[id].state, r.events, fault);
  }

  lemma AllOrNothing(sessions: Sessions, id: string, state: State, events: seq<Event>, fault: Fault)
    requires id in sessions && |events| < |sessions[id].events|
    ensures var after := Replaced(sessions, id, state, events, fault);
            && (after == sessions || after == sessions[id := Built(state, events)]
                <==> fault.DeleteFails? || Succeeds(events, fault))
            && (id !in after <==> fault.CreateFails?)
            && (fault.FailsAt? && fault.append < |events| ==> after[id].events == events[..fault.append])
            && after - {id} == sessions - {id}
  {
    var after := Replaced(sessions, id, state, events, fault);
    var done := sessions[id := Built(state, events)];
    if fault.FailsAt? && fault.append < |events| {
      assert |after[id].events| == fault.append && |done[id].events| == |events|;
    }
  }

  /** A compressed session is its events appended to the old state. */
  lemma BuiltFrom(strategy: P.Strategy, s: Session, r: Session)
    requires Compresses(strategy, s, r) && |s.events| > MIN_EVENTS
    ensures r == Built(s.state, r.events)
  {
  }

  /** The state survives a failure unless the session could not be created, or the events
      appended before the failure say something that the state had moved on from. */
  lemma StateSurvives(strategy: P.Strategy, sessions: Sessions, id: string, r: Session, fault: Fault)
    requires id in sessions && Compresses(strategy, sessions[id], r) && FromEvents(sessions[id])
    requires |sessions[id].events| > MIN_EVENTS
    ensures var state, after := sessions[id].state, Replaced(sessions, id, sessions[id].state, r.events, fault);
            id in after && after[id].state == state <==>
              && !fault.CreateFails?
              && (fault.FailsAt? && fault.append < |r.events| ==> Within(Says(r.events[..fault.append]), state))
  {
    var state := sessions[id].state;
    Shrinks(strategy, sessions[id], r);
    BuiltFrom(strategy, sessions[id], r);
    if fault.FailsAt? && fault.append < |r.events| {
      AppliedSays(state, r.events[..fault.append]);
      WithinKeeps(state, Says(r.events[..fault.append]));
    }
  }

  /** And it can go back: the third append of a forced compression fails, and an older value
      is the session's again. */
  lemma StateCanGoBack(note: nat -> string) returns (s: Session, fault: Fault)
    ensures FromEvents(s) && |s.events| > MIN_EVENTS && "k" in s.state
    ensures var after := Replaced(map["id" := s], "id", s.state, ForceCompressed(note, s).events, fault);
            "id" in after && "k" in after["id"].state && after["id"].state["k"] != s.state["k"]
  {
    var plain := Event("", None, map[]);
    var older, newer := Event("", None, map["k" := "old"]), Event("", None, map["k" := "new"]);
    var events := [plain, plain, older, newer, newer];
    s, fault := Built(map[], events), FailsAt(2);
    var r := ForceCompressed(note, s);
    assert s.events[2..] == [older, newer, newer];
    assert r.events[..2] == [SummaryEvent(note(2)), older];
    AppliedLast(map[], events);
    AppliedLast(s.state, r.events[..2]);
  }

  lemma AppliedLast(state: State, events: seq<Event>)
    requires events != []
    ensures Applied(state, events) == Applied(state, events[..|events| - 1]) + events[|events| - 1].delta
  {
  }

  class Compressor {
    const service: SessionService
    const strategy: P.Strategy

    constructor (service: SessionService, strategy: P.Strategy)
      ensures this.service == service && this.strategy == strategy
    {
      this.service, this.strategy := service, strategy;
    }

    /** Appends the events until one append fails. */
    method Refill(id: string, state: State, events: seq<Event>, fault: Fault) returns (ok: bool)
      requires fault.NoFault? || fault.FailsAt?
      requires id in service.sessions && service.sessions[id] == Session(state, [])
      modifies service
      ensures ok == Succeeds(events, fault)
      ensures service.sessions == Replaced(old(service.sessions), id, state, events, fault)
    {
      ok := true;
      var i := 0;
      while i < |events|
        invariant i <= |events| && (fault.FailsAt? ==> i <= fault.append)
        invariant service.sessions == old(service.sessions)[id := Built(state, events[..i])]
      {
        ok := service.AppendEvent(id, events[i], fault == FailsAt(i));
        if !ok {
          return;
        }
        BuiltNext(state, events, i);
        i := i + 1;
      }
      assert events[..|events|] == events;
      return true;
    }

    method Replace(id: string, state: State, events: seq<Event>, fault: Fault) returns (ok: bool)
      modifies service
      ensures ok == Succeeds(events, fault)
      ensures service.sessions == Replaced(old(service.sessions), id, state, events, fault)
    {
      ok := service.Delete(id, fault == DeleteFails);
      if !ok {
        return;
      }
      ok := service.Create(id, state, fault == CreateFails);
      if !ok {
        return;
      }
      ok := Refill(id, state, events, fault);
    }

    /** The new events of a session whose old ones were summarised. */
    method ReplaceSession(id: string, s: Session, text: string, keepFrom: nat, fault: Fault) returns (ok: bool)
      requires keepFrom <= |s.events|
      modifies service
      ensures ok == Succeeds([SummaryEvent(text)] + s.events[keepFrom..], fault)
      ensures service.sessions ==
                Replaced(old(service.sessions), id, s.state, [SummaryEvent(text)] + s.events[keepFrom..], fault)
    {
      var kept: seq<Event> := [];
      for i := keepFrom to |s.events|
        invariant kept == s.events[keepFrom..i]
      {
        kept := kept + [s.events[i]];
      }
      assert kept == s.events[keepFrom..];
      ok := Replace(id, s.state, [SummaryEvent(text)] + kept, fault);
    }

    method ReplaceSessionWithMessages(id: string, s: Session, messages: seq<P.Message>, fault: Fault) returns (ok: bool)
      modifies service
      ensures ok == Succeeds(PrunedEvents(messages), fault)
      ensures service.sessions == Replaced(old(service.sessions), id, s.state, PrunedEvents(messages), fault)
    {
      var events: seq<Event> := [];
      for i := 0 to |messages|
        invariant events == PrunedEvents(messages[..i])
      {
        assert messages[..i + 1][..i] == messages[..i];
        events := events + [PrunedEvent(messages[i])];
      }
      assert messages[..|messages|] == messages;
      ok := Replace(id, s.state, events, fault);
    }

    method EventsToMessages(events: seq<Event>) returns (messages: seq<P.Message>)
      ensures messages == Contents(events)
    {
      messages := [];
      for i := 0 to |events|
        invariant messages == Contents(events[..i])
      {
        assert events[..i + 1][..i] == events[..i];
        if events[i].content.Some? {
          messages := messages + [events[i].content.value];
        }
      }
      assert events[..|events|] == events;
    }

    method WriteParts(text: string, parts: seq<P.Part>) returns (all: string)
      ensures all == text + PartsText(parts)
    {
      all := text;
      for j := 0 to |parts|
        invariant all == text + PartsText(parts[..j])
      {
        assert parts[..j + 1][..j] == parts[..j];
        var line := if parts[j].text != [] then parts[j].text + ['\n'] else [];
        Regroup(text, PartsText(parts[..j]), line);
        all := all + line;
      }
      assert parts[..|parts|] == parts;
    }

    /** The text of the old events, a line each part. */
    method ExtractText(events: seq<Event>) returns (text: string)
      ensures text == OldText(events)
    {
      text := [];
      for i := 0 to |events|
        invariant text == OldText(events[..i])
      {
        assert events[..i + 1][..i] == events[..i];
        if events[i].content.Some? {
          text := WriteParts(text, events[i].content.value.parts);
        } else {
          assert text + [] == text;
        }
      }
      assert events[..|events|] == events;
    }

    method EstimateTokens(events: seq<Event>) returns (total: nat)
      ensures total == SessionTokens(events)
    {
      total := 0;
      for i := 0 to |events|
        invariant total == SessionTokens(events[..i])
      {
        assert events[..i + 1][..i] == events[..i];
        if events[i].content.Some? {
          var parts := events[i].content.value.parts;
          ghost var before := total;
          for j := 0 to |parts|
            invariant total == before + TextTokens(parts[..j])
          {
            assert parts[..j + 1][..j] == parts[..j];
            total := total + |parts[j].text| / 4;
          }
          assert parts[..|parts|] == parts;
        }
      }
      assert events[..|events|] == events;
    }

    /** Nothing changes when there is nothing to do or the model fails; otherwise the session
        is replaced, as far as no step fails. */
    method Compress(id: string, s: Session, summarize: string -> Option<string>, fault: Fault) returns (ok: bool)
      modifies service
      ensures |s.events| <= MIN_EVENTS ==> ok && service.sessions == old(service.sessions)
      ensures Compressed(strategy, summarize, s).None? ==> !ok && service.sessions == old(service.sessions)
      ensures |s.events| > MIN_EVENTS && Compressed(strategy, summarize, s).Some? ==>
        var r := Compressed(strategy, summarize, s).value;
        && ok == Succeeds(r.events, fault)
        && service.sessions == Replaced(old(service.sessions), id, s.state, r.events, fault)
        && (ok ==> service.sessions == old(service.sessions)[id := r])
    {
      var n := |s.events|;
      if n <= MIN_EVENTS {
        return true;
      }
      var messages := EventsToMessages(s.events);
      var tokens := EstimateTokens(s.events);
      var pruned := P.PruneMessages(strategy, messages, tokens * 70 / 100);
      if |pruned| < |messages| {
        ok := ReplaceSessionWithMessages(id, s, pruned, fault);
        return;
      }
      var keepFrom := n * 75 / 100;
      var text := ExtractText(s.events[..keepFrom]);
      var summary := summarize(text);
      if summary.None? {
        return false;
      }
      ok := ReplaceSession(id, s, summary.value, keepFrom, fault);
    }

    method ForceCompress(id: string, s: Session, note: nat -> string, fault: Fault) returns (ok: bool)
      modifies service
      ensures |s.events| <= MIN_EVENTS ==> ok && service.sessions == old(service.sessions)
      ensures |s.events| > MIN_EVENTS ==>
        var r := ForceCompressed(note, s);
        && ok == Succeeds(r.events, fault)
        && service.sessions == Replaced(old(service.sessions), id, s.state, r.events, fault)
        && (ok ==> service.sessions == old(service.sessions)[id := r])
    {
      var n := |s.events|;
      if n <= MIN_EVENTS {
        return true;
      }
      ok := ReplaceSession(id, s, note(n / 2), n / 2, fault);
    }
  }
}
