/** Session compression: the session is deleted, created again and refilled. */
module Compression {
  import opened Common
  import opened JsonLines
  import P = Pruning

  type State = map<string, string>

  /** `delta` is what appending the event does to the session's state. */
  datatype Event = Event(author: string, content: Option<P.Message>, delta: State)

  datatype Session = Session(state: State, events: seq<Event>)

  // ---------------------------------------------------------------- state

  /** The state after appending events. */
  function Applied(state: State, events: seq<Event>): State {
    if events == [] then state
    else Applied(state, events[..|events| - 1]) + events[|events| - 1].delta
  }

  function Built(state: State, events: seq<Event>): Session { Session(Applied(state, events), events) }

  /** The state is what the events made of some first state. */
  ghost predicate FromEvents(s: Session) { exists start: State :: s.state == Applied(start, s.events) }

  lemma {:induction false} AppliedAppend(state: State, a: seq<Event>, b: seq<Event>)
    ensures Applied(state, a + b) == Applied(Applied(state, a), b)
    decreases |b|
  {
    if b == [] {
      assert a + b == a;
    } else {
      AppliedAppend(state, a, b[..|b| - 1]);
      assert (a + b)[..|a + b| - 1] == a + b[..|b| - 1];
    }
  }

  /** What events say about a name, if they say anything. */
  lemma {:induction false} AppliedTwice(state: State, events: seq<Event>, k: string)
    ensures k in Applied(Applied(state, events), events) <==> k in Applied(state, events)
    ensures k in Applied(state, events) ==> Applied(Applied(state, events), events)[k] == Applied(state, events)[k]
  {
    Overwrites(state, Applied(state, events), events, k);
  }

  /** Starting from another state that agrees with the result changes nothing. */
  lemma {:induction false} Overwrites(one: State, two: State, events: seq<Event>, k: string)
    ensures var a, b := Applied(one, events), Applied(two, events);
            || ((k in a <==> k in b) && (k in a ==> a[k] == b[k]))
            || ((k in a <==> k in one) && (k in one ==> k in a && a[k] == one[k])
                && (k in b <==> k in two) && (k in two ==> k in b && b[k] == two[k]))
  {
    if events != [] {
      Overwrites(one, two, events[..|events| - 1], k);
    }
  }

  lemma StateSettles(state: State, events: seq<Event>)
    ensures Applied(Applied(state, events), events) == Applied(state, events)
  {
    forall k ensures (k in Applied(Applied(state, events), events) <==> k in Applied(state, events))
      && (k in Applied(state, events) ==> Applied(Applied(state, events), events)[k] == Applied(state, events)[k])
    {
      AppliedTwice(state, events, k);
    }
  }

  // ---------------------------------------------------------------- what replaces a session

  const MIN_EVENTS := 4

  function SummaryEvent(text: string): Event {
    Event("system", Some(P.Message(P.Model, [P.Part(text, None)])), map[])
  }

  function PrunedEvent(m: P.Message): Event { Event("", Some(m), map[]) }

  function PrunedEvents(ms: seq<P.Message>): (r: seq<Event>)
    ensures |r| == |ms|
  {
    if ms == [] then [] else PrunedEvents(ms[..|ms| - 1]) + [PrunedEvent(ms[|ms| - 1])]
  }

  /** The messages of the events that have one. */
  function Contents(events: seq<Event>): (r: seq<P.Message>)
    ensures |r| <= |events|
  {
    if events == [] then []
    else
      var last := events[|events| - 1];
      Contents(events[..|events| - 1]) + if last.content.Some? then [last.content.value] else []
  }

  /** A summary and the events from `keepFrom` on. */
  function Summarised(s: Session, text: string, keepFrom: nat): Session
    requires keepFrom <= |s.events|
  {
    Built(s.state, [SummaryEvent(text)] + s.events[keepFrom..])
  }

  function OfMessages(s: Session, ms: seq<P.Message>): Session { Built(s.state, PrunedEvents(ms)) }

  lemma {:induction false} NoDelta(state: State, ms: seq<P.Message>)
    ensures Applied(state, PrunedEvents(ms)) == state
  {
    if ms != [] {
      NoDelta(state, ms[..|ms| - 1]);
      assert PrunedEvents(ms)[..|ms| - 1] == PrunedEvents(ms[..|ms| - 1]);
    }
  }

  lemma SummaryHasNoDelta(state: State, text: string)
    ensures Applied(state, [SummaryEvent(text)]) == state
  {
    var one := [SummaryEvent(text)];
    assert one[..0] == [] && one[0].delta == map[];
    assert Applied(state, one) == Applied(state, one[..0]) + one[0].delta;
  }

  /** Appending the newest events again to the state they led to leaves it as it is. */
  lemma SummarisedState(s: Session, text: string, keepFrom: nat)
    requires keepFrom <= |s.events| && FromEvents(s)
    ensures Summarised(s, text, keepFrom).state == s.state && FromEvents(Summarised(s, text, keepFrom))
  {
    var start: State :| s.state == Applied(start, s.events);
    var dropped, kept := s.events[..keepFrom], s.events[keepFrom..];
    assert s.events == dropped + kept;
    AppliedAppend(start, dropped, kept);
    StateSettles(Applied(start, dropped), kept);
    SummaryHasNoDelta(s.state, text);
    AppliedAppend(s.state, [SummaryEvent(text)], kept);
  }

  // ---------------------------------------------------------------- the three ways

  function OldText(events: seq<Event>): string {
    if events == [] then []
    else OldText(events[..|events| - 1]) + EventText(events[|events| - 1])
  }

  function EventText(e: Event): string { if e.content.None? then [] else PartsText(e.content.value.parts) }

  function PartsText(ps: seq<P.Part>): string {
    if ps == [] then []
    else
      var last := ps[|ps| - 1];
      PartsText(ps[..|ps| - 1]) + if last.text != [] then last.text + ['\n'] else []
  }

  /** The rough size of the session, in tokens, part by part. */
  function SessionTokens(events: seq<Event>): nat {
    if events == [] then 0
    else
      var last := events[|events| - 1];
      SessionTokens(events[..|events| - 1])
      + if last.content.Some? then TextTokens(last.content.value.parts) else 0
  }

  function TextTokens(ps: seq<P.Part>): nat {
    if ps == [] then 0 else TextTokens(ps[..|ps| - 1]) + |ps[|ps| - 1].text| / 4
  }

  function PrunedMessages(strategy: P.Strategy, s: Session): seq<P.Message> {
    P.Prune(strategy, Contents(s.events), SessionTokens(s.events) * 70 / 100)
  }

  /** The session after a compression in which nothing fails: `summary` is what the model
      makes of the old events. */
  function Compressed(strategy: P.Strategy, summarize: string -> Option<string>, s: Session): Option<Session> {
    if |s.events| <= MIN_EVENTS then Some(s)
    else if |PrunedMessages(strategy, s)| < |Contents(s.events)| then
      Some(OfMessages(s, PrunedMessages(strategy, s)))
    else
      var keepFrom := |s.events| * 75 / 100;
      var summary := summarize(OldText(s.events[..keepFrom]));
      if summary.None? then None else Some(Summarised(s, summary.value, keepFrom))
  }

  function ForceCompressed(note: nat -> string, s: Session): Session {
    if |s.events| <= MIN_EVENTS then s
    else Summarised(s, note(|s.events| / 2), |s.events| / 2)
  }

  /** One way or the other, with whatever the model answers. */
  ghost predicate Compresses(strategy: P.Strategy, s: Session, r: Session) {
    || (exists summarize: string -> Option<string> :: Compressed(strategy, summarize, s) == Some(r))
    || (exists note: nat -> string :: ForceCompressed(note, s) == r)
  }

  /** A compression of more than four events keeps the state and lowers the number of events. */
  lemma Shrinks(strategy: P.Strategy, s: Session, r: Session)
    requires Compresses(strategy, s, r) && FromEvents(s) && |s.events| > MIN_EVENTS
    ensures r.state == s.state && FromEvents(r) && |r.events| < |s.events|
  {
    if summarize: string -> Option<string> :| Compressed(strategy, summarize, s) == Some(r) {
      CompressShrinks(strategy, summarize, s);
    } else {
      var note: nat -> string :| ForceCompressed(note, s) == r;
      SummarisedState(s, note(|s.events| / 2), |s.events| / 2);
    }
  }

  lemma CompressShrinks(strategy: P.Strategy, summarize: string -> Option<string>, s: Session)
    requires FromEvents(s) && |s.events| > MIN_EVENTS && Compressed(strategy, summarize, s).Some?
    ensures var r := Compressed(strategy, summarize, s).value;
            r.state == s.state && FromEvents(r) && |r.events| < |s.events|
  {
    var ms := PrunedMessages(strategy, s);
    if |ms| < |Contents(s.events)| {
      NoDelta(s.state, ms);
    } else {
      var keepFrom := |s.events| * 75 / 100;
      SummarisedState(s, summarize(OldText(s.events[..keepFrom])).value, keepFrom);
    }
  }

  /** A session that is not done is compressed. */
  ghost predicate Round(strategy: P.Strategy, s: Session, r: Session) {
    Compresses(strategy, s, r) && |s.events| > MIN_EVENTS
  }

  /** Every session of the list is a compression of the one before, which was not done. */
  ghost predicate Rounds(strategy: P.Strategy, run: seq<Session>) {
    forall i, j :: 0 <= i && j == i + 1 && j < |run| ==> Round(strategy, run[i], run[j])
  }

  /** So compressing again and again comes to an end, in at most as many rounds as there were
      events, with the state the session began with. */
  lemma {:induction false} RoundsEnd(strategy: P.Strategy, run: seq<Session>)
    requires run != [] && FromEvents(run[0]) && Rounds(strategy, run)
    ensures var last := run[|run| - 1];
            last.state == run[0].state && FromEvents(last)
            && |last.events| + |run| - 1 <= |run[0].events|
  {
    var n := |run| - 1;
    if n > 0 {
      RoundsEnd(strategy, run[..n]);
      Shrinks(strategy, run[n - 1], run[n]);
    }
  }

  /** It ends at four events or fewer: exactly then no forced compression goes on. */
  lemma RoundsStop(strategy: P.Strategy, run: seq<Session>)
    requires run != [] && Rounds(strategy, run)
    ensures var last := run[|run| - 1];
            (forall note: nat -> string :: !Rounds(strategy, run + [ForceCompressed(note, last)])) <==>
            |last.events| <= MIN_EVENTS
  {
    var n := |run| - 1;
    forall note: nat -> string
      ensures Rounds(strategy, run + [ForceCompressed(note, run[n])]) <==> |run[n].events| > MIN_EVENTS
    {
      OneRoundMore(strategy, run, note);
    }
    if |run[n].events| > MIN_EVENTS {
      var note: nat -> string := _ => "";
      assert Rounds(strategy, run + [ForceCompressed(note, run[n])]);
    }
  }

  lemma OneRoundMore(strategy: P.Strategy, run: seq<Session>, note: nat -> string)
    requires run != [] && Rounds(strategy, run)
    ensures var last := run[|run| - 1];
            Rounds(strategy, run + [ForceCompressed(note, last)]) <==> |last.events| > MIN_EVENTS
  {
    var n := |run| - 1;
    var more := run + [ForceCompressed(note, run[n])];
    assert more[n] == run[n] && more[n + 1] == ForceCompressed(note, run[n]);
    forall i | 0 <= i <= n
      ensures Round(strategy, more[i], more[i + 1]) <==> i < n || |run[n].events| > MIN_EVENTS
    {
      if i < n { assert more[i] == run[i] && more[i + 1] == run[i + 1]; } else { ForcedRound(strategy, run[n], note); }
    }
  }

  lemma ForcedRound(strategy: P.Strategy, s: Session, note: nat -> string)
    ensures Round(strategy, s, ForceCompressed(note, s)) <==> |s.events| > MIN_EVENTS
  {
  }

  // ---------------------------------------------------------------- what the new session says

  /** The note or the summary comes first, said by the model in the system's name, and says nothing
      of the state. */
  predicate IsNote(e: Event, text: string) {
    && e.author == "system" && e.delta == map[]
    && e.content == Some(P.Message(P.Model, [P.Part(text, None)]))
  }

  /** A forced compression drops exactly the older half and puts a note in its place. */
  lemma ForcedKeepsNewest(note: nat -> string, s: Session)
    requires |s.events| > MIN_EVENTS
    ensures var r, n := ForceCompressed(note, s), |s.events|;
            && |r.events| == 1 + n - n / 2
            && IsNote(r.events[0], note(n / 2)) && r.events[1..] == s.events[n / 2..]
  {
  }

  /** When pruning was not enough, the model is asked about the text of exactly the events that go,
      the older three quarters, and its answer takes their place. */
  lemma SummaryOfDropped(strategy: P.Strategy, summarize: string -> Option<string>, s: Session)
    requires |s.events| > MIN_EVENTS && |PrunedMessages(strategy, s)| >= |Contents(s.events)|
    ensures var gone := |s.events| * 75 / 100;
            var answer, r := summarize(Unlines(TextsOf(s.events[..gone]))), Compressed(strategy, summarize, s);
            && (r.None? <==> answer.None?)
            && (r.Some? ==>
                  && |r.value.events| == 1 + |s.events| - gone
                  && IsNote(r.value.events[0], answer.value) && r.value.events[1..] == s.events[gone..])
  {
    OldTextIsLines(s.events[..|s.events| * 75 / 100]);
  }

  /** The texts of all parts that have one, in order. */
  function TextsOf(events: seq<Event>): seq<string> {
    if events == [] then []
    else
      var last := events[|events| - 1];
      TextsOf(events[..|events| - 1])
      + if last.content.None? then [] else PartTexts(last.content.value.parts)
  }

  function PartTexts(ps: seq<P.Part>): seq<string> {
    if ps == [] then []
    else PartTexts(ps[..|ps| - 1]) + if ps[|ps| - 1].text != [] then [ps[|ps| - 1].text] else []
  }

  lemma {:induction false} PartsTextIsLines(ps: seq<P.Part>)
    ensures PartsText(ps) == Unlines(PartTexts(ps))
  {
    if ps != [] {
      var front, last := PartTexts(ps[..|ps| - 1]), ps[|ps| - 1].text;
      PartsTextIsLines(ps[..|ps| - 1]);
      if last != [] { UnlinesAppend(front, last); } else { assert front + [] == front; }
    }
  }

  /** The old text is their texts, a line each. */
  lemma {:induction false} OldTextIsLines(events: seq<Event>)
    ensures OldText(events) == Unlines(TextsOf(events))
  {
    if events != [] {
      var front, last := TextsOf(events[..|events| - 1]), events[|events| - 1];
      OldTextIsLines(events[..|events| - 1]);
      if last.content.Some? {
        PartsTextIsLines(last.content.value.parts);
        UnlinesJoin(front, PartTexts(last.content.value.parts));
      } else {
        assert front + [] == front;
      }
    }
  }

  lemma {:induction false} UnlinesJoin(a: seq<string>, b: seq<string>)
    ensures Unlines(a + b) == Unlines(a) + Unlines(b)
    decreases |b|
  {
    if b == [] {
      assert a + b == a;
    } else {
      var n := |b| - 1;
      UnlinesJoin(a, b[..n]);
      UnlinesAppend(a + b[..n], b[n]);
      UnlinesAppend(b[..n], b[n]);
      assert a + b[..n] + [b[n]] == a + b && b[..n] + [b[n]] == b;
      Regroup(Unlines(a), Unlines(b[..n]), b[n] + ['\n']);
    }
  }

  lemma {:induction false} PrunedContents(ms: seq<P.Message>)
    ensures Contents(PrunedEvents(ms)) == ms
  {
    if ms != [] {
      PrunedContents(ms[..|ms| - 1]);
      assert PrunedEvents(ms)[..|ms| - 1] == PrunedEvents(ms[..|ms| - 1]);
      assert ms == ms[..|ms| - 1] + [ms[|ms| - 1]];
    }
  }

  /** The text of all parts of the events. */
  function PartsLength(ps: seq<P.Part>): nat { if ps == [] then 0 else PartsLength(ps[1..]) + |ps[0].text| }

  function TextLength(events: seq<Event>): nat {
    if events == [] then 0
    else TextLength(events[1..]) + if events[0].content.None? then 0 else PartsLength(events[0].content.value.parts)
  }

  function PartCount(events: seq<Event>): nat {
    if events == [] then 0
    else PartCount(events[1..]) + if events[0].content.None? then 0 else |events[0].content.value.parts|
  }

  lemma {:induction false} TextTokensFirst(ps: seq<P.Part>)
    requires ps != []
    ensures TextTokens(ps) == |ps[0].text| / 4 + TextTokens(ps[1..])
  {
    if |ps| > 1 {
      TextTokensFirst(ps[..|ps| - 1]);
      assert ps[..|ps| - 1][1..] == ps[1..][..|ps| - 2];
    } else {
      assert ps[..0] == [] && ps[1..] == [];
    }
  }

  lemma {:induction false} PartsEstimate(ps: seq<P.Part>)
    ensures 4 * TextTokens(ps) <= PartsLength(ps) <= 4 * TextTokens(ps) + 3 * |ps|
  {
    if ps != [] {
      PartsEstimate(ps[1..]);
      TextTokensFirst(ps);
    }
  }

  lemma {:induction false} SessionTokensFirst(events: seq<Event>)
    requires events != []
    ensures SessionTokens(events) ==
            (if events[0].content.None? then 0 else TextTokens(events[0].content.value.parts))
            + SessionTokens(events[1..])
  {
    if |events| > 1 {
      SessionTokensFirst(events[..|events| - 1]);
      assert events[..|events| - 1][1..] == events[1..][..|events| - 2];
    } else {
      assert events[..0] == [] && events[1..] == [];
    }
  }

  /** The size of a session is estimated at a quarter of its text, rounded down part by part. */
  lemma {:induction false} SessionEstimate(events: seq<Event>)
    ensures 4 * SessionTokens(events) <= TextLength(events) <= 4 * SessionTokens(events) + 3 * PartCount(events)
  {
    if events != [] {
      SessionEstimate(events[1..]);
      SessionTokensFirst(events);
      if events[0].content.Some? { PartsEstimate(events[0].content.value.parts); }
    }
  }

  /** When pruning was enough, the new session fits seven tenths of the estimate, but for the
      protected messages and the rounding. */
  lemma PrunedFits(strategy: P.Strategy, summarize: string -> Option<string>, s: Session, r: Session)
    requires Compressed(strategy, summarize, s) == Some(r) && |s.events| > MIN_EVENTS
    requires |PrunedMessages(strategy, s)| < |Contents(s.events)|
    ensures var target := SessionTokens(s.events) * 7 / 10;
            P.Tokens(Contents(r.events)) <=
            target + P.ProtectedTokens(Contents(s.events), strategy.keepRecent, 0) + 3 * |r.events| / 4
  {
    PrunedContents(PrunedMessages(strategy, s));
    P.PruneFits(strategy, Contents(s.events), SessionTokens(s.events) * 70 / 100);
    assert SessionTokens(s.events) * 70 / 100 == SessionTokens(s.events) * 7 / 10;
  }

  /** When pruning was enough, the messages of the new session are an in-order part of the old
      ones, each as it was or with its tool results trimmed or cleared, the last model messages
      among them. Each event has one message, and none says anything of the state. */
  lemma PrunedKeeps(strategy: P.Strategy, summarize: string -> Option<string>, s: Session, r: Session)
      returns (indices: seq<nat>)
    requires Compressed(strategy, summarize, s) == Some(r) && |s.events| > MIN_EVENTS
    requires |PrunedMessages(strategy, s)| < |Contents(s.events)|
    ensures P.PrunedTo(strategy, Contents(s.events), Contents(r.events), indices)
    ensures |Contents(r.events)| == |r.events| && r.state == s.state
  {
    PrunedContents(PrunedMessages(strategy, s));
    NoDelta(s.state, PrunedMessages(strategy, s));
    indices := P.PruneKeeps(strategy, Contents(s.events), SessionTokens(s.events) * 70 / 100);
  }
}
