/** The chat-completion stream decoder and its reassembly of indexed tool calls. */
module OpenAiStream {
  import opened Common
  import opened Yields

  // ---------------------------------------------------------------- data model

  datatype Args = NoArgs | Args(json: string)

  datatype Usage = Usage(prompt: int, completion: int, total: int)

  /** A piece of the tool call with this index; empty members are absent. (The program indexes
      a slice with it, so a negative index would stop it with a panic.) */
  datatype CallDelta = CallDelta(index: nat, id: string, name: string, arguments: string)

  datatype Choice = Choice(text: string, toolCalls: seq<CallDelta>, finishReason: string)

  /** One line of the stream: no data or none that unmarshals, the end mark, or a chunk. */
  datatype Line = Skipped | Done | Chunk(usage: Option<Usage>, choice: Option<Choice>)

  datatype Call = Call(id: string, name: string, args: Args)

  datatype Item =
    | TextItem(text: string)
    | CallsItem(calls: seq<Call>)
    | Final(finishReason: string, usage: Option<Usage>)
    | Failure(readError: Option<string>)  // without one: the stream ended prematurely

  predicate Terminal(x: Item) { x.Final? || x.Failure? }

  // ---------------------------------------------------------------- pending calls

  datatype Pending = Pending(id: string, name: string, args: string)

  const EMPTY := Pending("", "", "")

  function Grown(ps: seq<Pending>, n: nat): (r: seq<Pending>)
    ensures |r| == if |ps| < n then n else |ps|
    ensures forall i :: 0 <= i < |r| ==> r[i] == if i < |ps| then ps[i] else EMPTY
    decreases n - |ps|
  {
    if |ps| < n then Grown(ps + [EMPTY], n) else ps
  }

  function Merged(p: Pending, tc: CallDelta): Pending {
    Pending(if tc.id != "" then tc.id else p.id, if tc.name != "" then tc.name else p.name, p.args + tc.arguments)
  }

  function Applied(ps: seq<Pending>, tc: CallDelta): seq<Pending>
  {
    var grown := Grown(ps, tc.index + 1);
    grown[tc.index := Merged(grown[tc.index], tc)]
  }

  function AppliedAll(ps: seq<Pending>, tcs: seq<CallDelta>): seq<Pending>
  {
    Fold(Applied, ps, tcs)
  }

  function CallOf(parse: string -> Args, p: Pending): Call {
    Call(p.id, p.name, if p.args == "" then NoArgs else parse(p.args))
  }

  function Emitted(parse: string -> Args, ps: seq<Pending>): (r: seq<Call>)
    ensures |r| == |ps|
  {
    if ps == [] then [] else Emitted(parse, ps[..|ps| - 1]) + [CallOf(parse, ps[|ps| - 1])]
  }

  // ---------------------------------------------------------------- the decoder

  datatype Decoder = Decoder(pending: seq<Pending>, usage: Option<Usage>)

  const START := Decoder([], None)

  datatype Stepped = Stepped(items: seq<Item>, next: Decoder, last: bool)

  function StepChoice(parse: string -> Args, d: Decoder, c: Choice): Stepped
  {
    var text := if c.text != "" then [TextItem(c.text)] else [];
    var d' := d.(pending := AppliedAll(d.pending, c.toolCalls));
    if c.finishReason == "" then Stepped(text, d', false)
    else Stepped(text + (if d'.pending != [] then [CallsItem(Emitted(parse, d'.pending))] else [])
                 + [Final(c.finishReason, d'.usage)], d', true)
  }

  function Step(parse: string -> Args, d: Decoder, l: Line): Stepped
  {
    match l
    case Skipped => Stepped([], d, false)
    case Done => Stepped([Failure(None)], d, true)
    case Chunk(usage, choice) =>
      var d' := if usage.Some? then d.(usage := usage) else d;
      match choice
      case None => Stepped([], d', false)
      case Some(c) => StepChoice(parse, d', c)
  }

  /** Everything the decoder yields to a consumer that never stops. */
  function Items(parse: string -> Args, d: Decoder, lines: seq<Line>, readError: Option<string>): seq<Item>
    decreases |lines|
  {
    if lines == [] then [Failure(readError)]
    else
      var s := Step(parse, d, lines[0]);
      s.items + if s.last then [] else Items(parse, s.next, lines[1..], readError)
  }

  /** The list is extended up to a delta's index, then the delta is merged in. */
  method ApplyCall(ps: seq<Pending>, tc: CallDelta) returns (pending: seq<Pending>)
    ensures pending == Applied(ps, tc)
  {
    pending := ps;
    while |pending| <= tc.index
      invariant Grown(pending, tc.index + 1) == Grown(ps, tc.index + 1)
      decreases tc.index - |pending|
    {
      pending := pending + [EMPTY];
    }
    var p := pending[tc.index];
    if tc.id != "" {
      p := p.(id := tc.id);
    }
    if tc.name != "" {
      p := p.(name := tc.name);
    }
    if tc.arguments != "" {
      p := p.(args := p.args + tc.arguments);
    }
    assert p.args == pending[tc.index].args + tc.arguments;
    pending := pending[tc.index := p];
  }

  /** The loop over a chunk's tool calls. */
  method ApplyCalls(ps: seq<Pending>, tcs: seq<CallDelta>) returns (pending: seq<Pending>)
    ensures pending == AppliedAll(ps, tcs)
  {
    pending := ps;
    for k := 0 to |tcs|
      invariant pending == Fold(Applied, ps, tcs[..k])
    {
      assert tcs[..k + 1][..k] == tcs[..k];
      pending := ApplyCall(pending, tcs[k]);
    }
    assert tcs[..|tcs|] == tcs;
  }

  method EmitCalls(parse: string -> Args, ps: seq<Pending>) returns (calls: seq<Call>)
    ensures calls == Emitted(parse, ps)
  {
    calls := [];
    for k := 0 to |ps|
      invariant calls == Emitted(parse, ps[..k])
    {
      var args := NoArgs;
      if ps[k].args != "" {
        args := parse(ps[k].args);
      }
      calls := calls + [Call(ps[k].id, ps[k].name, args)];
      assert ps[..k + 1][..k] == ps[..k];
    }
    assert ps[..|ps|] == ps;
  }

  /** What follows the text of a chunk. */
  ghost function AfterText(parse: string -> Args, d: Decoder, c: Choice, rest: seq<Line>,
                           readError: Option<string>): seq<Item>
  {
    var pending := AppliedAll(d.pending, c.toolCalls);
    if c.finishReason == "" then Items(parse, d.(pending := pending), rest, readError)
    else (if pending != [] then [CallsItem(Emitted(parse, pending))] else []) + [Final(c.finishReason, d.usage)]
  }

  function WithUsage(d: Decoder, usage: Option<Usage>): Decoder {
    if usage.Some? then d.(usage := usage) else d
  }

  function TextItems(c: Choice): seq<Item> { if c.text != "" then [TextItem(c.text)] else [] }

  lemma ItemsStep(parse: string -> Args, d: Decoder, l: Line, rest: seq<Line>, readError: Option<string>)
    ensures var s := Step(parse, d, l);
            Items(parse, d, [l] + rest, readError) ==
            s.items + if s.last then [] else Items(parse, s.next, rest, readError)
  {
    assert ([l] + rest)[1..] == rest;
  }

  lemma ChunkItems(parse: string -> Args, d: Decoder, usage: Option<Usage>, c: Choice, rest: seq<Line>,
                   readError: Option<string>)
    ensures Items(parse, d, [Chunk(usage, Some(c))] + rest, readError) ==
            TextItems(c) + AfterText(parse, WithUsage(d, usage), c, rest, readError)
  {
    ItemsStep(parse, d, Chunk(usage, Some(c)), rest, readError);
  }

  lemma QuietLine(parse: string -> Args, d: Decoder, l: Line, rest: seq<Line>, readError: Option<string>)
    ensures l.Skipped? ==> Items(parse, d, [l] + rest, readError) == Items(parse, d, rest, readError)
    ensures l.Done? ==> Items(parse, d, [l] + rest, readError) == [Failure(None)]
    ensures l.Chunk? && l.choice.None? ==>
              Items(parse, d, [l] + rest, readError) == Items(parse, WithUsage(d, l.usage), rest, readError)
  {
    ItemsStep(parse, d, l, rest, readError);
  }

  /** What the consumer will have in the end. */
  ghost function Reaches(parse: string -> Args, d: Decoder, lines: seq<Line>, readError: Option<string>,
                         go: seq<Item> -> bool, out: seq<Item>): seq<Item> {
    Delivered(go, out, Items(parse, d, lines, readError))
  }

  lemma Ended(go: seq<Item> -> bool, out: seq<Item>, last: Item)
    ensures Delivered(go, out, [last]) == out + [last]
  {
    OneMore(go, out, last, []);
    assert [last] + [] == [last];
  }

  /** One turn of the loop: what reaches the consumer in the end stays the same. */
  method ReadLine(parse: string -> Args, d0: Decoder, line: Line, ghost rest: seq<Line>,
                  ghost readError: Option<string>, go: seq<Item> -> bool, out0: seq<Item>)
      returns (d: Decoder, out: seq<Item>, stopped: bool)
    ensures Reaches(parse, d0, [line] + rest, readError, go, out0) ==
            if stopped then out else Reaches(parse, d, rest, readError, go, out)
  {
    d, out, stopped := d0, out0, false;
    QuietLine(parse, d0, line, rest, readError);
    match line {
      case Skipped =>
      case Done =>
        Ended(go, out, Failure(None));
        return d, out + [Failure(None)], true;
      case Chunk(usage, choice) =>
        if usage.Some? {
          d := d.(usage := usage);
        }
        if choice.Some? {
          ChunkItems(parse, d0, usage, choice.value, rest, readError);
          d, out, stopped := ReadChoice(parse, d, choice.value, rest, readError, go, out);
        }
    }
  }

  /** processSSE: yields item after item until the consumer stops. */
  method ProcessSSE(parse: string -> Args, lines: seq<Line>, readError: Option<string>, go: seq<Item> -> bool)
      returns (out: seq<Item>)
    ensures out == Delivered(go, [], Items(parse, START, lines, readError))
  {
    var d := START;
    ghost var target := Reaches(parse, START, lines, readError, go, []);
    out := [];
    assert lines[0..] == lines;
    var i := 0;
    while i < |lines|
      invariant 0 <= i <= |lines|
      invariant target == Reaches(parse, d, lines[i..], readError, go, out)
    {
      assert lines[i..] == [lines[i]] + lines[i + 1..];
      var stopped;
      d, out, stopped := ReadLine(parse, d, lines[i], lines[i + 1..], readError, go, out);
      if stopped {
        return;
      }
      i := i + 1;
    }
    assert lines[i..] == [];
    Ended(go, out, Failure(readError));
    out := out + [Failure(readError)];
  }

  /** The part of the loop that reads a chunk's first choice. */
  method ReadChoice(parse: string -> Args, d0: Decoder, c: Choice, ghost rest: seq<Line>,
                    ghost readError: Option<string>, go: seq<Item> -> bool, out0: seq<Item>)
      returns (d: Decoder, out: seq<Item>, stopped: bool)
    ensures var target := Delivered(go, out0, TextItems(c) + AfterText(parse, d0, c, rest, readError));
            target == if stopped then out else Delivered(go, out, Items(parse, d, rest, readError))
  {
    d, out := d0, out0;
    ghost var after := AfterText(parse, d0, c, rest, readError);
    if c.text != "" {
      OneMore(go, out, TextItem(c.text), after);
      out := out + [TextItem(c.text)];
      if !go(out) {
        return d, out, true;
      }
    } else {
      assert TextItems(c) + after == after;
    }
    var pending := ApplyCalls(d.pending, c.toolCalls);
    d := d.(pending := pending);
    if c.finishReason == "" {
      return d, out, false;
    }
    if d.pending != [] {
      var calls := EmitCalls(parse, d.pending);
      OneMore(go, out, CallsItem(calls), [Final(c.finishReason, d.usage)]);
      out := out + [CallsItem(calls)];
      if !go(out) {
        return d, out, true;
      }
    }
    out := out + [Final(c.finishReason, d.usage)];
    return d, out, true;
  }

  // ---------------------------------------------------------------- reassembly

  /** The fragments bearing an index, in arrival order, end to end. */
  function ArgumentsOf(tcs: seq<CallDelta>, index: int): string {
    if tcs == [] then ""
    else
      var n := |tcs| - 1;
      ArgumentsOf(tcs[..n], index) + if tcs[n].index == index then tcs[n].arguments else ""
  }

  /** The last id, and the last name, that came with the index. */
  function IdOf(tcs: seq<CallDelta>, index: int): string {
    if tcs == [] then ""
    else
      var n := |tcs| - 1;
      if tcs[n].index == index && tcs[n].id != "" then tcs[n].id else IdOf(tcs[..n], index)
  }

  function NameOf(tcs: seq<CallDelta>, index: int): string {
    if tcs == [] then ""
    else
      var n := |tcs| - 1;
      if tcs[n].index == index && tcs[n].name != "" then tcs[n].name else NameOf(tcs[..n], index)
  }

  /** One more than the largest index. */
  function Count(tcs: seq<CallDelta>): (n: nat)
  {
    if tcs == [] then 0
    else
      var m := Count(tcs[..|tcs| - 1]);
      if tcs[|tcs| - 1].index < m then m else tcs[|tcs| - 1].index + 1
  }

  function At(ps: seq<Pending>, i: nat): Pending { if i < |ps| then ps[i] else EMPTY }

  lemma AppliedAt(ps: seq<Pending>, tc: CallDelta, i: nat)
    ensures |Applied(ps, tc)| == if tc.index < |ps| then |ps| else tc.index + 1
    ensures At(Applied(ps, tc), i) == if i == tc.index then Merged(At(ps, i), tc) else At(ps, i)
  {
  }

  lemma {:induction false} ReassemblesAt(tcs: seq<CallDelta>, i: nat)
    ensures |AppliedAll([], tcs)| == Count(tcs)
    ensures At(AppliedAll([], tcs), i) == Pending(IdOf(tcs, i), NameOf(tcs, i), ArgumentsOf(tcs, i))
  {
    if tcs != [] {
      var n := |tcs| - 1;
      ReassemblesAt(tcs[..n], i);
      AppliedAt(AppliedAll([], tcs[..n]), tcs[n], i);
    }
  }

  /** Whatever the interleaving, the call at an index is the arrival-order concatenation of
      the fragments bearing it, under the last id and name that came with it. */
  lemma Reassembles(tcs: seq<CallDelta>)
    ensures var ps := AppliedAll([], tcs);
            && |ps| == Count(tcs)
            && forall i :: 0 <= i < |ps| ==> ps[i] == Pending(IdOf(tcs, i), NameOf(tcs, i), ArgumentsOf(tcs, i))
  {
    ReassemblesAt(tcs, 0);
    var ps := AppliedAll([], tcs);
    forall i | 0 <= i < |ps| ensures ps[i] == Pending(IdOf(tcs, i), NameOf(tcs, i), ArgumentsOf(tcs, i)) {
      ReassemblesAt(tcs, i);
    }
  }

  /** The deltas of one index, in arrival order. */
  function Only(tcs: seq<CallDelta>, index: int): seq<CallDelta> {
    if tcs == [] then []
    else
      var n := |tcs| - 1;
      Only(tcs[..n], index) + if tcs[n].index == index then [tcs[n]] else []
  }

  /** What is known at an index is the same before the last delta and after it. */
  ghost predicate SameKnown(a: seq<CallDelta>, b: seq<CallDelta>, index: int) {
    && ArgumentsOf(a, index) == ArgumentsOf(b, index)
    && IdOf(a, index) == IdOf(b, index)
    && NameOf(a, index) == NameOf(b, index)
  }

  lemma SameAfter(a: seq<CallDelta>, b: seq<CallDelta>, last: CallDelta, index: int)
    requires SameKnown(a, b, index)
    ensures last.index == index ==> SameKnown(a + [last], b + [last], index)
    ensures last.index != index ==> SameKnown(a + [last], b, index)
  {
    assert (a + [last])[..|a|] == a && (b + [last])[..|b|] == b;
  }

  lemma {:induction false} OnlyDecides(tcs: seq<CallDelta>, index: int)
    ensures SameKnown(tcs, Only(tcs, index), index)
  {
    if tcs != [] {
      var n := |tcs| - 1;
      OnlyDecides(tcs[..n], index);
      SameAfter(tcs[..n], Only(tcs[..n], index), tcs[n], index);
      assert tcs == tcs[..n] + [tcs[n]];
      if tcs[n].index != index {
        assert Only(tcs, index) == Only(tcs[..n], index);
      }
    }
  }

  lemma {:induction false} OnlyCounts(tcs: seq<CallDelta>, index: int)
    ensures Only(tcs, index) != [] ==> index < Count(tcs)
    ensures tcs != [] && index == Count(tcs) - 1 ==> Only(tcs, index) != []
  {
    if tcs != [] {
      var front := tcs[..|tcs| - 1];
      OnlyCounts(front, index);
      assert Only(front, index) == [] || Only(tcs, index) != [];
      assert front == [] ==> Count(front) == 0;
    }
  }

  lemma SameAt(a: seq<CallDelta>, b: seq<CallDelta>, i: int)
    requires Only(a, i) == Only(b, i)
    ensures ArgumentsOf(a, i) == ArgumentsOf(b, i) && IdOf(a, i) == IdOf(b, i) && NameOf(a, i) == NameOf(b, i)
    ensures a != [] && i == Count(a) - 1 ==> Count(a) <= Count(b)
  {
    OnlyDecides(a, i);
    OnlyDecides(b, i);
    OnlyCounts(a, i);
    OnlyCounts(b, i);
  }

  lemma SameCount(a: seq<CallDelta>, b: seq<CallDelta>)
    requires Only(a, Count(a) - 1) == Only(b, Count(a) - 1)
    ensures Count(a) <= Count(b)
  {
    SameAt(a, b, Count(a) - 1);
  }

  /** Two streams whose deltas agree index by index give the same calls, in whatever order
      the indices are mixed. */
  lemma InterleavingIrrelevant(a: seq<CallDelta>, b: seq<CallDelta>)
    requires forall i: int :: Only(a, i) == Only(b, i)
    ensures AppliedAll([], a) == AppliedAll([], b)
  {
    Reassembles(a);
    Reassembles(b);
    SameCount(a, b);
    SameCount(b, a);
    forall i | 0 <= i < Count(a) ensures AppliedAll([], a)[i] == AppliedAll([], b)[i] {
      SameAt(a, b, i);
    }
  }

  // ---------------------------------------------------------------- whole streams

  /** The decoder reads on after this line. */
  predicate GoesOn(l: Line) {
    !l.Done? && (l.Chunk? && l.choice.Some? ==> l.choice.value.finishReason == "")
  }

  function DeltasOf(lines: seq<Line>): seq<CallDelta> {
    if lines == [] then []
    else (if lines[0].Chunk? && lines[0].choice.Some? then lines[0].choice.value.toolCalls else [])
         + DeltasOf(lines[1..])
  }

  function TextsOf(lines: seq<Line>): seq<Item> {
    if lines == [] then []
    else (if lines[0].Chunk? && lines[0].choice.Some? && lines[0].choice.value.text != ""
          then [TextItem(lines[0].choice.value.text)] else [])
         + TextsOf(lines[1..])
  }

  /** The usage last reported, or the given one. */
  function UsageAfter(u: Option<Usage>, lines: seq<Line>): Option<Usage>
    decreases |lines|
  {
    if lines == [] then u
    else UsageAfter(if lines[0].Chunk? && lines[0].usage.Some? then lines[0].usage else u, lines[1..])
  }

  lemma FirstLine(l: Line, more: seq<Line>, u: Option<Usage>)
    ensures TextsOf([l] + more) == TextsOf([l]) + TextsOf(more)
    ensures DeltasOf([l] + more) == DeltasOf([l]) + DeltasOf(more)
    ensures UsageAfter(u, [l] + more) == UsageAfter(UsageAfter(u, [l]), more)
  {
    assert ([l] + more)[1..] == more && [l][1..] == [];
  }

  /** The decoder after lines that do not end the stream. */
  function After(d: Decoder, lines: seq<Line>): Decoder {
    Decoder(AppliedAll(d.pending, DeltasOf(lines)), UsageAfter(d.usage, lines))
  }

  lemma LineStep(parse: string -> Args, d: Decoder, l: Line)
    requires GoesOn(l)
    ensures Step(parse, d, l) == Stepped(TextsOf([l]), After(d, [l]), false)
  {
    assert [l][1..] == [];
    var own := if l.Chunk? && l.choice.Some? then l.choice.value.toolCalls else [];
    var texts := if l.Chunk? && l.choice.Some? then TextItems(l.choice.value) else [];
    assert DeltasOf([l]) == own + DeltasOf([]) == own;
    assert TextsOf([l]) == texts + TextsOf([]) == texts;
    var u := if l.Chunk? && l.usage.Some? then l.usage else d.usage;
    assert UsageAfter(d.usage, [l]) == UsageAfter(u, []) == u;
    assert own == [] ==> AppliedAll(d.pending, own) == d.pending;
  }

  lemma AfterMore(d: Decoder, l: Line, more: seq<Line>)
    ensures After(After(d, [l]), more) == After(d, [l] + more)
  {
    FirstLine(l, more, d.usage);
    FoldTwice(Applied, d.pending, DeltasOf([l]), DeltasOf(more));
  }

  /** Reading lines none of which ends the stream. */
  lemma {:induction false} ReadOn(parse: string -> Args, d: Decoder, lines: seq<Line>, rest: seq<Line>,
                                  err: Option<string>)
    requires forall l :: l in lines ==> GoesOn(l)
    ensures Items(parse, d, lines + rest, err) == TextsOf(lines) + Items(parse, After(d, lines), rest, err)
    decreases |lines|
  {
    if lines == [] {
      assert lines + rest == rest;
    } else {
      var l, more := lines[0], lines[1..];
      assert lines == [l] + more && lines + rest == [l] + (more + rest);
      LineStep(parse, d, l);
      ItemsStep(parse, d, l, more + rest, err);
      ReadOn(parse, After(d, [l]), more, rest, err);
      AfterMore(d, l, more);
      FirstLine(l, more, None);
      Regroup(TextsOf([l]), TextsOf(more), Items(parse, After(d, lines), rest, err));
    }
  }

  /** A stream whose first finishing chunk follows chunks that do not finish it yields its
      texts, then its calls if there are any, then one final item, and looks no further. */
  lemma FinishedStream(parse: string -> Args, lines: seq<Line>, usage: Option<Usage>, c: Choice, rest: seq<Line>,
                       err: Option<string>)
    requires (forall l :: l in lines ==> GoesOn(l)) && c.finishReason != ""
    ensures var all := DeltasOf(lines) + c.toolCalls;
            Items(parse, START, lines + ([Chunk(usage, Some(c))] + rest), err) ==
            TextsOf(lines)
            + (TextItems(c)
               + ((if all != [] then [CallsItem(Emitted(parse, AppliedAll([], all)))] else [])
                  + [Final(c.finishReason, if usage.Some? then usage else UsageAfter(None, lines))]))
  {
    var d := After(START, lines);
    var all := DeltasOf(lines) + c.toolCalls;
    ReadOn(parse, START, lines, [Chunk(usage, Some(c))] + rest, err);
    ChunkItems(parse, d, usage, c, rest, err);
    FoldTwice(Applied, [], DeltasOf(lines), c.toolCalls);
    SomeCalls(all);
  }

  /** The call that the deltas of an index make up. */
  function WholeCall(parse: string -> Args, all: seq<CallDelta>, i: nat): Call {
    Call(IdOf(all, i), NameOf(all, i), if ArgumentsOf(all, i) == "" then NoArgs else parse(ArgumentsOf(all, i)))
  }

  lemma {:induction false} EmittedAt(parse: string -> Args, ps: seq<Pending>, i: nat)
    requires i < |ps|
    ensures Emitted(parse, ps)[i] == CallOf(parse, ps[i])
  {
    if i < |ps| - 1 {
      EmittedAt(parse, ps[..|ps| - 1], i);
    }
  }

  lemma EmittedWhole(parse: string -> Args, all: seq<CallDelta>, i: nat)
    requires i < Count(all)
    ensures |Emitted(parse, AppliedAll([], all))| == Count(all)
    ensures Emitted(parse, AppliedAll([], all))[i] == WholeCall(parse, all, i)
  {
    ReassemblesAt(all, i);
    EmittedAt(parse, AppliedAll([], all), i);
  }

  /** So a finished stream yields its texts, then, if it has any deltas, all its calls in one
      item: at each index the last id and name, and the arguments parsed from all fragments of
      that index end to end; then the finish. */
  lemma FinishedReply(parse: string -> Args, lines: seq<Line>, usage: Option<Usage>, c: Choice, rest: seq<Line>,
                      err: Option<string>) returns (calls: seq<Call>)
    requires (forall l :: l in lines ==> GoesOn(l)) && c.finishReason != ""
    ensures var all := DeltasOf(lines) + c.toolCalls;
            && |calls| == Count(all) && (forall i :: 0 <= i < |calls| ==> calls[i] == WholeCall(parse, all, i))
            && Items(parse, START, lines + ([Chunk(usage, Some(c))] + rest), err) ==
               TextsOf(lines)
               + (TextItems(c)
                  + ((if all != [] then [CallsItem(calls)] else [])
                     + [Final(c.finishReason, if usage.Some? then usage else UsageAfter(None, lines))]))
  {
    var all := DeltasOf(lines) + c.toolCalls;
    calls := Emitted(parse, AppliedAll([], all));
    FinishedStream(parse, lines, usage, c, rest, err);
    ReassemblesAt(all, 0);
    forall i | 0 <= i < |calls| ensures calls[i] == WholeCall(parse, all, i) {
      EmittedWhole(parse, all, i);
    }
  }

  /** A stream that breaks off, or just ends, yields its texts and then that failure; the calls
      begun are lost. */
  lemma BrokenStream(parse: string -> Args, lines: seq<Line>, err: Option<string>)
    requires forall l :: l in lines ==> GoesOn(l)
    ensures Items(parse, START, lines, err) == TextsOf(lines) + [Failure(err)]
  {
    ReadOn(parse, START, lines, [], err);
    assert lines + [] == lines;
  }

  /** The end mark before any finish reason is a failure too, whatever comes after it. */
  lemma MarkedStream(parse: string -> Args, lines: seq<Line>, rest: seq<Line>, err: Option<string>)
    requires forall l :: l in lines ==> GoesOn(l)
    ensures Items(parse, START, lines + ([Done] + rest), err) == TextsOf(lines) + [Failure(None)]
  {
    ReadOn(parse, START, lines, [Done] + rest, err);
    QuietLine(parse, After(START, lines), Done, rest, err);
  }

  /** The first line at which the stream ends is a chunk with a finish reason. */
  predicate Finishes(lines: seq<Line>) {
    lines != [] && if GoesOn(lines[0]) then Finishes(lines[1..]) else lines[0].Chunk?
  }

  /** The consumer is told that the turn is complete exactly when a finish reason comes before any
      end mark and before the stream breaks off. */
  lemma {:induction false} CompleteIffFinished(parse: string -> Args, d: Decoder, lines: seq<Line>, err: Option<string>)
    ensures var items := Items(parse, d, lines, err);
            items != [] && (items[|items| - 1].Final? <==> Finishes(lines))
    decreases |lines|
  {
    if lines != [] {
      assert lines == [lines[0]] + lines[1..];
      ItemsStep(parse, d, lines[0], lines[1..], err);
      if GoesOn(lines[0]) {
        LineStep(parse, d, lines[0]);
        CompleteIffFinished(parse, Step(parse, d, lines[0]).next, lines[1..], err);
      }
    }
  }

  lemma SomeCalls(tcs: seq<CallDelta>)
    ensures AppliedAll([], tcs) != [] <==> tcs != []
  {
  }

  /** Every stream yields exactly one terminal item, and it is the last. */
  lemma {:induction false} OneTerminal(parse: string -> Args, d: Decoder, lines: seq<Line>, err: Option<string>)
    ensures EndsOnce(Items(parse, d, lines, err))
    decreases |lines|
  {
    if lines != [] {
      var s := Step(parse, d, lines[0]);
      StepTerminal(parse, d, lines[0]);
      if s.last {
        assert s.items + [] == s.items;
      } else {
        OneTerminal(parse, s.next, lines[1..], err);
        EndsLater(s.items, Items(parse, s.next, lines[1..], err));
      }
    }
  }

  /** The one terminal item is the last. */
  predicate EndsOnce(items: seq<Item>) {
    items != [] && Terminal(items[|items| - 1]) && forall i :: 0 <= i < |items| - 1 ==> !Terminal(items[i])
  }

  lemma EndsLater(before: seq<Item>, items: seq<Item>)
    requires EndsOnce(items) && forall i :: 0 <= i < |before| ==> !Terminal(before[i])
    ensures EndsOnce(before + items)
  {
  }

  lemma StepTerminal(parse: string -> Args, d: Decoder, l: Line)
    ensures var s := Step(parse, d, l);
            && (s.last ==> s.items != [] && Terminal(s.items[|s.items| - 1]))
            && forall i :: 0 <= i < |s.items| - (if s.last then 1 else 0) ==> !Terminal(s.items[i])
  {
  }

  /** What reaches a consumer has a terminal item exactly at its end, unless the consumer
      stopped before it. */
  lemma DeliveredTerminal(parse: string -> Args, lines: seq<Line>, err: Option<string>, go: seq<Item> -> bool)
    ensures var out := Delivered(go, [], Items(parse, START, lines, err));
            && out != []
            && (forall i :: 0 <= i < |out| - 1 ==> !Terminal(out[i]))
            && (Terminal(out[|out| - 1]) || !go(out))
            && (forall n :: 0 < n < |out| ==> go(out[..n]))
  {
    OneTerminal(parse, START, lines, err);
    EndsDelivered(go, Items(parse, START, lines, err));
  }

  lemma EndsDelivered(go: seq<Item> -> bool, items: seq<Item>)
    requires EndsOnce(items)
    ensures var out := Delivered(go, [], items);
            && out != []
            && (forall i :: 0 <= i < |out| - 1 ==> !Terminal(out[i]))
            && (Terminal(out[|out| - 1]) || !go(out))
            && (forall n :: 0 < n < |out| ==> go(out[..n]))
  {
    FromTheStart(go, items);
  }
}
