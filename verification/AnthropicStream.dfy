/** The Messages API stream decoder, against the conversion of the whole reply. */
module AnthropicStream {
  import opened Common
  import opened Yields

  // ---------------------------------------------------------------- data model

  datatype Args = NoArgs | Args(json: string)

  /** A content block of a reply. `input` is the raw JSON of a tool call's arguments. */
  datatype Block = Text(text: string) | ToolUse(id: string, name: string, input: string) | OtherBlock(kind: string)

  datatype Usage = Usage(inputTokens: int, outputTokens: int)

  datatype Message = Message(content: seq<Block>, stopReason: string, usage: Usage)

  datatype Part = TextPart(text: string) | CallPart(id: string, name: string, args: Args)

  datatype Finish = FinishStop | FinishMaxTokens | FinishOther

  datatype Delta = TextDelta(text: string) | JsonDelta(partialJson: string) | OtherDelta

  /** One line of the stream. None stands for a member that does not unmarshal, and
      `Ignored` for a line without data, data that is no event, or an event of another type. */
  datatype Event =
    | BlockStart(block: Option<Block>)
    | BlockDelta(delta: Option<Delta>)
    | BlockStop
    | MessageDelta(stopReason: Option<string>, usage: Option<Usage>)
    | MessageStop
    | ErrorEvent(message: string)
    | Ignored

  datatype Item =
    | Response(parts: seq<Part>, partial: bool)
    | Final(finish: Finish, usage: Option<Usage>)
    | Failure(message: string)

  // ---------------------------------------------------------------- whole replies

  function MapStopReason(reason: string): Finish {
    if reason == "end_turn" || reason == "tool_use" then FinishStop
    else if reason == "max_tokens" then FinishMaxTokens
    else FinishOther
  }

  /** The arguments unmarshalled from a tool call's raw JSON. */
  function ToolArgs(parse: string -> Args, json: string): Args {
    if json == "" then NoArgs else parse(json)
  }

  function ConvertBlock(parse: string -> Args, b: Block): seq<Part> {
    match b
    case Text(t) => [TextPart(t)]
    case ToolUse(id, name, input) => [CallPart(id, name, ToolArgs(parse, input))]
    case OtherBlock(_) => []
  }

  function ConvertBlocks(parse: string -> Args, bs: seq<Block>): seq<Part> {
    if bs == [] then [] else ConvertBlocks(parse, bs[..|bs| - 1]) + ConvertBlock(parse, bs[|bs| - 1])
  }

  method ConvertResponse(parse: string -> Args, m: Message) returns (parts: seq<Part>, finish: Finish)
    ensures parts == ConvertBlocks(parse, m.content) && finish == MapStopReason(m.stopReason)
  {
    parts := [];
    for i := 0 to |m.content|
      invariant parts == ConvertBlocks(parse, m.content[..i])
    {
      assert m.content[..i + 1][..i] == m.content[..i];
      match m.content[i]
      case Text(t) => parts := parts + [TextPart(t)];
      case ToolUse(id, name, input) =>
        var args := NoArgs;
        if input != "" {
          args := parse(input);
        }
        parts := parts + [CallPart(id, name, args)];
      case OtherBlock(_) =>
    }
    assert m.content[..|m.content|] == m.content;
    finish := MapStopReason(m.stopReason);
  }

  // ---------------------------------------------------------------- the decoder

  /** currentBlockType, as far as the decoder looks at it. */
  datatype Kind = NoBlock | ToolUseBlock | AnotherBlock

  /** The variables of processSSE. */
  datatype Decoder = Decoder(blockType: Kind, blockId: string, blockName: string, json: string,
                             usage: Option<Usage>, stopReason: string)

  const START := Decoder(NoBlock, "", "", "", None, "")

  function KindOf(b: Block): Kind { if b.ToolUse? then ToolUseBlock else AnotherBlock }

  function Opened(d: Decoder, b: Block): Decoder {
    d.(blockType := KindOf(b), json := "",
    blockId := if b.ToolUse? then b.id else "", blockName := if b.ToolUse? then b.name else "")
  }

  function Closed(d: Decoder): Decoder {
    d.(blockType := NoBlock, blockId := "", blockName := "", json := "")
  }

  /** What one event makes the decoder yield, the decoder after it, and whether it was the
      last to be looked at. */
  datatype Stepped = Stepped(items: seq<Item>, next: Decoder, last: bool)

  function Step(parse: string -> Args, d: Decoder, e: Event): Stepped {
    match e
    case BlockStart(Some(b)) => Stepped([], Opened(d, b), false)
    case BlockDelta(Some(TextDelta(t))) => Stepped([Response([TextPart(t)], true)], d, false)
    case BlockDelta(Some(JsonDelta(j))) => Stepped([], d.(json := d.json + j), false)
    case BlockStop =>
      Stepped(if d.blockType == ToolUseBlock && d.blockId != ""
              then [Response([CallPart(d.blockId, d.blockName, ToolArgs(parse, d.json))], false)] else [],
              Closed(d), false)
    case MessageDelta(s, u) =>
      Stepped([], d.(stopReason := if s.Some? then s.value else d.stopReason,
                     usage := if u.Some? then u else d.usage), false)
    case MessageStop => Stepped([Final(MapStopReason(d.stopReason), d.usage)], d, true)
    case ErrorEvent(m) => Stepped([Failure(m)], d, true)
    case _ => Stepped([], d, false)
  }

  /** Everything the decoder yields to a consumer that never stops. */
  function Items(parse: string -> Args, d: Decoder, events: seq<Event>, readError: Option<string>): seq<Item>
    decreases |events|
  {
    if events == [] then
      (match readError
       case None => []
       case Some(e) => [Failure(e)])
    else
      var s := Step(parse, d, events[0]);
      s.items + if s.last then [] else Items(parse, s.next, events[1..], readError)
  }

  lemma ItemsStep(parse: string -> Args, d: Decoder, e: Event, rest: seq<Event>, readError: Option<string>)
    ensures var s := Step(parse, d, e);
            && (s.last ==> Items(parse, d, [e] + rest, readError) == s.items)
            && (!s.last ==> Items(parse, d, [e] + rest, readError) == s.items + Items(parse, s.next, rest, readError))
            && (!s.last && s.items == [] ==>
                  Items(parse, d, [e] + rest, readError) == Items(parse, s.next, rest, readError))
  {
    assert ([e] + rest)[1..] == rest;
  }

  /** What one event does to what the consumer receives. */
  lemma StepDelivers(parse: string -> Args, d: Decoder, e: Event, rest: seq<Event>, readError: Option<string>,
                     go: seq<Item> -> bool, out: seq<Item>)
    ensures var s := Step(parse, d, e);
            Delivered(go, out, Items(parse, d, [e] + rest, readError)) ==
            if s.items == [] then Delivered(go, out, Items(parse, s.next, rest, readError))
            else if !s.last && go(out + s.items)
            then Delivered(go, out + s.items, Items(parse, s.next, rest, readError))
            else out + s.items
  {
    var s := Step(parse, d, e);
    ItemsStep(parse, d, e, rest, readError);
    if s.items != [] {
      assert s.items == [s.items[0]];
      OneMore(go, out, s.items[0], if s.last then [] else Items(parse, s.next, rest, readError));
    }
  }

  /** What processSSE does with one event; `stop` when the consumer stopped it or the event
      was the last one. */
  method HandleEvent(parse: string -> Args, d: Decoder, evt: Event, go: seq<Item> -> bool, out: seq<Item>)
      returns (next: Decoder, all: seq<Item>, stop: bool)
    ensures var s := Step(parse, d, evt);
            && all == out + s.items
            && stop == (s.last || (s.items != [] && !go(out + s.items)))
            && (!stop ==> next == s.next)
  {
    next, all, stop := d, out, false;
    match evt {
      case BlockStart(block) =>
        if block.Some? {
          next := next.(blockType := KindOf(block.value), json := "");
          next := next.(blockId := if block.value.ToolUse? then block.value.id else "");
          next := next.(blockName := if block.value.ToolUse? then block.value.name else "");
        }
      case BlockDelta(delta) =>
        if delta.Some? {
          match delta.value {
            case TextDelta(text) =>
              all := out + [Response([TextPart(text)], true)];
              stop := !go(all);
            case JsonDelta(partialJson) => next := next.(json := next.json + partialJson);
            case OtherDelta =>
          }
        }
      case BlockStop =>
        if d.blockType == ToolUseBlock && d.blockId != "" {
          var args := NoArgs;
          if d.json != "" {
            args := parse(d.json);
          }
          all := out + [Response([CallPart(d.blockId, d.blockName, args)], false)];
          if !go(all) {
            return d, all, true;
          }
        }
        next := next.(blockType := NoBlock, blockId := "", blockName := "", json := "");
      case MessageDelta(stopReason, usage) =>
        if stopReason.Some? {
          next := next.(stopReason := stopReason.value);
        }
        if usage.Some? {
          next := next.(usage := usage);
        }
      case MessageStop =>
        return d, out + [Final(MapStopReason(d.stopReason), d.usage)], true;
      case ErrorEvent(message) =>
        return d, out + [Failure(message)], true;
      case Ignored =>
    }
  }

  /** One turn of the loop: what reaches the consumer in the end stays the same. */
  method Advance(parse: string -> Args, d: Decoder, evt: Event, go: seq<Item> -> bool, out: seq<Item>,
                 ghost rest: seq<Event>, ghost readError: Option<string>)
      returns (next: Decoder, all: seq<Item>, stop: bool)
    ensures Reaches(parse, d, [evt] + rest, readError, go, out) ==
            if stop then all else Reaches(parse, next, rest, readError, go, all)
  {
    StepDelivers(parse, d, evt, rest, readError, go, out);
    assert out + [] == out;
    next, all, stop := HandleEvent(parse, d, evt, go, out);
  }

  /** What the consumer will have in the end. */
  ghost function Reaches(parse: string -> Args, d: Decoder, events: seq<Event>, readError: Option<string>,
                         go: seq<Item> -> bool, out: seq<Item>): seq<Item> {
    Delivered(go, out, Items(parse, d, events, readError))
  }

  /** The end of the stream, or of reading it. */
  method Ended(parse: string -> Args, d: Decoder, readError: Option<string>, go: seq<Item> -> bool, out: seq<Item>)
      returns (all: seq<Item>)
    ensures all == Reaches(parse, d, [], readError, go, out)
  {
    ghost var rest := Items(parse, d, [], readError);
    all := out;
    if readError.Some? {
      assert rest == [Failure(readError.value)] && rest[1..] == [];
      all := out + [Failure(readError.value)];
    }
    assert Delivered(go, out, rest) == all;
  }

  /** processSSE: yields item after item until the consumer stops. */
  method ProcessSSE(parse: string -> Args, events: seq<Event>, readError: Option<string>,
                    go: seq<Item> -> bool)
      returns (out: seq<Item>)
    ensures out == Delivered(go, [], Items(parse, START, events, readError))
  {
    var d := START;
    ghost var target := Reaches(parse, START, events, readError, go, []);
    out := [];
    assert events[0..] == events;
    var i := 0;
    while i < |events|
      invariant 0 <= i <= |events|
      invariant target == Reaches(parse, d, events[i..], readError, go, out)
    {
      assert events[i..] == [events[i]] + events[i + 1..];
      var stop;
      d, out, stop := Advance(parse, d, events[i], go, out, events[i + 1..], readError);
      if stop {
        return;
      }
      i := i + 1;
    }
    assert events[i..] == [];
    out := Ended(parse, d, readError, go, out);
  }

  // ---------------------------------------------------------------- well-formed streams

  /** A stretch of a stream: events that carry nothing, or one block between its start and
      its stop, its text or its JSON cut into any fragments with anything ignorable between. */
  datatype Segment = Noise(events: seq<Event>) | Whole(block: Block, inner: seq<Event>)

  predicate IsNoise(e: Event) {
    e == Ignored || e == BlockStart(None) || e == BlockDelta(None) || e == BlockDelta(Some(OtherDelta))
  }

  predicate Fragment(b: Block, e: Event) {
    || IsNoise(e)
    || (b.Text? && e.BlockDelta? && e.delta.value.TextDelta?)
    || (b.ToolUse? && e.BlockDelta? && e.delta.value.JsonDelta?)
  }

  function Piece(e: Event): string {
    match e
    case BlockDelta(Some(TextDelta(t))) => t
    case BlockDelta(Some(JsonDelta(j))) => j
    case _ => ""
  }

  /** The text or the JSON that the fragments of a block carry. */
  function Carried(inner: seq<Event>): string {
    if inner == [] then "" else Piece(inner[0]) + Carried(inner[1..])
  }

  ghost predicate WellFormed(s: Segment) {
    match s
    case Noise(es) => forall i :: 0 <= i < |es| ==> IsNoise(es[i])
    case Whole(b, inner) => forall i :: 0 <= i < |inner| ==> Fragment(b, inner[i])
  }

  /** The fragments of a text carry it, and those of a tool call its input, unless none
      arrives. */
  predicate Carries(s: Segment) {
    s.Whole? ==>
      match s.block
      case Text(t) => t == Carried(s.inner)
      case ToolUse(_, _, input) => Carried(s.inner) == "" || Carried(s.inner) == input
      case OtherBlock(_) => true
  }

  /** A start carries the block's type, id and name; a text arrives only in its deltas. */
  function StartOf(b: Block): Block {
    match b
    case Text(_) => Text("")
    case ToolUse(id, name, _) => ToolUse(id, name, "{}")
    case OtherBlock(_) => b
  }

  function EventsOf(s: Segment): seq<Event> {
    match s
    case Noise(es) => es
    case Whole(b, inner) => [BlockStart(Some(StartOf(b)))] + inner + [BlockStop]
  }

  function Flatten(segs: seq<Segment>): seq<Event> {
    if segs == [] then [] else EventsOf(segs[0]) + Flatten(segs[1..])
  }

  function BlocksOf(segs: seq<Segment>): seq<Block> {
    if segs == [] then [] else (if segs[0].Whole? then [segs[0].block] else []) + BlocksOf(segs[1..])
  }

  /** The stream of a message: its segments, the message delta, and the stop. */
  function StreamOf(segs: seq<Segment>, m: Message, trailing: seq<Event>): seq<Event> {
    Flatten(segs) + ([MessageDelta(Some(m.stopReason), Some(m.usage))] + ([MessageStop] + trailing))
  }

  // ---------------------------------------------------------------- what a segment yields

  function TextOf(e: Event): seq<Item> {
    match e
    case BlockDelta(Some(TextDelta(t))) => [Response([TextPart(t)], true)]
    case _ => []
  }

  function TextItems(inner: seq<Event>): seq<Item> {
    if inner == [] then [] else TextOf(inner[0]) + TextItems(inner[1..])
  }

  function SegmentItems(parse: string -> Args, s: Segment): seq<Item> {
    match s
    case Whole(Text(_), inner) => TextItems(inner)
    case Whole(ToolUse(id, name, _), inner) =>
      if id == "" then [] else [Response([CallPart(id, name, ToolArgs(parse, Carried(inner)))], false)]
    case _ => []
  }

  function AllItems(parse: string -> Args, segs: seq<Segment>): seq<Item> {
    if segs == [] then [] else SegmentItems(parse, segs[0]) + AllItems(parse, segs[1..])
  }

  lemma NoiseStep(parse: string -> Args, d: Decoder, e: Event)
    requires IsNoise(e)
    ensures Step(parse, d, e) == Stepped([], d, false)
  {
  }

  lemma {:induction false} NoiseItems(parse: string -> Args, d: Decoder, es: seq<Event>, rest: seq<Event>,
                                      err: Option<string>)
    requires forall i :: 0 <= i < |es| ==> IsNoise(es[i])
    ensures Items(parse, d, es + rest, err) == Items(parse, d, rest, err)
  {
    if es == [] {
      assert es + rest == rest;
    } else {
      assert es + rest == [es[0]] + (es[1..] + rest);
      NoiseStep(parse, d, es[0]);
      ItemsStep(parse, d, es[0], es[1..] + rest, err);
      NoiseItems(parse, d, es[1..], rest, err);
    }
  }

  /** What the events inside a block add to the decoder's JSON. */
  function JsonOf(b: Block, inner: seq<Event>): string { if b.ToolUse? then Carried(inner) else "" }

  /** One event inside a block. */
  lemma FragmentStep(parse: string -> Args, d: Decoder, b: Block, e: Event)
    requires Fragment(b, e)
    ensures var s := Step(parse, d, e);
            && !s.last && s.items == TextOf(e) && (!b.Text? ==> s.items == [])
            && s.next == if b.ToolUse? then d.(json := d.json + Piece(e)) else d
  {
    if IsNoise(e) {
      NoiseStep(parse, d, e);
      assert d.json + "" == d.json;
    }
  }

  lemma {:induction false} InnerItems(parse: string -> Args, d: Decoder, b: Block, inner: seq<Event>, rest: seq<Event>,
                                      err: Option<string>)
    requires forall i :: 0 <= i < |inner| ==> Fragment(b, inner[i])
    ensures Items(parse, d, inner + rest, err) ==
            TextItems(inner) + Items(parse, d.(json := d.json + JsonOf(b, inner)), rest, err)
    ensures !b.Text? ==> TextItems(inner) == []
    decreases |inner|
  {
    if inner == [] {
      assert inner + rest == rest && d.json + "" == d.json;
    } else {
      var e, more := inner[0], inner[1..];
      assert inner + rest == [e] + (more + rest);
      FragmentStep(parse, d, b, e);
      ItemsStep(parse, d, e, more + rest, err);
      var s := Step(parse, d, e);
      InnerItems(parse, s.next, b, more, rest, err);
      JsonNext(d, b, inner);
      Regroup(TextOf(e), TextItems(more), Items(parse, d.(json := d.json + JsonOf(b, inner)), rest, err));
    }
  }

  lemma JsonNext(d: Decoder, b: Block, inner: seq<Event>)
    requires inner != []
    ensures (if b.ToolUse? then d.json + Piece(inner[0]) else d.json) + JsonOf(b, inner[1..]) ==
            d.json + JsonOf(b, inner)
  {
    Regroup(d.json, Piece(inner[0]), Carried(inner[1..]));
  }

  /** The decoder between blocks. */
  predicate AtRest(d: Decoder) {
    d.blockType == NoBlock && d.blockId == "" && d.blockName == "" && d.json == ""
  }

  /** The decoder at the stop of a block. */
  function AtStop(d: Decoder, b: Block, inner: seq<Event>): Decoder {
    var open := Opened(d, StartOf(b));
    open.(json := open.json + JsonOf(b, inner))
  }

  lemma StopYields(parse: string -> Args, d: Decoder, b: Block, inner: seq<Event>)
    requires AtRest(d) && (!b.Text? ==> TextItems(inner) == [])
    ensures var s := Step(parse, AtStop(d, b, inner), BlockStop);
            !s.last && s.next == d && TextItems(inner) + s.items == SegmentItems(parse, Whole(b, inner))
  {
    assert "" + JsonOf(b, inner) == JsonOf(b, inner);
  }

  lemma WholeYields(parse: string -> Args, d: Decoder, b: Block, inner: seq<Event>, rest: seq<Event>,
                    err: Option<string>)
    requires WellFormed(Whole(b, inner)) && AtRest(d)
    ensures Items(parse, d, EventsOf(Whole(b, inner)) + rest, err) ==
            SegmentItems(parse, Whole(b, inner)) + Items(parse, d, rest, err)
  {
    var start, tail := BlockStart(Some(StartOf(b))), [BlockStop] + rest;
    assert EventsOf(Whole(b, inner)) + rest == [start] + (inner + tail);
    ItemsStep(parse, d, start, inner + tail, err);
    InnerItems(parse, Opened(d, StartOf(b)), b, inner, tail, err);
    ItemsStep(parse, AtStop(d, b, inner), BlockStop, rest, err);
    StopYields(parse, d, b, inner);
    Regroup(TextItems(inner), Step(parse, AtStop(d, b, inner), BlockStop).items, Items(parse, d, rest, err));
  }

  lemma SegmentYields(parse: string -> Args, d: Decoder, s: Segment, rest: seq<Event>, err: Option<string>)
    requires WellFormed(s) && AtRest(d)
    ensures Items(parse, d, EventsOf(s) + rest, err) == SegmentItems(parse, s) + Items(parse, d, rest, err)
  {
    if s.Noise? {
      NoiseItems(parse, d, s.events, rest, err);
    } else {
      WholeYields(parse, d, s.block, s.inner, rest, err);
    }
  }

  lemma {:induction false} SegmentsYield(parse: string -> Args, segs: seq<Segment>, rest: seq<Event>,
                                         err: Option<string>)
    requires forall i :: 0 <= i < |segs| ==> WellFormed(segs[i])
    ensures Items(parse, START, Flatten(segs) + rest, err) == AllItems(parse, segs) + Items(parse, START, rest, err)
    decreases |segs|
  {
    if segs == [] {
      assert Flatten(segs) + rest == rest;
    } else {
      Regroup(EventsOf(segs[0]), Flatten(segs[1..]), rest);
      SegmentYields(parse, START, segs[0], Flatten(segs[1..]) + rest, err);
      SegmentsYield(parse, segs[1..], rest, err);
      Regroup(SegmentItems(parse, segs[0]), AllItems(parse, segs[1..]), Items(parse, START, rest, err));
    }
  }

  lemma TailYields(parse: string -> Args, delta: Event, trailing: seq<Event>, err: Option<string>)
    requires delta.MessageDelta? && delta.stopReason.Some?
    ensures Items(parse, START, [delta] + ([MessageStop] + trailing), err) ==
            [Final(MapStopReason(delta.stopReason.value), delta.usage)]
  {
    ItemsStep(parse, START, delta, [MessageStop] + trailing, err);
    ItemsStep(parse, Step(parse, START, delta).next, MessageStop, trailing, err);
  }

  /** What a well-formed stream yields: its segments' items and one final item. */
  lemma StreamYields(parse: string -> Args, segs: seq<Segment>, m: Message, trailing: seq<Event>, err: Option<string>)
    requires forall i :: 0 <= i < |segs| ==> WellFormed(segs[i])
    ensures Items(parse, START, StreamOf(segs, m, trailing), err) ==
            AllItems(parse, segs) + [Final(MapStopReason(m.stopReason), Some(m.usage))]
  {
    var delta := MessageDelta(Some(m.stopReason), Some(m.usage));
    SegmentsYield(parse, segs, [delta] + ([MessageStop] + trailing), err);
    TailYields(parse, delta, trailing, err);
  }

  // ---------------------------------------------------------------- how streams end

  /** A stream that breaks off between blocks yields what came through, and then the error; one
      that just ends yields no more. */
  lemma BrokenStream(parse: string -> Args, segs: seq<Segment>, err: Option<string>)
    requires forall i :: 0 <= i < |segs| ==> WellFormed(segs[i])
    ensures Items(parse, START, Flatten(segs), err) ==
            AllItems(parse, segs) + if err.Some? then [Failure(err.value)] else []
  {
    SegmentsYield(parse, segs, [], err);
    assert Flatten(segs) + [] == Flatten(segs);
  }

  /** If it breaks off inside a block, the texts of the block have come through and a call has
      not. */
  lemma BrokenBlock(parse: string -> Args, segs: seq<Segment>, b: Block, inner: seq<Event>, err: string)
    requires forall i :: 0 <= i < |segs| ==> WellFormed(segs[i])
    requires WellFormed(Whole(b, inner))
    ensures Items(parse, START, Flatten(segs) + ([BlockStart(Some(StartOf(b)))] + inner), Some(err)) ==
            AllItems(parse, segs) + (TextItems(inner) + [Failure(err)])
    ensures b.ToolUse? ==> TextItems(inner) == []
  {
    var start := BlockStart(Some(StartOf(b)));
    SegmentsYield(parse, segs, [start] + inner, Some(err));
    ItemsStep(parse, START, start, inner, Some(err));
    InnerItems(parse, Opened(START, StartOf(b)), b, inner, [], Some(err));
    assert inner + [] == inner;
  }

  /** Nor does it after a block that was begun and not stopped: a start forgets all of it. */
  lemma StartForgets(parse: string -> Args, d: Decoder, b: Block, rest: seq<Event>, err: Option<string>)
    ensures Items(parse, d, [BlockStart(Some(b))] + rest, err) ==
            Items(parse, START.(usage := d.usage, stopReason := d.stopReason), [BlockStart(Some(b))] + rest, err)
  {
    ItemsStep(parse, d, BlockStart(Some(b)), rest, err);
    ItemsStep(parse, START.(usage := d.usage, stopReason := d.stopReason), BlockStart(Some(b)), rest, err);
  }

  /** An error event is the end, whatever comes after it. */
  lemma ErrorEnds(parse: string -> Args, segs: seq<Segment>, message: string, rest: seq<Event>, err: Option<string>)
    requires forall i :: 0 <= i < |segs| ==> WellFormed(segs[i])
    ensures Items(parse, START, Flatten(segs) + ([ErrorEvent(message)] + rest), err) ==
            AllItems(parse, segs) + [Failure(message)]
  {
    SegmentsYield(parse, segs, [ErrorEvent(message)] + rest, err);
    ErrorItem(parse, START, message, rest, err);
  }

  lemma ErrorItem(parse: string -> Args, d: Decoder, message: string, rest: seq<Event>, err: Option<string>)
    ensures Items(parse, d, [ErrorEvent(message)] + rest, err) == [Failure(message)]
  {
    ItemsStep(parse, d, ErrorEvent(message), rest, err);
  }

  /** The stop of the message comes before any error event. */
  predicate Stops(events: seq<Event>) {
    events != [] && !events[0].ErrorEvent? && (events[0].MessageStop? || Stops(events[1..]))
  }

  /** The stop reason and the usage last given before the stop. */
  function ReasonGiven(reason: string, events: seq<Event>): string
    decreases |events|
  {
    if events == [] || events[0].MessageStop? then reason
    else
      ReasonGiven(if events[0].MessageDelta? && events[0].stopReason.Some? then events[0].stopReason.value else reason,
                  events[1..])
  }

  function UsageGiven(usage: Option<Usage>, events: seq<Event>): Option<Usage>
    decreases |events|
  {
    if events == [] || events[0].MessageStop? then usage
    else UsageGiven(if events[0].MessageDelta? && events[0].usage.Some? then events[0].usage else usage, events[1..])
  }

  /** Responses, and at the end possibly something else: this final item exactly if `stops`. */
  predicate Tells(items: seq<Item>, stops: bool, final: Item) {
    && (forall i :: 0 <= i < |items| - 1 ==> items[i].Response?)
    && (items != [] && items[|items| - 1].Final? <==> stops)
    && (stops ==> items[|items| - 1] == final)
  }

  lemma TellsLater(before: seq<Item>, items: seq<Item>, stops: bool, final: Item)
    requires Tells(items, stops, final) && forall x :: x in before ==> x.Response?
    ensures Tells(before + items, stops, final)
  {
    var all := before + items;
    forall i | 0 <= i < |before| ensures all[i].Response? { assert before[i] in before; }
  }

  /** Of all streams, whatever is in them, exactly those that stop before any error event tell the
      consumer that the turn is complete, once and at the end: with the finish that the last stop
      reason means, and the last usage. */
  lemma {:induction false} CompleteIffStopped(parse: string -> Args, d: Decoder, events: seq<Event>,
                                              err: Option<string>)
    ensures Tells(Items(parse, d, events, err), Stops(events),
                  Final(MapStopReason(ReasonGiven(d.stopReason, events)), UsageGiven(d.usage, events)))
    decreases |events|
  {
    if events != [] {
      var e, more := events[0], events[1..];
      assert events == [e] + more;
      ItemsStep(parse, d, e, more, err);
      StepCarries(parse, d, e);
      if !e.MessageStop? && !e.ErrorEvent? {
        var s := Step(parse, d, e);
        CompleteIffStopped(parse, s.next, more, err);
        TellsLater(s.items, Items(parse, s.next, more, err), Stops(more),
                   Final(MapStopReason(ReasonGiven(s.next.stopReason, more)), UsageGiven(s.next.usage, more)));
      }
    }
  }

  lemma StepCarries(parse: string -> Args, d: Decoder, e: Event)
    ensures var s := Step(parse, d, e);
            && (s.last <==> e.MessageStop? || e.ErrorEvent?)
            && |s.items| <= 1 && (!s.last ==> forall x :: x in s.items ==> x.Response?)
            && s.next.stopReason ==
               (if e.MessageDelta? && e.stopReason.Some? then e.stopReason.value else d.stopReason)
            && s.next.usage == (if e.MessageDelta? && e.usage.Some? then e.usage else d.usage)
            && (e.MessageStop? ==> s.items == [Final(MapStopReason(d.stopReason), d.usage)])
            && (e.ErrorEvent? ==> s.items == [Failure(e.message)])
  {
  }

  /** What a reply's stop reason means. */
  lemma StopReasons(reason: string)
    ensures MapStopReason(reason) == FinishStop <==> reason == "end_turn" || reason == "tool_use"
    ensures MapStopReason(reason) == FinishMaxTokens <==> reason == "max_tokens"
  {
  }

  // ---------------------------------------------------------------- the same reply

  /** A text before joined parts. */
  function Prepended(t: string, ps: seq<Part>): seq<Part> {
    if t == "" then ps
    else if ps != [] && ps[0].TextPart? then [TextPart(t + ps[0].text)] + ps[1..]
    else [TextPart(t)] + ps
  }

  /** Parts with neighbouring texts joined and empty texts dropped: what a reader of the
      whole turn sees. */
  function Joined(ps: seq<Part>): seq<Part> {
    if ps == [] then []
    else
      match ps[0]
      case CallPart(_, _, _) => [ps[0]] + Joined(ps[1..])
      case TextPart(t) => Prepended(t, Joined(ps[1..]))
  }

  function PartsOf(items: seq<Item>): seq<Part> {
    if items == [] then []
    else (if items[0].Response? then items[0].parts else []) + PartsOf(items[1..])
  }

  lemma {:induction false} PartsAppend(a: seq<Item>, b: seq<Item>)
    ensures PartsOf(a + b) == PartsOf(a) + PartsOf(b)
  {
    if a == [] {
      assert a + b == b;
    } else {
      assert (a + b)[1..] == a[1..] + b;
      PartsAppend(a[1..], b);
    }
  }

  lemma {:induction false} JoinedCong(a: seq<Part>, b: seq<Part>, c: seq<Part>)
    requires Joined(b) == Joined(c)
    ensures Joined(a + b) == Joined(a + c)
  {
    if a == [] {
      assert a + b == b && a + c == c;
    } else {
      assert (a + b)[1..] == a[1..] + b && (a + c)[1..] == a[1..] + c;
      JoinedCong(a[1..], b, c);
    }
  }

  lemma JoinedText(t: string, rest: seq<Part>)
    ensures Joined([TextPart(t)] + rest) == Prepended(t, Joined(rest))
  {
    assert ([TextPart(t)] + rest)[1..] == rest;
  }

  lemma PrependedTwice(t: string, u: string, ps: seq<Part>)
    ensures Prepended(t, Prepended(u, ps)) == Prepended(t + u, ps)
  {
    assert t == "" ==> t + u == u;
    assert u == "" ==> t + u == t;
    if ps != [] && ps[0].TextPart? {
      Regroup(t, u, ps[0].text);
      assert ([TextPart(u + ps[0].text)] + ps[1..])[1..] == ps[1..];
    } else {
      assert ([TextPart(u)] + ps)[1..] == ps;
    }
  }

  lemma JoinTwo(t: string, u: string, rest: seq<Part>)
    ensures Joined([TextPart(t)] + ([TextPart(u)] + rest)) == Joined([TextPart(t + u)] + rest)
  {
    JoinedText(t, [TextPart(u)] + rest);
    JoinedText(u, rest);
    JoinedText(t + u, rest);
    PrependedTwice(t, u, Joined(rest));
  }

  /** However a text is cut, its pieces join to the text. */
  lemma {:induction false} PiecesJoin(inner: seq<Event>, rest: seq<Part>)
    requires forall i :: 0 <= i < |inner| ==> Fragment(Text(""), inner[i])
    ensures Joined(PartsOf(TextItems(inner)) + rest) == Joined([TextPart(Carried(inner))] + rest)
  {
    if inner == [] {
      assert PartsOf(TextItems(inner)) + rest == rest;
      JoinedText("", rest);
    } else {
      PiecesJoin(inner[1..], rest);
      var ps := PartsOf(TextItems(inner[1..])) + rest;
      if IsNoise(inner[0]) {
        assert TextItems(inner) == TextItems(inner[1..]) && Carried(inner) == Carried(inner[1..]);
      } else {
        PieceFirst(inner, rest);
        JoinedCong([TextPart(Piece(inner[0]))], ps, [TextPart(Carried(inner[1..]))] + rest);
        JoinTwo(Piece(inner[0]), Carried(inner[1..]), rest);
      }
    }
  }

  lemma {:induction false} PieceFirst(inner: seq<Event>, rest: seq<Part>)
    requires inner != [] && Fragment(Text(""), inner[0]) && !IsNoise(inner[0])
    ensures PartsOf(TextItems(inner)) + rest == [TextPart(Piece(inner[0]))] + (PartsOf(TextItems(inner[1..])) + rest)
  {
    var first := [Response([TextPart(Piece(inner[0]))], true)];
    assert TextOf(inner[0]) == first;
    PartsAppend(first, TextItems(inner[1..]));
    assert PartsOf(first) == [TextPart(Piece(inner[0]))];
  }

  /** Whether the decoder and the conversion agree on a tool call: it has an id, and its
      fragments carry the arguments that its input carries. */
  predicate CallAgrees(parse: string -> Args, s: Segment) {
    s.Whole? && s.block.ToolUse? ==>
      s.block.id != "" && ToolArgs(parse, Carried(s.inner)) == ToolArgs(parse, s.block.input)
  }

  lemma {:induction false} ConvertFirst(parse: string -> Args, b: Block, bs: seq<Block>)
    ensures ConvertBlocks(parse, [b] + bs) == ConvertBlock(parse, b) + ConvertBlocks(parse, bs)
  {
    if bs == [] {
      assert [b] + bs == [b];
      assert [b][..0] == [];
    } else {
      var n := |bs| - 1;
      assert ([b] + bs)[..n + 1] == [b] + bs[..n];
      ConvertFirst(parse, b, bs[..n]);
    }
  }

  lemma {:induction false} SegmentsJoin(parse: string -> Args, segs: seq<Segment>)
    requires forall i :: 0 <= i < |segs| ==> WellFormed(segs[i]) && Carries(segs[i]) && CallAgrees(parse, segs[i])
    ensures Joined(PartsOf(AllItems(parse, segs))) == Joined(ConvertBlocks(parse, BlocksOf(segs)))
  {
    if segs != [] {
      SegmentsJoin(parse, segs[1..]);
      var s := segs[0];
      var ps, qs := PartsOf(AllItems(parse, segs[1..])), ConvertBlocks(parse, BlocksOf(segs[1..]));
      PartsAppend(SegmentItems(parse, s), AllItems(parse, segs[1..]));
      if s.Whole? {
        ConvertFirst(parse, s.block, BlocksOf(segs[1..]));
        var bs := ConvertBlock(parse, s.block);
        if s.block.Text? {
          assert forall i :: 0 <= i < |s.inner| ==> Fragment(Text(""), s.inner[i]) by {
            assert WellFormed(s);
          }
          PiecesJoin(s.inner, ps);
          JoinedCong(bs, ps, qs);
        } else {
          assert PartsOf(SegmentItems(parse, s)) == bs;
          JoinedCong(bs, ps, qs);
        }
      } else {
        assert PartsOf(SegmentItems(parse, s)) + ps == ps;
        assert BlocksOf(segs) == BlocksOf(segs[1..]);
      }
    }
  }

  // ---------------------------------------------------------------- and only then

  function Calls(ps: seq<Part>): seq<Part> {
    if ps == [] then [] else (if ps[0].CallPart? then [ps[0]] else []) + Calls(ps[1..])
  }

  lemma {:induction false} CallsAppend(a: seq<Part>, b: seq<Part>)
    ensures Calls(a + b) == Calls(a) + Calls(b)
    decreases |a|
  {
    if a == [] {
      assert a + b == b;
    } else {
      var first := if a[0].CallPart? then [a[0]] else [];
      assert (a + b)[1..] == a[1..] + b;
      CallsAppend(a[1..], b);
      assert Calls(a + b) == first + Calls(a[1..] + b);
      assert Calls(a) == first + Calls(a[1..]);
    }
  }

  lemma {:induction false} JoinedCalls(ps: seq<Part>)
    ensures Calls(Joined(ps)) == Calls(ps)
  {
    if ps != [] {
      JoinedCalls(ps[1..]);
      var rest := Joined(ps[1..]);
      match ps[0]
      case CallPart(_, _, _) => assert ([ps[0]] + rest)[1..] == rest;
      case TextPart(t) => PrependedCalls(t, rest);
    }
  }

  lemma PrependedCalls(t: string, ps: seq<Part>)
    ensures Calls(Prepended(t, ps)) == Calls(ps)
  {
    assert ([TextPart(t)] + ps)[1..] == ps;
    if ps != [] && ps[0].TextPart? {
      assert ([TextPart(t + ps[0].text)] + ps[1..])[1..] == ps[1..];
    }
  }

  lemma {:induction false} TextItemsNoCalls(inner: seq<Event>)
    ensures Calls(PartsOf(TextItems(inner))) == []
  {
    if inner != [] {
      TextItemsNoCalls(inner[1..]);
      PartsAppend(TextOf(inner[0]), TextItems(inner[1..]));
      CallsAppend(PartsOf(TextOf(inner[0])), PartsOf(TextItems(inner[1..])));
      TextNoCalls(inner[0]);
    }
  }

  lemma TextNoCalls(e: Event)
    ensures Calls(PartsOf(TextOf(e))) == []
  {
  }

  /** The parts that a segment's block converts to. */
  function SegmentParts(parse: string -> Args, s: Segment): seq<Part> {
    if s.Whole? then ConvertBlock(parse, s.block) else []
  }

  /** One segment: the decoder yields its call or none, and the same call only if it agrees. */
  lemma SegmentCalls(parse: string -> Args, s: Segment)
    ensures var own := Calls(PartsOf(SegmentItems(parse, s)));
            var whole := Calls(SegmentParts(parse, s));
            |own| <= |whole| <= 1 && (own == whole ==> CallAgrees(parse, s))
  {
    if s.Whole? {
      if s.block.Text? {
        TextItemsNoCalls(s.inner);
      } else if s.block.ToolUse? {
        var call := CallPart(s.block.id, s.block.name, ToolArgs(parse, Carried(s.inner)));
        assert PartsOf([Response([call], false)]) == [call];
        assert Calls([call]) == [call];
      }
    }
  }

  lemma SplitEqual<T>(a: seq<T>, b: seq<T>, c: seq<T>, d: seq<T>)
    requires |a| <= |b| && |c| <= |d| && a + c == b + d
    ensures a == b && c == d
  {
    assert |a + c| == |a| + |c| && |b + d| == |b| + |d|;
    assert a == (a + c)[..|a|] && b == (b + d)[..|b|];
    assert c == (a + c)[|a|..] && d == (b + d)[|b|..];
  }

  /** A tool call that comes through: it has an id, and if none of its JSON arrives then its
      input has no arguments either. */
  predicate ComesThrough(parse: string -> Args, s: Segment) {
    s.Whole? && s.block.ToolUse? ==>
      s.block.id != "" && (Carried(s.inner) != "" || ToolArgs(parse, s.block.input) == NoArgs)
  }

  ghost predicate AllAgree(parse: string -> Args, segs: seq<Segment>) {
    forall s :: s in segs ==> CallAgrees(parse, s)
  }

  lemma AgreeFirst(parse: string -> Args, segs: seq<Segment>)
    requires segs != [] && CallAgrees(parse, segs[0]) && AllAgree(parse, segs[1..])
    ensures AllAgree(parse, segs)
  {
    assert segs == [segs[0]] + segs[1..];
  }

  /** The calls the decoder yields and those of the reply, first segment first. */
  lemma CallsFirst(parse: string -> Args, segs: seq<Segment>)
    requires segs != []
    ensures Calls(PartsOf(AllItems(parse, segs))) ==
            Calls(PartsOf(SegmentItems(parse, segs[0]))) + Calls(PartsOf(AllItems(parse, segs[1..])))
    ensures Calls(ConvertBlocks(parse, BlocksOf(segs))) ==
            Calls(SegmentParts(parse, segs[0])) + Calls(ConvertBlocks(parse, BlocksOf(segs[1..])))
  {
    var s := segs[0];
    var ps, qs := PartsOf(AllItems(parse, segs[1..])), ConvertBlocks(parse, BlocksOf(segs[1..]));
    PartsAppend(SegmentItems(parse, s), AllItems(parse, segs[1..]));
    CallsAppend(PartsOf(SegmentItems(parse, s)), ps);
    CallsAppend(SegmentParts(parse, s), qs);
    if s.Whole? {
      ConvertFirst(parse, s.block, BlocksOf(segs[1..]));
    } else {
      assert BlocksOf(segs) == BlocksOf(segs[1..]);
      assert SegmentParts(parse, s) + qs == qs;
    }
  }

  /** The decoder yields at most as many calls as the reply holds, and as many and the same
      only if it agrees on each. */
  lemma {:induction false} SameCallsAgree(parse: string -> Args, segs: seq<Segment>)
    ensures var cs := Calls(PartsOf(AllItems(parse, segs)));
            var ds := Calls(ConvertBlocks(parse, BlocksOf(segs)));
            |cs| <= |ds| && (cs == ds ==> AllAgree(parse, segs))
  {
    if segs != [] {
      SameCallsAgree(parse, segs[1..]);
      CallsFirst(parse, segs);
      SegmentCalls(parse, segs[0]);
      var own, whole := Calls(PartsOf(SegmentItems(parse, segs[0]))), Calls(SegmentParts(parse, segs[0]));
      var cs, ds := Calls(PartsOf(AllItems(parse, segs[1..]))), Calls(ConvertBlocks(parse, BlocksOf(segs[1..])));
      if own + cs == whole + ds {
        SplitEqual(own, whole, cs, ds);
        AgreeFirst(parse, segs);
      }
    }
  }

  ghost predicate AllWellFormed(segs: seq<Segment>) {
    forall s :: s in segs ==> WellFormed(s) && Carries(s)
  }

  ghost predicate AllComeThrough(parse: string -> Args, segs: seq<Segment>) {
    forall s :: s in segs ==> ComesThrough(parse, s)
  }

  /** Of fragments that carry their input, agreeing is what a caller can see. */
  lemma AgreeingCalls(parse: string -> Args, segs: seq<Segment>)
    requires AllWellFormed(segs)
    ensures AllAgree(parse, segs) <==> AllComeThrough(parse, segs)
  {
  }

  /** A well-formed stream, however cut, ends with the finish reason of the whole reply, and
      its parts, texts joined, are the reply's parts exactly when every tool call has an id,
      and JSON if it has arguments. */
  lemma StreamGivesReply(parse: string -> Args, segs: seq<Segment>, m: Message, trailing: seq<Event>,
                         err: Option<string>)
    requires m.content == BlocksOf(segs) && AllWellFormed(segs)
    ensures var items := Items(parse, START, StreamOf(segs, m, trailing), err);
            && items != [] && items[|items| - 1] == Final(MapStopReason(m.stopReason), Some(m.usage))
            && (Joined(PartsOf(items)) == Joined(ConvertBlocks(parse, m.content)) <==> AllComeThrough(parse, segs))
  {
    AgreeingCalls(parse, segs);
    StreamYields(parse, segs, m, trailing, err);
    var items := AllItems(parse, segs);
    var fin := [Final(MapStopReason(m.stopReason), Some(m.usage))];
    PartsAppend(items, fin);
    assert PartsOf(fin) == [];
    assert PartsOf(items + fin) == PartsOf(items);
    if AllAgree(parse, segs) {
      SegmentsJoin(parse, segs);
    }
    if Joined(PartsOf(items)) == Joined(ConvertBlocks(parse, m.content)) {
      JoinedCalls(PartsOf(items));
      JoinedCalls(ConvertBlocks(parse, m.content));
      SameCallsAgree(parse, segs);
    }
  }

  /** A call without an id is lost, for one. */
  lemma CallLost(parse: string -> Args, usage: Usage) returns (segs: seq<Segment>, m: Message)
    ensures m.content == BlocksOf(segs) && AllWellFormed(segs)
    ensures var items := Items(parse, START, StreamOf(segs, m, []), None);
            Joined(PartsOf(items)) != Joined(ConvertBlocks(parse, m.content))
  {
    var call := Whole(ToolUse("", "f", "{}"), []);
    segs := [call];
    m := Message(BlocksOf(segs), "tool_use", usage);
    assert call in segs && !ComesThrough(parse, call);
    StreamGivesReply(parse, segs, m, [], None);
  }

  /** So are the arguments of a call of which no JSON arrives. */
  lemma ArgumentsLost(parse: string -> Args, usage: Usage, input: string) returns (segs: seq<Segment>, m: Message)
    requires ToolArgs(parse, input) != NoArgs
    ensures m.content == BlocksOf(segs) && AllWellFormed(segs)
    ensures var items := Items(parse, START, StreamOf(segs, m, []), None);
            Joined(PartsOf(items)) != Joined(ConvertBlocks(parse, m.content))
  {
    var call := Whole(ToolUse("1", "f", input), []);
    segs := [call];
    m := Message(BlocksOf(segs), "tool_use", usage);
    assert call in segs && !ComesThrough(parse, call);
    StreamGivesReply(parse, segs, m, [], None);
  }
}
