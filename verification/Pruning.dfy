/** Fitting a conversation into a token target: trim tool results, clear them, drop old
    messages. */
module Pruning {
  import opened Common

  datatype Role = User | Model | Other

  /** What a tool answered: the text taken out of it, and whether that text under the content
      key is all there is. */
  datatype Answer = Answer(text: string, plain: bool)

  datatype ToolResult = ToolResult(name: string, answer: Option<Answer>)

  datatype Part = Part(text: string, tool: Option<ToolResult>)

  datatype Message = Message(role: Role, parts: seq<Part>)

  /** `marker` stands for what was cut out, `cleared` for a cleared result. */
  datatype Strategy = Strategy(keepRecent: int, head: nat, tail: nat, marker: string, cleared: string)

  // ---------------------------------------------------------------- size

  function AnswerText(t: ToolResult): string { if t.answer.None? then "" else t.answer.value.text }

  function PartChars(p: Part): nat { |p.text| + if p.tool.Some? then |AnswerText(p.tool.value)| else 0 }

  function PartsChars(ps: seq<Part>): nat {
    if ps == [] then 0 else PartsChars(ps[..|ps| - 1]) + PartChars(ps[|ps| - 1])
  }

  function Chars(ms: seq<Message>): nat {
    if ms == [] then 0 else Chars(ms[..|ms| - 1]) + PartsChars(ms[|ms| - 1].parts)
  }

  /** Four characters are about a token. */
  function Tokens(ms: seq<Message>): nat { Chars(ms) / 4 }

  function TokensOf(m: Message): nat { PartsChars(m.parts) / 4 }

  method EstimateTokens(ms: seq<Message>) returns (n: nat)
    ensures n == Tokens(ms)
  {
    var chars := 0;
    for i := 0 to |ms|
      invariant chars == Chars(ms[..i])
    {
      var parts := ms[i].parts;
      ghost var before := chars;
      for j := 0 to |parts|
        invariant chars == before + PartsChars(parts[..j])
      {
        assert parts[..j + 1][..j] == parts[..j];
        chars := chars + |parts[j].text|;
        if parts[j].tool.Some? {
          chars := chars + |AnswerText(parts[j].tool.value)|;
        }
      }
      assert parts[..|parts|] == parts;
      assert ms[..i + 1][..i] == ms[..i];
    }
    assert ms[..|ms|] == ms;
    n := chars / 4;
  }

  /** All that a message says: the texts of its parts and what its tools answered. */
  function AllText(ps: seq<Part>): string {
    if ps == [] then ""
    else
      var last := ps[|ps| - 1];
      AllText(ps[..|ps| - 1]) + (last.text + if last.tool.Some? && last.tool.value.answer.Some?
                                              then last.tool.value.answer.value.text else "")
  }

  function Conversation(ms: seq<Message>): string {
    if ms == [] then "" else Conversation(ms[..|ms| - 1]) + AllText(ms[|ms| - 1].parts)
  }

  lemma {:induction false} PartsCharsIs(ps: seq<Part>)
    ensures PartsChars(ps) == |AllText(ps)|
  {
    if ps != [] { PartsCharsIs(ps[..|ps| - 1]); }
  }

  lemma {:induction false} CharsIs(ms: seq<Message>)
    ensures Chars(ms) == |Conversation(ms)|
  {
    if ms != [] {
      CharsIs(ms[..|ms| - 1]);
      PartsCharsIs(ms[|ms| - 1].parts);
    }
  }

  /** The estimate is a quarter of the length of all that the messages say, rounded down. */
  lemma TokensOfConversation(ms: seq<Message>)
    ensures 4 * Tokens(ms) <= |Conversation(ms)| < 4 * Tokens(ms) + 4
  {
    CharsIs(ms);
  }

  // ---------------------------------------------------------------- trimming and clearing

  function Trimmed(s: Strategy, text: string): string {
    if |text| <= s.head + s.tail then text
    else text[..s.head] + s.marker + text[|text| - s.tail..]
  }

  function TrimPart(s: Strategy, p: Part): Part {
    if p.tool.None? || p.tool.value.answer.None? then p
    else
      var text := p.tool.value.answer.value.text;
      if |text| <= s.head + s.tail then p
      else Part("", Some(ToolResult(p.tool.value.name, Some(Answer(Trimmed(s, text), true)))))
  }

  function ClearPart(s: Strategy, p: Part): Part {
    if p.tool.None? then p
    else Part("", Some(ToolResult(p.tool.value.name, Some(Answer(s.cleared, true)))))
  }

  /** One change to every part of the user's messages. */
  function EachPart(f: Part -> Part, ps: seq<Part>): (r: seq<Part>)
    ensures |r| == |ps|
  {
    if ps == [] then [] else EachPart(f, ps[..|ps| - 1]) + [f(ps[|ps| - 1])]
  }

  function InMessage(f: Part -> Part, m: Message): Message {
    if m.role == User then Message(User, EachPart(f, m.parts)) else m
  }

  function Each(f: Part -> Part, ms: seq<Message>): (r: seq<Message>)
    ensures |r| == |ms|
  {
    if ms == [] then [] else Each(f, ms[..|ms| - 1]) + [InMessage(f, ms[|ms| - 1])]
  }

  function SoftTrim(s: Strategy, ms: seq<Message>): seq<Message> { Each(p => TrimPart(s, p), ms) }

  function HardClear(s: Strategy, ms: seq<Message>): seq<Message> { Each(p => ClearPart(s, p), ms) }

  /** Trimming makes a text longer exactly when what it cuts out is shorter than the marker. */
  lemma TrimGrows(s: Strategy, text: string)
    ensures |Trimmed(s, text)| > |text| <==> s.head + s.tail < |text| < s.head + s.tail + |s.marker|
    ensures |Trimmed(s, text)| <= |text| || |Trimmed(s, text)| == s.head + s.tail + |s.marker|
  {
  }

  lemma TrimTwice(s: Strategy, p: Part)
    ensures TrimPart(s, TrimPart(s, p)) == TrimPart(s, p)
  {
    if TrimPart(s, p) != p {
      var text := p.tool.value.answer.value.text;
      var trimmed := Trimmed(s, text);
      assert trimmed[..s.head] == text[..s.head];
      assert trimmed[|trimmed| - s.tail..] == text[|text| - s.tail..];
    }
  }

  /** Two changes in a row, part by part, are one. */
  lemma {:induction false} PartsCompose(f: Part -> Part, g: Part -> Part, h: Part -> Part, ps: seq<Part>)
    requires forall p :: g(f(p)) == h(p)
    ensures EachPart(g, EachPart(f, ps)) == EachPart(h, ps)
  {
    if ps != [] {
      PartsCompose(f, g, h, ps[..|ps| - 1]);
      assert EachPart(f, ps)[..|ps| - 1] == EachPart(f, ps[..|ps| - 1]);
    }
  }

  lemma {:induction false} Compose(f: Part -> Part, g: Part -> Part, h: Part -> Part, ms: seq<Message>)
    requires forall p :: g(f(p)) == h(p)
    ensures Each(g, Each(f, ms)) == Each(h, ms)
  {
    if ms != [] {
      Compose(f, g, h, ms[..|ms| - 1]);
      assert Each(f, ms)[..|ms| - 1] == Each(f, ms[..|ms| - 1]);
      PartsCompose(f, g, h, ms[|ms| - 1].parts);
    }
  }

  /** Clearing undoes trimming: it gives what clearing alone gives. Both are idempotent. */
  lemma ClearAfterTrim(s: Strategy, ms: seq<Message>)
    ensures HardClear(s, SoftTrim(s, ms)) == HardClear(s, ms)
    ensures HardClear(s, HardClear(s, ms)) == HardClear(s, ms)
    ensures SoftTrim(s, SoftTrim(s, ms)) == SoftTrim(s, ms)
  {
    var trim, clear := p => TrimPart(s, p), p => ClearPart(s, p);
    forall p ensures trim(trim(p)) == trim(p) { TrimTwice(s, p); }
    Compose(trim, clear, clear, ms);
    Compose(clear, clear, clear, ms);
    Compose(trim, trim, trim, ms);
  }

  lemma {:induction false} EachAt(f: Part -> Part, ms: seq<Message>, i: nat)
    requires i < |ms|
    ensures Each(f, ms)[i] == InMessage(f, ms[i])
  {
    if i < |ms| - 1 { EachAt(f, ms[..|ms| - 1], i); }
  }

  lemma {:induction false} EachPartAt(f: Part -> Part, ps: seq<Part>, j: nat)
    requires j < |ps|
    ensures EachPart(f, ps)[j] == f(ps[j])
  {
    if j < |ps| - 1 { EachPartAt(f, ps[..|ps| - 1], j); }
  }

  /** The part's tool result is replaced by this text under the tool's name, and nothing is left of
      its own text. */
  predicate Answers(p: Part, r: Part, text: string) {
    r.text == "" && p.tool.Some? && r.tool == Some(ToolResult(p.tool.value.name, Some(Answer(text, true))))
  }

  /** Clearing puts the same text for every tool result of the user's messages, and touches nothing
      else. */
  lemma ClearedAt(s: Strategy, ms: seq<Message>, i: nat, j: nat)
    requires i < |ms| && j < |ms[i].parts|
    ensures var m, r := ms[i], HardClear(s, ms)[i];
            && r.role == m.role && |r.parts| == |m.parts|
            && if m.role == User && m.parts[j].tool.Some? then Answers(m.parts[j], r.parts[j], s.cleared)
               else r.parts[j] == m.parts[j]
  {
    var f := p => ClearPart(s, p);
    EachAt(f, ms, i);
    EachPartAt(f, ms[i].parts, j);
  }

  /** Trimming puts its beginning, the marker and its end for every tool result of the user's
      messages that is longer than the two, and touches nothing else. */
  lemma TrimmedAt(s: Strategy, ms: seq<Message>, i: nat, j: nat)
    requires i < |ms| && j < |ms[i].parts|
    ensures var m, r := ms[i], SoftTrim(s, ms)[i];
            && r.role == m.role && |r.parts| == |m.parts|
            && var p := m.parts[j];
            if m.role == User && p.tool.Some? && |AnswerText(p.tool.value)| > s.head + s.tail
            then
              var text := AnswerText(p.tool.value);
              Answers(p, r.parts[j], text[..s.head] + s.marker + text[|text| - s.tail..])
            else r.parts[j] == p
  {
    var f := p => TrimPart(s, p);
    EachAt(f, ms, i);
    EachPartAt(f, ms[i].parts, j);
  }

  // ---------------------------------------------------------------- dropping

  function ModelsFrom(ms: seq<Message>, i: nat): nat
    requires i <= |ms|
    decreases |ms| - i
  {
    if i == |ms| then 0 else ModelsFrom(ms, i + 1) + if ms[i].role == Model then 1 else 0
  }

  /** One of the last `n` messages of the model. */
  predicate Recent(ms: seq<Message>, n: int, i: nat)
    requires i < |ms|
  {
    ms[i].role == Model && ModelsFrom(ms, i + 1) < n
  }

  function RecentFrom(ms: seq<Message>, n: int, i: nat): nat
    requires i <= |ms|
    decreases |ms| - i
  {
    if i == |ms| then 0 else RecentFrom(ms, n, i + 1) + if Recent(ms, n, i) then 1 else 0
  }

  /** The protected messages are exactly the last n of the model's, or all that there are: with a
      message every later one of the model is protected too, and they are that many. */
  lemma {:induction false} RecentAreLast(ms: seq<Message>, n: int, i: nat, j: nat)
    requires i < j < |ms| && Recent(ms, n, i) && ms[j].role == Model
    ensures Recent(ms, n, j)
  {
    ModelsGrow(ms, i + 1, j + 1);
  }

  lemma {:induction false} RecentCount(ms: seq<Message>, n: int, i: nat)
    requires i <= |ms|
    ensures RecentFrom(ms, n, i) == Min(Max(n, 0), ModelsFrom(ms, i))
    decreases |ms| - i
  {
    if i < |ms| { RecentCount(ms, n, i + 1); }
  }

  /** The messages kept from index i on, and their tokens: going back from the newest, a
      message is kept when it is protected or still fits. */
  datatype Kept = Kept(indices: seq<nat>, tokens: nat)

  predicate Keeps(s: Strategy, ms: seq<Message>, target: int, i: nat, tokens: nat)
    requires i < |ms|
  {
    tokens + TokensOf(ms[i]) <= target || Recent(ms, s.keepRecent, i)
  }

  function KeptFrom(s: Strategy, ms: seq<Message>, target: int, i: nat): Kept
    requires i <= |ms|
    decreases |ms| - i
  {
    if i == |ms| then Kept([], 0)
    else
      var k := KeptFrom(s, ms, target, i + 1);
      if Keeps(s, ms, target, i, k.tokens) then Kept([i] + k.indices, k.tokens + TokensOf(ms[i])) else k
  }

  ghost predicate Picks(indices: seq<nat>, from: nat, to: nat) {
    && (forall j :: 0 <= j < |indices| ==> from <= indices[j] < to)
    && (forall j, k :: 0 <= j < k < |indices| ==> indices[j] < indices[k])
  }

  function Pick(ms: seq<Message>, indices: seq<nat>): (r: seq<Message>)
    requires forall j :: 0 <= j < |indices| ==> indices[j] < |ms|
    ensures |r| == |indices|
  {
    if indices == [] then [] else [ms[indices[0]]] + Pick(ms, indices[1..])
  }

  /** The kept messages are in order, and the protected ones are among them. */
  lemma {:induction false} KeptInOrder(s: Strategy, ms: seq<Message>, target: int, i: nat)
    requires i <= |ms|
    ensures Picks(KeptFrom(s, ms, target, i).indices, i, |ms|)
    ensures forall j: nat :: i <= j < |ms| && Recent(ms, s.keepRecent, j) ==> j in KeptFrom(s, ms, target, i).indices
    decreases |ms| - i
  {
    if i < |ms| {
      KeptInOrder(s, ms, target, i + 1);
    }
  }

  function ProtectedTokens(ms: seq<Message>, n: int, i: nat): nat
    requires i <= |ms|
    decreases |ms| - i
  {
    if i == |ms| then 0
    else ProtectedTokens(ms, n, i + 1) + if Recent(ms, n, i) then TokensOf(ms[i]) else 0
  }

  function SumTokens(ms: seq<Message>): nat {
    if ms == [] then 0 else TokensOf(ms[0]) + SumTokens(ms[1..])
  }

  /** The kept messages take no more than the target and the protected ones. */
  lemma {:induction false} KeptTokens(s: Strategy, ms: seq<Message>, target: int, i: nat)
    requires i <= |ms|
    ensures Picks(KeptFrom(s, ms, target, i).indices, i, |ms|)
    ensures SumTokens(Pick(ms, KeptFrom(s, ms, target, i).indices)) == KeptFrom(s, ms, target, i).tokens
    ensures KeptFrom(s, ms, target, i).tokens <= Max(target, 0) + ProtectedTokens(ms, s.keepRecent, i)
    decreases |ms| - i
  {
    KeptInOrder(s, ms, target, i);
    if i < |ms| {
      KeptTokens(s, ms, target, i + 1);
    }
  }

  /** The tokens of the messages kept after index i. */
  function TokensAfter(s: Strategy, ms: seq<Message>, target: int, i: nat): nat
    requires i < |ms|
  {
    KeptInOrder(s, ms, target, i + 1);
    SumTokens(Pick(ms, KeptFrom(s, ms, target, i + 1).indices))
  }

  lemma {:induction false} KeptLater(s: Strategy, ms: seq<Message>, target: int, i: nat, j: nat)
    requires i <= j < |ms|
    ensures j in KeptFrom(s, ms, target, i).indices <==> j in KeptFrom(s, ms, target, j).indices
    decreases j - i
  {
    if i < j {
      KeptLater(s, ms, target, i + 1, j);
    }
  }

  /** Nothing is dropped without need: a message is kept if and only if it is one of the protected
      ones or fits the target together with the newer messages that are kept. */
  lemma KeptIff(s: Strategy, ms: seq<Message>, target: int, i: nat)
    requires i < |ms|
    ensures i in KeptFrom(s, ms, target, 0).indices <==>
            Recent(ms, s.keepRecent, i) || TokensAfter(s, ms, target, i) + TokensOf(ms[i]) <= target
  {
    KeptLater(s, ms, target, 0, i);
    KeptInOrder(s, ms, target, i + 1);
    KeptTokens(s, ms, target, i + 1);
    var k := KeptFrom(s, ms, target, i + 1);
    assert i !in k.indices;
  }

  lemma {:induction false} CharsFirst(ms: seq<Message>)
    requires ms != []
    ensures Chars(ms) == PartsChars(ms[0].parts) + Chars(ms[1..])
  {
    if |ms| > 1 {
      CharsFirst(ms[..|ms| - 1]);
      assert ms[..|ms| - 1][1..] == ms[1..][..|ms| - 2];
    }
  }

  /** Rounding message by message loses less than a token a message. */
  lemma {:induction false} RoundingLoss(ms: seq<Message>)
    ensures Chars(ms) <= 4 * SumTokens(ms) + 3 * |ms|
    ensures SumTokens(ms) <= Tokens(ms) <= SumTokens(ms) + 3 * |ms| / 4
  {
    if ms != [] {
      RoundingLoss(ms[1..]);
      CharsFirst(ms);
    }
  }

  function Dropped(s: Strategy, ms: seq<Message>, target: int): seq<Message> {
    KeptInOrder(s, ms, target, 0);
    Pick(ms, KeptFrom(s, ms, target, 0).indices)
  }

  lemma DroppedBound(s: Strategy, ms: seq<Message>, target: int)
    ensures var r := Dropped(s, ms, target);
            && SumTokens(r) <= Max(target, 0) + ProtectedTokens(ms, s.keepRecent, 0)
            && Tokens(r) <= Max(target, 0) + ProtectedTokens(ms, s.keepRecent, 0) + 3 * |r| / 4
  {
    KeptTokens(s, ms, target, 0);
    RoundingLoss(Dropped(s, ms, target));
  }

  // ---------------------------------------------------------------- all three layers

  function Prune(s: Strategy, ms: seq<Message>, target: int): seq<Message> {
    var soft := SoftTrim(s, ms);
    var hard := HardClear(s, soft);
    if Tokens(ms) <= target then ms
    else if Tokens(soft) <= target then soft
    else if Tokens(hard) <= target then hard
    else Dropped(s, hard, target)
  }

  /** A message kept by pruning is the original one or, when it is the user's, its trimmed or
      its cleared version. */
  ghost predicate Version(s: Strategy, m: Message, r: Message) {
    || r == m
    || (m.role == User && r == InMessage(p => TrimPart(s, p), m))
    || (m.role == User && r == InMessage(p => ClearPart(s, p), m))
  }

  ghost predicate PrunedTo(s: Strategy, ms: seq<Message>, r: seq<Message>, indices: seq<nat>) {
    && Picks(indices, 0, |ms|) && |r| == |indices|
    && (forall j :: 0 <= j < |r| ==> Version(s, ms[indices[j]], r[j]))
    && (forall i: nat :: i < |ms| && Recent(ms, s.keepRecent, i) ==> i in indices)
  }

  lemma {:induction false} EachModels(f: Part -> Part, ms: seq<Message>, i: nat)
    requires i <= |ms|
    ensures ModelsFrom(Each(f, ms), i) == ModelsFrom(ms, i)
    decreases |ms| - i
  {
    if i < |ms| {
      EachModels(f, ms, i + 1);
      EachAt(f, ms, i);
    }
  }

  lemma {:induction false} EachProtected(f: Part -> Part, ms: seq<Message>, n: int, i: nat)
    requires i <= |ms|
    ensures ProtectedTokens(Each(f, ms), n, i) == ProtectedTokens(ms, n, i)
    decreases |ms| - i
  {
    if i < |ms| {
      EachProtected(f, ms, n, i + 1);
      EachAt(f, ms, i);
      EachModels(f, ms, i + 1);
    }
  }

  function Indices(n: nat): (r: seq<nat>)
    ensures |r| == n && forall i :: 0 <= i < n ==> r[i] == i
  {
    seq(n, i requires 0 <= i < n => i)
  }

  lemma {:induction false} PickAt(ms: seq<Message>, indices: seq<nat>, j: nat)
    requires (forall k :: 0 <= k < |indices| ==> indices[k] < |ms|) && j < |indices|
    ensures Pick(ms, indices)[j] == ms[indices[j]]
  {
    if j > 0 { PickAt(ms, indices[1..], j - 1); }
  }

  lemma AllPicked(n: nat)
    ensures Picks(Indices(n), 0, n) && forall i: nat :: i < n ==> i in Indices(n)
  {
    forall i: nat | i < n ensures i in Indices(n) {
      assert Indices(n)[i] == i;
    }
  }

  lemma EachVersions(s: Strategy, f: Part -> Part, ms: seq<Message>)
    requires forall j :: 0 <= j < |ms| ==> Version(s, ms[j], InMessage(f, ms[j]))
    ensures PrunedTo(s, ms, Each(f, ms), Indices(|ms|))
  {
    AllPicked(|ms|);
    forall j | 0 <= j < |ms| ensures Version(s, ms[Indices(|ms|)[j]], Each(f, ms)[j]) {
      EachAt(f, ms, j);
    }
  }

  lemma DroppedVersions(s: Strategy, ms: seq<Message>, target: int)
    ensures var hard := HardClear(s, ms);
            PrunedTo(s, ms, Dropped(s, hard, target), KeptFrom(s, hard, target, 0).indices)
  {
    var f := p => ClearPart(s, p);
    var hard := HardClear(s, ms);
    var indices := KeptFrom(s, hard, target, 0).indices;
    KeptInOrder(s, hard, target, 0);
    forall j | 0 <= j < |indices| ensures Version(s, ms[indices[j]], Dropped(s, hard, target)[j]) {
      PickAt(hard, indices, j);
      EachAt(f, ms, indices[j]);
    }
    forall i: nat | i < |ms| && Recent(ms, s.keepRecent, i) ensures i in indices {
      EachAt(f, ms, i);
      EachModels(f, ms, i + 1);
    }
  }

  /** Pruning keeps an in-order part of the conversation with the last model messages in it,
      and touches nothing but the tool results of the user's messages. */
  lemma PruneKeeps(s: Strategy, ms: seq<Message>, target: int) returns (indices: seq<nat>)
    ensures PrunedTo(s, ms, Prune(s, ms, target), indices)
  {
    var soft, hard := SoftTrim(s, ms), HardClear(s, SoftTrim(s, ms));
    ClearAfterTrim(s, ms);
    indices := Indices(|ms|);
    if Tokens(ms) <= target {
    } else if Tokens(soft) <= target {
      EachVersions(s, p => TrimPart(s, p), ms);
    } else if Tokens(hard) <= target {
      EachVersions(s, p => ClearPart(s, p), ms);
    } else {
      DroppedVersions(s, ms, target);
      indices := KeptFrom(s, hard, target, 0).indices;
    }
  }

  /** Pruning goes no further than it must: what fits is left as it is; what fits trimmed loses no
      message and no tool result; what fits cleared loses no message. */
  lemma GentlestPruning(s: Strategy, ms: seq<Message>, target: int)
    ensures Tokens(ms) <= target ==> Prune(s, ms, target) == ms
    ensures Tokens(SoftTrim(s, ms)) <= target || Tokens(HardClear(s, ms)) <= target ==> |Prune(s, ms, target)| == |ms|
    ensures Tokens(ms) > target && Tokens(SoftTrim(s, ms)) <= target ==> Prune(s, ms, target) == SoftTrim(s, ms)
    ensures Tokens(ms) > target && Tokens(SoftTrim(s, ms)) > target && Tokens(HardClear(s, ms)) > target ==>
              Prune(s, ms, target) == Dropped(s, HardClear(s, ms), target)
  {
    ClearAfterTrim(s, ms);
  }

  /** The result fits the target, but for the protected messages and the rounding. */
  lemma PruneFits(s: Strategy, ms: seq<Message>, target: int)
    ensures var r := Prune(s, ms, target);
            || Tokens(r) <= target
            || Tokens(r) <= Max(target, 0) + ProtectedTokens(ms, s.keepRecent, 0) + 3 * |r| / 4
  {
    ClearAfterTrim(s, ms);
    DroppedBound(s, HardClear(s, ms), target);
    EachProtected(p => ClearPart(s, p), ms, s.keepRecent, 0);
  }

  // ---------------------------------------------------------------- the loops

  /** The loop over messages and parts that trimming and clearing share. */
  method Rewrite(f: Part -> Part, ms: seq<Message>) returns (result: seq<Message>)
    ensures result == Each(f, ms)
  {
    result := [];
    for i := 0 to |ms|
      invariant result == Each(f, ms[..i])
    {
      assert ms[..i + 1][..i] == ms[..i];
      if ms[i].role != User {
        result := result + [ms[i]];
      } else {
        var parts: seq<Part> := [];
        for j := 0 to |ms[i].parts|
          invariant parts == EachPart(f, ms[i].parts[..j])
        {
          assert ms[i].parts[..j + 1][..j] == ms[i].parts[..j];
          parts := parts + [f(ms[i].parts[j])];
        }
        assert ms[i].parts[..|ms[i].parts|] == ms[i].parts;
        result := result + [Message(User, parts)];
      }
    }
    assert ms[..|ms|] == ms;
  }

  method FindRecentAssistantIndices(ms: seq<Message>, n: int) returns (indices: set<int>)
    ensures forall i: nat :: i < |ms| ==> (i in indices <==> Recent(ms, n, i))
  {
    indices := {};
    var count, i := 0, |ms|;
    while i > 0 && count < n
      invariant 0 <= i <= |ms| && count == ModelsFrom(ms, i)
      invariant forall j :: j in indices ==> i <= j
      invariant forall j: nat :: i <= j < |ms| ==> (j in indices <==> Recent(ms, n, j))
    {
      i := i - 1;
      if ms[i].role == Model {
        indices := indices + {i};
        count := count + 1;
      }
    }
    forall j: nat | j < i ensures !Recent(ms, n, j) {
      ModelsGrow(ms, j + 1, i);
    }
  }

  lemma {:induction false} ModelsGrow(ms: seq<Message>, i: nat, j: nat)
    requires i <= j <= |ms|
    ensures ModelsFrom(ms, i) >= ModelsFrom(ms, j)
    decreases j - i
  {
    if i < j { ModelsGrow(ms, i + 1, j); }
  }

  lemma TokensOfOne(m: Message)
    ensures Tokens([m]) == TokensOf(m)
  {
    var one := [m];
    assert one[..0] == [] && one[0] == m;
    assert Chars(one) == Chars(one[..0]) + PartsChars(one[0].parts);
  }

  lemma PickFirst(ms: seq<Message>, i: nat, rest: seq<nat>)
    requires i < |ms| && forall j :: 0 <= j < |rest| ==> rest[j] < |ms|
    ensures Pick(ms, [i] + rest) == [ms[i]] + Pick(ms, rest)
  {
    assert ([i] + rest)[1..] == rest;
  }

  method DropOldMessages(s: Strategy, ms: seq<Message>, target: int) returns (result: seq<Message>)
    ensures result == Dropped(s, ms, target)
  {
    var protectedIndices := FindRecentAssistantIndices(ms, s.keepRecent);
    result := [];
    var current, i := 0, |ms|;
    KeptInOrder(s, ms, target, i);
    while i > 0
      invariant 0 <= i <= |ms| && Picks(KeptFrom(s, ms, target, i).indices, i, |ms|)
      invariant current == KeptFrom(s, ms, target, i).tokens
      invariant result == Pick(ms, KeptFrom(s, ms, target, i).indices)
    {
      i := i - 1;
      KeptInOrder(s, ms, target, i);
      TokensOfOne(ms[i]);
      PickFirst(ms, i, KeptFrom(s, ms, target, i + 1).indices);
      var tokens := EstimateTokens([ms[i]]);
      if current + tokens <= target || i in protectedIndices {
        result := [ms[i]] + result;
        current := current + tokens;
      }
    }
  }

  method PruneMessages(s: Strategy, ms: seq<Message>, target: int) returns (result: seq<Message>)
    ensures result == Prune(s, ms, target)
  {
    var current := EstimateTokens(ms);
    if current <= target {
      return ms;
    }
    result := Rewrite(p => TrimPart(s, p), ms);
    current := EstimateTokens(result);
    if current <= target {
      return result;
    }
    result := Rewrite(p => ClearPart(s, p), result);
    current := EstimateTokens(result);
    if current <= target {
      return result;
    }
    result := DropOldMessages(s, result, target);
  }
}
