/** Session keys: agent, then what the scope of a conversation makes of the channel, the
    account and the peer, joined by colons. */
module SessionKey {
  import opened Common
  import opened Texts
  import opened AgentId

  /** The words that keys are made of. */
  datatype Names = Names(agent: Text, direct: Text, main: Text, account: Text, unknown: Text)

  ghost predicate Words(n: Names) {
    ValidId(n.agent) && ValidId(n.direct) && ValidId(n.main) && ValidId(n.account) && ValidId(n.unknown)
  }

  const NAMES := Names("agent", "direct", "main", "default", "unknown")

  lemma NamesAreWords()
    ensures Words(NAMES)
  {
  }

  datatype Peer = Peer(kind: Text, id: Text)

  datatype Scope = Main | PerPeer | PerChannelPeer | PerAccountChannelPeer | Other

  /** The ids that are one identity. */
  datatype Link = Link(canonical: Text, ids: seq<Text>)

  /** `links` come in the order in which they happen to be visited. */
  datatype Params = Params(agentID: Text, channel: Text, accountID: Text, peer: Option<Peer>, scope: Scope,
                           links: seq<Link>)

  function NormalAgent(cs: Charset, n: Names, id: Text): Text { NormalizeID(cs, id, n.main) }

  function NormalAccount(cs: Charset, n: Names, id: Text): Text { NormalizeID(cs, id, n.account) }

  function NormalChannel(cs: Charset, n: Names, channel: Text): Text {
    var c := Trim(cs, Lower(cs, channel));
    if c == [] then n.unknown else c
  }

  function Join(a: Text, b: Text): Text { a + [':'] + b }

  // ---------------------------------------------------------------- identity links

  /** One of the ids, in normal form, is a candidate. */
  predicate HasOne(cs: Charset, ids: seq<Text>, candidates: set<Text>) {
    ids != [] && ((Lower(cs, Trim(cs, ids[0])) != [] && Lower(cs, Trim(cs, ids[0])) in candidates)
                  || HasOne(cs, ids[1..], candidates))
  }

  function FirstLink(cs: Charset, links: seq<Link>, candidates: set<Text>): Text {
    if links == [] then []
    else
      var name := Trim(cs, links[0].canonical);
      if name != [] && HasOne(cs, links[0].ids, candidates) then name
      else FirstLink(cs, links[1..], candidates)
  }

  /** What a link can list a peer as. */
  function Candidates(cs: Charset, channel: Text, id: Text): set<Text> {
    {Lower(cs, id)} + if channel != [] then {Join(channel, Lower(cs, id))} else {}
  }

  function LinkedPeer(cs: Charset, links: seq<Link>, channel: Text, peerID: Text): Text {
    var id := Trim(cs, peerID);
    if links == [] || id == [] then []
    else
      FirstLink(cs, links, Candidates(cs, Lower(cs, Trim(cs, channel)), id))
  }

  // ---------------------------------------------------------------- building

  function PeerOf(n: Names, p: Params): Peer { if p.peer.None? then Peer(n.direct, []) else p.peer.value }

  function KindOf(cs: Charset, n: Names, p: Params): Text {
    var kind := Trim(cs, PeerOf(n, p).kind);
    if kind == [] then n.direct else kind
  }

  /** The id of a direct peer, after links. */
  function DirectPeer(cs: Charset, n: Names, p: Params): Text {
    var id := Trim(cs, PeerOf(n, p).id);
    var linked := if p.scope != Main && id != [] then LinkedPeer(cs, p.links, p.channel, id) else [];
    Lower(cs, if linked != [] then linked else id)
  }

  function GroupPeer(cs: Charset, n: Names, p: Params): Text {
    var id := Lower(cs, Trim(cs, PeerOf(n, p).id));
    if id == [] then n.unknown else id
  }

  /** What a key can be made of, in normal form. */
  datatype Parts = Parts(channel: Text, account: Text, kind: Text, direct: Text, group: Text)

  function PartsOf(cs: Charset, n: Names, p: Params): Parts {
    Parts(NormalChannel(cs, n, p.channel), NormalAccount(cs, n, p.accountID), KindOf(cs, n, p),
          DirectPeer(cs, n, p), GroupPeer(cs, n, p))
  }

  /** The key after the agent. */
  function RestOf(n: Names, scope: Scope, x: Parts): Text {
    if x.kind != n.direct then Join(x.channel, Join(x.kind, x.group))
    else if x.direct == [] then n.main
    else
      match scope
      case PerAccountChannelPeer => Join(x.channel, Join(x.account, Join(n.direct, x.direct)))
      case PerChannelPeer => Join(x.channel, Join(n.direct, x.direct))
      case PerPeer => Join(n.direct, x.direct)
      case _ => n.main
  }

  function Rest(cs: Charset, n: Names, p: Params): Text { RestOf(n, p.scope, PartsOf(cs, n, p)) }

  function Build(cs: Charset, n: Names, p: Params): Text {
    Join(n.agent, Join(NormalAgent(cs, n, p.agentID), Rest(cs, n, p)))
  }

  function BuildMain(cs: Charset, n: Names, agentID: Text): Text {
    Join(n.agent, Join(NormalAgent(cs, n, agentID), n.main))
  }

  // ---------------------------------------------------------------- parsing

  datatype Parsed = Parsed(agentID: Text, rest: Text)

  function Parse(cs: Charset, n: Names, key: Text): Option<Parsed> {
    var raw := Trim(cs, key);
    var i := Colon(raw);
    if i == |raw| then None
    else
      var after := raw[i + 1..];
      var j := Colon(after);
      if j == |after| || raw[..i] != n.agent then None
      else
        var agent := Trim(cs, after[..j]);
        if agent == [] || after[j + 1..] == [] then None else Some(Parsed(agent, after[j + 1..]))
  }

  /** Parsing takes apart what is joined, when the end is not a space. */
  lemma ParseJoined(cs: Charset, n: Names, agent: Text, rest: Text)
    requires Lawful(cs) && Words(n) && agent != [] && All(IdChar, agent)
    requires rest != [] && !cs.isSpace(rest[|rest| - 1])
    ensures Parse(cs, n, Join(n.agent, Join(agent, rest))) == Some(Parsed(agent, rest))
  {
    var after := Join(agent, rest);
    var key := Join(n.agent, after);
    assert IdChar(n.agent[0]);
    assert key[0] == n.agent[0] && key[|key| - 1] == rest[|rest| - 1];
    TrimTight(cs, key);
    IdNoColon(n.agent);
    IdNoColon(agent);
    CutJoin(n.agent, after);
    CutJoin(agent, rest);
    IdText(cs, agent);
  }

  lemma CutJoin(a: Text, b: Text)
    requires ':' !in a
    ensures Colon(Join(a, b)) == |a| && Join(a, b)[..|a|] == a && Join(a, b)[|a| + 1..] == b
  {
    ColonAfter(a, b);
  }

  lemma {:induction false} LinkTight(cs: Charset, links: seq<Link>, candidates: set<Text>)
    ensures Tight(cs, FirstLink(cs, links, candidates))
  {
    if links != [] {
      TrimTightens(cs, links[0].canonical);
      LinkTight(cs, links[1..], candidates);
    }
  }

  ghost predicate Ends(cs: Charset, s: Text) { s != [] && !cs.isSpace(s[|s| - 1]) }

  lemma JoinEnds(cs: Charset, a: Text, b: Text)
    requires Ends(cs, b)
    ensures Ends(cs, Join(a, b))
  {
  }

  lemma RestOfEnds(cs: Charset, n: Names, scope: Scope, x: Parts)
    requires Ends(cs, n.main) && Ends(cs, x.group) && (x.direct != [] ==> Ends(cs, x.direct))
    ensures Ends(cs, RestOf(n, scope, x))
  {
    JoinEnds(cs, x.kind, x.group);
    JoinEnds(cs, x.channel, Join(x.kind, x.group));
    if x.direct != [] {
      var tail := Join(n.direct, x.direct);
      JoinEnds(cs, n.direct, x.direct);
      JoinEnds(cs, x.channel, tail);
      JoinEnds(cs, x.account, tail);
      JoinEnds(cs, x.channel, Join(x.account, tail));
    }
  }

  /** No key ends in a space. */
  lemma RestEnds(cs: Charset, n: Names, p: Params)
    requires Lawful(cs) && Words(n)
    ensures Ends(cs, Rest(cs, n, p))
  {
    PeersTight(cs, n, p);
    WordTight(cs, n.main);
    RestOfEnds(cs, n, p.scope, PartsOf(cs, n, p));
  }

  lemma WordTight(cs: Charset, w: Text)
    requires Lawful(cs) && ValidId(w)
    ensures Tight(cs, w) && w != []
  {
    assert IdChar(w[0]) && IdChar(w[|w| - 1]);
  }

  lemma PeersTight(cs: Charset, n: Names, p: Params)
    requires Lawful(cs) && Words(n)
    ensures Tight(cs, DirectPeer(cs, n, p)) && Tight(cs, GroupPeer(cs, n, p)) && GroupPeer(cs, n, p) != []
  {
    var id := Trim(cs, PeerOf(n, p).id);
    TrimTightens(cs, PeerOf(n, p).id);
    LowerTight(cs, id);
    WordTight(cs, n.unknown);
    if p.scope != Main && id != [] {
      var linked := LinkedPeer(cs, p.links, p.channel, id);
      LinkedTight(cs, p.links, p.channel, id);
      LowerTight(cs, linked);
    }
  }

  lemma LinkedTight(cs: Charset, links: seq<Link>, channel: Text, peerID: Text)
    ensures Tight(cs, LinkedPeer(cs, links, channel, peerID))
  {
    var id := Trim(cs, peerID);
    LinkTight(cs, links, Candidates(cs, Lower(cs, Trim(cs, channel)), id));
  }

  /** Parsing undoes building: it gives the normalised agent and the rest of the key, for
      every agent, channel, account, peer, scope and set of links. */
  lemma ParseUndoesBuild(cs: Charset, n: Names, p: Params)
    requires Lawful(cs) && Words(n)
    ensures Parse(cs, n, Build(cs, n, p)) == Some(Parsed(NormalAgent(cs, n, p.agentID), Rest(cs, n, p)))
  {
    Alphabet(cs, p.agentID, n.main);
    RestEnds(cs, n, p);
    ParseJoined(cs, n, NormalAgent(cs, n, p.agentID), Rest(cs, n, p));
  }

  /** A key can be parsed if and only if it consists, but for spaces around it, of the word for
      agents, something that is not blank, and something more. */
  lemma ParseIff(cs: Charset, n: Names, key: Text, agent: Text, rest: Text)
    requires ':' !in n.agent && ':' !in agent
    ensures Trim(cs, key) == Join(n.agent, Join(agent, rest)) ==>
              (Parse(cs, n, key).Some? <==> Trim(cs, agent) != [] && rest != [])
              && (Parse(cs, n, key).Some? ==> Parse(cs, n, key).value == Parsed(Trim(cs, agent), rest))
  {
    CutJoin(n.agent, Join(agent, rest));
    CutJoin(agent, rest);
  }

  lemma {:induction false} ColonCuts(s: Text)
    ensures Colon(s) < |s| ==> s == Join(s[..Colon(s)], s[Colon(s) + 1..])
    ensures ':' !in s[..Colon(s)]
  {
    if s != [] && s[0] != ':' {
      ColonCuts(s[1..]);
      var c := Colon(s[1..]);
      assert s[..c + 1] == [s[0]] + s[1..][..c];
    }
  }

  /** Whatever can be parsed is such a key. */
  lemma ParsedIsJoined(cs: Charset, n: Names, key: Text) returns (agent: Text)
    requires Parse(cs, n, key).Some?
    ensures ':' !in agent && Parse(cs, n, key).value.agentID == Trim(cs, agent)
    ensures Trim(cs, key) == Join(n.agent, Join(agent, Parse(cs, n, key).value.rest))
  {
    var raw := Trim(cs, key);
    var after := raw[Colon(raw) + 1..];
    ParsedParts(cs, n, key);
    ColonCuts(raw);
    ColonCuts(after);
    agent := after[..Colon(after)];
  }

  lemma ParsedParts(cs: Charset, n: Names, key: Text)
    requires Parse(cs, n, key).Some?
    ensures var raw := Trim(cs, key);
            && Colon(raw) < |raw| && raw[..Colon(raw)] == n.agent
            && var after := raw[Colon(raw) + 1..];
            && Colon(after) < |after|
            && Parse(cs, n, key).value == Parsed(Trim(cs, after[..Colon(after)]), after[Colon(after) + 1..])
  {
  }

  /** The main key is the key of a conversation that the scope does not keep apart, and names its
      agent. */
  lemma MainKey(cs: Charset, n: Names, p: Params)
    requires Lawful(cs) && Words(n)
    ensures Parse(cs, n, BuildMain(cs, n, p.agentID)) == Some(Parsed(NormalAgent(cs, n, p.agentID), n.main))
    ensures KindOf(cs, n, p) == n.direct && (DirectPeer(cs, n, p) == [] || p.scope == Main) ==>
              Build(cs, n, p) == BuildMain(cs, n, p.agentID)
  {
    Alphabet(cs, p.agentID, n.main);
    WordTight(cs, n.main);
    ParseJoined(cs, n, NormalAgent(cs, n, p.agentID), n.main);
  }

  lemma {:induction false} LeftLower(cs: Charset, s: Text)
    requires Lawful(cs)
    ensures TrimLeft(cs, Lower(cs, s)) == Lower(cs, TrimLeft(cs, s))
  {
    if s != [] && cs.isSpace(s[0]) {
      assert Lower(cs, s)[1..] == Lower(cs, s[1..]);
      LeftLower(cs, s[1..]);
    }
  }

  lemma {:induction false} RightLower(cs: Charset, s: Text)
    requires Lawful(cs)
    ensures TrimRight(cs, Lower(cs, s)) == Lower(cs, TrimRight(cs, s))
  {
    if s != [] && cs.isSpace(s[|s| - 1]) {
      assert Lower(cs, s)[..|s| - 1] == Lower(cs, s[..|s| - 1]);
      RightLower(cs, s[..|s| - 1]);
    }
  }

  /** Neither case nor spaces around it make a difference to a channel or to a group's id, nor
      spaces to a kind; what is blank is the unknown channel or group, and a direct peer. */
  lemma NormalParts(cs: Charset, n: Names, p: Params)
    requires Lawful(cs)
    ensures var x, peer := PartsOf(cs, n, p), PeerOf(n, p);
            && x.channel == (if Trim(cs, p.channel) == [] then n.unknown else Lower(cs, Trim(cs, p.channel)))
            && x.kind == (if Trim(cs, peer.kind) == [] then n.direct else Trim(cs, peer.kind))
            && x.group == (if Trim(cs, peer.id) == [] then n.unknown else Lower(cs, Trim(cs, peer.id)))
  {
    LeftLower(cs, p.channel);
    RightLower(cs, TrimLeft(cs, p.channel));
  }

  // ---------------------------------------------------------------- injectivity

  lemma JoinedInjective(a: Text, b: Text, c: Text, d: Text)
    requires ':' !in a && ':' !in c
    ensures Join(a, b) == Join(c, d) <==> a == c && b == d
  {
    if Join(a, b) == Join(c, d) { FirstPart(a, b, c, d); }
  }

  lemma WordIsNoJoin(w: Text, a: Text, b: Text)
    requires ':' !in w
    ensures w != Join(a, b)
  {
    assert Join(a, b)[|a|] == ':';
  }

  /** No colon where a key is cut; the peers' ids may have some. */
  ghost predicate Clear(x: Parts) { ':' !in x.channel && ':' !in x.account && ':' !in x.kind }

  ghost predicate WordsClear(n: Names) { ':' !in n.direct && ':' !in n.main }

  /** A conversation that is the agent's main one: a direct one without a peer, or in a scope that
      keeps none apart. */
  predicate InMain(n: Names, scope: Scope, x: Parts) {
    x.kind == n.direct && (x.direct == [] || scope == Main || scope == Other)
  }

  /** The same place in the eyes of the scope: groups are told by channel, kind and id; direct peers
      by their id, from the second scope on by the channel, and in the last by the account. */
  predicate SamePlace(n: Names, scope: Scope, x: Parts, y: Parts) {
    if x.kind != n.direct || y.kind != n.direct then
      x.kind == y.kind && x.channel == y.channel && x.group == y.group
    else if InMain(n, scope, x) || InMain(n, scope, y) then InMain(n, scope, x) && InMain(n, scope, y)
    else
      && x.direct == y.direct
      && (scope == PerChannelPeer || scope == PerAccountChannelPeer ==> x.channel == y.channel)
      && (scope == PerAccountChannelPeer ==> x.account == y.account)
  }

  /** A group and a direct peer whose keys are the same text all the same: the group's kind is the
      other's account, or its channel is the word for direct peers, and colons do the rest. */
  predicate Confused(n: Names, scope: Scope, group: Parts, direct: Parts) {
    && group.kind != n.direct && direct.kind == n.direct && direct.direct != []
    && match scope
       case PerAccountChannelPeer =>
         group.channel == direct.channel && group.kind == direct.account && group.group == Join(n.direct, direct.direct)
       case PerPeer => group.channel == n.direct && Join(group.kind, group.group) == direct.direct
       case _ => false
  }

  lemma GroupsEqual(n: Names, scope: Scope, x: Parts, y: Parts)
    requires Clear(x) && Clear(y) && x.kind != n.direct && y.kind != n.direct
    ensures RestOf(n, scope, x) == RestOf(n, scope, y) <==> SamePlace(n, scope, x, y)
  {
    JoinedInjective(x.channel, Join(x.kind, x.group), y.channel, Join(y.kind, y.group));
    JoinedInjective(x.kind, x.group, y.kind, y.group);
  }

  lemma DirectsEqual(n: Names, scope: Scope, x: Parts, y: Parts)
    requires WordsClear(n) && Clear(x) && Clear(y) && x.kind == n.direct && y.kind == n.direct
    ensures RestOf(n, scope, x) == RestOf(n, scope, y) <==> SamePlace(n, scope, x, y)
  {
    var dx, dy := Join(n.direct, x.direct), Join(n.direct, y.direct);
    JoinedInjective(n.direct, x.direct, n.direct, y.direct);
    JoinedInjective(x.channel, dx, y.channel, dy);
    JoinedInjective(x.account, dx, y.account, dy);
    JoinedInjective(x.channel, Join(x.account, dx), y.channel, Join(y.account, dy));
    forall a: Text, b: Text ensures n.main != Join(a, b) { WordIsNoJoin(n.main, a, b); }
  }

  lemma GroupAndDirect(n: Names, scope: Scope, x: Parts, y: Parts)
    requires WordsClear(n) && Clear(x) && Clear(y) && x.kind != n.direct && y.kind == n.direct
    ensures RestOf(n, scope, x) == RestOf(n, scope, y) <==> Confused(n, scope, x, y)
  {
    var d := Join(n.direct, y.direct);
    JoinedInjective(x.channel, Join(x.kind, x.group), y.channel, d);
    JoinedInjective(x.kind, x.group, n.direct, y.direct);
    JoinedInjective(x.channel, Join(x.kind, x.group), y.channel, Join(y.account, d));
    JoinedInjective(x.kind, x.group, y.account, d);
    JoinedInjective(x.channel, Join(x.kind, x.group), n.direct, y.direct);
    WordIsNoJoin(n.main, x.channel, Join(x.kind, x.group));
  }

  /** What of two conversations is the same place, or is taken for it. */
  predicate OneKey(n: Names, scope: Scope, x: Parts, y: Parts) {
    SamePlace(n, scope, x, y) || Confused(n, scope, x, y) || Confused(n, scope, y, x)
  }

  lemma RestsEqual(n: Names, scope: Scope, x: Parts, y: Parts)
    requires WordsClear(n) && Clear(x) && Clear(y)
    ensures RestOf(n, scope, x) == RestOf(n, scope, y) <==> OneKey(n, scope, x, y)
  {
    if x.kind != n.direct && y.kind != n.direct {
      GroupsEqual(n, scope, x, y);
    } else if x.kind == n.direct && y.kind == n.direct {
      DirectsEqual(n, scope, x, y);
    } else if x.kind != n.direct {
      GroupAndDirect(n, scope, x, y);
    } else {
      GroupAndDirect(n, scope, y, x);
    }
  }

  /** In every scope, for direct and group peers, with links or without: two conversations have the
      same key exactly when they have the same agent and are the same place in the eyes of the
      scope, or are a group and a direct peer that are confused. */
  lemma KeysInjective(cs: Charset, n: Names, p: Params, q: Params)
    requires Words(n) && p.scope == q.scope && Clear(PartsOf(cs, n, p)) && Clear(PartsOf(cs, n, q))
    ensures Build(cs, n, p) == Build(cs, n, q) <==>
            && NormalAgent(cs, n, p.agentID) == NormalAgent(cs, n, q.agentID)
            && OneKey(n, p.scope, PartsOf(cs, n, p), PartsOf(cs, n, q))
  {
    Alphabet(cs, p.agentID, n.main);
    Alphabet(cs, q.agentID, n.main);
    IdNoColon(NormalAgent(cs, n, p.agentID));
    IdNoColon(NormalAgent(cs, n, q.agentID));
    IdNoColon(n.agent);
    IdNoColon(n.direct);
    IdNoColon(n.main);
    RestsEqual(n, p.scope, PartsOf(cs, n, p), PartsOf(cs, n, q));
    JoinedInjective(n.agent, Join(NormalAgent(cs, n, p.agentID), Rest(cs, n, p)),
                    n.agent, Join(NormalAgent(cs, n, q.agentID), Rest(cs, n, q)));
    JoinedInjective(NormalAgent(cs, n, p.agentID), Rest(cs, n, p), NormalAgent(cs, n, q.agentID), Rest(cs, n, q));
  }

  /** Without colons in the peers' ids none are confused. */
  lemma NoneConfused(n: Names, scope: Scope, x: Parts, y: Parts)
    requires ':' !in x.group && ':' !in y.direct
    ensures !Confused(n, scope, x, y)
  {
    WordIsNoJoin(x.group, n.direct, y.direct);
    WordIsNoJoin(y.direct, x.kind, x.group);
  }

  // ---------------------------------------------------------------- what links merge

  /** The link lists the peer, by its id or by channel and id. */
  predicate Lists(cs: Charset, l: Link, channel: Text, id: Text) {
    Trim(cs, l.canonical) != [] &&
    exists x :: x in l.ids && var known := Lower(cs, Trim(cs, x));
      known != [] && (known == Lower(cs, id) || (channel != [] && known == Join(channel, Lower(cs, id))))
  }

  lemma {:induction false} HasOneIs(cs: Charset, ids: seq<Text>, candidates: set<Text>)
    ensures HasOne(cs, ids, candidates) <==>
            exists x :: x in ids && Lower(cs, Trim(cs, x)) != [] && Lower(cs, Trim(cs, x)) in candidates
  {
    if ids != [] {
      HasOneIs(cs, ids[1..], candidates);
      assert ids == [ids[0]] + ids[1..];
    }
  }

  /** Of the first links none lists the peer. */
  ghost predicate NoneLists(cs: Charset, links: seq<Link>, i: nat, channel: Text, id: Text) {
    i <= |links| && forall j :: 0 <= j < i ==> !Lists(cs, links[j], channel, id)
  }

  lemma ListsIs(cs: Charset, l: Link, channel: Text, id: Text)
    ensures Lists(cs, l, channel, id) <==>
            Trim(cs, l.canonical) != [] && HasOne(cs, l.ids, Candidates(cs, channel, id))
  {
    HasOneIs(cs, l.ids, Candidates(cs, channel, id));
  }

  lemma {:induction false} FirstLinkIs(cs: Charset, links: seq<Link>, channel: Text, id: Text, i: nat)
    requires NoneLists(cs, links, i, channel, id) && (i < |links| ==> Lists(cs, links[i], channel, id))
    ensures FirstLink(cs, links, Candidates(cs, channel, id)) ==
            if i < |links| then Trim(cs, links[i].canonical) else []
  {
    if links != [] {
      ListsIs(cs, links[0], channel, id);
      if i > 0 {
        assert !Lists(cs, links[0], channel, id);
        assert NoneLists(cs, links[1..], i - 1, channel, id);
        FirstLinkIs(cs, links[1..], channel, id, i - 1);
      }
    }
  }

  /** A direct peer with an id is known, in the scopes that keep peers apart, by the name of the
      first link that lists it, and by its own id if none does. So peers of any channels that one
      link lists are one identity. */
  lemma LinkedIdentity(cs: Charset, n: Names, p: Params, i: nat)
    requires p.scope != Main && Trim(cs, PeerOf(n, p).id) != []
    requires var id, channel := Trim(cs, PeerOf(n, p).id), Lower(cs, Trim(cs, p.channel));
             NoneLists(cs, p.links, i, channel, id) && (i < |p.links| ==> Lists(cs, p.links[i], channel, id))
    ensures DirectPeer(cs, n, p) ==
            Lower(cs, Trim(cs, if i < |p.links| then p.links[i].canonical else PeerOf(n, p).id))
  {
    var id, channel := Trim(cs, PeerOf(n, p).id), Lower(cs, Trim(cs, p.channel));
    TrimTightens(cs, PeerOf(n, p).id);
    TrimTight(cs, id);
    FirstLinkIs(cs, p.links, channel, id, i);
    LinkedIs(cs, p.links, p.channel, id);
  }

  /** When two links of different names list a peer, who it is depends on which is visited first. */
  lemma LinkOrderMatters(cs: Charset, n: Names, p: Params, a: Link, b: Link)
    requires p.scope != Main && Trim(cs, PeerOf(n, p).id) != []
    requires var id, channel := Trim(cs, PeerOf(n, p).id), Lower(cs, Trim(cs, p.channel));
             Lists(cs, a, channel, id) && Lists(cs, b, channel, id)
    ensures DirectPeer(cs, n, p.(links := [a, b])) == DirectPeer(cs, n, p.(links := [b, a])) <==>
            Lower(cs, Trim(cs, a.canonical)) == Lower(cs, Trim(cs, b.canonical))
  {
    LinkedIdentity(cs, n, p.(links := [a, b]), 0);
    LinkedIdentity(cs, n, p.(links := [b, a]), 0);
  }

  lemma LinkedIs(cs: Charset, links: seq<Link>, channel: Text, id: Text)
    requires id != [] && Trim(cs, id) == id
    ensures LinkedPeer(cs, links, channel, id) == FirstLink(cs, links, Candidates(cs, Lower(cs, Trim(cs, channel)), id))
  {
  }

  /** Text that no normal form changes. */
  predicate Plain(s: Text) { s != [] && forall i :: 0 <= i < |s| ==> KeyChar(s[i]) }

  lemma PlainDirect(cs: Charset, n: Names, p: Params, id: Text)
    requires Lawful(cs) && Words(n) && Plain(id) && p.links == [] && p.peer == Some(Peer([], id))
    ensures KindOf(cs, n, p) == n.direct && DirectPeer(cs, n, p) == id
  {
    KeyText(cs, id);
    assert Trim(cs, []) == [];
  }

  lemma PlainPlace(cs: Charset, n: Names, channel: Text, account: Text)
    requires Lawful(cs) && Words(n) && Plain(channel) && ValidId(account)
    ensures NormalChannel(cs, n, channel) == channel && NormalAccount(cs, n, account) == account
  {
    KeyText(cs, channel);
    KeyText(cs, account);
  }

  lemma ApartRest(n: Names, x: Parts)
    requires x.kind == n.direct && x.direct != []
    ensures RestOf(n, PerAccountChannelPeer, x) == Join(x.channel, Join(x.account, Join(n.direct, x.direct)))
  {
  }

  lemma PlainPeer(cs: Charset, n: Names, p: Params, id: Text)
    requires Lawful(cs) && Words(n) && Plain(id) && Plain(p.channel) && ValidId(p.accountID)
    requires p.links == [] && p.peer == Some(Peer([], id)) && p.scope == PerAccountChannelPeer
    ensures Rest(cs, n, p) == Join(p.channel, Join(p.accountID, Join(n.direct, id)))
  {
    PlainDirect(cs, n, p, id);
    PlainPlace(cs, n, p.channel, p.accountID);
    ApartRest(n, PartsOf(cs, n, p));
  }

  lemma PlainJoin(a: Text, b: Text)
    requires Plain(b) && forall i :: 0 <= i < |a| ==> IdChar(a[i])
    ensures Plain(Join(a, b))
  {
    var s := Join(a, b);
    forall i | 0 <= i < |s| ensures KeyChar(s[i]) {
      assert s[i] == if i < |a| then a[i] else if i == |a| then ':' else b[i - |a| - 1];
    }
  }

  lemma Rejoin(a: Text, b: Text, c: Text)
    ensures Join(Join(a, b), c) == Join(a, Join(b, c))
  {
  }

  /** The condition on channels is needed: with a colon in one of them, conversations of
      different channels and accounts share a key. */
  lemma ColonsCollide(cs: Charset, n: Names, agent: Text) returns (p: Params, q: Params)
    requires Lawful(cs) && Words(n)
    ensures p.scope == PerAccountChannelPeer && q.scope == PerAccountChannelPeer
    ensures p.channel == Join(['a'], ['b']) && p.accountID == n.direct && q.channel == ['a'] && q.accountID == ['b']
    ensures Build(cs, n, p) == Build(cs, n, q)
  {
    var channel, id := Join(['a'], ['b']), Join(n.direct, ['u']);
    p := Params(agent, channel, n.direct, Some(Peer([], ['u'])), PerAccountChannelPeer, []);
    q := Params(agent, ['a'], ['b'], Some(Peer([], id)), PerAccountChannelPeer, []);
    PlainTexts(n);
    PlainPeer(cs, n, p, ['u']);
    PlainPeer(cs, n, q, id);
    Rejoin(['a'], ['b'], Join(n.direct, id));
    SameRest(cs, n, p, q);
  }

  lemma PlainTexts(n: Names)
    requires Words(n)
    ensures Plain(['u']) && Plain(['a']) && Plain(Join(['a'], ['b'])) && Plain(Join(n.direct, ['u'])) && ValidId(['b'])
  {
    PlainJoin(n.direct, ['u']);
    PlainJoin(['a'], ['b']);
  }

  lemma SameRest(cs: Charset, n: Names, p: Params, q: Params)
    requires p.agentID == q.agentID && Rest(cs, n, p) == Rest(cs, n, q)
    ensures Build(cs, n, p) == Build(cs, n, q)
  {
  }
}
