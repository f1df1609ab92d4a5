/** Which agent handles a message: the configured routes, in seven tiers. */
module Route {
  import opened Common
  import opened Searching
  import opened Texts
  import opened AgentId
  import opened SessionKey

  datatype Binding = Binding(channel: Text, accountID: Text, peer: Option<Peer>, guildID: Text, teamID: Text)

  datatype Agent = Agent(id: Text, isDefault: bool, routes: seq<Binding>)

  datatype Config = Config(agents: seq<Agent>, scope: Scope, links: seq<Link>)

  datatype Input = Input(channel: Text, accountID: Text, peer: Option<Peer>, parent: Option<Peer>, guildID: Text,
                         teamID: Text)

  /** From the highest priority to the lowest. */
  datatype Tier = ByPeer | ByParent | ByGuild | ByTeam | ByAccount | ByChannel | ByDefault

  function Rank(t: Tier): nat {
    match t
    case ByPeer => 0 case ByParent => 1 case ByGuild => 2 case ByTeam => 3
    case ByAccount => 4 case ByChannel => 5 case ByDefault => 6
  }

  /** A binding with the agent it is configured for. */
  datatype Routed = Routed(agentID: Text, binding: Binding)

  const STAR: Text := ['*']

  // ---------------------------------------------------------------- the configured routes

  function OfAgent(id: Text, bindings: seq<Binding>): seq<Routed> {
    if bindings == [] then [] else [Routed(id, bindings[0])] + OfAgent(id, bindings[1..])
  }

  /** All configured routes, in the order of the configuration. */
  function Configured(agents: seq<Agent>): seq<Routed> {
    if agents == [] then [] else OfAgent(agents[0].id, agents[0].routes) + Configured(agents[1..])
  }

  predicate MatchesAccount(cs: Charset, n: Names, binding: Text, actual: Text) {
    var t := Trim(cs, binding);
    if t == [] then actual == n.account
    else t == STAR || Lower(cs, t) == Lower(cs, actual)
  }

  predicate Applies(cs: Charset, n: Names, r: Routed, channel: Text, account: Text) {
    var c := Lower(cs, Trim(cs, r.binding.channel));
    c != [] && c == channel && MatchesAccount(cs, n, r.binding.accountID, account)
  }

  // ---------------------------------------------------------------- the tiers

  predicate PeerMatches(cs: Charset, b: Binding, peer: Peer) {
    b.peer.Some? &&
    var kind := Lower(cs, Trim(cs, b.peer.value.kind));
    var id := Trim(cs, b.peer.value.id);
    kind != [] && id != [] && kind == Lower(cs, peer.kind) && id == peer.id
  }

  predicate Bare(b: Binding) { b.peer.None? && b.guildID == [] && b.teamID == [] }

  /** Whether a binding decides at a tier. */
  predicate Matches(cs: Charset, b: Binding, t: Tier, x: Input) {
    match t
    case ByPeer => x.peer.Some? && Trim(cs, x.peer.value.id) != [] && PeerMatches(cs, b, x.peer.value)
    case ByParent => x.parent.Some? && Trim(cs, x.parent.value.id) != [] && PeerMatches(cs, b, x.parent.value)
    case ByGuild => Trim(cs, x.guildID) != [] && Trim(cs, b.guildID) == Trim(cs, x.guildID)
    case ByTeam => Trim(cs, x.teamID) != [] && Trim(cs, b.teamID) == Trim(cs, x.teamID)
    case ByAccount => Trim(cs, b.accountID) != STAR && Bare(b)
    case ByChannel => Trim(cs, b.accountID) == STAR && Bare(b)
    case ByDefault => false
  }

  datatype Decision = Decision(tier: Tier, agentID: Text)

  /** The cascade: the first tier with a match decides, else the default. */
  function Cascade(find: Tier -> Option<Routed>, fallback: Text): Decision {
    if find(ByPeer).Some? then Decision(ByPeer, find(ByPeer).value.agentID)
    else if find(ByParent).Some? then Decision(ByParent, find(ByParent).value.agentID)
    else if find(ByGuild).Some? then Decision(ByGuild, find(ByGuild).value.agentID)
    else if find(ByTeam).Some? then Decision(ByTeam, find(ByTeam).value.agentID)
    else if find(ByAccount).Some? then Decision(ByAccount, find(ByAccount).value.agentID)
    else if find(ByChannel).Some? then Decision(ByChannel, find(ByChannel).value.agentID)
    else Decision(ByDefault, fallback)
  }

  lemma CascadeRanks(find: Tier -> Option<Routed>, fallback: Text)
    ensures var d := Cascade(find, fallback);
            && (forall t :: Rank(t) < Rank(d.tier) ==> find(t).None?)
            && (d.tier != ByDefault ==> find(d.tier).Some? && d.agentID == find(d.tier).value.agentID)
            && (d.tier == ByDefault ==> d.agentID == fallback)
  {
    var d := Cascade(find, fallback);
    forall t | Rank(t) < Rank(d.tier) ensures find(t).None? {
      match t
      case ByPeer => case ByParent => case ByGuild => case ByTeam =>
      case ByAccount => case ByChannel => case ByDefault =>
    }
  }

  // ---------------------------------------------------------------- the agent

  function FirstDefault(cs: Charset, n: Names, agents: seq<Agent>): Option<Text> {
    if agents == [] then None
    else if agents[0].isDefault && Trim(cs, agents[0].id) != [] then Some(NormalAgent(cs, n, Trim(cs, agents[0].id)))
    else FirstDefault(cs, n, agents[1..])
  }

  function DefaultAgent(cs: Charset, n: Names, agents: seq<Agent>): Text {
    if agents == [] then n.main
    else
      var d := FirstDefault(cs, n, agents);
      if d.Some? then d.value
      else if Trim(cs, agents[0].id) != [] then NormalAgent(cs, n, Trim(cs, agents[0].id))
      else n.main
  }

  predicate IsConfigured(cs: Charset, n: Names, agents: seq<Agent>, normalized: Text) {
    agents != [] && (NormalAgent(cs, n, agents[0].id) == normalized || IsConfigured(cs, n, agents[1..], normalized))
  }

  function PickAgent(cs: Charset, n: Names, agents: seq<Agent>, agentID: Text): Text {
    var t := Trim(cs, agentID);
    if t == [] then NormalAgent(cs, n, DefaultAgent(cs, n, agents))
    else
      var normalized := NormalAgent(cs, n, t);
      if agents == [] || IsConfigured(cs, n, agents, normalized) then normalized
      else NormalAgent(cs, n, DefaultAgent(cs, n, agents))
  }

  // ---------------------------------------------------------------- resolving

  datatype Resolved = Resolved(agentID: Text, channel: Text, accountID: Text, sessionKey: Text, mainKey: Text,
                               matchedBy: Tier)

  function KeyParams(cs: Charset, n: Names, cfg: Config, x: Input, agent: Text): Params {
    Params(agent, Lower(cs, Trim(cs, x.channel)), NormalAccount(cs, n, x.accountID), x.peer, cfg.scope, cfg.links)
  }

  function Routes(cs: Charset, n: Names, cfg: Config, x: Input): seq<Routed> {
    Filter(Considers(cs, n, x), Configured(cfg.agents))
  }

  /** The routes of the message's channel and account. */
  function Considers(cs: Charset, n: Names, x: Input): Routed -> bool {
    (r: Routed) => Applies(cs, n, r, Lower(cs, Trim(cs, x.channel)), NormalAccount(cs, n, x.accountID))
  }

  function Decider(cs: Charset, x: Input, t: Tier): Routed -> bool { (r: Routed) => Matches(cs, r.binding, t, x) }

  function Decide(cs: Charset, n: Names, cfg: Config, x: Input): Decision {
    Cascade(t => First(Decider(cs, x, t), Routes(cs, n, cfg, x)), DefaultAgent(cs, n, cfg.agents))
  }

  function ResolveRoute(cs: Charset, n: Names, cfg: Config, x: Input): Resolved {
    var d := Decide(cs, n, cfg, x);
    var agent := PickAgent(cs, n, cfg.agents, d.agentID);
    Resolved(agent, Lower(cs, Trim(cs, x.channel)), NormalAccount(cs, n, x.accountID),
             Lower(cs, Build(cs, n, KeyParams(cs, n, cfg, x, agent))), Lower(cs, BuildMain(cs, n, agent)), d.tier)
  }

  /** The agent of messages that no route decides. */
  function Default(cs: Charset, n: Names, cfg: Config): Text { NormalAgent(cs, n, DefaultAgent(cs, n, cfg.agents)) }

  lemma TrimmedNormal(cs: Charset, n: Names, id: Text)
    ensures NormalAgent(cs, n, Trim(cs, id)) == NormalAgent(cs, n, id)
  {
    TrimTightens(cs, id);
    TrimTight(cs, Trim(cs, id));
  }

  lemma {:induction false} OfAgentIds(id: Text, bindings: seq<Binding>)
    ensures forall i :: 0 <= i < |OfAgent(id, bindings)| ==> OfAgent(id, bindings)[i].agentID == id
  {
    if bindings != [] { OfAgentIds(id, bindings[1..]); }
  }

  /** The agent of a configured route is configured. */
  lemma {:induction false} RouteIsConfigured(cs: Charset, n: Names, agents: seq<Agent>, i: nat)
    requires i < |Configured(agents)|
    ensures IsConfigured(cs, n, agents, NormalAgent(cs, n, Configured(agents)[i].agentID))
  {
    var own := OfAgent(agents[0].id, agents[0].routes);
    OfAgentIds(agents[0].id, agents[0].routes);
    if i >= |own| { RouteIsConfigured(cs, n, agents[1..], i - |own|); }
  }

  lemma RouteAgent(cs: Charset, n: Names, cfg: Config, i: nat)
    requires i < |Configured(cfg.agents)|
    ensures var id := Configured(cfg.agents)[i].agentID;
            PickAgent(cs, n, cfg.agents, id) ==
            if Trim(cs, id) != [] then NormalAgent(cs, n, id) else Default(cs, n, cfg)
  {
    RouteIsConfigured(cs, n, cfg.agents, i);
    TrimmedNormal(cs, n, Configured(cfg.agents)[i].agentID);
  }

  /** The message goes to the agent of the first configured route of the highest tier at which
      any of the routes considered decides, when that agent's id is not blank. Otherwise, and
      when no route decides at any tier, it goes to the default agent. */
  lemma HighestTierFirstRoute(cs: Charset, n: Names, cfg: Config, x: Input) returns (i: nat)
    ensures var r, routes, q := ResolveRoute(cs, n, cfg, x), Configured(cfg.agents), Considers(cs, n, x);
            && (forall t :: Rank(t) < Rank(r.matchedBy) ==> NoneThat(Decider(cs, x, t), q, routes))
            && (r.matchedBy != ByDefault ==> FirstThat(Decider(cs, x, r.matchedBy), q, routes, i))
            && r.agentID == if r.matchedBy != ByDefault && Trim(cs, routes[i].agentID) != []
                            then NormalAgent(cs, n, routes[i].agentID) else Default(cs, n, cfg)
  {
    var routes, q := Configured(cfg.agents), Considers(cs, n, x);
    var find := t => First(Decider(cs, x, t), Routes(cs, n, cfg, x));
    CascadeRanks(find, DefaultAgent(cs, n, cfg.agents));
    var tier := Decide(cs, n, cfg, x).tier;
    forall t | Rank(t) < Rank(tier) ensures NoneThat(Decider(cs, x, t), q, routes) {
      var k := FirstOfFiltered(Decider(cs, x, t), q, routes);
    }
    i := FirstOfFiltered(Decider(cs, x, tier), q, routes);
    TrimmedNormal(cs, n, DefaultAgent(cs, n, cfg.agents));
    if tier != ByDefault { RouteAgent(cs, n, cfg, i); }
  }

  // ---------------------------------------------------------------- what is configured, and what matches

  /** How many routes the agents before the i-th have. */
  function RoutesBefore(agents: seq<Agent>, i: nat): nat
    requires i <= |agents|
  {
    if i == 0 then 0 else |agents[0].routes| + RoutesBefore(agents[1..], i - 1)
  }

  lemma {:induction false} OfAgentAt(id: Text, bindings: seq<Binding>, k: nat)
    ensures |OfAgent(id, bindings)| == |bindings|
    ensures k < |bindings| ==> OfAgent(id, bindings)[k] == Routed(id, bindings[k])
  {
    if bindings != [] { OfAgentAt(id, bindings[1..], if k > 0 then k - 1 else 0); }
  }

  /** Every route of every agent is configured, with its agent, agent after agent, and nothing
      else is. */
  lemma {:induction false} ConfiguredAt(agents: seq<Agent>, i: nat, k: nat)
    ensures |Configured(agents)| == RoutesBefore(agents, |agents|)
    ensures i < |agents| && k < |agents[i].routes| ==>
              && RoutesBefore(agents, i) + k < |Configured(agents)|
              && Configured(agents)[RoutesBefore(agents, i) + k] == Routed(agents[i].id, agents[i].routes[k])
  {
    if agents != [] {
      ConfiguredAt(agents[1..], if i > 0 then i - 1 else 0, k);
      OfAgentAt(agents[0].id, agents[0].routes, k);
    }
  }

  /** In lower case and without spaces around it. */
  ghost predicate Canonical(cs: Charset, s: Text) { Trim(cs, s) == s && Lower(cs, s) == s }

  /** The binding with its texts in lower case and without spaces around them; the peer's id keeps
      its case. */
  function Cleaned(cs: Charset, b: Binding): Binding {
    Binding(Lower(cs, Trim(cs, b.channel)), Lower(cs, Trim(cs, b.accountID)),
            if b.peer.None? then None
            else Some(Peer(Lower(cs, Trim(cs, b.peer.value.kind)), Trim(cs, b.peer.value.id))),
            b.guildID, b.teamID)
  }

  lemma CanonicalLower(cs: Charset, s: Text)
    requires Lawful(cs)
    ensures Canonical(cs, Lower(cs, Trim(cs, s)))
    ensures Trim(cs, Trim(cs, s)) == Trim(cs, s)
    ensures Lower(cs, Trim(cs, s)) == [] <==> Trim(cs, s) == []
  {
    TrimTightens(cs, s);
    TrimTight(cs, Trim(cs, s));
    LowerTight(cs, Trim(cs, s));
    TrimTight(cs, Lower(cs, Trim(cs, s)));
    LowerTwice(cs, Trim(cs, s));
  }

  lemma LowerTwice(cs: Charset, s: Text)
    requires Lawful(cs)
    ensures Lower(cs, Lower(cs, s)) == Lower(cs, s)
  {
  }

  /** A route is considered for a message exactly if it names the message's channel and its account,
      in any case and with any spaces around them; no account names the default one, a star any.
      (The program's star is the character as it is.) */
  lemma ConsideredIff(cs: Charset, n: Names, r: Routed, x: Input)
    requires Lawful(cs) && Words(n)
    ensures var b, account := Cleaned(cs, r.binding), NormalAccount(cs, n, x.accountID);
            Considers(cs, n, x)(r) <==>
              && b.channel != [] && b.channel == Lower(cs, Trim(cs, x.channel))
              && (Trim(cs, r.binding.accountID) == STAR
                  || account == if b.accountID == [] then n.account else b.accountID)
  {
    CanonicalLower(cs, r.binding.accountID);
    Alphabet(cs, x.accountID, n.account);
    IdText(cs, NormalAccount(cs, n, x.accountID));
  }

  /** A route for a peer decides exactly for messages of that peer: of its kind in any case, and of
      its id as it is. It decides in the same way for those whose parent the peer is. */
  lemma PeerDecidesIff(cs: Charset, b: Binding, x: Input)
    requires Lawful(cs)
    ensures Matches(cs, b, ByPeer, x) <==>
            x.peer.Some? && NamesPeer(cs, b, x.peer.value)
    ensures Matches(cs, b, ByParent, x) <==>
            x.parent.Some? && NamesPeer(cs, b, x.parent.value)
    ensures Matches(cs, b, ByPeer, x) ==> !Bare(b)
  {
    if b.peer.Some? {
      CanonicalLower(cs, b.peer.value.kind);
      CanonicalLower(cs, b.peer.value.id);
    }
  }

  predicate NamesPeer(cs: Charset, b: Binding, peer: Peer) {
    && b.peer.Some? && Cleaned(cs, b).peer == Some(Peer(Lower(cs, peer.kind), peer.id))
    && peer.kind != [] && peer.id != []
  }

  /** A route decides for a guild or a team exactly if it names the message's; and a route without a
      peer, a guild and a team decides at exactly one of the two tiers below, by whether its account
      is a star, and never at both. */
  lemma LowerTiers(cs: Charset, b: Binding, x: Input)
    ensures Matches(cs, b, ByGuild, x) <==> Trim(cs, b.guildID) == Trim(cs, x.guildID) != []
    ensures Matches(cs, b, ByTeam, x) <==> Trim(cs, b.teamID) == Trim(cs, x.teamID) != []
    ensures var bare := b.peer.None? && b.guildID == [] && b.teamID == [];
            && (Matches(cs, b, ByAccount, x) || Matches(cs, b, ByChannel, x) <==> bare)
            && (Matches(cs, b, ByChannel, x) <==> bare && Trim(cs, b.accountID) == STAR)
            && !(Matches(cs, b, ByAccount, x) && Matches(cs, b, ByChannel, x))
    ensures !Matches(cs, b, ByDefault, x)
  {
  }

  /** The default agent is the first that is marked and has an id, else the first of all if it has
      one, else the main agent. */
  lemma {:induction false} DefaultIsFirstMarked(cs: Charset, n: Names, agents: seq<Agent>, i: nat)
    requires i <= |agents|
    requires forall j :: 0 <= j < i ==> !(agents[j].isDefault && Trim(cs, agents[j].id) != [])
    requires i < |agents| ==> agents[i].isDefault && Trim(cs, agents[i].id) != []
    ensures FirstDefault(cs, n, agents) == if i < |agents| then Some(NormalAgent(cs, n, agents[i].id)) else None
    ensures DefaultAgent(cs, n, agents) ==
            if i < |agents| then NormalAgent(cs, n, agents[i].id)
            else if agents != [] && Trim(cs, agents[0].id) != [] then NormalAgent(cs, n, agents[0].id) else n.main
  {
    if agents != [] {
      TrimmedNormal(cs, n, agents[0].id);
      if i > 0 { DefaultIsFirstMarked(cs, n, agents[1..], i - 1); }
    }
  }

  // ---------------------------------------------------------------- the resolved agent

  lemma PickedIsNormal(cs: Charset, n: Names, agents: seq<Agent>, id: Text) returns (of: Text)
    ensures PickAgent(cs, n, agents, id) == NormalAgent(cs, n, of)
  {
    var t := Trim(cs, id);
    of := if t != [] && (agents == [] || IsConfigured(cs, n, agents, NormalAgent(cs, n, t))) then t
          else DefaultAgent(cs, n, agents);
  }

  /** The agent part of the session key is the resolved agent, unless normalising the resolved
      id once more changes it: exactly when it begins with an underscore and ends in a dash. */
  lemma KeyNamesAgent(cs: Charset, n: Names, cfg: Config, x: Input)
    requires Lawful(cs) && Words(n)
    ensures var r := ResolveRoute(cs, n, cfg, x);
            var p := Parse(cs, n, r.sessionKey);
            && r.agentID != [] && p.Some? && p.value.agentID == NormalAgent(cs, n, r.agentID)
            && (p.value.agentID == r.agentID <==> !(r.agentID[0] == '_' && r.agentID[|r.agentID| - 1] == '-'))
  {
    var raw := Decide(cs, n, cfg, x).agentID;
    var agent := PickAgent(cs, n, cfg.agents, raw);
    var of := PickedIsNormal(cs, n, cfg.agents, raw);
    Alphabet(cs, of, n.main);
    NormalTwice(cs, agent, n.main);
    LowerKeyParses(cs, n, KeyParams(cs, n, cfg, x, agent));
  }

  lemma {:induction false} FirstDefaultIsNormal(cs: Charset, n: Names, agents: seq<Agent>) returns (id: Text)
    ensures var d := FirstDefault(cs, n, agents); d.Some? ==> d.value == NormalAgent(cs, n, id)
  {
    id := [];
    if agents != [] {
      id := FirstDefaultIsNormal(cs, n, agents[1..]);
      if agents[0].isDefault && Trim(cs, agents[0].id) != [] { id := Trim(cs, agents[0].id); }
    }
  }

  /** The default agent's id is normalised twice, so once more does not change it. */
  lemma DefaultSettles(cs: Charset, n: Names, cfg: Config)
    requires Lawful(cs) && Words(n)
    ensures NormalAgent(cs, n, Default(cs, n, cfg)) == Default(cs, n, cfg)
  {
    var id := FirstDefaultIsNormal(cs, n, cfg.agents);
    TwiceSettles(cs, id, n.main);
    if cfg.agents != [] { TwiceSettles(cs, Trim(cs, cfg.agents[0].id), n.main); }
    Alphabet(cs, n.main, n.main);
    IdText(cs, n.main);
  }

  /** In terms of the configuration: the key names another agent exactly when the route that
      decides is of an agent whose id changes when it is normalised twice. */
  lemma KeyMissesCutIds(cs: Charset, n: Names, cfg: Config, x: Input) returns (i: nat)
    requires Lawful(cs) && Words(n)
    ensures var r, routes := ResolveRoute(cs, n, cfg, x), Configured(cfg.agents);
            && (r.matchedBy != ByDefault ==>
                  FirstThat(Decider(cs, x, r.matchedBy), Considers(cs, n, x), routes, i))
            && Parse(cs, n, r.sessionKey).Some?
            && (Parse(cs, n, r.sessionKey).value.agentID != r.agentID <==>
                  r.matchedBy != ByDefault && CutAtDash(cs, routes[i].agentID))
  {
    i := HighestTierFirstRoute(cs, n, cfg, x);
    KeyNamesAgent(cs, n, cfg, x);
    DefaultSettles(cs, n, cfg);
    var routes := Configured(cfg.agents);
    if ResolveRoute(cs, n, cfg, x).matchedBy != ByDefault {
      IdempotentUnlessCut(cs, routes[i].agentID, n.main);
      if Trim(cs, routes[i].agentID) == [] { BlankIsNotCut(cs, routes[i].agentID); }
    }
  }

  lemma BlankIsNotCut(cs: Charset, id: Text)
    requires Trim(cs, id) == []
    ensures !CutAtDash(cs, id)
  {
    assert Lower(cs, []) == [] && Collapsed([]) == [];
  }

  /** There is such a message. */
  lemma KeyCanMiss(cs: Charset, n: Names) returns (cfg: Config, x: Input)
    requires Lawful(cs) && Words(n)
    ensures var r := ResolveRoute(cs, n, cfg, x);
            Parse(cs, n, r.sessionKey).Some? && Parse(cs, n, r.sessionKey).value.agentID != r.agentID
  {
    var id := NotIdempotent(cs, n.main);
    IdempotentUnlessCut(cs, id, n.main);
    cfg, x := OneRoute(id, ['c']), Input(['c'], [], None, None, [], []);
    RouteDecides(cs, n, id, ['c']);
    var i := KeyMissesCutIds(cs, n, cfg, x);
  }

  /** A single agent with a route for a whole channel. */
  function OneRoute(id: Text, channel: Text): Config {
    Config([Agent(id, false, [Binding(channel, [], None, [], [])])], Main, [])
  }

  lemma RouteDecides(cs: Charset, n: Names, id: Text, channel: Text)
    requires Lawful(cs) && channel != [] && All(IdChar, channel)
    ensures var cfg, x := OneRoute(id, channel), Input(channel, [], None, None, [], []);
            && Configured(cfg.agents) == [Routed(id, Binding(channel, [], None, [], []))]
            && ResolveRoute(cs, n, cfg, x).matchedBy != ByDefault
  {
    var cfg, x := OneRoute(id, channel), Input(channel, [], None, None, [], []);
    var route := Routed(id, Binding(channel, [], None, [], []));
    IdText(cs, channel);
    ConfiguredOne(cfg.agents[0], route.binding);
    RouteApplies(cs, n, route, channel);
    assert Configured(cfg.agents)[0] == route;
    SomeRouteDecides(cs, n, cfg, x, ByAccount, 0);
  }

  lemma RouteApplies(cs: Charset, n: Names, r: Routed, channel: Text)
    requires channel != [] && Trim(cs, channel) == channel && Lower(cs, channel) == channel
    requires r.binding == Binding(channel, [], None, [], [])
    ensures var x := Input(channel, [], None, None, [], []);
            Considers(cs, n, x)(r) && Decider(cs, x, ByAccount)(r)
  {
    assert Trim(cs, []) == [];
  }

  /** A message that a configured route decides does not go by default. */
  lemma SomeRouteDecides(cs: Charset, n: Names, cfg: Config, x: Input, t: Tier, i: nat)
    requires i < |Configured(cfg.agents)| && t != ByDefault
    requires Considers(cs, n, x)(Configured(cfg.agents)[i]) && Decider(cs, x, t)(Configured(cfg.agents)[i])
    ensures ResolveRoute(cs, n, cfg, x).matchedBy != ByDefault
  {
    assert Rank(t) < Rank(ByDefault);
    assert !NoneThat(Decider(cs, x, t), Considers(cs, n, x), Configured(cfg.agents));
    var j := HighestTierFirstRoute(cs, n, cfg, x);
  }

  lemma ConfiguredOne(a: Agent, b: Binding)
    requires a.routes == [b]
    ensures Configured([a]) == [Routed(a.id, b)]
  {
    assert OfAgent(a.id, []) == [];
    assert OfAgent(a.id, [b]) == [Routed(a.id, b)];
    assert Configured([]) == [];
    assert [a][1..] == [];
  }

  /** Lower-casing a key leaves its agent part alone. */
  lemma LowerKeyParses(cs: Charset, n: Names, p: Params)
    requires Lawful(cs) && Words(n)
    ensures var q := Parse(cs, n, Lower(cs, Build(cs, n, p)));
            q.Some? && q.value.agentID == NormalAgent(cs, n, p.agentID) && q.value.rest == Lower(cs, Rest(cs, n, p))
  {
    var agent, rest := NormalAgent(cs, n, p.agentID), Rest(cs, n, p);
    Alphabet(cs, p.agentID, n.main);
    RestEnds(cs, n, p);
    IdText(cs, n.agent);
    IdText(cs, agent);
    LowerJoin(cs, n.agent, Join(agent, rest));
    LowerJoin(cs, agent, rest);
    ParseJoined(cs, n, agent, Lower(cs, rest));
  }

  lemma LowerJoin(cs: Charset, a: Text, b: Text)
    requires Lawful(cs)
    ensures Lower(cs, Join(a, b)) == Join(Lower(cs, a), Lower(cs, b))
  {
    assert cs.lower(':') == ':' by { assert !IdChar(':'); }
  }
}
