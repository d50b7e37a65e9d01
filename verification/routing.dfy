// What the generated rule list means: Xray takes the first rule that matches.

module Routing {
  import opened Wrappers
  import opened Text
  import opened Model
  import opened Choosing
  import opened Collecting
  import opened Xray

  datatype Destination = Address(ip: string) | Domain(name: string)

  datatype Packet = Packet(inboundTag: string, network: string, port: int, to: Destination)

  /** Absent conditions hold; an ip condition needs a known address in the list. */
  predicate Matches(rule: Rule, p: Packet, known: set<string>) {
    && (rule.inboundTags.Some? ==> p.inboundTag in rule.inboundTags.value)
    && (rule.port.Some? ==> p.port == rule.port.value)
    && (rule.networks.Some? ==> p.network in rule.networks.value)
    && (rule.ips.Some? ==> exists ip | ip in known :: ip in rule.ips.value)
  }

  function FirstMatch(rules: seq<Rule>, p: Packet, known: set<string>): Option<string> {
    if rules == [] then None
    else if Matches(rules[0], p, known) then Some(rules[0].outboundTag)
    else FirstMatch(rules[1..], p, known)
  }

  /**
   domainStrategy IPIfNonMatch: a domain is first tried unresolved, then with the
   addresses it resolves to. Without a match the first outbound takes the packet.
   */
  function Route(rules: seq<Rule>, p: Packet, resolved: set<string>): string {
    var direct := if p.to.Address? then {p.to.ip} else {};
    match FirstMatch(rules, p, direct)
    case Some(tag) => tag
    case None =>
      match (if p.to.Domain? then FirstMatch(rules, p, resolved) else None)
      case Some(tag) => tag
      case None => "direct"
  }

  function OutboundsTagged(outbounds: seq<Outbound>, tag: string): seq<Outbound> {
    if outbounds == [] then []
    else
      var last := outbounds[|outbounds| - 1];
      OutboundsTagged(outbounds[..|outbounds| - 1], tag) + if last.tag == tag then [last] else []
  }

  // ---- tags -----------------------------------------------------------------

  lemma TagsAreInjective(a: string, b: string)
    ensures InTag(a) == InTag(b) <==> a == b
    ensures OutTag(a) == OutTag(b) <==> a == b
    ensures InTag(a) != "api" && OutTag(a) !in {"api", "direct", "blocked"}
  {
    assert a == InTag(a)[3..] && b == InTag(b)[3..];
    assert a == OutTag(a)[4..] && b == OutTag(b)[4..];
    assert InTag(a)[0] == 'i' && OutTag(a)[0] == 'o';
  }

  /** Some accepted relay owns this inbound tag. */
  predicate IsExitTag(relays: seq<RelayRoute>, allNodes: map<string, Node>, tag: string, id: string) {
    tag == InTag(id) && exists r | r in relays :: r.id == id && Accepted(r, allNodes)
  }

  // ---- the rule list --------------------------------------------------------

  lemma {:induction false} FirstMatchAppend(a: seq<Rule>, b: seq<Rule>, p: Packet, known: set<string>)
    ensures FirstMatch(a + b, p, known) ==
      if FirstMatch(a, p, known).Some? then FirstMatch(a, p, known) else FirstMatch(b, p, known)
  {
    if a == [] {
      assert a + b == b;
    } else {
      FirstMatchAppend(a[1..], b, p, known);
      assert (a + b)[1..] == a[1..] + b;
    }
  }

  predicate OwnsTag(r: RelayRoute, allNodes: map<string, Node>, tag: string) {
    Accepted(r, allNodes) && InTag(r.id) == tag
  }

  predicate Owned(relays: seq<RelayRoute>, allNodes: map<string, Node>, tag: string) {
    exists r | r in relays :: OwnsTag(r, allNodes, tag)
  }

  lemma OwnedAppend(init: seq<RelayRoute>, r: RelayRoute, allNodes: map<string, Node>, tag: string)
    ensures Owned(init + [r], allNodes, tag) <==> Owned(init, allNodes, tag) || OwnsTag(r, allNodes, tag)
  {
  }

  lemma BindingsLast(init: seq<RelayRoute>, r: RelayRoute, allNodes: map<string, Node>)
    ensures Bindings(init + [r], allNodes) == Bindings(init, allNodes) + if Accepted(r, allNodes) then [BindingOf(r)] else []
  {
  }

  lemma BindingMatches(r: RelayRoute, allNodes: map<string, Node>, p: Packet, known: set<string>)
    ensures var m := FirstMatch(if Accepted(r, allNodes) then [BindingOf(r)] else [], p, known);
      (m.Some? <==> OwnsTag(r, allNodes, p.inboundTag)) && (m.Some? ==> m.value == OutTag(r.id) && p.inboundTag[3..] == r.id)
  {
    assert InTag(r.id)[3..] == r.id;
  }

  /** A relay rule matches exactly the packets of an accepted relay, and names that relay's exit. */
  lemma {:induction false} BindingsMatch(relays: seq<RelayRoute>, allNodes: map<string, Node>, p: Packet, known: set<string>)
    ensures var m := FirstMatch(Bindings(relays, allNodes), p, known);
      && (m.Some? <==> Owned(relays, allNodes, p.inboundTag))
      && (m.Some? ==> |p.inboundTag| >= 3 && m.value == OutTag(p.inboundTag[3..]))
  {
    if relays != [] {
      var init, r := relays[..|relays| - 1], relays[|relays| - 1];
      var rule := if Accepted(r, allNodes) then [BindingOf(r)] else [];
      assert relays == init + [r];
      BindingsLast(init, r, allNodes);
      FirstMatchAppend(Bindings(init, allNodes), rule, p, known);
      BindingMatches(r, allNodes, p, known);
      BindingsMatch(init, allNodes, p, known);
      OwnedAppend(init, r, allNodes, p.inboundTag);
    }
  }

  /** The relay rules send a packet to out_<id> exactly when it entered the accepted relay's in_<id>. */
  lemma BindingsRoute(relays: seq<RelayRoute>, allNodes: map<string, Node>, p: Packet, known: set<string>)
    ensures var m := FirstMatch(Bindings(relays, allNodes), p, known);
      && (forall id :: m == Some(OutTag(id)) <==> IsExitTag(relays, allNodes, p.inboundTag, id))
      && (m.Some? ==> exists id :: m == Some(OutTag(id)))
  {
    BindingsMatch(relays, allNodes, p, known);
    var m := FirstMatch(Bindings(relays, allNodes), p, known);
    forall id ensures m == Some(OutTag(id)) <==> IsExitTag(relays, allNodes, p.inboundTag, id) {
      assert InTag(id)[3..] == id;
      if m == Some(OutTag(id)) {
        var r :| r in relays && OwnsTag(r, allNodes, p.inboundTag);
        TagsAreInjective(id, p.inboundTag[3..]);
        TagsAreInjective(id, r.id);
        assert InTag(r.id)[3..] == r.id;
      }
      if IsExitTag(relays, allNodes, p.inboundTag, id) {
        var r :| r in relays && r.id == id && Accepted(r, allNodes);
        assert OwnsTag(r, allNodes, p.inboundTag);
      }
    }
  }

  lemma PolicyOnlyBlocks(policy: NetworkPolicy, p: Packet, known: set<string>)
    ensures FirstMatch(PolicyRules(policy), p, known) in {None, Some("blocked")}
  {
    var (dns, china, quic) := Blocks(policy);
    var a, b := if dns then [BLOCK_DNS53] else [], if china then [BLOCK_CHINA_DNS] else [];
    FirstMatchAppend(a + b, if quic then [BLOCK_QUIC] else [], p, known);
    FirstMatchAppend(a, b, p, known);
  }

  /** One pass over the whole list, by where the packet came in. */
  lemma OnePass(relays: seq<RelayRoute>, allNodes: map<string, Node>, policy: NetworkPolicy, p: Packet, known: set<string>)
    ensures var m := FirstMatch([API_RULE] + (Bindings(relays, allNodes) + PolicyRules(policy)), p, known);
      && (m == Some("api") <==> p.inboundTag == "api")
      && (forall id :: m == Some(OutTag(id)) <==> IsExitTag(relays, allNodes, p.inboundTag, id))
      && (m in {None, Some("api"), Some("blocked")} || exists id :: m == Some(OutTag(id)))
  {
    FirstMatchAppend([API_RULE], Bindings(relays, allNodes) + PolicyRules(policy), p, known);
    FirstMatchAppend(Bindings(relays, allNodes), PolicyRules(policy), p, known);
    BindingsRoute(relays, allNodes, p, known);
    PolicyOnlyBlocks(policy, p, known);
    forall id ensures OutTag(id) !in {"api", "blocked", "direct"} && InTag(id) != "api" {
      TagsAreInjective(id, id);
    }
    assert API_RULE.outboundTag == "api";
  }

  /**
   Meaning of the generated routing, for every packet, policy and name resolution: relay
   exit out_<id> is reached from inbound tag in_<id> of an accepted relay and from nowhere
   else, the api outbound from the api tag and from nowhere else, and all other traffic
   leaves directly or is blocked.
   */
  lemma RoutingMeaning(nodes: seq<Node>, clients: seq<Client>, relays: seq<RelayRoute>, allNodes: map<string, Node>,
                       policy: NetworkPolicy, now: Time, p: Packet, resolved: set<string>)
    ensures var out := Route(ServerConfig(nodes, clients, relays, allNodes, policy, now).rules, p, resolved);
      && (out == "api" <==> p.inboundTag == "api")
      && (forall id :: out == OutTag(id) <==> IsExitTag(relays, allNodes, p.inboundTag, id))
      && (out in {"api", "blocked", "direct"} || exists id :: out == OutTag(id))
  {
    OnePass(relays, allNodes, policy, p, if p.to.Address? then {p.to.ip} else {});
    OnePass(relays, allNodes, policy, p, resolved);
    forall id ensures OutTag(id) !in {"api", "blocked", "direct"} && InTag(id) != "api" {
      TagsAreInjective(id, id);
    }
  }

  ghost predicate DistinctIDs(relays: seq<RelayRoute>) {
    forall i, j | 0 <= i < j < |relays| :: relays[i].id != relays[j].id
  }

  lemma {:induction false} TaggedAppend(a: seq<Outbound>, b: seq<Outbound>, tag: string)
    ensures OutboundsTagged(a + b, tag) == OutboundsTagged(a, tag) + OutboundsTagged(b, tag)
  {
    if b == [] {
      assert a + b == a;
    } else {
      TaggedAppend(a, b[..|b| - 1], tag);
      assert (a + b)[..|a + b| - 1] == a + b[..|b| - 1];
    }
  }

  lemma {:induction false} ExitsUntagged(relays: seq<RelayRoute>, allNodes: map<string, Node>, id: string)
    requires forall s | s in relays :: s.id != id
    ensures OutboundsTagged(Exits(relays, allNodes), OutTag(id)) == []
  {
    if relays != [] {
      var init, last := relays[..|relays| - 1], relays[|relays| - 1];
      assert last in relays && forall s | s in init :: s in relays;
      ExitsUntagged(init, allNodes, id);
      TagsAreInjective(last.id, id);
      TaggedAppend(Exits(init, allNodes), if Accepted(last, allNodes) then [ExitOf(last, LandingOf(last, allNodes).value)] else [], OutTag(id));
    }
  }

  lemma {:induction false} ExitsTagged(relays: seq<RelayRoute>, allNodes: map<string, Node>, i: nat)
    requires DistinctIDs(relays) && i < |relays| && Accepted(relays[i], allNodes)
    ensures OutboundsTagged(Exits(relays, allNodes), OutTag(relays[i].id)) == [ExitOf(relays[i], LandingOf(relays[i], allNodes).value)]
  {
    var init, last := relays[..|relays| - 1], relays[|relays| - 1];
    var tail := if Accepted(last, allNodes) then [ExitOf(last, LandingOf(last, allNodes).value)] else [];
    TaggedAppend(Exits(init, allNodes), tail, OutTag(relays[i].id));
    TagsAreInjective(last.id, relays[i].id);
    if i == |relays| - 1 {
      ExitsUntagged(init, allNodes, last.id);
    } else {
      ExitsTagged(init, allNodes, i);
    }
  }

  /**
   Every packet that enters an accepted fixed-exit relay leaves through exactly one
   outbound, and that outbound is the relay's own landing with its credentials.
   */
  lemma RelayReachesItsLanding(nodes: seq<Node>, clients: seq<Client>, relays: seq<RelayRoute>, allNodes: map<string, Node>,
                               policy: NetworkPolicy, now: Time, r: RelayRoute, p: Packet, resolved: set<string>)
    requires DistinctIDs(relays) && r in relays && Accepted(r, allNodes) && p.inboundTag == InTag(r.id)
    ensures var cfg := ServerConfig(nodes, clients, relays, allNodes, policy, now);
      var l := LandingOf(r, allNodes).value;
      OutboundsTagged(cfg.outbounds, Route(cfg.rules, p, resolved)) == [SocksOut(OutTag(r.id), l.host, l.port, l.user, l.pass)]
  {
    RoutingMeaning(nodes, clients, relays, allNodes, policy, now, p, resolved);
    assert IsExitTag(relays, allNodes, p.inboundTag, r.id);
    TagsAreInjective(r.id, r.id);
    TaggedAppend(BASE_OUTBOUNDS, Exits(relays, allNodes), OutTag(r.id));
    TaggedAppend([Freedom("direct")], [Blackhole("blocked")], OutTag(r.id));
    assert BASE_OUTBOUNDS == [Freedom("direct")] + [Blackhole("blocked")];
    var i :| 0 <= i < |relays| && relays[i] == r;
    ExitsTagged(relays, allNodes, i);
  }

  // ---- inbounds behind a tag ------------------------------------------------------

  function InboundsTagged(inbounds: seq<Inbound>, tag: string): seq<Inbound> {
    if inbounds == [] then []
    else
      var last := inbounds[|inbounds| - 1];
      InboundsTagged(inbounds[..|inbounds| - 1], tag) + if last.tag == tag then [last] else []
  }

  lemma {:induction false} InboundsAppend(a: seq<Inbound>, b: seq<Inbound>, tag: string)
    ensures InboundsTagged(a + b, tag) == InboundsTagged(a, tag) + InboundsTagged(b, tag)
  {
    if b == [] {
      assert a + b == a;
    } else {
      InboundsAppend(a, b[..|b| - 1], tag);
      assert (a + b)[..|a + b| - 1] == a + b[..|b| - 1];
    }
  }

  /** What one element of a slice contributes behind a tag. */
  function Part<T>(x: T, f: T -> Option<Inbound>, tag: string): seq<Inbound> {
    match f(x)
    case Some(b) => if b.tag == tag then [b] else []
    case None => []
  }

  function Parts<T>(s: seq<T>, f: T -> Option<Inbound>, tag: string): seq<Inbound> {
    if s == [] then [] else Parts(s[..|s| - 1], f, tag) + Part(s[|s| - 1], f, tag)
  }

  lemma {:induction false} TaggedParts<T>(s: seq<T>, f: T -> Option<Inbound>, tag: string)
    ensures InboundsTagged(Collect(s, f), tag) == Parts(s, f, tag)
  {
    if s != [] {
      TaggedParts(s[..|s| - 1], f, tag);
      InboundsAppend(Collect(s[..|s| - 1], f), match f(s[|s| - 1]) case Some(b) => [b] case None => [], tag);
    }
  }

  lemma {:induction false} NoneTagged<T>(s: seq<T>, f: T -> Option<Inbound>, tag: string)
    ensures Parts(s, f, tag) == [] <==> forall x | x in s :: Part(x, f, tag) == []
  {
    if s != [] {
      var init, last := s[..|s| - 1], s[|s| - 1];
      assert s == init + [last];
      NoneTagged(init, f, tag);
    }
  }

  ghost predicate OthersSilent<T>(s: seq<T>, f: T -> Option<Inbound>, tag: string, x: T) {
    forall y | y in s && y != x :: Part(y, f, tag) == []
  }

  lemma SilentLast<T>(init: seq<T>, last: T, f: T -> Option<Inbound>, tag: string, x: T)
    ensures OthersSilent(init + [last], f, tag, x) <==> OthersSilent(init, f, tag, x) && (last == x || Part(last, f, tag) == [])
  {
    assert last in init + [last] && forall y | y in init :: y in init + [last];
  }

  lemma OnlyOne<T>(head: seq<T>, tail: seq<T>, one: seq<T>)
    requires |one| == 1 && |head| >= 1
    ensures head + tail == one <==> head == one && tail == []
  {
    if head + tail == one {
      assert |head + tail| == |head| + |tail|;
    }
  }

  /** When x contributes and comes once, it is the only one exactly when no other element contributes. */
  lemma {:induction false} OneTagged<T>(s: seq<T>, f: T -> Option<Inbound>, tag: string, x: T)
    requires x in s && NoRepeats(s) && Part(x, f, tag) != []
    ensures |Parts(s, f, tag)| >= 1
    ensures Parts(s, f, tag) == Part(x, f, tag) <==> OthersSilent(s, f, tag, x)
  {
    var init, last := s[..|s| - 1], s[|s| - 1];
    assert s == init + [last];
    SilentLast(init, last, f, tag, x);
    if last == x {
      assert x !in init;
      NoneTagged(init, f, tag);
    } else {
      OneTagged(init, f, tag, x);
      OnlyOne(Parts(init, f, tag), Part(last, f, tag), Part(x, f, tag));
    }
  }

  /** A node or a forwarding relay whose own ID is this tag, and that gets an inbound. */
  ghost predicate Collides(nodes: seq<Node>, relays: seq<RelayRoute>, allNodes: map<string, Node>, tag: string) {
    (exists n | n in nodes :: n.id == tag && n.enabled && !Retired(n)) ||
    (exists r | r in relays :: r.id == tag && Forwards(r, allNodes))
  }

  predicate Forwards(r: RelayRoute, allNodes: map<string, Node>) {
    r.enabled && r.relayPort > 0 && r.routeMode != "socks5_route" && r.landingNodeID in allNodes &&
    allNodes[r.landingNodeID].enabled && allNodes[r.landingNodeID].port > 0
  }

  lemma NodesTagged(nodes: seq<Node>, clients: seq<Client>, now: Time, tag: string)
    ensures InboundsTagged(NodeInbounds(nodes, clients, now), tag) == [] <==> !exists n | n in nodes :: n.id == tag && n.enabled && !Retired(n)
  {
    TaggedParts(nodes, n => NodeInbound(n, clients, now), tag);
    NoneTagged(nodes, n => NodeInbound(n, clients, now), tag);
    forall n ensures Part(n, n => NodeInbound(n, clients, now), tag) == [] <==> !(n.id == tag && n.enabled && !Retired(n)) {
    }
  }

  function Maker(clients: seq<Client>, allNodes: map<string, Node>, now: Time): RelayRoute -> Option<Inbound> {
    r => RelayInbound(r, clients, allNodes, now)
  }

  lemma RelayPart(r: RelayRoute, clients: seq<Client>, allNodes: map<string, Node>, now: Time, tag: string)
    ensures var part := Part(r, Maker(clients, allNodes, now), tag);
      && (part == [] <==> !((Accepted(r, allNodes) && InTag(r.id) == tag) || (Forwards(r, allNodes) && r.id == tag)))
      && (part != [] ==> part == [RelayInbound(r, clients, allNodes, now).value])
  {
  }

  lemma OwnPart(x: RelayRoute, clients: seq<Client>, allNodes: map<string, Node>, now: Time)
    requires Accepted(x, allNodes)
    ensures Part(x, Maker(clients, allNodes, now), InTag(x.id)) == [RelayInbound(x, clients, allNodes, now).value]
    ensures !Forwards(x, allNodes)
  {
    RelayPart(x, clients, allNodes, now, InTag(x.id));
  }

  lemma OtherPart(r: RelayRoute, x: RelayRoute, clients: seq<Client>, allNodes: map<string, Node>, now: Time)
    requires r.id != x.id
    ensures Part(r, Maker(clients, allNodes, now), InTag(x.id)) == [] <==> !(r.id == InTag(x.id) && Forwards(r, allNodes))
  {
    RelayPart(r, clients, allNodes, now, InTag(x.id));
    TagsAreInjective(r.id, x.id);
  }

  lemma SilentExactly(relays: seq<RelayRoute>, clients: seq<Client>, allNodes: map<string, Node>, now: Time, x: RelayRoute)
    requires DistinctIDs(relays) && x in relays && Accepted(x, allNodes)
    ensures OthersSilent(relays, Maker(clients, allNodes, now), InTag(x.id), x) <==>
            !exists r | r in relays :: r.id == InTag(x.id) && Forwards(r, allNodes)
  {
    OwnPart(x, clients, allNodes, now);
    forall r | r in relays && r != x
      ensures Part(r, Maker(clients, allNodes, now), InTag(x.id)) == [] <==> !(r.id == InTag(x.id) && Forwards(r, allNodes))
    {
      assert r.id != x.id;
      OtherPart(r, x, clients, allNodes, now);
    }
  }

  /** The relay is the only one behind its tag exactly when no forwarding relay has that tag for an ID. */
  lemma RelaysTagged(relays: seq<RelayRoute>, clients: seq<Client>, allNodes: map<string, Node>, now: Time, x: RelayRoute)
    requires DistinctIDs(relays) && x in relays && Accepted(x, allNodes)
    ensures var tagged := InboundsTagged(RelayInbounds(relays, clients, allNodes, now), InTag(x.id));
      && |tagged| >= 1
      && (tagged == [RelayInbound(x, clients, allNodes, now).value] <==>
            !exists r | r in relays :: r.id == InTag(x.id) && Forwards(r, allNodes))
  {
    OwnPart(x, clients, allNodes, now);
    SilentExactly(relays, clients, allNodes, now, x);
    TaggedParts(relays, Maker(clients, allNodes, now), InTag(x.id));
    OneTagged(relays, Maker(clients, allNodes, now), InTag(x.id), x);
  }

  lemma ConfigTagged(nodes: seq<Node>, clients: seq<Client>, relays: seq<RelayRoute>, allNodes: map<string, Node>,
                     policy: NetworkPolicy, now: Time, tag: string)
    ensures InboundsTagged(ServerConfig(nodes, clients, relays, allNodes, policy, now).inbounds, tag) ==
      InboundsTagged(NodeInbounds(nodes, clients, now), tag) + InboundsTagged(RelayInbounds(relays, clients, allNodes, now), tag) +
      if tag == "api" then [ApiIn("api", StatsPort(nodes, relays), None)] else []
  {
    var api := [ApiIn("api", StatsPort(nodes, relays), None)];
    InboundsAppend(NodeInbounds(nodes, clients, now) + RelayInbounds(relays, clients, allNodes, now), api, tag);
    InboundsAppend(NodeInbounds(nodes, clients, now), RelayInbounds(relays, clients, allNodes, now), tag);
    assert InboundsTagged(api, tag) == if tag == "api" then api else [];
  }

  /**
   Behind the tag of an accepted relay there is one inbound, the relay's own, exactly when no node
   and no forwarding relay that gets an inbound has the tag for its ID: then nothing but that
   inbound's traffic reaches the relay's exit.
   */
  lemma OnlyItsInboundExactly(nodes: seq<Node>, clients: seq<Client>, relays: seq<RelayRoute>, allNodes: map<string, Node>,
                              policy: NetworkPolicy, now: Time, r: RelayRoute)
    requires DistinctIDs(relays) && r in relays && Accepted(r, allNodes)
    ensures InboundsTagged(ServerConfig(nodes, clients, relays, allNodes, policy, now).inbounds, InTag(r.id)) ==
              [RelayInbound(r, clients, allNodes, now).value] <==>
            !Collides(nodes, relays, allNodes, InTag(r.id))
  {
    var a, b := InboundsTagged(NodeInbounds(nodes, clients, now), InTag(r.id)),
                InboundsTagged(RelayInbounds(relays, clients, allNodes, now), InTag(r.id));
    TagsAreInjective(r.id, r.id);
    ConfigTagged(nodes, clients, relays, allNodes, policy, now, InTag(r.id));
    NodesTagged(nodes, clients, now, InTag(r.id));
    RelaysTagged(relays, clients, allNodes, now, r);
    OnlySecond(a, b, [RelayInbound(r, clients, allNodes, now).value]);
  }

  lemma OnlySecond<T>(first: seq<T>, second: seq<T>, one: seq<T>)
    requires |one| == 1 && |second| >= 1
    ensures first + second + [] == one <==> first == [] && second == one
  {
    if first + second + [] == one {
      assert |first + second + []| == |first| + |second|;
    }
  }

  /** And the api outbound takes the statistics inbound's traffic alone exactly when nothing has the ID "api". */
  lemma OnlyTheApiInboundExactly(nodes: seq<Node>, clients: seq<Client>, relays: seq<RelayRoute>, allNodes: map<string, Node>,
                                 policy: NetworkPolicy, now: Time)
    ensures InboundsTagged(ServerConfig(nodes, clients, relays, allNodes, policy, now).inbounds, "api") ==
              [ApiIn("api", StatsPort(nodes, relays), None)] <==>
            !Collides(nodes, relays, allNodes, "api")
  {
    ConfigTagged(nodes, clients, relays, allNodes, policy, now, "api");
    NodesTagged(nodes, clients, now, "api");
    TaggedParts(relays, Maker(clients, allNodes, now), "api");
    NoneTagged(relays, Maker(clients, allNodes, now), "api");
    forall r ensures Part(r, Maker(clients, allNodes, now), "api") == [] <==> !(Forwards(r, allNodes) && r.id == "api") {
      RelayPart(r, clients, allNodes, now, "api");
      TagsAreInjective(r.id, r.id);
    }
  }
}
