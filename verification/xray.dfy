// The Xray config generator (backend/internal/xray/config.go) and the parts of
// Xray's own behaviour its rule list relies on.

module Xray {
  import opened Wrappers
  import opened Text
  import opened Model
  import opened Sorting
  import opened Collecting

  // ---- the generated document -----------------------------------------------

  datatype Reality = Reality(dest: string, serverName: string, privateKey: string, shortID: string, spiderX: string)

  datatype Stream = Stream(
    network: string, security: string, wsPath: Option<string>, grpcService: Option<string>,
    tlsServerName: Option<string>, reality: Option<Reality>)

  /** A trojan password is the stored one, or derived from the client ID when none is stored. */
  datatype Secret = Stored(password: string) | DerivedFrom(clientID: string)

  datatype User =
    | RelayUser(uuid: string, email: string)
    | VlessUser(uuid: string, email: string)
    | VmessUser(uuid: string, email: string)
    | TrojanUser(secret: Secret, email: string)

  datatype Sniffing = Sniffing(enabled: bool, destOverride: seq<string>, routeOnly: bool)

  const SNIFFING := Some(Sniffing(true, ["http", "tls", "quic"], false))

  datatype Inbound =
    | SocksIn(tag: string, port: int, accounts: seq<(string, string)>, udp: bool, sniffing: Option<Sniffing>)
    | UsersIn(tag: string, port: int, protocol: string, users: seq<User>, decryption: bool, stream: Stream, sniffing: Option<Sniffing>)
    | DoorIn(tag: string, port: int, address: string, targetPort: int, network: string, sniffing: Option<Sniffing>)
    | ApiIn(tag: string, port: int, sniffing: Option<Sniffing>)

  datatype Outbound =
    | Freedom(tag: string)
    | Blackhole(tag: string)
    | SocksOut(tag: string, address: string, port: int, user: string, pass: string)

  /** A routing rule; an absent condition is met by every packet. */
  datatype Rule = Rule(
    inboundTags: Option<seq<string>>, port: Option<int>, networks: Option<seq<string>>,
    ips: Option<seq<string>>, outboundTag: string)

  datatype Config = Config(inbounds: seq<Inbound>, outbounds: seq<Outbound>, rules: seq<Rule>, apiTag: string)

  // ---- clients of an inbound ------------------------------------------------

  function Email(c: Client): string { "client_" + c.id }

  function EmailKey(u: User): Key { Key(0, "", u.email) }

  function TrojanPassword(c: Client): Secret {
    var pw := TrimSpace(c.password);
    if pw != "" then Stored(pw) else DerivedFrom(c.id)
  }

  /** The guard both inbound kinds share: ExpireAt.Before(now), so the last instant still passes. */
  predicate Serving(c: Client, now: Time) {
    c.acct.enabled && !(!IsZero(c.acct.expireAt) && c.acct.expireAt < now)
  }

  /** model.AllowedNodes: explicit, non-empty grants of an enabled client that is not expired. */
  function AllowedNodes(c: Client, now: Time): set<string> {
    if !c.acct.enabled || (!IsZero(c.acct.expireAt) && now >= c.acct.expireAt) then {}
    else set id | id in c.nodeIDs && id != ""
  }

  method CollectAllowedNodes(c: Client, now: Time) returns (allowed: set<string>)
    ensures allowed == AllowedNodes(c, now)
  {
    allowed := {};
    if !c.acct.enabled || (!IsZero(c.acct.expireAt) && now >= c.acct.expireAt) {
      return;
    }
    for i := 0 to |c.nodeIDs|
      invariant allowed == set id | id in c.nodeIDs[..i] && id != ""
    {
      if c.nodeIDs[i] != "" {
        allowed := allowed + {c.nodeIDs[i]};
      }
    }
    assert c.nodeIDs[..|c.nodeIDs|] == c.nodeIDs;
  }

  function RelayUserOf(c: Client, relayID: string, now: Time): Option<User> {
    if Serving(c, now) && c.uuid != "" && relayID in c.relayIDs then Some(RelayUser(c.uuid, Email(c))) else None
  }

  /** protocol is lower case here. */
  function NodeUserOf(c: Client, nodeID: string, protocol: string, now: Time): Option<User> {
    if !Serving(c, now) || nodeID !in AllowedNodes(c, now) then None
    else if protocol == "trojan" then Some(TrojanUser(TrojanPassword(c), Email(c)))
    else if c.uuid == "" then None
    else if protocol == "vmess" then Some(VmessUser(c.uuid, Email(c)))
    else Some(VlessUser(c.uuid, Email(c)))
  }

  function RelayUsers(clients: seq<Client>, relayID: string, now: Time): seq<User> {
    StableSort(Collect(clients, c => RelayUserOf(c, relayID, now)), EmailKey)
  }

  function NodeUsers(clients: seq<Client>, nodeID: string, protocol: string, now: Time): seq<User> {
    StableSort(Collect(clients, c => NodeUserOf(c, nodeID, ToLower(protocol), now)), EmailKey)
  }

  predicate Contains(list: seq<string>, v: string) { v in list }

  method MakeRelayVlessClients(clients: seq<Client>, relayID: string, now: Time) returns (users: seq<User>)
    ensures users == RelayUsers(clients, relayID, now)
  {
    var bound: seq<User> := [];
    for i := 0 to |clients|
      invariant bound == Collect(clients[..i], c => RelayUserOf(c, relayID, now))
    {
      var c := clients[i];
      CollectStep(clients, i, c => RelayUserOf(c, relayID, now));
      if !c.acct.enabled || (!IsZero(c.acct.expireAt) && c.acct.expireAt < now) || c.uuid == "" {
        continue;
      }
      if Contains(c.relayIDs, relayID) {
        bound := bound + [RelayUser(c.uuid, Email(c))];
      }
    }
    assert clients[..|clients|] == clients;
    users := StableSort(bound, EmailKey);
  }

  method MakeInboundClients(clients: seq<Client>, nodeID: string, protocol: string, now: Time) returns (users: seq<User>)
    ensures users == NodeUsers(clients, nodeID, protocol, now)
  {
    var lower := ToLower(protocol);
    var bound: seq<User> := [];
    for i := 0 to |clients|
      invariant bound == Collect(clients[..i], c => NodeUserOf(c, nodeID, ToLower(protocol), now))
    {
      var c := clients[i];
      CollectStep(clients, i, c => NodeUserOf(c, nodeID, ToLower(protocol), now));
      if !c.acct.enabled || (!IsZero(c.acct.expireAt) && c.acct.expireAt < now) {
        continue;
      }
      var allowed := CollectAllowedNodes(c, now);
      if nodeID !in allowed {
        continue;
      }
      if lower == "trojan" {
        bound := bound + [TrojanUser(TrojanPassword(c), Email(c))];
      } else if lower == "vmess" {
        if c.uuid == "" {
          continue;
        }
        bound := bound + [VmessUser(c.uuid, Email(c))];
      } else {
        if c.uuid == "" {
          continue;
        }
        bound := bound + [VlessUser(c.uuid, Email(c))];
      }
    }
    assert clients[..|clients|] == clients;
    users := StableSort(bound, EmailKey);
  }

  // ---- inbounds, outbounds and rules ----------------------------------------

  function RealityOf(dest: string, serverName: string, privateKey: string, shortID: string, spiderX: string): Reality {
    Reality(OrDefault(dest, "www.intel.com:443"), OrDefault(serverName, "www.intel.com"), privateKey, shortID, OrDefault(spiderX, "/"))
  }

  function TrimSlash(s: string): string { OrDefault(Trim(s, '/'), "yuchen") }

  predicate Retired(n: Node) { ToLower(TrimSpace(n.protocol)) == "shadowsocks" }

  /** An enabled node whose inbound lists client credentials. */
  predicate CarriesUsers(n: Node) { n.enabled && !Retired(n) && n.protocol != "socks" }

  function NodeStream(n: Node): Stream {
    var security := if ToLower(n.protocol) == "vmess" && ToLower(n.security) == "reality" then "none" else n.security;
    Stream(n.transport, security,
      if n.transport == "ws" then Some(n.path) else None,
      if n.transport == "grpc" then Some(TrimSlash(if n.path == "" || n.path == "/" then "yuchen" else n.path)) else None,
      if security == "tls" then Some(n.sni) else None,
      if security == "reality"
      then Some(RealityOf(n.realityDest, n.sni, n.realityPrivateKey, n.realityShortID, n.realitySpiderX)) else None)
  }

  function NodeInbound(n: Node, clients: seq<Client>, now: Time): Option<Inbound> {
    if !n.enabled || Retired(n) then None
    else if n.protocol == "socks" then
      Some(SocksIn(n.id, n.port,
        if n.socksUsername == "" || n.socksPassword == "" then [] else [(n.socksUsername, n.socksPassword)], n.socksUDP, SNIFFING))
    else
      Some(UsersIn(n.id, n.port, n.protocol, NodeUsers(clients, n.id, n.protocol, now),
        ToLower(n.protocol) != "vmess" && ToLower(n.protocol) != "trojan", NodeStream(n), SNIFFING))
  }

  function InTag(id: string): string { "in_" + id }

  function OutTag(id: string): string { "out_" + id }

  /** Where a relay hands its traffic on. */
  datatype Landing = Landing(host: string, port: int, user: string, pass: string)

  /** The landing of a socks5_route relay, if the generator accepts it. */
  function LandingOf(r: RelayRoute, allNodes: map<string, Node>): Option<Landing> {
    var mode := if r.landingMode != "" then r.landingMode else if r.landingNodeID != "" then "panel_node" else "manual_socks5";
    var l :=
      if mode == "manual_socks5"
      then Some(Landing(r.manualSocksHost, r.manualSocksPort, r.manualSocksUsername, r.manualSocksPassword))
      else if r.landingNodeID !in allNodes then None
      else
        var n := allNodes[r.landingNodeID];
        if !n.enabled || n.port <= 0 || n.protocol != "socks" then None
        else Some(Landing(OrDefault(n.host, "127.0.0.1"), n.port, n.socksUsername, n.socksPassword));
    if l.None? || l.value.host == "" || l.value.port <= 0 || l.value.user == "" || l.value.pass == "" then None else l
  }

  /** A fixed-exit relay that gets its inbound, outbound and rule. */
  predicate Accepted(r: RelayRoute, allNodes: map<string, Node>) {
    r.enabled && r.relayPort > 0 && r.routeMode == "socks5_route" && LandingOf(r, allNodes).Some?
  }

  function RelayInbound(r: RelayRoute, clients: seq<Client>, allNodes: map<string, Node>, now: Time): Option<Inbound> {
    if !r.enabled || r.relayPort <= 0 then None
    else if r.routeMode == "socks5_route" then
      if LandingOf(r, allNodes).None? then None
      else Some(UsersIn(InTag(r.id), r.relayPort, "vless", RelayUsers(clients, r.id, now), true,
        Stream("tcp", "reality", None, None, None,
          Some(RealityOf(r.realityDest, r.relaySNI, r.realityPrivateKey, r.realityShortID, r.realitySpiderX))), SNIFFING))
    else if r.landingNodeID !in allNodes then None
    else
      var n := allNodes[r.landingNodeID];
      if !n.enabled || n.port <= 0 then None
      else Some(DoorIn(r.id, r.relayPort, OrDefault(n.host, "127.0.0.1"), n.port, OrDefault(r.relayNetwork, "tcp"), SNIFFING))
  }

  function ExitOf(r: RelayRoute, l: Landing): Outbound { SocksOut(OutTag(r.id), l.host, l.port, l.user, l.pass) }

  function BindingOf(r: RelayRoute): Rule { Rule(Some([InTag(r.id)]), None, None, None, OutTag(r.id)) }

  function ExitFor(r: RelayRoute, allNodes: map<string, Node>): Option<Outbound> {
    if Accepted(r, allNodes) then Some(ExitOf(r, LandingOf(r, allNodes).value)) else None
  }

  function BindingFor(r: RelayRoute, allNodes: map<string, Node>): Option<Rule> {
    if Accepted(r, allNodes) then Some(BindingOf(r)) else None
  }

  function NodeInbounds(nodes: seq<Node>, clients: seq<Client>, now: Time): seq<Inbound> {
    Collect(nodes, n => NodeInbound(n, clients, now))
  }

  function RelayInbounds(relays: seq<RelayRoute>, clients: seq<Client>, allNodes: map<string, Node>, now: Time): seq<Inbound> {
    Collect(relays, r => RelayInbound(r, clients, allNodes, now))
  }

  function Exits(relays: seq<RelayRoute>, allNodes: map<string, Node>): seq<Outbound> {
    Collect(relays, r => ExitFor(r, allNodes))
  }

  function Bindings(relays: seq<RelayRoute>, allNodes: map<string, Node>): seq<Rule> {
    Collect(relays, r => BindingFor(r, allNodes))
  }

  const CHINA_DNS := [
    "114.114.114.114", "114.114.115.115", "223.5.5.5", "223.6.6.6",
    "119.29.29.29", "180.76.76.76", "1.2.4.8", "210.2.4.8"]

  const BLOCK_DNS53 := Rule(None, Some(53), Some(["tcp", "udp"]), None, "blocked")
  const BLOCK_CHINA_DNS := Rule(None, None, None, Some(CHINA_DNS), "blocked")
  const BLOCK_QUIC := Rule(None, Some(443), Some(["udp"]), None, "blocked")

  /** Which blocking rules the normalized policy asks for; unknown modes count as compat. */
  function Blocks(p: NetworkPolicy): (bool, bool, bool) {
    if p.mode == "strict" then (true, true, true)
    else if p.mode == "custom" then (p.blockDNS53, p.blockChinaDNS, p.blockQUIC)
    else (false, false, false)
  }

  function PolicyRules(p: NetworkPolicy): seq<Rule> {
    var (dns, china, quic) := Blocks(p);
    (if dns then [BLOCK_DNS53] else []) + (if china then [BLOCK_CHINA_DNS] else []) + (if quic then [BLOCK_QUIC] else [])
  }

  const API_RULE := Rule(Some(["api"]), None, None, None, "api")
  const BASE_OUTBOUNDS := [Freedom("direct"), Blackhole("blocked")]

  function NodePort(n: Node): int { n.port }

  function RelayPort(r: RelayRoute): int { r.relayPort }

  function Ports<T(==)>(s: seq<T>, port: T -> int): set<int> { set x | x in s :: port(x) }

  lemma PortsLast<T>(init: seq<T>, last: T, port: T -> int)
    ensures Ports(init + [last], port) == Ports(init, port) + {port(last)}
  {
  }

  function UsedPorts(nodes: seq<Node>, relays: seq<RelayRoute>): set<int> {
    Ports(nodes, NodePort) + Ports(relays, RelayPort)
  }

  function Above(used: set<int>, p: int): set<int> { set k | k in used && p <= k }

  lemma AboveShrinks(used: set<int>, p: int)
    requires p in used
    ensures |Above(used, p)| == |Above(used, p + 1)| + 1
  {
    assert Above(used, p) == Above(used, p + 1) + {p};
  }

  /** The least port from p on that nothing configured uses. */
  function FirstFree(used: set<int>, p: int): (q: int)
    ensures p <= q && q !in used && forall k | p <= k < q :: k in used
    decreases |Above(used, p)|
  {
    if p in used then
      AboveShrinks(used, p);
      FirstFree(used, p + 1)
    else p
  }

  function StatsPort(nodes: seq<Node>, relays: seq<RelayRoute>): int {
    FirstFree(UsedPorts(nodes, relays), 10000)
  }

  function ServerConfig(nodes: seq<Node>, clients: seq<Client>, relays: seq<RelayRoute>,
                        allNodes: map<string, Node>, policy: NetworkPolicy, now: Time): Config {
    Config(
      NodeInbounds(nodes, clients, now) + RelayInbounds(relays, clients, allNodes, now) + [ApiIn("api", StatsPort(nodes, relays), None)],
      BASE_OUTBOUNDS + Exits(relays, allNodes),
      [API_RULE] + (Bindings(relays, allNodes) + PolicyRules(policy)),
      "api")
  }

  // ---- the generator itself -------------------------------------------------

  method ApplyNetworkPolicy(rules: seq<Rule>, policy: NetworkPolicy) returns (out: seq<Rule>)
    ensures out == rules + PolicyRules(policy)
  {
    out := rules;
    var (dns, china, quic) := Blocks(policy);
    if dns {
      out := out + [BLOCK_DNS53];
    }
    if china {
      out := out + [BLOCK_CHINA_DNS];
    }
    if quic {
      out := out + [BLOCK_QUIC];
    }
  }

  method CollectPorts(nodes: seq<Node>, relays: seq<RelayRoute>) returns (used: set<int>)
    ensures used == UsedPorts(nodes, relays)
  {
    var nodePorts: set<int> := {};
    for i := 0 to |nodes|
      invariant nodePorts == Ports(nodes[..i], NodePort)
    {
      assert nodes[..i + 1] == nodes[..i] + [nodes[i]];
      PortsLast(nodes[..i], nodes[i], NodePort);
      nodePorts := nodePorts + {nodes[i].port};
    }
    assert nodes[..|nodes|] == nodes;
    var relayPorts: set<int> := {};
    for i := 0 to |relays|
      invariant relayPorts == Ports(relays[..i], RelayPort)
    {
      assert relays[..i + 1] == relays[..i] + [relays[i]];
      PortsLast(relays[..i], relays[i], RelayPort);
      relayPorts := relayPorts + {relays[i].relayPort};
    }
    assert relays[..|relays|] == relays;
    used := nodePorts + relayPorts;
  }

  method FindStatsPort(nodes: seq<Node>, relays: seq<RelayRoute>) returns (statsPort: int)
    ensures statsPort == StatsPort(nodes, relays)
  {
    var used := CollectPorts(nodes, relays);
    statsPort := 10000;
    while statsPort in used
      invariant FirstFree(used, statsPort) == FirstFree(used, 10000)
      decreases |Above(used, statsPort)|
    {
      AboveShrinks(used, statsPort);
      statsPort := statsPort + 1;
    }
  }

  method GenerateNodeInbound(node: Node, clients: seq<Client>, now: Time) returns (inbound: Inbound)
    requires CarriesUsers(node)
    ensures NodeInbound(node, clients, now) == Some(inbound)
  {
    var users := MakeInboundClients(clients, node.id, node.protocol, now);
    var security := node.security;
    if ToLower(node.protocol) == "vmess" && ToLower(security) == "reality" {
      security := "none";
    }
    var decryption := false;
    if ToLower(node.protocol) != "vmess" && ToLower(node.protocol) != "trojan" {
      decryption := true;
    }
    var s := Stream(node.transport, security, None, None, None, None);
    if node.transport == "ws" {
      s := s.(wsPath := Some(node.path));
    } else if node.transport == "grpc" {
      var serviceName := node.path;
      if serviceName == "" || serviceName == "/" {
        serviceName := "yuchen";
      }
      s := s.(grpcService := Some(TrimSlash(serviceName)));
    }
    if security == "tls" {
      s := s.(tlsServerName := Some(node.sni));
    }
    if security == "reality" {
      s := s.(reality := Some(RealityOf(node.realityDest, node.sni, node.realityPrivateKey, node.realityShortID, node.realitySpiderX)));
    }
    inbound := UsersIn(node.id, node.port, node.protocol, users, decryption, s, SNIFFING);
  }

  method GenerateNodeInbounds(nodes: seq<Node>, clients: seq<Client>, now: Time) returns (inbounds: seq<Inbound>)
    ensures inbounds == NodeInbounds(nodes, clients, now)
  {
    inbounds := [];
    for i := 0 to |nodes|
      invariant inbounds == NodeInbounds(nodes[..i], clients, now)
    {
      var node := nodes[i];
      CollectStep(nodes, i, n => NodeInbound(n, clients, now));
      if !node.enabled || Retired(node) {
        continue;
      }
      if node.protocol == "socks" {
        var accounts := [(node.socksUsername, node.socksPassword)];
        if node.socksUsername == "" || node.socksPassword == "" {
          accounts := [];
        }
        inbounds := inbounds + [SocksIn(node.id, node.port, accounts, node.socksUDP, SNIFFING)];
        continue;
      }
      var inbound := GenerateNodeInbound(node, clients, now);
      inbounds := inbounds + [inbound];
    }
    assert nodes[..|nodes|] == nodes;
  }

  /** The landing a socks5_route relay resolves to, or none when the generator skips it. */
  method ResolveLanding(relay: RelayRoute, allNodes: map<string, Node>) returns (l: Option<Landing>)
    ensures l == LandingOf(relay, allNodes)
  {
    var targetHost, targetPort, socksUser, socksPass := "", 0, "", "";
    var landingMode := relay.landingMode;
    if landingMode == "" {
      if relay.landingNodeID != "" {
        landingMode := "panel_node";
      } else {
        landingMode := "manual_socks5";
      }
    }
    if landingMode == "manual_socks5" {
      targetHost, targetPort := relay.manualSocksHost, relay.manualSocksPort;
      socksUser, socksPass := relay.manualSocksUsername, relay.manualSocksPassword;
    } else {
      if relay.landingNodeID !in allNodes {
        return None;
      }
      var landing := allNodes[relay.landingNodeID];
      if !landing.enabled || landing.port <= 0 || landing.protocol != "socks" {
        return None;
      }
      targetHost := landing.host;
      if targetHost == "" {
        targetHost := "127.0.0.1";
      }
      targetPort, socksUser, socksPass := landing.port, landing.socksUsername, landing.socksPassword;
    }
    if targetHost == "" || targetPort <= 0 || socksUser == "" || socksPass == "" {
      return None;
    }
    return Some(Landing(targetHost, targetPort, socksUser, socksPass));
  }

  method GenerateRelays(relays: seq<RelayRoute>, clients: seq<Client>, allNodes: map<string, Node>, now: Time)
    returns (inbounds: seq<Inbound>, outbounds: seq<Outbound>, rules: seq<Rule>)
    ensures inbounds == RelayInbounds(relays, clients, allNodes, now)
    ensures outbounds == Exits(relays, allNodes)
    ensures rules == Bindings(relays, allNodes)
  {
    inbounds, outbounds, rules := [], [], [];
    for i := 0 to |relays|
      invariant inbounds == RelayInbounds(relays[..i], clients, allNodes, now)
      invariant outbounds == Exits(relays[..i], allNodes)
      invariant rules == Bindings(relays[..i], allNodes)
    {
      var relay := relays[i];
      CollectStep(relays, i, r => RelayInbound(r, clients, allNodes, now));
      CollectStep(relays, i, r => ExitFor(r, allNodes));
      CollectStep(relays, i, r => BindingFor(r, allNodes));
      if !relay.enabled || relay.relayPort <= 0 {
        continue;
      }
      if relay.routeMode == "socks5_route" {
        var l := ResolveLanding(relay, allNodes);
        if l == None {
          continue;
        }
        var users := MakeRelayVlessClients(clients, relay.id, now);
        var stream := Stream("tcp", "reality", None, None, None,
          Some(RealityOf(relay.realityDest, relay.relaySNI, relay.realityPrivateKey, relay.realityShortID, relay.realitySpiderX)));
        inbounds := inbounds + [UsersIn(InTag(relay.id), relay.relayPort, "vless", users, true, stream, SNIFFING)];
        outbounds := outbounds + [SocksOut(OutTag(relay.id), l.value.host, l.value.port, l.value.user, l.value.pass)];
        rules := rules + [Rule(Some([InTag(relay.id)]), None, None, None, OutTag(relay.id))];
      } else {
        if relay.landingNodeID !in allNodes {
          continue;
        }
        var landing := allNodes[relay.landingNodeID];
        if !landing.enabled || landing.port <= 0 {
          continue;
        }
        inbounds := inbounds +
          [DoorIn(relay.id, relay.relayPort, OrDefault(landing.host, "127.0.0.1"), landing.port, OrDefault(relay.relayNetwork, "tcp"), SNIFFING)];
      }
    }
    assert relays[..|relays|] == relays;
  }

  method GenerateServerConfig(nodes: seq<Node>, clients: seq<Client>, relays: seq<RelayRoute>,
                              allNodes: map<string, Node>, policy: NetworkPolicy, now: Time) returns (cfg: Config)
    ensures cfg == ServerConfig(nodes, clients, relays, allNodes, policy, now)
  {
    var inbounds := GenerateNodeInbounds(nodes, clients, now);
    var relayInbounds, exits, rules := GenerateRelays(relays, clients, allNodes, now);
    inbounds := inbounds + relayInbounds;
    var outbounds := BASE_OUTBOUNDS + exits;
    rules := ApplyNetworkPolicy(rules, policy);
    var statsPort := FindStatsPort(nodes, relays);
    inbounds := inbounds + [ApiIn("api", statsPort, None)];
    rules := [API_RULE] + rules;
    cfg := Config(inbounds, outbounds, rules, "api");
  }
}
