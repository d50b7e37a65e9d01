// The records that accepted node, relay and client requests leave behind, spelt out over the body
// that was sent (backend/internal/api/nodes.go, relays.go, clients.go).

module Forms {
  import opened Wrappers
  import opened Text
  import opened Model
  import opened Integrity
  import opened LocalServers
  import opened NodeOps
  import opened RelayOps
  import opened Records
  import Ports
  import V = Versions

  // ---- what a body asks for -----------------------------------------------------------

  function Lower(field: string): string { ToLower(TrimSpace(field)) }

  function AskedLower(field: string, fallback: string): string { if Lower(field) == "" then fallback else Lower(field) }

  /** The address of a server. */
  function AddressOf(s: Server): string { if s.host != "" then s.host else s.ip }

  /** What stands before the first colon. */
  lemma HostPartSays(host: string, rest: string)
    requires ':' !in host
    ensures HostPart(host + [':'] + rest) == host && HostPart(host) == host
  {
    V.SplitAppend(host, ':', rest);
  }

  lemma DefaultHost()
    ensures HostPart("www.intel.com:443") == "www.intel.com"
  {
    var host: string, rest: string := "www.intel.com", "443";
    assert "www.intel.com:443" == host + [':'] + rest;
    HostPartSays(host, rest);
  }

  /** A key pair as given, completed from its private part, or new; none when that fails. */
  predicate HasKeys(privateKey: string, publicKey: string, g: Generated) {
    if privateKey == "" then g.keys.Some? else publicKey == "" ==> g.derivedPublic.Some?
  }

  predicate AreKeys(privatePart: string, publicPart: string, privateKey: string, publicKey: string, g: Generated) {
    if privateKey == "" then g.keys == Some((privatePart, publicPart))
    else privatePart == privateKey && if publicKey == "" then g.derivedPublic == Some(publicPart) else publicPart == publicKey
  }

  lemma KeysSay(privateKey: string, publicKey: string, g: Generated)
    ensures var keys := KeyPair(privateKey, publicKey, g);
      && (keys.Some? <==> HasKeys(privateKey, publicKey, g))
      && (keys.Some? ==> AreKeys(keys.value.0, keys.value.1, privateKey, publicKey, g))
  {
  }

  // ---- nodes ----------------------------------------------------------------------------

  predicate AsksSocks(body: Node) { Lower(body.protocol) == "socks" || Lower(body.protocol) == "socks5" }

  function AskedProtocol(body: Node): string { AskedLower(body.protocol, "vless") }

  /** VLESS runs over Reality unless something else is said, trojan over TLS; VMess never runs over Reality. */
  function AskedSecurity(body: Node): string {
    if AskedProtocol(body) == "vmess" && Lower(body.security) == "reality" then "none"
    else AskedLower(body.security, if AskedProtocol(body) == "vless" then "reality" else if AskedProtocol(body) == "trojan" then "tls" else "none")
  }

  function AskedTransport(body: Node): string { AskedLower(body.transport, "tcp") }

  /** Whether another enabled node of the server has this port. */
  predicate Occupied(nodes: map<string, Node>, serverID: string, port: int, currentID: string) {
    exists id | id in nodes && id != currentID :: nodes[id].enabled && nodes[id].serverID == serverID && nodes[id].port == port
  }

  lemma ModesSay(body: Node, serverID: string)
    ensures Modes(PlacedNode(body, serverID)) == (AskedProtocol(body), AskedTransport(body), AskedSecurity(body))
  {
  }

  /** What a body becomes before Reality and the checks: a SOCKS5 inbound, or what it asks for. */
  function Filled(body: Node, serverID: string, srv: Server, g: Generated): Node {
    var host := Asked(body.host, AddressOf(srv));
    if AsksSocks(body) then
      Node(body.id, serverID, TrimSpace(body.name), "socks", host, body.port, "tcp", "none",
           "", "", "", "", "", "", "", "", Asked(body.socksUsername, g.socksUsername), Asked(body.socksPassword, g.token),
           body.socksUDP, body.enabled)
    else
      Node(body.id, serverID, TrimSpace(body.name), AskedProtocol(body), host, body.port, AskedTransport(body), AskedSecurity(body),
           Asked(body.sni, if AskedSecurity(body) in {"none", "reality"} then "" else host),
           Asked(body.path, if AskedTransport(body) == "ws" then "/yuchen" else ""),
           TrimSpace(body.fingerprint), TrimSpace(body.realityDest), TrimSpace(body.realityPrivateKey), TrimSpace(body.realityPublicKey),
           TrimSpace(body.realityShortID), TrimSpace(body.realitySpiderX), TrimSpace(body.socksUsername), TrimSpace(body.socksPassword),
           body.socksUDP, body.enabled)
  }

  /** The protocol is SOCKS5 exactly when that is asked for, in either spelling. */
  lemma SocksWhenAsked(body: Node)
    ensures AskedProtocol(body) in {"socks", "socks5"} <==> AsksSocks(body)
  {
  }

  lemma FilledSays(body: Node, serverID: string, srv: Server, g: Generated)
    ensures Defaulted(PlacedNode(body, serverID), srv, g) == Filled(body, serverID, srv, g)
  {
    SocksWhenAsked(body);
    ModesSay(body, serverID);
    if AsksSocks(body) {
      SocksFilled(PlacedNode(body, serverID), srv, g);
    } else {
      UsersFilled(PlacedNode(body, serverID), srv, g);
    }
  }

  /** An edit that names no security keeps the stored one, except that VMess never runs over Reality; any other edit is as sent. */
  lemma OmittedSecurityStays(body: Node, was: Node)
    ensures Lower(body.security) != "" ==> NodeOps.Edited(body, was) == body
    ensures Lower(body.security) == "" ==> NodeOps.Edited(body, was) == body.(security := was.security)
    ensures Lower(body.security) == "" && Lower(was.security) != "" && !(AskedProtocol(body) == "vmess" && Lower(was.security) == "reality") ==>
      AskedSecurity(NodeOps.Edited(body, was)) == Lower(was.security)
  {
  }

  lemma SocksFilled(n: Node, srv: Server, g: Generated)
    requires Modes(n).0 in {"socks", "socks5"}
    ensures Defaulted(n, srv, g) ==
      Node(n.id, n.serverID, n.name, "socks", OrDefault(n.host, AddressOf(srv)), n.port, "tcp", "none",
           "", "", "", "", "", "", "", "", OrDefault(n.socksUsername, g.socksUsername), OrDefault(n.socksPassword, g.token),
           n.socksUDP, n.enabled)
  {
  }

  lemma UsersFilled(n: Node, srv: Server, g: Generated)
    requires Modes(n).0 !in {"socks", "socks5"}
    ensures var (protocol, transport, security) := Modes(n); var host := OrDefault(n.host, AddressOf(srv));
      Defaulted(n, srv, g) == n.(protocol := protocol, transport := transport, security := security, host := host,
        sni := OrDefault(n.sni, if security in {"none", "reality"} then "" else host),
        path := OrDefault(n.path, if transport == "ws" then "/yuchen" else ""))
  {
  }

  /** Reality runs over plain TCP, without a path, behind a destination whose host is the server name, and with keys. */
  function Behind(n: Node, privateKey: string, publicKey: string, g: Generated): Node {
    var dest := OrDefault(n.realityDest, "www.intel.com:443");
    n.(transport := "tcp", path := "", realityDest := dest, sni := OrDefault(n.sni, HostPart(dest)), fingerprint := OrDefault(n.fingerprint, "chrome"),
       realitySpiderX := OrDefault(n.realitySpiderX, "/"), realityShortID := OrDefault(n.realityShortID, g.shortID),
       realityPrivateKey := privateKey, realityPublicKey := publicKey)
  }

  lemma DressedSays(n: Node, g: Generated)
    ensures var d := Dressed(n, g);
      && (d.Some? <==> HasKeys(n.realityPrivateKey, n.realityPublicKey, g))
      && (d.Some? ==> AreKeys(d.value.realityPrivateKey, d.value.realityPublicKey, n.realityPrivateKey, n.realityPublicKey, g))
      && (d.Some? ==> d.value == Behind(n, d.value.realityPrivateKey, d.value.realityPublicKey, g))
  {
    KeysSay(n.realityPrivateKey, n.realityPublicKey, g);
  }

  predicate OverReality(body: Node) { !AsksSocks(body) && AskedSecurity(body) == "reality" }

  /** What is stored is what was asked for, with its defaults: as it is, or behind Reality. */
  lemma NodeSays(nodes: map<string, Node>, servers: map<string, Server>, body: Node, serverID: string, currentID: string, g: Generated)
    requires NormalForm(nodes, servers, PlacedNode(body, serverID), currentID, g).Some?
    ensures var f := NormalForm(nodes, servers, PlacedNode(body, serverID), currentID, g).value;
      && (!OverReality(body) ==> f == Filled(body, serverID, servers[serverID], g))
      && (OverReality(body) ==>
            f == Behind(Filled(body, serverID, servers[serverID], g), f.realityPrivateKey, f.realityPublicKey, g) &&
            AreKeys(f.realityPrivateKey, f.realityPublicKey, TrimSpace(body.realityPrivateKey), TrimSpace(body.realityPublicKey), g))
  {
    FilledSays(body, serverID, servers[serverID], g);
    DressedSays(Filled(body, serverID, servers[serverID], g), g);
  }

  predicate SocksAcceptable(body: Node, g: Generated) {
    Asked(body.socksUsername, g.socksUsername) != "" && Asked(body.socksPassword, g.token) != ""
  }

  predicate UsersAcceptable(body: Node, g: Generated) {
    && AskedProtocol(body) in {"vless", "vmess", "trojan"} && AskedSecurity(body) in {"none", "tls", "reality"}
    && if AskedSecurity(body) == "reality" then HasKeys(TrimSpace(body.realityPrivateKey), TrimSpace(body.realityPublicKey), g)
       else AskedTransport(body) in {"tcp", "ws", "grpc"}
  }

  /** A body that can be served as it is. */
  predicate NodeAcceptable(body: Node, g: Generated) {
    if AsksSocks(body) then SocksAcceptable(body, g) else UsersAcceptable(body, g)
  }

  predicate PortFree(nodes: map<string, Node>, body: Node, serverID: string, currentID: string) {
    1 <= body.port <= 65535 && (body.enabled ==> !Occupied(nodes, serverID, body.port, currentID))
  }

  predicate Servable(f: Node) {
    if f.protocol == "socks" then f.socksUsername != "" && f.socksPassword != ""
    else f.protocol in {"vless", "vmess", "trojan"} && f.transport in {"tcp", "ws", "grpc"} && f.security in {"none", "tls", "reality"}
  }

  lemma AdmissibleSays(nodes: map<string, Node>, f: Node, currentID: string)
    ensures Admissible(nodes, f, currentID) <==> PortFree(nodes, f, f.serverID, currentID) && Servable(f)
  {
  }

  lemma SocksAccepted(nodes: map<string, Node>, body: Node, serverID: string, srv: Server, currentID: string, g: Generated)
    requires AsksSocks(body)
    ensures Admissible(nodes, Filled(body, serverID, srv, g), currentID) <==> PortFree(nodes, body, serverID, currentID) && SocksAcceptable(body, g)
  {
    AdmissibleSays(nodes, Filled(body, serverID, srv, g), currentID);
  }

  lemma PlainAccepted(nodes: map<string, Node>, body: Node, serverID: string, srv: Server, currentID: string, g: Generated)
    requires !AsksSocks(body) && AskedSecurity(body) != "reality"
    ensures Admissible(nodes, Filled(body, serverID, srv, g), currentID) <==> PortFree(nodes, body, serverID, currentID) && UsersAcceptable(body, g)
  {
    SocksWhenAsked(body);
    AdmissibleSays(nodes, Filled(body, serverID, srv, g), currentID);
  }

  lemma RealityAccepted(nodes: map<string, Node>, body: Node, serverID: string, srv: Server, currentID: string, g: Generated)
    requires OverReality(body)
    ensures var d := Dressed(Filled(body, serverID, srv, g), g);
      d.Some? && Admissible(nodes, d.value, currentID) <==> PortFree(nodes, body, serverID, currentID) && UsersAcceptable(body, g)
  {
    SocksWhenAsked(body);
    DressedSays(Filled(body, serverID, srv, g), g);
    if Dressed(Filled(body, serverID, srv, g), g).Some? {
      AdmissibleSays(nodes, Dressed(Filled(body, serverID, srv, g), g).value, currentID);
    }
  }

  /** Exactly these bodies are accepted: named, on an existing server, on a port that is free if the node is to be enabled. */
  lemma NodeAcceptedExactly(nodes: map<string, Node>, servers: map<string, Server>, body: Node, serverID: string, currentID: string, g: Generated)
    ensures NormalForm(nodes, servers, PlacedNode(body, serverID), currentID, g).Some? <==>
      && serverID != "" && serverID in servers && TrimSpace(body.name) != ""
      && PortFree(nodes, body, serverID, currentID) && NodeAcceptable(body, g)
  {
    if serverID in servers {
      FilledSays(body, serverID, servers[serverID], g);
      if AsksSocks(body) {
        SocksAccepted(nodes, body, serverID, servers[serverID], currentID, g);
      } else if AskedSecurity(body) == "reality" {
        RealityAccepted(nodes, body, serverID, servers[serverID], currentID, g);
      } else {
        PlainAccepted(nodes, body, serverID, servers[serverID], currentID, g);
      }
    }
  }

  /** What is generated is not blank. */
  predicate Generates(g: Generated) {
    && g.shortID != ""
    && (g.keys.Some? ==> g.keys.value.0 != "" && g.keys.value.1 != "")
    && (g.derivedPublic.Some? ==> g.derivedPublic.value != "")
  }

  /**
   A normal form is normal: storing it again, on its port if that is free for it, changes nothing,
   whatever is generated for the second request.
   */
  lemma NodeFormIsStable(nodes: map<string, Node>, servers: map<string, Server>, n: Node, currentID: string, g: Generated,
                         others: map<string, Node>, second: Generated)
    requires NormalForm(nodes, servers, n, currentID, g).Some? && Generates(g)
    requires PortGuard(others, NormalForm(nodes, servers, n, currentID, g).value, currentID)
    ensures NormalForm(others, servers, NormalForm(nodes, servers, n, currentID, g).value, currentID, second) ==
            NormalForm(nodes, servers, n, currentID, g)
  {
    NormalFormIsValid(nodes, servers, n, currentID, g);
    var f, srv := NormalForm(nodes, servers, n, currentID, g).value, servers[n.serverID];
    DefaultsAreStable(n, srv, g, second);
    var d := Defaulted(n, srv, g);
    if d.security == "reality" {
      DressedTwice(d, g, second);
      DressedKeepsDefaults(d, srv, g, second);
    }
  }

  lemma DefaultsAreStable(n: Node, srv: Server, g: Generated, second: Generated)
    requires SocksComplete(Defaulted(n, srv, g))
    ensures Defaulted(Defaulted(n, srv, g), srv, second) == Defaulted(n, srv, g)
  {
  }

  predicate SocksComplete(n: Node) { n.protocol == "socks" ==> n.socksUsername != "" && n.socksPassword != "" }

  lemma DressedTwice(n: Node, g: Generated, second: Generated)
    requires Dressed(n, g).Some? && Generates(g)
    ensures Dressed(Dressed(n, g).value, second) == Dressed(n, g)
  {
  }

  lemma DressedKeepsDefaults(n: Node, srv: Server, g: Generated, second: Generated)
    requires Dressed(n, g).Some? && Defaulted(n, srv, second) == n && n.security == "reality"
    ensures Defaulted(Dressed(n, g).value, srv, second) == Dressed(n, g).value
  {
    var d := Dressed(n, g).value;
    assert Modes(n).0 !in {"socks", "socks5"} by {
      if Modes(n).0 in {"socks", "socks5"} {
        SocksFilled(n, srv, second);
      }
    }
    UsersFilled(n, srv, second);
    assert Modes(d) == (n.protocol, "tcp", "reality");
    UsersFilled(d, srv, second);
  }

  // ---- relays ---------------------------------------------------------------------------

  function AskedMode(body: RelayRoute): string { AskedLower(body.routeMode, "tcp_forward") }

  function AskedLanding(body: RelayRoute): string {
    AskedLower(body.landingMode, if TrimSpace(body.landingNodeID) != "" then "panel_node" else "manual_socks5")
  }

  function AskedNetwork(body: RelayRoute): string { AskedLower(body.relayNetwork, "tcp") }

  /** Whether another enabled relay of the server has this port. */
  predicate RelayOccupied(relays: map<string, RelayRoute>, serverID: string, port: int, currentID: string) {
    exists id | id in relays && id != currentID :: relays[id].enabled && relays[id].relayServerID == serverID && relays[id].relayPort == port
  }

  predicate RelayPortFree(nodes: map<string, Node>, relays: map<string, RelayRoute>, body: RelayRoute, serverID: string, currentID: string) {
    10000 <= body.relayPort <= 65535 && !Occupied(nodes, serverID, body.relayPort, "") && !RelayOccupied(relays, serverID, body.relayPort, currentID)
  }

  /** What a body becomes before its landing is looked at. */
  function FilledRelay(body: RelayRoute, serverID: string, srv: Server): RelayRoute {
    RelayRoute(body.id, TrimSpace(body.name), serverID, TrimSpace(body.landingNodeID), Asked(body.relayHost, AddressOf(srv)),
               body.relayPort, Lower(body.landingMode), TrimSpace(body.manualSocksHost), body.manualSocksPort,
               TrimSpace(body.manualSocksUsername), TrimSpace(body.manualSocksPassword), AskedMode(body), Lower(body.relayNetwork),
               TrimSpace(body.relaySNI), TrimSpace(body.relayFingerprint), TrimSpace(body.realityDest), TrimSpace(body.realityPrivateKey),
               TrimSpace(body.realityPublicKey), TrimSpace(body.realityShortID), TrimSpace(body.realitySpiderX), body.enabled)
  }

  predicate KnownMode(body: RelayRoute) { AskedMode(body) == "tcp_forward" || AskedMode(body) == "socks5_route" }

  lemma RelayFormSays(nodes: map<string, Node>, relays: map<string, RelayRoute>, servers: map<string, Server>,
                      body: RelayRoute, serverID: string, currentID: string, g: Generated)
    ensures RelayForm(nodes, relays, servers, PlacedRelay(body, serverID), currentID, g) ==
      if serverID in servers && TrimSpace(body.name) != "" && KnownMode(body) && RelayPortFree(nodes, relays, body, serverID, currentID)
      then ModeChecked(nodes, FilledRelay(body, serverID, servers[serverID]), g) else None
  {
    if serverID in servers {
      var r, srv := PlacedRelay(body, serverID), servers[serverID];
      assert r.(routeMode := OrDefault(r.routeMode, "tcp_forward"), relayHost := OrDefault(r.relayHost, OrDefault(srv.host, srv.ip))) ==
             FilledRelay(body, serverID, srv);
    }
    SamePorts(nodes, relays, serverID, body.relayPort, currentID);
  }

  lemma SamePorts(nodes: map<string, Node>, relays: map<string, RelayRoute>, serverID: string, port: int, currentID: string)
    ensures Ports.PortTaken(nodes, serverID, port, "") <==> Occupied(nodes, serverID, port, "")
    ensures Ports.RelayPortTaken(relays, serverID, port, currentID) <==> RelayOccupied(relays, serverID, port, currentID)
  {
  }

  /** An enabled VLESS Reality node that can carry the network. */
  predicate ForwardAcceptable(nodes: map<string, Node>, id: string, network: string) {
    && id != "" && id in nodes && nodes[id].enabled && nodes[id].protocol == "vless" && nodes[id].security == "reality"
    && (network in {"tcp", "tcp,udp"} || (network == "udp" && nodes[id].transport !in {"", "tcp"}))
  }

  lemma ForwardedSays(nodes: map<string, Node>, r: RelayRoute)
    ensures var network := if r.relayNetwork == "" then "tcp" else r.relayNetwork;
      Forwarded(nodes, r) == if ForwardAcceptable(nodes, r.landingNodeID, network) then Some(r.(relayNetwork := network)) else None
  {
  }

  /** An enabled SOCKS5 node with credentials. */
  predicate NodeLands(nodes: map<string, Node>, id: string) {
    && id != "" && id in nodes && nodes[id].enabled && nodes[id].protocol == "socks"
    && TrimSpace(nodes[id].socksUsername) != "" && TrimSpace(nodes[id].socksPassword) != ""
  }

  /** Or an address with credentials. */
  predicate AddressLands(host: string, port: int, username: string, password: string) {
    host != "" && 1 <= port <= 65535 && username != "" && password != ""
  }

  /** The landing of a fixed exit, once its mode is known; a manual one names no node. */
  function Landed(r: RelayRoute, mode: string): RelayRoute {
    r.(landingMode := mode, landingNodeID := if mode == "panel_node" then r.landingNodeID else "")
  }

  lemma ExitCheckedSays(nodes: map<string, Node>, r: RelayRoute)
    ensures var mode := if r.landingMode != "" then r.landingMode else if r.landingNodeID != "" then "panel_node" else "manual_socks5";
      ExitChecked(nodes, r) ==
        if (mode == "panel_node" && NodeLands(nodes, r.landingNodeID)) ||
           (mode == "manual_socks5" && AddressLands(r.manualSocksHost, r.manualSocksPort, r.manualSocksUsername, r.manualSocksPassword))
        then Some(Landed(r, mode)) else None
  {
  }

  /** VLESS over Reality and TCP, for a fixed exit. */
  function BehindRelay(r: RelayRoute, privateKey: string, publicKey: string, g: Generated): RelayRoute {
    var dest := OrDefault(r.realityDest, "www.intel.com:443");
    r.(relayNetwork := "tcp", realityDest := dest, relaySNI := OrDefault(r.relaySNI, HostPart(dest)),
       relayFingerprint := OrDefault(r.relayFingerprint, "chrome"), realitySpiderX := OrDefault(r.realitySpiderX, "/"),
       realityShortID := OrDefault(r.realityShortID, g.shortID), realityPrivateKey := privateKey, realityPublicKey := publicKey)
  }

  lemma DressedRelaySays(r: RelayRoute, g: Generated)
    ensures var d := DressedRelay(r, g);
      && (d.Some? <==> HasKeys(r.realityPrivateKey, r.realityPublicKey, g))
      && (d.Some? ==> AreKeys(d.value.realityPrivateKey, d.value.realityPublicKey, r.realityPrivateKey, r.realityPublicKey, g))
      && (d.Some? ==> d.value == BehindRelay(r, d.value.realityPrivateKey, d.value.realityPublicKey, g))
  {
    KeysSay(r.realityPrivateKey, r.realityPublicKey, g);
  }

  predicate ExitAcceptable(nodes: map<string, Node>, body: RelayRoute, g: Generated) {
    && HasKeys(TrimSpace(body.realityPrivateKey), TrimSpace(body.realityPublicKey), g)
    && ((AskedLanding(body) == "panel_node" && NodeLands(nodes, TrimSpace(body.landingNodeID))) ||
        (AskedLanding(body) == "manual_socks5" &&
         AddressLands(TrimSpace(body.manualSocksHost), body.manualSocksPort, TrimSpace(body.manualSocksUsername), TrimSpace(body.manualSocksPassword))))
  }

  predicate LandsAsAsked(nodes: map<string, Node>, body: RelayRoute, g: Generated) {
    || (AskedMode(body) == "tcp_forward" && ForwardAcceptable(nodes, TrimSpace(body.landingNodeID), AskedNetwork(body)))
    || (AskedMode(body) == "socks5_route" && ExitAcceptable(nodes, body, g))
  }

  lemma LandingsAccepted(nodes: map<string, Node>, body: RelayRoute, serverID: string, srv: Server, g: Generated)
    requires KnownMode(body)
    ensures ModeChecked(nodes, FilledRelay(body, serverID, srv), g).Some? <==> LandsAsAsked(nodes, body, g)
  {
    var r := FilledRelay(body, serverID, srv);
    if AskedMode(body) == "tcp_forward" {
      ForwardedSays(nodes, r);
    } else {
      ExitCheckedSays(nodes, r);
      if ExitChecked(nodes, r).Some? {
        DressedRelaySays(ExitChecked(nodes, r).value, g);
      }
    }
  }

  /** Exactly these bodies are accepted: named, on an existing server and a free port from 10000, with a landing of their mode. */
  lemma RelayAcceptedExactly(nodes: map<string, Node>, relays: map<string, RelayRoute>, servers: map<string, Server>,
                             body: RelayRoute, serverID: string, currentID: string, g: Generated)
    ensures RelayForm(nodes, relays, servers, PlacedRelay(body, serverID), currentID, g).Some? <==>
      serverID in servers && TrimSpace(body.name) != "" && RelayPortFree(nodes, relays, body, serverID, currentID) && LandsAsAsked(nodes, body, g)
  {
    RelayFormSays(nodes, relays, servers, body, serverID, currentID, g);
    if serverID in servers && KnownMode(body) {
      LandingsAccepted(nodes, body, serverID, servers[serverID], g);
    }
  }

  lemma ForwardSays(nodes: map<string, Node>, body: RelayRoute, serverID: string, srv: Server, g: Generated)
    requires AskedMode(body) == "tcp_forward" && ModeChecked(nodes, FilledRelay(body, serverID, srv), g).Some?
    ensures ModeChecked(nodes, FilledRelay(body, serverID, srv), g).value == FilledRelay(body, serverID, srv).(relayNetwork := AskedNetwork(body))
  {
    ForwardedSays(nodes, FilledRelay(body, serverID, srv));
  }

  lemma ExitRelaySays(nodes: map<string, Node>, body: RelayRoute, serverID: string, srv: Server, g: Generated)
    requires AskedMode(body) == "socks5_route" && ModeChecked(nodes, FilledRelay(body, serverID, srv), g).Some?
    ensures var f := ModeChecked(nodes, FilledRelay(body, serverID, srv), g).value;
      && f == BehindRelay(Landed(FilledRelay(body, serverID, srv), AskedLanding(body)), f.realityPrivateKey, f.realityPublicKey, g)
      && AreKeys(f.realityPrivateKey, f.realityPublicKey, TrimSpace(body.realityPrivateKey), TrimSpace(body.realityPublicKey), g)
  {
    var r := FilledRelay(body, serverID, srv);
    ExitCheckedSays(nodes, r);
    DressedRelaySays(ExitChecked(nodes, r).value, g);
  }

  /** What is stored is what was asked for: a forwarding relay with its network, a fixed exit with its landing, behind Reality. */
  lemma RelaySays(nodes: map<string, Node>, relays: map<string, RelayRoute>, servers: map<string, Server>,
                  body: RelayRoute, serverID: string, currentID: string, g: Generated)
    requires RelayForm(nodes, relays, servers, PlacedRelay(body, serverID), currentID, g).Some?
    ensures var f, filled := RelayForm(nodes, relays, servers, PlacedRelay(body, serverID), currentID, g).value, FilledRelay(body, serverID, servers[serverID]);
      && (AskedMode(body) == "tcp_forward" ==> f == filled.(relayNetwork := AskedNetwork(body)))
      && (AskedMode(body) != "tcp_forward" ==>
            f == BehindRelay(Landed(filled, AskedLanding(body)), f.realityPrivateKey, f.realityPublicKey, g) &&
            AreKeys(f.realityPrivateKey, f.realityPublicKey, TrimSpace(body.realityPrivateKey), TrimSpace(body.realityPublicKey), g))
  {
    RelayFormSays(nodes, relays, servers, body, serverID, currentID, g);
    if AskedMode(body) == "tcp_forward" {
      ForwardSays(nodes, body, serverID, servers[serverID], g);
    } else {
      ExitRelaySays(nodes, body, serverID, servers[serverID], g);
    }
  }

  lemma DressedRelayTwice(r: RelayRoute, g: Generated, second: Generated)
    requires DressedRelay(r, g).Some? && Generates(g)
    ensures DressedRelay(DressedRelay(r, g).value, second) == DressedRelay(r, g)
  {
  }

  lemma LandedTwice(nodes: map<string, Node>, r: RelayRoute, g: Generated)
    requires ExitChecked(nodes, r).Some? && DressedRelay(ExitChecked(nodes, r).value, g).Some?
    ensures ExitChecked(nodes, DressedRelay(ExitChecked(nodes, r).value, g).value) == DressedRelay(ExitChecked(nodes, r).value, g)
  {
    ExitCheckedSays(nodes, r);
    ExitCheckedSays(nodes, DressedRelay(ExitChecked(nodes, r).value, g).value);
  }

  lemma ModeCheckedTwice(nodes: map<string, Node>, r: RelayRoute, g: Generated, second: Generated)
    requires ModeChecked(nodes, r, g).Some? && Generates(g)
    ensures ModeChecked(nodes, ModeChecked(nodes, r, g).value, second) == ModeChecked(nodes, r, g)
  {
    if r.routeMode == "tcp_forward" {
      ForwardedSays(nodes, r);
      ForwardedSays(nodes, Forwarded(nodes, r).value);
    } else {
      LandedTwice(nodes, r, g);
      DressedRelayTwice(ExitChecked(nodes, r).value, g, second);
    }
  }

  /** Storing a relay's normal form again changes nothing, as long as its port is still free for it. */
  lemma RelayFormIsStable(nodes: map<string, Node>, relays: map<string, RelayRoute>, servers: map<string, Server>,
                          r: RelayRoute, currentID: string, g: Generated, others: map<string, RelayRoute>, second: Generated)
    requires RelayForm(nodes, relays, servers, r, currentID, g).Some? && Generates(g)
    requires !Ports.RelayPortTaken(others, r.relayServerID, r.relayPort, currentID)
    ensures RelayForm(nodes, others, servers, RelayForm(nodes, relays, servers, r, currentID, g).value, currentID, second) ==
            RelayForm(nodes, relays, servers, r, currentID, g)
  {
    var srv := servers[r.relayServerID];
    var asked := r.(routeMode := OrDefault(r.routeMode, "tcp_forward"), relayHost := OrDefault(r.relayHost, OrDefault(srv.host, srv.ip)));
    ModeCheckedTwice(nodes, asked, g, second);
    ModeCheckedKeeps(nodes, asked, g);
  }

  lemma ModeCheckedKeeps(nodes: map<string, Node>, r: RelayRoute, g: Generated)
    requires ModeChecked(nodes, r, g).Some?
    ensures var f := ModeChecked(nodes, r, g).value;
      f.name == r.name && f.routeMode == r.routeMode && f.relayHost == r.relayHost && f.relayServerID == r.relayServerID && f.relayPort == r.relayPort
  {
    if r.routeMode == "tcp_forward" {
      ForwardedSays(nodes, r);
    } else {
      ExitCheckedSays(nodes, r);
      DressedRelaySays(ExitChecked(nodes, r).value, g);
    }
  }
}
