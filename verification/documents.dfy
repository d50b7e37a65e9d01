// What a server's document holds, said over the stored records (backend/internal/xray/config.go,
// backend/internal/api/agent.go).

module Documents {
  import opened Wrappers
  import opened Text
  import opened Model
  import opened Collecting
  import opened Sorting
  import opened Billing
  import opened Xray
  import opened Entitlement
  import opened Routing
  import opened Syncs

  // ---- relays ---------------------------------------------------------------------

  /** The landing is written out in the relay itself: said so, or no mode and no node is named. */
  predicate IsManual(r: RelayRoute) { r.landingMode == "manual_socks5" || (r.landingMode == "" && r.landingNodeID == "") }

  predicate LandsManually(r: RelayRoute) {
    IsManual(r) && r.manualSocksHost != "" && r.manualSocksPort > 0 && r.manualSocksUsername != "" && r.manualSocksPassword != ""
  }

  predicate LandsOnNode(r: RelayRoute, nodes: map<string, Node>) {
    !IsManual(r) && r.landingNodeID in nodes &&
    var n := nodes[r.landingNodeID];
    n.enabled && n.port > 0 && n.protocol == "socks" && n.socksUsername != "" && n.socksPassword != ""
  }

  /** A fixed exit is served exactly when it is on, has a port, and its landing is complete. */
  lemma AcceptedExactly(r: RelayRoute, nodes: map<string, Node>)
    ensures Accepted(r, nodes) <==>
      r.enabled && r.relayPort > 0 && r.routeMode == "socks5_route" && (LandsManually(r) || LandsOnNode(r, nodes))
  {
  }

  function Local(host: string): string { if host == "" then "127.0.0.1" else host }

  /** The outbound of a fixed exit: the address and credentials of its landing. */
  predicate IsExit(o: Outbound, r: RelayRoute, nodes: map<string, Node>) {
    if IsManual(r) then o == SocksOut("out_" + r.id, r.manualSocksHost, r.manualSocksPort, r.manualSocksUsername, r.manualSocksPassword)
    else
      r.landingNodeID in nodes &&
      var n := nodes[r.landingNodeID]; o == SocksOut("out_" + r.id, Local(n.host), n.port, n.socksUsername, n.socksPassword)
  }

  lemma ExitSays(r: RelayRoute, nodes: map<string, Node>)
    requires Accepted(r, nodes)
    ensures IsExit(ExitOf(r, LandingOf(r, nodes).value), r, nodes)
  {
  }

  /**
   Every packet that enters an accepted fixed exit leaves through exactly one outbound, and that one
   logs in at the relay's own landing with that landing's user and password.
   */
  lemma RelayLeavesBy(nodes: seq<Node>, clients: seq<Client>, relays: seq<RelayRoute>, allNodes: map<string, Node>,
                      policy: NetworkPolicy, now: Time, r: RelayRoute, p: Packet, resolved: set<string>) returns (o: Outbound)
    requires DistinctIDs(relays) && r in relays && Accepted(r, allNodes) && p.inboundTag == "in_" + r.id
    ensures var cfg := ServerConfig(nodes, clients, relays, allNodes, policy, now);
      OutboundsTagged(cfg.outbounds, Route(cfg.rules, p, resolved)) == [o] && IsExit(o, r, allNodes)
  {
    o := ExitOf(r, LandingOf(r, allNodes).value);
    RelayReachesItsLanding(nodes, clients, relays, allNodes, policy, now, r, p, resolved);
    ExitSays(r, allNodes);
  }

  /** Every outbound is the direct one, the blocking one or the exit of a listed relay, and direct comes first. */
  lemma OutboundsExactly(nodes: seq<Node>, clients: seq<Client>, relays: seq<RelayRoute>, allNodes: map<string, Node>,
                         policy: NetworkPolicy, now: Time, o: Outbound)
    ensures var cfg := ServerConfig(nodes, clients, relays, allNodes, policy, now);
      && |cfg.outbounds| >= 2 && cfg.outbounds[0] == Freedom("direct")
      && (o in cfg.outbounds <==>
           o == Freedom("direct") || o == Blackhole("blocked") || exists r | r in relays :: Accepted(r, allNodes) && IsExit(o, r, allNodes))
  {
    InCollect(relays, r => ExitFor(r, allNodes), o);
    forall r | Accepted(r, allNodes) ensures IsExit(o, r, allNodes) <==> o == ExitOf(r, LandingOf(r, allNodes).value) {
      ExitSays(r, allNodes);
    }
    assert BASE_OUTBOUNDS == [Freedom("direct"), Blackhole("blocked")];
    if r :| r in relays && Accepted(r, allNodes) && IsExit(o, r, allNodes) {
      assert ExitFor(r, allNodes) == Some(o);
    }
  }

  // ---- inbounds ---------------------------------------------------------------------

  predicate AllSniffed(b: Inbound) { b.sniffing == Some(Sniffing(true, ["http", "tls", "quic"], false)) }

  /** Reality in a document; what is left out falls back to one public site. */
  predicate IsReality(x: Option<Reality>, dest: string, sni: string, privateKey: string, shortID: string, spiderX: string) {
    x == Some(Reality(if dest == "" then "www.intel.com:443" else dest, if sni == "" then "www.intel.com" else sni,
                      privateKey, shortID, if spiderX == "" then "/" else spiderX))
  }

  /** A gRPC service is the path without the slashes around it. */
  ghost predicate IsService(service: string, path: string) {
    if forall c | c in path :: c == '/' then service == "yuchen"
    else service != "" && service[0] != '/' && service[|service| - 1] != '/' &&
         exists i: nat, j: nat :: path == Repeat('/', i) + service + Repeat('/', j)
  }

  ghost predicate IsStream(s: Stream, n: Node) {
    && s.network == n.transport
    && s.security == (if ToLower(n.protocol) == "vmess" && ToLower(n.security) == "reality" then "none" else n.security)
    && s.wsPath == (if n.transport == "ws" then Some(n.path) else None)
    && (s.grpcService.Some? <==> n.transport == "grpc") && (s.grpcService.Some? ==> IsService(s.grpcService.value, n.path))
    && s.tlsServerName == (if s.security == "tls" then Some(n.sni) else None)
    && (if s.security == "reality"
        then IsReality(s.reality, n.realityDest, n.sni, n.realityPrivateKey, n.realityShortID, n.realitySpiderX)
        else s.reality == None)
  }

  /** The inbound of a node: SOCKS5 with its credentials, or the clients admitted to it over its transport. */
  ghost predicate IsNodeInbound(b: Inbound, n: Node, clients: map<string, Client>, now: Time) {
    && b.tag == n.id && b.port == n.port && AllSniffed(b)
    && if n.protocol == "socks" then
         b.SocksIn? && b.udp == n.socksUDP &&
         b.accounts == if n.socksUsername != "" && n.socksPassword != "" then [(n.socksUsername, n.socksPassword)] else []
       else
         b.UsersIn? && b.protocol == n.protocol && (b.decryption <==> ToLower(n.protocol) !in {"vmess", "trojan"}) &&
         IsStream(b.stream, n) && ListsExactly(b.users, clients, now, NodeGrant(n))
  }

  /** The inbound of a fixed exit: VLESS over Reality for the clients bound to it. */
  ghost predicate IsRelayInbound(b: Inbound, r: RelayRoute, clients: map<string, Client>, now: Time) {
    && b.UsersIn? && b.tag == "in_" + r.id && b.port == r.relayPort && b.protocol == "vless" && b.decryption && AllSniffed(b)
    && b.stream.network == "tcp" && b.stream.security == "reality"
    && b.stream.wsPath == None && b.stream.grpcService == None && b.stream.tlsServerName == None
    && IsReality(b.stream.reality, r.realityDest, r.relaySNI, r.realityPrivateKey, r.realityShortID, r.realitySpiderX)
    && ListsExactly(b.users, clients, now, RelayGrant(r.id))
  }

  /** The inbound of a forwarding relay: everything goes on to its landing node. */
  function Door(r: RelayRoute, n: Node): Inbound {
    DoorIn(r.id, r.relayPort, Local(n.host), n.port, if r.relayNetwork == "" then "tcp" else r.relayNetwork,
           Some(Sniffing(true, ["http", "tls", "quic"], false)))
  }

  /** A relay forwards in any mode that is not a fixed exit, onto an enabled node with a port. */
  predicate ForwardsTo(r: RelayRoute, nodes: map<string, Node>) {
    r.enabled && r.relayPort > 0 && r.routeMode != "socks5_route" && r.landingNodeID in nodes &&
    nodes[r.landingNodeID].enabled && nodes[r.landingNodeID].port > 0
  }

  /** Shadowsocks nodes are kept for migration and not served. */
  predicate IsServed(n: Node) { n.enabled && ToLower(TrimSpace(n.protocol)) != "shadowsocks" }

  lemma TrimSplits(s: string, c: char) returns (i: nat, j: nat)
    ensures s == Repeat(c, i) + Trim(s, c) + Repeat(c, j)
  {
    i := TrimStartSplits(s, c);
    j := TrimEndSplits(TrimStart(s, c), c);
  }

  lemma {:induction false} TrimStartSplits(s: string, c: char) returns (i: nat)
    ensures s == Repeat(c, i) + TrimStart(s, c) && (TrimStart(s, c) != "" ==> TrimStart(s, c)[0] != c)
  {
    i := 0;
    if s != "" && s[0] == c {
      var k := TrimStartSplits(s[1..], c);
      i := k + 1;
      assert s == [c] + s[1..] && [c] + Repeat(c, k) == Repeat(c, i);
    }
  }

  lemma {:induction false} TrimEndSplits(s: string, c: char) returns (j: nat)
    ensures s == TrimEnd(s, c) + Repeat(c, j) && (TrimEnd(s, c) != "" ==> TrimEnd(s, c)[|TrimEnd(s, c)| - 1] != c)
    ensures TrimEnd(s, c) != "" ==> TrimEnd(s, c)[0] == s[0]
  {
    j := 0;
    if s != "" && s[|s| - 1] == c {
      var k := TrimEndSplits(s[..|s| - 1], c);
      j := k + 1;
      assert s == s[..|s| - 1] + [c] && Repeat(c, k) + [c] == Repeat(c, j);
    }
  }

  lemma ServiceSays(path: string)
    ensures IsService(TrimSlash(if path == "" || path == "/" then "yuchen" else path), path)
  {
    if forall c | c in path :: c == '/' {
      TrimDropsAll(path, '/');
      TrimDrops('/', 0, "yuchen", 0);
      assert Repeat('/', 0) + "yuchen" + Repeat('/', 0) == "yuchen";
    } else {
      var i, j := TrimSplits(path, '/');
      var k := TrimStartSplits(path, '/');
      var m := TrimEndSplits(TrimStart(path, '/'), '/');
      TrimmedAway(path, '/');
    }
  }

  lemma TrimmedAway(s: string, c: char)
    ensures Trim(s, c) == "" ==> forall x | x in s :: x == c
  {
    var i, j := TrimSplits(s, c);
  }

  lemma TrimDropsAll(s: string, c: char)
    requires forall x | x in s :: x == c
    ensures Trim(s, c) == ""
  {
    TrimStartDrops(c, |s|, "");
    assert forall i | 0 <= i < |s| :: s[i] in s;
    assert Repeat(c, |s|) + "" == s;
  }

  lemma StreamSays(n: Node)
    ensures IsStream(NodeStream(n), n)
  {
    ServiceSays(n.path);
  }

  // ---- users ------------------------------------------------------------------------------

  /** The credential a node's protocol asks for: a UUID, or a password that is derived when none is stored. */
  lemma RecordSays(c: Client, n: Node)
    ensures ToLower(n.protocol) == "trojan" ==>
      NodeRecord(c, n) == TrojanUser(if TrimSpace(c.password) == "" then DerivedFrom(c.id) else Stored(TrimSpace(c.password)), "client_" + c.id)
    ensures ToLower(n.protocol) == "vmess" ==> NodeRecord(c, n) == VmessUser(c.uuid, "client_" + c.id)
    ensures ToLower(n.protocol) !in {"trojan", "vmess"} ==> NodeRecord(c, n) == VlessUser(c.uuid, "client_" + c.id)
    ensures RelayRecord(c) == RelayUser(c.uuid, "client_" + c.id)
  {
  }

  /** Of any clients, a node lists those that are on, not expired, bound to it and have the credential. */
  predicate UsesNode(c: Client, n: Node, now: Time) {
    && c.acct.enabled && (c.acct.expireAt == 0 || now < c.acct.expireAt) && n.id != "" && n.id in c.nodeIDs
    && (ToLower(n.protocol) == "trojan" || c.uuid != "")
  }

  /** A fixed exit still lists them at the very instant of their expiry. */
  predicate UsesRelay(c: Client, relayID: string, now: Time) {
    c.acct.enabled && (c.acct.expireAt == 0 || now <= c.acct.expireAt) && relayID in c.relayIDs && c.uuid != ""
  }

  lemma NodeUserSays(c: Client, n: Node, now: Time)
    ensures NodeUserOf(c, n.id, ToLower(n.protocol), now) == if UsesNode(c, n, now) then Some(NodeRecord(c, n)) else None
  {
  }

  lemma RelayUserSays(c: Client, relayID: string, now: Time)
    ensures RelayUserOf(c, relayID, now) == if UsesRelay(c, relayID, now) then Some(RelayRecord(c)) else None
  {
  }

  lemma NodeUsersSay(clients: seq<Client>, n: Node, now: Time, u: User)
    requires DistinctClients(clients)
    ensures u in NodeUsers(clients, n.id, n.protocol, now) <==> exists c | c in clients :: UsesNode(c, n, now) && u == NodeRecord(c, n)
  {
    NodeUsersExact(clients, n.id, n.protocol, now);
    forall c | c in clients ensures NodeUserOf(c, n.id, ToLower(n.protocol), now) == if UsesNode(c, n, now) then Some(NodeRecord(c, n)) else None {
      NodeUserSays(c, n, now);
    }
  }

  lemma RelayUsersSay(clients: seq<Client>, relayID: string, now: Time, u: User)
    requires DistinctClients(clients)
    ensures u in RelayUsers(clients, relayID, now) <==> exists c | c in clients :: UsesRelay(c, relayID, now) && u == RelayRecord(c)
  {
    RelayUsersExact(clients, relayID, now);
    forall c | c in clients ensures RelayUserOf(c, relayID, now) == if UsesRelay(c, relayID, now) then Some(RelayRecord(c)) else None {
      RelayUserSays(c, relayID, now);
    }
  }

  ghost predicate ByLabel(users: seq<User>) { forall i, j | 0 <= i < j < |users| :: Less(users[i].email, users[j].email) }

  lemma LabelsAscend(clients: seq<Client>, f: Client -> Option<User>)
    requires DistinctClients(clients) && Labels(clients, f)
    ensures ByLabel(StableSort(Collect(clients, f), EmailKey))
  {
    forall i, j | 0 <= i < j < |clients| ensures ClientEmailKey(clients[i]) != ClientEmailKey(clients[j]) {
      EmailsInjective(clients[i], clients[j]);
    }
    CollectDistinct(clients, f, EmailKey, ClientEmailKey);
    SortAscends(Collect(clients, f), EmailKey);
    var users := StableSort(Collect(clients, f), EmailKey);
    forall i, j | 0 <= i < j < |users| ensures Less(users[i].email, users[j].email) {
      assert Before(EmailKey(users[i]), EmailKey(users[j]));
    }
  }

  /** Users come in the order of their labels. */
  lemma NodeUsersInOrder(clients: seq<Client>, n: Node, now: Time)
    requires DistinctClients(clients)
    ensures ByLabel(NodeUsers(clients, n.id, n.protocol, now))
  {
    NodeUsersExact(clients, n.id, n.protocol, now);
    LabelsAscend(clients, c => NodeUserOf(c, n.id, ToLower(n.protocol), now));
  }

  lemma RelayUsersInOrder(clients: seq<Client>, relayID: string, now: Time)
    requires DistinctClients(clients)
    ensures ByLabel(RelayUsers(clients, relayID, now))
  {
    RelayUsersExact(clients, relayID, now);
    LabelsAscend(clients, c => RelayUserOf(c, relayID, now));
  }

  // ---- the document of a server -------------------------------------------------------

  lemma ListedNodes(nodes: map<string, Node>, serverID: string)
    requires NodesKeyed(nodes)
    ensures forall n :: n in SortedNodes(nodes, serverID) <==> n.id in nodes && nodes[n.id] == n && n.serverID == serverID && n.enabled
  {
    SortedEnumeration(Listing(ServerNodes(nodes, serverID)), ServerNodes(nodes, serverID), NodeKey);
  }

  lemma ListedRelays(relays: map<string, RelayRoute>, serverID: string)
    requires RelaysKeyed(relays)
    ensures forall r :: r in SortedRelays(relays, serverID) <==> r.id in relays && relays[r.id] == r && r.relayServerID == serverID && r.enabled
  {
    SortedEnumeration(Listing(ServerRelays(relays, serverID)), ServerRelays(relays, serverID), RelayKey);
  }

  /** Nodes and relays come by port, then by ID. */
  lemma ListedInOrder(nodes: map<string, Node>, relays: map<string, RelayRoute>, serverID: string)
    requires NodesKeyed(nodes) && RelaysKeyed(relays)
    ensures var ns, rs := SortedNodes(nodes, serverID), SortedRelays(relays, serverID);
      && (forall i, j | 0 <= i < j < |ns| :: ns[i].port < ns[j].port || (ns[i].port == ns[j].port && Less(ns[i].id, ns[j].id)))
      && (forall i, j | 0 <= i < j < |rs| :: rs[i].relayPort < rs[j].relayPort || (rs[i].relayPort == rs[j].relayPort && Less(rs[i].id, rs[j].id)))
  {
    var ns, rs := SortedNodes(nodes, serverID), SortedRelays(relays, serverID);
    SortedEnumeration(Listing(ServerNodes(nodes, serverID)), ServerNodes(nodes, serverID), NodeKey);
    SortedEnumeration(Listing(ServerRelays(relays, serverID)), ServerRelays(relays, serverID), RelayKey);
    forall i, j | 0 <= i < j < |ns| ensures Before(NodeKey(ns[i]), NodeKey(ns[j])) {
    }
    forall i, j | 0 <= i < j < |rs| ensures Before(RelayKey(rs[i]), RelayKey(rs[j])) {
    }
  }

  lemma NodeInboundSays(n: Node, clients: map<string, Client>, now: Time)
    requires ClientsKeyed(clients)
    ensures var b := NodeInbound(n, SortedClients(EnforcedClients(clients, now)), now);
      (b.Some? <==> IsServed(n)) && (b.Some? ==> IsNodeInbound(b.value, n, clients, now))
  {
    StreamSays(n);
    NodeUsersServe(clients, now, n);
  }

  lemma RelayInboundSays(r: RelayRoute, clients: map<string, Client>, nodes: map<string, Node>, now: Time)
    requires ClientsKeyed(clients)
    ensures var b := RelayInbound(r, SortedClients(EnforcedClients(clients, now)), nodes, now);
      && (b.Some? <==> Accepted(r, nodes) || ForwardsTo(r, nodes))
      && (Accepted(r, nodes) ==> IsRelayInbound(b.value, r, clients, now))
      && (ForwardsTo(r, nodes) ==> b.value == Door(r, nodes[r.landingNodeID]))
  {
    RelayUsersServe(clients, now, r.id);
  }

  /** The stored record an inbound stands for. */
  ghost predicate StandsForNode(b: Inbound, n: Node, clients: map<string, Client>, serverID: string, now: Time) {
    n.serverID == serverID && IsServed(n) && IsNodeInbound(b, n, clients, now)
  }

  ghost predicate StandsForRelay(b: Inbound, r: RelayRoute, nodes: map<string, Node>, clients: map<string, Client>, serverID: string, now: Time) {
    r.relayServerID == serverID &&
    ((Accepted(r, nodes) && IsRelayInbound(b, r, clients, now)) || (ForwardsTo(r, nodes) && b == Door(r, nodes[r.landingNodeID])))
  }

  /** The document of a server, for the stored records. */
  ghost function DocumentOf(nodes: map<string, Node>, relays: map<string, RelayRoute>, clients: map<string, Client>,
                            policy: NetworkPolicy, serverID: string, now: Time): Config {
    DesiredConfig(nodes, relays, EnforcedClients(clients, now), policy, serverID, now)
  }

  lemma NodesInDocument(nodes: map<string, Node>, relays: map<string, RelayRoute>, clients: map<string, Client>,
                        policy: NetworkPolicy, serverID: string, now: Time, id: string)
    requires NodesKeyed(nodes) && ClientsKeyed(clients) && id in nodes && nodes[id].serverID == serverID && IsServed(nodes[id])
    ensures exists b | b in DocumentOf(nodes, relays, clients, policy, serverID, now).inbounds :: StandsForNode(b, nodes[id], clients, serverID, now)
  {
    var list := SortedClients(EnforcedClients(clients, now));
    ListedNodes(nodes, serverID);
    NodeInboundSays(nodes[id], clients, now);
    var b := NodeInbound(nodes[id], list, now).value;
    InCollect(SortedNodes(nodes, serverID), n => NodeInbound(n, list, now), b);
    assert b in DocumentOf(nodes, relays, clients, policy, serverID, now).inbounds;
  }

  lemma RelaysInDocument(nodes: map<string, Node>, relays: map<string, RelayRoute>, clients: map<string, Client>,
                         policy: NetworkPolicy, serverID: string, now: Time, id: string)
    requires RelaysKeyed(relays) && ClientsKeyed(clients) && id in relays && relays[id].relayServerID == serverID
    requires Accepted(relays[id], nodes) || ForwardsTo(relays[id], nodes)
    ensures exists b | b in DocumentOf(nodes, relays, clients, policy, serverID, now).inbounds ::
      StandsForRelay(b, relays[id], nodes, clients, serverID, now)
  {
    var list := SortedClients(EnforcedClients(clients, now));
    ListedRelays(relays, serverID);
    RelayInboundSays(relays[id], clients, nodes, now);
    var b := RelayInbound(relays[id], list, nodes, now).value;
    InCollect(SortedRelays(relays, serverID), r => RelayInbound(r, list, nodes, now), b);
    assert b in DocumentOf(nodes, relays, clients, policy, serverID, now).inbounds;
  }

  /**
   Nothing else listens: every inbound of the document stands for a stored node or relay of that
   server, or is the local statistics inbound.
   */
  lemma DocumentHoldsOnly(nodes: map<string, Node>, relays: map<string, RelayRoute>, clients: map<string, Client>,
                          policy: NetworkPolicy, serverID: string, now: Time, b: Inbound)
    requires NodesKeyed(nodes) && RelaysKeyed(relays) && ClientsKeyed(clients)
    requires b in DocumentOf(nodes, relays, clients, policy, serverID, now).inbounds
    ensures || (exists id | id in nodes :: StandsForNode(b, nodes[id], clients, serverID, now))
            || (exists id | id in relays :: StandsForRelay(b, relays[id], nodes, clients, serverID, now))
            || (b.ApiIn? && b.tag == "api" && b.sniffing == None)
  {
    var ns, rs, list := SortedNodes(nodes, serverID), SortedRelays(relays, serverID), SortedClients(EnforcedClients(clients, now));
    if b in NodeInbounds(ns, list, now) {
      InCollect(ns, n => NodeInbound(n, list, now), b);
      var n :| n in ns && NodeInbound(n, list, now) == Some(b);
      ListedNodes(nodes, serverID);
      NodeInboundSays(n, clients, now);
      assert StandsForNode(b, nodes[n.id], clients, serverID, now);
    } else if b in RelayInbounds(rs, list, nodes, now) {
      InCollect(rs, r => RelayInbound(r, list, nodes, now), b);
      var r :| r in rs && RelayInbound(r, list, nodes, now) == Some(b);
      ListedRelays(relays, serverID);
      RelayInboundSays(r, clients, nodes, now);
      assert StandsForRelay(b, relays[r.id], nodes, clients, serverID, now);
    }
  }

  /** The client a record in a document belongs to. */
  predicate Owns(c: Client, u: User) { u.email == "client_" + c.id }

  /** The stored client with this record, for whom the counters of that server count. */
  ghost predicate Billed(nodes: map<string, Node>, relays: map<string, RelayRoute>, clients: map<string, Client>, serverID: string, u: User) {
    exists id | id in clients :: Owns(clients[id], u) && SourceAllowed(nodes, relays, clients[id], serverID)
  }

  lemma NodeUserIsBilled(nodes: map<string, Node>, relays: map<string, RelayRoute>, clients: map<string, Client>,
                         serverID: string, now: Time, b: Inbound, u: User, k: string)
    requires NodesKeyed(nodes) && k in nodes && b.UsersIn? && u in b.users && StandsForNode(b, nodes[k], clients, serverID, now)
    ensures Billed(nodes, relays, clients, serverID, u)
  {
    var id :| id in clients && NodeGrant(nodes[k]).Admits(clients[id], now) && u == NodeGrant(nodes[k]).Record(clients[id]);
    assert k in clients[id].nodeIDs;
    assert Owns(clients[id], u);
  }

  lemma RelayUserIsBilled(nodes: map<string, Node>, relays: map<string, RelayRoute>, clients: map<string, Client>,
                          serverID: string, now: Time, b: Inbound, u: User, k: string)
    requires RelaysKeyed(relays) && k in relays && b.UsersIn? && u in b.users && StandsForRelay(b, relays[k], nodes, clients, serverID, now)
    ensures Billed(nodes, relays, clients, serverID, u)
  {
    var id :| id in clients && RelayGrant(k).Admits(clients[id], now) && u == RelayGrant(k).Record(clients[id]);
    assert k in clients[id].relayIDs;
    assert Owns(clients[id], u);
  }

  /**
   Nobody is served unbilled: whoever a server's document lists, in whichever inbound, is a stored
   client for whom that server's counters count.
   */
  lemma ServedIsBilled(nodes: map<string, Node>, relays: map<string, RelayRoute>, clients: map<string, Client>,
                       policy: NetworkPolicy, serverID: string, now: Time, b: Inbound, u: User)
    requires NodesKeyed(nodes) && RelaysKeyed(relays) && ClientsKeyed(clients)
    requires b in DocumentOf(nodes, relays, clients, policy, serverID, now).inbounds && b.UsersIn? && u in b.users
    ensures Billed(nodes, relays, clients, serverID, u)
  {
    DocumentHoldsOnly(nodes, relays, clients, policy, serverID, now, b);
    if k :| k in nodes && StandsForNode(b, nodes[k], clients, serverID, now) {
      NodeUserIsBilled(nodes, relays, clients, serverID, now, b, u, k);
    } else {
      var k :| k in relays && StandsForRelay(b, relays[k], nodes, clients, serverID, now);
      RelayUserIsBilled(nodes, relays, clients, serverID, now, b, u, k);
    }
  }

  /** Forwarding, said for itself: the doors of a document are exactly those of the forwarding relays of its server. */
  lemma DoorsExactly(nodes: map<string, Node>, relays: map<string, RelayRoute>, clients: map<string, Client>,
                     policy: NetworkPolicy, serverID: string, now: Time, b: Inbound)
    requires NodesKeyed(nodes) && RelaysKeyed(relays) && ClientsKeyed(clients)
    ensures b.DoorIn? && b in DocumentOf(nodes, relays, clients, policy, serverID, now).inbounds <==>
      exists id | id in relays :: relays[id].relayServerID == serverID && ForwardsTo(relays[id], nodes) && b == Door(relays[id], nodes[relays[id].landingNodeID])
  {
    if b.DoorIn? && b in DocumentOf(nodes, relays, clients, policy, serverID, now).inbounds {
      DocumentHoldsOnly(nodes, relays, clients, policy, serverID, now, b);
    }
    if id :| id in relays && relays[id].relayServerID == serverID && ForwardsTo(relays[id], nodes) && b == Door(relays[id], nodes[relays[id].landingNodeID]) {
      RelaysInDocument(nodes, relays, clients, policy, serverID, now, id);
    }
  }

  // ---- blocking -----------------------------------------------------------------------

  predicate BlocksDNS(p: NetworkPolicy) { p.mode == "strict" || (p.mode == "custom" && p.blockDNS53) }

  predicate BlocksChinaDNS(p: NetworkPolicy) { p.mode == "strict" || (p.mode == "custom" && p.blockChinaDNS) }

  predicate BlocksQUIC(p: NetworkPolicy) { p.mode == "strict" || (p.mode == "custom" && p.blockQUIC) }

  predicate ChinaDNS(ip: string) {
    ip in {"114.114.114.114", "114.114.115.115", "223.5.5.5", "223.6.6.6", "119.29.29.29", "180.76.76.76", "1.2.4.8", "210.2.4.8"}
  }

  /** What the policy asks to block, of the packets it applies to. */
  predicate Unwanted(policy: NetworkPolicy, p: Packet, known: set<string>) {
    || (BlocksDNS(policy) && p.port == 53 && p.network in {"tcp", "udp"})
    || (BlocksChinaDNS(policy) && exists ip | ip in known :: ChinaDNS(ip))
    || (BlocksQUIC(policy) && p.port == 443 && p.network == "udp")
  }

  lemma PolicyBlocksExactly(policy: NetworkPolicy, p: Packet, known: set<string>)
    ensures FirstMatch(PolicyRules(policy), p, known) == if Unwanted(policy, p, known) then Some("blocked") else None
  {
    var (dns, china, quic) := Blocks(policy);
    var a, b := if dns then [BLOCK_DNS53] else [], if china then [BLOCK_CHINA_DNS] else [];
    FirstMatchAppend(a + b, if quic then [BLOCK_QUIC] else [], p, known);
    FirstMatchAppend(a, b, p, known);
    assert forall ip :: ip in CHINA_DNS <==> ChinaDNS(ip);
  }

  lemma OtherTraffic(relays: seq<RelayRoute>, allNodes: map<string, Node>, policy: NetworkPolicy, p: Packet, known: set<string>)
    requires p.inboundTag != "api" && !Owned(relays, allNodes, p.inboundTag)
    ensures FirstMatch([API_RULE] + (Bindings(relays, allNodes) + PolicyRules(policy)), p, known) ==
            if Unwanted(policy, p, known) then Some("blocked") else None
  {
    FirstMatchAppend([API_RULE], Bindings(relays, allNodes) + PolicyRules(policy), p, known);
    FirstMatchAppend(Bindings(relays, allNodes), PolicyRules(policy), p, known);
    BindingsMatch(relays, allNodes, p, known);
    PolicyBlocksExactly(policy, p, known);
  }

  /**
   Of the traffic that is neither the statistics' nor a fixed exit's, exactly what the policy asks for
   is blocked - by port and protocol, or by an address the packet has or its name resolves to - and the
   rest goes out directly.
   */
  lemma BlockedExactly(nodes: seq<Node>, clients: seq<Client>, relays: seq<RelayRoute>, allNodes: map<string, Node>,
                       policy: NetworkPolicy, now: Time, p: Packet, resolved: set<string>)
    requires p.inboundTag != "api" && !Owned(relays, allNodes, p.inboundTag)
    ensures Route(ServerConfig(nodes, clients, relays, allNodes, policy, now).rules, p, resolved) ==
      if Unwanted(policy, p, if p.to.Address? then {p.to.ip} else resolved) then "blocked" else "direct"
  {
    OtherTraffic(relays, allNodes, policy, p, if p.to.Address? then {p.to.ip} else {});
    OtherTraffic(relays, allNodes, policy, p, resolved);
  }
}
