// Relay endpoints (backend/internal/api/relays.go).

module RelayOps {
  import opened Wrappers
  import opened Text
  import opened Model
  import opened Integrity
  import opened LocalServers
  import opened NodeOps
  import opened Ports
  import Xray

  method FindRelayPort(relays: map<string, RelayRoute>, serverID: string, port: int, currentID: string) returns (taken: bool)
    ensures taken == RelayPortTaken(relays, serverID, port, currentID)
  {
    var todo := relays.Keys;
    while todo != {}
      invariant todo <= relays.Keys
      invariant forall id | id in relays.Keys - todo && id != currentID ::
        !(relays[id].relayServerID == serverID && relays[id].enabled && relays[id].relayPort == port)
      decreases todo
    {
      var id :| id in todo;
      todo := todo - {id};
      if id == currentID {
        continue;
      }
      if relays[id].relayServerID == serverID && relays[id].enabled && relays[id].relayPort == port {
        return true;
      }
    }
    return false;
  }

  function TrimRelay(r: RelayRoute): RelayRoute {
    r.(name := TrimSpace(r.name), relayServerID := TrimSpace(r.relayServerID), landingNodeID := TrimSpace(r.landingNodeID),
       relayHost := TrimSpace(r.relayHost), landingMode := ToLower(TrimSpace(r.landingMode)),
       manualSocksHost := TrimSpace(r.manualSocksHost), manualSocksUsername := TrimSpace(r.manualSocksUsername),
       manualSocksPassword := TrimSpace(r.manualSocksPassword), routeMode := ToLower(TrimSpace(r.routeMode)),
       relayNetwork := ToLower(TrimSpace(r.relayNetwork)), relaySNI := TrimSpace(r.relaySNI),
       relayFingerprint := TrimSpace(r.relayFingerprint), realityDest := TrimSpace(r.realityDest),
       realityPrivateKey := TrimSpace(r.realityPrivateKey), realityPublicKey := TrimSpace(r.realityPublicKey),
       realityShortID := TrimSpace(r.realityShortID), realitySpiderX := TrimSpace(r.realitySpiderX))
  }

  /** A stored relay resolves to something: a landing for its outbound or a node to forward to. */
  predicate Lands(nodes: map<string, Node>, r: RelayRoute) {
    if r.routeMode == "socks5_route" then
      && r.landingMode in {"panel_node", "manual_socks5"}
      && (r.landingMode == "panel_node" ==> r.landingNodeID in nodes)
      && ((r.landingMode == "panel_node" ==> nodes[r.landingNodeID].port > 0) ==> Xray.LandingOf(r, nodes).Some?)
    else
      && r.routeMode == "tcp_forward" && r.landingNodeID in nodes
      && nodes[r.landingNodeID].enabled && nodes[r.landingNodeID].protocol == "vless" && nodes[r.landingNodeID].security == "reality"
      && r.relayNetwork in {"tcp", "udp", "tcp,udp"}
  }

  /** The tcp_forward half: a VLESS Reality landing that can carry the network. */
  function Forwarded(nodes: map<string, Node>, r: RelayRoute): Option<RelayRoute> {
    var n := OrDefault(r.relayNetwork, "tcp");
    if r.landingNodeID == "" || r.landingNodeID !in nodes || !nodes[r.landingNodeID].enabled then None
    else
      var landing := nodes[r.landingNodeID];
      if landing.protocol != "vless" || landing.security != "reality" || n !in {"tcp", "udp", "tcp,udp"} ||
         (landing.transport in {"", "tcp"} && n == "udp") then None
      else Some(r.(relayNetwork := n))
  }

  method CheckForward(nodes: map<string, Node>, r: RelayRoute) returns (forwarded: Result<RelayRoute>)
    ensures RelayAnswers(Forwarded(nodes, r), forwarded)
  {
    if r.landingNodeID == "" {
      return Err("landing node required");
    }
    if r.landingNodeID !in nodes || !nodes[r.landingNodeID].enabled {
      return Err("landing node missing or disabled");
    }
    var landing := nodes[r.landingNodeID];
    if landing.protocol != "vless" || landing.security != "reality" {
      return Err("landing must be VLESS Reality");
    }
    var n := r.relayNetwork;
    if n == "" {
      n := "tcp";
    }
    if n !in {"tcp", "udp", "tcp,udp"} {
      return Err("unsupported network");
    }
    if (landing.transport == "" || landing.transport == "tcp") && n == "udp" {
      return Err("UDP-only forwarding to a TCP landing");
    }
    return Ok(r.(relayNetwork := n));
  }

  function LandingMode(r: RelayRoute): string {
    OrDefault(r.landingMode, if r.landingNodeID != "" then "panel_node" else "manual_socks5")
  }

  predicate NodeCanLand(nodes: map<string, Node>, id: string) {
    id != "" && id in nodes && nodes[id].enabled && nodes[id].protocol == "socks" &&
    TrimSpace(nodes[id].socksUsername) != "" && TrimSpace(nodes[id].socksPassword) != ""
  }

  predicate ManualCanLand(r: RelayRoute) {
    r.manualSocksHost != "" && 1 <= r.manualSocksPort <= 65535 && r.manualSocksUsername != "" && r.manualSocksPassword != ""
  }

  /** The socks5_route half: the landing mode and, for a manual landing, no node. */
  function ExitChecked(nodes: map<string, Node>, r: RelayRoute): Option<RelayRoute> {
    var mode := LandingMode(r);
    if mode == "panel_node" && NodeCanLand(nodes, r.landingNodeID) then Some(r.(landingMode := mode))
    else if mode == "manual_socks5" && ManualCanLand(r) then Some(r.(landingMode := mode, landingNodeID := ""))
    else None
  }

  method CheckSocks5(nodes: map<string, Node>, r: RelayRoute) returns (landed: Result<RelayRoute>)
    ensures RelayAnswers(ExitChecked(nodes, r), landed)
  {
    var mode := r.landingMode;
    if mode == "" {
      if r.landingNodeID != "" {
        mode := "panel_node";
      } else {
        mode := "manual_socks5";
      }
    }
    if mode == "panel_node" {
      if r.landingNodeID == "" {
        return Err("landing node required");
      }
      if r.landingNodeID !in nodes || !nodes[r.landingNodeID].enabled {
        return Err("landing node missing or disabled");
      }
      var landing := nodes[r.landingNodeID];
      if landing.protocol != "socks" {
        return Err("landing must be SOCKS5");
      }
      if TrimSpace(landing.socksUsername) == "" || TrimSpace(landing.socksPassword) == "" {
        return Err("landing needs credentials");
      }
      return Ok(r.(landingMode := mode));
    }
    if mode == "manual_socks5" {
      if r.manualSocksHost == "" {
        return Err("landing host required");
      }
      if r.manualSocksPort < 1 || r.manualSocksPort > 65535 {
        return Err("landing port out of range");
      }
      if r.manualSocksUsername == "" || r.manualSocksPassword == "" {
        return Err("landing credentials required");
      }
      return Ok(r.(landingMode := mode, landingNodeID := ""));
    }
    return Err("unsupported landing mode");
  }

  /** Reality defaults and keys of a fixed-exit relay. */
  function DressedRelay(r: RelayRoute, g: Generated): Option<RelayRoute> {
    var dest := OrDefault(r.realityDest, "www.intel.com:443");
    var keys := KeyPair(r.realityPrivateKey, r.realityPublicKey, g);
    if keys.None? then None
    else Some(r.(relayNetwork := "tcp", realityDest := dest, relaySNI := OrDefault(r.relaySNI, HostPart(dest)),
                 relayFingerprint := OrDefault(r.relayFingerprint, "chrome"), realitySpiderX := OrDefault(r.realitySpiderX, "/"),
                 realityShortID := OrDefault(r.realityShortID, g.shortID),
                 realityPrivateKey := keys.value.0, realityPublicKey := keys.value.1))
  }

  /**
   The Reality side of a fixed exit: a destination always, a server name unless the destination
   given starts with its colon, and keys that match unless a given pair does not.
   */
  lemma DressedRelayServes(r: RelayRoute, g: Generated, publicOf: string -> Option<string>)
    requires DressedRelay(r, g).Some? && g.derivedPublic == publicOf(r.realityPrivateKey)
    requires g.keys.Some? ==> publicOf(g.keys.value.0) == Some(g.keys.value.1)
    ensures var d := DressedRelay(r, g).value;
      && d.realityDest != "" && d.relayFingerprint != "" && d.realitySpiderX != "" && d.relayNetwork == "tcp"
      && (d.relaySNI == "" <==> r.relaySNI == "" && r.realityDest != "" && r.realityDest[0] == ':')
      && (publicOf(d.realityPrivateKey) == Some(d.realityPublicKey) <==>
            !(r.realityPrivateKey != "" && r.realityPublicKey != "" && publicOf(r.realityPrivateKey) != Some(r.realityPublicKey)))
      && (r.realityPrivateKey != "" ==> d.realityPrivateKey == r.realityPrivateKey)
  {
    KeysMatchExactly(r.realityPrivateKey, r.realityPublicKey, g, publicOf);
    HostPartEmptyExactly(r.realityDest);
    HostPartEmptyExactly("www.intel.com:443");
  }

  method FillRelayReality(r: RelayRoute, g: Generated) returns (filled: Result<RelayRoute>)
    ensures RelayAnswers(DressedRelay(r, g), filled)
  {
    var dest, sni, fingerprint := r.realityDest, r.relaySNI, r.relayFingerprint;
    if dest == "" {
      dest := "www.intel.com:443";
    }
    if sni == "" {
      sni := HostPart(dest);
    }
    if fingerprint == "" {
      fingerprint := "chrome";
    }
    var spiderX, shortID := r.realitySpiderX, r.realityShortID;
    if spiderX == "" {
      spiderX := "/";
    }
    if shortID == "" {
      shortID := g.shortID;
    }
    var keys := FillKeys(r.realityPrivateKey, r.realityPublicKey, g);
    if keys.Err? {
      return Err(keys.error);
    }
    return Ok(r.(relayNetwork := "tcp", realityDest := dest, relaySNI := sni, relayFingerprint := fingerprint, realitySpiderX := spiderX,
                 realityShortID := shortID, realityPrivateKey := keys.value.0, realityPublicKey := keys.value.1));
  }

  predicate RelayAnswers(form: Option<RelayRoute>, r: Result<RelayRoute>) {
    (r.Ok? <==> form.Some?) && (r.Ok? ==> form == Some(r.value))
  }

  /** The mode-specific part of normalizeRelayLocked. */
  function ModeChecked(nodes: map<string, Node>, r: RelayRoute, g: Generated): Option<RelayRoute> {
    if r.routeMode == "tcp_forward" then Forwarded(nodes, r)
    else if ExitChecked(nodes, r).Some? then DressedRelay(ExitChecked(nodes, r).value, g)
    else None
  }

  method CheckLanding(nodes: map<string, Node>, r: RelayRoute, g: Generated) returns (checked: Result<RelayRoute>)
    requires r.routeMode in {"tcp_forward", "socks5_route"}
    ensures RelayAnswers(ModeChecked(nodes, r, g), checked)
  {
    if r.routeMode == "tcp_forward" {
      checked := CheckForward(nodes, r);
      return;
    }
    var landed := CheckSocks5(nodes, r);
    if landed.Err? {
      return landed;
    }
    checked := FillRelayReality(landed.value, g);
  }

  /** A trimmed body on the server it is resolved to. */
  function PlacedRelay(body: RelayRoute, serverID: string): RelayRoute { TrimRelay(body).(relayServerID := serverID) }

  /** The record a placed body becomes; None when it is refused. */
  function RelayForm(nodes: map<string, Node>, relays: map<string, RelayRoute>, servers: map<string, Server>,
                     r: RelayRoute, currentID: string, g: Generated): Option<RelayRoute> {
    var mode := OrDefault(r.routeMode, "tcp_forward");
    if r.name == "" || mode !in {"tcp_forward", "socks5_route"} || r.relayServerID !in servers then None
    else
      var srv := servers[r.relayServerID];
      var f := ModeChecked(nodes, r.(routeMode := mode, relayHost := OrDefault(r.relayHost, OrDefault(srv.host, srv.ip))), g);
      if !(10000 <= r.relayPort <= 65535) || f.None? || PortTaken(nodes, r.relayServerID, r.relayPort, "") ||
         RelayPortTaken(relays, r.relayServerID, r.relayPort, currentID) then None
      else f
  }

  lemma ModeCheckedLands(nodes: map<string, Node>, r: RelayRoute, g: Generated)
    requires r.routeMode in {"tcp_forward", "socks5_route"} && ModeChecked(nodes, r, g).Some?
    ensures var f := ModeChecked(nodes, r, g).value;
      Lands(nodes, f) && f.relayServerID == r.relayServerID && f.relayPort == r.relayPort && f.enabled == r.enabled
  {
    if r.routeMode == "socks5_route" {
      var landed, f := ExitChecked(nodes, r).value, ModeChecked(nodes, r, g).value;
      assert Xray.LandingOf(f, nodes) == Xray.LandingOf(landed, nodes);
    }
  }

  /** Whatever is accepted resolves to a landing, on a port free of enabled nodes and relays. */
  lemma RelayFormIsValid(nodes: map<string, Node>, relays: map<string, RelayRoute>, servers: map<string, Server>,
                         r: RelayRoute, currentID: string, g: Generated)
    requires RelayForm(nodes, relays, servers, r, currentID, g).Some?
    ensures var f := RelayForm(nodes, relays, servers, r, currentID, g).value;
      && f.relayServerID == r.relayServerID && r.relayServerID in servers && 10000 <= f.relayPort <= 65535
      && f.relayPort == r.relayPort && f.enabled == r.enabled && Lands(nodes, f)
      && !PortTaken(nodes, f.relayServerID, f.relayPort, "")
      && !RelayPortTaken(relays, f.relayServerID, f.relayPort, currentID)
  {
    var srv := servers[r.relayServerID];
    ModeCheckedLands(nodes, r.(routeMode := OrDefault(r.routeMode, "tcp_forward"), relayHost := OrDefault(r.relayHost, OrDefault(srv.host, srv.ip))), g);
  }

  /** The checks made before the server is resolved. */
  predicate NamedWithMode(body: RelayRoute) {
    TrimRelay(body).name != "" && OrDefault(TrimRelay(body).routeMode, "tcp_forward") in {"tcp_forward", "socks5_route"}
  }

  /** What a request does to servers and nodes: it resolves its server, or is refused before. */
  ghost predicate RelayResolved(before: map<string, Server>, after: map<string, Server>, e: Environment, body: RelayRoute,
                                serverID: string, m: Merge) {
    if NamedWithMode(body) then Resolved(before, after, e, TrimSpace(body.relayServerID), serverID, m)
    else m == NO_MERGE && after == before && serverID == TrimSpace(body.relayServerID)
  }

  /** normalizeRelayLocked: unlike a node, a relay is compared with the others enabled or not. */
  method NormalizeRelay(store: Store, e: Environment, body: RelayRoute, currentID: string, g: Generated)
    returns (r: Result<RelayRoute>, serverID: string, ghost m: Merge)
    requires Sound(store) && e.newServerID !in store.servers && e.newServerID != ""
    modifies store`servers, store`nodes
    ensures Sound(store)
    ensures RelayResolved(old(store.servers), store.servers, e, body, serverID, m) && store.nodes == Gathered(old(store.nodes), m)
    ensures RelayAnswers(RelayForm(store.nodes, store.relays, store.servers, PlacedRelay(body, serverID), currentID, g), r)
  {
    var relay := TrimRelay(body);
    serverID, m := relay.relayServerID, NO_MERGE;
    GatheredNone(store.nodes, "");
    if relay.name == "" {
      return Err("name required"), serverID, m;
    }
    var mode := relay.routeMode;
    if mode == "" {
      mode := "tcp_forward";
    }
    if mode !in {"tcp_forward", "socks5_route"} {
      return Err("unsupported route mode"), serverID, m;
    }
    serverID, m := ResolveServer(store, e, relay.relayServerID);
    r := NormalizePlacedRelay(store.nodes, store.relays, store.servers, relay.(relayServerID := serverID), mode, currentID, g);
  }

  /** The rest of the checks, once the server is resolved. */
  method NormalizePlacedRelay(nodes: map<string, Node>, relays: map<string, RelayRoute>, servers: map<string, Server>,
                              placed: RelayRoute, mode: string, currentID: string, g: Generated) returns (r: Result<RelayRoute>)
    requires placed.name != "" && mode in {"tcp_forward", "socks5_route"} && mode == OrDefault(placed.routeMode, "tcp_forward")
    ensures RelayAnswers(RelayForm(nodes, relays, servers, placed, currentID, g), r)
  {
    if placed.relayServerID !in servers {
      return Err("unknown server");
    }
    var srv, host := servers[placed.relayServerID], placed.relayHost;
    if host == "" {
      host := if srv.host != "" then srv.host else srv.ip;
    }
    var relay := placed.(routeMode := mode, relayHost := host);
    if relay.relayPort < 1 || relay.relayPort > 65535 {
      return Err("port out of range");
    }
    if relay.relayPort < 10000 {
      return Err("port too low");
    }
    r := CheckLanding(nodes, relay, g);
    if r.Err? {
      return;
    }
    ModeCheckedLands(nodes, relay, g);
    var taken := FindPort(nodes, relay.relayServerID, relay.relayPort, "");
    if taken {
      return Err("port taken by an inbound");
    }
    taken := FindRelayPort(relays, relay.relayServerID, relay.relayPort, currentID);
    if taken {
      return Err("port taken by a relay");
    }
  }

  /** Storing a relay whose port no other enabled relay of its server has keeps the store sound. */
  method StoreRelay(store: Store, r: RelayRoute)
    requires Sound(store) && r.id != "" && !RelayPortTaken(store.relays, r.relayServerID, r.relayPort, r.id)
    modifies store`relays
    ensures Sound(store) && store.relays == old(store.relays)[r.id := r]
  {
    ghost var before := store.relays;
    store.relays := store.relays[r.id := r];
    forall i, j | i in store.relays && j in store.relays && i != j ensures !RelaysClash(store.relays[i], store.relays[j]) {
      if i != r.id && j != r.id {
        assert !RelaysClash(before[i], before[j]);
      }
    }
    forall cid | cid in store.clients ensures BoundTo(store.clients[cid], store.nodes.Keys, store.relays.Keys) {
      assert BoundTo(store.clients[cid], store.nodes.Keys, before.Keys);
    }
  }

  /** The request is refused with the form, or stores it under the id. */
  predicate RelayStoredAs(form: Option<RelayRoute>, r: Result<RelayRoute>, id: string, enable: bool) {
    (r.Ok? <==> form.Some?) && (r.Ok? ==> r.value == form.value.(id := id, enabled := enable || form.value.enabled))
  }

  lemma SameRelayPorts(relays: map<string, RelayRoute>, r: RelayRoute, newID: string)
    requires newID !in relays && !RelayPortTaken(relays, r.relayServerID, r.relayPort, "")
    requires forall id | id in relays :: id != ""
    ensures !RelayPortTaken(relays, r.relayServerID, r.relayPort, newID)
  {
  }

  method StoreAnswer(store: Store, ghost form: Option<RelayRoute>, answer: Result<RelayRoute>, id: string, currentID: string, enable: bool)
    returns (r: Result<RelayRoute>)
    requires Sound(store) && RelayAnswers(form, answer)
    requires id != "" && (currentID == id || (currentID == "" && id !in store.relays))
    requires form.Some? ==> !RelayPortTaken(store.relays, form.value.relayServerID, form.value.relayPort, currentID)
    modifies store`relays
    ensures Sound(store) && RelayStoredAs(form, r, id, enable)
    ensures store.relays == if r.Ok? then old(store.relays)[id := r.value] else old(store.relays)
  {
    r := answer;
    if r.Ok? {
      var relay := r.value.(id := id, enabled := enable || r.value.enabled);
      if currentID == "" {
        SameRelayPorts(store.relays, relay, id);
      }
      StoreRelay(store, relay);
      r := Ok(relay);
    }
  }

  /** Normalize a body and store it: under a new id and enabled, or in the place of its own record. */
  method PutRelay(store: Store, e: Environment, body: RelayRoute, id: string, currentID: string, enable: bool, g: Generated)
    returns (r: Result<RelayRoute>, serverID: string, ghost m: Merge)
    requires Sound(store) && e.newServerID !in store.servers && e.newServerID != ""
    requires id != "" && (currentID == id || (currentID == "" && id !in store.relays))
    modifies store`servers, store`nodes, store`relays
    ensures Sound(store)
    ensures RelayResolved(old(store.servers), store.servers, e, body, serverID, m) && store.nodes == Gathered(old(store.nodes), m)
    ensures RelayStoredAs(RelayForm(store.nodes, old(store.relays), store.servers, PlacedRelay(body, serverID), currentID, g), r, id, enable)
    ensures store.relays == if r.Ok? then old(store.relays)[id := r.value] else old(store.relays)
    ensures ClearOfRelays(old(store.nodes), old(store.relays)) ==> (ClearOfRelays(store.nodes, store.relays) <==>
      !MovesOntoRelay(old(store.nodes), if r.Ok? then old(store.relays) - {id} else old(store.relays), m))
  {
    ghost var nodes, relays := store.nodes, store.relays;
    r, serverID, m := NormalizeRelay(store, e, body, currentID, g);
    ghost var form := RelayForm(store.nodes, store.relays, store.servers, PlacedRelay(body, serverID), currentID, g);
    if form.Some? {
      RelayFormIsValid(store.nodes, store.relays, store.servers, PlacedRelay(body, serverID), currentID, g);
    }
    r := StoreAnswer(store, form, r, id, currentID, enable);
    if ClearOfRelays(nodes, relays) {
      RelaysStayClearExactly(nodes, relays, m, r);
    }
  }

  method CreateRelay(store: Store, e: Environment, body: RelayRoute, newID: string, g: Generated)
    returns (r: Result<RelayRoute>, serverID: string, ghost m: Merge)
    requires Sound(store) && e.newServerID !in store.servers && e.newServerID != ""
    requires newID !in store.relays && newID != ""
    modifies store`servers, store`nodes, store`relays
    ensures Sound(store)
    ensures RelayResolved(old(store.servers), store.servers, e, body, serverID, m) && store.nodes == Gathered(old(store.nodes), m)
    ensures RelayStoredAs(RelayForm(store.nodes, old(store.relays), store.servers, PlacedRelay(body, serverID), "", g), r, newID, true)
    ensures store.relays == if r.Ok? then old(store.relays)[newID := r.value] else old(store.relays)
    ensures ClearOfRelays(old(store.nodes), old(store.relays)) ==> (ClearOfRelays(store.nodes, store.relays) <==>
      !MovesOntoRelay(old(store.nodes), if r.Ok? then old(store.relays) - {newID} else old(store.relays), m))
  {
    r, serverID, m := PutRelay(store, e, body, newID, "", true, g);
  }

  method UpdateRelay(store: Store, e: Environment, id: string, body: RelayRoute, g: Generated)
    returns (r: Result<RelayRoute>, serverID: string, ghost m: Merge)
    requires Sound(store) && e.newServerID !in store.servers && e.newServerID != ""
    modifies store`servers, store`nodes, store`relays
    ensures Sound(store)
    ensures id !in old(store.relays) ==> r.Err? && m == NO_MERGE && store.nodes == old(store.nodes) && store.servers == old(store.servers)
    ensures id in old(store.relays) ==>
      RelayResolved(old(store.servers), store.servers, e, body, serverID, m) && store.nodes == Gathered(old(store.nodes), m)
    ensures id in old(store.relays) ==>
      RelayStoredAs(RelayForm(store.nodes, old(store.relays), store.servers, PlacedRelay(body, serverID), id, g), r, id, false)
    ensures store.relays == if r.Ok? then old(store.relays)[id := r.value] else old(store.relays)
    ensures ClearOfRelays(old(store.nodes), old(store.relays)) ==> (ClearOfRelays(store.nodes, store.relays) <==>
      !MovesOntoRelay(old(store.nodes), if r.Ok? then old(store.relays) - {id} else old(store.relays), m))
  {
    if id !in store.relays {
      return Err("not found"), "", NO_MERGE;
    }
    r, serverID, m := PutRelay(store, e, body, id, id, false, g);
  }

  // ---- deletion -----------------------------------------------------------------

  function UnboundRelay(c: Client, id: string): Client {
    var next := Without(c.relayIDs, id);
    c.(relayIDs := next, acct := c.acct.(enabled := c.acct.enabled && !(|next| != |c.relayIDs| && next == [] && c.nodeIDs == [])))
  }

  /** Deleting a relay disables a client exactly when it takes the client's last grant. */
  lemma RelayDeleteDisablesExactly(c: Client, id: string)
    ensures UnboundRelay(c, id).acct.enabled <==> c.acct.enabled && !(HasGrant(c) && !HasGrant(UnboundRelay(c, id)))
    ensures id !in UnboundRelay(c, id).relayIDs && (id !in c.relayIDs ==> UnboundRelay(c, id) == c)
  {
  }

  method UnbindClientRelay(c: Client, id: string) returns (u: Client)
    ensures u == UnboundRelay(c, id)
  {
    u := c;
    var next := Without(c.relayIDs, id);
    if |next| != |c.relayIDs| && |next| == 0 && |c.nodeIDs| == 0 {
      u := u.(acct := u.acct.(enabled := false));
    }
    u := u.(relayIDs := next);
  }

  function UnboundRelays(clients: map<string, Client>, id: string): map<string, Client> {
    map cid | cid in clients :: UnboundRelay(clients[cid], id)
  }

  method UnbindRelay(store: Store, id: string)
    modifies store`clients
    ensures store.clients == UnboundRelays(old(store.clients), id)
  {
    var todo := store.clients.Keys;
    ghost var before, target := store.clients, UnboundRelays(store.clients, id);
    while todo != {}
      invariant todo <= before.Keys && store.clients.Keys == before.Keys
      invariant forall cid | cid in before :: store.clients[cid] == if cid in todo then before[cid] else target[cid]
      decreases todo
    {
      var cid :| cid in todo;
      var c := UnbindClientRelay(store.clients[cid], id);
      store.clients := store.clients[cid := c];
      todo := todo - {cid};
    }
  }

  method DeleteRelay(store: Store, id: string) returns (found: bool)
    requires Sound(store)
    modifies store`relays, store`clients
    ensures Sound(store)
    ensures found <==> id in old(store.relays)
    ensures !found ==> store.relays == old(store.relays) && store.clients == old(store.clients)
    ensures found ==> store.relays == old(store.relays) - {id}
    ensures found ==> store.clients == UnboundRelays(old(store.clients), id)
  {
    if id !in store.relays {
      return false;
    }
    store.relays := store.relays - {id};
    UnbindRelay(store, id);
    return true;
  }
}
