// Client endpoints (backend/internal/api/clients.go).

module ClientOps {
  import opened Wrappers
  import opened Text
  import opened Model
  import opened Integrity
  import opened LocalServers
  import opened Billing
  import opened NodeOps
  import opened Ports
  import opened RelayOps
  import Xray

  const MAX_LIMIT_GB := 0x2_0000_0000 - 1

  /** Trimmed, non-blank, first occurrences in order. */
  function Clean(ids: seq<string>): seq<string> {
    if ids == [] then []
    else
      var init, id := Clean(ids[..|ids| - 1]), TrimSpace(ids[|ids| - 1]);
      if id == "" || id in init then init else init + [id]
  }

  lemma {:induction false} CleanIsSet(ids: seq<string>, id: string)
    ensures id in Clean(ids) <==> id != "" && exists x | x in ids :: TrimSpace(x) == id
    ensures NoDuplicates(Clean(ids))
  {
    if ids != [] {
      var init, last := ids[..|ids| - 1], ids[|ids| - 1];
      CleanIsSet(init, id);
      assert ids == init + [last];
      assert forall x | x in init :: x in ids;
    }
  }

  lemma {:induction false} CleanGrows(ids: seq<string>, i: nat)
    requires i <= |ids|
    ensures Clean(ids[..i]) <= Clean(ids)
    decreases |ids| - i
  {
    if i < |ids| {
      assert ids[..i + 1][..i] == ids[..i];
      CleanGrows(ids, i + 1);
    } else {
      assert ids[..i] == ids;
    }
  }

  predicate KnownNodes(nodes: map<string, Node>, ids: seq<string>) {
    forall id | id in Clean(ids) :: id in nodes
  }

  predicate KnownExits(relays: map<string, RelayRoute>, ids: seq<string>) {
    forall id | id in Clean(ids) :: id in relays && relays[id].routeMode == "socks5_route"
  }

  /** Exactly the bodies validateClientLocked lets through. */
  predicate Acceptable(nodes: map<string, Node>, relays: map<string, RelayRoute>, c: Client) {
    && TrimSpace(c.username) != ""
    && KnownNodes(nodes, c.nodeIDs) && KnownExits(relays, c.relayIDs) && |Clean(c.relayIDs)| <= 1
    && 0 <= c.acct.limitGB <= MAX_LIMIT_GB && 0 <= c.acct.cycleDays <= 366
  }

  function Cleaned(c: Client): Client {
    c.(username := TrimSpace(c.username), nodeIDs := Clean(c.nodeIDs), relayIDs := Clean(c.relayIDs))
  }

  method CleanNodeIDs(nodes: map<string, Node>, ids: seq<string>) returns (clean: Result<seq<string>>)
    ensures clean.Ok? <==> KnownNodes(nodes, ids)
    ensures clean.Ok? ==> clean.value == Clean(ids)
  {
    var kept: seq<string> := [];
    for i := 0 to |ids|
      invariant kept == Clean(ids[..i]) && forall id | id in kept :: id in nodes
    {
      assert ids[..i + 1][..i] == ids[..i];
      var id := TrimSpace(ids[i]);
      if id == "" || id in kept {
        continue;
      }
      if id !in nodes {
        CleanGrows(ids, i + 1);
        assert id in Clean(ids[..i + 1]);
        return Err("unknown node");
      }
      kept := kept + [id];
    }
    assert ids[..|ids|] == ids;
    return Ok(kept);
  }

  method CleanRelayIDs(relays: map<string, RelayRoute>, ids: seq<string>) returns (clean: Result<seq<string>>)
    ensures clean.Ok? <==> KnownExits(relays, ids)
    ensures clean.Ok? ==> clean.value == Clean(ids)
  {
    var kept: seq<string> := [];
    for i := 0 to |ids|
      invariant kept == Clean(ids[..i]) && forall id | id in kept :: id in relays && relays[id].routeMode == "socks5_route"
    {
      assert ids[..i + 1][..i] == ids[..i];
      var id := TrimSpace(ids[i]);
      if id == "" || id in kept {
        continue;
      }
      if id !in relays || relays[id].routeMode != "socks5_route" {
        CleanGrows(ids, i + 1);
        assert id in Clean(ids[..i + 1]);
        return Err("unknown or unsuitable relay");
      }
      kept := kept + [id];
    }
    assert ids[..|ids|] == ids;
    return Ok(kept);
  }

  method ValidateClient(store: Store, c: Client) returns (r: Result<Client>)
    ensures r.Ok? <==> Acceptable(store.nodes, store.relays, c)
    ensures r.Ok? ==> r.value == Cleaned(c)
  {
    var username := TrimSpace(c.username);
    if username == "" {
      return Err("name required");
    }
    var nodeIDs := CleanNodeIDs(store.nodes, c.nodeIDs);
    if nodeIDs.Err? {
      return Err(nodeIDs.error);
    }
    var relayIDs := CleanRelayIDs(store.relays, c.relayIDs);
    if relayIDs.Err? {
      return Err(relayIDs.error);
    }
    if |relayIDs.value| > 1 {
      return Err("at most one fixed exit");
    }
    if c.acct.limitGB < 0 {
      return Err("negative limit");
    }
    if c.acct.limitGB > MAX_LIMIT_GB {
      return Err("limit too large");
    }
    if c.acct.cycleDays < 0 || c.acct.cycleDays > 366 {
      return Err("cycle out of range");
    }
    return Ok(c.(username := username, nodeIDs := nodeIDs.value, relayIDs := relayIDs.value));
  }

  /** A cleaned acceptable body is bound to existing records only. */
  lemma CleanedIsBound(nodes: map<string, Node>, relays: map<string, RelayRoute>, c: Client)
    requires Acceptable(nodes, relays, c)
    ensures BoundTo(Cleaned(c), nodes.Keys, relays.Keys)
  {
    CleanIsSet(c.nodeIDs, "");
  }

  method StoreClient(store: Store, c: Client)
    requires Sound(store) && BoundTo(c, store.nodes.Keys, store.relays.Keys)
    modifies store`clients
    ensures Sound(store) && store.clients == old(store.clients)[c.id := c]
  {
    store.clients := store.clients[c.id := c];
  }

  /** Random values the store hands out. */
  datatype Credentials = Credentials(uuid: string, password: string, token: string)

  /** The body a POST validates: a new client's ledger starts empty, whatever the body claimed. */
  function Started(body: Client, newID: string, issued: Credentials, now: Time): Client {
    body.(id := newID, cursors := null,
      uuid := if body.uuid == "" then issued.uuid else body.uuid,
      password := if TrimSpace(body.password) == "" then issued.password else body.password,
      token := if body.token == "" then issued.token else body.token,
      acct := body.acct.(enabled := true, usedGB := 0, usedBytes := 0, resetAt := ZERO_TIME, cycleStart := now,
                         cycleDays := if body.acct.cycleDays == 0 then 30 else body.acct.cycleDays, updatedAt := now))
  }

  method CreateClient(store: Store, body: Client, newID: string, issued: Credentials, now: Time) returns (r: Result<Client>)
    requires Sound(store) && newID !in store.clients
    modifies store`clients
    ensures Sound(store)
    ensures r.Ok? <==> Acceptable(store.nodes, store.relays, Started(body, newID, issued, now))
    ensures r.Ok? ==> r.value == Cleaned(Started(body, newID, issued, now))
    ensures store.clients == if r.Ok? then old(store.clients)[newID := r.value] else old(store.clients)
  {
    var c := Started(body, newID, issued, now);
    r := ValidateClient(store, c);
    if r.Ok? {
      CleanedIsBound(store.nodes, store.relays, c);
      StoreClient(store, r.value);
    }
  }

  /** The body a PUT validates: identity and omitted credentials come from the stored record. */
  function Completed(body: Client, item: Client, now: Time): Client {
    body.(id := item.id, cursors := null,
      uuid := if body.uuid == "" then item.uuid else body.uuid,
      password := if TrimSpace(body.password) == "" then item.password else body.password,
      token := if body.token == "" then item.token else body.token,
      acct := body.acct.(updatedAt := now))
  }

  /** Store an edited record and save; a failed save puts the old record back. */
  method SaveEdited(store: Store, id: string, item: Client, edited: Client, saved: bool) returns (status: int)
    requires Sound(store) && id in store.clients && store.clients[id] == item
    requires edited.id == id && BoundTo(edited, store.nodes.Keys, store.relays.Keys)
    modifies store`clients
    ensures Sound(store)
    ensures status == if saved then 200 else 500
    ensures store.clients == if saved then old(store.clients)[id := edited] else old(store.clients)
  {
    StoreClient(store, edited);
    if !saved {
      store.clients := store.clients[id := item];
      return 500;
    }
    return 200;
  }

  /** An edit: accounting is taken from the stored client, renewed when the expiry moves on; a failed save undoes it. */
  method UpdateClient(store: Store, id: string, body: Client, now: Time, saved: bool) returns (status: int)
    requires Sound(store)
    modifies store`clients
    ensures Sound(store)
    ensures id !in old(store.clients) <==> status == 404
    ensures id in old(store.clients) ==>
      (status != 400 <==> Acceptable(store.nodes, store.relays, Completed(body, old(store.clients)[id], now)))
    ensures status in {400, 404, 500} ==> store.clients == old(store.clients)
    ensures status in {200, 400, 404, 500} && (status == 200 ==> saved) && (status == 500 ==> !saved)
    ensures status == 200 ==> var item := old(store.clients)[id]; var edited := Completed(body, item, now);
      store.clients == old(store.clients)[id := Cleaned(edited).(acct := Renewed(edited.acct, item.acct, now), cursors := item.cursors)]
  {
    if id !in store.clients {
      return 404;
    }
    var item := store.clients[id];
    var c := Completed(body, item, now);
    var valid := ValidateClient(store, c);
    if valid.Err? {
      return 400;
    }
    CleanedIsBound(store.nodes, store.relays, c);
    var edited := new ClientVar(valid.value);
    PreserveAndRenewBilling(edited, item, now);
    status := SaveEdited(store, id, item, edited.rec, saved);
  }

  /** A new subscription token; bindings, credentials and ledger stay. */
  method ResetToken(store: Store, id: string, token: string, now: Time) returns (found: bool)
    requires Sound(store)
    modifies store`clients
    ensures Sound(store) && (found <==> id in old(store.clients))
    ensures !found ==> store.clients == old(store.clients)
    ensures found ==> var was := old(store.clients)[id];
      store.clients == old(store.clients)[id := was.(token := token, acct := was.acct.(updatedAt := now))]
  {
    if id !in store.clients {
      return false;
    }
    store.clients := store.clients[id := WithToken(store.clients[id], token, now)];
    return true;
  }

  function WithToken(c: Client, token: string, now: Time): Client { c.(token := token, acct := c.acct.(updatedAt := now)) }

  method DeleteClient(store: Store, id: string) returns (found: bool)
    requires Sound(store)
    modifies store`clients
    ensures Sound(store) && (found <==> id in old(store.clients)) && store.clients == old(store.clients) - {id}
  {
    found := id in store.clients;
    store.clients := store.clients - {id};
  }

  /** The request that creates a client together with its fixed exit. */
  datatype ExitRequest = ExitRequest(
    username: string, password: string, limitGB: int64, expireAt: Option<Time>, relayServerID: string, relayHost: string,
    relayPort: int, landingExitID: string, routeName: string, sni: string, dest: string, fingerprint: string)

  /** Where the new fixed exit listens and where it hands traffic on. */
  datatype ExitPlan = ExitPlan(serverID: string, host: string, exit: LandingExit)

  /** Everything the request is checked for, once its server is resolved. */
  predicate ExitAcceptable(servers: map<string, Server>, nodes: map<string, Node>, relays: map<string, RelayRoute>,
                           exits: map<string, LandingExit>, q: ExitRequest, serverID: string) {
    var exitID := TrimSpace(q.landingExitID);
    && TrimSpace(q.username) != "" && 0 <= q.limitGB <= MAX_LIMIT_GB
    && exitID != "" && exitID in exits && exits[exitID].enabled
    && serverID in servers && 10000 <= q.relayPort <= 60000
    && !PortTaken(nodes, serverID, q.relayPort, "") && !RelayPortTaken(relays, serverID, q.relayPort, "")
  }

  function PlanOf(servers: map<string, Server>, exits: map<string, LandingExit>, q: ExitRequest, serverID: string): ExitPlan
    requires serverID in servers && TrimSpace(q.landingExitID) in exits
  {
    var srv := servers[serverID];
    ExitPlan(serverID, OrDefault(TrimSpace(q.relayHost), OrDefault(srv.host, srv.ip)), exits[TrimSpace(q.landingExitID)])
  }

  /** The checks made before the server is resolved. */
  predicate ExitNamed(exits: map<string, LandingExit>, q: ExitRequest) {
    var exitID := TrimSpace(q.landingExitID);
    TrimSpace(q.username) != "" && 0 <= q.limitGB <= MAX_LIMIT_GB && exitID != "" && exitID in exits && exits[exitID].enabled
  }

  /** What a request does to servers and nodes: it resolves its server, or is refused before. */
  ghost predicate ExitResolved(before: map<string, Server>, after: map<string, Server>, e: Environment,
                               exits: map<string, LandingExit>, q: ExitRequest, serverID: string, m: Merge) {
    if ExitNamed(exits, q) then Resolved(before, after, e, TrimSpace(q.relayServerID), serverID, m)
    else m == NO_MERGE && after == before
  }

  method CheckExitRequest(store: Store, e: Environment, q: ExitRequest) returns (plan: Result<ExitPlan>, serverID: string, ghost m: Merge)
    requires Sound(store) && e.newServerID !in store.servers && e.newServerID != ""
    modifies store`servers, store`nodes
    ensures Sound(store)
    ensures ExitResolved(old(store.servers), store.servers, e, store.exits, q, serverID, m) && store.nodes == Gathered(old(store.nodes), m)
    ensures plan.Ok? <==> ExitAcceptable(store.servers, store.nodes, store.relays, store.exits, q, serverID)
    ensures plan.Ok? ==> plan.value == PlanOf(store.servers, store.exits, q, serverID)
  {
    var username, exitID := TrimSpace(q.username), TrimSpace(q.landingExitID);
    serverID, m := TrimSpace(q.relayServerID), NO_MERGE;
    GatheredNone(store.nodes, "");
    if username == "" {
      return Err("name required"), serverID, m;
    }
    if q.limitGB < 0 || q.limitGB > MAX_LIMIT_GB {
      return Err("invalid limit"), serverID, m;
    }
    if exitID == "" {
      return Err("exit required"), serverID, m;
    }
    if exitID !in store.exits || !store.exits[exitID].enabled {
      return Err("exit missing or disabled"), serverID, m;
    }
    serverID, m := ResolveServer(store, e, serverID);
    plan := CheckExitPlan(store.servers, store.nodes, store.relays, store.exits, q, serverID);
  }

  /** The checks that are left once the server is resolved. */
  method CheckExitPlan(servers: map<string, Server>, nodes: map<string, Node>, relays: map<string, RelayRoute>,
                       exits: map<string, LandingExit>, q: ExitRequest, serverID: string) returns (plan: Result<ExitPlan>)
    requires ExitNamed(exits, q)
    ensures plan.Ok? <==> ExitAcceptable(servers, nodes, relays, exits, q, serverID)
    ensures plan.Ok? ==> plan.value == PlanOf(servers, exits, q, serverID)
  {
    if serverID !in servers {
      return Err("unknown server");
    }
    var srv, host := servers[serverID], TrimSpace(q.relayHost);
    if host == "" {
      host := if srv.host != "" then srv.host else srv.ip;
    }
    if q.relayPort < 10000 || q.relayPort > 60000 {
      return Err("port out of range");
    }
    var taken := FindPort(nodes, serverID, q.relayPort, "");
    if taken {
      return Err("port taken by an inbound");
    }
    taken := FindRelayPort(relays, serverID, q.relayPort, "");
    if taken {
      return Err("port taken by a relay");
    }
    return Ok(ExitPlan(serverID, host, exits[TrimSpace(q.landingExitID)]));
  }

  /** The new client: bound to nothing but its exit, with an empty ledger. */
  function ExitClient(q: ExitRequest, clientID: string, relayID: string, issued: Credentials, now: Time): Client {
    Client(clientID, TrimSpace(q.username), issued.uuid, OrDefault(TrimSpace(q.password), issued.password), issued.token,
      Account(q.limitGB, 0, 0, now, 30, ZERO_TIME, if q.expireAt.Some? then q.expireAt.value else ZERO_TIME, true, now),
      null, [], [relayID])
  }

  /** Its exit: a manual landing with the address and credentials of the chosen one. */
  function ExitRelay(q: ExitRequest, relayID: string, p: ExitPlan, g: Generated): RelayRoute
    requires g.keys.Some?
  {
    var dest := OrDefault(TrimSpace(q.dest), "www.intel.com:443");
    RelayRoute(relayID, OrDefault(TrimSpace(q.routeName), TrimSpace(q.username) + "-" + p.exit.host + "固定出口"), p.serverID, "",
      p.host, q.relayPort, "manual_socks5", p.exit.host, p.exit.port, p.exit.username, p.exit.password, "socks5_route", "tcp",
      OrDefault(TrimSpace(q.sni), HostPart(dest)), OrDefault(TrimSpace(q.fingerprint), "chrome"), dest,
      g.keys.value.0, g.keys.value.1, g.shortID, "/", true)
  }

  /** The generator accepts the new relay exactly when the exit is complete, and then leaves by that exit. */
  lemma ExitRelayLands(nodes: map<string, Node>, q: ExitRequest, relayID: string, p: ExitPlan, g: Generated)
    requires g.keys.Some? && q.relayPort >= 10000
    ensures var r, x := ExitRelay(q, relayID, p, g), p.exit;
      && (Xray.Accepted(r, nodes) <==> x.host != "" && x.port > 0 && x.username != "" && x.password != "")
      && (Xray.Accepted(r, nodes) ==> Xray.LandingOf(r, nodes) == Some(Xray.Landing(x.host, x.port, x.username, x.password)))
  {
  }

  method StorePair(store: Store, client: Client, relay: RelayRoute)
    requires Sound(store) && relay.id !in store.relays && relay.id != ""
    requires !RelayPortTaken(store.relays, relay.relayServerID, relay.relayPort, "")
    requires !PortTaken(store.nodes, relay.relayServerID, relay.relayPort, "")
    requires client.nodeIDs == [] && client.relayIDs == [relay.id]
    modifies store`relays, store`clients
    ensures Sound(store)
    ensures store.relays == old(store.relays)[relay.id := relay] && store.clients == old(store.clients)[client.id := client]
    ensures ClearOfRelays(store.nodes, store.relays) <==> ClearOfRelays(store.nodes, old(store.relays))
  {
    StoredRelayIsClearExactly(store.nodes, store.relays, relay);
    assert store.relays - {relay.id} == store.relays;
    SameRelayPorts(store.relays, relay, relay.id);
    StoreRelay(store, relay);
    StoreClient(store, client);
  }

  /** What is left of the request once it is checked. */
  method StoreExitClient(store: Store, q: ExitRequest, plan: Result<ExitPlan>, serverID: string, clientID: string, relayID: string,
                         issued: Credentials, g: Generated, now: Time) returns (r: Result<(Client, RelayRoute)>)
    requires Sound(store) && clientID !in store.clients && relayID !in store.relays && relayID != ""
    requires plan.Ok? <==> ExitAcceptable(store.servers, store.nodes, store.relays, store.exits, q, serverID)
    requires plan.Ok? ==> plan.value == PlanOf(store.servers, store.exits, q, serverID)
    modifies store`relays, store`clients
    ensures Sound(store)
    ensures r.Ok? <==> plan.Ok? && g.keys.Some?
    ensures r.Err? ==> store.clients == old(store.clients) && store.relays == old(store.relays)
    ensures r.Ok? ==> store.clients == old(store.clients)[clientID := r.value.0] && store.relays == old(store.relays)[relayID := r.value.1]
    ensures r.Ok? ==> r.value == (ExitClient(q, clientID, relayID, issued, now), ExitRelay(q, relayID, plan.value, g))
    ensures r.Ok? ==> Xray.Accepted(r.value.1, store.nodes)
    ensures ClearOfRelays(store.nodes, store.relays) <==> ClearOfRelays(store.nodes, old(store.relays))
  {
    if plan.Err? {
      return Err(plan.error);
    }
    if g.keys == None {
      return Err("key generation failed");
    }
    var client := ExitClient(q, clientID, relayID, issued, now);
    var relay := ExitRelay(q, relayID, plan.value, g);
    ExitRelayLands(store.nodes, q, relayID, plan.value, g);
    StorePair(store, client, relay);
    return Ok((client, relay));
  }

  /** The client and the relay, on a port clear of nodes, are stored together, or the store keeps its clients and relays. */
  method CreateClientWithSocks5Relay(store: Store, e: Environment, q: ExitRequest, clientID: string, relayID: string,
                                     issued: Credentials, g: Generated, now: Time)
    returns (r: Result<(Client, RelayRoute)>, serverID: string, ghost m: Merge)
    requires Sound(store) && e.newServerID !in store.servers && e.newServerID != ""
    requires clientID !in store.clients && relayID !in store.relays && relayID != ""
    modifies store`servers, store`nodes, store`relays, store`clients
    ensures Sound(store)
    ensures ExitResolved(old(store.servers), store.servers, e, store.exits, q, serverID, m) && store.nodes == Gathered(old(store.nodes), m)
    ensures r.Ok? <==> ExitAcceptable(store.servers, store.nodes, old(store.relays), store.exits, q, serverID) && g.keys.Some?
    ensures r.Err? ==> store.clients == old(store.clients) && store.relays == old(store.relays)
    ensures r.Ok? ==> store.clients == old(store.clients)[clientID := r.value.0] && store.relays == old(store.relays)[relayID := r.value.1]
    ensures r.Ok? ==> r.value == (ExitClient(q, clientID, relayID, issued, now),
                                  ExitRelay(q, relayID, PlanOf(store.servers, store.exits, q, serverID), g))
    ensures r.Ok? ==> Xray.Accepted(r.value.1, store.nodes)
    ensures ClearOfRelays(store.nodes, store.relays) <==> ClearOfRelays(store.nodes, old(store.relays))
  {
    var plan;
    plan, serverID, m := CheckExitRequest(store, e, q);
    r := StoreExitClient(store, q, plan, serverID, clientID, relayID, issued, g, now);
  }
}
