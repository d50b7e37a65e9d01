// The records that accepted client requests leave behind, and what a client that is created together
// with its fixed exit gets (backend/internal/api/clients.go).

module Customers {
  import opened Wrappers
  import opened Text
  import opened Model
  import opened Integrity
  import opened Billing
  import opened NodeOps
  import opened RelayOps
  import opened ClientOps
  import opened Records
  import Forms
  import ExitOps
  import opened Xray
  import opened Syncs
  import opened Documents
  import opened Sorting
  import opened Collecting
  import Subscriptions
  import Entitlement
  import Routing

  // ---- bindings ---------------------------------------------------------------------

  /** Bindings that are clean already stay as they are, in their order. */
  lemma {:induction false} CleanKeepsClean(ids: seq<string>)
    requires NoDuplicates(ids) && forall id | id in ids :: id != "" && Trimmed(id)
    ensures Clean(ids) == ids
  {
    if ids != [] {
      var init, last := ids[..|ids| - 1], ids[|ids| - 1];
      assert last in ids && last !in init && ids == init + [last];
      forall id | id in init ensures id in ids {
      }
      CleanKeepsClean(init);
      TrimSpaceIsTrimmed(last);
    }
  }

  /** Two bindings that are not blank are the same one. */
  predicate AllSame(ids: seq<string>) {
    forall x, y | x in ids && y in ids && TrimSpace(x) != "" && TrimSpace(y) != "" :: TrimSpace(x) == TrimSpace(y)
  }

  lemma AtMostOneExactly(ids: seq<string>)
    ensures |Clean(ids)| <= 1 <==> AllSame(ids)
  {
    var clean := Clean(ids);
    CleanIsSet(ids, "");
    if |clean| <= 1 {
      forall x, y | x in ids && y in ids && TrimSpace(x) != "" && TrimSpace(y) != "" ensures TrimSpace(x) == TrimSpace(y) {
        CleanIsSet(ids, TrimSpace(x));
        CleanIsSet(ids, TrimSpace(y));
      }
    } else {
      CleanIsSet(ids, clean[0]);
      CleanIsSet(ids, clean[1]);
      assert clean[0] != clean[1] && clean[0] in clean && clean[1] in clean;
    }
  }

  predicate KnownNode(nodes: map<string, Node>, x: string) { TrimSpace(x) == "" || TrimSpace(x) in nodes }

  predicate KnownExit(relays: map<string, RelayRoute>, x: string) {
    TrimSpace(x) == "" || (TrimSpace(x) in relays && relays[TrimSpace(x)].routeMode == "socks5_route")
  }

  /** Exactly these bodies are accepted: named, bound to stored nodes and at most one fixed exit, within the limits. */
  lemma ClientAcceptedExactly(nodes: map<string, Node>, relays: map<string, RelayRoute>, c: Client)
    ensures Acceptable(nodes, relays, c) <==>
      && TrimSpace(c.username) != ""
      && (forall x | x in c.nodeIDs :: KnownNode(nodes, x)) && (forall x | x in c.relayIDs :: KnownExit(relays, x)) && AllSame(c.relayIDs)
      && 0 <= c.acct.limitGB <= 8_589_934_591 && 0 <= c.acct.cycleDays <= 366
  {
    AtMostOneExactly(c.relayIDs);
    NodesKnownExactly(nodes, c.nodeIDs);
    ExitsKnownExactly(relays, c.relayIDs);
  }

  lemma NodesKnownExactly(nodes: map<string, Node>, ids: seq<string>)
    ensures KnownNodes(nodes, ids) <==> forall x | x in ids :: KnownNode(nodes, x)
  {
    forall x | x in ids ensures TrimSpace(x) != "" ==> TrimSpace(x) in Clean(ids) {
      CleanIsSet(ids, TrimSpace(x));
    }
    forall id | id in Clean(ids) ensures id != "" && exists x | x in ids :: TrimSpace(x) == id {
      CleanIsSet(ids, id);
    }
  }

  lemma ExitsKnownExactly(relays: map<string, RelayRoute>, ids: seq<string>)
    ensures KnownExits(relays, ids) <==> forall x | x in ids :: KnownExit(relays, x)
  {
    forall x | x in ids ensures TrimSpace(x) != "" ==> TrimSpace(x) in Clean(ids) {
      CleanIsSet(ids, TrimSpace(x));
    }
    forall id | id in Clean(ids) ensures id != "" && exists x | x in ids :: TrimSpace(x) == id {
      CleanIsSet(ids, id);
    }
  }

  // ---- creating and editing -----------------------------------------------------------

  /** A new client is on, in a cycle that begins now, and has used nothing, whatever the body said. */
  lemma NewClientSays(body: Client, newID: string, issued: Credentials, now: Time)
    ensures Cleaned(Started(body, newID, issued, now)) ==
      Client(newID, TrimSpace(body.username), if body.uuid == "" then issued.uuid else body.uuid,
             if TrimSpace(body.password) == "" then issued.password else body.password, if body.token == "" then issued.token else body.token,
             Account(body.acct.limitGB, 0, 0, now, if body.acct.cycleDays == 0 then 30 else body.acct.cycleDays, 0, body.acct.expireAt, true, now),
             null, Clean(body.nodeIDs), Clean(body.relayIDs))
  {
  }

  /** The record an accepted edit stores. */
  function EditedRecord(body: Client, item: Client, now: Time): Client {
    var edited := Completed(body, item, now);
    Cleaned(edited).(acct := Renewed(edited.acct, item.acct, now), cursors := item.cursors)
  }

  /** An edit decides name, bindings and terms; credentials left out, cursors and identity are the stored ones. */
  lemma EditedClientSays(body: Client, item: Client, now: Time)
    ensures var c := EditedRecord(body, item, now);
      && c.id == item.id && c.cursors == item.cursors && c.acct.updatedAt == now
      && c.username == TrimSpace(body.username) && c.nodeIDs == Clean(body.nodeIDs) && c.relayIDs == Clean(body.relayIDs)
      && c.uuid == (if body.uuid == "" then item.uuid else body.uuid) && c.token == (if body.token == "" then item.token else body.token)
      && c.password == (if TrimSpace(body.password) == "" then item.password else body.password)
      && c.acct == Renewed(body.acct.(updatedAt := now), item.acct, now)
  {
  }

  /** Sending back what is stored changes nothing but the time of the change, and writes out a legacy balance and cycle. */
  lemma UnchangedEdit(item: Client, now: Time)
    requires Cleaned(item) == item
    ensures EditedRecord(item, item, now) ==
      item.(acct := item.acct.(usedBytes := Enforced(item.acct, now).usedBytes, updatedAt := now,
                               cycleDays := if item.acct.cycleDays == 0 then 30 else item.acct.cycleDays))
  {
  }

  // ---- a client with its own exit -------------------------------------------------------

  /** Exactly these requests are accepted: named, with an enabled exit, on an existing server and a free port of the suggested range. */
  lemma PairAcceptedExactly(servers: map<string, Server>, nodes: map<string, Node>, relays: map<string, RelayRoute>,
                            exits: map<string, LandingExit>, q: ExitRequest, serverID: string)
    ensures ExitAcceptable(servers, nodes, relays, exits, q, serverID) <==>
      && TrimSpace(q.username) != "" && 0 <= q.limitGB <= 8_589_934_591
      && TrimSpace(q.landingExitID) != "" && TrimSpace(q.landingExitID) in exits && exits[TrimSpace(q.landingExitID)].enabled
      && serverID in servers && 10000 <= q.relayPort <= 60000
      && !Forms.Occupied(nodes, serverID, q.relayPort, "") && !Forms.RelayOccupied(relays, serverID, q.relayPort, "")
  {
    Forms.SamePorts(nodes, relays, serverID, q.relayPort, "");
  }

  /** The exit is the chosen one, behind the address that is asked for or that of the server. */
  lemma PlanSays(servers: map<string, Server>, exits: map<string, LandingExit>, q: ExitRequest, serverID: string)
    requires serverID in servers && TrimSpace(q.landingExitID) in exits
    ensures var p := PlanOf(servers, exits, q, serverID);
      p.serverID == serverID && p.exit == exits[TrimSpace(q.landingExitID)] && p.host == Asked(q.relayHost, Forms.AddressOf(servers[serverID]))
  {
  }

  /** The client is bound to its exit alone, and has used nothing. */
  lemma PairClientSays(q: ExitRequest, clientID: string, relayID: string, issued: Credentials, now: Time)
    ensures var c := ExitClient(q, clientID, relayID, issued, now);
      && c.id == clientID && c.username == TrimSpace(q.username) && c.uuid == issued.uuid && c.token == issued.token
      && c.password == Asked(q.password, issued.password) && c.nodeIDs == [] && c.relayIDs == [relayID] && c.cursors == null
      && c.acct.limitGB == q.limitGB && c.acct.usedGB == 0 && c.acct.usedBytes == 0 && c.acct.enabled && c.acct.updatedAt == now
      && c.acct.cycleStart == now && c.acct.cycleDays == 30 && c.acct.resetAt == 0
      && c.acct.expireAt == (match q.expireAt case None => 0 case Some(t) => t)
  {
  }

  /** The relay is an enabled fixed exit with new keys that lands at the chosen address. */
  lemma PairRelaySays(q: ExitRequest, relayID: string, p: ExitPlan, g: Generated)
    requires g.keys.Some?
    ensures var r := ExitRelay(q, relayID, p, g); var dest := Asked(q.dest, "www.intel.com:443");
      && r.id == relayID && r.relayServerID == p.serverID && r.relayHost == p.host && r.relayPort == q.relayPort && r.enabled
      && r.name == Asked(q.routeName, TrimSpace(q.username) + "-" + p.exit.host + "固定出口")
      && r.routeMode == "socks5_route" && r.relayNetwork == "tcp" && r.landingMode == "manual_socks5" && r.landingNodeID == ""
      && r.manualSocksHost == p.exit.host && r.manualSocksPort == p.exit.port
      && r.manualSocksUsername == p.exit.username && r.manualSocksPassword == p.exit.password
      && r.realityDest == dest && r.relaySNI == Asked(q.sni, HostPart(dest)) && r.relayFingerprint == Asked(q.fingerprint, "chrome")
      && g.keys == Some((r.realityPrivateKey, r.realityPublicKey)) && r.realityShortID == g.shortID && r.realitySpiderX == "/"
  {
  }

  /** A time before the client's expiry, if it has one. */
  predicate InTime(q: ExitRequest, at: Time) { q.expireAt.None? || q.expireAt.value == 0 || at < q.expireAt.value }

  lemma NewPairIsAdmitted(q: ExitRequest, clientID: string, relayID: string, issued: Credentials, now: Time, at: Time)
    ensures var c := ExitClient(q, clientID, relayID, issued, now);
      && (RelayGrant(relayID).Admits(c, at) <==> InTime(q, at) && issued.uuid != "")
      && RelayGrant(relayID).Record(c) == RelayUser(issued.uuid, "client_" + clientID)
  {
  }

  /**
   The pair works at once: the document of the chosen server has the inbound of the new exit on the
   asked port, and lists the new client there under its UUID until it expires.
   */
  lemma PairIsServed(nodes: map<string, Node>, relays: map<string, RelayRoute>, clients: map<string, Client>, policy: NetworkPolicy,
                     q: ExitRequest, p: ExitPlan, clientID: string, relayID: string, issued: Credentials, g: Generated, now: Time, at: Time)
    requires RelaysKeyed(relays) && ClientsKeyed(clients) && g.keys.Some? && q.relayPort > 0 && Complete(p.exit)
    ensures var cs, rs := clients[clientID := ExitClient(q, clientID, relayID, issued, now)], relays[relayID := ExitRelay(q, relayID, p, g)];
      exists b | b in DocumentOf(nodes, rs, cs, policy, p.serverID, at).inbounds ::
        IsRelayInbound(b, rs[relayID], cs, at) && (RelayUser(issued.uuid, "client_" + clientID) in b.users <==> InTime(q, at) && issued.uuid != "")
  {
    var cs, rs := clients[clientID := ExitClient(q, clientID, relayID, issued, now)], relays[relayID := ExitRelay(q, relayID, p, g)];
    PairRelaySays(q, relayID, p, g);
    AcceptedExactly(rs[relayID], nodes);
    RelaysInDocument(nodes, rs, cs, policy, p.serverID, at, relayID);
    var b :| b in DocumentOf(nodes, rs, cs, policy, p.serverID, at).inbounds && StandsForRelay(b, rs[relayID], nodes, cs, p.serverID, at);
    NewPairIsAdmitted(q, clientID, relayID, issued, now, at);
    ListedExactly(b.users, cs, at, RelayGrant(relayID), clientID);
  }

  /** What it sends through that inbound leaves at the chosen exit, with the exit's user and password. */
  lemma PairLeavesBy(nodes: seq<Node>, clients: seq<Client>, relays: seq<RelayRoute>, allNodes: map<string, Node>, policy: NetworkPolicy, at: Time,
                     q: ExitRequest, plan: ExitPlan, relayID: string, g: Generated, p: Routing.Packet, resolved: set<string>)
    requires g.keys.Some? && q.relayPort > 0 && Complete(plan.exit)
    requires Routing.DistinctIDs(relays) && ExitRelay(q, relayID, plan, g) in relays && p.inboundTag == "in_" + relayID
    ensures var cfg, x := ServerConfig(nodes, clients, relays, allNodes, policy, at), plan.exit;
      Routing.OutboundsTagged(cfg.outbounds, Routing.Route(cfg.rules, p, resolved)) ==
      [SocksOut("out_" + relayID, x.host, x.port, x.username, x.password)]
  {
    var r := ExitRelay(q, relayID, plan, g);
    PairRelaySays(q, relayID, plan, g);
    AcceptedExactly(r, allNodes);
    var o := RelayLeavesBy(nodes, clients, relays, allNodes, policy, at, r, p, resolved);
  }

  /** While the relay is there, its exit is in use and cannot be deleted. */
  lemma PairKeepsItsExit(q: ExitRequest, relayID: string, plan: ExitPlan, g: Generated)
    requires g.keys.Some?
    ensures ExitOps.UsedBy(plan.exit, ExitRelay(q, relayID, plan, g))
  {
    PairRelaySays(q, relayID, plan, g);
  }

  lemma NoNodeOffered(nodes: map<string, Node>, c: Client, at: Time)
    requires c.nodeIDs == []
    ensures StableSort(Listing(Subscriptions.OfferedNodes(nodes, c, at)), Subscriptions.NodeIDKey) == []
  {
    assert Subscriptions.OfferedNodes(nodes, c, at) == {};
  }

  lemma OneRelayOffered(relays: map<string, RelayRoute>, id: string)
    requires id in relays && relays[id].enabled && relays[id].routeMode == "socks5_route"
    ensures StableSort(Subscriptions.OfferedRelays(relays, [id]), Subscriptions.RelayIDKey) == [relays[id]]
  {
    CollectStep([id], 0, k => Subscriptions.OfferedRelay(relays, k));
    assert [id][..1] == [id] && [id][..0] == [] && [relays[id]][..0] == [];
    assert StableSort([relays[id]][..0], Subscriptions.RelayIDKey) == [];
  }

  /** And its subscription shows exactly that exit. */
  lemma PairIsOffered(panel: Subscriptions.Panel, q: ExitRequest, plan: ExitPlan, clientID: string, relayID: string,
                      issued: Credentials, g: Generated, now: Time, at: Time)
    requires g.keys.Some? && InTime(q, at)
    ensures var c, r := ExitClient(q, clientID, relayID, issued, now), ExitRelay(q, relayID, plan, g);
      Subscriptions.AnswerFor(panel.(relays := panel.relays[relayID := r]), c, at) == Subscriptions.Offer(c, [], [r], panel.policy)
  {
    var c, r := ExitClient(q, clientID, relayID, issued, now), ExitRelay(q, relayID, plan, g);
    PairClientSays(q, clientID, relayID, issued, now);
    PairRelaySays(q, relayID, plan, g);
    assert !Subscriptions.Refused(c, at);
    NoNodeOffered(panel.nodes, c, at);
    OneRelayOffered(panel.relays[relayID := r], relayID);
  }
}
