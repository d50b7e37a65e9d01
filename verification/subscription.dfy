// Which nodes and relays a subscription offers, and that the server behind each of them
// accepts the client (backend/internal/api/subscription_formats.go:48-82).

module Subscriptions {
  import opened Wrappers
  import opened Text
  import opened Model
  import opened Collecting
  import opened Sorting
  import opened Billing
  import opened Xray
  import opened Entitlement
  import opened Routing
  import opened Syncs
  import opened Names
  import ClientOps

  function NodeIDKey(n: Node): Key { Key(0, "", n.id) }

  function RelayIDKey(r: RelayRoute): Key { Key(0, "", r.id) }

  /** Whether a subscription of c shows node n. */
  predicate OffersNode(c: Client, n: Node, now: Time) {
    n.enabled && n.id in AllowedNodes(c, now) && IsShareable(n.protocol)
  }

  function OfferedNodes(nodes: map<string, Node>, c: Client, now: Time): set<Node> {
    set id | id in nodes && OffersNode(c, nodes[id], now) :: nodes[id]
  }

  function OfferedRelay(relays: map<string, RelayRoute>, id: string): Option<RelayRoute> {
    if id in relays && relays[id].enabled && relays[id].routeMode == "socks5_route" then Some(relays[id]) else None
  }

  function OfferedRelays(relays: map<string, RelayRoute>, ids: seq<string>): seq<RelayRoute> {
    Collect(ids, id => OfferedRelay(relays, id))
  }

  datatype Snapshot =
    | NotFound
    | Forbidden
    | Offer(client: Client, nodes: seq<Node>, relays: seq<RelayRoute>, policy: NetworkPolicy)

  /** The client a search by token ends with, when Go walks the map in this order. */
  function FirstHolder(clients: map<string, Client>, token: string, order: seq<string>): Option<Client>
    requires forall id | id in order :: id in clients
  {
    if order == [] then None
    else if clients[order[0]].token == token then Some(clients[order[0]])
    else FirstHolder(clients, token, order[1..])
  }

  lemma {:induction false} FirstHolderAfter(clients: map<string, Client>, token: string, passed: seq<string>, rest: seq<string>)
    requires forall id | id in passed + rest :: id in clients
    requires forall id | id in passed :: clients[id].token != token
    ensures FirstHolder(clients, token, passed + rest) == FirstHolder(clients, token, rest)
  {
    if passed == [] {
      assert passed + rest == rest;
    } else {
      assert (passed + rest)[1..] == passed[1..] + rest && passed[0] in passed;
      assert passed[0] in passed + rest && forall id | id in passed[1..] :: id in passed;
      FirstHolderAfter(clients, token, passed[1..], rest);
    }
  }

  lemma EnumeratesBoth<T>(a: seq<T>, x: set<T>, b: seq<T>, y: set<T>)
    requires Enumerates(a, x) && Enumerates(b, y) && x !! y
    ensures Enumerates(a + b, x + y)
  {
    assert forall e :: e in a + b <==> e in a || e in b;
    forall i, j | 0 <= i < j < |a + b| ensures (a + b)[i] != (a + b)[j] {
      if i < |a| <= j {
        assert a[i] in a && b[j - |a|] in b;
      }
    }
  }

  /** The search stops at this client; the rest of the map comes in any order. */
  lemma StopsAt(clients: map<string, Client>, token: string, order: seq<string>, id: string, todo: set<string>) returns (whole: seq<string>)
    requires id in clients && clients[id].token == token && id !in todo && todo <= clients.Keys
    requires Enumerates(order, clients.Keys - todo - {id}) && forall k | k in order :: clients[k].token != token
    ensures Enumerates(whole, clients.Keys) && FirstHolder(clients, token, whole) == Some(clients[id])
  {
    var rest := [id] + Listing(todo);
    EnumeratesBoth([id], {id}, Listing(todo), todo);
    EnumeratesBoth(order, clients.Keys - todo - {id}, rest, {id} + todo);
    assert clients.Keys - todo - {id} + ({id} + todo) == clients.Keys;
    whole := order + rest;
    FirstHolderAfter(clients, token, order, rest);
  }

  method FindToken(clients: map<string, Client>, token: string) returns (found: Option<Client>, ghost order: seq<string>)
    ensures Enumerates(order, clients.Keys) && found == FirstHolder(clients, token, order)
  {
    var todo := clients.Keys;
    order := [];
    while todo != {}
      invariant todo <= clients.Keys && Enumerates(order, clients.Keys - todo)
      invariant forall id | id in order :: clients[id].token != token
      decreases todo
    {
      var id :| id in todo;
      todo := todo - {id};
      if clients[id].token == token {
        assert clients.Keys - (todo + {id}) == clients.Keys - todo - {id};
        order := StopsAt(clients, token, order, id, todo);
        return Some(clients[id]), order;
      }
      order := order + [id];
    }
    FirstHolderAfter(clients, token, order, []);
    assert order + [] == order;
    return None, order;
  }

  method CollectOffered(nodes: map<string, Node>, c: Client, now: Time) returns (list: seq<Node>)
    requires NodesKeyed(nodes)
    ensures Enumerates(list, OfferedNodes(nodes, c, now))
  {
    var allowed := CollectAllowedNodes(c, now);
    list := [];
    var todo := nodes.Keys;
    while todo != {}
      invariant todo <= nodes.Keys
      invariant forall n | n in list :: n.id in nodes.Keys - todo && nodes[n.id] == n && OffersNode(c, n, now)
      invariant forall id | id in nodes.Keys - todo && OffersNode(c, nodes[id], now) :: nodes[id] in list
      invariant forall i, j | 0 <= i < j < |list| :: list[i] != list[j]
      decreases todo
    {
      var id :| id in todo;
      var n := nodes[id];
      todo := todo - {id};
      if n.enabled && n.id in allowed && IsShareable(n.protocol) {
        list := list + [n];
      }
    }
  }

  method CollectRelaysOf(relays: map<string, RelayRoute>, ids: seq<string>) returns (list: seq<RelayRoute>)
    ensures list == OfferedRelays(relays, ids)
  {
    list := [];
    for i := 0 to |ids|
      invariant list == OfferedRelays(relays, ids[..i])
    {
      CollectStep(ids, i, id => OfferedRelay(relays, id));
      var id := ids[i];
      if id in relays && relays[id].enabled && relays[id].routeMode == "socks5_route" {
        list := list + [relays[id]];
      }
    }
    assert ids[..|ids|] == ids;
  }

  /** The records a subscription is answered from. */
  datatype Panel = Panel(nodes: map<string, Node>, relays: map<string, RelayRoute>, policy: NetworkPolicy)

  predicate Refused(c: Client, now: Time) { !c.acct.enabled || Expired(c.acct, now) }

  /** What one client is answered: refused, or everything offered to it, in the order of IDs. */
  ghost function AnswerFor(p: Panel, c: Client, now: Time): Snapshot {
    if Refused(c, now) then Forbidden
    else Offer(c, StableSort(Listing(OfferedNodes(p.nodes, c, now)), NodeIDKey),
               StableSort(OfferedRelays(p.relays, c.relayIDs), RelayIDKey), p.policy)
  }

  /** The answer to a token, for one order of the client map. */
  ghost function Answer(p: Panel, clients: map<string, Client>, token: string, now: Time, order: seq<string>): Snapshot
    requires Enumerates(order, clients.Keys)
  {
    match FirstHolder(clients, token, order)
    case None => NotFound
    case Some(c) => AnswerFor(p, c, now)
  }

  method SubscriptionSnapshot(store: Store, token: string, now: Time) returns (s: Snapshot, ghost order: seq<string>)
    requires NodesKeyed(store.nodes)
    ensures Enumerates(order, store.clients.Keys)
    ensures s == Answer(Panel(store.nodes, store.relays, store.policy), store.clients, token, now, order)
  {
    var found;
    found, order := FindToken(store.clients, token);
    if found.None? {
      return NotFound, order;
    }
    var client := found.value;
    if !client.acct.enabled || (!IsZero(client.acct.expireAt) && !(now < client.acct.expireAt)) {
      return Forbidden, order;
    }
    var nodes := CollectOffered(store.nodes, client, now);
    var relays := CollectRelaysOf(store.relays, client.relayIDs);
    SortForgetsOrder(nodes, Listing(OfferedNodes(store.nodes, client, now)), OfferedNodes(store.nodes, client, now), NodeIDKey);
    return Offer(client, StableSort(nodes, NodeIDKey), StableSort(relays, RelayIDKey), store.policy), order;
  }

  /** A node that is on, bound to the client and of a protocol that can be shared. */
  predicate ShownNode(nodes: map<string, Node>, c: Client, n: Node) {
    n.id in nodes && nodes[n.id] == n && n.enabled && n.id != "" && n.id in c.nodeIDs && ToLower(TrimSpace(n.protocol)) in {"vless", "vmess", "trojan"}
  }

  /** A fixed exit that is on and bound to the client. */
  predicate ShownRelay(relays: map<string, RelayRoute>, c: Client, r: RelayRoute) {
    exists id | id in c.relayIDs :: id in relays && relays[id] == r && r.enabled && r.routeMode == "socks5_route"
  }

  /** A client that is on and not expired is shown exactly these, the nodes in the order of their IDs. */
  lemma AnswerSays(p: Panel, c: Client, now: Time)
    requires NodesKeyed(p.nodes)
    ensures AnswerFor(p, c, now) == Forbidden <==> !c.acct.enabled || (c.acct.expireAt != 0 && now >= c.acct.expireAt)
    ensures AnswerFor(p, c, now) != Forbidden ==> var a := AnswerFor(p, c, now);
      && a.Offer? && a.client == c && a.policy == p.policy
      && (forall n :: n in a.nodes <==> ShownNode(p.nodes, c, n)) && (forall i, j | 0 <= i < j < |a.nodes| :: Less(a.nodes[i].id, a.nodes[j].id))
      && (forall r :: r in a.relays <==> ShownRelay(p.relays, c, r))
  {
    var ns, rs := OfferedNodes(p.nodes, c, now), OfferedRelays(p.relays, c.relayIDs);
    SortedEnumeration(Listing(ns), ns, NodeIDKey);
    forall r ensures r in StableSort(rs, RelayIDKey) <==> ShownRelay(p.relays, c, r) {
      InSorted(rs, RelayIDKey, r);
      InCollect(c.relayIDs, id => OfferedRelay(p.relays, id), r);
    }
    var sorted := StableSort(Listing(ns), NodeIDKey);
    forall i, j | 0 <= i < j < |sorted| ensures Less(sorted[i].id, sorted[j].id) {
      assert Before(NodeIDKey(sorted[i]), NodeIDKey(sorted[j]));
    }
  }

  // ---- whose answer a token gets -----------------------------------------------------

  predicate Holds(clients: map<string, Client>, token: string, id: string) { id in clients && clients[id].token == token }

  lemma {:induction false} FirstHolderHolds(clients: map<string, Client>, token: string, order: seq<string>)
    requires forall id | id in order :: id in clients
    ensures match FirstHolder(clients, token, order)
      case None => forall id | id in order :: clients[id].token != token
      case Some(c) => exists id | id in order :: clients[id].token == token && c == clients[id]
  {
    if order != [] {
      assert order == [order[0]] + order[1..];
      FirstHolderHolds(clients, token, order[1..]);
    }
  }

  /** Some order of the map begins with this client. */
  ghost function Ahead(clients: map<string, Client>, id: string): (order: seq<string>)
    requires id in clients
    ensures Enumerates(order, clients.Keys) && order[0] == id
  {
    var rest := Listing(clients.Keys - {id});
    assert forall k | k in clients.Keys :: k in [id] + rest;
    [id] + rest
  }

  ghost predicate IsAnswer(p: Panel, clients: map<string, Client>, token: string, now: Time, s: Snapshot) {
    || (exists id :: Holds(clients, token, id) && s == AnswerFor(p, clients[id], now))
    || (s == NotFound && !exists id :: Holds(clients, token, id))
  }

  lemma AnswerIsOneOf(p: Panel, clients: map<string, Client>, token: string, now: Time, order: seq<string>)
    requires Enumerates(order, clients.Keys)
    ensures IsAnswer(p, clients, token, now, Answer(p, clients, token, now, order))
  {
    FirstHolderHolds(clients, token, order);
    match FirstHolder(clients, token, order)
    case Some(c) =>
      var id :| id in order && clients[id].token == token && c == clients[id];
      assert Holds(clients, token, id);
    case None =>
      assert forall id :: Holds(clients, token, id) ==> id in order;
  }

  lemma HolderAnswers(p: Panel, clients: map<string, Client>, token: string, now: Time, id: string)
    requires Holds(clients, token, id)
    ensures Answer(p, clients, token, now, Ahead(clients, id)) == AnswerFor(p, clients[id], now)
  {
  }

  ghost predicate Happens(p: Panel, clients: map<string, Client>, token: string, now: Time, s: Snapshot) {
    exists order | Enumerates(order, clients.Keys) :: Answer(p, clients, token, now, order) == s
  }

  /** The possible answers are exactly those of the clients with the token, or "not found" without one. */
  lemma AnswersExactly(p: Panel, clients: map<string, Client>, token: string, now: Time, s: Snapshot)
    ensures Happens(p, clients, token, now, s) <==> IsAnswer(p, clients, token, now, s)
  {
    if order :| Enumerates(order, clients.Keys) && Answer(p, clients, token, now, order) == s {
      AnswerIsOneOf(p, clients, token, now, order);
    }
    if id :| Holds(clients, token, id) && s == AnswerFor(p, clients[id], now) {
      HolderAnswers(p, clients, token, now, id);
    } else if s == NotFound && !exists id :: Holds(clients, token, id) {
      FirstHolderHolds(clients, token, Listing(clients.Keys));
      assert Answer(p, clients, token, now, Listing(clients.Keys)) == NotFound by {
        assert forall id | id in clients :: !Holds(clients, token, id);
      }
    }
  }

  ghost predicate OrderMatters(p: Panel, clients: map<string, Client>, token: string, now: Time) {
    exists x, y | Enumerates(x, clients.Keys) && Enumerates(y, clients.Keys) :: Answer(p, clients, token, now, x) != Answer(p, clients, token, now, y)
  }

  /**
   The answer depends on the order of the client map exactly when two clients have the token, not
   both of them refused.
   */
  lemma OrderMattersExactly(p: Panel, clients: map<string, Client>, token: string, now: Time)
    requires ClientsKeyed(clients)
    ensures OrderMatters(p, clients, token, now) <==>
            exists i, j | Holds(clients, token, i) && Holds(clients, token, j) && i != j :: !(Refused(clients[i], now) && Refused(clients[j], now))
  {
    if i, j :| Holds(clients, token, i) && Holds(clients, token, j) && i != j && !(Refused(clients[i], now) && Refused(clients[j], now)) {
      HolderAnswers(p, clients, token, now, i);
      HolderAnswers(p, clients, token, now, j);
      assert clients[i].id != clients[j].id;
      var x, y := Ahead(clients, i), Ahead(clients, j);
      assert Answer(p, clients, token, now, x) != Answer(p, clients, token, now, y);
    } else if x, y :| Enumerates(x, clients.Keys) && Enumerates(y, clients.Keys) && Answer(p, clients, token, now, x) != Answer(p, clients, token, now, y) {
      AnswerIsOneOf(p, clients, token, now, x);
      AnswerIsOneOf(p, clients, token, now, y);
    }
  }

  /**
   Two clients with one token, one of them switched off: the order of the map decides between refusal
   and offer, and validation accepts both records.
   */
  lemma SharedTokenIsAmbiguous(p: Panel, c: Client, now: Time) returns (x: seq<string>, y: seq<string>)
    requires !Refused(c, now)
    ensures Enumerates(x, Twins(c).Keys) && Enumerates(y, Twins(c).Keys)
    ensures Answer(p, Twins(c), c.token, now, x) == AnswerFor(p, c.(id := "on"), now) != Forbidden
    ensures Answer(p, Twins(c), c.token, now, y) == Forbidden
    ensures forall id | id in Twins(c) :: ClientOps.Acceptable(p.nodes, p.relays, Twins(c)[id]) <==> ClientOps.Acceptable(p.nodes, p.relays, c)
  {
    x, y := Ahead(Twins(c), "on"), Ahead(Twins(c), "off");
  }

  // ---- the offer is what the servers accept ----------------------------------------

  predicate UnderLimit(c: Client) { !(0 < c.acct.limitGB <= MAX_GB && Effective(c.acct) >= c.acct.limitGB * GIB) }

  /** The config that the server a record belongs to is told to run. */
  ghost function ServedBy(store: Store, serverID: string, now: Time): Config
    reads store
  {
    DesiredConfig(store.nodes, store.relays, EnforcedClients(store.clients, now), store.policy, serverID, now)
  }

  lemma SocksIsNotShareable(protocol: string)
    requires protocol == "socks"
    ensures !IsShareable(protocol)
  {
    TrimSpaceIsTrimmed(protocol);
    assert ToLower(protocol)[0] == 's';
  }

  /**
   A node the panel could offer: the server behind it has an inbound for it on its port, and that
   lists the client under its own credential exactly when the subscription shows the node, the
   traffic limit is not reached and the client has a credential of the protocol.
   */
  lemma NodeOfferIsServed(store: Store, now: Time, clientID: string, nodeID: string)
    requires NodesKeyed(store.nodes) && RelaysKeyed(store.relays) && ClientsKeyed(store.clients)
    requires clientID in store.clients && nodeID in store.nodes
    requires store.clients[clientID].acct.enabled && !Expired(store.clients[clientID].acct, now)
    requires store.nodes[nodeID].enabled && IsShareable(store.nodes[nodeID].protocol)
    ensures var c, n := store.clients[clientID], store.nodes[nodeID];
      exists b | b in ServedBy(store, n.serverID, now).inbounds ::
        b.UsersIn? && b.tag == nodeID && b.port == n.port &&
        ListsExactly(b.users, store.clients, now, NodeGrant(n)) &&
        (NodeRecord(c, n) in b.users <==> OffersNode(c, n, now) && UnderLimit(c) && (ToLower(n.protocol) == "trojan" || c.uuid != ""))
  {
    var c, n := store.clients[clientID], store.nodes[nodeID];
    if n.protocol == "socks" {
      SocksIsNotShareable(n.protocol);
    }
    NodeEntitlement(store.nodes, store.relays, store.clients, store.policy, n.serverID, now, nodeID);
    assert Entitled(c, now) <==> UnderLimit(c);
    var b :| b in ServedBy(store, n.serverID, now).inbounds && b.UsersIn? && b.tag == nodeID && b.port == n.port &&
      ListsExactly(b.users, store.clients, now, NodeGrant(n));
    ListedExactly(b.users, store.clients, now, NodeGrant(n), clientID);
  }

  ghost predicate HasUserInbound(cfg: Config, tag: string) { exists b | b in cfg.inbounds :: b.UsersIn? && b.tag == tag }

  /** The part of the generator's check that the subscription does not make. */
  predicate HasLanding(r: RelayRoute, nodes: map<string, Node>) { r.relayPort > 0 && LandingOf(r, nodes).Some? }

  /**
   A relay a subscription shows has an inbound behind it exactly when it has a port and a complete
   landing; without them it is offered all the same, and the server does not serve it.
   */
  lemma RelayOfferIsServedExactly(store: Store, now: Time, relayID: string)
    requires NodesKeyed(store.nodes) && RelaysKeyed(store.relays) && ClientsKeyed(store.clients)
    requires OfferedRelay(store.relays, relayID).Some?
    requires forall id | id in store.nodes :: id != InTag(relayID)
    ensures var r := store.relays[relayID];
      HasUserInbound(ServedBy(store, r.relayServerID, now), InTag(relayID)) <==> HasLanding(r, store.nodes)
  {
    var r := store.relays[relayID];
    var cfg := ServedBy(store, r.relayServerID, now);
    if HasLanding(r, store.nodes) {
      RelayEntitlement(store.nodes, store.relays, store.clients, store.policy, r.relayServerID, now, relayID);
    }
    if HasUserInbound(cfg, InTag(relayID)) {
      OnlyAcceptedRelays(store, now, r.relayServerID, relayID);
    }
  }

  lemma OnlyAcceptedRelays(store: Store, now: Time, serverID: string, relayID: string)
    requires NodesKeyed(store.nodes) && RelaysKeyed(store.relays)
    requires forall id | id in store.nodes :: id != InTag(relayID)
    requires HasUserInbound(ServedBy(store, serverID, now), InTag(relayID))
    ensures relayID in store.relays && Accepted(store.relays[relayID], store.nodes)
  {
    var nodes, relays := SortedNodes(store.nodes, serverID), SortedRelays(store.relays, serverID);
    var clients := SortedClients(EnforcedClients(store.clients, now));
    var b :| b in ServedBy(store, serverID, now).inbounds && b.UsersIn? && b.tag == InTag(relayID);
    UsersOrigin(nodes, clients, relays, store.nodes, store.policy, now, b);
    SortedEnumeration(Listing(ServerNodes(store.nodes, serverID)), ServerNodes(store.nodes, serverID), NodeKey);
    SortedEnumeration(Listing(ServerRelays(store.relays, serverID)), ServerRelays(store.relays, serverID), RelayKey);
    if r :| r in relays && Accepted(r, store.nodes) && b.tag == InTag(r.id) {
      TagsAreInjective(r.id, relayID);
    }
  }

  lemma OfferedIfBound(relays: map<string, RelayRoute>, ids: seq<string>, relayID: string)
    requires RelaysKeyed(relays) && OfferedRelay(relays, relayID).Some?
    ensures relays[relayID] in OfferedRelays(relays, ids) <==> relayID in ids
  {
    InCollect(ids, id => OfferedRelay(relays, id), relays[relayID]);
    if id :| id in ids && OfferedRelay(relays, id) == Some(relays[relayID]) {
      assert id == relayID;
    }
  }

  /** A served relay lists the client under its UUID exactly when it is bound, under its limit and has a UUID. */
  lemma RelayOfferAdmits(store: Store, now: Time, clientID: string, relayID: string)
    requires NodesKeyed(store.nodes) && RelaysKeyed(store.relays) && ClientsKeyed(store.clients)
    requires clientID in store.clients && OfferedRelay(store.relays, relayID).Some? && HasLanding(store.relays[relayID], store.nodes)
    requires store.clients[clientID].acct.enabled && !Expired(store.clients[clientID].acct, now)
    ensures var c, r := store.clients[clientID], store.relays[relayID];
      exists b | b in ServedBy(store, r.relayServerID, now).inbounds ::
        b.UsersIn? && b.tag == InTag(relayID) && b.port == r.relayPort &&
        ListsExactly(b.users, store.clients, now, RelayGrant(relayID)) &&
        (RelayRecord(c) in b.users <==> r in OfferedRelays(store.relays, c.relayIDs) && UnderLimit(c) && c.uuid != "")
  {
    var c, r := store.clients[clientID], store.relays[relayID];
    RelayEntitlement(store.nodes, store.relays, store.clients, store.policy, r.relayServerID, now, relayID);
    OfferedIfBound(store.relays, c.relayIDs, relayID);
    assert Entitled(c, now) <==> UnderLimit(c);
    var b :| b in ServedBy(store, r.relayServerID, now).inbounds && b.UsersIn? && b.tag == InTag(relayID) && b.port == r.relayPort &&
      ListsExactly(b.users, store.clients, now, RelayGrant(relayID));
    ListedExactly(b.users, store.clients, now, RelayGrant(relayID), clientID);
  }
}
