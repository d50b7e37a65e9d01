// The sync endpoint: enforce, collect, sort, generate, compare
// (backend/internal/api/agent.go, agentSync).

module Syncs {
  import opened Wrappers
  import opened Text
  import opened Model
  import opened Sorting
  import opened Billing
  import opened Xray
  import opened Entitlement
  import opened Collecting
  import ClientOps
  import Integrity
  import Ports

  function NodeKey(n: Node): Key { Key(n.port, "", n.id) }

  function RelayKey(r: RelayRoute): Key { Key(r.relayPort, "", r.id) }

  function ClientKey(c: Client): Key { Key(0, c.username, c.id) }

  /** Records are stored under their own ID. */
  ghost predicate NodesKeyed(nodes: map<string, Node>) { forall id | id in nodes :: nodes[id].id == id }

  ghost predicate RelaysKeyed(relays: map<string, RelayRoute>) { forall id | id in relays :: relays[id].id == id }

  ghost predicate ClientsKeyed(clients: map<string, Client>) { forall id | id in clients :: clients[id].id == id }

  function ServerNodes(nodes: map<string, Node>, serverID: string): set<Node> {
    set id | id in nodes && nodes[id].serverID == serverID && nodes[id].enabled :: nodes[id]
  }

  function ServerRelays(relays: map<string, RelayRoute>, serverID: string): set<RelayRoute> {
    set id | id in relays && relays[id].relayServerID == serverID && relays[id].enabled :: relays[id]
  }

  function EnabledClients(clients: map<string, Client>): set<Client> {
    set id | id in clients && clients[id].acct.enabled :: clients[id]
  }

  ghost function SortedNodes(nodes: map<string, Node>, serverID: string): seq<Node> {
    StableSort(Listing(ServerNodes(nodes, serverID)), NodeKey)
  }

  ghost function SortedRelays(relays: map<string, RelayRoute>, serverID: string): seq<RelayRoute> {
    StableSort(Listing(ServerRelays(relays, serverID)), RelayKey)
  }

  ghost function SortedClients(clients: map<string, Client>): seq<Client> {
    StableSort(Listing(EnabledClients(clients)), ClientKey)
  }

  /** The config of one server: a function of the maps, not of the order Go walks them. */
  ghost function DesiredConfig(nodes: map<string, Node>, relays: map<string, RelayRoute>, clients: map<string, Client>,
                               policy: NetworkPolicy, serverID: string, now: Time): Config {
    ServerConfig(SortedNodes(nodes, serverID), SortedClients(clients), SortedRelays(relays, serverID), nodes, policy, now)
  }

  method CollectNodes(nodes: map<string, Node>, serverID: string) returns (list: seq<Node>)
    requires NodesKeyed(nodes)
    ensures Enumerates(list, ServerNodes(nodes, serverID))
  {
    list := [];
    var todo := nodes.Keys;
    while todo != {}
      invariant todo <= nodes.Keys
      invariant forall n | n in list :: n.id in nodes.Keys - todo && nodes[n.id] == n && n.serverID == serverID && n.enabled
      invariant forall id | id in nodes.Keys - todo && nodes[id].serverID == serverID && nodes[id].enabled :: nodes[id] in list
      invariant forall i, j | 0 <= i < j < |list| :: list[i] != list[j]
      decreases todo
    {
      var id :| id in todo;
      var n := nodes[id];
      todo := todo - {id};
      if n.serverID == serverID && n.enabled {
        list := list + [n];
      }
    }
  }

  method CollectRelays(relays: map<string, RelayRoute>, serverID: string) returns (list: seq<RelayRoute>)
    requires RelaysKeyed(relays)
    ensures Enumerates(list, ServerRelays(relays, serverID))
  {
    list := [];
    var todo := relays.Keys;
    while todo != {}
      invariant todo <= relays.Keys
      invariant forall r | r in list :: r.id in relays.Keys - todo && relays[r.id] == r && r.relayServerID == serverID && r.enabled
      invariant forall id | id in relays.Keys - todo && relays[id].relayServerID == serverID && relays[id].enabled :: relays[id] in list
      invariant forall i, j | 0 <= i < j < |list| :: list[i] != list[j]
      decreases todo
    {
      var id :| id in todo;
      var r := relays[id];
      todo := todo - {id};
      if r.relayServerID == serverID && r.enabled {
        list := list + [r];
      }
    }
  }

  method CollectClients(clients: map<string, Client>) returns (list: seq<Client>)
    requires ClientsKeyed(clients)
    ensures Enumerates(list, EnabledClients(clients))
  {
    list := [];
    var todo := clients.Keys;
    while todo != {}
      invariant todo <= clients.Keys
      invariant forall c | c in list :: c.id in clients.Keys - todo && clients[c.id] == c && c.acct.enabled
      invariant forall id | id in clients.Keys - todo && clients[id].acct.enabled :: clients[id] in list
      invariant forall i, j | 0 <= i < j < |list| :: list[i] != list[j]
      decreases todo
    {
      var id :| id in todo;
      var c := clients[id];
      todo := todo - {id};
      if c.acct.enabled {
        list := list + [c];
      }
    }
  }

  /** The answer to a sync; a hash is the config it is the hash of, None the empty hash. */
  datatype SyncResponse = NotRegistered | Synced(desired: Config, restartRequired: bool)

  /**
   For every order in which Go walks the three maps the answer is the same: the desired
   config of the enforced store, and a restart exactly when the reported hash differs.
   */
  method AgentSync(store: Store, serverID: string, reported: Option<Config>, agentVersion: string, now: Time)
    returns (response: SyncResponse)
    requires NodesKeyed(store.nodes) && RelaysKeyed(store.relays) && ClientsKeyed(store.clients)
    modifies store`clients, store`servers
    ensures serverID !in old(store.servers) ==>
      response == NotRegistered && store.clients == old(store.clients) && store.servers == old(store.servers)
    ensures serverID in old(store.servers) ==>
      && store.clients == EnforcedClients(old(store.clients), now)
      && response.Synced?
      && response.desired == DesiredConfig(store.nodes, store.relays, EnforcedClients(old(store.clients), now), store.policy, serverID, now)
      && (response.restartRequired <==> reported != Some(response.desired))
    ensures serverID in old(store.servers) ==> var s := old(store.servers)[serverID];
      store.servers == old(store.servers)[s.id := s.(agentVersion := agentVersion, lastSyncAt := now,
        lastSyncMessage := "agent sync requested", updatedAt := now)]
  {
    if serverID !in store.servers {
      return NotRegistered;
    }
    var server := store.servers[serverID];
    var changed := EnforceBillingLocked(store, now);
    var nodes := CollectNodes(store.nodes, serverID);
    SortForgetsOrder(nodes, Listing(ServerNodes(store.nodes, serverID)), ServerNodes(store.nodes, serverID), NodeKey);
    nodes := StableSort(nodes, NodeKey);
    var relays := CollectRelays(store.relays, serverID);
    SortForgetsOrder(relays, Listing(ServerRelays(store.relays, serverID)), ServerRelays(store.relays, serverID), RelayKey);
    relays := StableSort(relays, RelayKey);
    var clients := CollectClients(store.clients);
    SortForgetsOrder(clients, Listing(EnabledClients(store.clients)), EnabledClients(store.clients), ClientKey);
    clients := StableSort(clients, ClientKey);
    var cfg := GenerateServerConfig(nodes, clients, relays, store.nodes, store.policy, now);
    server := server.(agentVersion := agentVersion, lastSyncAt := now, lastSyncMessage := "agent sync requested", updatedAt := now);
    store.servers := store.servers[server.id := server];
    return Synced(cfg, reported != Some(cfg));
  }

  // ---- entitlement --------------------------------------------------------------

  /** May this client be served at all at this instant? */
  predicate Entitled(c: Client, now: Time) {
    && c.acct.enabled && !Expired(c.acct, now)
    && !(0 < c.acct.limitGB <= MAX_GB && Effective(c.acct) >= c.acct.limitGB * GIB)
  }

  predicate Lists(users: seq<User>, c: Client) { exists u | u in users :: u.email == Email(c) }

  ghost predicate NoRepeatedEmail(users: seq<User>) {
    forall i, j | 0 <= i < j < |users| :: users[i].email != users[j].email
  }

  /** The grant a node asks for: an explicit binding, and a UUID unless the protocol is trojan. */
  predicate MayUseNode(c: Client, n: Node) {
    n.id in c.nodeIDs && n.id != "" && (ToLower(n.protocol) == "trojan" || c.uuid != "")
  }

  predicate MayUseRelay(c: Client, relayID: string) {
    relayID in c.relayIDs && c.uuid != ""
  }

  /** What a node's inbound lists for a client: its label and the credential of the protocol. */
  function NodeRecord(c: Client, n: Node): User {
    if ToLower(n.protocol) == "trojan" then TrojanUser(TrojanPassword(c), Email(c))
    else if ToLower(n.protocol) == "vmess" then VmessUser(c.uuid, Email(c))
    else VlessUser(c.uuid, Email(c))
  }

  function RelayRecord(c: Client): User { RelayUser(c.uuid, Email(c)) }

  /** Who may use an inbound, and under which record. */
  datatype Grant = NodeGrant(node: Node) | RelayGrant(relayID: string)
  {
    predicate Allows(c: Client) {
      match this
      case NodeGrant(n) => MayUseNode(c, n)
      case RelayGrant(id) => MayUseRelay(c, id)
    }

    function Record(c: Client): (u: User)
      ensures u.email == Email(c)
    {
      match this
      case NodeGrant(n) => NodeRecord(c, n)
      case RelayGrant(_) => RelayRecord(c)
    }

    predicate Admits(c: Client, now: Time) { Entitled(c, now) && Allows(c) }
  }

  /** Sound and complete: the list is exactly the records of the entitled clients with the grant, each once. */
  ghost predicate ListsExactly(users: seq<User>, clients: map<string, Client>, now: Time, grant: Grant) {
    && NoRepeatedEmail(users)
    && (forall u | u in users :: exists id | id in clients :: grant.Admits(clients[id], now) && u == grant.Record(clients[id]))
    && (forall id | id in clients && grant.Admits(clients[id], now) :: grant.Record(clients[id]) in users)
  }

  /** So a stored client's own record, or any record with its label, is there exactly when it is admitted. */
  lemma ListedExactly(users: seq<User>, clients: map<string, Client>, now: Time, grant: Grant, id: string)
    requires ClientsKeyed(clients) && ListsExactly(users, clients, now, grant) && id in clients
    ensures grant.Record(clients[id]) in users <==> grant.Admits(clients[id], now)
    ensures Lists(users, clients[id]) <==> grant.Admits(clients[id], now)
  {
    if u :| u in users && u.email == Email(clients[id]) {
      var d :| d in clients && grant.Admits(clients[d], now) && u == grant.Record(clients[d]);
      EmailsInjective(clients[d], clients[id]);
    }
  }

  // ---- credentials ----------------------------------------------------------------

  /** What Xray asks a connection for. */
  datatype AccessKey = UUIDKey(uuid: string) | PasswordKey(password: string)

  /** derive is the hash that makes a trojan password of a client ID. */
  function KeyOf(u: User, derive: string -> string): AccessKey {
    match u
    case RelayUser(uuid, _) => UUIDKey(uuid)
    case VlessUser(uuid, _) => UUIDKey(uuid)
    case VmessUser(uuid, _) => UUIDKey(uuid)
    case TrojanUser(Stored(password), _) => PasswordKey(password)
    case TrojanUser(DerivedFrom(id), _) => PasswordKey(derive(id))
  }

  ghost predicate Opens(users: seq<User>, key: AccessKey, derive: string -> string) { exists u | u in users :: KeyOf(u, derive) == key }

  /** Another admitted client has the same UUID or password. */
  ghost predicate SharesKey(clients: map<string, Client>, now: Time, grant: Grant, id: string, derive: string -> string)
    requires id in clients
  {
    exists d | d in clients && d != id ::
      grant.Admits(clients[d], now) && KeyOf(grant.Record(clients[d]), derive) == KeyOf(grant.Record(clients[id]), derive)
  }

  /**
   Whose credential opens an inbound: a client's does exactly when the client is admitted or shares
   it with another one that is. So being admitted decides alone exactly for the clients that are,
   and for those that share their credential with no admitted client.
   */
  lemma CredentialServedExactly(users: seq<User>, clients: map<string, Client>, now: Time, grant: Grant, id: string, derive: string -> string)
    requires ListsExactly(users, clients, now, grant) && id in clients
    ensures var key, admitted := KeyOf(grant.Record(clients[id]), derive), grant.Admits(clients[id], now);
      && (Opens(users, key, derive) <==> admitted || SharesKey(clients, now, grant, id, derive))
      && ((Opens(users, key, derive) <==> admitted) <==> admitted || !SharesKey(clients, now, grant, id, derive))
  {
    var key := KeyOf(grant.Record(clients[id]), derive);
    if u :| u in users && KeyOf(u, derive) == key {
      var d :| d in clients && grant.Admits(clients[d], now) && u == grant.Record(clients[d]);
    }
    if d :| d in clients && d != id && grant.Admits(clients[d], now) && KeyOf(grant.Record(clients[d]), derive) == key {
      assert grant.Record(clients[d]) in users;
    }
  }

  ghost predicate DistinctKeys(users: seq<User>, derive: string -> string) {
    forall i, j | 0 <= i < j < |users| :: KeyOf(users[i], derive) != KeyOf(users[j], derive)
  }

  lemma SharedIsTwice(users: seq<User>, clients: map<string, Client>, now: Time, grant: Grant, id: string, derive: string -> string)
    requires ClientsKeyed(clients) && ListsExactly(users, clients, now, grant)
    requires id in clients && grant.Admits(clients[id], now) && SharesKey(clients, now, grant, id, derive)
    ensures !DistinctKeys(users, derive)
  {
    var d :| d in clients && d != id && grant.Admits(clients[d], now) && KeyOf(grant.Record(clients[d]), derive) == KeyOf(grant.Record(clients[id]), derive);
    EmailsInjective(clients[id], clients[d]);
    var i :| 0 <= i < |users| && users[i] == grant.Record(clients[id]);
    var j :| 0 <= j < |users| && users[j] == grant.Record(clients[d]);
    assert i < j || j < i;
  }

  lemma TwiceIsShared(users: seq<User>, clients: map<string, Client>, now: Time, grant: Grant, derive: string -> string)
    requires ListsExactly(users, clients, now, grant) && !DistinctKeys(users, derive)
    ensures exists id | id in clients && grant.Admits(clients[id], now) :: SharesKey(clients, now, grant, id, derive)
  {
    var i, j :| 0 <= i < j < |users| && KeyOf(users[i], derive) == KeyOf(users[j], derive);
    assert users[i] in users && users[j] in users && users[i].email != users[j].email;
    var id :| id in clients && grant.Admits(clients[id], now) && users[i] == grant.Record(clients[id]);
    var d :| d in clients && grant.Admits(clients[d], now) && users[j] == grant.Record(clients[d]);
    assert d != id;
  }

  /** No credential is listed twice exactly when no two admitted clients share one. */
  lemma CredentialsOnceExactly(users: seq<User>, clients: map<string, Client>, now: Time, grant: Grant, derive: string -> string)
    requires ClientsKeyed(clients) && ListsExactly(users, clients, now, grant)
    ensures DistinctKeys(users, derive) <==> forall id | id in clients && grant.Admits(clients[id], now) :: !SharesKey(clients, now, grant, id, derive)
  {
    if id :| id in clients && grant.Admits(clients[id], now) && SharesKey(clients, now, grant, id, derive) {
      SharedIsTwice(users, clients, now, grant, id, derive);
    } else if !DistinctKeys(users, derive) {
      TwiceIsShared(users, clients, now, grant, derive);
    }
  }

  lemma TwinsAreAccepted(nodes: map<string, Node>, relays: map<string, RelayRoute>, c: Client)
    ensures forall id | id in Twins(c) :: ClientOps.Acceptable(nodes, relays, Twins(c)[id]) <==> ClientOps.Acceptable(nodes, relays, c)
  {
  }

  lemma TwinsShareKey(c: Client, now: Time, grant: Grant, derive: string -> string)
    requires grant.Admits(c, now) && (grant.NodeGrant? && ToLower(grant.node.protocol) == "trojan" ==> TrimSpace(c.password) != "")
    ensures SharesKey(Twins(c), now, grant, "off", derive)
    ensures !grant.Admits(SwitchedOff(c), now) && !Entitled(SwitchedOff(c), now)
  {
    assert grant.Admits(Twins(c)["on"], now);
  }

  /**
   Nothing compares UUIDs or stored passwords: a client that is switched off keeps its access to any
   inbound through another one with the same credential, and validation accepts both records.
   */
  lemma SharedCredentialStaysServed(users: seq<User>, c: Client, now: Time, grant: Grant, derive: string -> string,
                                    nodes: map<string, Node>, relays: map<string, RelayRoute>)
    requires grant.Admits(c, now) && (grant.NodeGrant? && ToLower(grant.node.protocol) == "trojan" ==> TrimSpace(c.password) != "")
    requires ListsExactly(users, Twins(c), now, grant)
    ensures !Entitled(SwitchedOff(c), now) && !Lists(users, SwitchedOff(c))
    ensures Opens(users, KeyOf(grant.Record(SwitchedOff(c)), derive), derive)
    ensures forall id | id in Twins(c) :: ClientOps.Acceptable(nodes, relays, Twins(c)[id]) <==> ClientOps.Acceptable(nodes, relays, c)
  {
    TwinsAreAccepted(nodes, relays, c);
    TwinsShareKey(c, now, grant, derive);
    ListedExactly(users, Twins(c), now, grant, "off");
    CredentialServedExactly(users, Twins(c), now, grant, "off", derive);
  }

  function SwitchedOff(c: Client): Client { c.(id := "off", acct := c.acct.(enabled := false)) }

  /** One client twice, the second time switched off. */
  function Twins(c: Client): map<string, Client> { map["on" := c.(id := "on"), "off" := SwitchedOff(c)] }

  // ---- the generated inbounds -------------------------------------------------------

  lemma SortedClientsAre(clients: map<string, Client>, now: Time)
    requires ClientsKeyed(clients)
    ensures var list := SortedClients(EnforcedClients(clients, now));
      && DistinctClients(list)
      && (forall c | c in list :: c.id in clients && c == EnforcedClient(clients[c.id], now) && c.acct.enabled)
      && (forall id | id in clients && EnforcedClient(clients[id], now).acct.enabled :: EnforcedClient(clients[id], now) in list)
  {
    var enforced := EnforcedClients(clients, now);
    SortedEnumeration(Listing(EnabledClients(enforced)), EnabledClients(enforced), ClientKey);
    var list := SortedClients(enforced);
    forall i, j | 0 <= i < j < |list| ensures list[i].id != list[j].id {
      BeforeTotal(ClientKey(list[i]), ClientKey(list[j]));
      assert list[i] in list && list[j] in list;
    }
    forall id | id in clients && EnforcedClient(clients[id], now).acct.enabled ensures EnforcedClient(clients[id], now) in list {
      assert enforced[id] in EnabledClients(enforced);
    }
  }

  /** A client that survives enforcement has the same identity, bindings and credentials. */
  lemma SurvivorIsEntitled(c: Client, now: Time)
    ensures EnforcedClient(c, now).acct.enabled <==> Entitled(c, now)
    ensures Entitled(c, now) ==> Serving(EnforcedClient(c, now), now) && !Expired(EnforcedClient(c, now).acct, now)
  {
  }

  /** From an enforced client f picks the record of the grant, exactly if the client is admitted. */
  ghost predicate Picks(c: Client, now: Time, f: Client -> Option<User>, grant: Grant) {
    var e := EnforcedClient(c, now);
    (if e.acct.enabled then f(e) else None) == if grant.Admits(c, now) then Some(grant.Record(c)) else None
  }

  /** What the generator makes of a sorted, enforced slice: the picked records. */
  lemma PickedAreListed(list: seq<Client>, clients: map<string, Client>, now: Time, users: seq<User>, f: Client -> Option<User>, grant: Grant)
    requires ClientsKeyed(clients) && DistinctClients(list) && Exact(users, list, f)
    requires forall c | c in list :: c.id in clients && c == EnforcedClient(clients[c.id], now) && c.acct.enabled
    requires forall id | id in clients && EnforcedClient(clients[id], now).acct.enabled :: EnforcedClient(clients[id], now) in list
    requires forall id | id in clients :: Picks(clients[id], now, f, grant)
    ensures ListsExactly(users, clients, now, grant)
  {
    forall u | u in users ensures exists id | id in clients :: grant.Admits(clients[id], now) && u == grant.Record(clients[id]) {
      var c :| c in list && f(c) == Some(u);
      assert Picks(clients[c.id], now, f, grant);
    }
    forall id | id in clients && grant.Admits(clients[id], now) ensures grant.Record(clients[id]) in users {
      var e := EnforcedClient(clients[id], now);
      assert Picks(clients[id], now, f, grant);
      assert e in list;
    }
  }

  function NodePick(n: Node, now: Time): Client -> Option<User> { c => NodeUserOf(c, n.id, ToLower(n.protocol), now) }

  lemma NodePicks(c: Client, n: Node, now: Time)
    ensures Picks(c, now, NodePick(n, now), NodeGrant(n))
  {
    SurvivorIsEntitled(c, now);
  }

  lemma NodeListIsExact(list: seq<Client>, n: Node, now: Time)
    requires DistinctClients(list)
    ensures Exact(NodeUsers(list, n.id, n.protocol, now), list, NodePick(n, now))
  {
    NodeUsersExact(list, n.id, n.protocol, now);
  }

  lemma NodeUsersServe(clients: map<string, Client>, now: Time, n: Node)
    requires ClientsKeyed(clients)
    ensures ListsExactly(NodeUsers(SortedClients(EnforcedClients(clients, now)), n.id, n.protocol, now), clients, now, NodeGrant(n))
  {
    var list := SortedClients(EnforcedClients(clients, now));
    SortedClientsAre(clients, now);
    NodeListIsExact(list, n, now);
    forall id | id in clients ensures Picks(clients[id], now, NodePick(n, now), NodeGrant(n)) {
      NodePicks(clients[id], n, now);
    }
    PickedAreListed(list, clients, now, NodeUsers(list, n.id, n.protocol, now), NodePick(n, now), NodeGrant(n));
  }

  lemma NodeInboundPresent(nodes: map<string, Node>, relays: map<string, RelayRoute>, clients: map<string, Client>,
                           policy: NetworkPolicy, serverID: string, now: Time, nodeID: string)
    requires NodesKeyed(nodes) && ClientsKeyed(clients)
    requires nodeID in nodes && nodes[nodeID].serverID == serverID && CarriesUsers(nodes[nodeID])
    ensures var n, list := nodes[nodeID], SortedClients(EnforcedClients(clients, now));
      UsersIn(nodeID, n.port, n.protocol, NodeUsers(list, nodeID, n.protocol, now),
              ToLower(n.protocol) != "vmess" && ToLower(n.protocol) != "trojan", NodeStream(n), SNIFFING)
      in DesiredConfig(nodes, relays, EnforcedClients(clients, now), policy, serverID, now).inbounds
  {
    var n, list := nodes[nodeID], SortedClients(EnforcedClients(clients, now));
    SortedEnumeration(Listing(ServerNodes(nodes, serverID)), ServerNodes(nodes, serverID), NodeKey);
    assert n in ServerNodes(nodes, serverID);
    InCollect(SortedNodes(nodes, serverID), x => NodeInbound(x, list, now), NodeInbound(n, list, now).value);
  }

  /**
   Sound and complete for nodes: the inbound of a node that carries users lists exactly the
   records - label and credential - of the stored clients that are entitled, bound to that node
   and have the credential its protocol needs, each once.
   */
  lemma NodeEntitlement(nodes: map<string, Node>, relays: map<string, RelayRoute>, clients: map<string, Client>,
                        policy: NetworkPolicy, serverID: string, now: Time, nodeID: string)
    requires NodesKeyed(nodes) && ClientsKeyed(clients)
    requires nodeID in nodes && nodes[nodeID].serverID == serverID && CarriesUsers(nodes[nodeID])
    ensures exists b | b in DesiredConfig(nodes, relays, EnforcedClients(clients, now), policy, serverID, now).inbounds ::
      b.UsersIn? && b.tag == nodeID && b.port == nodes[nodeID].port && ListsExactly(b.users, clients, now, NodeGrant(nodes[nodeID]))
  {
    NodeUsersServe(clients, now, nodes[nodeID]);
    NodeInboundPresent(nodes, relays, clients, policy, serverID, now, nodeID);
  }

  function RelayPick(relayID: string, now: Time): Client -> Option<User> { c => RelayUserOf(c, relayID, now) }

  lemma RelayPicks(c: Client, relayID: string, now: Time)
    ensures Picks(c, now, RelayPick(relayID, now), RelayGrant(relayID))
  {
    SurvivorIsEntitled(c, now);
  }

  lemma RelayListIsExact(list: seq<Client>, relayID: string, now: Time)
    requires DistinctClients(list)
    ensures Exact(RelayUsers(list, relayID, now), list, RelayPick(relayID, now))
  {
    RelayUsersExact(list, relayID, now);
  }

  lemma RelayUsersServe(clients: map<string, Client>, now: Time, relayID: string)
    requires ClientsKeyed(clients)
    ensures ListsExactly(RelayUsers(SortedClients(EnforcedClients(clients, now)), relayID, now), clients, now, RelayGrant(relayID))
  {
    var list := SortedClients(EnforcedClients(clients, now));
    SortedClientsAre(clients, now);
    RelayListIsExact(list, relayID, now);
    forall id | id in clients ensures Picks(clients[id], now, RelayPick(relayID, now), RelayGrant(relayID)) {
      RelayPicks(clients[id], relayID, now);
    }
    PickedAreListed(list, clients, now, RelayUsers(list, relayID, now), RelayPick(relayID, now), RelayGrant(relayID));
  }

  lemma RelayInboundPresent(nodes: map<string, Node>, relays: map<string, RelayRoute>, clients: map<string, Client>,
                            policy: NetworkPolicy, serverID: string, now: Time, relayID: string)
    requires RelaysKeyed(relays) && ClientsKeyed(clients)
    requires relayID in relays && relays[relayID].relayServerID == serverID && Accepted(relays[relayID], nodes)
    ensures var r, list := relays[relayID], SortedClients(EnforcedClients(clients, now));
      RelayInbound(r, list, nodes, now).Some? &&
      RelayInbound(r, list, nodes, now).value in DesiredConfig(nodes, relays, EnforcedClients(clients, now), policy, serverID, now).inbounds
  {
    var r, list := relays[relayID], SortedClients(EnforcedClients(clients, now));
    SortedEnumeration(Listing(ServerRelays(relays, serverID)), ServerRelays(relays, serverID), RelayKey);
    assert r in ServerRelays(relays, serverID);
    InCollect(SortedRelays(relays, serverID), x => RelayInbound(x, list, nodes, now), RelayInbound(r, list, nodes, now).value);
  }

  /** The same for the inbound of an accepted fixed-exit relay; only clients with a UUID use it. */
  lemma RelayEntitlement(nodes: map<string, Node>, relays: map<string, RelayRoute>, clients: map<string, Client>,
                         policy: NetworkPolicy, serverID: string, now: Time, relayID: string)
    requires RelaysKeyed(relays) && ClientsKeyed(clients)
    requires relayID in relays && relays[relayID].relayServerID == serverID && Accepted(relays[relayID], nodes)
    ensures exists b | b in DesiredConfig(nodes, relays, EnforcedClients(clients, now), policy, serverID, now).inbounds ::
      b.UsersIn? && b.tag == InTag(relayID) && b.port == relays[relayID].relayPort && ListsExactly(b.users, clients, now, RelayGrant(relayID))
  {
    RelayUsersServe(clients, now, relayID);
    RelayInboundPresent(nodes, relays, clients, policy, serverID, now, relayID);
  }

  // ---- listening ports --------------------------------------------------------------

  lemma ServerPortsDisjoint(nodes: map<string, Node>, relays: map<string, RelayRoute>, serverID: string)
    requires NodesKeyed(nodes) && RelaysKeyed(relays)
    requires Integrity.NodePortsApart(nodes) && Integrity.RelayPortsApart(relays) && Ports.ClearOfRelays(nodes, relays)
    ensures PortsDisjoint(SortedNodes(nodes, serverID), SortedRelays(relays, serverID))
  {
    var ns, rs := SortedNodes(nodes, serverID), SortedRelays(relays, serverID);
    SortedEnumeration(Listing(ServerNodes(nodes, serverID)), ServerNodes(nodes, serverID), NodeKey);
    SortedEnumeration(Listing(ServerRelays(relays, serverID)), ServerRelays(relays, serverID), RelayKey);
    forall i, j | 0 <= i < j < |ns| ensures ns[i].port != ns[j].port {
      assert ns[i] in ns && ns[j] in ns;
      BeforeTotal(NodeKey(ns[i]), NodeKey(ns[j]));
      assert !Integrity.NodesClash(nodes[ns[i].id], nodes[ns[j].id]);
    }
    forall i, j | 0 <= i < j < |rs| ensures rs[i].relayPort != rs[j].relayPort {
      assert rs[i] in rs && rs[j] in rs;
      BeforeTotal(RelayKey(rs[i]), RelayKey(rs[j]));
      assert !Integrity.RelaysClash(relays[rs[i].id], relays[rs[j].id]);
    }
    forall n, r | n in ns && r in rs ensures n.port != r.relayPort {
      assert !Ports.MeetsRelay(nodes[n.id], relays[r.id]);
    }
  }

  /** While ports are apart in the data file, no two inbounds of any server's config listen on one port. */
  lemma ListeningPortsDistinct(nodes: map<string, Node>, relays: map<string, RelayRoute>, clients: map<string, Client>,
                               policy: NetworkPolicy, serverID: string, now: Time)
    requires NodesKeyed(nodes) && RelaysKeyed(relays)
    requires Integrity.NodePortsApart(nodes) && Integrity.RelayPortsApart(relays) && Ports.ClearOfRelays(nodes, relays)
    ensures DistinctPorts(DesiredConfig(nodes, relays, clients, policy, serverID, now).inbounds)
  {
    ServerPortsDisjoint(nodes, relays, serverID);
    InboundPortsDistinct(SortedNodes(nodes, serverID), SortedClients(clients), SortedRelays(relays, serverID), nodes, policy, now);
  }
}
