// Whole runs of the panel: any sequence of requests on a sound data file keeps it sound, and every
// client's ledger is what its history makes of it, so the billing theorems hold of the store.

module Runs {
  import opened Wrappers
  import opened Text
  import opened Model
  import opened Billing
  import opened Integrity
  import opened LocalServers
  import C = Conservation
  import opened Exactness
  import opened Histories
  import ClientOps
  import ExitOps
  import Heartbeats
  import NodeOps
  import RelayOps
  import ServerOps
  import Syncs
  import Xray

  datatype Request =
    | PostNode(node: Node, newID: string)
    | PutNode(id: string, node: Node)
    | DropNode(id: string)
    | PostRelay(relay: RelayRoute, newID: string)
    | PutRelay(id: string, relay: RelayRoute)
    | DropRelay(id: string)
    | PostClient(client: Client, newID: string)
    | PutClient(id: string, client: Client)
    | ResetToken(id: string, token: string)
    | DropClient(id: string)
    | PostExitClient(q: ClientOps.ExitRequest, newID: string, relayID: string)
    | PostExit(exit: LandingExit, newID: string)
    | PutExit(id: string, exit: LandingExit)
    | DropExit(id: string)
    | FinishExitTest(id: string, exit: LandingExit)
    | PostServer(server: Server, newID: string)
    | PutServer(id: string, server: Server)
    | DropServer(id: string)
    | ListServersOrNodes
    | PutPolicy(policy: NetworkPolicy)
    | Heartbeat(beat: AgentHeartbeat)
    | Sync(serverID: string, reported: Option<Xray.Config>, agentVersion: string)

  /** A request with what the outside world adds to it: clocks, random values, and whether saving works. */
  datatype Arrival = Arrival(
    request: Request, e: Environment, g: NodeOps.Generated, credentials: ClientOps.Credentials, now: Time, saved: bool)

  /** Random identifiers are new, a heartbeat names a server, and an exit that a test read was stored, so it is complete. */
  predicate Expected(store: Store, a: Arrival)
    reads store
  {
    && a.e.newServerID !in store.servers && a.e.newServerID != ""
    && match a.request
       case PostNode(_, newID) => newID !in store.nodes && newID != ""
       case PostRelay(_, newID) => newID !in store.relays && newID != ""
       case PostClient(_, newID) => newID !in store.clients
       case PostExitClient(_, newID, relayID) => newID !in store.clients && relayID !in store.relays && relayID != ""
       case PostServer(_, newID) => newID !in store.servers && newID != ""
       case FinishExitTest(_, exit) => Complete(exit)
       case Heartbeat(beat) => beat.serverID != ""
       case _ => true
  }

  /** A heartbeat whose server was deleted after its token was checked. */
  predicate Races(servers: map<string, Server>, q: Request) { q.Heartbeat? && q.beat.serverID !in servers }

  // ---- histories ------------------------------------------------------------------

  /** The records a request finds. */
  datatype Records = Records(
    servers: map<string, Server>, nodes: map<string, Node>, relays: map<string, RelayRoute>, clients: map<string, Client>)

  function RecordsOf(store: Store): Records
    reads store
  {
    Records(store.servers, store.nodes, store.relays, store.clients)
  }

  /** The ledgers of all clients. */
  ghost function Ledgers(clients: map<string, Client>): map<string, Ledger>
    reads set id | id in clients :: clients[id].cursors
  {
    map id | id in clients :: View(clients[id])
  }

  function ReadingOf(hb: AgentHeartbeat, id: string, now: Time): Reading
    requires id in hb.traffic
  {
    Reading(hb.serverID, C.Obs(hb.epoch, hb.traffic[id].uplink, hb.traffic[id].downlink, hb.sampleAt), now)
  }

  /** What a saved heartbeat is for each client: a reading, or a mere wait where it does not count. */
  ghost function BeatMoments(p: Records, hb: AgentHeartbeat, now: Time): map<string, Moment> {
    map id | id in p.clients ::
      if SourceAllowed(p.nodes, p.relays, p.clients[id], hb.serverID) && id in hb.traffic then Reads(ReadingOf(hb, id, now)) else Waits(now)
  }

  ghost function WaitMoments(p: Records, now: Time): map<string, Moment> { map id | id in p.clients :: Waits(now) }

  ghost function NodeMoments(p: Records, k: string): map<string, Moment> {
    map id | id in p.clients :: Flags(NodeOps.UnboundNode(p.clients[id], k).acct.enabled, p.clients[id].acct.updatedAt)
  }

  ghost function RelayMoments(p: Records, k: string): map<string, Moment> {
    map id | id in p.clients :: Flags(RelayOps.UnboundRelay(p.clients[id], k).acct.enabled, p.clients[id].acct.updatedAt)
  }

  /** An edit counts when it is acceptable and saved. */
  predicate Edits(p: Records, k: string, body: Client, now: Time, saved: bool) {
    k in p.clients && saved && ClientOps.Acceptable(p.nodes, p.relays, ClientOps.Completed(body, p.clients[k], now))
  }

  ghost function EditMoments(p: Records, k: string, body: Client, now: Time, saved: bool): map<string, Moment> {
    if Edits(p, k, body, now, saved) then map[k := Alters(ClientOps.Completed(body, p.clients[k], now).acct, now)] else map[]
  }

  ghost function ResetMoments(p: Records, k: string, now: Time): map<string, Moment> {
    if k in p.clients then map[k := Flags(p.clients[k].acct.enabled, now)] else map[]
  }

  /** What a request means for each client it means anything for. */
  ghost function MomentsOf(p: Records, a: Arrival): map<string, Moment> {
    match a.request
    case Heartbeat(hb) => if a.saved then BeatMoments(p, hb, a.now) else map[]
    case Sync(serverID, _, _) => if serverID in p.servers then WaitMoments(p, a.now) else map[]
    case DropNode(k) => if k in p.nodes then NodeMoments(p, k) else map[]
    case DropRelay(k) => if k in p.relays then RelayMoments(p, k) else map[]
    case PutClient(k, body) => EditMoments(p, k, body, a.now, a.saved)
    case ResetToken(k, _) => ResetMoments(p, k, a.now)
    case _ => map[]
  }

  predicate LimitAccepted(a: Account) { 0 <= a.limitGB <= ClientOps.MAX_LIMIT_GB }

  /** The ledger of a new client. */
  predicate Blank(l: Ledger) {
    l.cursors == map[] && l.acct.usedBytes == 0 && l.acct.usedGB == 0 && IsZero(l.acct.resetAt) && LimitAccepted(l.acct)
  }

  function Gone(a: Arrival): set<string> { if a.request.DropClient? then {a.request.id} else {} }

  /** The ledgers after a request: of a client that was there, what befell it; of a new one, blank. */
  ghost predicate Follow(before: map<string, Ledger>, after: map<string, Ledger>, moments: map<string, Moment>, gone: set<string>) {
    && (forall id | id in before && id !in gone :: id in after && after[id] == if id in moments then Live(before[id], moments[id]) else before[id])
    && (forall id | id in after && (id !in before || id in gone) :: Blank(after[id]))
  }

  lemma NothingFollows(ledgers: map<string, Ledger>)
    ensures Follow(ledgers, ledgers, map[], {})
  {
  }

  /** A new record is blank, and the others are untouched. */
  lemma OneMore(clients: map<string, Client>, id: string, c: Client)
    requires id !in clients && Blank(View(c))
    ensures Follow(Ledgers(clients), Ledgers(clients[id := c]), map[], {})
  {
    assert Ledgers(clients[id := c]) == Ledgers(clients)[id := View(c)];
  }

  lemma OneLess(clients: map<string, Client>, k: string)
    ensures Follow(Ledgers(clients), Ledgers(clients - {k}), map[], {k})
  {
    assert Ledgers(clients - {k}) == Ledgers(clients) - {k};
  }

  /** The record of one client changes as this moment has it. */
  lemma OneFollows(clients: map<string, Client>, k: string, c: Client, m: Moment)
    requires k in clients && View(c) == Live(View(clients[k]), m)
    ensures Follow(Ledgers(clients), Ledgers(clients[k := c]), map[k := m], {})
  {
    assert Ledgers(clients[k := c]) == Ledgers(clients)[k := View(c)];
  }

  /** Every record changes, each as its moment has it. */
  lemma AllFollow(clients: map<string, Client>, after: map<string, Client>, moments: map<string, Moment>)
    requires after.Keys == moments.Keys == clients.Keys
    requires forall id | id in clients :: View(after[id]) == Live(View(clients[id]), moments[id])
    ensures Follow(Ledgers(clients), Ledgers(after), moments, {})
  {
  }

  lemma UnboundNodeLedger(c: Client, k: string)
    ensures View(NodeOps.UnboundNode(c, k)) == Live(View(c), Flags(NodeOps.UnboundNode(c, k).acct.enabled, c.acct.updatedAt))
  {
  }

  lemma UnboundNodesFollow(p: Records, k: string)
    ensures Follow(Ledgers(p.clients), Ledgers(NodeOps.UnboundNodes(p.clients, k)), NodeMoments(p, k), {})
  {
    forall id | id in p.clients ensures View(NodeOps.UnboundNodes(p.clients, k)[id]) == Live(View(p.clients[id]), NodeMoments(p, k)[id]) {
      UnboundNodeLedger(p.clients[id], k);
    }
    AllFollow(p.clients, NodeOps.UnboundNodes(p.clients, k), NodeMoments(p, k));
  }

  lemma UnboundRelayLedger(c: Client, k: string)
    ensures View(RelayOps.UnboundRelay(c, k)) == Live(View(c), Flags(RelayOps.UnboundRelay(c, k).acct.enabled, c.acct.updatedAt))
  {
  }

  lemma UnboundRelaysFollow(p: Records, k: string)
    ensures Follow(Ledgers(p.clients), Ledgers(RelayOps.UnboundRelays(p.clients, k)), RelayMoments(p, k), {})
  {
    forall id | id in p.clients ensures View(RelayOps.UnboundRelays(p.clients, k)[id]) == Live(View(p.clients[id]), RelayMoments(p, k)[id]) {
      UnboundRelayLedger(p.clients[id], k);
    }
    AllFollow(p.clients, RelayOps.UnboundRelays(p.clients, k), RelayMoments(p, k));
  }

  lemma EnforcedFollow(p: Records, now: Time)
    ensures Follow(Ledgers(p.clients), Ledgers(EnforcedClients(p.clients, now)), WaitMoments(p, now), {})
  {
    forall id | id in p.clients ensures View(EnforcedClient(p.clients[id], now)) == Live(View(p.clients[id]), Waits(now)) {
    }
    AllFollow(p.clients, EnforcedClients(p.clients, now), WaitMoments(p, now));
  }

  lemma BeatIsMoment(p: Records, hb: AgentHeartbeat, now: Time, id: string, l: Ledger)
    requires id in p.clients
    ensures Beat(l, SourceAllowed(p.nodes, p.relays, p.clients[id], hb.serverID), hb, id, now) == Live(l, BeatMoments(p, hb, now)[id])
  {
  }

  lemma BeatsFollow(before: map<string, Ledger>, after: map<string, Ledger>, p: Records, hb: AgentHeartbeat, now: Time)
    requires before.Keys == after.Keys == p.clients.Keys
    requires forall id | id in after ::
      after[id] == Beat(before[id], SourceAllowed(p.nodes, p.relays, p.clients[id], hb.serverID), hb, id, now)
    ensures Follow(before, after, BeatMoments(p, hb, now), {})
  {
    forall id | id in after ensures after[id] == Live(before[id], BeatMoments(p, hb, now)[id]) {
      BeatIsMoment(p, hb, now, id, before[id]);
    }
  }

  predicate OnNodes(q: Request) { q.PostNode? || q.PutNode? }

  predicate OnRelays(q: Request) { q.PostRelay? || q.PutRelay? }

  predicate Quiet(q: Request) {
    OnNodes(q) || OnRelays(q) || q.PostExit? || q.PutExit? || q.DropExit? || q.FinishExitTest? ||
    q.PostServer? || q.PutServer? || q.DropServer? || q.ListServersOrNodes? || q.PutPolicy?
  }

  /** A new record: blank, and without cursors. */
  predicate Fresh(c: Client) {
    c.cursors == null && c.acct.usedBytes == 0 && c.acct.usedGB == 0 && IsZero(c.acct.resetAt) && LimitAccepted(c.acct)
  }

  /** At most one new record. */
  ghost predicate Gains(clients: map<string, Client>, after: map<string, Client>) {
    after == clients || exists id | id in after :: id !in clients && Fresh(after[id]) && after == clients[id := after[id]]
  }

  function Renewal(p: Records, k: string, body: Client, now: Time): Client
    requires k in p.clients
  {
    var edited := ClientOps.Completed(body, p.clients[k], now);
    ClientOps.Cleaned(edited).(acct := Renewed(edited.acct, p.clients[k].acct, now), cursors := p.clients[k].cursors)
  }

  function EditedClients(p: Records, k: string, body: Client, now: Time, saved: bool): map<string, Client> {
    if Edits(p, k, body, now, saved) then p.clients[k := Renewal(p, k, body, now)] else p.clients
  }

  /** The client records after a request that is not a heartbeat. */
  ghost predicate ClientsFollow(p: Records, after: map<string, Client>, a: Arrival) {
    match a.request
    case Sync(serverID, _, _) => after == if serverID in p.servers then EnforcedClients(p.clients, a.now) else p.clients
    case DropNode(k) => after == if k in p.nodes then NodeOps.UnboundNodes(p.clients, k) else p.clients
    case DropRelay(k) => after == if k in p.relays then RelayOps.UnboundRelays(p.clients, k) else p.clients
    case PutClient(k, body) => after == EditedClients(p, k, body, a.now, a.saved)
    case ResetToken(k, token) => after == if k in p.clients then p.clients[k := ClientOps.WithToken(p.clients[k], token, a.now)] else p.clients
    case DropClient(k) => after == p.clients - {k}
    case PostClient(_, _) => Gains(p.clients, after)
    case PostExitClient(_, _, _) => Gains(p.clients, after)
    case _ => after == p.clients
  }

  lemma GainsFollow(clients: map<string, Client>, after: map<string, Client>)
    requires Gains(clients, after)
    ensures Follow(Ledgers(clients), Ledgers(after), map[], {})
  {
    NothingFollows(Ledgers(clients));
    if id :| id in after && id !in clients && Fresh(after[id]) && after == clients[id := after[id]] {
      OneMore(clients, id, after[id]);
    }
  }

  lemma LedgersFollow(p: Records, after: map<string, Client>, a: Arrival)
    requires !a.request.Heartbeat? && ClientsFollow(p, after, a)
    ensures Follow(Ledgers(p.clients), Ledgers(after), MomentsOf(p, a), Gone(a))
  {
    NothingFollows(Ledgers(p.clients));
    if a.request.PostClient? || a.request.PostExitClient? {
      GainsFollow(p.clients, after);
    } else if a.request.DropClient? {
      OneLess(p.clients, a.request.id);
    } else if a.request.PutClient? {
      EditFollows(p, after, a.request.id, a.request.client, a.now, a.saved);
    } else if a.request.ResetToken? {
      ResetFollows(p, after, a.request.id, a.request.token, a.now);
    } else if a.request.Sync? {
      SyncFollows(p, after, a.request.serverID, a.now);
    } else if a.request.DropNode? {
      NodeDeletionFollows(p, after, a.request.id);
    } else if a.request.DropRelay? {
      RelayDeletionFollows(p, after, a.request.id);
    }
  }

  lemma SyncFollows(p: Records, after: map<string, Client>, serverID: string, now: Time)
    requires after == if serverID in p.servers then EnforcedClients(p.clients, now) else p.clients
    ensures Follow(Ledgers(p.clients), Ledgers(after), if serverID in p.servers then WaitMoments(p, now) else map[], {})
  {
    if serverID in p.servers {
      EnforcedFollow(p, now);
    } else {
      NothingFollows(Ledgers(p.clients));
    }
  }

  lemma NodeDeletionFollows(p: Records, after: map<string, Client>, k: string)
    requires after == if k in p.nodes then NodeOps.UnboundNodes(p.clients, k) else p.clients
    ensures Follow(Ledgers(p.clients), Ledgers(after), if k in p.nodes then NodeMoments(p, k) else map[], {})
  {
    if k in p.nodes {
      UnboundNodesFollow(p, k);
    } else {
      NothingFollows(Ledgers(p.clients));
    }
  }

  lemma RelayDeletionFollows(p: Records, after: map<string, Client>, k: string)
    requires after == if k in p.relays then RelayOps.UnboundRelays(p.clients, k) else p.clients
    ensures Follow(Ledgers(p.clients), Ledgers(after), if k in p.relays then RelayMoments(p, k) else map[], {})
  {
    if k in p.relays {
      UnboundRelaysFollow(p, k);
    } else {
      NothingFollows(Ledgers(p.clients));
    }
  }

  lemma EditFollows(p: Records, after: map<string, Client>, k: string, body: Client, now: Time, saved: bool)
    requires after == EditedClients(p, k, body, now, saved)
    ensures Follow(Ledgers(p.clients), Ledgers(after), EditMoments(p, k, body, now, saved), {})
  {
    if Edits(p, k, body, now, saved) {
      OneFollows(p.clients, k, Renewal(p, k, body, now), Alters(ClientOps.Completed(body, p.clients[k], now).acct, now));
    } else {
      NothingFollows(Ledgers(p.clients));
    }
  }

  lemma ResetFollows(p: Records, after: map<string, Client>, k: string, token: string, now: Time)
    requires after == if k in p.clients then p.clients[k := ClientOps.WithToken(p.clients[k], token, now)] else p.clients
    ensures Follow(Ledgers(p.clients), Ledgers(after), ResetMoments(p, k, now), {})
  {
    if k in p.clients {
      OneFollows(p.clients, k, ClientOps.WithToken(p.clients[k], token, now), Flags(p.clients[k].acct.enabled, now));
    } else {
      NothingFollows(Ledgers(p.clients));
    }
  }

  // ---- requests -------------------------------------------------------------------

  /** Bindings stay existing ones when only accounts and cursors of clients change. */
  lemma SameBindings(before: map<string, Client>, after: map<string, Client>, nodeIDs: set<string>, relayIDs: set<string>)
    requires ClientsBound(before, nodeIDs, relayIDs) && after.Keys == before.Keys
    requires forall id | id in after :: SameIdentity(before[id], after[id])
    ensures ClientsBound(after, nodeIDs, relayIDs)
    ensures forall id | id in after :: after[id].id == before[id].id
  {
  }

  method ServeBeat(store: Store, a: Arrival)
    requires a.request.Heartbeat?
    modifies store`clients, store`servers
    ensures store.clients.Keys == old(store.clients).Keys
    ensures forall id | id in store.clients :: SameIdentity(old(store.clients)[id], store.clients[id])
    ensures !a.saved ==> store.clients == old(store.clients)
    ensures Follow(old(Ledgers(store.clients)), Ledgers(store.clients),
      if a.saved then BeatMoments(old(RecordsOf(store)), a.request.beat, a.now) else map[], {})
    ensures !a.saved ==> store.servers == Heartbeats.RolledBackServers(old(store.servers), a.request.beat, a.now)
    ensures a.saved ==> var s := Heartbeats.Lookup(old(store.servers), a.request.beat.serverID);
      store.servers == old(store.servers)[s.id := Heartbeats.Reported(s, a.request.beat, a.now)]
  {
    ghost var p, ledgers := RecordsOf(store), Ledgers(store.clients);
    var status := Heartbeats.AgentHeartbeat(store, a.request.beat, a.now, a.saved);
    if a.saved {
      BeatsFollow(ledgers, Ledgers(store.clients), p, a.request.beat, a.now);
    } else {
      NothingFollows(ledgers);
    }
  }

  method ServeHeartbeat(store: Store, a: Arrival)
    requires Sound(store) && a.request.Heartbeat? && a.request.beat.serverID != ""
    modifies store`clients, store`servers
    ensures Sound(store)
    ensures ServersKeyed(old(store.servers)) ==> (ServersKeyed(store.servers) <==> a.request.beat.serverID in old(store.servers))
    ensures !a.saved ==> store.clients == old(store.clients)
    ensures Follow(old(Ledgers(store.clients)), Ledgers(store.clients), if a.saved then BeatMoments(old(RecordsOf(store)), a.request.beat, a.now) else map[], {})
  {
    ghost var servers, clients := store.servers, store.clients;
    ServeBeat(store, a);
    SameBindings(clients, store.clients, store.nodes.Keys, store.relays.Keys);
    RacingLosesKeys(servers, store.servers, a.request.beat, a.now, a.saved);
  }

  /** A heartbeat keeps the servers keyed exactly when its server is still there: otherwise a record without ID is stored. */
  lemma RacingLosesKeys(before: map<string, Server>, after: map<string, Server>, beat: AgentHeartbeat, now: Time, saved: bool)
    requires beat.serverID != ""
    requires !saved ==> after == Heartbeats.RolledBackServers(before, beat, now)
    requires saved ==> var s := Heartbeats.Lookup(before, beat.serverID); after == before[s.id := Heartbeats.Reported(s, beat, now)]
    ensures ServersKeyed(before) ==> (ServersKeyed(after) <==> beat.serverID in before)
    ensures before.Keys <= after.Keys
  {
    if beat.serverID !in before {
      assert "" in after;
    }
  }

  method ServeNodes(store: Store, a: Arrival)
    requires Sound(store) && Expected(store, a) && OnNodes(a.request)
    modifies store`servers, store`nodes
    ensures Sound(store)
    ensures ServersKeyed(old(store.servers)) ==> ServersKeyed(store.servers)
  {
    match a.request
    case PostNode(body, newID) =>
      var r, placed, m := NodeOps.CreateNode(store, a.e, body, newID, a.g);
    case PutNode(id, body) =>
      var r, placed, m := NodeOps.UpdateNode(store, a.e, id, body, a.g);
  }

  method ServeRelays(store: Store, a: Arrival)
    requires Sound(store) && Expected(store, a) && OnRelays(a.request)
    modifies store`servers, store`nodes, store`relays
    ensures Sound(store)
    ensures ServersKeyed(old(store.servers)) ==> ServersKeyed(store.servers)
  {
    match a.request
    case PostRelay(body, newID) =>
      var r, placed, m := RelayOps.CreateRelay(store, a.e, body, newID, a.g);
    case PutRelay(id, body) =>
      var r, placed, m := RelayOps.UpdateRelay(store, a.e, id, body, a.g);
  }

  method ServeExitsAndServers(store: Store, a: Arrival)
    requires Sound(store) && Expected(store, a)
    requires a.request.PostExit? || a.request.PutExit? || a.request.DropExit? || a.request.FinishExitTest? ||
             a.request.PostServer? || a.request.PutServer? || a.request.DropServer? || a.request.ListServersOrNodes? || a.request.PutPolicy?
    modifies store`servers, store`nodes, store`exits, store`policy
    ensures Sound(store)
    ensures ServersKeyed(old(store.servers)) ==> ServersKeyed(store.servers)
  {
    match a.request
    case PostExit(body, newID) =>
      var r := ExitOps.CreateExit(store, body, newID);
    case PutExit(id, body) =>
      var r := ExitOps.UpdateExit(store, id, body);
    case DropExit(id) =>
      var ok := ExitOps.DeleteExit(store, id);
    case FinishExitTest(id, exit) =>
      ExitOps.FinishExitTest(store, id, exit);
    case PostServer(body, newID) =>
      var s := ServerOps.CreateServer(store, body, newID, a.credentials.token, a.now);
    case PutServer(id, body) =>
      var found := ServerOps.UpdateServer(store, id, body, a.now);
    case DropServer(id) =>
      var ok := ServerOps.DeleteServer(store, id);
    case ListServersOrNodes =>
      var changed, m := EnsureSingleModeLocalServer(store, a.e);
    case PutPolicy(policy) =>
      store.policy := policy;
  }

  /** Pages that never touch a client. */
  method ServeQuietly(store: Store, a: Arrival)
    requires Sound(store) && Expected(store, a) && Quiet(a.request)
    modifies store`servers, store`nodes, store`relays, store`exits, store`policy
    ensures Sound(store)
    ensures ServersKeyed(old(store.servers)) ==> ServersKeyed(store.servers)
  {
    if OnNodes(a.request) {
      ServeNodes(store, a);
    } else if OnRelays(a.request) {
      ServeRelays(store, a);
    } else {
      ServeExitsAndServers(store, a);
    }
  }

  method ServeSync(store: Store, a: Arrival)
    requires Sound(store) && a.request.Sync?
    modifies store`clients, store`servers
    ensures Sound(store)
    ensures ServersKeyed(old(store.servers)) ==> ServersKeyed(store.servers)
    ensures store.clients == if a.request.serverID in old(store.servers) then EnforcedClients(old(store.clients), a.now) else old(store.clients)
  {
    ghost var clients := store.clients;
    var response := Syncs.AgentSync(store, a.request.serverID, a.request.reported, a.request.agentVersion, a.now);
    SameBindings(clients, store.clients, store.nodes.Keys, store.relays.Keys);
  }

  lemma StartedIsFresh(p: Records, body: Client, newID: string, issued: ClientOps.Credentials, now: Time)
    requires ClientOps.Acceptable(p.nodes, p.relays, ClientOps.Started(body, newID, issued, now))
    ensures var c := ClientOps.Cleaned(ClientOps.Started(body, newID, issued, now)); Fresh(c) && c.id == newID
  {
  }

  lemma ExitClientIsFresh(q: ClientOps.ExitRequest, newID: string, relayID: string, issued: ClientOps.Credentials, now: Time)
    requires 0 <= q.limitGB <= ClientOps.MAX_LIMIT_GB
    ensures var c := ClientOps.ExitClient(q, newID, relayID, issued, now); Fresh(c) && c.id == newID
  {
  }

  method ServeNewClient(store: Store, body: Client, newID: string, issued: ClientOps.Credentials, now: Time)
    requires Sound(store) && newID !in store.clients
    modifies store`clients
    ensures Sound(store) && Gains(old(store.clients), store.clients)
  {
    ghost var p := RecordsOf(store);
    var r := ClientOps.CreateClient(store, body, newID, issued, now);
    if r.Ok? {
      StartedIsFresh(p, body, newID, issued, now);
      assert store.clients == p.clients[newID := store.clients[newID]];
    }
  }

  method ServeExitClient(store: Store, a: Arrival)
    requires Sound(store) && Expected(store, a) && a.request.PostExitClient?
    modifies store`servers, store`nodes, store`relays, store`clients
    ensures Sound(store)
    ensures ServersKeyed(old(store.servers)) ==> ServersKeyed(store.servers)
    ensures Gains(old(store.clients), store.clients)
  {
    ghost var clients := store.clients;
    var r, placed, m := ClientOps.CreateClientWithSocks5Relay(
      store, a.e, a.request.q, a.request.newID, a.request.relayID, a.credentials, a.g, a.now);
    if r.Ok? {
      ExitClientIsFresh(a.request.q, a.request.newID, a.request.relayID, a.credentials, a.now);
      assert store.clients == clients[a.request.newID := store.clients[a.request.newID]];
    }
  }

  method ServeEdit(store: Store, id: string, body: Client, now: Time, saved: bool)
    requires Sound(store)
    modifies store`clients
    ensures Sound(store)
    ensures store.clients == EditedClients(old(RecordsOf(store)), id, body, now, saved)
  {
    ghost var p := RecordsOf(store);
    var status := ClientOps.UpdateClient(store, id, body, now, saved);
    assert status == 200 <==> Edits(p, id, body, now, saved);
  }

  /** Requests that change the records of clients. */
  method ServeClients(store: Store, a: Arrival)
    requires Sound(store) && (a.request.PutClient? || a.request.ResetToken? || a.request.DropClient? || a.request.DropNode? || a.request.DropRelay?)
    modifies store`nodes, store`relays, store`clients
    ensures Sound(store)
    ensures ClientsFollow(old(RecordsOf(store)), store.clients, a)
  {
    match a.request
    case PutClient(id, body) =>
      ServeEdit(store, id, body, a.now, a.saved);
    case ResetToken(id, token) =>
      var found := ClientOps.ResetToken(store, id, token, a.now);
    case DropClient(id) =>
      var found := ClientOps.DeleteClient(store, id);
    case DropNode(id) =>
      var found := NodeOps.DeleteNode(store, id);
    case DropRelay(id) =>
      var found := RelayOps.DeleteRelay(store, id);
  }

  /** Syncs, and requests that change clients. */
  method ServePages(store: Store, a: Arrival)
    requires Sound(store) && Expected(store, a) && !a.request.Heartbeat? && !Quiet(a.request)
    modifies store
    ensures Sound(store)
    ensures ServersKeyed(old(store.servers)) ==> ServersKeyed(store.servers)
    ensures ClientsFollow(old(RecordsOf(store)), store.clients, a)
  {
    if a.request.Sync? {
      ServeSync(store, a);
    } else if a.request.PostClient? {
      ServeNewClient(store, a.request.client, a.request.newID, a.credentials, a.now);
    } else if a.request.PostExitClient? {
      ServeExitClient(store, a);
    } else {
      ServeClients(store, a);
    }
  }

  lemma QuietKeeps(p: Records, a: Arrival)
    requires Quiet(a.request)
    ensures ClientsFollow(p, p.clients, a)
  {
  }

  /** Every request that is not a heartbeat. */
  method ServeRecords(store: Store, a: Arrival)
    requires Sound(store) && Expected(store, a) && !a.request.Heartbeat?
    modifies store
    ensures Sound(store)
    ensures ServersKeyed(old(store.servers)) ==> ServersKeyed(store.servers)
    ensures ClientsFollow(old(RecordsOf(store)), store.clients, a)
  {
    if Quiet(a.request) {
      QuietKeeps(RecordsOf(store), a);
      ServeQuietly(store, a);
    } else {
      ServePages(store, a);
    }
  }

  /** Cursor maps are never written, so ledgers stay while the records do. */
  twostate lemma LedgersStay(clients: map<string, Client>)
    requires forall id | id in clients && clients[id].cursors != null :: clients[id].cursors.entries == old(clients[id].cursors.entries)
    ensures Ledgers(clients) == old(Ledgers(clients))
  {
    forall id | id in clients ensures View(clients[id]) == old(View(clients[id])) {
    }
  }

  method ServeOthers(store: Store, a: Arrival)
    requires Sound(store) && Expected(store, a) && !a.request.Heartbeat?
    modifies store
    ensures Sound(store)
    ensures ServersKeyed(old(store.servers)) ==> ServersKeyed(store.servers)
    ensures Follow(old(Ledgers(store.clients)), Ledgers(store.clients), MomentsOf(old(RecordsOf(store)), a), Gone(a))
  {
    ghost var p, ledgers := RecordsOf(store), Ledgers(store.clients);
    ServeRecords(store, a);
    LedgersStay(p.clients);
    assert Ledgers(p.clients) == ledgers;
    LedgersFollow(p, store.clients, a);
  }

  /**
   Any request keeps the store sound. It keeps server records under their own IDs exactly when it
   is not a racing heartbeat, it changes every ledger by what it means for that client, and new
   clients start with a blank one.
   */
  method Serve(store: Store, a: Arrival)
    requires Sound(store) && Expected(store, a)
    modifies store
    ensures Sound(store)
    ensures ServersKeyed(old(store.servers)) ==> (ServersKeyed(store.servers) <==> !Races(old(store.servers), a.request))
    ensures Follow(old(Ledgers(store.clients)), Ledgers(store.clients), MomentsOf(old(RecordsOf(store)), a), Gone(a))
  {
    if a.request.Heartbeat? {
      ServeHeartbeat(store, a);
    } else {
      ServeOthers(store, a);
    }
  }

  // ---- runs -------------------------------------------------------------------------

  /** The ledger a client began with, and what befell it since. */
  datatype Past = Past(start: Ledger, moments: seq<Moment>)

  /** Every ledger is what its history makes of it; a history begins with the run or with the client. */
  ghost predicate Explains(pasts: map<string, Past>, ledgers: map<string, Ledger>, began: map<string, Ledger>) {
    pasts.Keys == ledgers.Keys && forall id | id in pasts ::
      && ledgers[id] == Life(pasts[id].start, pasts[id].moments)
      && (Blank(pasts[id].start) || (id in began && pasts[id].start == began[id]))
  }

  /** A reading is one a heartbeat reported for the client, and an edit one that was accepted. */
  ghost predicate Genuine(m: Moment, arrivals: seq<Arrival>, id: string) {
    && (m.Reads? ==> exists a | a in arrivals ::
          a.request.Heartbeat? && id in a.request.beat.traffic && m.r == ReadingOf(a.request.beat, id, a.now))
    && (m.Alters? ==> LimitAccepted(m.body))
  }

  ghost predicate AllGenuine(pasts: map<string, Past>, arrivals: seq<Arrival>) {
    forall id, m | id in pasts && m in pasts[id].moments :: Genuine(m, arrivals, id)
  }

  function Grown(pasts: map<string, Past>, after: map<string, Ledger>, moments: map<string, Moment>, gone: set<string>): map<string, Past> {
    map id | id in after ::
      if id !in pasts || id in gone then Past(after[id], [])
      else if id in moments then pasts[id].(moments := pasts[id].moments + [moments[id]])
      else pasts[id]
  }

  lemma LifeGoesOn(l: Ledger, ms: seq<Moment>, m: Moment)
    ensures Life(l, ms + [m]) == Live(Life(l, ms), m)
  {
    assert (ms + [m])[..|ms|] == ms;
  }

  lemma GrownExplains(pasts: map<string, Past>, before: map<string, Ledger>, after: map<string, Ledger>, began: map<string, Ledger>,
                      moments: map<string, Moment>, gone: set<string>)
    requires Explains(pasts, before, began) && Follow(before, after, moments, gone)
    ensures Explains(Grown(pasts, after, moments, gone), after, began)
  {
    forall id | id in after && id in pasts && id !in gone && id in moments
      ensures after[id] == Life(pasts[id].start, pasts[id].moments + [moments[id]])
    {
      LifeGoesOn(pasts[id].start, pasts[id].moments, moments[id]);
    }
  }

  lemma MomentIsGenuine(p: Records, a: Arrival, arrivals: seq<Arrival>, id: string)
    requires a in arrivals && id in MomentsOf(p, a)
    ensures Genuine(MomentsOf(p, a)[id], arrivals, id)
  {
  }

  lemma GrownIsGenuine(pasts: map<string, Past>, after: map<string, Ledger>, p: Records, a: Arrival, arrivals: seq<Arrival>)
    requires AllGenuine(pasts, arrivals) && a in arrivals
    ensures AllGenuine(Grown(pasts, after, MomentsOf(p, a), Gone(a)), arrivals)
  {
    var grown := Grown(pasts, after, MomentsOf(p, a), Gone(a));
    forall id, m | id in grown && m in grown[id].moments ensures Genuine(m, arrivals, id) {
      if id in MomentsOf(p, a) && m == MomentsOf(p, a)[id] {
        MomentIsGenuine(p, a, arrivals, id);
      }
    }
  }

  lemma GrownKeepsStarts(pasts: map<string, Past>, after: map<string, Ledger>, moments: map<string, Moment>, gone: set<string>, id: string)
    requires id in pasts && id in after && id !in gone
    ensures id in Grown(pasts, after, moments, gone) && Grown(pasts, after, moments, gone)[id].start == pasts[id].start
  {
  }

  /** No request of the run deletes this client. */
  predicate Stays(arrivals: seq<Arrival>, id: string) { forall a | a in arrivals :: id !in Gone(a) }

  /**
   Whatever requests arrive at a sound data file, in whatever order, they leave it sound; server
   records stay under their own IDs unless a heartbeat raced with the deletion of its server; and
   every ledger is what the history of its client makes of it.
   */
  method RunFrom(store: Store, arrivals: seq<Arrival>) returns (ghost pasts: map<string, Past>, ghost raced: bool)
    requires Sound(store)
    modifies store
    ensures Sound(store)
    ensures ServersKeyed(old(store.servers)) && !raced ==> ServersKeyed(store.servers)
    ensures raced ==> exists a | a in arrivals :: a.request.Heartbeat?
    ensures Explains(pasts, Ledgers(store.clients), old(Ledgers(store.clients))) && AllGenuine(pasts, arrivals)
    ensures forall id | id in old(Ledgers(store.clients)) && Stays(arrivals, id) :: id in pasts && pasts[id].start == old(Ledgers(store.clients))[id]
  {
    raced := false;
    ghost var began := Ledgers(store.clients);
    pasts := map id | id in began :: Past(began[id], []);
    for i := 0 to |arrivals|
      invariant Sound(store)
      invariant ServersKeyed(old(store.servers)) && !raced ==> ServersKeyed(store.servers)
      invariant raced ==> exists a | a in arrivals :: a.request.Heartbeat?
      invariant Explains(pasts, Ledgers(store.clients), began) && AllGenuine(pasts, arrivals)
      invariant forall id | id in began && Stays(arrivals, id) :: id in pasts && pasts[id].start == began[id]
    {
      var a := arrivals[i];
      if Expected(store, a) {
        raced := raced || Races(store.servers, a.request);
        ghost var p, before := RecordsOf(store), Ledgers(store.clients);
        Serve(store, a);
        GrownExplains(pasts, before, Ledgers(store.clients), began, MomentsOf(p, a), Gone(a));
        GrownIsGenuine(pasts, Ledgers(store.clients), p, a, arrivals);
        forall id | id in began && Stays(arrivals, id)
          ensures id in store.clients && Grown(pasts, Ledgers(store.clients), MomentsOf(p, a), Gone(a))[id].start == began[id]
        {
          GrownKeepsStarts(pasts, Ledgers(store.clients), MomentsOf(p, a), Gone(a), id);
        }
        pasts := Grown(pasts, Ledgers(store.clients), MomentsOf(p, a), Gone(a));
      }
    }
  }

  // ---- billing over runs --------------------------------------------------------------

  /** The cycle a history begins in: a known one, or the first of a new client. */
  ghost function FirstCycle(past: Past, cycles: map<string, Cycle>, id: string): (c: Cycle)
    ensures c.before <= |c.kept|
  {
    if id in cycles && Tracks(past.start, cycles[id]) then cycles[id] else NewCycle(past.start.acct)
  }

  ghost function CycleOf(past: Past, cycles: map<string, Cycle>, id: string): Cycle {
    CycleAfter(FirstCycle(past, cycles, id), past.moments)
  }

  /**
   The balance is the exact sum of the cycle, saturated once, the limit is reached exactly when that
   sum reaches it, and limit, expiry, instant of renewal and state are those of the history.
   */
  ghost predicate IsExact(l: Ledger, c: Cycle) {
    && Tracks(l, c)
    && (Limited(Migrated(l.acct)) <==> c.limitGB > 0 && c.base + InCycle(c) >= c.limitGB * 1_073_741_824)
  }

  lemma {:induction false} LimitStays(l: Ledger, ms: seq<Moment>)
    requires LimitAccepted(l.acct) && forall m | m in ms && m.Alters? :: LimitAccepted(m.body)
    ensures LimitAccepted(Life(l, ms).acct)
  {
    if ms != [] {
      LimitStays(l, ms[..|ms| - 1]);
      assert ms[|ms| - 1] in ms;
    }
  }

  lemma PastIsExact(past: Past, cycles: map<string, Cycle>, arrivals: seq<Arrival>, id: string)
    requires Blank(past.start) || (id in cycles && Tracks(past.start, cycles[id]) && LimitAccepted(past.start.acct))
    requires forall m | m in past.moments :: Genuine(m, arrivals, id)
    ensures IsExact(Life(past.start, past.moments), CycleOf(past, cycles, id))
  {
    if Blank(past.start) {
      NewClientTracks(past.start.acct);
    }
    BalanceIsExact(past.start, FirstCycle(past, cycles, id), past.moments);
    LimitStays(past.start, past.moments);
    LimitIsExact(past.start, FirstCycle(past, cycles, id), past.moments);
  }

  ghost predicate AllTracked(ledgers: map<string, Ledger>, cycles: map<string, Cycle>) {
    forall id | id in ledgers :: id in cycles && Tracks(ledgers[id], cycles[id]) && LimitAccepted(ledgers[id].acct)
  }

  ghost predicate AllExact(pasts: map<string, Past>, ledgers: map<string, Ledger>, cycles: map<string, Cycle>) {
    forall id | id in ledgers :: id in pasts && IsExact(ledgers[id], CycleOf(pasts[id], cycles, id))
  }

  lemma PastsAreExact(pasts: map<string, Past>, ledgers: map<string, Ledger>, began: map<string, Ledger>, cycles: map<string, Cycle>, arrivals: seq<Arrival>)
    requires Explains(pasts, ledgers, began) && AllGenuine(pasts, arrivals) && AllTracked(began, cycles)
    ensures AllExact(pasts, ledgers, cycles)
  {
    forall id | id in ledgers ensures IsExact(ledgers[id], CycleOf(pasts[id], cycles, id)) {
      PastIsExact(pasts[id], cycles, arrivals, id);
    }
  }

  /**
   After any run, the balance of every client is the exact sum of its cycle - over the readings that
   heartbeats reported for it and that count - saturated once, and enforcement sees the exact sum.
   */
  method ExactInRuns(store: Store, arrivals: seq<Arrival>, ghost cycles: map<string, Cycle>) returns (ghost pasts: map<string, Past>)
    requires Sound(store) && AllTracked(Ledgers(store.clients), cycles)
    modifies store
    ensures Sound(store)
    ensures Explains(pasts, Ledgers(store.clients), old(Ledgers(store.clients))) && AllGenuine(pasts, arrivals)
    ensures AllExact(pasts, Ledgers(store.clients), cycles)
  {
    ghost var raced, began := false, Ledgers(store.clients);
    pasts, raced := RunFrom(store, arrivals);
    PastsAreExact(pasts, Ledgers(store.clients), began, cycles, arrivals);
  }

  /** What the heartbeats of a run report for a client are observations of this world. */
  ghost predicate Witnessed(w: C.World, arrivals: seq<Arrival>, id: string) {
    forall a | a in arrivals && a.request.Heartbeat? && id in a.request.beat.traffic :: Seen(w, ReadingOf(a.request.beat, id, a.now))
  }

  lemma PastIsSeen(w: C.World, past: Past, arrivals: seq<Arrival>, id: string)
    requires Witnessed(w, arrivals, id) && forall m | m in past.moments :: Genuine(m, arrivals, id)
    ensures AllSeen(w, past.moments)
  {
    forall m | m in past.moments && m.Reads? ensures Seen(w, m.r) {
      assert Genuine(m, arrivals, id);
    }
  }

  /** The billing bound for the store itself: over any run, what one client is billed in all its cycles. */
  method NeverOverbilledInRuns(store: Store, arrivals: seq<Arrival>, ghost id: string, ghost w: C.World) returns (ghost pasts: map<string, Past>)
    requires Sound(store) && id in store.clients && C.Real(w) && Witnessed(w, arrivals, id) && Stays(arrivals, id)
    requires View(store.clients[id]).cursors == map[] && store.clients[id].acct.usedBytes >= 0
    modifies store
    ensures Sound(store) && id in store.clients && id in pasts
    ensures Explains(pasts, Ledgers(store.clients), old(Ledgers(store.clients))) && AllGenuine(pasts, arrivals)
    ensures BilledInAll(pasts[id].start, pasts[id].moments) <= old(Effective(store.clients[id].acct)) + C.Total(w)
  {
    ghost var raced, began := false, Ledgers(store.clients);
    pasts, raced := RunFrom(store, arrivals);
    assert pasts[id].start == began[id];
    PastIsSeen(w, pasts[id], arrivals, id);
    LifeNeverOverbilled(w, pasts[id].start, pasts[id].moments);
  }

  /** No client of a new data file is ever billed more, in all its cycles, than passed. */
  ghost predicate NoneOverbilled(pasts: map<string, Past>, arrivals: seq<Arrival>) {
    forall id, w | id in pasts && C.Real(w) && Witnessed(w, arrivals, id) :: BilledInAll(pasts[id].start, pasts[id].moments) <= C.Total(w)
  }

  lemma BlankNeverOverbilled(pasts: map<string, Past>, ledgers: map<string, Ledger>, arrivals: seq<Arrival>)
    requires Explains(pasts, ledgers, map[]) && AllGenuine(pasts, arrivals)
    ensures NoneOverbilled(pasts, arrivals)
  {
    forall id, w | id in pasts && C.Real(w) && Witnessed(w, arrivals, id)
      ensures BilledInAll(pasts[id].start, pasts[id].moments) <= C.Total(w)
    {
      PastIsSeen(w, pasts[id], arrivals, id);
      LifeNeverOverbilled(w, pasts[id].start, pasts[id].moments);
    }
  }

  /**
   A run on a new data file: it stays sound, every balance is exact, nobody is overbilled, and server
   records stay under their own IDs unless a heartbeat races.
   */
  method NewRun(policy: NetworkPolicy, arrivals: seq<Arrival>) returns (store: Store, ghost pasts: map<string, Past>, ghost raced: bool)
    ensures fresh(store) && Sound(store) && (!raced ==> ServersKeyed(store.servers))
    ensures raced ==> exists a | a in arrivals :: a.request.Heartbeat?
    ensures Explains(pasts, Ledgers(store.clients), map[]) && AllGenuine(pasts, arrivals)
    ensures AllExact(pasts, Ledgers(store.clients), map[]) && NoneOverbilled(pasts, arrivals)
  {
    store := new Store(policy);
    assert Ledgers(store.clients) == map[];
    pasts, raced := RunFrom(store, arrivals);
    PastsAreExact(pasts, Ledgers(store.clients), map[], map[], arrivals);
    BlankNeverOverbilled(pasts, Ledgers(store.clients), arrivals);
  }
}
