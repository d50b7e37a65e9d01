// The heartbeat endpoint: snapshot, account, save, roll back
// (backend/internal/api/agent.go, agentHeartbeat).

module Heartbeats {
  import opened Text
  import opened Model
  import opened Billing

  function Lookup(servers: map<string, Server>, id: string): Server {
    if id in servers then servers[id] else ZERO_SERVER
  }

  /** The server record a heartbeat writes; old agents omit the capacity fields. */
  function Reported(s: Server, hb: AgentHeartbeat, now: Time): Server {
    s.(status := "online", agentVersion := hb.agentVersion, xrayVersion := hb.xrayVersion,
       configHash := hb.configHash, lastSyncMessage := hb.lastMessage,
       cpuCores := if hb.cpuCores > 0 then hb.cpuCores else s.cpuCores,
       memTotalBytes := if hb.memTotalBytes > 0 then hb.memTotalBytes else s.memTotalBytes,
       uploadTotal := hb.uploadTotal, downloadTotal := hb.downloadTotal, updatedAt := now)
  }

  /** Entry-by-entry copy of the client map: struct copies that share their cursor maps. */
  method SnapshotClients(store: Store) returns (copy: map<string, Client>)
    ensures copy == store.clients
  {
    copy := map[];
    var todo := store.clients.Keys;
    while todo != {}
      invariant todo <= store.clients.Keys && copy.Keys == store.clients.Keys - todo
      invariant forall id | id in copy :: copy[id] == store.clients[id]
      decreases todo
    {
      var id :| id in todo;
      copy := copy[id := store.clients[id]];
      todo := todo - {id};
    }
  }

  /** The servers once a heartbeat was written under the record's own ID and then rolled back. */
  function RolledBackServers(servers: map<string, Server>, hb: AgentHeartbeat, now: Time): map<string, Server> {
    var s := Lookup(servers, hb.serverID);
    servers[s.id := Reported(s, hb, now)][hb.serverID := s]
  }

  /** Write the reported state under the record's own ID. */
  method ReportServer(store: Store, previous: Server, hb: AgentHeartbeat, now: Time)
    modifies store`servers
    ensures store.servers == old(store.servers)[previous.id := Reported(previous, hb, now)]
  {
    var s := previous.(status := "online", agentVersion := hb.agentVersion, xrayVersion := hb.xrayVersion,
                       configHash := hb.configHash, lastSyncMessage := hb.lastMessage);
    if hb.cpuCores > 0 {
      s := s.(cpuCores := hb.cpuCores);
    }
    if hb.memTotalBytes > 0 {
      s := s.(memTotalBytes := hb.memTotalBytes);
    }
    s := s.(uploadTotal := hb.uploadTotal, downloadTotal := hb.downloadTotal, updatedAt := now);
    store.servers := store.servers[s.id := s];
  }

  /** Put the server back under the ID of the heartbeat, and the snapshot in the place of the clients. */
  method RollBack(store: Store, serverID: string, previous: Server, clients: map<string, Client>)
    modifies store`clients, store`servers
    ensures store.servers == old(store.servers)[serverID := previous] && store.clients == clients
  {
    store.servers := store.servers[serverID := previous];
    store.clients := clients;
  }

  /**
   A failed save leaves every client as it was, down to the entries of its cursor map,
   although the snapshot shares those maps: samples replace a cursor map, they never write
   into one, so no object that existed before is modified but the store itself.
   */
  method AgentHeartbeat(store: Store, hb: AgentHeartbeat, now: Time, saved: bool) returns (status: int)
    modifies store`clients, store`servers
    ensures status == if saved then 200 else 500
    ensures !saved ==> store.clients == old(store.clients)
    ensures !saved ==> forall id | id in store.clients :: View(store.clients[id]) == old(View(store.clients[id]))
    ensures !saved ==> store.servers == RolledBackServers(old(store.servers), hb, now)
    ensures saved ==> store.clients.Keys == old(store.clients).Keys
    ensures saved ==> forall id | id in store.clients ::
      SameIdentity(old(store.clients)[id], store.clients[id]) &&
      View(store.clients[id]) == Beat(old(View(store.clients[id])),
        SourceAllowed(store.nodes, store.relays, old(store.clients)[id], hb.serverID), hb, id, now)
    ensures saved ==> var s := Lookup(old(store.servers), hb.serverID);
      store.servers == old(store.servers)[s.id := Reported(s, hb, now)]
  {
    var s := Lookup(store.servers, hb.serverID);
    var previousClients := SnapshotClients(store);
    AccountTrafficLocked(store, hb, now);
    ReportServer(store, s, hb, now);
    if !saved {
      RollBack(store, hb.serverID, s, previousClients);
      return 500;
    }
    return 200;
  }

  /**
   The rollback restores the servers exactly when the heartbeat's server still exists and
   its record is stored under its own ID, or that other record already was what is written.
   */
  lemma ServerRollbackIsExact(servers: map<string, Server>, hb: AgentHeartbeat, now: Time)
    ensures RolledBackServers(servers, hb, now) == servers <==>
      && hb.serverID in servers
      && var s := servers[hb.serverID];
         s.id == hb.serverID || (s.id in servers && servers[s.id] == Reported(s, hb, now))
  {
  }

  /** The server of a heartbeat was deleted after its token was checked: a rollback then adds records. */
  lemma RollbackOfDeletedServerAddsRecords(hb: AgentHeartbeat, now: Time)
    requires hb.serverID != ""
    ensures RolledBackServers(map[], hb, now).Keys == {"", hb.serverID}
  {
  }

  /** Failing once and sending the same heartbeat again leaves the ledgers of one success. */
  method FailThenRetry(store: Store, hb: AgentHeartbeat, first: Time, second: Time)
    modifies store`clients, store`servers
    ensures store.clients.Keys == old(store.clients).Keys
    ensures forall id | id in store.clients :: View(store.clients[id]) == Beat(old(View(store.clients[id])),
      SourceAllowed(store.nodes, store.relays, old(store.clients)[id], hb.serverID), hb, id, second)
  {
    var failed := AgentHeartbeat(store, hb, first, false);
    var ok := AgentHeartbeat(store, hb, second, true);
  }

  /** A heartbeat delivered twice counts once: balance and cursors stay, only enforcement may act again. */
  lemma RepeatedBeatCountsOnce(l: Ledger, allowed: bool, hb: AgentHeartbeat, id: string, first: Time, second: Time)
    requires l.acct.usedBytes >= 0
    ensures var once := Beat(l, allowed, hb, id, first);
      Beat(once, allowed, hb, id, second) == Settled(once, second)
  {
  }
}
