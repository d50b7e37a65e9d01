// What every operation on the store must keep.

module Integrity {
  import opened Text
  import opened Model

  ghost predicate RecordsKeyed(nodes: map<string, Node>, clients: map<string, Client>, relays: map<string, RelayRoute>) {
    && (forall id | id in nodes :: nodes[id].id == id && id != "")
    && (forall id | id in clients :: clients[id].id == id)
    && (forall id | id in relays :: relays[id].id == id && id != "")
  }

  /** Server records are stored under their own, non-empty ID. */
  ghost predicate ServersKeyed(servers: map<string, Server>) {
    forall id | id in servers :: servers[id].id == id && id != ""
  }

  /** An exit that can be dialled. */
  predicate Complete(x: LandingExit) { x.host != "" && 1 <= x.port <= 65535 && x.username != "" && x.password != "" }

  /** Every node sits on an existing server. */
  ghost predicate NodesPlaced(servers: map<string, Server>, nodes: map<string, Node>) {
    forall id | id in nodes :: nodes[id].serverID in servers
  }

  predicate NoDuplicates(ids: seq<string>) {
    forall i, j | 0 <= i < j < |ids| :: ids[i] != ids[j]
  }

  /** Bindings are distinct existing nodes, and at most one existing relay. */
  predicate BoundTo(c: Client, nodeIDs: set<string>, relayIDs: set<string>) {
    && NoDuplicates(c.nodeIDs) && (forall id | id in c.nodeIDs :: id in nodeIDs)
    && |c.relayIDs| <= 1 && (forall id | id in c.relayIDs :: id in relayIDs)
  }

  ghost predicate ClientsBound(clients: map<string, Client>, nodeIDs: set<string>, relayIDs: set<string>) {
    forall id | id in clients :: BoundTo(clients[id], nodeIDs, relayIDs)
  }

  predicate RelaysClash(a: RelayRoute, b: RelayRoute) {
    a.enabled && b.enabled && a.relayServerID == b.relayServerID && a.relayPort == b.relayPort
  }

  /** Enabled relays of one server listen on different ports. */
  ghost predicate RelayPortsApart(relays: map<string, RelayRoute>) {
    forall i, j | i in relays && j in relays && i != j :: !RelaysClash(relays[i], relays[j])
  }

  predicate NodesClash(a: Node, b: Node) {
    a.enabled && b.enabled && a.serverID == b.serverID && a.port == b.port
  }

  ghost predicate NodePortsApart(nodes: map<string, Node>) {
    forall i, j | i in nodes && j in nodes && i != j :: !NodesClash(nodes[i], nodes[j])
  }

  /** The integrity of the data file. */
  ghost predicate Sound(s: Store)
    reads s
  {
    && RecordsKeyed(s.nodes, s.clients, s.relays)
    && NodesPlaced(s.servers, s.nodes)
    && ClientsBound(s.clients, s.nodes.Keys, s.relays.Keys)
    && RelayPortsApart(s.relays)
    && (forall id | id in s.exits :: Complete(s.exits[id]))
  }
}

/** The local server of single-machine mode (backend/internal/store/store.go). */
module LocalServers {
  import opened Choosing
  import opened Text
  import opened Model
  import opened Integrity

  /** Environment of the panel process and what its generators return next. */
  datatype Environment = Environment(
    localIP: string, localHost: string, localName: string, region: string, provider: string,
    version: string, newServerID: string, newToken: string, now: Time)

  predicate IsLoopback(v: string) {
    v == "127.0.0.1" || v == "localhost" || v == "::1" || v == "0.0.0.0"
  }

  predicate SameEndpoint(s: Server, e: Environment) {
    || (e.localIP != "" && (s.ip == e.localIP || s.host == e.localIP))
    || (e.localHost != "" && (s.ip == e.localHost || s.host == e.localHost))
    || (IsLoopback(s.ip) && !IsLoopback(e.localIP)) || (IsLoopback(s.host) && !IsLoopback(e.localHost))
  }

  predicate ShouldReplace(current: string, target: string) {
    target != "" && !IsLoopback(target) && IsLoopback(current)
  }

  predicate IsCandidate(s: Server, servers: map<string, Server>, e: Environment) {
    SameEndpoint(s, e) || |servers| == 1
  }

  /** The IDs of the servers taken for the local one. */
  ghost function Locals(servers: map<string, Server>, e: Environment): set<string> {
    set id | id in servers && IsCandidate(servers[id], servers, e)
  }

  /** Some enumeration of the candidates. */
  ghost predicate ListsCandidates(list: seq<Server>, servers: map<string, Server>, e: Environment) {
    && (forall s | s in list :: IsCandidate(s, servers, e) && exists id | id in servers :: servers[id] == s)
    && (forall id | id in servers && IsCandidate(servers[id], servers, e) :: servers[id] in list)
  }

  method CollectCandidates(servers: map<string, Server>, e: Environment) returns (list: seq<Server>)
    ensures ListsCandidates(list, servers, e)
    ensures ServersKeyed(servers) ==> NoRepeats(list)
  {
    list := [];
    var todo := servers.Keys;
    while todo != {}
      invariant todo <= servers.Keys
      invariant forall s | s in list :: IsCandidate(s, servers, e) && exists id | id in servers.Keys - todo :: servers[id] == s
      invariant forall id | id in servers.Keys - todo && IsCandidate(servers[id], servers, e) :: servers[id] in list
      invariant ServersKeyed(servers) ==> NoRepeats(list)
      decreases todo
    {
      var id :| id in todo;
      todo := todo - {id};
      if SameEndpoint(servers[id], e) || |servers| == 1 {
        list := list + [servers[id]];
      }
    }
  }

  /** Whether a later candidate takes the place of the one kept so far. */
  predicate Prefers(srv: Server, keep: Server, version: string) {
    || (srv.agentVersion == version && keep.agentVersion != version)
    || (srv.status == "online" && keep.status != "online")
    || srv.lastSyncAt > keep.lastSyncAt
    || (IsZero(keep.lastSyncAt) && srv.createdAt > keep.createdAt)
  }

  function Preference(version: string): (Server, Server) -> bool { (srv, keep) => Prefers(srv, keep, version) }

  method PickLocalServer(list: seq<Server>, version: string) returns (keep: Server)
    requires list != []
    ensures keep == Chosen(list, Preference(version))
  {
    keep := list[0];
    for i := 1 to |list|
      invariant keep == Chosen(list[..i], Preference(version))
    {
      var srv := list[i];
      ChosenStep(list, i, Preference(version));
      if srv.agentVersion == version && keep.agentVersion != version {
        keep := srv;
      } else if srv.status == "online" && keep.status != "online" {
        keep := srv;
      } else if srv.lastSyncAt > keep.lastSyncAt {
        keep := srv;
      } else if IsZero(keep.lastSyncAt) && srv.createdAt > keep.createdAt {
        keep := srv;
      }
    }
    assert list[..|list|] == list;
  }

  /** The candidate that every other one gives way to, and that gives way to none. */
  ghost predicate Preferred(servers: map<string, Server>, e: Environment, w: string) {
    w in Locals(servers, e) && forall x | x in Locals(servers, e) && x != w ::
      Prefers(servers[w], servers[x], e.version) && !Prefers(servers[x], servers[w], e.version)
  }

  /**
   Among any number of candidates, the order of the map does not decide which is kept exactly
   when one of them is preferred to all the others and none is preferred to it.
   */
  lemma PickIgnoresOrderExactly(servers: map<string, Server>, e: Environment, list: seq<Server>)
    requires ServersKeyed(servers) && ListsCandidates(list, servers, e) && NoRepeats(list) && list != []
    ensures (exists w :: AlwaysChosen(w, list, Preference(e.version))) <==> exists w :: Preferred(servers, e, w)
    ensures forall w | Preferred(servers, e, w) :: Chosen(list, Preference(e.version)) == servers[w]
  {
    var beats := Preference(e.version);
    OrderIsForgottenExactly(list, beats);
    forall w | Preferred(servers, e, w) ensures Dominates(servers[w], list, beats) && Chosen(list, beats) == servers[w] {
      PreferredDominates(servers, e, list, w);
      DominantIsChosen(servers[w], list, beats);
    }
    if s :| Dominates(s, list, beats) {
      var w :| w in servers && servers[w] == s;
      assert Preferred(servers, e, w);
    }
  }

  lemma PreferredDominates(servers: map<string, Server>, e: Environment, list: seq<Server>, w: string)
    requires ServersKeyed(servers) && ListsCandidates(list, servers, e) && Preferred(servers, e, w)
    ensures Dominates(servers[w], list, Preference(e.version))
  {
  }

  /** It does happen: one server runs the panel's version, the other one is online. */
  lemma PickMayDependOnOrder(s: Server, version: string, other: string)
    requires version != other
    ensures var a, b := s.(agentVersion := version, status := "offline"), s.(agentVersion := other, status := "online");
      Chosen([a, b], Preference(version)) == b && Chosen([b, a], Preference(version)) == a
  {
    FirstOfTwo(s.(agentVersion := version, status := "offline"), s.(agentVersion := other, status := "online"), Preference(version));
    FirstOfTwo(s.(agentVersion := other, status := "online"), s.(agentVersion := version, status := "offline"), Preference(version));
  }

  /** The kept server with what it lacks, and with a public endpoint in place of a loopback one. */
  function Refreshed(s: Server, e: Environment): Server {
    s.(name := if s.name == "" || s.name == s.ip || s.name == s.host then e.localName else s.name,
       ip := if s.ip == "" || ShouldReplace(s.ip, e.localIP) then e.localIP else s.ip,
       host := if s.host == "" || ShouldReplace(s.host, e.localHost) then e.localHost else s.host,
       region := if s.region == "" then e.region else s.region,
       provider := if s.provider == "" then e.provider else s.provider,
       agentToken := if s.agentToken == "" then e.newToken else s.agentToken,
       updatedAt := if IsZero(s.updatedAt) then e.now else s.updatedAt)
  }

  method Refresh(s: Server, e: Environment) returns (keep: Server, changed: bool)
    ensures keep == Refreshed(s, e)
    ensures !changed ==> keep == s
  {
    changed := false;
    var name, ip, host, region, provider, token, updatedAt := s.name, s.ip, s.host, s.region, s.provider, s.agentToken, s.updatedAt;
    if name == "" || name == ip || name == host {
      name, changed := e.localName, true;
    }
    if ip == "" || ShouldReplace(ip, e.localIP) {
      ip, changed := e.localIP, true;
    }
    if host == "" || ShouldReplace(host, e.localHost) {
      host, changed := e.localHost, true;
    }
    if region == "" {
      region, changed := e.region, true;
    }
    if provider == "" {
      provider, changed := e.provider, true;
    }
    if token == "" {
      token, changed := e.newToken, true;
    }
    if IsZero(updatedAt) {
      updatedAt, changed := e.now, true;
    }
    keep := s.(name := name, ip := ip, host := host, region := region, provider := provider, agentToken := token, updatedAt := updatedAt);
  }

  // ---- merging ------------------------------------------------------------------

  /** Servers that are merged away, and the one that takes over their nodes. */
  datatype Merge = Merge(gone: set<string>, keep: string)

  const NO_MERGE := Merge({}, "")

  /** Nodes of the merged servers sit on the kept one; nothing else about any node changes. */
  function Gathered(nodes: map<string, Node>, m: Merge): map<string, Node> {
    map id | id in nodes :: if nodes[id].serverID in m.gone then nodes[id].(serverID := m.keep) else nodes[id]
  }

  lemma GatheredNone(nodes: map<string, Node>, keep: string)
    ensures Gathered(nodes, Merge({}, keep)) == nodes
  {
  }

  lemma GatheredMore(nodes: map<string, Node>, m: Merge, from: string)
    requires from != m.keep
    ensures Gathered(Gathered(nodes, m), Merge({from}, m.keep)) == Gathered(nodes, Merge(m.gone + {from}, m.keep))
  {
  }

  method MoveNodes(store: Store, from: string, to: string)
    modifies store`nodes
    ensures store.nodes == Gathered(old(store.nodes), Merge({from}, to))
  {
    var todo := store.nodes.Keys;
    ghost var before, target := store.nodes, Gathered(store.nodes, Merge({from}, to));
    while todo != {}
      invariant todo <= before.Keys && store.nodes.Keys == before.Keys
      invariant forall id | id in before :: store.nodes[id] == if id in todo then before[id] else target[id]
      decreases todo
    {
      var id :| id in todo;
      var n := store.nodes[id];
      if n.serverID == from {
        store.nodes := store.nodes[id := n.(serverID := to)];
      }
      todo := todo - {id};
    }
  }

  /** Move the nodes of one server to the kept one, then drop it. */
  method MergeOne(store: Store, from: string, keep: string)
    requires Sound(store) && keep in store.servers && from != keep
    modifies store`servers, store`nodes
    ensures Sound(store)
    ensures store.servers == old(store.servers) - {from}
    ensures store.nodes == Gathered(old(store.nodes), Merge({from}, keep))
  {
    MoveNodes(store, from, keep);
    store.servers := store.servers - {from};
  }

  function Others(candidates: seq<Server>, keep: string): set<string> {
    set s | s in candidates && s.id != keep :: s.id
  }

  /** Merge every other candidate into the kept server. */
  method MergeInto(store: Store, candidates: seq<Server>, keep: string) returns (changed: bool)
    requires Sound(store) && keep in store.servers
    modifies store`servers, store`nodes
    ensures Sound(store)
    ensures store.servers == old(store.servers) - Others(candidates, keep)
    ensures store.nodes == Gathered(old(store.nodes), Merge(Others(candidates, keep), keep))
  {
    changed := false;
    GatheredNone(store.nodes, keep);
    for i := 0 to |candidates|
      invariant Sound(store) && keep in store.servers
      invariant store.servers == old(store.servers) - Others(candidates[..i], keep)
      invariant store.nodes == Gathered(old(store.nodes), Merge(Others(candidates[..i], keep), keep))
    {
      assert candidates[..i + 1] == candidates[..i] + [candidates[i]];
      if candidates[i].id != keep {
        GatheredMore(old(store.nodes), Merge(Others(candidates[..i], keep), keep), candidates[i].id);
        assert Others(candidates[..i + 1], keep) == Others(candidates[..i], keep) + {candidates[i].id};
        MergeOne(store, candidates[i].id, keep);
        changed := true;
      } else {
        assert Others(candidates[..i + 1], keep) == Others(candidates[..i], keep);
      }
    }
    assert candidates[..|candidates|] == candidates;
  }

  /** Pick, refresh and store one candidate, then merge the others into it. */
  method MergeCandidates(store: Store, candidates: seq<Server>, e: Environment) returns (changed: bool, keep: string)
    requires Sound(store) && candidates != []
    modifies store`servers, store`nodes
    ensures Sound(store) && keep in store.servers
    ensures var picked := Chosen(candidates, Preference(e.version));
      keep == picked.id && store.servers == old(store.servers)[keep := Refreshed(picked, e)] - Others(candidates, keep)
    ensures store.nodes == Gathered(old(store.nodes), Merge(Others(candidates, keep), keep))
  {
    var picked := PickLocalServer(candidates, e.version);
    var kept, touched := Refresh(picked, e);
    keep := kept.id;
    store.servers := store.servers[keep := kept];
    var merged := MergeInto(store, candidates, keep);
    changed := touched || merged;
  }

  function Seed(e: Environment): Server {
    Server(e.newServerID, e.localName, e.localIP, e.localHost, e.region, e.provider, "offline", e.newToken,
           "", "", "", ZERO_TIME, "", 0, 0, 0, 0, e.now, e.now)
  }

  method SeedLocalServer(store: Store, e: Environment)
    modifies store`servers
    ensures store.servers == old(store.servers)[e.newServerID := Seed(e)]
  {
    store.servers := store.servers[e.newServerID := Seed(e)];
  }

  /** All local servers but one are merged away; a preferred one is the one that is kept. */
  ghost predicate MergesLocals(servers: map<string, Server>, e: Environment, m: Merge) {
    && m.gone == Locals(servers, e) - {m.keep}
    && (Locals(servers, e) != {} ==> m.keep in Locals(servers, e))
    && (forall w | Preferred(servers, e, w) :: m.keep == w)
  }

  /** The servers afterwards: a seeded one is added when none is local, else the kept one is refreshed. */
  ghost function AfterMerge(servers: map<string, Server>, e: Environment, m: Merge): map<string, Server> {
    if Locals(servers, e) == {} then servers[e.newServerID := Seed(e)]
    else map id | id in servers && id !in m.gone :: if id == m.keep then Refreshed(servers[id], e) else servers[id]
  }

  /** What becomes of the servers when a request asks for the local one, or does not. */
  ghost predicate Merges(before: map<string, Server>, after: map<string, Server>, e: Environment, asked: bool, m: Merge) {
    if !asked then m == NO_MERGE && after == before
    else ServersKeyed(before) ==> MergesLocals(before, e, m) && after == AfterMerge(before, e, m)
  }

  lemma AfterMergeKeyed(servers: map<string, Server>, e: Environment, m: Merge)
    requires ServersKeyed(servers) && MergesLocals(servers, e, m) && e.newServerID != ""
    ensures ServersKeyed(AfterMerge(servers, e, m)) && AfterMerge(servers, e, m) != map[]
  {
    if Locals(servers, e) == {} {
      assert e.newServerID in AfterMerge(servers, e, m);
    } else {
      assert m.keep in AfterMerge(servers, e, m);
    }
  }

  lemma CandidatesAreLocals(servers: map<string, Server>, e: Environment, list: seq<Server>, keep: string)
    requires ServersKeyed(servers) && ListsCandidates(list, servers, e)
    ensures Others(list, keep) == Locals(servers, e) - {keep}
  {
    forall id | id in Locals(servers, e) - {keep} ensures id in Others(list, keep) {
      assert servers[id] in list && servers[id].id == id;
    }
  }

  lemma MergedAsSaid(servers: map<string, Server>, e: Environment, list: seq<Server>)
    requires ServersKeyed(servers) && ListsCandidates(list, servers, e) && NoRepeats(list) && list != []
    ensures var picked := Chosen(list, Preference(e.version)); var m := Merge(Others(list, picked.id), picked.id);
      MergesLocals(servers, e, m) && servers[picked.id := Refreshed(picked, e)] - m.gone == AfterMerge(servers, e, m)
  {
    var picked := Chosen(list, Preference(e.version));
    PickIgnoresOrderExactly(servers, e, list);
    CandidatesAreLocals(servers, e, list, picked.id);
    var id :| id in servers && servers[id] == picked;
    assert id == picked.id && id in Locals(servers, e);
  }

  /**
   ensureSingleModeLocalServer: one server with the local endpoint is kept, the others are
   merged into it, and a server is seeded when there is none. Whichever is picked, nodes
   keep an existing server and the store stays sound.
   */
  method EnsureSingleModeLocalServer(store: Store, e: Environment) returns (changed: bool, ghost m: Merge)
    requires Sound(store) && e.newServerID !in store.servers && e.newServerID != ""
    modifies store`servers, store`nodes
    ensures Sound(store)
    ensures Merges(old(store.servers), store.servers, e, true, m) && store.nodes == Gathered(old(store.nodes), m)
    ensures ServersKeyed(old(store.servers)) ==> ServersKeyed(store.servers) && store.servers != map[]
  {
    ghost var servers := store.servers;
    var candidates: seq<Server> := [];
    if |store.servers| > 0 {
      candidates := CollectCandidates(store.servers, e);
    }
    if |candidates| == 0 {
      m := NO_MERGE;
      GatheredNone(store.nodes, "");
      SeedLocalServer(store, e);
      changed := true;
      assert Locals(servers, e) == {};
    } else {
      var keep;
      changed, keep := MergeCandidates(store, candidates, e);
      m := Merge(Others(candidates, keep), keep);
      if ServersKeyed(servers) {
        MergedAsSaid(servers, e, candidates);
      }
    }
    if ServersKeyed(servers) {
      AfterMergeKeyed(servers, e, m);
    }
  }

  // ---- the default server -----------------------------------------------------------

  predicate Livelier(s: Server, best: Server) {
    (s.status == "online" && best.status != "online") || s.lastSyncAt > best.lastSyncAt
  }

  /** Some enumeration of the records under these keys; on keyed servers each comes once. */
  ghost predicate Enumerated(list: seq<Server>, servers: map<string, Server>, keys: set<string>) {
    && (forall s | s in list :: exists id | id in servers && id in keys :: servers[id] == s)
    && (forall id | id in servers && id in keys :: servers[id] in list)
    && (ServersKeyed(servers) ==> NoRepeats(list))
  }

  lemma EnumeratedNext(list: seq<Server>, servers: map<string, Server>, keys: set<string>, id: string)
    requires Enumerated(list, servers, keys) && id in servers && id !in keys
    ensures Enumerated(list + [servers[id]], servers, keys + {id})
  {
    if ServersKeyed(servers) {
      assert servers[id] !in list;
      NoRepeatsAppend(list, servers[id]);
    }
  }

  /** defaultServerIDLocked: the server that is left after each later one had its chance to replace it. */
  method DefaultServerID(servers: map<string, Server>) returns (id: string, ghost order: seq<Server>)
    ensures Enumerated(order, servers, servers.Keys)
    ensures servers != map[] ==> order != [] && id == Chosen(order, Livelier).id
    ensures servers == map[] ==> id == ""
  {
    var best, found := ZERO_SERVER, false;
    order := [];
    var todo := servers.Keys;
    while todo != {}
      invariant todo <= servers.Keys
      invariant (found <==> order != []) && (found <==> todo != servers.Keys)
      invariant found ==> best == Chosen(order, Livelier)
      invariant Enumerated(order, servers, servers.Keys - todo)
      decreases todo
    {
      var k :| k in todo;
      var s := servers[k];
      ChosenAppend(order, s, Livelier);
      EnumeratedNext(order, servers, servers.Keys - todo, k);
      assert servers.Keys - todo + {k} == servers.Keys - (todo - {k});
      todo, order := todo - {k}, order + [s];
      if !found {
        best, found := s, true;
      } else if s.status == "online" && best.status != "online" {
        best := s;
      } else if s.lastSyncAt > best.lastSyncAt {
        best := s;
      }
    }
    if !found {
      return "", order;
    }
    return best.id, order;
  }

  /** The server livelier than all the others, none being livelier than it. */
  ghost predicate Liveliest(servers: map<string, Server>, w: string) {
    w in servers && forall x | x in servers && x != w :: Livelier(servers[w], servers[x]) && !Livelier(servers[x], servers[w])
  }

  /** The default does not depend on the order of the map exactly when there is a liveliest server. */
  lemma DefaultIgnoresOrderExactly(servers: map<string, Server>, list: seq<Server>)
    requires ServersKeyed(servers) && Enumerated(list, servers, servers.Keys) && list != []
    ensures (exists w :: AlwaysChosen(w, list, Livelier)) <==> exists w :: Liveliest(servers, w)
    ensures forall w | Liveliest(servers, w) :: Chosen(list, Livelier).id == w
    ensures Chosen(list, Livelier).id in servers
  {
    OrderIsForgottenExactly(list, Livelier);
    forall w | Liveliest(servers, w) ensures Dominates(servers[w], list, Livelier) && Chosen(list, Livelier).id == w {
      assert Dominates(servers[w], list, Livelier);
      DominantIsChosen(servers[w], list, Livelier);
    }
    if s :| Dominates(s, list, Livelier) {
      var w :| w in servers && servers[w] == s;
      assert Liveliest(servers, w);
    }
  }

  /** What resolving a trimmed server ID does to the servers, and which server it finds. */
  ghost predicate Resolved(before: map<string, Server>, after: map<string, Server>, e: Environment, given: string, id: string, m: Merge) {
    && Merges(before, after, e, given == "", m)
    && (given != "" ==> id == given)
    && (ServersKeyed(before) ==> ServersKeyed(after))
    && (given == "" && ServersKeyed(before) ==> id in after && forall w | Liveliest(after, w) :: id == w)
  }

  /** The server a body names, or the default one of a store that is made to have a local server. */
  method ResolveServer(store: Store, e: Environment, given: string) returns (id: string, ghost m: Merge)
    requires Sound(store) && e.newServerID !in store.servers && e.newServerID != ""
    modifies store`servers, store`nodes
    ensures Sound(store)
    ensures Resolved(old(store.servers), store.servers, e, given, id, m) && store.nodes == Gathered(old(store.nodes), m)
  {
    if given != "" {
      GatheredNone(store.nodes, "");
      return given, NO_MERGE;
    }
    var changed;
    changed, m := EnsureSingleModeLocalServer(store, e);
    ghost var order;
    id, order := DefaultServerID(store.servers);
    if ServersKeyed(store.servers) && order != [] {
      DefaultIgnoresOrderExactly(store.servers, order);
    }
  }
}
