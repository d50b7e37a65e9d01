// Which ports requests leave apart on one server: nodes among themselves, and nodes and relays
// (backend/internal/api/nodes.go, relays.go, backend/internal/store/store.go).

module Ports {
  import opened Wrappers
  import opened Model
  import opened Integrity
  import opened LocalServers

  predicate PortTaken(nodes: map<string, Node>, serverID: string, port: int, currentID: string) {
    exists id | id in nodes && id != currentID :: nodes[id].serverID == serverID && nodes[id].enabled && nodes[id].port == port
  }

  predicate RelayPortTaken(relays: map<string, RelayRoute>, serverID: string, port: int, currentID: string) {
    exists id | id in relays && id != currentID ::
      relays[id].relayServerID == serverID && relays[id].enabled && relays[id].relayPort == port
  }

  // ---- nodes among themselves ----------------------------------------------------

  /** The server a node is on once servers are merged. */
  function Home(m: Merge, serverID: string): string { if serverID in m.gone then m.keep else serverID }

  /** Two enabled nodes of different servers, all among these, listen on one port. */
  ghost predicate MeetAmong(nodes: map<string, Node>, servers: set<string>) {
    exists i, j | i in nodes && j in nodes :: ShareAPort(nodes[i], nodes[j]) && nodes[i].serverID in servers && nodes[j].serverID in servers
  }

  predicate ShareAPort(a: Node, b: Node) { a.enabled && b.enabled && a.port == b.port && a.serverID != b.serverID }

  /** Merging keeps ports apart exactly when no two enabled nodes of the merged servers listen on one port. */
  lemma MergeKeepsPortsExactly(nodes: map<string, Node>, m: Merge)
    requires NodePortsApart(nodes)
    ensures NodePortsApart(Gathered(nodes, m)) <==> !MeetAmong(nodes, if m.gone == {} then {} else m.gone + {m.keep})
  {
    var all, merged := if m.gone == {} then {} else m.gone + {m.keep}, Gathered(nodes, m);
    if i, j :| i in nodes && j in nodes && ShareAPort(nodes[i], nodes[j]) && nodes[i].serverID in all && nodes[j].serverID in all {
      assert NodesClash(merged[i], merged[j]);
    }
    if !MeetAmong(nodes, all) {
      forall i, j | i in merged && j in merged && i != j ensures !NodesClash(merged[i], merged[j]) {
        assert !NodesClash(nodes[i], nodes[j]);
      }
    }
  }

  /** On keyed servers these are the local ones, whichever of them is kept. */
  lemma MeetAmongLocals(servers: map<string, Server>, nodes: map<string, Node>, e: Environment, m: Merge)
    requires MergesLocals(servers, e, m)
    ensures MeetAmong(nodes, if m.gone == {} then {} else m.gone + {m.keep}) <==> MeetAmong(nodes, Locals(servers, e))
  {
    if m.gone == {} {
      assert Locals(servers, e) <= {m.keep};
    } else {
      assert m.gone + {m.keep} == Locals(servers, e);
    }
  }

  /** Storing a node keeps ports apart exactly when they were, and its port is free if it is enabled. */
  lemma StoreKeepsPortsExactly(nodes: map<string, Node>, n: Node)
    ensures NodePortsApart(nodes[n.id := n]) <==>
      NodePortsApart(nodes - {n.id}) && (n.enabled ==> !PortTaken(nodes, n.serverID, n.port, n.id))
  {
    var next, others := nodes[n.id := n], nodes - {n.id};
    if NodePortsApart(next) {
      forall i, j | i in others && j in others && i != j ensures !NodesClash(others[i], others[j]) {
        assert !NodesClash(next[i], next[j]);
      }
      forall id | id in nodes && id != n.id && n.enabled ensures !(nodes[id].serverID == n.serverID && nodes[id].enabled && nodes[id].port == n.port) {
        assert !NodesClash(next[id], next[n.id]);
      }
    }
    if NodePortsApart(others) && (n.enabled ==> !PortTaken(nodes, n.serverID, n.port, n.id)) {
      forall i, j | i in next && j in next && i != j ensures !NodesClash(next[i], next[j]) {
        if i != n.id && j != n.id {
          assert !NodesClash(others[i], others[j]);
        }
      }
    }
  }

  /** Some other enabled node will be on this server, with this port, once servers are merged. */
  ghost predicate TakenAfter(nodes: map<string, Node>, m: Merge, serverID: string, port: int, id: string) {
    exists k | k in nodes && k != id :: Home(m, nodes[k].serverID) == serverID && nodes[k].enabled && nodes[k].port == port
  }

  /** The nodes once the answer is stored. */
  function With(nodes: map<string, Node>, r: Result<Node>): map<string, Node> {
    if r.Ok? then nodes[r.value.id := r.value] else nodes
  }

  /**
   What the answer to a node request asks of the ports: that merging brings no two of the other
   nodes together, and that the stored node's port is free if it is enabled.
   */
  ghost predicate PortsAllowed(nodes: map<string, Node>, servers: map<string, Server>, e: Environment, asked: bool, m: Merge, r: Result<Node>) {
    if r.Err? then !(asked && MeetAmong(nodes, Locals(servers, e)))
    else
      && !(asked && MeetAmong(nodes - {r.value.id}, Locals(servers, e)))
      && (r.value.enabled ==> !TakenAfter(nodes, m, r.value.serverID, r.value.port, r.value.id))
  }

  lemma MergedPortsExactly(nodes: map<string, Node>, before: map<string, Server>, after: map<string, Server>, e: Environment, asked: bool, m: Merge)
    requires NodePortsApart(nodes) && ServersKeyed(before) && Merges(before, after, e, asked, m)
    ensures NodePortsApart(Gathered(nodes, m)) <==> !(asked && MeetAmong(nodes, Locals(before, e)))
  {
    MergeKeepsPortsExactly(nodes, m);
    if asked {
      MeetAmongLocals(before, nodes, e, m);
    }
  }

  /**
   POST and PUT, over the nodes before the request: enabled nodes of a server keep different ports
   exactly when the local servers that a blank server ID merges bring no two of them together, and
   the stored node, if enabled, has a free port. POST checks the latter only for a body that is
   enabled already; nothing checks the former.
   */
  lemma PortsStayApartExactly(nodes: map<string, Node>, before: map<string, Server>, after: map<string, Server>, e: Environment,
                              asked: bool, m: Merge, r: Result<Node>)
    requires NodePortsApart(nodes) && ServersKeyed(before) && Merges(before, after, e, asked, m)
    ensures NodePortsApart(With(Gathered(nodes, m), r)) <==> PortsAllowed(nodes, before, e, asked, m, r)
  {
    if r.Err? {
      MergedPortsExactly(nodes, before, after, e, asked, m);
    } else {
      var n, others := r.value, nodes - {r.value.id};
      assert NodePortsApart(others) by {
        forall i, j | i in others && j in others && i != j ensures !NodesClash(others[i], others[j]) {
          assert !NodesClash(nodes[i], nodes[j]);
        }
      }
      StoreKeepsPortsExactly(Gathered(nodes, m), n);
      MergedPortsExactly(others, before, after, e, asked, m);
      assert Gathered(nodes, m) - {n.id} == Gathered(others, m);
      TakenByMerging(nodes, m, n);
    }
  }

  lemma TakenByMerging(nodes: map<string, Node>, m: Merge, n: Node)
    ensures PortTaken(Gathered(nodes, m), n.serverID, n.port, n.id) <==> TakenAfter(nodes, m, n.serverID, n.port, n.id)
  {
    var merged := Gathered(nodes, m);
    forall k | k in nodes ensures merged[k].serverID == Home(m, nodes[k].serverID) && merged[k].enabled == nodes[k].enabled && merged[k].port == nodes[k].port {
    }
  }

  /** Two servers with the local address, one node each on one port: apart before a merge, together after. */
  lemma MergingMayShareAPort(e: Environment, s: Server, n: Node, m: Merge)
    requires e.localIP != "" && n.enabled
    requires var servers := map["s1" := s.(id := "s1", ip := e.localIP), "s2" := s.(id := "s2", ip := e.localIP)]; MergesLocals(servers, e, m)
    ensures var nodes := map["a" := n.(id := "a", serverID := "s1"), "b" := n.(id := "b", serverID := "s2")];
      NodePortsApart(nodes) && !NodePortsApart(Gathered(nodes, m))
  {
    var servers := map["s1" := s.(id := "s1", ip := e.localIP), "s2" := s.(id := "s2", ip := e.localIP)];
    var nodes := map["a" := n.(id := "a", serverID := "s1"), "b" := n.(id := "b", serverID := "s2")];
    assert ShareAPort(nodes["a"], nodes["b"]) && "s1" in Locals(servers, e) && "s2" in Locals(servers, e);
    MergeKeepsPortsExactly(nodes, m);
    MeetAmongLocals(servers, nodes, e, m);
  }

  // ---- nodes and relays --------------------------------------------------------------

  predicate MeetsRelay(n: Node, r: RelayRoute) {
    n.enabled && r.enabled && n.serverID == r.relayServerID && n.port == r.relayPort
  }

  /** No enabled node listens where an enabled relay of its server does. */
  ghost predicate ClearOfRelays(nodes: map<string, Node>, relays: map<string, RelayRoute>) {
    forall i, k | i in nodes && k in relays :: !MeetsRelay(nodes[i], relays[k])
  }

  predicate RelayListens(relays: map<string, RelayRoute>, serverID: string, port: int) {
    exists k | k in relays :: relays[k].enabled && relays[k].relayServerID == serverID && relays[k].relayPort == port
  }

  /** Merging moves an enabled node onto the port of an enabled relay of the kept server. */
  ghost predicate MovesOntoRelay(nodes: map<string, Node>, relays: map<string, RelayRoute>, m: Merge) {
    exists i | i in nodes :: nodes[i].serverID in m.gone && nodes[i].enabled && RelayListens(relays, m.keep, nodes[i].port)
  }

  lemma MergeKeepsClearExactly(nodes: map<string, Node>, relays: map<string, RelayRoute>, m: Merge)
    requires ClearOfRelays(nodes, relays)
    ensures ClearOfRelays(Gathered(nodes, m), relays) <==> !MovesOntoRelay(nodes, relays, m)
  {
    var merged := Gathered(nodes, m);
    if i, k :| i in nodes && nodes[i].serverID in m.gone && nodes[i].enabled &&
               k in relays && relays[k].enabled && relays[k].relayServerID == m.keep && relays[k].relayPort == nodes[i].port {
      assert MeetsRelay(merged[i], relays[k]);
    }
    if i, k :| i in merged && k in relays && MeetsRelay(merged[i], relays[k]) {
      assert !MeetsRelay(nodes[i], relays[k]);
      assert RelayListens(relays, m.keep, nodes[i].port);
    }
  }

  /** Two local servers, a node on the one and a relay on the other, on one port: the merge brings them together. */
  lemma MergingMayMeetARelay(e: Environment, s: Server, n: Node, r: RelayRoute, m: Merge)
    requires e.localIP != "" && n.enabled && r.enabled && r.relayPort == n.port
    requires MergesLocals(NodeAndRelayServers(e, s), e, m)
    ensures var nodes, relays := map["n" := n.(id := "n", serverID := "s1")], map["r" := r.(id := "r", relayServerID := "s2")];
      ClearOfRelays(nodes, relays) && !ClearOfRelays(Gathered(nodes, m), relays)
  {
    var servers := NodeAndRelayServers(e, s);
    var nodes, relays := map["n" := n.(id := "n", serverID := "s1")], map["r" := r.(id := "r", relayServerID := "s2")];
    assert Preferred(servers, e, "s2");
    assert "s1" in Locals(servers, e) && m.keep == "s2";
    assert RelayListens(relays, "s2", n.port) by {
      assert "r" in relays;
    }
    assert nodes["n"].serverID in m.gone;
    MergeKeepsClearExactly(nodes, relays, m);
  }

  /** The second one is preferred. */
  function NodeAndRelayServers(e: Environment, s: Server): map<string, Server> {
    map["s1" := s.(id := "s1", ip := e.localIP, agentVersion := e.version, status := "offline", lastSyncAt := 1),
        "s2" := s.(id := "s2", ip := e.localIP, agentVersion := e.version, status := "online", lastSyncAt := 2)]
  }

  lemma StoredNodeIsClearExactly(nodes: map<string, Node>, relays: map<string, RelayRoute>, n: Node)
    ensures ClearOfRelays(nodes[n.id := n], relays) <==>
      ClearOfRelays(nodes - {n.id}, relays) && !(n.enabled && RelayListens(relays, n.serverID, n.port))
  {
    var next, others := nodes[n.id := n], nodes - {n.id};
    if ClearOfRelays(next, relays) {
      forall i, k | i in others && k in relays ensures !MeetsRelay(others[i], relays[k]) {
        assert !MeetsRelay(next[i], relays[k]);
      }
      forall k | k in relays ensures !MeetsRelay(n, relays[k]) {
        assert !MeetsRelay(next[n.id], relays[k]);
      }
    }
    if ClearOfRelays(others, relays) && !(n.enabled && RelayListens(relays, n.serverID, n.port)) {
      forall i, k | i in next && k in relays ensures !MeetsRelay(next[i], relays[k]) {
        if i != n.id {
          assert !MeetsRelay(others[i], relays[k]);
        }
      }
    }
  }

  /** What the answer to a node request asks of the relays' ports. */
  ghost predicate ClearAllowed(nodes: map<string, Node>, relays: map<string, RelayRoute>, m: Merge, r: Result<Node>) {
    if r.Err? then !MovesOntoRelay(nodes, relays, m)
    else !MovesOntoRelay(nodes - {r.value.id}, relays, m) && !(r.value.enabled && RelayListens(relays, r.value.serverID, r.value.port))
  }

  /**
   POST and PUT of a node keep nodes clear of relays exactly when merging moves no other node onto a
   relay's port, and the stored node, if enabled, is not on one. Nothing checks either.
   */
  lemma NodesStayClearExactly(nodes: map<string, Node>, relays: map<string, RelayRoute>, m: Merge, r: Result<Node>)
    requires ClearOfRelays(nodes, relays)
    ensures ClearOfRelays(With(Gathered(nodes, m), r), relays) <==> ClearAllowed(nodes, relays, m, r)
  {
    if r.Err? {
      MergeKeepsClearExactly(nodes, relays, m);
    } else {
      var others := nodes - {r.value.id};
      assert ClearOfRelays(others, relays) by {
        forall i, k | i in others && k in relays ensures !MeetsRelay(others[i], relays[k]) {
          assert !MeetsRelay(nodes[i], relays[k]);
        }
      }
      StoredNodeIsClearExactly(Gathered(nodes, m), relays, r.value);
      MergeKeepsClearExactly(others, relays, m);
      assert Gathered(nodes, m) - {r.value.id} == Gathered(others, m);
    }
  }

  lemma StoredRelayIsClearExactly(nodes: map<string, Node>, relays: map<string, RelayRoute>, r: RelayRoute)
    requires "" !in nodes
    ensures ClearOfRelays(nodes, relays[r.id := r]) <==>
      ClearOfRelays(nodes, relays - {r.id}) && !(r.enabled && PortTaken(nodes, r.relayServerID, r.relayPort, ""))
  {
    var next, others := relays[r.id := r], relays - {r.id};
    if ClearOfRelays(nodes, next) {
      forall i, k | i in nodes && k in others ensures !MeetsRelay(nodes[i], others[k]) {
        assert !MeetsRelay(nodes[i], next[k]);
      }
      forall i | i in nodes ensures !MeetsRelay(nodes[i], r) {
        assert !MeetsRelay(nodes[i], next[r.id]);
      }
    }
    if ClearOfRelays(nodes, others) && !(r.enabled && PortTaken(nodes, r.relayServerID, r.relayPort, "")) {
      forall i, k | i in nodes && k in next ensures !MeetsRelay(nodes[i], next[k]) {
        if k != r.id {
          assert !MeetsRelay(nodes[i], others[k]);
        } else {
          assert i != "";
        }
      }
    }
  }

  /** The relays once the answer is stored. */
  function WithRelay(relays: map<string, RelayRoute>, r: Result<RelayRoute>): map<string, RelayRoute> {
    if r.Ok? then relays[r.value.id := r.value] else relays
  }

  /**
   POST and PUT of a relay check the nodes' ports: they keep nodes clear of relays exactly when
   merging moves no node onto the port of another relay.
   */
  lemma RelaysStayClearExactly(nodes: map<string, Node>, relays: map<string, RelayRoute>, m: Merge, r: Result<RelayRoute>)
    requires ClearOfRelays(nodes, relays) && "" !in nodes
    requires r.Ok? ==> !PortTaken(Gathered(nodes, m), r.value.relayServerID, r.value.relayPort, "")
    ensures ClearOfRelays(Gathered(nodes, m), WithRelay(relays, r)) <==>
      !MovesOntoRelay(nodes, if r.Ok? then relays - {r.value.id} else relays, m)
  {
    if r.Err? {
      MergeKeepsClearExactly(nodes, relays, m);
    } else {
      var others := relays - {r.value.id};
      assert ClearOfRelays(nodes, others) by {
        forall i, k | i in nodes && k in others ensures !MeetsRelay(nodes[i], others[k]) {
          assert !MeetsRelay(nodes[i], relays[k]);
        }
      }
      StoredRelayIsClearExactly(Gathered(nodes, m), relays, r.value);
      MergeKeepsClearExactly(nodes, others, m);
    }
  }
}
