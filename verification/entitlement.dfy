// Who ends up in a generated inbound, and on which ports inbounds listen.

module Entitlement {
  import opened Wrappers
  import opened Text
  import opened Model
  import opened Sorting
  import opened Collecting
  import opened Xray

  ghost predicate DistinctClients(clients: seq<Client>) {
    forall i, j | 0 <= i < j < |clients| :: clients[i].id != clients[j].id
  }

  /** f turns a client into a user that carries the client's email. */
  ghost predicate Labels(clients: seq<Client>, f: Client -> Option<User>) {
    forall c | c in clients && f(c).Some? :: f(c).value.email == Email(c)
  }

  lemma EmailsInjective(a: Client, b: Client)
    ensures Email(a) == Email(b) <==> a.id == b.id
  {
    assert a.id == Email(a)[7..] && b.id == Email(b)[7..];
  }

  function ClientEmailKey(c: Client): Key { Key(0, "", Email(c)) }

  /** A user list is exact: the users of exactly the clients f picks, and no email twice. */
  ghost predicate Exact(users: seq<User>, clients: seq<Client>, f: Client -> Option<User>) {
    && (forall c | c in clients && f(c).Some? :: f(c).value in users)
    && (forall u | u in users :: exists c | c in clients :: f(c) == Some(u))
    && (forall i, j | 0 <= i < j < |users| :: users[i].email != users[j].email)
  }

  lemma SortedUsersExact(clients: seq<Client>, f: Client -> Option<User>)
    requires DistinctClients(clients) && Labels(clients, f)
    ensures Exact(StableSort(Collect(clients, f), EmailKey), clients, f)
  {
    var gathered := Collect(clients, f);
    var users := StableSort(gathered, EmailKey);
    forall c | c in clients && f(c).Some? ensures f(c).value in users {
      InCollect(clients, f, f(c).value);
      InSorted(gathered, EmailKey, f(c).value);
    }
    forall u | u in users ensures exists c | c in clients :: f(c) == Some(u) {
      InSorted(gathered, EmailKey, u);
      InCollect(clients, f, u);
    }
    forall i, j | 0 <= i < j < |clients| ensures ClientEmailKey(clients[i]) != ClientEmailKey(clients[j]) {
      EmailsInjective(clients[i], clients[j]);
    }
    CollectDistinct(clients, f, EmailKey, ClientEmailKey);
    SortAscends(gathered, EmailKey);
    forall i, j | 0 <= i < j < |users| ensures users[i].email != users[j].email {
      BeforeTotal(EmailKey(users[i]), EmailKey(users[j]));
    }
  }

  lemma NodeUsersExact(clients: seq<Client>, nodeID: string, protocol: string, now: Time)
    requires DistinctClients(clients)
    ensures Exact(NodeUsers(clients, nodeID, protocol, now), clients, c => NodeUserOf(c, nodeID, ToLower(protocol), now))
    ensures Labels(clients, c => NodeUserOf(c, nodeID, ToLower(protocol), now))
  {
    SortedUsersExact(clients, c => NodeUserOf(c, nodeID, ToLower(protocol), now));
  }

  lemma RelayUsersExact(clients: seq<Client>, relayID: string, now: Time)
    requires DistinctClients(clients)
    ensures Exact(RelayUsers(clients, relayID, now), clients, c => RelayUserOf(c, relayID, now))
    ensures Labels(clients, c => RelayUserOf(c, relayID, now))
  {
    SortedUsersExact(clients, c => RelayUserOf(c, relayID, now));
  }

  // ---- inbounds come from nodes and relays ------------------------------------

  /** Credentials only ever sit in the inbound of a node that carries users or of an accepted relay. */
  lemma UsersOrigin(nodes: seq<Node>, clients: seq<Client>, relays: seq<RelayRoute>, allNodes: map<string, Node>,
                    policy: NetworkPolicy, now: Time, b: Inbound)
    requires b in ServerConfig(nodes, clients, relays, allNodes, policy, now).inbounds && b.UsersIn?
    ensures (exists n | n in nodes :: CarriesUsers(n) && b.tag == n.id && b.users == NodeUsers(clients, n.id, n.protocol, now)) ||
            (exists r | r in relays :: Accepted(r, allNodes) && b.tag == InTag(r.id) && b.users == RelayUsers(clients, r.id, now))
  {
    InCollect(nodes, n => NodeInbound(n, clients, now), b);
    InCollect(relays, r => RelayInbound(r, clients, allNodes, now), b);
    if n :| n in nodes && NodeInbound(n, clients, now) == Some(b) {
      assert CarriesUsers(n);
    } else {
      var r :| r in relays && RelayInbound(r, clients, allNodes, now) == Some(b);
      assert Accepted(r, allNodes);
    }
  }

  // ---- ports ------------------------------------------------------------------

  lemma {:induction false} RangeBound(used: set<int>, p: int, q: int)
    requires p <= q && forall k | p <= k < q :: k in used
    ensures q - p <= |used|
    decreases q - p
  {
    if p < q {
      RangeBound(used - {q - 1}, p, q - 1);
    }
  }

  lemma {:induction false} FewPorts<T>(s: seq<T>, port: T -> int)
    ensures |Ports(s, port)| <= |s|
  {
    if s != [] {
      var init, last := s[..|s| - 1], s[|s| - 1];
      FewPorts(init, port);
      assert s == init + [last];
      assert Ports(s, port) == Ports(init, port) + {port(last)};
    }
  }

  predicate Names(nodes: seq<Node>, relays: seq<RelayRoute>, port: int) {
    (exists n | n in nodes :: n.port == port) || (exists r | r in relays :: r.relayPort == port)
  }

  /** The stats port is the least one from 10000 that no given node or relay names, and it is near. */
  lemma StatsPortIsLeast(nodes: seq<Node>, relays: seq<RelayRoute>)
    ensures var p := StatsPort(nodes, relays);
      && 10000 <= p <= 10000 + |nodes| + |relays|
      && !Names(nodes, relays, p)
      && (forall k | 10000 <= k < p :: Names(nodes, relays, k))
  {
    var used, p := UsedPorts(nodes, relays), StatsPort(nodes, relays);
    RangeBound(used, 10000, p);
    FewPorts(nodes, NodePort);
    FewPorts(relays, RelayPort);
    assert |used| <= |Ports(nodes, NodePort)| + |Ports(relays, RelayPort)|;
    forall k ensures Names(nodes, relays, k) <==> k in used {
      assert forall n | n in nodes :: NodePort(n) in Ports(nodes, NodePort);
      assert forall r | r in relays :: RelayPort(r) in Ports(relays, RelayPort);
    }
  }

  ghost predicate DistinctPorts(inbounds: seq<Inbound>) {
    forall i, j | 0 <= i < j < |inbounds| :: inbounds[i].port != inbounds[j].port
  }

  /** The configured ports are pairwise distinct, within nodes, within relays and across. */
  ghost predicate PortsDisjoint(nodes: seq<Node>, relays: seq<RelayRoute>) {
    && (forall i, j | 0 <= i < j < |nodes| :: nodes[i].port != nodes[j].port)
    && (forall i, j | 0 <= i < j < |relays| :: relays[i].relayPort != relays[j].relayPort)
    && (forall n, r | n in nodes && r in relays :: n.port != r.relayPort)
  }

  function InboundPort(b: Inbound): int { b.port }

  lemma ByPort(inbounds: seq<Inbound>)
    requires DistinctBy(inbounds, InboundPort)
    ensures DistinctPorts(inbounds)
  {
  }

  lemma NodePortsDistinct(nodes: seq<Node>, clients: seq<Client>, now: Time)
    requires forall i, j | 0 <= i < j < |nodes| :: nodes[i].port != nodes[j].port
    ensures var a := NodeInbounds(nodes, clients, now);
      DistinctPorts(a) && forall x | x in a :: exists n | n in nodes :: n.port == x.port
  {
    var f := (n: Node) => NodeInbound(n, clients, now);
    CollectDistinct(nodes, f, InboundPort, NodePort);
    ByPort(Collect(nodes, f));
    forall x: Inbound | x in Collect(nodes, f) ensures exists n | n in nodes :: n.port == x.port {
      InCollect(nodes, f, x);
    }
  }

  lemma RelayPortsDistinct(relays: seq<RelayRoute>, clients: seq<Client>, allNodes: map<string, Node>, now: Time)
    requires forall i, j | 0 <= i < j < |relays| :: relays[i].relayPort != relays[j].relayPort
    ensures var a := RelayInbounds(relays, clients, allNodes, now);
      DistinctPorts(a) && forall x | x in a :: exists r | r in relays :: r.relayPort == x.port
  {
    var f := (r: RelayRoute) => RelayInbound(r, clients, allNodes, now);
    CollectDistinct(relays, f, InboundPort, RelayPort);
    ByPort(Collect(relays, f));
    forall x: Inbound | x in Collect(relays, f) ensures exists r | r in relays :: r.relayPort == x.port {
      InCollect(relays, f, x);
    }
  }

  lemma PortsApart(nodes: seq<Node>, relays: seq<RelayRoute>, a: seq<Inbound>, b: seq<Inbound>, p: int)
    requires PortsDisjoint(nodes, relays) && DistinctPorts(a) && DistinctPorts(b) && !Names(nodes, relays, p)
    requires forall x | x in a :: exists n | n in nodes :: n.port == x.port
    requires forall x | x in b :: exists r | r in relays :: r.relayPort == x.port
    ensures DistinctPorts(a + b + [ApiIn("api", p, None)])
  {
  }

  /** Distinct configured ports give distinct listening ports, the stats port included. */
  lemma InboundPortsDistinct(nodes: seq<Node>, clients: seq<Client>, relays: seq<RelayRoute>, allNodes: map<string, Node>,
                             policy: NetworkPolicy, now: Time)
    requires PortsDisjoint(nodes, relays)
    ensures DistinctPorts(ServerConfig(nodes, clients, relays, allNodes, policy, now).inbounds)
  {
    NodePortsDistinct(nodes, clients, now);
    RelayPortsDistinct(relays, clients, allNodes, now);
    StatsPortIsLeast(nodes, relays);
    PortsApart(nodes, relays, NodeInbounds(nodes, clients, now), RelayInbounds(relays, clients, allNodes, now), StatsPort(nodes, relays));
  }
}
