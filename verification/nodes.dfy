// Node and server endpoints (backend/internal/api/nodes.go, servers.go).

module NodeOps {
  import opened Wrappers
  import opened Text
  import opened Model
  import opened Integrity
  import opened LocalServers
  import opened Ports

  /** Key pairs and random strings, as the generators return them. */
  datatype Generated = Generated(
    keys: Option<(string, string)>, derivedPublic: Option<string>, shortID: string, socksUsername: string, token: string)

  /** What every normalized node satisfies. */
  predicate ValidNode(n: Node) {
    && n.name != "" && 1 <= n.port <= 65535
    && n.protocol in {"vless", "vmess", "trojan", "socks"}
    && (n.protocol == "socks" ==> n.socksUsername != "" && n.socksPassword != "" && n.transport == "tcp" && n.security == "none")
    && (n.protocol != "socks" ==> n.transport in {"tcp", "ws", "grpc"} && n.security in {"none", "tls", "reality"})
    && (n.protocol == "vmess" ==> n.security != "reality")
    && (n.security == "reality" ==> n.transport == "tcp" && n.path == "" && n.realityDest != "")
  }

  /** The code's guard: only a body that is already enabled is compared with the other nodes. */
  predicate PortGuard(nodes: map<string, Node>, n: Node, currentID: string) {
    n.enabled ==> !PortTaken(nodes, n.serverID, n.port, currentID)
  }

  method FindPort(nodes: map<string, Node>, serverID: string, port: int, currentID: string) returns (taken: bool)
    ensures taken == PortTaken(nodes, serverID, port, currentID)
  {
    var todo := nodes.Keys;
    while todo != {}
      invariant todo <= nodes.Keys
      invariant forall id | id in nodes.Keys - todo && id != currentID ::
        !(nodes[id].serverID == serverID && nodes[id].enabled && nodes[id].port == port)
      decreases todo
    {
      var id :| id in todo;
      todo := todo - {id};
      if id != currentID && nodes[id].serverID == serverID && nodes[id].enabled && nodes[id].port == port {
        return true;
      }
    }
    return false;
  }

  function TrimNode(n: Node): Node {
    n.(serverID := TrimSpace(n.serverID), name := TrimSpace(n.name), protocol := ToLower(TrimSpace(n.protocol)),
       host := TrimSpace(n.host), transport := ToLower(TrimSpace(n.transport)), security := ToLower(TrimSpace(n.security)),
       sni := TrimSpace(n.sni), path := TrimSpace(n.path), fingerprint := TrimSpace(n.fingerprint),
       realityDest := TrimSpace(n.realityDest), realityPrivateKey := TrimSpace(n.realityPrivateKey),
       realityPublicKey := TrimSpace(n.realityPublicKey), realityShortID := TrimSpace(n.realityShortID),
       realitySpiderX := TrimSpace(n.realitySpiderX), socksUsername := TrimSpace(n.socksUsername),
       socksPassword := TrimSpace(n.socksPassword))
  }

  /** The part of a destination before its first colon. */
  function HostPart(dest: string): string { Split(dest, ':')[0] }

  /** The security of a body that names none. */
  function DefaultSecurity(protocol: string): string {
    match protocol
    case "trojan" => "tls"
    case "vless" => "reality"
    case _ => "none"
  }

  /** Protocol, transport and security of a trimmed body, once their defaults are filled in. */
  function Modes(n: Node): (modes: (string, string, string))
    ensures modes.0 == "vmess" ==> modes.2 != "reality"
  {
    var protocol, transport := OrDefault(n.protocol, "vless"), OrDefault(n.transport, "tcp");
    var security := OrDefault(n.security, DefaultSecurity(protocol));
    (protocol, transport, if protocol == "vmess" && security == "reality" then "none" else security)
  }

  /** A SOCKS5 inbound keeps nothing but its credentials. */
  function SocksOnly(n: Node, host: string, g: Generated): Node {
    n.(protocol := "socks", transport := "tcp", security := "none", host := host, path := "", sni := "",
       fingerprint := "", realityDest := "", realityPrivateKey := "", realityPublicKey := "", realityShortID := "", realitySpiderX := "",
       socksUsername := OrDefault(n.socksUsername, g.socksUsername), socksPassword := OrDefault(n.socksPassword, g.token))
  }

  function Defaulted(n: Node, srv: Server, g: Generated): Node {
    var (protocol, transport, security) := Modes(n);
    var host := OrDefault(n.host, OrDefault(srv.host, srv.ip));
    if protocol in {"socks", "socks5"} then SocksOnly(n, host, g)
    else n.(protocol := protocol, transport := transport, security := security, host := host,
            sni := if n.sni == "" && security !in {"none", "reality"} then host else n.sni,
            path := if n.path == "" && transport == "ws" then "/yuchen" else n.path)
  }

  method FillModes(n: Node) returns (protocol: string, transport: string, security: string)
    ensures (protocol, transport, security) == Modes(n)
  {
    protocol, transport, security := n.protocol, n.transport, n.security;
    if protocol == "" {
      protocol := "vless";
    }
    if transport == "" {
      transport := "tcp";
    }
    if security == "" {
      match protocol
      case "trojan" => security := "tls";
      case "vless" => security := "reality";
      case _ => security := "none";
    }
    if protocol == "vmess" && security == "reality" {
      security := "none";
    }
  }

  method FillDefaults(trimmed: Node, srv: Server, g: Generated) returns (n: Node)
    ensures n == Defaulted(trimmed, srv, g)
  {
    var protocol, transport, security := FillModes(trimmed);
    var host, sni, path := trimmed.host, trimmed.sni, trimmed.path;
    if host == "" {
      host := if srv.host != "" then srv.host else srv.ip;
    }
    if sni == "" && security != "none" && security != "reality" {
      sni := host;
    }
    if path == "" && transport == "ws" {
      path := "/yuchen";
    }
    if protocol == "socks" || protocol == "socks5" {
      n := SocksOnly(trimmed, host, g);
    } else {
      n := trimmed.(protocol := protocol, transport := transport, security := security, host := host, sni := sni, path := path);
    }
  }

  /** The key pair of a Reality inbound: given, completed from the private key, or new. */
  function KeyPair(privateKey: string, publicKey: string, g: Generated): (keys: Option<(string, string)>) {
    if privateKey != "" && publicKey != "" then Some((privateKey, publicKey))
    else if privateKey != "" then (if g.derivedPublic.Some? then Some((privateKey, g.derivedPublic.value)) else None)
    else g.keys
  }

  method FillKeys(privateKey: string, publicKey: string, g: Generated) returns (r: Result<(string, string)>)
    ensures r.Ok? <==> KeyPair(privateKey, publicKey, g).Some?
    ensures r.Ok? ==> Some(r.value) == KeyPair(privateKey, publicKey, g)
  {
    if privateKey == "" || publicKey == "" {
      if privateKey != "" && publicKey == "" {
        if g.derivedPublic == None {
          return Err("invalid private key");
        }
        return Ok((privateKey, g.derivedPublic.value));
      }
      if g.keys == None {
        return Err("key generation failed");
      }
      return Ok(g.keys.value);
    }
    return Ok((privateKey, publicKey));
  }

  /**
   The public key belongs to the private one exactly unless both were given and did not match, which
   nothing checks; a given private key stays, and a public key given alone is dropped.
   */
  lemma KeysMatchExactly(privateKey: string, publicKey: string, g: Generated, publicOf: string -> Option<string>)
    requires KeyPair(privateKey, publicKey, g).Some? && g.derivedPublic == publicOf(privateKey)
    requires g.keys.Some? ==> publicOf(g.keys.value.0) == Some(g.keys.value.1)
    ensures var (privatePart, publicPart) := KeyPair(privateKey, publicKey, g).value;
      && (publicOf(privatePart) == Some(publicPart) <==> !(privateKey != "" && publicKey != "" && publicOf(privateKey) != Some(publicKey)))
      && (privateKey != "" ==> privatePart == privateKey)
      && (privateKey == "" ==> g.keys == Some((privatePart, publicPart)))
  {
  }

  /** A destination has an empty host only when it starts with its colon. */
  lemma HostPartEmptyExactly(dest: string)
    ensures HostPart(dest) == "" <==> dest == "" || dest[0] == ':'
  {
  }

  /** Reality runs over plain TCP and always has its keys. */
  function Dressed(n: Node, g: Generated): Option<Node> {
    var dest := OrDefault(n.realityDest, "www.intel.com:443");
    var keys := KeyPair(n.realityPrivateKey, n.realityPublicKey, g);
    if keys.None? then None
    else Some(n.(transport := "tcp", path := "", realityDest := dest, sni := OrDefault(n.sni, HostPart(dest)),
                 fingerprint := OrDefault(n.fingerprint, "chrome"), realitySpiderX := OrDefault(n.realitySpiderX, "/"),
                 realityShortID := OrDefault(n.realityShortID, g.shortID),
                 realityPrivateKey := keys.value.0, realityPublicKey := keys.value.1))
  }

  method FillReality(n: Node, g: Generated) returns (r: Result<Node>)
    ensures r.Ok? <==> Dressed(n, g).Some?
    ensures r.Ok? ==> Some(r.value) == Dressed(n, g)
  {
    var dest, sni, fingerprint := n.realityDest, n.sni, n.fingerprint;
    if dest == "" {
      dest := "www.intel.com:443";
    }
    if sni == "" {
      sni := HostPart(dest);
    }
    if fingerprint == "" {
      fingerprint := "chrome";
    }
    var spiderX, shortID := n.realitySpiderX, n.realityShortID;
    if spiderX == "" {
      spiderX := "/";
    }
    if shortID == "" {
      shortID := g.shortID;
    }
    var keys := FillKeys(n.realityPrivateKey, n.realityPublicKey, g);
    if keys.Err? {
      return Err(keys.error);
    }
    return Ok(n.(transport := "tcp", path := "", realityDest := dest, sni := sni, fingerprint := fingerprint, realitySpiderX := spiderX,
                 realityShortID := shortID, realityPrivateKey := keys.value.0, realityPublicKey := keys.value.1));
  }

  /** The checks made on the filled-in record. */
  predicate Admissible(nodes: map<string, Node>, n: Node, currentID: string) {
    && 1 <= n.port <= 65535 && PortGuard(nodes, n, currentID)
    && n.protocol in {"vless", "vmess", "trojan", "socks"}
    && if n.protocol == "socks" then n.socksUsername != "" && n.socksPassword != ""
       else n.transport in {"tcp", "ws", "grpc"} && n.security in {"none", "tls", "reality"}
  }

  method CheckNode(nodes: map<string, Node>, n: Node, currentID: string) returns (r: Result<Node>)
    ensures r.Ok? <==> Admissible(nodes, n, currentID)
    ensures r.Ok? ==> r.value == n
  {
    if n.port < 1 || n.port > 65535 {
      return Err("port out of range");
    }
    if n.enabled {
      var taken := FindPort(nodes, n.serverID, n.port, currentID);
      if taken {
        return Err("port taken");
      }
    }
    if n.protocol !in {"vless", "vmess", "trojan", "socks"} {
      return Err("unsupported protocol");
    }
    if n.protocol == "socks" {
      if n.socksUsername == "" || n.socksPassword == "" {
        return Err("socks credentials required");
      }
      return Ok(n);
    }
    if n.transport !in {"tcp", "ws", "grpc"} {
      return Err("unsupported transport");
    }
    if n.security !in {"none", "tls", "reality"} {
      return Err("unsupported security");
    }
    return Ok(n);
  }

  /** A trimmed body on the server it is resolved to. */
  function PlacedNode(body: Node, serverID: string): Node { TrimNode(body).(serverID := serverID) }

  /** The record a placed body becomes; None when it is refused. */
  function NormalForm(nodes: map<string, Node>, servers: map<string, Server>, n: Node, currentID: string, g: Generated): Option<Node> {
    if n.serverID == "" || n.serverID !in servers || n.name == "" || n.protocol == "shadowsocks" then None
    else
      var d := Defaulted(n, servers[n.serverID], g);
      var f := if d.security == "reality" then Dressed(d, g) else Some(d);
      if f.Some? && Admissible(nodes, f.value, currentID) then f else None
  }

  lemma DefaultedShape(n: Node, srv: Server, g: Generated)
    ensures var d := Defaulted(n, srv, g);
      && d.serverID == n.serverID && d.port == n.port && d.enabled == n.enabled && d.name == n.name
      && (d.protocol == "socks" ==> d.transport == "tcp" && d.security == "none")
      && (d.protocol == "vmess" ==> d.security != "reality")
  {
  }

  lemma DressedShape(n: Node, g: Generated)
    requires Dressed(n, g).Some?
    ensures var d := Dressed(n, g).value;
      && d.serverID == n.serverID && d.port == n.port && d.enabled == n.enabled && d.name == n.name
      && d.protocol == n.protocol && d.security == n.security
      && d.transport == "tcp" && d.path == "" && d.realityDest != ""
      && (d.sni == "" <==> n.sni == "" && n.realityDest != "" && n.realityDest[0] == ':')
  {
    HostPartEmptyExactly(n.realityDest);
    HostPartEmptyExactly("www.intel.com:443");
  }

  /** Whatever is accepted is a valid record on an existing server, and as the body asked. */
  lemma NormalFormIsValid(nodes: map<string, Node>, servers: map<string, Server>, n: Node, currentID: string, g: Generated)
    requires NormalForm(nodes, servers, n, currentID, g).Some?
    ensures var f := NormalForm(nodes, servers, n, currentID, g).value;
      && ValidNode(f) && f.serverID == n.serverID && n.serverID in servers
      && f.port == n.port && f.enabled == n.enabled && f.name == n.name
      && PortGuard(nodes, f, currentID)
  {
    DefaultedShape(n, servers[n.serverID], g);
    var d := Defaulted(n, servers[n.serverID], g);
    if d.security == "reality" {
      DressedShape(d, g);
    }
  }

  /** The answer is the normal form, or a refusal when there is none. */
  predicate Answers(form: Option<Node>, r: Result<Node>) {
    (r.Ok? <==> form.Some?) && (r.Ok? ==> form == Some(r.value))
  }

  /** The checks and defaults once the server is resolved. */
  method NormalizePlaced(nodes: map<string, Node>, servers: map<string, Server>, placed: Node, currentID: string, g: Generated)
    returns (r: Result<Node>)
    ensures Answers(NormalForm(nodes, servers, placed, currentID, g), r)
  {
    var n := placed;
    if n.serverID == "" {
      return Err("no server");
    }
    if n.serverID !in servers {
      return Err("unknown server");
    }
    if n.name == "" {
      return Err("name required");
    }
    if n.protocol == "shadowsocks" {
      return Err("shadowsocks retired");
    }
    n := FillDefaults(n, servers[n.serverID], g);
    if n.security == "reality" {
      var filled := FillReality(n, g);
      if filled.Err? {
        return Err(filled.error);
      }
      n := filled.value;
    }
    r := CheckNode(nodes, n, currentID);
  }

  /** normalizeNodeLocked; without a server it falls back to the local one, merging servers if need be. */
  method NormalizeNode(store: Store, e: Environment, body: Node, currentID: string, g: Generated)
    returns (r: Result<Node>, serverID: string, ghost m: Merge)
    requires Sound(store) && e.newServerID !in store.servers && e.newServerID != ""
    modifies store`servers, store`nodes
    ensures Sound(store)
    ensures Resolved(old(store.servers), store.servers, e, TrimSpace(body.serverID), serverID, m)
    ensures store.nodes == Gathered(old(store.nodes), m)
    ensures Answers(NormalForm(store.nodes, store.servers, PlacedNode(body, serverID), currentID, g), r)
  {
    var n := TrimNode(body);
    serverID, m := ResolveServer(store, e, n.serverID);
    r := NormalizePlaced(store.nodes, store.servers, n.(serverID := serverID), currentID, g);
  }

  method StoreNode(store: Store, n: Node)
    requires Sound(store) && n.serverID in store.servers && n.id != ""
    modifies store`nodes
    ensures Sound(store) && store.nodes == old(store.nodes)[n.id := n]
  {
    store.nodes := store.nodes[n.id := n];
    forall cid | cid in store.clients ensures BoundTo(store.clients[cid], store.nodes.Keys, store.relays.Keys) {
      assert BoundTo(store.clients[cid], old(store.nodes).Keys, store.relays.Keys);
    }
  }

  /** The request is refused with the form, or stores it under the id. */
  predicate StoredAs(form: Option<Node>, r: Result<Node>, id: string, enable: bool) {
    (r.Ok? <==> form.Some?) && (r.Ok? ==> r.value == form.value.(id := id, enabled := enable || form.value.enabled))
  }

  method StoreNodeAnswer(store: Store, ghost form: Option<Node>, answer: Result<Node>, id: string, enable: bool) returns (r: Result<Node>)
    requires Sound(store) && Answers(form, answer) && id != ""
    requires form.Some? ==> form.value.serverID in store.servers
    modifies store`nodes
    ensures Sound(store) && StoredAs(form, r, id, enable)
    ensures store.nodes == With(old(store.nodes), r)
  {
    r := answer;
    if r.Ok? {
      var n := r.value.(id := id, enabled := enable || r.value.enabled);
      StoreNode(store, n);
      r := Ok(n);
    }
  }

  /** Normalize a body and store it: under a new id and enabled, or in the place of its own record. */
  method PutNode(store: Store, e: Environment, body: Node, id: string, currentID: string, enable: bool, g: Generated)
    returns (r: Result<Node>, serverID: string, ghost m: Merge)
    requires Sound(store) && e.newServerID !in store.servers && e.newServerID != "" && id != ""
    modifies store`servers, store`nodes
    ensures Sound(store)
    ensures Resolved(old(store.servers), store.servers, e, TrimSpace(body.serverID), serverID, m)
    ensures StoredAs(NormalForm(Gathered(old(store.nodes), m), store.servers, PlacedNode(body, serverID), currentID, g), r, id, enable)
    ensures store.nodes == With(Gathered(old(store.nodes), m), r)
  {
    r, serverID, m := NormalizeNode(store, e, body, currentID, g);
    ghost var form := NormalForm(store.nodes, store.servers, PlacedNode(body, serverID), currentID, g);
    if form.Some? {
      NormalFormIsValid(store.nodes, store.servers, PlacedNode(body, serverID), currentID, g);
    }
    r := StoreNodeAnswer(store, form, r, id, enable);
  }

  /** What an answer does to the ports, whenever they were apart before. */
  lemma PortsAfterAnswer(nodes: map<string, Node>, relays: map<string, RelayRoute>, before: map<string, Server>, after: map<string, Server>,
                         e: Environment, asked: bool, m: Merge, r: Result<Node>)
    requires Merges(before, after, e, asked, m)
    ensures NodePortsApart(nodes) && ServersKeyed(before) ==>
      (NodePortsApart(With(Gathered(nodes, m), r)) <==> PortsAllowed(nodes, before, e, asked, m, r))
    ensures ClearOfRelays(nodes, relays) ==>
      (ClearOfRelays(With(Gathered(nodes, m), r), relays) <==> ClearAllowed(nodes, relays, m, r))
  {
    if NodePortsApart(nodes) && ServersKeyed(before) {
      PortsStayApartExactly(nodes, before, after, e, asked, m, r);
    }
    if ClearOfRelays(nodes, relays) {
      NodesStayClearExactly(nodes, relays, m, r);
    }
  }

  /** POST: the stored node is always enabled, whatever the body said when its port was checked. */
  method CreateNode(store: Store, e: Environment, body: Node, newID: string, g: Generated)
    returns (r: Result<Node>, serverID: string, ghost m: Merge)
    requires Sound(store) && e.newServerID !in store.servers && e.newServerID != ""
    requires newID !in store.nodes && newID != ""
    modifies store`servers, store`nodes
    ensures Sound(store)
    ensures Resolved(old(store.servers), store.servers, e, TrimSpace(body.serverID), serverID, m)
    ensures StoredAs(NormalForm(Gathered(old(store.nodes), m), store.servers, PlacedNode(body, serverID), "", g), r, newID, true)
    ensures store.nodes == With(Gathered(old(store.nodes), m), r)
    ensures NodePortsApart(old(store.nodes)) && ServersKeyed(old(store.servers)) ==>
      (NodePortsApart(store.nodes) <==> PortsAllowed(old(store.nodes), old(store.servers), e, TrimSpace(body.serverID) == "", m, r))
    ensures ClearOfRelays(old(store.nodes), store.relays) ==>
      (ClearOfRelays(store.nodes, store.relays) <==> ClearAllowed(old(store.nodes), store.relays, m, r))
  {
    ghost var nodes, servers := store.nodes, store.servers;
    r, serverID, m := PutNode(store, e, body, newID, "", true, g);
    PortsAfterAnswer(nodes, store.relays, servers, store.servers, e, TrimSpace(body.serverID) == "", m, r);
  }

  /** The body a PUT normalizes: an omitted security keeps the stored one. */
  function Edited(body: Node, was: Node): Node {
    if TrimSpace(body.security) == "" then body.(security := was.security) else body
  }

  method UpdateNode(store: Store, e: Environment, id: string, body: Node, g: Generated)
    returns (r: Result<Node>, serverID: string, ghost m: Merge)
    requires Sound(store) && e.newServerID !in store.servers && e.newServerID != ""
    modifies store`servers, store`nodes
    ensures Sound(store)
    ensures id !in old(store.nodes) ==> r.Err? && m == NO_MERGE && store.nodes == old(store.nodes) && store.servers == old(store.servers)
    ensures id in old(store.nodes) ==> Resolved(old(store.servers), store.servers, e, TrimSpace(body.serverID), serverID, m)
    ensures id in old(store.nodes) ==>
      StoredAs(NormalForm(Gathered(old(store.nodes), m), store.servers, PlacedNode(Edited(body, old(store.nodes)[id]), serverID), id, g), r, id, false)
    ensures id in old(store.nodes) ==> store.nodes == With(Gathered(old(store.nodes), m), r)
    ensures id in old(store.nodes) && NodePortsApart(old(store.nodes)) && ServersKeyed(old(store.servers)) ==>
      (NodePortsApart(store.nodes) <==> PortsAllowed(old(store.nodes), old(store.servers), e, TrimSpace(body.serverID) == "", m, r))
    ensures id in old(store.nodes) && ClearOfRelays(old(store.nodes), store.relays) ==>
      (ClearOfRelays(store.nodes, store.relays) <==> ClearAllowed(old(store.nodes), store.relays, m, r))
  {
    if id !in store.nodes {
      return Err("not found"), "", NO_MERGE;
    }
    var edited := body;
    if TrimSpace(edited.security) == "" {
      edited := edited.(security := store.nodes[id].security);
    }
    ghost var nodes, servers := store.nodes, store.servers;
    r, serverID, m := PutNode(store, e, edited, id, id, false, g);
    PortsAfterAnswer(nodes, store.relays, servers, store.servers, e, TrimSpace(body.serverID) == "", m, r);
  }

  // ---- ports that meet -----------------------------------------------------------

  /** The body of a SOCKS5 inbound. */
  function SocksBody(serverID: string, port: int, enabled: bool): Node {
    Node("", serverID, "n", "socks", "", port, "", "", "", "", "", "", "", "", "", "", "u", "p", false, enabled)
  }

  lemma TrimmedSocksBody(serverID: string, port: int, enabled: bool)
    ensures TrimNode(SocksBody("", port, enabled)) == SocksBody("", port, enabled)
    ensures PlacedNode(SocksBody(serverID, port, enabled), serverID) == SocksBody(serverID, port, enabled)
  {
    TrimSpaceIsTrimmed("n");
    TrimSpaceIsTrimmed("socks");
    TrimSpaceIsTrimmed("u");
    TrimSpaceIsTrimmed("p");
    TrimSpaceIsTrimmed("");
    assert ToLower("socks") == "socks" && ToLower("") == "";
  }

  lemma SocksBodyIsAccepted(nodes: map<string, Node>, servers: map<string, Server>, serverID: string, port: int, enabled: bool, g: Generated)
    requires serverID in servers && serverID != "" && 1 <= port <= 65535
    requires enabled ==> !PortTaken(nodes, serverID, port, "")
    ensures var form := NormalForm(nodes, servers, PlacedNode(SocksBody(serverID, port, enabled), serverID), "", g);
      form.Some? && form.value.enabled == enabled && form.value.serverID == serverID && form.value.port == port
  {
    TrimmedSocksBody(serverID, port, enabled);
    var n := SocksBody(serverID, port, enabled);
    var d := Defaulted(n, servers[serverID], g);
    assert d.protocol == "socks" && d.security == "none" && d.socksUsername == "u" && d.socksPassword == "p";
    assert d.port == port && d.enabled == enabled && d.serverID == serverID;
    assert Admissible(nodes, d, "");
  }

  /**
   For every enabled node there is a body on its very port that POST accepts, because it is not yet
   enabled; storing it enabled makes the ports meet.
   */
  lemma CreateMayShareAPort(nodes: map<string, Node>, servers: map<string, Server>, id: string, newID: string, g: Generated)
    requires id in nodes && nodes[id].enabled && 1 <= nodes[id].port <= 65535 && newID !in nodes
    requires nodes[id].serverID in servers && nodes[id].serverID != ""
    ensures var body := SocksBody(nodes[id].serverID, nodes[id].port, false);
      var form := NormalForm(nodes, servers, PlacedNode(body, nodes[id].serverID), "", g);
      form.Some? && !NodePortsApart(nodes[newID := form.value.(id := newID, enabled := true)])
  {
    SocksBodyIsAccepted(nodes, servers, nodes[id].serverID, nodes[id].port, false, g);
    var n := PlacedNode(SocksBody(nodes[id].serverID, nodes[id].port, false), nodes[id].serverID);
    var next := nodes[newID := NormalForm(nodes, servers, n, "", g).value.(id := newID, enabled := true)];
    assert NodesClash(next[id], next[newID]);
  }

  /** Nor is a node compared with relays: for every enabled relay there is an enabled body on its port that is accepted. */
  lemma NodeMayTakeARelayPort(nodes: map<string, Node>, relays: map<string, RelayRoute>, servers: map<string, Server>, id: string, newID: string, g: Generated)
    requires id in relays && relays[id].enabled && 1 <= relays[id].relayPort <= 65535
    requires relays[id].relayServerID in servers && relays[id].relayServerID != ""
    requires !PortTaken(nodes, relays[id].relayServerID, relays[id].relayPort, "")
    ensures var body := SocksBody(relays[id].relayServerID, relays[id].relayPort, true);
      var form := NormalForm(nodes, servers, PlacedNode(body, relays[id].relayServerID), "", g);
      form.Some? && !ClearOfRelays(nodes[newID := form.value.(id := newID, enabled := true)], relays)
  {
    var r := relays[id];
    SocksBodyIsAccepted(nodes, servers, r.relayServerID, r.relayPort, true, g);
    var n := PlacedNode(SocksBody(r.relayServerID, r.relayPort, true), r.relayServerID);
    var next := nodes[newID := NormalForm(nodes, servers, n, "", g).value.(id := newID, enabled := true)];
    assert MeetsRelay(next[newID], relays[id]);
  }

  // ---- deletion -----------------------------------------------------------------

  function Without(ids: seq<string>, id: string): (r: seq<string>)
    ensures forall x | x in r :: x in ids && x != id
    ensures forall x | x in ids && x != id :: x in r
    ensures |r| <= |ids|
    ensures id !in ids ==> r == ids
  {
    if ids == [] then []
    else Without(ids[..|ids| - 1], id) + if ids[|ids| - 1] == id then [] else [ids[|ids| - 1]]
  }

  lemma {:induction false} WithoutShrinks(ids: seq<string>, id: string)
    ensures |Without(ids, id)| < |ids| <==> id in ids
  {
    if ids != [] {
      var init, last := ids[..|ids| - 1], ids[|ids| - 1];
      WithoutShrinks(init, id);
      assert ids == init + [last];
    }
  }

  lemma {:induction false} WithoutKeepsDistinct(ids: seq<string>, id: string)
    requires NoDuplicates(ids)
    ensures NoDuplicates(Without(ids, id))
  {
    if ids != [] {
      var init, last := ids[..|ids| - 1], ids[|ids| - 1];
      WithoutKeepsDistinct(init, id);
      if last != id {
        var rest := Without(init, id);
        assert last !in rest;
        assert Without(ids, id) == rest + [last];
      }
    }
  }

  lemma WithoutLast(init: seq<string>, last: string, id: string)
    ensures Without(init + [last], id) == Without(init, id) + if last == id then [] else [last]
  {
    assert (init + [last])[..|init|] == init;
  }

  /** Taking one binding away leaves the others in their order. */
  lemma {:induction false} WithoutDrops(before: seq<string>, id: string, after: seq<string>)
    requires id !in before && id !in after
    ensures Without(before + [id] + after, id) == before + after
  {
    var all := before + [id] + after;
    if after == [] {
      WithoutLast(before, id, id);
      assert all == before + [id] && before + after == before;
    } else {
      var init, last := after[..|after| - 1], after[|after| - 1];
      assert after == init + [last];
      WithoutDrops(before, id, init);
      assert all == before + [id] + init + [last];
      WithoutLast(before + [id] + init, last, id);
      assert before + init + [last] == before + after;
    }
  }

  predicate HasGrant(c: Client) { c.nodeIDs != [] || c.relayIDs != [] }

  function UnboundNode(c: Client, id: string): Client {
    var next := Without(c.nodeIDs, id);
    c.(nodeIDs := next, acct := c.acct.(enabled := c.acct.enabled && !(|next| != |c.nodeIDs| && next == [] && c.relayIDs == [])))
  }

  /** Deleting a node disables a client exactly when it takes the client's last grant. */
  lemma NodeDeleteDisablesExactly(c: Client, id: string)
    ensures UnboundNode(c, id).acct.enabled <==> c.acct.enabled && !(HasGrant(c) && !HasGrant(UnboundNode(c, id)))
    ensures id !in UnboundNode(c, id).nodeIDs && (id !in c.nodeIDs ==> UnboundNode(c, id) == c)
  {
  }

  method UnbindClient(c: Client, id: string) returns (u: Client)
    ensures u == UnboundNode(c, id)
  {
    u := c;
    var next := Without(c.nodeIDs, id);
    if |next| != |c.nodeIDs| && |next| == 0 && |c.relayIDs| == 0 {
      u := u.(acct := u.acct.(enabled := false));
    }
    u := u.(nodeIDs := next);
  }

  function UnboundNodes(clients: map<string, Client>, id: string): map<string, Client> {
    map cid | cid in clients :: UnboundNode(clients[cid], id)
  }

  /** The cascade loop over the clients, in any order. */
  method UnbindNode(store: Store, id: string)
    modifies store`clients
    ensures store.clients == UnboundNodes(old(store.clients), id)
  {
    var todo := store.clients.Keys;
    ghost var before, target := store.clients, UnboundNodes(store.clients, id);
    while todo != {}
      invariant todo <= before.Keys && store.clients.Keys == before.Keys
      invariant forall cid | cid in before :: store.clients[cid] == if cid in todo then before[cid] else target[cid]
      decreases todo
    {
      var cid :| cid in todo;
      var c := UnbindClient(store.clients[cid], id);
      store.clients := store.clients[cid := c];
      todo := todo - {cid};
    }
  }

  method DeleteNode(store: Store, id: string) returns (found: bool)
    requires Sound(store)
    modifies store`nodes, store`clients
    ensures Sound(store)
    ensures found <==> id in old(store.nodes)
    ensures !found ==> store.nodes == old(store.nodes) && store.clients == old(store.clients)
    ensures found ==> store.nodes == old(store.nodes) - {id}
    ensures found ==> store.clients == UnboundNodes(old(store.clients), id)
  {
    if id !in store.nodes {
      return false;
    }
    store.nodes := store.nodes - {id};
    UnbindNode(store, id);
    forall cid | cid in store.clients ensures BoundTo(store.clients[cid], store.nodes.Keys, store.relays.Keys) {
      WithoutKeepsDistinct(old(store.clients)[cid].nodeIDs, id);
    }
    return true;
  }
}

module ServerOps {
  import opened Text
  import opened Model
  import opened Integrity

  method CreateServer(store: Store, body: Server, newID: string, newToken: string, now: Time) returns (s: Server)
    requires Sound(store) && newID !in store.servers && newID != ""
    modifies store`servers
    ensures Sound(store)
    ensures s == body.(id := newID, createdAt := now, updatedAt := now, status := if body.status == "" then "offline" else body.status,
      agentToken := if body.agentToken == "" then newToken else body.agentToken)
    ensures store.servers == old(store.servers)[newID := s]
  {
    s := body.(id := newID);
    if s.status == "" {
      s := s.(status := "offline");
    }
    if s.agentToken == "" {
      s := s.(agentToken := newToken);
    }
    s := s.(createdAt := now, updatedAt := now);
    store.servers := store.servers[newID := s];
  }

  method UpdateServer(store: Store, id: string, body: Server, now: Time) returns (found: bool)
    requires Sound(store)
    modifies store`servers
    ensures Sound(store)
    ensures found <==> id != "" && id in old(store.servers)
    ensures !found ==> store.servers == old(store.servers)
    ensures found ==> var was := old(store.servers)[id];
      store.servers == old(store.servers)[id := body.(id := id, createdAt := was.createdAt, updatedAt := now,
        agentToken := if body.agentToken == "" then was.agentToken else body.agentToken)]
  {
    if id == "" || id !in store.servers {
      return false;
    }
    var s := body.(id := id, createdAt := store.servers[id].createdAt, updatedAt := now);
    if s.agentToken == "" {
      s := s.(agentToken := store.servers[id].agentToken);
    }
    store.servers := store.servers[id := s];
    return true;
  }

  /** A server goes only when it is not the last one and carries no node, so no node loses its server. */
  method DeleteServer(store: Store, id: string) returns (ok: bool)
    requires Sound(store)
    modifies store`servers
    ensures Sound(store)
    ensures ok <==> id != "" && id in old(store.servers) && |old(store.servers)| > 1 && forall n | n in store.nodes :: store.nodes[n].serverID != id
    ensures store.servers == if ok then old(store.servers) - {id} else old(store.servers)
    ensures old(store.servers) != map[] ==> store.servers != map[]
  {
    if id == "" || id !in store.servers || |store.servers| <= 1 {
      return false;
    }
    var todo := store.nodes.Keys;
    while todo != {}
      invariant todo <= store.nodes.Keys
      invariant forall n | n in store.nodes.Keys - todo :: store.nodes[n].serverID != id
      decreases todo
    {
      var n :| n in todo;
      todo := todo - {n};
      if store.nodes[n].serverID == id {
        return false;
      }
    }
    assert |store.servers.Keys - {id}| > 0;
    store.servers := store.servers - {id};
    return true;
  }
}
