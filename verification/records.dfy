// What requests leave in the data file, record by record: what each of them decides, what it cannot
// touch, and what the next request finds.

module Records {
  import opened Wrappers
  import opened Text
  import opened Model
  import opened Integrity
  import opened LocalServers
  import opened Billing
  import opened ExitOps
  import H = Heartbeats

  // ---- accounts ---------------------------------------------------------------------

  /** A sample that counts changes the balance and one cursor; gigabytes are the bytes, rounded down. */
  lemma SampleTouches(l: Ledger, source: string, sample: ClientTraffic, epoch: string, at: Time)
    ensures var after := ApplySample(l, source, sample, epoch, at);
      && after.acct.(usedBytes := l.acct.usedBytes, usedGB := l.acct.usedGB) == l.acct
      && (forall s | s != source :: s in after.cursors <==> s in l.cursors)
      && (forall s | s in l.cursors && s != source :: after.cursors[s] == l.cursors[s])
      && (after != l ==> after.acct.usedGB * 1_073_741_824 <= after.acct.usedBytes < (after.acct.usedGB + 1) * 1_073_741_824)
  {
  }

  /** Enforcement decides the state, and the time of the last change when it switches off; it turns legacy gigabytes into bytes. */
  lemma EnforcementTouches(a: Account, now: Time)
    ensures var e := Enforced(a, now);
      && e.(enabled := a.enabled, updatedAt := a.updatedAt, usedBytes := a.usedBytes) == a
      && e.updatedAt == (if a.enabled && !e.enabled then now else a.updatedAt)
      && e.usedBytes == (if a.usedBytes == 0 && 0 < a.usedGB <= 0x1_FFFF_FFFF then a.usedGB * 1_073_741_824 else a.usedBytes)
  {
  }

  /** Limit and expiry are the body's; days left out are those of the old record, or 30. */
  lemma EditSays(body: Account, was: Account, now: Time)
    ensures var r := Renewed(body, was, now);
      && r.limitGB == body.limitGB && r.expireAt == body.expireAt && r.updatedAt == body.updatedAt
      && r.cycleDays == (if body.cycleDays != 0 then body.cycleDays else if was.cycleDays != 0 then was.cycleDays else 30)
      && (was.expireAt == 0 || body.expireAt <= was.expireAt ==>
            r.enabled == body.enabled && r.usedGB == was.usedGB && r.resetAt == was.resetAt && r.cycleStart == was.cycleStart &&
            r.usedBytes == Enforced(was, now).usedBytes)
  {
  }

  /** A renewed account is on, at zero, and in a cycle of its days that ends at the new expiry; earlier samples stay out of it. */
  lemma RenewalSays(body: Account, was: Account, now: Time)
    requires was.expireAt != 0 && body.expireAt > was.expireAt
    ensures var r := Renewed(body, was, now);
      && r.enabled && r.usedBytes == 0 && r.usedGB == 0 && r.resetAt == now
      && r.cycleStart + r.cycleDays * 86_400_000_000_000 == r.expireAt
  {
  }

  /** An edit sent twice renews once: the second one only takes the state from the body. */
  lemma EditTwiceRenewsOnce(body: Account, was: Account, first: Time, second: Time)
    ensures var once := Renewed(body, was, first);
      Renewed(body, once, second) == once.(enabled := body.enabled)
  {
  }

  // ---- heartbeats -------------------------------------------------------------------

  /** A heartbeat brings the server online with what it reports; who and where the server is stays. */
  lemma ReportSays(s: Server, hb: AgentHeartbeat, now: Time)
    ensures var r := H.Reported(s, hb, now);
      && r.status == "online" && r.agentVersion == hb.agentVersion && r.xrayVersion == hb.xrayVersion
      && r.configHash == hb.configHash && r.lastSyncMessage == hb.lastMessage
      && r.uploadTotal == hb.uploadTotal && r.downloadTotal == hb.downloadTotal && r.updatedAt == now
      && r.id == s.id && r.name == s.name && r.ip == s.ip && r.host == s.host && r.region == s.region && r.provider == s.provider
      && r.agentToken == s.agentToken && r.lastSyncAt == s.lastSyncAt && r.createdAt == s.createdAt
      && r.cpuCores == (if hb.cpuCores <= 0 then s.cpuCores else hb.cpuCores)
      && r.memTotalBytes == (if hb.memTotalBytes <= 0 then s.memTotalBytes else hb.memTotalBytes)
  {
  }

  /** The last report wins, except that a capacity it leaves out is the last one reported. */
  lemma LastReportWins(s: Server, a: AgentHeartbeat, b: AgentHeartbeat, first: Time, second: Time)
    ensures var r := H.Reported(H.Reported(s, a, first), b, second);
      && r == H.Reported(s, b, second).(cpuCores := r.cpuCores, memTotalBytes := r.memTotalBytes)
      && r.cpuCores == (if b.cpuCores > 0 then b.cpuCores else H.Reported(s, a, first).cpuCores)
      && r.memTotalBytes == (if b.memTotalBytes > 0 then b.memTotalBytes else H.Reported(s, a, first).memTotalBytes)
  {
  }

  /** The server of a heartbeat is the stored one, or else a blank record. */
  lemma LookupSays(servers: map<string, Server>, id: string)
    ensures id in servers ==> H.Lookup(servers, id) == servers[id]
    ensures id !in servers ==> var s := H.Lookup(servers, id);
      s.id == "" && s.agentToken == "" && s.cpuCores == 0 && s.memTotalBytes == 0 && s.createdAt == 0
  {
  }

  // ---- the local server ---------------------------------------------------------------

  predicate Loopback(v: string) { v in {"127.0.0.1", "localhost", "::1", "0.0.0.0"} }

  /** The local ones: a sole server, one with an address of the environment, or with a loopback one where that has a public one. */
  lemma LocalExactly(servers: map<string, Server>, e: Environment, id: string)
    ensures id in Locals(servers, e) <==>
      id in servers && var s := servers[id];
      || |servers| == 1
      || {s.ip, s.host} * {e.localIP, e.localHost} - {""} != {}
      || (Loopback(s.ip) && !Loopback(e.localIP)) || (Loopback(s.host) && !Loopback(e.localHost))
  {
    if id in servers {
      var s, common := servers[id], {servers[id].ip, servers[id].host} * {e.localIP, e.localHost} - {""};
      assert common != {} <==> s.ip in common || s.host in common;
    }
  }

  /** A refreshed server lacks nothing the environment has, and shows no loopback address where that has a public one. */
  lemma RefreshSays(s: Server, e: Environment)
    ensures var r := Refreshed(s, e);
      && (r.name == "" ==> e.localName == "") && (r.ip == "" ==> e.localIP == "") && (r.host == "" ==> e.localHost == "")
      && (r.region == "" ==> e.region == "") && (r.provider == "" ==> e.provider == "") && (r.agentToken == "" ==> e.newToken == "")
      && (Loopback(r.ip) && e.localIP != "" ==> Loopback(e.localIP)) && (Loopback(r.host) && e.localHost != "" ==> Loopback(e.localHost))
  {
  }

  /** What it has and need not give up it keeps, and everything else about it. */
  lemma RefreshKeeps(s: Server, e: Environment)
    ensures var r := Refreshed(s, e);
      && r.(name := s.name, ip := s.ip, host := s.host, region := s.region, provider := s.provider, agentToken := s.agentToken, updatedAt := s.updatedAt) == s
      && (r.name == s.name || (r.name == e.localName && s.name in {"", s.ip, s.host}))
      && (r.ip == s.ip || (r.ip == e.localIP && (s.ip == "" || (Loopback(s.ip) && !Loopback(e.localIP)))))
      && (r.host == s.host || (r.host == e.localHost && (s.host == "" || (Loopback(s.host) && !Loopback(e.localHost)))))
      && (s.region != "" ==> r.region == s.region) && (s.provider != "" ==> r.provider == s.provider)
      && (s.agentToken != "" ==> r.agentToken == s.agentToken) && (s.updatedAt != 0 ==> r.updatedAt == s.updatedAt)
      && (s.name !in {"", s.ip, s.host} ==> r.name == s.name)
      && (s.region == "" ==> r.region == e.region) && (s.provider == "" ==> r.provider == e.provider)
      && (s.agentToken == "" ==> r.agentToken == e.newToken) && (s.updatedAt == 0 ==> r.updatedAt == e.now)
  {
  }

  /** A seeded server is the environment's, new and offline. */
  lemma SeedSays(e: Environment)
    ensures var s := Seed(e);
      && s.id == e.newServerID && s.name == e.localName && s.ip == e.localIP && s.host == e.localHost && s.region == e.region
      && s.provider == e.provider && s.status == "offline" && s.agentToken == e.newToken && s.createdAt == e.now && s.updatedAt == e.now
      && s.lastSyncAt == 0 && s.uploadTotal == 0 && s.downloadTotal == 0 && s.agentVersion == "" && s.configHash == ""
  {
  }

  /** Two environments with the same addresses. */
  predicate SameAddresses(a: Environment, b: Environment) { a.localIP == b.localIP && a.localHost == b.localHost }

  lemma RefreshedIsLocal(s: Server, e: Environment, later: Environment)
    requires SameAddresses(e, later) && SameEndpoint(s, e)
    ensures SameEndpoint(Refreshed(s, e), later)
  {
  }

  /**
   Merging settles: afterwards exactly one server is local, the kept or the seeded one, so that the
   next request, whatever its order of the map, merges nothing more away.
   */
  lemma MergingSettles(servers: map<string, Server>, e: Environment, m: Merge, later: Environment)
    requires ServersKeyed(servers) && MergesLocals(servers, e, m) && e.newServerID !in servers
    requires e.localIP != "" && SameAddresses(e, later)
    ensures Locals(AfterMerge(servers, e, m), later) == {if Locals(servers, e) == {} then e.newServerID else m.keep}
  {
    var after := AfterMerge(servers, e, m);
    if Locals(servers, e) == {} {
      SeededAlone(servers, e, later);
    } else {
      KeptAlone(servers, e, m, later);
    }
  }

  lemma SeededAlone(servers: map<string, Server>, e: Environment, later: Environment)
    requires Locals(servers, e) == {} && e.newServerID !in servers && e.localIP != "" && SameAddresses(e, later)
    ensures Locals(servers[e.newServerID := Seed(e)], later) == {e.newServerID}
  {
    var after := servers[e.newServerID := Seed(e)];
    assert after.Keys == servers.Keys + {e.newServerID} && |after| == |servers| + 1;
    assert SameEndpoint(Seed(e), later);
    forall id | id in servers ensures id !in Locals(after, later) {
      assert id !in Locals(servers, e);
      assert |servers.Keys - {id}| == |servers| - 1;
    }
  }

  lemma KeptAlone(servers: map<string, Server>, e: Environment, m: Merge, later: Environment)
    requires ServersKeyed(servers) && MergesLocals(servers, e, m) && Locals(servers, e) != {} && SameAddresses(e, later)
    ensures Locals(AfterMerge(servers, e, m), later) == {m.keep}
  {
    var after := AfterMerge(servers, e, m);
    assert m.keep in after && after[m.keep] == Refreshed(servers[m.keep], e);
    if SameEndpoint(servers[m.keep], e) {
      RefreshedIsLocal(servers[m.keep], e, later);
    } else {
      OneLeft(servers, after, m.keep);
    }
    forall id | id in after && id != m.keep ensures id !in Locals(after, later) {
      assert id !in Locals(servers, e) && after[id] == servers[id];
      TwoLeft(after, id, m.keep);
    }
  }

  lemma OneLeft(servers: map<string, Server>, after: map<string, Server>, keep: string)
    requires |servers| == 1 && keep in after && after.Keys <= servers.Keys
    ensures |after| == 1
  {
    assert |servers.Keys - {keep}| == 0;
    assert after.Keys == {keep};
  }

  lemma TwoLeft(after: map<string, Server>, a: string, b: string)
    requires a in after && b in after && a != b
    ensures |after| != 1
  {
    assert |after.Keys - {a}| == |after| - 1 && b in after.Keys - {a};
  }

  /** The candidate that runs the panel's version, is online and was heard of last is the one that is kept. */
  lemma BestIsPreferred(servers: map<string, Server>, e: Environment, w: string)
    requires w in Locals(servers, e)
    requires forall x | x in Locals(servers, e) && x != w ::
      && (servers[x].agentVersion == e.version ==> servers[w].agentVersion == e.version)
      && (servers[x].status == "online" ==> servers[w].status == "online")
      && 0 <= servers[x].lastSyncAt < servers[w].lastSyncAt
    ensures Preferred(servers, e, w)
  {
  }

  /** Among equals that were never heard of it is the one created last. */
  lemma YoungestIsPreferred(servers: map<string, Server>, e: Environment, w: string)
    requires w in Locals(servers, e)
    requires forall x | x in Locals(servers, e) ::
      && servers[x].agentVersion == servers[w].agentVersion && servers[x].status == servers[w].status && servers[x].lastSyncAt == 0
      && (x != w ==> servers[x].createdAt < servers[w].createdAt)
    ensures Preferred(servers, e, w)
  {
  }

  /** The panel's version comes before anything else, as long as nothing speaks for the other one. */
  lemma VersionDecides(a: Server, b: Server, version: string)
    requires a.agentVersion == version != b.agentVersion && a.status == b.status && a.lastSyncAt == b.lastSyncAt != 0
    ensures Prefers(a, b, version) && !Prefers(b, a, version)
    ensures a.status == "online" ==> Prefers(a, b.(agentVersion := version, status := "offline"), version)
  {
  }

  /** The default is the one server that is online and was heard of last. */
  lemma OnlineIsLiveliest(servers: map<string, Server>, w: string)
    requires w in servers && servers[w].status == "online"
    requires forall x | x in servers && x != w ::
      servers[x].lastSyncAt <= servers[w].lastSyncAt && (servers[x].status == "online" ==> servers[x].lastSyncAt < servers[w].lastSyncAt)
    ensures Liveliest(servers, w)
  {
  }

  lemma LastHeardIsLiveliest(servers: map<string, Server>, w: string)
    requires w in servers && forall x | x in servers && x != w :: servers[x].status != "online" && servers[x].lastSyncAt < servers[w].lastSyncAt
    ensures Liveliest(servers, w)
  {
  }

  // ---- landing exits ------------------------------------------------------------------

  /** A blank field gives way to the other value, any other one loses the blanks around it. */
  function Asked(field: string, fallback: string): string { if TrimSpace(field) == "" then fallback else TrimSpace(field) }

  /** Nothing but the blanks around its texts is changed, and an exit without a name gets its address for one. */
  lemma ExitSays(x: LandingExit)
    requires ExitForm(x).Some?
    ensures ExitForm(x) == Some(LandingExit(x.id, Asked(x.name, TrimSpace(x.host) + ":" + Itoa(x.port)), TrimSpace(x.host), x.port,
                                            TrimSpace(x.username), TrimSpace(x.password), x.enabled))
  {
  }

  /** Saving the answer again changes nothing. */
  lemma ExitIsStable(x: LandingExit)
    requires ExitForm(x).Some?
    ensures ExitForm(ExitForm(x).value) == ExitForm(x)
  {
    var f := ExitForm(x).value;
    TrimSpaceIsTrimmed(x.host);
    TrimSpaceIsTrimmed(x.username);
    TrimSpaceIsTrimmed(x.password);
    TrimSpaceIsTrimmed(x.name);
    ItoaEnds(x.port);
    TrimSpaceIsTrimmed(f.name);
    TrimSpaceIsTrimmed(f.host);
    TrimSpaceIsTrimmed(f.username);
    TrimSpaceIsTrimmed(f.password);
  }

  lemma ItoaEnds(n: nat)
    ensures !IsSpace(Itoa(n)[|Itoa(n)| - 1])
  {
    assert Itoa(n)[|Itoa(n)| - 1] in Itoa(n);
  }
}
