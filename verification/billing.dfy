// Traffic accounting and billing enforcement (backend/internal/api/traffic.go).

module Billing {
  import opened Wrappers
  import opened Text
  import opened Model

  const GIB := 0x4000_0000
  const MAX_GB := 0x1_FFFF_FFFF // math.MaxInt64 >> 30
  const DAY := 86_400_000_000_000

  // ---- specification --------------------------------------------------------

  function AddTraffic(a: int64, b: int64): int64 {
    if b > Wrap64(MAX_INT64 - a) then MAX_INT64 else Wrap64(a + b)
  }

  function Min(a: int, b: int): int { if a < b then a else b }

  /** addTraffic saturates exactly when its first operand is not negative. */
  lemma AddTrafficSaturates(a: int64, b: int64)
    ensures AddTraffic(a, b) == Min(MAX_INT64, a + b) <==> a >= 0
  {
  }

  /** Bytes already used, counting a legacy record that only holds gigabytes. */
  function Effective(a: Account): int64 {
    if a.usedBytes == 0 && 0 < a.usedGB <= MAX_GB then a.usedGB * GIB else a.usedBytes
  }

  function Migrated(a: Account): Account {
    a.(usedBytes := Effective(a))
  }

  /** What the ledger of one client is: its account and its cursor per source server. */
  datatype Ledger = Ledger(acct: Account, cursors: map<string, TrafficCursor>)

  ghost function View(c: Client): Ledger
    reads c.cursors
  {
    Ledger(c.acct, if c.cursors == null then map[] else c.cursors.entries)
  }

  /** Everything about a client that accounting must leave alone. */
  predicate SameIdentity(c: Client, d: Client) {
    c.(acct := d.acct, cursors := d.cursors) == d
  }

  predicate Accepts(l: Ledger, source: string, sample: ClientTraffic, epoch: string, at: Time) {
    && epoch != "" && !IsZero(at) && sample.uplink >= 0 && sample.downlink >= 0
    && (source in l.cursors ==> at > l.cursors[source].sampleAt)
    && (!IsZero(l.acct.resetAt) ==> at > l.acct.resetAt)
  }

  function Advance(previous: int64, current: int64): int64 {
    if current >= previous then Wrap64(current - previous) else current
  }

  /** Uplink and downlink bytes one accepted sample adds. */
  function Charge(l: Ledger, source: string, sample: ClientTraffic, epoch: string): (int64, int64) {
    if source !in l.cursors then
      if IsZero(l.acct.resetAt) then (sample.uplink, sample.downlink) else (0, 0)
    else
      var was := l.cursors[source];
      if was.epoch == epoch
      then (Advance(was.uplink, sample.uplink), Advance(was.downlink, sample.downlink))
      else (sample.uplink, sample.downlink)
  }

  function ApplySample(l: Ledger, source: string, sample: ClientTraffic, epoch: string, at: Time): Ledger {
    if !Accepts(l, source, sample, epoch, at) then l
    else
      var (u, d) := Charge(l, source, sample, epoch);
      var used := AddTraffic(Effective(l.acct), AddTraffic(u, d));
      Ledger(l.acct.(usedBytes := used, usedGB := used / GIB),
             l.cursors[source := TrafficCursor(epoch, sample.uplink, sample.downlink, at)])
  }

  predicate Expired(a: Account, now: Time) {
    !IsZero(a.expireAt) && now >= a.expireAt
  }

  predicate Limited(a: Account) {
    0 < a.limitGB <= MAX_GB && a.usedBytes >= a.limitGB * GIB
  }

  function Enforced(a: Account, now: Time): Account {
    var m := Migrated(a);
    if m.enabled && (Expired(m, now) || Limited(m)) then m.(enabled := false, updatedAt := now) else m
  }

  /** The account a validated update leaves behind; extending an expiry renews it. */
  function Renewed(body: Account, was: Account, now: Time): Account {
    var days := if body.cycleDays != 0 then body.cycleDays
                else if was.cycleDays != 0 then was.cycleDays else 30;
    var kept := body.(usedBytes := Effective(was), usedGB := was.usedGB, resetAt := was.resetAt,
                      cycleStart := was.cycleStart, cycleDays := days);
    if IsRenewal(body, was)
    then kept.(usedBytes := 0, usedGB := 0, cycleStart := body.expireAt - days * DAY, resetAt := now, enabled := true)
    else kept
  }

  predicate IsRenewal(body: Account, was: Account) {
    !IsZero(was.expireAt) && body.expireAt > was.expireAt
  }

  /** The ledger of a client after the accounting loop, before enforcement. */
  function Counted(l: Ledger, allowed: bool, hb: AgentHeartbeat, id: string): Ledger {
    if allowed && id in hb.traffic
    then ApplySample(l, hb.serverID, hb.traffic[id], hb.epoch, hb.sampleAt) else l
  }

  predicate IsCounted(before: Ledger, after: Ledger, allowed: bool, hb: AgentHeartbeat, id: string) {
    after == Counted(before, allowed, hb, id)
  }

  /** The same ledger once billing is enforced at the given instant. */
  function Settled(l: Ledger, now: Time): Ledger {
    l.(acct := Enforced(l.acct, now))
  }

  /** What one heartbeat does to one client's ledger. */
  function Beat(l: Ledger, allowed: bool, hb: AgentHeartbeat, id: string, now: Time): Ledger {
    Settled(Counted(l, allowed, hb, id), now)
  }

  predicate SourceAllowed(nodes: map<string, Node>, relays: map<string, RelayRoute>, c: Client, serverID: string) {
    (exists id | id in c.nodeIDs :: id in nodes && nodes[id].serverID == serverID) ||
    (exists id | id in c.relayIDs :: id in relays && relays[id].relayServerID == serverID)
  }

  // ---- the code -------------------------------------------------------------

  /** An addressable struct variable: what a *model.Client points to. */
  class ClientVar {
    var rec: Client

    constructor (c: Client)
      ensures rec == c
    {
      rec := c;
    }
  }

  method MigrateTraffic(c: ClientVar)
    modifies c
    ensures c.rec == old(c.rec).(acct := Migrated(old(c.rec.acct)))
  {
    if c.rec.acct.usedBytes == 0 && c.rec.acct.usedGB > 0 && c.rec.acct.usedGB <= MAX_GB {
      c.rec := c.rec.(acct := c.rec.acct.(usedBytes := c.rec.acct.usedGB * GIB));
    }
  }

  /** Entry-by-entry copy into a new map; a nil map has no entries. */
  method CopyCursors(from: CursorMap?) returns (copy: CursorMap)
    ensures fresh(copy)
    ensures copy.entries == if from == null then map[] else from.entries
  {
    copy := new CursorMap();
    if from != null {
      var todo := from.entries.Keys;
      while todo != {}
        invariant todo <= from.entries.Keys
        invariant copy.entries.Keys == from.entries.Keys - todo
        invariant forall id | id in copy.entries :: copy.entries[id] == from.entries[id]
        decreases todo
      {
        var id :| id in todo;
        copy.entries := copy.entries[id := from.entries[id]];
        todo := todo - {id};
      }
    }
  }

  /** The part of applyTrafficSample that turns counters into bytes to charge. */
  method SampleCharge(c: Client, source: string, sample: ClientTraffic, epoch: string) returns (u: int64, d: int64)
    ensures (u, d) == Charge(View(c), source, sample, epoch)
  {
    var known := c.cursors != null && source in c.cursors.entries;
    u, d := sample.uplink, sample.downlink;
    if known && c.cursors.entries[source].epoch == epoch {
      var was := c.cursors.entries[source];
      if u >= was.uplink {
        u := Wrap64(u - was.uplink);
      }
      if d >= was.downlink {
        d := Wrap64(d - was.downlink);
      }
    }
    if !known && !IsZero(c.acct.resetAt) {
      u, d := 0, 0;
    }
  }

  method ApplyTrafficSample(c: ClientVar, source: string, sample: ClientTraffic, epoch: string, at: Time)
    modifies c
    ensures View(c.rec) == ApplySample(old(View(c.rec)), source, sample, epoch, at)
    ensures SameIdentity(old(c.rec), c.rec)
    ensures c.rec.cursors == old(c.rec.cursors) || fresh(c.rec.cursors)
  {
    if epoch == "" || IsZero(at) || sample.uplink < 0 || sample.downlink < 0 {
      return;
    }
    if c.rec.cursors != null && source in c.rec.cursors.entries && !(at > c.rec.cursors.entries[source].sampleAt) {
      return;
    }
    if !IsZero(c.rec.acct.resetAt) && !(at > c.rec.acct.resetAt) {
      return;
    }
    MigrateTraffic(c);
    var u, d := SampleCharge(c.rec, source, sample, epoch);
    var used := AddTraffic(c.rec.acct.usedBytes, AddTraffic(u, d));
    var copyCursors := CopyCursors(c.rec.cursors);
    copyCursors.entries := copyCursors.entries[source := TrafficCursor(epoch, sample.uplink, sample.downlink, at)];
    c.rec := c.rec.(acct := c.rec.acct.(usedBytes := used, usedGB := used / GIB), cursors := copyCursors);
  }

  method TrafficSourceAllowed(store: Store, c: Client, serverID: string) returns (ok: bool)
    ensures ok == SourceAllowed(store.nodes, store.relays, c, serverID)
  {
    for i := 0 to |c.nodeIDs|
      invariant forall j | 0 <= j < i :: !(c.nodeIDs[j] in store.nodes && store.nodes[c.nodeIDs[j]].serverID == serverID)
    {
      if c.nodeIDs[i] in store.nodes && store.nodes[c.nodeIDs[i]].serverID == serverID {
        return true;
      }
    }
    for i := 0 to |c.relayIDs|
      invariant forall j | 0 <= j < i :: !(c.relayIDs[j] in store.relays && store.relays[c.relayIDs[j]].relayServerID == serverID)
    {
      if c.relayIDs[i] in store.relays && store.relays[c.relayIDs[i]].relayServerID == serverID {
        return true;
      }
    }
    return false;
  }

  /** One turn of the enforcement loop. */
  method EnforceClient(c: ClientVar, now: Time) returns (hit: bool)
    modifies c
    ensures c.rec == EnforcedClient(old(c.rec), now)
    ensures hit <==> old(c.rec.acct.enabled) && !c.rec.acct.enabled
  {
    MigrateTraffic(c);
    var a := c.rec.acct;
    var expired := !IsZero(a.expireAt) && !(now < a.expireAt);
    var limited := a.limitGB > 0 && a.limitGB <= MAX_GB && a.usedBytes >= a.limitGB * GIB;
    hit := a.enabled && (expired || limited);
    if hit {
      c.rec := c.rec.(acct := a.(enabled := false, updatedAt := now));
    }
  }

  function EnforcedClient(c: Client, now: Time): Client {
    c.(acct := Enforced(c.acct, now))
  }

  function EnforcedClients(clients: map<string, Client>, now: Time): map<string, Client> {
    map id | id in clients :: EnforcedClient(clients[id], now)
  }

  predicate SwitchedBy(c: Client, now: Time) { c.acct.enabled != EnforcedClient(c, now).acct.enabled }

  /** One turn of the enforcement loop: copy the record out, change it, write it back. */
  method EnforceEntry(store: Store, id: string, now: Time) returns (hit: bool)
    requires id in store.clients
    modifies store`clients
    ensures store.clients == old(store.clients)[id := EnforcedClient(old(store.clients)[id], now)]
    ensures hit <==> SwitchedBy(old(store.clients)[id], now)
  {
    var c := new ClientVar(store.clients[id]);
    hit := EnforceClient(c, now);
    store.clients := store.clients[id := c.rec];
  }

  /** Every client is enforced whatever order the map is visited in. */
  method EnforceBillingLocked(store: Store, now: Time) returns (changed: bool)
    modifies store`clients
    ensures store.clients == EnforcedClients(old(store.clients), now)
    ensures changed <==> exists id | id in old(store.clients) :: SwitchedBy(old(store.clients)[id], now)
  {
    changed := false;
    var todo := store.clients.Keys;
    ghost var before, target := store.clients, EnforcedClients(store.clients, now);
    ghost var hit: string := "";
    while todo != {}
      invariant todo <= before.Keys
      invariant store.clients == map id | id in before :: if id in todo then before[id] else target[id]
      invariant changed ==> hit in before && SwitchedBy(before[hit], now)
      invariant !changed ==> forall id | id in before && id !in todo :: !SwitchedBy(before[id], now)
      decreases todo
    {
      var id :| id in todo;
      var disabled := EnforceEntry(store, id, now);
      if disabled {
        changed, hit := true, id;
      }
      todo := todo - {id};
    }
  }

  /** One turn of the accounting loop, for a client the store knows. */
  method AccountClient(store: Store, id: string, hb: AgentHeartbeat)
    requires id in store.clients && id in hb.traffic
    modifies store`clients
    ensures store.clients.Keys == old(store.clients).Keys
    ensures forall k | k in store.clients && k != id :: store.clients[k] == old(store.clients)[k]
    ensures SameIdentity(old(store.clients)[id], store.clients[id])
    ensures IsCounted(old(View(store.clients[id])), View(store.clients[id]),
      SourceAllowed(store.nodes, store.relays, old(store.clients)[id], hb.serverID), hb, id)
  {
    var c := new ClientVar(store.clients[id]);
    var allowed := TrafficSourceAllowed(store, c.rec, hb.serverID);
    if !allowed {
      return;
    }
    ApplyTrafficSample(c, hb.serverID, hb.traffic[id], hb.epoch, hb.sampleAt);
    store.clients := store.clients[id := c.rec];
  }

  /** The accounting loop alone, over the samples in any order. */
  method CountSamples(store: Store, hb: AgentHeartbeat)
    modifies store`clients
    ensures store.clients.Keys == old(store.clients).Keys
    ensures forall id | id in store.clients :: SameIdentity(old(store.clients)[id], store.clients[id])
    ensures forall id | id in store.clients :: IsCounted(old(View(store.clients[id])), View(store.clients[id]),
      SourceAllowed(store.nodes, store.relays, old(store.clients)[id], hb.serverID), hb, id)
  {
    var todo := hb.traffic.Keys;
    ghost var before := store.clients;
    while todo != {}
      invariant todo <= hb.traffic.Keys && store.clients.Keys == before.Keys
      invariant forall id | id in before :: SameIdentity(before[id], store.clients[id])
      invariant forall id | id in before && (id in todo || id !in hb.traffic) :: store.clients[id] == before[id]
      invariant forall id | id in before && id !in todo :: IsCounted(old(View(before[id])), View(store.clients[id]),
        SourceAllowed(store.nodes, store.relays, before[id], hb.serverID), hb, id)
      decreases todo
    {
      var id :| id in todo;
      if id in store.clients {
        AccountClient(store, id, hb);
      }
      todo := todo - {id};
    }
  }

  /** Samples of one heartbeat go to the clients bound to its server, each exactly once. */
  method AccountTrafficLocked(store: Store, hb: AgentHeartbeat, now: Time)
    modifies store`clients
    ensures store.clients.Keys == old(store.clients).Keys
    ensures forall id | id in store.clients :: SameIdentity(old(store.clients)[id], store.clients[id])
    ensures forall id | id in store.clients :: View(store.clients[id]) == Beat(old(View(store.clients[id])),
      SourceAllowed(store.nodes, store.relays, old(store.clients)[id], hb.serverID), hb, id, now)
  {
    CountSamples(store, hb);
    var changed := EnforceBillingLocked(store, now);
  }

  method PreserveAndRenewBilling(body: ClientVar, was: Client, now: Time)
    modifies body
    ensures body.rec == old(body.rec).(acct := Renewed(old(body.rec.acct), was.acct, now), cursors := was.cursors)
  {
    var stored := new ClientVar(was);
    MigrateTraffic(stored);
    var o := stored.rec.acct;
    body.rec := body.rec.(cursors := was.cursors, acct := body.rec.acct.(
      usedBytes := o.usedBytes, usedGB := o.usedGB, resetAt := o.resetAt, cycleStart := o.cycleStart));
    if body.rec.acct.cycleDays == 0 {
      body.rec := body.rec.(acct := body.rec.acct.(cycleDays := o.cycleDays));
    }
    if body.rec.acct.cycleDays == 0 {
      body.rec := body.rec.(acct := body.rec.acct.(cycleDays := 30));
    }
    if !IsZero(o.expireAt) && body.rec.acct.expireAt > o.expireAt {
      var b := body.rec.acct;
      body.rec := body.rec.(acct := b.(usedBytes := 0, usedGB := 0,
        cycleStart := b.expireAt - b.cycleDays * DAY, resetAt := now, enabled := true));
    }
  }
}
