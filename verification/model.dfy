// The panel's records (backend/internal/model/model.go). A record is a Go
// struct: assigning it copies its fields, so it is a value here. The one field
// that is shared by such a copy is the cursor map of a client, a heap object.

module Model {
  import opened Text

  /** Instants in nanoseconds since Go's zero time, which is 0 itself. */
  type Time = int
  const ZERO_TIME: Time := 0

  predicate IsZero(t: Time) { t == ZERO_TIME }

  datatype Server = Server(
    id: string, name: string, ip: string, host: string, region: string, provider: string,
    status: string, agentToken: string, agentVersion: string, xrayVersion: string,
    configHash: string, lastSyncAt: Time, lastSyncMessage: string,
    cpuCores: int, memTotalBytes: int64, uploadTotal: int64, downloadTotal: int64,
    createdAt: Time, updatedAt: Time)

  /** What a lookup of an absent key yields: Go's zero value. */
  const ZERO_SERVER := Server("", "", "", "", "", "", "", "", "", "", "", 0, "", 0, 0, 0, 0, 0, 0)

  datatype Node = Node(
    id: string, serverID: string, name: string, protocol: string, host: string, port: int,
    transport: string, security: string, sni: string, path: string, fingerprint: string,
    realityDest: string, realityPrivateKey: string, realityPublicKey: string,
    realityShortID: string, realitySpiderX: string,
    socksUsername: string, socksPassword: string, socksUDP: bool, enabled: bool)

  datatype RelayRoute = RelayRoute(
    id: string, name: string, relayServerID: string, landingNodeID: string,
    relayHost: string, relayPort: int, landingMode: string,
    manualSocksHost: string, manualSocksPort: int,
    manualSocksUsername: string, manualSocksPassword: string,
    routeMode: string, relayNetwork: string, relaySNI: string, relayFingerprint: string,
    realityDest: string, realityPrivateKey: string, realityPublicKey: string,
    realityShortID: string, realitySpiderX: string, enabled: bool)

  datatype LandingExit = LandingExit(
    id: string, name: string, host: string, port: int, username: string, password: string, enabled: bool)

  datatype NetworkPolicy = NetworkPolicy(
    mode: string, publicDNS: bool, dnsServers: seq<string>, queryStrategy: string,
    disableFallback: bool, disableFallbackIfMatch: bool,
    blockDNS53: bool, blockChinaDNS: bool, blockQUIC: bool)

  datatype ClientTraffic = ClientTraffic(uplink: int64, downlink: int64)

  datatype TrafficCursor = TrafficCursor(epoch: string, uplink: int64, downlink: int64, sampleAt: Time)

  /** A Go map value: every copy of the reference sees the same entries. */
  class CursorMap {
    var entries: map<string, TrafficCursor>

    constructor ()
      ensures entries == map[]
    {
      entries := map[];
    }
  }

  /** The accounting fields of a client; a time of zero means "never". */
  datatype Account = Account(
    limitGB: int64, usedGB: int64, usedBytes: int64, cycleStart: Time, cycleDays: int,
    resetAt: Time, expireAt: Time, enabled: bool, updatedAt: Time)

  datatype Client = Client(
    id: string, username: string, uuid: string, password: string, token: string,
    acct: Account, cursors: CursorMap?, nodeIDs: seq<string>, relayIDs: seq<string>)

  datatype AgentHeartbeat = AgentHeartbeat(
    serverID: string, traffic: map<string, ClientTraffic>, epoch: string, sampleAt: Time,
    agentVersion: string, xrayVersion: string, configHash: string, lastMessage: string,
    cpuCores: int, memTotalBytes: int64, uploadTotal: int64, downloadTotal: int64)

  /** The data file the panel keeps under one lock (model.PanelData inside store.Store). */
  class Store {
    var servers: map<string, Server>
    var nodes: map<string, Node>
    var clients: map<string, Client>
    var relays: map<string, RelayRoute>
    var exits: map<string, LandingExit>
    var policy: NetworkPolicy

    constructor (policy: NetworkPolicy)
      ensures servers == map[] && nodes == map[] && clients == map[] && relays == map[] && exits == map[]
      ensures this.policy == policy
    {
      servers, nodes, clients, relays, exits, this.policy := map[], map[], map[], map[], map[], policy;
    }
  }
}
