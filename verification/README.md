# Verified model of the panel and its agent

This project models the behaviour of the Yuchen panel (Go backend) and of the agent that runs
beside Xray on every server, and proves properties of that model in Dafny. It covers five
connected parts.

- **Traffic billing.** Xray's per-client counters restart with every Xray process. The agent sends
  them in heartbeats that may be lost, repeated, delayed or reordered, and the panel turns them
  into billed bytes with per-server cursors, saturating int64 sums, renewals and limits.
  `billing.dfy` holds the code's own steps; `ledger.dfy` proves what they add up to over whole runs;
  `heartbeat.dfy` adds the snapshot, the save and the rollback, where cursor maps are heap objects
  shared by record copies; `stats.dfy` is the agent's reading of the counters, and `epochs.dfy` says
  why the panel may rely on what it reports.
- **Config compilation.** `xray.dfy` compiles nodes, clients, relays and policy to an Xray config,
  `routing.dfy` gives the rule list a first-match meaning, `entitlement.dfy` and `sync.dfy` say who is
  listed where, `documents.dfy` says what the document of a server holds over the fields of the stored
  records, `checks.dfy` is the independent checker of the system page, and `subscription.dfy` compares
  what clients are offered with what servers accept.
- **Apply and reload.** `reload.dfy` is the protocol of the agent's files as a state machine with a
  crash possible between any two steps, and an agent class whose ghost run shows that the code
  takes only steps of that machine.
- **Store operations.** `integrity.dfy` states what the data file must keep and models the merging of
  local servers, with `choosing.dfy` for loops that keep one element of a slice; `nodes.dfy`,
  `relays.dfy`, `clients.dfy`, `exits.dfy` are the endpoints, and `ports.dfy` says which ports they
  leave apart; `records.dfy`, `forms.dfy` and `customers.dfy` spell out the records they leave behind,
  and what a second request does to them; `runs.dfy` is any sequence of requests, heartbeats and syncs on any sound data file. It
  records what befell every client, and so carries the billing theorems over to the store.
- **Dense algorithms.** `names.dfy` (collision-free names and the sing-box selector), `versions.dfy`
  (version parsing and order), `encoders.dfy` (shell quoting, percent-encoding).

`text.dfy`, `collect.dfy` and `sorting.dfy` model the Go string functions, the append loops and the
stable sort that the rest uses; `model.dfy` holds the records. Code that changes state is written as
methods on the store and on client variables, with `modifies` clauses and loops; each method is
tied to a function of its inputs and the old state, and the lemmas are about those functions.

## Modelling choices

- A Go struct is a value; the cursor map inside a client is a heap object (`CursorMap`), because
  copying a client shares it. A time is an integer, 0 being Go's zero time. int64 is a subset type
  and every addition that can leave it is written out.
- Ranging over a Go map is a loop that takes an arbitrary remaining key. A result that does not
  depend on that choice is a function of the map; where it does, the contract names the choice.
- The config hash is the config itself, that is, the hash is taken to be injective; the empty hash
  is `None`. Whether a save succeeds, clocks, random identifiers and key pairs are parameters.
- A faithful trace of one server (`Faithful`): time moves on, a process runs once, and its counters
  do not decrease within one process. `epochs.dfy` derives it from what happens on a server: processes
  follow each other, no two have one identity (boot ID, process ID and start time), the counters a
  process shows for a client do not decrease, and the agent's clock moves on.

## What the proofs found

These are properties one would expect and that hold only under a condition; the project states
the exact condition each time.

- Enabled nodes of one server can end up on one port in two ways. POST compares ports before it
  enables the node, so a body that is not enabled can take the port of an enabled node
  (`NodeOps.CreateMayShareAPort`). And a request without a server ID merges all local servers, which
  nobody checks for ports (`Ports.MergingMayShareAPort`). `Ports.PortsStayApartExactly` has the
  condition for both. Relays do not have the first gap and are not moved by merging: their ports stay
  apart in every run.
- A relay is compared with the nodes of its server, but a node is never compared with the relays, so
  an enabled node can be stored on the port of an enabled relay (`NodeOps.NodeMayTakeARelayPort`), and
  merging can move one there (`Ports.MergingMayMeetARelay`). `Ports.NodesStayClearExactly` and
  `Ports.RelaysStayClearExactly` have the conditions.
- Nothing compares subscription tokens either: of two clients with one token the order of the map
  picks the one that is answered, so the same store refuses or offers
  (`Subscriptions.OrderMattersExactly`, `Subscriptions.SharedTokenIsAmbiguous`).
- Nothing compares credentials of clients. A client that is switched off keeps its access when an
  entitled client with the same grant has its UUID or trojan password
  (`Syncs.CredentialServedExactly`, `Syncs.SharedCredentialStaysServed`).
- A given Reality key pair is stored whether or not its halves match, and a public key given alone is
  dropped (`NodeOps.KeysMatchExactly`). A destination that starts with its colon gives an empty server
  name (`RelayOps.DressedRelayServes`).
- A connection test of a landing exit writes back the record it read, so it undoes an edit or a
  deletion made while it ran (`ExitOps.ChangeDuringTest`).
- The traffic of another inbound reaches a relay's exit exactly when a node or forwarding relay has
  that relay's inbound tag for its ID, and likewise for `api` (`Routing.OnlyItsInboundExactly`,
  `Routing.OnlyTheApiInboundExactly`).
- A failed heartbeat restores every client deeply. The server record is restored exactly when it is
  still stored under its own ID; when the server was deleted between the check of its token and
  the lock, the rollback adds two records (`Heartbeats.ServerRollbackIsExact`). Such a heartbeat also
  succeeds, and then stores a record without ID: this is the only way in which server records can
  leave their own keys (`Runs.RacingLosesKeys`, `Runs.Serve`).
- Two prerelease identifiers that spell one number in two ways, such as `1` and `01`, are each
  greater than the other (`Precedence.AntisymmetricExactly`).
- The comparison departs from section 11 of Semantic Versioning 2.0.0 for two kinds of identifiers that
  section 9 allows: a hyphen before digits is read as a negative number, and a number beyond int64 as a
  text. `Precedence.MatchesSection11Exactly` has the condition, `Precedence.HyphenBreaksSection11` and
  `Precedence.OversizeBreaksSection11` the inputs.
- `comparePanelVersions` is not transitive when a version that parses meets an older four-part
  release ID (`PanelVersions.TransitiveExactly`, `PanelVersions.NotTransitive`).
- A relay is offered in a subscription without the check of its landing that the generator makes
  (`Subscriptions.RelayOfferIsServedExactly`).
- A relay whose stored mode is not in canonical spelling is checked as a fixed exit but never
  generated as one (`Checks.OddSpellingIsAlwaysReported`).
- The sniffing check of the system page can never pass on a generated config, because the api
  inbound has no sniffing (`Checks.SniffingCheckNeverPasses`).
- Which of several local servers is kept, and which server is the default one, may depend on the order
  of the map: it does unless one of them takes the place of every other one and none takes its place
  (`LocalServers.PickIgnoresOrderExactly`, `LocalServers.DefaultIgnoresOrderExactly`).
- The second renaming pass of the sing-box builder is the identity exactly when every node has a
  name or a host that does not start with a blank (`Names.SecondPassIsIdentityExactly`).

## Model

| member | source | states |
|---|---|---|
| `Billing.AddTrafficSaturates` | backend/internal/api/traffic.go:16-21 | the addition is the exact sum capped at the int64 maximum exactly when its first operand is a natural number |
| `Billing.MigrateTraffic` | backend/internal/api/traffic.go:10-14 | a legacy whole-gigabyte balance becomes bytes once, without overflow, and nothing else of the client changes |
| `Billing.CopyCursors` | backend/internal/api/traffic.go:69-74 | the new cursor map is a fresh object with the old entries, so no map another record shares is written |
| `Billing.SampleCharge` | backend/internal/api/traffic.go:51-66 | the bytes a sample charges: nothing for a baseline after a renewal, the difference within one process, the whole counter after a restart or a decrease |
| `Billing.ApplyTrafficSample` | backend/internal/api/traffic.go:39-75 | the ledger after a sample is the specified one, identity fields are unchanged, and no existing cursor map is modified |
| `Billing.TrafficSourceAllowed` | backend/internal/api/traffic.go:25-37 | a server counts for a client exactly when it holds a node or a relay the client is bound to |
| `Billing.EnforceClient` | backend/internal/api/traffic.go:80-87 | a client is switched off exactly when it was on and is expired or over its limit |
| `Billing.EnforceBillingLocked` | backend/internal/api/traffic.go:77-91 | every client is enforced whatever the order of the map, and a change is reported exactly when some client was switched off |
| `Billing.CountSamples` | backend/internal/api/traffic.go:94-101 | samples reach exactly the known clients they name, in any order |
| `Billing.AccountTrafficLocked` | backend/internal/api/traffic.go:93-103 | one heartbeat does to every ledger what it does to that ledger alone: count if allowed, then enforce |
| `Billing.PreserveAndRenewBilling` | backend/internal/api/traffic.go:106-125 | the account is the specified renewal of body and stored record, with the stored cursors; `Records.EditSays`, `Records.RenewalSays` and `Exactness.SampleAfterRenewal` say what that is and what it does to later samples |
| `Conservation.PassedGap` | backend/internal/api/traffic.go:51-66 | skipping observations of a faithful trace never charges more than what passed in between |
| `Conservation.SampleAdds` | backend/internal/api/traffic.go:51-67 | an accepted sample adds exactly its charge, saturated once although the code nests two saturating sums |
| `Conservation.ChargeIsCovered` | backend/internal/api/traffic.go:39-75 | an accepted observation is later than the cursor, and its charge is covered by the bytes that passed since |
| `Conservation.StepKeepsFair` | backend/internal/api/traffic.go:39-125 | heartbeats, enforcement and edits keep: no more is billed than passed up to the cursors |
| `Conservation.NeverOverbilled` | backend/internal/api/traffic.go:39-125 | over every run of lost, repeated, delayed and reordered heartbeats, restarts and renewals, the bytes billed in all cycles never exceed the legacy balance and what really passed |
| `Conservation.ChainNeverOverbilled` | backend/internal/api/traffic.go:39-125 | the same bound for any chain of ledgers each of which is the one before after one event of the billing model |
| `Conservation.CursorNeverMovesBack` | backend/internal/api/traffic.go:43-46 | through any events the cursor of a server stays and its time never decreases |
| `Conservation.AtMostOnce` | backend/internal/api/traffic.go:39-75 | a sample once taken is never taken again, whatever happens in between, renewals included |
| `Conservation.FirstSampleAfterRenewalIsFree` | backend/internal/api/traffic.go:62-66 | a server first seen after a renewal is charged nothing for its baseline |
| `Exactness.SegmentSumGrows` | backend/internal/api/traffic.go:51-66 | the sum over counter segments grows by exactly the increment of a new reading |
| `Exactness.TakenKeepsTracking` | backend/internal/api/traffic.go:39-75 | a reading that counts keeps cursors at the latest readings and the balance at the saturated exact sum of the cycle |
| `Exactness.EditKeepsTracking` | backend/internal/api/traffic.go:106-125 | a renewal begins a cycle at zero whose segments count from the readings kept so far; any other edit changes no balance |
| `Exactness.SettleKeepsTracking` | backend/internal/api/traffic.go:77-91 | enforcement decides by the exact sum: a client goes off exactly when it is expired or that sum reaches its limit, saturation never deciding |
| `Exactness.BalanceIsExact` | backend/internal/api/traffic.go:16-125 | for any interleaving of servers, edits and renewals, in every cycle, the balance is the minimum of the int64 maximum and the exact sum: what the cycle began with, plus what the last values of the segments grew by, less the baselines of servers first seen after a renewal; cycle, instant of renewal, limit, expiry and state are those that the moments of the history make, not what the ledger says |
| `Exactness.FirstCycleIsExact` | backend/internal/api/traffic.go:16-75 | before any renewal that is the initial balance plus the last value of every segment |
| `Exactness.LimitIsExact` | backend/internal/api/traffic.go:77-83 | for every limit that validation accepts, the account is over its limit exactly when the exact sum of the cycle that the history makes reaches it, in gigabytes of 2^30 bytes |
| `Exactness.SampleAfterRenewal` | backend/internal/api/traffic.go:39-125 | after a renewal a usable sample is taken exactly when it is later than the renewal and than the cursor of its server; a server known in the same process then adds exactly what its two counters grew by, a server first seen nothing |
| `Exactness.EnforcementIsExact` | backend/internal/api/traffic.go:77-91 | after enforcement enabled means: was enabled, is not expired and is under the limit; nobody is enabled, and enforcing again changes nothing |
| `Records.SampleTouches` | backend/internal/api/traffic.go:39-75 | a sample changes the balance and one cursor; the gigabytes shown are the bytes in units of 2^30, rounded down |
| `Records.EnforcementTouches` | backend/internal/api/traffic.go:77-91 | enforcement changes nothing but the state, the time of the last change when it switches off, and a legacy balance into bytes |
| `Records.EditSays` | backend/internal/api/traffic.go:106-118 | limit, expiry and time of change are the body's, days left out the stored ones or 30; an edit that is no renewal takes the state from the body and keeps cycle, instant of renewal and balance |
| `Records.RenewalSays` | backend/internal/api/traffic.go:119-124 | a renewed account is on, at zero, dated at the renewal, in a cycle of its days that ends at the new expiry |
| `Records.EditTwiceRenewsOnce` | backend/internal/api/traffic.go:106-125 | the same edit sent again later renews nothing: it only takes the state from the body |
| `Histories.LifeNeverOverbilled` | backend/internal/api/traffic.go:39-125 | whatever a client lives through in a real world - readings, edits, renewals, enforcement, changes of state - all its cycles together bill at most what it began with and what passed |
| `Heartbeats.SnapshotClients` | backend/internal/api/agent.go:30-33 | the snapshot holds every client record as it was |
| `Heartbeats.AgentHeartbeat` | backend/internal/api/agent.go:26-59 | a failed save leaves clients equal down to the entries of their shared cursor maps; a successful one is exactly one beat for every ledger |
| `Heartbeats.ServerRollbackIsExact` | backend/internal/api/agent.go:26-59 | the rollback restores the servers if and only if the record is still there under its own ID |
| `Heartbeats.RollbackOfDeletedServerAddsRecords` | backend/internal/api/agent.go:53-59 | the input that shows the failing case |
| `Heartbeats.FailThenRetry` | backend/internal/api/agent.go:26-59 | failing once and sending the same heartbeat again leaves the ledgers of one success |
| `Heartbeats.RepeatedBeatCountsOnce` | backend/internal/api/traffic.go:43-46 | a heartbeat delivered twice counts once |
| `Records.ReportSays` | backend/internal/api/agent.go:35-52 | what a heartbeat reports replaces the server's state, capacities it leaves out and the identity of the server stay |
| `Records.LookupSays` | backend/internal/api/agent.go:28-29 | the server of a heartbeat is the stored one or else a blank record |
| `Records.LastReportWins` | backend/internal/api/agent.go:40-46 | of two heartbeats the last one decides, but a capacity it leaves out is the last one reported |
| `Counters.CounterDeterminesName` | agent/cmd/agent/traffic.go:57-70 | only one counter name stands for a client and direction, so a repeated name is a repeated counter |
| `Counters.LabelIsReadBack` | agent/cmd/agent/traffic.go:57-67 | the label the generator gives a client is read back as that client |
| `Counters.ReadingIsReported` | agent/cmd/agent/traffic.go:72-88 | a reading is the one value reported for that client and direction, wherever it stands |
| `Counters.CountStep` | agent/cmd/agent/traffic.go:68-92 | one counting step keeps the three tables exact, and fails exactly when the client's total leaves int64 |
| `Counters.DropPartial` | agent/cmd/agent/traffic.go:95-99 | exactly the clients of whom a direction is missing are dropped |
| `Counters.ValueOfNumber` | agent/cmd/agent/traffic.go:74-77 | a natural number within int64 is read as itself, as a JSON number, as a JSON string, or left out when zero |
| `Counters.ValueRefused` | agent/cmd/agent/traffic.go:76-80 | negative numbers, numbers beyond int64 and texts that are no numbers are refused, quoted or not |
| `Counters.ParseTraffic` | agent/cmd/agent/traffic.go:43-101 | accepted are exactly the responses without repeated counter, unreadable or negative value, or total beyond int64; the result lists exactly the clients with both directions |
| `Counters.RenderedTableIsRead` | agent/cmd/agent/traffic.go:43-101 | a response that renders a table - two counters for every client, in decimal, foreign counters among them, in any order - is accepted and read as exactly that table |
| `Counters.ReadRendered` | agent/cmd/agent/traffic.go:43-101 | the parser's answer to such a response is the table |
| `Counters.OrderIndependent` | agent/cmd/agent/traffic.go:43-101 | reordering a response changes neither its acceptance nor its table |
| `Counters.TableIsDetermined` | agent/cmd/agent/traffic.go:89-91 | the table is unique, and uplink plus downlink of every client fits an int64 |
| `Epochs.CollectXrayTraffic` | agent/cmd/agent/traffic.go:154-179 | a table is kept exactly when the response is acceptable and the process identity was read, the same before and after the query |
| `Epochs.CheckedComes` | agent/cmd/agent/traffic.go:154-179 | counters that pass the check were shown by the process whose identity they carry, whatever was started or stopped in between |
| `Epochs.CheckedTraceIsFaithful` | agent/cmd/agent/traffic.go:105-179 | the observations of a client that pass the check, in the order of the attempts, form a faithful trace |
| `Epochs.WorldIsReal` | agent/cmd/agent/traffic.go:105-179 | so the reports of any number of servers are a world that the billing bound speaks of |
| `Epochs.FirstReadingIsNotEnough` | agent/cmd/agent/traffic.go:174-177 | with the first reading of the identity alone they would not: the input |
| `Xray.CollectAllowedNodes` | backend/internal/model/authorization.go:7-19 | the explicit non-empty grants of a client that is enabled and not expired, and nothing for any other |
| `Xray.MakeRelayVlessClients` | backend/internal/xray/config.go:262-278 | the users of a relay inbound, in the order of their labels |
| `Xray.MakeInboundClients` | backend/internal/xray/config.go:282-312 | the users of a node inbound, in the order of their labels |
| `Xray.ApplyNetworkPolicy` | backend/internal/xray/config.go:401-429 | the blocking rules of the policy are appended after the rules that are there |
| `Xray.FindStatsPort` | backend/internal/xray/config.go:234-244 | the search ends, at the first unused port |
| `Xray.GenerateNodeInbound` | backend/internal/xray/config.go:62-116 | the inbound of a node that carries users |
| `Xray.GenerateNodeInbounds` | backend/internal/xray/config.go:34-117 | one inbound for every enabled node that is not retired, in order |
| `Xray.ResolveLanding` | backend/internal/xray/config.go:129-161 | the landing of a relay, or a refusal when any part of it is missing |
| `Xray.GenerateRelays` | backend/internal/xray/config.go:119-231 | inbounds, exits and bindings of exactly the accepted relays, in order |
| `Xray.GenerateServerConfig` | backend/internal/xray/config.go:22-260 | the generated document is the specified one: inbounds, outbounds and the ordered rule list |
| `Routing.TagsAreInjective` | backend/internal/xray/config.go:162-163 | tags of different relays differ and are none of the built-in ones |
| `Routing.BindingsMatch` | backend/internal/xray/config.go:196-200 | the first rule that matches a packet of a relay inbound is that relay's binding |
| `Routing.RoutingMeaning` | backend/internal/xray/config.go:119-232 | for every packet, policy and name resolution: relay traffic leaves by its own exit and nothing else reaches a relay exit; the api inbound reaches api; blocking applies only to the rest |
| `Routing.OnlyItsInboundExactly` | backend/internal/xray/config.go:34-200 | the relay's own inbound is the only one of the config behind its tag exactly when no listed node and no forwarding relay has the tag for its ID |
| `Routing.OnlyTheApiInboundExactly` | backend/internal/xray/config.go:34-246 | the statistics inbound is the only one behind `api` exactly when nothing listed has that ID |
| `Routing.RelayReachesItsLanding` | backend/internal/xray/config.go:162-200 | with distinct relay IDs there is one outbound with the tag a relay's packets are routed to, and it has that landing's address, port and credentials |
| `Documents.AcceptedExactly` | backend/internal/xray/config.go:119-161 | a fixed exit is served exactly when it is on, has a port and lands completely, at the address in its own record or at an enabled SOCKS5 node with credentials |
| `Documents.RelayLeavesBy` | backend/internal/xray/config.go:119-200 | every packet that enters an accepted fixed exit leaves through exactly one outbound: the address, user and password in its own record for a manual landing, else those of its landing node, a blank host meaning 127.0.0.1 |
| `Documents.OutboundsExactly` | backend/internal/xray/config.go:162-195 | the outbounds are the direct one, which is first, the blocking one and the exits of the accepted relays |
| `Documents.BlockedExactly` | backend/internal/xray/config.go:401-480 | of the traffic that is neither the statistics' nor a fixed exit's, exactly what the policy asks for is blocked: port 53, the listed resolvers by address or resolved name, QUIC; the rest goes out directly |
| `Entitlement.SortedUsersExact` | backend/internal/xray/config.go:282-312 | sorting by label keeps exactly the picked users, each once |
| `Entitlement.UsersOrigin` | backend/internal/xray/config.go:62-192 | credentials sit only in inbounds of nodes that carry users and of accepted relays |
| `Entitlement.StatsPortIsLeast` | backend/internal/xray/config.go:234-244 | the stats port is the least port from 10000 that no given node or relay names, and at most 10000 plus their number |
| `Entitlement.InboundPortsDistinct` | backend/internal/xray/config.go:34-245 | if the configured ports are distinct, all generated inbound ports are |
| `Syncs.ListeningPortsDistinct` | backend/internal/api/agent.go:83-121 | while ports are apart in the data file, nodes, relays and both together, no two inbounds of any server's config listen on one port |
| `Syncs.AgentSync` | backend/internal/api/agent.go:63-137 | for every order of the three maps the answer is the same config of the enforced store, and a restart is required exactly when the reported hash differs |
| `Syncs.SurvivorIsEntitled` | backend/internal/api/traffic.go:77-91 | a client survives enforcement exactly when it is entitled, and the generator's own expiry check then passes too |
| `Syncs.NodeEntitlement` | backend/internal/api/agent.go:83-121 | the user list of a node's inbound is exactly the records, label and credential, of the stored clients that are entitled, bound to the node and have the credential, each once |
| `Documents.NodeInboundSays` | backend/internal/xray/config.go:34-117 | an enabled node that is not retired has one inbound: SOCKS5 with its credentials, or the admitted clients behind its transport, TLS name and Reality settings, with their fallbacks |
| `Documents.RelayInboundSays` | backend/internal/xray/config.go:119-228 | a relay has an inbound exactly when it is an accepted fixed exit or forwards: VLESS over Reality for the clients bound to it, or a door to its landing node |
| `Documents.NodesInDocument` | backend/internal/api/agent.go:83-121 | every served node of the server is in its document |
| `Documents.RelaysInDocument` | backend/internal/api/agent.go:96-121 | every accepted or forwarding relay of the server is in its document |
| `Documents.DocumentHoldsOnly` | backend/internal/api/agent.go:83-121 | every inbound of a document stands for a stored node or relay of that server, or is the statistics inbound |
| `Documents.DoorsExactly` | backend/internal/xray/config.go:197-228 | the doors of a document are exactly those of the relays of its server that forward, each to the address and port of its landing node, over TCP unless the relay says otherwise |
| `Documents.NodeUsersSay` | backend/internal/xray/config.go:282-312 | among any clients a node lists exactly those that are on, not expired, bound to it and have the credential of its protocol |
| `Documents.RelayUsersSay` | backend/internal/xray/config.go:262-278 | a fixed exit lists exactly those that are on, bound to it, have a UUID and are not past their expiry |
| `Documents.RecordSays` | backend/internal/xray/config.go:262-312 | a record has the label client_ID and the credential of the protocol: the UUID, or for trojan the stored password without blanks around it, derived from the ID when there is none |
| `Documents.NodeUsersInOrder` | backend/internal/xray/config.go:282-322 | the users of a node come strictly in the order of their labels |
| `Documents.RelayUsersInOrder` | backend/internal/xray/config.go:262-280 | so do those of a fixed exit |
| `Documents.ListedInOrder` | backend/internal/api/agent.go:84-107 | the nodes and the relays of a server come by port, then by ID |
| `Documents.ServedIsBilled` | backend/internal/api/traffic.go:25-37 | whoever the document of a server lists is a stored client for whom the counters of that server count |
| `Syncs.ListedExactly` | backend/internal/xray/config.go:282-312 | so a client's own record, and any record with its label, is in such a list exactly when the client is admitted |
| `Syncs.CredentialServedExactly` | backend/internal/xray/config.go:262-312 | a client's UUID or password opens the inbound exactly when the client is admitted or another admitted client has the same one |
| `Syncs.CredentialsOnceExactly` | backend/internal/xray/config.go:262-312 | no credential is listed twice exactly when no two admitted clients share one |
| `Syncs.SharedCredentialStaysServed` | backend/internal/api/clients.go:163-215 | the input: a switched-off client whose UUID or stored password an entitled one has; validation accepts the one record exactly when it accepts the other |
| `Syncs.RelayEntitlement` | backend/internal/api/agent.go:83-121 | the same for the inbound of an accepted relay, whose records hold the UUID |
| `Checks.Socks5RouteBindingProblems` | backend/internal/api/system.go:499-570 | the problems are exactly the checked relays with a missing part, with the parts that are missing |
| `Checks.BoundByLast` | backend/internal/api/system.go:525-547 | an inbound counts as bound to the outbound of the last rule that names it |
| `Checks.MissingSays` | backend/internal/api/system.go:553-565 | each part is reported missing exactly when the document lacks it |
| `Checks.CheckedExactly` | backend/internal/api/system.go:429-435 | a relay is checked exactly when it is on and its mode, whatever its case and blanks, is that of a fixed exit |
| `Checks.CheckerAgrees` | backend/internal/api/system.go:499-570 | on the generator's own output, in any order of relays, a checked relay is reported if and only if the generator skipped it |
| `Checks.OddSpellingIsAlwaysReported` | backend/internal/api/system.go:429-435 | a mode in another spelling is reported whatever its landing |
| `Checks.HasSniffing` | backend/internal/api/system.go:465-481 | the answer is yes exactly when there are inbounds and the sniffing section of every one is there and switched on |
| `Checks.SniffingCheckNeverPasses` | backend/internal/api/system.go:465-481 | on every generated config the answer is no, and the api inbound is the only one without sniffing |
| `Subscriptions.SubscriptionSnapshot` | backend/internal/api/subscription_formats.go:48-82 | the answer of the first client with the token in some order of the map: refused, or exactly the nodes and relays offered to it in the order of their IDs; not found without one |
| `Subscriptions.AnswerSays` | backend/internal/api/subscription_formats.go:63-81 | a client that is on and not expired is shown exactly the enabled nodes bound to it whose protocol can be shared, by ID, and the enabled fixed exits bound to it; any other is refused |
| `Subscriptions.AnswersExactly` | backend/internal/api/subscription_formats.go:51-62 | over all orders of the map, the possible answers are exactly those of the clients with the token, or not found |
| `Subscriptions.OrderMattersExactly` | backend/internal/api/subscription_formats.go:51-65 | the order of the map matters if and only if two clients have the token and not both are refused |
| `Subscriptions.SharedTokenIsAmbiguous` | backend/internal/api/clients.go:163-215 | the input: one client switched off, one not, with one token, both accepted by validation; refused or offered, as the map has it |
| `Subscriptions.NodeOfferIsServed` | backend/internal/api/subscription_formats.go:66-72 | the server behind a node lists a client's own record exactly when the subscription shows the node, the limit is not reached and the credential is there, and lists nothing but such records |
| `Subscriptions.RelayOfferIsServedExactly` | backend/internal/api/subscription_formats.go:73-78 | an offered relay has an inbound if and only if it has a port and a complete landing |
| `Subscriptions.RelayOfferAdmits` | backend/internal/api/subscription_formats.go:73-78 | a served relay lists a client under its UUID exactly when the subscription shows it, the limit is not reached and there is a UUID, and lists nothing but such records |
| `ReloadProtocol.NextKeepsInvariant` | agent/cmd/agent/main.go:205-246 | every step, failure and crash keeps what marker, files and the pending flag say about the running config |
| `ReloadProtocol.InvariantHolds` | agent/cmd/agent/main.go:98-138 | it holds in every state of every run |
| `ReloadProtocol.CrashSafe` | agent/cmd/agent/main.go:205-246 | without a marker Xray runs what is on disk; when no restart is required Xray runs the desired config |
| `ReloadProtocol.AnyCrashCanRestart` | agent/cmd/agent/main.go:95-96 | an agent may die anywhere and the next one starts soundly from the files |
| `ReloadProtocol.FileIsNeverTorn` | agent/cmd/agent/main.go:216-232 | the config file is replaced only by a whole document |
| `Agents.Agent.constructor` | agent/cmd/agent/main.go:95-96 | a new process takes the pending flag from the marker file |
| `Agents.Agent.Prepare` | agent/cmd/agent/main.go:213-229 | everything before the rename leaves the config file and the running config alone, and fails exactly when one of its steps does |
| `Agents.Agent.Check` | agent/cmd/agent/main.go:220-229 | the test decides before the marker is written |
| `Agents.Agent.Commit` | agent/cmd/agent/main.go:230-245 | success means file and running config are the document and no marker is left; any failure leaves a reload pending |
| `Agents.Agent.Activate` | agent/cmd/agent/main.go:235-245 | the marker goes only after a successful reload |
| `Agents.Agent.LoopOnce` | agent/cmd/agent/main.go:98-138 | every intermediate state is one of the protocol; without faults one turn converges, and a converged agent neither writes nor reloads |
| `Agents.Agent.Settle` | agent/cmd/agent/main.go:98-138 | over any number of turns on one desired config Xray is reloaded at most once |
| `LocalServers.CollectCandidates` | backend/internal/store/store.go:231-236 | the candidates are exactly the servers with a local endpoint, or the only server |
| `LocalServers.PickLocalServer` | backend/internal/store/store.go:309-329 | the candidate that is left after each later one had its chance to replace it |
| `Choosing.OrderIsForgottenExactly` | backend/internal/store/store.go:309-329 | the element such a loop keeps is the same for every order of a list of distinct elements if and only if one of them beats all others and is beaten by none, and then it is that one |
| `LocalServers.PickIgnoresOrderExactly` | backend/internal/store/store.go:309-329 | for any number of candidates: the order of the map does not matter exactly when some candidate is preferred to every other and none to it; that one is kept |
| `LocalServers.PickMayDependOnOrder` | backend/internal/store/store.go:309-329 | two servers where it does |
| `LocalServers.Refresh` | backend/internal/store/store.go:242-271 | missing fields are filled and a loopback endpoint gives way to a public one; nothing else changes |
| `Records.LocalExactly` | backend/internal/store/store.go:231-306 | a server is taken for local exactly when it is the only one, has an address of the environment, or a loopback one where the environment has a public one |
| `Records.RefreshSays` | backend/internal/store/store.go:242-271 | a refreshed server lacks nothing the environment has and shows no loopback address where the environment has a public one |
| `Records.RefreshKeeps` | backend/internal/store/store.go:242-271 | what it has and need not give up it keeps |
| `Records.SeedSays` | backend/internal/store/store.go:204-217 | a seeded server is the environment's, new and offline |
| `Records.BestIsPreferred` | backend/internal/store/store.go:309-329 | the candidate that runs the panel's version, is online and was heard of last is preferred |
| `Records.YoungestIsPreferred` | backend/internal/store/store.go:309-329 | among equals that were never heard of the one created last is preferred |
| `Records.VersionDecides` | backend/internal/store/store.go:309-329 | the panel's version decides between candidates that are otherwise alike, and being online between those that run it |
| `LocalServers.MergeOne` | backend/internal/store/store.go:278-285 | merging a server away keeps every node on an existing server |
| `LocalServers.MergeInto` | backend/internal/store/store.go:274-287 | exactly the other candidates go, and nodes change nothing but a server that was merged away |
| `LocalServers.EnsureSingleModeLocalServer` | backend/internal/store/store.go:219-289 | all local servers become the one that is kept, refreshed, the preferred one if there is one, and their nodes move to it; a server is seeded when there is none; the store stays sound |
| `Records.MergingSettles` | backend/internal/store/store.go:219-289 | in an environment with a local address, as its default makes sure, exactly one server is local afterwards, the kept or the seeded one, so the next request merges nothing more away |
| `LocalServers.DefaultServerID` | backend/internal/api/nodes.go:144-165 | the server left over in some order of the map, each later one having had its chance to replace it; empty only without servers |
| `LocalServers.DefaultIgnoresOrderExactly` | backend/internal/api/nodes.go:144-165 | the order does not matter exactly when one server is livelier than all others and none is livelier than it; that one is the default |
| `Records.OnlineIsLiveliest` | backend/internal/api/nodes.go:144-165 | the online server that was heard of last is the default |
| `Records.LastHeardIsLiveliest` | backend/internal/api/nodes.go:144-165 | without an online server it is the one heard of last |
| `LocalServers.ResolveServer` | backend/internal/api/nodes.go:186-189 | a named server is taken as it is and nothing changes; otherwise local servers are merged as said and an existing server is found, the liveliest one if there is one |
| `NodeOps.FindPort` | backend/internal/api/nodes.go:295-304 | whether another enabled node of the server has the port |
| `NodeOps.FillDefaults` | backend/internal/api/nodes.go:200-255 | the defaults of protocol, transport, security and host; a SOCKS5 inbound keeps only its credentials |
| `NodeOps.KeysMatchExactly` | backend/internal/api/nodes.go:275-290 | the public key belongs to the private one exactly unless a given pair does not match; a given private key stays, and a public key given alone is replaced with a new pair |
| `NodeOps.FillReality` | backend/internal/api/nodes.go:256-291 | the record in Reality form, refused exactly when there are no keys |
| `NodeOps.DressedShape` | backend/internal/api/nodes.go:256-291 | Reality runs over plain TCP without a path and always has a destination; its server name is empty exactly when none was given and the destination starts with its colon |
| `NodeOps.CheckNode` | backend/internal/api/nodes.go:292-326 | accepted exactly when port, protocol, credentials, transport and security are admissible |
| `NodeOps.NormalFormIsValid` | backend/internal/api/nodes.go:167-327 | every accepted record is valid, on the resolved server, with the port, name and state the body asked for |
| `NodeOps.NormalizeNode` | backend/internal/api/nodes.go:167-327 | the answer is the normal form of the body on the resolved server, or a refusal exactly when there is none |
| `Forms.NodeAcceptedExactly` | backend/internal/api/nodes.go:167-327 | over the fields of the body: accepted exactly when named, on an existing server, with a port that is in range and free if the node is to be enabled, and with a protocol, transport, security and keys or credentials that can be served |
| `Forms.NodeSays` | backend/internal/api/nodes.go:167-291 | over the fields of the body: the record is what was asked for, trimmed, with the defaults of its protocol, or with the settings of Reality |
| `Forms.HostPartSays` | backend/internal/api/nodes.go:263-265 | the server name made of a destination is what stands before its first colon |
| `Forms.DefaultHost` | backend/internal/api/nodes.go:260-265 | for the destination that is filled in that is www.intel.com |
| `Forms.NodeFormIsStable` | backend/internal/api/nodes.go:167-327 | storing an accepted record again changes nothing |
| `NodeOps.CreateNode` | backend/internal/api/nodes.go:33-47 | the normal form is stored under the new ID and enabled, all else is unchanged but merged servers, and the store stays sound; ports stay apart, among nodes and from relays, exactly under the conditions of `Ports` |
| `NodeOps.UpdateNode` | backend/internal/api/nodes.go:98-119 | the normal form replaces the record, an omitted security keeping the stored one; ports stay apart exactly under the same conditions |
| `Forms.OmittedSecurityStays` | backend/internal/api/nodes.go:104-108 | an edit without a security keeps the stored one, unless that would be VMess over Reality; any other edit is normalized as sent |
| `Ports.MergeKeepsPortsExactly` | backend/internal/store/store.go:274-287 | merging servers keeps ports of enabled nodes apart if and only if no two enabled nodes of different merged servers have one port |
| `Ports.StoreKeepsPortsExactly` | backend/internal/api/nodes.go:35-41 | storing a node keeps ports apart if and only if the other nodes' were, and its own is free or it is not enabled |
| `Ports.PortsStayApartExactly` | backend/internal/api/nodes.go:35-45 | POST and PUT, over the nodes before the request: ports stay apart if and only if the local servers that a blank server ID merges bring no two together and the stored node's port is free, after merging, if it is enabled |
| `NodeOps.CreateMayShareAPort` | backend/internal/api/nodes.go:35-45 | for every enabled node there is a body on its very port, not yet enabled, that is accepted; stored enabled, the ports meet |
| `Ports.MergingMayShareAPort` | backend/internal/store/store.go:274-287 | two local servers with one node each on one port: apart before the merge and together after it |
| `Ports.MergeKeepsClearExactly` | backend/internal/store/store.go:274-287 | merging keeps nodes off the ports of relays if and only if it moves no enabled node onto the port of an enabled relay of the kept server |
| `Ports.NodesStayClearExactly` | backend/internal/api/nodes.go:292-304 | POST and PUT of a node keep nodes off the ports of relays if and only if merging moves no other node onto one and the stored node, if enabled, is on none |
| `Ports.RelaysStayClearExactly` | backend/internal/api/relays.go:261-274 | POST and PUT of a relay keep nodes off the ports of relays if and only if merging moves no node onto the port of another relay |
| `NodeOps.NodeMayTakeARelayPort` | backend/internal/api/nodes.go:292-304 | for every enabled relay on a port that no node has there is an enabled body on that port that is accepted |
| `Ports.MergingMayMeetARelay` | backend/internal/store/store.go:274-287 | a node and a relay on one port of two local servers: clear before the merge and not after it |
| `NodeOps.NodeDeleteDisablesExactly` | backend/internal/api/nodes.go:122-134 | deleting a node disables a client exactly when it takes the client's last grant |
| `NodeOps.WithoutDrops` | backend/internal/api/nodes.go:124-131 | the other bindings stay in their order |
| `NodeOps.UnbindNode` | backend/internal/api/nodes.go:123-134 | every client is unbound, in any order of the map |
| `NodeOps.DeleteNode` | backend/internal/api/nodes.go:120-138 | the node is gone, clients are unbound and nothing refers to it as a binding |
| `ServerOps.CreateServer` | backend/internal/api/servers.go:24-45 | the record stored, with its defaults |
| `ServerOps.UpdateServer` | backend/internal/api/servers.go:67-82 | the record replaced; identity, creation time and an omitted token are kept |
| `ServerOps.DeleteServer` | backend/internal/api/servers.go:83-97 | a server goes exactly when it is not the last one and carries no node |
| `RelayOps.FindRelayPort` | backend/internal/api/relays.go:267-274 | whether another enabled relay of the server has the port |
| `RelayOps.CheckForward` | backend/internal/api/relays.go:166-189 | forwarding is accepted exactly to an enabled VLESS Reality node that can carry the network |
| `RelayOps.CheckSocks5` | backend/internal/api/relays.go:190-226 | a landing is accepted exactly when it is an enabled SOCKS5 node with credentials or a complete manual one |
| `RelayOps.DressedRelayServes` | backend/internal/api/relays.go:227-258 | a fixed exit always has destination, fingerprint and spider path; its server name is empty exactly when none was given and the destination starts with its colon; its keys match exactly unless a given pair does not |
| `RelayOps.RelayFormIsValid` | backend/internal/api/relays.go:112-276 | every accepted relay resolves to a landing the generator accepts or a node to forward to, on a port free of enabled nodes and relays |
| `RelayOps.NormalizeRelay` | backend/internal/api/relays.go:112-276 | the answer is the normal form of the body on the resolved server, or a refusal exactly when there is none |
| `Forms.RelayAcceptedExactly` | backend/internal/api/relays.go:112-276 | over the fields of the body: accepted exactly when named, on an existing server and a free port from 10000, and landing as its mode needs |
| `Forms.RelaySays` | backend/internal/api/relays.go:112-258 | over the fields of the body: a forwarding relay is stored as asked with its network, a fixed exit with its landing mode, without a node when it lands manually, and with the settings of Reality |
| `Forms.RelayFormIsStable` | backend/internal/api/relays.go:112-276 | storing an accepted relay again changes nothing |
| `RelayOps.StoreRelay` | backend/internal/api/relays.go:261-274 | a relay whose port is free keeps enabled relays of a server on different ports |
| `RelayOps.CreateRelay` | backend/internal/api/relays.go:30-50 | the normal form is stored under the new ID and enabled; the store stays sound; nodes stay off relays' ports exactly unless merging moves one onto another relay's |
| `RelayOps.UpdateRelay` | backend/internal/api/relays.go:72-88 | the normal form replaces the record, with the same effect on ports; a refusal leaves all relays |
| `RelayOps.RelayDeleteDisablesExactly` | backend/internal/api/relays.go:89-103 | deleting a relay disables a client exactly when it takes the client's last grant |
| `RelayOps.DeleteRelay` | backend/internal/api/relays.go:89-106 | the relay is gone and every client is unbound from it |
| `ClientOps.CleanIsSet` | backend/internal/api/clients.go:170-204 | cleaning keeps each trimmed, non-empty binding once |
| `Customers.CleanKeepsClean` | backend/internal/api/clients.go:170-204 | bindings that are clean already stay as they are, in their order |
| `ClientOps.ValidateClient` | backend/internal/api/clients.go:163-215 | accepted exactly when named, bound to existing nodes and at most one fixed exit, with limit and cycle in range; the result is the cleaned body |
| `Customers.ClientAcceptedExactly` | backend/internal/api/clients.go:163-215 | over the fields of the body: accepted exactly when named, bound to stored nodes, to stored fixed exits of which there is at most one, with a limit below 2^33 and a cycle of at most 366 days |
| `ClientOps.CleanedIsBound` | backend/internal/api/clients.go:170-204 | a cleaned acceptable body satisfies the bindings invariant |
| `ClientOps.CreateClient` | backend/internal/api/clients.go:31-69 | stored with an empty ledger whatever the body claimed, or nothing changes |
| `Customers.NewClientSays` | backend/internal/api/clients.go:37-62 | a new client is on, in a cycle that begins now, and has used nothing; credentials left out are issued |
| `ClientOps.SaveEdited` | backend/internal/api/clients.go:145-151 | a failed save puts the old record back |
| `ClientOps.UpdateClient` | backend/internal/api/clients.go:121-152 | status and new record of an edit, with the stored accounting, renewed when the expiry moves on |
| `Customers.EditedClientSays` | backend/internal/api/clients.go:127-145 | name, bindings and terms are the body's; identity, cursors and credentials left out are the stored ones |
| `Customers.UnchangedEdit` | backend/internal/api/clients.go:121-152 | sending back what is stored changes nothing but the time of the change, and writes out a legacy balance and cycle |
| `ClientOps.ResetToken` | backend/internal/api/clients.go:77-97 | a new token for that client, and nothing else but the time of the update |
| `ClientOps.DeleteClient` | backend/internal/api/clients.go:153-157 | exactly that client is gone |
| `ClientOps.CheckExitRequest` | backend/internal/api/clients.go:247-302 | accepted exactly when name, limit, exit, server and port are admissible on the resolved server |
| `ClientOps.ExitRelayLands` | backend/internal/api/clients.go:340-346 | the generator accepts the new relay exactly when the chosen exit is complete, and its traffic leaves there |
| `ClientOps.CreateClientWithSocks5Relay` | backend/internal/api/clients.go:240-353 | client and relay are stored together exactly when the request is acceptable, else neither |
| `Customers.PairAcceptedExactly` | backend/internal/api/clients.go:247-302 | accepted exactly when named, with an enabled exit, on an existing server and a free port from 10000 to 60000 |
| `Customers.PlanSays` | backend/internal/api/clients.go:262-284 | the plan is the chosen exit behind the host that is asked for or that of the server |
| `Customers.PairClientSays` | backend/internal/api/clients.go:303-347 | the new client has what was asked for and issued, is bound to its exit alone and has used nothing |
| `Customers.PairRelaySays` | backend/internal/api/clients.go:320-346 | the new relay lands at the chosen exit with its user and password, behind new keys |
| `Customers.PairIsServed` | backend/internal/api/clients.go:240-353 | the document of the chosen server has the inbound of the new exit, and lists the new client there until it expires |
| `Customers.PairLeavesBy` | backend/internal/api/clients.go:340-346 | what enters that inbound leaves at the chosen exit with its user and password |
| `Customers.PairIsOffered` | backend/internal/api/clients.go:240-353 | the subscription of the new client shows exactly its exit |
| `Customers.PairKeepsItsExit` | backend/internal/api/landing_exits.go:102-112 | while the new relay is there, its exit is in use and cannot be deleted |
| `ExitOps.ExitForm` | backend/internal/api/landing_exits.go:118-142 | refused exactly without host, port or credentials; what is accepted can be dialled and has a name |
| `Records.ExitSays` | backend/internal/api/landing_exits.go:118-142 | the record is the body without the blanks around its texts; without a name it gets its address for one |
| `Records.ExitIsStable` | backend/internal/api/landing_exits.go:118-142 | storing an accepted exit again changes nothing |
| `ExitOps.CreateExit` | backend/internal/api/landing_exits.go:30-50 | the normalized exit is stored enabled, or nothing changes |
| `ExitOps.UpdateExit` | backend/internal/api/landing_exits.go:82-101 | the normalized exit replaces the record, or nothing changes |
| `ExitOps.DeleteExit` | backend/internal/api/landing_exits.go:102-112 | an exit goes exactly when no fixed-exit relay has its address and user |
| `ExitOps.ChangeDuringTest` | backend/internal/api/landing_exits.go:215-256 | whatever edit or deletion comes between the two locks of a test, the exits are as before it |
| `Runs.ServeHeartbeat` | backend/internal/api/agent.go:13-61 | every heartbeat, that of a server deleted meanwhile included, keeps the store sound, and for each client is a reading if it counts and a mere wait if not; a failed one leaves clients as they were |
| `Runs.RacingLosesKeys` | backend/internal/api/agent.go:26-61 | server records stay under their own IDs if and only if the server of the heartbeat is still stored |
| `Runs.LedgersFollow` | backend/internal/api/clients.go:121-157 | what every request that is not a heartbeat means for every client's ledger |
| `Runs.Serve` | backend/internal/api/clients.go:31-157 | every request keeps the store sound, keeps server records under their own IDs exactly when it is no racing heartbeat, changes every ledger by exactly what it means for that client, and gives new clients a blank one |
| `Runs.RunFrom` | backend/internal/store/store.go:219-289 | any sequence of requests on any sound data file: bindings exist and are distinct, at most one fixed exit per client, nodes sit on existing servers, enabled relays of a server have different ports, exits can be dialled; every ledger is what its client's history makes of it, and histories hold no reading but what heartbeats reported for that client |
| `Runs.ExactInRuns` | backend/internal/api/traffic.go:16-125 | over any run the balance of every client stays the exact, once saturated sum of the cycle that its history makes, and the client is over its limit exactly when that sum reaches it |
| `Runs.NeverOverbilledInRuns` | backend/internal/api/traffic.go:39-125 | over any run of the store, what one client is billed in all its cycles never exceeds its initial balance and what really passed |
| `Runs.NewRun` | backend/internal/store/store.go:219-289 | after any sequence of requests on a new data file: it is sound, every balance is exact, and no client is billed more than passed |
| `Names.AheadShrinks` | backend/internal/api/subscription_formats.go:90-92 | every miss leaves fewer used names ahead, so the suffix search ends |
| `Names.FreeName` | backend/internal/api/subscription_formats.go:88-95 | the name taken is the candidate with the least free suffix |
| `Names.RenameDistinct` | backend/internal/api/subscription_formats.go:84-103 | names never meet each other nor a used or reserved one |
| `Names.RenameIsLeast` | backend/internal/api/subscription_formats.go:88-95 | each element takes the least suffix that is free when its turn comes |
| `Names.BasesSay` | backend/internal/api/subscription.go:163-172 | a node goes by its trimmed name or else by its address, a relay by its name or else by its ID |
| `Names.UniqueSubscriptionNames` | backend/internal/api/subscription_formats.go:84-103 | nodes first, then relays, get these names and nothing but names changes |
| `Names.NamesAreDistinct` | backend/internal/api/subscription_formats.go:84-103 | all names of a pass are pairwise distinct and none is PROXY, direct or DIRECT |
| `Names.ShareNameStarts` | backend/internal/api/subscription.go:167-172 | a share name starts with a blank only when it is a host that does |
| `Names.SecondPassIsIdentityExactly` | backend/internal/api/singbox.go:34 | the second pass is the identity if and only if every node has a name or a host without leading blank |
| `Names.ShownExactly` | backend/internal/api/singbox.go:22-33 | shown are exactly the enabled nodes whose protocol can be shared and the enabled fixed exits |
| `Names.SelectorIsCoherent` | backend/internal/api/singbox.go:48-55 | tags are distinct, every choice names an outbound and the default is a choice |
| `Names.BuildSingBox` | backend/internal/api/singbox.go:22-55 | the selector and outbound tags of the visible nodes and active relays, coherent for every input |
| `Versions.ParseSemanticVersion` | backend/internal/api/upgrade_tasks.go:292-331 | succeeds exactly on what `Versions.ParsesExactly` describes, with that version |
| `Versions.ParsesExactly` | backend/internal/api/upgrade_tasks.go:292-331 | a text is read as a version exactly when it is one of its spellings: blanks, perhaps a leading v, one to three decimal numerals within int64, missing ones being zero, perhaps a prerelease, `stable` meaning none, blanks |
| `Versions.TagParses` | backend/internal/api/upgrade_tasks.go:292-331 | a release tag with its leading v, blanks around it, is read as the version it names |
| `Versions.ShowIsNormalForm` | backend/internal/api/upgrade_tasks.go:292-331 | every version that is read is read back from its canonical spelling |
| `Versions.ReadsBackExactly` | backend/internal/api/upgrade_tasks.go:292-331 | a version survives being written out if and only if its prerelease is not `stable` and does not end in a blank |
| `Precedence.CompareSemanticVersion` | backend/internal/api/upgrade_tasks.go:333-376 | the comparison specified, 0 only on equality |
| `Precedence.VersionMatchesTarget` | backend/internal/api/upgrade_tasks.go:281-285 | two texts match exactly when both denote the same version |
| `Precedence.TagMatches` | backend/internal/api/upgrade_tasks.go:281-285 | an installed version matches the tag of its release, whichever of the two has the leading v |
| `Precedence.MatchesExactly` | backend/internal/api/upgrade_tasks.go:281-285 | two texts match exactly when they are spellings of one version |
| `Precedence.AntisymmetricExactly` | backend/internal/api/upgrade_tasks.go:333-376 | swapping the versions negates the answer if and only if the first different identifiers are not one number spelt in two ways |
| `Precedence.LeadingZeroBreaksAntisymmetry` | backend/internal/api/upgrade_tasks.go:356-363 | the input that shows the failing case |
| `Precedence.CompareTransitive` | backend/internal/api/upgrade_tasks.go:333-376 | the comparison is transitive for all versions, other spellings of numbers included |
| `Precedence.OutranksExactly` | backend/internal/api/upgrade_tasks.go:346-376 | one prerelease is greater if and only if at the first difference it has one more field, a number that is not smaller, a text where the other has a number, or the later text |
| `Precedence.TotalOrder` | backend/internal/api/upgrade_tasks.go:333-376 | on canonical identifiers the comparison is a total order |
| `Precedence.MisreadExactly` | backend/internal/api/upgrade_tasks.go:355-370 | for two different identifiers that section 9 of Semantic Versioning 2.0.0 allows, the code's answer is that of section 11 if and only if their kinds - small or oversize number, hyphen before digits, other text - are not misread |
| `Precedence.MatchesSection11Exactly` | backend/internal/api/upgrade_tasks.go:333-376 | on versions with such identifiers the comparison is the order of section 11 if and only if the first identifiers that differ are not misread |
| `Precedence.HyphenBreaksSection11` | backend/internal/api/upgrade_tasks.go:356-363 | the first kind: 1.0.0--1 precedes 1.0.0--2 and compares greater |
| `Precedence.OversizeBreaksSection11` | backend/internal/api/upgrade_tasks.go:364-370 | the second kind: of two numbers beyond int64 the shorter one compares greater when it is the later text |
| `PanelVersions.NumericVersionParts` | backend/internal/api/updates.go:264-298 | the dotted numbers from the first digit on, empty and oversized ones being 0 |
| `PanelVersions.ReleaseIDSays` | backend/internal/api/updates.go:264-298 | of a release ID with any blanks, any text without digits before its numbers and any suffix after them, each run of digits is its decimal value, an empty one or one beyond int64 zero |
| `PanelVersions.PartsMeaning` | backend/internal/api/updates.go:240-261 | the numeric fallback is the lexicographic order of zero-padded parts |
| `PanelVersions.PartsPreorder` | backend/internal/api/updates.go:240-261 | it is a total preorder, and zeros at the end change nothing |
| `PanelVersions.ComparePanelVersions` | backend/internal/api/updates.go:233-262 | semantic when both parse, numeric otherwise |
| `PanelVersions.TagBeatsPrerelease` | backend/internal/api/updates.go:233-262 | a release, spelt as its tag, is newer than each of its prereleases |
| `PanelVersions.TagsByNumbers` | backend/internal/api/updates.go:233-262 | the numbers decide before any prerelease, tagged or not |
| `PanelVersions.NumbersOfParsed` | backend/internal/api/updates.go:264-298 | both branches read the same numbers out of a version that parses |
| `PanelVersions.SemanticRefinesNumeric` | backend/internal/api/updates.go:233-262 | the semantic comparison only breaks ties of the numeric one |
| `PanelVersions.NeverBothNewerExactly` | backend/internal/api/updates.go:229-231 | two versions are newer than each other if and only if both parse and their prereleases spell one number in two ways |
| `PanelVersions.TransitiveExactly` | backend/internal/api/updates.go:233-262 | for all texts, along a <= b <= c transitivity fails if and only if a and c parse to the same numbers, b does not parse, and the prerelease of a outranks that of c |
| `PanelVersions.TransitiveBySection11` | backend/internal/api/updates.go:233-262 | with identifiers that section 9 of Semantic Versioning 2.0.0 allows, transitivity then fails exactly when c precedes a by section 11, if and only if the code does not misread their first identifiers that differ |
| `PanelVersions.NotTransitive` | backend/internal/api/updates.go:233-262 | three versions where it fails |
| `Shell.ShellEscape` | backend/internal/api/updates.go:301-306 | refused exactly with a newline, carriage return or NUL; otherwise a shell reads the result as one word, the value |
| `Shell.ShellEscapeValues` | backend/internal/api/updates.go:308-318 | refused exactly when one value is; otherwise every value quoted, in order |
| `Shell.ReadQuoted` | backend/internal/api/updates.go:301-306 | reading the quoted text appends the value and ends outside the quotes, whatever follows |
| `Shell.ArgumentsComeBack` | backend/internal/api/updates.go:308-318 | a list of quoted values separated by blanks is read as exactly that list (sections 2.2.1 and 2.2.2 of the POSIX Shell Command Language) |
| `UserInfo.BuildUserInfoLink` | backend/internal/api/subscription.go:421-434 | the encoded user enters the link once, after the scheme |
| `UserInfo.EncodeRoundTrip` | backend/internal/api/subscription.go:422-430 | percent-decoding gives every byte string back, and only unreserved characters and percent signs are written (sections 2.1 and 2.3 of RFC 3986) |
| `UserInfo.EncodeByteSays` | backend/internal/api/subscription.go:422-430 | letters, digits and `-._~` stand for themselves, any other byte is a percent sign and two capital hexadecimal digits |
| `UserInfo.LinkRoundTrip` | backend/internal/api/subscription.go:421-434 | user and base link are both recovered from the link |

## Left out

- HTTP routing, JSON, sessions, passwords, CORS, logging, the dashboard and the diagnosis probes: input and output or library wrappers.
- Saving the data file (SaveLocked's normalization and the write itself): a save is a parameter that says whether it succeeded, and handlers that ignore its error are modelled as storing in memory.
- SHA-256 and JSON marshalling of configs: the hash stands for the config.
- The DNS, log, stats and policy sections of the Xray config, its sniffing options and the constants of policy normalization: nothing stated here depends on them beyond the blocking rules.
- Record fields no modelled code reads: emails, remarks, creation times of nodes, relays and clients, CPU, memory and disk percentages, the UDP flag of manual landings.
- Byte-level details of strings: a string is a sequence of characters, `strings.ToLower` and `EqualFold` fold ASCII letters only.
- AddDate in the renewal of a billing cycle: a day is 24 hours.
- The derived trojan password: a function of the client ID that the theorems quantify over.
- Random identifiers, tokens and Reality keys: parameters; in runs an arrival whose random identifier is already used is passed over.
- Two reads of the clock within one request: one instant.
- `sort.SliceStable` and `sort.Slice`: an insertion sort; the proofs only use that sorted arrangements under these keys are unique.
- /proc parsing and the statistics command: foreign programs; what a process identity is made of is not modelled, only that no two processes have one.
- Build metadata of a version (section 10 of Semantic Versioning 2.0.0): the code takes it for part of the prerelease, and identifiers with a plus sign are outside the comparison with section 11.
- The shell upgrade runner and its task states, installers, nginx, Xray and systemd: foreign programs; a reload is a step that succeeds or fails.
- Clash and raw subscription texts, share links beyond names and userinfo, the Vue views and TypeScript exporters: long but easy string building.
- Bulk import of landing exits (its text format; each line is then a POST), the results of connection tests, the normalization of a policy, and admin accounts.
- A relay may keep pointing at a server or a landing node that was deleted, and a client may stay bound to a relay that an edit turned into a forwarding one: the code does not prevent it, so no such invariant is stated.
- NodeOps.CreateNode: does not promise that ports stay apart, because the code does not; its contract has the exact condition under which they do.
- LocalServers.DefaultServerID: names the server only when there is a liveliest one, because otherwise the order of the map decides; see `LocalServers.DefaultIgnoresOrderExactly`.
