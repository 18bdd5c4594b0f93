# A verified model of the tunnel's Go core

The program tunnels TCP and UDP from a client to one or several servers. The parts modelled
here are those in which something can go wrong that no single function shows:

- the **upstream manager**: health counters with hysteresis, sticky failover, round-robin,
  weighted and latency selection, reconnects that dial outside the lock, hot reload, Close;
- the **datagram flows**: a handshake on a control stream assigns flow identifiers, payloads
  then ride a channel that loses and reorders, and both ends demultiplex;
- the **framing** of datagrams on byte streams, and the **session picking** of a tunnel pool;
- the **hash keys** of addresses and address pairs, and the stream table built on them;
- the **configuration**: validation in place, resolution of upstreams, hiding and restoring
  secrets, port ranges and the redirect chain made of them.

Functions on values say what an operation computes. Classes (`ManagerObject`, `Sessions.Pool`,
`DatagramPool.DgramPool`, `DatagramHub.DgramHub`, `UdpTable.Table`, `Framing.Stream`, `Writer`
and `Socket`, `ConfigObject`, `Redirect.Manager`) update their fields in place as the program
does and are proved against those functions. Two step systems put everything that runs
concurrently together: `FlowMux` (the client's pool and the server's hubs) and `PoolSystem`
(the manager, its reconnects, reloads and Close); three smaller ones, `UdpRaces`, `PoolClosing`
and `RedirectRaces`, look at one race each. A locked region is one step; dialling, pinging,
closing, sending and running a command are steps of their own, and theorems about runs hold for
every interleaving.

Where the program, or what its documentation says of it, does not have a property in general,
the exact condition is proved, and a concrete input or run shows that it can fail:

- The documentation (docs/index.html:236) promises "always the highest-priority healthy
  server"; the code keeps a healthy active server. When its choice is the best one is exact at
  every reachable state (`PoolRuns.RunFailoverBestIff`, `Selection.StickyWitness`).
- A reload during a reconnect lets a pool dialled to the old address into the new entry, and
  the pool the reload dialled is closed. Runs in which pools and endpoints agree are exactly those
  without such a swap (`PoolRuns.RunAgreesIff`, `PoolWitness.StaleReconnect`).
- A reload that commits after Close leaves open pools in a closed manager. All pools end up
  closed if and only if every committed load is followed by a Close (`PoolRuns.AllClosedIff`,
  `PoolWitness.ReloadAfterClose`).
- A repeated upstream name leaks a pool. Pools stay accounted for if and only if no reload dials
  twice for one name (`PoolRuns.RunLeaksIff`, `PoolWitness.RepeatedName`).
- The outcome of a health check can depend on the order of a map iteration; when it does is
  characterised exactly (`HealthRounds.OrderFreeIff`, `HealthRounds.OrderWitness`).
- Fairness over a full cycle fails where a uint32 counter wraps, unless the number of
  sessions or upstreams divides 2^32 (`Tickets.CycleFairIff` and its uses,
  `Tickets.WrapWitness`, `Sessions.UnfairWitness`); for weights the exact
  condition compares what the wrap leaves out of a share with what it repeats
  (`Fairness.WeightedCycleIff`).
- The pair key hashes a bare concatenation, so pairs split differently share a stream
  (`Fnv.PairKeyCollision`, `UdpTable.SharedStream`). The table behaves as one keyed by pairs if and
  only if no pairs in use share a key (`UdpTable.RunAgreesIff`).
- OpenUDP looks up and stores under two separate locks. Overlapping calls lose a stream if and
  only if two of them store under one key with no CloseUDP of it in between
  (`UdpRaces.LossIff`, `UdpRaces.TwoOpensWitness`).
- The CloseUDP that ends a stream is routed by a pick of its own, so it can go to another pool
  than the OpenUDP. When it does not is exact in every run, whatever calls, health checks,
  reconnects and reloads come in between: both calls must be routed to one name whose pool is not
  taken out of its entry (`UdpRouting.SamePoolIff`), and when the names agree is exact for bound
  traffic and for each strategy (`UdpRouting.BoundReturnsIff`, `UdpRouting.FailoverReturnsIff`,
  `UdpRouting.LatencyReturnsIff`, `UdpRouting.RoundRobinReturnsIff`,
  `UdpRouting.WeightedReturnsIff`). One health check, one call or one reconnect is enough
  to miss (`RoutingWitness.LatencyWitness`, `RoutingWitness.RoundRobinWitness`,
  `RoutingWitness.SwapWitness`).
- The default route calls the pool that poolFor finds without looking whether there is one. There is
  none exactly when every committed load has been followed by a Close (`PoolRuns.NoPoolIff`).
- Weights are not bounded, but tickets are: a healthy upstream is chosen by some ticket if and
  only if its share starts below 2^32 (`Fairness.WeightedReachIff`,
  `RoutingWitness.NeverChosenWitness`).
- Close of a pool drops the map of control streams before it closes the sessions. A handshake that
  succeeds in between writes to the nil map. The states from which that can still happen and the
  runs in which it does are exact (`PoolClosing.CanPanicIff`, `PoolClosing.RunPanicsIff`,
  `PoolClosing.PanicWitness`).
- Flow identifiers wrap after 2^64 opens, and that is the exact bound
  (`FlowWrap.SafetyBound`).
- What a client sends under a key it holds is written on arrival if and only if its flow has not
  been closed in the run so far (`FlowRuns.KeyDeliversIff`); once it has, the key stays dead for good
  (`FlowRuns.DeadKeyForever`, `FlowWrap.DeadKeyWitness`).
- validateTransport's bound on the sum of shards is evaded exactly by sums that overflow
  (`ResolvedFacts.ShardOverflowIff`, `ConfigWitness.OverflowWitness`).
- A server that overrides the protocol with kcp under a global quic transport can end up without
  a block cipher; which accepted configurations resolve to such an endpoint is exact in terms of
  their own texts (`ResolvedFacts.MissingCipherIff`, `ConfigWitness.BlankBlockWitness`).
- Validate compares `bind_upstream` trimmed, routing compares it as written
  (`ResolvedFacts.BindNamesEndpointIff`, `PoolRuns.BoundTraffic`, `ConfigWitness.UntrimmedWitness`).
- Restoring hidden keys goes by name, and names need not be distinct
  (`Secrets.RestoreRedactIff`, `ConfigWitness.NamesakesWitness`); in an edited list a server comes
  back as meant if and only if its key is the one its name or position leads to
  (`Secrets.EditedServersIff`, `Secrets.NewServerTakesKey`). Passwords go by position, so an edited list of rules comes back as
  meant if and only if every rule stands where its password stood (`Secrets.EditedPasswordsIff`,
  `Secrets.SwappedPasswords`).
- Redaction hides exactly the global key, the admin token, the keys of servers and the passwords;
  the key in a server's own transport block shows (`Secrets.RedactHidesIff`,
  `Secrets.OverrideKeyShows`).
- A start of range mode that fails leaves its partial chain behind (`Redirect.Manager.Install`). For
  an accepted configuration it fails, unless a command does not run, if and only if the redirect
  port is above 65535 (`ResolvedFacts.AcceptedChainIff`, `ConfigWitness.NoPortWitness`).
- A reload starts the new range mode without waiting for the rules of the old one to be removed.
  For which interleavings of the two the new chain is in force is exact; with others the start
  reports success and nothing is redirected (`RedirectRaces.InForceIff`,
  `RedirectRaces.SucceedsInVain`, `RedirectRaces.EmptiedWitness`).

## Model

| member | source | states |
|---|---|---|
| Upstreams.OpKeepsCoherent | internal/upstream/manager.go:107-118 | every locked region keeps the order a listing of exactly the entries, the active name an entry while there are any, and weights and thresholds positive |
| Upstreams.HealthyNamesIff | internal/upstream/manager.go:200-208 | the healthy names are exactly the ordered names whose entry is healthy |
| Upstreams.FirstHealthy | internal/upstream/manager.go:297-308 | what a scan in order meets first is what failover takes |
| Upstreams.RoundFrame | internal/upstream/manager.go:259-295 | a health check never changes pools, endpoints, order or tickets |
| Upstreams.HealthSettings | internal/config/upstream.go:27-45 | resolved thresholds are at least one; what they do is Settings.ConfiguredThresholds |
| ManagerObject.ManagerObject.constructor | internal/upstream/manager.go:51-60 | a new manager has the configured strategy and thresholds, no entries and nothing active |
| ManagerObject.ManagerObject.HealthyNamesLocked | internal/upstream/manager.go:200-208 | the loop computes the healthy names in order |
| ManagerObject.ManagerObject.WeightedPickLocked | internal/upstream/manager.go:210-227 | the two loops choose by the ticket's share of the wrapping total and draw a ticket exactly when the total is not zero |
| ManagerObject.ManagerObject.LatencyPickLocked | internal/upstream/manager.go:229-243 | the loop chooses the first position of least latency |
| ManagerObject.ManagerObject.PickLocked | internal/upstream/manager.go:177-198 | choice and new state for all four strategies and for no healthy entry |
| ManagerObject.ManagerObject.PoolFor | internal/upstream/manager.go:160-175 | pool and new state, bound or not |
| ManagerObject.ManagerObject.FailoverLocked | internal/upstream/manager.go:297-308 | the active name becomes the first healthy one, or stays if there is none |
| ManagerObject.ManagerObject.CheckEntry | internal/upstream/manager.go:263-293 | counters, flag, failover and launch of a reconnect for one entry |
| ManagerObject.ManagerObject.RunHealthCheck | internal/upstream/manager.go:259-295 | for some order that visits each entry once, the state after a round, and for which entries a reconnect is launched |
| ManagerObject.ManagerObject.SwapPool | internal/upstream/manager.go:365-380 | the locked end of a reconnect: nothing if the entry is gone, else its whole new state and the replaced pool |
| ManagerObject.ManagerObject.CommitReload | internal/upstream/manager.go:480-491 | the locked end of a reload, the replaced entries, the active name |
| ManagerObject.ManagerObject.CloseLocked | internal/upstream/manager.go:107-118 | each entry's pool is closed once and entries and order are emptied |
| Selection.RunCoherent | internal/upstream/manager.go:160-198 | every reachable manager is coherent |
| Selection.RouteSafe | internal/upstream/manager.go:160-198 | a healthy bound upstream is used, else a healthy one if any exists, else the active one; no pool exactly without entries |
| Selection.RunRoutesSafely | internal/upstream/manager.go:160-198 | so in every reachable state |
| Selection.StaysActive | internal/upstream/manager.go:192-196 | a healthy active entry stays active through any run without reload or Close |
| Selection.ChangeMeansUnhealthy | internal/upstream/manager.go:192-196 | under failover the choice changes between two picks only if the first choice was unhealthy in between or the entries were replaced |
| Selection.SwapRevives | internal/upstream/manager.go:365-380 | after a swap the active upstream is healthy: the one that was if it was healthy, else the reconnected one; its entry is clean and all others are untouched |
| Selection.FirstBack | internal/upstream/manager.go:377-379 | of servers that are all down the first one reconnected gets the traffic under failover, and keeps it while it stays healthy |
| ReconnectRuns.SwapInRevives | internal/upstream/manager.go:365-380 | in every run, likewise for every swap that finds its entry |
| ReconnectRuns.TryingIff | internal/upstream/manager.go:318-386 | in every run a reconnect goes on trying, whatever dials and pings fail, exactly from setting its flag until the context is cancelled, its entry is gone or healthy with a pool alive, or it comes to swap |
| ReconnectRuns.LeavesAfter | internal/upstream/manager.go:325-386 | and clears its flag only after that |
| ReconnectRuns.CancelledIff | internal/upstream/manager.go:107-109 | in every run the context is cancelled exactly once the program is stopped or the manager is closed |
| ReconnectRuns.RunSettings | internal/upstream/manager.go:480-491 | in every run the strategy and the thresholds in force are those that the last committed load was begun with |
| Settings.StrategyWords | internal/config/upstream.go:47-58 | which texts select which strategy: the words in any case and within white space, and failover for all others |
| Settings.ConfiguredThresholds | internal/config/upstream.go:27-45 | with a configuration's settings an upstream falls with its fail_threshold-th failure in a row, by default the third, and recovers with its recover_threshold-th success, by default the second |
| Selection.FailoverBestIff | internal/upstream/manager.go:192-196 | failover chooses a healthy upstream of highest rank if and only if the active one is unhealthy or has that rank |
| Selection.StickyWitness | docs/index.html:236 | a run from start after which failover does not choose the highest-priority healthy server |
| Selection.OpKeepsRank | internal/upstream/manager.go:480-491 | the order stays by rank if reloads are given endpoints by rank |
| Selection.FastestMeans | internal/upstream/manager.go:229-243 | the first position of least latency, and position zero only if all are the largest |
| Selection.LatencyPick | internal/upstream/manager.go:229-243 | no healthy entry beats the one chosen by latency |
| Selection.UnmeasuredPick | internal/upstream/manager.go:229-243 | in terms of what was measured: an unmeasured upstream is chosen as if it took one millisecond |
| Hysteresis.Refines | internal/upstream/manager.go:263-293 | for every ping history since a reset: the counters are the runs it ends with, and unhealthy means a completed failure run with no completed recovery run after it |
| Hysteresis.Turns | internal/upstream/manager.go:271-291 | the flag turns exactly when a run completes |
| HealthRounds.RunHysteresis | internal/upstream/manager.go:373-376 | the same in every reachable state, swaps and reloads being the resets |
| Hysteresis.LatencyMeans | internal/upstream/manager.go:284 | for every ping history the latency is that of the last ping answered, by an unhealthy entry too |
| HealthRounds.RunLatency | internal/upstream/manager.go:284 | in every reachable state it is that of the last ping answered since the entries were loaded, across reconnects, or zero |
| HealthRounds.RoundEntries | internal/upstream/manager.go:263-293 | counters, flags and latencies do not depend on the iteration order |
| HealthRounds.SettledOutcome | internal/upstream/manager.go:259-308 | the outcome of a settled round, in closed form |
| HealthRounds.OrderFreeIff | internal/upstream/manager.go:259-308 | a round has one outcome for all orders if and only if the active entry does not fall, or the first entry healthy at the end was so at the start, or it was the only healthy one and none is left |
| HealthRounds.OrderWitness | internal/upstream/manager.go:263-277 | two servers that fail in one check: the one that ends up active depends on the iteration order |
| HealthRounds.NoRecoveryConfluent | internal/upstream/manager.go:259-308 | without recoveries and with somebody left the round is confluent and a fallen active entry is replaced by the first healthy one |
| Fairness.TotalExact | internal/upstream/manager.go:211-214 | the wrapping total is the sum of the weights if that fits |
| Fairness.TotalZeroIff | internal/upstream/manager.go:215-217 | the branch for total zero is taken exactly when positive weights add up to a multiple of 2^64 |
| Fairness.WalkMeans | internal/upstream/manager.go:219-225 | the walk stops where the share of the sum contains the number |
| Fairness.WalkStops | internal/upstream/manager.go:219-226 | the return behind the loop is never reached, even with a wrapped total |
| Fairness.WeightedPickIff | internal/upstream/manager.go:210-227 | which ticket remainders choose which upstream |
| Fairness.WeightedFair | internal/upstream/manager.go:210-227 | any window of picks chooses each upstream between the floor and the ceiling of its quotient times the weight |
| Fairness.WeightedCycle | internal/upstream/manager.go:210-227 | a full cycle chooses each upstream weight times |
| Fairness.WeightedIff | internal/upstream/manager.go:210-227 | an upstream is picked if and only if the number its ticket stands for lies in its share of the healthy weights, wrapped total or not |
| Fairness.WeightedReachIff | internal/upstream/manager.go:210-227 | an upstream is picked by some ticket if and only if its share starts below 2^32 and, if the total wraps, below its absolute value; if it wraps to zero, only the first upstream is |
| RoutingWitness.NeverChosenWitness | internal/upstream/manager.go:218 | a weight of 2^32 leaves the healthy server behind it without any ticket |
| Fairness.WeightedCycleIff | internal/upstream/manager.go:210-227 | an upstream gets its weight of a full cycle if and only if the counter does not wrap or the wrap repeats as much of its share as it leaves out; for weights above 2^32 in sum, if and only if the full turns of the counter and the rest give it just that |
| Fairness.RoundRobinFairIff | internal/upstream/manager.go:184-186 | n picks over n healthy upstreams choose each once if and only if the counter does not wrap on the way or n divides 2^32 |
| Ledger.MoveHouses | internal/upstream/manager.go:318-387 | every way pools change hands keeps each in exactly one place, and leaks one exactly when a dial reuses a slot |
| PoolSystem.StepMoves | internal/upstream/manager.go:318-505 | every step of the system moves pools in one of those ways |
| PoolInvariants.StepIsOp | internal/upstream/manager.go:318-505 | the manager changes in locked regions only, and a reload commits only what its loop has built |
| PoolInvariants.StepKeepsFlags | internal/upstream/manager.go:318-325 | each set reconnect flag belongs to exactly one reconnect |
| PoolInvariants.AgreeIff | internal/upstream/manager.go:335-373 | a step breaks the agreement of pools and endpoints if and only if it is a swap into an entry whose endpoint has changed |
| PoolRuns.RunProjects | internal/upstream/manager.go:318-505 | seen from the manager alone every run is a run of its locked regions |
| PoolRuns.ForgetsIff | internal/upstream/manager.go:466-478 | a pool is forgotten exactly by a dial for a name staged before |
| PoolRuns.RunLeaksIff | internal/upstream/manager.go:466-478 | in every run every pool dialled is still found somewhere if and only if no reload has dialled twice for one name |
| PoolRuns.RunHouses | internal/upstream/manager.go:318-505 | conservation: in every run every dialled pool is in exactly one entry, goroutine or the closed ones, and none leaks if loads have distinct names |
| PoolRuns.InstalledIsOpen | internal/upstream/manager.go:318-505 | no installed pool is closed, shared or held; nothing is closed twice |
| PoolRuns.RoutesToOpenPool | internal/upstream/manager.go:160-175 | poolFor hands out a pool that is open at that moment |
| PoolRuns.Quiescent | internal/upstream/manager.go:460-505 | with no goroutine left every dialled pool is installed or closed |
| PoolRuns.OneReconnect | internal/upstream/manager.go:318-325 | no two reconnects run for one entry, and a flag is set only while one does |
| PoolRuns.RunAgrees | internal/upstream/manager.go:335-373 | without a reload between a reconnect's read and its swap every installed pool was dialled to its own entry's endpoint |
| PoolRuns.RunAgreesIff | internal/upstream/manager.go:335-373 | pools and endpoints agree in all states of a run if and only if no step of it is a stale swap |
| PoolRuns.ClosedStaysEmpty | internal/upstream/manager.go:107-118 | a closed manager stays empty, and its active name as it was, until a reload commits |
| PoolRuns.EmptyIff | internal/upstream/manager.go:480-491 | in every run the manager is empty if and only if every committed load was followed by a Close |
| PoolRuns.NoPoolIff | internal/upstream/manager.go:135-175 | in every run poolFor finds no pool, bound or not, exactly when every committed load has been followed by a Close |
| PoolRuns.AllClosedIffEmpty | internal/upstream/manager.go:107-118 | with no goroutine left all pools are closed exactly when none is installed |
| PoolRuns.AllClosedIff | internal/upstream/manager.go:107-118 | with no goroutine left all pools ever dialled are closed, each once, if and only if every committed load was followed by a Close |
| PoolRuns.CloseClosesAll | internal/upstream/manager.go:107-118 | after Close, without a later reload, all pools ever dialled end up closed exactly once |
| PoolRuns.ResolvedUsable | internal/config/upstream.go:70-130 | what a configuration resolves to can be loaded at any moment: named endpoints, positive weights and thresholds |
| PoolRuns.CommitInstalls | internal/upstream/manager.go:466-491 | a reload installs exactly its endpoints, in order and by rank |
| PoolRuns.ResolvedSorted | internal/config/upstream.go:110-115 | what UpstreamEndpoints yields is in rank order |
| PoolRuns.RunRanked | internal/upstream/manager.go:466-491 | in every run whose loads are resolved from configurations with distinct names the manager's order is by rank |
| PoolRuns.RunFailoverBestIff | internal/upstream/manager.go:192-196 | so at every reachable state failover chooses a healthy upstream of highest rank if and only if the active one is unhealthy or has that rank |
| PoolRuns.BoundTraffic | internal/config/config.go:292-302 | an accepted binding names an entry exactly when written trimmed, routes to it while healthy, and takes the default route otherwise |
| PoolWitness.StaleReconnect | internal/upstream/manager.go:336-373 | a run in which a reload during a reconnect ends with a pool to the old address in the new entry |
| PoolWitness.ReloadAfterClose | internal/upstream/manager.go:460-505 | a run that ends with an open pool in a closed manager and no goroutine left |
| PoolWitness.RepeatedName | internal/upstream/manager.go:68-73 | a run with a repeated name that ends with a pool neither installed nor closed |
| FlowMux.StepKeepsInv | internal/tunnelpool/pool.go:103-181 | every step of client pool, hubs, handlers and network keeps the two-party invariant |
| FlowMux.HubFindsOwnSocket | internal/tunnel/dgram.go:39-61 | a hub that finds a socket finds the one dialled by the handshake of the datagram's flow |
| FlowMux.PoolFindsOwnClosure | internal/tunnelpool/pool.go:153-181 | the pool finds the closure the flow's handshake registered, exactly when it succeeded |
| FlowRuns.NoCrossDelivery | internal/tunnel/dgram.go:39-117 | in every run a payload reaches only a socket dialled for its key, and a reply only the closure of its flow's handshake |
| FlowRuns.ForwardKeyInjective | internal/forward/manager.go:190 | a forward's key determines the client's address and the target |
| FlowRuns.ReachesOwnTarget | internal/forward/manager.go:190 | with these keys what a client sends for a target is never written to a socket dialled for another |
| FlowRuns.HandshakeLock | internal/tunnelpool/pool.go:103-141 | no lookup of a successfully opened flow finds no closure |
| FlowRuns.OnlyOpenersAreHeard | internal/tunnelpool/pool.go:107-109 | only the closure passed by the call that opened a flow is ever called |
| FlowRuns.OneFlowPerKey | internal/tunnelpool/pool.go:107-147 | in every run a key is known exactly when some handshake for it has succeeded, and no second one ever does |
| FlowRuns.ReapedForever | internal/tunnel/dgram.go:82-117 | a closed flow stays closed and late datagrams for it are discarded |
| FlowRuns.HubFindsIff | internal/tunnel/dgram.go:39-61 | in every run a datagram that reaches its hub is written if and only if no closeFlow of its flow has happened in that run |
| FlowRuns.KeyDeliversIff | internal/tunnelpool/pool.go:103-149 | what is sent under a key the client holds is written on arrival to the socket of that key's handshake if and only if no closeFlow of its flow has happened |
| FlowRuns.SentArrives | internal/tunnel/dgram.go:39-61 | from end to end in every run: what is sent can arrive at once and is then written whole to that key's socket alone, or nowhere once the flow has been closed |
| FlowRuns.ReplyArrives | internal/tunnelpool/pool.go:153-181 | and back: what the flow's socket says can arrive at once unless another handshake holds the lock, and goes whole to the closure of the flow's handshake alone, or to nobody where that failed |
| FlowRuns.DeadKeyForever | internal/tunnelpool/pool.go:107-109 | once the server has closed a flow its key is dead for the client for good |
| FlowWrap.DeadKeyWitness | internal/tunnel/dgram.go:90-94 | a run in which the client holds a key whose flow the server has closed |
| FlowWrap.CrossDelivery | internal/tunnel/dgram.go:64-77 | a run that delivers across keys after 2^64 + 1 opens |
| FlowWrap.SafetyBound | internal/tunnel/dgram.go:64-77 | runs with at most n opens per session never deliver across keys, to sockets or to deliver closures, if and only if n is at most 2^64 |
| DatagramHub.IdInjective | internal/tunnel/dgram.go:64-77 | identifiers differ within any 2^64 consecutive opens |
| DatagramHub.DgramHub.OpenFlow | internal/tunnel/dgram.go:64-77 | the allocated identifier and the whole new hub |
| DatagramHub.DgramHub.Receive | internal/tunnel/dgram.go:39-61 | which socket a datagram is written to, if any |
| DatagramHub.DgramHub.CloseFlow | internal/tunnel/dgram.go:109-117 | exactly that flow is gone |
| DatagramPool.DgramPool.OpenUDPDatagram | internal/tunnelpool/pool.go:103-149 | a known key is answered without a handshake, an unknown one registered exactly if its handshake succeeds |
| DatagramPool.DgramPool.Receive | internal/tunnelpool/pool.go:153-181 | which closure a datagram is delivered to, if any |
| Dgram.DecodeEncode | internal/protocol/dgram.go:11-27 | decoding undoes encoding for every identifier and payload |
| Dgram.EncodeDecode | internal/protocol/dgram.go:21-27 | what decodes at all is the encoding of what it decodes to |
| Dgram.EncodeDatagram | internal/protocol/dgram.go:11-16 | the buffer filled in place is the encoding |
| Framing.ParseFrames | internal/protocol/datagram.go:15-44 | reading back the frames of any list of payloads of at most 65535 bytes gives that list, and never the overflow error |
| Framing.FramesOfParse | internal/protocol/datagram.go:28-44 | every byte string is the frames of what it parses to and an incomplete rest that determines the error |
| Framing.FramesUnique | internal/protocol/datagram.go:28-44 | only one list and rest make up a byte string |
| Framing.ParseTruncated | internal/protocol/datagram.go:28-44 | a cut stream yields the whole datagrams before the cut and then an error, and which |
| Framing.ReadFull | internal/protocol/datagram.go:28-44 | io.ReadFull over arbitrary chunks fills the buffer with the next bytes or reports which end it met |
| Framing.ReadOversized | internal/protocol/datagram.go:37-39 | a payload that does not fit the buffer is refused as too large and stays in the stream |
| Framing.ReadDatagram | internal/protocol/datagram.go:28-44 | one frame of the stream however it is chunked |
| Framing.WriteDatagram | internal/protocol/datagram.go:15-24 | an oversized payload is refused before a byte is written, others are written as frames |
| Framing.RelayToTarget | internal/tunnel/relay.go:52-69 | exactly the non-empty datagrams of the stream are forwarded, in order, until stream or socket fails |
| Framing.NonEmptyMeans | internal/tunnel/relay.go:52-69 | empty datagrams are dropped, all others kept, in order |
| Framing.RelayFromTarget | internal/tunnel/relay.go:71-88 | the bytes written are the frames of what arrived, cut only where the stream fails |
| Framing.RelayedPrefix | internal/tunnel/relay.go:39-96 | end to end the reader gets a prefix of the datagrams sent |
| Bytes.BigMeans | internal/protocol/datagram.go:15-44 | lengths and identifiers are read with the most significant byte first |
| PoolClosing.CanPanicIff | internal/tunnelpool/pool.go:52-67 | from a reachable state the write to the nil map can still come if and only if some session of the pool is live, or Close has begun and a reply that arrived since waits to be read |
| PoolClosing.RunPanicsIff | internal/tunnelpool/pool.go:103-149 | a run panics if and only if a call reads its reply after Close has begun |
| PoolClosing.PanicWitness | internal/tunnelpool/pool.go:52-67 | five steps to the panic |
| Sessions.FirstNoneIff | internal/tunnelpool/pool.go:70-97 | the search finds nothing exactly when no session is usable |
| Sessions.FirstInCyclicOrder | internal/tunnelpool/pool.go:80-97 | it returns exactly the first usable session in cyclic order from the ticket |
| Sessions.OpenFromTries | internal/tunnelpool/pool.go:183-206 | only live sessions are tried, none twice, and all before giving up |
| Sessions.OpenStreamOutcome | internal/tunnelpool/pool.go:183-216 | opening fails exactly when no live session opens a stream |
| Sessions.OpenFromMeans | internal/tunnelpool/pool.go:188-205 | the stream is that of the first session of the tour that is live and opens; the live ones up to it are tried, in tour order; a failure reports the last one tried |
| Sessions.StreamIsFirst | internal/tunnelpool/pool.go:188-205 | so streams go where the cyclic search for live sessions that open would go |
| Sessions.SessionFairness | internal/tunnelpool/pool.go:80-97 | n picks of n good sessions start once at each if and only if the counter does not wrap on the way or n divides 2^32 |
| Sessions.StreamFairness | internal/tunnelpool/pool.go:188-205 | n sessions that are all live and open get one of n consecutive streams each if and only if the counter does not wrap or n divides 2^32 |
| Sessions.Pool.SupportsDatagrams | internal/tunnelpool/pool.go:70-77 | whether some session is usable |
| Sessions.Pool.Alive | internal/tunnelpool/pool.go:209-216 | whether some session is live |
| Sessions.Pool.PickQUICSession | internal/tunnelpool/pool.go:80-97 | the cyclic search and the ticket it draws |
| Sessions.Pool.OpenStream | internal/tunnelpool/pool.go:183-206 | stream or failure, the sessions tried, and the ticket drawn |
| Tickets.CycleFairIff | internal/tunnelpool/pool.go:80-97 | m consecutive uint32 tickets meet each remainder once if and only if they do not wrap or m divides 2^32 |
| Tickets.ShareWholeIff | internal/upstream/manager.go:218 | which ranges of remainders a cycle of uint32 tickets meets exactly as often as they are long, wrap included |
| Tickets.WrapWitness | internal/tunnelpool/pool.go:84-87 | a cycle of three tickets about to wrap is unfair |
| Sessions.UnfairWitness | internal/tunnelpool/pool.go:80-97 | so are three picks of three good sessions |
| Tickets.CountBounds | internal/upstream/manager.go:210-227 | how often a window of integers meets a range of remainders |
| Fnv.StepInjective | internal/netutil/tcpflags.go:86-107 | each hash step is a bijection of the state and of the byte |
| Fnv.OneByteDistinct | internal/netutil/tcpflags.go:86-107 | inputs that differ in one byte never collide |
| Fnv.WindowDistinct | internal/netutil/tcpflags.go:86-107 | from one state all 2^24 three-byte inputs have distinct hashes |
| Fnv.AddrKeyDistinctInNetwork | internal/netutil/tcpflags.go:86-107 | addresses that share their first 15 canonical bytes have distinct keys |
| Fnv.AddrKey | internal/netutil/tcpflags.go:86-107 | the loops compute the fold over the canonical bytes and the port |
| Fnv.MappedKey | internal/netutil/tcpflags.go:92-100 | an IPv4 address and the IPv6 address it is mapped to have one key |
| Fnv.MalformedKey | internal/netutil/tcpflags.go:93-96 | of a malformed address only the port counts |
| Fnv.PortKey | internal/netutil/tcpflags.go:102-105 | the port is folded in as its two bytes, most significant first |
| Fnv.KnownHash | internal/netutil/tcpflags.go:87-100 | the constants give the published FNV-1a hash of the letter a |
| Fnv.KnownPairKey | internal/tunnelpool/pool.go:272-281 | the 32-bit constants on 64 bits give this value for the letter a |
| Fnv.AddrPairKey | internal/tunnelpool/pool.go:272-281 | the loops compute the fold over the concatenation |
| Fnv.PairKeyCollision | internal/tunnelpool/pool.go:272-281 | pairs split differently share a key |
| Fnv.PairKeyDistinctTails | internal/tunnelpool/pool.go:272-281 | local addresses that differ only in their last three characters share a key for no target |
| UdpTable.AgreesIff | internal/tunnelpool/pool.go:234-270 | one operation on the hashed table agrees with an exact table if and only if the pair's key is its own |
| UdpTable.RunAgreesIff | internal/tunnelpool/pool.go:234-270 | a sequential run, with the CloseUDP of key 0 after failed calls, agrees with an exact table throughout if and only if no call's key is shared by a foreign pair in use |
| UdpTable.SharedStream | internal/tunnelpool/pool.go:234-281 | two pairs that share a stream |
| UdpTable.Table.OpenUDP | internal/tunnelpool/pool.go:234-261 | stream, whether it is new, key and new table |
| UdpTable.Table.CloseUDP | internal/tunnelpool/pool.go:263-270 | the new table |
| UdpRaces.InUseIff | internal/tunnelpool/pool.go:234-270 | a key is in use exactly if a stream was stored under it and no CloseUDP of it came since |
| UdpRaces.LossIff | internal/tunnelpool/pool.go:234-261 | interleaved calls lose a stream if and only if two of them store under one key with no CloseUDP of it in between |
| UdpRaces.RaceOverlaps | internal/tunnelpool/pool.go:237-258 | such calls overlap: the later one was dialling when the earlier one stored |
| UdpRaces.TwoOpensWitness | internal/forward/manager.go:239-240 | a run in which the first stream is lost and its reader's CloseUDP closes the second |
| UdpRouting.SamePoolIff | internal/upstream/manager.go:139-175 | in every run, whatever happens between them, a CloseUDP gets the pool of its OpenUDP if and only if both are routed to one name and no reload, Close or swap takes the pool out of that entry in between |
| UdpRouting.BoundReturnsIff | internal/upstream/manager.go:432-444 | for a stream opened on its own upstream: if and only if the pool stays in and, when the stream ends, that upstream is healthy, or nobody is and it is the active one |
| UdpRouting.FailoverReturnsIff | internal/upstream/manager.go:191-197 | under failover: if and only if the pool stays in and the upstream is then active, and healthy unless nobody is, or the first healthy one while the active one is not healthy |
| UdpRouting.FailoverReturns | internal/upstream/manager.go:191-197 | so it does as long as the upstream stays healthy and keeps its pool |
| UdpRouting.LatencyReturnsIff | internal/upstream/manager.go:229-243 | under least latency: if and only if the pool stays in and the upstream is then the first healthy one of least latency, or, with nobody healthy, the active one |
| UdpRouting.RunDraws | internal/upstream/manager.go:184-227 | in every run the counter is moved by the calls that draw a ticket and by nothing else |
| UdpRouting.RoundRobinReturnsIff | internal/upstream/manager.go:184-186 | under round robin: if and only if the pool stays in and the ticket that is due after all calls in between falls on the upstream among those then healthy |
| UdpRouting.RoundRobinReturns | internal/upstream/manager.go:184-186 | with the same healthy names at both moments and no wrap: if and only if the pool stays in and the calls in between are a multiple of their number |
| UdpRouting.RoundRobinMisses | internal/upstream/manager.go:139-145 | with several healthy upstreams, the same at both moments, a CloseUDP with no other drawing call since its OpenUDP never gets its pool |
| UdpRouting.WeightedReturnsIff | internal/upstream/manager.go:210-227 | under weighted selection: if and only if the pool stays in and the ticket then due falls into the upstream's share of the weights then healthy |
| RoutingWitness.LatencyWitness | internal/upstream/manager.go:229-243 | a run from start in which one health check makes the CloseUDP miss, with both servers healthy throughout |
| RoutingWitness.RoundRobinWitness | internal/upstream/manager.go:184-186 | one in which the CloseUDP comes next after its OpenUDP and misses |
| RoutingWitness.SwapWitness | internal/upstream/manager.go:365-387 | one with a single server that misses after a reconnect |
| Text.SplitOfJoin | internal/config/config.go:117-144 | splitting a joined list gives the list back |
| Text.TrimCuts | internal/config/upstream.go:78 | trimming takes white space off both ends and nothing else |
| Text.TrimPadded | internal/config/config.go:118-126 | white space around a text makes no difference to it |
| Text.LessIff | internal/config/upstream.go:107 | the order of names: the first character that differs, or a proper prefix first |
| Text.DigitsMeans | internal/config/config.go:126-133 | numerals are read with the most significant digit first |
| Text.AtoiMeans | internal/config/config.go:108 | a number may have a sign and must fit an int |
| Text.AtoiOnly | internal/config/config.go:108 | and nothing else is read as a number |
| Ports.ParsePortRanges | internal/config/config.go:117-144 | the loop computes the ranges, or none exactly on an error or an empty list |
| Ports.ExcludePorts | internal/config/config.go:101-115 | the loop computes the excluded ports, or none on an error |
| Ports.AcceptedOk | internal/config/config.go:101-144 | accepted ranges and ports are valid and there is a range |
| Ports.ParseRangesOfRender | internal/config/config.go:117-144 | parsing undoes rendering for every list of valid ranges |
| Ports.ParseExcludeOfRender | internal/config/config.go:101-115 | parsing undoes rendering for every non-empty list of valid ports |
| Ports.ParseRangesAsWritten | internal/config/config.go:117-144 | every list of ports and ranges is read as meant, with white space anywhere but inside numbers and with empty pieces |
| Ports.ParseExcludeAsWritten | internal/config/config.go:101-115 | so is every list of ports to exclude |
| Ports.RefusedIff | internal/config/config.go:101-144 | a list is refused exactly if one of its pieces is wrong or, for ranges, all are blank |
| Ports.RightPiece | internal/config/config.go:124-138 | a piece is right only if it is a number, or two on either side of the first dash, from 1 to 65535 and in order |
| ConfigObject.ValidateTransport | internal/config/config.go:345-389 | defaults and error of a transport |
| ConfigObject.ConfigObject.Validate | internal/config/config.go:224-339 | the whole configuration after validation in place, error or not, and the error |
| ConfigObject.ConfigObject.ValidateClient | internal/config/config.go:263-302 | the client's part of it |
| ConfigObject.ConfigObject.UpstreamEndpoints | internal/config/upstream.go:70-130 | the resolution computed by the loop |
| ConfigObject.ConfigObject.UpstreamNameSet | internal/config/upstream.go:211-227 | the names bindings are checked against |
| ConfigFacts.SettledIff | internal/config/config.go:345-389 | validation leaves exactly the settled transports unchanged |
| ConfigFacts.ValidateIdempotent | internal/config/config.go:224-339 | an accepted configuration is accepted again, unchanged |
| Acceptance.ValidateIff | internal/config/config.go:224-389 | Validate reports the error of the first check that fails, all of them read off the configuration as it was written, and accepts exactly those in which none does |
| Acceptance.AcceptedCompleted | internal/config/config.go:224-389 | in an accepted configuration everything that is written stays as written, but for the role's case and white space, and everything that is blank has its default |
| Acceptance.DefaultRangeMode | internal/config/config.go:263-288 | range mode switched on and nothing else said: all ports but 22 and the redirect port 47999 are redirected |
| Acceptance.LoginPortSpared | internal/config/config.go:279-281 | an accepted range mode without an exclude text leaves port 22 alone |
| Endpoints.SortStableSorts | internal/config/upstream.go:110-115 | the result is sorted by priority and name and a permutation |
| Endpoints.SortStableIsStable | internal/config/upstream.go:110-115 | equals stay in configuration order |
| Endpoints.SortedResolve | internal/config/upstream.go:70-130 | resolution fails exactly if some address does not parse, else permutes all servers' endpoints in rank order |
| Endpoints.EndpointNames | internal/config/upstream.go:211-227 | the names resolved are exactly the names bindings are checked against |
| EndpointFacts.EndpointFields | internal/config/upstream.go:72-104 | every endpoint is that of one server: its address, name, key, weight, priority and transport, where the server's own settings win field by field |
| EndpointFacts.ServerResolved | internal/config/upstream.go:72-104 | and every server has one |
| EndpointFacts.AcceptedEndpointFields | internal/config/upstream.go:82-95 | in an accepted configuration the key of an endpoint, and of its transport, is the server's own |
| EndpointFacts.DefaultEndpoint | internal/config/upstream.go:114-129 | the endpoint of the older form, and when there is none |
| EndpointFacts.RankMeans | internal/config/upstream.go:105-110 | smaller priorities come first, and names decide among equals |
| EndpointFacts.FirstBadAddr | internal/config/upstream.go:73-77 | the address reported is the first that does not parse |
| ResolvedFacts.ShardSum | internal/config/config.go:375-377 | the checked sum bounds the real one exactly when it fits an int |
| ResolvedFacts.ShardOverflow | internal/config/config.go:375-377 | any settled kcp transport with 2^63 shards in sum is accepted |
| ResolvedFacts.ShardOverflowIff | internal/config/config.go:305-331 | an accepted configuration resolves to a kcp endpoint of more than 255 shards if and only if some server runs kcp with shards whose sum does not fit an int |
| ResolvedFacts.DefaultShardOverflowIff | internal/config/upstream.go:118-131 | likewise for the older form with a single server |
| ConfigWitness.OverflowWitness | internal/config/config.go:375-377 | a whole configuration, accepted unchanged, with such an endpoint |
| ResolvedFacts.ResolvedBounds | internal/config/config.go:305-331 | every endpoint of an accepted configuration that runs kcp keeps the checked bounds, although its transport is merged anew |
| ResolvedFacts.EndpointCipher | internal/config/upstream.go:153-198 | each endpoint of an accepted configuration comes from a server whose own texts, with the global ones, say which protocol it runs and whether its block is blank |
| ResolvedFacts.MissingCipherIff | internal/config/config.go:317-329 | an accepted configuration resolves to a kcp endpoint with a blank block if and only if some server of it runs kcp and writes no cipher where the endpoint looks for it |
| ResolvedFacts.CipherUnderKcpIff | internal/config/upstream.go:153-198 | under a global kcp transport that takes a server which overrides the block with white space |
| ConfigWitness.BlankBlockWitness | internal/config/config.go:317-329 | a whole configuration, accepted unchanged, with a kcp endpoint whose block is blank |
| ResolvedFacts.BindNamesEndpointIff | internal/config/config.go:292-302 | an accepted binding names an endpoint exactly when written trimmed |
| ConfigWitness.UntrimmedWitness | internal/config/config.go:292-302 | a whole configuration, accepted unchanged, whose binding names no endpoint |
| ResolvedFacts.WeightsPositive | internal/config/upstream.go:86-89 | resolved weights are at least one |
| ResolvedFacts.AcceptedRangeMode | internal/config/config.go:263-288 | from the accepted configuration to the packet: which ports are redirected |
| ResolvedFacts.AcceptedChainIff | internal/config/config.go:263-288 | iptables takes all rules of an accepted configuration if and only if its redirect port is at most 65535 |
| ConfigWitness.NoPortWitness | internal/config/config.go:270-272 | accepted configurations with redirect port 70000, and the partial chain they leave |
| Secrets.RedactHidesIff | internal/admin/config.go:98-126 | two configurations look the same redacted if and only if they differ only in global key, admin token, server keys and passwords, and only where both have one |
| Secrets.OverrideKeyShows | internal/admin/config.go:113-119 | changing the key in a server's own transport block alone changes the redacted configuration |
| Secrets.RedactShows | internal/admin/config.go:98-126 | every secret that there is to hide is shown as the mark and everything else as it is; the mark counts as hidden |
| Secrets.HiddenIff | internal/admin/config.go:170-173 | a secret counts as hidden exactly if it is blank or the mark within white space |
| Secrets.EditsAreKept | internal/admin/config.go:128-154 | whatever is running, the saved configuration differs from the edited one in secrets only |
| Secrets.SecretsSaved | internal/admin/config.go:128-168 | for any edit at all: a hidden key, token or password becomes the running one, of the server of its name or at its position, and a typed one stays |
| Secrets.RestoreRedact | internal/admin/config.go:98-173 | with distinct names a redacted configuration is restored to the running one |
| Secrets.RestoreRedactIff | internal/admin/config.go:98-173 | in general exactly when servers of one name share the key of the first |
| ConfigWitness.NamesakesWitness | internal/admin/config.go:156-168 | a whole configuration, accepted unchanged, that is not restored |
| Secrets.EditedServers | internal/admin/config.go:139-145 | in any reordered, shortened or edited list hidden keys come back by name and typed ones stay |
| Secrets.EditedServersIff | internal/admin/config.go:138-146 | an edited list of servers comes back as meant if and only if every key is the one its server's name or position leads to |
| Secrets.NewServerTakesKey | internal/admin/config.go:163-168 | a new or renamed server with a blank or hidden key is given the key at its position |
| Secrets.TypedConfigStays | internal/admin/config.go:128-154 | a configuration with all secrets typed is saved as it is, whatever is running |
| Secrets.PasswordBackIff | internal/admin/config.go:147-153 | a hidden password comes back if and only if the running rule at its position has one and it is the same |
| Secrets.EditedPasswordsIff | internal/admin/config.go:147-153 | an edited list of SOCKS5 rules comes back as meant if and only if every rule stands where its password stood |
| Secrets.SwappedPasswords | internal/admin/config.go:147-153 | two rules exchanged in a list of any length come back as meant only if they share the password |
| Secrets.RedactConfig | internal/admin/config.go:98-126 | the copy is redacted and the original untouched |
| Secrets.RestoreSecrets | internal/admin/config.go:128-154 | the whole configuration after restoring in place |
| Secrets.LookupUpstreamKey | internal/admin/config.go:156-168 | by name first, then by position |
| Redirect.ChainMeaning | internal/redirect/redirect_linux.go:160-192 | first-match evaluation of the chain redirects a port exactly if it is covered, not excluded and not the redirect port |
| Redirect.RangeModeMeaning | internal/redirect/redirect_linux.go:160-192 | the same from the configuration text, through PREROUTING |
| Redirect.Manager.ApplyRules | internal/redirect/redirect_linux.go:160-192 | the chain built, the jumps left and ours the last rule, from any state of the nat table, and what a failure leaves |
| Redirect.Manager.RemoveRules | internal/redirect/redirect_linux.go:194-202 | what is left after removal |
| Redirect.Manager.Install | internal/redirect/redirect_linux.go:49-55 | a started manager has its chain in force; when every command runs, a start succeeds if and only if all its rules are acceptable, and one that fails leaves the rules before the first unacceptable one in the chain and all hooks as they were |
| RedirectRaces.Alone | internal/redirect/redirect_linux.go:160-192 | undisturbed, a start succeeds if and only if all rules are acceptable, with its chain and its jump in place |
| RedirectRaces.InForceIff | internal/tunnel/client.go:82-152 | with the old removal running beside it, the new start succeeds and its chain is in force if and only if all rules are acceptable and the removal is over before, or flushes before the first rule is appended and drops later than that |
| RedirectRaces.Outcome | internal/redirect/redirect_linux.go:160-202 | for every interleaving: whether the start succeeds, and the chain and the jumps a success leaves |
| RedirectRaces.SucceedsInVain | internal/redirect/redirect_linux.go:160-202 | a start that succeeds without its chain in force is left with a chain that lacks its first rules, or with nothing |
| RedirectRaces.EmptiedWitness | internal/redirect/redirect_linux.go:67-71 | a restart with an unchanged configuration that succeeds and redirects no port |

## Left out

- Clocks: health intervals, backoff, timeouts and the idle limit of a flow are steps that may happen at any time.
- pcap capture, packet serialisation, KCP, QUIC, TLS and smux: abstracted as channels that lose, reorder and repeat, streams that deliver chunks, and dials and pings that succeed or fail.
- gob encoding of control messages and YAML marshalling: messages are values and redaction starts from a deep copy.
- Address syntax: parsing an address is a parameter of resolution (`AddrParser`).
- The iteration order of Go maps, ping results, the outcome of dials and the moments at which a goroutine runs are inputs.
- Fields of the configuration that no modelled function reads: health durations, log destination, pcap and TCP settings.
- Entries are values with an identity instead of shared objects: the manager's map holds them, and a reconnect refers to one by identity, as only the reconnect flag is used through a stale reference.
- ManagerObject.ManagerObject.PoolFor: is one atomic step, although the code writes `active` under a read lock.
- PoolSystem.StepMoves: a reconnect may start at any time for any name, which includes the launches of a health check; Close takes all pools out of the entries when it takes the lock and closes them one by one, while the code empties the entries last, under that lock.
- Hysteresis.Refines: the failure counter is unbounded, where the code's int would wrap after 2^63 failures.
- FlowMux.StepKeepsInv: datagrams may be repeated by the network and a relay may send after its flow is closed, which is more than the code does; closing a whole pool is not a step there and the subject of PoolClosing.
- Upstreams.HealthSettings: leaves out the interval and the timeout, as time is not modelled.
- DatagramPool.DgramPool.OpenUDPDatagram: how far a handshake gets is one input, and the control streams that are kept open for their flows are left out.
- Sessions.Pool.OpenStream: names the session that refused, not the text of its error.
- UdpTable.Table.OpenUDP: the outcome of dial and request is one input; its two separate locks are the subject of UdpRaces.
- ConfigObject.ConfigObject.Validate: errors are tags without their texts, and fields that no modelled function reads are absent.
- Framing.RelayFromTarget: assumes datagrams of at most 65535 bytes on the socket, which UDP guarantees.
- Text is modelled as characters; lower case is that of ASCII and of the two other characters whose lower case is an ASCII letter.
- The forward and SOCKS5 listeners, range mode's accept loop, the admin HTTP server, metrics, the dashboard, iptables' exec calls, TCP flag cycling and certificate derivation: I/O and thin wrappers.
