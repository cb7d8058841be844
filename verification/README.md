# PortFlow, modelled and verified

PortFlow is a control plane for TCP and UDP forwarding. A control store keeps nodes, rules and a
configuration for every node; agents fetch their configuration in heartbeats, turn it into
listeners, and report counters, connections and logs. This project models the parts in which a
mistake would stay unnoticed, and proves what they promise, over every input, every run and every
interleaving.

| File | What it models |
|---|---|
| `Domain.dfy`, `Sequences.dfy` | rules, endpoints, validation; elements of sequences |
| `Store.dfy`, `Effects.dfy` | the control store's nodes, rules and per-node configurations (class `Memory`); its requests told in plain fields, and what follows for runs |
| `Versions.dfy` | what every version of every node ever meant, over all runs of the store |
| `Agent.dfy` | configuration file, synchronisation, roll back, crash and restart of one agent, as steps |
| `System.dfy`, `Provenance.dfy` | store, agents and a network that loses, delays, reorders and repeats heartbeats; what the displays conclude, and where what they show and what agents run comes from |
| `Example.dfy` | complete runs with two nodes: where the displays are right, where one is not, and a configuration an agent refuses |
| `Prepare.dfy`, `Acceptance.dfy` | from rules to listeners, and when an agent accepts what the store built |
| `Manager.dfy` | the transactional listener manager over the system's sockets |
| `Runtime.dfy` | the running agent: the steps of `Agent.dfy` carried out on the configuration file and the listener manager |
| `Bandwidth.dfy`, `Writer.dfy` | the shared token bucket and the chunked writer |
| `Tcp.dfy`, `Udp.dfy` | connections and sessions under interleaving |
| `Logs.dfy` | the bounded log buffer, retries, and the store's one copy of each entry |
| `Traffic.dfy` | counter samples and the traffic histories |
| `Snapshots.dfy` | connection snapshots, bounded on both sides |
| `Pagination.dfy`, `Login.dfy`, `Accounts.dfy` | cursors, the login failure limit, user accounts |

How to read it. Objects that the program updates in place are classes with the same fields; each
of their methods is proved against a function or a step relation on values, and the properties of
whole runs are lemmas about those. So that such a function cannot be wrong on both sides at once,
what it means is also stated in the fields of its inputs and results alone, without it. Protocols between goroutines or machines are step relations: one
step is one critical section, one atomic operation, one message or one outside event, and a run is
any sequence of steps. Failures (a refused listen, a failed save, a lost response, a crash) are
events or parameters, so every claim holds for all of them. `dafny verify dfyconfig.toml` checks
everything.

The main results:

- The applied version shown for a node is never an overstatement: whenever it has reached a live
  rule's stamp, that node's agent runs the rule, and would restart with it, exactly as stored
  (`Synchronisation.AppliedVersionIsTruthful`). An agent's file holds a live rule if and only if the
  file's version has reached the stamp (`Synchronisation.HeldOnDiskIff`), and forwards it if and only
  if the version it runs has (`Synchronisation.HeldIff`).
- The dashboard's "healthy" speaks of the ingress node only. It proves that the ingress holds the
  rule, and there is a run in which an enabled relay rule is healthy while its egress agent does not
  hold it (`Example.HealthyIsNotHeldByEgress`). It means "held everywhere" for a direct rule, and for
  a relay whose egress node shows the stamp, which is what the rule list asks
  (`Synchronisation.HealthyIsHeldEverywhereIf`, `Synchronisation.RuleListAppliedIsHeldEverywhere`).
- The relay address at which an agent dials the egress of a rule is one the egress's own agent had
  at some earlier point of the run (`Provenance.DialledWasTheEgress`): what agents run was served to
  them (`Provenance.RulesWereServed`), and what the store shows of a node its agent has said
  (`Provenance.ShownWasSaid`). What the ingress dials is what the egress listens on
  (`Preparation.RelayMeets`).
- One version of one node never means two rule sets, over any run of the store
  (`Versions.VersionsDenoteOneRuleSet`).
- `Apply` replaces everything or changes nothing, and succeeds exactly when the rules can be
  prepared and the missing addresses are free (`Management.Manager.Apply`). So it cannot let two
  live rules exchange addresses (`Management.OccupiedAddressIsRefused`).
- What an agent calls its running rules are its open listeners, one for every enabled rule and
  network and none besides (`AgentRuntime.Runtime.RunningIsListening`), through every change, failed
  save and roll back (`AgentRuntime.Runtime.Synchronize`). In a pass that began with the current
  rules running, a roll back finds every address it needs released
  (`AgentRuntime.GoingBackNeedsNoOthers`), so it can fail only if the system refuses one of them.
  After a roll back has failed, the rules that still run may hold an address of the current ones.
- Under a limit of k Kbit/s, eight times the bytes charged between two instants are at most eight
  full buckets and 1000k for every second (`Bandwidth.BitsInWindow`), and an undisturbed request
  takes the time this leaves it, no less and little more (`Bandwidth.BandwidthLimiter.Wait`).
- A window of traffic history sums to what the counters grew by, plus what they had reached before
  every reset inside it (`TrafficStatistics.WindowTelescopesOverResets`). A rule's totals at rest are
  the bytes copied in its whole run (`TcpConnections.TotalsAreWhatWasCopied`).
- One enrolment token enrols one node, and only the credential of that enrolment ever speaks for the
  node (`StoreEffects.TokenEnrolsOnce`, `StoreEffects.OnlyTheEnrolledCredential`). The byte counts
  of a rule are its first ones or those of a report from its ingress (`StoreEffects.BytesWereReported`).
- Every log entry ever written is still buffered, was pushed out by newer ones, or was in the store,
  text included (`LogDelivery.EveryEntryIsAccountedFor`).
- The store's conflict check and the agent's differ in exactly one case
  (`Acceptance.ConfigIsAcceptableIff`), and that case happens: a run of the store builds a
  configuration of valid rules that its agent refuses (`Example.StoreBuildsWhatTheAgentRefuses`).
- Following a page cursor always ends, and returns every entry exactly once if and only if no full
  page ends between two entries of one time (`CursorPagination.FollowingEnds`,
  `CursorPagination.FollowingIsExactIff`, `CursorPagination.CleanMeansNoSplitTime`). The times
  5, 5, 3 with one entry a page lose the second entry (`CursorPagination.SharedTimeIsSkipped`).
- Within less than fifteen minutes there are never more than `s(m + 3) + 2m + 7` login failures of
  one key, where `s` counts the successes among them and `m` the attempts open at once
  (`LoginLimit.FailuresAreBounded`), and every such bound is reached (`LoginLimit.BoundIsReached`).
  So nine can be relied on exactly when no success falls among the failures and attempts do not
  overlap (`LoginLimit.NineHoldsIff`); one success allows thirteen, two attempts at once eleven.

## Model

| member | source | states |
|---|---|---|
| ControlStore.Memory.EnrollAgent | internal/store/memory.go:248-270 | a valid unused token creates the node at version 1 with an empty configuration and is used up; any other token changes nothing |
| ControlStore.Memory.ConfigForAgent | internal/store/memory.go:380-393 | exactly an admitted agent gets its node's current configuration |
| ControlStore.Memory.CreateEnrollmentToken | internal/store/memory.go:238-246 | a new hash is stored unused; a known one is a conflict and changes nothing |
| ControlStore.Memory.ListenerConflict | internal/store/memory.go:511-523 | true iff some other stored rule clashes with the candidate's listener or relay listener |
| ControlStore.Memory.RebuildAgentConfig | internal/store/memory.go:525-542 | the node's configuration becomes the rules that involve it, each once, at the node's version; other nodes' configurations stay |
| ControlStore.Memory.StoreRule | internal/store/memory.go:421-433 | bumps the affected nodes, stamps and stores the rule, and rebuilds exactly their configurations |
| ControlStore.Memory.CreateForwardRule | internal/store/memory.go:409-435 | success bumps exactly the involved nodes and stamps the rule with their new versions; unavailable nodes and conflicts change nothing |
| ControlStore.Memory.UpdateForwardRule | internal/store/memory.go:437-474 | bumps and rebuilds the nodes of the old and of the new rule, so a rule that moves leaves its old nodes; runtime counters carry over |
| ControlStore.Memory.DeleteForwardRule | internal/store/memory.go:476-494 | the rule leaves the table and the configurations of all its nodes, which are bumped |
| ControlStore.Memory.UpdateAgentHeartbeat | internal/store/memory.go:272-357 | the reported version is clamped to the node's; tunnel address and rule counters change without any version or configuration changing |
| ControlStore.Memory.RecordRuleStats | internal/store/memory.go:334-354 | a report reaches only rules whose ingress is the node, the last one for a rule wins, and unreported rules lose their live connections |
| ControlStore.EditedIsWellFormed | internal/store/memory.go:427-433 | after the edit's rebuild loop every node again has a configuration, at the node's version, and rules sit under their own ids and name known nodes |
| StoreEffects.ClashIff | internal/store/memory.go:511-523 | two rules clash iff they share a public address and a network, or an egress and its relay port |
| StoreEffects.CreatedIff | internal/store/memory.go:409-420 | a rule is created iff its id is new, the nodes it names are there and not disabled, and no stored rule clashes with it |
| StoreEffects.UpdatedIff | internal/store/memory.go:437-450 | the same for an update, which needs the id to be there and may clash with itself |
| StoreEffects.CreateInFields | internal/store/memory.go:421-435 | the stored rule is the one given, stamped with the versions its nodes have moved on to; no other rule changes |
| StoreEffects.UpdateInFields | internal/store/memory.go:449-474 | the same for an update, with the counters it had, and no egress stamp without a relay |
| StoreEffects.DeleteInFields | internal/store/memory.go:476-494 | deleting takes exactly that rule away |
| StoreEffects.EditMovesNodes | internal/store/memory.go:421-426 | an edit moves exactly the involved nodes on by one version and changes nothing else about any node |
| StoreEffects.EditRebuilds | internal/store/memory.go:525-560 | a rebuilt configuration holds the rules that name the node, a relay rule with its egress's tunnel address as relay host |
| StoreEffects.HeardIff | internal/store/memory.go:272-279 | a heartbeat is heard iff the node exists, is not disabled and the credential is its own |
| StoreEffects.HeartbeatMovesNode | internal/store/memory.go:280-306 | what a heard heartbeat makes of the node, field by field, and of no other |
| StoreEffects.HeartbeatCounts | internal/store/memory.go:334-354 | the counters of the node's own rules are those of the last report about them, or keep their bytes and lose their live count |
| StoreEffects.LastStatsIs | internal/store/memory.go:335-346 | the last report about a rule is the one that counts |
| StoreEffects.BytesWereReported | internal/store/memory.go:334-354 | in any run the byte counts of a rule are those it was created with or those of a report from its ingress |
| StoreEffects.BytesKept | internal/store/memory.go:449-453 | while its id stays and no report about it comes in, a rule's byte counts stay, over updates included |
| StoreEffects.CredentialWasEnrolled | internal/store/memory.go:248-270 | in any run a node's credential is the one given at its enrolment |
| StoreEffects.OnlyTheEnrolledCredential | internal/store/memory.go:380-386 | so that credential alone fetches the node's configuration and is heard for it |
| StoreEffects.TokenEnrolsOnce | internal/store/memory.go:248-270 | in any run, after a token has enrolled a node, every later enrolment with it is refused |
| StoreEffects.RelayHostWasReported | internal/store/memory.go:525-542 | in any run, wherever a configuration has a relay host, the egress had reported that address |
| Versions.StepKeepsCoherence | internal/store/memory.go:409-494 | every store operation keeps the history coherent: current version, configuration and rule table agree, and each live rule is in every version since its stamp |
| Versions.RunsAreCoherent | internal/store/memory.go:409-494 | so it is coherent after every run of operations |
| Versions.StepMovesVersions | internal/store/memory.go:421-433 | no operation lowers a node's version, and a configuration changes only together with its version |
| Versions.StepKeepsStamps | internal/store/memory.go:421-433 | after any request every stamp of a live rule is a version its node has reached |
| Versions.HistoryOnlyGrows | internal/store/memory.go:525-542 | an operation never changes what an earlier version meant |
| Versions.VersionsDenoteOneRuleSet | internal/store/memory.go:421-433 | in any run: configuration version equals node version, versions never fall, and equal versions mean equal rule sets up to runtime fields |
| Versions.ConfigListsExactlyItsRules | internal/store/memory.go:525-560 | in any run a node's configuration lists exactly the live rules that involve it, each once |
| Versions.LiveRuleIsInEveryVersionSinceItsStamp | internal/store/memory.go:421-433 | a live rule is, with its present static fields, in every configuration served since its stamp |
| Versions.RunsAreExclusive | internal/store/memory.go:511-523 | no two stored rules of any reachable state clash |
| Agents.Validate | internal/agent/config.go:22-61 | accepts exactly the configurations with complete identity, fitting rules and distinct ids |
| Agents.ValidConfigIff | internal/agent/config.go:22-61 | in fields: all of an identity or none, a private tunnel address if any, different ids, and only valid rules the node takes part in, a relay's egress at its own tunnel address |
| Agents.ConfigStore.Save | internal/agent/config.go:86-126 | the file is replaced iff the configuration validates and no step fails; at every point in between, a crash finds the old or the new file |
| Agents.ConfigStore.Load | internal/agent/config.go:71-84 | loads the file iff it is there and validates |
| Agents.StepKeepsAgreement | internal/agent/runtime.go:127-142 | no single step but a failed roll back breaks the agreement of current, running and disk |
| Agents.RunsAgreeUnlessRollbackFailed | internal/agent/runtime.go:127-142 | over every run without a failed roll back, current, running and disk agree between passes |
| Agents.AgreementIsRestored | internal/agent/runtime.go:127-142 | a completed change, a successful roll back or a restart brings them back together |
| Synchronisation.NextKeepsInv | internal/agent/runtime.go:66-143 | every move of store, network or agent keeps the invariant that agents only ever hold versions the store's history knows |
| Synchronisation.AppliedOnlyReported | internal/store/memory.go:284-294 | only a heartbeat of that node raises its applied version, and never above what it reported |
| Synchronisation.AppliedVersionIsTruthful | internal/store/memory.go:284-294 | if a node's applied version has reached a live rule's stamp, its agent holds the rule with the stored static fields, running and on disk |
| Synchronisation.HeldOnDiskIff | internal/store/memory.go:421-433 | an agent's file holds a live rule of its node, as stored, if and only if the file's version has reached the rule's stamp for that node |
| Synchronisation.HeldIff | internal/agent/runtime.go:127-142 | an agent forwards a live rule of its node, as stored, iff the version whose rule set it forwards has reached the stamp; it holds it, running and on disk, iff that version and the file's have |
| Synchronisation.HeldIsSomeVersion | internal/agent/runtime.go:127-142 | there always is such a version, no older than the one the agent reports |
| Synchronisation.AgreedIsHeldIff | internal/agent/runtime.go:127-142 | for an agent that no failed roll back has set apart, it is the version of its configuration, or of the one being committed |
| Synchronisation.HealthyIsHeldByIngress | internal/control/server.go:1312-1322 | in any run a rule the dashboard counts as healthy is enabled and held by its ingress, running and on disk, and the ingress was heard from within the last 45 seconds |
| Synchronisation.HealthyIsHeldEverywhereIf | internal/control/server.go:1312-1322 | healthy means held by every node of the rule when it is direct, or when the egress has applied the rule's egress stamp |
| Synchronisation.RuleListAppliedIsHeldEverywhere | web/src/App.tsx:854-856 | a rule the rule list shows as applied is held by its ingress and, for a relay, its egress, each heard from within the last 45 seconds |
| Example.HealthyIsNotHeldByEgress | internal/control/server.go:1312-1322 | a run, from enrolment on, after which an enabled relay rule counts as healthy and its egress agent does not hold it |
| Example.ARelayIsShownAsApplied | web/src/App.tsx:854-856 | a run after which the rule list shows a relay rule as applied on both its nodes: the promise is not an empty one |
| Synchronisation.DiskIsAlwaysUsable | internal/agent/config.go:86-126 | in every reachable state the file validates, belongs to the node, and is the running process's configuration or the one it is just committing |
| Synchronisation.DiskVersionNeverFalls | internal/agent/runtime.go:108-143 | the file's version never falls, over changes, roll backs, crashes and restarts |
| Synchronisation.RunningRulesAreSomeVersion | internal/agent/runtime.go:127-142 | what runs is always the rule set of one version of the node, no older than the current one |
| Agents.BootTakesTunnel | cmd/agent/main.go:92-100 | a start that succeeds runs what is on disk, with the tunnel address given on the command line, if any; only that address can change |
| Provenance.SentWasSaid | internal/agent/runtime.go:80-92 | in any run, whatever heartbeat is under way is what its agent said about itself at some point |
| Provenance.ShownWasSaid | internal/store/memory.go:280-306 | in any run the tunnel address and the error shown for a node are its agent's own words, from one heartbeat |
| Provenance.RelayHostWasTheEgress | internal/store/memory.go:525-542 | wherever a configuration of the store has a relay host, the egress's agent has had that tunnel address |
| Provenance.RulesWereServed | internal/agent/runtime.go:104-143 | whatever rules an agent has on disk, in use or running were served to it, through crashes, roll backs and restarts |
| Provenance.ServedWasStored | internal/store/memory.go:380-393 | what was served was the node's configuration in the store at that time |
| Provenance.DialledWasTheEgress | internal/forward/tcp.go:317-321 | end to end: the relay address an agent has for a rule is one the egress's agent itself had before |
| Provenance.EgressListensOnItsTunnel | internal/agent/config.go:46-54 | in any run an enabled relay rule an agent uses names its node; the agent's tunnel address is private, and at the egress it is the relay host |
| Preparation.PrepareRules | internal/forward/tcp.go:303-365 | succeeds exactly on acceptable lists and then returns the prepared form of the enabled rules |
| Preparation.ClaimSockets | internal/forward/tcp.go:348-361 | a rule's listeners are claimed iff none of them is taken |
| Preparation.UnclaimedMeansNoCollision | internal/forward/tcp.go:303-361 | the incremental check by id and listener key refuses exactly the rules that collide with an earlier one |
| Preparation.DesiredMapIsExact | internal/forward/tcp.go:303-365 | ids and prepared forms match the enabled rules one to one |
| Preparation.DesiredIsSeparate | internal/forward/tcp.go:355-361 | no two prepared rules of one network listen on the same address |
| Preparation.IngressDialsRelay | internal/forward/tcp.go:317-341 | at its ingress an enabled relay rule listens on its public address and dials the trimmed relay address, with its own access lists and rate |
| Preparation.EgressDialsTarget | internal/forward/tcp.go:322-341 | at its egress it listens on the relay address and dials the trimmed target, with no access lists and no limit |
| Preparation.DirectDialsTarget | internal/forward/tcp.go:316-341 | a direct rule listens on its public address and dials its target, with everything else its own |
| Preparation.RelayMeets | internal/forward/tcp.go:317-341 | what the ingress dials is what the egress listens on, whenever the trimmed relay host is not empty |
| Preparation.PreparedIsUsable | internal/domain/model.go:96-145 | whatever an agent runs has real ports on both sides, an address to dial, one or both networks, CIDR access lists and a limit of at most ten gigabits a second |
| Acceptance.ConfigIsAcceptableIff | internal/forward/tcp.go:303-365 | a reachable configuration of valid rules with trimmed hosts is accepted iff no public listener equals a relay listener of the node |
| Acceptance.PairCollidesIff | internal/store/memory.go:513-520 | two rules the store lets pass collide on the agent iff one's ingress listener is the other's egress listener |
| Example.StoreBuildsWhatTheAgentRefuses | internal/store/memory.go:513-520 | a run of the store, over addresses that trimming leaves alone, that builds a configuration of valid rules which its agent refuses, because a public listener meets a relay listener |
| Management.OpenMissing | internal/forward/tcp.go:110-171 | opens all missing listeners or none: on failure the bound sockets are as before and every new forwarder and limiter is closed, for any order of the maps |
| Management.PrepareLimiters | internal/forward/tcp.go:107-118 | one open limiter per desired rule, the existing one where there is one |
| Management.OpenListeners | internal/forward/tcp.go:125-148 | in any order, all listeners are opened iff all addresses are free; what was opened before a failure is returned |
| Management.RollBack | internal/forward/tcp.go:119-123 | closes the new listeners and limiters and releases exactly their sockets |
| Management.UpdateLimiters | internal/forward/tcp.go:167-171 | every limiter takes its rule's rate |
| Management.Manager.Apply | internal/forward/tcp.go:97-222 | succeeds iff not closed, acceptable, and the missing addresses free; on failure nothing changes; on success exactly the desired rules run, kept listeners and limiters keep their identity, dropped ones are closed, and the bound sockets change by just that |
| Management.Manager.ReplaceRules | internal/forward/tcp.go:107-221 | the part after the rules are prepared, for any separate set of them |
| Management.Settle | internal/forward/tcp.go:178-202 | a new forwarder is started, a kept one takes the new configuration in place; an equal one need not be stored again |
| Management.CloseDropped | internal/forward/tcp.go:203-214 | exactly the old forwarders that are not part of the result are closed |
| Management.Manager.Close | internal/forward/tcp.go:272-292 | closes every forwarder and limiter and releases their sockets, once |
| Management.TakeOver | internal/forward/tcp.go:173-202 | one network's forwarders run the new rules while the dropped ones still listen |
| Management.Retire | internal/forward/tcp.go:203-214 | then exactly the dropped ones are closed and their sockets released |
| AgentRuntime.Runtime.Start | internal/agent/runtime.go:30-37 | a process that starts is the boot step of the protocol: it runs its configuration if that validates and the manager takes it, and ends otherwise |
| AgentRuntime.Runtime.Change | internal/agent/runtime.go:127-132 | exactly the rules the manager admits become the running ones, and whatever ran before can be taken up again without any address being in the way |
| AgentRuntime.Runtime.Deploy | internal/agent/runtime.go:127-138 | apply, save, roll back: which of the three succeed, what runs and what is on disk afterwards |
| AgentRuntime.Runtime.Adopt | internal/agent/runtime.go:127-142 | the change is a run of the protocol's steps; it succeeds iff the manager admits the rules and the save does not fail; otherwise current and disk stay, and so does what runs unless the system refuses an address the old rules had just released |
| AgentRuntime.Runtime.Ask | internal/agent/runtime.go:85-126 | heartbeat and fetch are the protocol's steps for exactly what was heard; they end in a candidate iff a newer configuration that validates came back, and otherwise note what failed |
| AgentRuntime.Runtime.Synchronize | internal/agent/runtime.go:66-143 | one pass is a run of the protocol's steps that begins with what was heard; it succeeds iff there is nothing new, or a newer valid configuration that the manager admits and the file takes; then the interval is the one asked for between 5 and 300 seconds and otherwise 15, and a changed configuration has the fetched version and rules and the old identity; failure changes neither configuration nor file and notes the version it was about; what runs is always what listens |
| AgentRuntime.Runtime.RunningIsListening | internal/forward/tcp.go:173-202 | every enabled running rule has, on each of its networks, an open started forwarder with its configuration, limiter and bound socket; no other socket is occupied |
| AgentRuntime.NeededBackAreReleased | internal/agent/runtime.go:131-135 | per network: what the old rules must open again they held before, and no new listener has it |
| AgentRuntime.GoingBackNeedsNoOthers | internal/agent/runtime.go:131-135 | after a successful change every address the old rules would need again is free |
| Management.SocketsMoved | internal/forward/tcp.go:173-214 | per network, the occupied sockets become the old ones without the dropped and with the newly opened |
| Management.ReapplyNeedsNothing | internal/forward/tcp.go:125-148 | applying the running rules again needs no socket, whatever is taken, and keeps every forwarder |
| Management.OccupiedAddressIsRefused | internal/forward/tcp.go:125-160 | on either network, a rule that moves to the address another live rule holds is refused, even if that rule moves away in the same call |
| Bandwidth.BandwidthLimiter.Update | internal/forward/bandwidth.go:39-52 | an open limiter refills at the old rate up to now and is cut to the new capacity; a closed one does not change |
| Bandwidth.BandwidthLimiter.RefillLocked | internal/forward/bandwidth.go:147-155 | adds rate times the time since the last refill, up to the capacity |
| Bandwidth.BandwidthLimiter.TakeLocked | internal/forward/bandwidth.go:79-93 | takes what the bucket holds but no more than is needed, and leaves it empty if that is not enough |
| Bandwidth.BandwidthLimiter.PauseFor | internal/forward/bandwidth.go:95-102 | after the pause the bucket has earned what is missing, or all it can hold |
| Bandwidth.PerformIsSound | internal/forward/bandwidth.go:147-167 | tokens stay between zero and the capacity, and no operation charges more than it found and earned |
| Bandwidth.ChargesStayWithinEarnings | internal/forward/bandwidth.go:64-93 | over any run with hot updates, bytes charged stay within the initial tokens plus rate times time, summed over the updates |
| Bandwidth.ChargesInWindow | internal/forward/bandwidth.go:64-93 | at constant rate R, at most capacity + R dt bytes are charged between any two instants |
| Bandwidth.GainIsInBits | internal/forward/bandwidth.go:157-159 | a limit in Kbit/s earns a thousand bits a second for each of them |
| Bandwidth.BitsInWindow | internal/forward/bandwidth.go:64-93 | in bits: charges between two instants at one limit are at most eight full buckets and 1000 for every Kbit/s and second |
| Bandwidth.IdleBucketEarns | internal/forward/bandwidth.go:147-155 | an idle bucket earns exactly 125 bytes a second for every Kbit/s until it is full |
| Bandwidth.NewLimitFromNow | internal/forward/bandwidth.go:39-52 | after a change of the limit the bucket holds what the old limit earned until now, as far as both capacities allow |
| Bandwidth.ReleasesAreCharged | internal/forward/bandwidth.go:64-93 | a request is released only after it was charged |
| Bandwidth.ReleasesInWindow | internal/forward/bandwidth.go:64-93 | bytes released exceed that by at most the one request in progress |
| Bandwidth.BandwidthLimiter.Wait | internal/forward/bandwidth.go:64-127 | success releases exactly the request and charges all of it unless the limit was lifted; a closed limiter refuses, an unlimited one releases at once, and an open one succeeds unless it is closed or the caller gives up; a steady wait takes at least the bits still missing divided by 1000 for every Kbit/s, and at most that plus what its timers came late, in at most ceil(n / capacity) + 1 rounds |
| Bandwidth.BandwidthLimiter.MaxChunkSize | internal/forward/bandwidth.go:135-145 | everything that fits, or else the largest whole number of bytes the bucket holds |
| Bandwidth.CapacityIsBounded | internal/forward/bandwidth.go:157-167 | a bucket holds between 4 and 256 KiB, more for a higher limit, and in between a quarter of a second's worth |
| Writing.Connection.Write | internal/forward/tcp.go:644-663 | what was sent is a contiguous prefix of exactly the returned and recorded length; undisturbed and with a sink that takes everything the write succeeds, for the whole buffer; it fails with the limiter's error only if that was closed or the caller gave up, with the sink's only if a response failed, and short only if a response took less than its chunk |
| Writing.Connection.SendChunk | internal/forward/tcp.go:647-660 | one round: the chunk granted, waited for, offered to the sink and recorded, and which of the three errors ends it |
| TcpConnections.CounterNeverUnderflows | internal/forward/tcp.go:450-461 | the unsigned connection counter is lowered only by someone who raised it |
| TcpConnections.RunsKeepInv | internal/forward/tcp.go:410-463 | in every reachable state the counter is the handlers plus at most one connection under admission, and every open connection is tracked or in hand |
| TcpConnections.AdmissionRespectsLimit | internal/forward/tcp.go:450-455 | a client is served only within the limit loaded for it, whatever the other goroutines did since |
| TcpConnections.AdmissionIsSteps | internal/forward/tcp.go:440-462 | one pass of the accept loop equals its critical sections taken one after the other |
| TcpConnections.TcpForwarder.Accepted | internal/forward/tcp.go:440-462 | served iff not closed and within the limit; otherwise the client is closed and nothing is counted |
| TcpConnections.TcpForwarder.Track | internal/forward/tcp.go:567-578 | tracks the connection, or closes it if the forwarder is closed |
| TcpConnections.MapKept | internal/forward/tcp.go:580-624 | every tracked connection belongs to a running handler that will take it out |
| TcpConnections.TcpForwarder.Close | internal/forward/tcp.go:397-408 | the first call sets the flag and closes every tracked connection; later calls do nothing |
| TcpConnections.SweptStaysClosed | internal/forward/tcp.go:397-408 | after the sweep no tracked connection is open and none is tracked again; what is still open is in the hands of code that will close it |
| TcpConnections.CompletedUpdate | internal/forward/tcp.go:611-618 | finishing a direction adds exactly that direction's bytes to the sum |
| TcpConnections.AtRest | internal/forward/tcp.go:586-624 | when all handlers have ended, the counter is zero, nothing is tracked or open, and the totals are the sums over all sessions |
| TcpConnections.EveryByteIsInASession | internal/forward/tcp.go:586-624 | in any run the sessions' counts of a direction add up to what the copying has reported in it |
| TcpConnections.TotalsAreWhatWasCopied | internal/forward/tcp.go:586-624 | at rest the rule's totals are exactly the bytes copied in the whole run, however clients came and went |
| UdpSessions.ActiveCountsOpenSessions | internal/forward/udp.go:129-172 | counter, map and the sessions opened but not closed agree in every reachable state |
| UdpSessions.RunsKeepInv | internal/forward/udp.go:129-172 | in every reachable state the map holds exactly the sessions opened and not closed, each under its own key |
| UdpSessions.InsertionRespectsLimit | internal/forward/udp.go:129-172 | although the limit is checked before the dial, the count is within it when the session goes in |
| UdpSessions.CloseRemovesOnlyItself | internal/forward/udp.go:240-250 | closing a session removes that session and no successor |
| UdpSessions.NothingAfterClose | internal/forward/udp.go:68-87 | once `close` has swept, the map is empty, every session ever opened is closed, and it stays so |
| UdpSessions.UdpForwarder.Find | internal/forward/udp.go:129-140 | the first critical section: the existing session if there is one, a dial iff there is none and the limit leaves room, else a refusal |
| UdpSessions.UdpForwarder.Add | internal/forward/udp.go:152-171 | the second one: refused when closed, the existing session when there is one by now, else the new one |
| UdpSessions.UdpForwarder.CloseSession | internal/forward/udp.go:240-250 | the first call takes the session out of map and counter; later calls do nothing |
| UdpSessions.UdpForwarder.CloseSessions | internal/forward/udp.go:77-87 | closes exactly the sessions of the snapshot and leaves the map empty |
| LogDelivery.LogBuffer.Append | internal/agent/log_buffer.go:74-83 | appends; a full buffer loses its oldest entry |
| LogDelivery.LogBuffer.Pending | internal/agent/log_buffer.go:85-95 | a copy of the oldest entries, up to the limit |
| LogDelivery.LogBuffer.Acknowledge | internal/agent/log_buffer.go:97-114 | compacts in place to the entries not acknowledged, in order |
| LogDelivery.AcknowledgedPrefix | internal/agent/log_buffer.go:85-114 | acknowledging a pending batch takes exactly that prefix off |
| LogDelivery.LogStore.RecordAgentLogs | internal/store/memory.go:601-622 | drops what is too old, adds what is new, and keeps the key index exact and free of duplicates |
| LogDelivery.AcceptedOnce | internal/store/memory.go:610-621 | every entry of a heartbeat is stored afterwards, once, and nothing stored is lost |
| LogDelivery.AcceptedExactly | internal/store/memory.go:610-621 | what is added is exactly every entry that is the first of its id in the heartbeat and not stored for the node: whole, under the node, with the time of receipt |
| LogDelivery.RetainedExactly | internal/store/memory.go:602-609 | retention drops exactly the entries older than the cutoff |
| LogDelivery.EveryEntryIsAccountedFor | internal/agent/runtime.go:85-98 | over lost, delayed and repeated heartbeats every logged entry is buffered, was pushed out, or was in the store, text included, at some point of the run; whatever the store has of the node is one of the entries logged; the buffer keeps bound and order, the store one copy |
| LogDelivery.AcceptedWasStored | internal/store/memory.go:610-621 | what the store is said to have accepted was in its list in some earlier state of the run |
| LogDelivery.HeartbeatDrains | internal/agent/runtime.go:85-98 | a heartbeat that gets through takes the oldest hundred entries off and stores each of them, text included |
| TrafficStatistics.MetricStore.RecordMetric | internal/store/memory.go:648-674 | the node's sample of the whole minute the heartbeat came in is the new one and no other; of all other samples exactly those over thirty days old go |
| TrafficStatistics.RefreshedExactly | internal/store/memory.go:652-666 | no other node's or minute's sample is changed or lost unless too old |
| TrafficStatistics.RecordedKeepsMinutes | internal/store/memory.go:648-674 | after recording there is exactly one sample for every node and minute, among them the new one |
| TrafficStatistics.BucketIff | internal/store/memory.go:703 | the interval a time is counted in is the one that begins at a multiple of the width and covers it; there is only one |
| TrafficStatistics.HavingExactly | internal/store/memory.go:703-712 | what a point sums are exactly the increments its interval covers |
| TrafficStatistics.SortedKeys | internal/store/memory.go:714-718 | the keys of a map in increasing order |
| TrafficStatistics.TrafficHistory | internal/store/memory.go:676-723 | increasing times, one per interval with an increment, each the sum of its own, and a total that does not depend on the interval's width; every point stands at a multiple of the width with an increment less than one width away, and every increment has such a point |
| TrafficStatistics.NodeMetricHistory | internal/store/memory.go:725-796 | a point for every interval with a sample of the node, holding that node's increments; every point stands at a multiple of the width with a sample less than one width away, and every sample has such a point |
| TrafficStatistics.LastOfIsLatest | internal/store/memory.go:689-696 | the counters remembered for a node are those of its latest earlier sample |
| TrafficStatistics.ClassesPartition | internal/store/memory.go:703-712 | summing interval by interval, or node by node, gives the total |
| TrafficStatistics.TotalIsWidthFree | internal/store/memory.go:703-722 | points with the right sums have the window's total, whatever the interval |
| TrafficStatistics.WindowsAdd | internal/store/memory.go:689-712 | adjacent windows add up to the joint window |
| TrafficStatistics.IncrementsTelescope | internal/store/memory.go:697-702 | without resets a node's increments sum to the difference of its last and first counters |
| TrafficStatistics.WindowTelescopes | internal/store/memory.go:697-702 | without resets the increments of any window sum to the difference between the last counters in it and the last before it |
| TrafficStatistics.WindowTelescopesOverResets | internal/store/memory.go:697-702 | with resets: a window's increments and the counter before it sum to its last counter and, for every reset inside it, the counter just before that reset |
| TrafficStatistics.NodesAreIndependent | internal/store/memory.go:725-734 | a node's own samples give exactly that node's increments |
| TrafficStatistics.HistoryIsSumOfNodes | internal/store/memory.go:676-796 | per interval the traffic history is the sum of the nodes' histories, resets included |
| ConnectionSnapshots.ConnectionStats | internal/forward/tcp.go:542-565 | one forwarder's sessions up to the room left, and how many there are |
| ConnectionSnapshots.Stats | internal/forward/tcp.go:224-270 | reports the first 2000 sessions, complete iff none was left out, each rule's counters over its TCP and UDP forwarders, and totals that are the sums over all forwarders |
| ConnectionSnapshots.RulesPartition | internal/forward/tcp.go:255-262 | adding up rule by rule gives the sum over all forwarders |
| ConnectionSnapshots.TrafficAddsUp | internal/forward/tcp.go:236-262 | one more forwarder adds its own three counters to the total and to its own rule, and to no other rule |
| ConnectionSnapshots.SessionsOfAll | internal/forward/tcp.go:242-254 | the sessions to report are those of the forwarders, and as many |
| ConnectionSnapshots.ConnectionStore.Observe | internal/store/memory.go:309-333 | only this node's set changes; it keeps what was reported and what was there before, up to 4000, a reported session with the receive time and the activity of its last place in the heartbeat; what has to go was observed no later than anything kept and, if at the same time, active no later; of a heartbeat within the server's limit nothing is missing if receive times increase |
| ConnectionSnapshots.CurrentIsKept | internal/store/memory.go:318-332 | the eviction never takes a session of the current heartbeat |
| ConnectionSnapshots.CurrentIsAlwaysStored | internal/store/memory.go:309-333 | in any run in which a node's heartbeats are received later and later, every session of a heartbeat within the server's limit is stored after it |
| ConnectionSnapshots.StoredWasObserved | internal/store/memory.go:309-333 | a stored session carries the time of an earlier heartbeat of its node |
| ConnectionSnapshots.OldestGo | internal/store/memory.go:318-332 | of more than 4000, the 4000 most recently observed and active are kept |
| ConnectionSnapshots.CompleteReportIsExact | internal/store/memory.go:309-317 | after a complete report the store holds exactly the agent's sessions |
| ConnectionSnapshots.PartialReportAdds | internal/store/memory.go:309-317 | an incomplete report takes nothing away while the bound allows it, and no other node's set changes |
| LoginLimit.LoginLimiter.RecordFailure | internal/control/server.go:431-441 | a failure joins the current window or opens the next: the entry is again what the key's whole history leads to, and no other key is touched |
| LoginLimit.LoginLimiter.RateLimited | internal/control/server.go:417-429 | limited iff the key has five failures in a window opened less than fifteen minutes ago; an entry whose window is over is forgotten |
| LoginLimit.LoginLimiter.ClearLoginFailures | internal/control/server.go:443-447 | forgets the key's entry, while its failures stay in the history, and no other key |
| LoginLimit.WindowIsLimited | internal/control/server.go:417-441 | the failures of a window and the attempts still open never exceed the limit and the overlap |
| LoginLimit.RefusedMeansFive | internal/control/server.go:417-429 | in any run an attempt is refused only within fifteen minutes of a failure from which on there were five failures and no success |
| LoginLimit.FailuresAreBounded | internal/control/server.go:417-447 | over any run of checks and outcomes, overlapping or not, no stretch shorter than fifteen minutes holds more failures than its successes and the overlap account for; no failure is forgotten by the count |
| LoginLimit.AnyFifteenMinutes | internal/control/server.go:417-447 | the same bound for the fifteen minutes from any time on |
| LoginLimit.AtMostNine | internal/control/server.go:417-447 | nine, when attempts follow one another and no success falls among the failures |
| LoginLimit.BoundIsReached | internal/control/server.go:417-447 | for every number of successes and every overlap a run that reaches the bound |
| LoginLimit.SuccessLiftsTheBound | internal/control/server.go:219-275 | a run with one success and thirteen failures, one attempt after the other |
| LoginLimit.OverlapLiftsTheBound | internal/control/server.go:417-441 | a run with two attempts open at once, no success, and eleven failures |
| LoginLimit.NineHoldsIff | internal/control/server.go:417-447 | nine holds for all runs with so many successes and so much overlap iff there is neither |
| LoginLimit.LoginLimiter.Login | internal/control/server.go:219-275 | one attempt on its own: refused iff the window is full, and otherwise its check and its outcome follow one another in the key's history; no other key is touched |
| CursorPagination.ListAudit | internal/store/memory.go:586-599 | the newest entries before the cursor, up to the limit: taken in order, and none passed over that the cursor allows unless the page is full |
| CursorPagination.ListAgentLogs | internal/store/memory.go:624-646 | the same over the sorted entries, of which those of the node and the level asked for count, if one is asked for |
| CursorPagination.ReadFromTheEnd | internal/store/memory.go:590 | the audits are looked at from the last to the first |
| CursorPagination.PageIsSlice | internal/store/memory.go:586-599 | from a clean cut on, a page is the slice that follows it |
| CursorPagination.FollowingEnds | internal/control/server.go:1424-1427 | following `nextBefore` ends for any listing without the zero time, in any order and with any page size |
| CursorPagination.FollowingIsExactIff | internal/control/server.go:1470-1473 | over different entries, following returns every entry exactly once iff every full page ends at a clean cut, and then it returns the listing itself |
| CursorPagination.CleanMeansNoSplitTime | internal/store/memory.go:586-599 | for a newest-first listing, the cuts are clean iff no full page ends between two entries of one time |
| CursorPagination.CleanIsComplete | internal/control/server.go:1424-1427 | with clean cuts, the pages put together are the listing |
| CursorPagination.SharedTimeIsSkipped | internal/store/memory.go:586-599 | an input that loses an entry: times 5, 5, 3, one entry a page |
| CursorPagination.ReversedIsNewestFirst | internal/store/memory.go:586-599 | audits that arrive in order of time are read newest first |
| CursorPagination.MatchingIsNewestFirst | internal/store/memory.go:624-646 | the entries that match a filter stay newest first |
| Accounts.Memory.UpdateUser | internal/store/memory.go:73-108 | the change, the refusal to take the last administrator's rights, and the end of the user's sessions |
| Accounts.Memory.DeleteUser | internal/store/memory.go:110-141 | the user, the name, the sessions and the enrolment tokens go; the last administrator stays |
| Accounts.Memory.CreateInitialUser | internal/store/memory.go:48-57 | only into an empty store |
| Accounts.Memory.CreateUser | internal/store/memory.go:59-71 | a taken id or name is a conflict and changes nothing |
| Accounts.Memory.SetUserMFA | internal/store/memory.go:143-155 | sets the second factor of that user alone |
| Accounts.Memory.ConsumeRecoveryCode | internal/store/memory.go:157-172 | removes the first matching code, or reports that there is none |
| Accounts.Memory.CreateSession | internal/store/memory.go:210-215 | the session is stored under its hash |
| Accounts.RefusedIff | internal/store/memory.go:73-127 | unknown users are not found; the change or deletion is refused iff it takes the rights of the only user who is an administrator and not disabled |
| Accounts.UserIsChanged | internal/store/memory.go:92-106 | role and state are those asked for, the password is the new one or the old one if none is given, the second factor and the codes go exactly on a reset; nothing else changes but sessions |
| Accounts.UserIsDeleted | internal/store/memory.go:128-140 | the user goes with the name, the sessions and the tokens created; every other user, name and token stays |
| Accounts.UserIsCreated | internal/store/memory.go:48-71 | the first user needs an empty store, any other a free id and a free name; then exactly that user is there besides |
| Accounts.SecondFactorIsSet | internal/store/memory.go:143-155 | second factor and codes of that user are those given and nothing else changes |
| Accounts.SessionIsNewerThanChange | internal/store/memory.go:101-106 | in any run a session that is there was opened after its user was last changed or deleted |
| Accounts.StepKeepsAnAdministrator | internal/store/memory.go:73-141 | no operation takes the last active administrator away |
| Accounts.RunsKeepAdministrator | internal/store/memory.go:48-155 | once there is an active administrator there is one in every later state, and names and users stay inverse indexes |
| Accounts.SessionsEnd | internal/store/memory.go:101-106 | changing or deleting a user ends exactly that user's sessions |
| Accounts.CodeIsUsedUp | internal/store/memory.go:157-172 | a recovery code is accepted iff it is there and then one copy of it is gone |

## Left out

- Versions and byte counters are unbounded naturals; the wrap-around of 64-bit integers is not modelled.
- The order of a configuration's rule list (sorted by id), error texts, the 2000-character cut and metric values other than traffic counters are not modelled.
- Versions.ConfigListsExactlyItsRules: stated for non-empty node ids, because a relay rule with an empty egress names no node.
- Versions.RunsAreExclusive: stated for rules with non-empty ids, because the conflict check of a new rule skips the empty id.
- Acceptance.ConfigIsAcceptableIff: takes trimming, CIDR parsing and private-address tests as parameters, and assumes only that trimming the empty string gives the empty string.
- Synchronisation.AppliedVersionIsTruthful: speaks of the static fields, since a heartbeat changes the tunnel address and runtime counters of a rule without a new version; re-enrolment under an existing node id is left out.
- ControlStore.Memory.UpdateAgentHeartbeat: states the effects on nodes and rules; those of the same call on metrics, logs and connections are stated in `Traffic.dfy`, `Logs.dfy` and `Snapshots.dfy`.
- Management.Manager.Apply: the operating system is a set of bound sockets in which any socket may refuse; a listen address is a pair of host and port.
- Management.Manager.Apply: goroutines of the forwarders are not part of it; they are modelled in `Tcp.dfy` and `Udp.dfy`.
- Bandwidth.BandwidthLimiter.Wait: time and tokens are exact reals, the clock does not run backwards, and durations are not cut to nanoseconds.
- UdpSessions.UdpForwarder.CloseSessions: stated for an undisturbed sweep; the disturbed one is covered by the runs. Sessions are values and their once-only flags are sets of ids.
- UdpSessions.UdpForwarder.CloseSession: one undisturbed call; the two halves of an interrupted one are separate steps of the runs.
- UDP updates: a dial in progress may still insert a session for the old target after an update, so no claim is made about the target of every session.
- TcpConnections.AtRest: a session's counters are those its writer recorded; that they equal the bytes sent is the contract of the writer.
- TrafficStatistics.TrafficHistory: receives its samples sorted, as the library's sort leaves them; the interval is at least a second, as its callers guarantee.
- TrafficStatistics.NodeMetricHistory: the same; averages of metric values and active connections are left out.
- ConnectionSnapshots.Stats: the orders in which rules and connections are listed at the end are left out.
- CursorPagination.ListAgentLogs: receives the entries sorted. The listing does not change while a cursor is followed, and its times are above the zero time: audits carry the server's clock and agent logs without a time are refused (internal/control/server.go:870-871, 1680).
- Synchronisation.RuleListAppliedIsHeldEverywhere: the display's data leaves out a stamp of zero, which the rule list reads as never reached.
- AgentRuntime.Runtime.Synchronize: what the control plane answers, which sockets the system refuses and which file operation fails are parameters; the socket addresses other programs take are among the refused ones.
- LoginLimit.LoginLimiter.Login: whether password and code are right is a parameter, and the method is one attempt on its own; overlapping attempts are runs of its critical sections. The clock does not run backwards.
- LogDelivery.EveryEntryIsAccountedFor: follows one process of an agent; a restart empties the buffer, which is in memory only.
- The store's one mutex-protected object appears as several classes (`ControlStore.Memory`, `LogDelivery.LogStore`, `TrafficStatistics.MetricStore`, `ConnectionSnapshots.ConnectionStore`, `Accounts.Memory`), each with the fields its operations use.
- `SetAgentConfig` writes a configuration past the rule table and is not part of this model.
- The PostgreSQL store, HTTP handlers, JSON, cryptography, the `/proc` metrics, the installer, and the web interface beyond its test for an applied rule are not part of this model.
