# Grunyas verification

Grunyas is a PostgreSQL proxy: clients talk to it, it leases upstream connections and routes
each lease to a primary or a replica. This project models the state machines that make that
safe and proves what they keep over every run.

Verify with `dafny verify dfyconfig.toml`.

How it is laid out:

- `Session`, `SessionSafety`, `SessionWitnesses`, `CompatPort`, `Conversation`: the compat-port
  session. `Session` holds the step functions and the class that carries them out in place;
  `SessionSafety` runs session and router together; `SessionWitnesses` gives the runs that
  reach its exceptions; `CompatPort` joins the session object to the pipeline object;
  `Conversation` adds a client and a backend; `Relay` says what the client is sent from
  upstream.
- `Handshake`: the main loop and its read loops as one step machine over all interleavings.
- `IdleSweeper`: the min-heap with back-indices, its map of entries, and the sweep.
- `Routing`, `RoutingSafety`, `RoutingOutcome`, `Decisions`, `Counters`: the routing pipeline,
  what its decisions guarantee, exactly when it grants and whom, and its counters under every
  interleaving.
- `Policy`, `PolicySafety`, `Topology`: the hysteresis engine, its policies on raw
  observations, and the observed cluster.
- `Reset`: returning an upstream connection to the pool.
- `Bus`, `Ulid`: the decisions bus under every interleaving and the event identifier encoder.
- `Scanner`, `Classifier`, `Explain`, `ExplainSafety`, `Pinning`: comment scanners, read/write
  classification, EXPLAIN with and without ANALYZE, and the text that pins a session.

Classes update their fields in place, and each of their methods is tied by its `ensures` to a
function on values. The runs and their invariants are proved about those functions.

Conventions. Times are nanoseconds. SQL text is a sequence of Unicode characters. One routing
decision reads one snapshot of the topology and the policies, in an arbitrary iteration order
of the node map. Clocks, random bytes, pool outcomes and replies are parameters. Writes to the
client succeed.

Where the code and its own comments differ, the model follows the code:

- `internal/policy/engine.go:287`: the reason is non-empty exactly in Pending and Active
  (`Policy.ReasonShown`).
- `internal/routing/pipeline.go:557-585`: the lowest-identifier choice on the write port is
  reachable from a fresh cluster, but only towards a permanently excluded node
  (`RoutingSafety.WritePortTarget`, `RoutingSafety.WritePortFallbackIsLive`).
- `internal/server/session/session.go:361-366`: a batch such as "begin ; insert ..." is taken
  for a bare BEGIN and buffered (`Classifier.BoundaryBatch`,
  `SessionWitnesses.BatchBehindBegin`).
- `internal/classifier/classifier.go:280-307`: `/*/` opens and closes a comment at once
  (`Scanner.StripSkipsBlockComment`, `Scanner.SlashStarSlashLeaks`).
- `internal/routing/pipeline.go:475-477`: the router's own identifier test never rejects
  anybody; exclusion works through the health policy (`RoutingSafety.IdentifierTestNeverFires`).

Properties that hold only under a condition, with the exact condition proved and a failing
input or run given:

- Replica safety. A simple Query or unnamed Parse whose text classifies as a write reaches a
  replica only as COMMIT, ROLLBACK or the replayed transaction start, each alone in its query
  string, if and only if the step sends no batch there: those three are recognised by their
  first word, and whatever follows a semicolon goes along (`SessionSafety.NoWriteOnReplica`,
  `SessionWitnesses.BatchBehindBegin`, `SessionWitnesses.BatchBehindCommit`). Clients that send
  them as single statements are safe (`SessionSafety.SingleClientsAreSafe`). "Single" is by
  semicolons; quoted ones count as well.
- A named Parse of write text reaches a replica if and only if the lease is held, the
  transaction has neither failed nor written, and the name is cached with another class
  (`SessionSafety.NamedParseOnReplica`, `SessionWitnesses.RenamedParse`).
- A message is forwarded without an upstream, a nil dereference, if and only if it is a ROLLBACK
  in a transaction that had failed when the close-time release took the upstream away
  (`SessionSafety.UpstreamAlwaysThere`, `SessionWitnesses.StrandedRollback`).
- One status per query. It fails, with one status too many, if and only if a query takes a
  buffered BEGIN along to a backend whose transaction has failed; in transaction mode that query
  is a ROLLBACK (`Conversation.OneStatusExactly`, `Conversation.DoublesInTransactionMode`,
  `Conversation.BeginInFailedTransaction`). A client that sends no BEGIN after status E is safe
  (`Conversation.NoBeginAfterError`).
- A successful reset is clean if and only if, in what the drain left, no ReadyForQuery follows a
  CommandComplete or an error or, when neither ROLLBACK nor DISCARD ALL is due, the drain left
  nothing (`Reset.CleanExactlyWhenSettled`). With one Query or Sync
  unanswered this can fail only through messages sent after it without a Sync
  (`Reset.ReleaseIsClean`, `Reset.UnsyncedLeak`); with two it fails (`Reset.TwoUnansweredLeak`).
- A round of requests rotates through all eligible nodes if and only if the 64-bit counter does
  not wrap inside it, or wraps at its start, or their number divides its range
  (`RoutingOutcome.EachChosenOnce`).
- Tracking keeps the map a bijection exactly when the session was not tracked yet
  (`IdleSweeper.Sweeper.Track`).

## Model

| member | source | states |
|---|---|---|
| Session.CompatSession.constructor | internal/server/session/session.go:138-147 | a new session is idle, with no BEGIN buffered and no window; session mode starts with its lease |
| Session.CompatSession.HandleClient | internal/server/session/session.go:286-474 | one client message: Terminate closes, BEGIN is buffered and answered synthetically once, everything else is decided, replayed behind the BEGIN and forwarded; whole new state and everything sent |
| Session.CompatSession.HandleCompatSQL | internal/server/session/session.go:768-839 | failed transactions answer 25P02 or consume, ROLLBACK passes; other messages acquire a lease or pass |
| Session.CompatSession.HandleCompatStatement | internal/server/session/session.go:841-946 | Query and Parse: classification with the statement cache, then the held or the acquiring branch |
| Session.CompatSession.HandleOnLease | internal/server/session/session.go:898-921 | on a held lease a write on a replica is refused with 25006, except COMMIT and ROLLBACK; otherwise the transaction class moves on |
| Session.CompatSession.HandleAcquiring | internal/server/session/session.go:922-946 | the acquiring statement fixes the lease's role and first class, or reports the refusal |
| Session.CompatSession.Dispatch | internal/server/session/session.go:400-459 | no lease with a buffered BEGIN undoes it with an error and status I; without one the session ends with FATAL |
| Session.CompatSession.Process | internal/server/session/session.go:439-474 | the buffered BEGIN goes out first and its reply will be swallowed; session-state SQL pins the session |
| Session.CompatSession.HandleCompatReadyForQuery | internal/server/session/session.go:964-982 | transaction state and post-write window after a ReadyForQuery |
| Session.CompatSession.HandleUpstream | internal/server/session/session.go:187-284 | swallowing, forwarding, and giving the upstream back at status I; whole new state and everything sent |
| Relay.RelayedExactly | internal/server/session/session.go:205-249 | in every run the client is sent, in order and once each, everything that arrives from upstream, except what follows a replayed BEGIN up to the next ReadyForQuery, in whose place it gets an error and status I if that BEGIN failed |
| Relay.AllPassedOn | internal/server/session/session.go:237-240 | where no BEGIN is replayed, everything that arrives is passed on |
| SessionSafety.FailedTransactionAnswers | internal/server/session/session.go:772-807 | in a failed transaction every Query and Sync gets exactly one ReadyForQuery, of status E, a Query one error before it, everything else nothing, and nothing goes upstream |
| SessionSafety.RefusalAnswers | internal/server/session/session.go:843-903 | a write out of place on a replica gets one error, a ReadyForQuery only if it is a Query, and fails the transaction |
| SessionSafety.TransactionStateExactly | internal/server/session/session.go:863-921 | over every run the transaction state is what the lease's history calls for: failed, in a write, in a read or idle |
| SessionSafety.PinnedExactly | internal/server/session/session.go:450-459 | over every run the session is in session mode exactly when it began so or a query with session-level state has gone out |
| SessionSafety.SessionModeKeepsLease | internal/server/session/session.go:262-284 | in session mode no message gives the lease up |
| SessionSafety.UpstreamAlwaysThere | internal/server/session/session.go:439-459 | in every run, close-time release included, a message is forwarded without an upstream if and only if it is a ROLLBACK query in a transaction that is failed with the upstream gone, and that takes the release |
| SessionSafety.NoWriteOnReplica | internal/server/session/session.go:841-946 | in every run of session and router, a step keeps the replica rule if and only if it does not send a batch on a replica lease behind COMMIT, ROLLBACK or the buffered transaction start |
| SessionSafety.SentOnReplica | internal/server/session/session.go:439-459 | a client message sends on replica leases exactly itself and the buffered start, and only when it goes to a replica |
| SessionSafety.SingleClientsAreSafe | internal/server/session/session.go:718-739 | if every transaction start, COMMIT and ROLLBACK sent is a single statement, no step of the run breaks the replica rule |
| SessionSafety.WriteStaysOff | internal/server/session/session.go:841-946 | in no run does write text that is no transaction boundary go out on a replica lease |
| SessionSafety.NamedParseOnReplica | internal/server/session/session.go:843-896 | in every run, write text under a name goes to a replica if and only if that lease is held, the transaction neither failed nor wrote, and the name is cached with another class |
| SessionWitnesses.BatchBehindBegin | internal/server/session/session.go:367-388 | from the start: "begin ;" with any statement behind it, then a read, sends the whole batch to a replica |
| SessionWitnesses.BatchBehindCommit | internal/server/session/session.go:730-733 | from the start: a read, then "commit ;" with any statement behind it, sends that batch to a replica |
| SessionWitnesses.RenamedParse | internal/server/session/session.go:843-896 | from the start: a name parsed with a read and again with a write sends the write to a replica |
| SessionWitnesses.StrandedRollback | internal/server/session/session.go:486-487 | from the start: a failed write, the close-time release and a ROLLBACK forward without an upstream |
| Session.CompatSession.HandleReleaseSignal | internal/server/session/session.go:486-487 | the upstream goes and nothing else changes, the failed transaction included |
| CompatPort.AcquireLease | internal/server/proxy/proxy.go:367-398 | the lease is the pipeline's decision for the text, with the node's role from the same topology |
| CompatPort.ServeClient | internal/server/session/session.go:286-474 | session and pipeline objects together make exactly one step of the runs, keep their invariant, and without a batch keep the replica rule |
| CompatPort.ServeUpstream | internal/server/session/session.go:187-284 | an upstream message makes one step of the runs, keeps their invariant and sends nothing upstream |
| CompatPort.LeaseOnlyIfNeeded | internal/server/session/session.go:768-839 | a message that is buffered, answered in a failed transaction or sent on the lease held does not depend on the router |
| SessionSafety.ReadYourWrites | internal/server/session/session.go:743-762 | in every run, a lease requested less than DurationMs after any opening of the window is refused or goes to a node not seen as replica, by every path, and the reported remaining time is between 1 and DurationMs |
| SessionSafety.WindowExactly | internal/server/session/session.go:743-762 | over every run the window is active exactly while some opening lies less than DurationMs back, and reports the rest since the latest one, rounded up |
| SessionSafety.WindowOpensExactly | internal/server/session/session.go:964-982 | in transaction mode the window opens exactly at an unswallowed ReadyForQuery I that ends a lease acquired on a primary by a write, with neither ROLLBACK text nor ReadyForQuery E since |
| SessionSafety.AskIsRouted | internal/routing/pipeline.go:441-450 | the class with which the session model asks for a lease is the one the router computes from the raw text |
| SessionSafety.GrantNotReplica | internal/server/proxy/proxy.go:388-397 | the lease handed to the session is a primary for write text and never a replica while the window is active |
| SessionSafety.InvStep | internal/server/session/session.go:186-474 | every step keeps: a replica lease is known as one, what is buffered is a transaction start, the window time is the latest opening and, before the close-time release, a failed transaction or a swallowed reply has an upstream and the flags say what happened on the lease |
| Conversation.OneStatusPerQuery | internal/server/session/session.go:367-459 | in every run in which no query takes a buffered BEGIN to a failed transaction, every Query gets exactly one ReadyForQuery unless the session ended; between queries the client last saw I exactly when no upstream is held and no BEGIN is buffered |
| Conversation.OneStatusExactly | internal/server/session/session.go:205-235 | once everything is answered the client has one status per query, or one too many exactly if the last query took a buffered BEGIN to a failed transaction |
| Conversation.DoublesInTransactionMode | internal/server/session/session.go:772-807 | in transaction mode that query is a ROLLBACK on a lease whose backend has failed, with BEGIN buffered |
| Conversation.NoBeginAfterError | internal/server/session/session.go:367-388 | a client that sends no BEGIN when it last saw E never gets there |
| Conversation.EndsWithFatal | internal/server/session/session.go:400-437 | a session ends only by answering a query with FATAL alone, with the router's code |
| Conversation.OwnRepliesReceived | internal/server/session/session.go:205-249 | in every steady run the client receives, in order and once each, exactly the backend's replies to its own queries, and nothing of the answer to the replayed BEGIN |
| Conversation.AnswersEndTheWait | internal/server/session/session.go:205-235 | whatever answers and other messages arrive, a waiting client has at most two queries outstanding upstream, each answer takes one off, and its status comes exactly with the last |
| Conversation.AskEffect | internal/server/session/session.go:367-459 | a query has one of five outcomes, with its code: FATAL, BEGIN buffered, BEGIN undone, refused, or forwarded behind the BEGIN |
| Conversation.BeginInFailedTransaction | internal/server/session/session.go:367-388 | from the start: BEGIN, a query that fails, BEGIN and ROLLBACK, which is answered twice |
| Handshake.BufferStable | internal/server/session/session.go:651-712 | in every interleaving, the message the main loop works on is still in the buffer of its read loop, which waits or has exited, and only that loop can take the acknowledgement |
| Handshake.HandedInOrder | internal/server/session/session.go:651-712 | messages handed over are a prefix of those received from each connection, short by at most one |
| Handshake.LeasesConserved | internal/server/session/session.go:590-641 | upstreams acquired are those given back plus the one held or on its way; at most one upstream read loop is alive; nothing is left when Run returns |
| Handshake.ClosingFinishes | internal/server/session/session.go:514-537 | from every reachable state of a cancelled session, at most six steps of its own goroutines end Run with every loop gone and every upstream given back |
| Handshake.AckNeverStuck | internal/server/session/session.go:186-284 | an acknowledgement is always taken, or the session is being closed |
| IdleSweeper.Sweeper.Track | internal/server/proxy/idle_sweeper.go:33-51 | a tracked session gets deadline now + timeout, as the book of deadlines says; heap order and indices stay; the bijection stays exactly when the session was new |
| IdleSweeper.Sweeper.Untrack | internal/server/proxy/idle_sweeper.go:53-65 | exactly that session leaves the book of deadlines; heap order, indices and bijection stay |
| IdleSweeper.Sweeper.Sweep | internal/server/proxy/idle_sweeper.go:75-108 | terminates; returns, once each, exactly the sessions whose stored deadline and last activity + timeout have both passed; every stored deadline left is later than now |
| IdleSweeper.Sweeper.Swap | internal/server/proxy/idle_sweeper.go:116-120 | exchanges two slots and keeps every index equal to its slot |
| IdleSweeper.Sweeper.HeapPush | internal/server/proxy/idle_sweeper.go:122-126 | adds an entry and keeps the min-heap |
| IdleSweeper.Sweeper.HeapPop | internal/server/proxy/idle_sweeper.go:128-137 | removes the entry with the least deadline and keeps the min-heap |
| IdleSweeper.Sweeper.HeapRemove | internal/server/proxy/idle_sweeper.go:53-65 | removes the entry at any slot and keeps the min-heap |
| IdleSweeper.Sweeper.HeapFix | internal/server/proxy/idle_sweeper.go:75-108 | restores the min-heap after one deadline changed |
| IdleSweeper.RootIsLeast | internal/server/proxy/idle_sweeper.go:112-114 | in a heap ordered parent by parent the root is least of all |
| IdleSweeper.Sweeper.Expire | internal/server/proxy/idle_sweeper.go:67-73 | one sweep of the book of deadlines; over the sweeper's history every session idle for the timeout since its tracking or last activity is returned |
| IdleSweeper.IdleSessionsExpire | internal/server/proxy/idle_sweeper.go:75-108 | after any sequence of tracking untracked sessions, untracking and sweeping, a sweep returns each session idle for the timeout since its tracking or last activity |
| Routing.Pipeline.Lease | internal/routing/pipeline.go:169-379 | the outcome is the decision of its snapshot, counted once in the total and once under its kind, and published once under its key |
| RoutingOutcome.EligibleExactly | internal/routing/pipeline.go:461-545 | a node is eligible exactly when it is seen in the role the request calls for, its identifier agrees, and the consulted policies approve |
| RoutingOutcome.DecidedExactly | internal/routing/pipeline.go:169-379 | a request is refused without somebody to ask; otherwise it is exactly one node's turn and that node's pool alone decides between lease, or fallback, and refusal |
| RoutingOutcome.FallbackExactly | internal/routing/pipeline.go:242-283 | the fallback is taken exactly for a compat read with nobody eligible and a single observed primary that gives a connection |
| RoutingOutcome.NobodyOutcome | internal/routing/pipeline.go:242-311 | with nobody eligible: the fallback, or the refusal and its reason |
| RoutingOutcome.Unroutable | internal/routing/pipeline.go:172-215 | an invalid port and an empty cluster are refused with their codes |
| RoutingOutcome.LowestIsLeast | internal/routing/pipeline.go:565-577 | the lowest identifier is least in byte order |
| RoutingOutcome.EachChosenOnce | internal/routing/pipeline.go:579-584 | as many requests in a row as there are eligible nodes choose all different nodes if and only if the counter does not wrap at a bad place |
| RoutingOutcome.EveryoneGetsATurn | internal/routing/pipeline.go:579-584 | and then every eligible node gets a turn |
| Routing.Pipeline.Evaluate | internal/routing/pipeline.go:461-545 | the reasons against one node, filter by filter |
| Routing.Pipeline.FilterCandidates | internal/routing/pipeline.go:452-545 | one candidate per node, in order |
| Routing.Pipeline.EligibleNodes | internal/routing/pipeline.go:547-555 | exactly the candidates without reasons, in order |
| Routing.Pipeline.SelectNode | internal/routing/pipeline.go:557-585 | the primary if eligible, else the lowest identifier, on the write port; round robin with 64-bit wrap-around elsewhere |
| Routing.Pipeline.EmitEvent | internal/routing/pipeline.go:587-601 | with a bus, one more published event and one more under its key |
| Routing.Pipeline.RejectReadPortWrite | internal/routing/pipeline.go:105-129 | counted and published as one rejection on the read port |
| Routing.Pipeline.RejectCompatReclassification | internal/routing/pipeline.go:136-163 | counted and published as one rejection on the compat port, and as a reclassification |
| RoutingSafety.GrantIsEligible | internal/routing/pipeline.go:452-585 | a leased node is an eligible candidate of the same decision with the role its port and class require; a fallback means a compat read, nobody eligible, and the single observed primary |
| RoutingSafety.WritePortTarget | internal/routing/pipeline.go:312-331 | a write-port lease needs exactly one observed primary that is not excluded, goes to it exactly when it is eligible, and otherwise to an excluded node |
| RoutingSafety.WritePortSinglePrimary | internal/routing/pipeline.go:557-585 | if no excluded node is eligible, a write-port lease goes to the one observed primary |
| RoutingSafety.WritePortFallbackIsLive | internal/routing/pipeline.go:557-585 | five probes of a fresh cluster and one evaluation of each node under the default policies after which an excluded node takes the write lease |
| RoutingSafety.CompatLease | internal/routing/pipeline.go:242-283 | compat writes go to a primary; while the window is active no compat lease goes to a replica, fallback included |
| RoutingSafety.PrimaryOfMeaning | internal/topology/topology.go:141-173 | there is a primary exactly when one node that is not excluded is observed as primary |
| RoutingSafety.IdentifierTestNeverFires | internal/routing/pipeline.go:475-477 | after any probe history, eligibility is role and policies alone |
| RoutingSafety.DwellingRun | internal/policy/engine.go:189-261 | an excluded node is out of the health policy from the first evaluation at least dwell after its first one, whatever happens in between |
| RoutingSafety.ForeignNodeNeverLeased | internal/topology/topology.go:331-372 | from then on no decision on any port chooses it |
| Decisions.KeySplitsBack | internal/admin/admin.go:906-912 | every counter key splits back to its port, outcome and reason, for any reason text |
| Decisions.KeyHasKind | internal/admin/admin.go:906-912 | the outcome read back from a key is the one it was built with and no other |
| Counters.DecisionsAddUp | internal/routing/pipeline.go:169-379 | in every interleaving the total is leased + rejected + fallback + undecided; at rest with a bus everything is published and the keyed counters add up per outcome |
| Counters.CallAlone | internal/routing/pipeline.go:587-601 | a call that runs alone in the interleaving model changes the counters as the pipeline's methods do |
| Policy.Engine.constructor | internal/policy/engine.go:98-159 | the configured policies plus the three defaults for the names not configured; no node has a state yet |
| Policy.Engine.Step | internal/policy/engine.go:189-261 | one transition of one node under one policy, everything else unchanged |
| Policy.Engine.EvaluateNode | internal/policy/engine.go:161-180 | every known policy makes one transition for the node, in any order of visiting |
| Policy.RejectsWithReason | internal/policy/evaluators.go:27-61 | every evaluator gives a reason exactly when it rejects |
| PolicySafety.LagRejectsExactly | internal/policy/evaluators.go:39-61 | the lag policy rejects exactly a believed replica whose lag is unknown, idle or outdated, or was last sampled above the threshold |
| PolicySafety.HealthRejectsExactly | internal/policy/evaluators.go:27-35 | the health policy rejects exactly a node that is not believed up |
| PolicySafety.LaggingReplicaNotLeased | internal/routing/pipeline.go:519-531 | a replica behind at one evaluation, at one at least dwell later and at all in between is leased nothing but compat writes |
| PolicySafety.LagSparesOthers | internal/policy/evaluators.go:39-61 | in every run a node never behind when evaluated, such as a primary, is never put out by a lag policy |
| PolicySafety.HealthSparesTheSound | internal/policy/evaluators.go:27-35 | in every run a node up when evaluated is never put out by a health policy |
| Policy.Hysteresis | internal/policy/engine.go:189-272 | over any history a node is ineligible if and only if an unbroken run of rejects lasted dwell and no two or more clean observations in a row lasted release since |
| Policy.Turning | internal/policy/engine.go:189-272 | an observation turns a node ineligible exactly when it completes such a run of rejects, and eligible exactly when it completes such a clean run |
| Policy.ReasonShown | internal/policy/engine.go:289-300 | the reason is non-empty exactly in Pending and Active |
| Policy.ReasonFromRun | internal/policy/engine.go:189-261 | the reason shown is one that the current unbroken run of rejects gave |
| Policy.EngineHistories | internal/policy/engine.go:161-180 | after any evaluations of any nodes the engine finds a node ineligible under a policy exactly when that policy's own observations of it convict it, and gives a reason exactly in Pending and Active, one that the current rejects gave |
| Policy.FlappingBounded | internal/policy/engine.go:189-261 | in time T a node turns ineligible at most 1 + T / (dwell + release) times, from any reachable state |
| Topology.Cluster.UpdateLiveness | internal/topology/topology.go:236-297 | the new state; an excluded node cannot be reported up |
| Topology.Cluster.UpdateObservedRole | internal/topology/topology.go:299-329 | the new state |
| Topology.Cluster.UpdateSystemId | internal/topology/topology.go:331-372 | the first identifier becomes the cluster's, a different one excludes the node for good, with the error reported |
| Topology.Cluster.UpdateLag | internal/topology/topology.go:376-428 | the new state |
| Topology.Cluster.FindPrimary | internal/topology/topology.go:141-173 | the view of the single observed primary that is not excluded, or none |
| Topology.Cluster.Replicas | internal/topology/topology.go:175-194 | one view per replica that is not excluded, and nothing else |
| Topology.View | internal/topology/topology.go:434-481 | an excluded node is never seen up or degraded; the role seen is the observed one or unknown |
| Topology.BelievedExactly | internal/topology/topology.go:434-481 | role and liveness stop being believed exactly a millisecond past their age since the last probe, a fresh lag past its own since its sample |
| Topology.LastReportsKept | internal/topology/topology.go:236-428 | a node holds the last role, the last lag sample and, unless excluded, the last liveness reported of it |
| Topology.ExclusionIsMismatch | internal/topology/topology.go:331-372 | exclusion starts exactly at an identifier mismatch |
| Topology.ExcludedForever | internal/topology/topology.go:236-297 | through any history an excluded node stays excluded, is never seen up, and is neither primary nor replica |
| Topology.ClusterIdNeverChanges | internal/topology/topology.go:331-372 | the cluster identifier, once set, never changes |
| Topology.IdsAgreeForever | internal/topology/topology.go:331-372 | every recorded node identifier equals the cluster's, through any history |
| Reset.SessionClient.DrainToReady | internal/pool/upstream_client/session_client.go:190-205 | reads up to the first ReadyForQuery, or fails with everything read |
| Reset.SessionClient.RunQuery | internal/pool/upstream_client/session_client.go:139-185 | reads up to the first ReadyForQuery after a CommandComplete or an error; succeeds when no error was among them |
| Reset.SessionClient.Reset | internal/pool/upstream_client/session_client.go:92-137 | drain, ROLLBACK when a transaction is open, DISCARD ALL when configured |
| Reset.SessionClient.ReleaseOrKill | internal/server/session/session.go:633-640 | back to the pool exactly when the reset succeeded |
| Reset.SettledTailResets | internal/pool/upstream_client/session_client.go:92-205 | when in what the drain leaves no ReadyForQuery follows a CommandComplete or an error, the reset succeeds exactly when there is no error and its commands were executed, and is then clean, with and without DISCARD ALL |
| Reset.UnsettledTailLeaks | internal/pool/upstream_client/session_client.go:139-185 | otherwise a reset that reports success is never clean |
| Reset.CleanExactlyWhenSettled | internal/pool/upstream_client/session_client.go:92-205 | for every stream of replies, with and without DISCARD ALL, a successful reset leaves the backend idle, the due commands executed and nothing unread if and only if that holds of what the drain left or, with no command due, it left nothing |
| Reset.ReleaseIsClean | internal/pool/upstream_client/session_client.go:76-137 | with at most one Query or Sync unanswered, a successful reset is clean if and only if that one's ReadyForQuery does not come, or our own Sync's does not, or what was sent between them without a Sync neither completes nor fails |
| Reset.SyncedReleaseIsClean | internal/pool/upstream_client/session_client.go:76-137 | in particular when nothing was sent after it |
| Reset.UnsyncedLeak | internal/pool/upstream_client/session_client.go:139-205 | with one unanswered query and an unsynced Execute DISCARD ALL's whole reply is still unread in the pool |
| Reset.TwoUnansweredLeak | internal/pool/upstream_client/session_client.go:139-205 | with two unanswered queries DISCARD ALL's reply is still unread in the pool |
| Bus.NoSendOnClosed | internal/decisions/bus.go:39-72 | in every interleaving no send goes to a closed channel, no channel is closed twice, and subscribers stay within the maximum |
| Bus.SendsAccounted | internal/decisions/bus.go:81-114 | each subscriber sees a subsequence of what was offered, and offered = taken + queued + dropped |
| Bus.DropsOnlyWhenFull | internal/decisions/bus.go:62-71 | in every interleaving no channel holds more than its capacity, and a drop is counted exactly at an offer that finds it full |
| Bus.NothingMissed | internal/decisions/bus.go:62-71 | a subscriber that keeps up misses nothing: taken and queued is all that was offered, in order |
| Bus.PublishStarts | internal/decisions/bus.go:54-62 | publishing on a closed bus changes nothing; on an open one the publisher can enter its send section with its event whenever it is scheduled |
| Bus.EveryoneOnce | internal/decisions/bus.go:53-72 | in every interleaving a publisher offers the event it was given exactly once to each subscriber live when its send section began, and to nobody else |
| Bus.OfferedIsSent | internal/decisions/bus.go:53-72 | a subscriber was offered exactly what was sent to it, in order |
| Bus.Subscriptions | internal/decisions/bus.go:81-142 | a subscription is granted exactly when the bus is open and below its maximum, lasts until given up or closed, and closing closes exactly the channels still subscribed |
| Bus.DrainReportsAll | internal/decisions/bus.go:95-108 | in every interleaving, right after a drain the reports add up to all drops so far |
| Bus.DropsAddUp | internal/decisions/bus.go:39-72 | the bus's drop counter is the sum of all subscribers' drops, past and present, short only of drops being counted |
| Ulid.NewUlid | internal/decisions/ulid.go:13-42 | the identifier encodes 48 bits of time and ten random bytes |
| Ulid.Encode | internal/decisions/ulid.go:22-41 | the loop of shifts produces the five-bit digits of the source |
| Ulid.EncodedValue | internal/decisions/ulid.go:22-41 | the 26 digits have, in base 32, four times the value of the 16 bytes |
| Ulid.EncoderKeepsOrder | internal/decisions/ulid.go:22-41 | the encoder is injective and keeps the order, both directions, on all 16-byte inputs |
| Ulid.LaterSortsAfter | internal/decisions/ulid.go:13-42 | an identifier of a later millisecond sorts after an earlier one, whatever the random bytes |
| Ulid.SameIdentifier | internal/decisions/ulid.go:13-42 | two identifiers are the same exactly when 48 bits of time and all random bytes are |
| Scanner.StripCommentsAndWhitespace | internal/classifier/classifier.go:280-307 | the loop terminates and computes the recursive definition |
| Scanner.StripResult | internal/classifier/classifier.go:280-307 | the result is a suffix that begins with neither white space nor a comment |
| Scanner.StripIdempotent | internal/classifier/classifier.go:280-307 | scanning twice is scanning once |
| Scanner.StripSkipsSpace | internal/classifier/classifier.go:280-307 | leading white space makes no difference |
| Scanner.StripSkipsLineComment | internal/classifier/classifier.go:280-307 | a leading line comment makes no difference |
| Scanner.StripSkipsBlockComment | internal/classifier/classifier.go:280-307 | a leading block comment makes no difference unless its body begins with a slash; what happens then |
| Scanner.SlashStarSlashLeaks | internal/classifier/classifier.go:280-307 | in that case comment text comes back as SQL |
| Scanner.StripLeadingComments | internal/server/messaging/session_state.go:26-45 | the loop terminates and returns what the other scanner returns, without trailing white space |
| Scanner.StripLeadingIsStrip | internal/server/messaging/session_state.go:26-45 | the two scanners agree up to trailing white space on every string |
| Classifier.ExplainHasAnalyze | internal/classifier/classifier.go:175-236 | the loops find ANALYZE in the option list or among the flags, as the recursive definition says |
| Explain.ExplainExactly | internal/classifier/classifier.go:137-236 | EXPLAIN text in any letter case, behind any comments and white space within the cap, is a write exactly when ANALYZE is the first word of an entry of its option list or follows flags only, and otherwise a read |
| Explain.FlagsExactly | internal/classifier/classifier.go:202-236 | the flag scan finds ANALYZE exactly when it leads the tokens behind flags only |
| Explain.ListExactly | internal/classifier/classifier.go:240-276 | the list scan finds a word exactly when it is the first word of an entry |
| Explain.AnalyzeIsWrite | internal/classifier/classifier.go:175-236 | EXPLAIN, any flags, ANALYZE, with any comments and white space between them, is a write whatever follows |
| Explain.AnalyzeInListIsWrite | internal/classifier/classifier.go:178-200 | so is EXPLAIN with a balanced list one entry of which begins with ANALYZE |
| Explain.BlanksFillTheCap | internal/classifier/classifier.go:137-147 | 64 bytes of comments and white space hide the keyword: a write |
| ExplainSafety.ExplainStaysOff | internal/server/session/session.go:841-946 | in no run does EXPLAIN text of class write go out on a replica lease |
| ExplainSafety.ExplainAnalyzeStaysOff | internal/server/session/session.go:841-946 | so neither does EXPLAIN, any flags, ANALYZE and a statement |
| Pinning.StatementPinsExactly | internal/server/messaging/session_state.go:5-24 | a statement pins exactly when, behind any comments and in any letter case, it is SET but not SET LOCAL, or PREPARE |
| Pinning.BatchPins | internal/server/messaging/session_state.go:5-24 | a query string pins exactly when one of its statements does |
| Classifier.TokenListContains | internal/classifier/classifier.go:240-276 | the loop decides membership in a comma-separated list, skipping comments |
| Classifier.FirstWordDecides | internal/classifier/classifier.go:111-165 | text that begins with a word other than EXPLAIN is a read exactly for SELECT, SHOW, FETCH and VALUES, within the 64-byte cap and whatever follows |
| Classifier.BoundaryBatch | internal/server/session/session.go:718-739 | a boundary phrase is recognised whatever follows it, further statements included |
| Classifier.CommitExactly | internal/server/session/session.go:730-733 | text that begins with a word is taken for COMMIT exactly when the word is COMMIT |
| Classifier.RollbackExactly | internal/server/session/session.go:736-739 | and for ROLLBACK exactly when it is ROLLBACK |
| Classifier.StartExactly | internal/server/session/session.go:718-727 | BEGIN starts a transaction, and no text does that begins with a word other than it and START |
| Classifier.StartTransactionStarts | internal/server/session/session.go:718-727 | START TRANSACTION starts one, whatever follows |

## Left out

- Session.CompatSession.HandleClient: a failing write to the client is not modelled; the code then falls through and forwards the refused message.
- Conversation.OneStatusPerQuery: pipelined clients, COPY streams, the close-time release and a BEGIN that the upstream refuses outside a failed transaction are excluded, because the code does not keep the count there; after the switch to session mode only the count is claimed, not the status equivalence.
- SessionSafety.WindowOpensExactly: transaction mode only, and before the close-time release, which leaves the flags of the old lease behind; ReadyForQuery tracking stops after the switch to session mode. The window looks at the statement that acquired the lease, not at later writes.
- SessionSafety.ReadYourWrites: the topology does not change between the decision and the reading of the leased node's role.
- Handshake.BufferStable: the buffered BEGIN, which outlives its acknowledgement, is excluded; the compat model treats messages as values.
- Bus.NoSendOnClosed: the bus and the session's goroutines are step machines over values, not objects, since the claims are about interleavings.
- Ulid.LaterSortsAfter: times must fit 48 bits, as the encoder keeps no more.
- Classifier.ExplainHasAnalyze: SQL is valid UTF-8, and lower-casing is exact only for characters that lower to ASCII.
- Explain.ExplainExactly: comments, lists and tokens are those the code recognises; nested comments and quoted text are not PostgreSQL's.
- Relay.RelayedExactly: a pipelining client can have replies of its own in the block that is swallowed; which replies those are is said for clients that wait (Conversation.OwnRepliesReceived).
- Routing.Pipeline.Lease: candidate lists, class, consistency mode and active policies inside published events, and the duration histograms, are not modelled; which instance of a template is consulted is a parameter.
- Policy.Engine.EvaluateNode: the clock is read once per evaluation; transition events are not published; node scope is not used by the code either.
- IdleSweeper.Sweeper.HeapPop: the exchange of the root with itself in a heap of one is skipped.
- Enforcement of the read port inside the session loop: only the pipeline's rejection is modelled.
- Statement cache eviction (`Forget`, `ForgetAll`): nothing calls it.
- TLS, sockets, authentication, configuration, probing and backoff, the admin server, console, logging and simulators: I/O, foreign libraries or flat checks.
