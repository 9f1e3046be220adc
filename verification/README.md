# Testtool, modelled and verified in Dafny

Testtool keeps the pf tables of a load balancer in line with the health of its nodes. Results of
health checks go through a hysteresis per check, checks make up the state of an LB Node, nodes
decide which of them an LB Pool serves, pools may borrow the nodes of a backup pool, and a bounded
queue carries snapshots to a worker process that rewrites pf tables. This project models that
control loop and proves what every run of it keeps, together with the self-contained kernels behind
the checks.

`dafny verify dfyconfig.toml` checks everything.

## How it is organised

| file | content |
|---|---|
| `Domain.dfy` | states, configuration records |
| `Selection.dfy` | which nodes one pool serves: the `max_nodes` loops and the `min_nodes` policies |
| `NodeRules.dfy`, `Hysteresis.dfy` | one node, one check, and what a check says about its history |
| `Wire.dfy` | messages, the queue of length 10, the worker's deliveries, where a table is heading |
| `Fleet.dfy`, `Backups.dfy` | all pools: recomputation, sending, the cascade over backups, and when it ends |
| `Invariants.dfy`, `Runs.dfy` | the system as a state machine and the invariant of every run |
| `Frames.dfy` | what one event can and cannot touch |
| `Guarantees.dfy`, `Stability.dfy`, `Recomputation.dfy`, `Downtime.dfy`, `Borrowing.dfy`, `Forcing.dfy`, `Histories.dfy`, `Convergence.dfy` | the theorems about runs |
| `Rings.dfy` | why every event of a run ends, and a run-up to an endless recursion outside of them |
| `Example.dfy` | short runs that reach the situations the theorems distinguish |
| `Objects.dfy` | health checks, nodes, pools and the queue as objects updated in place; their methods make the steps of `Runs.dfy` |
| `PfTable.dfy`, `Messages.dfy` | synchronising one pf table command by command, and what a message says about its pool |
| `Schedule.dfy`, `Checksum.dfy`, `DnsQuestion.dfy`, `Ping.dfy`, `Postgres.dfy` | kernels of the health checks |

A run is a sequence of events from a system with nothing loaded: the tables that pf still has from
before are found, a pool is loaded, a check ends with a result, a downtime setting is read, the resend
timer fires, the worker receives a message. Pf outlives the process, so a run may begin with any
tables, and nodes are loaded in any state, be it what the tables say or not. An event that
cannot happen changes nothing, so `Reached(es)` is defined for every sequence `es`. The worker may
also run between the messages that a single event sends: each event carries a schedule of the
worker's turns, over which the theorems quantify, and every delivery may succeed or fail. Node
references are a type parameter, so the same functions speak about the objects in `Objects.dfy`.
Nodes are walked in the order of a duplicate-free sequence, which stands for the pointer order of
`set<LbNode *>`, and pools in the order of a fixed but arbitrary sequence of names.

## What was found

- With an active backup pool the pf table becomes empty, because a message only lists the pool's own
  nodes (`src/pfctl_worker.cpp:169`), none of which are served then. `TablesArrive` states that the
  table reaches the served set exactly when no backup is active, or nothing borrowed has an address;
  `BorrowedTableIsEmpty` is a run of two pools in which it does not.
- A pool that is loaded before its backup, and is short, goes on without it until one of its own
  nodes announces a change: `LoadedBeforeBackup`, with a run in `LoadedTooEarly`. In every run a pool
  borrows if and only if it may borrow, is short, and has looked for its backup while that was
  registered: `BorrowsExactly`.
- The worker ignores the outcome of a synchronisation (`src/pfctl_worker.cpp:91`), so a pool goes on
  counting as in sync after a failure: `FailureGoesUnnoticed`.
- A table that cannot be shown is taken for empty, nothing is removed from it, and success is
  reported (`src/pfctl.cpp:154-168`). A reported success means the right table if and only if the
  first command succeeded or there was nothing to remove: `SyncTable`, with a wrong table in
  `WrongOnSuccess`.
- A cycle of backups can recurse forever. The cascade ends from every state if and only if no cycle
  leads through pools that can borrow, that is with policy BACKUP_POOL, a positive `min_nodes` and a
  registered backup: `EndsIffAcyclic`. Two pools naming each other, loaded one after the other, get
  there with the next failing check: `FailureNeverEnds`.
- The default DNS query `.` produces a malformed question: `RootIsMalformed`. The round trip holds if
  and only if every label has 1 to 63 bytes: `RoundTrip`.
- A ping timeout clears slot 0 instead of the check's own, which can cost an unrelated check its
  reply: `TimeoutLosesSlotZero`, reached in `LostReply`. A reply is accepted if and only if fewer than
  65536 requests were sent since and, with sequence number 0, nothing has timed out since:
  `ReplyIsAccepted`.
- The time since the last start is cut to 32 bits. A check that was not tried for 25 to 50 days does not
  start then although it is due; within 25 days it starts if and only if it is due: `StartsWhenDue`.
- `hc_max_failed` above 65535 can never be reached by the 16-bit counter: `UnreachableThreshold`.
- Under FORCE_UP a recomputation without a change of state may still move a pool that is short and has
  spare enabled nodes (`ForcedMayMove`); `GateExact` gives the exact condition.
- The comment at `src/lb_node.cpp:152-153` speaks of all checks having reported; the code, followed
  here, asks for any of them: `FirstCheckDecides`, with a case in `OneOfTwo`.

## Model

| member | source | states |
|---|---|---|
| Selection.VisitFacts | src/lb_pool.cpp:187-211 | a filling loop takes only eligible nodes, never overfills and leaves an eligible node out only when it is full |
| Selection.VisitExactly | src/lb_pool.cpp:187-211 | a filling loop takes exactly the eligible nodes it comes to before it is full |
| Selection.WithinMaxExactly | src/lb_pool.cpp:185-211 | which nodes the two `max_nodes` loops take, in closed form over node states and flags |
| Selection.ForceUpExactly | src/lb_pool.cpp:227-269 | which nodes each forcing pass adds and which of them are marked, in closed form |
| Selection.WithinMaxFacts | src/lb_pool.cpp:187-211 | the two `max_nodes` loops take min(up, `max_nodes`) up nodes, and all of them while there is room |
| Selection.KeptStay | src/lb_pool.cpp:185-197 | up nodes kept before are taken again whenever they fit |
| Selection.ShortTakesAll | src/lb_pool.cpp:92-94 | in a shortage the `max_nodes` loops cannot have stopped early |
| Selection.ForceUpFacts | src/lb_pool.cpp:223-270 | FORCE_UP in a shortage: all up nodes, only enabled ones, min(`min_nodes`, enabled) of them, the just-changed node included |
| Selection.ForcedPriority | src/lb_pool.cpp:248-269 | nodes forced before come ahead of any other, and every node served beyond the up ones is marked as forced |
| Selection.ChooseSize | src/lb_pool.cpp:187-270 | exact size of the chosen set from up count, enabled count and limits; never above a positive `max_nodes` |
| NodeRules.EndCheckMeaning | src/lb_node.cpp:136-194 | after a check the node is up iff all its checks are, drained iff a drain took it down and it is not all up again; it announces exactly a change of state |
| NodeRules.FirstCheckDecides | src/lb_node.cpp:143-155 | the first check to complete makes a new node report while no other has run, and a failure for good takes it down |
| NodeRules.OneOfTwo | src/lb_node.cpp:143-155 | a node whose second check has never run is taken down by its first |
| NodeRules.EndCheckAnnounced | src/lb_node.cpp:136-194 | every change of state or admin state is announced, downtimes survive checks, the node invariant is kept |
| NodeRules.ChangeDowntimeAnnounced | src/lb_node.cpp:197-226 | a change of downtime is announced and never leaves the node up |
| NodeRules.SettingMeaning | src/lb_node.cpp:26-40 | "maintenance", "cold_standby" and "retired" are a downtime, "deploy_offline" is a hard drain, everything else is service |
| NodeRules.ChangeDowntimeMeaning | src/lb_node.cpp:197-226 | what a changed setting does to state, flags and announcement, and that it leaves checks and the forced mark alone |
| Hysteresis.HardState | src/healthcheck.cpp:178-270 | for every history and threshold the hard state is the verdict on the results since the last PASS; the counter is the number of failures and does not wrap for thresholds up to 65535; the last state is that of the last result |
| Hysteresis.OneVerdict | src/healthcheck.cpp:219-270 | every history has exactly one verdict |
| Hysteresis.UnreachableThreshold | src/healthcheck.cpp:237-244 | with a threshold above 65535 no number of failures brings a check down |
| Histories.HardStateInRuns | src/healthcheck.cpp:87-270 | in every run the hard state of every check of every node is the verdict on the results delivered to it since its node was loaded |
| Wire.DeliverHeading | src/pfctl_worker.cpp:48-99 | a delivery keeps where every table is heading, or loses it only by failing |
| Wire.EnqueueHeading | src/pfctl_worker.cpp:199 | a queued message redirects its own table and no other |
| Wire.DrainArrives | src/pfctl_worker.cpp:48-99 | processing the whole queue without a failure puts every table where it is heading |
| Fleet.PoolLogic | src/lb_pool.cpp:165-306 | the cascade is total for ranked backup relations (termination by the pools above) and keeps the set of pools and nodes |
| Backups.AcyclicIffRanked | src/lb_pool.cpp:320-325 | rank numbers exist exactly for acyclic relations |
| Backups.EnoughFuel | src/lb_pool.cpp:305-326 | for ranked configurations the unbounded recursion, with the test of the source, ends within the number of pools above and equals the cascade |
| Backups.RingNeverEnds | src/lb_pool.cpp:305-326 | in a ring of short pools of which all, or all but the one that is about to, borrow, no depth of recursion is enough |
| Backups.EndsIffAcyclic | src/lb_pool.cpp:305-326 | for every configuration the recursion ends from every state iff no cycle of backups leads through pools that can borrow |
| Backups.RunsCoverAll | src/lb_pool.cpp:305-326 | the configurations that runs are about are exactly those in which the recursion always ends |
| Rings.EventsEnd | src/lb_pool.cpp:305-334 | in every run the recursion behind any event, the resend timer and loading included, ends within the number of pools, in the state the run goes on with |
| Rings.BothServe | src/lb_pool.cpp:126-131 | two pools naming each other load: one serves its node, the other borrows it |
| Rings.FailureNeverEnds | src/lb_pool.cpp:272-325 | when the check of that node fails next, no depth of recursion is enough |
| Invariants.ChooseSound | src/lb_pool.cpp:178-279 | every choice satisfies the policy-by-policy description of the served set |
| Invariants.AdoptSettles | src/lb_pool.cpp:281-301 | adopting a sound choice settles the pool whatever it served before |
| Invariants.SnapshotWants | src/pfctl_worker.cpp:166-198 | the worker reads exactly the addresses of the pool's own served nodes out of a snapshot |
| Invariants.PoolLogicGood | src/lb_pool.cpp:165-326 | after pool_logic with its whole cascade every pool is settled and every link to a backup that was not open elsewhere holds |
| Runs.NextInv | src/lb_pool.cpp:165-334 | every event keeps the system invariant |
| Runs.RunInv | src/testtool.cpp:85-210 | the invariant holds after every run of loading, downtimes, checks, timers and worker rounds |
| Example.OnePoolServes | tests/lb_pool_test.cpp:54-58 | a loaded pool whose node pf knows as up serves it |
| Example.LeftoverGoes | src/lb_pool.cpp:126-130 | a run that starts with an address left over in a table, which is gone once the queue is drained |
| Example.BorrowedTableIsEmpty | src/pfctl_worker.cpp:166-198 | a run in which a pool in sync borrows a node with an address while its drained table is empty |
| Example.LoadedTooEarly | src/lb_pool.cpp:272-277 | a run in which a short pool loaded before its backup serves nothing although recomputing would borrow |
| Example.ForcedMayMove | src/lb_pool.cpp:261-269 | a run that ends with a FORCE_UP pool that a recomputation may move |
| Frames.PoolLogicSame | src/lb_pool.cpp:319-325 | a cascade leaves alone every other pool that is not above the start or does not borrow |
| Frames.PoolLogicFlags | src/lb_pool.cpp:187-269 | pools change nothing about nodes but the two kept flags, and those they only set |
| Guarantees.BackupsAgree | src/lb_pool.cpp:272-277 | in every run an active backup means a pool that may borrow and equal served sets, through chains down to a pool serving its own nodes |
| Borrowing.BorrowsExactly | src/lb_pool.cpp:272-277 | in every run a pool borrows iff it may borrow, is short, and was loaded or had a node announce a change while its backup was registered |
| Borrowing.LoadedAfterBackup | src/lb_pool.cpp:272-277 | in every run a pool loaded after its backup borrows exactly while it is short |
| Borrowing.LoadedBeforeBackup | src/lb_pool.cpp:175-178 | in every run a pool loaded before its backup does not borrow until the backup is registered and a node of its own announces a change |
| Guarantees.NobodyBorrowsYet | src/lb_pool.cpp:126-131 | when a pool is constructed no registered pool borrows from it, and it does not borrow from itself |
| Guarantees.LoadedEitherWay | src/testtool.cpp:131-132 | in every run, registering a pool before or after its first pool_logic gives the same system |
| Guarantees.ServedAreEnabled | src/lb_pool.cpp:187-278 | in every run all served nodes, borrowed ones included, are enabled, and in every message ever queued every wanted entry is: the filter of the worker drops nothing |
| Guarantees.ServedCount | src/lb_pool.cpp:187-298 | in every run the exact number of served nodes, policy by policy from the up and enabled nodes and the limits, within `max_nodes`, and the pool state that follows |
| Guarantees.KeptFlags | src/lb_pool.cpp:187-211 | in every run kept nodes are up, at most `max_nodes`, and as many as allowed |
| Guarantees.TablesArrive | src/pfctl.cpp:231-306 | in every run, over whatever tables it began with, the queue is within its bound and, once drained, the table of a pool in sync holds both addresses of each of its served nodes iff no backup is active or nothing borrowed has an address |
| Messages.SendMeaning | src/pfctl_worker.cpp:155-200 | a message is queued iff fewer than 10 wait, and lists the pool's nodes in order with served state, admin state and both addresses |
| Messages.WhoseConnections | src/pfctl.cpp:268-294 | connections are dropped exactly for removed addresses of nodes in downtime or enabled; draining nodes keep theirs |
| Guarantees.FailureGoesUnnoticed | src/pfctl_worker.cpp:91 | a delivery changes no pool; a failure of the last message for a table is lost |
| Stability.Sticky | src/lb_pool.cpp:185-197 | in every run a served up node that stays up stays served, unless the pool is short and forced down or able to borrow from a registered pool |
| Stability.Churn | src/lb_pool.cpp:187-211 | in every run an event adds at most one and removes at most one node of a pool without `min_nodes` |
| Recomputation.Idempotent | src/lb_pool.cpp:178-302 | recomputing twice for the same report is recomputing once, flags included |
| Recomputation.GateExact | src/lb_pool.cpp:175-178 | in every run, recomputing without a change is harmless for every reporting node iff the pool is not short, or forced down, or without spare nodes, or already borrowing, or without a registered backup |
| Recomputation.GateSound | src/lb_pool.cpp:175-178 | in every run, whatever other pools there are, a FORCE_DOWN pool serves the same nodes, in the same state and with the same flags, as in the system that recomputes on every report |
| Downtime.DowntimeHolds | src/lb_node.cpp:136-226 | in every run a node in downtime or hard drain stays out of service and is served by nobody until a setting other than the four that take it out is read |
| Downtime.SettingTakes | src/lb_node.cpp:26-40 | in every run, after its setting is read a node is in downtime, hard drain or service as the setting says |
| Downtime.OutOfService | src/lb_node.cpp:197-226 | in every run, once one of the four settings is read for a node, nobody serves it until another is read |
| Downtime.DrainedIsDown | src/lb_node.cpp:166-186 | in every run a node drained by its checks is down |
| Downtime.DownUntilCleared | src/lb_node.cpp:162-189 | in every run a node that is down stays down until a check of its own completes and finds all its checks hard up |
| Downtime.BackAfterCheck | src/lb_node.cpp:212-219 | in every run lifting a downtime leaves the node down until such a check |
| Downtime.ShortServesAllUp | src/lb_pool.cpp:223-228 | in every run a short FORCE_UP pool serves all its up nodes |
| Downtime.JustFailedServed | src/lb_pool.cpp:227-237 | in every run the enabled node that just went down is served by a short FORCE_UP pool |
| Downtime.ForcedAreMarked | src/lb_pool.cpp:232-268 | in every run a node served although it is not up carries `min_nodes_kept` |
| Downtime.ForcedComeFirst | src/lb_pool.cpp:248-269 | in every run a new node is forced up only if all other nodes forced before are served |
| Forcing.MarkedOnlyWhenForced | src/lb_pool.cpp:214-270 | in every run a node is newly marked as forced only if its pool is FORCE_UP, short after the event and serves it, and only by loading or an announced change |
| Forcing.MarkStays | src/lb_node.cpp:179-186 | in every run the mark stays until a check of the node brings it up |
| Convergence.PoolLogicSyncs | src/lb_pool.cpp:304-326 | with a worker that keeps up, pool_logic and its cascade leave the pool in sync and no other pool out of sync |
| Convergence.Converges | src/lb_pool.cpp:304-334 | from every reached state: once the worker keeps up and every pool behind has been called, all pools are in sync and the drained tables of pools that do not borrow hold their served addresses, unless a failure had gone unnoticed before |
| Convergence.RestartCleans | src/lb_pool.cpp:126-130 | whatever pf had before the start: as long as no command fails, the drained table of every pool in sync is exactly its own served addresses |
| Objects.Healthcheck.constructor | src/healthcheck.cpp:87-101 | the check starts in agreement with its node, up without a failure or down |
| Objects.LbNode.AddCheck | src/healthcheck.cpp:48-101 | in place: the node gets one more check, newly created, and stays fresh |
| Objects.Healthcheck.TakeResult | src/healthcheck.cpp:178-270 | in place: the hysteresis step; the check may be scheduled again |
| Objects.LbNode.constructor | src/lb_node.cpp:46-82 | a fresh node: flags cleared, state from the pf table by its IPv4 address or, without one, its IPv6 address, admin state from the setting |
| Objects.LbNode.CountChecks | src/lb_node.cpp:137-150 | the counting loop: whether a check has run, whether all are up, whether one drains |
| Objects.LbNode.GatherChecks | src/lb_node.cpp:136-194 | in place: the node step, and whether the pool is called |
| Objects.LbNode.StartOrEndDowntime | src/lb_node.cpp:197-224 | in place: the downtime step, and whether the pool is called |
| Objects.LbNode.EndCheck | src/healthcheck.cpp:178-213 | end_check through node_logic, pool_logic and the cascade makes exactly the step of the system |
| Objects.LbNode.ChangeDowntime | src/lb_node.cpp:197-226 | change_downtime through pool_logic and the cascade makes exactly the step of the system |
| Objects.LbPool.constructor | src/lb_pool.cpp:56-94 | limits, stored as size_t, and policy as derived from the configuration; `max_nodes` is 0 or at least `min_nodes` |
| Objects.LbPool.AddNode | src/lb_node.cpp:46-82 | in place: a fresh node joins the pool |
| Objects.PoolMap.constructor | src/testtool.cpp:119-133 | at start-up the objects stand for the system with nothing loaded, whatever tables pf has |
| Objects.MessageQueue.constructor | src/pfctl_worker.cpp:103-119 | at start-up nothing is queued and pf has its tables |
| Objects.PoolMap.Register | src/testtool.cpp:132 | in place: the pool is filed under its name, with its nodes |
| Objects.LbPool.Load | src/lb_pool.cpp:126-131 | on objects: registering and the first pool_logic make exactly the step of loading a pool |
| Objects.LbPool.AddKept | src/lb_pool.cpp:187-197 | the first `max_nodes` loop |
| Objects.LbPool.AddOthers | src/lb_pool.cpp:200-211 | the second `max_nodes` loop, with the flags it sets |
| Objects.LbPool.ForceNodesUp | src/lb_pool.cpp:223-270 | the FORCE_UP branch on node objects |
| Objects.LbPool.WantedNodes | src/lb_pool.cpp:178-279 | the wanted nodes, the flags and whether the backup is active |
| Objects.LbPool.RecomputeUpNodes | src/lb_pool.cpp:178-302 | the pool adopts the choice its nodes call for |
| Objects.LbPool.SendMessage | src/pfctl_worker.cpp:155-200 | the fixed-size list is the snapshot; it is queued iff the queue is not full |
| Objects.LbPool.PoolLogic | src/lb_pool.cpp:165-306 | on objects: exactly the cascade of `Fleet.PoolLogic` |
| Objects.LbPool.UpdatePfctl | src/lb_pool.cpp:309-326 | on objects: sending and the walk over the pool map, with the test of the source for borrowers |
| Objects.LbPool.SyncNoHc | src/lb_pool.cpp:329-334 | on objects: the resend for pools without checks is the timer's step |
| Objects.MessageQueue.TrySend | src/pfctl_worker.cpp:199 | the worker may run first; the queue takes the message iff fewer than 10 wait |
| PfTable.KillsExactly | src/pfctl.cpp:265-295 | the three commands that drop connections come exactly for removed addresses with an entry in downtime or enabled, the single one that does not exactly for removed addresses with a draining entry |
| PfTable.PlanParts | src/pfctl.cpp:251-258 | the plan removes what is not wanted and adds what is missing |
| PfTable.PlanOrder | src/pfctl.cpp:260-303 | the plan reads, removes, kills, adds and reads again, in this order |
| PfTable.Pf.GetTable | src/pfctl.cpp:146-188 | a table whose first command fails is taken for empty and created |
| PfTable.Pf.Rebalance | src/pfctl.cpp:212-229 | sources are forgotten for all addresses but the new ones, each once, without killing states |
| PfTable.Pf.SyncTable | src/pfctl.cpp:231-306 | success means the wanted set, both addresses of every entry wanted up and enabled, iff the first command succeeded or nothing was to be removed; a failure of that command alone is reported as success; every exit lies between intersection and union; exact list of commands when none fails |
| PfTable.WrongOnSuccess | src/pfctl.cpp:154-168 | when only the first command fails on a table with something to remove, success is reported with a wrong table |
| PfTable.WorkerReceive | src/pfctl_worker.cpp:74-99 | one round of the worker is one delivery, a good one if no command fails |
| Schedule.TimespecDiffMs | src/time_helper.cpp:3-12 | the difference in milliseconds rounded down, cut to 32 bits |
| Schedule.StartsWhenDue | src/healthcheck.cpp:146-164 | within 25 days of its last start a check may start iff it is not running and its period has passed; for the next 25 days it does not start |
| Schedule.CheckTimer.ScheduleHealthcheck | src/healthcheck.cpp:146-164 | in place: the check starts iff it is not running and its interval and extra delay have passed |
| Schedule.RunsArePaced | src/healthcheck.cpp:146-164 | in every run starts and ends alternate and starts are at least a period apart |
| Schedule.StartRate | src/healthcheck.cpp:153-158 | starts i and j of one check are at least j - i periods apart |
| Schedule.DueStarts | src/healthcheck.cpp:146-164 | an attempt shows up as a start exactly if the check is due |
| Schedule.RunsArePrompt | src/healthcheck.cpp:146-164 | in every run no start is later than the gap between attempts after the check is due |
| Checksum.SumsAgree | src/healthcheck_ping.cpp:67-85 | plain addition folded at the end is one's complement addition |
| Checksum.OddLength | src/healthcheck_ping.cpp:75-80 | an odd buffer counts as if a zero byte followed |
| Checksum.EitherOrder | src/healthcheck_ping.cpp:67-80 | machines of either byte order get the same bytes |
| Checksum.AddWords | src/healthcheck_ping.cpp:70-80 | the loop with its odd byte; the accumulator stays in 31 bits |
| Checksum.InCksum | src/healthcheck_ping.cpp:53-87 | the complement of the one's complement sum, for every buffer up to 65536 bytes and both byte orders |
| Checksum.Verifies | src/healthcheck_ping.cpp:343-345 | storing the checksum in the zeroed word makes the checksum of the packet 0 |
| DnsQuestion.SplitName | src/healthcheck_dns.cpp:62-67 | every dot-terminated name is its labels joined |
| DnsQuestion.ReplaceDots | src/healthcheck_dns.cpp:176-185 | the in-place loop writes every length over its dot and touches nothing else |
| DnsQuestion.BuildDnsQuestion | src/healthcheck_dns.cpp:165-194 | the first bytes become the question of the name's labels; the rest of the buffer is untouched |
| DnsQuestion.RoundTrip | src/healthcheck_dns.cpp:165-194 | the question decodes to the labels, type A and class IN iff every label has 1 to 63 bytes |
| DnsQuestion.RootIsMalformed | src/healthcheck_dns.cpp:65-67 | the default query yields a malformed question |
| Ping.RunInv | src/healthcheck_ping.cpp:311-322 | in every run slots, sequence numbers and running checks agree |
| Ping.ReplyIsCurrent | src/healthcheck_ping.cpp:262-266 | a reply completes only a running check, and its current request unless 65536 or more requests lie between |
| Ping.ReplyIsAccepted | src/healthcheck_ping.cpp:262-309 | in every run the reply to the request of a running check completes it iff fewer than 65536 requests were sent since and, with sequence number 0, no check has timed out since |
| Ping.TimeoutLosesSlotZero | src/healthcheck_ping.cpp:304-308 | a timeout of another check costs a check with sequence number 0 its reply |
| Ping.LostReply | src/healthcheck_ping.cpp:304-322 | a run of 65536 requests, or a multiple, and one timeout in which that happens |
| Ping.OneResultEach | src/healthcheck_ping.cpp:402-411 | in every run every request is either that of a running check or has exactly one result |
| Ping.EventResults | src/healthcheck_ping.cpp:257-309 | in every run a matching reply is a pass and the timeout of a running check a failure, each for the current request |
| Ping.Pinger.Schedule | src/healthcheck_ping.cpp:311-322 | in place: next number and slot |
| Ping.Pinger.Callback | src/healthcheck_ping.cpp:257-285 | in place: the matching check, if any, is completed and has passed |
| Ping.Pinger.Finalize | src/healthcheck_ping.cpp:292-309 | in place: the timeout step; a running check has failed |
| Ping.Pinger.EndCheck | src/healthcheck_ping.cpp:402-411 | in place: the slot of the current number is cleared |
| Postgres.ReactFacts | src/healthcheck_postgres.cpp:151-279 | exactly when the protocol passes, fails, or waits, for which direction and at which stage |
| Postgres.PostgresCheck.Schedule | src/healthcheck_postgres.cpp:69-131 | after scheduling the check runs with everything held, or has ended with nothing held, or the process gives up |
| Postgres.PostgresCheck.RegisterIoEvent | src/healthcheck_postgres.cpp:324-347 | one event is held, and the 102nd registration gives up |
| Postgres.PostgresCheck.HandleIoEvent | src/healthcheck_postgres.cpp:372-395 | a callback does what the protocol asks for |
| Postgres.PostgresCheck.HandleTimeoutEvent | src/healthcheck_postgres.cpp:400-414 | a timeout ends the check with everything released |
| Postgres.PostgresCheck.EndCheck | src/healthcheck_postgres.cpp:282-317 | everything is released and the check ends once |
| Postgres.PostgresCheck.Drive | src/healthcheck_postgres.cpp:151-317 | for every sequence of events and answers: at most 101 callbacks, one end, everything released |

## Left out

- HTTP, HTTPS, TCP and dummy checks: their results enter as arbitrary PASS, FAIL or DRAIN.
- Reading JSON, address parsing, logging, the status file, signals and process management: plumbing around the modelled state; parsed values are arguments.
- HC_PANIC in the control loop: the process exits, so no run continues after it. A failing `assert` about the state of libpq, or libevent reporting both flags at once, ends the process in the same way.
- Pools with exactly 100 nodes: the constructor admits them, but `send_message` asserts fewer than 100 (`src/pfctl_worker.cpp:163`), so configurations have at most 99 nodes per pool.
- The loops of the pool constructor over its nodes and checks: `AddNode`, `AddCheck` and `Load` are their steps; the place of a node in the set and of a pool in the map are arguments.
- Names longer than the 255 characters that fit into a message.
- Two pools with the same pf table: table names in a run are distinct.
- Configurations in which the recursion may not end have no runs; `RunsCoverAll` says that these are the only ones excluded for their backups.
- Overlong DNS names: `build_dns_question` does not check the size of its buffer, so `BuildDnsQuestion` asks for room, as its comment does, and for the zeroed buffer its caller passes.
- Fairness: `Converges` says what follows when the worker keeps up and pools are called, not that this happens.
- Parsing of ICMP packets and round-trip times in messages.
- Pf commands are atomic: a failed command has no effect on the table.
