# BetterNAT agent: a verified model

BetterNAT keeps a NAT gateway highly available. Several nodes compete for one lease in a shared store; the holder
points the cloud's routes and a public address at itself, checks the lease before and after each cloud change, and can
hand everything to a peer on request. This project models that protocol in Dafny and proves what it keeps.

| file | what it models |
|---|---|
| `Lease.dfy` | the in-process lease manager, the specification of the other stores, and its promises over whole runs |
| `Firestore.dfy` | the Firestore lease: decisions, transactions, equivalence with the manager, safety under clock skew and lost answers |
| `Dynamo.dfy` | the DynamoDB lease in whole seconds, and its refinement of the manager |
| `Stores.dfy` | the three lease stores as instances of one set of terms |
| `World.dfy` | lease, routes, addresses and clock as the controller sees them: calls fail, failed calls may take effect, others interfere |
| `Fencing.dfy` | what checking the lease around each cloud change buys |
| `Controller.dfy` | activation, lease checks, ownership repair |
| `Handover.dfy` | planned handover: renewals, retries, both orders of moving, the way back, the transfer |
| `Protocol.dfy` | a supervisor step as its lease operations show it |
| `Supervisor.dfy` | the supervisor's step and loop, one node's and many nodes' |
| `Interleaving.dfy` | many supervisor loops on one store, interleaved call by call |
| `Failover.dfy` | bounded takeover by the real controller, on each of the three stores |
| `HandoverRequests.dfy` | the durable handover request handler and the target's consent, interleaved over a shared store |
| `ShadowRoute.dfy` | GCP route replacement behind a temporary shadow route |
| `StaticAddress.dfy` | moving a static address between GCP instances |
| `Timing.dfy` | runs of the heartbeat and of the supervisor's loop, and when they keep the lease |
| `Metrics.dfy` | the metrics printer and the command line's parser of its lines |
| `Rollback.dfy` | the routes written down at installation on AWS, and their rollback |
| `Iam.dfy` | adding to and removing from an IAM policy, in place |
| `Strings.dfy` | the order of strings and sorting by it |

## How to read it

- **Lease stores.** `Lease.Apply` is one step of the manager; `Firestore.Commit` and `Dynamo.Update` are one step of
  the shared stores. The classes are the stores as objects, each method proved to be that step. `Stores.Act` is one
  step of any of the three as its reads show it, parameterised by its `Terms`: the TTL, how long after a lease's end it
  still refuses others and still accepts the owner, and whether it keeps whole seconds. `Stores.StoreActs` proves each
  store to be exactly an instance.
- **The world.** Every call of the controller goes through `World.World`, whose lease store is any store's `Terms`: what
  is proved of the controller, the supervisor and the takeover holds on all three. Before each call others may change
  the lease, the routes and the addresses, and time passes. A world may be `quiet` (only the caller changes anything,
  but calls fail, also after taking effect), `answering` (the lease store answers, whatever the cloud does) or `smooth`
  (both, and besides no call fails and none takes time). Fencing theorems hold in every world, ownership theorems in
  quiet ones, "it succeeds" theorems in smooth ones. It records the cloud changes made, forward ones (`calls`) apart from
  those that put things back (`reverts`). The GCP and installation models have a `smooth` flag of their own.
- **Contracts in the settings' terms.** The specification functions (`Controller.Targets`, `Protocol.Decide`,
  `Rollback.Installed`, ...) are how a method's result is computed; what it amounts to is stated besides in terms of the
  settings, records and routes themselves: in the methods' own contracts, and in lemmas such as
  `Controller.TargetsListTables`, `Handover.HandedOverMeans`, `Protocol.FollowingBegins` and `ShadowRoute.PlanFits`.
- **Fencing.** The world keeps the history of lease reads and cloud changes with the lease as it was at each instant,
  and of each look a supervisor step begins with: what it was told, and what the clock said. `Fenced` says that before
  each forward change the latest lease read found the tenure (owner and generation) intact. Every controller method that
  changes the cloud under a lease ensures it, for the local node and the generation of the record it acts under, with
  the conclusion: at most one change once that tenure is lost (`OneLateCallAtMost`); for a step, lost after its look.
- **Protocol.** The world also keeps the operations on the lease store. `Protocol.Follows` says what a step may do on
  the store after what it has seen, and what it may report then; the real step ensures it of itself, and the nodes of
  `Interleaving.dfy` do exactly that, with anything of others in between (`Interleaving.ReportsWhatFollows`).
- **Interleavings.** Firestore nodes with their own clocks, handover handlers and supervisor loops are state machines
  whose runs are arbitrary interleavings; the theorems hold in every reachable state.

## Results worth knowing

- The 2 s skew allowance of Firestore is exact: mutual exclusion holds in every run if and only if the nodes' clocks
  stay within 2 s of each other. Where answers may be lost and leases are also transferred it is 1 s: a slow node that
  was handed the lease shortens it by a renewal of which it learns nothing, and goes on trusting the longer record
  (`Firestore.ExclusiveIffSkewAllowed`, `Firestore.LostRenewalBreaks`).
- Of several supervisor loops, interleaved call by call, at most one is ACTIVE under an unexpired lease if and only if
  every node has a status reporter. A node without one that cannot read the lease takes its own lease again and, when it
  fails, gives it back while its last result is still ACTIVE (`Interleaving.ExclusiveIffAllReport`,
  `Interleaving.TwoActive`, internal/ha/supervisor.go:129-132).
- DynamoDB refuses what the manager would grant in exactly one situation: the clock and the expiry fall into the same
  whole second (`Dynamo.UpdateRefinesApply`).
- A release restarts the generations, so a superseded record can come back to life after one
  (`Lease.ReleaseRevives`); between releases it never does (`Lease.SupersededStaysDead`).
- A route configuration that cannot be used makes a handover stop with the address already moved and nothing put back
  (`Handover.Ending.Stranded`); without faults this happens exactly when the configuration is unusable and the address
  goes first (`Handover.Run`, internal/ha/controller.go:394-397).
- Replaying a finished handover request gives the original answer exactly when it completed, or was rejected under
  generation 0: error answers leave the generation out, and call a failure a rejection
  (`HandoverRequests.ReplayAnswersTheSameIff`).
- The heartbeat keeps the lease through a cloud change, whatever each renewal takes within given bounds, if and only if
  the slowest one still arrives in time, counted from the oldest lease the check before it allows, or such a lease
  outlives the attempt's time limit (`Timing.HeartbeatKeepsLeaseIff`). "TTL above 1 s plus the renewal's latency" is
  that condition exactly for requests of at most 2 s; with a request of 10 s there is a run in which a 12 s lease lapses
  (`Timing.SlowRequestsLapse`).
- From a TTL of 2 s up, a supervisor step that ends within its time-out ends under a live lease, on every store
  (`Timing.StepEndsUnderLiveLease`), so ACTIVE then means live holder at the step's end.
- A handover has its target's consent if and only if the node has a token and, in the status it goes by, an address for
  the target (`HandoverRequests.ExecutionIsEarned`, internal/agent/handover_target.go:17-23); otherwise it runs without
  (`HandoverRequests.RunsWithoutConsent`).
- A finished handover request says rejected if and only if no handover was run, however its handlers interleaved and
  whatever was lost (`HandoverRequests.FinalStatusTells`).
- The shadow swap covers the traffic even over changes left under way by an earlier attempt, with one exception: a
  retry begins by deleting the shadow, and while the earlier attempt's deletion of the canonical route is still under
  way both routes can be gone (`ShadowRoute.RetryCoveredIff`, `ShadowRoute.StuckAttemptThenRetry`,
  internal/ha/controller.go:647-689).
- Rolling back passes over missing instances, network interfaces and NAT gateways only; a missing gateway of another
  kind stops it with the remaining routes unrestored (`Rollback.MissingGatewayStopsRollback`).
- A route that is already at its target is left alone without a look at shadow routes left over for other targets; the
  traffic follows it if and only if none of those leads elsewhere (`ShadowRoute.LeftAloneServesIff`); after an attempt
  that failed with its shadow up, moving back succeeds and changes nothing (`ShadowRoute.LeavesAloneInVain`).
- Printing a metric line and parsing it gives the labels back if and only if no label value holds white space other than
  newlines (`Metrics.RoundTripIff`).
- Rolling an installation back restores the routes in every case if and only if no route table is named twice; the
  planner does not refuse such a plan (`Rollback.AlwaysUndoneIffTablesDistinct`, internal/installplan/plan.go:255-265).

## Model

| member | source | states |
|---|---|---|
| Lease.MemoryManager.Acquire | internal/lease/lease.go:53-71 | one manager step: refused while another owner's lease is unexpired, else the next generation for a TTL |
| Lease.MemoryManager.Renew | internal/lease/lease.go:73-86 | one manager step: needs owner, generation and an unexpired lease; moves the expiry only |
| Lease.MemoryManager.Release | internal/lease/lease.go:88-96 | one manager step: needs owner and generation, clears everything, the generation included |
| Lease.MemoryManager.Transfer | internal/lease/lease.go:98-116 | one manager step: a live lease goes to the new owner under the next generation |
| Lease.MemoryManager.Current | internal/lease/lease.go:118-125 | the stored record, or not held when it has no owner |
| Lease.TenuresNeverOverlap | internal/lease/lease.go:53-116 | in every run with a non-decreasing clock, a grant to somebody else during an unexpired grant comes only after its owner's own release or transfer |
| Lease.PromiseKept | internal/lease/lease.go:53-116 | until the owner gives it up, an unexpired grant stays stored and never expires earlier than promised |
| Lease.StoredIsLastGrant | internal/lease/lease.go:53-125 | in every run the stored record is the last successful grant, or nothing |
| Lease.AnswersFollowLastGrant | internal/lease/lease.go:53-116 | each operation's success or refusal characterised, both ways, by the past answers alone |
| Lease.RefusalsFollowLastGrant | internal/lease/lease.go:53-116 | why an operation is refused, by the past answers alone: expired exactly for the last grant's owner and generation at or after its end, fenced off for any other record |
| Lease.GrantTerms | internal/lease/lease.go:63-115 | every grant lasts one TTL from now, in the manager's group, for the owner asked for, and is what is stored |
| Lease.GenerationCountsTakings | internal/lease/lease.go:64-113 | between two releases the generation counts acquires and transfers; renewals and refusals add nothing |
| Lease.SupersededStaysDead | internal/lease/lease.go:73-130 | until a successful release, a record of an earlier generation renews, transfers and releases nothing |
| Lease.ReleaseRevives | internal/lease/lease.go:88-96 | a run in which a superseded record renews again after a release |
| Firestore.Backend.Acquire | internal/coordination/firestore/backend.go:74-105 | the transaction is one step of the store's decision |
| Firestore.Backend.Renew | internal/coordination/firestore/backend.go:107-135 | the transaction is one step of the store's decision |
| Firestore.Backend.Release | internal/coordination/firestore/backend.go:137-159 | the transaction is one step of the store's decision, whatever the clock says |
| Firestore.Backend.Transfer | internal/coordination/firestore/backend.go:161-189 | the transaction is one step of the store's decision |
| Firestore.StepMatchesMemory | internal/coordination/firestore/decision.go:32-108 | one step of a usable store with TTL t answers exactly like the manager with TTL t + 2 s, for named nodes below the generation limit: the same successes, and the same refusals but for not held on a missing document |
| Firestore.RunMatchesMemory | internal/coordination/firestore/decision.go:20-108 | the same over every run on one clock, answer by answer, both ways |
| Firestore.OthersWaitForExpiry | internal/coordination/firestore/decision.go:36-108 | another node's operation changes a held document only after its expiry plus the allowance |
| Firestore.MisconfiguredIff | internal/coordination/firestore/backend.go:367-391 | an operation is refused as misconfigured if and only if gateway, group or a positive TTL is missing; a refusal of any kind leaves the document alone |
| Firestore.StepKeepsBacked | internal/coordination/firestore/decision.go:20-108 | every node step keeps: what a node remembers as its own is backed by the document up to the slack or expired on its own clock, and neither ends later than a TTL and the excess from now |
| Firestore.NeverTwoHolders | internal/ha/controller.go:195-210 | in every interleaving, no two nodes both hold a record that their own clock calls unexpired: with clocks at most 2 s apart, also when answers are lost, if nothing is transferred; with both, at most 1 s |
| Firestore.ExclusiveIffSkewAllowed | internal/coordination/firestore/decision.go:20-20 | for each kind of runs, with or without lost answers and with or without transfers, mutual exclusion in all of them holds if and only if the skew is at most 2 s, or 1 s with both |
| Firestore.LostRenewalBreaks | internal/coordination/firestore/decision.go:52-85 | the run beyond 1 s: handed over by a fast node, shortened by a renewal without an answer, taken while still trusted |
| Dynamo.Table.Acquire | internal/coordination/dynamodb/backend.go:64-86 | one conditional update on whole seconds |
| Dynamo.Table.Renew | internal/coordination/dynamodb/backend.go:88-110 | one conditional update on whole seconds |
| Dynamo.Table.Release | internal/coordination/dynamodb/backend.go:112-129 | one conditional delete, whatever the clock says |
| Dynamo.Table.Transfer | internal/coordination/dynamodb/backend.go:131-158 | one conditional update on whole seconds |
| Dynamo.UpdateRefinesApply | internal/coordination/dynamodb/backend.go:64-158 | each success is a manager success at the same time with the same result rounded down; the manager succeeds alone exactly in the lease's last second, on a renewal, transfer or takeover; the reasons of all other refusals |
| Dynamo.RunRefinesMemory | internal/lease/dynamodb/manager.go:51-145 | beside every run goes a manager run of the successful writes, with the same answers up to rounding; refused writes change neither |
| Dynamo.TablePromiseKept | internal/coordination/dynamodb/backend.go:64-158 | until the owner gives it up, the item stays the owner's and expires no earlier than promised |
| Dynamo.TableTenuresNeverOverlap | internal/coordination/dynamodb/backend.go:73-73 | up to one second after a grant's expiry, another owner is granted the lease only after its own release or transfer |
| Stores.StoreActs | internal/lease/lease.go:19-29 | seen through its reads, each of the three stores grants, refuses, stores and answers exactly by its terms |
| World.World.Operate | internal/lease/lease.go:19-29 | a lease call on any store: atomic at the store's clock, possibly without an answer, possibly with a hidden effect unless it is a transfer; a grant gives at least the life the store assures |
| World.World.Change | internal/cloud/cloud.go:68-73 | a forward cloud change: success means it took effect, failure leaves that open; others may act first; recorded with the lease as it then was, and among the forward calls |
| World.World.PutBack | internal/ha/controller.go:727-743 | a change that puts something back: the same, recorded among the reverts |
| World.World.Current | internal/lease/lease.go:118-125 | a lease read: the stored record, missing, or a failure; successful reads are recorded |
| World.World.LookAtLease | internal/ha/supervisor.go:127-128 | a step's look: the read's reply, whatever it is, and the clock after it, both recorded |
| Fencing.AtMostOneLateCall | internal/ha/controller.go:212-220 | once the lease is lost for good, a fenced run makes at most one more forward change wherever the loss falls, and none after a read has shown it |
| Fencing.FencedMeansOneLateCall | internal/ha/controller.go:212-220 | every fenced stretch, in any world: at most one forward change if the tenure is lost for good, and none after a read has shown it |
| Fencing.LateCallsCount | internal/ha/controller.go:212-220 | the late calls counted are the forward calls made at moments when the stored lease was of another tenure |
| Fencing.FencedJoin | internal/ha/controller.go:212-220 | fenced stretches one after the other are one fenced run |
| Controller.RouteRepairsAreTheDrift | internal/ha/controller.go:285-310 | route repairs are exactly the listed routes that are missing or elsewhere, each once however often listed |
| Controller.RepairsAreTheDrift | internal/ha/controller.go:240-312 | the repairs are exactly the drift of address and routes, and none at all if and only if everything is owned |
| Controller.TargetsListTables | internal/ha/controller.go:753-783 | one target per listed route table, in order, with the destination and the instance; none without a failover mode; refused exactly for an unsupported mode or target type, a missing destination, no tables or an empty table id |
| Controller.OwnedIff | internal/ha/controller.go:240-312 | everything is owned if and only if the settings can be acted on, every listed table's route leads to the instance and the shared address is attached to it |
| Controller.MovesAreListed | internal/ha/controller.go:110-152 | the changes of an activation or handover: the shared address first, then one per listed table in order |
| Controller.Controller.RouteTargets | internal/ha/controller.go:753-783 | the loop collects one target per route table, with that table, the destination and the instance, or refuses exactly the unusable configurations, named field by field |
| Controller.Controller.CurrentWithRetry | internal/ha/controller.go:572-593 | up to four reads; what it returns is the lease stored at that instant |
| Controller.Controller.VerifyLease | internal/ha/controller.go:195-210 | success means the stored lease is the local node's, of that generation, and unexpired; it arms the fence |
| Controller.Controller.VerifyLeaseFence | internal/ha/controller.go:212-220 | the same, and nothing at all for a record without an owner |
| Controller.Controller.Activate | internal/ha/controller.go:77-193 | in every world it acquires, and releases again only what it was granted; without a grant it touches nothing; under a grant it is fenced on exactly that record's tenure, with at most one change once it is lost; the address and then each route attempted once and in order; alone, success means a lease found live, lasting what the store assures from the call on, every listed table's route at the node and the shared address attached to it, failure does not sit on the lease, and a foreign live lease is left alone with the cloud; without faults a free lease is won; unresolved nodes and unusable settings are refused |
| Controller.Controller.ActivateRoutes | internal/ha/controller.go:141-152 | each route is moved once, in order, between two lease checks, up to the first failure; on success all are at their targets |
| Controller.Controller.ActivateAddress | internal/ha/controller.go:119-133 | the address is moved between two lease checks; on success the node holds it |
| Controller.Controller.VerifyActivated | internal/ha/controller.go:153-171 | alone, the read-back accepts only everything in place, and without faults it does |
| Controller.Controller.EnsureOwnership | internal/ha/controller.go:240-312 | alone, the changes made are a prefix of the drift's repairs, and on success all of them, with every listed table's route at the node and the shared address attached to it; fenced when a record is given; unresolved nodes and unusable settings are refused |
| Controller.Controller.EnsureOwnershipFenced | internal/ha/controller.go:233-238 | refuses a record without an owner; else fenced on the local node and the record's generation, at most one change once that is lost, and on success everything is owned |
| Controller.Controller.EnsureOwnershipUnfenced | internal/ha/controller.go:229-231 | repair without lease checks: makes the drift's repairs, or a prefix of them |
| Controller.Controller.EnsureOwnershipTwice | internal/ha/controller.go:240-312 | alone, a repair right after a successful one makes no change at all |
| Handover.RenewLeaseWithRetry | internal/ha/controller.go:595-616 | the renewed record keeps owner and generation; alone, the stored tenure never changes |
| Handover.RenewLeaseFence | internal/ha/controller.go:558-570 | success means the stored lease is live under the given tenure and the fence is armed |
| Handover.MaintainLeaseDuring | internal/ha/controller.go:493-518 | one fenced change with renewals before and after it; the latest record keeps its tenure; a failed renewal fails the whole |
| Handover.AssociatePublicIdentity | internal/ha/controller.go:441-491 | at most four fenced attempts; alone, success means the target holds the address, also when a failed call took effect |
| Handover.ReplaceRoute | internal/ha/controller.go:647-689 | at most four fenced attempts; alone, success means the route is at the target and nothing else moved |
| Handover.VerifyTargetOwnership | internal/ha/controller.go:691-711 | alone, the read-back accepts only routes and address at the target, and without faults it does |
| Handover.RevertHandover | internal/ha/controller.go:727-743 | the address, then each route, once and in order up to the first failure; alone, success means everything is back at the source with the lease untouched; without faults it succeeds exactly when the routes are usable |
| Handover.CommitHandover | internal/ha/controller.go:400-438 | from moved routes to transferred lease: done, put back, or failed to put back, each with its exact outcome |
| Handover.ConnectivityFirstHandover | internal/ha/controller_gcp.go:16-62 | routes first, the address left to the target; declined, with nothing touched, exactly when the routes are unusable |
| Handover.IdentityFirstHandover | internal/ha/controller.go:365-438 | address first; without faults done, stranded or declined by configuration alone |
| Handover.HandedOverMeans | internal/ha/controller.go:691-711 | handed over means, by the settings, every listed table's route at the target, the shared address as well except on GCP |
| Handover.Run | internal/ha/controller.go:322-439 | fenced, reverting aside, on the given record's tenure if there is one and on a tenure of the local node unless declined, with at most one forward change once it is lost; declined, also for nodes, records and identity settings it cannot act on, leaves the cloud alone in every world; off GCP a shared address is moved before every route, on GCP never; alone, done means every listed table's route, and off GCP the shared address, at the target under the next generation, and reverted means all at the source with the lease unmoved; without faults it is done unless the configuration is unusable or the generations are used up |
| Supervisor.Node.Step | internal/ha/supervisor.go:113-177 | in every world: it looks at the lease first, and its lease operations and its report follow the protocol for what it saw; fenced on a tenure of this node, when ACTIVE the reported lease's, with at most one change once it is lost after the look; another node's lease that is live at the look is left alone with the cloud, whatever happens to it during the step; if the lease cannot be read, a reporter whose last result is ACTIVE or DEGRADED under a lease of its own that is live holds still under it, and any other node begins with an acquire; a live lease of its own is renewed first, an unowned or expired one acquired; alone, ACTIVE means holder with everything owned, live at the last check, and live at the end if the step takes less than the store assures; without faults the outcome is determined by what is found |
| Protocol.FollowingBegins | internal/ha/supervisor.go:127-193 | what following the protocol begins with, in terms of the record read, the last report and the clock: hold still, renew, leave alone or acquire |
| Protocol.FollowingEnds | internal/ha/supervisor.go:134-176 | and how it ends: what was granted is reported as held or taken, or given back, and nothing more is done without a grant |
| Supervisor.Node.Respond | internal/ha/supervisor.go:134-176 | what is done about the lease read: hold it, leave it alone if it is another's and live at the look, or try to take it, each by the protocol, with its tenure, at most one late change, and its outcome |
| Supervisor.Node.Hold | internal/ha/supervisor.go:134-158 | the holder's branch, fenced on the record held: renewed, checked, repaired and checked again before it reports ACTIVE, with the renewed lease live at the end |
| Supervisor.Node.Tick | internal/ha/supervisor.go:57-65 | a turn of the loop keeps what the step ensures, remembers its own live lease, and forgets when somebody else's is live; a live lease of its own is remembered for the shutdown, somebody else's live lease makes it forget |
| Supervisor.Node.Stop | internal/ha/supervisor.go:82-105 | shutdown runs one operation, the release of the remembered record, or none without one; alone it ends exactly that tenure, and does so if the store answers; a stale record releases nothing, routes and addresses stay |
| Supervisor.Cluster.Run | internal/ha/supervisor.go:42-70 | in every run of interleaved steps and restarts, whatever fails, at most one node's latest result is ACTIVE with an unexpired lease, and it is the stored holder |
| Interleaving.AtMostOneActive | internal/ha/supervisor.go:42-176 | over every call-by-call interleaving of reading, deciding, operating, reporting, stopping and crashing nodes, with lost answers and hidden effects on any store's terms: with a reporter at every node at most one latest result is ACTIVE and unexpired, and that node is the stored holder |
| Interleaving.EventKeepsSound | internal/ha/supervisor.go:113-176 | every event keeps the invariant: an unexpired ACTIVE result, and a lease a step works under, is covered by the stored lease |
| Interleaving.ExclusiveIffAllReport | internal/ha/supervisor.go:179-193 | of several nodes at most one is ACTIVE in all interleavings if and only if each has a reporter |
| Interleaving.TwoActive | internal/ha/supervisor.go:129-133 | the run without one: read, fail, take again, give back, and another node is ACTIVE as well |
| Interleaving.ReportsWhatFollows | internal/ha/supervisor.go:127-176 | with anything of others in between, a node in a step can report exactly the results that follow the protocol with the operations it has run |
| Failover.AwaitTakeover | internal/ha/supervisor.go:127-176 | with the real controller on any store, former holders included: another node is ACTIVE, holds the live lease and owns everything within one interval of the instant the store lets the lease go |
| Failover.AwaitTakeoverOn | internal/ha/supervisor.go:127-176 | on each of the three stores another node is ACTIVE, holds the live lease and owns all routes and the address at the latest TTL + interval after the holder's last grant, plus 2 s on Firestore and 1 s on DynamoDB |
| Failover.TurnIsFaultlessTurn | internal/ha/supervisor.go:127-176 | on each store the store-level turn is the controller's faultless step, lease and result |
| Failover.TurnWinsOnceFree | internal/coordination/dynamodb/backend.go:73-73 | on each store a turn wins or changes nothing, and wins once TTL and the store's grace are over |
| Failover.GrantHolds | internal/coordination/dynamodb/backend.go:64-158 | on each store, the instant of any grant is what the takeover bound counts from |
| Failover.TakeoverIsBounded | internal/coordination/firestore/decision.go:36-36 | at store level, over every order of turns: some other node is ACTIVE within TTL + interval of the last renewal, plus 2 s on Firestore and 1 s on DynamoDB; ownership of routes and address is in AwaitTakeoverOn |
| HandoverRequests.SelectHandoverTarget | internal/agent/handover_target.go:117-159 | the first eligible standby, or the node asked for exactly when its first row is eligible; never the source |
| HandoverRequests.Prepare | internal/agent/control.go:448-479 | the target consents if and only if it is the target asked for and the lease it reads is the requester's, under the requested generation |
| HandoverRequests.HandoverRunsAtMostOnce | internal/agent/control.go:332-446 | over all interleavings of handlers of one request, with lost writes and failing reads, the handover runs at most once |
| HandoverRequests.ExecutionIsEarned | internal/agent/handover_target.go:16-57 | the handover is only run by the record's creator, after it found the stored lease its own; its target was asked and consented, while the stored lease was still the source's under that generation, if and only if there is a token and the status it went by has an address for the target |
| HandoverRequests.FinalStatusTells | internal/agent/control.go:378-444 | over every interleaving, once the creator's final update is stored, the record says rejected exactly when no handover was run, and completed or failed exactly when one was |
| HandoverRequests.GoesOnIff | internal/agent/handover_target.go:16-57 | the handler goes on to commit exactly when the controller could be built and, if the target is asked at all, the target itself answers, reads the lease and finds it the handler's under the record's generation |
| HandoverRequests.RunsWithoutConsent | internal/agent/handover_target.go:17-23 | the run without a token or an address: the handover completes and nobody was asked |
| HandoverRequests.UndisturbedRequestCompletes | internal/agent/control.go:332-446 | with nothing going wrong the handover runs once, the status walks through all four values, the answer carries the new generation |
| HandoverRequests.StatusMovesForward | internal/agent/control.go:367-443 | the stored status only moves forward: requested, preparing, committing, completed or failed, with rejected from the first two |
| HandoverRequests.FinalRecordStays | internal/agent/control.go:481-504 | once the creator's final update is stored, nothing changes the record |
| HandoverRequests.ReplayAnswersTheSameIff | internal/agent/control.go:506-517 | a replayed request answers like the original exactly when it completed, or was rejected under generation 0 |
| HandoverRequests.FailureIsReplayedOtherwise | internal/agent/control.go:419-436 | the run of a handover that fails: answered as rejected, replayed as failed |
| HandoverRequests.RunKeepsInv | internal/agent/control.go:332-446 | the handlers' invariant holds in every reachable state |
| ShadowRoute.InvCovers | internal/cloud/gcp/provider.go:137-183 | under the invariant some route carries the traffic, and it leads to the old or the new target |
| ShadowRoute.PlanFits | internal/cloud/gcp/provider.go:137-160 | the new route is the previous one but for where it leads, and the shadow ranks one better for the same clients |
| ShadowRoute.SwapSwitchesOnce | internal/cloud/gcp/provider.go:137-183 | the undisturbed swap switches the traffic exactly once and changes the canonical route alone |
| ShadowRoute.ShadowNameFits | internal/cloud/gcp/provider.go:572-587 | a shadow name has at most 63 characters and differs from its route's unless that ends in the same shadow suffix |
| ShadowRoute.ShadowNameIs | internal/cloud/gcp/provider.go:572-587 | a name without dashes at its ends that leaves room is kept whole before the suffix, one of nothing but dashes becomes route, and no shadow name begins with a dash |
| ShadowRoute.Provider.DeleteRouteIfExists | internal/cloud/gcp/provider.go:202-223 | polls while the cloud is busy; success means the route is gone; the invariant survives any failure |
| ShadowRoute.Provider.ReplaceRouteWithShadow | internal/cloud/gcp/provider.go:137-183 | every state passed through is covered and the invariant survives, whatever fails or happens late, and whatever earlier attempts left under way but a deletion of the canonical route; success leaves the canonical route safe at the new target and no shadow; with nothing under way before, through exactly the four states of the swap; without faults it succeeds; the new canonical route is the previous one with the new target |
| ShadowRoute.RetryCoveredIff | internal/ha/controller.go:647-689 | a further attempt, which begins by deleting the shadow, keeps the traffic covered however the changes under way are carried out if and only if the canonical route's deletion is not among them |
| ShadowRoute.RetryLosesRoute | internal/cloud/gcp/provider.go:137-183 | the failing run: the shadow goes, then the canonical route, and nobody carries the traffic |
| ShadowRoute.AttemptSticks | internal/cloud/gcp/provider.go:155-166 | from routes in order, an attempt that puts its shadow up and whose wait for the canonical route's deletion fails leaves that deletion under way and the invariant intact by the shadow alone |
| ShadowRoute.StuckAttemptThenRetry | internal/ha/controller.go:647-689 | from routes in order and covered, through such an attempt and the next one's first request, to clients without a route |
| ShadowRoute.Provider.RestorePreviousAfterShadow | internal/cloud/gcp/provider.go:185-200 | the previous route first, the shadow only after it: covered throughout; without further faults the previous route is back and the shadow gone |
| ShadowRoute.Provider.ReplaceRouteByDeleteInsert | internal/cloud/gcp/provider.go:109-135 | success leaves the route at the target, whatever was under way before; with nothing under way, through one state without it, and without faults it succeeds |
| ShadowRoute.Provider.ReplaceRoute | internal/cloud/gcp/provider.go:86-107 | success means the route is at the target, with priority, network and tags of the route it replaces or of the configuration; one that already was is left alone; a fast replacement of a route with a positive priority, a destination, a network and tags is covered throughout unless a deletion of the route is under way before, and any other one goes through exactly the bare state; without faults it succeeds |
| ShadowRoute.GapUncovers | internal/cloud/gcp/provider.go:109-135 | the slow way's middle state leaves clients without a route unless another one serves them |
| ShadowRoute.LeftAloneServesIff | internal/cloud/gcp/provider.go:100-102 | a route left alone carries the traffic if and only if no left-over shadow leads elsewhere |
| ShadowRoute.LeavesAloneInVain | internal/cloud/gcp/provider.go:100-102 | the other side at a reachable state: with a failed attempt's shadow up, replacing back to where the route still leads succeeds, changes nothing, and the traffic goes to the shadow's target |
| StaticAddress.AssociateEIP | internal/cloud/gcp/provider.go:260-304 | at every step at most one carrier; on success the target carries the address and nothing else, newly on its first interface under the name of its first access config there or the default name, the old holder has no access config, all other instances are as they were; without faults it succeeds |
| StaticAddress.DetachFrom | internal/cloud/gcp/provider.go:440-461 | removes every access config of one instance, never a carrier gained |
| StaticAddress.AttachTo | internal/cloud/gcp/provider.go:463-480 | removes what conflicts, keeps what carries the address, adds it if needed, on the first interface under the name of the first access config there or the default name |
| Timing.DelayBounds | internal/ha/controller.go:544-556 | each delay is a third of the remaining life, but at least 1 s and at most 5 s, and below the remaining life exactly when that exceeds 1 s |
| Timing.HeartbeatSafeIff | internal/ha/controller.go:520-542 | the slowest renewal decides: each renewal after each answer arrives in time if and only if the slowest does |
| Timing.HeartbeatKeepsLeaseIff | internal/ha/controller.go:520-556 | over every run of renewals within the latency bounds, the check before the first included, beside every change within the time limit, the lease never lapses before the change is done if and only if the slowest renewal of the oldest lease arrives in time or such a lease outlives the limit |
| Timing.QuickRequestsAreSafe | internal/ha/controller.go:73-74 | for requests of at most 2 s the slowest renewal arrives in time exactly when the TTL is above 1 s plus the latency |
| Timing.SlowRequestsLapse | internal/ha/controller.go:544-556 | a run with a 12 s lease and a 10 s request: sent at 4 s, stored at 14 s, the lease lapsed at 12 s beside a change that may take 45 s |
| Timing.RenewLeaseUntilDone | internal/ha/controller.go:520-542 | the loop sends exactly the records of a heartbeat run, at most 45 results into the 64-slot channel, a failure only at the end and then the change is cancelled; under the exact condition no renewal comes too late and the lease is live when an uncancelled change is done |
| Timing.AcceptedTimingHasMargin | internal/tfprovider/gateway_resource.go:752-775 | every accepted pair of TTL and interval leaves a positive margin |
| Timing.RenewalsComeInTime | internal/ha/supervisor.go:42-70 | successive renewals are at most max(interval, step timeout) plus the latency apart |
| Timing.LoopKeepsLeaseIff | internal/ha/supervisor.go:263-297 | the lease never lapses, whatever the steps take, if and only if the latency or the step time-out is below the margin |
| Timing.StepEndsUnderLiveLease | internal/ha/supervisor.go:285-297 | from a TTL of 2 s up a step within its time-out ends while the lease granted in it is live, on every store |
| Timing.TimingInSeconds | internal/ha/supervisor.go:263-297 | in seconds: the configured interval, or a third of the TTL, or 5 s; and a step time-out of half the TTL, at least 1 s and at most 8 s, or 5 s without one |
| Timing.AcceptedIff | internal/tfprovider/gateway_resource.go:752-775 | which pairs of TTL and interval are accepted, in numbers |
| Metrics.EscapeIsOnePass | internal/metrics/metrics.go:351-355 | the three successive replacements equal one pass that escapes each character by itself |
| Metrics.FormatLabels | internal/metrics/metrics.go:337-349 | the loop's parts, one per key, in the order of the sorted keys, joined by commas |
| Metrics.SplitLabelParts | internal/cli/status.go:753-775 | the loop splits exactly at the commas outside quotes, escapes minded |
| Metrics.SplitMetricLine | internal/cli/status.go:722-751 | name, labels and value by the parser's rules, later keys winning |
| Metrics.JoinIsSplitBack | internal/cli/status.go:753-775 | splitting joined printed parts gives the parts back, whatever the values hold |
| Metrics.EscapedIsReadBack | internal/cli/status.go:743-748 | unquoting an escaped value gives the value back |
| Metrics.ParsedLabelsTidy | internal/cli/status.go:722-751 | whatever is printed, no label read back holds white space but newlines |
| Metrics.RoundTripIff | internal/metrics/metrics.go:327-355 | parsing a printed line gives name, labels and value back if and only if no label value holds white space but newlines |
| Rollback.RequestedTargetIsDescribed | internal/install/aws/applier.go:818-894 | every target that can be requested is described as itself afterwards |
| Rollback.DescribedField | internal/install/aws/applier.go:875-894 | a route is described by the first of its fields that is set, in the order instance, interface, NAT gateway, gateway, transit gateway, peering, egress-only gateway, and by nothing if none is |
| Rollback.RequestedField | internal/install/aws/applier.go:818-851 | a target that can be requested sets exactly the one field of its prefix to itself |
| Rollback.RequestableIff | internal/install/aws/applier.go:818-851 | a target can be requested if and only if it begins with one of the eight prefixes |
| Rollback.RouteTables.InstallRoutes | internal/install/aws/applier.go:285-306 | on success every managed route leads to its own owner, the last one if it is listed again, no other route has changed, and each table's target is the one its route had before, for distinct tables, or just before its replacement; without faults it succeeds |
| Rollback.RouteTables.Install | internal/install/aws/applier.go:285-306 | the same with the owners looked up: each route leads to its zone's instance, under its active name or else under its plain one |
| Rollback.RollbackTargets | internal/tfprovider/install.go:291-308 | one entry per route table, its last: the destination, and the target written down or unknown |
| Rollback.ParseRollbackRoutes | internal/tfprovider/install.go:429-450 | succeeds exactly when every entry has a table, a destination and a known target, and then lists each entry once |
| Rollback.RouteTables.RestoreRoutes | internal/install/aws/applier.go:433-456 | every listed route at its written target, missing instances, interfaces and NAT gateways passed over; a failure stops it with the rest unrestored; without faults it succeeds on existing routes if and only if every target can be requested and none of another kind is gone |
| Rollback.PassedOverIff | internal/install/aws/applier.go:452-456 | of the eight kinds of target, instances, network interfaces and NAT gateways are passed over when they are gone |
| Rollback.MissingGatewayStopsRollback | internal/install/aws/applier.go:452-456 | a first route to a missing transit, peering, egress-only, internet or virtual private gateway: the rollback fails and restores nothing |
| Rollback.RollbackRestores | internal/install/aws/applier.go:433-450 | with distinct tables, every managed route is back at its pre-installation target whatever was done in between, and no other route is touched |
| Rollback.ListIsRestorableIff | internal/install/aws/applier.go:452-456 | the list written at installation can be rolled back in full if and only if no old target that cannot be passed over is gone |
| Rollback.InstallThenRollBack | internal/tfprovider/install.go:203-323 | the whole life, installation, interference, rollback: in between every route led to its zone's instance; when both ends succeed the routes are restored, and without faults they succeed if and only if no old target that cannot be passed over is gone |
| Rollback.NamedTwiceIsLost | internal/install/aws/applier.go:285-306 | a table named twice loses a route even without interference |
| Rollback.AlwaysUndoneIffTablesDistinct | internal/installplan/plan.go:255-265 | rollback restores in every case if and only if no table is named twice |
| Iam.Binding.Remove | internal/install/gcp/runtime_iam.go:259-267 | the in-place compaction leaves exactly the other members in order, and reports whether there was one to remove |
| Iam.Policy.Add | internal/install/gcp/runtime_iam.go:223-245 | the first binding of the role gets the member, its members then sorted, or a new binding is appended; everything else stays in place; changed exactly when that binding lacked the member |
| Iam.Policy.Remove | internal/install/gcp/runtime_iam.go:247-273 | compacted in place in the policy's own array: every binding of the role loses the member, bindings left empty go, the others stay as they are and in order; changed exactly when the pair was present |
| Iam.WithoutKeepsOrder | internal/install/gcp/runtime_iam.go:259-266 | the members are filtered one by one, in order |
| Iam.RemovedFromIs | internal/install/gcp/runtime_iam.go:252-273 | what becomes of one binding: unchanged for another role, gone when it has no other member, else its members without that one |
| Iam.WithMemberIs | internal/install/gcp/runtime_iam.go:225-238 | an extended binding's members are its own and the new one, sorted |
| Iam.OthersKeepOrder | internal/install/gcp/runtime_iam.go:247-273 | the bindings of other roles are filtered one by one, in order |
| Strings.SortedInOrder | internal/install/gcp/runtime_iam.go:236-236 | the members of an extended binding are in order |
| Iam.AddedPairs | internal/install/gcp/runtime_iam.go:223-245 | adding yields the old pairs and the new one |
| Iam.RemovedPairs | internal/install/gcp/runtime_iam.go:247-273 | removing yields the old pairs without the one, and other roles' bindings as and where they were |
| Iam.RemoveUndoesAdd | internal/install/gcp/runtime_iam.go:223-273 | removing a pair just added gives the original pairs back, if it was new |

## Assumptions

- **Lease.** Clocks of one store do not run backwards and read no time before year 1. Time arithmetic is unbounded: the
  saturation of Go durations and times is not modelled. Theorems that need it name a run shorter than the generation
  range; wrap-around itself is modelled in the steps.
- **World.** A transfer that reports failure did not happen. A lease renewal that succeeds was accepted for its own
  tenure.
- **Shadow swap.** A delete call that returns an error had no effect; an insert or a wait that returns an error leaves
  everything open, including an effect later. Coverage is claimed for clients whose other routes rank behind the
  canonical one, when the shadow's name differs from the route's, the previous route has the requested destination, a
  route under the shadow's name leads to the new target, and no deletion of the canonical route is under way when the
  call begins; `ShadowRoute.Inv` and `Drop` in the contracts say so.
- **Static address.** At most one instance carries the address to begin with, and the address's user list is current.
- **Handover requests.** A store is configured, also on the target, requests have an id, records do not expire during
  the run.
- **Rollback.** Nothing but the installer changes the managed routes while it reads and replaces them.

## Left out

- Fencing.AtMostOneLateCall: says nothing about reverts, which are made without a fence by design.
- Firestore.NeverTwoHolders: an operation takes effect when it is run or not at all, never later.
- Stores.StoreActs: at the largest int64 generation DynamoDB would write an item it cannot read back; there the model's
  DynamoDB refuses, as Firestore does. The claims that a free lease is won or a handover done without faults name the
  same limit on the shared stores.
- Supervisor.Cluster.Run: nodes interleave step by step; call by call they do in `Interleaving.AtMostOneActive`.
- Interleaving.AtMostOneActive: without handovers, and under one clock; skewed clocks are in the Firestore runs.
- Supervisor.Node.Step: the intermediate TAKING_OVER report and the status counters are not modelled; no claim is made
  that takeover successes stay below attempts.
- Handover.MaintainLeaseDuring: the heartbeat's renewals run before and after the instant of the cloud change rather
  than in a goroutine; contexts and time-outs are arbitrary failures.
- Timing.RenewLeaseUntilDone: retries inside a renewal count as part of its latency; the attempt's context ends after at
  most 45 s, the longer of the two attempt time-outs.
- Failover.TakeoverIsBounded: on DynamoDB the TTL is at least one second, as the accepted settings make it.
- StaticAddress.AssociateEIP: instances are told apart by name alone; zones and links are elided.
- ShadowRoute.ShadowNameFits: the FNV digest is a parameter.
- ShadowRoute.Provider.RestorePreviousAfterShadow: puts back the whole previous route; the kinds of next hop that
  restorableRoute does not copy (internal/cloud/gcp/provider.go:589-607) and route descriptions are left out.
- Metrics.SplitMetricLine: characters rather than bytes; hexadecimal, octal and Unicode escapes, and single and back
  quotes, are not unquoted, and never occur in printed lines.
- Rollback.InstallThenRollBack: the rollback targets are a map, not JSON text; the rest of installation is left out; the
  cloud's habit of naming an instance's interface beside it in a description is left out, the instance being read first.
- Iam.Policy.Remove: a missing policy and conditions on bindings are left out.
- The ownership mutex: every method of the controller runs alone on its node.
- HandoverRequests.Prepare: the request travels over HTTP in the source; here it may fail or reach any node.
- HandoverRequests.ExecutionIsEarned: which target the handler chooses is left open there; the choice is
  `HandoverRequests.SelectHandoverTarget`.
- Peer forwarding and the lease status caches: their answers are arbitrary.
- AWS and GCP clients, Terraform schemas, the command line, doctor checks, datapath programming and cost figures:
  wiring, foreign I/O or single-branch checks.
- The agent's own metric parser (internal/agent/control_metrics.go), which splits at every comma and so does not undo
  the printer.
