# Lanet: verified model of the table-keeping and two-ended protocols

Lanet is a peer-to-peer virtual LAN. This project models the parts of it that
keep tables consistent and the parts where two nodes must come to the same
state, and proves what they promise in every run.

| File | Subject |
|---|---|
| `FlowProtocol.dfy`, `FlowTable.dfy`, `FlowRefinement.dfy` | one stream per peer: arbitration of simultaneous dials as a protocol of two routers, the flow table of one router, and the proof that the table takes the protocol's steps |
| `Outbound.dfy`, `OutboundShutdown.dfy`, `OutboundTable.dfy`, `OutboundRefinement.dfy` | the per-destination outbound queues with their global byte budget: interleaved runs, how they come to rest, one router's table, and its refinement of the runs |
| `VirtualIP.dfy`, `VirtualIPLaws.dfy`, `VirtualIPNewcomers.dfy` | the address decision for a group, its laws, and what a newcomer changes |
| `VirtualIPTable.dfy`, `MemberAddresses.dfy` | the occupancy table kept in step with that decision, and the conflict report |
| `Membership.dfy`, `MembershipRuns.dfy` | the member table, the resurrection guard, the quarantine, and their interleavings |
| `Deletion.dfy`, `HandshakeOutcome.dfy`, `DeletionPair.dfy` | deletion of a friend, database step by database step: tombstone, one-time notice and pending requests at the deleting node, what one handshake leads to, then trust between both nodes |
| `PeersDb.dfy`, `PeerRows.dfy` | the transactions on peers, tombstones, pending requests and seeds, and which of them changes what |
| `Scheduler.dfy`, `SchedulerBackoff.dfy`, `SchedulerShutdown.dfy`, `SchedulerTable.dfy`, `SchedulerRefinement.dfy` | the discovery scheduler: workers, single flight, retry, close as interleaved runs, backoff over whole runs, how it comes to rest, its locked sections, and their refinement of the runs |
| `Framer.dfy` | IP packets out of a byte stream |
| `LogRing.dfy` | the console-log ring and its polling readers |
| `DnsLabel.dfy`, `DnsWords.dfy`, `Hostnames.dfy`, `Resolve.dfy`, `ResolveLaws.dfy` | host names for members and the way back |
| `Underlay.dfy`, `UnderlayRanks.dfy` | cleaning of underlay addresses and the order of their kinds |
| `RateLimiter.dfy` | the update rate limiter |
| `Order.dfy`, `Subsequence.dfy`, `Wrappers.dfy` | byte order on strings, subsequences, option and result types |

`dafny verify dfyconfig.toml` checks the whole project.

How the parts are modelled:

- A section under a lock is one atomic action; a trust check and the table write
  that follows it are two. A run is any sequence of enabled actions.
- A database transaction is a function from the tables to the tables; in the
  deletion runs every query and every transaction of a handshake is a step.
- Time is a natural number that never goes back; handlers take it as a parameter.
- The SHA-256 address derivation, `net.ParseIP` and the set of local interfaces
  are parameters, so every result holds for all of them.
- Go's map iteration order is an arbitrary choice in the methods, whose results
  are proved not to depend on it where the source promises that.

Where the source and its comments disagree, the model follows the code:

- The salts avoid only contested bases, not the whole table as the comments say
  (`pkg/serverless/vaddr_conflict.go:130`, `189-195`). Uniqueness is therefore
  not general; `VirtualIPLaws.DistinctExactly` and `SharedAddressExactly` say
  exactly when it holds, `UniquenessFails` gives a counterexample.
- A third member can overturn a decision (`VirtualIPNewcomers.ThirdMemberOverturns`),
  against the remark at `pkg/serverless/vaddr_conflict.go:20-21`;
  `RulingsStandExactly` says for which newcomers the decisions stand. Nodes agree for equal
  member sets; the local node is not part of the set (lines 298-301).
- The conflict count can exceed the listed conflicts
  (`MemberAddresses.CountExactly`, `CountOverReports`).
- The comment on the guard lets a peer with renewed trust pass
  (`pkg/serverless/serverless.go:1994-2026`); the code blocks it until the time
  is over or RequestConnect or an automatic re-acceptance lifts the guard
  (`MembershipRuns.GuardOutlastsApproval`).
- "Pending only after the notice" needs deletions that do not fall between
  trustPolicy's own tombstone query and the pending write of a handshake
  (`Deletion.DeletionSafeExactly`). One that falls there, the deletion of a current
  friend who is just asking among them, leaves the request pending.
- "The marker goes out once per deletion" (`pkg/peersdb/store.go:406`) needs
  handshakes that do not overlap before it and no restoration between their two
  tombstone queries (`Deletion.MarkerExactly`).
- "Only a successful handshake puts a reaped member back" (`serverless.go:1110`)
  holds of discoveries; a warm-up dial and an explicit request write a placeholder
  first (`MembershipRuns.OwingReturnsExactly`, `DialReturnsUnverified`).
- The final trim of an oversized framer buffer can never fire: the leftover is
  always shorter (`Framer.RestShort`).
- The PeerID fallback of a host name keeps upper case, so such a name does not
  resolve (`ResolveLaws.FullAddressExactly`, `FallbackBreaksInverse`).

## Model

| member | source | states |
|---|---|---|
| FlowProtocol.InstallEffect | pkg/tundevice/router.go:960-1019 | the complete effect of one arbitration on both ends: candidate live or closed, replaced flow retired and closed, an EOF for every stream closed, table entry of the installing router only |
| FlowProtocol.StepKeepsInv | pkg/tundevice/router.go:724-1087 | every action of either router, its Close and the refusal of any arriving stream included, keeps: the table holds exactly the live flow, a dial holds exactly its undecided stream, and an end that still counts on a stream closed by the other end has an EOF coming |
| FlowProtocol.LiveAccounted | pkg/tundevice/router.go:947-1087 | a live flow is in the peer's table too, still undecided or being retired there, or its EOF is on its way back |
| FlowProtocol.QuietTablesAgree | pkg/tundevice/router.go:724-1087 | in every run of dials, arrivals, EOFs, idle and write-failure retirements, refusals and closings, whenever nothing is in flight both tables hold the same live stream or neither holds one |
| FlowProtocol.InstallKeepsWinner | pkg/tundevice/router_flow_lifecycle.go:12-29 | no arbitration at either end ever closes the stream opened by the router with the smaller ID |
| FlowProtocol.LowerStreamWins | pkg/tundevice/router.go:947-1019 | without failures the smaller ID opens at most one stream, neither end closes it, and at rest both tables hold it |
| FlowProtocol.NoNewDial | pkg/tundevice/router.go:724-758 | once that stream is installed at the other end, neither router can start a dial |
| FlowProtocol.ArbitrationExactly | pkg/tundevice/router_flow_lifecycle.go:12-29 | installFlow keeps a candidate if and only if the peer has no healthy flow, the opener of the candidate has the smaller ID of two different openers, or the candidate is the other side's redial of its own flow; whichever loses is closed with an EOF |
| FlowProtocol.RedialReplaces | pkg/tundevice/router.go:943-959 | in every run a stream that arrives where an older flow of the same remote opener is in the table takes its place, and the older one, which its opener has retired before, is closed |
| FlowProtocol.RetiredYields | pkg/tundevice/router_flow_lifecycle.go:20-22 | in every run a stream that arrives on a flow under retirement is installed |
| FlowProtocol.OwnDialYields | pkg/tundevice/router_flow_lifecycle.go:26-28 | a router's own dial never displaces its own live flow |
| FlowProtocol.OwnStreamsInTurn | pkg/tundevice/router.go:724-758 | in every run a router has retired every stream it opened before its latest one, as the single-flight dial promises |
| FlowProtocol.EofLasts | pkg/tundevice/router.go:1030-1087 | an end-of-stream stays on its way until it is read |
| FlowProtocol.DialConnects | pkg/tundevice/router.go:724-800 | from rest without a flow, a dial of either router ends with the new stream live in both tables and nothing else changed |
| FlowProtocol.RetirementSpreads | pkg/tundevice/router.go:1030-1087 | a live flow that one router retires leaves both tables once the other has read the end of the stream |
| FlowProtocol.MeasureDecreases | pkg/tundevice/router.go:724-1087 | every action but a new dial, a failure-driven retirement and Close strictly decreases pending arrivals, EOFs, half-finished retirements and dials |
| FlowProtocol.BusyMoves | pkg/tundevice/router.go:724-1087 | while something is in flight, an action that works it off is possible |
| FlowProtocol.ReachedPersists | pkg/tundevice/router.go:724-1087 | from the moment the smaller ID's stream is installed at the other end, a failure-free run is at most as long as the measure, and the stream stays |
| FlowTable.MergeAliases | pkg/tundevice/router.go:1022-1034 | an alias that has an owner keeps it; every other non-empty alias goes to the flow's peer |
| FlowTable.PeerFlow.constructor | pkg/tundevice/router.go:936-945 | empty aliases are dropped, the flow starts neither retired nor closed |
| FlowTable.Router.MergeAddrsLocked | pkg/tundevice/router.go:1022-1034 | the index becomes the merged one and the flow records exactly the aliases it won |
| FlowTable.Router.InstallFlow | pkg/tundevice/router.go:960-1019 | the candidate is installed exactly when there is room for a new peer, or its peer's flow is retired, has a greater initiator, or is the peer's own and so is the candidate; in each of the four outcomes the new flow table, the new alias index, which flow is closed or retired, and that every other flow is untouched |
| FlowTable.Router.RetireFlow | pkg/tundevice/router.go:1062-1087 | only the first caller acts; it unlinks the flow only while the table still holds that very flow; closed normally, reset after Close |
| FlowTable.Router.Close | pkg/tundevice/router.go:417-462 | both tables empty, every flow retired and reset; a second call does nothing |
| FlowTable.ReplacementAliases | pkg/tundevice/router.go:985-1019 | a replacement keeps every alias either flow knows, takes none from another peer and leaves the peer no third one |
| FlowRefinement.VerdictAgrees | pkg/tundevice/router.go:960-1000 | the outcome of installFlow is the one the protocol state prescribes for this side |
| FlowRefinement.InstallOnSide | pkg/tundevice/router.go:960-1019 | installFlow takes a router that mirrors its side of a protocol state to one that mirrors the state after the arbitration, or after the refusal of a closed or full router |
| FlowRefinement.InstallsIsAction | pkg/tundevice/router.go:811-840 | for an arriving stream that is the protocol action Arrive or Refuse |
| FlowRefinement.RetireOnSide | pkg/tundevice/router.go:1062-1087 | retireFlow on a live flow is the retirement followed by the unlinking, whatever started it; on a retired one nothing |
| FlowRefinement.CloseOnSide | pkg/tundevice/router.go:417-462 | Close is the shutting of this side |
| Outbound.StepKeepsInv | pkg/tundevice/router.go:327-414 | every action of the enqueuer, of any worker and of Close keeps the budget equation, the worker table, the queue bounds, the packet order and the exclusion of two packet-holding workers per destination |
| Outbound.BudgetExact | pkg/tundevice/router.go:340-414 | in every run the budget is exactly the bytes queued, being forwarded, being drained or just reserved, never above the maximum, and zero once all workers have finished |
| Outbound.RaceBranchUnreachable | pkg/tundevice/router.go:376-395 | the "queue full under race" branch is never taken |
| Outbound.ForwardedInOrder | pkg/tundevice/router.go:507-587 | per destination, forwarded packets are an in-order subsequence of accepted ones across idle exits and re-creations; until cancellation nothing is lost: accepted is forwarded plus the mapped worker's backlog |
| OutboundShutdown.TableExactly | pkg/tundevice/router.go:327-395 | which action maps a destination to a new worker, which takes a mapping away, and which ends the context, each exactly |
| OutboundShutdown.EffortFalls | pkg/tundevice/router.go:507-587 | every action of a worker brings it nearer to its end, so no worker goes on for ever without new packets |
| OutboundShutdown.ShutdownDrains | pkg/tundevice/router.go:417-587 | from any state after Close all workers can finish, in a bounded number of actions, and no byte of the budget is left taken |
| OutboundShutdown.CancelDrains | pkg/tundevice/router.go:417-587 | the same from any state whatever, an enqueuer in its critical section included, once the context ends |
| OutboundTable.OutboundRouter.EnqueuePacket | pkg/tundevice/router.go:327-395 | which of the four outcomes occurs and when; an accepted packet is at the tail of its destination's queue with its bytes in the budget, a dropped one leaves queue and budget alone, no other queue changes |
| OutboundTable.OutboundRouter.RemoveOutboundWorker | pkg/tundevice/router.go:568-587 | a successor is never unmapped; the queue empties and exactly its bytes return to the budget |
| OutboundRefinement.EnqueuedIsRun | pkg/tundevice/router.go:327-395 | enqueuing without interruption is the run Begin, Acquire, Send, cut off where a test fails |
| OutboundRefinement.EnqueueOnState | pkg/tundevice/router.go:327-395 | enqueuePacket takes a router that mirrors a queue state to one that mirrors the end of that run, and accepts exactly when the run does |
| OutboundRefinement.IdleExitOnState | pkg/tundevice/router.go:539-548 | the idle timer leaves exactly where the action is enabled, with the state the action gives |
| OutboundRefinement.RemovedIsRun | pkg/tundevice/router.go:568-587 | the removal and one drain for each packet left are a run that returns exactly their bytes |
| OutboundRefinement.RemoveOnState | pkg/tundevice/router.go:568-587 | removeOutboundWorker takes the router to the end of that run |
| VirtualIP.DecideVirtualIPsWithBlocked | pkg/serverless/vaddr_conflict.go:141-214 | whatever the input order, the duplicates and the map-iteration order, the result is one function of the set of non-empty IDs |
| VirtualIP.DistinctIDs | pkg/serverless/vaddr_conflict.go:142-150 | each non-empty ID once |
| VirtualIP.GroupByBase | pkg/serverless/vaddr_conflict.go:155-159 | the groups partition the IDs by base address, each sorted and non-empty |
| VirtualIP.KeepHeads | pkg/serverless/vaddr_conflict.go:167-187 | for any iteration order: contested bases, losers of each head and displaced members |
| VirtualIP.Resalt | pkg/serverless/vaddr_conflict.go:198-211 | the first free salt of 1 to 64, or the base address marked unresolved |
| VirtualIP.Reassign | pkg/serverless/vaddr_conflict.go:189-213 | salts are handed out in ID order, each avoiding every address handed out before; nobody else changes |
| VirtualIPLaws.AssignMeaning | pkg/serverless/vaddr_conflict.go:189-213 | the salted addresses are pairwise distinct, outside the seeded set, and exactly they were added to it |
| VirtualIPLaws.LeaseShape | pkg/serverless/vaddr_conflict.go:161-213 | what a lease is for a displaced and for a keeping member, losers included |
| VirtualIPLaws.ContestedHasHead | pkg/serverless/vaddr_conflict.go:167-185 | every contested base has a holder that was not displaced |
| VirtualIPLaws.ReassignedApart | pkg/serverless/vaddr_conflict.go:189-213 | reassigned addresses are pairwise distinct and avoid every contested base and every blocked address |
| VirtualIPLaws.SharedAddressExactly | pkg/serverless/vaddr_conflict.go:189-213 | two resolved members share an address if and only if one was reassigned onto the uncontested base of the other |
| VirtualIPLaws.DistinctExactly | pkg/serverless/vaddr_conflict.go:189-213 | the promised group-wide uniqueness holds if and only if no displaced member, choosing in ID order, runs out of salts or stops on an uncontested base |
| VirtualIPLaws.DistinctAsSeeded | pkg/serverless/vaddr_conflict.go:130-137 | equivalently: nothing is unresolved and seeding the kept bases of the whole table would have changed nothing |
| VirtualIPLaws.DistinctIfApart | pkg/serverless/vaddr_conflict.go:189-213 | it holds whenever no candidate of a displaced member is an uncontested base and each of them has one candidate to itself |
| VirtualIPLaws.UniquenessFails | pkg/serverless/vaddr_conflict.go:189-195 | three members for which two resolved members get the same address |
| VirtualIPNewcomers.DisplacedByNewcomer | pkg/serverless/vaddr_conflict.go:167-187 | a newcomer displaces exactly the members with greater IDs on its own base |
| VirtualIPNewcomers.RulingsStandExactly | pkg/serverless/vaddr_conflict.go:20-21 | all decisions among the present members stand if and only if no present holder shares the newcomer's base and has a greater ID |
| VirtualIPNewcomers.NewcomerExactly | pkg/serverless/vaddr_conflict.go:155-213 | any newcomer leaves everybody's address, salt and resolution alone if and only if it overturns no decision, makes no base contested on which a reassigned member sits, and chooses no address that a member behind it holds |
| VirtualIPNewcomers.GreatestNewcomerExactly | pkg/serverless/vaddr_conflict.go:155-213 | for the greatest ID only the second of these can happen |
| VirtualIPNewcomers.ThirdMemberOverturns | pkg/serverless/vaddr_conflict.go:20-21 | a third member with a smaller ID overturns the decision between two |
| VirtualIPTable.Table.DropLocked | pkg/serverless/vaddr_conflict.go:351-374 | removes one lease and keeps the inverse index, the address map and the unresolved counter exact |
| VirtualIPTable.Table.Record | pkg/serverless/vaddr_conflict.go:266-277 | adds one lease and keeps the indexes exact; marks the base when the lease takes part in a conflict |
| VirtualIPTable.Table.DropDeparted | pkg/serverless/vaddr_conflict.go:234-240 | exactly the members outside the decision leave, in any iteration order |
| VirtualIPTable.Table.ClearUnowned | pkg/serverless/vaddr_conflict.go:241-247 | exactly the marks without an owner go |
| VirtualIPTable.Table.Update | pkg/serverless/vaddr_conflict.go:249-281 | one round of the update loop: lease, marks and the two flags it reports |
| VirtualIPTable.Table.SyncLocked | pkg/serverless/vaddr_conflict.go:228-283 | from any valid table: leases equal the from-scratch decision, the indexes are exact inverses without empty entries, the counter is the true count, and the returned lists are exactly the moved and the new members |
| VirtualIPTable.ConflictsFinal | pkg/serverless/vaddr_conflict.go:241-281 | which marks survive a synchronisation: contested bases, and old marks that a staying member still held |
| VirtualIPTable.HeadMarks | pkg/serverless/vaddr_conflict.go:272-274 | the holder of every contested base is a member with losers, so its base is marked |
| MemberAddresses.Discovery.ClaimVirtualIPsLocked | pkg/serverless/vaddr_conflict.go:291-311 | afterwards the leases are the decision for the member set and every member's VirtualIP equals its lease |
| MemberAddresses.Discovery.AddMember | pkg/serverless/serverless.go:1371-1428 | a table write that claims in the same critical section keeps leases and member addresses in step |
| MemberAddresses.Discovery.RemoveMembers | pkg/serverless/vaddr_conflict.go:318-323 | members leave and release their addresses; the remaining ones follow the decision again |
| MemberAddresses.Discovery.VirtualIPConflictsLocked | pkg/serverless/vaddr_conflict.go:418-470 | one report for each contested base and for no other address, in address order, with winner, sorted losers, their addresses and whether all are resolved |
| MemberAddresses.Discovery.ReportOn | pkg/serverless/vaddr_conflict.go:424-460 | a mark yields a report if and only if its base is contested now |
| MemberAddresses.CountExactly | pkg/serverless/vaddr_conflict.go:473-483 | the reported count is never too low, and equals the live conflicts if and only if no staying member holds a marked address that is contested no longer |
| MemberAddresses.CountOverReports | pkg/serverless/vaddr_conflict.go:243-247 | a member leaves a two-member conflict: the mark stays, no conflict is listed |
| Membership.MemberQuarantine.Remember | pkg/serverless/member_quarantine.go:15-27 | the peer owes a handshake; the set stays within 4096 and overflow is remembered |
| Membership.MemberQuarantine.RequiresHandshake | pkg/serverless/member_quarantine.go:29-32 | holds of every peer that owes a handshake, and until the set overflows of no other |
| Membership.MemberQuarantine.Verified | pkg/serverless/member_quarantine.go:34-35 | only this peer's debt ends; saturation stays |
| Membership.MemberTable.MarkUnfriendedLocked | pkg/serverless/serverless.go:2005-2016 | the peer is recorded and exactly the expired entries go |
| Membership.MemberTable.Forget | pkg/serverless/serverless.go:1917-1930 | the member leaves and the guard starts, nobody else is touched |
| Membership.MemberTable.AddMember | pkg/serverless/serverless.go:1371-1398 | a discovery adds only a peer that is new, unguarded and owes no handshake, and refreshes no existing member |
| Membership.MemberTable.HandleInfo | pkg/serverless/serverless.go:1755-1800 | an inbound handshake keeps or adds the member unless a new one is guarded; it counts as seen now and verified, keeps its first discovery, and nobody else changes |
| Membership.MemberTable.Reconnect | pkg/serverless/serverless.go:962-988 | a warm-up dial adds a placeholder exactly when the guard does not block it and leaves a present member alone |
| Membership.MemberTable.RequestConnect | pkg/serverless/serverless.go:992-1029 | an explicit request lifts the guard and adds a placeholder, leaving a present member alone |
| Membership.MemberTable.VerifiedMember | pkg/serverless/member_quarantine.go:39-59 | trust is checked again under the lock; success means in the table, fresh and no longer owing a handshake |
| Membership.MemberTable.ReapExpired | pkg/serverless/serverless.go:1111-1140 | exactly the members staler than the cut-off leave, and exactly they come to owe a handshake; the quarantine takes in all of them and stands for everybody only if they exceed its limit; the table ends as after single reaps in the order of the loop |
| Membership.ReapedAllMeaning | pkg/serverless/member_quarantine.go:17-27 | whatever the order of the reaps, the quarantine holds everybody up to its limit and overflows exactly beyond it |
| Membership.StaleExactly | pkg/serverless/serverless.go:315-323 | a member is stale by its last traffic if it ever had any, else by its first discovery |
| MembershipRuns.LandingExactly | pkg/serverless/serverless.go:1371-1398 | a write brings an absent peer in if and only if neither the guard, nor the quarantine of a discovery, nor the repeated trust check of an outgoing handshake stops it |
| MembershipRuns.RemovedStaysOut | pkg/serverless/serverless.go:1371-1398 | after the tombstone is written and the member forgotten, the peer is in no later table and passes no trust check, until an explicit re-add or auto-reaccept, in every interleaving in which no handler that checked trust before writes for it after the guard time |
| MembershipRuns.PromptWritesStayOut | pkg/serverless/serverless.go:1760-1782 | in particular when its writes follow their trust checks by less than the guard time |
| MembershipRuns.StaysOutExactly | pkg/serverless/serverless.go:1917-1930 | without any bound on delays it stays out if and only if, when it is forgotten, no discovery, inbound handshake or warm-up dial that could bring it back is between its trust check and its write |
| MembershipRuns.GuardOutlastsApproval | pkg/serverless/serverless.go:1994-2026 | no database write, renewed approval included, puts the peer back before the guard time is over; only RequestConnect and auto-reaccept do |
| MembershipRuns.LateWriteResurrects | pkg/serverless/serverless.go:1371-1398 | every such handler, whichever it is, brings the tombstoned peer back by writing when the guard time is over |
| MembershipRuns.DebtUntilHandshake | pkg/serverless/member_quarantine.go:29-35 | the debt of a reaped peer ends with a handshake and with nothing else, however many other peers are reaped or verified meanwhile |
| MembershipRuns.OwingReturnsExactly | pkg/serverless/serverless.go:1380-1388 | which writes bring an owing peer back: never a discovery; a handshake, and the placeholder of a warm-up dial or an explicit request, which leaves the debt |
| MembershipRuns.DialReturnsUnverified | pkg/serverless/serverless.go:962-988 | a warm-up dial puts a reaped peer back into the table before any handshake |
| MembershipRuns.DiscoveryNeverReturns | pkg/serverless/serverless.go:1380-1388 | a reaped peer never returns by discovery records alone |
| MembershipRuns.ReapOwes | pkg/serverless/serverless.go:1111-1121 | reaping a member takes it out of the table and makes it owe a handshake |
| MembershipRuns.ReapExpiredIsRun | pkg/serverless/serverless.go:1111-1121 | reaping in one go is the run of the single reaps of its members |
| MembershipRuns.LandedExactly | pkg/serverless/serverless.go:1371-1398 | a write of a handler enters its peer or not, ends its debt when it was a handshake, lifts its guard when it was an explicit request, and changes nothing else |
| MembershipRuns.MembersExactly | pkg/serverless/serverless.go:1371-1398 | which peers are members after each action |
| MembershipRuns.GuardExactly | pkg/serverless/serverless.go:1980-2026 | the guard of a peer starts with its deletion; besides by the write of an explicit request (LandedExactly) it ends with its re-acceptance or its time only |
| MembershipRuns.DebtExactly | pkg/serverless/member_quarantine.go:17-37 | only the reaping of a member adds its debt, and only an overflow saturates the quarantine |
| MembershipRuns.OneWritePerCheck | pkg/serverless/serverless.go:1371-1398 | in every run a handler that checked trust writes at most once |
| MembershipRuns.PassesExactly | pkg/serverless/serverless.go:860-875 | a tombstoned peer passes no trust check; any other passes where approval is off, and as a friend where it is on |
| MembershipRuns.DbFollows | pkg/peersdb/store.go:30-130 | the database of a run goes through its transactions and nothing else, so what holds of all transactions holds in every run |
| Deletion.NotifiedBeforePending | pkg/serverless/serverless.go:825-853 | in every run of database queries and transactions, overlapping handshakes included, in which no deletion falls between trustPolicy's own tombstone query and the pending write of a handshake: the deleted peer is pending only once the deletion counts as notified |
| Deletion.DeletionSafeExactly | pkg/serverless/serverless.go:825-853 | a deletion keeps that promise for all later such runs if and only if no handshake stands there at its moment: past the tombstone query, in the trust queries, in AutoAccept or before the pending write |
| Deletion.FreshNotice | pkg/peersdb/store.go:113-130 | a start with nothing under way, whatever the auto_accept setting, has the invariants exactly when its tables keep the promise |
| Deletion.OverlapPendsUnnotified | sdk/go/lanet/peers.go:371-387 | from any state with a handshake there, a deletion is followed by a run that leaves the peer pending although nobody told it |
| Deletion.MarkerAtMostOnce | pkg/serverless/serverless.go:1685-1712 | the unfriended marker goes out at most once per deletion in every run in which no handshake starts while another may still send it and no restoration falls between the two tombstone queries of one after a marker; deletions may fall anywhere |
| Deletion.MarkerExactly | pkg/serverless/serverless.go:1685-1712 | a step keeps that bound for all later such runs if and only if it obeys those two rules itself |
| Deletion.UndecidedMarkTwice | pkg/serverless/serverless.go:1685-1712 | two handshakes that may both still send the marker have a run in which both do |
| Deletion.RestorationMarksTwice | pkg/serverless/serverless.go:1701-1712 | a restoration between the two tombstone queries of a handshake makes it repeat a marker that already went out |
| Deletion.StepIsTransaction | pkg/peersdb/store.go:30-130 | every step of a node is at most one transaction of the store |
| Deletion.RunConsistent | pkg/peersdb/store.go:30-130 | so in every run no tombstoned peer is a friend and no friend a seed |
| Deletion.Ledger | sdk/go/lanet/peers.go:1077-1110 | in every run each deletion is pushed, failed or still to be pushed, each push is marked once, and each notice received untrusts once and deletes once |
| HandshakeOutcome.LoneHandshakeExactly | pkg/serverless/serverless.go:1685-1742 | one undisturbed handshake over all starting tables: exactly when it leaves the peer a friend, an applicant with its data, or told of its deletion, and that it changes nothing else |
| HandshakeOutcome.LoneHandshakeEnds | pkg/serverless/serverless.go:1685-1742 | an undisturbed handshake comes to an end |
| HandshakeOutcome.ToldPeerAppliesAgain | pkg/serverless/serverless.go:825-840 | an explicit request of a deleted peer that was told ends in the pending list, or with auto_accept on in trust |
| HandshakeOutcome.ClearedAfterCheck | pkg/serverless/serverless.go:841-852 | a tombstone cleared after the trust check saw it leaves the request to auto_accept, or to the pending list |
| HandshakeOutcome.ClearedAfterRefusal | sdk/go/lanet/peers.go:335-343 | one cleared after auto_accept was refused leaves the refusal standing |
| DeletionPair.LeftIsRun | sdk/go/lanet/peers.go:1069-1110 | what one node does in a run of both, messages and requests lost on the way included, is a run of that node, so the promises about the deleting node hold in every run of both |
| DeletionPair.FlippedRun | sdk/go/lanet/peers.go:1069-1110 | both nodes follow the same rules: every run has the run with the two sides exchanged |
| DeletionPair.PushReaches | sdk/go/lanet/peers.go:1069-1110 | a deletion while both are online: the push makes the other node let go too, and the tombstone counts as told |
| DeletionPair.MarkerReaches | pkg/serverless/serverless.go:1476-1488 | a deletion the other node missed: its next ordinary handshake is answered with the marker, and it lets go then |
| DeletionPair.NeitherTrustsAfterNotice | sdk/go/lanet/peers.go:456-468 | once the deleted node has acted on the marker or the push, neither side trusts the other in any later state until a user re-adds or auto_accept meets an explicit request of the deleted peer, if and only if no explicit request of the deleting node, counted from its passed trust check, can still be accepted: none on its way to an accepting node and no handler of one before the accepting write; overlapping handshakes and deletions at both nodes included |
| DeletionPair.EarlyRequestRestores | sdk/go/lanet/peers.go:335-366 | any such request, wherever it or its handler stands, makes the other side trust again in some run without a restoration |
| PeersDb.ApplyConsistent | pkg/peersdb/store.go:30-130 | no transaction makes a peer both tombstoned and trusted, or trusted and a seed |
| PeersDb.AlwaysConsistent | pkg/peersdb/seeds.go:134-209 | no state reachable from the empty database has such a peer |
| PeersDb.TombstoneHolds | pkg/peersdb/store.go:16-25 | a tombstone outlasts every sequence of writes without its explicit clearing, and the peer is never trusted meanwhile |
| PeersDb.SeedsNeverRegress | pkg/peersdb/seeds.go:134-209 | while a seed stays, its success count, version and reachability never go down |
| PeersDb.VerifiedOnlyByContact | pkg/peersdb/seeds.go:124-132 | only a successful dial or a live connection verifies a seed, never a record received in an exchange |
| PeersDb.EvictionKeepsBest | pkg/peersdb/seeds.go:344-374 | eviction leaves exactly the limit and drops no ever-reached seed while a never-reached one stays |
| PeersDb.EvictionByWorth | pkg/peersdb/seeds.go:335-374 | an evicted seed is never worth more than one that stays: reached at all, then a date of success, then the later date, then the later sighting |
| PeerRows.TrustExactly | pkg/peersdb/store.go:30-130 | trust and approval of a peer change by its approval, rejection, deletion or removal and by no sighting, name, note, request, seed or write about another peer; granting trust to a tombstoned peer changes nothing |
| PeerRows.TrustLasts | pkg/peersdb/store.go:30-130 | in every run a friend stays a friend, and a stranger a stranger, until such a decision names it |
| PeerRows.LastDecisionCounts | pkg/peersdb/store.go:73-130 | after a decision and any writes that decide nothing about the peer, trust is what the decision said |
| PeerRows.TombstoneExactly | pkg/peersdb/store.go:113-130 | a tombstone is set un-notified by a deletion, marked by the notice, removed by its clearing, and untouched by everything else |
| PeerRows.TombstoneName | pkg/peersdb/store.go:122-124 | the tombstone keeps the name the peer was last known by |
| PeerRows.PendingExactly | pkg/peersdb/store.go:455-473 | a request stands, with the latest data and the last known name, until approval, rejection, deletion or its own removal |
| PeerRows.RowExactly | pkg/peersdb/store.go:36-49 | which write puts a peer into the address book or takes it out, and what it makes of name, notes, last address, last sighting and the manual mark |
| PeerRows.KnowledgeGrows | pkg/peersdb/store.go:36-49 | while a peer stays in the book its name is never erased and its last sighting never goes back |
| PeerRows.SeedsExactly | pkg/peersdb/seeds.go:134-209 | which peers are seeds after any write: recorded strangers until they become friends or are dropped |
| PeerRows.NewSeedExactly | pkg/peersdb/seeds.go:134-209 | a peer recorded for the first time is stored as offered and counts as reached only by a connection |
| PeerRows.KnownSeedExactly | pkg/peersdb/seeds.go:134-209 | a known seed learns whatever a record carries that is not older, forgets nothing a record leaves out, is written only when there is news or after two minutes, and ignores older records |
| PeerRows.DialExactly | pkg/peersdb/seeds.go:292-318 | a dial counts and dates the seed when it succeeds, and is noted either way |
| PeerRows.PublicExactly | pkg/peersdb/seeds.go:320-333 | public reachability is marked for good and changes nothing else |
| PeerRows.OtherSeedsKept | pkg/peersdb/seeds.go:134-333 | no write changes the record of a seed it does not name |
| Scheduler.StepKeepsInv | pkg/serverless/scheduler.go:57-171 | every action of submitters, workers, requesters and close keeps the invariant of calls, queue, workers and requesters |
| Scheduler.SingleFlight | pkg/serverless/scheduler.go:57-146 | in every interleaving `calls` is exactly the queued or running calls, at most one per peer, and no call completes twice |
| Scheduler.CloseCompletesAll | pkg/serverless/scheduler.go:83-146 | after close has drained and the workers have exited every admitted call has completed exactly once and none is registered |
| Scheduler.RequestGetsItsKind | pkg/serverless/scheduler.go:147-171 | a returned request got the result of a completed call for its own peer; a user connect request never gets a background call's |
| Scheduler.RetryTableBounded | pkg/serverless/scheduler.go:122-142 | the retry table and the queue stay within their limits in every run |
| Scheduler.PruningKeepsBackoff | pkg/serverless/scheduler.go:130-142 | making room in the retry table never ends another peer's backoff |
| SchedulerShutdown.LockExactly | pkg/serverless/scheduler.go:57-112 | clock, context, drained mark and lock change only by their own actions, and nobody takes the lock from its holder |
| SchedulerShutdown.WakeExactly | pkg/serverless/scheduler.go:145-174 | a waiting request gets the result of its call, except that a connect request which joined a background call submits again; it may always give up |
| SchedulerShutdown.SendStarts | pkg/serverless/scheduler.go:74-79 | the first accepted submission starts every worker |
| SchedulerShutdown.QueueIsServed | pkg/serverless/scheduler.go:98-143 | an idle worker can serve the head of the queue to its end: the call completes once with its outcome and its peer is free again |
| SchedulerShutdown.ShutdownCompletes | pkg/serverless/scheduler.go:81-112 | from any state after cancellation close and the workers can finish: every call completes exactly once and none stays open |
| SchedulerTable.DiscoveryScheduler.SubmitMode | pkg/serverless/scheduler.go:57-82 | each outcome with its condition: refused, joined to the open call, backed off, queue full, or a new call at the tail of the queue and registered for its peer |
| SchedulerTable.DiscoveryScheduler.CancelHead | pkg/serverless/scheduler.go:89-92 | one queued call completes as cancelled and leaves the table |
| SchedulerTable.DiscoveryScheduler.Close | pkg/serverless/scheduler.go:83-97 | every queued call completes as cancelled, only calls in the hands of workers stay registered |
| SchedulerTable.DiscoveryScheduler.Complete | pkg/serverless/scheduler.go:113-143 | the call completes with its outcome and leaves the table; a recorded success opens the peer again after the cooldown, a recorded failure after the jittered delay of 30 seconds doubled with each failure in a row up to five minutes; when it is recorded |
| SchedulerBackoff.AdmittedExactly | pkg/serverless/scheduler.go:57-69 | in every run a background submission is let through if and only if the scheduler is open, no call for the peer is open, and the time is over that the outcomes of its calls since the table knows it ask for: the cooldown after a success, the doubled jittered delay after k failures in a row; a success starts the count again; an explicit submission does not wait |
| SchedulerBackoff.LostExactly | pkg/serverless/scheduler.go:130-139 | the bounded retry table drops a peer only when full and after its time is over, leaves one out only while every entry still holds its peer back, and changes no entry otherwise |
| SchedulerTable.DiscoveryScheduler.PruneRetry | pkg/serverless/scheduler.go:133-137 | in any iteration order exactly the entries that hold nothing back go |
| SchedulerRefinement.SubmittedIsRun | pkg/serverless/scheduler.go:57-82 | submitting without interruption is a run of the checks and, if they pass, the enqueuing |
| SchedulerRefinement.SubmitOnState | pkg/serverless/scheduler.go:57-82 | submitMode takes a scheduler that mirrors a state to one that mirrors the end of that run, for the discovery loop and for a caller of request |
| SchedulerRefinement.ClosedIsRun | pkg/serverless/scheduler.go:83-97 | cancelling, locking, draining call by call and unlocking is a run |
| SchedulerRefinement.CloseOnState | pkg/serverless/scheduler.go:83-97 | close takes the scheduler to the end of that run |
| SchedulerRefinement.CompleteOnState | pkg/serverless/scheduler.go:113-143 | the locked part of worker is the completing action |
| Framer.IpFramer.Feed | pkg/tundevice/framer.go:20-78 | emits and keeps exactly what parsing the old buffer and the new bytes gives |
| Framer.InspectExactly | pkg/tundevice/framer.go:24-66 | the header test accepts a buffer as one complete packet if and only if it is a well-formed IPv4 or IPv6 packet (section 3.1 of RFC 791, section 3 of RFC 8200), and waits if and only if the header is incomplete |
| Framer.DestinationExactly | pkg/tundevice/router.go:590-640 | a packet has a destination if and only if its header lengths fit the bytes at hand; jumbograms and other versions are unsupported, all else is refused |
| Framer.FramesExactly | pkg/tundevice/framer.go:20-78 | any chunking of well-formed packets and the start of one more yields exactly those packets and keeps exactly that start |
| Framer.ChunkIndependentExactly | pkg/tundevice/framer.go:20-78 | two chunks give what their concatenation gives if and only if the first met no malformed header or the second one brings nothing |
| Framer.DiscardAbsorbs | pkg/tundevice/framer.go:24-66 | after a malformed header nothing later in the same buffer is emitted or kept |
| Framer.ParseContinues | pkg/tundevice/framer.go:20-78 | a parse that met no malformed header can be continued from its leftover |
| Framer.RestShort | pkg/tundevice/framer.go:72-78 | the leftover is always shorter than 65535 bytes |
| Framer.EmittedAccepted | pkg/tundevice/router.go:590-631 | for any bytes, every emitted packet is well-formed and packetDestination finds the destination of its header |
| LogRing.ConsoleLogBuffer.DropHead | sdk/go/lanet/console_logs.go:77-82 | the oldest record leaves the ring, the log starts one later |
| LogRing.ConsoleLogBuffer.MakeRoom | sdk/go/lanet/console_logs.go:77-82 | records leave until the new text fits |
| LogRing.ConsoleLogBuffer.Write | sdk/go/lanet/console_logs.go:62-93 | the ring refines appending the clipped lines to a bounded log with consecutive IDs |
| LogRing.ConsoleLogBuffer.Clear | sdk/go/lanet/console_logs.go:95-101 | the log is empty under a new generation, IDs go on |
| LogRing.ConsoleLogBuffer.ReadBatch | sdk/go/lanet/console_logs.go:103-131 | the batch is the one the abstract log gives for this cursor and generation |
| LogRing.LineEndFirst | sdk/go/lanet/console_logs.go:66-71 | a record ends at the first line end of the text, or with the text |
| LogRing.WriteMeaning | sdk/go/lanet/console_logs.go:62-93 | a write appends exactly its lines and stays within count and byte limits |
| LogRing.EvictedLeast | sdk/go/lanet/console_logs.go:77-82 | no record is dropped that could have stayed |
| LogRing.PollMeaning | sdk/go/lanet/console_logs.go:103-131 | a poll returns the next records without gap, as many as the batch limits allow and at least one whenever any is unread, `more` exactly when some remain, and a reset exactly when the cursor is no longer served |
| LogRing.EventExactly | sdk/go/lanet/console_logs.go:62-131 | writes extend the history, clears empty the log under the next generation, and only polls move the reader |
| LogRing.HistoryExactly | sdk/go/lanet/console_logs.go:62-131 | over any run the history is everything written in order, and the generation counts the clears |
| LogRing.PollsCatchUp | sdk/go/lanet/console_logs.go:103-131 | a reader that goes on polling fetches everything still in the log |
| LogRing.ReaderGapFree | sdk/go/lanet/console_logs.go:62-131 | over any run of writes, clears and polls a reader has received, since its last reset, every record between two points once and in order |
| LogRing.NewReaderOk | sdk/go/lanet/console_logs.go:103-113 | a fresh reader of a fresh buffer is in good standing |
| DnsLabel.LabelWellFormed | pkg/serverless/vaddr.go:39-49 | the result is empty or a DNS label: at most 63 of a-z, 0-9 and single inner dashes |
| DnsLabel.LabelFixedExactly | pkg/serverless/vaddr.go:39-49 | a string is its own label if and only if it is well-formed; normalising is idempotent |
| DnsLabel.LettersKept | pkg/serverless/vaddr.go:39-49 | the label spells the lower-cased letters and digits of the name in order, all of them unless the limit cut |
| DnsLabel.CharactersExactly | pkg/serverless/vaddr.go:39-49 | which characters are capitals, white space, letters and digits, by their codes |
| DnsWords.LabelHyphenates | pkg/serverless/vaddr.go:39-49 | within the limit a label is the words of the name joined by single dashes: spaces, underscores and dashes separate words, other characters vanish |
| Hostnames.Hostnames | pkg/serverless/vaddr.go:54-90 | the table of first-come labels in PeerID order |
| Hostnames.Suffixed | pkg/serverless/vaddr.go:74-84 | the suffix loop terminates with the first free candidate |
| Hostnames.BumpFirstFree | pkg/serverless/vaddr.go:81-83 | every shorter candidate was taken |
| Hostnames.LabelsDistinct | pkg/serverless/vaddr.go:54-90 | every member has a label and no two members share one |
| Hostnames.OrderDoesNotMatter | pkg/serverless/vaddr.go:55-56 | the table depends only on which members there are |
| Hostnames.LabelExactly | pkg/serverless/vaddr.go:60-88 | a member keeps its own label if and only if no smaller PeerID ended up with it; otherwise it gets its PeerID tail and suffixes |
| Hostnames.FallbackTells | pkg/serverless/vaddr.go:62-74 | two members without usable names get the same base label if and only if the last two bytes of their IPv4 addresses agree |
| Hostnames.LaterMembersDoNotMatter | pkg/serverless/vaddr.go:54-90 | members with greater PeerIDs can come and go without renaming anybody below |
| Resolve.ResolveTarget | pkg/serverless/vaddr.go:98-178 | the answer or the error for each way a target can hit none, one or several members |
| Resolve.AddressExactly | pkg/serverless/vaddr.go:105-129 | an address target finds a member if and only if that member alone has the address |
| Resolve.LastIndexExactly | pkg/serverless/vaddr.go:135-137 | the domain is looked for at its last occurrence |
| Resolve.HostPartCuts | pkg/serverless/vaddr.go:132-137 | a target that goes on after the domain without a further dot is cut at the domain |
| Resolve.LabelNeverAmbiguous | pkg/serverless/vaddr.go:151-153 | the ambiguous-label error never occurs |
| Resolve.NameExactly | pkg/serverless/vaddr.go:155-177 | where neither address nor label answers, a raw name finds a member if and only if it alone has the name, is unknown iff nobody has it and ambiguous iff several have it |
| Resolve.AmbiguousListed | pkg/serverless/vaddr.go:155-177 | an ambiguous name is answered with the full addresses of all namesakes in the order of the members |
| Resolve.AddressesSpelled | pkg/serverless/vaddr.go:170-176 | each listed address is the label of its member with the domain |
| Resolve.ErrorsExactly | pkg/serverless/vaddr.go:119-177 | the conditions of the empty, unknown and ambiguous address errors |
| ResolveLaws.SpellingsResolve | pkg/serverless/vaddr.go:131-150 | a lower-case label finds its member in any case, with or without domain and final dot |
| ResolveLaws.LabelLowerExactly | pkg/serverless/vaddr.go:60-73 | a label is lower case if and only if the member has a usable name or IPv4 address, or no upper case in the PeerID characters used |
| ResolveLaws.FullAddressExactly | pkg/serverless/vaddr.go:98-150 | label plus ".lanet" resolves back to its member if and only if the label did not come from the case-keeping PeerID fallback |
| ResolveLaws.FallbackBreaksInverse | pkg/serverless/vaddr.go:70-72 | a nameless member whose PeerID begins with "12D3" is not found under its own full address |
| Underlay.FilterUnderlayAddrs | pkg/p2pkit/host.go:182-199 | the dialable addresses, or without any the harmless ones, in order |
| Underlay.SortByReachability | pkg/p2pkit/reachability.go:130-153 | shareable addresses, first occurrences, stably sorted by rank |
| Underlay.CollapseRedundant | pkg/p2pkit/reachability.go:621-635 | the first address of every link |
| Underlay.CleanUnderlayAddrs | pkg/p2pkit/host.go:265-292 | the pipeline with its fallbacks and the limit of 12 |
| Underlay.SortSorted | pkg/p2pkit/reachability.go:130-153 | the sorted list is ordered by rank |
| Underlay.CollapseCovers | pkg/p2pkit/reachability.go:621-648 | every address folded away has a kept one of its link that ranks no worse |
| Underlay.LinkExactly | pkg/p2pkit/reachability.go:638-680 | two addresses belong to one link if and only if they share transport and network: three bytes of an IPv4 address, two of a link-local one, the upper half of an IPv6 address |
| Underlay.LinkedExactly | pkg/p2pkit/reachability.go:638-648 | an address without IP or transport belongs to no link |
| Underlay.CleanIsSafe | pkg/p2pkit/host.go:265-292 | at most 12, all from the input, no overlay or circuit address, empty if and only if every input was one |
| Underlay.CleanIsIdempotent | pkg/p2pkit/host.go:265-292 | cleaning twice is cleaning once |
| Underlay.DroppedForAReason | pkg/p2pkit/host.go:265-292 | every dropped dialable address has a kept one of the same link and no worse rank, or ranks no better than all kept |
| UnderlayRanks.OneKind | pkg/p2pkit/reachability.go:71-107 | every address is of exactly one of nine kinds, told by its IP, its relay and the class of the interface that holds it |
| Underlay.SpecialV6 | pkg/p2pkit/host.go:265-292 | the IPv6 loopback and unspecified address are one address each |
| Underlay.PrefixesV4 | pkg/p2pkit/reachability.go:71-107 | the IPv4 classes are the prefixes of their standards |
| Underlay.PrefixesV6 | pkg/p2pkit/reachability.go:71-107 | so are the IPv6 classes |
| UnderlayRanks.RankExactly | pkg/p2pkit/reachability.go:27-67 | an address ranks before another if and only if its kind comes first: global IPv6, primary private IPv4, other private IPv4, public IPv4, unique-local IPv6, tunnels, the rest, host bridges, link-local |
| UnderlayRanks.CleanedByKind | pkg/p2pkit/reachability.go:130-152 | in a cleaned list with shareable addresses no better kind stands behind a worse one |
| UnderlayRanks.CleanedShareable | pkg/p2pkit/reachability.go:130-152 | such a list holds no overlay, loopback or wildcard address |
| RateLimiter.Limiter.constructor | pkg/selfupdate/selfupdate.go:705-721 | defaults replace values that are not positive |
| RateLimiter.Limiter.Allow | pkg/selfupdate/selfupdate.go:725-762 | a grant keeps any two grants of one bucket and remote at least the interval apart in the whole history, slots within their limits, and file transfers below all slots; a refusal has one of four reasons, and a full table is one only while at least 64 of its entries still count |
| RateLimiter.Limiter.Scan | pkg/selfupdate/selfupdate.go:741-752 | the scan looks at 64 entries, or at all of fewer, in any order, and drops exactly the expired ones among them |
| RateLimiter.Limiter.Release | pkg/selfupdate/selfupdate.go:764-773 | exactly one open grant of the bucket ends |
| RateLimiter.KeyInjective | pkg/selfupdate/selfupdate.go:735 | table keys never mix two buckets or remotes |
| RateLimiter.SpacedFromNow | pkg/selfupdate/selfupdate.go:735-739 | the table test on the last grant implies the spacing from every earlier grant, evicted ones included |
| RateLimiter.RefusalMeaning | pkg/selfupdate/selfupdate.go:737-739 | a too-soon refusal is backed by a real earlier grant within the interval |

## Left out

- FlowProtocol.QuietTablesAgree: the forced reset timer is not an action; a router that was closed may go on in the protocol, which only adds runs; there is one peer per router, so the limit of 256 flows appears as a refusal that may happen to any arriving stream.
- Outbound.ForwardedInOrder: the runs are over a state machine on values, because enqueuer, workers and Close act concurrently; OutboundRefinement ties the methods that hold the lock, and the drain, to it, while channel receives and forwarding are actions only. What forwardPacket does with a packet is outside.
- Scheduler.SingleFlight: likewise a state machine on values; SchedulerRefinement ties the locked sections to it, while channel receives, the run of a call and the waiting of request are actions only. The jitter is an arbitrary function of the delay.
- PeersDb.AlwaysConsistent: SQL text, locking and I/O errors are not modelled; each method is an atomic function on the tables it writes. AddUnfriended and PruneStaleSeeds are left out, and address lists are opaque strings.
- MemberAddresses.Discovery.AddMember: what the handlers do besides the table write and the claim is in Membership.
- Membership.MemberTable.AddMember: a member is modelled by its three timestamps; names, addresses, versions and the discovery source are left out.
- Membership.MemberTable.VerifiedMember: the address claim inside it is the one of MemberAddresses; the two modules do not share a class.
- DnsLabel.LabelWellFormed: characters are ASCII as far as case and white space go; Unicode case mapping and Unicode spaces are not modelled.
- ResolveLaws.FullAddressExactly: PeerIDs consist of letters and digits, as base58 does, and the address parser rejects the full address.
- Resolve.ResolveTarget: error texts are reduced to their kind, except the list of full addresses for namesakes.
- Underlay.DroppedForAReason: is about dialable addresses; the fallback for lists without any promises only `CleanIsSafe`. A multiaddr is modelled by the features the ranking and the link key read.
- RateLimiter.Limiter.Release: the caller must hold a grant of that bucket, as the paired call in the source does; the guards against a negative count are modelled but not needed then.
- LogRing.ConsoleLogBuffer.Write: record IDs do not wrap at 64 bits.
- libp2p hosts and streams, DHT, mDNS, relay reservation, TUN devices, firewall configuration, DNS sockets, the HTTP console and logging: I/O and foreign calls.
- DeletionPair.NeitherTrustsAfterNotice: connection approval is on, as by default; with it off a node without a tombstone lets everybody in. Each node is modelled towards one other node; its writes about others are arbitrary.
- trustPolicy when the peer database is missing or fails: only the answers of a working database are modelled.
- Hashing, signatures and MACs are not modelled; only the derivation function appears, as a parameter.
- CheckPacket of the firewall, the C# gateway stream and the version order of exchanged seeds: their code does not provide the property their comments name.
- Frame header codecs, invite codes, IPv6 prefix arithmetic, network-map sorting and the other rate limiters: they would only add easy members.
