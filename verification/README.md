# Redis 6.2.7: a verified model of its hardest parts

This project models the parts of Redis 6.2.7 that are hardest to get right by inspection, and
proves what they promise for all inputs, all interleavings and all reachable states.

- **Cluster.** `ClusterView` is one node's view of the cluster and the effect of every packet,
  timer and command on it. `ClusterState` keeps the program's redundant tables (bitmaps, slot
  counts, replica lists) and refines the view method by method. `ClusterBus` puts many nodes and
  packets in flight together. `Election` is the failover election as a protocol of its own, which
  the bus refines. `SplitElection`, `MasterChange`, `SlotClaims` and `EpochCollision` are about whole
  runs: an election with two winners, the assertion in front of a change of master, claims to slots,
  and collisions of epochs. `Failover`, `Gossip` and `SlotOrders` say what votes, takeovers, packets
  and the operator's commands achieve, across the nodes that send and receive.
  `Routing` and `Resharding` are about redirections while a slot moves, `SlotRanges` about printing
  and loading the slot table.
- **Append-only log.** `AofFormat` is the text of the log and the loader, `AofLoading` what the
  loader makes of logs of every kind, `AofWriter` the buffers and files, `AofRewrite` the two-process
  rewrite, `AofHandshake` how a rewrite ends.
- **Access rules.** `Acl` is the interpreter of rules, `AclRules` what the rules mean for running
  commands and logging in, `AclDescribe` the printer and the round trip, `AclUser` the user object
  that is updated in place, `AclFile` the file of users.
- **Blocked clients.** `AdList` is the linked list, `BlockingIndex` the two-way index of waiting
  clients, kept in such lists, `Blocked` the scheduler that owns the index, `Delivery` what becomes
  of the elements, `ReadyKeys` the queue of ready keys.
- **Bits.** `Words` and `Crc64` (slicing by eight, both byte orders), `CrcRemainder` (what the
  checksum is and which errors it notices), `Popcount`, `BitScan` (BITPOS, BITOP) and `Bitfield`.

The number of slots, the size of bitmaps, the command table, block sizes and the number of nodes
are symbolic. Machine words are written out: 64-bit CRC words as bits, 32-bit counting words as
numbers modulo 2^32, the 64-bit integers of BITFIELD as integers with explicit ranges. Clocks,
randomness, results of system calls, the glob matcher and SHA-256 are parameters.

## What turned out not to hold as hoped

Each of these is stated together with the exact condition under which the code does what one
would expect; for the first, the election, a sufficient and a necessary one are stated instead.

- An acknowledgement that is counted after a replica has re-armed its election timer and before it
  asks again counts for the next epoch. An epoch can then have two winners, on the bus
  (`SplitElection.UntimelyBusSplits`) as in the protocol (`Election.UntimelyRunSplits`); without such
  acknowledgements it cannot (`ClusterBus.BusElectionSafety`, `Election.ElectionSafety`), and
  `Election.SplitNeedsStaleVotes` says how many it takes at least.
- A replica is assumed to serve no slot, and asserted to when its master changes; but CLUSTER
  ADDSLOTS does not look at the role of the node. The assertion fails at a step exactly when the
  step changes the master of a node that still serves a slot which ADDSLOTS gave it as a replica
  (`MasterChange.AssertionFailsExactly`); `MasterChange.CrashingRun` is such a run.
- An UPDATE packet about a node is ignored once any header of that node has been seen, because the
  header has already taught its epoch (`SlotClaims.HeaderSilencesReports`). A slot goes to the
  greatest claimant if and only if its claim was heard (`SlotClaims.OwnedIffHeard`).
- Epoch collisions among k nodes need at most k - 1 changes per node, fewer than the bound
  2^(k-1) - 1 that suggests itself (`EpochCollision.CollisionRepairTerminates`).
- A log that ends in the middle of a command inside an open transaction is cut back to the last
  complete command, not to before the transaction (`AofFormat.LeftOpenExactly`,
  `AofFormat.LeftOpenLog`).
- A rewrite whose request to stop was heard but not answered can never be finished, only abandoned
  (`AofHandshake.StuckForGood`); in every other state it can (`AofHandshake.CanInstall`).
- The checksum starts from zero, so zero bytes in front of a message are not noticed
  (`CrcRemainder.LeadingZeros`); errors confined to eight bytes always are
  (`CrcRemainder.BurstNoticed`).
- BITFIELD SET with saturation goes to the wrong limit when the distance to the maximum does not
  fit in 64 bits (`Bitfield.SetSaturatesExactly`); the unsigned check used at 64 bits would err
  exactly as `Bitfield.UnsignedExactAt64` says.
- A subcommand is accepted by ACL SETUSER and written to the file of users as it is. Loading the
  saved file gives every user back if and only if no subcommand contains a blank or a newline, or
  ends in a tab or a return (`AclFile.SaveLoadExactly`); rules such as `+cmd|a b` are accepted for
  every command (`AclFile.SpoiltUser`).
- A key that is overwritten by a list (as SORT with STORE does) is not signalled as ready; clients
  that wait for a list there stay blocked (`Blocked.OverwriteExactly`, `Blocked.ReplacedUnnoticed`).
- A slot whose source is opened before its target redirects clients back and forth, whatever else
  happens (`Resharding.OpenedInTheWrongOrder`). With the source open, a request for a key is served
  if and only if the source still holds the key or the target is open too
  (`Resharding.ServedWhenOpenExactly`).
- A client that says ASKING of its own accord can create at the target a key that the source still
  holds (`Resharding.UnsolicitedAsking`). It keeps the nodes apart if and only if the source would
  not have served the request (`Resharding.AskingSafeExactly`).

## Model

| member | source | states |
|---|---|---|
| `ClusterView.ProcessOk` | redis/redis-6.2.7/src/cluster.c:1831-2229 | whatever packet arrives, a view stays well formed: same nodes, owners known, masters without a master of their own |
| `ClusterView.ProcessNoGain` | redis/redis-6.2.7/src/cluster.c:1637-1744 | no packet makes a node serve a slot as a replica that it did not serve as a replica before |
| `ClusterView.ChangeSlotsGain` | redis/redis-6.2.7/src/cluster.c:4532-4580 | ADDSLOTS and DELSLOTS: a replica comes to serve a slot exactly when ADDSLOTS is accepted and lists it |
| `ClusterView.PacketReached` | redis/redis-6.2.7/src/cluster.c:1720-1731 | when a packet reaches the assertion in clusterSetMaster, a node that was a master serves no slot, and a replica only slots it served before |
| `ClusterView.PacketLoses` | redis/redis-6.2.7/src/cluster.c:1637-1744 | which packets take a slot from a replica or make it a master: stated on the packet and the view, both ways |
| `ClusterView.SetSlotOk` | redis/redis-6.2.7/src/cluster.c:4582-4680 | every CLUSTER SETSLOT form, refused or not, keeps the view well formed |
| `ClusterState.Cluster.AddSlot` | redis/redis-6.2.7/src/cluster.c:3888-3893 | refused exactly when the slot has an owner; otherwise one slot changes and bitmaps, slot counts and table still agree |
| `ClusterState.Cluster.DelSlot` | redis/redis-6.2.7/src/cluster.c:3898-3905 | refused exactly when the slot is free; the owner bit is always set, so the internal assertion cannot fail |
| `ClusterState.Cluster.DelNodeSlots` | redis/redis-6.2.7/src/cluster.c:3909-3919 | frees exactly the slots of the node and returns their number, which is its slot count |
| `ClusterState.CountsAddUp` | redis/redis-6.2.7/src/cluster.c:3847-3905 | the slot counts of all nodes add up to the number of assigned slots |
| `ClusterState.Cluster.RemoveSlave` | redis/redis-6.2.7/src/cluster.c:911-928 | removes one entry of the replica list, keeps the order of the rest, says whether it was there |
| `ClusterState.Cluster.AddSlave` | redis/redis-6.2.7/src/cluster.c:930-942 | appends to the replica list unless already there |
| `ClusterState.UnlinkMatches` | redis/redis-6.2.7/src/cluster.c:911-942 | taking a replica off its master keeps replica lists and slaveof links in agreement for every node |
| `ClusterState.LinkMatches` | redis/redis-6.2.7/src/cluster.c:930-942 | attaching a replica to a master keeps replica lists and slaveof links in agreement for every node |
| `ClusterState.Cluster.DelNode` | redis/redis-6.2.7/src/cluster.c:953-1024 | forgetting a node frees its slots, closes imports and migrations with it, orphans its replicas and leaves all tables in agreement |
| `ClusterState.Cluster.UpdateSlotsConfigWith` | redis/redis-6.2.7/src/cluster.c:1637-1744 | rebinding slots to a claimant in place refines the functional rule, including the switch to a new master; it stops exactly when the assertion there fails |
| `ClusterState.Cluster.BecomeReplica` | redis/redis-6.2.7/src/cluster.c:4115-4131 | the node becomes a replica in its own entry and in the replica lists, and its open slots close; it stops exactly when it still serves a slot |
| `ClusterState.Cluster.SetSlotCommand` | redis/redis-6.2.7/src/cluster.c:4582-4680 | SETSLOT in place: every form is refused or done exactly as specified, and bitmaps, slot counts and tables still agree |
| `ClusterState.Cluster.AddDelSlots` | redis/redis-6.2.7/src/cluster.c:4532-4580 | ADDSLOTS and DELSLOTS change all listed slots or none; bitmaps, slot counts and table still agree, and the assertion after each change cannot fail |
| `ClusterState.Cluster.ReplicateCommand` | redis/redis-6.2.7/src/cluster.c:4836-4873 | REPLICATE is refused, switches the master, or stops at the assertion, each exactly in its case |
| `ClusterState.Cluster.FailoverReplaceYourMaster` | redis/redis-6.2.7/src/cluster.c:3098-3126 | the winner takes over every slot of its old master and no other; tables agree |
| `ClusterState.Cluster.SendFailoverAuthIfNeeded` | redis/redis-6.2.7/src/cluster.c:2896-2997 | a vote is cast and acknowledged exactly when the request deserves it, as `Failover.VoteExactly` spells out; otherwise nothing changes |
| `ClusterState.Cluster.GetMaxEpoch` | redis/redis-6.2.7/src/cluster.c:1060-1073 | the loop over the nodes returns the greatest configEpoch or currentEpoch |
| `ClusterState.Cluster.BumpConfigEpoch` | redis/redis-6.2.7/src/cluster.c:1104-1121 | takes a new epoch exactly when its own is not already the greatest |
| `ClusterState.Cluster.HandleSlaveFailover` | redis/redis-6.2.7/src/cluster.c:3136-3305 | one call of the failover timer: re-arm, ask for votes, take over, or nothing, each exactly in its case; what taking over moves and makes others do is `Failover.TakeOverExactly` and `Failover.WinnerPrevails` |
| `ClusterState.Cluster.ProcessPacket` | redis/redis-6.2.7/src/cluster.c:1831-2229 | for every packet in every state: processing it on the redundant tables changes the abstract view and sends packets exactly as specified, or stops exactly when the assertion of clusterSetMaster fails |
| `Election.StepKeeps` | redis/redis-6.2.7/src/cluster.c:2896-2997 | every step keeps the invariant that ties votes, messages, counted acknowledgements and wins together |
| `Election.RunInv` | redis/redis-6.2.7/src/cluster.c:2896-2997 | the invariant holds in every state of every run |
| `Election.VoteIsNew` | redis/redis-6.2.7/src/cluster.c:2909-2927 | a master that grants a vote has not voted in that epoch, and the vote is for its own current epoch |
| `Election.AckIsCurrent` | redis/redis-6.2.7/src/cluster.c:2172-2189 | a counted acknowledgement is for the epoch asked in, and each master is counted once |
| `Election.VoteEpochsIncrease` | redis/redis-6.2.7/src/cluster.c:2909-2997 | the epochs in which one master votes strictly increase along a run |
| `Election.WinsStay` | redis/redis-6.2.7/src/cluster.c:3250-3305 | an election once won stays won |
| `Election.VotersOf` | redis/redis-6.2.7/src/cluster.c:2896-2997 | if all votes of an epoch are cast by members of a set, its recorded voters are in that set |
| `Election.SplitNeedsStaleVotes` | redis/redis-6.2.7/src/cluster.c:3135-3305 | two winners of one epoch need, together, at least as many acknowledgements counted before the request as two majorities exceed the electorate |
| `Election.ElectionSafety` | redis/redis-6.2.7/src/cluster.c:3135-3305 | in runs that count no acknowledgement between re-arming and asking, an epoch has at most one winner |
| `Election.UntimelyRunSplits` | redis/redis-6.2.7/src/cluster.c:3160-3230 | the same in the protocol by itself: an eleven-step run in which an acknowledgement counted too early gives one epoch two winners |
| `ClusterBus.EpochsInvariant` | redis/redis-6.2.7/src/cluster.c:1831-1842 | in every reachable state of the bus no known configEpoch exceeds a node's currentEpoch, in views and in packets |
| `ClusterBus.MaxEpochIsCurrent` | redis/redis-6.2.7/src/cluster.c:1060-1073 | hence the greatest epoch a node knows is its currentEpoch |
| `MasterChange.GainedByAddSlots` | redis/redis-6.2.7/src/cluster.c:4532-4580 | one step of the bus gives a replica a slot exactly when it is an ADDSLOTS that the replica accepts |
| `MasterChange.LostExactly` | redis/redis-6.2.7/src/cluster.c:1637-1744 | one step of the bus ends a replica's service of a slot exactly when it is a packet that claims the slot under a greater epoch or makes the node a master, an accepted DELSLOTS of it, or a failover of the node |
| `MasterChange.ReplicaServesExactly` | redis/redis-6.2.7/src/cluster.c:4532-4580 | in every state of every run a replica serves exactly the slots that ADDSLOTS gave it as a replica and that no step since has taken or ended by making it a master |
| `MasterChange.AssertionFailsExactly` | redis/redis-6.2.7/src/cluster.c:4115-4131 | in every run, a step fails the assertion exactly when it changes the master of a node that still serves such a slot |
| `MasterChange.AssertionHolds` | redis/redis-6.2.7/src/cluster.c:4115-4131 | without an ADDSLOTS accepted by a replica no replica ever serves a slot and the assertion never fails |
| `MasterChange.ReplicateFailsExactly` | redis/redis-6.2.7/src/cluster.c:4836-4873 | REPLICATE sent to a replica fails the assertion exactly when the replica serves a slot |
| `MasterChange.CrashingRun` | redis/redis-6.2.7/src/cluster.c:4115-4131 | a concrete run: ADDSLOTS to a replica, then a PING of the node that took over the last slot of its master |
| `ClusterBus.RefineStep` | redis/redis-6.2.7/src/cluster.c:2896-2997 | every step of the bus is a step of the election protocol or does not concern it |
| `ClusterBus.Simulate` | redis/redis-6.2.7/src/cluster.c:2896-3305 | every run of the bus is shadowed by a run of the election protocol |
| `ClusterBus.BusElectionSafety` | redis/redis-6.2.7/src/cluster.c:3135-3305 | election safety for the whole bus: two wins of one epoch by a fixed electorate are by the same node |
| `SplitElection.UntimelyBusSplits` | redis/redis-6.2.7/src/cluster.c:3160-3230 | a concrete ten-step run of the bus in which two replicas of the only master with slots win elections of one epoch, everything but timeliness being as that theorem wants it |
| `ClusterBus.BusVoteEpochsIncrease` | redis/redis-6.2.7/src/cluster.c:2909-2997 | vote epochs of each node strictly increase along runs of the bus |
| `Failover.VoteOnlyOnRequest` | redis/redis-6.2.7/src/cluster.c:2174-2176 | no other packet makes a node vote, and no request of a node without a known master; a vote is acknowledged over the link, and nothing else is |
| `Failover.VoteExactly` | redis/redis-6.2.7/src/cluster.c:2896-2997 | in views of reachable states (no vote ahead of the current epoch) a vote is cast if and only if: this node is a master with slots, has not voted in this or a later epoch and is not ahead of it, the asker is a replica of a known master that has failed (or the failover is forced), two timeouts have passed since the last vote for that master, and no claimed slot has an owner with a greater epoch |
| `Failover.VoteEffect` | redis/redis-6.2.7/src/cluster.c:2989-2996 | a vote uses up the epoch of the request and notes the time for the replica's master; slots, roles and other epochs stay as they are |
| `Failover.VotesApart` | redis/redis-6.2.7/src/cluster.c:2954-2966 | two votes of one node for replicas of the same master are at least two timeouts apart |
| `Failover.StandsExactly` | redis/redis-6.2.7/src/cluster.c:3157-3205 | a node stands for election if and only if it is a replica of a master with slots that has failed, its data is fresh and failovers are not switched off, or it is told to; its request claims at least one slot |
| `Failover.MajorityExactly` | redis/redis-6.2.7/src/cluster.c:3250-3255 | it has won when the answers are more than half of the electorate |
| `Failover.RoundTrip` | redis/redis-6.2.7/src/cluster.c:2896-2997 | request, vote and count across two nodes: a master that sees things as the candidate does grants the request, and its answer raises the candidate's count by one |
| `Failover.ElectorateExactly` | redis/redis-6.2.7/src/cluster.c:2177-2189 | the number by which a majority is sized is the size of exactly the set of nodes whose answers count |
| `Failover.BackedByMajority` | redis/redis-6.2.7/src/cluster.c:2896-3305 | whoever wins an election in a timely run of the bus was voted for, in that epoch, by a majority of nodes, none of which knew a newer owner of a slot the winner claimed when it voted |
| `Failover.TakeOverExactly` | redis/redis-6.2.7/src/cluster.c:3098-3126 | taking over moves every slot of the old master to this node and no other slot; it is a master then, and the other nodes are untouched; a master takes nothing over |
| `Failover.ClaimPrevails` | redis/redis-6.2.7/src/cluster.c:1637-1744 | a node that hears a master claim a slot under a greater epoch than that of the owner it knows gives it the slot |
| `Failover.WinnerPrevails` | redis/redis-6.2.7/src/cluster.c:3250-3305 | across two nodes: after a won election, whoever takes the old master for the owner under a smaller epoch gives the slot to the winner when it hears from it |
| `Failover.BumpExactly` | redis/redis-6.2.7/src/cluster.c:1104-1121 | without an election a node takes a new epoch, the next of the cluster, if and only if its own is zero or not the greatest it knows |
| `Failover.OrderedTakeoverPrevails` | redis/redis-6.2.7/src/cluster.c:4947-4954 | the same after CLUSTER FAILOVER TAKEOVER, with the epoch that is bumped without an election |
| `Failover.ImportPrevails` | redis/redis-6.2.7/src/cluster.c:4648-4676 | the same for a slot whose import is closed by SETSLOT NODE: others give it to the new owner when they hear from it |
| `SlotClaims.HearKeeps` | redis/redis-6.2.7/src/cluster.c:1665-1699 | after any ping, pong or update the owner of a slot has the greatest claim heard so far |
| `SlotClaims.RunInv` | redis/redis-6.2.7/src/cluster.c:1665-1699 | that holds throughout any sequence of deliveries, in any order and with repetitions |
| `SlotClaims.GreatestClaimWins` | redis/redis-6.2.7/src/cluster.c:1665-1699 | once the claimant with the greatest epoch has been heard, it owns the slot |
| `SlotClaims.Confluence` | redis/redis-6.2.7/src/cluster.c:1665-1699 | two deliveries of the same claims in different orders end in the same slot table |
| `SlotClaims.OwnedIffHeard` | redis/redis-6.2.7/src/cluster.c:2208-2229 | a free slot ends up with the greatest claimant if and only if its claim was heard |
| `SlotClaims.HeaderSilencesReports` | redis/redis-6.2.7/src/cluster.c:2208-2229 | once a header from a node has been seen, an update about that node changes nothing |
| `SlotClaims.ReportsDoNotSuffice` | redis/redis-6.2.7/src/cluster.c:2208-2229 | a concrete pair of updates after which the greatest claimant does not own its slot |
| `Gossip.PingIsAnswered` | redis/redis-6.2.7/src/cluster.c:1860-1917 | a PING is answered by a PONG of this node, a stranger's too, and no other packet is; a stranger's packet changes nothing |
| `Gossip.RoleIsLearnt` | redis/redis-6.2.7/src/cluster.c:2015-2050 | a PING or PONG teaches the role and the master of its sender; a master that turned replica has lost its slots, and apart from that the packet of a replica moves no slot |
| `Gossip.FailureIsLearnt` | redis/redis-6.2.7/src/cluster.c:2132-2154 | a FAIL packet flags the node it names unless that is this one, and nobody else |
| `Gossip.OutdatedIsTold` | redis/redis-6.2.7/src/cluster.c:2077-2118 | a master is sent an UPDATE in reply if and only if it claims a slot whose owner has a greater epoch |
| `Gossip.ReplicaIsTold` | redis/redis-6.2.7/src/cluster.c:2058-2118 | a replica is sent one if and only if, besides, what it says of its shard differs from what is known here |
| `Gossip.UpdateTakesEffect` | redis/redis-6.2.7/src/cluster.c:2208-2229 | an UPDATE with news makes its subject a master of that epoch and gives it exactly the slots it serves that were free or owned under a smaller epoch and are not being imported |
| `Gossip.OldUpdateIsIgnored` | redis/redis-6.2.7/src/cluster.c:2208-2229 | an UPDATE without news changes nothing |
| `Gossip.FollowsExactly` | redis/redis-6.2.7/src/cluster.c:1709-1744 | a node changes its master to the claimant if and only if the claim takes the last slots of its own shard, and, where replicas may not migrate, the claimant takes over that shard as a whole |
| `SlotOrders.SetSlotIsSafe` | redis/redis-6.2.7/src/cluster.c:4582-4680 | SETSLOT changes one slot at most; it does nothing on a replica or for an unknown node, never gives away a slot with keys in it, and opens only own slots for export and only others' for import |
| `SlotOrders.SetSlotDoes` | redis/redis-6.2.7/src/cluster.c:4582-4680 | where it may, each form of SETSLOT does what it says, and takes a new epoch only when an import is closed |
| `SlotOrders.AllOrNothing` | redis/redis-6.2.7/src/cluster.c:4532-4580 | ADDSLOTS and DELSLOTS change all listed slots, if they are different and all free (or all owned), and otherwise nothing |
| `SlotOrders.AddThenDelete` | redis/redis-6.2.7/src/cluster.c:4532-4580 | DELSLOTS undoes ADDSLOTS |
| `SlotOrders.AddSlotsCounts` | redis/redis-6.2.7/src/cluster.c:4532-4580 | an accepted ADDSLOTS gives the node exactly as many slots as it lists |
| `SlotOrders.ReplicateExactly` | redis/redis-6.2.7/src/cluster.c:4836-4873 | REPLICATE takes effect if and only if the node given is another, known master and this node, if a master, serves no slots and holds no keys |
| `SlotOrders.NoTrace` | redis/redis-6.2.7/src/cluster.c:953-1024 | a forgotten node owns no slot, is in no import or export, and is nobody's master; nothing else changes |
| `EpochCollision.ProcessTame` | redis/redis-6.2.7/src/cluster.c:1169-1184 | a packet raises a node's own epoch only in a collision with a node of smaller name, and others only to what the packet says |
| `EpochCollision.TruthStep` | redis/redis-6.2.7/src/cluster.c:1169-1184 | what nodes and packets say about epochs stays true: never above what the node itself has reached |
| `EpochCollision.RunLawful` | redis/redis-6.2.7/src/cluster.c:1169-1184 | along any gossip run a node leaves an epoch only to one that a node of greater name has held |
| `EpochCollision.FewEpochs` | redis/redis-6.2.7/src/cluster.c:1169-1184 | under that law a set of nodes closed upwards by name can use at most as many epochs as it has members |
| `EpochCollision.ChangesBounded` | redis/redis-6.2.7/src/cluster.c:1169-1184 | hence a node changes its epoch at most as often as there are nodes of greater name |
| `EpochCollision.CollisionRepairTerminates` | redis/redis-6.2.7/src/cluster.c:1127-1184 | repair of colliding epochs ends: that bound holds for every run of pings and updates on the bus |
| `EpochCollision.DifferForever` | redis/redis-6.2.7/src/cluster.c:2121-2128 | once a node has heard from a node of greater name that holds epoch e, its own epoch is never e again and its currentEpoch never below e |
| `SlotRanges.NodeRanges` | redis/redis-6.2.7/src/cluster.c:4206-4229 | the per-node loop prints exactly the maximal runs of the bitmap, in order |
| `SlotRanges.TableRanges` | redis/redis-6.2.7/src/cluster.c:4252-4281 | one pass over the slot table gives every node that is shown exactly its maximal runs, and hidden nodes nothing |
| `SlotRanges.OnlyOneWay` | redis/redis-6.2.7/src/cluster.c:4206-4281 | a bitmap has only one description by maximal ranges |
| `SlotRanges.SameRanges` | redis/redis-6.2.7/src/cluster.c:4206-4281 | so both ways of printing agree |
| `SlotRanges.TableRestored` | redis/redis-6.2.7/src/cluster.c:247-292 | expanding the printed ranges as the loader does gives back exactly the slots of the nodes that are shown; the whole table exactly when no other node owns a slot |
| `SlotRanges.RangeText` | redis/redis-6.2.7/src/cluster.c:278-290 | the text of a range is read back as the same two ends |
| `SlotRanges.RangesRefused` | redis/redis-6.2.7/src/cluster.c:268-290 | a line is a format error exactly if an end of one of its ranges lies outside the table |
| `Routing.GetNodeByQuery` | redis/redis-6.2.7/src/cluster.c:5741-5928 | the one-pass scan of all keys of all commands decides exactly as the set-based rule, whose answers `Routing.RefusedExactly` and `Routing.RedirectedExactly` characterise |
| `Routing.RefusedExactly` | redis/redis-6.2.7/src/cluster.c:5785-5877 | when a request is refused because a slot has no owner, keys are of two slots, or the cluster is down |
| `Routing.RedirectedExactly` | redis/redis-6.2.7/src/cluster.c:5878-5928 | MOVED names the owner, and is the answer if and only if the node has no leave to serve the request; ASK and TRYAGAIN likewise |
| `Routing.WritesAtOwner` | redis/redis-6.2.7/src/cluster.c:5910-5928 | a write, also one queued in a transaction, is served only by the owner of the slot, unless it is a MIGRATE or the client says ASKING |
| `Routing.ReplicaServesReads` | redis/redis-6.2.7/src/cluster.c:5910-5922 | a replica serves a READONLY read if and only if the slot is its master's |
| `Resharding.StepKeeps` | redis/redis-6.2.7/src/cluster.c:4597-4675 | opening, moving keys, closing, client requests and expiry keep the two nodes' keys disjoint and the stages in order |
| `Resharding.AtMostOneHolder` | redis/redis-6.2.7/src/cluster.c:4597-4675 | from an unopened slot, in every state of every run a key is held by at most one of the two nodes |
| `Resharding.NeverSplit` | redis/redis-6.2.7/src/cluster.c:5842-5928 | after any such run, a request is never served while the other node holds one of its keys, so no multi-key request runs with its keys split |
| `Resharding.StepOnward` | redis/redis-6.2.7/src/cluster.c:4597-4675 | no event leads back: once the source has lost a key it never gets it again, and once the target owns the slot it stays so |
| `Resharding.TwoRedirections` | redis/redis-6.2.7/src/cluster.c:5842-5928 | whatever happens between a client's questions, a single-key request is served after at most two redirections, and the node that does not serve it does not hold the key at that moment |
| `Resharding.CanFinish` | redis/redis-6.2.7/src/cluster.c:4597-4675 | at any time in any run the move can still be finished by the operator alone; then both nodes give the slot to the target, which has every key that was in it |
| `Resharding.OpenedInTheWrongOrder` | redis/redis-6.2.7/src/cluster.c:5842-5928 | while the source is open and the target is not, a request for a key the source lacks is redirected for ever, whatever happens meanwhile |
| `Resharding.ServedWhenOpenExactly` | redis/redis-6.2.7/src/cluster.c:5842-5928 | with the source open, a single-key request is served if and only if the source still holds the key or the target is open too |
| `Resharding.UnsolicitedAsking` | redis/redis-6.2.7/src/cluster.c:5896-5909 | a run in which ASKING without a redirection lets the target create a key that the source still holds |
| `Resharding.AskingSafeExactly` | redis/redis-6.2.7/src/cluster.c:5896-5909 | a request with ASKING that the target serves keeps the two nodes apart, whatever it does to its keys, if and only if the source would not have served it |
| `AofFormat.CatAppendOnlyGenericCommand` | redis/redis-6.2.7/src/aof.c:552-575 | the loops append exactly the encoding of the command |
| `AofFormat.EncodeAllSplit` | redis/redis-6.2.7/src/aof.c:552-575 | the encoding of a sequence of commands is the concatenation of its parts |
| `AofFormat.FGets` | redis/redis-6.2.7/src/aof.c:822-843 | reads up to and including the next newline, the buffer size, or the end |
| `AofFormat.LoadAppendOnlyFile` | redis/redis-6.2.7/src/aof.c:753-971 | the loader's loops compute the functional reading of the log |
| `AofFormat.CommandRead` | redis/redis-6.2.7/src/aof.c:822-868 | an encoded command is read back as the command, wherever it stands in the log |
| `AofFormat.CommandCut` | redis/redis-6.2.7/src/aof.c:822-936 | a command cut anywhere inside is recognised as short, never as a format error |
| `AofFormat.LoadOfPrefix` | redis/redis-6.2.7/src/aof.c:814-963 | loading any prefix of a log runs exactly the complete commands in it and ends as specified |
| `AofFormat.PlainPrefix` | redis/redis-6.2.7/src/aof.c:814-963 | without transactions: the complete commands are executed and the log is cut back to exactly them |
| `AofFormat.InsideTransaction` | redis/redis-6.2.7/src/aof.c:879-902 | inside an open transaction nothing is executed and the position before it is remembered |
| `AofFormat.OpenTransactionRollsBack` | redis/redis-6.2.7/src/aof.c:905-957 | a log that ends between the commands of an open transaction is cut back to before it |
| `AofFormat.LeftOpenExactly` | redis/redis-6.2.7/src/aof.c:905-957 | an open transaction is left in the log exactly when the log ends in the middle of a command |
| `AofFormat.CutInsideTransaction` | redis/redis-6.2.7/src/aof.c:905-957 | cutting any command of any open transaction in two leaves the log inside the transaction, of which nothing has been executed |
| `AofFormat.LeftOpenLog` | redis/redis-6.2.7/src/aof.c:905-957 | a concrete log with which that happens |
| `AofLoading.StrictExactly` | redis/redis-6.2.7/src/aof.c:928-971 | whatever the bytes: without aof-load-truncated the server starts exactly with the logs that would be left whole with it, with the same commands executed, and exits where the other would cut |
| `AofLoading.GarbageRefused` | redis/redis-6.2.7/src/aof.c:822-831 | after any commands, text that does not start as a command stops the server, and the log is not cut |
| `AofLoading.ArgumentRefused` | redis/redis-6.2.7/src/aof.c:841-852 | so does an argument that is not announced by its length |
| `AofLoading.UnknownRefused` | redis/redis-6.2.7/src/aof.c:870-877 | so does a command the server does not know |
| `AofLoading.NulExactly` | redis/redis-6.2.7/src/aof.c:824-832 | a star followed by a NUL counts as a cut log if only the end of the file ended the line, and stops the server otherwise |
| `AofLoading.NumberRead` | redis/redis-6.2.7/src/aof.c:832-853 | counts and lengths are read as atoi and strtol read them |
| `AofLoading.EmptyExactly` | redis/redis-6.2.7/src/aof.c:768-776 | only an empty file counts as no log |
| `AofLoading.OpenExactly` | redis/redis-6.2.7/src/aof.c:879-890 | the loader is inside a transaction exactly after a MULTI that no EXEC follows |
| `AofLoading.TransactionRuns` | redis/redis-6.2.7/src/aof.c:879-890 | a complete transaction is executed as a whole and in order |
| `AofWriter.Writer.Feed` | redis/redis-6.2.7/src/aof.c:613-679 | appending to the buffer keeps: file and buffer together are everything fed, in order |
| `AofWriter.Writer.Write` | redis/redis-6.2.7/src/aof.c:322-339 | retried and short writes put exactly a prefix of the buffer into the file |
| `AofWriter.WrittenExactly` | redis/redis-6.2.7/src/aof.c:322-339 | retrying writes as much as the calls take before one fails, and fails only if that is nothing |
| `AofWriter.Writer.Flush` | redis/redis-6.2.7/src/aof.c:360-550 | every outcome of a flush: postponed, complete, failed and truncated back, or short; nothing is lost, duplicated or reordered |
| `AofWriter.Writer.TryFsync` | redis/redis-6.2.7/src/aof.c:518-550 | under every policy: when the file is synced and up to where, when the time of the last sync moves, and that the process stops exactly on a failed sync under policy "always" |
| `AofWriter.RewriteBuffer.Append` | redis/redis-6.2.7/src/aof.c:125-171 | appending across blocks extends the contents by exactly the string |
| `AofWriter.RewriteBuffer.SendDiff` | redis/redis-6.2.7/src/aof.c:95-122 | what is sent is a prefix, what remains is the rest |
| `AofWriter.RewriteBuffer.WriteAll` | redis/redis-6.2.7/src/aof.c:176-196 | everything is written, or a prefix and failure is reported |
| `AofRewrite.SelectText` | redis/redis-6.2.7/src/aof.c:613-630 | the SELECT written by hand is the encoding of the command |
| `AofRewrite.EntriesReplay` | redis/redis-6.2.7/src/aof.c:613-679 | with SELECT inserted when the database changes, replay applies the command in the database it ran in |
| `AofRewrite.ConservedStep` | redis/redis-6.2.7/src/aof.c:95-196 | at every step of parent and child: difference read, in the pipe and in the blocks make up exactly the stream since the fork |
| `AofRewrite.StepKeeps` | redis/redis-6.2.7/src/aof.c:1603-1645 | every interleaving of execution, flushing, forking, sending, reading and installing keeps the log faithful |
| `AofRewrite.RunInv` | redis/redis-6.2.7/src/aof.c:1546-2010 | so does every run |
| `AofRewrite.LoadReplays` | redis/redis-6.2.7/src/aof.c:814-963 | a log that does not end inside a transaction, whatever transactions it contains: the commands the loader executes rebuild what the whole log rebuilds |
| `AofRewrite.LogRebuildsData` | redis/redis-6.2.7/src/aof.c:1851-2010 | at any time outside a transaction, loading file and buffer and replaying gives the current data set, before and after installing a rewrite |
| `AofHandshake.AlwaysLive` | redis/redis-6.2.7/src/aof.c:1600-1625 | in every state of every run the request to stop, its answer and the phase of the child fit together |
| `AofHandshake.CanInstall` | redis/redis-6.2.7/src/aof.c:1546-1660 | in every state of a rewrite there are steps of the two processes that end with the new log in place, holding the snapshot and exactly what was fed since, unless an answer was lost |
| `AofHandshake.StuckForGood` | redis/redis-6.2.7/src/aof.c:1606-1614 | when the answer was lost, no step but abandoning ends the wait |
| `AofHandshake.StartAgain` | redis/redis-6.2.7/src/aof.c:1763-1835 | a rewrite can be abandoned at any time without effect on data and log, and a new one started |
| `AofHandshake.OffLogsNothing` | redis/redis-6.2.7/src/aof.c:665-679 | while the log is off nothing is logged until a rewrite is installed |
| `AofHandshake.CanFlush` | redis/redis-6.2.7/src/aof.c:360-550 | everything logged can be brought to the file |
| `Acl.ApplyKeeps` | redis/redis-6.2.7/src/acl.c:893-1014 | every accepted rule keeps what the printer relies on: exclusive flags, distinct entries, unused bits equal to the reserved bit, subcommands only under denied commands |
| `Acl.ParsePrint` | redis/redis-6.2.7/src/acl.c:893-1014 | the text of a printed rule is read back as that rule |
| `Acl.SetCategoryOk` | redis/redis-6.2.7/src/acl.c:414-429 | setting a whole category keeps the bitmap and subcommand invariants |
| `AclUser.UserObject.AddAllowedSubcommand` | redis/redis-6.2.7/src/acl.c:712-739 | the list grows by the subcommand unless it is there already in any case |
| `AclUser.UserObject.SetCommandBitsForCategory` | redis/redis-6.2.7/src/acl.c:414-429 | the loop over the command table sets exactly the bits of the category, modules excepted |
| `AclRules.CategoryBits` | redis/redis-6.2.7/src/acl.c:414-430 | after a rule for a category, the bit of every command is the given one if the command is in the category and of no module, and as before otherwise; exactly its lists of subcommands go |
| `AclRules.RefusedExactly` | redis/redis-6.2.7/src/acl.c:946-999 | a rule about commands is refused exactly when it names an unknown command or category, or an empty subcommand |
| `AclRules.CheckCommandPerm` | redis/redis-6.2.7/src/acl.c:1179-1212 | the check before a command, with its loop over subcommands, allows exactly what the rights allow |
| `AclRules.RuleDecides` | redis/redis-6.2.7/src/acl.c:840-1010 | after a rule, a command with its first argument may be run as the rule says, and as before where it says nothing |
| `AclRules.LastRuleWins` | redis/redis-6.2.7/src/acl.c:840-1010 | over any list of rules the last one that concerns a command decides |
| `AclRules.AlwaysCached` | redis/redis-6.2.7/src/acl.c:397-406 | the flag for all commands is never set while a command is denied |
| `AclRules.PermissionsSurvive` | redis/redis-6.2.7/src/acl.c:464-580 | a user rebuilt from its printed rules may run exactly what it could before, although that flag is not printed |
| `AclRules.NothingNeedless` | redis/redis-6.2.7/src/acl.c:540-580 | after the categories the printer mentions only commands whose bit is wrong, and subcommands that are allowed |
| `AclRules.CheckCredentials` | redis/redis-6.2.7/src/acl.c:1068-1103 | the login check, with its loop over passwords: enabled, and no password needed or one that matches |
| `AclRules.LoginExactly` | redis/redis-6.2.7/src/acl.c:868-911 | for every rule, who can log in afterwards |
| `AclRules.PasswordRefused` | redis/redis-6.2.7/src/acl.c:874-911 | a rule about passwords is refused exactly for a malformed hash or when there is nothing to take away |
| `AclRules.LettersExactly` | redis/redis-6.2.7/src/acl.c:179-212 | hashes are 64 lower-case hexadecimal digits; which characters count as blanks |
| `AclRules.AddThenDelete` | redis/redis-6.2.7/src/acl.c:874-911 | adding a new password and deleting it leaves the account as it was, but for the flag that none is needed |
| `AclRules.PatternsExactly` | redis/redis-6.2.7/src/acl.c:912-945 | patterns for keys and channels are refused while everything is open; otherwise exactly the one is added |
| `AclRules.ClearedThenAdded` | redis/redis-6.2.7/src/acl.c:840-945 | clearing patterns makes room for new ones and forgets the others |
| `AclRules.ResetForgets` | redis/redis-6.2.7/src/acl.c:1000-1010 | whatever a user was, a reset and the printed rules of another make it that other |
| `AclRules.CaseIgnored` | redis/redis-6.2.7/src/acl.c:825-873 | words for rules mean the same in any case |
| `AclRules.Spellings` | redis/redis-6.2.7/src/acl.c:840-867 | four rules have a second spelling |
| `AclUser.UserObject.CountCategoryBits` | redis/redis-6.2.7/src/acl.c:435-455 | counts the commands of a category that are on and off |
| `AclUser.UserObject.SetUser` | redis/redis-6.2.7/src/acl.c:825-1014 | one textual rule changes the user as specified or fails with the right error and changes nothing |
| `AclUser.UserObject.BestCategory` | redis/redis-6.2.7/src/acl.c:512-537 | the loop picks an unused category with more right than wrong commands, fewest wrong, then most right, or none if there is none |
| `AclUser.UserObject.DescribeCommandRules` | redis/redis-6.2.7/src/acl.c:464-603 | the greedy loop ends, and the bitmap comparison that would panic always succeeds |
| `AclUser.UserObject.DescribeUser` | redis/redis-6.2.7/src/acl.c:611-670 | the text printed is that of the rules of the user for some choice of categories |
| `AclDescribe.RightsRoundTrip` | redis/redis-6.2.7/src/acl.c:464-603 | whatever categories are chosen, replaying the command rules on any user gives exactly the bitmap and the subcommands |
| `AclDescribe.ProfileRoundTrip` | redis/redis-6.2.7/src/acl.c:611-670 | replaying the other rules on a new user gives flags, passwords, key patterns and channels; on a reset user the same, but for the mark of the reset |
| `AclDescribe.RoundTrip` | redis/redis-6.2.7/src/acl.c:611-670 | replaying all printed rules on a new or reset user gives the user, up to the cached all-commands flag and that mark |
| `AclDescribe.Reachable` | redis/redis-6.2.7/src/acl.c:825-1014 | every user that textual rules can produce satisfies the invariant |
| `AclDescribe.PrintedRulesRestore` | redis/redis-6.2.7/src/acl.c:611-1014 | set up by any accepted rules, print, set up a new user from the text: the same user |
| `AclUser.DescribedUserRestored` | redis/redis-6.2.7/src/acl.c:611-1014 | the texts the printing loops produce for any user that rules have set up set up the same user again |
| `AclDescribe.TextsClean` | redis/redis-6.2.7/src/acl.c:464-603 | of the texts printed for a user none is spoilt in a file exactly when no subcommand is |
| `AclFile.SdsTrim` | redis/redis-6.2.7/src/sds.c:747-760 | the two loops give the text without the given characters at either end |
| `AclFile.SdsSplit` | redis/redis-6.2.7/src/sds.c:862-910 | the loop gives the pieces between separators |
| `AclFile.ReadUsers` | redis/redis-6.2.7/src/acl.c:1502-1598 | the file is taken apart into lines and words as specified, blank lines being skipped |
| `AclFile.ReadsClean` | redis/redis-6.2.7/src/acl.c:1502-1598 | no rule read from any file contains a blank or a newline or begins or ends in a tab or return |
| `AclFile.ReadSavedExactly` | redis/redis-6.2.7/src/acl.c:1502-1695 | a file of users is read back as it was written if and only if every rule in it is of that kind |
| `AclFile.TrialSuffices` | redis/redis-6.2.7/src/acl.c:1587-1621 | rules that the trial on a reset user accepts are accepted by the real user too, as the program asserts |
| `AclFile.LoadExactly` | redis/redis-6.2.7/src/acl.c:1502-1650 | a file is loaded if and only if every line is in order, and then as a whole: every user is what the last line with its name makes of a new or reset user |
| `AclFile.DefaultByRules` | redis/redis-6.2.7/src/acl.c:1045-1052 | the default user that loading starts from is a new user given five rules |
| `AclFile.NameNotTrimmed` | redis/redis-6.2.7/src/acl.c:1540-1600 | rules are trimmed but names are not: a blank other than a space in a name spoils the file |
| `AclFile.LoadedClean` | redis/redis-6.2.7/src/acl.c:1502-1621 | so every user loaded from any file has only subcommands of that kind |
| `AclFile.SaveLoadExactly` | redis/redis-6.2.7/src/acl.c:1502-1695 | loading the saved file gives every user back if and only if no allowed subcommand contains a blank or a newline or ends in a tab or return |
| `AclFile.SpoiltUser` | redis/redis-6.2.7/src/acl.c:946-985 | every other non-empty subcommand can be allowed, for every command |
| `AdList.List.AddNodeHead` | redis/redis-6.2.7/src/adlist.c:89-107 | a new node in front; all other nodes stay, in order |
| `AdList.List.AddNodeTail` | redis/redis-6.2.7/src/adlist.c:115-133 | a new node at the end; all other nodes stay, in order |
| `AdList.List.InsertNode` | redis/redis-6.2.7/src/adlist.c:135-162 | a new node before or after the given one |
| `AdList.List.DelNode` | redis/redis-6.2.7/src/adlist.c:168-181 | exactly the given node goes; the links of the rest form a list |
| `AdList.List.RotateTailToHead` | redis/redis-6.2.7/src/adlist.c:331-343 | the last node becomes the first and is still the same node |
| `AdList.List.RotateHeadToTail` | redis/redis-6.2.7/src/adlist.c:346-358 | the first node becomes the last and is still the same node |
| `AdList.List.SearchKey` | redis/redis-6.2.7/src/adlist.c:291-309 | the first node that matches, or none |
| `AdList.List.Index` | redis/redis-6.2.7/src/adlist.c:316-328 | the node at an index from either end, or none outside |
| `AdList.ChainDrop` | redis/redis-6.2.7/src/adlist.c:168-181 | unlinking a node gives a well-linked list without it |
| `AdList.ChainInsert` | redis/redis-6.2.7/src/adlist.c:135-162 | linking a node in gives a well-linked list with it |
| `BlockingIndex.LinkedAdd` | redis/redis-6.2.7/src/blocked.c:657-688 | blocking on one more key keeps both directions of the index in agreement and appends the client to that queue |
| `BlockingIndex.LinkedRemove` | redis/redis-6.2.7/src/blocked.c:703-715 | removing a client through its stored node keeps the agreement, takes exactly that client out, and drops an empty queue |
| `BlockingIndex.LinkedRotate` | redis/redis-6.2.7/src/blocked.c:281-286 | rotating a queue leaves every stored node valid |
| `BlockingIndex.TwoWay` | redis/redis-6.2.7/src/blocked.c:647-728 | a client is in a queue exactly once if it waits for the key and otherwise not at all; its stored node is that occurrence |
| `BlockingIndex.Index.AddWait` | redis/redis-6.2.7/src/blocked.c:673-687 | through the linked lists in memory: the client is appended to the list of the key, which is created if need be, its node is remembered, and every other list is untouched |
| `BlockingIndex.Index.RemoveWait` | redis/redis-6.2.7/src/blocked.c:706-712 | the remembered node is unlinked, an empty list is given up, and every other list is untouched |
| `BlockingIndex.Index.BlockForKeys` | redis/redis-6.2.7/src/blocked.c:647-690 | the client joins the end of the queue of each key once, however often a key is named; counters follow |
| `BlockingIndex.Index.UnblockClient` | redis/redis-6.2.7/src/blocked.c:179-213 | the client leaves all its queues, nobody else moves, empty queues disappear; counters follow |
| `BlockingIndex.Index.RotateHeadToTail` | redis/redis-6.2.7/src/blocked.c:281-286 | the first node of the list becomes the last and every remembered node is still in place |
| `BlockingIndex.ReasonsAddUp` | redis/redis-6.2.7/src/blocked.c:89-106 | the per-type counts add up to the number of blocked clients |
| `Blocked.Scheduler.Signal` | redis/redis-6.2.7/src/blocked.c:747-783 | by the counters of blocked clients: a key is queued as ready exactly when somebody is blocked on lists or by a module, somebody waits for the key, and it is not queued yet |
| `Blocked.Scheduler.BlockClient` | redis/redis-6.2.7/src/blocked.c:647-690 | a client that blocks joins the queues of its keys in the index, as specified |
| `Blocked.Scheduler.UnblockClient` | redis/redis-6.2.7/src/blocked.c:179-213 | a client that is unblocked leaves the index, as specified |
| `Blocked.IndexWf` | redis/redis-6.2.7/src/blocked.c:647-728 | a sound index makes the queues and the waiting clients agree |
| `Blocked.Scheduler.ServeClient` | redis/redis-6.2.7/src/blocked.c:290-318 | pop, deliver or move or put back, and unblock, with the data and the answer that `Delivery.ServeExactly` describes |
| `Blocked.Scheduler.ServeClientsBlockedOnListKey` | redis/redis-6.2.7/src/blocked.c:267-328 | the loop over the linked list serves the queue as specified and never looks at an empty or deleted list |
| `Blocked.Scheduler.HandleClientsBlockedOnKeys` | redis/redis-6.2.7/src/blocked.c:565-618 | the work loop ends, although serving can make keys ready, and leaves nobody waiting for a list with elements |
| `Blocked.LoopSettles` | redis/redis-6.2.7/src/blocked.c:267-328 | after one key is worked off, its list is empty or no client that wants a list queues for it; other keys that could serve are marked |
| `Blocked.HandleSettles` | redis/redis-6.2.7/src/blocked.c:565-618 | when no key is ready any more, no client that wants a list waits for a list with elements |
| `Blocked.ServedInOrder` | redis/redis-6.2.7/src/blocked.c:267-328 | clients that pop are answered in queue order, one element each, from the end they asked for |
| `Blocked.FirstComeFirstServed` | redis/redis-6.2.7/src/blocked.c:267-328 | exactly the first min(clients, elements) of them are answered, and no others |
| `Delivery.ServeExactly` | redis/redis-6.2.7/src/t_list.c:882-933 | serving one client: which element it gets, or where the element is put; the target may be the list itself or not exist; a target of the wrong type leaves all data as it was |
| `Delivery.MoveWithin` | redis/redis-6.2.7/src/t_list.c:882-933 | a move within one list turns it by one or leaves it as it is |
| `Delivery.AnsweredInOrder` | redis/redis-6.2.7/src/blocked.c:267-328 | whatever they asked for, clients are answered in the order of the queue, each once, and all of them unless the list runs out |
| `Delivery.ServeConserves` | redis/redis-6.2.7/src/blocked.c:290-318 | serving a client keeps every element in some list or with a client |
| `Delivery.HandleConserves` | redis/redis-6.2.7/src/blocked.c:565-618 | however many rounds the work loop takes, every element is in the lists and with clients as often as before |
| `Delivery.NothingLost` | redis/redis-6.2.7/src/blocked.c:565-618 | from an empty server, after any commands and any work: every element is in the lists, with clients or deleted by a command, together exactly as often as it was pushed |
| `ReadyKeys.WokenExactly` | redis/redis-6.2.7/src/blocked.c:747-783 | a push makes a key ready exactly if it creates the key, somebody waits for it, and it is not queued already |
| `ReadyKeys.NeverTwice` | redis/redis-6.2.7/src/blocked.c:747-783 | in every run no key is queued twice, and the look-up knows exactly the queued keys |
| `Blocked.StepInv` | redis/redis-6.2.7/src/blocked.c:747-783 | every command keeps the marking invariant, provided an existing key is not overwritten by a list that somebody waits for |
| `Blocked.OverwriteExactly` | redis/redis-6.2.7/src/blocked.c:747-783 | overwriting a key by a list leaves everybody settled if and only if nobody waits for a list there |
| `Blocked.ReplacedUnnoticed` | redis/redis-6.2.7/src/blocked.c:747-783 | a concrete run in which an overwritten key leaves a client waiting for a list with an element |
| `Blocked.NoLostWakeups` | redis/redis-6.2.7/src/blocked.c:565-618 | from an empty server, after any commands, whenever the work loop has just run nobody waits for a list with elements |
| `Blocked.JoinIsEnqueue` | redis/redis-6.2.7/src/blocked.c:657-688 | blocking on a list of keys is joining the queues of the set of keys |
| `Popcount.BytesCount` | redis/redis-6.2.7/src/bitops.c:63-84 | the three masked steps on a 32-bit word leave in every byte the number of bits it had |
| `Popcount.SevenWords` | redis/redis-6.2.7/src/bitops.c:59-86 | adding seven reduced words and multiplying gives, in the top byte, the number of bits of all seven |
| `Popcount.RedisPopcount` | redis/redis-6.2.7/src/bitops.c:40-92 | the whole count, for any alignment, is the number of bits set |
| `BitScan.LoadBytes` | redis/redis-6.2.7/src/bitops.c:143-155 | the last word is the remaining bytes from left to right, followed by zeros |
| `BitScan.RedisBitpos` | redis/redis-6.2.7/src/bitops.c:101-186 | the first matching bit, or -1 for ones and the length for zeros; the panic at the end is never reached |
| `BitScan.SlowByte` | redis/redis-6.2.7/src/bitops.c:728-753 | the early exits do not change the byte computed |
| `BitScan.WordsAreBytes` | redis/redis-6.2.7/src/bitops.c:668-722 | an operation on whole words is the operation on each byte |
| `BitScan.Bitop` | redis/redis-6.2.7/src/bitops.c:593-780 | fast and slow path together give, for every position, the combination of the bytes there, missing bytes being zero |
| `BitScan.OutputMeans` | redis/redis-6.2.7/src/bitops.c:728-753 | a bit of the result is set if and only if all, some or an odd number of the sources have it, or the only source has not |
| `BitScan.Sources` | redis/redis-6.2.7/src/bitops.c:629-656 | lengths and contents of the sources; a missing key is an empty string |
| `Bitfield.GetUnsignedBitfield` | redis/redis-6.2.7/src/bitops.c:229-241 | reads the number whose binary digits are the field |
| `Bitfield.GetSignedBitfield` | redis/redis-6.2.7/src/bitops.c:243-263 | reads the field as a two's complement number |
| `Bitfield.GetThroughBuffer` | redis/redis-6.2.7/src/bitops.c:1125-1147 | reading through a zero-filled nine-byte buffer gives the same as reading the string padded with zeros |
| `Bitfield.SetUnsignedBitfield` | redis/redis-6.2.7/src/bitops.c:209-222 | afterwards the field holds the value modulo its size and no bit outside has changed |
| `Bitfield.SetSignedBitfield` | redis/redis-6.2.7/src/bitops.c:224-227 | the same for signed values |
| `Bitfield.UnsignedExact` | redis/redis-6.2.7/src/bitops.c:288-323 | up to 63 bits the unsigned overflow check gives the right verdict and limit for every increment |
| `Bitfield.UnsignedExactAt64` | redis/redis-6.2.7/src/bitops.c:288-323 | at 64 bits, which the command refuses, it errs exactly on positive increments of values below 2^63 and negative ones of values above 2^63 |
| `Bitfield.SignedExact` | redis/redis-6.2.7/src/bitops.c:325-377 | the signed overflow check gives the right verdict and limit up to 64 bits |
| `Bitfield.WrapSignedIsWrapped` | redis/redis-6.2.7/src/bitops.c:351-377 | the shifting and masking of the wrap case computes the two's complement remainder |
| `Bitfield.SetSaturatesExactly` | redis/redis-6.2.7/src/bitops.c:325-377 | with a zero increment (SET) the check is right exactly when the distance to the maximum fits in 64 bits |
| `Bitfield.SetSaturatesWrongWay` | redis/redis-6.2.7/src/bitops.c:325-377 | a concrete SET that saturates to the maximum instead of the minimum |
| `Bitfield.IncrBy` | redis/redis-6.2.7/src/bitops.c:1044-1113 | the field is incremented, wrapped, saturated or left alone as its policy says; nothing else changes |
| `Crc64.CrcReflect` | redis/redis-6.2.7/src/crc64.c:69-78 | reverses the bits of a word |
| `Crc64.Crc64Reference` | redis/redis-6.2.7/src/crc64.c:88-111 | the bit-by-bit loop computes the bitwise definition |
| `Crc64.BitwiseIsCrc` | redis/redis-6.2.7/src/crc64.c:88-111 | the bitwise definition is the reflected shift register, fed byte by byte |
| `Crc64.CrcConcat` | redis/redis-6.2.7/src/crc64.c:121-123 | the checksum of a concatenation continues the checksum of the first part |
| `Crc64.LookupStep` | redis/redis-6.2.7/src/crcspeed.c:33-50 | eight shifts are one table lookup |
| `Crc64.InitLittle` | redis/redis-6.2.7/src/crcspeed.c:33-50 | all eight rows of the table are the registers they stand for |
| `Crc64.InitBig` | redis/redis-6.2.7/src/crcspeed.c:87-95 | the big-endian table is the same with bytes reversed |
| `Crc64.FeedBySlices` | redis/redis-6.2.7/src/crcspeed.c:112-144 | eight bytes at once are eight lookups combined |
| `Crc64.CrcSpeed64Little` | redis/redis-6.2.7/src/crcspeed.c:112-144 | slicing by eight gives the checksum, for any alignment |
| `Crc64.CrcSpeed64Big` | redis/redis-6.2.7/src/crcspeed.c:183-213 | so does the big-endian form |
| `Crc64.Crc64Native` | redis/redis-6.2.7/src/crcspeed.c:253-275 | on either byte order the fast checksum is the reference checksum |
| `CrcRemainder.ChecksumIsRemainder` | redis/redis-6.2.7/src/crc64.c:88-111 | the bit-by-bit checksum is the remainder of the message, as a polynomial over GF(2), in the division by the generator, and the only word that is |
| `CrcRemainder.BurstNoticed` | redis/redis-6.2.7/src/crc64.c:121-123 | messages that differ only within eight consecutive bytes have different checksums |
| `CrcRemainder.LeadingZeros` | redis/redis-6.2.7/src/crc64.c:121-123 | zero bytes in front of a message do not change the checksum |

## Left out

- `ClusterState.Cluster.UpdateSlotsConfigWith` and the packets that lead to it are modelled for nodes that are masters or know their master; a replica without a known master would follow a null pointer there, and no modelled step leads to one.
- `Election.ElectionSafety`: assumes that no acknowledgement is counted between re-arming and asking, because it is false otherwise; see `SplitElection.UntimelyBusSplits`.
- `MasterChange.AssertionFailsExactly`: runs go on after a failed assertion as if it had not been there, which only adds runs; the stopped node and its restart from the saved configuration are not modelled.
- `AofRewrite.LogRebuildsData`: says nothing of moments inside a transaction, when the loader goes back to before it; see `AofFormat.OpenTransactionRollsBack`. MULTI and EXEC are taken to change no data themselves.
- `Blocked.StepInv`: assumes that an existing key is not overwritten by a list that somebody waits for, because it is false otherwise; see `Blocked.OverwriteExactly`.
- `Resharding.AtMostOneHolder`: assumes that clients say ASKING only for a request that the source has redirected or would not serve just then, because it is false otherwise; see `Resharding.AskingSafeExactly`. It takes the move of one key by MIGRATE, including its acknowledgement, as one step; the reply loop of MIGRATE is not modelled.
- Cluster: gossip sections, handshakes, the blacklist, failure reports and their counting (a node is simply flagged as failed), manual-failover timing, which replica moves to an orphaned master and when (any may, at any time), FLUSHSLOTS, hard reset, deletion of keys in slots that were lost, publish and module packets, node addresses, the links themselves.
- Configuration file: everything but the slot ranges; a slot that is both importing and migrating is printed as migrating only.
- Append-only log: the RDB preamble, translation of relative to absolute expiry times, the switch to and from AOF_OFF, fsync in threads, the rewriting of a data set into commands (the base file is any text that rebuilds the data), overflow of numbers in the log beyond 19 digits, running out of memory on the length of an argument.
- Access rules: NUL bytes inside a rule (the program reads rules and the file as C strings), names of module commands that contain white space, users listed in the configuration file, the selection of a user, the check of keys and channels against patterns, the ACL log, command ids handed out to modules later.
- Blocked clients: sorted sets, streams and module types (their clients stay in the queues, in order), timeouts as such, replication of the commands served, the list of paused clients.
- Linked list: listJoin, listDup and the free, dup and match callbacks, which add nothing to the index.
- Bits: the table with the bit counts of single bytes is taken to be that; getting and setting single bits, parsing of arguments, growth of strings.
- The benchmark scripts around the server, which start processes and measure.
