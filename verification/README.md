# A verified model of pbft-cosmos

This project models, in Dafny, the consensus engine of a Go implementation of Practical Byzantine Fault Tolerance
(Castro and Liskov, OSDI 1999), together with its mempool, its Merkle root and signature encoding, and its block
synchronisation, and proves what these parts promise.

`dafny verify dfyconfig.toml` checks everything.

## What is modelled

**The engine** (`consensus/pbft`). Objects that the program updates in place are classes: `State` and `StateLog`
(phase machine, vote maps, watermark window, garbage collection), `ViewChangeManager` (vote table, building and
checking NEW-VIEW messages) and `EngineV2` (all handlers). Each method is proved against a step on plain values
(`EngineRules`, `ViewChangeRules`). Runs are made of those steps:

* `TurnLaws` says of a single step, event by event, what every field, message and execution is afterwards, in terms of
  the event and the fields before;
* `NodeRuns`, `Provenance`, `ExecutionRuns` and `ForgottenExecutions` speak of one node to which *any* messages may be
  delivered;
* `Network`, `Integrity`, `Preservation`, `Adoption`, `FirstViewChange` and `SecondExecution` speak of a whole system of
  nodes with a growing set of messages, any of which may reach any node any number of times, in any order, or never.
  Every message in the set was produced by a handler, so faults are crashes and omissions.

One handler call is one atomic step, as the program's single loop makes it. The application (ABCI) is an arbitrary
oracle that may fail at every call; timeouts may happen at any moment; SHA-256 is an arbitrary function.

**The mempool** (`mempool`) is the class `Mempool`: store, sender index, counters, cache of removed transactions and
nonce table. A ghost field keeps the nonces accepted from each sender since the last flush.

**Merkle root and signature encoding** (`crypto`), **sync and the memory store** (`persistence`): the uint64
arithmetic of the sync loop is written out.

## Main results

* *Quorums.* Over n >= 1 validators, any two quorums share f + 1 members if and only if n mod 3 = 1
  (`Quorum.QuorumIntersectionExactly`); any two meet if and only if 2q > n (`Quorum.QuorumsMeetExactly`).
* *NEW-VIEW checking.* The loops of verifyNewViewMsg decide the rule `Acceptable`, in both directions; a message built
  from a quorum of stored votes is accepted if and only if no two certificates in those votes conflict, whatever the
  order in which the vote map is iterated.
* *Preservation.* A number that a quorum reports prepared is re-proposed with the same digest, or covered by a
  checkpoint, by every acceptable NEW-VIEW over votes of distinct validators if and only if 2q > n
  (`ViewChangeRules.PreservationExactly`); with 2q > n this covers, in every run and every view, every acceptable
  NEW-VIEW that was broadcast (`Preservation.PreservedInEveryRun`). A node that *receives* the NEW-VIEW and adopts
  it then has the number pre-prepared; the new primary itself installs nothing
  (`Adoption.NewPrimaryInstallsNothing`). Numbers start at 1; a certificate for number 0, which no handler produces,
  would be dropped, since 0 also stands for "no checkpoint".
* *First view change.* As long as the initial view is in force, every NEW-VIEW that is sent would be adopted by every
  node: certificates cast in view 0 never conflict.
* *Integrity.* In every run and through every view, a block that any node executes under a number was built for that
  number by the primary of the view it names, of exactly what PrepareProposal answered (`Integrity.ExecutedWasProposed`).
  A single node, whatever it receives, holds only blocks that it proposed, that its application accepted, or that came
  with a NEW-VIEW, and records only executions that the application committed (`Provenance.ExecutedWasBrought`).
* *Agreement and execution certificates* in every run in which the initial view stays in force.
* *At most once fails, and exactly when.* Re-proposals are installed without a window check
  (`consensus/pbft/engine_v2.go:817-821`), so a number that was executed and then garbage collected can be executed
  again. `SecondExecution.NumberExecutedTwice` gives a run of any five nodes, made of messages the nodes themselves
  sent, at the end of which one node has executed a block twice under the same number.
  `ForgottenExecutions.AtMostOnceExactly` states the condition for one node that has executed nothing twice so far. Call
  a turn harmful if it adopts a NEW-VIEW that gives a block to an executed number no longer tracked as executed. After
  a harmless turn, no continuation free of harmful turns repeats an execution. After a harmful one, votes alone can make
  the node repeat it, without any further NEW-VIEW; the handlers check neither the senders of votes nor their digests.
  (A harmless turn may of course be followed by a harmful one.)
* *Views* in every run of one node; *watermarks and checkpoints* in every run of one node in which the re-proposals it
  adopts lie inside its window.
* *Mempool.* Every operation keeps the index, the counters and the cache in agreement with the store; evictions take the
  cheapest, only what is cheaper than the newcomer, and no more than needed; a newcomer is rejected if and only if it
  does not fit beside the transactions that are not cheaper; the nonces accepted from a sender are zeros followed by a
  strictly increasing run.
* *Merkle binding.* The loop computes a recursively defined tree; equal roots over equally long lists of 32-byte hashes
  give equal lists or an extracted collision. Lists of different lengths can share a root without one.
* *Signatures.* Encoding inverts decoding on all 64-byte strings; decoding inverts encoding if and only if both numbers
  are natural and below 2^256.
* *Sync.* The loop cuts the gap into batches and ends exactly when the target is `Reachable`
  (`StateSync.BatchesCoverExactly`); targets up to 2^64 - 100 always are. For the others the loop goes back to heights
  it has passed.

Observations about the program, each visible in a contract:

* A rejection by ensureCapacity is not atomic: it costs the pool exactly the transactions that are cheaper than the
  rejected one (`MempoolSpec.RejectedExactly`, with a pool in `MempoolSpec.RejectionCanLose`).
* Stop closes the notification channel for good. In a pool that is started again, every addition that succeeds panics
  with the transaction stored, and so does the next Stop (`Mempools.Mempool.AddTxWithMeta`, `Mempools.Mempool.Stop`).
* Flush forgets nonces but keeps the cache of removed transactions (`Mempools.Mempool.Flush`).
* The new primary broadcasts the NEW-VIEW it built even when its own check refuses it, and does not process its own
  re-proposals (`Engines.EngineV2.BroadcastNewView`).
* SyncFromCheckpoint with an empty checkpoint list always fails with "already in progress"
  (`StateSync.StateSyncer.SyncFromCheckpoint`), against the comment that it then syncs from genesis.
* Sync stops with a nil dereference when the provider sends a nil block; SyncFromCheckpoint returns an error there, but
  dereferences nil checkpoints in the cases `StateSync.NilIsRead` names.
* Signature.Bytes panics for an R of 2^256 or more, but for an S between 2^256 and 2^512 it silently overwrites R, and
  it drops signs (`Signatures.PanicsExactly`, `Signatures.DecodeEncoded`).
* MemoryStore.LoadBlocks does not end when toHeight is 2^64 - 1.

## Model

| member | source | states |
|---|---|---|
| Quorum.QuorumIsAvailable | types/types.go:79-88 | a quorum never needs more than the n - f validators that may be relied on |
| Quorum.FaultsExactly | types/types.go:79-88 | f is the number with 3f + 1 <= n < 3f + 4, and a quorum is 2f + 1 |
| Quorum.QuorumIntersectionExactly | types/types.go:79-88 | any two quorums share at least f + 1 members if and only if n mod 3 = 1 |
| Quorum.QuorumsMeetExactly | types/types.go:79-88 | any two quorums have a member in common if and only if 2q > n |
| StateLogs.State.constructor | consensus/pbft/state.go:70-79 | a new state is idle, without block, votes or execution |
| StateLogs.State.SetPrePrepare | consensus/pbft/state.go:82-89 | the pre-prepare and the block are overwritten and the phase goes back to PrePrepared; votes and the executed flag stay |
| StateLogs.State.AddPrepare | consensus/pbft/state.go:92-97 | one prepare per sender, the last one winning |
| StateLogs.State.AddCommit | consensus/pbft/state.go:100-105 | one commit per sender, the last one winning |
| StateLogs.State.IsPrepared | consensus/pbft/state.go:124-129 | true exactly with a quorum of prepares and phase PrePrepared or later |
| StateLogs.State.IsCommitted | consensus/pbft/state.go:132-137 | true exactly with a quorum of commits and phase Prepared or later |
| StateLogs.State.TransitionToPrepared | consensus/pbft/state.go:140-147 | moves on from PrePrepared only |
| StateLogs.State.TransitionToCommitted | consensus/pbft/state.go:150-157 | moves on from Prepared only |
| StateLogs.State.MarkExecuted | consensus/pbft/state.go:160-165 | sets the executed flag and nothing else |
| StateLogs.StateLog.constructor | consensus/pbft/state.go:193-200 | an empty log with window (0, WindowSize] |
| StateLogs.StateLog.GetState | consensus/pbft/state.go:203-214 | returns the tracked state, or a new one, which is then tracked; all others stay |
| StateLogs.StateLog.GetExistingState | consensus/pbft/state.go:217-222 | returns the tracked state or nil, and creates none |
| StateLogs.StateLog.IsInWindow | consensus/pbft/state.go:225-233 | true exactly for low < seqNum <= high |
| StateLogs.StateLog.AdvanceWatermarks | consensus/pbft/state.go:236-251 | a higher checkpoint moves the window and keeps exactly the states above it; a lower one changes nothing |
| StateLogs.StateLog.CollectGarbage | consensus/pbft/state.go:245-249 | the deletion loop keeps exactly the states above the low-water mark |
| ViewChangeRules.MaxCheckpointIsMax | consensus/pbft/view_change.go:169-176 | the maximum taken over the votes is an upper bound of all checkpoints and is one of them, or 0 |
| ViewChangeRules.FirstCertifiedIsCertified | consensus/pbft/view_change.go:182-193 | the block kept for a number comes from a certificate for that number; none is kept exactly when no certificate names it |
| ViewChangeRules.VotesInOrder | consensus/pbft/view_change.go:169-193 | certificates and checkpoints are met vote by vote, and within a vote in their order |
| ViewChangeRules.BuiltExactly | consensus/pbft/view_change.go:166-206 | without the loops: in ascending order, for each certified number above every checkpoint of the votes and above 0, the proposal of the first certificate met for it |
| ViewChangeRules.AcceptableExactly | consensus/pbft/view_change.go:245-324 | the rule said of the votes, checkpoints and certificates of the message themselves, in both directions |
| ViewChangeRules.ReProposeExactly | consensus/pbft/view_change.go:195-203 | the re-proposals are exactly the certified numbers of the range, each once, in ascending order |
| ViewChangeRules.BuiltMatchesCerts | consensus/pbft/view_change.go:182-205 | over consistent certificates, no re-proposal contradicts a certificate |
| ViewChangeRules.ConsistentIsAcceptable | consensus/pbft/view_change.go:134-324 | what is built over enough votes with consistent certificates is acceptable |
| ViewChangeRules.BuilderAndCheckerAgree | consensus/pbft/view_change.go:134-324 | for every iteration order of a quorum of votes for the view, the message built is acceptable if and only if no two certificates in the votes give one number different digests |
| ViewChangeRules.AcceptedMessagesAgree | consensus/pbft/view_change.go:245-324 | two acceptable messages over the same votes cover the same certified numbers and agree on every certified digest |
| ViewChangeRules.ReportedIsPreserved | consensus/pbft/view_change.go:245-324 | when 2q > n and a quorum reports (s, d), an acceptable message re-proposes s with d only, or carries a checkpoint at or above s |
| ViewChangeRules.PreservationExactly | consensus/pbft/view_change.go:245-324 | every acceptable message over votes of distinct validators preserves whatever a quorum reports if and only if 2q > n |
| ViewChangeRules.DisjointQuorumIsIgnored | consensus/pbft/view_change.go:245-324 | otherwise one quorum's votes make an acceptable message that drops what a disjoint quorum reports |
| ViewChange.FindMaxCheckpoint | consensus/pbft/view_change.go:169-176 | the nested loop computes the largest checkpoint of all votes, 0 without any |
| ViewChange.IndexOfExactly | consensus/pbft/view_change.go:266-289 | an index of the certificates by number exists exactly when no two of them conflict, and then gives each certified number its digest |
| ViewChange.FirstIndexExactly | consensus/pbft/view_change.go:178-193 | what the loop keeps for a number is the first certificate met for it |
| ViewChange.CollectDigests | consensus/pbft/view_change.go:266-289 | the loop stops at a conflict exactly when two certificates conflict, and otherwise indexes every certified number by its digest |
| ViewChange.MatchesPrepared | consensus/pbft/view_change.go:291-304 | true exactly when every re-proposal is above the checkpoint and has the certified digest where there is one |
| ViewChange.CoversPrepared | consensus/pbft/view_change.go:306-321 | true exactly when every certified number above the checkpoint is re-proposed |
| ViewChange.ViewChangeManager.constructor | consensus/pbft/view_change.go:40-49 | view 0, no votes, no change in progress |
| ViewChange.ViewChangeManager.StartViewChange | consensus/pbft/view_change.go:70-103 | a view already reached changes nothing; otherwise the own vote is filed under its view and sender and broadcast |
| ViewChange.ViewChangeManager.HandleViewChange | consensus/pbft/view_change.go:109-128 | files the vote under its view and sender; reports a quorum exactly when the table for that view has one |
| ViewChange.ViewChangeManager.CreateNewViewMsg | consensus/pbft/view_change.go:134-163 | no message exactly without a quorum; otherwise one listing all stored votes, in any order, with the re-proposals computed from them |
| ViewChange.ViewChangeManager.ComputePrePrepareSet | consensus/pbft/view_change.go:166-206 | the loops compute the re-proposals above the largest checkpoint |
| ViewChange.ViewChangeManager.CollectFirst | consensus/pbft/view_change.go:178-193 | the loop finds the largest certified number and, per number, the first certificate |
| ViewChange.ViewChangeManager.HandleNewView | consensus/pbft/view_change.go:209-242 | accepts exactly the acceptable messages; then stores the message, moves to its view and drops the votes up to it |
| ViewChange.ViewChangeManager.VerifyNewViewMsg | consensus/pbft/view_change.go:245-324 | true if and only if: enough votes, all for this view, consistent certificates, nothing re-proposed at or below the largest checkpoint, certified digests matched, every certified number above it covered |
| Engines.EngineV2.constructor | consensus/pbft/engine_v2.go:80-117 | a new engine is in view 0 with nothing proposed, tracked or executed |
| Engines.EngineV2.TakeTurn | consensus/pbft/engine_v2.go:170-185 | a round of the loop, or a timeout, takes exactly the step Next of the event; only the primary proposes |
| Engines.EngineV2.HandleMessage | consensus/pbft/engine_v2.go:197-227 | each kind of message goes to its handler, so that a delivery takes the step Next; the one crash is a proposal without a block that gets past the checks |
| Engines.EngineV2.IsPrimary | consensus/pbft/engine_v2.go:230-236 | true exactly for the validator at view mod n |
| Engines.EngineV2.ProposeBlock | consensus/pbft/engine_v2.go:249-361 | the counter moves first, and nothing else happens outside the window; whatever is sent carries the next block of this primary, holding exactly what PrepareProposal answers to the transactions of the mempool, or else of the request |
| Engines.EngineV2.ProposeTxs | consensus/pbft/engine_v2.go:288-354 | the counter is rolled back exactly when there are no transactions, and nothing is sent then or when PrepareProposal fails |
| Engines.EngineV2.BroadcastProposal | consensus/pbft/engine_v2.go:312-354 | the block holds the given transactions in order, the counted number, the view, this proposer and the last committed hash, and is hashed over just these; it is recorded with the primary's own prepare and broadcast |
| Engines.EngineV2.HandlePrePrepare | consensus/pbft/engine_v2.go:364-452 | ignores wrong sender, wrong view and numbers outside the window; then a proposal without a block crashes, one the application fails on or rejects changes nothing, and an accepted one is recorded with the own prepare, which is broadcast |
| Engines.EngineV2.HandlePrepare | consensus/pbft/engine_v2.go:455-510 | a vote of another view or for an untracked number changes nothing; otherwise it is counted, and the first quorum moves to Prepared and commits with the digest of the message |
| Engines.EngineV2.CountPrepare | consensus/pbft/engine_v2.go:486-503 | the tracked state gains the vote, and on the first quorum becomes Prepared with the own commit |
| Engines.EngineV2.HandleCommit | consensus/pbft/engine_v2.go:513-547 | counts the vote for a tracked number of this view, and on a quorum in phase Prepared executes |
| Engines.EngineV2.CountCommit | consensus/pbft/engine_v2.go:535-541 | the tracked state gains the vote, and on a quorum in phase Prepared becomes Committed |
| Engines.EngineV2.ExecuteBlock | consensus/pbft/engine_v2.go:550-639 | a block is executed exactly if there is one, it was not executed before, and both FinalizeBlock and Commit succeed; then it is appended, the hash answered is kept, and a checkpoint is taken at multiples of the interval; otherwise nothing changes |
| Engines.EngineV2.RecordExecution | consensus/pbft/engine_v2.go:587-599 | the state is marked executed, the block appended, the application hash kept |
| Engines.EngineV2.CreateCheckpoint | consensus/pbft/engine_v2.go:709-747 | stores the hash of the last committed block, drops the smallest checkpoint beyond three, moves the window |
| Engines.EngineV2.OldestCheckpoint | consensus/pbft/engine_v2.go:720-725 | the loop finds the smallest of seqNum and the stored checkpoint numbers |
| Engines.EngineV2.HandleViewChange | consensus/pbft/engine_v2.go:751-780 | ignores votes for views reached; files the others; the primary of a view with a quorum broadcasts NEW-VIEW |
| Engines.EngineV2.BroadcastNewView | consensus/pbft/engine_v2.go:834-849 | broadcasts the message built, and adopts the view exactly if the own check accepts it |
| Engines.EngineV2.HandleNewView | consensus/pbft/engine_v2.go:782-815 | ignores views reached, wrong primaries and unacceptable messages; otherwise adopts the view and installs every re-proposal |
| Engines.EngineV2.ReprocessAll | consensus/pbft/engine_v2.go:811-813 | the loop installs the re-proposals in order and broadcasts one prepare for each |
| Engines.EngineV2.ReprocessPrePrepare | consensus/pbft/engine_v2.go:817-832 | installs one re-proposal under the new view, without a window check and without the own prepare |
| EngineRules.ReprocessAt | consensus/pbft/engine_v2.go:811-832 | after all re-proposals, a number holds the last one for it with its votes and executed flag as before, and other numbers are untouched |
| Engines.EngineV2.StartViewChange | consensus/pbft/engine_v2.go:851-873 | votes for the next view with the checkpoints and prepared certificates held |
| Engines.EngineV2.CollectCheckpoints | consensus/pbft/engine_v2.go:875-888 | lists every stored checkpoint once, in any order |
| Engines.EngineV2.CollectPreparedCertificates | consensus/pbft/engine_v2.go:890-925 | lists, in ascending order, exactly the window's prepared and not yet executed numbers, each with its pre-prepare and all its prepares |
| Engines.EngineV2.Certify | consensus/pbft/engine_v2.go:899-921 | a certificate for a number exactly if it is prepared, not yet executed and has its pre-prepare |
| TurnLaws.FlattenJoins | types/types.go:96-98 | the hashed transactions are joined in order |
| TurnLaws.RequestTurn | consensus/pbft/engine_v2.go:173-184 | a request makes the node send exactly if it is the primary, the next number is in the window, there are transactions and PrepareProposal succeeds; the counter stays exactly without transactions in the window, or at a node that is not primary |
| TurnLaws.ProposalTurn | consensus/pbft/engine_v2.go:249-361 | every field of the block, the message and the state after a proposal: what PrepareProposal answered, next number, view, proposer, last hash, hash over these, own prepare; nothing else changes |
| TurnLaws.PrePrepareTurn | consensus/pbft/engine_v2.go:364-452 | a PRE-PREPARE has an effect exactly if the application accepted it and the sender, view and number are right; then the state takes it with the own prepare, and a PREPARE in the receiver's view is sent; otherwise engine and network are as before |
| TurnLaws.StopsExactly | consensus/pbft/engine_v2.go:364-414 | there is no next state exactly at a proposal without a block from the right sender, for the right view and a number in the window |
| TurnLaws.PrepareTurn | consensus/pbft/engine_v2.go:455-510 | a PREPARE of another view or for an untracked number changes nothing; otherwise one vote is filed, and on a quorum in phase PrePrepared the state becomes Prepared with the own COMMIT, which is sent in the receiver's view |
| TurnLaws.CommitTurn | consensus/pbft/engine_v2.go:513-585 | a COMMIT of another view or for an untracked number changes nothing; a block is executed exactly on a quorum in phase Prepared, once, if FinalizeBlock and Commit succeed; without execution only the vote and the phase change |
| TurnLaws.ExecutionTurn | consensus/pbft/engine_v2.go:550-639 | what an execution changes: the state, the chain, the application hash, and at multiples of the interval the checkpoint, the oldest beyond three, the window and the states it leaves |
| TurnLaws.TimeoutTurn | consensus/pbft/engine_v2.go:851-873 | a timeout sends and files a vote for the next view, with the counter and in the node's name, unless that view is already reached |
| TurnLaws.VoteContents | consensus/pbft/engine_v2.go:875-925 | the vote lists every checkpoint held, once, and in ascending order a certificate for exactly the numbers of the window that are prepared and not executed, with recorded digest, block, primary and prepares, under the present view |
| TurnLaws.ViewChangeTurn | consensus/pbft/engine_v2.go:751-780 | a vote for a view reached changes nothing; others are filed, and the primary of a view with a quorum sends the NEW-VIEW built from the filed votes and moves exactly if it is acceptable |
| TurnLaws.NewViewTurn | consensus/pbft/engine_v2.go:782-815 | a NEW-VIEW moves its receiver exactly if it is for a later view, names validator view mod n and is acceptable; older votes go, and one prepare in the new view answers each re-proposal, in order |
| TurnLaws.InstalledAt | consensus/pbft/engine_v2.go:811-832 | numbers a NEW-VIEW does not name keep their states; the others take the last re-proposal for them, in the new view, with votes and executed flag as before |
| TurnLaws.OtherViewsIgnored | consensus/pbft/engine_v2.go:364-547 | PRE-PREPARE, PREPARE and COMMIT of another view than the receiver's leave engine and network as they were and execute nothing |
| TurnLaws.SentInOwnView | consensus/pbft/engine_v2.go:249-510 | every PRE-PREPARE, PREPARE and COMMIT is sent in the sender's name and in its view after the turn, envelope and payload alike |
| TurnLaws.OnlyDoneExecutes | consensus/pbft/engine_v2.go:550-639 | only a COMMIT that the application answered with a hash executes, one block at a time, and that hash becomes the application hash; other turns leave chain, checkpoints and hash alone |
| NodeRuns.ViewsInEveryRun | consensus/pbft/engine_v2.go:751-815 | in every run the engine's view equals the manager's, votes are kept only for later views under their own view and sender, and every past view has a stored NEW-VIEW that justifies it |
| NodeRuns.ViewsMove | consensus/pbft/engine_v2.go:927-943 | a turn changes the view only to a later one whose stored NEW-VIEW holds a quorum of votes for it and names validator view mod n |
| NodeRuns.ViewsOnlyGrow | consensus/pbft/engine_v2.go:927-943 | in every run the view never decreases |
| Provenance.HeldWasBrought | consensus/pbft/engine_v2.go:249-452 | in every run, every block a node holds under a number was proposed for it by the node itself, accepted for it by its application when the primary of its view sent it, or re-proposed for it by a NEW-VIEW the node moved with |
| Provenance.ExecutedWasBrought | consensus/pbft/engine_v2.go:513-639 | in every run, each entry of the history comes from a turn in which FinalizeBlock and Commit succeeded on that very block, held under that number since an earlier turn that brought it in one of these ways |
| Provenance.ChainIsHistory | consensus/pbft/engine_v2.go:587-599 | in every run the chain is the list of executed blocks, in order, and the application hash is the one answered in the last executing turn, or empty |
| Provenance.KeyedInEveryRun | consensus/pbft/state.go:203-214 | in every run each state is filed under its own number |
| ExecutionRuns.TurnKeeps | consensus/pbft/engine_v2.go:550-639 | every turn that brings back no executed number keeps the execution invariant, and inside the window also the watermark and checkpoint invariant |
| ExecutionRuns.AtMostOnce | consensus/pbft/engine_v2.go:550-639 | in every run none of whose turns brings back an executed number, no number is executed twice, the height is the number of distinct numbers executed, and a tracked executed state holds both quorums |
| ExecutionRuns.Watermarks | consensus/pbft/engine_v2.go:709-747 | in every run with re-proposals inside the window: the low mark is the largest checkpoint ever taken and a multiple of the interval, high is low + WindowSize, tracked numbers lie between and number at most WindowSize, the stored checkpoints are the last three taken with the hashes of the blocks executed there, and the next one is in reach exactly when the interval fits the window |
| ForgottenExecutions.AtMostOnceExactly | consensus/pbft/engine_v2.go:817-832 | for a node that has executed nothing twice: the turn gives a block to no executed number that is not tracked as executed, if and only if no continuation free of such turns repeats an execution, and if and only if no continuation without any further adopted NEW-VIEW does |
| ForgottenExecutions.AtMostOnceInRuns | consensus/pbft/engine_v2.go:817-832 | the same at every turn of every run, up to the first turn that brings back an executed number |
| ForgottenExecutions.InstallForgets | consensus/pbft/engine_v2.go:817-832 | after a turn that does give one a block, votes delivered without any further NEW-VIEW lead to a second execution; their senders and digests are arbitrary, since the handlers check neither |
| SecondExecution.NumberExecutedTwice | consensus/pbft/engine_v2.go:811-832 | for any five distinct validators with interval 1 and any window there is a run, of messages the nodes sent themselves, in which one node executes a block twice under number 1, although any two quorums meet |
| SecondExecution.SecondHalf | consensus/pbft/engine_v2.go:811-832 | from a reached state in which node 0 has executed and discarded number 1 and nodes 1 and 2 are only prepared, a view change leads to the second execution |
| Network.NetInvHolds | consensus/pbft/engine_v2.go:249-547 | in every run in the initial view each normal-case message was produced by a handler, no number was proposed twice, and every vote held was cast for the block held |
| Network.Agreement | consensus/pbft/engine_v2.go:249-547 | any two nodes that executed a number executed the same block, the one the primary broadcast for it |
| Network.CommitsArePrepared | consensus/pbft/engine_v2.go:486-509 | every broadcast commit came from a node that held prepares with that digest from a quorum of members |
| Network.ExecutionCertificate | consensus/pbft/engine_v2.go:455-547 | behind every execution stand broadcast commits of a quorum of members, each of which had held matching prepares from a quorum of members |
| Network.PrimariesRotate | consensus/pbft/engine_v2.go:230-236 | any n consecutive views have n different primaries, and every validator is one of them |
| Integrity.IntegrityInvHolds | consensus/pbft/engine_v2.go:249-925 | in every run and every view, the blocks in logs, histories and certificates of votes were all broadcast in a PRE-PREPARE for the same number |
| Integrity.ExecutedWasProposed | consensus/pbft/engine_v2.go:249-639 | in every run and every view, each executed block was built and broadcast for that number by its proposer, then the primary of the view it names, of exactly what PrepareProposal answered in that turn |
| Integrity.AgreedAsArranged | consensus/pbft/engine_v2.go:249-639 | while the initial view is in force, all nodes execute under a number the block that the primary built of PrepareProposal's answer in one turn |
| Integrity.BroadcastInOwnView | consensus/pbft/engine_v2.go:249-510 | in every run, each PRE-PREPARE, PREPARE and COMMIT names the view and identity of its sender at the turn it is broadcast |
| Integrity.NoneAheadHolds | consensus/pbft/engine_v2.go:364-547 | in every run no proposal or vote in the network is for a view its sender has not reached |
| Integrity.LateVotesIgnored | consensus/pbft/engine_v2.go:455-547 | in every run, delivering a proposal or vote of another view than the receiver's leaves the whole system as it was |
| Preservation.VoteInvHolds | consensus/pbft/view_change.go:70-163 | in every run and view, stored votes were broadcast by their senders, and every NEW-VIEW sent was built from broadcast votes of a quorum of distinct members |
| Preservation.ViewsAreVotedIn | consensus/pbft/view_change.go:209-242 | a node in a later view holds a NEW-VIEW whose votes a quorum of members broadcast for that view |
| Preservation.PreservedInEveryRun | consensus/pbft/view_change.go:134-324 | in every run with 2q > n, what a quorum reports prepared in all its votes for a view is preserved by every acceptable NEW-VIEW broadcast for that view |
| Preservation.PreservedAtReceiver | consensus/pbft/engine_v2.go:782-832 | a node that adopts a NEW-VIEW delivered to it then has the number pre-prepared in the new view with the reported digest, unless a checkpoint covers it |
| Adoption.NewPrimaryInstallsNothing | consensus/pbft/engine_v2.go:834-849 | in every run, a node that changes its view otherwise is the new primary; its log stays as it was, and no number is pre-prepared at it in the new view |
| Adoption.DatedInvHolds | consensus/pbft/engine_v2.go:249-452 | in every run no recorded pre-prepare names a later view than the node's own |
| FirstViewChange.FirstNewViewIsAdopted | consensus/pbft/view_change.go:134-324 | while all nodes are in view 0, every NEW-VIEW sent passes the check of every node and names the right primary |
| FirstViewChange.VotesTracedHolds | consensus/pbft/engine_v2.go:890-925 | while all nodes are in view 0, every certificate in a broadcast vote is for a digest that the primary proposed for that number |
| Mempools.Mempool.constructor | mempool/mempool.go:162-180 | an empty pool that is not running and whose channel is open |
| Mempools.Mempool.Start | mempool/mempool.go:183-199 | the pool is running afterwards |
| Mempools.Mempool.Stop | mempool/mempool.go:202-215 | the pool is not running afterwards; the channel is closed for good, and closing it a second time panics |
| Mempools.Mempool.AddTxWithMeta | mempool/mempool.go:271-361 | the first failing check, in the program's order and in terms of the arguments, decides the error and changes nothing; otherwise the newcomer is stored, with exactly the arguments given, if and only if it fits beside the transactions at its gas price or above; only cheaper ones make room for it, no more than needed; a rejection costs the pool exactly the cheaper ones; a stored one panics if the channel was closed |
| Mempools.Mempool.CheckNew | mempool/mempool.go:276-337 | the checks on a newcomer, in order: running, size, not stored or lately removed, minimum price, nonce above every positive one accepted from the sender, callback |
| Mempools.Mempool.Admit | mempool/mempool.go:339-361 | a checked newcomer is stored exactly if it fits beside what is not cheaper; storing it panics exactly if the channel was closed |
| Mempools.Mempool.CheckNonce | mempool/mempool.go:364-386 | passes exactly the nonces above every positive nonce accepted from the sender |
| Mempools.Mempool.EnsureCapacity | mempool/mempool.go:389-405 | ends; succeeds if and only if the newcomer fits beside the transactions that were not cheaper; everything evicted was strictly cheaper than it and no dearer than any survivor; the last eviction was needed; on failure exactly the cheaper ones are gone |
| Mempools.Mempool.EvictWhileFull | mempool/mempool.go:391-402 | the two eviction loops end with room for the newcomer, or with nothing cheaper left |
| Mempools.Mempool.EvictLowestPriority | mempool/mempool.go:408-440 | removes one cheapest transaction, strictly cheaper than minPrice, or fails exactly because none is |
| Mempools.Mempool.AddTxLocked | mempool/mempool.go:443-467 | adds the transaction and keeps index, counters and nonce table in agreement with it |
| Mempools.Mempool.StoreTx | mempool/mempool.go:445-457 | store, counters and index gain the transaction together |
| Mempools.Mempool.RecordNonce | mempool/mempool.go:459-462 | the nonce table keeps recording the largest positive nonce of each sender's run |
| Mempools.Mempool.IndexTx | mempool/mempool.go:449-457 | the sender's list stays nonce-sorted, free of repeats and complete |
| Mempools.Mempool.RemoveTxLocked | mempool/mempool.go:470-512 | removes the transaction, if stored, from store, index and counters; the cache gains it exactly when asked |
| Mempools.Mempool.UnindexTx | mempool/mempool.go:485-503 | the sender's list loses exactly that transaction, and an emptied list is dropped |
| Mempools.Mempool.ReapMaxTxs | mempool/mempool.go:550-586 | distinct stored transactions, oldest first, none left out older than one returned; as many as asked for, or MaxBatchTxs when max is not between 1 and MaxBatchTxs, or all there are |
| Mempools.Mempool.ReapMaxBytes | mempool/mempool.go:590-613 | the longest prefix of such a batch that fits in maxBytes |
| Mempools.Mempool.Update | mempool/mempool.go:644-669 | exactly the committed transactions are gone and cached, and with rechecking also those the callback refuses, which are not cached |
| Mempools.Mempool.RecheckTxsLocked | mempool/mempool.go:672-694 | keeps exactly what the callback passes; the cache is unchanged |
| Mempools.Mempool.ExpireTxs | mempool/mempool.go:787-807 | keeps exactly the transactions within the time to live and caches the others |
| Mempools.Mempool.CleanupCache | mempool/mempool.go:825-857 | expired entries go; of the others all stay, or the newest CacheSize |
| Mempools.Mempool.DropExpired | mempool/mempool.go:831-835 | the deletion loop keeps exactly the entries not older than the cutoff |
| Mempools.DropOldest | mempool/mempool.go:838-856 | exactly k entries go, none of them newer than one that stays |
| Mempools.Mempool.Flush | mempool/mempool.go:860-871 | store, index, counters and nonces are emptied; the cache stays |
| MempoolSpec.NonceRunShape | mempool/mempool.go:364-386 | an accepted run of nonces is zeros followed by strictly increasing positive numbers, and conversely |
| MempoolSpec.NonceCheckExactly | mempool/mempool.go:367-376 | the comparison with the recorded nonce passes exactly the nonces that continue the run |
| MempoolSpec.ContinuesExactly | mempool/mempool.go:364-386 | a nonce continues a run exactly if it is above every positive one in it |
| MempoolSpec.RecordedIsLargest | mempool/mempool.go:459-462 | a nonce is recorded exactly when a positive one was accepted, and it is the largest accepted |
| MempoolSpec.PrefixIsOldest | mempool/mempool.go:576-583 | cutting the time-ordered pool leaves the oldest transactions |
| MempoolSpec.BytesOfExactly | mempool/mempool.go:604-610 | the bytes of a batch are the sum of its transactions' sizes |
| MempoolSpec.NoMoreFits | mempool/mempool.go:604-610 | once the next transaction does not fit, no longer prefix of the batch does |
| MempoolSpec.EvictNext | mempool/mempool.go:414-433 | evicting a cheapest transaction keeps every evicted one no dearer than any survivor |
| MempoolSpec.RejectedExactly | mempool/mempool.go:389-440 | evictions end with room if and only if the newcomer fits beside what is not cheaper; without room, exactly the cheaper transactions are gone |
| MempoolSpec.TotalBytesExactly | mempool/mempool.go:446-447 | the byte counter counts each stored transaction once |
| MempoolSpec.RejectionCanLose | mempool/mempool.go:389-405 | a pool of two in which the newcomer is rejected and the cheaper transaction lost |
| Merkle.FoldKeepsTree | crypto/crypto.go:131-144 | hashing a row of nodes pairwise, the odd one with itself, leaves the root of the recursively defined tree unchanged |
| Merkle.NextLevel | crypto/crypto.go:132-142 | the body of the loop computes the row of parents |
| Merkle.MerkleRoot | crypto/crypto.go:119-147 | nil for the empty list; otherwise the root of the lowest recursively defined tree that holds the leaves |
| Merkle.TreeBinding | crypto/crypto.go:119-147 | two trees of one shape with the same root have the same leaves, or a collision of the hash is found where they first differ |
| Merkle.RootBinding | crypto/crypto.go:119-147 | two equally long lists of 32-byte hashes with the same root are equal or yield a collision |
| Merkle.RootOfParents | crypto/crypto.go:131-144 | a list and its row of parents have the same root, so equal lengths are needed for binding |
| Merkle.RootExactly | crypto/crypto.go:119-147 | one hash is its own root, two have the root h(left + right), and a longer list has the root of its neighbours' hashes, left before right, an odd last one taken twice |
| Merkle.RepeatedLastKeepsRoot | crypto/crypto.go:132-135 | an odd list and the same list with its last entry repeated have the same root |
| Signatures.DigitsFit | crypto/crypto.go:77-84 | a number has at most k big-endian digits, leading zeros dropped, if and only if it is below 256^k |
| Signatures.BigEndian | crypto/crypto.go:94-95 | bytes are read as digits to base 256, the most significant first |
| Signatures.ToBytes | crypto/crypto.go:76-86 | the two copies into the buffer, or the panic of the first slice bound below zero |
| Signatures.PanicsExactly | crypto/crypto.go:77-84 | encoding panics if and only if the absolute value of R is 2^256 or more or that of S is 2^512 or more |
| Signatures.EncodedByteByByte | crypto/crypto.go:80-84 | each of the 64 bytes: the digits of S end the buffer, those of R end its first half as far as S leaves them, the rest is zero |
| Signatures.EncodedAsPadded | crypto/crypto.go:81-84 | natural numbers below 2^256 become 32 bytes each, padded with zeros |
| Signatures.DecodesExactly | crypto/crypto.go:89-98 | decoding succeeds exactly on 64 bytes and gives numbers that can be encoded |
| Signatures.DecodeEncoded | crypto/crypto.go:76-98 | whenever encoding succeeds, decoding gives the signature back if and only if both numbers are natural and below 2^256 |
| Signatures.EncodeDecoded | crypto/crypto.go:76-98 | encoding inverts decoding, for every 64-byte string |
| Persistence.MemoryStore.constructor | persistence/store.go:351-356 | an empty store |
| Persistence.MemoryStore.SaveBlock | persistence/store.go:359-367 | files the block under its height; a nil block is refused |
| Persistence.MemoryStore.LoadBlocks | persistence/store.go:377-387 | the stored blocks of the range, in ascending order; no end exactly when toHeight is 2^64 - 1 |
| Persistence.MemoryStore.GetLatestBlockHeight | persistence/store.go:390-400 | the largest height stored, 0 for an empty store |
| Persistence.MemoryStore.SaveCheckpoint | persistence/store.go:418-426 | files the checkpoint under its sequence number; a nil checkpoint is refused |
| Persistence.SavedElsewhere | persistence/store.go:359-367 | saving a list fills exactly its heights and leaves the others as they were |
| Persistence.SavedLast | persistence/store.go:359-367 | a height holds the last block saved for it |
| Persistence.InRangeExactly | persistence/store.go:377-387 | a range with gaps loads as exactly the stored blocks of the range, in ascending order |
| Persistence.FullRange | persistence/store.go:377-387 | a range without gaps loads as one block per height |
| StateSync.BatchesCoverExactly | persistence/sync.go:124-159 | in uint64 arithmetic, the loop cuts (local, target] into consecutive batches and ends if and only if the target is reachable |
| StateSync.RequestSpan | persistence/sync.go:124-137 | no request spans more than 100 heights or passes the target, whatever wraps around; it spans 100 unless the target is nearer or the sum wraps |
| StateSync.RequestsExactly | persistence/sync.go:124-158 | which targets are reachable, in numbers, and the k-th request towards such a target: from local + 100k + 1 to local + 100k + 100 or the target |
| StateSync.OtherwiseGoesBack | persistence/sync.go:124-159 | when it is not, the loop continues at a height it has already passed |
| StateSync.SmallTargetsReachable | persistence/sync.go:124-159 | every target up to 2^64 - 100 is reachable |
| StateSync.CompletedIsGap | persistence/sync.go:124-159 | a completed loop over a faithful provider received every height of the gap once, in ascending order, in the expected number of batches |
| StateSync.EndsByItself | persistence/sync.go:124-159 | a loop towards a reachable target ends unless the context cuts it short |
| StateSync.CurrentIsWhole | persistence/sync.go:145-158 | however the loop ends, the current height is the end of the last round whose blocks were all stored and accepted, or the start if there is none |
| StateSync.SyncCoversGap | persistence/sync.go:79-172 | on success the callback accepted every height of the gap once, in order, the store holds the gap as sent, and the current height is the target |
| StateSync.SyncEnds | persistence/sync.go:79-172 | a sync towards a reachable target is not cut short by a context that lasts for all batches |
| StateSync.GapReadsBack | persistence/store.go:377-387 | loading the gap after a sync gives back the blocks received |
| StateSync.StateSyncer.constructor | persistence/sync.go:48-57 | a new syncer is not syncing |
| StateSync.StateSyncer.ProcessBlock | persistence/sync.go:175-192 | the block is stored before the callback decides; a nil block is refused |
| StateSync.StateSyncer.ProcessBlocks | persistence/sync.go:146-150 | the inner loop stores and hands on the blocks in order, up to the first nil or refused one |
| StateSync.StateSyncer.SyncBatch | persistence/sync.go:133-158 | one round asks for the computed range, and ends it or names what stopped it |
| StateSync.StateSyncer.SyncRange | persistence/sync.go:124-159 | the loop's ranges, blocks received, callback calls, store, progress and reason to stop, for every target |
| StateSync.StateSyncer.Sync | persistence/sync.go:79-172 | which of the outcomes occurs and what it leaves behind; a second sync is refused, and the flag is cleared whatever happens |
| StateSync.StateSyncer.SyncFromCheckpoint | persistence/sync.go:196-295 | starts from the first checkpoint with the largest number, which it stores; an empty list ends in "already in progress"; nil checkpoints that are read panic; the target height field is not touched |
| StateSync.LatestCheckpoint | persistence/sync.go:222-228 | the loop finds the first checkpoint with the largest sequence number, or reads a nil one exactly in the cases named |

## Left out

- Views and sequence numbers of the engine are unbounded: uint64 wrap-around after 2^64 increments, the sign of int(view) above 2^63, and the loops at `consensus/pbft/view_change.go:198` and `:307` when a certificate names 2^64 - 1 are not modelled.
- Byzantine senders and agreement on blocks across views: vote digests are not compared with the stored pre-prepare, so the program does not promise them.
- In-order execution, hash chaining of blocks and liveness: a block is executed as soon as it commits.
- Validator updates returned by FinalizeBlock: the validator set is fixed and non-empty.
- The persistent store behind the engine, LoadState, LoadBlocks and Recover, metrics and logging.
- FinalizeBlock may be called again after a failed Commit: only executions that also committed are recorded.
- Contents of ABCI requests and answers: only their effect on the engine is modelled.
- Engines.EngineV2.ExecuteBlock: omits the validator updates, since the validator set is fixed, and the mempool update, which is Mempools.Mempool.Update applied to the transactions of each executed block.
- Timestamps and identifiers of the transactions inside a block, and the block timestamp.
- Mutexes, goroutines, timers and channels: each handler or operation is one step; timeouts happen at any moment.
- Engines.EngineV2.ProposeBlock: takes what was reaped from the mempool as an argument; that it asks for 500 transactions is left out.
- Engines.EngineV2.HandlePrePrepare: the timer reset at `consensus/pbft/engine_v2.go:449` is not modelled, because timeouts are arbitrary.
- Mempool metrics, and the contents of the notification channel; one operation sees one clock value, so the stamps of several removals in one call are equal.
- Mempools.Mempool.Start: leaves out the two background loops, which call ExpireTxs and CleanupCache at times of their own.
- Mempools.Mempool.Stop: leaves out the cancelled context, which only ends those loops.
- Negative MaxBatchTxs and CacheSize, with which the program panics, are excluded by the types.
- The transaction identifier is an arbitrary function of the data; nothing needs it to be injective.
- GetTx, HasTx, Size, GetTxsBySender and the other read-only accessors, which would only add easy members.
- sort.Slice is an insertion sort here; what is used of it is that it permutes and orders.
- Merkle.MerkleRoot: does not model that append at `crypto/crypto.go:140` may write into the spare capacity of a caller's slice.
- ECDSA, key handling and the injectivity of ComputeHash, which keeps only the low byte of height and view.
- FileStore; LoadBlock, SaveState and the other one-line store methods; a signature with a nil number.
- StateSync: infinite runs of the loop are represented by all their finite beginnings, since the context ends after an arbitrary number of rounds; progress read by other goroutines during a sync is not modelled.
- Networking, gRPC, protobuf and JSON codecs, ABCI clients and adapters, the example application, the CLI and node wiring.
