# Raft key-value store: a verified model

The repository is a replicated key-value store in C++: a Raft server (`RaftNode`), its log (`RaftLog`),
its state file (`RaftPersistence`), the command codec and the store (`KVStore`). This project models
all five and proves what they are for, in Dafny:

- **A server, twice.** `RaftNodes.RaftNode` is the class: the fields of the C++ class, and its methods
  with their loops. `Nodes` gives the same handlers as functions on a value, `NodeState`, whose log forgets
  nothing. Every method is proved to leave exactly the state, and to answer exactly what, its function
  says; methods that ask the log by index do so on a compacted log as well. `Handlers` covers the append
  requests on which the code throws.
- **A cluster.** `Clusters` puts servers into a step system. A server that counts votes, or sweeps its
  peers, holds its mutex and handles nothing until it is done. Each remote call is two steps, request
  out and reply (or failure) in, so a request may still arrive long after its caller gave up. Requests
  and replies stay in the network for ever: they may be delivered late, again, or never. A server
  may crash between any two steps and restart from its state file. `Refinement` shows that the class's
  vote loop and heartbeat loop are runs of these steps.
- **Safety over every run.** `Safety` proves the five properties the repository's own README claims
  (lines 286-291), between any two moments of any run. `Durability`, `Requests` and `Backtracking` prove what
  crashes cannot undo, what every request ever sent satisfies, and how fast a leader finds the point
  where a follower's log leaves its own. The proof is by one invariant (`Invariants.Inv`) over a history of bids, votes,
  elections, leader logs and acknowledgements that is computed beside the run (`Histories`, `Runs.Observe`) and
  is not part of the state the theorems speak of.
- **What each step does, and that it gets somewhere.** Safety alone is kept by a server that does nothing.
  `Outcomes` says of every handler in full what it leaves and answers, by terms, positions and counts; `Effects`
  says what a command does to each key; `Layouts` where each field stands in the bytes. `Following` proves over runs that leaders
  tell their commit index and followers heed it, and `Progress` that from every reachable state the run
  can go on to commit and apply any command on every node.
- **The log and what becomes of it.** `RaftLogs` is the compacting log, proved to answer as the log that
  forgets nothing; `Replay` the deduplicating state machine, proved equal to plain execution of the
  commands that ought to take effect; `Commands`, `Stores`, `Persistence` the three byte formats with
  their loops, proved to come back as they went out. `Suffixes` replays a suffix from a client table that is not
  the prefix's, `Snapshots` says from that when installing a snapshot and going on equals full replay, and
  `Transfers` says it of any nodes of a running cluster.

The standard followed is "In Search of an Understandable Consensus Algorithm (Extended Version)", whose
section numbers the comments give. The order of reading is `Logs`, `Replay`, `Nodes`, `Clusters`, `Histories`, `Invariants`,
`Safety`; `Growth`, `Elections`, `Winning`, `Replication`, `Acceptance` and `Runs` are the steps of the proof, and `Moves` makes runs step by step.

Where the code and its evident intent disagree, the code is kept and the exact condition under which
it does what is meant is proved (the `...Iff` lemmas, and the lemmas that give a concrete input on
which it fails). There are two exceptions, on both of which the cluster theorems rest:

- The role check between the peers of a heartbeat sweep, which the code lacks. The steps of the cluster have
  it. `UnguardedSweeps` gives a whole run in which one request sent without it destroys a committed
  entry; `Refinement.SweepIsGuardedIff` says when the code does without it no harm.
- A restart loads the state file once, into a fresh log. The code's constructor loads twice, and the second
  load throws if and only if there is an entry (`Persistence.SecondLoadFailsIff`). All that is proved of
  crashes is proved of the single load.

Assumed of a configuration: ids are distinct and not 0, and each server lists every other one once.

## Model

| member | source | states |
|---|---|---|
| Safety.ElectionSafety | src/raft/RaftNode.cpp:535-583 | No two nodes ever lead the same term, at whatever moments of a run, although a same-term step-down erases `votedFor` |
| Safety.LeaderAppendOnly | src/raft/RaftNode.cpp:245-255 | From one moment of a leadership to any later one the leader's log only grows |
| Safety.LogMatching | src/raft/RaftNode.cpp:145-201 | Any two logs, at any two moments, with the same term at an index are identical up to it, command bytes included |
| Safety.CommittedReachLaterLeaders | src/raft/RaftNode.cpp:380-407 | Leader Completeness: whatever any node has counted as committed, by its own count or its leader's, is in the log of every leader of a later term |
| Safety.StateMachineSafety | src/raft/RaftNode.cpp:409-440 | Two nodes that have both applied an index, at whatever moments, have the same entries there and before |
| Safety.ReplicasAgree | src/raft/RaftNode.cpp:409-440 | Nodes with equal `lastApplied` have equal stores and equal client tables |
| Safety.StoreIsExecutionOfEffective | src/raft/RaftNode.cpp:409-440 | In every reachable state a node's store is the plain execution of its applied commands whose number exceeds all earlier ones of their client |
| Safety.QuorumHoldsCommitted | src/raft/RaftNode.cpp:380-407 | At every moment a majority of the nodes hold in their logs all that any one node counts as committed |
| Progress.ProgressIsPossible | src/raft/RaftNode.cpp:473-652 | From every reachable state of two nodes or more, and for every command that can be serialized, the run can go on to a state in which a leader's log ends with the command in its own term and every node has that whole log committed and applied, to one store |
| Progress.WhatCanHappen | src/raft/RaftNode.cpp:473-526 | In every reachable state: any node can crash; a node at rest, and only such a one, can be handed any request sent to it and any client's, begin an election if and only if it does not lead, and a sweep if and only if it does |
| Progress.HowCallsEnd | src/raft/gRPCRaftClient.cpp:103-107 | A call ends with the peer's answer to that very request, or with a failure, which has no success, conflict index 0, and term 0 or the request's own |
| Following.RequestsAreAsked | src/raft/RaftNode.cpp:618-627 | Every request in the network is what a leader, at some earlier moment, had to ask of that peer: its whole suffix from the peer's next index, the entry before, and the commit index it then had |
| Following.AppliedIsCommitted | src/raft/RaftNode.cpp:409-412 | In every reachable state whatever is committed is applied: `lastApplied == commitIndex` |
| Durability.DiskMirrorsMemory | src/raft/RaftNode.cpp:442-447 | Between steps the state file holds the term, the vote and the log in memory |
| Durability.CrashForgetsNothing | src/raft/RaftNode.cpp:449-471 | A restart in any reachable state keeps term, vote and log |
| Durability.AlwaysRunnable | src/raft/RaftNode.cpp:411-413 | `lastApplied <= commitIndex <= getLastIndex()` in every reachable state, so apply never reads outside the log and no step of the model is blocked by its own guard |
| Durability.TermsAndVotesStand | src/raft/RaftNode.cpp:335-352 | Over any stretch of a run terms never fall and a vote for another node is never changed within its term, crashes included |
| Durability.CommittedNeverLost | src/raft/RaftNode.cpp:183-206 | What a node has counted as committed stays in its log for ever, crashes included |
| Handlers.HandlerFrame | src/raft/RaftNode.cpp:119-210 | For any request, misnumbered entries included: the term afterwards is the greater of the two, a follower's vote stands within its term, and the log changes only by the merge, as far as that gets, after the check has passed |
| Handlers.HandlerThrowsIff | src/raft/RaftNode.cpp:194-196 | The handler throws if and only if it gets as far as the merge and an entry it has to append is misnumbered; otherwise it does what the cluster's step does |
| Requests.EveryRequestReachesItsCommit | src/raft/RaftNode.cpp:618-627 | Every request ever sent is consecutively numbered, and its own entries reach the commit index it carries |
| Requests.CutsAreAboveCommit | src/raft/RaftNode.cpp:183-191 | Whatever request is delivered in a reachable state, the log is only cut above the commit index |
| Requests.AcknowledgedEntriesStay | src/raft/RaftNode.cpp:200-209 | While a node is in the term of a request it answered with success, its log holds every entry of that request, whatever was delivered or crashed since |
| Requests.StaleRequestKeepsAcknowledged | src/raft/RaftNode.cpp:178-198 | A late request of the node's term removes nothing up to the end of any request acknowledged in that term |
| Requests.StaleRequestRemovesNothing | src/raft/RaftNode.cpp:178-198 | A request of the term of the node's last entry removes nothing at all |
| Handlers.RepeatedRequestChangesNothing | src/raft/RaftNode.cpp:119-210 | For any state and any request, even one that throws, handling it a second time leaves the whole state as it was and answers, or throws, the same |
| Requests.SweepSendsOwnTermIff | src/raft/RaftNode.cpp:528-533 | A node halfway through a sweep, about to send, stamps the request with a term it has led if and only if it still leads |
| UnguardedSweeps.UnguardedSweepLosesCommitted | src/raft/RaftNode.cpp:528-533 | A run from the initial state, for any client command, in which every step but one looks at the role: a leader commits and applies an entry, and at the end its log no longer has it at that index |
| Backtracking.RejectionLowersNext | src/raft/RaftNode.cpp:648-651 | Every rejection strictly lowers `nextIndex`, to the start of the follower's term run or just past its end, and changes no log |
| Backtracking.RejectionsWithinLog | src/raft/RaftNode.cpp:157-175 | Within the follower's log there are at most as many rejections as term runs before `nextIndex` |
| Backtracking.RejectionsBounded | src/raft/RaftNode.cpp:149-175 | From any `nextIndex`, at most one more rejection than the follower's log has term runs |
| Backtracking.SettledLogsAgree | src/raft/RaftNode.cpp:585-651 | The exchange that ends the backtracking leaves the follower's log equal to the leader's as far as that reaches, and the leader's `matchIndex` at its last entry if there was one to ship |
| Backtracking.LeaderAndPeerArePaired | src/raft/RaftNode.cpp:585-651 | In every reachable state a leader and a peer no further in its term meet all that the backtracking results ask |
| Following.SettledFollows | src/raft/RaftNode.cpp:203-206 | The exchange that ends the backtracking brings the follower's commit index up to the leader's, and it applies exactly what that commits |
| Following.SettledStoreIsLeaders | src/raft/RaftNode.cpp:203-206 | So in any reachable state a follower no further than its leader then has the leader's store and client table |
| Winning.TermIsOpen | src/raft/RaftNode.cpp:535-583 | A candidate that has counted a majority stands in a term nobody has won: the core of Election Safety |
| Outcomes.VoteOutcome | src/raft/RaftNode.cpp:83-117 | A vote is granted if and only if the term is not behind, the vote is free (a higher term, none given, or the same candidate), and the candidate's last term and index are, in that order, at least the voter's; with the reply's term, the vote, role, leader and disk afterwards, and nothing else changed |
| Outcomes.AsGoodIsTotalOrder | src/raft/RaftNode.cpp:364-378 | Of any two logs one is up to date for the other, the relation is transitive, and two that are so for each other end in the same term and index |
| Outcomes.SomeoneIsElectable | src/raft/RaftNode.cpp:364-378 | Among any servers one has a log that all the others would vote for |
| Outcomes.MajorityIsLeast | src/raft/RaftNode.cpp:401 | The quorum is the least number of servers that is more than half of them |
| Outcomes.CloseElectionOutcome | src/raft/RaftNode.cpp:576-582 | An election is won if and only if the votes, the own one included, are more than half of the cluster |
| Outcomes.VoteReplyOutcome | src/raft/RaftNode.cpp:560-568 | A reply counts as a vote if and only if it grants one; a higher term ends the election |
| Outcomes.CandidateOutcome | src/raft/RaftNode.cpp:344-352 | The whole new state of a candidate |
| Outcomes.LeaderOutcome | src/raft/RaftNode.cpp:354-362 | The whole new state of a leader: every next index is past its last entry, every match index 0 |
| Outcomes.StaleAppendOutcome | src/raft/RaftNode.cpp:128-131 | A request of an older term is refused and changes nothing |
| Outcomes.FollowOutcome | src/raft/RaftNode.cpp:133-141 | Any other makes the node a follower of the sender; only a same-term follower keeps its vote |
| Outcomes.RefusalOutcome | src/raft/RaftNode.cpp:148-175 | Accepted if and only if the previous entry is there with the term claimed; a refusal leaves log, commit index and store alone, and points to the end of a log too short or to the first entry of the conflicting term, which it names |
| Outcomes.AcceptedLogOutcome | src/raft/RaftNode.cpp:178-198 | The log afterwards: unchanged if no entry is missing or of another term, else cut at the first such with the rest appended |
| Outcomes.FollowerCommits | src/raft/RaftNode.cpp:203-206 | A follower follows: after an accepted request that is ahead of it, its commit index is the lesser of the request's and its own last index, and exactly the newly committed entries have been applied; otherwise neither moves |
| Outcomes.AppendDiskOutcome | src/raft/RaftNode.cpp:200 | Unless an append threw, the disk holds term, vote and log again after any request |
| Outcomes.LeaderCommits | src/raft/RaftNode.cpp:380-407 | A leader's commit index goes to the greatest index above it that more than half of the cluster hold and that is of its own term, if there is one, and what that commits is applied |
| Outcomes.CommittableIff | src/raft/RaftNode.cpp:389-402 | The code's count lets an index be committed if and only if the leader and the peers whose match index has reached it are more than half of the cluster, and its term is the leader's |
| Outcomes.AppendReplyOutcome | src/raft/RaftNode.cpp:636-652 | The whole new state after any reply: step down, go back for that peer alone, or credit it with all that was shipped and commit |
| Outcomes.RequestOutcome | src/raft/RaftNode.cpp:593-627 | A leader asks with its own term, id and commit index, its whole suffix from the peer's next index, and the entry before it |
| Outcomes.ClientOutcome | src/raft/RaftNode.cpp:212-266 | Reply and whole new state: who leads; a used number answered at once, a read from the store; otherwise the next entry, whose bytes parse back to the command, on disk too, unless it is too long to serialize |
| Outcomes.RestartOutcome | src/raft/RaftNode.cpp:10-59 | A restart keeps what is on disk and nothing else: a follower with nothing committed or applied, an empty store and new books |
| Histories.LeaderCompleteness | src/raft/RaftNode.cpp:83-117 | An entry of a leader's own term that a majority has acknowledged is in the log every later winner was elected with |
| Histories.UpToDateKeeps | src/raft/RaftNode.cpp:364-378 | A log at least as up to date as one that holds a committed entry holds it too |
| Histories.QuorumsMeet | src/raft/RaftNode.cpp:401-402 | Any two majorities of the cluster, by the code's count, share a node |
| Histories.CommittedPrefixesAgree | src/raft/RaftNode.cpp:203-206 | The committed prefixes of any two logs agree as far as the shorter |
| Acceptance.CommitShortcutKeeps | src/raft/RaftNode.cpp:203-206 | Following the leader's commit index as far as the log reaches keeps the invariant: it never commits a stale tail |
| Acceptance.CommittableIsCommitted | src/raft/RaftNode.cpp:388-405 | What the leader's count of `matchIndex` lets it commit is stored by a real majority |
| Acceptance.MergeIsFed | src/raft/RaftNode.cpp:156-198 | A request that passes the check either finds its entries in the log or makes the log the leader's up to the request's end |
| Acceptance.DeliverAppendKeeps | src/raft/RaftNode.cpp:119-210 | Handling any request ever sent, at any time, keeps the cluster invariant |
| Acceptance.TakeAppendReplyKeeps | src/raft/RaftNode.cpp:636-652 | Taking a reply or a failure keeps it |
| Acceptance.SuffixRequestOk | src/raft/RaftNode.cpp:593-627 | The request a leader builds is a slice of its log that reaches its end, and so its commit index |
| Acceptance.CrashKeeps | src/raft/RaftNode.cpp:449-471 | Restarting from the state file keeps it |
| Elections.DeliverVoteKeeps | src/raft/RaftNode.cpp:83-117 | Handling any request for a vote ever sent, at any time, keeps it |
| Elections.StartElectionKeeps | src/raft/RaftNode.cpp:344-352 | Becoming a candidate keeps it |
| Winning.TakeVoteReplyKeeps | src/raft/RaftNode.cpp:553-573 | Counting one vote, or stepping down, keeps it |
| Winning.CloseElectionKeeps | src/raft/RaftNode.cpp:576-582 | Winning or losing an election keeps it |
| Replication.ClientKeeps | src/raft/RaftNode.cpp:212-266 | Proposing a client's command keeps it |
| Runs.Watch | src/raft/RaftNode.cpp:83-652 | The invariant holds at every moment of every run, with a history that only grows |
| Refinement.CampaignIsElectionSteps | src/raft/RaftNode.cpp:553-582 | The vote loop ends as the cluster's small steps do: same node, and a sweep is due exactly if it won |
| Refinement.StartElectionIsSteps | src/raft/RaftNode.cpp:535-583 | The same for an election from its beginning |
| Refinement.SweepIsSteps | src/raft/RaftNode.cpp:528-533 | The heartbeat loop as written ends as unguarded small steps do |
| Refinement.SweepIsGuardedIff | src/raft/RaftNode.cpp:528-533 | It sends what the sweep that looks at the role sends if and only if no reply before the last carries a higher term, and then ends in the same state |
| RaftNodes.RaftNode.constructor | src/raft/RaftNode.cpp:10-59 | A new process is the initial node, or the restarted one over a state file |
| RaftNodes.RaftNode.PersistState | src/raft/RaftNode.cpp:442-447 | The state file holds term, vote, snapshot index and term, and the stored log; the snapshot file the snapshot if there is one; if the stored log stands for a whole one, so does the file |
| RaftNodes.RaftNode.BecomeFollower | src/raft/RaftNode.cpp:335-342 | The whole new state, written to disk |
| RaftNodes.RaftNode.BecomeCandidate | src/raft/RaftNode.cpp:344-352 | The whole new state, written to disk |
| RaftNodes.RaftNode.BecomeLeader | src/raft/RaftNode.cpp:354-362 | The loop sets every peer's books by the whole log's last index, compacted or not; the rest is unchanged |
| RaftNodes.RaftNode.IsLogUpToDate | src/raft/RaftNode.cpp:364-378 | On a compacted log the answer is that of the whole log |
| RaftNodes.RaftNode.HandleRequestVote | src/raft/RaftNode.cpp:83-117 | Whole new state and reply as in the cluster's step, compacted log or not |
| RaftNodes.RaftNode.StartElection | src/raft/RaftNode.cpp:535-583 | For any replies and failures in peer order: the request asked with, and the state after counting, stepping down, or winning and sweeping |
| RaftNodes.RaftNode.FindRunStart | src/raft/RaftNode.cpp:164-173 | The backwards loop finds the first index of the run of equal terms |
| RaftNodes.RaftNode.MergeEntries | src/raft/RaftNode.cpp:178-198 | For any entries at all, numbered right or not, the log the loop leaves and whether it throws |
| RaftNodes.RaftNode.CheckPrevious | src/raft/RaftNode.cpp:145-176 | The refusal, if any, with conflict index and term |
| RaftNodes.RaftNode.TakeEntries | src/raft/RaftNode.cpp:177-206 | The accepting half: merge, write to disk, follow the commit index, apply |
| RaftNodes.RaftNode.HandleAppendEntries | src/raft/RaftNode.cpp:119-210 | Whole new state and reply for any request, and the state left behind when an append throws |
| RaftNodes.RaftNode.ApplyCommittedEntries | src/raft/RaftNode.cpp:409-440 | The loop leaves store and client table as the replay of the newly committed entries of the whole log does, compacted or not |
| RaftNodes.RaftNode.ApplyOne | src/raft/RaftNode.cpp:414-439 | One entry: bytes that do not parse and duplicates change nothing |
| RaftNodes.RaftNode.UpdateCommitIndex | src/raft/RaftNode.cpp:380-407 | The upwards loop, which commits and applies at each index it can, ends at the greatest committable index with all up to it applied once |
| RaftNodes.RaftNode.ReplicateToFollower | src/raft/RaftNode.cpp:585-652 | The request sent, and the whole state after any reply or failure |
| RaftNodes.RaftNode.SendHeartbeats | src/raft/RaftNode.cpp:528-533 | The state after calling every peer in turn, for any replies and failures |
| RaftNodes.RaftNode.HandleClientRequest | src/raft/RaftNode.cpp:212-266 | Whole new state and reply, compacted log or not: not leader, duplicate, too long to serialize, proposed |
| RaftNodes.RaftNode.TakeSnapshot | src/raft/RaftNode.cpp:662-685 | Throws exactly if entries not yet applied are asked for; otherwise the image of the current store under the label asked for, the compacted log on disk, and nothing else changed; the log goes on standing for the same whole log if `getTerm` answers right, as it does the first time |
| RaftNodes.RaftNode.HandleInstallSnapshot | src/raft/RaftNode.cpp:268-309 | Whole new state, with the client table kept and the indices only raised; it fails exactly where reading the bytes runs off their end; the log goes on standing for the same whole log if that has the entry the snapshot names |
| RaftNodes.InstallOutcome | src/raft/RaftNode.cpp:294-306 | Installing leaves the snapshot's store, the node's own client table, commit index and `lastApplied` each the greater of the old one and the snapshot's, and the rest as it was; it fails if and only if the bytes are no snapshot |
| RaftNodes.SeenTermOutcome | src/raft/RaftNode.cpp:279-282 | Before that only a higher term makes the node step down |
| Handlers.MergeRunRefinesMergeIff | src/raft/RaftNode.cpp:182-197 | The loop never throws, and then refines the simple merge, if and only if every entry it has to append is numbered by its place |
| RaftNodes.CommitInSteps | src/raft/RaftNode.cpp:388-406 | Committing and applying up to one index and then to a higher one is doing the higher one at once |
| Nodes.RunStart | src/raft/RaftNode.cpp:164-173 | All entries from it to the given index have one term, and the entry before has another |
| Nodes.CommitTarget | src/raft/RaftNode.cpp:388-405 | It is the old commit index or a committable one, and nothing above it is committable; what committable means is `Outcomes.CommittableIff` |
| Logs.MergeFollowsLeader | src/raft/RaftNode.cpp:178-198 | Merging a slice of a leader's log keeps the log if it has the slice, and otherwise makes it the leader's up to the slice's end |
| Logs.MergeIdempotent | src/raft/RaftNode.cpp:178-198 | Merging twice is merging once |
| Logs.MergeWellIndexed | src/raft/RaftNode.cpp:194-196 | A merge of consecutive entries keeps the log consecutively numbered, so no append throws |
| RaftLogs.CompactionTransparent | src/raft/Log.cpp:19-111 | After any run of appends, offset-correct truncations above the snapshot and term-true discards, the stored log still stands for the log that forgot nothing |
| RaftLogs.IndexedFromBase | src/raft/Log.cpp:85-89 | Such a log is not empty and entry `k` has index `snapshotIndex + k` |
| RaftLogs.SameAnswers | src/raft/Log.cpp:51-62 | `getEntry` above the snapshot, `getLastIndex` and `getLastTerm` answer as the whole log does, and `getEntry` throws below |
| RaftLogs.AppendRepresents | src/raft/Log.cpp:19-31 | Append succeeds exactly when it would on the whole log, and keeps the two in step |
| RaftLogs.OffsetTruncateRepresents | src/raft/Log.cpp:33-45 | Truncation by offset keeps the two in step |
| RaftLogs.TruncateSoundIff | src/raft/Log.cpp:33-45 | The code's truncation by absolute position within the log does so if and only if nothing is compacted |
| RaftLogs.TermSoundIff | src/raft/Log.cpp:95-101 | `getTerm`, which reads by absolute position, answers right from the snapshot to the end if and only if nothing is compacted |
| RaftLogs.DiscardRepresentsIff | src/raft/Log.cpp:64-90 | Discarding below the log's end keeps the two in step if and only if the given term is that of the entry there |
| RaftLogs.CompactAgainRepresentsIff | src/raft/RaftNode.cpp:680-682 | Compacting a log again, with the term `getTerm` reads by position, does so if and only if the entry at that position happens to have the term of the one meant |
| RaftLogs.RaftLog.Append | src/raft/Log.cpp:19-31 | Throws without effect exactly on a wrong index, else appends |
| RaftLogs.RaftLog.Truncate | src/raft/Log.cpp:33-45 | Throws exactly at 0; otherwise cuts by position, past the end not at all |
| RaftLogs.RaftLog.GetEntry | src/raft/Log.cpp:51-62 | The entry by index, above the snapshot only, and the two throws |
| RaftLogs.RaftLog.DiscardEntriesUpTo | src/raft/Log.cpp:64-90 | Keeps what lies above, under a base of the index given, and never goes back |
| Replay.ReplayIsExecutionOfEffective | src/raft/RaftNode.cpp:411-439 | Exactly once: the deduplicating replay of any log is the plain execution of the commands whose number exceeds all earlier ones of their client |
| Effects.ExecuteOneMore | src/kvstore/KVStore.cpp:3-32 | One command more: every other key keeps its binding or its absence; a get changes nothing; a put binds the very value; an append extends what was bound, if anything |
| Effects.ApplyOneMore | src/raft/RaftNode.cpp:414-439 | Applying one entry more makes that difference, and leaves its number in the client table, if its command exceeds all earlier ones of its client, and otherwise none at all |
| Effects.ValueIs | src/kvstore/KVStore.cpp:3-32 | The value of a key in closed form: none if it is never written, else the value of its last put, or nothing, followed by all later appends to it |
| Effects.NodeHoldsWritten | src/raft/RaftNode.cpp:409-440 | That value is what every node of every run holds at the key, for the commands it has applied that ought to take effect |
| Replay.TableMeans | src/raft/RaftNode.cpp:420-435 | A command is a duplicate by the table if and only if an earlier one of its client had a number at least as great |
| Replay.EffectiveNumbersIncrease | src/raft/RaftNode.cpp:420-435 | The numbers of a client's commands that take effect strictly increase, so none does so twice |
| Replay.RepeatChangesNothing | src/raft/RaftNode.cpp:420-425 | Inserting a command again anywhere after its client has got as far changes neither store nor table, whatever follows |
| Suffixes.SameVerdictsIffNoGap | src/raft/RaftNode.cpp:420-435 | Replaying a suffix from an older client table decides every entry alike if and only if no entry falls between the two tables |
| Suffixes.SameTakenIffNoGap | src/raft/RaftNode.cpp:420-435 | And then, and only then, the same commands take effect; otherwise more do from the older table |
| Suffixes.ReplayIsExecutionOfTaken | src/raft/RaftNode.cpp:411-439 | A replay from any store and any client table is the plain execution of the commands taken |
| Suffixes.TakenFromNothing | src/raft/RaftNode.cpp:420-435 | From an empty table these are the commands whose number exceeds all earlier ones of their client |
| Suffixes.SameForEverySuffixIff | src/raft/RaftNode.cpp:409-440 | Two replicas have the same store after every continuation of the log if and only if they are equal, client tables included |
| Suffixes.FreshSuffixHasNoGap | src/raft/RaftNode.cpp:420-435 | There is no gap if the suffix's numbers exceed those before the snapshot |
| Snapshots.InstallIsReplayIff | src/raft/RaftNode.cpp:268-309 | For a node that had applied `a` entries, a snapshot of the store after `l` under any label `u <= l`, and the entries applied on to any `n`: the commands executed are those of a full replay if and only if, on a node past `l`, nothing in (`l`, `a`] takes effect, and on one short of `l`, nothing from the label up to `l` takes effect from its own client table and no later entry falls into the gap between that table and the full one |
| Snapshots.ShortOfSnapshotIsReplayIff | src/raft/RaftNode.cpp:300-304 | The same while the node has not yet caught up with `l`: nothing between may take effect |
| Snapshots.InstalledRun | src/raft/RaftNode.cpp:294-300 | From bytes to store: for any enumeration order, the store reached is the execution of those commands, and `lastApplied` only rises |
| Snapshots.SnapshotPlusSuffixIsReplay | src/raft/RaftNode.cpp:662-685 | So installing what `takeSnapshot(u)` makes and going on gives the store of full replay under that condition; with `u == lastApplied`, as the timer and the trigger call it, on a node not past it only the gap in the client table is left of it |
| Snapshots.SoundForEverySuffixIff | src/raft/RaftNode.cpp:294-300 | The store is right after every continuation of the log if and only if the installing node's store and client table are those of full replay at its new `lastApplied` |
| Snapshots.EarlyLabelAppliesTwice | src/raft/RaftNode.cpp:665-680 | An input on which a label below `lastApplied` makes a fresh node apply an append twice |
| Transfers.SnapshotTransferIff | src/raft/RaftNode.cpp:268-309 | In any run: one node takes a snapshot, another installs it and applies what a third has applied; it executes what the third has executed if and only if that condition holds, and then has its store |
| Snapshots.StaleSnapshotRollsBack | src/raft/RaftNode.cpp:294-300 | An input on which a stale snapshot takes an applied entry back while `lastApplied` stays |
| Snapshots.RetriedAppendIsAppliedTwice | src/raft/RaftNode.cpp:294-300 | An input with a gap: a command retried after the snapshot is applied again |
| Commands.ParseOfLayout | src/kvstore/Command.cpp:89-159 | What is serialized parses back to itself, whatever follows it |
| Commands.LayoutOfParse | src/kvstore/Command.cpp:122-159 | Whatever parses begins with the serialization of the result |
| Commands.LayoutIsPrefixFree | src/kvstore/Command.cpp:89-119 | No command's bytes begin another's, so serialization is injective |
| Commands.LayoutFailsIff | src/kvstore/Command.cpp:24-27 | Serialization throws if and only if a string has 2^32 bytes or more |
| Layouts.CommandBytes | include/kvstore/Command.hpp:10-14 | Tag 1, 2 or 3, client in bytes 1 to 8, number in 9 to 16, key and value each after its length in four bytes |
| Commands.Serialize | src/kvstore/Command.cpp:89-119 | Bytes that parse back to the command, or the throw on a string too long |
| Commands.Deserialize | src/kvstore/Command.cpp:122-159 | The command, or the throw, for any bytes |
| ByteCodec.DecodeEncode | src/kvstore/Command.cpp:12-22 | Reading back an integer that fits the width gives it |
| ByteCodec.EncodeDecode | src/kvstore/Command.cpp:46-66 | Writing what was read gives the bytes |
| ByteCodec.LittleEndianDigit | src/kvstore/Command.cpp:12-22 | Byte `i` is what shifting by `8 * i` and masking computes |
| ByteCodec.WriteLittleEndian | src/kvstore/Command.cpp:12-22 | The shift loop appends the encoding |
| ByteCodec.ReadLittleEndian | src/kvstore/Command.cpp:46-66 | The shift loop reads the value and advances, or underruns |
| Stores.SnapshotRoundTripIff | src/kvstore/KVStore.cpp:34-95 | A snapshot restores exactly its map, for every enumeration order and whatever the target held, if and only if every key and value is shorter than 2^32 bytes |
| Layouts.SnapshotBytes | src/kvstore/KVStore.cpp:39-58 | The number of entries in eight bytes, then at each entry's offset its key and its value, each after its length in four bytes, and nothing else |
| Stores.KVStore.Put | src/kvstore/KVStore.cpp:3-6 | That key has that value, the others theirs |
| Stores.KVStore.Get | src/kvstore/KVStore.cpp:8-18 | The value, if there is one |
| Stores.KVStore.Append | src/kvstore/KVStore.cpp:20-32 | The value is extended, or set if there was none |
| Stores.KVStore.TakeSnapshot | src/kvstore/KVStore.cpp:34-61 | For some enumeration order of the table, the bytes in that order |
| Stores.KVStore.InstallSnapshot | src/kvstore/KVStore.cpp:63-95 | The parsed map replaces the old one; it runs off the buffer exactly where parsing does |
| Persistence.DurableRoundTrip | src/raft/RaftPersistence.cpp:42-127 | Loading the bytes of any term, vote and well-formed uncompacted log into a fresh log gives all three back, with no check or append failing |
| Persistence.StateReloads | src/raft/RaftPersistence.cpp:89-127 | Any saved state, compacted or not: term, vote, snapshot index and snapshot term come back each as itself, and the log as loading its own bytes leaves it |
| Persistence.CompactedStateReloads | src/raft/RaftPersistence.cpp:196-248 | A compacted log saved and loaded fresh: fails if there is an entry above the snapshot; otherwise the four fields come back with a log that does not know of the snapshot |
| Layouts.LogBytes | src/raft/RaftPersistence.cpp:157-187 | The number of entries above the snapshot, then at each entry's offset its index, term, length and bytes, and nothing else |
| Persistence.StateFields | src/raft/RaftPersistence.cpp:42-56 | Term, vote, snapshot index, snapshot term and log size in eight bytes each, then the log |
| Persistence.LogReloadsIff | src/raft/RaftPersistence.cpp:157-248 | A saved log loads back into a fresh one if and only if it was never compacted |
| Persistence.SecondLoadFailsIff | src/raft/RaftNode.cpp:36-58 | The constructor's second load fails if and only if there is an entry to load |
| Persistence.ReloadElsewhereFails | src/raft/RaftPersistence.cpp:245-247 | Loading into a log that ends elsewhere than just before the first saved entry fails if there is one |
| Persistence.SerializeLog | src/raft/RaftPersistence.cpp:157-194 | The loop lays out the count and every entry above the snapshot |
| Persistence.ReadEntry | src/raft/RaftPersistence.cpp:215-243 | One entry and what is left, or the failed check |
| Persistence.DeserializeLog | src/raft/RaftPersistence.cpp:196-248 | The loop fills the log as parsing does, or fails where it does |
| Persistence.RaftPersistence.SaveState | src/raft/RaftPersistence.cpp:25-71 | The bytes of the state file, and of the snapshot file if there is a snapshot |
| Persistence.RaftPersistence.LoadState | src/raft/RaftPersistence.cpp:73-144 | No state, corrupted, or the fields and the log, exactly as parsing the file says, with the snapshot file's bytes |

## Left out

- The gRPC client and server, protobuf conversion, `raft_main.cpp` and `raft_client.cpp`: only the replies a failed call hands back are kept (`Clusters.FailedVote`, `Clusters.FailedAppend`).
- Threads, timers, random timeouts and console output: any enabled step may happen next. That a command is committed in the end is not claimed, since calls under a held mutex can block each other; that it always can be is (`Progress.ProgressIsPossible`).
- The role check between the peers of a sweep: cluster steps send only while the role is leader, as line 522 of `src/raft/RaftNode.cpp` intends, though lines 528-533 do not look again. Without it what `Durability.CommittedNeverLost` and `Safety.StateMachineSafety` promise fails (`UnguardedSweeps.UnguardedSweepLosesCommitted`); when the code keeps to it is `Refinement.SweepIsGuardedIff`.
- Cluster-wide safety with compaction and InstallSnapshot among the steps: `getTerm` and `truncate` read absolute positions and stale snapshots are installed (`RaftLogs.TermSoundIff`, `RaftLogs.TruncateSoundIff`, `Snapshots.InstallIsReplayIff`). In the cluster nothing is compacted. Compaction is treated in the log, in replay and in the two snapshot methods.
- Durability of client acknowledgements: success is answered before commit (`src/raft/RaftNode.cpp:254-259`), so it would be false.
- Snapshots.SnapshotPlusSuffixIsReplay: for one given suffix the condition is exact for the commands executed, not for the store, since two different lists of commands may end in equal maps. Over all suffixes it is exact for the store (`Snapshots.SoundForEverySuffixIff`).
- RaftNodes.RaftNode.constructor: restores once into a fresh log, as is meant; that the code's second restore fails is `Persistence.SecondLoadFailsIff`. Restoring a snapshot into the store at start-up is not modelled.
- RaftNodes.RaftNode.PersistState: writes the two files as values. Their bytes are the business of `Persistence`. Opening, flushing and a write torn by a crash are not modelled, nor is a node without a state directory.
- RaftNodes.RaftNode.StartElection: requires an uncompacted log, because the sweep after a win does.
- RaftNodes.RaftNode.MergeEntries: requires an uncompacted log, because it calls `getTerm` and `truncate`, which take an index for a position; on a compacted log they cut and compare elsewhere (`RaftLogs.TruncateSoundIff`, `RaftLogs.TermSoundIff`).
- RaftNodes.RaftNode.CheckPrevious: requires an uncompacted log, because it calls `getTerm` (`RaftLogs.TermSoundIff`).
- RaftNodes.RaftNode.TakeEntries: requires an uncompacted log, because the merge does.
- RaftNodes.RaftNode.HandleAppendEntries: requires an uncompacted log, because the check and the merge do.
- RaftNodes.RaftNode.UpdateCommitIndex: requires an uncompacted log, because it calls `getTerm` (`RaftLogs.TermSoundIff`).
- RaftNodes.RaftNode.ReplicateToFollower: requires an uncompacted log, because it calls `getTerm`; its branch that sends a snapshot (`src/raft/RaftNode.cpp:597-616`) needs a compacted one and is not modelled.
- RaftNodes.RaftNode.SendHeartbeats: requires an uncompacted log, because each call to a peer does.
- RaftNodes.RaftNode.HandleInstallSnapshot: where the C++ code reads past the end of the snapshot, the model stops and says nothing of the store.
- Persistence.RaftPersistence.LoadState: the log that a failed load leaves half filled is not described.
- 64-bit wrap-around of terms, indices and offsets: they are natural numbers, except where a width is part of a byte format.
- Byte order of the host: fixed to little-endian where the code copies integers from memory.
- The network partitions of `src/raft/InMemoryRPC.cpp`: its send functions never look at them.
- The conflict fields of the append reply are commented out in `include/raft/RaftNode.hpp:54-56` but used throughout `RaftNode.cpp`; the model has them.
- The error text of client replies, the getters and the snapshot timer.
