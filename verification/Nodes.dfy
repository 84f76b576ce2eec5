/** One Raft server as a value: its fields and, as functions, what each handler of
    src/raft/RaftNode.cpp does to them. Class RaftNodes.RaftNode refines these functions;
    module Clusters runs them. */
module Nodes {
  import opened Wrappers
  import opened ByteCodec
  import opened Commands
  import opened Logs
  import opened Replay

  datatype Role = Follower | Candidate | Leader

  /** What the state file holds. */
  datatype Durable = Durable(term: nat, votedFor: nat, log: Log)

  datatype NodeState = NodeState(
    id: nat,
    peers: seq<nat>,
    term: nat,
    votedFor: nat,
    log: Log,
    commitIndex: nat,
    lastApplied: nat,
    role: Role,
    leaderId: nat,
    nextIndex: seq<nat>,
    matchIndex: seq<nat>,
    replica: Replica,
    disk: Durable)

  datatype RequestVoteArgs = RequestVoteArgs(term: nat, candidateId: nat, lastLogIndex: nat, lastLogTerm: nat)
  datatype RequestVoteReply = RequestVoteReply(term: nat, voteGranted: bool)
  datatype AppendEntriesArgs = AppendEntriesArgs(
    term: nat, leaderId: nat, prevLogIndex: nat, prevLogTerm: nat, entries: seq<LogEntry>, leaderCommit: nat)
  datatype AppendEntriesReply = AppendEntriesReply(term: nat, success: bool, conflictIndex: nat, conflictTerm: nat)
  datatype ClientRequest = ClientRequest(command: Command, clientId: u64, sequenceNum: u64)
  datatype ClientReply = ClientReply(success: bool, value: Bytes, isLeader: bool, leaderId: nat)

  /** What every constructor and handler keeps about the shape of a node. */
  ghost predicate Shaped(s: NodeState) {
    && WellIndexed(s.log)
    && s.commitIndex < |s.log|
    && |s.nextIndex| == |s.matchIndex| == |s.peers|
    && forall i :: 0 <= i < |s.nextIndex| ==> s.nextIndex[i] >= 1
  }

  // ---- Helpers -------------------------------------------------------------

  function Persist(s: NodeState): NodeState {
    s.(disk := Durable(s.term, s.votedFor, s.log))
  }

  function BecomeFollower(s: NodeState, newTerm: nat): NodeState {
    Persist(s.(term := newTerm, role := Follower, votedFor := 0, leaderId := 0))
  }

  function BecomeCandidate(s: NodeState): NodeState {
    Persist(s.(role := Candidate, term := s.term + 1, votedFor := s.id, leaderId := 0))
  }

  function BecomeLeader(s: NodeState): NodeState
    requires |s.log| >= 1
  {
    s.(role := Leader, leaderId := s.id,
       nextIndex := seq(|s.peers|, _ => LastIndex(s.log) + 1),
       matchIndex := seq(|s.peers|, _ => 0))
  }

  /** The vote check: later last term wins, then the longer log. */
  predicate UpToDate(lastLogIndex: nat, lastLogTerm: nat, voter: Log)
    requires |voter| >= 1
  {
    if lastLogTerm != LastTerm(voter) then lastLogTerm > LastTerm(voter)
    else lastLogIndex >= LastIndex(voter)
  }

  function Majority(peers: nat): nat {
    (peers + 1) / 2 + 1
  }

  /** Replays entries lastApplied + 1 .. commitIndex. */
  function ApplyCommitted(s: NodeState): NodeState
    requires s.commitIndex < |s.log|
  {
    if s.lastApplied < s.commitIndex then
      s.(replica := ApplyAll(s.replica, s.log[s.lastApplied + 1..s.commitIndex + 1]),
         lastApplied := s.commitIndex)
    else s
  }

  // ---- Elections -------------------------------------------------------------

  function VoteArgs(s: NodeState): RequestVoteArgs
    requires |s.log| >= 1
  {
    RequestVoteArgs(s.term, s.id, LastIndex(s.log), LastTerm(s.log))
  }

  function HandleRequestVote(s: NodeState, args: RequestVoteArgs): (NodeState, RequestVoteReply)
    requires |s.log| >= 1
  {
    if args.term < s.term then (s, RequestVoteReply(s.term, false))
    else
      var t := if args.term > s.term then BecomeFollower(s, args.term) else s;
      if (t.votedFor == 0 || t.votedFor == args.candidateId) && UpToDate(args.lastLogIndex, args.lastLogTerm, t.log)
      then (Persist(t.(votedFor := args.candidateId)), RequestVoteReply(t.term, true))
      else (t, RequestVoteReply(t.term, false))
  }

  // ---- Replication, follower side --------------------------------------------

  /** First index of the run of equal terms that ends at `i`. */
  function RunStart(log: Log, i: nat): (r: nat)
    requires 1 <= i < |log|
    ensures 1 <= r <= i
    ensures forall j :: r <= j <= i ==> log[j].term == log[i].term
    ensures r > 1 ==> log[r - 1].term != log[i].term
  {
    if i == 1 || log[i - 1].term != log[i].term then i else RunStart(log, i - 1)
  }

  /** Term and role after a request of term >= ours has been seen. */
  function StepDownFor(s: NodeState, args: AppendEntriesArgs): NodeState {
    (if args.term > s.term || s.role != Follower then BecomeFollower(s, args.term) else s).(leaderId := args.leaderId)
  }

  /** The reply to a request whose previous entry is missing or has another term. */
  function Conflict(log: Log, args: AppendEntriesArgs, term: nat): Option<AppendEntriesReply>
    requires |log| >= 1
  {
    if args.prevLogIndex > LastIndex(log) then
      Some(AppendEntriesReply(term, false, LastIndex(log) + 1, 0))
    else if args.prevLogIndex > 0 && log[args.prevLogIndex].term != args.prevLogTerm then
      Some(AppendEntriesReply(term, false, RunStart(log, args.prevLogIndex), log[args.prevLogIndex].term))
    else None
  }

  /** The request's entries merged into the log, and the state file rewritten. */
  function Merged(s: NodeState, args: AppendEntriesArgs): NodeState
    requires args.prevLogIndex < |s.log|
  {
    if args.entries == [] then s else Persist(s.(log := Merge(s.log, args.prevLogIndex, args.entries)))
  }

  /** The commit shortcut: follow the leader's commit index as far as the log reaches. */
  function AdvanceCommit(s: NodeState, leaderCommit: nat): NodeState
    requires |s.log| >= 1
  {
    if leaderCommit > s.commitIndex then ApplyCommitted(s.(commitIndex := Min(leaderCommit, LastIndex(s.log))))
    else s
  }

  function Accept(s: NodeState, args: AppendEntriesArgs): NodeState
    requires args.prevLogIndex < |s.log|
  {
    AdvanceCommit(Merged(s, args), args.leaderCommit)
  }

  function HandleAppendEntries(s: NodeState, args: AppendEntriesArgs): (NodeState, AppendEntriesReply)
    requires |s.log| >= 1
  {
    if args.term < s.term then (s, AppendEntriesReply(s.term, false, 0, 0))
    else
      var t := StepDownFor(s, args);
      var conflict := Conflict(t.log, args, t.term);
      if conflict.Some? then (t, conflict.value)
      else (Accept(t, args), AppendEntriesReply(t.term, true, 0, 0))
  }

  // ---- Replication, leader side ------------------------------------------------

  /** The request for peer `i`: the whole suffix from its next index. Out of range terms read as 0. */
  function AppendArgs(s: NodeState, i: nat): AppendEntriesArgs
    requires i < |s.nextIndex| && s.nextIndex[i] >= 1
  {
    var next := s.nextIndex[i];
    AppendEntriesArgs(s.term, s.id, next - 1,
                      if next - 1 < |s.log| then s.log[next - 1].term else 0,
                      if next <= |s.log| then s.log[next..] else [],
                      s.commitIndex)
  }

  /** How many of the match indices have reached `n`. */
  function CountAtLeast(matchIndex: seq<nat>, n: nat): (c: nat)
    ensures c <= |matchIndex|
  {
    if matchIndex == [] then 0
    else CountAtLeast(matchIndex[..|matchIndex| - 1], n) + (if matchIndex[|matchIndex| - 1] >= n then 1 else 0)
  }

  /** The commit rule: an entry of the current term on a majority, the leader included. */
  predicate Committable(s: NodeState, n: nat)
    requires n < |s.log|
  {
    s.log[n].term == s.term && 1 + CountAtLeast(s.matchIndex, n) >= Majority(|s.peers|)
  }

  /** The greatest committable index in (commitIndex, upTo], or commitIndex if there is none. */
  function CommitTarget(s: NodeState, upTo: nat): (n: nat)
    requires upTo < |s.log|
    ensures s.commitIndex <= n
    ensures n == s.commitIndex || (n <= upTo && Committable(s, n))
    ensures forall m :: n < m <= upTo ==> !Committable(s, m)
  {
    if upTo <= s.commitIndex then s.commitIndex
    else if Committable(s, upTo) then upTo
    else CommitTarget(s, upTo - 1)
  }

  function UpdateCommitIndex(s: NodeState): NodeState
    requires |s.log| >= 1
  {
    if s.role != Leader || CommitTarget(s, LastIndex(s.log)) == s.commitIndex then s
    else ApplyCommitted(s.(commitIndex := CommitTarget(s, LastIndex(s.log))))
  }

  /** The leader's books after a successful exchange: the peer holds all that was shipped. */
  function Credited(s: NodeState, i: nat, args: AppendEntriesArgs): NodeState
    requires i < |s.nextIndex| && i < |s.matchIndex|
  {
    if args.entries == [] then s
    else
      var last := args.entries[|args.entries| - 1].index;
      s.(matchIndex := s.matchIndex[i := last], nextIndex := s.nextIndex[i := last + 1])
  }

  function OnAppendReply(s: NodeState, i: nat, args: AppendEntriesArgs, reply: AppendEntriesReply): NodeState
    requires |s.log| >= 1
    requires i < |s.nextIndex| && i < |s.matchIndex|
  {
    if reply.term > s.term then BecomeFollower(s, reply.term)
    else if reply.success then UpdateCommitIndex(Credited(s, i, args))
    else s.(nextIndex := s.nextIndex[i := Max(1, reply.conflictIndex)])
  }

  // ---- Clients and restarts ----------------------------------------------------

  function HandleClientRequest(s: NodeState, req: ClientRequest): (NodeState, ClientReply)
    requires |s.log| >= 1
  {
    var fail := ClientReply(false, [], s.role == Leader, s.leaderId);
    if s.role != Leader then (s, fail)
    else if IsDuplicate(s.replica.lastSeq, Meta(req.clientId, req.sequenceNum)) then
      var value := if req.command.Get? && req.command.key in s.replica.store
                   then s.replica.store[req.command.key] else [];
      (s, ClientReply(true, value, true, s.leaderId))
    else
      var data := Layout(req.command);
      if data.None? then (s, fail)
      else
        (Persist(s.(log := s.log + [LogEntry(LastIndex(s.log) + 1, s.term, data.value)])),
         ClientReply(true, [], true, s.leaderId))
  }

  /** A new process over the old state file: one load into a fresh log. */
  function Restart(s: NodeState): NodeState {
    s.(term := s.disk.term, votedFor := s.disk.votedFor, log := s.disk.log,
       commitIndex := 0, lastApplied := 0, role := Follower, leaderId := 0,
       nextIndex := seq(|s.peers|, _ => 1), matchIndex := seq(|s.peers|, _ => 0),
       replica := EMPTY_REPLICA)
  }

  function InitialNode(id: nat, peers: seq<nat>): NodeState {
    NodeState(id, peers, 0, 0, [DUMMY], 0, 0, Follower, 0,
              seq(|peers|, _ => 1), seq(|peers|, _ => 0), EMPTY_REPLICA, Durable(0, 0, [DUMMY]))
  }
}
