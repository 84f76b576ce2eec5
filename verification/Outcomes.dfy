/** What each handler leaves and answers, said in full and from outside: by term, vote, log position and
    count, not by the helpers its definition is made of. */
module Outcomes {
  import opened Wrappers
  import opened ByteCodec
  import opened Commands
  import opened Logs
  import opened Replay
  import opened Nodes
  import opened Clusters
  import opened Handlers
  import opened Durability

  // ---- The up-to-date comparison ---------------------------------------------------------------

  /** At least as far: by last term, then by last index. */
  predicate AtLeastAsFar(index: nat, term: nat, log: Log)
    requires |log| >= 1
  {
    term > log[|log| - 1].term || (term == log[|log| - 1].term && index >= |log| - 1)
  }

  lemma UpToDateIff(index: nat, term: nat, log: Log)
    requires |log| >= 1
    ensures UpToDate(index, term, log) <==> AtLeastAsFar(index, term, log)
  {
  }

  /** Log a is as good as log b. */
  predicate AsGood(a: Log, b: Log)
    requires |a| >= 1 && |b| >= 1
  {
    UpToDate(LastIndex(a), LastTerm(a), b)
  }

  /** A total order up to last term and index: of two logs one is as good as the other, the relation is
      transitive, and two logs as good as each other end alike. */
  lemma AsGoodIsTotalOrder(a: Log, b: Log, c: Log)
    requires |a| >= 1 && |b| >= 1 && |c| >= 1
    ensures AsGood(a, b) || AsGood(b, a)
    ensures AsGood(a, b) && AsGood(b, c) ==> AsGood(a, c)
    ensures AsGood(a, b) && AsGood(b, a) <==> LastTerm(a) == LastTerm(b) && LastIndex(a) == LastIndex(b)
  {
  }

  /** So among any servers one has a log that every other would vote for. */
  lemma {:induction false} SomeoneIsElectable(logs: seq<Log>) returns (best: nat)
    requires |logs| >= 1 && forall i :: 0 <= i < |logs| ==> |logs[i]| >= 1
    ensures best < |logs| && forall i :: 0 <= i < |logs| ==> AsGood(logs[best], logs[i])
  {
    hide AsGood;
    var last := |logs| - 1;
    AsGoodIsTotalOrder(logs[last], logs[last], logs[last]);
    if last == 0 {
      best := 0;
    } else {
      var init := logs[..last];
      best := SomeoneIsElectable(init);
      assert logs[best] == init[best];
      AsGoodIsTotalOrder(logs[best], logs[last], logs[last]);
      if !AsGood(logs[best], logs[last]) {
        forall i | 0 <= i < |logs| ensures AsGood(logs[last], logs[i]) {
          if i < last {
            assert logs[i] == init[i];
            AsGoodIsTotalOrder(logs[last], logs[best], logs[i]);
          }
        }
        best := last;
      }
    }
  }

  // ---- Votes --------------------------------------------------------------------------------------

  /** A vote is granted if and only if the term is not behind, the vote is free, and the candidate's log
      is at least as far; and this is all that changes. */
  lemma VoteOutcome(s: NodeState, args: RequestVoteArgs)
    requires |s.log| >= 1
    ensures var (s', r) := HandleRequestVote(s, args);
      && r.term == Max(s.term, args.term) == s'.term
      && (r.voteGranted <==>
            && args.term >= s.term
            && (args.term > s.term || s.votedFor == 0 || s.votedFor == args.candidateId)
            && AtLeastAsFar(args.lastLogIndex, args.lastLogTerm, s.log))
      && s'.votedFor == (if r.voteGranted then args.candidateId else if args.term > s.term then 0 else s.votedFor)
      && s'.role == (if args.term > s.term then Follower else s.role)
      && s'.leaderId == (if args.term > s.term then 0 else s.leaderId)
      && s'.disk == (if r.voteGranted || args.term > s.term then Durable(s'.term, s'.votedFor, s.log) else s.disk)
      && s' == s.(term := s'.term, votedFor := s'.votedFor, role := s'.role, leaderId := s'.leaderId, disk := s'.disk)
  {
    UpToDateIff(args.lastLogIndex, args.lastLogTerm, s.log);
  }

  /** Becoming a candidate, and becoming a leader. */
  lemma CandidateOutcome(s: NodeState)
    ensures var t := BecomeCandidate(s);
      t == s.(term := s.term + 1, votedFor := s.id, role := Candidate, leaderId := 0,
              disk := Durable(s.term + 1, s.id, s.log))
  {
  }

  lemma LeaderOutcome(s: NodeState)
    requires |s.log| >= 1
    ensures var t := BecomeLeader(s);
      && t == s.(role := Leader, leaderId := s.id, nextIndex := t.nextIndex, matchIndex := t.matchIndex)
      && |t.nextIndex| == |t.matchIndex| == |s.peers|
      && forall i :: 0 <= i < |s.peers| ==> t.nextIndex[i] == |s.log| && t.matchIndex[i] == 0
  {
  }

  // ---- Elections -------------------------------------------------------------------------------------

  /** The code's quorum is the least number that is more than half of the cluster. */
  lemma MajorityIsLeast(peers: nat)
    ensures 2 * Majority(peers) > peers + 1 >= 2 * (Majority(peers) - 1)
    ensures forall k: nat :: k >= Majority(peers) <==> 2 * k > peers + 1
  {
  }

  /** An election is won if and only if the votes are more than half of the cluster. */
  lemma CloseElectionOutcome(p: Process, n: nat)
    requires Ready(p, CloseElection(n)) && p.node.role != Leader
    ensures var (q, m) := Act(p, CloseElection(n));
      && m == None
      && (q.node.role == Leader <==> 2 * p.act.votes > |p.node.peers| + 1)
      && (q.node.role != Leader ==> q == Process(p.node, Idle))
      && (q.node.role == Leader ==> q.node.term == p.node.term && q.node.log == p.node.log && q.act == Sweeping(0, None))
  {
  }

  /** A vote counts if and only if it is granted; a higher term ends the election. */
  lemma VoteReplyOutcome(p: Process, n: nat, r: RequestVoteReply)
    requires Ready(p, TakeVoteReply(n, r))
    ensures var (q, m) := Act(p, TakeVoteReply(n, r));
      && m == None
      && if r.term > p.node.term
         then q.act.Idle? && q.node.term == r.term && q.node.role == Follower && q.node.votedFor == 0
              && q.node.log == p.node.log
         else
           && q.node == p.node && q.act.Electing?
           && q.act.votes == p.act.votes + (if r.voteGranted then 1 else 0)
           && q.act.next == p.act.next + 1 && q.act.request == p.act.request && !q.act.waiting
  {
  }

  // ---- Append requests, follower side ------------------------------------------------------------------

  /** The request's entries fit after an entry that the log has and that has the term claimed. */
  predicate FitsLog(log: Log, args: AppendEntriesArgs) {
    args.prevLogIndex < |log| && (args.prevLogIndex == 0 || log[args.prevLogIndex].term == args.prevLogTerm)
  }

  lemma FitsIff(log: Log, args: AppendEntriesArgs, term: nat)
    requires |log| >= 1
    ensures Conflict(log, args, term).None? <==> FitsLog(log, args)
  {
  }

  /** A request of an older term is refused and does nothing. */
  lemma StaleAppendOutcome(s: NodeState, args: AppendEntriesArgs)
    requires |s.log| >= 1 && args.term < s.term
    ensures Handled(s, args) == (s, Some(AppendEntriesReply(s.term, false, 0, 0)))
  {
  }

  /** Any other makes the node a follower of the sender in the sender's term; a same-term follower keeps its
      vote, any other node loses it. */
  lemma FollowOutcome(s: NodeState, args: AppendEntriesArgs)
    requires |s.log| >= 1 && args.term >= s.term
    ensures var (s', r) := Handled(s, args);
      && s'.term == args.term && s'.role == Follower && s'.leaderId == args.leaderId
      && s'.votedFor == (if args.term == s.term && s.role == Follower then s.votedFor else 0)
      && s'.id == s.id && s'.peers == s.peers && s'.nextIndex == s.nextIndex && s'.matchIndex == s.matchIndex
  {
    hide Merge, MergeRun, ApplyAll, Conflict;
  }

  /** The state file after a request holds what memory holds, if it did before and no append threw. */
  lemma AppendDiskOutcome(s: NodeState, args: AppendEntriesArgs)
    requires |s.log| >= 1 && s.disk == Durable(s.term, s.votedFor, s.log)
    ensures var (s', r) := Handled(s, args);
      r.Some? ==> s'.disk == Durable(s'.term, s'.votedFor, s'.log)
  {
    hide Merge, MergeRun, ApplyAll, Conflict;
  }

  /** It is accepted if and only if it fits; a refusal touches neither log, commit index nor store, and names
      the place to go back to: past the end of a log too short, else the start of the run of the
      conflicting term. */
  lemma RefusalOutcome(s: NodeState, args: AppendEntriesArgs)
    requires |s.log| >= 1 && args.term >= s.term
    ensures var (s', r) := Handled(s, args);
      && (r.Some? ==> (r.value.success <==> FitsLog(s.log, args)) && r.value.term == args.term)
      && (r.Some? && r.value.success ==> r.value.conflictIndex == 0 && r.value.conflictTerm == 0)
      && (!FitsLog(s.log, args) ==>
            && r.Some?
            && s'.log == s.log && s'.commitIndex == s.commitIndex && s'.lastApplied == s.lastApplied
            && s'.replica == s.replica
            && PointsBack(s.log, args.prevLogIndex, r.value))
  {
    hide Merge, MergeRun, ApplyAll;
    FitsIff(s.log, args, args.term);
  }

  /** The cluster's step accepts if and only if the term is not behind and the request fits. */
  lemma StepAccepts(s: NodeState, args: AppendEntriesArgs)
    requires |s.log| >= 1
    ensures var (s', r) := HandleAppendEntries(s, args);
      && (r.success <==> args.term >= s.term && FitsLog(s.log, args))
      && r.term == s'.term == Max(s.term, args.term)
  {
    hide Merge, ApplyAll, RunStart;
  }

  ghost predicate PointsBack(log: Log, prev: nat, r: AppendEntriesReply) {
    if prev >= |log| then r.conflictIndex == |log| && r.conflictTerm == 0
    else
      && 1 <= r.conflictIndex <= prev && r.conflictTerm == log[prev].term
      && (forall j :: r.conflictIndex <= j <= prev ==> log[j].term == log[prev].term)
      && (r.conflictIndex > 1 ==> log[r.conflictIndex - 1].term != log[prev].term)
  }

  /** An accepted request leaves the log alone if no entry of it is missing or of another term; else it cuts
      at the first such and appends the rest. */
  lemma AcceptedLogOutcome(s: NodeState, args: AppendEntriesArgs, n: nat)
    requires |s.log| >= 1 && args.term >= s.term && FitsLog(s.log, args)
    requires n <= |args.entries| && forall i :: 0 <= i < n ==> Holds(s.log, args.prevLogIndex, args.entries, i)
    requires n < |args.entries| ==> !Holds(s.log, args.prevLogIndex, args.entries, n)
    ensures args.prevLogIndex + n < |s.log|
    ensures var (s', r) := Handled(s, args);
      r.Some? ==>
        s'.log == if n == |args.entries| then s.log else s.log[..args.prevLogIndex + 1 + n] + args.entries[n..]
  {
    hide ApplyAll, MergeRun, Merge, Handled, Conflict;
    FitsIff(s.log, args, args.term);
    MergeAt(s.log, args.prevLogIndex, args.entries, n);
    AcceptedIsMerged(s, args);
  }

  lemma AcceptedIsMerged(s: NodeState, args: AppendEntriesArgs)
    requires |s.log| >= 1 && args.term >= s.term && FitsLog(s.log, args)
    ensures Handled(s, args).1.Some? ==> Handled(s, args).0.log == Merge(s.log, args.prevLogIndex, args.entries)
  {
    hide ApplyAll, MergeRun, Merge, Accept, RunStart;
    FitsIff(s.log, args, args.term);
    AcceptFrame(StepDownFor(s, args), args);
  }

  lemma MergeAt(log: Log, prev: nat, entries: seq<LogEntry>, n: nat)
    requires prev < |log| && n <= |entries|
    requires forall i :: 0 <= i < n ==> Holds(log, prev, entries, i)
    requires n < |entries| ==> !Holds(log, prev, entries, n)
    ensures prev + n < |log|
    ensures Merge(log, prev, entries) == if n == |entries| then log else log[..prev + 1 + n] + entries[n..]
  {
    if n > 0 {
      assert Holds(log, prev, entries, n - 1);
    }
    assert HeldCount(log, prev, entries) == n;
  }

  /** The entries a node applies on the way from what it had applied to its commit index, if any. */
  ghost predicate AppliedUpTo(s: NodeState, s': NodeState, commit: nat)
    requires commit < |s'.log|
  {
    if s.lastApplied < commit
    then s'.lastApplied == commit && s'.replica == ApplyAll(s.replica, s'.log[s.lastApplied + 1..commit + 1])
    else s'.lastApplied == s.lastApplied && s'.replica == s.replica
  }

  /** A follower follows: when an accepted request is ahead of its commit index, it commits as far as the
      request says or its log reaches, and applies what it has committed; otherwise it does neither. */
  lemma FollowerCommits(s: NodeState, args: AppendEntriesArgs)
    requires |s.log| >= 1
    ensures var (s', r) := Handled(s, args);
      && |s'.log| >= 1
      && if r.Some? && r.value.success && args.leaderCommit > s.commitIndex
         then s'.commitIndex == Min(args.leaderCommit, |s'.log| - 1) && AppliedUpTo(s, s', s'.commitIndex)
         else s'.commitIndex == s.commitIndex && s'.lastApplied == s.lastApplied && s'.replica == s.replica
  {
    hide ApplyAll, MergeRun, HandleAppendEntries, Conflict, StepDownFor;
    StepDownKeepsLog(s, args);
    if args.term >= s.term && Conflict(s.log, args, args.term).None? {
      FitsIff(s.log, args, args.term);
      MergeNotEmpty(s.log, args.prevLogIndex, args.entries);
    }
    StepFollowerCommits(s, args);
  }

  lemma StepDownKeepsLog(s: NodeState, args: AppendEntriesArgs)
    ensures var t := StepDownFor(s, args);
      && t.log == s.log && t.commitIndex == s.commitIndex && t.lastApplied == s.lastApplied && t.replica == s.replica
      && (args.term >= s.term ==> t.term == args.term)
  {
  }

  /** The same of the cluster's step. */
  lemma StepFollowerCommits(s: NodeState, args: AppendEntriesArgs)
    requires |s.log| >= 1
    ensures var (s', r) := HandleAppendEntries(s, args);
      && |s'.log| >= 1
      && if r.success && args.leaderCommit > s.commitIndex
         then s'.commitIndex == Min(args.leaderCommit, |s'.log| - 1) && AppliedUpTo(s, s', s'.commitIndex)
         else s'.commitIndex == s.commitIndex && s'.lastApplied == s.lastApplied && s'.replica == s.replica
  {
    hide Accept, ApplyAll, RunStart;
    if args.term >= s.term && Conflict(s.log, args, args.term).None? {
      FitsIff(s.log, args, args.term);
      AcceptCommits(StepDownFor(s, args), args);
    }
  }

  lemma AcceptCommits(t: NodeState, args: AppendEntriesArgs)
    requires args.prevLogIndex < |t.log|
    ensures var u := Accept(t, args);
      && |u.log| >= 1
      && if args.leaderCommit > t.commitIndex
         then u.commitIndex == Min(args.leaderCommit, |u.log| - 1) && AppliedUpTo(t, u, u.commitIndex)
         else u.commitIndex == t.commitIndex && u.lastApplied == t.lastApplied && u.replica == t.replica
  {
    hide Merge, ApplyAll;
    MergeNotEmpty(t.log, args.prevLogIndex, args.entries);
  }

  lemma MergeNotEmpty(log: Log, prev: nat, entries: seq<LogEntry>)
    requires prev < |log|
    ensures |Merge(log, prev, entries)| >= 1 && |MergeRun(log, prev, entries).0| >= 1
  {
  }

  // ---- Leaders --------------------------------------------------------------------------------------------

  /** The peers whose logs are known to reach index n. */
  ghost function Reached(matchIndex: seq<nat>, n: nat): set<int> {
    set i | 0 <= i < |matchIndex| && matchIndex[i] >= n
  }

  lemma {:induction false} CountIsReached(matchIndex: seq<nat>, n: nat)
    ensures CountAtLeast(matchIndex, n) == |Reached(matchIndex, n)|
  {
    if matchIndex == [] {
      assert Reached(matchIndex, n) == {};
    } else {
      var last := |matchIndex| - 1;
      var init := matchIndex[..last];
      CountIsReached(init, n);
      assert Reached(matchIndex, n) == Reached(init, n) + if matchIndex[last] >= n then {last} else {};
    }
  }

  /** More than half of the cluster, the leader included, have the entry at n, and it is of the leader's own
      term. */
  ghost predicate HeldByMost(s: NodeState, n: nat)
    requires n < |s.log|
  {
    s.log[n].term == s.term && 2 * (1 + |Reached(s.matchIndex, n)|) > |s.peers| + 1
  }

  lemma CommittableIff(s: NodeState, n: nat)
    requires n < |s.log|
    ensures Committable(s, n) <==> HeldByMost(s, n)
  {
    CountIsReached(s.matchIndex, n);
    MajorityIsLeast(|s.peers|);
  }

  /** The leader's commit decision: its commit index goes to the greatest index above it that most have and
      that is of its own term, if there is one, and what is committed is applied. */
  ghost predicate CommitsMost(s: NodeState, s': NodeState)
    requires |s.log| >= 1
  {
    && s' == s.(commitIndex := s'.commitIndex, lastApplied := s'.lastApplied, replica := s'.replica)
    && (s'.commitIndex == s.commitIndex || (s.commitIndex < s'.commitIndex < |s.log| && HeldByMost(s, s'.commitIndex)))
    && (forall m :: s'.commitIndex < m < |s.log| ==> !HeldByMost(s, m))
    && if s'.commitIndex == s.commitIndex then s' == s else AppliedUpTo(s, s', s'.commitIndex)
  }

  lemma LeaderCommits(s: NodeState)
    requires |s.log| >= 1
    ensures if s.role == Leader then CommitsMost(s, UpdateCommitIndex(s)) else UpdateCommitIndex(s) == s
  {
    hide ApplyAll, Committable, HeldByMost;
    if s.role == Leader {
      forall n | 0 <= n < |s.log| ensures Committable(s, n) <==> HeldByMost(s, n) {
        CommittableIff(s, n);
      }
    }
  }

  /** What a leader asks of its i-th peer: the whole suffix from its next index, the entry before, and how far
      it has committed. */
  ghost predicate Asks(s: NodeState, i: nat, args: AppendEntriesArgs) {
    && i < |s.nextIndex| && 1 <= s.nextIndex[i] <= |s.log|
    && args.term == s.term && args.leaderId == s.id
    && args.prevLogIndex == s.nextIndex[i] - 1
    && args.prevLogTerm == s.log[s.nextIndex[i] - 1].term
    && args.entries == s.log[s.nextIndex[i]..]
    && args.leaderCommit == s.commitIndex
  }

  lemma RequestOutcome(s: NodeState, i: nat)
    requires i < |s.nextIndex| && 1 <= s.nextIndex[i] <= |s.log|
    ensures Asks(s, i, AppendArgs(s, i))
  {
  }

  /** Taking the answer. A higher term makes the leader a follower; a refusal or failure moves only that
      peer's next index, to where it was told but not below 1; success credits the peer with all that was
      shipped, and then the leader commits what it can. */
  lemma AppendReplyOutcome(s: NodeState, i: nat, args: AppendEntriesArgs, r: AppendEntriesReply)
    requires WellIndexed(s.log) && i < |s.nextIndex| && i < |s.matchIndex| && Asks(s, i, args)
    ensures var s' := OnAppendReply(s, i, args, r);
      if r.term > s.term then
        s' == s.(term := r.term, role := Follower, votedFor := 0, leaderId := 0, disk := Durable(r.term, 0, s.log))
      else if !r.success then
        s' == s.(nextIndex := s.nextIndex[i := if r.conflictIndex <= 1 then 1 else r.conflictIndex])
      else
        var t := if s.nextIndex[i] == |s.log| then s
                 else s.(matchIndex := s.matchIndex[i := |s.log| - 1], nextIndex := s.nextIndex[i := |s.log|]);
        if s.role == Leader then CommitsMost(t, s') else s' == t
  {
    hide UpdateCommitIndex, CommitsMost;
    if r.term <= s.term && r.success {
      var t := Credited(s, i, args);
      if args.entries != [] {
        assert args.entries[|args.entries| - 1] == s.log[|s.log| - 1];
      }
      LeaderCommits(t);
    }
  }

  // ---- Clients and restarts ------------------------------------------------------------------------------

  /** A client's request. A node that does not lead says who does, as far as it knows. A number already
      used is answered at once, a read with the value the store has. Anything else becomes the log's next
      entry, on disk too, and succeeds, unless it is too long to serialize. */
  lemma ClientOutcome(s: NodeState, req: ClientRequest)
    requires |s.log| >= 1
    ensures var (s', r) := HandleClientRequest(s, req);
      && r.isLeader == (s.role == Leader) && r.leaderId == s.leaderId
      && var used := req.clientId in s.replica.lastSeq && s.replica.lastSeq[req.clientId] >= req.sequenceNum;
      && var long := |req.command.key| >= TWO_TO_32 || (!req.command.Get? && |req.command.value| >= TWO_TO_32);
      && (r.success <==> s.role == Leader && (used || !long))
      && r.value == (if s.role == Leader && used && req.command.Get? && req.command.key in s.replica.store
                     then s.replica.store[req.command.key] else [])
      && if s.role == Leader && !used && !long
         then
           && |s'.log| == |s.log| + 1 && s'.log[..|s.log|] == s.log
           && s'.log[|s.log|].index == |s.log| && s'.log[|s.log|].term == s.term
           && Parse(s'.log[|s.log|].data) == Some(req.command)
           && s' == s.(log := s'.log, disk := Durable(s.term, s.votedFor, s'.log))
         else s' == s
  {
    hide Parse;
    LayoutFailsIff(req.command);
    var data := Layout(req.command);
    if data.Some? {
      ParseOfLayout(req.command, []);
      assert data.value + [] == data.value;
    }
  }

  /** A restart: the term, vote and log on disk; a follower that knows no leader, has committed and applied
      nothing and holds an empty store; books as of a new process. */
  lemma RestartOutcome(s: NodeState)
    ensures var t := Restart(s);
      && t.id == s.id && t.peers == s.peers && t.disk == s.disk
      && (t.term, t.votedFor, t.log) == (s.disk.term, s.disk.votedFor, s.disk.log)
      && t.role == Follower && t.leaderId == 0 && t.commitIndex == 0 && t.lastApplied == 0
      && t.replica.store == map[] && t.replica.lastSeq == map[]
      && |t.nextIndex| == |t.matchIndex| == |s.peers|
      && forall i :: 0 <= i < |s.peers| ==> t.nextIndex[i] == 1 && t.matchIndex[i] == 0
  {
  }
}
