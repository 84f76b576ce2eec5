/** Delivering a request to append, and taking its reply, keep the invariant. */
module Acceptance {
  import opened Wrappers
  import opened Logs
  import opened Nodes
  import opened Clusters
  import opened Histories
  import opened Growth
  import opened Invariants
  import opened Elections
  import opened Winning
  import opened Replication

  lemma StepDownForKeeps(cfg: Config, h: History, n: nat, s: NodeState, args: AppendEntriesArgs)
    requires HistoryInv(cfg, h) && ServerOk(cfg, h, n, s)
    requires args.term >= s.term && RequestOk(cfg, h, args) && args.leaderId != n
    ensures ServerOk(cfg, h, n, StepDownFor(s, args))
    ensures StepDownFor(s, args).role == Follower && StepDownFor(s, args).term == args.term
    ensures StepDownFor(s, args).log == s.log
  {
    if args.term > s.term || s.role != Follower {
      StepDownKeeps(cfg, h, n, s, args.term);
    }
  }

  lemma LeaderIsTraced(cfg: Config, h: History, term: nat, log: Log)
    requires HistoryInv(cfg, h) && term in h.leaderLog && Traced(h, log)
    ensures Traced(h, h.leaderLog[term])
    ensures log != [] && h.leaderLog[term] != [] && log[0].term == h.leaderLog[term][0].term
  {
    assert ElectionOk(cfg, h, term);
  }

  /** A request that passes the previous-entry check feeds the log from the leader's. */
  lemma MergeIsFed(cfg: Config, h: History, log: Log, args: AppendEntriesArgs)
    requires HistoryInv(cfg, h) && Traced(h, log)
    requires RequestOk(cfg, h, args) && Conflict(log, args, args.term).None?
    ensures args.prevLogIndex < |log|
    ensures Fed(cfg, h, log, Merge(log, args.prevLogIndex, args.entries), args.term,
                args.prevLogIndex + |args.entries|)
  {
    hide Matching, Merge, CommittedTo, HistoryInv, ElectionOk, Traced;
    var leader := h.leaderLog[args.term];
    LeaderIsTraced(cfg, h, args.term, log);
    assert log[args.prevLogIndex].term == leader[args.prevLogIndex].term;
    TracedLogsAreMatching(h, log, leader);
    MergeFollowsLeader(log, leader, args.prevLogIndex, args.entries);
  }

  lemma FedIsTraced(cfg: Config, h: History, log: Log, log': Log, term: nat, upTo: nat)
    requires Fed(cfg, h, log, log', term, upTo) && LastTerm(log) <= term
    ensures Traced(h, log') && LastTerm(log') <= term
  {
    if !AgreeTo(log, h.leaderLog[term], upTo) {
      assert ElectionOk(cfg, h, term);
      LeaderLogTerms(cfg, h, term, upTo);
      hide HistoryInv;
      TracedPrefix(h, h.leaderLog[term], upTo + 1);
    }
  }

  lemma MergedCommit(cfg: Config, h: History, h': History, s: NodeState, s': NodeState, upTo: nat)
    requires Extends(h, h') && CommitOk(cfg, h, s)
    requires Fed(cfg, h, s.log, s'.log, s.term, upTo)
    requires s' == s.(log := s'.log, disk := s'.disk)
    ensures CommitOk(cfg, h', s')
  {
    FedKeepsCommitted(cfg, h, s.log, s'.log, s.term, upTo, s.commitIndex);
    CommittedToStable(cfg, h, h', s.log, s'.log, s.commitIndex, s.term, s.term);
    assert s'.log[1..s.lastApplied + 1] == s.log[1..s.lastApplied + 1] by {
      AgreeToShorter(s.log, s'.log, s.commitIndex, s.lastApplied);
      assert s.log[1..s.lastApplied + 1] == s.log[..s.lastApplied + 1][1..];
      assert s'.log[1..s.lastApplied + 1] == s'.log[..s.lastApplied + 1][1..];
    }
  }

  lemma MergedServer(cfg: Config, h: History, h': History, n: nat, s: NodeState, s': NodeState, upTo: nat)
    requires ServerOk(cfg, h, n, s) && s.role == Follower
    requires Extends(h, h') && h'.grants == h.grants && h'.bids == h.bids && h'.elections == h.elections
    requires Fed(cfg, h, s.log, s'.log, s.term, upTo)
    requires s' == s.(log := s'.log, disk := Durable(s.term, s.votedFor, s'.log))
    requires Traced(h, s'.log) && LastTerm(s'.log) <= s.term
    requires forall t :: (n, t) in h'.acks ==> t <= s.term
    requires Retains(h', n, s'.log, s.term)
    ensures ServerOk(cfg, h', n, s')
  {
    TracedStable(h, h', s'.log);
    MergedCommit(cfg, h, h', s, s', upTo);
  }

  lemma MergedShape(s: NodeState, args: AppendEntriesArgs)
    requires args.prevLogIndex < |s.log| && s.disk == Durable(s.term, s.votedFor, s.log)
    ensures var s' := Merged(s, args);
      && s'.log == Merge(s.log, args.prevLogIndex, args.entries) && s'.term == s.term
      && s' == s.(log := s'.log, disk := Durable(s.term, s.votedFor, s'.log))
  {
  }

  /** The server after its log was fed from its leader's. */
  lemma FedServer(cfg: Config, h: History, h': History, n: nat, s: NodeState, s': NodeState, upTo: nat)
    requires HistoryInv(cfg, h) && ServerOk(cfg, h, n, s) && s.role == Follower
    requires Fed(cfg, h, s.log, s'.log, s.term, upTo)
    requires h' == Acknowledge(h, n, s.term, upTo) && Extends(h, h')
    requires s' == s.(log := s'.log, disk := Durable(s.term, s.votedFor, s'.log))
    ensures ServerOk(cfg, h', n, s')
  {
    assert LastTerm(s.log) <= s.term && Retains(h, n, s.log, s.term);
    assert forall t :: (n, t) in h'.acks ==> t <= s.term;
    assert h'.grants == h.grants && h'.bids == h.bids && h'.elections == h.elections;
    hide ServerOk, HistoryInv, Retains, Extends;
    FedIsTraced(cfg, h, s.log, s'.log, s.term, upTo);
    FedRetains(cfg, h, n, s.log, s'.log, s.term, upTo);
    hide Fed, Traced;
    MergedServer(cfg, h, h', n, s, s', upTo);
  }

  /** The commit shortcut is safe: the request's own entries reach its commit index, so the
      minimum with the last index never commits a stale tail. */
  lemma CommitShortcutKeeps(cfg: Config, h: History, n: nat, s: NodeState, args: AppendEntriesArgs)
    requires ServerOk(cfg, h, n, s)
    requires RequestOk(cfg, h, args) && args.term == s.term
    requires AgreeTo(s.log, h.leaderLog[s.term], args.prevLogIndex + |args.entries|)
    ensures ServerOk(cfg, h, n, AdvanceCommit(s, args.leaderCommit))
    ensures args.leaderCommit <= LastIndex(s.log)
  {
    if args.leaderCommit > s.commitIndex {
      var leader := h.leaderLog[args.term];
      AgreeToShorter(s.log, leader, args.prevLogIndex + |args.entries|, args.leaderCommit);
      CommittedToStable(cfg, h, h, leader, s.log, args.leaderCommit, args.term, args.term);
      CommitAdvances(cfg, h, n, s, args.leaderCommit);
    }
  }

  /** Raising the commit index to a committed position and applying up to it. */
  lemma CommitAdvances(cfg: Config, h: History, n: nat, s: NodeState, c: nat)
    requires ServerOk(cfg, h, n, s)
    requires s.commitIndex <= c < |s.log| && CommittedTo(cfg, h, s.log, c, s.term)
    ensures ServerOk(cfg, h, n, ApplyCommitted(s.(commitIndex := c)))
  {
    ApplyKeeps(cfg, h, s.(commitIndex := c));
  }

  ghost function ObserveAppend(h: History, n: nat, s: NodeState, args: AppendEntriesArgs): History
    requires |s.log| >= 1
  {
    var (s', r) := HandleAppendEntries(s, args);
    if r.success then Acknowledge(h, n, s'.term, args.prevLogIndex + |args.entries|) else h
  }

  /** The acknowledgement of a request that passed the check, and the merge it stands for. */
  lemma AcknowledgeRequest(cfg: Config, h: History, n: nat, s: NodeState, args: AppendEntriesArgs)
    requires HistoryInv(cfg, h) && ServerOk(cfg, h, n, s)
    requires RequestOk(cfg, h, args) && args.term == s.term
    requires Conflict(s.log, args, s.term).None?
    ensures args.prevLogIndex < |s.log|
    ensures Fed(cfg, h, s.log, Merge(s.log, args.prevLogIndex, args.entries), s.term, args.prevLogIndex + |args.entries|)
    ensures var h' := Acknowledge(h, n, s.term, args.prevLogIndex + |args.entries|);
      GrowsAt(h, h', n, s.term) && HistoryInv(cfg, h') && Acked(h', n, s.term, args.prevLogIndex + |args.entries|)
  {
    hide ServerOk, Traced, VotesWithin, VotingOk, Conflict, Merge, GrowsAt, HistoryInv, Fed, RequestOk, Acknowledge, Acked;
    ServerParts(cfg, h, n, s);
    RequestParts(cfg, h, args);
    NodeVotesWithin(cfg, h, n, s, s.term);
    MergeIsFed(cfg, h, s.log, args);
    AcknowledgeGrows(cfg, h, n, s.term, args.prevLogIndex + |args.entries|);
  }

  lemma MergedKeeps(cfg: Config, h: History, n: nat, s: NodeState, args: AppendEntriesArgs)
    requires HistoryInv(cfg, h) && ServerOk(cfg, h, n, s) && s.role == Follower
    requires args.prevLogIndex < |s.log|
    requires Fed(cfg, h, s.log, Merge(s.log, args.prevLogIndex, args.entries), s.term, args.prevLogIndex + |args.entries|)
    requires Extends(h, Acknowledge(h, n, s.term, args.prevLogIndex + |args.entries|))
    ensures Merged(s, args).term == s.term
    ensures var h' := Acknowledge(h, n, s.term, args.prevLogIndex + |args.entries|);
      && ServerOk(cfg, h', n, Merged(s, args))
      && s.term in h'.leaderLog
      && AgreeTo(Merged(s, args).log, h'.leaderLog[s.term], args.prevLogIndex + |args.entries|)
  {
    hide HistoryInv, ServerOk, Extends, Merge, Merged, Acknowledge, Fed, Traced, CommitOk, CommittedTo, VotingOk, AcksOk,
         Retains, LeadOk, AgreeTo;
    var upTo := args.prevLogIndex + |args.entries|;
    var h' := Acknowledge(h, n, s.term, upTo);
    ServerParts(cfg, h, n, s);
    MergedShape(s, args);
    FedReaches(cfg, h, h', s.log, Merged(s, args).log, s.term, upTo);
    FedServer(cfg, h, h', n, s, Merged(s, args), upTo);
  }

  /** Merging, before the commit index moves. */
  lemma AcceptMerges(cfg: Config, h: History, n: nat, s: NodeState, args: AppendEntriesArgs)
    requires HistoryInv(cfg, h) && ServerOk(cfg, h, n, s)
    requires RequestOk(cfg, h, args) && args.term == s.term && s.role == Follower
    requires Conflict(s.log, args, s.term).None?
    ensures args.prevLogIndex < |s.log| && Merged(s, args).term == s.term
    ensures var h' := Acknowledge(h, n, s.term, args.prevLogIndex + |args.entries|);
      && Extends(h, h')
      && ServerOk(cfg, h', n, Merged(s, args))
      && args.term in h'.leaderLog
      && AgreeTo(Merged(s, args).log, h'.leaderLog[args.term], args.prevLogIndex + |args.entries|)
  {
    var upTo := args.prevLogIndex + |args.entries|;
    var h' := Acknowledge(h, n, s.term, upTo);
    hide HistoryInv, ServerOk, GrowsAt, Extends, RequestOk, Conflict, Merge, Merged, Acknowledge, Acked, Fed;
    AcknowledgeRequest(cfg, h, n, s, args);
    GrowsExtends(h, h', n, s.term);
    MergedKeeps(cfg, h, n, s, args);
  }

  lemma AcceptKeeps(cfg: Config, h: History, n: nat, s: NodeState, args: AppendEntriesArgs)
    requires HistoryInv(cfg, h) && ServerOk(cfg, h, n, s)
    requires RequestOk(cfg, h, args) && args.term == s.term && s.role == Follower
    requires Conflict(s.log, args, s.term).None?
    ensures args.prevLogIndex < |s.log|
    ensures var h' := Acknowledge(h, n, s.term, args.prevLogIndex + |args.entries|);
      Extends(h, h') && RequestOk(cfg, h', args) && ServerOk(cfg, h', n, Accept(s, args))
  {
    var h' := Acknowledge(h, n, s.term, args.prevLogIndex + |args.entries|);
    hide HistoryInv, ServerOk, Extends, RequestOk, Conflict, Merged, AdvanceCommit, Acknowledge;
    AcceptMerges(cfg, h, n, s, args);
    RequestStable(cfg, h, h', args);
    CommitShortcutKeeps(cfg, h', n, Merged(s, args), args);
  }

  lemma FedReaches(cfg: Config, h: History, h': History, log: Log, log': Log, term: nat, upTo: nat)
    requires Fed(cfg, h, log, log', term, upTo) && Extends(h, h')
    ensures term in h'.leaderLog && AgreeTo(log', h'.leaderLog[term], upTo)
  {
    AgreeToLonger(log', h.leaderLog[term], h'.leaderLog[term], upTo);
  }

  lemma FollowerIdles(cfg: Config, h: History, n: nat, s: NodeState)
    requires ServerOk(cfg, h, n, s) && s.role == Follower
    ensures NodeOk(cfg, h, n, Process(s, Idle))
  {
  }

  lemma AcceptOutcome(cfg: Config, h: History, n: nat, s: NodeState, args: AppendEntriesArgs)
    requires HistoryInv(cfg, h) && ServerOk(cfg, h, n, s)
    requires RequestOk(cfg, h, args) && args.term == s.term && s.role == Follower
    requires Conflict(s.log, args, s.term).None?
    ensures args.prevLogIndex < |s.log| && Accept(s, args).term == s.term
    ensures var h' := Acknowledge(h, n, s.term, args.prevLogIndex + |args.entries|);
      Outcome(cfg, h, h', n, Process(Accept(s, args), Idle),
              Some(AppendReply(n, args, AppendEntriesReply(s.term, true, 0, 0))))
  {
    hide ServerOk, HistoryInv, GrowsAt, NodeOk, RequestOk, Conflict, Acked, Acknowledge, Fed;
    var h' := Acknowledge(h, n, s.term, args.prevLogIndex + |args.entries|);
    AcknowledgeRequest(cfg, h, n, s, args);
    AcceptKeeps(cfg, h, n, s, args);
    FollowerIdles(cfg, h', n, Accept(s, args));
  }

  lemma ConflictReply(log: Log, args: AppendEntriesArgs, term: nat)
    requires |log| >= 1 && Conflict(log, args, term).Some?
    ensures !Conflict(log, args, term).value.success
    ensures 1 <= Conflict(log, args, term).value.conflictIndex <= args.prevLogIndex
  {
  }

  lemma RejectOutcome(cfg: Config, h: History, n: nat, s: NodeState, args: AppendEntriesArgs, r: AppendEntriesReply)
    requires HistoryInv(cfg, h) && ServerOk(cfg, h, n, s)
    requires s.role == Follower || NodeOk(cfg, h, n, Process(s, Idle))
    requires !r.success && r.conflictIndex <= args.prevLogIndex
    ensures Outcome(cfg, h, h, n, Process(s, Idle), Some(AppendReply(n, args, r)))
  {
    GrowsByNothing(h, n, s.term);
  }

  lemma HandleAppendOutcome(cfg: Config, h: History, n: nat, s: NodeState, args: AppendEntriesArgs)
    requires HistoryInv(cfg, h) && ServerOk(cfg, h, n, s) && NodeOk(cfg, h, n, Process(s, Idle))
    requires RequestOk(cfg, h, args) && args.leaderId != n && |s.log| >= 1
    ensures var (s', r) := HandleAppendEntries(s, args);
      Outcome(cfg, h, ObserveAppend(h, n, s, args), n, Process(s', Idle), Some(AppendReply(n, args, r)))
  {
    hide HistoryInv, GrowsAt, ServerOk, NodeOk, RequestOk, Outcome, StepDownFor, Conflict, Accept, Acknowledge;
    if args.term < s.term {
      RejectOutcome(cfg, h, n, s, args, HandleAppendEntries(s, args).1);
    } else {
      var t := StepDownFor(s, args);
      StepDownForKeeps(cfg, h, n, s, args);
      if Conflict(t.log, args, t.term).Some? {
        ConflictReply(t.log, args, t.term);
        RejectOutcome(cfg, h, n, t, args, HandleAppendEntries(s, args).1);
      } else {
        AcceptOutcome(cfg, h, n, t, args);
      }
    }
  }

  lemma DeliverAppendKeeps(cfg: Config, h: History, n: nat, p: Process, args: AppendEntriesArgs)
    requires HistoryInv(cfg, h) && NodeOk(cfg, h, n, p)
    requires Ready(p, DeliverAppend(n, args)) && MessageOk(cfg, h, AppendRequest(n, args))
    ensures var (p', m) := Act(p, DeliverAppend(n, args));
      Outcome(cfg, h, ObserveAppend(h, n, p.node, args), n, p', m)
  {
    hide HistoryInv, ServerOk, NodeOk, ActOk, RequestOk, MessageOk, Outcome, HandleAppendEntries, ObserveAppend;
    AppendRequestParts(cfg, h, n, args);
    IdleParts(cfg, h, n, p);
    HandleAppendOutcome(cfg, h, n, p.node, args);
  }

  lemma AppendRequestParts(cfg: Config, h: History, n: nat, args: AppendEntriesArgs)
    requires MessageOk(cfg, h, AppendRequest(n, args))
    ensures RequestOk(cfg, h, args) && args.leaderId != n
  {
  }

  lemma IdleParts(cfg: Config, h: History, n: nat, p: Process)
    requires NodeOk(cfg, h, n, p) && p.act.Idle?
    ensures ServerOk(cfg, h, n, p.node) && p == Process(p.node, Idle)
  {
  }

  // ---- The leader takes the reply ----------------------------------------------------------

  ghost function Holders(s: NodeState, count: nat, n: nat): set<nat>
    requires count <= |s.peers| && count <= |s.matchIndex|
  {
    set i | 0 <= i < count && s.matchIndex[i] >= n :: s.peers[i]
  }

  lemma HoldersStep(s: NodeState, i: nat, n: nat)
    requires i < |s.peers| && i < |s.matchIndex| && Distinct(s.peers)
    ensures s.peers[i] !in Holders(s, i, n)
    ensures Holders(s, i + 1, n) == Holders(s, i, n) + if s.matchIndex[i] >= n then {s.peers[i]} else {}
  {
    var added: set<nat> := if s.matchIndex[i] >= n then {s.peers[i]} else {};
    forall y ensures y in Holders(s, i + 1, n) <==> y in Holders(s, i, n) + added {
    }
  }

  lemma {:induction false} CountIsHolders(s: NodeState, count: nat, n: nat)
    requires count <= |s.peers| && count <= |s.matchIndex| && Distinct(s.peers)
    ensures |Holders(s, count, n)| == CountAtLeast(s.matchIndex[..count], n)
  {
    if count > 0 {
      hide Holders, Distinct;
      CountIsHolders(s, count - 1, n);
      assert s.matchIndex[..count][..count - 1] == s.matchIndex[..count - 1];
      HoldersStep(s, count - 1, n);
    } else {
      assert Holders(s, count, n) == {};
    }
  }

  /** The commit rule decides on a real quorum. */
  lemma CommittableIsCommitted(cfg: Config, h: History, x: nat, s: NodeState, n: nat)
    requires HistoryInv(cfg, h) && ServerOk(cfg, h, x, s)
    requires s.role == Leader && 0 < n < |s.log| && Committable(s, n)
    ensures Committed(cfg, h, s.term, n)
  {
    ClusterSize(cfg, x);
    CountIsHolders(s, |s.peers|, n);
    assert s.matchIndex[..|s.peers|] == s.matchIndex;
    var holders := Holders(s, |s.peers|, n) + {x};
    assert x !in s.peers;
    assert x !in Holders(s, |s.peers|, n);
    var ackers := Ackers(cfg, h, s.term, n);
    forall y | y in holders ensures y in ackers {
      if y != x {
        var i :| 0 <= i < |s.peers| && s.matchIndex[i] >= n && s.peers[i] == y;
        assert Acked(h, s.peers[i], s.term, s.matchIndex[i]);
      }
    }
    SubsetSize(holders, ackers);
  }

  lemma UpdateCommitKeeps(cfg: Config, h: History, x: nat, s: NodeState)
    requires HistoryInv(cfg, h) && ServerOk(cfg, h, x, s) && s.role == Leader
    ensures ServerOk(cfg, h, x, UpdateCommitIndex(s))
    ensures var t := UpdateCommitIndex(s); t.role == s.role && t.log == s.log && t.nextIndex == s.nextIndex
  {
    var c := CommitTarget(s, LastIndex(s.log));
    if c != s.commitIndex {
      CommittableIsCommitted(cfg, h, x, s, c);
      AgreeToFrom(s.log, h.leaderLog[s.term], c);
      assert Witness(cfg, h, s.log, c, s.term, s.term, c);
      CommitAdvances(cfg, h, x, s, c);
    }
  }

  lemma CreditKeeps(cfg: Config, h: History, x: nat, s: NodeState, i: nat, args: AppendEntriesArgs)
    requires HistoryInv(cfg, h) && ServerOk(cfg, h, x, s) && s.role == Leader
    requires i < |s.peers| && RequestOk(cfg, h, args) && args.term == s.term
    requires Acked(h, s.peers[i], s.term, args.prevLogIndex + |args.entries|)
    ensures ServerOk(cfg, h, x, Credited(s, i, args))
    ensures args.entries != [] ==> args.entries[|args.entries| - 1].index < |s.log|
  {
    if args.entries != [] {
      var at := args.prevLogIndex + |args.entries|;
      assert args.entries[|args.entries| - 1] == s.log[at];
    }
  }

  lemma SweepMovesOn(cfg: Config, h: History, n: nat, s: NodeState, next: nat)
    requires ServerOk(cfg, h, n, s) && s.role == Leader && next <= |s.peers|
    requires forall i :: 0 <= i < |s.nextIndex| ==> s.nextIndex[i] <= |s.log|
    ensures NodeOk(cfg, h, n, Process(s, Sweeping(next, None)))
  {
  }

  lemma SuccessKeeps(cfg: Config, h: History, n: nat, p: Process)
    requires HistoryInv(cfg, h) && NodeOk(cfg, h, n, p)
    requires p.act.Sweeping? && p.act.pending.Some?
    requires Acked(h, p.node.peers[p.act.next], p.act.pending.value.term,
                   p.act.pending.value.prevLogIndex + |p.act.pending.value.entries|)
    ensures NodeOk(cfg, h, n, Process(UpdateCommitIndex(Credited(p.node, p.act.next, p.act.pending.value)),
                                      Sweeping(p.act.next + 1, None)))
  {
    var s, args := p.node, p.act.pending.value;
    var t := Credited(s, p.act.next, args);
    CreditKeeps(cfg, h, n, s, p.act.next, args);
    UpdateCommitKeeps(cfg, h, n, t);
    SweepMovesOn(cfg, h, n, UpdateCommitIndex(t), p.act.next + 1);
  }

  lemma BacktrackKeeps(cfg: Config, h: History, n: nat, p: Process, conflictIndex: nat)
    requires HistoryInv(cfg, h) && NodeOk(cfg, h, n, p)
    requires p.act.Sweeping? && p.act.pending.Some?
    requires conflictIndex <= p.act.pending.value.prevLogIndex
    ensures NodeOk(cfg, h, n, Process(p.node.(nextIndex := p.node.nextIndex[p.act.next := Max(1, conflictIndex)]),
                                      Sweeping(p.act.next + 1, None)))
  {
  }

  lemma StepDownMidSweep(cfg: Config, h: History, n: nat, p: Process, term: nat)
    requires HistoryInv(cfg, h) && NodeOk(cfg, h, n, p)
    requires p.act.Sweeping? && p.act.next < |p.node.peers| && term > p.node.term
    ensures NodeOk(cfg, h, n, Process(BecomeFollower(p.node, term), Sweeping(p.act.next + 1, None)))
  {
    StepDownKeeps(cfg, h, n, p.node, term);
  }

  /** The reply in hand, or the failure in its place, tells the truth about the peer. */
  lemma ReplyInHand(cfg: Config, h: History, peer: nat, args: AppendEntriesArgs, r: AppendEntriesReply, net: set<Message>)
    requires forall m {:trigger MessageOk(cfg, h, m)} :: m in net ==> MessageOk(cfg, h, m)
    requires FailedAppend(args, r) || AppendReply(peer, args, r) in net
    ensures r.success ==> Acked(h, peer, args.term, args.prevLogIndex + |args.entries|)
    ensures r.conflictIndex <= args.prevLogIndex
  {
    if !FailedAppend(args, r) {
      assert MessageOk(cfg, h, AppendReply(peer, args, r));
    }
  }

  lemma TakeAppendReplyKeeps(cfg: Config, h: History, n: nat, p: Process, r: AppendEntriesReply, net: set<Message>)
    requires HistoryInv(cfg, h) && NodeOk(cfg, h, n, p)
    requires Ready(p, TakeAppendReply(n, r)) && Heard(p, net, TakeAppendReply(n, r))
    requires forall m {:trigger MessageOk(cfg, h, m)} :: m in net ==> MessageOk(cfg, h, m)
    ensures var (p', m) := Act(p, TakeAppendReply(n, r)); Outcome(cfg, h, h, n, p', m)
  {
    hide HistoryInv, NodeOk, GrowsAt, MessageOk, FailedAppend, Acked, UpdateCommitIndex, Credited, BecomeFollower;
    GrowsByNothing(h, n, Act(p, TakeAppendReply(n, r)).0.node.term);
    ReplyInHand(cfg, h, p.node.peers[p.act.next], p.act.pending.value, r, net);
    if r.term > p.node.term {
      StepDownMidSweep(cfg, h, n, p, r.term);
    } else if r.success {
      SuccessKeeps(cfg, h, n, p);
    } else {
      BacktrackKeeps(cfg, h, n, p, r.conflictIndex);
    }
  }

  // ---- Sending, sweeping, crashing ------------------------------------------------------------

  lemma SendAppendKeeps(cfg: Config, h: History, n: nat, p: Process)
    requires HistoryInv(cfg, h) && NodeOk(cfg, h, n, p)
    requires Ready(p, SendAppend(n)) && p.node.role == Leader
    ensures var (p', m) := Act(p, SendAppend(n)); Outcome(cfg, h, h, n, p', m)
  {
    hide RequestOk, AppendArgs, HistoryInv, GrowsAt, Traced, CommittedTo, VotingOk, AcksOk, LogOk, CommitOk;
    var s := p.node;
    GrowsByNothing(h, n, s.term);
    SuffixRequestOk(cfg, h, n, s, p.act.next);
    PeerOk(cfg, h, n, s, p.act.next);
  }

  /** The request a leader builds ships its whole suffix, and so reaches its commit index. */
  lemma SuffixRequestOk(cfg: Config, h: History, n: nat, s: NodeState, i: nat)
    requires ServerOk(cfg, h, n, s) && s.role == Leader
    requires i < |s.nextIndex| && 1 <= s.nextIndex[i] <= |s.log|
    ensures var args := AppendArgs(s, i);
      RequestOk(cfg, h, args) && args.term == s.term && args.leaderId == n
  {
    hide VotingOk, AcksOk, Traced;
  }

  lemma PeerOk(cfg: Config, h: History, n: nat, s: NodeState, i: nat)
    requires HistoryInv(cfg, h) && ServerOk(cfg, h, n, s) && i < |s.peers|
    ensures s.peers[i] in cfg.ids && s.peers[i] != n
  {
    assert s.peers[i] in s.peers;
  }

  lemma QuietKeeps(cfg: Config, h: History, n: nat, p: Process, step: Step)
    requires HistoryInv(cfg, h) && NodeOk(cfg, h, n, p)
    requires step.n == n && (step.StartSweep? || step.SkipPeer? || step.EndSweep?)
    requires Ready(p, step)
    ensures var (p', m) := Act(p, step); Outcome(cfg, h, h, n, p', m)
  {
    GrowsByNothing(h, n, p.node.term);
  }

  lemma CrashKeeps(cfg: Config, h: History, n: nat, p: Process)
    requires HistoryInv(cfg, h) && NodeOk(cfg, h, n, p)
    requires Ready(p, Crash(n))
    ensures Outcome(cfg, h, h, n, Act(p, Crash(n)).0, None)
  {
    GrowsByNothing(h, n, p.node.term);
    var s, s' := p.node, Restart(p.node);
    assert s'.log[1..1] == [];
    assert ServerOk(cfg, h, n, s');
  }
}
