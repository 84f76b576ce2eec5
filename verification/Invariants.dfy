/** The inductive invariant of the cluster: one predicate per node, one per message, each relating
    its subject to the history alone. */
module Invariants {
  import opened Logs
  import opened Replay
  import opened Nodes
  import opened Clusters
  import opened Histories
  import opened Growth

  // ---- Messages ----------------------------------------------------------------

  /** A request carries the slice of its term's leader log that it claims to carry, and a
      commit index that the carried entries reach. */
  ghost predicate RequestOk(cfg: Config, h: History, a: AppendEntriesArgs) {
    && a.term in h.elections && a.term in h.leaderLog
    && h.elections[a.term].winner == a.leaderId
    && var log := h.leaderLog[a.term];
    && a.prevLogIndex + |a.entries| < |log|
    && a.prevLogTerm == log[a.prevLogIndex].term
    && a.entries == log[a.prevLogIndex + 1..a.prevLogIndex + 1 + |a.entries|]
    && a.leaderCommit <= a.prevLogIndex + |a.entries|
    && CommittedTo(cfg, h, log, a.leaderCommit, a.term)
  }

  ghost predicate VoteRequestOk(cfg: Config, h: History, v: RequestVoteArgs) {
    && v.term >= 1
    && v.candidateId in cfg.ids
    && (v.term, v.candidateId) in h.bids
    && var log := h.bids[(v.term, v.candidateId)];
    && |log| >= 1 && v.lastLogIndex == LastIndex(log) && v.lastLogTerm == LastTerm(log)
  }

  ghost predicate MessageOk(cfg: Config, h: History, m: Message) {
    match m
    case VoteRequest(dst, v) => dst in cfg.ids && dst != v.candidateId && VoteRequestOk(cfg, h, v)
    case VoteReply(src, v, r) =>
      r.voteGranted ==> (v.term, src) in h.grants && h.grants[(v.term, src)].candidate == v.candidateId
    case AppendRequest(dst, a) => dst in cfg.ids && dst != a.leaderId && RequestOk(cfg, h, a)
    case AppendReply(src, a, r) =>
      && (r.success ==> Acked(h, src, a.term, a.prevLogIndex + |a.entries|) && RequestOk(cfg, h, a))
      && r.conflictIndex <= a.prevLogIndex
  }

  // ---- Nodes ---------------------------------------------------------------------

  ghost predicate IdentityOk(cfg: Config, x: nat, s: NodeState) {
    && x in cfg.ids && x in cfg.peers && s.id == x && s.peers == cfg.peers[x]
    && Shaped(s)
  }

  /** The log is traced and no newer than the term; the disk mirrors the memory. */
  ghost predicate LogOk(h: History, s: NodeState) {
    && Traced(h, s.log)
    && LastTerm(s.log) <= s.term
    && s.disk == Durable(s.term, s.votedFor, s.log)
  }

  ghost predicate CommitOk(cfg: Config, h: History, s: NodeState) {
    && s.lastApplied <= s.commitIndex < |s.log|
    && CommittedTo(cfg, h, s.log, s.commitIndex, s.term)
    && s.replica == ApplyAll(EMPTY_REPLICA, s.log[1..s.lastApplied + 1])
  }

  ghost predicate VotingOk(h: History, x: nat, s: NodeState) {
    && (s.role != Follower ==> s.votedFor == x)
    && (forall t :: (t, x) in h.bids ==> t <= s.term)
    && (forall t :: (t, x) in h.grants ==>
          (t <= s.term && (t == s.term ==> s.role == Follower && s.votedFor == h.grants[(t, x)].candidate)))
    && (forall t :: t in h.elections && h.elections[t].winner == x ==>
          (t <= s.term && (t == s.term ==> s.votedFor == x)))
  }

  ghost predicate AcksOk(h: History, x: nat, s: NodeState) {
    && (forall t :: (x, t) in h.acks ==> t <= s.term)
    && Retains(h, x, s.log, s.term)
  }

  ghost predicate LeadOk(h: History, x: nat, s: NodeState) {
    |s.log| >= 1 && (s.role == Leader ==>
      && s.term in h.elections && h.elections[s.term].winner == x
      && s.term in h.leaderLog && s.log == h.leaderLog[s.term]
      && Acked(h, x, s.term, LastIndex(s.log))
      && MatchOk(h, s))
  }

  ghost predicate MatchOk(h: History, s: NodeState) {
    |s.matchIndex| == |s.peers| &&
    forall i :: 0 <= i < |s.peers| ==>
      s.matchIndex[i] == 0 || Acked(h, s.peers[i], s.term, s.matchIndex[i])
  }

  ghost function Granters(h: History, peers: seq<nat>, term: nat, x: nat): set<nat> {
    set y | y in peers && (term, y) in h.grants && h.grants[(term, y)].candidate == x
  }

  ghost predicate ActOk(cfg: Config, h: History, x: nat, p: Process) {
    var s := p.node;
    && |s.log| >= 1
    && ((s.role == Leader || p.act.Sweeping?) ==>
          forall i :: 0 <= i < |s.nextIndex| ==> s.nextIndex[i] <= |s.log|)
    && match p.act
       case Idle => true
       case Electing(next, votes, request, waiting) =>
         && s.role == Candidate
         && next <= |s.peers| && (waiting ==> next < |s.peers|)
         && request == VoteArgs(s)
         && (s.term, x) in h.bids && h.bids[(s.term, x)] == s.log
         && s.term >= 1 && LastTerm(s.log) < s.term
         && (s.term in h.elections ==> h.elections[s.term].winner != x)
         && votes <= 1 + |Granters(h, s.peers[..next], s.term, x)|
       case Sweeping(next, pending) =>
         && (s.role == Leader || s.votedFor == 0)
         && next <= |s.peers|
         && (pending.Some? ==>
               && next < |s.peers| && s.role == Leader
               && pending.value.term == s.term && RequestOk(cfg, h, pending.value))
  }

  ghost predicate ServerOk(cfg: Config, h: History, x: nat, s: NodeState) {
    && IdentityOk(cfg, x, s)
    && LogOk(h, s)
    && CommitOk(cfg, h, s)
    && VotingOk(h, x, s)
    && AcksOk(h, x, s)
    && LeadOk(h, x, s)
  }

  ghost predicate NodeOk(cfg: Config, h: History, x: nat, p: Process) {
    ServerOk(cfg, h, x, p.node) && ActOk(cfg, h, x, p)
  }

  ghost predicate Inv(cfg: Config, c: Cluster, h: History) {
    && HistoryInv(cfg, h)
    && c.procs.Keys == cfg.ids
    && (forall x {:trigger NodeOk(cfg, h, x, c.procs[x])} :: x in c.procs ==> NodeOk(cfg, h, x, c.procs[x]))
    && (forall m {:trigger MessageOk(cfg, h, m)} :: m in c.net ==> MessageOk(cfg, h, m))
  }

  // ---- Stability under growth elsewhere --------------------------------------------

  lemma RequestStable(cfg: Config, h: History, h': History, a: AppendEntriesArgs)
    requires Extends(h, h') && RequestOk(cfg, h, a)
    ensures RequestOk(cfg, h', a)
  {
    var log, log' := h.leaderLog[a.term], h'.leaderLog[a.term];
    assert log <= log';
    assert a.entries == log'[a.prevLogIndex + 1..a.prevLogIndex + 1 + |a.entries|];
    assert AgreeTo(log, log', a.leaderCommit);
    CommittedToStable(cfg, h, h', log, log', a.leaderCommit, a.term, a.term);
  }

  lemma MessageStable(cfg: Config, h: History, h': History, m: Message)
    requires Extends(h, h') && MessageOk(cfg, h, m)
    ensures MessageOk(cfg, h', m)
  {
    match m {
      case VoteRequest(dst, v) =>
      case VoteReply(src, v, r) =>
      case AppendRequest(dst, a) => RequestStable(cfg, h, h', a);
      case AppendReply(src, a, r) => if r.success { RequestStable(cfg, h, h', a); }
    }
  }

  lemma GrantersGrow(h: History, h': History, peers: seq<nat>, term: nat, x: nat)
    requires Extends(h, h')
    ensures |Granters(h, peers, term, x)| <= |Granters(h', peers, term, x)|
  {
    SubsetSize(Granters(h, peers, term, x), Granters(h', peers, term, x));
  }

  lemma LogStable(cfg: Config, h: History, h': History, s: NodeState)
    requires Extends(h, h') && LogOk(h, s) && CommitOk(cfg, h, s)
    ensures LogOk(h', s) && CommitOk(cfg, h', s)
  {
    TracedStable(h, h', s.log);
    AgreeToFrom(s.log, s.log, s.commitIndex);
    CommittedToStable(cfg, h, h', s.log, s.log, s.commitIndex, s.term, s.term);
  }

  lemma VotingStable(h: History, h': History, n: nat, term: nat, x: nat, s: NodeState)
    requires GrowsAt(h, h', n, term) && x != n && VotingOk(h, x, s)
    ensures VotingOk(h', x, s)
  {
    forall t | t in h'.elections && h'.elections[t].winner == x
      ensures t <= s.term && (t == s.term ==> s.votedFor == x)
    {
      assert t in h.elections;
    }
  }

  lemma AcksStable(cfg: Config, h: History, h': History, n: nat, term: nat, x: nat, s: NodeState)
    requires HistoryInv(cfg, h) && GrowsAt(h, h', n, term) && x != n && AcksOk(h, x, s)
    ensures AcksOk(h', x, s)
  {
    RetainsStable(cfg, h, h', n, term, x, s.log, s.term);
    forall t | (x, t) in h'.acks ensures t <= s.term {
      assert (x, t) in h.acks;
    }
  }

  lemma MatchStable(h: History, h': History, s: NodeState)
    requires Extends(h, h') && MatchOk(h, s)
    ensures MatchOk(h', s)
  {
    forall i | 0 <= i < |s.peers|
      ensures s.matchIndex[i] == 0 || Acked(h', s.peers[i], s.term, s.matchIndex[i])
    {
      assert s.matchIndex[i] == 0 || Acked(h, s.peers[i], s.term, s.matchIndex[i]);
    }
  }

  lemma LeadStable(h: History, h': History, n: nat, term: nat, x: nat, s: NodeState)
    requires GrowsAt(h, h', n, term) && x != n && LeadOk(h, x, s)
    ensures LeadOk(h', x, s)
  {
    if s.role == Leader {
      MatchStable(h, h', s);
    }
  }

  lemma ActStable(cfg: Config, h: History, h': History, n: nat, term: nat, x: nat, p: Process)
    requires GrowsAt(h, h', n, term) && x != n && ActOk(cfg, h, x, p)
    ensures ActOk(cfg, h', x, p)
  {
    match p.act {
      case Idle =>
      case Electing(next, votes, request, waiting) =>
        GrantersGrow(h, h', p.node.peers[..next], p.node.term, x);
      case Sweeping(next, pending) =>
        if pending.Some? {
          RequestStable(cfg, h, h', pending.value);
        }
    }
  }

  lemma NodeStable(cfg: Config, h: History, h': History, n: nat, term: nat, x: nat, p: Process)
    requires HistoryInv(cfg, h) && GrowsAt(h, h', n, term) && x != n
    requires NodeOk(cfg, h, x, p)
    ensures NodeOk(cfg, h', x, p)
  {
    LogStable(cfg, h, h', p.node);
    VotingStable(h, h', n, term, x, p.node);
    AcksStable(cfg, h, h', n, term, x, p.node);
    LeadStable(h, h', n, term, x, p.node);
    ActStable(cfg, h, h', n, term, x, p);
  }

  /** A node votes in no quorum and for nobody beyond its own term. */
  lemma NodeVotesWithin(cfg: Config, h: History, x: nat, s: NodeState, term: nat)
    requires HistoryInv(cfg, h) && VotingOk(h, x, s) && s.term <= term
    ensures VotesWithin(h, x, term)
  {
    forall t | t in h.elections && x in h.elections[t].votes ensures t <= term {
      assert ElectionOk(cfg, h, t);
      assert QuorumVoteOk(h, t, x);
    }
  }

  /** The parts of a server's invariant, one by one. */
  lemma ServerParts(cfg: Config, h: History, x: nat, s: NodeState)
    requires ServerOk(cfg, h, x, s)
    ensures x in cfg.ids && s.id == x && WellIndexed(s.log)
    ensures Traced(h, s.log) && LastTerm(s.log) <= s.term
    ensures s.disk == Durable(s.term, s.votedFor, s.log)
    ensures CommitOk(cfg, h, s) && s.commitIndex < |s.log| && CommittedTo(cfg, h, s.log, s.commitIndex, s.term)
    ensures VotingOk(h, x, s)
    ensures AcksOk(h, x, s) && Retains(h, x, s.log, s.term)
    ensures LeadOk(h, x, s)
  {
  }

  lemma RequestParts(cfg: Config, h: History, a: AppendEntriesArgs)
    requires RequestOk(cfg, h, a)
    ensures a.term in h.elections && a.term in h.leaderLog
    ensures h.elections[a.term].winner == a.leaderId
    ensures a.prevLogIndex + |a.entries| < |h.leaderLog[a.term]|
    ensures a.leaderCommit <= a.prevLogIndex + |a.entries|
  {
  }
}
