/** The steps of an election keep the invariant. */
module Elections {
  import opened Wrappers
  import opened Logs
  import opened Nodes
  import opened Clusters
  import opened Histories
  import opened Growth
  import opened Invariants

  /** What a step at node n owes: the history grew at n only, and it, the node and the message
      sent, if any, are in order. */
  ghost predicate Outcome(cfg: Config, h: History, h': History, n: nat, p': Process, m: Option<Message>) {
    && GrowsAt(h, h', n, p'.node.term)
    && HistoryInv(cfg, h')
    && NodeOk(cfg, h', n, p')
    && (m.Some? ==> MessageOk(cfg, h', m.value))
  }

  lemma RetainsLater(h: History, x: nat, log: Log, bound: nat, bound': nat)
    requires Retains(h, x, log, bound) && bound <= bound'
    requires forall t :: (x, t) in h.acks ==> t <= bound
    ensures Retains(h, x, log, bound')
  {
    forall t: nat, k: nat | t <= bound' && Acked(h, x, t, k)
      ensures Kept(h, log, t, k, bound')
    {
      assert (x, t) in h.acks;
      assert Kept(h, log, t, k, bound);
    }
  }

  lemma CommittedToLater(cfg: Config, h: History, log: Log, c: nat, bound: nat, bound': nat)
    requires CommittedTo(cfg, h, log, c, bound) && bound <= bound'
    ensures CommittedTo(cfg, h, log, c, bound')
  {
    if c > 0 {
      var t: nat, k: nat :| Witness(cfg, h, log, c, bound, t, k);
      assert Witness(cfg, h, log, c, bound', t, k);
    }
  }

  /** Stepping down to a later term, or from a lost candidacy within the term, is harmless:
      the only vote it forgets is a candidate's for itself, and that candidate has not won. */
  lemma StepDownKeeps(cfg: Config, h: History, x: nat, s: NodeState, term: nat)
    requires ServerOk(cfg, h, x, s)
    requires term >= s.term
    requires term == s.term ==> s.role != Follower && (term in h.elections ==> h.elections[term].winner != x)
    ensures ServerOk(cfg, h, x, BecomeFollower(s, term))
  {
    CommittedToLater(cfg, h, s.log, s.commitIndex, s.term, term);
    RetainsLater(h, x, s.log, s.term, term);
  }

  /** Growth that leaves the acknowledgements alone keeps what is retained. */
  lemma RetainsStableSelf(cfg: Config, h: History, h': History, x: nat, log: Log, bound: nat)
    requires HistoryInv(cfg, h) && Extends(h, h') && h'.acks == h.acks
    requires Retains(h, x, log, bound)
    ensures Retains(h', x, log, bound)
  {
    forall t: nat, k: nat | t <= bound && Acked(h', x, t, k)
      ensures Kept(h', log, t, k, bound)
    {
      assert AckOk(cfg, h, x, t);
      assert Kept(h, log, t, k, bound);
      KeptStable(h, h', log, t, k, bound, bound);
    }
  }

  /** A server's part of the invariant survives growth that leaves its leader log and the
      acknowledgements alone, given its voting record. */
  lemma ServerGrows(cfg: Config, h: History, h': History, x: nat, s: NodeState)
    requires HistoryInv(cfg, h) && Extends(h, h') && h'.acks == h.acks && h'.leaderLog == h.leaderLog
    requires ServerOk(cfg, h, x, s)
    requires VotingOk(h', x, s)
    ensures ServerOk(cfg, h', x, s)
  {
    LogStable(cfg, h, h', s);
    RetainsStableSelf(cfg, h, h', x, s.log, s.term);
    assert AcksOk(h', x, s);
    if s.role == Leader {
      MatchStable(h, h', s);
    }
  }

  lemma BecomeCandidateKeeps(cfg: Config, h: History, x: nat, s: NodeState)
    requires ServerOk(cfg, h, x, s)
    ensures ServerOk(cfg, h, x, BecomeCandidate(s))
  {
    CommittedToLater(cfg, h, s.log, s.commitIndex, s.term, s.term + 1);
    RetainsLater(h, x, s.log, s.term, s.term + 1);
  }

  /** The observer notes that x stands for `term` with this log. */
  function Bid(h: History, term: nat, x: nat, log: Log): History {
    h.(bids := h.bids[(term, x) := log])
  }

  lemma BidGrows(cfg: Config, h: History, x: nat, s: NodeState, term: nat)
    requires HistoryInv(cfg, h) && VotingOk(h, x, s) && term > s.term
    ensures GrowsAt(h, Bid(h, term, x, s.log), x, term)
    ensures HistoryInv(cfg, Bid(h, term, x, s.log))
  {
    var h' := Bid(h, term, x, s.log);
    assert (term, x) !in h.bids;
    assert Extends(h, h');
    assert GrowsAt(h, h', x, term);
    NodeVotesWithin(cfg, h, x, s, term);
    assert NewPartsOk(cfg, h, h');
    HistoryInvGrows(cfg, h, h', x, term);
  }

  lemma StartElectionKeeps(cfg: Config, h: History, n: nat, p: Process)
    requires HistoryInv(cfg, h) && NodeOk(cfg, h, n, p)
    requires Ready(p, StartElection(n))
    ensures Outcome(cfg, h, Bid(h, p.node.term + 1, n, p.node.log), n, Act(p, StartElection(n)).0, None)
  {
    var s := p.node;
    var s' := BecomeCandidate(s);
    var h' := Bid(h, s'.term, n, s.log);
    BidGrows(cfg, h, n, s, s'.term);
    BecomeCandidateKeeps(cfg, h, n, s);
    assert VotingOk(h', n, s');
    ServerGrows(cfg, h, h', n, s');
    assert ActOk(cfg, h', n, Process(s', Electing(0, 1, VoteArgs(s'), false)));
  }

  // ---- Votes ------------------------------------------------------------------

  /** The observer notes a first vote for another node in `term`, with the voter's log. */
  function Grant(h: History, term: nat, x: nat, candidate: nat, log: Log): History {
    if (term, x) in h.grants || candidate == x then h
    else h.(grants := h.grants[(term, x) := Vote(candidate, log)])
  }

  lemma StepDownForVote(cfg: Config, h: History, x: nat, s: NodeState, term: nat)
    requires ServerOk(cfg, h, x, s) && term >= s.term
    ensures ServerOk(cfg, h, x, if term > s.term then BecomeFollower(s, term) else s)
  {
    if term > s.term {
      StepDownKeeps(cfg, h, x, s, term);
    }
  }

  /** The voter's log has what the voter acknowledged before `term`, as far as leaders before
      `term` left it there; only a winner of `term` itself could have displaced more. */
  lemma VoterRetains(h: History, x: nat, log: Log, term: nat)
    requires Retains(h, x, log, term) && term >= 1 && term !in h.elections
    ensures Retains(h, x, log, term - 1)
  {
    forall t: nat, k: nat | t <= term - 1 && Acked(h, x, t, k)
      ensures Kept(h, log, t, k, term - 1)
    {
      assert Kept(h, log, t, k, term);
      if !AgreeTo(log, h.leaderLog[t], k) {
        var u: nat :| t < u <= term && u in h.elections && !AgreeTo(h.elections[u].log, h.leaderLog[t], k);
        assert Displaced(h, t, k, term - 1);
      }
    }
  }

  lemma GrantGrows(cfg: Config, h: History, x: nat, s: NodeState, v: RequestVoteArgs)
    requires HistoryInv(cfg, h) && ServerOk(cfg, h, x, s)
    requires VoteRequestOk(cfg, h, v) && v.candidateId != x && v.term == s.term
    requires s.votedFor == 0 || s.votedFor == v.candidateId
    requires UpToDate(v.lastLogIndex, v.lastLogTerm, s.log)
    ensures GrowsAt(h, Grant(h, s.term, x, v.candidateId, s.log), x, s.term)
    ensures HistoryInv(cfg, Grant(h, s.term, x, v.candidateId, s.log))
  {
    hide HistoryInv, ServerOk, GrowsAt, NewPartsOk, VotesWithin, VoteRequestOk, UpToDate, VotingOk;
    if (s.term, x) in h.grants {
      GrowsByNothing(h, x, s.term);
    } else {
      ServerParts(cfg, h, x, s);
      NodeVotesWithin(cfg, h, x, s, s.term);
      NewGrantOk(cfg, h, x, s, v);
      HistoryInvGrows(cfg, h, Grant(h, s.term, x, v.candidateId, s.log), x, s.term);
    }
  }

  lemma NewGrantOk(cfg: Config, h: History, x: nat, s: NodeState, v: RequestVoteArgs)
    requires HistoryInv(cfg, h) && ServerOk(cfg, h, x, s) && (s.term, x) !in h.grants
    requires VoteRequestOk(cfg, h, v) && v.candidateId != x && v.term == s.term
    requires s.votedFor == 0 || s.votedFor == v.candidateId
    requires UpToDate(v.lastLogIndex, v.lastLogTerm, s.log)
    ensures var h' := Grant(h, s.term, x, v.candidateId, s.log);
      GrowsAt(h, h', x, s.term) && NewPartsOk(cfg, h, h')
  {
    var h' := Grant(h, s.term, x, v.candidateId, s.log);
    assert GrowsAt(h, h', x, s.term);
    TracedStable(h, h', s.log);
    if s.term !in h.elections {
      VoterRetains(h, x, s.log, s.term);
      RetainsStableSelf(cfg, h, h', x, s.log, s.term - 1);
    }
    assert VoteOk(cfg, h', s.term, x, h'.grants[(s.term, x)]);
  }

  /** Casting the vote: the server after it records its candidate. */
  lemma CastKeeps(cfg: Config, h: History, x: nat, s: NodeState, v: RequestVoteArgs)
    requires HistoryInv(cfg, h) && ServerOk(cfg, h, x, s)
    requires VoteRequestOk(cfg, h, v) && v.candidateId != x && v.term == s.term
    requires s.votedFor == 0 || s.votedFor == v.candidateId
    requires UpToDate(v.lastLogIndex, v.lastLogTerm, s.log)
    ensures var h' := Grant(h, s.term, x, v.candidateId, s.log);
      && ServerOk(cfg, h', x, Persist(s.(votedFor := v.candidateId)))
      && (s.term, x) in h'.grants && h'.grants[(s.term, x)].candidate == v.candidateId
  {
    var h' := Grant(h, s.term, x, v.candidateId, s.log);
    var s' := Persist(s.(votedFor := v.candidateId));
    GrantGrows(cfg, h, x, s, v);
    assert x != 0;
    assert s.role == Follower;
    if (s.term, x) in h.grants {
      assert VoteOk(cfg, h, s.term, x, h.grants[(s.term, x)]);
    }
    assert VotingOk(h', x, s');
    LogStable(cfg, h, h', s);
    RetainsStableSelf(cfg, h, h', x, s.log, s.term);
  }

  ghost function ObserveVote(h: History, n: nat, s: NodeState, v: RequestVoteArgs): History
    requires |s.log| >= 1
  {
    var (s', r) := HandleRequestVote(s, v);
    if r.voteGranted then Grant(h, s'.term, n, v.candidateId, s'.log) else h
  }

  lemma GrowsByNothing(h: History, n: nat, term: nat)
    ensures GrowsAt(h, h, n, term)
  {
  }

  lemma DeliverVoteKeeps(cfg: Config, h: History, n: nat, p: Process, v: RequestVoteArgs)
    requires HistoryInv(cfg, h) && NodeOk(cfg, h, n, p)
    requires Ready(p, DeliverVote(n, v)) && MessageOk(cfg, h, VoteRequest(n, v))
    ensures var (p', m) := Act(p, DeliverVote(n, v));
      Outcome(cfg, h, ObserveVote(h, n, p.node, v), n, p', m)
  {
    hide HistoryInv, ServerOk, VoteRequestOk, GrowsAt, UpToDate;
    var s := p.node;
    var (s', r) := HandleRequestVote(s, v);
    if v.term >= s.term {
      StepDownForVote(cfg, h, n, s, v.term);
      var t := if v.term > s.term then BecomeFollower(s, v.term) else s;
      assert ServerOk(cfg, h, n, t);
      if r.voteGranted {
        GrantGrows(cfg, h, n, t, v);
        CastKeeps(cfg, h, n, t, v);
      } else {
        GrowsByNothing(h, n, t.term);
      }
    } else {
      GrowsByNothing(h, n, s.term);
    }
  }
}
