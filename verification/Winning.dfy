/** Counting votes and winning an election keep the invariant. Election Safety is decided here. */
module Winning {
  import opened Wrappers
  import opened Logs
  import opened Nodes
  import opened Clusters
  import opened Histories
  import opened Growth
  import opened Invariants
  import opened Elections

  lemma SendVoteKeeps(cfg: Config, h: History, n: nat, p: Process)
    requires HistoryInv(cfg, h) && NodeOk(cfg, h, n, p)
    requires Ready(p, SendVote(n))
    ensures var (p', m) := Act(p, SendVote(n)); Outcome(cfg, h, h, n, p', m)
  {
    GrowsByNothing(h, n, p.node.term);
    var peer := p.node.peers[p.act.next];
    assert peer in p.node.peers && peer in cfg.ids && peer != n;
  }

  lemma TakeVoteReplyKeeps(cfg: Config, h: History, n: nat, p: Process, r: RequestVoteReply, net: set<Message>)
    requires HistoryInv(cfg, h) && NodeOk(cfg, h, n, p)
    requires Ready(p, TakeVoteReply(n, r)) && Heard(p, net, TakeVoteReply(n, r))
    requires forall m {:trigger MessageOk(cfg, h, m)} :: m in net ==> MessageOk(cfg, h, m)
    ensures var (p', m) := Act(p, TakeVoteReply(n, r)); Outcome(cfg, h, h, n, p', m)
  {
    var s := p.node;
    GrowsByNothing(h, n, Act(p, TakeVoteReply(n, r)).0.node.term);
    if r.term > s.term {
      StepDownKeeps(cfg, h, n, s, r.term);
    } else {
      var next, peer := p.act.next, s.peers[p.act.next];
      var before, after := Granters(h, s.peers[..next], s.term, n), Granters(h, s.peers[..next + 1], s.term, n);
      if r.voteGranted {
        assert MessageOk(cfg, h, VoteReply(peer, p.act.request, r));
        assert peer in s.peers[..next + 1];
        assert peer !in s.peers[..next];
        assert before + {peer} <= after;
        SubsetSize(before + {peer}, after);
      } else {
        SubsetSize(before, after);
      }
    }
  }

  // ---- Winning -------------------------------------------------------------------

  /** The nodes whose votes the winner holds, itself included. */
  ghost function Voters(h: History, s: NodeState): set<nat> {
    {s.id} + Granters(h, s.peers, s.term, s.id)
  }

  ghost function Members(s: seq<nat>): set<nat> {
    set y | y in s
  }

  lemma {:induction false} DistinctSize(s: seq<nat>)
    requires Distinct(s)
    ensures |Members(s)| == |s|
  {
    if s != [] {
      var init, last := s[..|s| - 1], s[|s| - 1];
      DistinctSize(init);
      assert Members(s) == Members(init) + {last};
      assert last !in Members(init);
    }
  }

  lemma ClusterSize(cfg: Config, x: nat)
    requires ValidConfig(cfg) && x in cfg.ids
    ensures x in cfg.peers && |cfg.ids| == |cfg.peers[x]| + 1
  {
    DistinctSize(cfg.peers[x]);
    assert cfg.ids == Members(cfg.peers[x]) + {x};
    assert x !in Members(cfg.peers[x]);
  }

  lemma VotersAreQuorum(cfg: Config, h: History, n: nat, p: Process)
    requires HistoryInv(cfg, h) && NodeOk(cfg, h, n, p)
    requires Ready(p, CloseElection(n)) && p.act.votes >= Majority(|p.node.peers|)
    ensures IsQuorum(cfg, Voters(h, p.node))
  {
    var s := p.node;
    ClusterSize(cfg, n);
    assert s.peers[..p.act.next] == s.peers;
    var granters := Granters(h, s.peers, s.term, n);
    assert n !in granters;
    assert |Voters(h, s)| == 1 + |granters|;
  }

  /** Election Safety: a candidate with a quorum of votes is the first to win its term. */
  lemma TermIsOpen(cfg: Config, h: History, n: nat, p: Process)
    requires HistoryInv(cfg, h) && NodeOk(cfg, h, n, p)
    requires p.act.Electing? && IsQuorum(cfg, Voters(h, p.node))
    ensures p.node.term !in h.elections
  {
    var s := p.node;
    if s.term in h.elections {
      var e := h.elections[s.term];
      assert ElectionOk(cfg, h, s.term);
      var x := QuorumsMeet(cfg, Voters(h, s), e.votes.Keys);
      QuorumVoteFacts(cfg, h, s.term, x);
      assert false;
    }
  }

  /** The observer notes the win. */
  ghost function Win(h: History, s: NodeState): History
    requires |s.log| >= 1
  {
    var votes := map x | x in Voters(h, s) ::
      if x != s.id && (s.term, x) in h.grants then h.grants[(s.term, x)].log else s.log;
    h.(elections := h.elections[s.term := Election(s.id, s.log, votes)],
       leaderLog := h.leaderLog[s.term := s.log],
       acks := h.acks[(s.id, s.term) := LastIndex(s.log)])
  }

  lemma WinExtends(cfg: Config, h: History, n: nat, p: Process)
    requires HistoryInv(cfg, h) && NodeOk(cfg, h, n, p)
    requires p.node.term !in h.elections
    ensures GrowsAt(h, Win(h, p.node), n, p.node.term)
  {
    var s := p.node;
    if (n, s.term) in h.acks {
      AckFacts(cfg, h, n, s.term);
      assert false;
    }
  }

  lemma SelfVoteOk(cfg: Config, h: History, h': History, n: nat, term: nat, log: Log)
    requires HistoryInv(cfg, h) && GrowsAt(h, h', n, term)
    requires term >= 1 && term !in h.elections
    requires Traced(h, log) && Retains(h, n, log, term)
    requires term in h'.elections && h'.elections[term].winner == n && h'.elections[term].log == log
    requires n in h'.elections[term].votes && h'.elections[term].votes[n] == log
    ensures QuorumVoteOk(h', term, n)
  {
    TracedStable(h, h', log);
    VoterRetains(h, n, log, term);
    RetainsStable(cfg, h, h', n, term, n, log, term - 1);
  }

  lemma GrantedVoteOk(cfg: Config, h: History, h': History, n: nat, term: nat, x: nat)
    requires HistoryInv(cfg, h) && GrowsAt(h, h', n, term)
    requires term !in h.elections && x != n
    requires (term, x) in h.grants && h.grants[(term, x)].candidate == n
    requires term in h'.elections && h'.elections[term].winner == n
    requires (term, n) in h.bids && h'.elections[term].log == h.bids[(term, n)]
    requires x in h'.elections[term].votes && h'.elections[term].votes[x] == h.grants[(term, x)].log
    ensures QuorumVoteOk(h', term, x)
  {
    var v := h.grants[(term, x)];
    VoteFacts(cfg, h, term, x);
    TracedStable(h, h', v.log);
    RetainsStable(cfg, h, h', n, term, x, v.log, term - 1);
  }

  lemma WinnerVoteOk(cfg: Config, h: History, n: nat, p: Process, x: nat)
    requires HistoryInv(cfg, h) && NodeOk(cfg, h, n, p)
    requires p.act.Electing? && p.node.term !in h.elections
    requires x in Voters(h, p.node)
    ensures x in Win(h, p.node).elections[p.node.term].votes
    ensures QuorumVoteOk(Win(h, p.node), p.node.term, x)
  {
    var s := p.node;
    WinExtends(cfg, h, n, p);
    if x == n {
      SelfVoteOk(cfg, h, Win(h, s), n, s.term, s.log);
    } else {
      GrantedVoteOk(cfg, h, Win(h, s), n, s.term, x);
    }
  }

  lemma WonElectionOk(cfg: Config, h: History, n: nat, p: Process)
    requires HistoryInv(cfg, h) && NodeOk(cfg, h, n, p)
    requires p.act.Electing? && IsQuorum(cfg, Voters(h, p.node))
    requires p.node.term !in h.elections
    ensures ElectionOk(cfg, Win(h, p.node), p.node.term)
  {
    var s := p.node;
    var h' := Win(h, s);
    WinExtends(cfg, h, n, p);
    TracedStable(h, h', s.log);
    forall x | x in h'.elections[s.term].votes ensures QuorumVoteOk(h', s.term, x) {
      WinnerVoteOk(cfg, h, n, p, x);
    }
    assert h'.elections[s.term].votes.Keys == Voters(h, s);
  }

  lemma WinNewParts(cfg: Config, h: History, s: NodeState)
    requires HistoryInv(cfg, h) && |s.log| >= 1 && s.id in cfg.ids
    requires s.term !in h.elections && s.term !in h.leaderLog
    requires ElectionOk(cfg, Win(h, s), s.term)
    ensures NewPartsOk(cfg, h, Win(h, s))
  {
    var h' := Win(h, s);
    assert h'.leaderLog.Keys == h'.elections.Keys;
    forall x, t | (x, t) in h'.acks && ((x, t) !in h.acks || h.acks[(x, t)] != h'.acks[(x, t)])
      ensures AckOk(cfg, h', x, t)
    {
      assert (x, t) == (s.id, s.term);
    }
  }

  lemma WinGrows(cfg: Config, h: History, n: nat, p: Process)
    requires HistoryInv(cfg, h) && NodeOk(cfg, h, n, p)
    requires p.act.Electing? && IsQuorum(cfg, Voters(h, p.node))
    requires p.node.term !in h.elections
    ensures HistoryInv(cfg, Win(h, p.node))
  {
    WinExtends(cfg, h, n, p);
    WonElectionOk(cfg, h, n, p);
    NodeVotesWithin(cfg, h, n, p.node, p.node.term);
    WinNewParts(cfg, h, p.node);
    HistoryInvGrows(cfg, h, Win(h, p.node), n, p.node.term);
  }

  lemma WinnerRetains(cfg: Config, h: History, n: nat, p: Process)
    requires HistoryInv(cfg, h) && NodeOk(cfg, h, n, p)
    requires p.act.Electing? && p.node.term !in h.elections
    ensures Retains(Win(h, p.node), n, p.node.log, p.node.term)
  {
    var s := p.node;
    var h' := Win(h, s);
    WinExtends(cfg, h, n, p);
    forall t: nat, k: nat | t <= s.term && Acked(h', n, t, k)
      ensures Kept(h', s.log, t, k, s.term)
    {
      if t == s.term {
        AgreeToFrom(s.log, s.log, k);
      } else {
        assert Acked(h, n, t, k) && AckOk(cfg, h, n, t);
        assert Kept(h, s.log, t, k, s.term);
        KeptStable(h, h', s.log, t, k, s.term, s.term);
      }
    }
  }

  lemma WinnerServer(cfg: Config, h: History, n: nat, p: Process)
    requires HistoryInv(cfg, h) && NodeOk(cfg, h, n, p)
    requires p.act.Electing? && p.node.term !in h.elections
    ensures ServerOk(cfg, Win(h, p.node), n, BecomeLeader(p.node))
  {
    var s := p.node;
    var h' := Win(h, s);
    WinExtends(cfg, h, n, p);
    WinnerRetains(cfg, h, n, p);
    LogStable(cfg, h, h', s);
    var s' := BecomeLeader(s);
    assert VotingOk(h', n, s');
    assert AcksOk(h', n, s');
  }

  lemma WinKeeps(cfg: Config, h: History, n: nat, p: Process)
    requires HistoryInv(cfg, h) && NodeOk(cfg, h, n, p)
    requires Ready(p, CloseElection(n)) && p.act.votes >= Majority(|p.node.peers|)
    ensures Outcome(cfg, h, Win(h, p.node), n, Process(BecomeLeader(p.node), Sweeping(0, None)), None)
  {
    VotersAreQuorum(cfg, h, n, p);
    TermIsOpen(cfg, h, n, p);
    WinExtends(cfg, h, n, p);
    WinGrows(cfg, h, n, p);
    WinnerServer(cfg, h, n, p);
    assert ActOk(cfg, Win(h, p.node), n, Process(BecomeLeader(p.node), Sweeping(0, None)));
  }

  lemma LoseKeeps(cfg: Config, h: History, n: nat, p: Process)
    requires HistoryInv(cfg, h) && NodeOk(cfg, h, n, p)
    requires p.node.role != Leader
    ensures Outcome(cfg, h, h, n, Process(p.node, Idle), None)
  {
    GrowsByNothing(h, n, p.node.term);
  }

  lemma CloseElectionKeeps(cfg: Config, h: History, n: nat, p: Process)
    requires HistoryInv(cfg, h) && NodeOk(cfg, h, n, p)
    requires Ready(p, CloseElection(n))
    ensures var p' := Act(p, CloseElection(n)).0;
      Outcome(cfg, h, if p'.act.Sweeping? then Win(h, p.node) else h, n, p', None)
  {
    if p.act.votes >= Majority(|p.node.peers|) {
      WinKeeps(cfg, h, n, p);
    } else {
      LoseKeeps(cfg, h, n, p);
    }
  }
}
