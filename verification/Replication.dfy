/** Appending, accepting and acknowledging entries keep the invariant. */
module Replication {
  import opened Wrappers
  import opened Commands
  import opened Logs
  import opened Replay
  import opened Nodes
  import opened Clusters
  import opened Histories
  import opened Growth
  import opened Invariants
  import opened Elections

  // ---- Applying --------------------------------------------------------------------

  lemma ApplyKeeps(cfg: Config, h: History, s: NodeState)
    requires |s.log| >= 1 && s.lastApplied <= s.commitIndex < |s.log|
    requires CommittedTo(cfg, h, s.log, s.commitIndex, s.term)
    requires s.replica == ApplyAll(EMPTY_REPLICA, s.log[1..s.lastApplied + 1])
    ensures CommitOk(cfg, h, ApplyCommitted(s))
  {
    if s.lastApplied < s.commitIndex {
      ApplyAllConcat(EMPTY_REPLICA, s.log[1..s.lastApplied + 1], s.log[s.lastApplied + 1..s.commitIndex + 1]);
      assert s.log[1..s.lastApplied + 1] + s.log[s.lastApplied + 1..s.commitIndex + 1] == s.log[1..s.commitIndex + 1];
    }
  }

  // ---- The leader appends ------------------------------------------------------------

  /** The observer notes the entry in the leader's log, and that the leader itself has it. */
  ghost function LeaderAppends(h: History, x: nat, term: nat, log: Log): History
    requires |log| >= 1
  {
    h.(leaderLog := h.leaderLog[term := log], acks := h.acks[(x, term) := LastIndex(log)])
  }

  lemma LeaderAppendGrows(cfg: Config, h: History, x: nat, s: NodeState, e: LogEntry)
    requires HistoryInv(cfg, h) && ServerOk(cfg, h, x, s)
    requires s.role == Leader
    ensures GrowsAt(h, LeaderAppends(h, x, s.term, s.log + [e]), x, s.term)
  {
    var h' := LeaderAppends(h, x, s.term, s.log + [e]);
    AckFacts(cfg, h, x, s.term);
    assert s.log <= s.log + [e];
  }

  lemma TracedAppend(h: History, h': History, log: Log, e: LogEntry)
    requires Extends(h, h') && Traced(h, log)
    requires e.index == |log| && LastTerm(log) <= e.term
    requires e.term in h'.leaderLog && h'.leaderLog[e.term] == log + [e]
    ensures Traced(h', log + [e])
  {
    TracedStable(h, h', log);
    var log' := log + [e];
    forall k | 0 < k < |log'| ensures TracedAt(h', log', k) {
      if k < |log| {
        assert TracedAt(h', log, k);
        assert log'[..k + 1] == log[..k + 1];
      }
    }
  }

  /** A leader's log holds no term beyond its own. */
  lemma LeaderLogTerms(cfg: Config, h: History, term: nat, i: nat)
    requires HistoryInv(cfg, h) && term in h.elections && i < |h.leaderLog[term]|
    ensures h.leaderLog[term][i].term <= term
  {
    assert ElectionOk(cfg, h, term);
    var start := h.elections[term].log;
    if i < |start| {
      assert start[i].term <= LastTerm(start);
    }
  }

  lemma LeaderAppendNewParts(cfg: Config, h: History, x: nat, term: nat, log: Log)
    requires HistoryInv(cfg, h) && x in cfg.ids && |log| >= 1
    requires term in h.elections && term in h.leaderLog
    requires LeaderLogOk(LeaderAppends(h, x, term, log), term, h.elections[term].log, log)
    ensures NewPartsOk(cfg, h, LeaderAppends(h, x, term, log))
  {
    var h' := LeaderAppends(h, x, term, log);
    assert h'.leaderLog.Keys == h.leaderLog.Keys;
    assert h'.elections == h.elections && h'.grants == h.grants;
    forall y, t | (y, t) in h'.acks && ((y, t) !in h.acks || h.acks[(y, t)] != h'.acks[(y, t)])
      ensures AckOk(cfg, h', y, t)
    {
      assert (y, t) == (x, term);
    }
  }

  lemma LeaderAppendLogOk(cfg: Config, h: History, h': History, term: nat, log: Log, e: LogEntry)
    requires HistoryInv(cfg, h) && Extends(h, h')
    requires term in h.elections && term in h.leaderLog && h.leaderLog[term] == log
    requires e.index == |log| && e.term == term
    requires term in h'.leaderLog && h'.leaderLog[term] == log + [e]
    ensures LeaderLogOk(h', term, h.elections[term].log, log + [e])
  {
    assert ElectionOk(cfg, h, term);
    LeaderLogTerms(cfg, h, term, |log| - 1);
    TracedAppend(h, h', log, e);
  }

  lemma LeaderAppendHistory(cfg: Config, h: History, x: nat, s: NodeState, e: LogEntry)
    requires HistoryInv(cfg, h) && ServerOk(cfg, h, x, s)
    requires s.role == Leader && e.index == |s.log| && e.term == s.term
    ensures HistoryInv(cfg, LeaderAppends(h, x, s.term, s.log + [e]))
  {
    var h' := LeaderAppends(h, x, s.term, s.log + [e]);
    LeaderAppendGrows(cfg, h, x, s, e);
    NodeVotesWithin(cfg, h, x, s, s.term);
    LeaderAppendLogOk(cfg, h, h', s.term, s.log, e);
    LeaderAppendNewParts(cfg, h, x, s.term, s.log + [e]);
    HistoryInvGrows(cfg, h, h', x, s.term);
  }

  lemma KeptLonger(h: History, log: Log, log': Log, t: nat, k: nat, bound: nat)
    requires Kept(h, log, t, k, bound) && log <= log'
    ensures Kept(h, log', t, k, bound)
  {
    if AgreeTo(log, h.leaderLog[t], k) {
      PrefixAgrees(log, log', h.leaderLog[t], k);
    }
  }

  lemma LeaderAppendRetains(cfg: Config, h: History, x: nat, s: NodeState, e: LogEntry)
    requires HistoryInv(cfg, h) && ServerOk(cfg, h, x, s)
    requires s.role == Leader
    ensures Retains(LeaderAppends(h, x, s.term, s.log + [e]), x, s.log + [e], s.term)
  {
    var log' := s.log + [e];
    var h' := LeaderAppends(h, x, s.term, log');
    LeaderAppendGrows(cfg, h, x, s, e);
    forall t: nat, k: nat | t <= s.term && Acked(h', x, t, k)
      ensures Kept(h', log', t, k, s.term)
    {
      if t == s.term {
        AgreeToFrom(log', log', k);
      } else {
        assert Acked(h, x, t, k);
        AckFacts(cfg, h, x, t);
        assert Kept(h, s.log, t, k, s.term);
        KeptStable(h, h', s.log, t, k, s.term, s.term);
        KeptLonger(h', s.log, log', t, k, s.term);
      }
    }
  }

  lemma LeaderAppendCommit(cfg: Config, h: History, h': History, s: NodeState, s': NodeState, e: LogEntry)
    requires Extends(h, h') && CommitOk(cfg, h, s)
    requires s' == Persist(s.(log := s.log + [e]))
    ensures CommitOk(cfg, h', s')
  {
    assert AgreeTo(s.log, s'.log, s.commitIndex);
    CommittedToStable(cfg, h, h', s.log, s'.log, s.commitIndex, s.term, s.term);
    assert s'.log[1..s.lastApplied + 1] == s.log[1..s.lastApplied + 1];
  }

  lemma LeaderAppendServer(cfg: Config, h: History, x: nat, s: NodeState, e: LogEntry)
    requires HistoryInv(cfg, h) && ServerOk(cfg, h, x, s)
    requires s.role == Leader && e.index == |s.log| && e.term == s.term
    ensures ServerOk(cfg, LeaderAppends(h, x, s.term, s.log + [e]), x, Persist(s.(log := s.log + [e])))
  {
    var log' := s.log + [e];
    var h' := LeaderAppends(h, x, s.term, log');
    var s' := Persist(s.(log := log'));
    LeaderAppendGrows(cfg, h, x, s, e);
    assert AcksOk(h', x, s') by { LeaderAppendRetains(cfg, h, x, s, e); }
    assert LogOk(h', s') by { TracedAppend(h, h', s.log, e); }
    assert CommitOk(cfg, h', s') by { LeaderAppendCommit(cfg, h, h', s, s', e); }
    assert LeadOk(h', x, s') by { MatchStable(h, h', s); }
    assert VotingOk(h', x, s');
  }

  ghost function ObserveClient(h: History, n: nat, s: NodeState, request: ClientRequest): History
    requires |s.log| >= 1
  {
    var s' := HandleClientRequest(s, request).0;
    if s'.log != s.log then LeaderAppends(h, n, s.term, s'.log) else h
  }

  lemma ProposeKeeps(cfg: Config, h: History, n: nat, s: NodeState, e: LogEntry)
    requires HistoryInv(cfg, h) && NodeOk(cfg, h, n, Process(s, Idle))
    requires s.role == Leader && e.index == |s.log| && e.term == s.term
    ensures Outcome(cfg, h, LeaderAppends(h, n, s.term, s.log + [e]), n, Process(Persist(s.(log := s.log + [e])), Idle), None)
  {
    LeaderAppendGrows(cfg, h, n, s, e);
    LeaderAppendHistory(cfg, h, n, s, e);
    LeaderAppendServer(cfg, h, n, s, e);
  }

  lemma ClientKeeps(cfg: Config, h: History, n: nat, p: Process, request: ClientRequest)
    requires HistoryInv(cfg, h) && NodeOk(cfg, h, n, p)
    requires Ready(p, Client(n, request))
    ensures Outcome(cfg, h, ObserveClient(h, n, p.node, request), n, Act(p, Client(n, request)).0, None)
  {
    var s := p.node;
    var s' := HandleClientRequest(s, request).0;
    if s' == s {
      GrowsByNothing(h, n, s.term);
    } else {
      var e := LogEntry(LastIndex(s.log) + 1, s.term, Layout(request.command).value);
      assert s' == Persist(s.(log := s.log + [e]));
      ProposeKeeps(cfg, h, n, s, e);
    }
  }

  // ---- A follower accepts a request -----------------------------------------------------

  lemma TracedLogsAreMatching(h: History, a: Log, b: Log)
    requires Traced(h, a) && Traced(h, b)
    ensures Matching(a, b)
  {
    forall k: nat | k < |a| && k < |b| && a[k].term == b[k].term ensures AgreeTo(a, b, k) {
      TracedLogsMatch(h, a, b, k);
    }
  }

  lemma TracedPrefix(h: History, log: Log, n: nat)
    requires Traced(h, log) && 1 <= n <= |log|
    ensures Traced(h, log[..n])
  {
    forall k | 0 < k < n ensures TracedAt(h, log[..n], k) {
      assert TracedAt(h, log, k);
      assert log[..n][..k + 1] == log[..k + 1];
    }
  }

  /** The observer notes how far a node now holds its leader's log. */
  ghost function Acknowledge(h: History, x: nat, term: nat, k: nat): History {
    h.(acks := h.acks[(x, term) := if (x, term) in h.acks then Max(h.acks[(x, term)], k) else k])
  }

  lemma AcknowledgeGrows(cfg: Config, h: History, x: nat, term: nat, k: nat)
    requires HistoryInv(cfg, h) && x in cfg.ids
    requires term in h.leaderLog && k < |h.leaderLog[term]|
    requires VotesWithin(h, x, term)
    ensures GrowsAt(h, Acknowledge(h, x, term, k), x, term)
    ensures HistoryInv(cfg, Acknowledge(h, x, term, k))
    ensures Acked(Acknowledge(h, x, term, k), x, term, k)
  {
    var h' := Acknowledge(h, x, term, k);
    assert GrowsAt(h, h', x, term);
    if (x, term) in h.acks {
      AckFacts(cfg, h, x, term);
    }
    assert NewPartsOk(cfg, h, h');
    HistoryInvGrows(cfg, h, h', x, term);
  }

  /** The log a follower is left with, and the leader log it was fed from. */
  ghost predicate Fed(cfg: Config, h: History, log: Log, log': Log, term: nat, upTo: nat) {
    && HistoryInv(cfg, h)
    && Traced(h, log)
    && term in h.elections && term in h.leaderLog && upTo < |h.leaderLog[term]|
    && AgreeTo(log', h.leaderLog[term], upTo)
    && (AgreeTo(log, h.leaderLog[term], upTo) ==> log' == log)
    && (!AgreeTo(log, h.leaderLog[term], upTo) ==> log' == h.leaderLog[term][..upTo + 1])
  }

  /** What agreed with the leader before still does, and is unchanged. */
  lemma FedKeepsAgreement(cfg: Config, h: History, log: Log, log': Log, term: nat, upTo: nat, k: nat)
    requires Fed(cfg, h, log, log', term, upTo)
    requires AgreeTo(log, h.leaderLog[term], k)
    ensures AgreeTo(log', h.leaderLog[term], k)
    ensures AgreeTo(log, log', k)
  {
    var leader := h.leaderLog[term];
    if !AgreeTo(log, leader, upTo) {
      if upTo <= k {
        AgreeToShorter(log, leader, k, upTo);
        assert false;
      }
      AgreeToShorter(log', leader, upTo, k);
    }
  }

  lemma FedKeepsCommitted(cfg: Config, h: History, log: Log, log': Log, term: nat, upTo: nat, c: nat)
    requires Fed(cfg, h, log, log', term, upTo)
    requires CommittedTo(cfg, h, log, c, term)
    ensures AgreeTo(log, log', c)
  {
    LeaderHoldsCommitted(cfg, h, log, c, term, term);
    FedKeepsAgreement(cfg, h, log, log', term, upTo, c);
  }

  lemma FedRetains(cfg: Config, h: History, x: nat, log: Log, log': Log, term: nat, upTo: nat)
    requires Fed(cfg, h, log, log', term, upTo)
    requires Retains(h, x, log, term)
    ensures Retains(Acknowledge(h, x, term, upTo), x, log', term)
  {
    var h' := Acknowledge(h, x, term, upTo);
    var leader := h.leaderLog[term];
    forall t: nat, k: nat | t <= term && Acked(h', x, t, k)
      ensures Kept(h', log', t, k, term)
    {
      if t == term && k <= upTo {
        AgreeToShorter(log', leader, upTo, k);
      } else {
        assert Acked(h, x, t, k);
        assert Kept(h, log, t, k, term);
        FedKeeps(cfg, h, log, log', term, upTo, t, k);
        assert Kept(h, log', t, k, term);
        if !AgreeTo(log', h.leaderLog[t], k) {
          var u: nat :| t < u <= term && u in h.elections && !AgreeTo(h.elections[u].log, h.leaderLog[t], k);
          assert u in h'.elections;
          assert Displaced(h', t, k, term);
        }
      }
    }
  }

  lemma FedKeeps(cfg: Config, h: History, log: Log, log': Log, term: nat, upTo: nat, t: nat, k: nat)
    requires Fed(cfg, h, log, log', term, upTo)
    requires Kept(h, log, t, k, term) && t <= term
    ensures Kept(h, log', t, k, term)
  {
    var leader := h.leaderLog[term];
    if !Displaced(h, t, k, term) {
      if t == term {
        FedKeepsAgreement(cfg, h, log, log', term, upTo, k);
      } else {
        var e := h.elections[term];
        assert ElectionOk(cfg, h, term);
        assert AgreeTo(e.log, h.leaderLog[t], k);
        PrefixAgrees(e.log, leader, h.leaderLog[t], k);
        FedKeepsAgreement(cfg, h, log, log', term, upTo, k);
      }
    }
  }
}
