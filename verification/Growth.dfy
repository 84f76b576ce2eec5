/** How a history grows, and what growth cannot undo. */
module Growth {
  import opened Logs
  import opened Clusters
  import opened Histories

  /** Nothing remembered is ever revised; leader logs and acknowledgements only get longer. */
  ghost predicate Extends(h: History, h': History) {
    && (forall key :: key in h.bids ==> key in h'.bids && h'.bids[key] == h.bids[key])
    && (forall key :: key in h.grants ==> key in h'.grants && h'.grants[key] == h.grants[key])
    && (forall t :: t in h.elections ==> t in h'.elections && h'.elections[t] == h.elections[t])
    && (forall t :: t in h.leaderLog ==> t in h'.leaderLog && h.leaderLog[t] <= h'.leaderLog[t])
    && (forall key :: key in h.acks ==> key in h'.acks && h.acks[key] <= h'.acks[key])
  }

  /** All that is new is about node n, and the only acknowledgement to change is n's in `term`. */
  ghost predicate GrowsAt(h: History, h': History, n: nat, term: nat) {
    && Extends(h, h')
    && (forall t, x :: (t, x) in h'.bids && x != n ==> (t, x) in h.bids)
    && (forall t, x :: (t, x) in h'.grants && x != n ==> (t, x) in h.grants)
    && (forall t :: t in h'.elections && t !in h.elections ==> h'.elections[t].winner == n)
    && (forall t :: t in h.leaderLog && t in h.elections && h.elections[t].winner != n ==>
          t in h'.leaderLog && h'.leaderLog[t] == h.leaderLog[t])
    && (forall x, t :: (x, t) in h'.acks && (x, t) != (n, term) ==>
          (x, t) in h.acks && h.acks[(x, t)] == h'.acks[(x, t)])
  }

  lemma GrowsExtends(h: History, h': History, n: nat, term: nat)
    requires GrowsAt(h, h', n, term)
    ensures Extends(h, h')
  {
  }

  lemma ExtendsTrans(a: History, b: History, c: History)
    requires Extends(a, b) && Extends(b, c)
    ensures Extends(a, c)
  {
  }

  lemma AgreeToLonger(log: Log, a: Log, a': Log, k: nat)
    requires a <= a' && k < |a|
    ensures AgreeTo(log, a, k) <==> AgreeTo(log, a', k)
  {
    assert a[..k + 1] == a'[..k + 1];
  }

  lemma TracedStable(h: History, h': History, log: Log)
    requires Extends(h, h') && Traced(h, log)
    ensures Traced(h', log)
  {
    forall k | 0 < k < |log| ensures TracedAt(h', log, k) {
      assert TracedAt(h, log, k);
      AgreeToLonger(log, h.leaderLog[log[k].term], h'.leaderLog[log[k].term], k);
    }
  }

  lemma KeptStable(h: History, h': History, log: Log, t: nat, k: nat, bound: nat, bound': nat)
    requires Extends(h, h') && Kept(h, log, t, k, bound) && bound <= bound'
    requires t in h.leaderLog && k < |h.leaderLog[t]|
    ensures Kept(h', log, t, k, bound')
  {
    if AgreeTo(log, h.leaderLog[t], k) {
      AgreeToLonger(log, h.leaderLog[t], h'.leaderLog[t], k);
    } else {
      var u: nat :| t < u <= bound && u in h.elections && !AgreeTo(h.elections[u].log, h.leaderLog[t], k);
      AgreeToLonger(h.elections[u].log, h.leaderLog[t], h'.leaderLog[t], k);
      assert h'.elections[u] == h.elections[u];
      assert Displaced(h', t, k, bound');
    }
  }

  lemma RetainsStable(cfg: Config, h: History, h': History, n: nat, term: nat, x: nat, log: Log, bound: nat)
    requires HistoryInv(cfg, h) && GrowsAt(h, h', n, term)
    requires Retains(h, x, log, bound)
    requires x == n ==> bound < term
    ensures Retains(h', x, log, bound)
  {
    forall t: nat, k: nat | t <= bound && Acked(h', x, t, k)
      ensures Kept(h', log, t, k, bound)
    {
      assert (x, t) in h'.acks && (x, t) != (n, term);
      assert Acked(h, x, t, k);
      assert AckOk(cfg, h, x, t);
      assert Kept(h, log, t, k, bound);
      KeptStable(h, h', log, t, k, bound, bound);
    }
  }

  lemma CommittedStable(cfg: Config, h: History, h': History, t: nat, k: nat)
    requires Extends(h, h') && Committed(cfg, h, t, k)
    ensures Committed(cfg, h', t, k)
  {
    assert Ackers(cfg, h, t, k) <= Ackers(cfg, h', t, k);
    SubsetSize(Ackers(cfg, h, t, k), Ackers(cfg, h', t, k));
    SubsetSize(Ackers(cfg, h', t, k), cfg.ids);
  }

  lemma CommittedToStable(cfg: Config, h: History, h': History, log: Log, log': Log, c: nat, bound: nat, bound': nat)
    requires Extends(h, h') && CommittedTo(cfg, h, log, c, bound) && bound <= bound'
    requires c > 0 ==> AgreeTo(log, log', c)
    ensures CommittedTo(cfg, h', log', c, bound')
  {
    if c > 0 {
      var t: nat, k: nat :| Witness(cfg, h, log, c, bound, t, k);
      CommittedStable(cfg, h, h', t, k);
      AgreeToLonger(log, h.leaderLog[t], h'.leaderLog[t], c);
      AgreeToTrans(log', log, h'.leaderLog[t], c);
      assert Witness(cfg, h', log', c, bound', t, k);
    }
  }

  // ---- Growing keeps the history's own invariant ---------------------------------

  /** What a growth step owes for the parts it adds. */
  ghost predicate NewPartsOk(cfg: Config, h: History, h': History) {
    && h'.leaderLog.Keys == h'.elections.Keys
    && (forall t {:trigger ElectionOk(cfg, h', t)} :: t in h'.elections && t !in h.elections ==> ElectionOk(cfg, h', t))
    && (forall t, x {:trigger VoteOk(cfg, h', t, x, h'.grants[(t, x)])} ::
          (t, x) in h'.grants && (t, x) !in h.grants ==> VoteOk(cfg, h', t, x, h'.grants[(t, x)]))
    && (forall x, t {:trigger AckOk(cfg, h', x, t)} ::
          (x, t) in h'.acks && ((x, t) !in h.acks || h.acks[(x, t)] != h'.acks[(x, t)]) ==> AckOk(cfg, h', x, t))
    && (forall t {:trigger LeaderLogOk(h', t, h.elections[t].log, h'.leaderLog[t])} ::
          t in h.elections && t in h.leaderLog && t in h'.leaderLog && h.leaderLog[t] != h'.leaderLog[t] ==>
            LeaderLogOk(h', t, h.elections[t].log, h'.leaderLog[t]))
    && (forall t :: t in h.elections ==> (t, h.elections[t].winner) !in h'.grants || (t, h.elections[t].winner) in h.grants)
  }

  /** Node n has cast no vote beyond `term`. */
  ghost predicate VotesWithin(h: History, n: nat, term: nat) {
    && (forall t :: (t, n) in h.grants ==> t <= term)
    && (forall t :: t in h.elections && n in h.elections[t].votes ==> t <= term)
  }

  lemma HistoryInvGrows(cfg: Config, h: History, h': History, n: nat, term: nat)
    requires HistoryInv(cfg, h) && GrowsAt(h, h', n, term)
    requires VotesWithin(h, n, term)
    requires NewPartsOk(cfg, h, h')
    ensures HistoryInv(cfg, h')
  {
    forall t | t in h'.elections ensures ElectionOk(cfg, h', t) {
      if t in h.elections {
        ElectionStable(cfg, h, h', n, term, t);
      }
    }
    forall t, x | (t, x) in h'.grants ensures VoteOk(cfg, h', t, x, h'.grants[(t, x)]) {
      if (t, x) in h.grants {
        VoteStable(cfg, h, h', n, term, t, x);
      }
    }
    forall x, t | (x, t) in h'.acks ensures AckOk(cfg, h', x, t) {
      if (x, t) in h.acks && h.acks[(x, t)] == h'.acks[(x, t)] {
        assert AckOk(cfg, h, x, t);
      }
    }
  }

  lemma VoteStable(cfg: Config, h: History, h': History, n: nat, term: nat, t: nat, x: nat)
    requires HistoryInv(cfg, h) && GrowsAt(h, h', n, term)
    requires VotesWithin(h, n, term)
    requires (t, x) in h.grants
    ensures (t, x) in h'.grants && VoteOk(cfg, h', t, x, h'.grants[(t, x)])
  {
    var v := h.grants[(t, x)];
    assert VoteOk(cfg, h, t, x, v);
    TracedStable(h, h', v.log);
    if t !in h'.elections {
      RetainsStable(cfg, h, h', n, term, x, v.log, t - 1);
    }
  }

  lemma QuorumVoteStable(cfg: Config, h: History, h': History, n: nat, term: nat, t: nat, x: nat)
    requires HistoryInv(cfg, h) && GrowsAt(h, h', n, term)
    requires VotesWithin(h, n, term)
    requires t in h.elections && x in h.elections[t].votes && QuorumVoteOk(h, t, x)
    requires t in h'.elections && h'.elections[t] == h.elections[t]
    ensures QuorumVoteOk(h', t, x)
  {
    var e := h.elections[t];
    TracedStable(h, h', e.votes[x]);
    RetainsStable(cfg, h, h', n, term, x, e.votes[x], t - 1);
  }

  lemma LeaderLogStable(h: History, h': History, t: nat, start: Log)
    requires Extends(h, h') && t in h.leaderLog && t in h'.leaderLog
    requires LeaderLogOk(h, t, start, h.leaderLog[t])
    requires h.leaderLog[t] == h'.leaderLog[t]
    ensures LeaderLogOk(h', t, start, h'.leaderLog[t])
  {
    TracedStable(h, h', h.leaderLog[t]);
  }

  lemma ElectionStable(cfg: Config, h: History, h': History, n: nat, term: nat, t: nat)
    requires HistoryInv(cfg, h) && GrowsAt(h, h', n, term)
    requires VotesWithin(h, n, term)
    requires NewPartsOk(cfg, h, h')
    requires t in h.elections
    ensures t in h'.elections && ElectionOk(cfg, h', t)
  {
    var e := h.elections[t];
    assert ElectionOk(cfg, h, t);
    assert t in h'.elections && h'.elections[t] == e;
    forall x | x in e.votes ensures QuorumVoteOk(h', t, x) {
      assert QuorumVoteOk(h, t, x);
      QuorumVoteStable(cfg, h, h', n, term, t, x);
    }
    assert Traced(h', e.log) by { TracedStable(h, h', e.log); }
    assert t in h'.leaderLog;
    if h.leaderLog[t] == h'.leaderLog[t] {
      LeaderLogStable(h, h', t, e.log);
    } else {
      assert LeaderLogOk(h', t, h.elections[t].log, h'.leaderLog[t]);
    }
  }
}
