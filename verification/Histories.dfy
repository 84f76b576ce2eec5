/** What an outside observer remembers of a run: who stood for which term with which log, who voted,
    who won, what each term's leader has put in its log, and how far each node has acknowledged it.
    No step of the cluster reads any of this. */
module Histories {
  import opened Logs
  import opened Nodes
  import opened Clusters

  datatype Vote = Vote(candidate: nat, log: Log)
  datatype Election = Election(winner: nat, log: Log, votes: map<nat, Log>)

  datatype History = History(
    bids: map<(nat, nat), Log>,       // (term, candidate): the log it stood with
    grants: map<(nat, nat), Vote>,    // (term, voter): the vote given to another node, with the voter's log
    elections: map<nat, Election>,    // term: its winner, the winner's log then, the quorum's logs
    leaderLog: map<nat, Log>,         // term: all its leader has had in its log
    acks: map<(nat, nat), nat>)       // (node, term): how far it has held that term's leader's log

  const NO_HISTORY: History := History(map[], map[], map[], map[], map[])

  // ---- Vocabulary ------------------------------------------------------------

  /** A log whose every entry of a term t sits on the same history as in t's leader's log. */
  ghost predicate Traced(h: History, log: Log) {
    && WellIndexed(log)
    && (forall i, j :: 0 <= i < j < |log| ==> log[i].term <= log[j].term)
    && (forall k :: 0 < k < |log| ==> TracedAt(h, log, k))
  }

  ghost predicate TracedAt(h: History, log: Log, k: nat)
    requires k < |log|
  {
    log[k].term in h.leaderLog && AgreeTo(log, h.leaderLog[log[k].term], k)
  }

  ghost predicate Acked(h: History, x: nat, t: nat, k: nat) {
    (x, t) in h.acks && k <= h.acks[(x, t)]
  }

  ghost function Ackers(cfg: Config, h: History, t: nat, k: nat): set<nat> {
    set x | x in cfg.ids && Acked(h, x, t, k)
  }

  ghost predicate IsQuorum(cfg: Config, q: set<nat>) {
    q <= cfg.ids && 2 * |q| > |cfg.ids|
  }

  /** Entry k of term t, made in term t, has been acknowledged by a quorum. */
  ghost predicate Committed(cfg: Config, h: History, t: nat, k: nat) {
    && t in h.leaderLog
    && 0 < k < |h.leaderLog[t]|
    && h.leaderLog[t][k].term == t
    && IsQuorum(cfg, Ackers(cfg, h, t, k))
  }

  /** Everything in `log` up to `c` is committed, by a term no later than `bound`. */
  ghost predicate CommittedTo(cfg: Config, h: History, log: Log, c: nat, bound: nat) {
    c == 0 || exists t: nat, k: nat :: Witness(cfg, h, log, c, bound, t, k)
  }

  ghost predicate Witness(cfg: Config, h: History, log: Log, c: nat, bound: nat, t: nat, k: nat) {
    t <= bound && c <= k && Committed(cfg, h, t, k) && AgreeTo(log, h.leaderLog[t], c)
  }

  /** A term in (t, bound] was won with a log that lacks the first k entries of t's leader. */
  ghost predicate Displaced(h: History, t: nat, k: nat, bound: nat)
    requires t in h.leaderLog
  {
    exists u: nat :: t < u <= bound && u in h.elections && !AgreeTo(h.elections[u].log, h.leaderLog[t], k)
  }

  ghost predicate Kept(h: History, log: Log, t: nat, k: nat, bound: nat) {
    t in h.leaderLog && (AgreeTo(log, h.leaderLog[t], k) || Displaced(h, t, k, bound))
  }

  /** What x acknowledged in terms up to `bound` is in `log`, unless a later leader displaced it. */
  ghost predicate Retains(h: History, x: nat, log: Log, bound: nat) {
    forall t: nat, k: nat {:trigger Kept(h, log, t, k, bound)} ::
      t <= bound && Acked(h, x, t, k) ==> Kept(h, log, t, k, bound)
  }

  // ---- Invariants of a history -------------------------------------------------

  ghost predicate VoteOk(cfg: Config, h: History, term: nat, x: nat, v: Vote) {
    && term >= 1
    && x in cfg.ids && v.candidate in cfg.ids && v.candidate != x
    && Traced(h, v.log)
    && (term, v.candidate) in h.bids
    && LogUpToDate(h.bids[(term, v.candidate)], v.log)
    && (term !in h.elections ==> Retains(h, x, v.log, term - 1))
  }

  ghost predicate LogUpToDate(candidate: Log, voter: Log) {
    |candidate| >= 1 && |voter| >= 1 && UpToDate(LastIndex(candidate), LastTerm(candidate), voter)
  }

  ghost predicate ElectionOk(cfg: Config, h: History, term: nat)
    requires term in h.elections
  {
    var e := h.elections[term];
    && term >= 1
    && e.winner in cfg.ids
    && (term, e.winner) in h.bids && h.bids[(term, e.winner)] == e.log
    && (term, e.winner) !in h.grants
    && Traced(h, e.log) && LastTerm(e.log) < term
    && term in h.leaderLog
    && LeaderLogOk(h, term, e.log, h.leaderLog[term])
    && IsQuorum(cfg, e.votes.Keys)
    && forall x {:trigger QuorumVoteOk(h, term, x)} :: x in e.votes ==> QuorumVoteOk(h, term, x)
  }

  /** The leader's log extends the one it won with by entries of its own term. */
  ghost predicate LeaderLogOk(h: History, term: nat, start: Log, log: Log) {
    && start <= log
    && Traced(h, log)
    && forall i :: |start| <= i < |log| ==> log[i].term == term
  }

  ghost predicate QuorumVoteOk(h: History, term: nat, x: nat)
    requires term in h.elections && x in h.elections[term].votes
  {
    var e := h.elections[term];
    && term >= 1
    && Traced(h, e.votes[x])
    && LogUpToDate(e.log, e.votes[x])
    && Retains(h, x, e.votes[x], term - 1)
    && (x == e.winner || ((term, x) in h.grants && h.grants[(term, x)].candidate == e.winner))
  }

  ghost predicate AckOk(cfg: Config, h: History, x: nat, t: nat)
    requires (x, t) in h.acks
  {
    x in cfg.ids && t in h.leaderLog && h.acks[(x, t)] < |h.leaderLog[t]|
  }

  ghost predicate HistoryInv(cfg: Config, h: History) {
    && ValidConfig(cfg)
    && h.leaderLog.Keys == h.elections.Keys
    && (forall t {:trigger ElectionOk(cfg, h, t)} :: t in h.elections ==> ElectionOk(cfg, h, t))
    && (forall t, x {:trigger VoteOk(cfg, h, t, x, h.grants[(t, x)])} ::
          (t, x) in h.grants ==> VoteOk(cfg, h, t, x, h.grants[(t, x)]))
    && (forall x, t {:trigger AckOk(cfg, h, x, t)} :: (x, t) in h.acks ==> AckOk(cfg, h, x, t))
  }

  lemma VoteFacts(cfg: Config, h: History, t: nat, x: nat)
    requires HistoryInv(cfg, h) && (t, x) in h.grants
    ensures VoteOk(cfg, h, t, x, h.grants[(t, x)])
  {
  }

  lemma QuorumVoteFacts(cfg: Config, h: History, t: nat, x: nat)
    requires HistoryInv(cfg, h) && t in h.elections && x in h.elections[t].votes
    ensures ElectionOk(cfg, h, t) && QuorumVoteOk(h, t, x)
  {
    assert ElectionOk(cfg, h, t);
  }

  lemma AckFacts(cfg: Config, h: History, x: nat, t: nat)
    requires HistoryInv(cfg, h) && (x, t) in h.acks
    ensures AckOk(cfg, h, x, t)
  {
  }

  // ---- Consequences --------------------------------------------------------------

  lemma QuorumsMeet(cfg: Config, a: set<nat>, b: set<nat>) returns (x: nat)
    requires IsQuorum(cfg, a) && IsQuorum(cfg, b)
    ensures x in a && x in b
  {
    if a * b == {} {
      assert |a + b| == |a| + |b|;
      SubsetSize(a + b, cfg.ids);
      assert false;
    }
    x :| x in a * b;
  }

  lemma {:induction false} SubsetSize(a: set<nat>, b: set<nat>)
    requires a <= b
    ensures |a| <= |b|
  {
    if a != {} {
      var x :| x in a;
      SubsetSize(a - {x}, b - {x});
    }
  }

  /** Log Matching: traced logs that agree on the term at k agree on everything up to k. */
  lemma TracedLogsMatch(h: History, a: Log, b: Log, k: nat)
    requires Traced(h, a) && Traced(h, b)
    requires k < |a| && k < |b| && a[k].term == b[k].term
    ensures AgreeTo(a, b, k)
  {
    if k == 0 {
      AgreeToFrom(a, b, 0);
    } else {
      assert TracedAt(h, a, k) && TracedAt(h, b, k);
    }
  }

  /** An up-to-date log keeps an older leader's entries, given that the leaders in between do. */
  lemma UpToDateKeeps(h: History, candidate: Log, voter: Log, t: nat, k: nat, bound: nat)
    requires Traced(h, candidate) && Traced(h, voter)
    requires LogUpToDate(candidate, voter)
    requires LastTerm(candidate) < bound
    requires t in h.leaderLog && 0 < k < |h.leaderLog[t]| && h.leaderLog[t][k].term == t
    requires AgreeTo(voter, h.leaderLog[t], k)
    requires forall u :: t < u < bound && u in h.leaderLog ==> AgreeTo(h.leaderLog[u], h.leaderLog[t], k)
    ensures AgreeTo(candidate, h.leaderLog[t], k)
  {
    var last := LastIndex(candidate);
    AgreeToAt(voter, h.leaderLog[t], k, k);
    assert LastTerm(voter) >= t;
    if LastTerm(candidate) == LastTerm(voter) {
      var lv := LastIndex(voter);
      assert lv > 0 && lv <= last && candidate[last].term == voter[lv].term;
      var u := voter[lv].term;
      assert TracedAt(h, voter, lv) && TracedAt(h, candidate, last);
      AgreeToShorter(candidate, h.leaderLog[u], last, lv);
      AgreeToShorter(candidate, voter, lv, k);
    } else {
      var u := candidate[last].term;
      assert t < u;
      assert TracedAt(h, candidate, last);
      assert AgreeTo(h.leaderLog[u], h.leaderLog[t], k);
      if last <= k {
        AgreeToAt(h.leaderLog[u], h.leaderLog[t], k, last);
        AgreeToAt(candidate, h.leaderLog[u], last, last);
        AgreeToAt(voter, h.leaderLog[t], k, last);
        assert false;
      }
      AgreeToShorter(candidate, h.leaderLog[u], last, k);
    }
  }

  /** Leader Completeness: a committed entry is in the log every later term is won with. */
  lemma {:induction false} LeaderCompleteness(cfg: Config, h: History, t: nat, k: nat, term: nat)
    requires HistoryInv(cfg, h)
    requires Committed(cfg, h, t, k)
    requires term in h.elections && t < term
    ensures AgreeTo(h.elections[term].log, h.leaderLog[t], k)
    ensures AgreeTo(h.leaderLog[term], h.leaderLog[t], k)
    decreases term
  {
    var e := h.elections[term];
    assert ElectionOk(cfg, h, term);
    var x := QuorumsMeet(cfg, Ackers(cfg, h, t, k), e.votes.Keys);
    assert QuorumVoteOk(h, term, x);
    forall u | t < u < term && u in h.leaderLog
      ensures AgreeTo(h.elections[u].log, h.leaderLog[t], k)
      ensures AgreeTo(h.leaderLog[u], h.leaderLog[t], k)
    {
      LeaderCompleteness(cfg, h, t, k, u);
    }
    assert Kept(h, e.votes[x], t, k, term - 1);
    assert AgreeTo(e.votes[x], h.leaderLog[t], k);
    UpToDateKeeps(h, e.log, e.votes[x], t, k, term);
    PrefixAgrees(e.log, h.leaderLog[term], h.leaderLog[t], k);
  }

  lemma PrefixAgrees(a: Log, longer: Log, b: Log, k: nat)
    requires a <= longer && AgreeTo(a, b, k)
    ensures AgreeTo(longer, b, k)
  {
    forall i | 0 <= i <= k ensures longer[i] == b[i] { AgreeToAt(a, b, k, i); }
    AgreeToFrom(longer, b, k);
  }

  /** Two committed prefixes agree wherever both reach. */
  lemma CommittedPrefixesAgree(cfg: Config, h: History, a: Log, c: nat, ba: nat, b: Log, d: nat, bb: nat)
    requires HistoryInv(cfg, h)
    requires CommittedTo(cfg, h, a, c, ba) && CommittedTo(cfg, h, b, d, bb)
    requires WellIndexed(a) && WellIndexed(b)
    requires c <= d
    ensures AgreeTo(a, b, c)
  {
    if c == 0 {
      AgreeToFrom(a, b, 0);
    } else {
      var t: nat, k: nat :| Witness(cfg, h, a, c, ba, t, k);
      var u: nat, j: nat :| Witness(cfg, h, b, d, bb, u, j);
      AgreeToShorter(b, h.leaderLog[u], d, c);
      CommittedLeadersAgree(cfg, h, t, k, u, j, c);
      AgreeToTrans(a, h.leaderLog[t], h.leaderLog[u], c);
    }
  }

  lemma CommittedLeadersAgree(cfg: Config, h: History, t: nat, k: nat, u: nat, j: nat, c: nat)
    requires HistoryInv(cfg, h)
    requires Committed(cfg, h, t, k) && Committed(cfg, h, u, j) && c <= k && c <= j
    ensures AgreeTo(h.leaderLog[t], h.leaderLog[u], c)
  {
    if t < u {
      LeaderCompleteness(cfg, h, t, k, u);
      AgreeToShorter(h.leaderLog[u], h.leaderLog[t], k, c);
    } else if u < t {
      LeaderCompleteness(cfg, h, u, j, t);
      AgreeToShorter(h.leaderLog[t], h.leaderLog[u], j, c);
    }
  }

  /** A leader of a term no earlier than the witness holds the committed prefix. */
  lemma LeaderHoldsCommitted(cfg: Config, h: History, log: Log, c: nat, bound: nat, term: nat)
    requires HistoryInv(cfg, h)
    requires CommittedTo(cfg, h, log, c, bound) && WellIndexed(log)
    requires term in h.elections && bound <= term
    ensures AgreeTo(h.leaderLog[term], log, c)
  {
    assert ElectionOk(cfg, h, term);
    if c == 0 {
      AgreeToFrom(h.leaderLog[term], log, 0);
    } else {
      var t: nat, k: nat :| Witness(cfg, h, log, c, bound, t, k);
      if t < term {
        LeaderCompleteness(cfg, h, t, k, term);
        AgreeToShorter(h.leaderLog[term], h.leaderLog[t], k, c);
      }
    }
  }
}
