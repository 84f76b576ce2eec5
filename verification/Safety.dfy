/** The safety properties of Raft, for every run of the cluster. Each theorem speaks of plain states,
    and of any two moments i and j of a run, in either order unless it says otherwise. */
module Safety {
  import opened Logs
  import opened Replay
  import opened Nodes
  import opened Clusters
  import opened Histories
  import opened Growth
  import opened Invariants
  import opened Runs

  /** Node x at moment i of the run. */
  ghost predicate At(run: seq<Cluster>, i: nat, x: nat) {
    i < |run| && x in run[i].procs
  }

  ghost function Node(run: seq<Cluster>, i: nat, x: nat): NodeState
    requires At(run, i, x)
  {
    run[i].procs[x].node
  }

  /** All a node's facts, told by the history of the whole run. */
  lemma NodeFacts(cfg: Config, run: seq<Cluster>, hs: seq<History>, i: nat, x: nat) returns (h: History)
    requires Watched(cfg, run, hs) && At(run, i, x)
    ensures h == hs[|hs| - 1] && HistoryInv(cfg, h)
    ensures ServerOk(cfg, hs[i], x, Node(run, i, x)) && Extends(hs[i], h)
    ensures LogOk(h, Node(run, i, x)) && CommitOk(cfg, h, Node(run, i, x))
  {
    h := hs[|hs| - 1];
    assert Inv(cfg, run[i], hs[i]) && Inv(cfg, run[|hs| - 1], h);
    assert NodeOk(cfg, hs[i], x, run[i].procs[x]);
    LogStable(cfg, hs[i], h, Node(run, i, x));
  }

  lemma LeaderFacts(cfg: Config, run: seq<Cluster>, hs: seq<History>, i: nat, x: nat) returns (h: History)
    requires Watched(cfg, run, hs) && At(run, i, x) && Node(run, i, x).role == Leader
    ensures h == hs[|hs| - 1]
    ensures var s := Node(run, i, x);
      && s.term in h.elections && h.elections[s.term].winner == x
      && s.term in hs[i].leaderLog && s.log == hs[i].leaderLog[s.term]
      && s.term in h.leaderLog && s.log <= h.leaderLog[s.term]
      && h.elections[s.term].log <= s.log
  {
    h := NodeFacts(cfg, run, hs, i, x);
    assert Inv(cfg, run[i], hs[i]);
    assert ElectionOk(cfg, hs[i], Node(run, i, x).term);
  }

  /** Election Safety (section 5.2): a term has at most one leader, ever. */
  lemma ElectionSafety(cfg: Config, run: seq<Cluster>, i: nat, a: nat, j: nat, b: nat)
    requires IsRun(cfg, run) && At(run, i, a) && At(run, j, b)
    requires Node(run, i, a).role == Leader && Node(run, j, b).role == Leader
    requires Node(run, i, a).term == Node(run, j, b).term
    ensures a == b
  {
    hide Watched;
    var hs := Watch(cfg, run);
    var h := LeaderFacts(cfg, run, hs, i, a);
    var h' := LeaderFacts(cfg, run, hs, j, b);
  }

  /** Leader Append-Only (section 5.3): while it leads a term, a node only adds to its log. */
  lemma LeaderAppendOnly(cfg: Config, run: seq<Cluster>, i: nat, j: nat, a: nat)
    requires IsRun(cfg, run) && i <= j && At(run, i, a) && At(run, j, a)
    requires Node(run, i, a).role == Leader && Node(run, j, a).role == Leader
    requires Node(run, i, a).term == Node(run, j, a).term
    ensures Node(run, i, a).log <= Node(run, j, a).log
  {
    var hs := Watch(cfg, run);
    var h := LeaderFacts(cfg, run, hs, i, a);
    var h' := LeaderFacts(cfg, run, hs, j, a);
    assert Extends(hs[i], hs[j]);
  }

  /** Log Matching (section 5.3): entries with the same index and term head identical prefixes,
      command bytes included. */
  lemma LogMatching(cfg: Config, run: seq<Cluster>, i: nat, a: nat, j: nat, b: nat, k: nat)
    requires IsRun(cfg, run) && At(run, i, a) && At(run, j, b)
    requires k < |Node(run, i, a).log| && k < |Node(run, j, b).log|
    requires Node(run, i, a).log[k].term == Node(run, j, b).log[k].term
    ensures AgreeTo(Node(run, i, a).log, Node(run, j, b).log, k)
  {
    hide Watched, IsRun;
    var hs := Watch(cfg, run);
    var h := NodeFacts(cfg, run, hs, i, a);
    var h' := NodeFacts(cfg, run, hs, j, b);
    TracedLogsMatch(h, Node(run, i, a).log, Node(run, j, b).log, k);
  }

  /** Leader Completeness (section 5.4): whatever a node has ever counted as committed is in the log of
      every leader of a later term. */
  lemma CommittedReachLaterLeaders(cfg: Config, run: seq<Cluster>, i: nat, a: nat, j: nat, b: nat)
    requires IsRun(cfg, run) && At(run, i, a) && At(run, j, b)
    requires Node(run, j, b).role == Leader && Node(run, j, b).term > Node(run, i, a).term
    ensures AgreeTo(Node(run, j, b).log, Node(run, i, a).log, Node(run, i, a).commitIndex)
  {
    hide Watched, IsRun;
    var hs := Watch(cfg, run);
    var h := NodeFacts(cfg, run, hs, i, a);
    var h' := LeaderFacts(cfg, run, hs, j, b);
    var s, leader := Node(run, i, a), Node(run, j, b);
    var c := s.commitIndex;
    if c == 0 {
      var h'' := NodeFacts(cfg, run, hs, j, b);
      AgreeToFrom(leader.log, s.log, 0);
    } else {
      var t: nat, k: nat :| Witness(cfg, h, s.log, c, s.term, t, k);
      LeaderCompleteness(cfg, h, t, k, leader.term);
      PrefixAgrees(h.elections[leader.term].log, leader.log, h.leaderLog[t], k);
      AgreeToShorter(leader.log, h.leaderLog[t], k, c);
    }
  }

  /** State Machine Safety (section 5.4.3): nodes that have both applied index k, at whatever moments,
      applied the same entry there and before. */
  lemma StateMachineSafety(cfg: Config, run: seq<Cluster>, i: nat, a: nat, j: nat, b: nat, k: nat)
    requires IsRun(cfg, run) && At(run, i, a) && At(run, j, b)
    requires k <= Node(run, i, a).lastApplied && k <= Node(run, j, b).lastApplied
    ensures AgreeTo(Node(run, i, a).log, Node(run, j, b).log, k)
  {
    hide Watched, IsRun;
    var hs := Watch(cfg, run);
    var h := NodeFacts(cfg, run, hs, i, a);
    var h' := NodeFacts(cfg, run, hs, j, b);
    var s, r := Node(run, i, a), Node(run, j, b);
    if s.commitIndex <= r.commitIndex {
      CommittedPrefixesAgree(cfg, h, s.log, s.commitIndex, s.term, r.log, r.commitIndex, r.term);
      AgreeToShorter(s.log, r.log, s.commitIndex, k);
    } else {
      CommittedPrefixesAgree(cfg, h, r.log, r.commitIndex, r.term, s.log, s.commitIndex, s.term);
      AgreeToShorter(r.log, s.log, r.commitIndex, k);
    }
  }

  /** The replicated state machines agree: as far applied, same store and same client table. */
  lemma ReplicasAgree(cfg: Config, run: seq<Cluster>, i: nat, a: nat, j: nat, b: nat)
    requires IsRun(cfg, run) && At(run, i, a) && At(run, j, b)
    requires Node(run, i, a).lastApplied == Node(run, j, b).lastApplied
    ensures Node(run, i, a).replica == Node(run, j, b).replica
  {
    hide Watched, IsRun;
    var hs := Watch(cfg, run);
    var h := NodeFacts(cfg, run, hs, i, a);
    var h' := NodeFacts(cfg, run, hs, j, b);
    var s, r := Node(run, i, a), Node(run, j, b);
    hide At, HistoryInv, ServerOk, LogOk, Extends, CommittedTo;
    StateMachineSafety(cfg, run, i, a, j, b, s.lastApplied);
    SameReplay(s.log, r.log, s.lastApplied);
  }

  lemma SameReplay(a: Log, b: Log, k: nat)
    requires AgreeTo(a, b, k)
    ensures ApplyAll(EMPTY_REPLICA, a[1..k + 1]) == ApplyAll(EMPTY_REPLICA, b[1..k + 1])
  {
    assert a[1..k + 1] == a[..k + 1][1..];
    assert b[1..k + 1] == b[..k + 1][1..];
  }

  /** A node's replica is the replay of its log up to lastApplied. */
  lemma ReplicaIsReplay(cfg: Config, run: seq<Cluster>, i: nat, x: nat)
    requires IsRun(cfg, run) && At(run, i, x)
    ensures var s := Node(run, i, x);
      s.lastApplied < |s.log| && s.replica == ApplyAll(EMPTY_REPLICA, s.log[1..s.lastApplied + 1])
  {
    hide Watched, IsRun;
    var hs := Watch(cfg, run);
    var h := NodeFacts(cfg, run, hs, i, x);
  }

  /** Exactly once, cluster-wide: the store of every node in every state reached is the plain execution
      of the commands of its applied entries whose number exceeds all earlier ones of their client. */
  lemma StoreIsExecutionOfEffective(cfg: Config, run: seq<Cluster>, i: nat, x: nat)
    requires IsRun(cfg, run) && At(run, i, x)
    ensures var s := Node(run, i, x);
      s.lastApplied < |s.log| && s.replica.store == Execute(map[], Effective(s.log[1..s.lastApplied + 1]))
  {
    hide IsRun, Effective, Execute;
    var s := Node(run, i, x);
    ReplicaIsReplay(cfg, run, i, x);
    ReplayIsExecutionOfEffective(s.log[1..s.lastApplied + 1]);
  }

  /** A commit is truthful: at every moment a majority of the nodes hold, in their logs at that
      moment, all that any one node counts as committed. */
  lemma QuorumHoldsCommitted(cfg: Config, run: seq<Cluster>, i: nat, a: nat) returns (q: set<nat>)
    requires IsRun(cfg, run) && At(run, i, a)
    requires Node(run, i, a).commitIndex > 0
    ensures IsQuorum(cfg, q)
    ensures forall x :: x in q ==> At(run, i, x) && AgreeTo(Node(run, i, x).log, Node(run, i, a).log, Node(run, i, a).commitIndex)
  {
    hide IsRun;
    var hs := Watch(cfg, run);
    var h := hs[i];
    var s := Node(run, i, a);
    assert Inv(cfg, run[i], h);
    assert NodeOk(cfg, h, a, run[i].procs[a]);
    hide Watched;
    var t: nat, k: nat :| Witness(cfg, h, s.log, s.commitIndex, s.term, t, k);
    q := Ackers(cfg, h, t, k);
    forall x | x in q
      ensures At(run, i, x) && AgreeTo(Node(run, i, x).log, s.log, s.commitIndex)
    {
      assert x in run[i].procs;
      assert NodeOk(cfg, h, x, run[i].procs[x]);
      AckerHolds(cfg, h, x, Node(run, i, x), t, k);
      AgreeToShorter(Node(run, i, x).log, h.leaderLog[t], k, s.commitIndex);
    }
  }

  lemma AckerHolds(cfg: Config, h: History, x: nat, s: NodeState, t: nat, k: nat)
    requires HistoryInv(cfg, h) && AcksOk(h, x, s)
    requires Committed(cfg, h, t, k) && Acked(h, x, t, k)
    ensures AgreeTo(s.log, h.leaderLog[t], k)
  {
    assert Kept(h, s.log, t, k, s.term);
    if !AgreeTo(s.log, h.leaderLog[t], k) {
      var u: nat :| t < u <= s.term && u in h.elections && !AgreeTo(h.elections[u].log, h.leaderLog[t], k);
      LeaderCompleteness(cfg, h, t, k, u);
      assert false;
    }
  }
}
