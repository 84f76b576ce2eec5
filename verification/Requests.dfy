/** What every request and reply ever sent satisfies, and what handling it may and may not do. */
module Requests {
  import opened Logs
  import opened Nodes
  import opened Clusters
  import opened Histories
  import opened Growth
  import opened Invariants
  import opened Replication
  import opened Acceptance
  import opened Runs
  import opened Safety
  import opened Durability

  lemma RequestFacts(cfg: Config, run: seq<Cluster>, hs: seq<History>, i: nat, x: nat, args: AppendEntriesArgs)
    returns (h: History)
    requires Watched(cfg, run, hs) && At(run, i, x) && AppendRequest(x, args) in run[i].net
    ensures |hs| == |run| && h == hs[i] && HistoryInv(cfg, h) && RequestOk(cfg, h, args) && args.leaderId != x
    ensures ServerOk(cfg, h, x, Node(run, i, x))
  {
    h := hs[i];
    hide HistoryInv, NodeOk, MessageOk;
    assert Inv(cfg, run[i], h);
    NodeAt(cfg, run[i], h, x);
    hide *;
    MessageAt(cfg, h, run[i].net, x, args);
    ServerAt(cfg, h, x, run[i].procs[x]);
    NodeIs(run, i, x);
  }

  lemma NodeIs(run: seq<Cluster>, i: nat, x: nat)
    requires At(run, i, x)
    ensures Node(run, i, x) == run[i].procs[x].node
  {
  }

  lemma ServerAt(cfg: Config, h: History, x: nat, p: Process)
    requires NodeOk(cfg, h, x, p)
    ensures ServerOk(cfg, h, x, p.node)
  {
  }

  lemma MessageAt(cfg: Config, h: History, net: set<Message>, x: nat, args: AppendEntriesArgs)
    requires forall m {:trigger MessageOk(cfg, h, m)} :: m in net ==> MessageOk(cfg, h, m)
    requires AppendRequest(x, args) in net
    ensures RequestOk(cfg, h, args) && args.leaderId != x
  {
    assert MessageOk(cfg, h, AppendRequest(x, args));
  }

  /** Every request ever sent is numbered consecutively, so merging it never throws, and carries a
      commit index its own entries reach, so the shortcut min(leaderCommit, lastIndex) is sound even
      for a request that arrives late. */
  lemma EveryRequestReachesItsCommit(cfg: Config, run: seq<Cluster>, i: nat, x: nat, args: AppendEntriesArgs)
    requires IsRun(cfg, run) && At(run, i, x) && AppendRequest(x, args) in run[i].net
    ensures Consecutive(args.prevLogIndex, args.entries)
    ensures args.leaderCommit <= args.prevLogIndex + |args.entries|
  {
    hide IsRun, Watched, HistoryInv, ServerOk, RequestOk;
    var hs := Watch(cfg, run);
    var h := RequestFacts(cfg, run, hs, i, x, args);
    RequestIsSlice(cfg, h, args);
  }

  lemma RequestIsSlice(cfg: Config, h: History, args: AppendEntriesArgs)
    requires HistoryInv(cfg, h) && RequestOk(cfg, h, args)
    ensures Consecutive(args.prevLogIndex, args.entries)
    ensures args.leaderCommit <= args.prevLogIndex + |args.entries|
  {
    hide CommittedTo;
    assert ElectionOk(cfg, h, args.term);
  }

  /** The log is only ever cut above the commit index. */
  lemma CutsAreAboveCommit(cfg: Config, run: seq<Cluster>, i: nat, x: nat, args: AppendEntriesArgs)
    requires IsRun(cfg, run) && At(run, i, x) && AppendRequest(x, args) in run[i].net
    requires var s := Node(run, i, x);
      && args.term >= s.term && |s.log| >= 1 && Conflict(s.log, args, args.term).None?
      && args.prevLogIndex < |s.log|
      && HeldCount(s.log, args.prevLogIndex, args.entries) < |args.entries|
    ensures var s := Node(run, i, x);
      args.prevLogIndex + 1 + HeldCount(s.log, args.prevLogIndex, args.entries) > s.commitIndex
  {
    var hs := Watch(cfg, run);
    var h := RequestFacts(cfg, run, hs, i, x, args);
    var s := Node(run, i, x);
    hide IsRun, Watched;
    CutAbove(cfg, h, s, args);
  }

  lemma CommitParts(cfg: Config, h: History, s: NodeState)
    requires Traced(h, s.log) && CommitOk(cfg, h, s)
    ensures WellIndexed(s.log) && CommittedTo(cfg, h, s.log, s.commitIndex, s.term)
  {
  }

  lemma CutAbove(cfg: Config, h: History, s: NodeState, args: AppendEntriesArgs)
    requires HistoryInv(cfg, h) && RequestOk(cfg, h, args)
    requires Traced(h, s.log) && CommitOk(cfg, h, s)
    requires args.term >= s.term && args.prevLogIndex < |s.log|
    requires HeldCount(s.log, args.prevLogIndex, args.entries) < |args.entries|
    ensures args.prevLogIndex + 1 + HeldCount(s.log, args.prevLogIndex, args.entries) > s.commitIndex
  {
    hide HistoryInv, Traced, CommittedTo, ElectionOk, HeldFrom;
    var held := HeldCount(s.log, args.prevLogIndex, args.entries);
    CommitParts(cfg, h, s);
    var at, c := args.prevLogIndex + 1 + held, s.commitIndex;
    var leader := h.leaderLog[args.term];
    LeaderHoldsCommitted(cfg, h, s.log, c, s.term, args.term);
    if at <= c {
      assert false;
    }
  }

  // ---- Acknowledged entries -----------------------------------------------------------

  lemma {:induction false} NetGrows(cfg: Config, run: seq<Cluster>, i: nat, j: nat)
    requires IsRun(cfg, run) && i <= j < |run|
    ensures run[i].net <= run[j].net
    decreases j
  {
    if i < j {
      NetGrows(cfg, run, i, j - 1);
      assert Next(run[j - 1], run[j - 1 + 1]);
    }
  }

  /** An acknowledged entry is never forgotten: as long as the node is still in the term of the request
      it answered, whatever was delivered since and however often it restarted, its log holds every
      entry of that request. */
  lemma AcknowledgedEntriesStay(cfg: Config, run: seq<Cluster>, i: nat, j: nat, x: nat,
                                args: AppendEntriesArgs, r: AppendEntriesReply, m: nat)
    requires IsRun(cfg, run) && i <= j < |run| && At(run, j, x)
    requires AppendReply(x, args, r) in run[i].net && r.success
    requires Node(run, j, x).term == args.term
    requires m < |args.entries|
    ensures args.prevLogIndex + 1 + m < |Node(run, j, x).log|
    ensures Node(run, j, x).log[args.prevLogIndex + 1 + m] == args.entries[m]
  {
    NetGrows(cfg, run, i, j);
    var hs := Watch(cfg, run);
    var h := hs[j];
    hide HistoryInv, NodeOk, MessageOk;
    assert Inv(cfg, run[j], h);
    NodeAt(cfg, run[j], h, x);
    NodeIs(run, j, x);
    hide *;
    EntriesStay(cfg, h, run[j].net, x, run[j].procs[x], args, r, m);
  }

  lemma EntriesStay(cfg: Config, h: History, net: set<Message>, x: nat, p: Process,
                    args: AppendEntriesArgs, r: AppendEntriesReply, m: nat)
    requires forall m {:trigger MessageOk(cfg, h, m)} :: m in net ==> MessageOk(cfg, h, m)
    requires NodeOk(cfg, h, x, p) && p.node.term == args.term
    requires AppendReply(x, args, r) in net && r.success && m < |args.entries|
    ensures args.prevLogIndex + 1 + m < |p.node.log|
    ensures p.node.log[args.prevLogIndex + 1 + m] == args.entries[m]
  {
    ReplyTruthful(cfg, h, net, x, p, args, r);
    AgreeToAt(p.node.log, h.leaderLog[args.term], args.prevLogIndex + |args.entries|, args.prevLogIndex + 1 + m);
  }

  lemma ReplyTruthful(cfg: Config, h: History, net: set<Message>, x: nat, p: Process,
                      args: AppendEntriesArgs, r: AppendEntriesReply)
    requires forall m {:trigger MessageOk(cfg, h, m)} :: m in net ==> MessageOk(cfg, h, m)
    requires NodeOk(cfg, h, x, p) && p.node.term == args.term
    requires AppendReply(x, args, r) in net && r.success
    ensures RequestOk(cfg, h, args)
    ensures AgreeTo(p.node.log, h.leaderLog[args.term], args.prevLogIndex + |args.entries|)
  {
    assert MessageOk(cfg, h, AppendReply(x, args, r));
    assert Kept(h, p.node.log, args.term, args.prevLogIndex + |args.entries|, p.node.term);
  }

  /** A request of the term a node is in, however stale, removes nothing the node has acknowledged
      in that term. */
  lemma StaleRequestKeepsAcknowledged(cfg: Config, run: seq<Cluster>, i: nat, x: nat,
                                      earlier: AppendEntriesArgs, r: AppendEntriesReply, args: AppendEntriesArgs)
    requires IsRun(cfg, run) && At(run, i, x)
    requires AppendReply(x, earlier, r) in run[i].net && r.success && AppendRequest(x, args) in run[i].net
    requires Node(run, i, x).term == earlier.term == args.term
    ensures |Node(run, i, x).log| >= 1
    ensures AgreeTo(Node(run, i, x).log, HandleAppendEntries(Node(run, i, x), args).0.log,
                    earlier.prevLogIndex + |earlier.entries|)
  {
    var hs := Watch(cfg, run);
    var h := RequestFacts(cfg, run, hs, i, x, args);
    assert Inv(cfg, run[i], h);
    hide HistoryInv, NodeOk, MessageOk;
    NodeAt(cfg, run[i], h, x);
    hide *;
    NodeIs(run, i, x);
    StaleKeeps(cfg, h, run[i].net, x, run[i].procs[x], earlier, r, args);
  }

  lemma StaleKeeps(cfg: Config, h: History, net: set<Message>, x: nat, p: Process,
                   earlier: AppendEntriesArgs, r: AppendEntriesReply, args: AppendEntriesArgs)
    requires HistoryInv(cfg, h) && NodeOk(cfg, h, x, p) && RequestOk(cfg, h, args)
    requires forall m {:trigger MessageOk(cfg, h, m)} :: m in net ==> MessageOk(cfg, h, m)
    requires AppendReply(x, earlier, r) in net && r.success
    requires p.node.term == earlier.term == args.term
    ensures |p.node.log| >= 1
    ensures AgreeTo(p.node.log, HandleAppendEntries(p.node, args).0.log, earlier.prevLogIndex + |earlier.entries|)
  {
    hide HistoryInv, NodeOk, ServerOk, RequestOk, MessageOk, Traced, HandleAppendEntries;
    ReplyTruthful(cfg, h, net, x, p, earlier, r);
    ServerAt(cfg, h, x, p);
    ServerParts(cfg, h, x, p.node);
    DeliverKeepsAgreement(cfg, h, p.node, args, earlier.prevLogIndex + |earlier.entries|);
  }

  lemma DeliverKeepsAgreement(cfg: Config, h: History, s: NodeState, args: AppendEntriesArgs, k: nat)
    requires HistoryInv(cfg, h) && Traced(h, s.log) && RequestOk(cfg, h, args) && args.term == s.term
    requires AgreeTo(s.log, h.leaderLog[s.term], k)
    ensures AgreeTo(s.log, HandleAppendEntries(s, args).0.log, k)
  {
    hide HandleAppendEntries, HistoryInv, RequestOk, Traced, Conflict, Merge;
    HandleAppendFrame(s, args);
    var s' := HandleAppendEntries(s, args).0;
    if s'.log == s.log {
      AgreeToFrom(s.log, s'.log, k);
    } else {
      MergeIsFed(cfg, h, s.log, args);
      FedKeepsAgreement(cfg, h, s.log, s'.log, args.term, args.prevLogIndex + |args.entries|, k);
    }
  }

  /** If the node's last entry is of the request's term, the request removes nothing at all. */
  lemma StaleRequestRemovesNothing(cfg: Config, run: seq<Cluster>, i: nat, x: nat, args: AppendEntriesArgs)
    requires IsRun(cfg, run) && At(run, i, x) && AppendRequest(x, args) in run[i].net
    requires Node(run, i, x).log != [] && LastTerm(Node(run, i, x).log) == args.term
    ensures Node(run, i, x).log <= HandleAppendEntries(Node(run, i, x), args).0.log
  {
    var hs := Watch(cfg, run);
    hide IsRun, Watched, HistoryInv;
    var h := RequestFacts(cfg, run, hs, i, x, args);
    hide *;
    RemovesNothing(cfg, h, x, Node(run, i, x), args);
  }

  lemma RemovesNothing(cfg: Config, h: History, x: nat, s: NodeState, args: AppendEntriesArgs)
    requires HistoryInv(cfg, h) && ServerOk(cfg, h, x, s) && RequestOk(cfg, h, args)
    requires LastTerm(s.log) == args.term
    ensures s.log <= HandleAppendEntries(s, args).0.log
  {
    hide HistoryInv, ServerOk, Traced, RequestOk, HandleAppendEntries;
    ServerParts(cfg, h, x, s);
    RequestParts(cfg, h, args);
    HandleAppendFrame(s, args);
    if args.term == s.term {
      var last := LastIndex(s.log);
      LastTraced(cfg, h, s.log, args.term);
      DeliverKeepsAgreement(cfg, h, s, args, last);
      assert s.log[..last + 1] == s.log;
    }
  }

  lemma LastTraced(cfg: Config, h: History, log: Log, term: nat)
    requires HistoryInv(cfg, h) && Traced(h, log) && term in h.elections
    requires LastTerm(log) == term
    ensures term in h.leaderLog && AgreeTo(log, h.leaderLog[term], LastIndex(log))
  {
    assert ElectionOk(cfg, h, term);
    if LastIndex(log) > 0 {
      assert TracedAt(h, log, LastIndex(log));
    }
  }

  // ---- The heartbeat sweep --------------------------------------------------------------

  ghost predicate Leads(run: seq<Cluster>, j: nat, n: nat, term: nat) {
    At(run, j, n) && Node(run, j, n).role == Leader && Node(run, j, n).term == term
  }

  /** A node halfway through a heartbeat sweep sends under a term it has led if and only if it is still
      the leader; the code's loop does not look (src/raft/RaftNode.cpp:528-533). */
  lemma SweepSendsOwnTermIff(cfg: Config, run: seq<Cluster>, i: nat, n: nat)
    requires IsRun(cfg, run) && At(run, i, n) && Ready(run[i].procs[n], SendAppend(n))
    ensures var args := AppendArgs(Node(run, i, n), run[i].procs[n].act.next);
      Node(run, i, n).role == Leader <==> exists j: nat :: j <= i && Leads(run, j, n, args.term)
  {
    var s := Node(run, i, n);
    if j: nat :| j <= i && Leads(run, j, n, s.term) {
      LedBefore(cfg, run, j, i, n);
    }
    if s.role == Leader {
      var args := AppendArgs(s, run[i].procs[n].act.next);
      assert Leads(run, i, n, args.term);
    }
  }

  lemma LedBefore(cfg: Config, run: seq<Cluster>, j: nat, i: nat, n: nat)
    requires IsRun(cfg, run) && j <= i && At(run, i, n) && run[i].procs[n].act.Sweeping?
    requires Leads(run, j, n, Node(run, i, n).term)
    ensures Node(run, i, n).role == Leader
  {
    var hs := Watch(cfg, run);
    var h := NodeFacts(cfg, run, hs, j, n);
    assert Inv(cfg, run[i], hs[i]) && Extends(hs[j], hs[i]);
    hide IsRun, Watched;
    NodeAt(cfg, run[i], hs[i], n);
    hide Inv;
    assert ValidConfig(cfg);
    hide HistoryInv;
    LedTermVote(cfg, hs[i], n, run[i].procs[n], Node(run, i, n).term);
  }

  lemma LedTermVote(cfg: Config, h: History, n: nat, p: Process, term: nat)
    requires NodeOk(cfg, h, n, p) && ValidConfig(cfg)
    requires p.act.Sweeping? && p.node.term == term
    requires term in h.elections && h.elections[term].winner == n
    ensures p.node.role == Leader
  {
  }
}
