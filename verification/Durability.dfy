/** What time and crashes cannot undo: terms, votes, committed and acknowledged entries. */
module Durability {
  import opened Wrappers
  import opened Logs
  import opened Nodes
  import opened Clusters
  import opened Histories
  import opened Growth
  import opened Invariants
  import opened Elections
  import opened Replication
  import opened Acceptance
  import opened Runs
  import opened Safety

  /** Durable equals volatile: between steps the state file holds the term, the vote and the log. */
  lemma DiskMirrorsMemory(cfg: Config, run: seq<Cluster>, i: nat, x: nat)
    requires IsRun(cfg, run) && At(run, i, x)
    ensures var s := Node(run, i, x); s.disk == Durable(s.term, s.votedFor, s.log)
  {
    hide Watched, IsRun;
    var hs := Watch(cfg, run);
    var h := NodeFacts(cfg, run, hs, i, x);
  }

  /** Hence a crash forgets no term, no vote and no entry. */
  lemma CrashForgetsNothing(cfg: Config, run: seq<Cluster>, i: nat, x: nat)
    requires IsRun(cfg, run) && At(run, i, x)
    ensures var s, s' := Node(run, i, x), Restart(Node(run, i, x));
      s'.term == s.term && s'.votedFor == s.votedFor && s'.log == s.log && s'.disk == s.disk
  {
    DiskMirrorsMemory(cfg, run, i, x);
  }

  /** The code never runs out of bounds: in every state reached, every node is runnable, so the model's
      own guard on steps blocks nothing. */
  lemma AlwaysRunnable(cfg: Config, run: seq<Cluster>, i: nat, x: nat)
    requires IsRun(cfg, run) && At(run, i, x)
    ensures Runnable(run[i].procs[x])
    ensures Node(run, i, x).lastApplied <= Node(run, i, x).commitIndex <= LastIndex(Node(run, i, x).log)
  {
    var hs := Watch(cfg, run);
    assert Inv(cfg, run[i], hs[i]);
    assert NodeOk(cfg, hs[i], x, run[i].procs[x]);
  }

  // ---- One step ------------------------------------------------------------------

  lemma AcceptFrame(s: NodeState, args: AppendEntriesArgs)
    requires args.prevLogIndex < |s.log|
    ensures var t := Accept(s, args);
      t.term == s.term && t.votedFor == s.votedFor && t.log == Merge(s.log, args.prevLogIndex, args.entries)
  {
    if args.entries == [] {
      assert Merge(s.log, args.prevLogIndex, args.entries) == s.log;
    }
  }

  /** What a request can do to term, vote and log. */
  lemma HandleAppendFrame(s: NodeState, args: AppendEntriesArgs)
    requires |s.log| >= 1
    ensures var s' := HandleAppendEntries(s, args).0;
      && s'.term == Max(s.term, args.term)
      && (s'.term == s.term && s.role == Follower ==> s'.votedFor == s.votedFor)
      && (s'.log == s.log
          || (args.term >= s.term && Conflict(s.log, args, args.term).None?
              && args.prevLogIndex < |s.log|
              && s'.log == Merge(s.log, args.prevLogIndex, args.entries)))
  {
    if args.term >= s.term {
      var t := StepDownFor(s, args);
      if Conflict(t.log, args, t.term).None? {
        AcceptFrame(t, args);
      }
    }
  }

  /** A node's term never falls, and within a term a vote for another node stands. */
  ghost predicate TermAndVoteStand(x: nat, s: NodeState, s': NodeState) {
    && s.term <= s'.term
    && (s.term == s'.term && s.votedFor != 0 && s.votedFor != x ==> s'.votedFor == s.votedFor)
  }

  lemma StandTrans(x: nat, s: NodeState, t: NodeState, u: NodeState)
    requires TermAndVoteStand(x, s, t) && TermAndVoteStand(x, t, u)
    ensures TermAndVoteStand(x, s, u)
  {
  }

  lemma ActStands(cfg: Config, h: History, p: Process, step: Step)
    requires NodeOk(cfg, h, step.n, p) && Ready(p, step)
    ensures TermAndVoteStand(step.n, p.node, Act(p, step).0.node)
  {
    var s := p.node;
    match step {
      case DeliverAppend(n, args) => HandleAppendFrame(s, args);
      case TakeAppendReply(n, r) =>
      case _ =>
    }
  }

  /** Whatever is committed in a node's log stays in its log through any step. */
  lemma ActKeepsCommitted(cfg: Config, h: History, p: Process, net: set<Message>, step: Step, c: nat)
    requires HistoryInv(cfg, h) && NodeOk(cfg, h, step.n, p)
    requires Ready(p, step) && Heard(p, net, step)
    requires forall m {:trigger MessageOk(cfg, h, m)} :: m in net ==> MessageOk(cfg, h, m)
    requires c < |p.node.log| && CommittedTo(cfg, h, p.node.log, c, p.node.term)
    ensures AgreeTo(p.node.log, Act(p, step).0.node.log, c)
  {
    var s, s' := p.node, Act(p, step).0.node;
    match step {
      case DeliverAppend(n, args) =>
        assert MessageOk(cfg, h, AppendRequest(n, args));
        assert Traced(h, s.log);
        hide HistoryInv, NodeOk, MessageOk, HandleAppendEntries, CommittedTo;
        DeliverKeepsCommitted(cfg, h, s, args, c);
      case Client(n, request) =>
        hide HistoryInv, NodeOk, MessageOk, CommittedTo;
        assert s.log <= s'.log;
        AgreeToFrom(s.log, s'.log, c);
      case _ =>
        LogUntouched(cfg, h, p, step);
        AgreeToFrom(s.log, s'.log, c);
    }
  }

  lemma LogUntouched(cfg: Config, h: History, p: Process, step: Step)
    requires NodeOk(cfg, h, step.n, p) && Ready(p, step)
    requires !step.DeliverAppend? && !step.Client?
    ensures Act(p, step).0.node.log == p.node.log
  {
  }

  lemma DeliverKeepsCommitted(cfg: Config, h: History, s: NodeState, args: AppendEntriesArgs, c: nat)
    requires HistoryInv(cfg, h) && Traced(h, s.log) && RequestOk(cfg, h, args)
    requires c < |s.log| && CommittedTo(cfg, h, s.log, c, s.term)
    ensures AgreeTo(s.log, HandleAppendEntries(s, args).0.log, c)
  {
    HandleAppendFrame(s, args);
    var s' := HandleAppendEntries(s, args).0;
    hide HandleAppendEntries, HistoryInv, RequestOk, Traced, Merge, CommittedTo;
    if s'.log == s.log {
      AgreeToFrom(s.log, s'.log, c);
    } else {
      MergeIsFed(cfg, h, s.log, args);
      CommittedToLater(cfg, h, s.log, c, s.term, args.term);
      FedKeepsCommitted(cfg, h, s.log, s'.log, args.term, args.prevLogIndex + |args.entries|, c);
    }
  }

  // ---- Whole runs ----------------------------------------------------------------

  /** The step from moment i to the next, and what is known where it starts. */
  lemma StepAt(cfg: Config, run: seq<Cluster>, hs: seq<History>, i: nat) returns (step: Step)
    requires IsRun(cfg, run) && Watched(cfg, run, hs) && i + 1 < |run|
    ensures |hs| == |run|
    ensures Inv(cfg, run[i], hs[i]) && Inv(cfg, run[i + 1], hs[i + 1]) && Extends(hs[i], hs[i + 1])
    ensures Enabled(run[i], step) && Guarded(run[i], step) && run[i + 1] == Do(run[i], step)
    ensures run[i + 1].procs.Keys == run[i].procs.Keys
  {
    hide Inv, Extends;
    assert Next(run[i], run[i + 1]);
    step :| Enabled(run[i], step) && Guarded(run[i], step) && run[i + 1] == Do(run[i], step);
    assert Inv(cfg, run[i], hs[i]) && Inv(cfg, run[i + 1], hs[i + 1]);
    assert step.n in run[i].procs;
  }

  lemma StepStands(cfg: Config, c: Cluster, h: History, step: Step, x: nat)
    requires Inv(cfg, c, h) && Enabled(c, step) && x in c.procs
    ensures TermAndVoteStand(x, c.procs[x].node, Do(c, step).procs[x].node)
  {
    hide HistoryInv, NodeOk, MessageOk;
    if step.n == x {
      assert NodeOk(cfg, h, x, c.procs[x]);
      hide Inv;
      ActStands(cfg, h, c.procs[x], step);
    }
  }

  /** Terms never fall and a vote for another node is never given twice in a term, crashes included. */
  lemma {:induction false} TermsAndVotesStand(cfg: Config, run: seq<Cluster>, i: nat, j: nat, x: nat)
    requires IsRun(cfg, run) && i <= j && At(run, i, x) && j < |run|
    ensures At(run, j, x)
    ensures TermAndVoteStand(x, Node(run, i, x), Node(run, j, x))
    decreases j
  {
    hide Watched, Inv, IsRun, Enabled, Guarded, Do, Extends;
    if i < j {
      TermsAndVotesStand(cfg, run, i, j - 1, x);
      var hs := Watch(cfg, run);
      var step := StepAt(cfg, run, hs, j - 1);
      StepStands(cfg, run[j - 1], hs[j - 1], step, x);
      hide TermAndVoteStand;
      StandTrans(x, Node(run, i, x), Node(run, j - 1, x), Node(run, j, x));
    }
  }

  lemma NodeAt(cfg: Config, c: Cluster, h: History, x: nat)
    requires Inv(cfg, c, h) && x in c.procs
    ensures HistoryInv(cfg, h) && NodeOk(cfg, h, x, c.procs[x])
    ensures forall m {:trigger MessageOk(cfg, h, m)} :: m in c.net ==> MessageOk(cfg, h, m)
  {
  }

  /** The committed prefix is immutable: what a node has once counted as committed stays in its log
      for ever, even though a restart resets the commit index itself. */
  lemma {:induction false} CommittedNeverLost(cfg: Config, run: seq<Cluster>, i: nat, j: nat, x: nat)
    requires IsRun(cfg, run) && i <= j && At(run, i, x) && j < |run|
    ensures At(run, j, x)
    ensures AgreeTo(Node(run, i, x).log, Node(run, j, x).log, Node(run, i, x).commitIndex)
  {
    hide IsRun;
    var hs := Watch(cfg, run);
    CommittedCarried(cfg, run, hs, i, j, x);
  }

  lemma StepKeepsCommitted(cfg: Config, c: Cluster, h: History, h': History, step: Step, x: nat, k: nat)
    requires Inv(cfg, c, h) && Extends(h, h') && Enabled(c, step) && x in c.procs
    requires var s := c.procs[x].node; k < |s.log| && CommittedTo(cfg, h, s.log, k, s.term)
    ensures var s, s' := c.procs[x].node, Do(c, step).procs[x].node;
      AgreeTo(s.log, s'.log, k) && CommittedTo(cfg, h', s'.log, k, s'.term)
  {
    hide CommittedTo, Extends, HistoryInv, NodeOk, MessageOk;
    var s, s' := c.procs[x].node, Do(c, step).procs[x].node;
    assert NodeOk(cfg, h, x, c.procs[x]);
    hide Inv;
    if step.n == x {
      ActKeepsCommitted(cfg, h, c.procs[x], c.net, step, k);
      ActStands(cfg, h, c.procs[x], step);
    } else {
      AgreeToFrom(s.log, s'.log, k);
    }
    CommittedToStable(cfg, h, h', s.log, s'.log, k, s.term, s'.term);
  }

  lemma {:induction false} CommittedCarried(cfg: Config, run: seq<Cluster>, hs: seq<History>, i: nat, j: nat, x: nat)
    requires IsRun(cfg, run) && Watched(cfg, run, hs) && |hs| == |run| && i <= j && At(run, i, x) && j < |run|
    ensures At(run, j, x)
    ensures var s, s' := Node(run, i, x), Node(run, j, x);
      && AgreeTo(s.log, s'.log, s.commitIndex)
      && CommittedTo(cfg, hs[j], s'.log, s.commitIndex, s'.term)
    decreases j
  {
    hide Watched, IsRun, Inv, CommittedTo, Extends, Enabled, Guarded, Do, AgreeTo, Traced;
    var s := Node(run, i, x);
    if i == j {
      var h := NodeFacts(cfg, run, hs, i, x);
      AgreeToFrom(s.log, s.log, s.commitIndex);
    } else {
      CommittedCarried(cfg, run, hs, i, j - 1, x);
      var step := StepAt(cfg, run, hs, j - 1);
      var t := Node(run, j - 1, x);
      assert s.commitIndex < |t.log| by { AgreeToLength(s.log, t.log, s.commitIndex); }
      StepKeepsCommitted(cfg, run[j - 1], hs[j - 1], hs[j], step, x, s.commitIndex);
      AgreeToTrans(s.log, t.log, Node(run, j, x).log, s.commitIndex);
    }
  }

  lemma AgreeToLength(a: Log, b: Log, k: nat)
    requires AgreeTo(a, b, k)
    ensures k < |b|
  {
  }
}
