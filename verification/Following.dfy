/** What a leader tells its followers, and that they heed it. */
module Following {
  import opened Wrappers
  import opened Logs
  import opened Replay
  import opened Nodes
  import opened Clusters
  import opened Histories
  import opened Invariants
  import opened Runs
  import opened Safety
  import opened Durability
  import opened Backtracking
  import opened Outcomes

  // ---- Requests ------------------------------------------------------------------------------------

  /** Every request in the network is what some leader asked of that peer at some earlier moment: it
      carries the suffix and the commit index that the sender then had. */
  lemma {:induction false} RequestsAreAsked(cfg: Config, run: seq<Cluster>, i: nat, x: nat, args: AppendEntriesArgs)
    returns (j: nat, k: nat)
    requires IsRun(cfg, run) && i < |run| && AppendRequest(x, args) in run[i].net
    ensures j < i && At(run, j, args.leaderId)
    ensures var s := Node(run, j, args.leaderId);
      s.role == Leader && k < |s.peers| && s.peers[k] == x && Asks(s, k, args)
    decreases i
  {
    hide IsRun, Watched, Inv, Asks;
    if i == 0 {
      NoRequestsAtFirst(cfg, run);
      assert false;
    } else if AppendRequest(x, args) in run[i - 1].net {
      j, k := RequestsAreAsked(cfg, run, i - 1, x, args);
    } else {
      var hs := Watch(cfg, run);
      var step := StepAt(cfg, run, hs, i - 1);
      j, k := i - 1, run[i - 1].procs[step.n].act.next;
      SentIsAsked(cfg, run[i - 1], hs[i - 1], step, x, args);
    }
  }

  lemma NoRequestsAtFirst(cfg: Config, run: seq<Cluster>)
    requires IsRun(cfg, run)
    ensures run[0].net == {}
  {
  }

  lemma SentIsAsked(cfg: Config, c: Cluster, h: History, step: Step, x: nat, args: AppendEntriesArgs)
    requires Inv(cfg, c, h) && Enabled(c, step) && Guarded(c, step)
    requires AppendRequest(x, args) in Do(c, step).net && AppendRequest(x, args) !in c.net
    ensures step.n == args.leaderId && step.SendAppend?
    ensures var p := c.procs[step.n];
      p.node.role == Leader && p.act.Sweeping? && p.act.next < |p.node.peers| && p.node.peers[p.act.next] == x
      && Asks(p.node, p.act.next, args)
  {
    hide HistoryInv, MessageOk, ServerOk, HandleAppendEntries, HandleRequestVote, HandleClientRequest, OnAppendReply;
    NodeAt(cfg, c, h, step.n);
    var p := c.procs[step.n];
    ServerIs(cfg, h, step.n, p.node);
    if step.SendAppend? {
      RequestOutcome(p.node, p.act.next);
    }
  }

  lemma ServerIs(cfg: Config, h: History, x: nat, s: NodeState)
    requires ServerOk(cfg, h, x, s)
    ensures s.id == x && |s.nextIndex| == |s.peers|
  {
  }

  // ---- Applying ----------------------------------------------------------------------------------------

  /** Whatever is committed is applied: in every state reached the two indices are one. */
  lemma {:induction false} AppliedIsCommitted(cfg: Config, run: seq<Cluster>, i: nat, x: nat)
    requires IsRun(cfg, run) && At(run, i, x)
    ensures Node(run, i, x).lastApplied == Node(run, i, x).commitIndex
    decreases i
  {
    hide Watched, Inv, Enabled, Guarded;
    if i > 0 {
      hide IsRun;
      var hs := Watch(cfg, run);
      var step := StepAt(cfg, run, hs, i - 1);
      AppliedIsCommitted(cfg, run, i - 1, x);
      AlwaysRunnable(cfg, run, i, x);
      StepApplies(run[i - 1], step, x);
    }
  }

  lemma StepApplies(c: Cluster, step: Step, x: nat)
    requires Enabled(c, step) && x in c.procs
    requires c.procs[x].node.lastApplied == c.procs[x].node.commitIndex
    requires Do(c, step).procs[x].node.lastApplied <= Do(c, step).procs[x].node.commitIndex
    ensures Do(c, step).procs[x].node.lastApplied == Do(c, step).procs[x].node.commitIndex
  {
    hide HandleAppendEntries, HandleRequestVote, HandleClientRequest, UpdateCommitIndex, ApplyAll, CommitsMost;
    if step.n == x {
      var s := c.procs[x].node;
      match step {
        case DeliverAppend(n, args) => StepFollowerCommits(s, args);
        case DeliverVote(n, args) => VoteOutcome(s, args);
        case Client(n, request) => ClientOutcome(s, request);
        case TakeAppendReply(n, r) => LeaderApplies(Credited(s, c.procs[x].act.next, c.procs[x].act.pending.value));
        case _ =>
      }
    }
  }

  lemma LeaderApplies(s: NodeState)
    requires |s.log| >= 1 && s.lastApplied == s.commitIndex
    ensures UpdateCommitIndex(s).lastApplied == UpdateCommitIndex(s).commitIndex
  {
    LeaderCommits(s);
  }

  // ---- Catching up ----------------------------------------------------------------------------------------

  lemma AcceptedFollows(leader: NodeState, follower: NodeState, i: nat)
    requires Paired(leader, follower, i) && Answer(leader, follower, i).1.success
    ensures var follower' := Answer(leader, follower, i).0;
      && leader.commitIndex < |follower'.log|
      && follower'.commitIndex == Max(follower.commitIndex, leader.commitIndex)
      && if leader.commitIndex > follower.commitIndex then AppliedUpTo(follower, follower', leader.commitIndex)
         else follower'.lastApplied == follower.lastApplied && follower'.replica == follower.replica
  {
    AcceptedAnswer(leader, follower, i);
    PairBounds(leader, follower, i);
    hide ApplyAll, HandleAppendEntries, AppendArgs, Paired, Matching;
    var args := AppendArgs(leader, i);
    RequestOutcome(leader, i);
    StepFollowerCommits(follower, args);
  }

  lemma PairBounds(leader: NodeState, follower: NodeState, i: nat)
    requires Paired(leader, follower, i)
    ensures i < |leader.nextIndex| && 1 <= leader.nextIndex[i] <= |leader.log|
    ensures leader.commitIndex < |leader.log| && follower.commitIndex < |follower.log|
  {
  }

  lemma SettledStep(leader: NodeState, follower: NodeState, i: nat)
    requires Paired(leader, follower, i)
    ensures Answer(leader, follower, i).1.success ==>
      Settled(leader, follower, i) == (Told(leader, follower, i), Answer(leader, follower, i).0)
    ensures !Answer(leader, follower, i).1.success ==>
      && Paired(Told(leader, follower, i), Answer(leader, follower, i).0, i)
      && Settled(leader, follower, i) == Settled(Told(leader, follower, i), Answer(leader, follower, i).0, i)
  {
    if !Answer(leader, follower, i).1.success {
      RejectionLowersNext(leader, follower, i);
    }
  }

  lemma RejectedStays(leader: NodeState, follower: NodeState, i: nat)
    requires Paired(leader, follower, i) && !Answer(leader, follower, i).1.success
    ensures var follower' := Answer(leader, follower, i).0;
      && follower'.commitIndex == follower.commitIndex && follower'.lastApplied == follower.lastApplied
      && follower'.replica == follower.replica
      && Told(leader, follower, i).commitIndex == leader.commitIndex
  {
    PairBounds(leader, follower, i);
    StepFollowerCommits(follower, AppendArgs(leader, i));
    RejectionLowersNext(leader, follower, i);
    hide HandleAppendEntries, AppendArgs, OnAppendReply, ApplyAll, Paired;
  }

  /** The exchange that ends the backtracking brings the follower's commit index up to the leader's, and it
      applies what that commits. */
  lemma {:induction false} SettledFollows(leader: NodeState, follower: NodeState, i: nat)
    requires Paired(leader, follower, i)
    ensures var (leader', follower') := Settled(leader, follower, i);
      && leader.commitIndex < |follower'.log|
      && follower'.commitIndex == Max(follower.commitIndex, leader.commitIndex)
      && if leader.commitIndex > follower.commitIndex then AppliedUpTo(follower, follower', leader.commitIndex)
         else follower'.lastApplied == follower.lastApplied && follower'.replica == follower.replica
    decreases leader.nextIndex[i]
  {
    hide ApplyAll, Answer, Told, Paired, Settled;
    PairBounds(leader, follower, i);
    SettledStep(leader, follower, i);
    if Answer(leader, follower, i).1.success {
      AcceptedFollows(leader, follower, i);
    } else {
      RejectionLowersNext(leader, follower, i);
      RejectedStays(leader, follower, i);
      SettledFollows(Told(leader, follower, i), Answer(leader, follower, i).0, i);
    }
  }

  /** And in any state reached, a follower no further than its leader then has the leader's store. */
  lemma SettledStoreIsLeaders(cfg: Config, run: seq<Cluster>, k: nat, a: nat, b: nat, i: nat)
    requires IsRun(cfg, run) && At(run, k, a) && At(run, k, b)
    requires Node(run, k, a).role == Leader && Node(run, k, b).term <= Node(run, k, a).term
    requires i < |Node(run, k, a).peers| && Node(run, k, a).peers[i] == b
    requires Node(run, k, b).commitIndex <= Node(run, k, a).commitIndex
    ensures Paired(Node(run, k, a), Node(run, k, b), i)
    ensures var leader, follower' := Node(run, k, a), Settled(Node(run, k, a), Node(run, k, b), i).1;
      && follower'.commitIndex == follower'.lastApplied == leader.commitIndex
      && follower'.replica == leader.replica
  {
    hide IsRun, ApplyAll, Settled, Paired, HandleAppendEntries;
    var leader, follower := Node(run, k, a), Node(run, k, b);
    LeaderAndPeerArePaired(cfg, run, k, a, b, i);
    var follower' := Settled(leader, follower, i).1;
    SettledFollows(leader, follower, i);
    PairBounds(leader, follower, i);
    SettledLogsAgree(leader, follower, i);
    AppliedIsCommitted(cfg, run, k, a);
    AppliedIsCommitted(cfg, run, k, b);
    ReplicaIsReplay(cfg, run, k, a);
    ReplicaIsReplay(cfg, run, k, b);
    StateMachineSafety(cfg, run, k, a, k, b, follower.lastApplied);
    SameReplay(leader.log, follower.log, follower.lastApplied);
    AgreeToShorter(follower'.log, leader.log, LastIndex(leader.log), leader.commitIndex);
    ReplayFrom(leader.log, follower'.log, follower.lastApplied, leader.commitIndex);
  }

  lemma ReplayFrom(log: Log, other: Log, m: nat, n: nat)
    requires m <= n && AgreeTo(other, log, n)
    ensures ApplyAll(ApplyAll(EMPTY_REPLICA, log[1..m + 1]), other[m + 1..n + 1]) == ApplyAll(EMPTY_REPLICA, log[1..n + 1])
  {
    hide ApplyAll;
    assert other[m + 1..n + 1] == other[..n + 1][m + 1..] == log[..n + 1][m + 1..] == log[m + 1..n + 1];
    assert log[1..n + 1] == log[1..m + 1] + log[m + 1..n + 1];
    ApplyAllConcat(EMPTY_REPLICA, log[1..m + 1], log[m + 1..n + 1]);
  }
}
