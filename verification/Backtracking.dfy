/** How a leader finds the point where a follower's log leaves its own: one exchange after another,
    with no failed call and the follower hearing from nobody else. */
module Backtracking {
  import opened Logs
  import opened Nodes
  import opened Clusters
  import opened Histories
  import opened Invariants
  import opened Replication
  import opened Runs
  import opened Safety
  import opened Durability

  /** A leader about to call its i-th peer, and that peer, no further in its term. */
  ghost predicate Paired(leader: NodeState, follower: NodeState, i: nat) {
    && Shaped(leader) && Shaped(follower)
    && leader.role == Leader && follower.term <= leader.term
    && (follower.term == leader.term ==> follower.role != Leader)
    && i < |leader.peers| && leader.nextIndex[i] <= |leader.log|
    && Matching(follower.log, leader.log)
  }

  lemma PairParts(leader: NodeState, follower: NodeState, i: nat)
    requires Paired(leader, follower, i)
    ensures i < |leader.nextIndex| && 1 <= leader.nextIndex[i] && |follower.log| >= 1
  {
  }

  ghost function Answer(leader: NodeState, follower: NodeState, i: nat): (NodeState, AppendEntriesReply)
    requires Paired(leader, follower, i)
  {
    HandleAppendEntries(follower, AppendArgs(leader, i))
  }

  ghost function Told(leader: NodeState, follower: NodeState, i: nat): NodeState
    requires Paired(leader, follower, i)
  {
    OnAppendReply(leader, i, AppendArgs(leader, i), Answer(leader, follower, i).1)
  }

  /** A rejection changes no log, raises no term above the leader's, and lowers nextIndex to the start
      of the follower's run of the conflicting term, or to just past its end. */
  lemma RejectionLowersNext(leader: NodeState, follower: NodeState, i: nat)
    requires Paired(leader, follower, i) && !Answer(leader, follower, i).1.success
    ensures i < |Told(leader, follower, i).nextIndex| && Told(leader, follower, i).nextIndex[i] < leader.nextIndex[i]
    ensures Paired(Told(leader, follower, i), Answer(leader, follower, i).0, i)
    ensures Answer(leader, follower, i).0.log == follower.log && i < |Told(leader, follower, i).nextIndex|
    ensures Told(leader, follower, i) == leader.(nextIndex := Told(leader, follower, i).nextIndex)
    ensures var prev, next := leader.nextIndex[i] - 1, Told(leader, follower, i).nextIndex[i];
      if prev > LastIndex(follower.log) then next == LastIndex(follower.log) + 1
      else prev > 0 && next == RunStart(follower.log, prev)
  {
  }

  /** How many calls the leader makes before the follower accepts. */
  ghost function Rejections(leader: NodeState, follower: NodeState, i: nat): nat
    requires Paired(leader, follower, i)
    decreases leader.nextIndex[i]
  {
    if Answer(leader, follower, i).1.success then 0
    else
      RejectionLowersNext(leader, follower, i);
      1 + Rejections(Told(leader, follower, i), Answer(leader, follower, i).0, i)
  }

  /** Both sides after the accepting call. */
  ghost function Settled(leader: NodeState, follower: NodeState, i: nat): (NodeState, NodeState)
    requires Paired(leader, follower, i)
    decreases leader.nextIndex[i]
  {
    if Answer(leader, follower, i).1.success then (Told(leader, follower, i), Answer(leader, follower, i).0)
    else
      RejectionLowersNext(leader, follower, i);
      Settled(Told(leader, follower, i), Answer(leader, follower, i).0, i)
  }

  /** The number of runs of equal terms in entries 1 .. n. */
  function TermRuns(log: Log, n: nat): nat
    requires n < |log|
  {
    if n == 0 then 0
    else if n == 1 || log[n - 1].term != log[n].term then 1 + TermRuns(log, n - 1)
    else TermRuns(log, n - 1)
  }

  lemma {:induction false} RunsBeforeStart(log: Log, n: nat)
    requires 1 <= n < |log|
    ensures TermRuns(log, n) == 1 + TermRuns(log, RunStart(log, n) - 1)
  {
    if n > 1 && log[n - 1].term == log[n].term {
      RunsBeforeStart(log, n - 1);
    }
  }

  lemma {:induction false} RunsGrow(log: Log, m: nat, n: nat)
    requires m <= n < |log|
    ensures TermRuns(log, m) <= TermRuns(log, n)
  {
    if m < n {
      RunsGrow(log, m, n - 1);
    }
  }

  lemma RejectionsStep(leader: NodeState, follower: NodeState, i: nat)
    requires Paired(leader, follower, i)
    ensures Answer(leader, follower, i).1.success ==> Rejections(leader, follower, i) == 0
    ensures !Answer(leader, follower, i).1.success ==>
      && Paired(Told(leader, follower, i), Answer(leader, follower, i).0, i)
      && Rejections(leader, follower, i) == 1 + Rejections(Told(leader, follower, i), Answer(leader, follower, i).0, i)
  {
    if !Answer(leader, follower, i).1.success {
      RejectionLowersNext(leader, follower, i);
    }
  }

  /** Within the follower's log, every rejection skips a whole run of terms. */
  lemma {:induction false} RejectionsWithinLog(leader: NodeState, follower: NodeState, i: nat)
    requires Paired(leader, follower, i) && leader.nextIndex[i] <= |follower.log|
    ensures Rejections(leader, follower, i) <= TermRuns(follower.log, leader.nextIndex[i] - 1)
    decreases leader.nextIndex[i]
  {
    hide Answer, Told, Paired, Rejections;
    PairParts(leader, follower, i);
    RejectionsStep(leader, follower, i);
    if !Answer(leader, follower, i).1.success {
      RejectionLowersNext(leader, follower, i);
      RunsBeforeStart(follower.log, leader.nextIndex[i] - 1);
      RejectionsWithinLog(Told(leader, follower, i), Answer(leader, follower, i).0, i);
    }
  }

  /** The bound: one rejection for length, then at most one per run of terms in the follower's log. */
  lemma RejectionsBounded(leader: NodeState, follower: NodeState, i: nat)
    requires Paired(leader, follower, i)
    ensures Rejections(leader, follower, i) <= 1 + TermRuns(follower.log, LastIndex(follower.log))
  {
    hide Answer, Told, Paired, Rejections;
    PairParts(leader, follower, i);
    RejectionsStep(leader, follower, i);
    if leader.nextIndex[i] <= |follower.log| {
      RejectionsWithinLog(leader, follower, i);
      RunsGrow(follower.log, leader.nextIndex[i] - 1, LastIndex(follower.log));
    } else if !Answer(leader, follower, i).1.success {
      RejectionLowersNext(leader, follower, i);
      RejectionsWithinLog(Told(leader, follower, i), Answer(leader, follower, i).0, i);
    }
  }

  /** The request ships the leader's whole suffix. */
  lemma RequestIsSuffix(leader: NodeState, i: nat)
    requires i < |leader.nextIndex| && 1 <= leader.nextIndex[i] <= |leader.log|
    ensures var args := AppendArgs(leader, i);
      && args.prevLogIndex + |args.entries| == LastIndex(leader.log)
      && args.prevLogTerm == leader.log[args.prevLogIndex].term
      && args.entries == leader.log[args.prevLogIndex + 1..args.prevLogIndex + 1 + |args.entries|]
  {
  }

  /** An accepted request has been merged. */
  lemma AcceptedMeansMerged(s: NodeState, args: AppendEntriesArgs)
    requires |s.log| >= 1 && HandleAppendEntries(s, args).1.success
    ensures args.prevLogIndex < |s.log|
    ensures args.prevLogIndex == 0 || s.log[args.prevLogIndex].term == args.prevLogTerm
    ensures HandleAppendEntries(s, args).0.log == Merge(s.log, args.prevLogIndex, args.entries)
  {
    hide Merge, RunStart, Accept;
    AcceptFrame(StepDownFor(s, args), args);
  }

  lemma AcceptedAnswer(leader: NodeState, follower: NodeState, i: nat)
    requires Paired(leader, follower, i) && Answer(leader, follower, i).1.success
    ensures AgreeTo(Answer(leader, follower, i).0.log, leader.log, LastIndex(leader.log))
  {
    hide Merge, Matching, HandleAppendEntries, AppendArgs;
    var args := AppendArgs(leader, i);
    RequestIsSuffix(leader, i);
    AcceptedMeansMerged(follower, args);
    MergeFollowsLeader(follower.log, leader.log, args.prevLogIndex, args.entries);
  }

  lemma AcceptedTold(leader: NodeState, follower: NodeState, i: nat)
    requires Paired(leader, follower, i) && Answer(leader, follower, i).1.success
    ensures Told(leader, follower, i).log == leader.log
    ensures |Told(leader, follower, i).matchIndex| == |leader.matchIndex|
    ensures leader.nextIndex[i] < |leader.log| ==> Told(leader, follower, i).matchIndex[i] == LastIndex(leader.log)
  {
    var args := AppendArgs(leader, i);
    if args.entries != [] {
      assert args.entries[|args.entries| - 1] == leader.log[LastIndex(leader.log)];
    }
  }

  /** The accepting call leaves the follower's log, as far as the leader's reaches, equal to it, and
      the leader knowing so if it had anything to ship. */
  lemma {:induction false} SettledLogsAgree(leader: NodeState, follower: NodeState, i: nat)
    requires Paired(leader, follower, i)
    ensures var (leader', follower') := Settled(leader, follower, i);
      && leader'.log == leader.log
      && AgreeTo(follower'.log, leader.log, LastIndex(leader.log))
      && |leader'.matchIndex| == |leader.matchIndex|
      && (leader.nextIndex[i] < |leader.log| ==> leader'.matchIndex[i] == LastIndex(leader.log))
    decreases leader.nextIndex[i]
  {
    if Answer(leader, follower, i).1.success {
      AcceptedAnswer(leader, follower, i);
      AcceptedTold(leader, follower, i);
    } else {
      RejectionLowersNext(leader, follower, i);
      SettledLogsAgree(Told(leader, follower, i), Answer(leader, follower, i).0, i);
    }
  }

  /** In every state reached, a leader and a peer no further in its term are a pair to which all of
      this applies. */
  lemma LeaderAndPeerArePaired(cfg: Config, run: seq<Cluster>, k: nat, a: nat, b: nat, i: nat)
    requires IsRun(cfg, run) && At(run, k, a) && At(run, k, b)
    requires Node(run, k, a).role == Leader && Node(run, k, b).term <= Node(run, k, a).term
    requires i < |Node(run, k, a).peers| && Node(run, k, a).peers[i] == b
    ensures Paired(Node(run, k, a), Node(run, k, b), i)
  {
    var hs := Watch(cfg, run);
    assert Inv(cfg, run[k], hs[k]);
    NodeAt(cfg, run[k], hs[k], a);
    NodeAt(cfg, run[k], hs[k], b);
    hide IsRun, Watched, Inv;
    PairedFrom(cfg, hs[k], a, run[k].procs[a], b, run[k].procs[b], i);
  }

  lemma PairedFrom(cfg: Config, h: History, a: nat, p: Process, b: nat, q: Process, i: nat)
    requires ValidConfig(cfg) && NodeOk(cfg, h, a, p) && NodeOk(cfg, h, b, q)
    requires p.node.role == Leader && q.node.term <= p.node.term
    requires i < |p.node.peers| && p.node.peers[i] == b
    ensures Paired(p.node, q.node, i)
  {
    TracedLogsAreMatching(h, q.node.log, p.node.log);
    assert b in p.node.peers && b != a;
  }
}
