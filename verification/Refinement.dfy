/** The loops that hold the state mutex across calls are runs of the cluster's small steps: an election
    (src/raft/RaftNode.cpp:535-583) and a heartbeat sweep (528-533). */
module Refinement {
  import opened Wrappers
  import opened Replay
  import opened Nodes
  import opened Clusters
  import RaftNodes

  // ---- Elections ------------------------------------------------------------------------

  /** One vote exchange: the request goes out, the reply or a failure comes in. */
  function VoteExchange(p: Process, n: nat, r: RequestVoteReply): Process
    requires Ready(p, SendVote(n))
  {
    Act(Act(p, SendVote(n)).0, TakeVoteReply(n, r)).0
  }

  /** The steps of an election after it has begun, while the process stays in it. */
  function ElectionSteps(p: Process, n: nat, replies: seq<RequestVoteReply>): Process
    requires Runnable(p) && p.act.Electing? && !p.act.waiting && |replies| == |p.node.peers| - p.act.next
    decreases |replies|
  {
    if replies == [] then Act(p, CloseElection(n)).0
    else
      var q := VoteExchange(p, n, replies[0]);
      if q.act.Idle? then q else ElectionSteps(q, n, replies[1..])
  }

  /** The code's vote loop ends as the steps do: same node, and a sweep is due exactly if it won. */
  lemma {:induction false} CampaignIsElectionSteps(p: Process, n: nat, replies: seq<RequestVoteReply>)
    requires Runnable(p) && p.act.Electing? && !p.act.waiting && |replies| == |p.node.peers| - p.act.next
    requires p.node.role != Leader
    ensures var q := ElectionSteps(p, n, replies);
      && q.node == RaftNodes.Campaign(p.node, p.act.votes, replies)
      && q.act == if q.node.role == Leader then Sweeping(0, None) else Idle
    decreases |replies|
  {
    if replies != [] {
      var q := VoteExchange(p, n, replies[0]);
      if !q.act.Idle? {
        CampaignIsElectionSteps(q, n, replies[1..]);
      }
    }
  }

  /** A whole election, from an idle node that does not lead. */
  lemma StartElectionIsSteps(s: NodeState, n: nat, replies: seq<RequestVoteReply>)
    requires Ready(Process(s, Idle), StartElection(n)) && |replies| == |s.peers|
    ensures var p := Act(Process(s, Idle), StartElection(n)).0;
      && Runnable(p) && p.act.Electing? && p.act.request == VoteArgs(BecomeCandidate(s))
      && ElectionSteps(p, n, replies).node == RaftNodes.Campaign(BecomeCandidate(s), 1, replies)
  {
    var p := Act(Process(s, Idle), StartElection(n)).0;
    CampaignIsElectionSteps(p, n, replies);
  }

  // ---- Sweeps ----------------------------------------------------------------------------

  /** One append exchange: the request goes out, the reply or a failure comes in. */
  function AppendExchange(p: Process, n: nat, r: AppendEntriesReply): (Process, AppendEntriesArgs)
    requires Ready(p, SendAppend(n))
  {
    var (q, m) := Act(p, SendAppend(n));
    (Act(q, TakeAppendReply(n, r)).0, m.value.append)
  }

  /** The steps of a sweep, and the requests they send. With the guard, a node that leads no more skips
      the peers that are left. */
  function SweepSteps(p: Process, n: nat, guarded: bool, replies: seq<AppendEntriesReply>)
    : (Process, seq<AppendEntriesArgs>)
    requires Runnable(p) && p.act.Sweeping? && p.act.pending.None? && |replies| == |p.node.peers| - p.act.next
    decreases |replies|
  {
    if replies == [] then (Act(p, EndSweep(n)).0, [])
    else if guarded && p.node.role != Leader then SweepSteps(Act(p, SkipPeer(n)).0, n, guarded, replies[1..])
    else
      ExchangeRunnable(p, n, replies[0]);
      var (q, sent) := AppendExchange(p, n, replies[0]);
      var (q', more) := SweepSteps(q, n, guarded, replies[1..]);
      (q', [sent] + more)
  }

  lemma ReplyKeepsShape(s: NodeState, i: nat, args: AppendEntriesArgs, r: AppendEntriesReply)
    requires Shaped(s) && s.disk.log != [] && i < |s.peers|
    ensures var t := OnAppendReply(s, i, args, r);
      && Shaped(t) && t.disk.log != [] && t.peers == s.peers
      && (t.role == Leader ==> s.role == Leader && t.term == s.term && r.term <= s.term)
      && (r.term <= s.term ==> t.role == s.role && t.term == s.term)
  {
    hide ApplyAll;
  }

  lemma ExchangeIs(p: Process, n: nat, r: AppendEntriesReply)
    requires Ready(p, SendAppend(n))
    ensures p.act.next < |p.node.nextIndex| && p.node.nextIndex[p.act.next] >= 1 && p.act.next < |p.node.matchIndex|
    ensures |p.node.log| >= 1
    ensures var (q, sent) := AppendExchange(p, n, r);
      && sent == AppendArgs(p.node, p.act.next)
      && q == Process(OnAppendReply(p.node, p.act.next, sent, r), Sweeping(p.act.next + 1, None))
  {
    hide OnAppendReply, AppendArgs;
  }

  lemma ExchangeRunnable(p: Process, n: nat, r: AppendEntriesReply)
    requires Ready(p, SendAppend(n))
    ensures var q := AppendExchange(p, n, r).0;
      && Runnable(q) && q.act == Sweeping(p.act.next + 1, None) && q.node.peers == p.node.peers
      && (q.node.role == Leader ==> p.node.role == Leader && q.node.term == p.node.term && r.term <= p.node.term)
      && (r.term <= p.node.term ==> q.node.role == p.node.role && q.node.term == p.node.term)
  {
    hide OnAppendReply, AppendArgs, AppendExchange, Shaped;
    ExchangeIs(p, n, r);
    ReplyKeepsShape(p.node, p.act.next, AppendArgs(p.node, p.act.next), r);
  }

  /** The code's sweep is the unguarded one. */
  lemma {:induction false} SweepIsSteps(p: Process, n: nat, replies: seq<AppendEntriesReply>)
    requires Runnable(p) && p.act.Sweeping? && p.act.pending.None? && |replies| == |p.node.peers| - p.act.next
    ensures SweepSteps(p, n, false, replies).0 == Process(RaftNodes.Sweep(p.node, p.act.next, replies), Idle)
    decreases |replies|
  {
    hide AppendExchange, OnAppendReply, AppendArgs;
    if replies != [] {
      ExchangeRunnable(p, n, replies[0]);
      ExchangeIs(p, n, replies[0]);
      SweepIsSteps(AppendExchange(p, n, replies[0]).0, n, replies[1..]);
    }
  }

  ghost predicate NoneAbove(term: nat, replies: seq<AppendEntriesReply>) {
    forall i :: 0 <= i < |replies| ==> replies[i].term <= term
  }

  lemma {:induction false} SkippingSendsNothing(p: Process, n: nat, replies: seq<AppendEntriesReply>)
    requires Runnable(p) && p.act.Sweeping? && p.act.pending.None? && |replies| == |p.node.peers| - p.act.next
    requires p.node.role != Leader
    ensures SweepSteps(p, n, true, replies).1 == []
    decreases |replies|
  {
    if replies != [] {
      SkippingSendsNothing(Act(p, SkipPeer(n)).0, n, replies[1..]);
    }
  }

  lemma {:induction false} UnguardedSendsToAll(p: Process, n: nat, replies: seq<AppendEntriesReply>)
    requires Runnable(p) && p.act.Sweeping? && p.act.pending.None? && |replies| == |p.node.peers| - p.act.next
    ensures |SweepSteps(p, n, false, replies).1| == |replies|
    decreases |replies|
  {
    hide AppendExchange;
    if replies != [] {
      ExchangeRunnable(p, n, replies[0]);
      UnguardedSendsToAll(AppendExchange(p, n, replies[0]).0, n, replies[1..]);
    }
  }

  /** The code's sweep sends what the guarded one sends if and only if no reply before the last one
      carries a higher term; and then it ends in the same state. */
  lemma {:induction false} SweepIsGuardedIff(p: Process, n: nat, replies: seq<AppendEntriesReply>)
    requires Runnable(p) && p.act.Sweeping? && p.act.pending.None? && |replies| == |p.node.peers| - p.act.next
    requires p.node.role == Leader
    ensures var code, guarded := SweepSteps(p, n, false, replies), SweepSteps(p, n, true, replies);
      && (code.1 == guarded.1 <==> replies == [] || NoneAbove(p.node.term, replies[..|replies| - 1]))
      && (code.1 == guarded.1 ==> code.0 == guarded.0)
    decreases |replies|
  {
    hide AppendExchange, NoneAbove, Shaped;
    if replies != [] {
      ExchangeRunnable(p, n, replies[0]);
      var q := AppendExchange(p, n, replies[0]).0;
      var rest := replies[1..];
      var code, guarded := SweepSteps(q, n, false, rest), SweepSteps(q, n, true, rest);
      assert SweepSteps(p, n, false, replies).1[1..] == code.1;
      assert SweepSteps(p, n, true, replies).1[1..] == guarded.1;
      if q.node.role == Leader {
        SweepIsGuardedIff(q, n, rest);
        NoneAboveSplit(p.node.term, replies);
      } else {
        SkippingSendsNothing(q, n, rest);
        UnguardedSendsToAll(q, n, rest);
        OneAbove(p.node.term, replies);
      }
    }
  }

  lemma OneAbove(term: nat, replies: seq<AppendEntriesReply>)
    requires replies != [] && replies[0].term > term
    ensures NoneAbove(term, replies[..|replies| - 1]) <==> |replies| == 1
  {
    assert |replies| > 1 ==> replies[..|replies| - 1][0] == replies[0];
  }

  lemma NoneAboveSplit(term: nat, replies: seq<AppendEntriesReply>)
    requires replies != [] && replies[0].term <= term
    ensures replies[1..] != [] ==>
      (NoneAbove(term, replies[..|replies| - 1]) <==> NoneAbove(term, replies[1..][..|replies| - 2]))
    ensures replies[1..] == [] ==> NoneAbove(term, replies[..|replies| - 1])
  {
    if |replies| > 1 {
      assert replies[..|replies| - 1] == [replies[0]] + replies[1..][..|replies| - 2];
    }
  }
}
