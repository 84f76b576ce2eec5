/** Nothing is ever stuck for good: from every state a cluster can reach, there is a way on in which it elects
    a leader, takes a client's command, and has it committed and applied on every node. It is a
    possibility, not a promise: what the network and the timers will do is not part of the model. */
module Progress {
  import opened Wrappers
  import opened Commands
  import opened Logs
  import opened Replay
  import opened Nodes
  import opened Clusters
  import Histories
  import Winning
  import opened Invariants
  import opened Runs
  import opened Safety
  import opened Durability
  import opened Backtracking
  import opened Outcomes
  import opened Following
  import opened Moves

  // ---- Where a run stands ------------------------------------------------------------------------------

  ghost predicate Reachable(cfg: Config, run: seq<Cluster>) {
    run != [] && IsRun(cfg, run)
  }

  /** What is known of any node now. */
  ghost predicate Settles(cfg: Config, x: nat, p: Process) {
    var s := p.node;
    && Runnable(p) && x in cfg.ids && x in cfg.peers && s.id == x && s.peers == cfg.peers[x]
    && s.disk == Durable(s.term, s.votedFor, s.log)
    && s.lastApplied == s.commitIndex
  }

  lemma NodesNow(cfg: Config, run: seq<Cluster>)
    requires Reachable(cfg, run)
    ensures Now(run).procs.Keys == cfg.ids && ValidConfig(cfg)
    ensures forall x :: x in cfg.ids ==> Settles(cfg, x, Now(run).procs[x])
  {
    hide Inv, Watched, Runnable, Settles;
    var hs := Watch(cfg, run);
    InvNow(cfg, run, hs);
    forall x | x in cfg.ids ensures Settles(cfg, x, Now(run).procs[x]) {
      hide IsRun, ValidConfig;
      assert At(run, |run| - 1, x);
      AlwaysRunnable(cfg, run, |run| - 1, x);
      DiskMirrorsMemory(cfg, run, |run| - 1, x);
      AppliedIsCommitted(cfg, run, |run| - 1, x);
      IdentityNow(cfg, run, hs, x);
      SettlesIf(cfg, x, Now(run).procs[x]);
    }
  }

  lemma SettlesIf(cfg: Config, x: nat, p: Process)
    requires Runnable(p) && x in cfg.ids && x in cfg.peers && p.node.id == x && p.node.peers == cfg.peers[x]
    requires p.node.disk == Durable(p.node.term, p.node.votedFor, p.node.log)
    requires p.node.lastApplied == p.node.commitIndex
    ensures Settles(cfg, x, p)
  {
  }

  lemma InvNow(cfg: Config, run: seq<Cluster>, hs: seq<Histories.History>)
    requires Reachable(cfg, run) && Watched(cfg, run, hs)
    ensures |hs| == |run| && Inv(cfg, Now(run), hs[|run| - 1])
    ensures Now(run).procs.Keys == cfg.ids
  {
    assert Inv(cfg, run[|run| - 1], hs[|run| - 1]);
  }

  lemma IdentityNow(cfg: Config, run: seq<Cluster>, hs: seq<Histories.History>, x: nat)
    requires Reachable(cfg, run) && Watched(cfg, run, hs) && x in cfg.ids
    ensures x in Now(run).procs && x in cfg.peers
    ensures Now(run).procs[x].node.id == x && Now(run).procs[x].node.peers == cfg.peers[x]
  {
    InvNow(cfg, run, hs);
    NodeAt(cfg, Now(run), hs[|run| - 1], x);
  }

  /** What can happen to a node in a reachable state. It can crash at any time. At rest it can be handed
      any request that was sent to it and any client's, begin an election unless it leads, and a sweep if
      it does; while it holds its mutex, none of these. */
  lemma WhatCanHappen(cfg: Config, run: seq<Cluster>, x: nat)
    requires Reachable(cfg, run) && x in cfg.ids
    ensures var c := Now(run);
      && x in c.procs && Enabled(c, Crash(x))
      && var idle := c.procs[x].act.Idle?;
      && (Enabled(c, StartElection(x)) <==> idle && c.procs[x].node.role != Leader)
      && (Enabled(c, StartSweep(x)) <==> idle && c.procs[x].node.role == Leader)
      && (forall v :: Enabled(c, DeliverVote(x, v)) <==> idle && VoteRequest(x, v) in c.net)
      && (forall a :: Enabled(c, DeliverAppend(x, a)) <==> idle && AppendRequest(x, a) in c.net)
      && (forall r :: Enabled(c, Client(x, r)) <==> idle)
  {
    hide IsRun, ValidConfig, Shaped;
    NodesNow(cfg, run);
  }

  /** A call under way ends with the peer's answer to this very request, or with a failure, which carries no
      vote and no success, points nowhere, and has term 0 or the request's own. */
  lemma HowCallsEnd(cfg: Config, run: seq<Cluster>, x: nat)
    requires Reachable(cfg, run) && x in cfg.ids
    ensures var c := Now(run);
      && x in c.procs
      && var p := c.procs[x];
      && (p.act.Electing? && p.act.waiting ==>
            && p.act.next < |p.node.peers|
            && forall r :: Enabled(c, TakeVoteReply(x, r)) <==>
                 || VoteReply(p.node.peers[p.act.next], p.act.request, r) in c.net
                 || (!r.voteGranted && r.term in {0, p.act.request.term}))
      && (p.act.Sweeping? && p.act.pending.Some? ==>
            && p.act.next < |p.node.peers|
            && forall r :: Enabled(c, TakeAppendReply(x, r)) <==>
                 || AppendReply(p.node.peers[p.act.next], p.act.pending.value, r) in c.net
                 || (!r.success && r.conflictIndex == 0 && r.term in {0, p.act.pending.value.term}))
  {
    hide IsRun, ValidConfig, Shaped;
    NodesNow(cfg, run);
  }

  // ---- Starting over -------------------------------------------------------------------------------------

  /** A step that node x takes without a message. */
  lemma Alone(cfg: Config, run: seq<Cluster>, step: Step, p: Process) returns (run': seq<Cluster>)
    requires Reachable(cfg, run) && step.n in Now(run).procs && !step.SendAppend?
    requires var q := Now(run).procs[step.n];
      Ready(q, step) && Heard(q, Now(run).net, step) && Act(q, step) == (p, None)
    ensures Follows(cfg, run, run') && Reachable(cfg, run')
    ensures Now(run').procs == Now(run).procs[step.n := p]
  {
    hide Act, Ready, Heard, IsRun;
    run' := Move(cfg, run, step, p, None);
  }

  /** A node that has just started. */
  predicate Newborn(p: Process) {
    p.act.Idle? && p.node.role == Follower && p.node.commitIndex == 0 && p.node.replica == EMPTY_REPLICA
  }

  lemma {:induction false} CrashAll(cfg: Config, run: seq<Cluster>, todo: set<nat>) returns (run': seq<Cluster>)
    requires Reachable(cfg, run) && todo <= cfg.ids
    ensures Follows(cfg, run, run') && Reachable(cfg, run')
    ensures Now(run).procs.Keys == Now(run').procs.Keys == cfg.ids
    ensures forall x :: x in cfg.ids ==>
      if x in todo then Newborn(Now(run').procs[x]) else Now(run').procs[x] == Now(run).procs[x]
    decreases |todo|
  {
    hide IsRun, ValidConfig;
    NodesNow(cfg, run);
    if todo == {} {
      run' := run;
    } else {
      var x :| x in todo;
      var p := Now(run).procs[x];
      var crashed := Alone(cfg, run, Crash(x), Process(Restart(p.node), Idle));
      run' := CrashAll(cfg, crashed, todo - {x});
      FollowsTrans(cfg, run, crashed, run');
    }
  }

  /** A node can bring its term up to any number, by becoming a candidate and crashing. */
  lemma {:induction false} RaiseTerm(cfg: Config, run: seq<Cluster>, m: nat, target: nat) returns (run': seq<Cluster>)
    requires Reachable(cfg, run) && m in cfg.ids && m in Now(run).procs && Newborn(Now(run).procs[m])
    ensures Follows(cfg, run, run') && Reachable(cfg, run')
    ensures m in Now(run').procs && Now(run').procs == Now(run).procs[m := Now(run').procs[m]]
    ensures Newborn(Now(run').procs[m]) && Now(run').procs[m].node.term >= target
    ensures Now(run').procs[m].node.log == Now(run).procs[m].node.log
    decreases target - Now(run).procs[m].node.term
  {
    hide IsRun, ValidConfig;
    NodesNow(cfg, run);
    var s := Now(run).procs[m].node;
    if s.term >= target {
      run' := run;
    } else {
      var c := BecomeCandidate(s);
      var asked := Alone(cfg, run, StartElection(m), Process(c, Electing(0, 1, VoteArgs(c), false)));
      NodesNow(cfg, asked);
      var crashed := Alone(cfg, asked, Crash(m), Process(Restart(c), Idle));
      run' := RaiseTerm(cfg, crashed, m, target);
      FollowsTrans(cfg, run, asked, crashed);
      FollowsTrans(cfg, run, crashed, run');
    }
  }

  // ---- Winning -----------------------------------------------------------------------------------------------

  /** Everyone but m is at rest, in a term of at most `bound`, with at most `commit` committed. */
  ghost predicate AtRest(c: Cluster, m: nat, bound: nat, commit: nat) {
    forall y :: y in c.procs && y != m ==>
      c.procs[y].act.Idle? && c.procs[y].node.term <= bound && c.procs[y].node.commitIndex <= commit
  }

  /** Everyone but m has a log that m's is as good as, and those that m has not called yet an older term. */
  ghost predicate WouldVote(c: Cluster, m: nat, called: seq<nat>) {
    && m in c.procs && |c.procs[m].node.log| >= 1
    && forall y :: y in c.procs && y != m ==>
      && |c.procs[y].node.log| >= 1 && AsGood(c.procs[m].node.log, c.procs[y].node.log)
      && (y !in called ==> c.procs[y].node.term < c.procs[m].node.term)
  }

  ghost predicate Electioneers(p: Process, k: nat) {
    && p.node.role == Candidate && p.node.replica == EMPTY_REPLICA && p.node.commitIndex == 0 && |p.node.log| >= 1
    && p.act == Electing(k, 1 + k, VoteArgs(p.node), false) && k <= |p.node.peers|
  }

  /** One peer is asked, and grants its vote. */
  lemma OneVote(cfg: Config, run: seq<Cluster>, m: nat, k: nat) returns (run': seq<Cluster>)
    requires Reachable(cfg, run) && m in Now(run).procs && Electioneers(Now(run).procs[m], k)
    requires var s := Now(run).procs[m].node;
      && k < |s.peers| && AtRest(Now(run), m, s.term, 0) && WouldVote(Now(run), m, s.peers[..k])
    ensures Follows(cfg, run, run') && Reachable(cfg, run')
    ensures m in Now(run').procs && Electioneers(Now(run').procs[m], k + 1)
    ensures var s := Now(run).procs[m].node;
      && Now(run').procs[m].node == s
      && AtRest(Now(run'), m, s.term, 0) && WouldVote(Now(run'), m, s.peers[..k + 1])
  {
    hide IsRun, AsGood, AtRest, WouldVote, Electioneers, HandleRequestVote, VoteArgs, Settles, ValidConfig;
    var s := Now(run).procs[m].node;
    assert |s.log| >= 1 by { ElectioneerHasLog(Now(run).procs[m], k); }
    PeerNow(cfg, run, m, k);
    var y := s.peers[k];
    VoterNow(Now(run), m, s.peers[..k], y);
    var t := Now(run).procs[y].node;
    GrantsTo(s, t);
    run' := VoteExchange(cfg, run, m, k, y);
    NextElectioneer(Now(run).procs[m], k);
    Voted(Now(run), Now(run'), m, s.peers[..k], y, HandleRequestVote(t, VoteArgs(s)).0);
    assert s.peers[..k + 1] == s.peers[..k] + [y];
  }

  lemma ElectioneerHasLog(p: Process, k: nat)
    requires Electioneers(p, k)
    ensures |p.node.log| >= 1
  {
  }

  lemma NextElectioneer(p: Process, k: nat)
    requires Electioneers(p, k) && k < |p.node.peers|
    ensures |p.node.log| >= 1
    ensures Electioneers(Process(p.node, Electing(k + 1, 2 + k, VoteArgs(p.node), false)), k + 1)
  {
  }

  lemma PeerNow(cfg: Config, run: seq<Cluster>, m: nat, k: nat)
    requires Reachable(cfg, run) && m in Now(run).procs && k < |Now(run).procs[m].node.peers|
    ensures var peers := Now(run).procs[m].node.peers;
      peers[k] in Now(run).procs && peers[k] != m && peers[k] !in peers[..k]
  {
    hide IsRun, Runnable;
    NodesNow(cfg, run);
    var peers := Now(run).procs[m].node.peers;
    assert peers[k] in peers;
  }

  lemma VoterNow(c: Cluster, m: nat, called: seq<nat>, y: nat)
    requires WouldVote(c, m, called) && AtRest(c, m, c.procs[m].node.term, 0) && y in c.procs && y != m && y !in called
    ensures |c.procs[m].node.log| >= 1 && |c.procs[y].node.log| >= 1
    ensures AsGood(c.procs[m].node.log, c.procs[y].node.log)
    ensures c.procs[y].act.Idle? && c.procs[y].node.term < c.procs[m].node.term
  {
  }

  lemma Voted(c: Cluster, c': Cluster, m: nat, called: seq<nat>, y: nat, t: NodeState)
    requires WouldVote(c, m, called) && AtRest(c, m, c.procs[m].node.term, 0) && y in c.procs && y != m
    requires m in c'.procs && c'.procs[m].node == c.procs[m].node
    requires c'.procs == c.procs[y := Process(t, Idle)][m := c'.procs[m]]
    requires t.term == c.procs[m].node.term && t.log == c.procs[y].node.log && t.commitIndex == c.procs[y].node.commitIndex
    ensures WouldVote(c', m, called + [y]) && AtRest(c', m, c.procs[m].node.term, 0)
  {
    hide AsGood;
  }

  /** The three steps of it. */
  lemma VoteExchange(cfg: Config, run: seq<Cluster>, m: nat, k: nat, y: nat) returns (run': seq<Cluster>)
    requires Reachable(cfg, run) && m in Now(run).procs && Electioneers(Now(run).procs[m], k)
    requires k < |Now(run).procs[m].node.peers| && Now(run).procs[m].node.peers[k] == y != m
    requires y in Now(run).procs && Now(run).procs[y].act.Idle? && |Now(run).procs[y].node.log| >= 1
    requires var s, t := Now(run).procs[m].node, Now(run).procs[y].node;
      HandleRequestVote(t, VoteArgs(s)).1 == RequestVoteReply(s.term, true)
    ensures Follows(cfg, run, run') && Reachable(cfg, run')
    ensures var p, t := Now(run).procs[m], Now(run).procs[y].node;
      Now(run').procs == Now(run).procs[y := Process(HandleRequestVote(t, VoteArgs(p.node)).0, Idle)]
                                       [m := Process(p.node, Electing(k + 1, 2 + k, VoteArgs(p.node), false))]
  {
    hide IsRun, HandleRequestVote, VoteArgs, Shaped, ValidConfig;
    RunnableNow(cfg, run, m);
    RunnableNow(cfg, run, y);
    var p := Now(run).procs[m];
    var s, args := p.node, VoteArgs(p.node);
    var (t', r) := HandleRequestVote(Now(run).procs[y].node, args);
    var asked := Move(cfg, run, SendVote(m), p.(act := p.act.(waiting := true)), Some(VoteRequest(y, args)));
    var voted := Move(cfg, asked, DeliverVote(y, args), Process(t', Idle), Some(VoteReply(y, args, r)));
    run' := Move(cfg, voted, TakeVoteReply(m, r), Process(s, Electing(k + 1, 2 + k, args, false)), None);
    FollowsTrans(cfg, run, asked, voted);
    FollowsTrans(cfg, run, voted, run');
  }

  lemma RunnableNow(cfg: Config, run: seq<Cluster>, x: nat)
    requires Reachable(cfg, run) && x in Now(run).procs
    ensures Runnable(Now(run).procs[x])
  {
    hide IsRun, ValidConfig;
    NodesNow(cfg, run);
  }

  lemma GrantsTo(s: NodeState, t: NodeState)
    requires |s.log| >= 1 && |t.log| >= 1 && AsGood(s.log, t.log) && t.term < s.term
    ensures var (t', r) := HandleRequestVote(t, VoteArgs(s));
      && r == RequestVoteReply(s.term, true)
      && t'.term == s.term && t'.log == t.log && t'.commitIndex == t.commitIndex
  {
    VoteOutcome(t, VoteArgs(s));
    UpToDateIff(LastIndex(s.log), LastTerm(s.log), t.log);
  }

  lemma {:induction false} AllVotes(cfg: Config, run: seq<Cluster>, m: nat, k: nat) returns (run': seq<Cluster>)
    requires Reachable(cfg, run) && m in Now(run).procs && Electioneers(Now(run).procs[m], k)
    requires var s := Now(run).procs[m].node;
      AtRest(Now(run), m, s.term, 0) && WouldVote(Now(run), m, s.peers[..k])
    ensures Follows(cfg, run, run') && Reachable(cfg, run')
    ensures var s := Now(run).procs[m].node;
      && m in Now(run').procs && Electioneers(Now(run').procs[m], |s.peers|)
      && Now(run').procs[m].node == s && AtRest(Now(run'), m, s.term, 0)
    decreases |Now(run).procs[m].node.peers| - k
  {
    hide IsRun, AtRest, WouldVote, VoteArgs;
    if k == |Now(run).procs[m].node.peers| {
      run' := run;
    } else {
      var voted := OneVote(cfg, run, m, k);
      run' := AllVotes(cfg, voted, m, k + 1);
      FollowsTrans(cfg, run, voted, run');
    }
  }

  /** From rest, a node with a log as good as any and a term as late as any is elected. */
  lemma Wins(cfg: Config, run: seq<Cluster>, m: nat) returns (run': seq<Cluster>)
    requires Reachable(cfg, run) && m in Now(run).procs && Newborn(Now(run).procs[m])
    requires |Now(run).procs[m].node.log| >= 1
    requires AtRest(Now(run), m, Now(run).procs[m].node.term, 0)
    requires forall y :: y in Now(run).procs && y != m ==>
      |Now(run).procs[y].node.log| >= 1 && AsGood(Now(run).procs[m].node.log, Now(run).procs[y].node.log)
    ensures Follows(cfg, run, run') && Reachable(cfg, run')
    ensures m in Now(run').procs
    ensures var s, s' := Now(run).procs[m].node, Now(run').procs[m].node;
      && s'.role == Leader && s'.term == s.term + 1 && s'.log == s.log && s'.replica == EMPTY_REPLICA && s'.commitIndex == 0
      && Now(run').procs[m].act == Sweeping(0, None) && AtRest(Now(run'), m, s'.term, 0)
  {
    hide IsRun, AsGood, Electioneers, WouldVote, AtRest, VoteArgs, Settles, ValidConfig, BecomeLeader;
    var s := Now(run).procs[m].node;
    RunnableNow(cfg, run, m);
    var c := BecomeCandidate(s);
    var begun := Alone(cfg, run, StartElection(m), Process(c, Electing(0, 1, VoteArgs(c), false)));
    Begun(Now(run), Now(begun), m);
    var voted := AllVotes(cfg, begun, m, 0);
    run' := Elected(cfg, voted, m);
    FollowsTrans(cfg, run, begun, voted);
    FollowsTrans(cfg, run, voted, run');
  }

  lemma Begun(c: Cluster, c': Cluster, m: nat)
    requires m in c.procs && Newborn(c.procs[m]) && |c.procs[m].node.log| >= 1
    requires AtRest(c, m, c.procs[m].node.term, 0)
    requires forall y :: y in c.procs && y != m ==>
      |c.procs[y].node.log| >= 1 && AsGood(c.procs[m].node.log, c.procs[y].node.log)
    requires var d := BecomeCandidate(c.procs[m].node);
      c'.procs == c.procs[m := Process(d, Electing(0, 1, VoteArgs(d), false))]
    ensures Electioneers(c'.procs[m], 0) && c'.procs[m].node == BecomeCandidate(c.procs[m].node)
    ensures AtRest(c', m, c'.procs[m].node.term, 0) && WouldVote(c', m, c'.procs[m].node.peers[..0])
  {
    hide AsGood, VoteArgs;
  }

  lemma Elected(cfg: Config, run: seq<Cluster>, m: nat) returns (run': seq<Cluster>)
    requires Reachable(cfg, run) && m in Now(run).procs
    requires var s := Now(run).procs[m].node;
      Electioneers(Now(run).procs[m], |s.peers|) && AtRest(Now(run), m, s.term, 0)
    ensures Follows(cfg, run, run') && Reachable(cfg, run')
    ensures m in Now(run').procs
    ensures var s, s' := Now(run).procs[m].node, Now(run').procs[m].node;
      && s'.role == Leader && s'.term == s.term && s'.log == s.log && s'.replica == EMPTY_REPLICA && s'.commitIndex == 0
      && Now(run').procs[m].act == Sweeping(0, None) && AtRest(Now(run'), m, s'.term, 0)
  {
    hide IsRun, VoteArgs;
    RunnableNow(cfg, run, m);
    var p := Now(run).procs[m];
    CloseElectionOutcome(p, m);
    run' := Alone(cfg, run, CloseElection(m), Act(p, CloseElection(m)).0);
  }

  // ---- A sweep that fails, and a client ------------------------------------------------------------------------

  /** A call to append that fails sets the peer's next index back to 1. */
  lemma FailedExchange(cfg: Config, run: seq<Cluster>, m: nat, k: nat) returns (run': seq<Cluster>)
    requires Reachable(cfg, run) && m in Now(run).procs
    requires var p := Now(run).procs[m]; p.act == Sweeping(k, None) && p.node.role == Leader && k < |p.node.peers|
    ensures Follows(cfg, run, run') && Reachable(cfg, run')
    ensures var p := Now(run).procs[m];
      && k < |p.node.nextIndex|
      && Now(run').procs == Now(run).procs[m := Process(p.node.(nextIndex := p.node.nextIndex[k := 1]), Sweeping(k + 1, None))]
  {
    hide IsRun, ValidConfig, AppendArgs;
    RunnableNow(cfg, run, m);
    var p := Now(run).procs[m];
    var args := AppendArgs(p.node, k);
    var asked := Move(cfg, run, SendAppend(m), p.(act := Sweeping(k, Some(args))),
                      Some(AppendRequest(p.node.peers[k], args)));
    run' := Move(cfg, asked, TakeAppendReply(m, AppendEntriesReply(0, false, 0, 0)),
                 Process(p.node.(nextIndex := p.node.nextIndex[k := 1]), Sweeping(k + 1, None)), None);
    FollowsTrans(cfg, run, asked, run');
  }

  lemma {:induction false} FailAll(cfg: Config, run: seq<Cluster>, m: nat, k: nat) returns (run': seq<Cluster>)
    requires Reachable(cfg, run) && m in Now(run).procs
    requires var p := Now(run).procs[m];
      && p.act == Sweeping(k, None) && p.node.role == Leader && k <= |p.node.peers| == |p.node.nextIndex|
      && forall j :: 0 <= j < k ==> p.node.nextIndex[j] == 1
    ensures Follows(cfg, run, run') && Reachable(cfg, run')
    ensures m in Now(run').procs && Now(run').procs == Now(run).procs[m := Now(run').procs[m]]
    ensures var s, p' := Now(run).procs[m].node, Now(run').procs[m];
      && p' == Process(s.(nextIndex := p'.node.nextIndex), Sweeping(|s.peers|, None))
      && |p'.node.nextIndex| == |s.peers| && forall j :: 0 <= j < |s.peers| ==> p'.node.nextIndex[j] == 1
    decreases |Now(run).procs[m].node.peers| - k
  {
    hide IsRun;
    if k == |Now(run).procs[m].node.peers| {
      run' := run;
    } else {
      var failed := FailedExchange(cfg, run, m, k);
      run' := FailAll(cfg, failed, m, k + 1);
      FollowsTrans(cfg, run, failed, run');
    }
  }

  /** A leader about to sweep whose last entry is of its own term and a client's, and whose books have every
      peer at the beginning. */
  ghost predicate Proposed(p: Process, log: Log, c: Command) {
    var s := p.node;
    && s.role == Leader && p.act == Sweeping(0, None) && s.commitIndex == 0
    && Layout(c).Some? && s.log == log + [LogEntry(|log|, s.term, Layout(c).value)] && |log| >= 1
    && |s.nextIndex| == |s.matchIndex| == |s.peers|
    && forall j :: 0 <= j < |s.peers| ==> s.nextIndex[j] == 1
  }

  lemma Proposes(cfg: Config, run: seq<Cluster>, m: nat, c: Command) returns (run': seq<Cluster>)
    requires Reachable(cfg, run) && m in Now(run).procs && Layout(c).Some?
    requires var p := Now(run).procs[m];
      p.act == Sweeping(0, None) && p.node.role == Leader && p.node.replica == EMPTY_REPLICA && p.node.commitIndex == 0
    ensures Follows(cfg, run, run') && Reachable(cfg, run')
    ensures m in Now(run').procs && Now(run').procs == Now(run).procs[m := Now(run').procs[m]]
    ensures Proposed(Now(run').procs[m], Now(run).procs[m].node.log, c)
    ensures Now(run').procs[m].node.term == Now(run).procs[m].node.term
  {
    hide IsRun, Layout;
    RunnableNow(cfg, run, m);
    var failed := FailAll(cfg, run, m, 0);
    RunnableNow(cfg, failed, m);
    var s := Now(failed).procs[m].node;
    var ended := Alone(cfg, failed, EndSweep(m), Process(s, Idle));
    RunnableNow(cfg, ended, m);
    var req := ClientRequest(c, c.meta.clientId, c.meta.sequenceNum);
    var s' := HandleClientRequest(s, req).0;
    var taken := Alone(cfg, ended, Client(m, req), Process(s', Idle));
    RunnableNow(cfg, taken, m);
    run' := Alone(cfg, taken, StartSweep(m), Process(s', Sweeping(0, None)));
    FollowsTrans(cfg, run, failed, ended);
    FollowsTrans(cfg, run, ended, taken);
    FollowsTrans(cfg, run, taken, run');
  }

  // ---- Replicating ------------------------------------------------------------------------------------------------

  /** The three steps of a call to append. */
  lemma AppendExchange(cfg: Config, run: seq<Cluster>, m: nat, k: nat, y: nat) returns (run': seq<Cluster>)
    requires Reachable(cfg, run) && m in Now(run).procs && y in Now(run).procs && y != m
    requires var p := Now(run).procs[m];
      p.act == Sweeping(k, None) && p.node.role == Leader && k < |p.node.peers| && p.node.peers[k] == y
    requires Now(run).procs[y].act.Idle?
    ensures Runnable(Now(run).procs[m]) && Runnable(Now(run).procs[y])
    ensures Follows(cfg, run, run') && Reachable(cfg, run')
    ensures var s, t := Now(run).procs[m].node, Now(run).procs[y].node;
      var args := AppendArgs(s, k);
      var (t', r) := HandleAppendEntries(t, args);
      Now(run').procs == Now(run).procs[y := Process(t', Idle)]
                                       [m := Process(OnAppendReply(s, k, args, r), Sweeping(k + 1, None))]
  {
    hide IsRun, HandleAppendEntries, AppendArgs, OnAppendReply, ValidConfig;
    RunnableNow(cfg, run, m);
    RunnableNow(cfg, run, y);
    var p := Now(run).procs[m];
    var args := AppendArgs(p.node, k);
    var (t', r) := HandleAppendEntries(Now(run).procs[y].node, args);
    var asked := Move(cfg, run, SendAppend(m), p.(act := Sweeping(k, Some(args))), Some(AppendRequest(y, args)));
    var heard := Move(cfg, asked, DeliverAppend(y, args), Process(t', Idle), Some(AppendReply(y, args, r)));
    run' := Move(cfg, heard, TakeAppendReply(m, r), Process(OnAppendReply(p.node, k, args, r), Sweeping(k + 1, None)), None);
    FollowsTrans(cfg, run, asked, heard);
    FollowsTrans(cfg, run, heard, run');
  }

  /** An exchange between a leader and a peer whose log its request fits: the peer comes to agree with the
      leader's log and commits as far as the leader has; the leader's books say so. */
  lemma FittingExchange(s: NodeState, t: NodeState, k: nat)
    requires Paired(s, t, k) && t.term <= s.term && FitsLog(t.log, AppendArgs(s, k))
    requires |s.log| >= 2 && t.commitIndex < |s.log|
    ensures var args := AppendArgs(s, k);
      var (t', r) := HandleAppendEntries(t, args);
      var s' := OnAppendReply(s, k, args, r);
      && t'.term == s.term && AgreeTo(t'.log, s.log, LastIndex(s.log))
      && t'.commitIndex == Max(t.commitIndex, s.commitIndex) < |s.log|
      && (s'.term, s'.role, s'.log, s'.peers) == (s.term, Leader, s.log, s.peers)
      && s.commitIndex <= s'.commitIndex < |s.log|
      && s'.nextIndex == s.nextIndex[k := |s.log|]
      && s'.matchIndex == (if s.nextIndex[k] == |s.log| then s.matchIndex else s.matchIndex[k := LastIndex(s.log)])
      && forall n :: s'.commitIndex < n < |s.log| ==> !HeldByMost(s.(matchIndex := s'.matchIndex), n)
  {
    hide HandleAppendEntries, AppendArgs, OnAppendReply, HeldByMost, FitsLog, Matching;
    PairBounds(s, t, k);
    RequestOutcome(s, k);
    StepAccepts(t, AppendArgs(s, k));
    AcceptedAnswer(s, t, k);
    AcceptedFollows(s, t, k);
    AppendReplyOutcome(s, k, AppendArgs(s, k), HandleAppendEntries(t, AppendArgs(s, k)).1);
    SameMost(s, OnAppendReply(s, k, AppendArgs(s, k), HandleAppendEntries(t, AppendArgs(s, k)).1));
  }

  lemma SameMost(s: NodeState, t: NodeState)
    ensures forall n: nat :: n < |s.log| ==>
      (HeldByMost(s.(matchIndex := t.matchIndex), n) <==> HeldByMost(s.(matchIndex := t.matchIndex, nextIndex := t.nextIndex), n))
  {
  }

  /** A leader in mid sweep whose books put the first k peers at its last entry, as they are. */
  ghost predicate Copied(c: Cluster, m: nat, log: Log, term: nat, k: nat) {
    && m in c.procs && |log| >= 2 && log[LastIndex(log)].term == term
    && var s := c.procs[m].node;
    && s.role == Leader && s.term == term && s.log == log
    && |s.nextIndex| == |s.matchIndex| == |s.peers| && k <= |s.peers| && c.procs[m].act == Sweeping(k, None)
    && (forall j :: 0 <= j < k ==>
          && s.nextIndex[j] == |log| && s.matchIndex[j] == LastIndex(log)
          && s.peers[j] in c.procs && AgreeTo(c.procs[s.peers[j]].node.log, log, LastIndex(log)))
    && AtRest(c, m, term, LastIndex(log))
  }

  /** The peers not yet called have next index 1. */
  ghost predicate FromTheStart(s: NodeState, k: nat) {
    forall j :: k <= j < |s.nextIndex| ==> s.nextIndex[j] == 1
  }

  /** What one fitting exchange makes of the cluster. */
  lemma CopiedOn(c: Cluster, c': Cluster, m: nat, log: Log, term: nat, k: nat, t: NodeState, s: NodeState)
    requires Copied(c, m, log, term, k) && k < |c.procs[m].node.peers|
    requires var peers := c.procs[m].node.peers;
      peers[k] in c.procs && peers[k] != m && peers[k] !in peers[..k]
    requires c'.procs == c.procs[c.procs[m].node.peers[k] := Process(t, Idle)][m := Process(s, Sweeping(k + 1, None))]
    requires t.term == term && AgreeTo(t.log, log, LastIndex(log)) && t.commitIndex < |log|
    requires var s0 := c.procs[m].node;
      && (s.term, s.role, s.log, s.peers) == (s0.term, Leader, s0.log, s0.peers)
      && s.nextIndex == s0.nextIndex[k := |log|] && s.matchIndex == s0.matchIndex[k := LastIndex(log)]
    ensures Copied(c', m, log, term, k + 1)
  {
    hide AgreeTo;
    var peers := c.procs[m].node.peers;
    forall j | 0 <= j < k + 1
      ensures s.nextIndex[j] == |log| && s.matchIndex[j] == LastIndex(log)
      ensures peers[j] in c'.procs && AgreeTo(c'.procs[peers[j]].node.log, log, LastIndex(log))
    {
      if j < k {
        assert peers[j] in peers[..k];
      }
    }
  }

  lemma CopyOne(cfg: Config, run: seq<Cluster>, m: nat, log: Log, term: nat, k: nat) returns (run': seq<Cluster>)
    requires Reachable(cfg, run) && Copied(Now(run), m, log, term, k) && k < |Now(run).procs[m].node.peers|
    requires FromTheStart(Now(run).procs[m].node, k)
    ensures Follows(cfg, run, run') && Reachable(cfg, run')
    ensures Copied(Now(run'), m, log, term, k + 1) && FromTheStart(Now(run').procs[m].node, k + 1)
    ensures Now(run').procs[m].node.peers == Now(run).procs[m].node.peers
    ensures k + 1 == |Now(run).procs[m].node.peers| ==> Now(run').procs[m].node.commitIndex == LastIndex(log)
  {
    hide IsRun, HandleAppendEntries, AppendArgs, OnAppendReply, HeldByMost, Paired, AgreeTo, ValidConfig;
    PeerNow(cfg, run, m, k);
    var s := Now(run).procs[m].node;
    var y := s.peers[k];
    var t := Now(run).procs[y].node;
    PairedNow(cfg, run, m, k, LastIndex(log));
    RequestOutcome(s, k);
    FittingExchange(s, t, k);
    run' := AppendExchange(cfg, run, m, k, y);
    var args := AppendArgs(s, k);
    var (t', r) := HandleAppendEntries(t, args);
    var s' := OnAppendReply(s, k, args, r);
    CopiedOn(Now(run), Now(run'), m, log, term, k, t', s');
    if k + 1 == |s.peers| {
      AllHold(s.(matchIndex := s'.matchIndex), LastIndex(log));
    }
  }

  lemma PairedNow(cfg: Config, run: seq<Cluster>, m: nat, k: nat, commit: nat)
    requires Reachable(cfg, run) && m in Now(run).procs && Now(run).procs[m].node.role == Leader
    requires k < |Now(run).procs[m].node.peers|
    requires AtRest(Now(run), m, Now(run).procs[m].node.term, commit)
    ensures var y := Now(run).procs[m].node.peers[k];
      && y in Now(run).procs && y != m
      && Paired(Now(run).procs[m].node, Now(run).procs[y].node, k)
      && |Now(run).procs[y].node.log| >= 1
  {
    hide IsRun, Paired;
    PeerNow(cfg, run, m, k);
    var y := Now(run).procs[m].node.peers[k];
    RunnableNow(cfg, run, y);
    LeaderAndPeerArePaired(cfg, run, |run| - 1, m, y, k);
  }

  lemma AllHold(s: NodeState, n: nat)
    requires n < |s.log| && s.log[n].term == s.term && |s.matchIndex| == |s.peers| >= 1
    requires forall j :: 0 <= j < |s.peers| ==> s.matchIndex[j] == n
    ensures HeldByMost(s, n)
  {
    CountIsReached(s.matchIndex, n);
    CountAll(s.matchIndex, n);
  }

  lemma {:induction false} CountAll(matchIndex: seq<nat>, n: nat)
    requires forall j :: 0 <= j < |matchIndex| ==> matchIndex[j] == n
    ensures CountAtLeast(matchIndex, n) == |matchIndex|
  {
    if matchIndex != [] {
      CountAll(matchIndex[..|matchIndex| - 1], n);
    }
  }

  lemma {:induction false} CopyAll(cfg: Config, run: seq<Cluster>, m: nat, log: Log, term: nat, k: nat) returns (run': seq<Cluster>)
    requires Reachable(cfg, run) && Copied(Now(run), m, log, term, k)
    requires FromTheStart(Now(run).procs[m].node, k)
    requires k == |Now(run).procs[m].node.peers| ==> Now(run).procs[m].node.commitIndex == LastIndex(log)
    ensures Follows(cfg, run, run') && Reachable(cfg, run')
    ensures Copied(Now(run'), m, log, term, |Now(run).procs[m].node.peers|)
    ensures Now(run').procs[m].node.peers == Now(run).procs[m].node.peers
    ensures Now(run').procs[m].node.commitIndex == LastIndex(log)
    decreases |Now(run).procs[m].node.peers| - k
  {
    hide IsRun, AgreeTo, AtRest;
    if k == |Now(run).procs[m].node.peers| {
      run' := run;
    } else {
      var copied := CopyOne(cfg, run, m, log, term, k);
      run' := CopyAll(cfg, copied, m, log, term, k + 1);
      FollowsTrans(cfg, run, copied, run');
    }
  }

  // ---- Telling ------------------------------------------------------------------------------------------------------

  /** All peers agree with the leader, who has committed everything, and the first k have too. */
  ghost predicate Informed(c: Cluster, m: nat, log: Log, term: nat, k: nat) {
    && m in c.procs && |log| >= 2
    && var s := c.procs[m].node;
    && s.role == Leader && s.term == term && s.log == log && s.commitIndex == LastIndex(log)
    && |s.nextIndex| == |s.matchIndex| == |s.peers| && k <= |s.peers| && c.procs[m].act == Sweeping(k, None)
    && (forall j :: 0 <= j < |s.peers| ==>
          && s.nextIndex[j] == |log| && s.peers[j] in c.procs
          && AgreeTo(c.procs[s.peers[j]].node.log, log, LastIndex(log))
          && (j < k ==> c.procs[s.peers[j]].node.commitIndex == LastIndex(log)))
    && AtRest(c, m, term, LastIndex(log))
  }

  lemma InformedOn(c: Cluster, c': Cluster, m: nat, log: Log, term: nat, k: nat, t: NodeState, s: NodeState)
    requires Informed(c, m, log, term, k) && k < |c.procs[m].node.peers|
    requires c.procs[m].node.peers[k] != m
    requires c'.procs == c.procs[c.procs[m].node.peers[k] := Process(t, Idle)][m := Process(s, Sweeping(k + 1, None))]
    requires t.term == term && AgreeTo(t.log, log, LastIndex(log)) && t.commitIndex == LastIndex(log)
    requires var s0 := c.procs[m].node;
      && (s.term, s.role, s.log, s.peers) == (s0.term, Leader, s0.log, s0.peers) && s.commitIndex == s0.commitIndex
      && s.nextIndex == s0.nextIndex[k := |log|] && s.matchIndex == s0.matchIndex
    ensures Informed(c', m, log, term, k + 1)
  {
    hide AgreeTo;
  }

  lemma TellOne(cfg: Config, run: seq<Cluster>, m: nat, log: Log, term: nat, k: nat) returns (run': seq<Cluster>)
    requires Reachable(cfg, run) && Informed(Now(run), m, log, term, k) && k < |Now(run).procs[m].node.peers|
    ensures Follows(cfg, run, run') && Reachable(cfg, run')
    ensures Informed(Now(run'), m, log, term, k + 1)
    ensures Now(run').procs[m].node.peers == Now(run).procs[m].node.peers
  {
    hide IsRun, HandleAppendEntries, AppendArgs, OnAppendReply, HeldByMost, Paired, ValidConfig;
    PeerNow(cfg, run, m, k);
    var s := Now(run).procs[m].node;
    var y := s.peers[k];
    var t := Now(run).procs[y].node;
    PairedNow(cfg, run, m, k, LastIndex(log));
    RequestOutcome(s, k);
    AgreeToAt(t.log, log, LastIndex(log), LastIndex(log));
    hide AgreeTo;
    FittingExchange(s, t, k);
    run' := AppendExchange(cfg, run, m, k, y);
    var args := AppendArgs(s, k);
    var (t', r) := HandleAppendEntries(t, args);
    InformedOn(Now(run), Now(run'), m, log, term, k, t', OnAppendReply(s, k, args, r));
  }

  lemma {:induction false} TellAll(cfg: Config, run: seq<Cluster>, m: nat, log: Log, term: nat, k: nat) returns (run': seq<Cluster>)
    requires Reachable(cfg, run) && Informed(Now(run), m, log, term, k)
    ensures Follows(cfg, run, run') && Reachable(cfg, run')
    ensures Informed(Now(run'), m, log, term, |Now(run).procs[m].node.peers|)
    ensures Now(run').procs[m].node.peers == Now(run).procs[m].node.peers
    decreases |Now(run).procs[m].node.peers| - k
  {
    hide IsRun, AgreeTo, AtRest;
    if k == |Now(run).procs[m].node.peers| {
      run' := run;
    } else {
      var told := TellOne(cfg, run, m, log, term, k);
      run' := TellAll(cfg, told, m, log, term, k + 1);
      FollowsTrans(cfg, run, told, run');
    }
  }

  /** From a proposal to its being committed by everybody: two sweeps. */
  lemma Commits(cfg: Config, run: seq<Cluster>, m: nat, prior: Log, c: Command) returns (run': seq<Cluster>)
    requires Reachable(cfg, run) && m in Now(run).procs && Proposed(Now(run).procs[m], prior, c)
    requires |Now(run).procs[m].node.peers| >= 1
    requires AtRest(Now(run), m, Now(run).procs[m].node.term, 0)
    ensures Follows(cfg, run, run') && Reachable(cfg, run')
    ensures var s := Now(run).procs[m].node;
      && m in Now(run').procs && Now(run').procs[m].node.peers == s.peers
      && Informed(Now(run'), m, s.log, s.term, |s.peers|)
  {
    hide IsRun, Layout, AgreeTo;
    var s := Now(run).procs[m].node;
    var n := |s.peers|;
    var copied := CopyAll(cfg, run, m, s.log, s.term, 0);
    RunnableNow(cfg, copied, m);
    var p := Now(copied).procs[m];
    var ended := Alone(cfg, copied, EndSweep(m), Process(p.node, Idle));
    RunnableNow(cfg, ended, m);
    var again := Alone(cfg, ended, StartSweep(m), Process(p.node, Sweeping(0, None)));
    PeersNow(cfg, run, m);
    AllCopied(Now(copied), Now(again), m, s.log, s.term);
    run' := TellAll(cfg, again, m, s.log, s.term, 0);
    FollowsTrans(cfg, run, copied, ended);
    FollowsTrans(cfg, run, ended, again);
    FollowsTrans(cfg, run, again, run');
  }

  lemma PeersNow(cfg: Config, run: seq<Cluster>, m: nat)
    requires Reachable(cfg, run) && m in Now(run).procs
    ensures forall j :: 0 <= j < |Now(run).procs[m].node.peers| ==> Now(run).procs[m].node.peers[j] != m
  {
    forall j | 0 <= j < |Now(run).procs[m].node.peers| ensures Now(run).procs[m].node.peers[j] != m {
      PeerNow(cfg, run, m, j);
    }
  }

  lemma AllCopied(c: Cluster, c': Cluster, m: nat, log: Log, term: nat)
    requires m in c.procs && Copied(c, m, log, term, |c.procs[m].node.peers|)
    requires c.procs[m].node.commitIndex == LastIndex(log)
    requires forall j :: 0 <= j < |c.procs[m].node.peers| ==> c.procs[m].node.peers[j] != m
    requires c'.procs == c.procs[m := Process(c.procs[m].node, Sweeping(0, None))]
    ensures Informed(c', m, log, term, 0)
  {
    hide AgreeTo;
  }

  // ---- The whole way ------------------------------------------------------------------------------------------------

  /** A term no node has passed. */
  function LatestTerm(c: Cluster, names: seq<nat>): nat {
    if names == [] then 0
    else
      var rest := LatestTerm(c, names[1..]);
      if names[0] in c.procs then Max(c.procs[names[0]].node.term, rest) else rest
  }

  lemma {:induction false} LatestIsBound(c: Cluster, names: seq<nat>, x: nat)
    requires x in names && x in c.procs
    ensures c.procs[x].node.term <= LatestTerm(c, names)
  {
    if names[0] != x {
      LatestIsBound(c, names[1..], x);
    }
  }

  lemma BestNow(cfg: Config, run: seq<Cluster>) returns (m: nat, bound: nat)
    requires Reachable(cfg, run) && cfg.ids != {}
    ensures Now(run).procs.Keys == cfg.ids && m in cfg.ids
    ensures forall x :: x in cfg.ids ==> |Now(run).procs[x].node.log| >= 1 && Now(run).procs[x].node.term <= bound
    ensures forall x :: x in cfg.ids ==> AsGood(Now(run).procs[m].node.log, Now(run).procs[x].node.log)
  {
    hide IsRun, AsGood;
    NodesNow(cfg, run);
    var a :| a in cfg.ids;
    var names := cfg.peers[a] + [a];
    forall x | x in cfg.ids ensures x in names {
      if x != a {
        assert x in cfg.peers[a];
      }
      assert names[|cfg.peers[a]|] == a;
    }
    forall i | 0 <= i < |names| ensures names[i] in cfg.ids {
      assert i < |cfg.peers[a]| ==> names[i] in cfg.peers[a];
    }
    var logs := seq(|names|, i requires 0 <= i < |names| => Now(run).procs[names[i]].node.log);
    var best := SomeoneIsElectable(logs);
    m, bound := names[best], LatestTerm(Now(run), names);
    forall x | x in cfg.ids
      ensures Now(run).procs[x].node.term <= bound && AsGood(Now(run).procs[m].node.log, Now(run).procs[x].node.log)
    {
      LatestIsBound(Now(run), names, x);
      var i :| 0 <= i < |names| && names[i] == x;
      assert logs[i] == Now(run).procs[x].node.log;
    }
  }

  /** Everybody is done: node m leads, its log ends with the command, and every node has that log's entries
      committed and applied, to the same store. */
  ghost predicate Done(cfg: Config, c: Cluster, m: nat, command: Command) {
    && m in cfg.ids && c.procs.Keys == cfg.ids
    && var s := c.procs[m].node;
    && s.role == Leader && |s.log| >= 2
    && s.log[LastIndex(s.log)].term == s.term && Parse(s.log[LastIndex(s.log)].data) == Some(command)
    && forall x :: x in cfg.ids ==>
      && AgreeTo(c.procs[x].node.log, s.log, LastIndex(s.log))
      && c.procs[x].node.commitIndex == c.procs[x].node.lastApplied == LastIndex(s.log)
      && c.procs[x].node.replica == s.replica
  }

  /** From any state a cluster of two or more can reach, and for any command that can be serialized, the run
      can go on so that everybody has committed and applied it. */
  lemma ProgressIsPossible(cfg: Config, run: seq<Cluster>, command: Command) returns (run': seq<Cluster>, m: nat)
    requires Reachable(cfg, run) && |cfg.ids| >= 2 && Layout(command).Some?
    ensures Follows(cfg, run, run') && Done(cfg, Now(run'), m, command)
  {
    hide IsRun, ValidConfig, Layout, AsGood, Follows, Parse, AgreeTo, Done, Informed, Settles;
    var crashed := CrashAll(cfg, run, cfg.ids);
    var bound;
    m, bound := BestNow(cfg, crashed);
    var raised := RaiseTerm(cfg, crashed, m, bound);
    RestIn(cfg, Now(crashed), Now(raised), m, bound);
    var won := Wins(cfg, raised, m);
    var proposed := Proposes(cfg, won, m, command);
    StillAtRest(Now(won), Now(proposed), m);
    PeerCount(cfg, proposed, m);
    run' := Commits(cfg, proposed, m, Now(won).procs[m].node.log, command);
    DoneNow(cfg, proposed, run', m, Now(won).procs[m].node.log, command);
    FollowsTrans(cfg, run, crashed, raised);
    FollowsTrans(cfg, run, raised, won);
    FollowsTrans(cfg, run, won, proposed);
    FollowsTrans(cfg, run, proposed, run');
  }

  lemma RestIn(cfg: Config, c: Cluster, c': Cluster, m: nat, bound: nat)
    requires c.procs.Keys == cfg.ids && m in cfg.ids && m in c'.procs && c'.procs == c.procs[m := c'.procs[m]]
    requires forall x :: x in cfg.ids ==> Newborn(c.procs[x]) && c.procs[x].node.term <= bound
    requires c'.procs[m].node.term >= bound
    ensures AtRest(c', m, c'.procs[m].node.term, 0)
  {
  }

  lemma StillAtRest(c: Cluster, c': Cluster, m: nat)
    requires m in c.procs && m in c'.procs && c'.procs == c.procs[m := c'.procs[m]]
    requires c'.procs[m].node.term == c.procs[m].node.term && AtRest(c, m, c.procs[m].node.term, 0)
    ensures AtRest(c', m, c'.procs[m].node.term, 0)
  {
  }

  lemma PeerCount(cfg: Config, run: seq<Cluster>, m: nat)
    requires Reachable(cfg, run) && m in cfg.ids && |cfg.ids| >= 2
    ensures m in Now(run).procs && |Now(run).procs[m].node.peers| >= 1
  {
    hide IsRun, Runnable;
    NodesNow(cfg, run);
    Winning.ClusterSize(cfg, m);
  }

  lemma DoneNow(cfg: Config, run: seq<Cluster>, run': seq<Cluster>, m: nat, prior: Log, command: Command)
    requires Reachable(cfg, run) && Reachable(cfg, run') && m in Now(run).procs && m in Now(run').procs
    requires Proposed(Now(run).procs[m], prior, command)
    requires var s := Now(run).procs[m].node;
      Now(run').procs[m].node.peers == s.peers && Informed(Now(run'), m, s.log, s.term, |s.peers|)
    ensures Done(cfg, Now(run'), m, command)
  {
    hide IsRun, Layout, Parse, AgreeTo, Runnable;
    NodesNow(cfg, run');
    var s := Now(run').procs[m].node;
    ParseOfLayout(command, []);
    assert Layout(command).value + [] == Layout(command).value;
    forall x | x in cfg.ids
      ensures AgreeTo(Now(run').procs[x].node.log, s.log, LastIndex(s.log))
      ensures Now(run').procs[x].node.commitIndex == LastIndex(s.log)
    {
      if x == m {
        AgreeToFrom(s.log, s.log, LastIndex(s.log));
      } else {
        assert x in s.peers;
      }
    }
    forall x | x in cfg.ids ensures Now(run').procs[x].node.replica == s.replica {
      ReplicasAgree(cfg, run', |run'| - 1, x, |run'| - 1, m);
    }
  }
}
