/** Why the heartbeat sweep must look at the role between peers: a run of three nodes in which a single
    request, sent after a step-down in the middle of a sweep (src/raft/RaftNode.cpp:528-533, 637-640),
    destroys a committed entry. */
module UnguardedSweeps {
  import opened Wrappers
  import opened ByteCodec
  import opened Commands
  import opened Logs
  import opened Replay
  import opened Nodes
  import opened Clusters
  import opened Safety
  import opened Moves

  const THREE: Config := Config({1, 2, 3}, map[1 := [2, 3], 2 := [1, 3], 3 := [1, 2]])

  ghost predicate NextUnguarded(c: Cluster, c': Cluster) {
    exists step :: Enabled(c, step) && c' == Do(c, step)
  }

  /** A run whose steps need not look at the role. */
  ghost predicate IsUnguardedRun(cfg: Config, run: seq<Cluster>) {
    && ValidConfig(cfg)
    && |run| >= 1
    && run[0] == Initial(cfg)
    && forall i :: 0 <= i < |run| - 1 ==> NextUnguarded(run[i], run[i + 1])
  }

  /** A server of the story that has committed nothing and is up to date on disk. */
  function Server(id: nat, peers: seq<nat>, term: nat, vote: nat, role: Role, leader: nat, log: Log): NodeState {
    NodeState(id, peers, term, vote, log, 0, 0, role, leader, [1, 1], [0, 0], EMPTY_REPLICA, Durable(term, vote, log))
  }

  // ---- Three nodes ------------------------------------------------------------------------------

  lemma ThreeIsValid()
    ensures ValidConfig(THREE)
  {
    forall x | x in THREE.ids ensures Distinct(THREE.peers[x]) {
      assert x == 1 || x == 2 || x == 3;
    }
    forall x, y | x in THREE.ids ensures y in THREE.peers[x] <==> y in THREE.ids && y != x {
      assert x == 1 || x == 2 || x == 3;
    }
  }

  lemma NewServer(id: nat, peers: seq<nat>)
    requires |peers| == 2
    ensures InitialNode(id, peers) == Server(id, peers, 0, 0, Follower, 0, [DUMMY])
  {
    assert seq(2, _ => 1) == [1, 1] && seq(2, _ => 0) == [0, 0];
  }

  lemma Start() returns (run: seq<Cluster>)
    ensures run != [] && IsRun(THREE, run)
    ensures Now(run).procs == map[1 := Process(Server(1, [2, 3], 0, 0, Follower, 0, [DUMMY]), Idle),
                                  2 := Process(Server(2, [1, 3], 0, 0, Follower, 0, [DUMMY]), Idle),
                                  3 := Process(Server(3, [1, 2], 0, 0, Follower, 0, [DUMMY]), Idle)]
  {
    hide ValidConfig, InitialNode, Server;
    ThreeIsValid();
    NewServer(1, [2, 3]);
    NewServer(2, [1, 3]);
    NewServer(3, [1, 2]);
    run := [Initial(THREE)];
  }

  // ---- Elections --------------------------------------------------------------------------

  ghost predicate Calls(p: Process, n: nat, term: nat, next: nat, votes: nat) {
    && n in THREE.ids && term >= 1
    && p == Process(Server(n, THREE.peers[n], term, n, Candidate, 0, [DUMMY]),
                    Electing(next, votes, RequestVoteArgs(term, n, 0, 0), false))
  }

  lemma BeginElection(run: seq<Cluster>, n: nat, term: nat, vote: nat) returns (run': seq<Cluster>)
    requires run != [] && IsRun(THREE, run) && n in THREE.ids && n in Now(run).procs
    requires Now(run).procs[n] == Process(Server(n, THREE.peers[n], term, vote, Follower, 0, [DUMMY]), Idle)
    ensures Follows(THREE, run, run')
    ensures n in Now(run').procs && Calls(Now(run').procs[n], n, term + 1, 0, 1)
    ensures Now(run').procs == Now(run).procs[n := Now(run').procs[n]]
  {
    hide IsRun;
    var s := Server(n, THREE.peers[n], term + 1, n, Candidate, 0, [DUMMY]);
    run' := Move(THREE, run, StartElection(n), Process(s, Electing(0, 1, RequestVoteArgs(term + 1, n, 0, 0), false)), None);
  }

  /** A call for a vote that fails. */
  lemma VoteCallFails(run: seq<Cluster>, n: nat, term: nat, next: nat, votes: nat) returns (run': seq<Cluster>)
    requires run != [] && IsRun(THREE, run) && n in Now(run).procs && next < 2
    requires Calls(Now(run).procs[n], n, term, next, votes)
    ensures Follows(THREE, run, run')
    ensures n in Now(run').procs && Calls(Now(run').procs[n], n, term, next + 1, votes)
    ensures Now(run').procs == Now(run).procs[n := Now(run').procs[n]]
  {
    hide IsRun;
    var p := Now(run).procs[n];
    var asked := Move(THREE, run, SendVote(n), p.(act := p.act.(waiting := true)),
                      Some(VoteRequest(p.node.peers[next], p.act.request)));
    run' := Move(THREE, asked, TakeVoteReply(n, RequestVoteReply(0, false)),
                 p.(act := Electing(next + 1, votes, p.act.request, false)), None);
    FollowsTrans(THREE, run, asked, run');
  }

  /** A call for a vote that node 2 grants. */
  lemma VoteCallSucceeds(run: seq<Cluster>, n: nat, term: nat, next: nat, votes: nat, w: nat, v: nat)
    returns (run': seq<Cluster>)
    requires run != [] && IsRun(THREE, run) && n in Now(run).procs && 2 in Now(run).procs && next < 2
    requires Calls(Now(run).procs[n], n, term, next, votes) && n != 2 && THREE.peers[n][next] == 2
    requires Now(run).procs[2] == Process(Server(2, [1, 3], w, v, Follower, 0, [DUMMY]), Idle) && w < term
    ensures Follows(THREE, run, run')
    ensures n in Now(run').procs && Calls(Now(run').procs[n], n, term, next + 1, votes + 1)
    ensures Now(run').procs == Now(run).procs[2 := Process(Server(2, [1, 3], term, n, Follower, 0, [DUMMY]), Idle)]
                                             [n := Now(run').procs[n]]
  {
    hide IsRun;
    var p := Now(run).procs[n];
    var args := p.act.request;
    var asked := Move(THREE, run, SendVote(n), p.(act := p.act.(waiting := true)), Some(VoteRequest(2, args)));
    var voted := Process(Server(2, [1, 3], term, n, Follower, 0, [DUMMY]), Idle);
    var heard := Move(THREE, asked, DeliverVote(2, args), voted, Some(VoteReply(2, args, RequestVoteReply(term, true))));
    run' := Move(THREE, heard, TakeVoteReply(n, RequestVoteReply(term, true)),
                 p.(act := Electing(next + 1, votes + 1, args, false)), None);
    FollowsTrans(THREE, run, asked, heard);
    FollowsTrans(THREE, run, heard, run');
  }

  /** Node n wins with its own vote and that of node 2. */
  lemma Win(run: seq<Cluster>, n: nat, term: nat, vote: nat, w: nat, v: nat) returns (run': seq<Cluster>)
    requires run != [] && IsRun(THREE, run) && n in {1, 3} && n in Now(run).procs && 2 in Now(run).procs
    requires Now(run).procs[n] == Process(Server(n, THREE.peers[n], term, vote, Follower, 0, [DUMMY]), Idle)
    requires Now(run).procs[2] == Process(Server(2, [1, 3], w, v, Follower, 0, [DUMMY]), Idle) && w <= term
    ensures Follows(THREE, run, run')
    ensures Now(run').procs
            == Now(run).procs[2 := Process(Server(2, [1, 3], term + 1, n, Follower, 0, [DUMMY]), Idle)]
                             [n := Process(Server(n, THREE.peers[n], term + 1, n, Leader, n, [DUMMY]), Sweeping(0, None))]
  {
    hide IsRun, Ready, Heard;
    var a := BeginElection(run, n, term, vote);
    var b, c;
    if n == 1 {
      b := VoteCallSucceeds(a, n, term + 1, 0, 1, w, v);
      c := VoteCallFails(b, n, term + 1, 1, 2);
    } else {
      b := VoteCallFails(a, n, term + 1, 0, 1);
      c := VoteCallSucceeds(b, n, term + 1, 1, 1, w, v);
    }
    run' := Elected(c, n, term + 1);
    FollowsTrans(THREE, run, a, b);
    FollowsTrans(THREE, run, b, c);
    FollowsTrans(THREE, run, c, run');
  }

  lemma Elected(run: seq<Cluster>, n: nat, term: nat) returns (run': seq<Cluster>)
    requires run != [] && IsRun(THREE, run) && n in Now(run).procs && Calls(Now(run).procs[n], n, term, 2, 2)
    ensures Follows(THREE, run, run')
    ensures Now(run').procs
            == Now(run).procs[n := Process(Server(n, THREE.peers[n], term, n, Leader, n, [DUMMY]), Sweeping(0, None))]
  {
    hide IsRun;
    var s := Server(n, THREE.peers[n], term, n, Leader, n, [DUMMY]);
    assert seq(2, _ => 1) == [1, 1] && seq(2, _ => 0) == [0, 0];
    run' := Move(THREE, run, CloseElection(n), Process(s, Sweeping(0, None)), None);
  }

  // ---- Sweeps and clients ---------------------------------------------------------------------

  ghost predicate Sweeps(p: Process, n: nat, term: nat, log: Log, next: nat) {
    && n in THREE.ids && WellIndexed(log)
    && p == Process(Server(n, THREE.peers[n], term, n, Leader, n, log), Sweeping(next, None))
  }

  /** A call to append that fails. */
  lemma AppendCallFails(run: seq<Cluster>, n: nat, term: nat, log: Log, next: nat) returns (run': seq<Cluster>)
    requires run != [] && IsRun(THREE, run) && n in Now(run).procs && next < 2
    requires Sweeps(Now(run).procs[n], n, term, log, next)
    ensures Follows(THREE, run, run')
    ensures n in Now(run').procs && Sweeps(Now(run').procs[n], n, term, log, next + 1)
    ensures Now(run').procs == Now(run).procs[n := Now(run').procs[n]]
  {
    hide IsRun;
    var p := Now(run).procs[n];
    var args := AppendArgs(p.node, next);
    var asked := Move(THREE, run, SendAppend(n), p.(act := Sweeping(next, Some(args))),
                      Some(AppendRequest(p.node.peers[next], args)));
    assert [1, 1][next := 1] == [1, 1];
    run' := Move(THREE, asked, TakeAppendReply(n, AppendEntriesReply(0, false, 0, 0)),
                 p.(act := Sweeping(next + 1, None)), None);
    FollowsTrans(THREE, run, asked, run');
  }

  /** The sweep after an election, all calls failing; then a client's command, and the next sweep. */
  lemma Propose(run: seq<Cluster>, n: nat, term: nat, c: Command) returns (run': seq<Cluster>)
    requires run != [] && IsRun(THREE, run) && n in Now(run).procs && Layout(c).Some?
    requires Sweeps(Now(run).procs[n], n, term, [DUMMY], 0)
    ensures Follows(THREE, run, run')
    ensures n in Now(run').procs && Sweeps(Now(run').procs[n], n, term, [DUMMY, LogEntry(1, term, Layout(c).value)], 0)
    ensures Now(run').procs == Now(run).procs[n := Now(run').procs[n]]
  {
    hide IsRun, Layout;
    var a := AppendCallFails(run, n, term, [DUMMY], 0);
    var b := AppendCallFails(a, n, term, [DUMMY], 1);
    var s := Now(b).procs[n].node;
    var d := Move(THREE, b, EndSweep(n), Process(s, Idle), None);
    var log' := [DUMMY, LogEntry(1, term, Layout(c).value)];
    assert [DUMMY] + [LogEntry(1, term, Layout(c).value)] == log';
    var s' := Server(n, THREE.peers[n], term, n, Leader, n, log');
    var e := Move(THREE, d, Client(n, ClientRequest(c, c.meta.clientId, c.meta.sequenceNum)), Process(s', Idle), None);
    run' := Move(THREE, e, StartSweep(n), Process(s', Sweeping(0, None)), None);
    FollowsTrans(THREE, run, a, b);
    FollowsTrans(THREE, run, b, d);
    FollowsTrans(THREE, run, d, e);
    FollowsTrans(THREE, run, e, run');
  }

  // ---- The story --------------------------------------------------------------------------------

  /** Node 1 leads term 1 and waits for node 2's answer; node 3 has crashed as a candidate of term 1, come
      back, and leads term 2. Each has an entry of its own at index 1. */
  lemma TwoLeaders(c: Command) returns (run: seq<Cluster>)
    requires Layout(c).Some?
    ensures run != [] && IsRun(THREE, run)
    ensures var data := Layout(c).value;
      var args := AppendEntriesArgs(1, 1, 0, 0, [LogEntry(1, 1, data)], 0);
      && Now(run).procs
         == map[1 := Process(Server(1, [2, 3], 1, 1, Leader, 1, [DUMMY, LogEntry(1, 1, data)]), Sweeping(0, Some(args))),
                2 := Process(Server(2, [1, 3], 2, 3, Follower, 0, [DUMMY]), Idle),
                3 := Process(Server(3, [1, 2], 2, 3, Leader, 3, [DUMMY, LogEntry(1, 2, data)]), Sweeping(0, None))]
      && AppendRequest(2, args) in Now(run).net
  {
    hide IsRun, Layout, Calls;
    var data := Layout(c).value;
    var a := Start();
    var b := Win(a, 1, 0, 0, 0, 0);
    var d := Propose(b, 1, 1, c);
    var one := Now(d).procs[1];
    var args := AppendEntriesArgs(1, 1, 0, 0, [LogEntry(1, 1, data)], 0);
    assert one.node.log[1..] == [LogEntry(1, 1, data)];
    var e := Move(THREE, d, SendAppend(1), one.(act := Sweeping(0, Some(args))), Some(AppendRequest(2, args)));
    var f := CrashedCandidate(e);
    var g := Win(f, 3, 1, 3, 1, 1);
    run := Propose(g, 3, 2, c);
  }

  /** Node 3 becomes a candidate of term 1, crashes, and has its term and vote from disk. */
  lemma CrashedCandidate(run: seq<Cluster>) returns (run': seq<Cluster>)
    requires run != [] && IsRun(THREE, run) && 3 in Now(run).procs
    requires Now(run).procs[3] == Process(Server(3, [1, 2], 0, 0, Follower, 0, [DUMMY]), Idle)
    ensures Follows(THREE, run, run')
    ensures Now(run').procs == Now(run).procs[3 := Process(Server(3, [1, 2], 1, 3, Follower, 0, [DUMMY]), Idle)]
  {
    hide IsRun;
    var a := BeginElection(run, 3, 0, 0);
    assert seq(2, _ => 1) == [1, 1] && seq(2, _ => 0) == [0, 0];
    run' := Move(THREE, a, Crash(3), Process(Server(3, [1, 2], 1, 3, Follower, 0, [DUMMY]), Idle), None);
    FollowsTrans(THREE, run, a, run');
  }

  /** Node 3 with its entry committed on nodes 2 and 3, and applied. */
  function Committer(data: Bytes): NodeState {
    var e := LogEntry(1, 2, data);
    Server(3, [1, 2], 2, 3, Leader, 3, [DUMMY, e]).(commitIndex := 1, lastApplied := 1,
      replica := ApplyAll(EMPTY_REPLICA, [e]), nextIndex := [1, 2], matchIndex := [0, 1])
  }

  lemma Commits(run: seq<Cluster>, data: Bytes) returns (run': seq<Cluster>)
    requires run != [] && IsRun(THREE, run) && 2 in Now(run).procs && 3 in Now(run).procs
    requires Now(run).procs[2] == Process(Server(2, [1, 3], 2, 3, Follower, 0, [DUMMY]), Idle)
    requires Sweeps(Now(run).procs[3], 3, 2, [DUMMY, LogEntry(1, 2, data)], 0)
    ensures Follows(THREE, run, run')
    ensures Now(run').procs
            == Now(run).procs[2 := Process(Server(2, [1, 3], 2, 3, Follower, 3, [DUMMY, LogEntry(1, 2, data)]), Idle)]
                             [3 := Process(Committer(data), Idle)]
  {
    hide IsRun, ApplyAll;
    var a := AppendCallFails(run, 3, 2, [DUMMY, LogEntry(1, 2, data)], 0);
    var b := Ships(a, data);
    var d := Counts(b, data);
    FollowsTrans(THREE, run, a, b);
    FollowsTrans(THREE, run, b, d);
    run' := d;
  }

  /** Node 3 has one call under way, to node 2, which has taken the entry and answered. */
  ghost predicate Answered(c: Cluster, data: Bytes) {
    var e := LogEntry(1, 2, data);
    var args := AppendEntriesArgs(2, 3, 0, 0, [e], 0);
    && 3 in c.procs
    && c.procs[3] == Process(Server(3, [1, 2], 2, 3, Leader, 3, [DUMMY, e]), Sweeping(1, Some(args)))
    && AppendReply(2, args, AppendEntriesReply(2, true, 0, 0)) in c.net
  }

  lemma Ships(run: seq<Cluster>, data: Bytes) returns (run': seq<Cluster>)
    requires run != [] && IsRun(THREE, run) && 2 in Now(run).procs && 3 in Now(run).procs
    requires Now(run).procs[2] == Process(Server(2, [1, 3], 2, 3, Follower, 0, [DUMMY]), Idle)
    requires Sweeps(Now(run).procs[3], 3, 2, [DUMMY, LogEntry(1, 2, data)], 1)
    ensures Follows(THREE, run, run') && Answered(Now(run'), data)
    ensures Now(run').procs
            == Now(run).procs[2 := Process(Server(2, [1, 3], 2, 3, Follower, 3, [DUMMY, LogEntry(1, 2, data)]), Idle)]
                             [3 := Now(run').procs[3]]
  {
    hide IsRun, ApplyAll;
    var e := LogEntry(1, 2, data);
    var log, p := [DUMMY, e], Now(run).procs[3];
    var args := AppendEntriesArgs(2, 3, 0, 0, [e], 0);
    assert log[1..] == [e];
    var a := Move(THREE, run, SendAppend(3), p.(act := Sweeping(1, Some(args))), Some(AppendRequest(2, args)));
    Taking(data);
    run' := Move(THREE, a, DeliverAppend(2, args), Process(Server(2, [1, 3], 2, 3, Follower, 3, log), Idle),
                 Some(AppendReply(2, args, AppendEntriesReply(2, true, 0, 0))));
    FollowsTrans(THREE, run, a, run');
  }

  lemma Counts(run: seq<Cluster>, data: Bytes) returns (run': seq<Cluster>)
    requires run != [] && IsRun(THREE, run) && Answered(Now(run), data)
    ensures Follows(THREE, run, run')
    ensures Now(run').procs == Now(run).procs[3 := Process(Committer(data), Idle)]
  {
    hide IsRun, ApplyAll;
    Counting(data);
    var a := Move(THREE, run, TakeAppendReply(3, AppendEntriesReply(2, true, 0, 0)), Process(Committer(data), Sweeping(2, None)), None);
    run' := Move(THREE, a, EndSweep(3), Process(Committer(data), Idle), None);
    FollowsTrans(THREE, run, a, run');
  }

  /** Node 2 takes the entry. */
  lemma Taking(data: Bytes)
    ensures var e := LogEntry(1, 2, data);
      HandleAppendEntries(Server(2, [1, 3], 2, 3, Follower, 0, [DUMMY]), AppendEntriesArgs(2, 3, 0, 0, [e], 0))
      == (Server(2, [1, 3], 2, 3, Follower, 3, [DUMMY, e]), AppendEntriesReply(2, true, 0, 0))
  {
    var e := LogEntry(1, 2, data);
    assert HeldCount([DUMMY], 0, [e]) == 0;
    assert Merge([DUMMY], 0, [e]) == [DUMMY] + [e] == [DUMMY, e];
  }

  /** Node 3 counts two of three, and commits. */
  lemma Counting(data: Bytes)
    ensures var e := LogEntry(1, 2, data);
      OnAppendReply(Server(3, [1, 2], 2, 3, Leader, 3, [DUMMY, e]), 1, AppendEntriesArgs(2, 3, 0, 0, [e], 0),
                    AppendEntriesReply(2, true, 0, 0)) == Committer(data)
  {
    hide ApplyAll;
    var e := LogEntry(1, 2, data);
    var s := Server(3, [1, 2], 2, 3, Leader, 3, [DUMMY, e]).(nextIndex := [1, 2], matchIndex := [0, 1]);
    assert [1, 1][1 := 2] == [1, 2] && [0, 0][1 := 1] == [0, 1];
    assert [0, 1][..1] == [0] && [0][..0] == [];
    assert CountAtLeast([0, 1], 1) == 1;
    assert Committable(s, 1) && CommitTarget(s, 1) == 1;
    assert [DUMMY, e][1..2] == [e];
  }

  /** Node 2 answers node 1's old request with term 2, and node 1 steps down in the middle of its sweep. */
  lemma StepsDown(run: seq<Cluster>, data: Bytes) returns (run': seq<Cluster>)
    requires run != [] && IsRun(THREE, run) && 1 in Now(run).procs && 2 in Now(run).procs
    requires var e, mine := LogEntry(1, 2, data), LogEntry(1, 1, data);
      var args := AppendEntriesArgs(1, 1, 0, 0, [mine], 0);
      && Now(run).procs[1] == Process(Server(1, [2, 3], 1, 1, Leader, 1, [DUMMY, mine]), Sweeping(0, Some(args)))
      && Now(run).procs[2] == Process(Server(2, [1, 3], 2, 3, Follower, 3, [DUMMY, e]), Idle)
      && AppendRequest(2, args) in Now(run).net
    ensures Follows(THREE, run, run')
    ensures Now(run').procs
            == Now(run).procs[1 := Process(Server(1, [2, 3], 2, 0, Follower, 0, [DUMMY, LogEntry(1, 1, data)]), Sweeping(1, None))]
  {
    hide IsRun;
    var mine := LogEntry(1, 1, data);
    var args, reply := AppendEntriesArgs(1, 1, 0, 0, [mine], 0), AppendEntriesReply(2, false, 0, 0);
    var a := Move(THREE, run, DeliverAppend(2, args), Now(run).procs[2], Some(AppendReply(2, args, reply)));
    run' := Move(THREE, a, TakeAppendReply(1, reply),
                 Process(Server(1, [2, 3], 2, 0, Follower, 0, [DUMMY, mine]), Sweeping(1, None)), None);
    FollowsTrans(THREE, run, a, run');
  }

  /** Node 3 believes the stray request, which bears its own term. */
  lemma Believing(data: Bytes)
    ensures var mine := LogEntry(1, 1, data);
      var (s, r) := HandleAppendEntries(Committer(data), AppendEntriesArgs(2, 1, 0, 0, [mine], 0));
      s.role == Follower && s.log == [DUMMY, mine] && s.commitIndex == s.lastApplied == 1
  {
    var e, mine := LogEntry(1, 2, data), LogEntry(1, 1, data);
    assert !Holds([DUMMY, e], 0, [mine], 0);
    assert Merge([DUMMY, e], 0, [mine]) == [DUMMY] + [mine];
  }

  /** Whatever command the clients send: there is a run of which every step but one is as meant, the one
      being the last but one, a request sent by a node that no longer leads. In it node 3 has committed
      and applied an entry at moment i that its log no longer holds at the end, so that neither what
      Durability.CommittedNeverLost nor what Safety.StateMachineSafety promises is true of it. */
  lemma UnguardedSweepLosesCommitted(c: Command) returns (run: seq<Cluster>, i: nat)
    requires Layout(c).Some?
    ensures IsUnguardedRun(THREE, run) && |run| >= 3 && IsRun(THREE, run[..|run| - 2])
    ensures Next(run[|run| - 2], run[|run| - 1])
    ensures i < |run| && At(run, i, 3) && At(run, |run| - 1, 3)
    ensures var s, s' := Node(run, i, 3), Node(run, |run| - 1, 3);
      && s.role == Leader && s.commitIndex == s.lastApplied == s'.commitIndex == s'.lastApplied == 1
      && !AgreeTo(s.log, s'.log, 1)
  {
    hide IsRun, IsUnguardedRun, Next, Layout, ApplyAll;
    var data := Layout(c).value;
    var a := TwoLeaders(c);
    var b := Commits(a, data);
    var d := StepsDown(b, data);
    run := Strays(d, data);
    i := |b| - 1;
    assert run[i] == b[i] == Now(b);
    var s, s' := Node(run, i, 3), Node(run, |run| - 1, 3);
    assert s.log[1] != s'.log[1];
    if AgreeTo(s.log, s'.log, 1) {
      AgreeToAt(s.log, s'.log, 1, 1);
    }
  }

  lemma Strays(run: seq<Cluster>, data: Bytes) returns (run': seq<Cluster>)
    requires run != [] && IsRun(THREE, run) && 1 in Now(run).procs && 3 in Now(run).procs
    requires Now(run).procs[1] == Process(Server(1, [2, 3], 2, 0, Follower, 0, [DUMMY, LogEntry(1, 1, data)]), Sweeping(1, None))
    requires Now(run).procs[3] == Process(Committer(data), Idle)
    ensures |run'| == |run| + 2 && IsUnguardedRun(THREE, run') && run'[..|run|] == run
    ensures Next(run'[|run|], run'[|run| + 1])
    ensures 3 in Now(run').procs
    ensures var s := Now(run').procs[3].node;
      s.role == Follower && s.log == [DUMMY, LogEntry(1, 1, data)] && s.commitIndex == s.lastApplied == 1
  {
    var mine := LogEntry(1, 1, data);
    var args := AppendEntriesArgs(2, 1, 0, 0, [mine], 0);
    assert [DUMMY, mine][1..] == [mine];
    var last := Now(run);
    assert Act(last.procs[1], SendAppend(1)) == (last.procs[1].(act := Sweeping(1, Some(args))), Some(AppendRequest(3, args)));
    var c := Do(last, SendAppend(1));
    assert Enabled(c, DeliverAppend(3, args)) && Guarded(c, DeliverAppend(3, args));
    Believing(data);
    var d := Do(c, DeliverAppend(3, args));
    run' := run + [c, d];
    StillUnguarded(run, c, d, SendAppend(1), DeliverAppend(3, args));
  }

  lemma StillUnguarded(run: seq<Cluster>, c: Cluster, d: Cluster, first: Step, second: Step)
    requires run != [] && IsRun(THREE, run)
    requires Enabled(Now(run), first) && c == Do(Now(run), first)
    requires Enabled(c, second) && d == Do(c, second)
    ensures IsUnguardedRun(THREE, run + [c, d])
  {
    hide Enabled, Do, Initial, ValidConfig;
    var run' := run + [c, d];
    assert run'[0] == run[0];
    forall i | 0 <= i < |run'| - 1 ensures NextUnguarded(run'[i], run'[i + 1]) {
      if i < |run| - 1 {
        assert Next(run[i], run[i + 1]);
        assert run'[i] == run[i] && run'[i + 1] == run[i + 1];
      } else if i == |run| - 1 {
        assert run'[i] == Now(run) && run'[i + 1] == c;
        assert Enabled(run'[i], first);
      } else {
        assert run'[i] == c && run'[i + 1] == d;
        assert Enabled(run'[i], second);
      }
    }
  }
}
