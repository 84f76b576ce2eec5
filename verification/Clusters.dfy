/** A cluster of Raft nodes as a step system. A node that counts votes or waits for a reply holds
    its state mutex, so meanwhile it handles nothing. Messages, requests and replies alike, stay in
    the network for ever: they may be delivered late, repeatedly, or never. */
module Clusters {
  import opened Wrappers
  import opened Nodes

  datatype Config = Config(ids: set<nat>, peers: map<nat, seq<nat>>)

  ghost predicate Distinct(s: seq<nat>) {
    forall i, j :: 0 <= i < j < |s| ==> s[i] != s[j]
  }

  /** Non-zero ids; every node lists each other node once. */
  ghost predicate ValidConfig(cfg: Config) {
    && 0 !in cfg.ids
    && cfg.peers.Keys == cfg.ids
    && forall x :: x in cfg.ids ==> Distinct(cfg.peers[x]) && forall y :: y in cfg.peers[x] <==> y in cfg.ids && y != x
  }

  /** What the thread that holds a node's mutex is doing. */
  datatype Activity =
    | Idle
    | Electing(next: nat, votes: nat, request: RequestVoteArgs, waiting: bool)
    | Sweeping(next: nat, pending: Option<AppendEntriesArgs>)

  datatype Process = Process(node: NodeState, act: Activity)

  datatype Message =
    | VoteRequest(dst: nat, vote: RequestVoteArgs)
    | VoteReply(src: nat, vote: RequestVoteArgs, voteReply: RequestVoteReply)
    | AppendRequest(dst: nat, append: AppendEntriesArgs)
    | AppendReply(src: nat, append: AppendEntriesArgs, appendReply: AppendEntriesReply)

  datatype Cluster = Cluster(procs: map<nat, Process>, net: set<Message>)

  datatype Step =
    | StartElection(n: nat)
    | SendVote(n: nat)
    | TakeVoteReply(n: nat, voteReply: RequestVoteReply)
    | CloseElection(n: nat)
    | DeliverVote(n: nat, vote: RequestVoteArgs)
    | StartSweep(n: nat)
    | SendAppend(n: nat)
    | SkipPeer(n: nat)
    | TakeAppendReply(n: nat, appendReply: AppendEntriesReply)
    | EndSweep(n: nat)
    | DeliverAppend(n: nat, append: AppendEntriesArgs)
    | Client(n: nat, request: ClientRequest)
    | Crash(n: nat)

  /** The value a failed RPC hands back: the in-memory transport answers term 0, the gRPC client
      the request's own term. */
  predicate FailedVote(args: RequestVoteArgs, r: RequestVoteReply) {
    !r.voteGranted && (r.term == 0 || r.term == args.term)
  }

  predicate FailedAppend(args: AppendEntriesArgs, r: AppendEntriesReply) {
    !r.success && r.conflictIndex == 0 && (r.term == 0 || r.term == args.term)
  }

  /** A node in a usable state for its own code to run without reading out of bounds. */
  ghost predicate Runnable(p: Process) {
    && Shaped(p.node)
    && p.node.disk.log != []
    && (p.act.Electing? ==> p.act.next <= |p.node.peers| && (p.act.waiting ==> p.act.next < |p.node.peers|))
    && (p.act.Sweeping? ==>
          && p.act.next <= |p.node.peers|
          && (p.act.pending.Some? ==> p.act.next < |p.node.peers|))
  }

  /** What the node itself must be doing for the step to happen. */
  ghost predicate Ready(p: Process, step: Step) {
    && Runnable(p)
    && match step
       case StartElection(n) => p.act.Idle? && p.node.role != Leader
       case SendVote(n) => p.act.Electing? && !p.act.waiting && p.act.next < |p.node.peers|
       case TakeVoteReply(n, r) => p.act.Electing? && p.act.waiting
       case CloseElection(n) => p.act.Electing? && !p.act.waiting && p.act.next == |p.node.peers|
       case DeliverVote(n, args) => p.act.Idle?
       case StartSweep(n) => p.act.Idle? && p.node.role == Leader
       case SendAppend(n) => p.act.Sweeping? && p.act.pending.None? && p.act.next < |p.node.peers|
       case SkipPeer(n) => p.act.Sweeping? && p.act.pending.None? && p.act.next < |p.node.peers| && p.node.role != Leader
       case TakeAppendReply(n, r) => p.act.Sweeping? && p.act.pending.Some?
       case EndSweep(n) => p.act.Sweeping? && p.act.pending.None? && p.act.next == |p.node.peers|
       case DeliverAppend(n, args) => p.act.Idle?
       case Client(n, request) => p.act.Idle?
       case Crash(n) => true
  }

  /** What the network must hold: a request to deliver, or the reply to the call in progress,
      unless that call failed. */
  ghost predicate Heard(p: Process, net: set<Message>, step: Step)
    requires Ready(p, step)
  {
    match step
    case TakeVoteReply(n, r) =>
      FailedVote(p.act.request, r) || VoteReply(p.node.peers[p.act.next], p.act.request, r) in net
    case DeliverVote(n, args) => VoteRequest(n, args) in net
    case TakeAppendReply(n, r) =>
      || FailedAppend(p.act.pending.value, r)
      || AppendReply(p.node.peers[p.act.next], p.act.pending.value, r) in net
    case DeliverAppend(n, args) => AppendRequest(n, args) in net
    case _ => true
  }

  ghost predicate Enabled(c: Cluster, step: Step) {
    step.n in c.procs && Ready(c.procs[step.n], step) && Heard(c.procs[step.n], c.net, step)
  }

  /** A heartbeat sweep is meant for leaders (RaftNode.cpp:522); `sendHeartbeats` itself does not look
      at the role again between peers. */
  ghost predicate Guarded(c: Cluster, step: Step) {
    step.SendAppend? && step.n in c.procs ==> c.procs[step.n].node.role == Leader
  }

  /** What one step leaves at the node that takes it, and the message it emits, if any. */
  function Act(p: Process, step: Step): (Process, Option<Message>)
    requires Ready(p, step)
  {
    var s := p.node;
    match step
    case StartElection(n) =>
      var s' := BecomeCandidate(s);
      (Process(s', Electing(0, 1, VoteArgs(s'), false)), None)
    case SendVote(n) =>
      (Process(s, p.act.(waiting := true)), Some(VoteRequest(s.peers[p.act.next], p.act.request)))
    case TakeVoteReply(n, r) =>
      if r.term > s.term then (Process(BecomeFollower(s, r.term), Idle), None)
      else
        (Process(s, Electing(p.act.next + 1, p.act.votes + (if r.voteGranted then 1 else 0), p.act.request, false)), None)
    case CloseElection(n) =>
      if p.act.votes >= Majority(|s.peers|) then (Process(BecomeLeader(s), Sweeping(0, None)), None)
      else (Process(s, Idle), None)
    case DeliverVote(n, args) =>
      var (s', r) := HandleRequestVote(s, args);
      (Process(s', Idle), Some(VoteReply(n, args, r)))
    case StartSweep(n) => (Process(s, Sweeping(0, None)), None)
    case SendAppend(n) =>
      var args := AppendArgs(s, p.act.next);
      (Process(s, p.act.(pending := Some(args))), Some(AppendRequest(s.peers[p.act.next], args)))
    case SkipPeer(n) => (Process(s, Sweeping(p.act.next + 1, None)), None)
    case TakeAppendReply(n, r) =>
      (Process(OnAppendReply(s, p.act.next, p.act.pending.value, r), Sweeping(p.act.next + 1, None)), None)
    case EndSweep(n) => (Process(s, Idle), None)
    case DeliverAppend(n, args) =>
      var (s', r) := HandleAppendEntries(s, args);
      (Process(s', Idle), Some(AppendReply(n, args, r)))
    case Client(n, request) => (Process(HandleClientRequest(s, request).0, Idle), None)
    case Crash(n) => (Process(Restart(s), Idle), None)
  }

  function Do(c: Cluster, step: Step): Cluster
    requires Enabled(c, step)
  {
    var (p, m) := Act(c.procs[step.n], step);
    Cluster(c.procs[step.n := p], if m.Some? then c.net + {m.value} else c.net)
  }

  ghost predicate Next(c: Cluster, c': Cluster) {
    exists step :: Enabled(c, step) && Guarded(c, step) && c' == Do(c, step)
  }

  function Initial(cfg: Config): Cluster
    requires ValidConfig(cfg)
  {
    Cluster(map x | x in cfg.ids :: Process(InitialNode(x, cfg.peers[x]), Idle), {})
  }

  ghost predicate IsRun(cfg: Config, run: seq<Cluster>) {
    && ValidConfig(cfg)
    && |run| >= 1
    && run[0] == Initial(cfg)
    && forall i :: 0 <= i < |run| - 1 ==> Next(run[i], run[i + 1])
  }
}
