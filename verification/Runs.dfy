/** Every run of the cluster can be watched by a history that keeps the invariant. */
module Runs {
  import opened Wrappers
  import opened Nodes
  import opened Clusters
  import opened Histories
  import opened Growth
  import opened Invariants
  import opened Elections
  import opened Winning
  import opened Replication
  import opened Acceptance

  /** What the observer notes of a step; the step itself does not depend on it. */
  ghost function Observe(h: History, p: Process, step: Step): History
    requires Ready(p, step)
  {
    match step
    case StartElection(n) => Bid(h, p.node.term + 1, n, p.node.log)
    case CloseElection(n) => if p.act.votes >= Majority(|p.node.peers|) then Win(h, p.node) else h
    case DeliverVote(n, args) => ObserveVote(h, n, p.node, args)
    case DeliverAppend(n, args) => ObserveAppend(h, n, p.node, args)
    case Client(n, request) => ObserveClient(h, n, p.node, request)
    case _ => h
  }

  lemma ActKeeps(cfg: Config, h: History, p: Process, net: set<Message>, step: Step)
    requires HistoryInv(cfg, h) && NodeOk(cfg, h, step.n, p)
    requires Ready(p, step) && Heard(p, net, step)
    requires step.SendAppend? ==> p.node.role == Leader
    requires forall m {:trigger MessageOk(cfg, h, m)} :: m in net ==> MessageOk(cfg, h, m)
    ensures var (p', m) := Act(p, step); Outcome(cfg, h, Observe(h, p, step), step.n, p', m)
  {
    hide HistoryInv, NodeOk, Outcome, Bid, ObserveVote, ObserveAppend, ObserveClient, Win,
         HandleRequestVote, HandleAppendEntries, HandleClientRequest, OnAppendReply, Restart;
    match step {
      case StartElection(n) => StartElectionKeeps(cfg, h, n, p);
      case SendVote(n) => SendVoteKeeps(cfg, h, n, p);
      case TakeVoteReply(n, r) => TakeVoteReplyKeeps(cfg, h, n, p, r, net);
      case CloseElection(n) => CloseElectionKeeps(cfg, h, n, p);
      case DeliverVote(n, args) =>
        assert MessageOk(cfg, h, VoteRequest(n, args));
        DeliverVoteKeeps(cfg, h, n, p, args);
      case StartSweep(n) => QuietKeeps(cfg, h, n, p, step);
      case SendAppend(n) => SendAppendKeeps(cfg, h, n, p);
      case SkipPeer(n) => QuietKeeps(cfg, h, n, p, step);
      case TakeAppendReply(n, r) => TakeAppendReplyKeeps(cfg, h, n, p, r, net);
      case EndSweep(n) => QuietKeeps(cfg, h, n, p, step);
      case DeliverAppend(n, args) =>
        assert MessageOk(cfg, h, AppendRequest(n, args));
        DeliverAppendKeeps(cfg, h, n, p, args);
      case Client(n, request) => ClientKeeps(cfg, h, n, p, request);
      case Crash(n) => CrashKeeps(cfg, h, n, p);
    }
  }

  /** The invariant is inductive. */
  lemma StepKeeps(cfg: Config, c: Cluster, h: History, step: Step)
    requires Inv(cfg, c, h) && Enabled(c, step) && Guarded(c, step)
    ensures Inv(cfg, Do(c, step), Observe(h, c.procs[step.n], step))
    ensures GrowsAt(h, Observe(h, c.procs[step.n], step), step.n, Do(c, step).procs[step.n].node.term)
  {
    var p := c.procs[step.n];
    var (p', m) := Act(p, step);
    var h' := Observe(h, p, step);
    assert NodeOk(cfg, h, step.n, c.procs[step.n]);
    ActKeeps(cfg, h, p, c.net, step);
    OutcomeIsInv(cfg, c, h, h', step.n, p', m);
  }

  lemma OutcomeIsInv(cfg: Config, c: Cluster, h: History, h': History, n: nat, p': Process, m: Option<Message>)
    requires Inv(cfg, c, h) && n in c.procs
    requires Outcome(cfg, h, h', n, p', m)
    ensures Inv(cfg, Cluster(c.procs[n := p'], if m.Some? then c.net + {m.value} else c.net), h')
  {
    hide HistoryInv, NodeOk, MessageOk, GrowsAt;
    var c' := Cluster(c.procs[n := p'], if m.Some? then c.net + {m.value} else c.net);
    forall x | x in c'.procs ensures NodeOk(cfg, h', x, c'.procs[x]) {
      if x != n {
        assert NodeOk(cfg, h, x, c.procs[x]);
        NodeStable(cfg, h, h', n, p'.node.term, x, c.procs[x]);
      }
    }
    forall a | a in c'.net ensures MessageOk(cfg, h', a) {
      if a in c.net {
        assert MessageOk(cfg, h, a);
        GrowsExtends(h, h', n, p'.node.term);
        MessageStable(cfg, h, h', a);
      }
    }
  }

  lemma InitialInv(cfg: Config)
    requires ValidConfig(cfg)
    ensures Inv(cfg, Initial(cfg), NO_HISTORY)
  {
    forall x | x in cfg.ids ensures NodeOk(cfg, NO_HISTORY, x, Process(InitialNode(x, cfg.peers[x]), Idle)) {
      var s := InitialNode(x, cfg.peers[x]);
      assert s.log[1..1] == [];
    }
  }

  // ---- Watching a run ---------------------------------------------------------------

  /** A history for every state of the run. */
  ghost predicate Watched(cfg: Config, run: seq<Cluster>, hs: seq<History>) {
    && |hs| == |run|
    && (forall i {:trigger hs[i]} :: 0 <= i < |run| ==> Inv(cfg, run[i], hs[i]))
    && (forall i, j {:trigger hs[i], hs[j]} :: 0 <= i <= j < |run| ==> Extends(hs[i], hs[j]))
  }

  lemma {:induction false} Watch(cfg: Config, run: seq<Cluster>) returns (hs: seq<History>)
    requires IsRun(cfg, run)
    ensures Watched(cfg, run, hs)
  {
    hide Inv, Extends, Observe, Ready, Heard, Act, ValidConfig;
    if |run| == 1 {
      InitialInv(cfg);
      hs := [NO_HISTORY];
      ExtendsSelf(NO_HISTORY);
    } else {
      var n := |run| - 1;
      var init := run[..n];
      assert IsRun(cfg, init) by {
        forall i | 0 <= i < |init| - 1 ensures Next(init[i], init[i + 1]) {
          assert Next(run[i], run[i + 1]);
        }
      }
      var before := Watch(cfg, init);
      assert Next(run[n - 1], run[n - 1 + 1]);
      var step :| Enabled(run[n - 1], step) && Guarded(run[n - 1], step) && run[n] == Do(run[n - 1], step);
      assert run[n - 1] == init[n - 1];
      var h, h' := before[n - 1], Observe(before[n - 1], run[n - 1].procs[step.n], step);
      StepKeeps(cfg, run[n - 1], h, step);
      GrowsExtends(h, h', step.n, run[n].procs[step.n].node.term);
      hs := before + [h'];
      forall i, j | 0 <= i <= j < |run| ensures Extends(hs[i], hs[j]) {
        if j == n {
          ExtendsSelf(h');
          if i < n {
            assert hs[i] == before[i];
            ExtendsTrans(before[i], h, h');
          }
        }
      }
      forall i | 0 <= i < |run| ensures Inv(cfg, run[i], hs[i]) {
        if i < n {
          assert run[i] == init[i] && hs[i] == before[i];
        }
      }
    }
  }

  lemma ExtendsSelf(h: History)
    ensures Extends(h, h)
  {
  }
}
