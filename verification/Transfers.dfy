/** Snapshots between the nodes of a running cluster: one node takes it, another installs it and goes on. */
module Transfers {
  import opened Wrappers
  import opened ByteCodec
  import opened Replay
  import opened Stores
  import opened Snapshots
  import opened Clusters
  import opened Safety

  /** As far as a node has applied, its replica is the replay of any log applied as far or further. */
  lemma AppliedAlike(cfg: Config, run: seq<Cluster>, i: nat, x: nat, k: nat, z: nat)
    requires IsRun(cfg, run) && At(run, i, x) && At(run, k, z)
    requires Node(run, i, x).lastApplied <= Node(run, k, z).lastApplied
    ensures Node(run, i, x).lastApplied < |Node(run, k, z).log|
    ensures Node(run, i, x).replica == Applied(Node(run, k, z).log, Node(run, i, x).lastApplied)
  {
    hide IsRun, ApplyAll;
    var s, t := Node(run, i, x), Node(run, k, z);
    StateMachineSafety(cfg, run, i, x, k, z, s.lastApplied);
    ReplicaIsReplay(cfg, run, i, x);
    SameReplay(s.log, t.log, s.lastApplied);
  }

  /** Node x calls `takeSnapshot(u)`, node y installs the bytes and applies the entries that node z has
      applied, at whatever moments of the run: y executes what z has executed if and only if nothing that
      takes effect lies between, and then has z's store. */
  lemma SnapshotTransferIff(cfg: Config, run: seq<Cluster>, i: nat, x: nat, j: nat, y: nat, k: nat, z: nat,
                            u: nat, order: seq<Bytes>)
    requires IsRun(cfg, run) && At(run, i, x) && At(run, j, y) && At(run, k, z)
    requires u <= Node(run, i, x).lastApplied
    requires Max(Node(run, i, x).lastApplied, Node(run, j, y).lastApplied) <= Node(run, k, z).lastApplied
    requires var store := Node(run, i, x).replica.store;
      Enumerates(order, store) && |store| < TWO_TO_64 && ShortStrings(store)
    ensures var s, r, t := Node(run, i, x), Node(run, j, y), Node(run, k, z);
      var l, a, n := s.lastApplied, r.lastApplied, t.lastApplied;
      && n < |t.log|
      && (Performed(t.log, a, u, l, n) == Effective(t.log[1..n + 1]) <==> Harmless(t.log, a, u, l, n))
      && var installed := Installed(r.replica, a, SnapshotImage(s.replica.store, order), u);
      && installed.Some? && installed.value.1 == Max(a, u)
      && var replayed := ApplyAll(installed.value.0, t.log[Max(a, u) + 1..n + 1]).store;
      && replayed == Execute(map[], Performed(t.log, a, u, l, n))
      && (Harmless(t.log, a, u, l, n) ==> replayed == t.replica.store)
  {
    hide IsRun, Applied, Performed, Harmless, Effective, Execute, ApplyAll, Installed, SnapshotImage, Enumerates, ShortStrings;
    var s, r, t := Node(run, i, x), Node(run, j, y), Node(run, k, z);
    AppliedAlike(cfg, run, i, x, k, z);
    AppliedAlike(cfg, run, j, y, k, z);
    StoreIsExecutionOfEffective(cfg, run, k, z);
    InstallIsReplayIff(t.log, r.lastApplied, u, s.lastApplied, t.lastApplied);
    InstalledRun(t.log, r.lastApplied, u, s.lastApplied, t.lastApplied, order);
  }
}
