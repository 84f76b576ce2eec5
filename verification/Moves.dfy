/** Runs made step by step. */
module Moves {
  import opened Wrappers
  import opened Nodes
  import opened Clusters

  function Now(run: seq<Cluster>): Cluster
    requires run != []
  {
    run[|run| - 1]
  }

  ghost predicate Follows(cfg: Config, run: seq<Cluster>, run': seq<Cluster>) {
    run != [] && run' != [] && IsRun(cfg, run') && run <= run' && Now(run).net <= Now(run').net
  }

  lemma FollowsTrans(cfg: Config, a: seq<Cluster>, b: seq<Cluster>, c: seq<Cluster>)
    requires Follows(cfg, a, b) && Follows(cfg, b, c)
    ensures Follows(cfg, a, c)
  {
  }

  /** One more step, given what it does to the node that takes it. */
  lemma Move(cfg: Config, run: seq<Cluster>, step: Step, p: Process, m: Option<Message>) returns (run': seq<Cluster>)
    requires IsRun(cfg, run) && step.n in Now(run).procs
    requires var q := Now(run).procs[step.n];
      Ready(q, step) && Heard(q, Now(run).net, step) && (step.SendAppend? ==> q.node.role == Leader)
      && Act(q, step) == (p, m)
    ensures Follows(cfg, run, run') && |run'| == |run| + 1
    ensures Now(run') == Cluster(Now(run).procs[step.n := p], if m.Some? then Now(run).net + {m.value} else Now(run).net)
  {
    hide Act, Ready, Heard, Initial, ValidConfig;
    assert Enabled(Now(run), step) && Guarded(Now(run), step);
    run' := run + [Do(Now(run), step)];
    assert Next(Now(run), Do(Now(run), step));
    forall i | 0 <= i < |run'| - 1 ensures Next(run'[i], run'[i + 1]) {
      if i < |run| - 1 {
        assert Next(run[i], run[i + 1]);
      }
    }
  }
}
