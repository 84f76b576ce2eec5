/** The append handler for any request at all (src/raft/RaftNode.cpp:119-210), even one whose entries are
    not numbered by their place, on which an append throws out of the middle of it. */
module Handlers {
  import opened Wrappers
  import opened Logs
  import opened Replay
  import opened Nodes
  import opened Durability

  // ---- The merge -------------------------------------------------------------------------

  /** The first entry from `from` on that is not numbered by its place after `prev`. */
  function FirstMisnumbered(prev: nat, entries: seq<LogEntry>, from: nat): (n: nat)
    requires from <= |entries|
    ensures from <= n <= |entries|
    ensures forall i :: from <= i < n ==> entries[i].index == prev + 1 + i
    ensures n < |entries| ==> entries[n].index != prev + 1 + n
    decreases |entries| - from
  {
    if from < |entries| && entries[from].index == prev + 1 + from then FirstMisnumbered(prev, entries, from + 1)
    else from
  }

  /** The merge for any entries at all: it stops, throwing, at the first misnumbered entry it would
      have to append. */
  function MergeRun(log: Log, prev: nat, entries: seq<LogEntry>): (Log, bool)
    requires prev < |log|
  {
    var held := HeldCount(log, prev, entries);
    if held == |entries| then (log, false)
    else
      var stop := FirstMisnumbered(prev, entries, held);
      (log[..prev + 1 + held] + entries[held..stop], stop < |entries|)
  }

  /** It refines the simple merge exactly when every entry that has to be appended is in place. */
  lemma MergeRunRefinesMergeIff(log: Log, prev: nat, entries: seq<LogEntry>)
    requires prev < |log|
    ensures !MergeRun(log, prev, entries).1
            <==> forall i :: HeldCount(log, prev, entries) <= i < |entries| ==> entries[i].index == prev + 1 + i
    ensures !MergeRun(log, prev, entries).1 ==> MergeRun(log, prev, entries).0 == Merge(log, prev, entries)
  {
  }

  /** Where the merge stops, or the number of entries. */
  function MergeStop(log: Log, prev: nat, entries: seq<LogEntry>): (n: nat)
    requires prev < |log|
    ensures n <= |entries|
  {
    FirstMisnumbered(prev, entries, HeldCount(log, prev, entries))
  }

  /** The log after the first `i` entries. */
  function MergedTo(log: Log, prev: nat, entries: seq<LogEntry>, i: nat): Log
    requires prev < |log| && i <= |entries|
  {
    var held := HeldCount(log, prev, entries);
    if i <= held then log else log[..prev + 1 + held] + entries[held..i]
  }

  lemma MergedOneMore(log: Log, prev: nat, entries: seq<LogEntry>, i: nat)
    requires prev < |log| && i < |entries| && i <= MergeStop(log, prev, entries)
    ensures var before, at := MergedTo(log, prev, entries, i), prev + 1 + i;
      && at <= |before|
      && if at < |before| && before[at].term == entries[i].term
         then i < MergeStop(log, prev, entries) && MergedTo(log, prev, entries, i + 1) == before
         else
           && (entries[i].index == at <==> i < MergeStop(log, prev, entries))
           && MergedTo(log, prev, entries, i + 1) == before[..at] + [entries[i]]
  {
    var held := HeldCount(log, prev, entries);
    if i < held {
      assert Holds(log, prev, entries, i);
    } else {
      assert entries[held..i + 1] == entries[held..i] + [entries[i]];
    }
  }

  lemma MergeRunIs(log: Log, prev: nat, entries: seq<LogEntry>)
    requires prev < |log|
    ensures MergedTo(log, prev, entries, 0) == log
    ensures var stop := MergeStop(log, prev, entries);
      && var reached := MergedTo(log, prev, entries, stop);
      if stop == |entries| then MergeRun(log, prev, entries) == (reached, false)
      else prev + 1 + stop <= |reached| && MergeRun(log, prev, entries) == (reached[..prev + 1 + stop], true)
  {
    var held, stop := HeldCount(log, prev, entries), MergeStop(log, prev, entries);
    if held < |entries| {
      assert MergedTo(log, prev, entries, stop)[..prev + 1 + stop] == log[..prev + 1 + held] + entries[held..stop];
    }
  }

  lemma NothingToMerge(log: Log, prev: nat)
    requires prev < |log|
    ensures MergeRun(log, prev, []) == (log, false)
  {
  }

  // ---- The handler -------------------------------------------------------------------------

  /** New state, and the reply unless the handler throws. */
  function Handled(s: NodeState, args: AppendEntriesArgs): (NodeState, Option<AppendEntriesReply>)
    requires |s.log| >= 1
  {
    var t := StepDownFor(s, args);
    if args.term >= s.term && Conflict(t.log, args, t.term).None? && MergeRun(t.log, args.prevLogIndex, args.entries).1
    then (t.(log := MergeRun(t.log, args.prevLogIndex, args.entries).0), None)
    else
      var (s', reply) := HandleAppendEntries(s, args);
      (s', Some(reply))
  }

  /** It throws if and only if it gets as far as the merge and an entry it has to append is misnumbered;
      otherwise it is the handler of the cluster's steps. */
  lemma HandlerThrowsIff(s: NodeState, args: AppendEntriesArgs)
    requires |s.log| >= 1
    ensures Handled(s, args).1.None?
            <==> && args.term >= s.term && Conflict(s.log, args, args.term).None?
                 && exists i :: HeldCount(s.log, args.prevLogIndex, args.entries) <= i < |args.entries|
                                && args.entries[i].index != args.prevLogIndex + 1 + i
    ensures Handled(s, args).1.Some? ==>
      Handled(s, args) == (HandleAppendEntries(s, args).0, Some(HandleAppendEntries(s, args).1))
  {
    hide MergeRun;
    if args.term >= s.term && Conflict(s.log, args, args.term).None? {
      MergeRunRefinesMergeIff(s.log, args.prevLogIndex, args.entries);
    }
  }

  /** For any request: the term afterwards is the greater of the two, a follower's vote stands within its
      term, and the log changes only by the merge, as far as that gets, after the check has passed. */
  lemma HandlerFrame(s: NodeState, args: AppendEntriesArgs)
    requires |s.log| >= 1
    ensures var s' := Handled(s, args).0;
      && s'.term == Max(s.term, args.term)
      && (s'.term == s.term && s.role == Follower ==> s'.votedFor == s.votedFor)
      && (s'.log == s.log
          || (args.term >= s.term && Conflict(s.log, args, args.term).None?
              && args.prevLogIndex < |s.log|
              && s'.log == MergeRun(s.log, args.prevLogIndex, args.entries).0))
  {
    hide MergeRun, HandleAppendEntries, Merge;
    HandleAppendFrame(s, args);
    if args.prevLogIndex < |s.log| {
      MergeRunRefinesMergeIff(s.log, args.prevLogIndex, args.entries);
    }
  }

  // ---- Repeated requests ---------------------------------------------------------------------

  /** The handler after it has stepped down. */
  function Answered(t: NodeState, args: AppendEntriesArgs): (NodeState, Option<AppendEntriesReply>)
    requires |t.log| >= 1
  {
    var conflict := Conflict(t.log, args, t.term);
    if conflict.Some? then (t, conflict)
    else if MergeRun(t.log, args.prevLogIndex, args.entries).1
    then (t.(log := MergeRun(t.log, args.prevLogIndex, args.entries).0), None)
    else (Accept(t, args), Some(AppendEntriesReply(t.term, true, 0, 0)))
  }

  lemma HandledIs(s: NodeState, args: AppendEntriesArgs)
    requires |s.log| >= 1 && args.term >= s.term
    ensures Handled(s, args) == Answered(StepDownFor(s, args), args)
  {
    hide Conflict, MergeRun, Accept;
  }

  /** A node that has stepped down for a request. */
  predicate SteppedDown(t: NodeState, args: AppendEntriesArgs) {
    t.term == args.term && t.role == Follower && t.leaderId == args.leaderId
  }

  lemma StepsDownOnce(s: NodeState, args: AppendEntriesArgs)
    requires args.term >= s.term
    ensures SteppedDown(StepDownFor(s, args), args)
    ensures SteppedDown(s, args) ==> StepDownFor(s, args) == s
    ensures StepDownFor(s, args).log == s.log
  {
  }

  /** Handling any request again right away changes nothing and answers, or throws, as before. */
  lemma RepeatedRequestChangesNothing(s: NodeState, args: AppendEntriesArgs)
    requires |s.log| >= 1
    ensures var (s', r) := Handled(s, args);
      |s'.log| >= 1 && Handled(s', args) == (s', r)
  {
    if args.term >= s.term {
      hide Handled, Answered, StepDownFor, SteppedDown;
      var t := StepDownFor(s, args);
      StepsDownOnce(s, args);
      HandledIs(s, args);
      AnsweredTwice(t, args);
      var u := Answered(t, args).0;
      StepsDownOnce(u, args);
      HandledIs(u, args);
    }
  }

  lemma AnsweredTwice(t: NodeState, args: AppendEntriesArgs)
    requires |t.log| >= 1 && SteppedDown(t, args)
    ensures var (u, r) := Answered(t, args);
      |u.log| >= 1 && SteppedDown(u, args) && u.term == t.term && Answered(u, args) == (u, r)
  {
    hide MergeRun, Accept, Merge;
    if Conflict(t.log, args, t.term).None? {
      MergeRunRefinesMergeIff(t.log, args.prevLogIndex, args.entries);
      if MergeRun(t.log, args.prevLogIndex, args.entries).1 {
        ThrowsAgain(t.log, args.prevLogIndex, args.entries);
      } else {
        AcceptedTwice(t, args);
        AcceptFrame(t, args);
        MergesAgain(t.log, args.prevLogIndex, args.entries);
      }
    }
  }

  /** A merge that ran through runs through again. */
  lemma MergesAgain(log: Log, prev: nat, entries: seq<LogEntry>)
    requires prev < |log| && !MergeRun(log, prev, entries).1
    ensures var merged := Merge(log, prev, entries);
      prev < |merged| && !MergeRun(merged, prev, entries).1
  {
    var merged := Merge(log, prev, entries);
    MergeIdempotent(log, prev, entries);
    MergeRunRefinesMergeIff(log, prev, entries);
    MergeRunRefinesMergeIff(merged, prev, entries);
  }

  /** An append that threw throws again, over the log it left. */
  lemma ThrowsAgain(log: Log, prev: nat, entries: seq<LogEntry>)
    requires prev < |log| && MergeRun(log, prev, entries).1
    ensures var left := MergeRun(log, prev, entries).0;
      prev < |left| && left[prev] == log[prev] && MergeRun(left, prev, entries) == (left, true)
  {
    var held, stop := HeldCount(log, prev, entries), MergeStop(log, prev, entries);
    var left := MergeRun(log, prev, entries).0;
    forall i | 0 <= i < stop ensures Holds(left, prev, entries, i) {
      if i < held {
        assert Holds(log, prev, entries, i);
      }
    }
    assert !Holds(left, prev, entries, stop);
    assert HeldCount(left, prev, entries) == stop;
    assert left[..prev + 1 + stop] + entries[stop..stop] == left;
  }

  lemma AcceptedTwice(t: NodeState, args: AppendEntriesArgs)
    requires args.prevLogIndex < |t.log| && Conflict(t.log, args, t.term).None?
    ensures var u := Accept(t, args);
      && args.prevLogIndex < |u.log| && u == t.(log := u.log, disk := u.disk, commitIndex := u.commitIndex,
                                                lastApplied := u.lastApplied, replica := u.replica)
      && Conflict(u.log, args, u.term).None? && Accept(u, args) == u
  {
    hide ApplyAll, Merge, HeldCount;
    MergeKeepsPrevious(t.log, args.prevLogIndex, args.entries);
    MergeIdempotent(t.log, args.prevLogIndex, args.entries);
  }

  lemma MergeKeepsPrevious(log: Log, prev: nat, entries: seq<LogEntry>)
    requires prev < |log|
    ensures prev < |Merge(log, prev, entries)| && Merge(log, prev, entries)[prev] == log[prev]
  {
  }
}
