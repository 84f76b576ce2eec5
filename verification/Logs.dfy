/** The replicated log as a value (src/raft/Log.cpp). Position 0 holds the dummy entry
    that the C++ constructor pushes, so without compaction position and index agree. */
module Logs {
  import opened ByteCodec

  datatype LogEntry = LogEntry(index: nat, term: nat, data: Bytes)

  type Log = seq<LogEntry>

  const DUMMY: LogEntry := LogEntry(0, 0, [])

  /** An uncompacted log: the dummy, then entries numbered by position. */
  ghost predicate WellIndexed(log: Log) {
    |log| >= 1 && log[0] == DUMMY && forall i :: 0 <= i < |log| ==> log[i].index == i
  }

  function LastIndex(log: Log): nat
    requires |log| >= 1
  {
    |log| - 1
  }

  function LastTerm(log: Log): nat
    requires |log| >= 1
  {
    log[|log| - 1].term
  }

  /** Both logs hold the same entries up to and including position `k`. */
  ghost predicate AgreeTo(a: Log, b: Log, k: nat) {
    k < |a| && k < |b| && a[..k + 1] == b[..k + 1]
  }

  lemma AgreeToAt(a: Log, b: Log, k: nat, i: nat)
    requires AgreeTo(a, b, k) && i <= k
    ensures a[i] == b[i]
  {
    assert a[i] == a[..k + 1][i];
    assert b[i] == b[..k + 1][i];
  }

  lemma AgreeToFrom(a: Log, b: Log, k: nat)
    requires k < |a| && k < |b| && forall i :: 0 <= i <= k ==> a[i] == b[i]
    ensures AgreeTo(a, b, k)
  {
  }

  lemma AgreeToShorter(a: Log, b: Log, k: nat, j: nat)
    requires AgreeTo(a, b, k) && j <= k
    ensures AgreeTo(a, b, j)
  {
    forall i | 0 <= i <= j ensures a[i] == b[i] { AgreeToAt(a, b, k, i); }
  }

  lemma AgreeToTrans(a: Log, b: Log, c: Log, k: nat)
    requires AgreeTo(a, b, k) && AgreeTo(b, c, k)
    ensures AgreeTo(a, c, k)
  {
  }

  // ---- Merging a request into a log ----------------------------------------

  /** The log has an entry of the same term where entry `i` after `prev` belongs. */
  predicate Holds(log: Log, prev: nat, entries: seq<LogEntry>, i: nat)
    requires i < |entries|
  {
    prev + 1 + i < |log| && log[prev + 1 + i].term == entries[i].term
  }

  /** How many leading entries the log already holds after `prev`, judged by term alone. */
  function HeldCount(log: Log, prev: nat, entries: seq<LogEntry>): (n: nat)
    requires prev < |log|
    ensures n <= |entries| && prev + 1 + n <= |log|
    ensures forall i :: 0 <= i < n ==> Holds(log, prev, entries, i)
    ensures n < |entries| ==> !Holds(log, prev, entries, n)
  {
    HeldFrom(log, prev, entries, 0)
  }

  function HeldFrom(log: Log, prev: nat, entries: seq<LogEntry>, from: nat): (n: nat)
    requires from <= |entries| && prev + 1 + from <= |log|
    ensures from <= n <= |entries| && prev + 1 + n <= |log|
    ensures forall i :: from <= i < n ==> Holds(log, prev, entries, i)
    ensures n < |entries| ==> !Holds(log, prev, entries, n)
    decreases |entries| - from
  {
    if from < |entries| && Holds(log, prev, entries, from)
    then HeldFrom(log, prev, entries, from + 1)
    else from
  }

  /** The simple specification of the merge: keep the log if it already holds every entry,
      otherwise cut it at the first entry it lacks and append the rest. */
  function Merge(log: Log, prev: nat, entries: seq<LogEntry>): Log
    requires prev < |log|
  {
    var held := HeldCount(log, prev, entries);
    if held == |entries| then log else log[..prev + 1 + held] + entries[held..]
  }

  /** Entries are numbered consecutively after `prev`. */
  ghost predicate Consecutive(prev: nat, entries: seq<LogEntry>) {
    forall i :: 0 <= i < |entries| ==> entries[i].index == prev + 1 + i
  }

  lemma MergeWellIndexed(log: Log, prev: nat, entries: seq<LogEntry>)
    requires WellIndexed(log) && prev < |log| && Consecutive(prev, entries)
    ensures WellIndexed(Merge(log, prev, entries))
  {
  }

  /** The two logs agree up to any position where their terms agree (Log Matching, as a premise). */
  ghost predicate Matching(a: Log, b: Log) {
    forall k: nat {:trigger AgreeTo(a, b, k)} :: k < |a| && k < |b| && a[k].term == b[k].term ==> AgreeTo(a, b, k)
  }

  /** Merging a slice of a leader's log into a log that matches at `prev`: the log is kept if it has
      the slice already, else it becomes the leader's log up to the end of the slice. */
  lemma MergeFollowsLeader(log: Log, leader: Log, prev: nat, entries: seq<LogEntry>)
    requires Matching(log, leader)
    requires prev < |log| && prev + |entries| < |leader|
    requires log[prev].term == leader[prev].term
    requires entries == leader[prev + 1..prev + 1 + |entries|]
    ensures AgreeTo(Merge(log, prev, entries), leader, prev + |entries|)
    ensures AgreeTo(log, leader, prev + |entries|) ==> Merge(log, prev, entries) == log
    ensures !AgreeTo(log, leader, prev + |entries|) ==> Merge(log, prev, entries) == leader[..prev + |entries| + 1]
  {
    var held := HeldCount(log, prev, entries);
    var at := prev + held;
    if held > 0 {
      assert Holds(log, prev, entries, held - 1);
      assert leader[at] == entries[held - 1];
    }
    assert AgreeTo(log, leader, at);
    if held < |entries| {
      assert leader[at + 1] == entries[held];
      assert Merge(log, prev, entries) == leader[..prev + |entries| + 1];
    }
  }

  /** Merging twice is merging once. */
  lemma MergeIdempotent(log: Log, prev: nat, entries: seq<LogEntry>)
    requires prev < |log|
    ensures prev < |Merge(log, prev, entries)|
    ensures Merge(Merge(log, prev, entries), prev, entries) == Merge(log, prev, entries)
  {
    var once := Merge(log, prev, entries);
    var held := HeldCount(log, prev, entries);
    forall k | 0 <= k < |entries| ensures Holds(once, prev, entries, k) {
      if k < held {
        assert Holds(log, prev, entries, k);
        assert once[prev + 1 + k] == log[prev + 1 + k];
      } else {
        assert once[prev + 1 + k] == entries[k];
      }
    }
  }
}
