/** The log class with its compaction (src/raft/Log.cpp), and what compaction does to the answers. */
module RaftLogs {
  import opened Wrappers
  import opened Logs

  /** The fields of the class. Entry 0 is the dummy or, after compaction, the base. */
  datatype Stored = Stored(entries: seq<LogEntry>, snapshotIndex: nat, snapshotTerm: nat)

  const FRESH: Stored := Stored([DUMMY], 0, 0)

  function Last(s: Stored): LogEntry
    requires s.entries != []
  {
    s.entries[|s.entries| - 1]
  }

  /** `None` where `append` throws. */
  function Appended(s: Stored, e: LogEntry): Option<Stored>
    requires s.entries != []
  {
    if e.index != Last(s).index + 1 then None else Some(s.(entries := s.entries + [e]))
  }

  /** `truncate`: `index` is taken as a position. Nothing happens to index 0, where the code throws. */
  function Truncated(s: Stored, index: nat): Stored {
    if index == 0 || index >= |s.entries| then s else s.(entries := s.entries[..index])
  }

  /** What `truncate` would do if it allowed for the snapshot, as `getEntry` does. */
  function OffsetTruncated(s: Stored, index: nat): Stored {
    if index <= s.snapshotIndex then s
    else Stored(Truncated(s, index - s.snapshotIndex).entries, s.snapshotIndex, s.snapshotTerm)
  }

  function EntryAt(s: Stored, index: nat): Option<LogEntry> {
    if index <= s.snapshotIndex || index - s.snapshotIndex >= |s.entries| then None
    else Some(s.entries[index - s.snapshotIndex])
  }

  /** `getTerm`: `index` is taken as a position. */
  function TermAt(s: Stored, index: nat): nat {
    if index >= |s.entries| then 0 else s.entries[index].term
  }

  function Discarded(s: Stored, index: nat, term: nat): Stored {
    if index <= s.snapshotIndex then s
    else
      var kept := if index - s.snapshotIndex >= |s.entries| then [] else s.entries[index - s.snapshotIndex..];
      var based := if kept == [] || kept[0].index != index then [LogEntry(index, term, [])] + kept else kept;
      Stored(based, index, term)
  }

  // ---- Transparency ------------------------------------------------------------------

  /** The stored log is the uncompacted log `full` with everything up to the snapshot forgotten
      except the index and term there. */
  ghost predicate Represents(s: Stored, full: Log) {
    && WellIndexed(full)
    && s.snapshotIndex < |full|
    && |s.entries| == |full| - s.snapshotIndex
    && s.entries[0].index == s.snapshotIndex
    && s.entries[0].term == s.snapshotTerm == full[s.snapshotIndex].term
    && forall k :: 1 <= k < |s.entries| ==> s.entries[k] == full[s.snapshotIndex + k]
  }

  /** Every entry is where its index says: Entries[k].index == snapshotIndex + k. */
  lemma IndexedFromBase(s: Stored, full: Log)
    requires Represents(s, full)
    ensures s.entries != []
    ensures forall k :: 0 <= k < |s.entries| ==> s.entries[k].index == s.snapshotIndex + k
  {
    forall k | 0 <= k < |s.entries| ensures s.entries[k].index == s.snapshotIndex + k {
      if k > 0 {
        assert s.entries[k] == full[s.snapshotIndex + k];
      }
    }
  }

  /** Above the snapshot every question is answered as the uncompacted log answers it. */
  lemma SameAnswers(s: Stored, full: Log, index: nat)
    requires Represents(s, full)
    ensures Last(s).index == LastIndex(full) && Last(s).term == LastTerm(full)
    ensures EntryAt(s, index) == if s.snapshotIndex < index < |full| then Some(full[index]) else None
  {
    IndexedFromBase(s, full);
    if s.snapshotIndex < index < |full| {
      assert s.entries[index - s.snapshotIndex] == full[s.snapshotIndex + (index - s.snapshotIndex)];
    }
  }

  lemma AppendRepresents(s: Stored, full: Log, e: LogEntry)
    requires Represents(s, full)
    ensures Appended(s, e).Some? <==> e.index == |full|
    ensures Appended(s, e).Some? ==> Represents(Appended(s, e).value, full + [e])
  {
    SameAnswers(s, full, 0);
  }

  lemma OffsetTruncateRepresents(s: Stored, full: Log, index: nat)
    requires Represents(s, full) && s.snapshotIndex < index
    ensures Represents(OffsetTruncated(s, index), if index < |full| then full[..index] else full)
  {
  }

  /** `truncate` as written does its job above a snapshot if and only if there is no snapshot. */
  lemma TruncateSoundIff(s: Stored, full: Log, index: nat)
    requires Represents(s, full) && s.snapshotIndex < index < |full|
    ensures Represents(Truncated(s, index), full[..index]) <==> s.snapshotIndex == 0
  {
    if s.snapshotIndex == 0 {
      OffsetTruncateRepresents(s, full, index);
    }
  }

  /** `getTerm` as written answers right from the base up if and only if there is no snapshot: above one,
      the last index falls past the end of the vector and is answered with 0. */
  lemma TermSoundIff(s: Stored, full: Log)
    requires Represents(s, full)
    requires forall i :: 0 < i < |full| ==> full[i].term > 0
    ensures (forall i :: s.snapshotIndex <= i < |full| ==> TermAt(s, i) == full[i].term) <==> s.snapshotIndex == 0
  {
    if s.snapshotIndex == 0 {
      forall i | 0 <= i < |full| ensures TermAt(s, i) == full[i].term {
        if i > 0 {
          assert s.entries[i] == full[0 + i];
        }
      }
    } else {
      assert TermAt(s, LastIndex(full)) == 0;
    }
  }

  /** Discarding up to an entry the log has changes no answer if and only if the term given is the
      entry's own; the code does not compare them. */
  lemma DiscardRepresentsIff(s: Stored, full: Log, index: nat, term: nat)
    requires Represents(s, full) && s.snapshotIndex < index < |full|
    ensures Represents(Discarded(s, index, term), full) <==> term == full[index].term
  {
    IndexedFromBase(s, full);
    assert s.entries[index - s.snapshotIndex] == full[s.snapshotIndex + (index - s.snapshotIndex)];
    var s' := Discarded(s, index, term);
    if term == full[index].term {
      forall k | 1 <= k < |s'.entries| ensures s'.entries[k] == full[index + k] {
        assert s'.entries[k] == s.entries[index - s.snapshotIndex + k];
        assert s.entries[index - s.snapshotIndex + k] == full[s.snapshotIndex + (index - s.snapshotIndex + k)];
      }
    }
  }

  /** `takeSnapshot` asks `getTerm`, by position, for the term it passes on. On a log compacted before,
      that is the term of another entry, or 0 past the vector's end; the log still stands for the whole
      one if and only if the two terms happen to be equal. */
  lemma CompactAgainRepresentsIff(s: Stored, full: Log, index: nat)
    requires Represents(s, full) && s.snapshotIndex < index < |full|
    ensures Represents(Discarded(s, index, TermAt(s, index)), full)
            <==> full[index].term == if s.snapshotIndex + index < |full| then full[s.snapshotIndex + index].term else 0
  {
    DiscardRepresentsIff(s, full, index, TermAt(s, index));
    if index < |s.entries| {
      assert s.entries[index] == full[s.snapshotIndex + index];
    }
  }

  /** Discarding past the end leaves the base of whatever log has that entry last. */
  lemma DiscardPastEnd(s: Stored, full: Log, index: nat, term: nat, other: Log)
    requires Represents(s, full) && index >= |full|
    requires WellIndexed(other) && |other| == index + 1 && other[index].term == term
    ensures Represents(Discarded(s, index, term), other)
  {
  }

  // ---- Whole runs ----------------------------------------------------------------------

  datatype Op = Append(entry: LogEntry) | Truncate(index: nat) | Discard(upTo: nat, term: nat)

  /** The operation is one the transparency claim covers, on a log that stands for `full`. */
  ghost predicate Proper(full: Log, snapshotIndex: nat, op: Op) {
    match op
    case Append(e) => e.index == |full|
    case Truncate(index) => snapshotIndex < index
    case Discard(upTo, term) => upTo < |full| && (snapshotIndex < upTo ==> full[upTo].term == term)
  }

  function OnPlain(full: Log, op: Op): Log {
    match op
    case Append(e) => full + [e]
    case Truncate(index) => if index < |full| then full[..index] else full
    case Discard(_, _) => full
  }

  function OnStored(s: Stored, op: Op): Stored
    requires s.entries != []
  {
    match op
    case Append(e) => if Appended(s, e).Some? then Appended(s, e).value else s
    case Truncate(index) => OffsetTruncated(s, index)
    case Discard(upTo, term) => Discarded(s, upTo, term)
  }

  lemma OpRepresents(s: Stored, full: Log, op: Op)
    requires Represents(s, full) && Proper(full, s.snapshotIndex, op)
    ensures Represents(OnStored(s, op), OnPlain(full, op))
  {
    match op {
      case Append(e) => AppendRepresents(s, full, e);
      case Truncate(index) => OffsetTruncateRepresents(s, full, index);
      case Discard(upTo, term) =>
        if s.snapshotIndex < upTo {
          DiscardRepresentsIff(s, full, upTo, term);
        }
    }
  }

  /** A sequence of proper operations, and what both logs come to. */
  ghost predicate ProperRun(s: Stored, full: Log, ops: seq<Op>)
    requires s.entries != []
    decreases |ops|
  {
    ops == [] ||
    (Proper(full, s.snapshotIndex, ops[0])
     && OnStored(s, ops[0]).entries != []
     && ProperRun(OnStored(s, ops[0]), OnPlain(full, ops[0]), ops[1..]))
  }

  function PlainAfter(full: Log, ops: seq<Op>): Log
    decreases |ops|
  {
    if ops == [] then full else PlainAfter(OnPlain(full, ops[0]), ops[1..])
  }

  ghost function StoredAfter(s: Stored, full: Log, ops: seq<Op>): Stored
    requires s.entries != [] && ProperRun(s, full, ops)
    decreases |ops|
  {
    if ops == [] then s else StoredAfter(OnStored(s, ops[0]), OnPlain(full, ops[0]), ops[1..])
  }

  /** Compaction is transparent: after any run of appends, truncations above the snapshot and discards,
      the compacted log stands for the log that was never compacted. */
  lemma {:induction false} CompactionTransparent(s: Stored, full: Log, ops: seq<Op>)
    requires Represents(s, full) && ProperRun(s, full, ops)
    ensures Represents(StoredAfter(s, full, ops), PlainAfter(full, ops))
    decreases |ops|
  {
    if ops != [] {
      OpRepresents(s, full, ops[0]);
      CompactionTransparent(OnStored(s, ops[0]), OnPlain(full, ops[0]), ops[1..]);
    }
  }

  lemma FreshRepresents()
    ensures Represents(FRESH, [DUMMY])
  {
  }

  // ---- The code --------------------------------------------------------------------------

  class RaftLog {
    var entries: seq<LogEntry>
    var snapshotIndex: nat
    var snapshotTerm: nat

    function State(): Stored
      reads this
    {
      Stored(entries, snapshotIndex, snapshotTerm)
    }

    constructor ()
      ensures State() == FRESH
    {
      entries, snapshotIndex, snapshotTerm := [DUMMY], 0, 0;
    }

    /** `ok` is false where the C++ code throws; then nothing has changed. */
    method Append(e: LogEntry) returns (ok: bool)
      requires entries != []
      modifies this
      ensures ok <==> Appended(old(State()), e).Some?
      ensures State() == if ok then Appended(old(State()), e).value else old(State())
    {
      var expectedIndex := entries[|entries| - 1].index + 1;
      if e.index != expectedIndex {
        return false;
      }
      entries := entries + [e];
      ok := true;
    }

    method Truncate(index: nat) returns (ok: bool)
      modifies this
      ensures ok <==> index != 0
      ensures State() == Truncated(old(State()), index)
    {
      if index == 0 {
        return false;
      }
      if index < |entries| {
        entries := entries[..index];
      }
      ok := true;
    }

    method GetEntry(index: nat) returns (e: Option<LogEntry>)
      ensures e == EntryAt(State(), index)
    {
      if index <= snapshotIndex {
        return None;
      }
      var vectorIndex := index - snapshotIndex;
      if vectorIndex >= |entries| {
        return None;
      }
      e := Some(entries[vectorIndex]);
    }

    method DiscardEntriesUpTo(index: nat, term: nat)
      modifies this
      ensures State() == Discarded(old(State()), index, term)
    {
      if index <= snapshotIndex {
        return;
      }
      var vectorIndex := index - snapshotIndex;
      if vectorIndex >= |entries| {
        entries := [];
      } else {
        entries := entries[vectorIndex..];
      }
      snapshotIndex := index;
      snapshotTerm := term;
      if entries == [] || entries[0].index != snapshotIndex {
        entries := [LogEntry(snapshotIndex, snapshotTerm, [])] + entries;
      }
    }

    method GetTerm(index: nat) returns (term: nat)
      ensures term == TermAt(State(), index)
    {
      if index >= |entries| {
        return 0;
      }
      term := entries[index].term;
    }

    method GetLastIndex() returns (index: nat)
      requires entries != []
      ensures index == Last(State()).index
    {
      index := entries[|entries| - 1].index;
    }

    method GetLastTerm() returns (term: nat)
      requires entries != []
      ensures term == Last(State()).term
    {
      term := entries[|entries| - 1].term;
    }
  }
}
