/** The state file (src/raft/RaftPersistence.cpp): term, vote, snapshot position and log, as bytes. */
module Persistence {
  import opened Wrappers
  import opened ByteCodec
  import opened Logs
  import opened RaftLogs
  import opened Nodes

  /** The longest vector the C++ library will allocate. */
  const MAX_VECTOR: nat := 0x7FFF_FFFF_FFFF_FFFF

  // ---- Layout --------------------------------------------------------------------

  function EntryImage(e: LogEntry): Bytes {
    LittleEndian(e.index, 8) + LittleEndian(e.term, 8) + LittleEndian(|e.data|, 8) + e.data
  }

  /** Entries `from` .. `last`, as far as the log has them. */
  function EntriesImage(s: Stored, from: nat, last: nat): Bytes
    decreases last + 1 - from
  {
    if from > last || EntryAt(s, from).None? then []
    else EntryImage(EntryAt(s, from).value) + EntriesImage(s, from + 1, last)
  }

  function EntryCount(s: Stored): nat
    requires s.entries != []
  {
    if Last(s).index >= s.snapshotIndex + 1 then Last(s).index - s.snapshotIndex else 0
  }

  function LogImage(s: Stored): Bytes
    requires s.entries != []
  {
    LittleEndian(EntryCount(s), 8) + EntriesImage(s, s.snapshotIndex + 1, Last(s).index)
  }

  function StateImage(term: nat, votedFor: nat, s: Stored): Bytes
    requires s.entries != []
  {
    LittleEndian(term, 8) + LittleEndian(votedFor, 8)
    + LittleEndian(s.snapshotIndex, 8) + LittleEndian(s.snapshotTerm, 8)
    + LittleEndian(|LogImage(s)|, 8) + LogImage(s)
  }

  // ---- Parsing --------------------------------------------------------------------

  function ParseEntry(input: Bytes): Parsed<LogEntry> {
    var index := ParseUint(input, 8);
    if index.Underrun? then Underrun
    else
      var term := ParseUint(index.rest, 8);
      if term.Underrun? then Underrun
      else
        var size := ParseUint(term.rest, 8);
        if size.Underrun? || size.value > |size.rest| then Underrun
        else Parsed(LogEntry(index.value, term.value, size.rest[..size.value]), size.rest[size.value..])
  }

  /** Reads n entries onto the log; `None` where the code throws. */
  function ParseEntries(input: Bytes, n: nat, s: Stored): Option<Stored>
    requires s.entries != []
    decreases n
  {
    if n == 0 then Some(s)
    else
      var e := ParseEntry(input);
      if e.Underrun? then None
      else
        var s' := Appended(s, e.value);
        if s'.None? then None else ParseEntries(e.rest, n - 1, s'.value)
  }

  function ParseLog(input: Bytes, s: Stored): Option<Stored>
    requires s.entries != []
  {
    if input == [] then Some(s)
    else
      var n := ParseUint(input, 8);
      if n.Underrun? then None else ParseEntries(n.rest, n.value, s)
  }

  datatype Saved = Saved(term: nat, votedFor: nat, snapshotIndex: nat, snapshotTerm: nat, log: Stored)

  /** What loading into a log `s` yields; `None` where the code throws. */
  function ParseState(input: Bytes, s: Stored): Option<Saved>
    requires s.entries != []
  {
    if |input| < 40 then None
    else
      var size := FromLittleEndian(input[32..40]);
      if size > |input| - 40 then None
      else
        var log := ParseLog(input[40..40 + size], s);
        if log.None? then None
        else Some(Saved(FromLittleEndian(input[..8]), FromLittleEndian(input[8..16]),
                        FromLittleEndian(input[16..24]), FromLittleEndian(input[24..32]), log.value))
  }

  // ---- Round trip -------------------------------------------------------------------

  /** The widths the C++ types impose. */
  ghost predicate Fits(e: LogEntry) {
    e.index < TWO_TO_64 && e.term < TWO_TO_64 && |e.data| < TWO_TO_64
  }

  lemma ParseEntryOf(e: LogEntry, rest: Bytes)
    requires Fits(e)
    ensures ParseEntry(EntryImage(e) + rest) == Parsed(e, rest)
  {
    Pow256Widths();
    var tail := LittleEndian(|e.data|, 8) + (e.data + rest);
    assert EntryImage(e) + rest == LittleEndian(e.index, 8) + (LittleEndian(e.term, 8) + tail);
    ParseUintOf(e.index, 8, LittleEndian(e.term, 8) + tail);
    ParseUintOf(e.term, 8, tail);
    ParseUintOf(|e.data|, 8, e.data + rest);
    assert (e.data + rest)[..|e.data|] == e.data && (e.data + rest)[|e.data|..] == rest;
  }

  /** Entries from `from` on reload onto a log that ends just before them. */
  lemma {:induction false} ReloadEntries(s: Stored, full: Log, from: nat, onto: Stored)
    requires Represents(s, full) && s.snapshotIndex < from <= |full|
    requires forall i :: 0 <= i < |full| ==> Fits(full[i])
    requires onto.entries != [] && Last(onto).index == from - 1
    ensures ParseEntries(EntriesImage(s, from, LastIndex(full)), |full| - from, onto)
            == Some(onto.(entries := onto.entries + full[from..]))
    decreases |full| - from
  {
    hide Represents, EntryAt, EntryImage, ParseEntry;
    FullIsNonEmpty(s, full);
    if from == |full| {
      assert onto.entries + full[from..] == onto.entries;
    } else {
      SameAnswers(s, full, from);
      ParseEntryOf(full[from], EntriesImage(s, from + 1, LastIndex(full)));
      IndexIs(s, full, from);
      var onto' := onto.(entries := onto.entries + [full[from]]);
      ReloadEntries(s, full, from + 1, onto');
      assert onto'.entries + full[from + 1..] == onto.entries + full[from..];
    }
  }

  lemma FullIsNonEmpty(s: Stored, full: Log)
    requires Represents(s, full)
    ensures |full| >= 1
  {
  }

  lemma IndexIs(s: Stored, full: Log, i: nat)
    requires Represents(s, full) && i < |full|
    ensures full[i].index == i
  {
  }

  lemma CountIs(s: Stored, full: Log)
    requires Represents(s, full) && |full| < TWO_TO_64
    ensures s.entries != [] && Last(s).index == LastIndex(full)
    ensures EntryCount(s) == |full| - 1 - s.snapshotIndex
    ensures ParseUint(LogImage(s), 8) == Parsed(EntryCount(s), EntriesImage(s, s.snapshotIndex + 1, LastIndex(full)))
    ensures LogImage(s) != []
  {
    SameAnswers(s, full, 0);
    Pow256Widths();
    ParseUintOf(EntryCount(s), 8, EntriesImage(s, s.snapshotIndex + 1, LastIndex(full)));
  }

  /** A log reloaded onto another whose last index is not the snapshot's fails at its first entry. */
  lemma ReloadElsewhereFails(s: Stored, full: Log, onto: Stored)
    requires Represents(s, full) && |full| < TWO_TO_64
    requires forall i :: 0 <= i < |full| ==> Fits(full[i])
    requires onto.entries != [] && Last(onto).index != s.snapshotIndex
    ensures s.entries != []
    ensures ParseLog(LogImage(s), onto) == if EntryCount(s) == 0 then Some(onto) else None
  {
    CountIs(s, full);
    var from := s.snapshotIndex + 1;
    if EntryCount(s) > 0 {
      SameAnswers(s, full, from);
      ParseEntryOf(full[from], EntriesImage(s, from + 1, LastIndex(full)));
      IndexIs(s, full, from);
    }
  }

  /** An uncompacted log stores all entries. */
  lemma StoredInFull(s: Stored, full: Log)
    requires Represents(s, full) && s.snapshotIndex == 0 && s.entries[0] == DUMMY
    ensures FRESH.entries + full[1..] == s.entries
  {
    forall k | 1 <= k < |s.entries| ensures s.entries[k] == full[k] {
      assert s.entries[k] == full[0 + k];
    }
  }

  lemma UncompactedRepresents(log: Log)
    requires WellIndexed(log)
    ensures Represents(Stored(log, 0, 0), log)
  {
  }

  /** Loading a saved log into a fresh one gives it back if and only if it was never compacted: the
      loader starts at index 1 whatever the snapshot index. */
  lemma LogReloadsIff(s: Stored, full: Log)
    requires Represents(s, full) && |full| < TWO_TO_64
    requires forall i :: 0 <= i < |full| ==> Fits(full[i])
    requires s.snapshotIndex == 0 ==> s.entries[0] == DUMMY
    ensures s.entries != []
    ensures ParseLog(LogImage(s), FRESH) == Some(s) <==> s.snapshotIndex == 0
  {
    CountIs(s, full);
    if s.snapshotIndex == 0 {
      ReloadEntries(s, full, 1, FRESH);
      StoredInFull(s, full);
    } else {
      ReloadElsewhereFails(s, full, FRESH);
    }
  }

  /** The constructor restores twice: loading into the log already loaded fails if and only if there is
      an entry to load. */
  lemma SecondLoadFailsIff(s: Stored, full: Log)
    requires Represents(s, full) && |full| < TWO_TO_64 && s.snapshotIndex == 0
    requires forall i :: 0 <= i < |full| ==> Fits(full[i])
    ensures s.entries != []
    ensures ParseLog(LogImage(s), s).None? <==> |s.entries| > 1
  {
    CountIs(s, full);
    if |s.entries| > 1 {
      ReloadElsewhereFails(s, full, s);
    }
  }

  lemma StateFields(term: nat, votedFor: nat, s: Stored)
    requires s.entries != []
    requires term < TWO_TO_64 && votedFor < TWO_TO_64
    requires s.snapshotIndex < TWO_TO_64 && s.snapshotTerm < TWO_TO_64 && |LogImage(s)| < TWO_TO_64
    ensures var b := StateImage(term, votedFor, s);
      && |b| == 40 + |LogImage(s)|
      && FromLittleEndian(b[..8]) == term && FromLittleEndian(b[8..16]) == votedFor
      && FromLittleEndian(b[16..24]) == s.snapshotIndex && FromLittleEndian(b[24..32]) == s.snapshotTerm
      && FromLittleEndian(b[32..40]) == |LogImage(s)| && b[40..] == LogImage(s)
  {
    Pow256Widths();
    var b := StateImage(term, votedFor, s);
    hide LogImage;
    DecodeEncode(term, 8);
    DecodeEncode(votedFor, 8);
    DecodeEncode(s.snapshotIndex, 8);
    DecodeEncode(s.snapshotTerm, 8);
    DecodeEncode(|LogImage(s)|, 8);
    assert b[..8] == LittleEndian(term, 8);
    assert b[8..16] == LittleEndian(votedFor, 8);
    assert b[16..24] == LittleEndian(s.snapshotIndex, 8);
    assert b[24..32] == LittleEndian(s.snapshotTerm, 8);
    assert b[32..40] == LittleEndian(|LogImage(s)|, 8);
    assert b[40..] == LogImage(s);
  }

  /** The disk record of a node, as bytes and back: what `Nodes` treats as one durable value survives
      the trip through the file, with no bounds check or append failing. */
  lemma DurableRoundTrip(d: Durable)
    requires WellIndexed(d.log) && |d.log| < TWO_TO_64
    requires d.term < TWO_TO_64 && d.votedFor < TWO_TO_64
    requires forall i :: 0 <= i < |d.log| ==> Fits(d.log[i])
    requires |LogImage(Stored(d.log, 0, 0))| < TWO_TO_64
    ensures ParseState(StateImage(d.term, d.votedFor, Stored(d.log, 0, 0)), FRESH)
            == Some(Saved(d.term, d.votedFor, 0, 0, Stored(d.log, 0, 0)))
  {
    hide Fits, Represents, LogImage, ParseLog, StateImage, FromLittleEndian;
    var s := Stored(d.log, 0, 0);
    StateFields(d.term, d.votedFor, s);
    UncompactedRepresents(d.log);
    LogReloadsIff(s, d.log);
    var b := StateImage(d.term, d.votedFor, s);
    assert b[40..40 + |LogImage(s)|] == b[40..];
  }

  /** Any saved state, compacted or not: each field comes back as itself, and the log as loading its own
      bytes leaves it. */
  lemma StateReloads(term: nat, votedFor: nat, s: Stored, onto: Stored)
    requires s.entries != [] && onto.entries != []
    requires term < TWO_TO_64 && votedFor < TWO_TO_64
    requires s.snapshotIndex < TWO_TO_64 && s.snapshotTerm < TWO_TO_64 && |LogImage(s)| < TWO_TO_64
    ensures ParseState(StateImage(term, votedFor, s), onto)
            == match ParseLog(LogImage(s), onto)
               case None => None
               case Some(log) => Some(Saved(term, votedFor, s.snapshotIndex, s.snapshotTerm, log))
  {
    hide LogImage, ParseLog, StateImage, FromLittleEndian;
    StateFields(term, votedFor, s);
    var b := StateImage(term, votedFor, s);
    assert b[40..40 + |LogImage(s)|] == b[40..];
  }

  /** A compacted log saved and loaded into a fresh one: the load fails if there is an entry above the
      snapshot; if there is none it gives back term, vote and the snapshot's index and term, and a log that
      does not know of the snapshot. */
  lemma CompactedStateReloads(term: nat, votedFor: nat, s: Stored, full: Log)
    requires Represents(s, full) && |full| < TWO_TO_64 && s.snapshotIndex > 0
    requires forall i :: 0 <= i < |full| ==> Fits(full[i])
    requires term < TWO_TO_64 && votedFor < TWO_TO_64
    ensures s.entries != []
    ensures |LogImage(s)| < TWO_TO_64 ==>
      ParseState(StateImage(term, votedFor, s), FRESH)
      == if |full| > s.snapshotIndex + 1 then None
         else Some(Saved(term, votedFor, s.snapshotIndex, full[s.snapshotIndex].term, FRESH))
  {
    hide LogImage, ParseLog, StateImage, ParseState;
    CountIs(s, full);
    ReloadElsewhereFails(s, full, FRESH);
    if |LogImage(s)| < TWO_TO_64 {
      assert Fits(full[s.snapshotIndex]);
      StateReloads(term, votedFor, s, FRESH);
    }
  }

  // ---- The code -----------------------------------------------------------------------

  method SerializeLog(log: RaftLog) returns (data: Bytes)
    requires log.entries != []
    ensures data == LogImage(log.State())
  {
    hide EntryAt, LittleEndian, EntryImage;
    ghost var s := log.State();
    var firstIndex := log.snapshotIndex + 1;
    var lastIndex := log.GetLastIndex();
    var numEntries := if lastIndex >= firstIndex then lastIndex - firstIndex + 1 else 0;
    data := WriteLittleEndian([], numEntries, 8);
    ghost var head := data;
    ghost var body: Bytes := [];
    var i := firstIndex;
    while i <= lastIndex
      invariant firstIndex <= i
      invariant data == head + body
      invariant EntriesImage(s, firstIndex, lastIndex) == body + EntriesImage(s, i, lastIndex)
      decreases lastIndex + 1 - i
    {
      var entry := log.GetEntry(i);
      if entry.None? {
        break;
      }
      data := WriteEntry(data, entry.value);
      body := body + EntryImage(entry.value);
      i := i + 1;
    }
    assert body + [] == body;
  }

  method WriteEntry(out: Bytes, e: LogEntry) returns (out': Bytes)
    ensures out' == out + EntryImage(e)
  {
    hide LittleEndian;
    var withIndex := WriteLittleEndian(out, e.index, 8);
    var withTerm := WriteLittleEndian(withIndex, e.term, 8);
    var withSize := WriteLittleEndian(withTerm, |e.data|, 8);
    out' := withSize + e.data;
    assert withTerm == out + (LittleEndian(e.index, 8) + LittleEndian(e.term, 8));
    assert withSize == out + (LittleEndian(e.index, 8) + LittleEndian(e.term, 8) + LittleEndian(|e.data|, 8));
  }

  /** One entry at `offset`. The bounds test on the data adds in 64 bits; where the sum wraps, the
      size is beyond what a vector can be resized to, and that throws instead. */
  method ReadEntry(data: Bytes, offset: nat) returns (e: Option<LogEntry>, offset': nat)
    requires offset <= |data| <= MAX_VECTOR
    ensures offset' <= |data|
    ensures match ParseEntry(data[offset..])
            case Underrun => e == None
            case Parsed(v, rest) => e == Some(v) && rest == data[offset'..]
  {
    hide ParseUint;
    var index, term, size, at;
    index, at := ReadLittleEndian(data, offset, 8);
    if index.None? {
      return None, offset;
    }
    term, at := ReadLittleEndian(data, at, 8);
    if term.None? {
      return None, offset;
    }
    size, at := ReadLittleEndian(data, at, 8);
    if size.None? {
      return None, offset;
    }
    if (at + size.value) % TWO_TO_64 > |data| {
      WrapIsOversize(at, size.value, |data|);
      return None, offset;
    }
    if size.value > MAX_VECTOR {
      return None, offset;
    }
    WrapIsOversize(at, size.value, |data|);
    offset' := at + size.value;
    assert data[at..][..size.value] == data[at..offset'] && data[at..][size.value..] == data[offset'..];
    e := Some(LogEntry(index.value, term.value, data[at..offset']));
  }

  /** The wrapped bounds test lets through nothing that resizing would not refuse. */
  lemma WrapIsOversize(at: nat, size: nat, length: nat)
    requires at <= length <= MAX_VECTOR
    ensures (at + size) % TWO_TO_64 > length ==> size > length - at
    ensures (at + size) % TWO_TO_64 <= length && size <= MAX_VECTOR ==> at + size <= length
  {
  }

  /** `ok` is false where the C++ code throws, at whatever entry it does. */
  method DeserializeLog(data: Bytes, log: RaftLog) returns (ok: bool)
    requires log.entries != [] && |data| <= MAX_VECTOR
    modifies log
    ensures ok <==> ParseLog(data, old(log.State())).Some?
    ensures ok ==> log.State() == ParseLog(data, old(log.State())).value
  {
    hide ParseEntry, Appended;
    if data == [] {
      return true;
    }
    ghost var start := log.State();
    var n: Option<nat>, offset: nat := ReadLittleEndian(data, 0, 8);
    if n.None? {
      return false;
    }
    assert data[0..] == data;
    for i := 0 to n.value
      invariant 0 <= offset <= |data| && log.entries != []
      invariant ParseLog(data, start) == ParseEntries(data[offset..], n.value - i, log.State())
    {
      ghost var before := log.State();
      var entry;
      entry, offset := ReadEntry(data, offset);
      if entry.None? {
        return false;
      }
      var appended := log.Append(entry.value);
      if !appended {
        return false;
      }
      AppendedIsNonEmpty(before, entry.value);
    }
    ok := true;
  }

  lemma AppendedIsNonEmpty(s: Stored, e: LogEntry)
    requires s.entries != []
    ensures Appended(s, e).Some? ==> Appended(s, e).value.entries != []
  {
  }

  lemma LoadedFields(b: Bytes)
    requires |b| >= 40
    ensures ParseUint(b[0..], 8) == Parsed(FromLittleEndian(b[..8]), b[8..])
    ensures ParseUint(b[8..], 8) == Parsed(FromLittleEndian(b[8..16]), b[16..])
    ensures ParseUint(b[16..], 8) == Parsed(FromLittleEndian(b[16..24]), b[24..])
    ensures ParseUint(b[24..], 8) == Parsed(FromLittleEndian(b[24..32]), b[32..])
    ensures ParseUint(b[32..], 8) == Parsed(FromLittleEndian(b[32..40]), b[40..])
  {
    assert b[0..] == b;
    assert b[8..][..8] == b[8..16] && b[8..][8..] == b[16..];
    assert b[16..][..8] == b[16..24] && b[16..][8..] == b[24..];
    assert b[24..][..8] == b[24..32] && b[24..][8..] == b[32..];
    assert b[32..][..8] == b[32..40] && b[32..][8..] == b[40..];
  }

  datatype LoadResult =
    | NoState
    | Corrupted
    | Loaded(term: nat, votedFor: nat, snapshotIndex: nat, snapshotTerm: nat, snapshot: Bytes)

  /** The directory of one node: its two files, each absent or holding bytes. */
  class RaftPersistence {
    var stateFile: Option<Bytes>
    var snapshotFile: Option<Bytes>

    constructor ()
      ensures stateFile == None && snapshotFile == None
    {
      stateFile, snapshotFile := None, None;
    }

    method SaveState(term: nat, votedFor: nat, log: RaftLog, snapshot: Bytes)
      requires log.entries != []
      modifies this
      ensures stateFile == Some(StateImage(term, votedFor, log.State()))
      ensures snapshotFile == if snapshot == [] then old(snapshotFile) else Some(snapshot)
    {
      hide LogImage, LittleEndian;
      var bytes := WriteLittleEndian([], term, 8);
      bytes := WriteLittleEndian(bytes, votedFor, 8);
      bytes := WriteLittleEndian(bytes, log.snapshotIndex, 8);
      bytes := WriteLittleEndian(bytes, log.snapshotTerm, 8);
      var logData := SerializeLog(log);
      bytes := WriteLittleEndian(bytes, |logData|, 8);
      stateFile := Some(bytes + logData);
      assert [] + LittleEndian(term, 8) == LittleEndian(term, 8);
      if snapshot != [] {
        snapshotFile := Some(snapshot);
      }
    }

    method LoadState(log: RaftLog) returns (r: LoadResult)
      requires log.entries != [] && (stateFile.Some? ==> |stateFile.value| <= MAX_VECTOR)
      modifies log
      ensures r.NoState? <==> stateFile == None
      ensures stateFile.Some? ==>
        match ParseState(stateFile.value, old(log.State()))
        case None => r.Corrupted?
        case Some(saved) =>
          && r == Loaded(saved.term, saved.votedFor, saved.snapshotIndex, saved.snapshotTerm,
                      if snapshotFile.Some? then snapshotFile.value else [])
          && log.State() == saved.log
    {
      hide ParseLog;
      if stateFile.None? {
        return NoState;
      }
      var bytes := stateFile.value;
      if |bytes| < 40 {
        return Corrupted;
      }
      var term, votedFor, snapshotIndex, snapshotTerm, size: Option<nat>;
      var offset: nat;
      term, offset := ReadLittleEndian(bytes, 0, 8);
      votedFor, offset := ReadLittleEndian(bytes, 8, 8);
      snapshotIndex, offset := ReadLittleEndian(bytes, 16, 8);
      snapshotTerm, offset := ReadLittleEndian(bytes, 24, 8);
      size, offset := ReadLittleEndian(bytes, 32, 8);
      LoadedFields(bytes);
      if size.value > |bytes| - 40 {
        return Corrupted;
      }
      var ok := DeserializeLog(bytes[40..40 + size.value], log);
      if !ok {
        return Corrupted;
      }
      var snapshot := if snapshotFile.Some? then snapshotFile.value else [];
      r := Loaded(term.value, votedFor.value, snapshotIndex.value, snapshotTerm.value, snapshot);
    }
  }
}
