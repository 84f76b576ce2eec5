/** Where each field stands in the bytes: commands (src/kvstore/Command.cpp), store snapshots
    (src/kvstore/KVStore.cpp) and saved logs (src/raft/RaftPersistence.cpp). Nodes and files of other builds
    read by these positions, so a format that only comes back to its own writer would not do. */
module Layouts {
  import opened Wrappers
  import opened ByteCodec
  import opened Commands
  import opened Logs
  import opened Replay
  import opened RaftLogs
  import Stores
  import Persistence

  /** The number in the n bytes at `at`. */
  function NumberAt(b: Bytes, at: nat, n: nat): nat
    requires at + n <= |b|
  {
    FromLittleEndian(b[at..at + n])
  }

  lemma SliceHere(before: Bytes, here: Bytes, after: Bytes)
    ensures (before + here + after)[|before|..|before| + |here|] == here
  {
  }

  /** Two fields in a row. */
  lemma InARow(before: Bytes, x: Bytes, y: Bytes, after: Bytes)
    ensures before + (x + y) + after == before + x + (y + after)
    ensures before + (x + y) + after == (before + x) + y + after
  {
  }

  lemma NumberHere(before: Bytes, v: nat, n: nat, after: Bytes)
    requires v < Pow256(n)
    ensures NumberAt(before + LittleEndian(v, n) + after, |before|, n) == v
  {
    hide LittleEndian, FromLittleEndian;
    DecodeEncode(v, n);
    SliceHere(before, LittleEndian(v, n), after);
  }

  // ---- Commands -------------------------------------------------------------------------------------

  /** A length in four bytes and then the string, at `at`. */
  predicate StringAt(b: Bytes, at: nat, s: Bytes) {
    at + 4 + |s| <= |b| && NumberAt(b, at, 4) == |s| && b[at + 4..at + 4 + |s|] == s
  }

  lemma StringHere(before: Bytes, s: Bytes, after: Bytes)
    requires |s| < TWO_TO_32
    ensures StringAt(before + (LittleEndian(|s|, 4) + s) + after, |before|, s)
  {
    hide LittleEndian, NumberAt;
    Pow256Widths();
    var length := LittleEndian(|s|, 4);
    InARow(before, length, s, after);
    NumberHere(before, |s|, 4, s + after);
    SliceHere(before + length, s, after);
  }

  /** Tag, client, number, key and, but for a get, value. */
  lemma CommandBytes(c: Command)
    requires Layout(c).Some?
    ensures var b := Layout(c).value;
      && |b| == 21 + |c.key| + (if c.Get? then 0 else 4 + |c.value|)
      && b[0] == (if c.Put? then 1 else if c.Append? then 2 else 3)
      && NumberAt(b, 1, 8) == c.meta.clientId && NumberAt(b, 9, 8) == c.meta.sequenceNum
      && StringAt(b, 17, c.key)
      && (!c.Get? ==> StringAt(b, 21 + |c.key|, c.value))
  {
    LayoutFailsIff(c);
    hide LittleEndian, StringAt, NumberAt;
    Pow256Widths();
    var b := Layout(c).value;
    var tag := [b[0]];
    var id, number := LittleEndian(c.meta.clientId, 8), LittleEndian(c.meta.sequenceNum, 8);
    var key := LittleEndian(|c.key|, 4) + c.key;
    var value := if c.Get? then [] else LittleEndian(|c.value|, 4) + c.value;
    assert b == tag + id + number + key + value;
    assert b == tag + id + (number + key + value);
    NumberHere(tag, c.meta.clientId, 8, number + key + value);
    assert b == (tag + id) + number + (key + value);
    NumberHere(tag + id, c.meta.sequenceNum, 8, key + value);
    StringHere(tag + id + number, c.key, value);
    if !c.Get? {
      assert b == (tag + id + number + key) + value + [];
      StringHere(tag + id + number + key, c.value, []);
    }
  }

  // ---- Store snapshots ----------------------------------------------------------------------------------

  /** Where entry i of a snapshot starts. */
  function PairOffset(m: KV, order: seq<Bytes>, i: nat): nat
    requires i <= |order| && forall k :: k in order ==> k in m
  {
    if i == 0 then 8 else PairOffset(m, order, i - 1) + 8 + |order[i - 1]| + |m[order[i - 1]]|
  }

  lemma {:induction false} PairPrefix(m: KV, order: seq<Bytes>, i: nat)
    requires i <= |order| && forall k :: k in order ==> k in m
    ensures Stores.EntriesImage(m, order[..i]) <= Stores.EntriesImage(m, order)
    ensures 8 + |Stores.EntriesImage(m, order[..i])| == PairOffset(m, order, i)
    decreases |order|, i
  {
    if i > 0 {
      assert order[..i][..i - 1] == order[..i - 1];
      PairPrefix(m, order, i - 1);
    }
    if i == |order| {
      assert order[..i] == order;
    } else {
      var init := order[..|order| - 1];
      assert init[..i] == order[..i];
      PairPrefix(m, init, i);
    }
  }

  /** The number of entries, and then, in the table's order, key and value, each after its length. */
  lemma SnapshotBytes(m: KV, order: seq<Bytes>, i: nat)
    requires Stores.Enumerates(order, m) && |m| < TWO_TO_64 && Stores.ShortStrings(m)
    ensures var b := Stores.SnapshotImage(m, order);
      && |b| == PairOffset(m, order, |order|) && |b| >= 8 && NumberAt(b, 0, 8) == |m|
      && (i < |order| ==>
            StringAt(b, PairOffset(m, order, i), order[i])
            && StringAt(b, PairOffset(m, order, i) + 4 + |order[i]|, m[order[i]]))
  {
    hide LittleEndian, StringAt, NumberAt, Stores.EntryImage, Stores.EntriesImage, PairOffset;
    Pow256Widths();
    var count, all := LittleEndian(|m|, 8), Stores.EntriesImage(m, order);
    assert [] + count + all == Stores.SnapshotImage(m, order);
    NumberHere([], |m|, 8, all);
    assert order[..|order|] == order;
    PairPrefix(m, order, |order|);
    if i < |order| {
      var before, rest := PairInImage(m, order, i);
      var pair := Stores.EntryImage(order[i], m[order[i]]);
      assert order[i] in order;
      PairHere(count + before, order[i], m[order[i]], rest);
      Prepend(count, before, pair, rest);
    }
  }

  lemma Prepend(a: Bytes, b: Bytes, c: Bytes, d: Bytes)
    ensures a + (b + c + d) == (a + b) + c + d
  {
  }

  lemma PairInImage(m: KV, order: seq<Bytes>, i: nat) returns (before: Bytes, rest: Bytes)
    requires i < |order| && forall k :: k in order ==> k in m
    ensures 8 + |before| == PairOffset(m, order, i)
    ensures Stores.EntriesImage(m, order) == before + Stores.EntryImage(order[i], m[order[i]]) + rest
  {
    hide Stores.EntryImage;
    var all, upTo := Stores.EntriesImage(m, order), Stores.EntriesImage(m, order[..i + 1]);
    PairPrefix(m, order, i + 1);
    before, rest := Stores.EntriesImage(m, order[..i]), all[|upTo|..];
    PairPrefix(m, order, i);
    assert order[..i + 1][..i] == order[..i];
  }

  lemma PairHere(before: Bytes, k: Bytes, v: Bytes, rest: Bytes)
    requires |k| < TWO_TO_32 && |v| < TWO_TO_32
    ensures var b := before + Stores.EntryImage(k, v) + rest;
      StringAt(b, |before|, k) && StringAt(b, |before| + 4 + |k|, v)
  {
    hide LittleEndian, StringAt;
    var key, value := LittleEndian(|k|, 4) + k, LittleEndian(|v|, 4) + v;
    InARow(before, key, value, rest);
    StringHere(before, k, value + rest);
    StringHere(before + key, v, rest);
  }

  // ---- Saved logs -----------------------------------------------------------------------------------------

  /** Where the entry of index snapshotIndex + 1 + j of a saved log starts. */
  function EntryOffset(full: Log, base: nat, j: nat): nat
    requires base + 1 + j <= |full|
  {
    if j == 0 then 8 else EntryOffset(full, base, j - 1) + 24 + |full[base + j].data|
  }

  lemma {:induction false} EntriesAtOffset(s: Stored, full: Log, j: nat)
    requires Represents(s, full) && s.snapshotIndex + 1 + j <= |full|
    ensures var all := Persistence.EntriesImage(s, s.snapshotIndex + 1, LastIndex(full));
      && EntryOffset(full, s.snapshotIndex, j) - 8 <= |all|
      && all[EntryOffset(full, s.snapshotIndex, j) - 8..]
         == Persistence.EntriesImage(s, s.snapshotIndex + 1 + j, LastIndex(full))
  {
    hide Represents, LittleEndian;
    if j > 0 {
      var index := s.snapshotIndex + j;
      EntriesAtOffset(s, full, j - 1);
      StoredEntry(s, full, index);
      var image := Persistence.EntryImage(full[index]);
      assert |image| == 24 + |full[index].data|;
      assert Persistence.EntriesImage(s, index, LastIndex(full))
             == image + Persistence.EntriesImage(s, index + 1, LastIndex(full));
    }
  }

  lemma StoredEntry(s: Stored, full: Log, index: nat)
    requires Represents(s, full) && s.snapshotIndex < index < |full|
    ensures EntryAt(s, index) == Some(full[index])
  {
    SameAnswers(s, full, index);
  }

  /** The number of entries above the snapshot, and then of each its index, term, length and bytes. */
  lemma LogBytes(s: Stored, full: Log, j: nat)
    requires Represents(s, full) && |full| < TWO_TO_64
    requires forall i :: 0 <= i < |full| ==> Persistence.Fits(full[i])
    ensures s.entries != []
    ensures var b := Persistence.LogImage(s);
      && |b| == EntryOffset(full, s.snapshotIndex, |full| - s.snapshotIndex - 1)
      && |b| >= 8 && NumberAt(b, 0, 8) == |full| - s.snapshotIndex - 1
      && (s.snapshotIndex + 1 + j < |full| ==>
            var at, e := EntryOffset(full, s.snapshotIndex, j), full[s.snapshotIndex + 1 + j];
            && at + 24 + |e.data| <= |b|
            && NumberAt(b, at, 8) == e.index == s.snapshotIndex + 1 + j && NumberAt(b, at + 8, 8) == e.term
            && NumberAt(b, at + 16, 8) == |e.data| && b[at + 24..at + 24 + |e.data|] == e.data)
  {
    hide LittleEndian, NumberAt, Persistence.EntriesImage, Persistence.EntryImage, EntryOffset, Represents;
    Pow256Widths();
    RepresentsParts(s, full);
    SameAnswers(s, full, 0);
    var base := s.snapshotIndex;
    var n := |full| - base - 1;
    assert Persistence.EntryCount(s) == n;
    var count, all := LittleEndian(n, 8), Persistence.EntriesImage(s, base + 1, LastIndex(full));
    assert [] + count + all == Persistence.LogImage(s);
    NumberHere([], n, 8, all);
    OffsetsFromEight(full, base, n);
    EntriesAtOffset(s, full, n);
    NothingAfterLast(s, full);
    if base + 1 + j < |full| {
      var before, rest := EntryInImage(s, full, j);
      var e := full[base + 1 + j];
      EntryFields(count + before, e, rest);
      Prepend(count, before, Persistence.EntryImage(e), rest);
    }
  }

  lemma RepresentsParts(s: Stored, full: Log)
    requires Represents(s, full)
    ensures s.entries != [] && s.snapshotIndex < |full|
    ensures forall i :: 0 <= i < |full| ==> full[i].index == i
  {
  }

  lemma NothingAfterLast(s: Stored, full: Log)
    requires full != []
    ensures Persistence.EntriesImage(s, |full|, LastIndex(full)) == []
  {
  }

  lemma EntryInImage(s: Stored, full: Log, j: nat) returns (before: Bytes, rest: Bytes)
    requires Represents(s, full) && s.snapshotIndex + 1 + j < |full|
    ensures 8 + |before| == EntryOffset(full, s.snapshotIndex, j)
    ensures Persistence.EntriesImage(s, s.snapshotIndex + 1, LastIndex(full))
            == before + Persistence.EntryImage(full[s.snapshotIndex + 1 + j]) + rest
  {
    hide Represents, Persistence.EntryImage;
    var base, last := s.snapshotIndex, LastIndex(full);
    var all := Persistence.EntriesImage(s, base + 1, last);
    OffsetsFromEight(full, base, j);
    EntriesAtOffset(s, full, j);
    StoredEntry(s, full, base + 1 + j);
    var off := EntryOffset(full, base, j) - 8;
    before, rest := all[..off], Persistence.EntriesImage(s, base + 2 + j, last);
    assert all[off..] == Persistence.EntryImage(full[base + 1 + j]) + rest;
    assert all == before + all[off..];
  }

  lemma {:induction false} OffsetsFromEight(full: Log, base: nat, j: nat)
    requires base + 1 + j <= |full|
    ensures EntryOffset(full, base, j) >= 8
  {
    if j > 0 {
      OffsetsFromEight(full, base, j - 1);
    }
  }

  lemma EntryFields(before: Bytes, e: LogEntry, rest: Bytes)
    requires Persistence.Fits(e)
    ensures var b, at := before + Persistence.EntryImage(e) + rest, |before|;
      && at + 24 + |e.data| <= |b|
      && NumberAt(b, at, 8) == e.index && NumberAt(b, at + 8, 8) == e.term
      && NumberAt(b, at + 16, 8) == |e.data| && b[at + 24..at + 24 + |e.data|] == e.data
  {
    hide LittleEndian, NumberAt;
    Pow256Widths();
    var index, term, size := LittleEndian(e.index, 8), LittleEndian(e.term, 8), LittleEndian(|e.data|, 8);
    var image := Persistence.EntryImage(e);
    assert image == index + (term + (size + e.data));
    InARow(before, index, term + (size + e.data), rest);
    NumberHere(before, e.index, 8, (term + (size + e.data)) + rest);
    InARow(before + index, term, size + e.data, rest);
    NumberHere(before + index, e.term, 8, (size + e.data) + rest);
    InARow(before + index + term, size, e.data, rest);
    NumberHere(before + index + term, |e.data|, 8, e.data + rest);
    SliceHere(before + index + term + size, e.data, rest);
  }
}
