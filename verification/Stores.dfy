/** The key-value store and its snapshot format (src/kvstore/KVStore.cpp). */
module Stores {
  import opened Wrappers
  import opened ByteCodec
  import opened Commands
  import opened Replay

  /** A snapshot writes a string's length cut to 32 bits, then the whole string. */
  function StringImage(s: Bytes): Bytes {
    LittleEndian(|s| % TWO_TO_32, 4) + s
  }

  function EntryImage(k: Bytes, v: Bytes): Bytes {
    StringImage(k) + StringImage(v)
  }

  function EntriesImage(m: KV, order: seq<Bytes>): Bytes
    requires forall k :: k in order ==> k in m
  {
    if order == [] then [] else EntriesImage(m, order[..|order| - 1]) + EntryImage(order[|order| - 1], m[order[|order| - 1]])
  }

  /** The snapshot of a map whose hash table enumerates its keys in this order. */
  function SnapshotImage(m: KV, order: seq<Bytes>): Bytes
    requires forall k :: k in order ==> k in m
  {
    LittleEndian(|m|, 8) + EntriesImage(m, order)
  }

  ghost predicate Enumerates(order: seq<Bytes>, m: KV) {
    && (forall i, j :: 0 <= i < j < |order| ==> order[i] != order[j])
    && (forall k :: k in order <==> k in m)
  }

  /** Reads n entries into the map; `None` where the code reads past the end of the buffer. */
  function ParseEntries(input: Bytes, n: nat, m: KV): Option<KV> {
    if n == 0 then Some(m)
    else
      var key := ParseString(input);
      if key.Underrun? then None
      else
        var value := ParseString(key.rest);
        if value.Underrun? then None else ParseEntries(value.rest, n - 1, m[key.value := value.value])
  }

  /** The map a snapshot restores; what the target held before plays no part. */
  function ParseSnapshot(input: Bytes): Option<KV> {
    var n := ParseUint(input, 8);
    if n.Underrun? then None else ParseEntries(n.rest, n.value, map[])
  }

  ghost predicate ShortStrings(m: KV) {
    forall k :: k in m ==> |k| < TWO_TO_32 && |m[k]| < TWO_TO_32
  }

  // ---- Round trip ----------------------------------------------------------------

  /** Entries i .. of the enumeration, front to back. */
  function EntriesFrom(m: KV, order: seq<Bytes>, i: nat): Bytes
    requires i <= |order| && forall k :: k in order ==> k in m
    decreases |order| - i
  {
    if i == |order| then [] else EntryImage(order[i], m[order[i]]) + EntriesFrom(m, order, i + 1)
  }

  lemma {:induction false} EntriesSplit(m: KV, order: seq<Bytes>, i: nat)
    requires i <= |order| && forall k :: k in order ==> k in m
    ensures forall k :: k in order[..i] ==> k in m
    ensures EntriesImage(m, order) == EntriesImage(m, order[..i]) + EntriesFrom(m, order, i)
    decreases |order| - i
  {
    hide EntryImage;
    if i == |order| {
      assert order[..i] == order;
    } else {
      EntriesSplit(m, order, i + 1);
      assert order[..i + 1][..i] == order[..i];
    }
  }

  lemma ParseImage(s: Bytes, rest: Bytes)
    requires |s| < TWO_TO_32
    ensures ParseString(StringImage(s) + rest) == Parsed(s, rest)
  {
    assert StringImage(s) == StringLayout(s).value;
    ParseStringOf(s, rest);
  }

  /** The part of the map that these keys carry. */
  function Restored(m: KV, keys: seq<Bytes>): KV {
    map k | k in m && k in keys :: m[k]
  }

  lemma RestoredAll(m: KV, order: seq<Bytes>)
    requires Enumerates(order, m)
    ensures Restored(m, order[..|order|]) == m
  {
    assert order[..|order|] == order;
  }

  lemma RestoredOneMore(m: KV, order: seq<Bytes>, i: nat)
    requires i < |order| && order[i] in m
    ensures Restored(m, order[..i + 1]) == Restored(m, order[..i])[order[i] := m[order[i]]]
  {
    assert order[..i + 1] == order[..i] + [order[i]];
  }

  lemma {:induction false} ParseEntriesOf(m: KV, order: seq<Bytes>, i: nat, acc: KV)
    requires Enumerates(order, m) && ShortStrings(m) && i <= |order|
    requires acc == Restored(m, order[..i])
    ensures ParseEntries(EntriesFrom(m, order, i), |order| - i, acc) == Some(m)
    decreases |order| - i
  {
    hide StringImage, ParseString, Restored;
    if i == |order| {
      RestoredAll(m, order);
    } else {
      var k := order[i];
      assert k in order;
      var rest := EntriesFrom(m, order, i + 1);
      assert EntriesFrom(m, order, i) == StringImage(k) + (StringImage(m[k]) + rest);
      ParseImage(k, StringImage(m[k]) + rest);
      ParseImage(m[k], rest);
      RestoredOneMore(m, order, i);
      ParseEntriesOf(m, order, i + 1, acc[k := m[k]]);
    }
  }

  lemma {:induction false} EnumerationSize(order: seq<Bytes>, m: KV)
    requires Enumerates(order, m)
    ensures |order| == |m|
  {
    if order == [] {
      assert m.Keys == {};
    } else {
      var init, last := order[..|order| - 1], order[|order| - 1];
      var rest := m - {last};
      assert order == init + [last];
      assert last !in init;
      assert Enumerates(init, rest);
      EnumerationSize(init, rest);
      assert m.Keys == rest.Keys + {last};
    }
  }

  lemma {:induction false} ParsedStringsAreShort(input: Bytes, n: nat, acc: KV)
    requires ShortStrings(acc) && ParseEntries(input, n, acc).Some?
    ensures ShortStrings(ParseEntries(input, n, acc).value)
    decreases n
  {
    hide ParseString;
    if n > 0 {
      var key := ParseString(input);
      var value := ParseString(key.rest);
      StringLayoutOf(input);
      StringLayoutOf(key.rest);
      ParsedStringsAreShort(value.rest, n - 1, acc[key.value := value.value]);
    }
  }

  /** A snapshot restores exactly the map it was taken of, in whatever order the table enumerates it,
      if and only if every key and value has a length of at most 32 bits. */
  lemma SnapshotRoundTripIff(m: KV, order: seq<Bytes>)
    requires Enumerates(order, m) && |m| < TWO_TO_64
    ensures ParseSnapshot(SnapshotImage(m, order)) == Some(m) <==> ShortStrings(m)
  {
    Pow256Widths();
    EnumerationSize(order, m);
    ParseUintOf(|m|, 8, EntriesImage(m, order));
    if ShortStrings(m) {
      EntriesSplit(m, order, 0);
      assert order[..0] == [];
      assert EntriesImage(m, order) == EntriesFrom(m, order, 0);
      ParseEntriesOf(m, order, 0, map[]);
    }
    if ParseSnapshot(SnapshotImage(m, order)) == Some(m) {
      ParsedStringsAreShort(EntriesImage(m, order), |m|, map[]);
    }
  }

  // ---- The code --------------------------------------------------------------------

  method WriteEntry(out: Bytes, key: Bytes, value: Bytes) returns (out': Bytes)
    ensures out' == out + EntryImage(key, value)
  {
    hide LittleEndian;
    var withKey := WriteLittleEndian(out, |key| % TWO_TO_32, 4);
    withKey := withKey + key;
    out' := WriteLittleEndian(withKey, |value| % TWO_TO_32, 4);
    out' := out' + value;
    assert withKey == out + StringImage(key);
    assert out' == withKey + StringImage(value);
  }

  lemma SnapshotGrows(m: KV, order: seq<Bytes>, k: Bytes)
    requires (forall x :: x in order ==> x in m) && k in m
    ensures SnapshotImage(m, order + [k]) == SnapshotImage(m, order) + EntryImage(k, m[k])
  {
    assert (order + [k])[..|order|] == order;
  }

  class KVStore {
    var kvMap: KV

    constructor ()
      ensures kvMap == map[]
    {
      kvMap := map[];
    }

    method Put(key: Bytes, value: Bytes)
      modifies this
      ensures kvMap == old(kvMap)[key := value]
    {
      kvMap := kvMap[key := value];
    }

    method Get(key: Bytes) returns (value: Option<Bytes>)
      ensures value.Some? <==> key in kvMap
      ensures value.Some? ==> value.value == kvMap[key]
    {
      value := if key in kvMap then Some(kvMap[key]) else None;
    }

    method Append(key: Bytes, value: Bytes) returns (done: bool)
      modifies this
      ensures done
      ensures kvMap == old(kvMap)[key := if key in old(kvMap) then old(kvMap)[key] + value else value]
    {
      if key in kvMap {
        kvMap := kvMap[key := kvMap[key] + value];
      } else {
        kvMap := kvMap[key := value];
      }
      done := true;
    }

    /** The table is enumerated in an order of its own choosing. */
    method TakeSnapshot() returns (snapshot: Bytes)
      requires |kvMap| < TWO_TO_64
      ensures exists order :: Enumerates(order, kvMap) && snapshot == SnapshotImage(kvMap, order)
    {
      snapshot := WriteLittleEndian([], |kvMap|, 8);
      ghost var order: seq<Bytes> := [];
      var left := kvMap.Keys;
      while left != {}
        invariant left <= kvMap.Keys
        invariant forall k :: k in order <==> k in kvMap && k !in left
        invariant forall i, j :: 0 <= i < j < |order| ==> order[i] != order[j]
        invariant snapshot == SnapshotImage(kvMap, order)
        decreases left
      {
        var key :| key in left;
        snapshot := WriteEntry(snapshot, key, kvMap[key]);
        SnapshotGrows(kvMap, order, key);
        order := order + [key];
        left := left - {key};
      }
      assert Enumerates(order, kvMap);
    }

    /** `ok` is false where the C++ code, which checks no bounds, reads past the end. */
    method InstallSnapshot(snapshot: Bytes) returns (ok: bool)
      modifies this
      ensures ok <==> ParseSnapshot(snapshot).Some?
      ensures ok ==> kvMap == ParseSnapshot(snapshot).value
    {
      hide ParseString;
      kvMap := map[];
      var n: Option<nat>, offset: nat := ReadLittleEndian(snapshot, 0, 8);
      if n.None? {
        return false;
      }
      assert snapshot[0..] == snapshot;
      for i := 0 to n.value
        invariant 0 <= offset <= |snapshot|
        invariant ParseSnapshot(snapshot) == ParseEntries(snapshot[offset..], n.value - i, kvMap)
      {
        var key, value;
        key, offset := ReadString(snapshot, offset);
        if key.None? {
          return false;
        }
        value, offset := ReadString(snapshot, offset);
        if value.None? {
          return false;
        }
        kvMap := kvMap[key.value := value.value];
      }
      ok := true;
    }
  }
}
