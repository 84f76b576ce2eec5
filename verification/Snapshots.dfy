/** Snapshot bytes and replay together: what a node holds after installing a snapshot of a log's
    first i entries and applying the rest (src/raft/RaftNode.cpp:268-309, 662-685). */
module Snapshots {
  import opened Wrappers
  import opened ByteCodec
  import opened Commands
  import opened Logs
  import opened Replay
  import opened Suffixes
  import opened Stores

  /** What installing does to the state machine and to lastApplied: the store is replaced, the client
      table is not, and lastApplied only rises. `None` where the bytes run out. */
  function Installed(r: Replica, lastApplied: nat, image: Bytes, lastIncluded: nat): Option<(Replica, nat)> {
    match ParseSnapshot(image)
    case None => None
    case Some(store) =>
      Some((Replica(store, r.lastSeq), if lastIncluded > lastApplied then lastIncluded else lastApplied))
  }

  ghost function Applied(log: Log, n: nat): Replica
    requires n < |log|
  {
    ApplyAll(EMPTY_REPLICA, log[1..n + 1])
  }

  // ---- The commands behind a log ----------------------------------------------------------

  lemma EffectiveThrough(log: Log, i: nat, n: nat)
    requires i <= n < |log|
    ensures Effective(log[1..n + 1]) == Effective(log[1..i + 1]) + Taken(Applied(log, i).lastSeq, log[i + 1..n + 1])
    ensures Applied(log, n).lastSeq == TableOver(Applied(log, i).lastSeq, log[i + 1..n + 1])
  {
    hide Effective, Taken, TableOver, ApplyAll, Execute;
    var prefix, rest := log[1..i + 1], log[i + 1..n + 1];
    assert log[1..n + 1] == prefix + rest;
    TakenFromNothing(prefix);
    TakenFromNothing(log[1..n + 1]);
    ReplayIsExecutionOfTaken(EMPTY_REPLICA, prefix);
    ReplayIsExecutionOfTaken(EMPTY_REPLICA, log[1..n + 1]);
    TakenConcat(map[], prefix, rest);
  }

  lemma TakenThrough(table: SeqTable, log: Log, i: nat, j: nat, n: nat)
    requires i <= j <= n < |log|
    ensures Taken(table, log[i + 1..n + 1])
            == Taken(table, log[i + 1..j + 1]) + Taken(TableOver(table, log[i + 1..j + 1]), log[j + 1..n + 1])
  {
    hide Taken, TableOver;
    assert log[i + 1..n + 1] == log[i + 1..j + 1] + log[j + 1..n + 1];
    TakenConcat(table, log[i + 1..j + 1], log[j + 1..n + 1]);
  }

  // ---- Snapshot plus suffix ---------------------------------------------------------------

  /** What a node's store comes to if the node had applied a entries, then installed a snapshot of the
      store after `l` entries with the label u, and then applied the entries up to n: the commands
      executed, in order. */
  ghost function Performed(log: Log, a: nat, u: nat, l: nat, n: nat): seq<Command>
    requires l < |log| && Max(a, u) <= n < |log|
  {
    Effective(log[1..l + 1]) + Taken(Applied(log, a).lastSeq, log[Max(a, u) + 1..n + 1])
  }

  /** When these are the commands a full replay executes. A node already past `l`: nothing between may
      have taken effect. A node short of `l`: nothing it replays up to `l` may take effect, and from
      there on no entry may fall into the gap between its own client table, which no snapshot carries,
      and the full one. */
  ghost predicate Harmless(log: Log, a: nat, u: nat, l: nat, n: nat)
    requires u <= l && Max(a, l) <= n < |log|
  {
    if l <= a then Taken(Applied(log, l).lastSeq, log[l + 1..a + 1]) == []
    else
      && Taken(Applied(log, a).lastSeq, log[Max(a, u) + 1..l + 1]) == []
      && NoGap(Applied(log, a).lastSeq, Applied(log, l).lastSeq, log[l + 1..n + 1])
  }

  /** The exact condition, for every installer, label and snapshot position. */
  lemma InstallIsReplayIff(log: Log, a: nat, u: nat, l: nat, n: nat)
    requires u <= l && Max(a, l) <= n < |log|
    ensures Performed(log, a, u, l, n) == Effective(log[1..n + 1]) <==> Harmless(log, a, u, l, n)
  {
    hide Performed, Applied, Effective, Taken, NoGap;
    if l <= a {
      StaleIsReplayIff(log, a, u, l, n);
    } else {
      AheadIsReplayIff(log, a, u, l, n);
    }
  }

  lemma StaleIsReplayIff(log: Log, a: nat, u: nat, l: nat, n: nat)
    requires u <= l <= a <= n < |log|
    ensures Performed(log, a, u, l, n) == Effective(log[1..n + 1])
            <==> Taken(Applied(log, l).lastSeq, log[l + 1..a + 1]) == []
  {
    hide Effective, Taken, TableOver, Applied;
    EffectiveThrough(log, l, a);
    EffectiveThrough(log, a, n);
    var before, between := Effective(log[1..l + 1]), Taken(Applied(log, l).lastSeq, log[l + 1..a + 1]);
    var after := Taken(Applied(log, a).lastSeq, log[a + 1..n + 1]);
    assert Performed(log, a, u, l, n) == before + after;
    assert Effective(log[1..n + 1]) == before + between + after;
    if between == [] {
      assert before + [] + after == before + after;
    }
  }

  lemma AheadIsReplayIff(log: Log, a: nat, u: nat, l: nat, n: nat)
    requires a < l && u <= l <= n < |log|
    ensures Performed(log, a, u, l, n) == Effective(log[1..n + 1])
            <==> && Taken(Applied(log, a).lastSeq, log[Max(a, u) + 1..l + 1]) == []
                 && NoGap(Applied(log, a).lastSeq, Applied(log, l).lastSeq, log[l + 1..n + 1])
  {
    hide Effective, Taken, TableOver, Applied, NoGap, AtMost;
    var m, own, full := Max(a, u), Applied(log, a).lastSeq, Applied(log, l).lastSeq;
    var between, rest := log[m + 1..l + 1], log[l + 1..n + 1];
    var own' := TableOver(own, between);
    EffectiveThrough(log, l, n);
    TakenThrough(own, log, m, l, n);
    EffectiveThrough(log, a, m);
    EffectiveThrough(log, m, l);
    TableGrows(own, log[a + 1..m + 1]);
    OlderStaysOlder(own, Applied(log, m).lastSeq, between);
    SameTakenIffNoGap(own', full, rest);
    var before := Effective(log[1..l + 1]);
    assert Performed(log, a, u, l, n) == before + (Taken(own, between) + Taken(own', rest));
    assert Effective(log[1..n + 1]) == before + Taken(full, rest);
    if Taken(own, between) == [] {
      NothingTaken(own, between);
      assert [] + Taken(own', rest) == Taken(own', rest);
    }
  }

  /** Before the node has caught up with the store the snapshot was really taken of. */
  lemma ShortOfSnapshotIsReplayIff(log: Log, a: nat, u: nat, l: nat, n: nat)
    requires Max(a, u) <= n <= l < |log|
    ensures Performed(log, a, u, l, n) == Effective(log[1..n + 1])
            <==> && Taken(Applied(log, n).lastSeq, log[n + 1..l + 1]) == []
                 && Taken(Applied(log, a).lastSeq, log[Max(a, u) + 1..n + 1]) == []
  {
    hide Effective, Taken, TableOver, Applied;
    EffectiveThrough(log, n, l);
    var before, over := Effective(log[1..n + 1]), Taken(Applied(log, n).lastSeq, log[n + 1..l + 1]);
    var again := Taken(Applied(log, a).lastSeq, log[Max(a, u) + 1..n + 1]);
    assert Performed(log, a, u, l, n) == before + over + again;
    if over == [] && again == [] {
      assert before + [] + [] == before;
    }
  }

  /** From bytes to store: what the installing node's store comes to, for any enumeration order. */
  lemma InstalledRun(log: Log, a: nat, u: nat, l: nat, n: nat, order: seq<Bytes>)
    requires l < |log| && Max(a, u) <= n < |log|
    requires var store := Applied(log, l).store;
      Enumerates(order, store) && |store| < TWO_TO_64 && ShortStrings(store)
    ensures var installed := Installed(Applied(log, a), a, SnapshotImage(Applied(log, l).store, order), u);
      && installed.Some? && installed.value.1 == Max(a, u)
      && ApplyAll(installed.value.0, log[Max(a, u) + 1..n + 1]).store == Execute(map[], Performed(log, a, u, l, n))
  {
    hide ParseSnapshot, SnapshotImage, ApplyAll, ShortStrings, Enumerates, Taken, Effective, Execute, TableOver;
    SnapshotRoundTripIff(Applied(log, l).store, order);
    ReplayIsExecutionOfEffective(log[1..l + 1]);
    var suffix, own := log[Max(a, u) + 1..n + 1], Applied(log, a).lastSeq;
    ReplayIsExecutionOfTaken(Replica(Applied(log, l).store, own), suffix);
    ExecuteConcat(map[], Effective(log[1..l + 1]), Taken(own, suffix));
  }

  /** Snapshot plus suffix equals full replay: a node that had applied a entries, given the snapshot that
      `takeSnapshot(u)` makes of the store after `l` entries, replays the rest to the store of applying
      1 .. n, unless something that takes effect lies between. With u == l, as the snapshot timer has
      it, and a <= l, nothing lies between, and only the gap in the client table is left. */
  lemma SnapshotPlusSuffixIsReplay(log: Log, a: nat, u: nat, l: nat, n: nat, order: seq<Bytes>)
    requires u <= l && Max(a, l) <= n < |log|
    requires var store := Applied(log, l).store;
      Enumerates(order, store) && |store| < TWO_TO_64 && ShortStrings(store)
    requires Harmless(log, a, u, l, n)
    ensures var installed := Installed(Applied(log, a), a, SnapshotImage(Applied(log, l).store, order), u);
      && installed.Some? && installed.value.1 == Max(a, u)
      && ApplyAll(installed.value.0, log[Max(a, u) + 1..n + 1]).store == Applied(log, n).store
    ensures u == l && a <= l ==>
      (Harmless(log, a, u, l, n) <==> NoGap(Applied(log, a).lastSeq, Applied(log, l).lastSeq, log[l + 1..n + 1]))
  {
    hide Applied, ApplyAll, Effective, Execute, Taken, NoGap, Harmless, Performed, Installed, SnapshotImage,
         Enumerates, ShortStrings;
    AppliedIs(log, n);
    InstallIsReplayIff(log, a, u, l, n);
    InstalledRun(log, a, u, l, n, order);
    ReplayIsExecutionOfEffective(log[1..n + 1]);
    if u == l && a <= l {
      LabelledTruly(log, a, l, n);
    }
  }

  lemma AppliedIs(log: Log, n: nat)
    requires n < |log|
    ensures Applied(log, n) == ApplyAll(EMPTY_REPLICA, log[1..n + 1])
  {
  }

  lemma LabelledTruly(log: Log, a: nat, l: nat, n: nat)
    requires a <= l <= n < |log|
    ensures Harmless(log, a, l, l, n) <==> NoGap(Applied(log, a).lastSeq, Applied(log, l).lastSeq, log[l + 1..n + 1])
  {
    hide Applied, NoGap;
    assert log[l + 1..l + 1] == [];
    if a == l {
      SameTableNoGap(Applied(log, a).lastSeq, log[l + 1..n + 1]);
    }
  }

  lemma SameTableNoGap(table: SeqTable, es: seq<LogEntry>)
    ensures NoGap(table, table, es)
  {
  }

  /** The store is right after every continuation of the log if and only if the node is in every respect
      where a full replay would be at its new lastApplied. */
  lemma SoundForEverySuffixIff(log: Log, a: nat, u: nat, l: nat)
    requires l < |log| && Max(a, u) < |log|
    ensures var m, node := Max(a, u), Replica(Applied(log, l).store, Applied(log, a).lastSeq);
      (forall es: seq<LogEntry> :: ApplyAll(node, es).store == ApplyAll(EMPTY_REPLICA, log[1..m + 1] + es).store)
      <==> node == Applied(log, m)
  {
    var m, node := Max(a, u), Replica(Applied(log, l).store, Applied(log, a).lastSeq);
    forall es: seq<LogEntry> ensures ApplyAll(EMPTY_REPLICA, log[1..m + 1] + es) == ApplyAll(Applied(log, m), es) {
      ApplyAllConcat(EMPTY_REPLICA, log[1..m + 1], es);
    }
    SameForEverySuffixIff(node, Applied(log, m));
  }

  // ---- Inputs on which it fails -------------------------------------------------------------

  /** A stale snapshot takes the store back while lastApplied stays, so an entry counted as applied is
      gone. */
  lemma StaleSnapshotRollsBack(first: LogEntry, second: LogEntry, m: Meta, n: Meta, k: Bytes, v: Bytes, w: Bytes)
    requires Parse(first.data) == Some(Put(m, k, v)) && Parse(second.data) == Some(Put(n, k, w))
    requires m.clientId != n.clientId && v != w && |k| < TWO_TO_32 && |v| < TWO_TO_32
    ensures Applied([DUMMY, first, second], 1).store == map[k := v] && Enumerates([k], map[k := v])
    ensures var log := [DUMMY, first, second];
      var installed := Installed(Applied(log, 2), 2, SnapshotImage(map[k := v], [k]), 1);
      installed.Some? && installed.value.1 == 2 && installed.value.0.store != Applied(log, 2).store
  {
    hide Parse, ParseSnapshot, SnapshotImage;
    var log := [DUMMY, first, second];
    assert log[1..2] == [first] && log[1..3] == [first] + [second];
    ApplyOne(EMPTY_REPLICA, first);
    ApplyOne(ApplyEntry(EMPTY_REPLICA, first), second);
    ApplyAllConcat(EMPTY_REPLICA, [first], [second]);
    SnapshotRoundTripIff(map[k := v], [k]);
    assert map[k := v][k] == v && Applied(log, 2).store[k] == w;
  }

  /** A snapshot of the store after two entries labelled 1, which `takeSnapshot(1)` makes, has a fresh node
      append the second entry's value twice, though no number is ever used again. */
  lemma EarlyLabelAppliesTwice(first: LogEntry, second: LogEntry, m: Meta, n: Meta, k: Bytes, v: Bytes, w: Bytes)
    requires Parse(first.data) == Some(Put(m, k, v)) && Parse(second.data) == Some(Append(n, k, w))
    requires m.clientId != n.clientId && w != [] && |k| < TWO_TO_32 && |v + w| < TWO_TO_32
    ensures Applied([DUMMY, first, second], 2).store == map[k := v + w] && Enumerates([k], map[k := v + w])
    ensures var log := [DUMMY, first, second];
      var installed := Installed(Applied(log, 0), 0, SnapshotImage(map[k := v + w], [k]), 1);
      && installed.Some? && installed.value.1 == 1
      && ApplyAll(installed.value.0, log[2..3]).store == map[k := v + w + w] != Applied(log, 2).store
  {
    hide Parse, ParseSnapshot, SnapshotImage;
    var log := [DUMMY, first, second];
    assert log[1..1] == [] && log[2..3] == [second] && log[1..3] == [first] + [second];
    ApplyOne(EMPTY_REPLICA, first);
    ApplyOne(ApplyEntry(EMPTY_REPLICA, first), second);
    ApplyAllConcat(EMPTY_REPLICA, [first], [second]);
    SnapshotRoundTripIff(map[k := v + w], [k]);
    ApplyOne(Replica(map[k := v + w], map[]), second);
    assert map[k := v + w + w][k] != map[k := v + w][k];
  }

  /** And with a gap it fails too: a command retried into the log after the snapshot is applied again by
      a node whose own client table never saw it, because the snapshot does not carry the table. */
  lemma RetriedAppendIsAppliedTwice(e: LogEntry, m: Meta, k: Bytes, v: Bytes)
    requires Parse(e.data) == Some(Append(m, k, v)) && v != []
    ensures var log := [DUMMY, e, e];
      && Gap(Applied(log, 0).lastSeq, Applied(log, 1).lastSeq, log[2..3], 0)
      && ApplyAll(Replica(Applied(log, 1).store, Applied(log, 0).lastSeq), log[2..3]).store == map[k := v + v]
      && Applied(log, 2).store == map[k := v]
  {
    hide Parse;
    var log := [DUMMY, e, e];
    assert log[1..1] == [] && log[1..2] == [e] && log[2..3] == [e] && log[1..3] == [e] + [e];
    ApplyOne(EMPTY_REPLICA, e);
    ApplyOne(Applied(log, 1), e);
    ApplyOne(Replica(Applied(log, 1).store, Applied(log, 0).lastSeq), e);
    ApplyAllConcat(EMPTY_REPLICA, [e], [e]);
  }
}
