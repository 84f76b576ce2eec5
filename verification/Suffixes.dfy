/** Replaying a suffix of the log from a client table that need not be that of the prefix before it
    (src/raft/RaftNode.cpp:409-440): which commands take effect, and when they are those that ought to. */
module Suffixes {
  import opened ByteCodec
  import opened Commands
  import opened Logs
  import opened Replay

  /** Which entries take effect when replay starts from this client table. */
  function Verdicts(table: SeqTable, es: seq<LogEntry>): seq<bool>
    decreases |es|
  {
    if es == [] then []
    else [TakesEffect(table, es[0])] + Verdicts(TableAfter(table, es[0]), es[1..])
  }

  predicate TakesEffect(table: SeqTable, e: LogEntry) {
    Parse(e.data).Some? && !IsDuplicate(table, Parse(e.data).value.meta)
  }

  function TableAfter(table: SeqTable, e: LogEntry): SeqTable {
    if TakesEffect(table, e) then table[Parse(e.data).value.meta.clientId := Parse(e.data).value.meta.sequenceNum]
    else table
  }

  function TakenHere(table: SeqTable, e: LogEntry): seq<Command> {
    if TakesEffect(table, e) then [Parse(e.data).value] else []
  }

  /** The commands that take effect when replay starts from this client table, in order. */
  function Taken(table: SeqTable, es: seq<LogEntry>): seq<Command>
    decreases |es|
  {
    if es == [] then []
    else TakenHere(table, es[0]) + Taken(TableAfter(table, es[0]), es[1..])
  }

  function TableOver(table: SeqTable, es: seq<LogEntry>): SeqTable
    decreases |es|
  {
    if es == [] then table else TableOver(TableAfter(table, es[0]), es[1..])
  }

  // ---- What the replay performs ----------------------------------------------------------

  lemma {:induction false} ExecuteConcat(store: KV, a: seq<Command>, b: seq<Command>)
    ensures Execute(store, a + b) == Execute(Execute(store, a), b)
  {
    hide Effect;
    if b == [] {
      assert a + b == a;
    } else {
      ExecuteConcat(store, a, b[..|b| - 1]);
      assert (a + b)[..|a + b| - 1] == a + b[..|b| - 1];
    }
  }

  lemma ExecuteOne(store: KV, c: Command)
    ensures Execute(store, [c]) == Effect(store, c)
  {
    hide Effect;
    assert [c][..0] == [];
  }

  lemma StepIs(r: Replica, e: LogEntry)
    ensures TakesEffect(r.lastSeq, e) ==> Parse(e.data).Some?
    ensures ApplyEntry(r, e).lastSeq == TableAfter(r.lastSeq, e)
    ensures ApplyEntry(r, e).store == if TakesEffect(r.lastSeq, e) then Effect(r.store, Parse(e.data).value) else r.store
  {
    hide Parse, Effect;
  }

  /** A replay from any replica executes the commands taken, and leaves the table over the entries. */
  lemma {:induction false} ReplayIsExecutionOfTaken(r: Replica, es: seq<LogEntry>)
    ensures ApplyAll(r, es) == Replica(Execute(r.store, Taken(r.lastSeq, es)), TableOver(r.lastSeq, es))
    decreases |es|
  {
    hide Parse, Effect, ApplyEntry, TakesEffect, TableAfter, Execute, ApplyAll;
    if es == [] {
      ExecuteNothing(r.store);
      ApplyNothing(r);
    } else {
      var e := es[0];
      ApplyAllFront(r, es);
      StepIs(r, e);
      ReplayIsExecutionOfTaken(ApplyEntry(r, e), es[1..]);
      var rest := Taken(TableAfter(r.lastSeq, e), es[1..]);
      if TakesEffect(r.lastSeq, e) {
        var c := Parse(e.data).value;
        ExecuteConcat(r.store, [c], rest);
        ExecuteOne(r.store, c);
      } else {
        assert [] + rest == rest;
      }
    }
  }

  lemma ApplyNothing(r: Replica)
    ensures ApplyAll(r, []) == r
  {
  }

  lemma {:induction false} TakenConcat(table: SeqTable, a: seq<LogEntry>, b: seq<LogEntry>)
    ensures Taken(table, a + b) == Taken(table, a) + Taken(TableOver(table, a), b)
    ensures TableOver(table, a + b) == TableOver(TableOver(table, a), b)
    decreases |a|
  {
    hide TakesEffect, TableAfter, Parse, Taken, TableOver;
    if a == [] {
      assert a + b == b;
      TakenNothing(table);
      assert [] + Taken(table, b) == Taken(table, b);
    } else {
      TakenFront(table, a);
      TakenFront(table, a + b);
      TakenConcat(TableAfter(table, a[0]), a[1..], b);
      assert (a + b)[1..] == a[1..] + b && (a + b)[0] == a[0];
      SeqConcatAssociates(TakenHere(table, a[0]), Taken(TableAfter(table, a[0]), a[1..]),
                          Taken(TableOver(table, a), b));
    }
  }

  lemma SeqConcatAssociates<T>(a: seq<T>, b: seq<T>, c: seq<T>)
    ensures a + b + c == a + (b + c)
  {
  }

  lemma TakenNothing(table: SeqTable)
    ensures Taken(table, []) == [] && TableOver(table, []) == table
  {
  }

  lemma TakenFront(table: SeqTable, es: seq<LogEntry>)
    requires es != []
    ensures Taken(table, es) == TakenHere(table, es[0]) + Taken(TableAfter(table, es[0]), es[1..])
    ensures TableOver(table, es) == TableOver(TableAfter(table, es[0]), es[1..])
  {
  }

  lemma {:induction false} NothingTaken(table: SeqTable, es: seq<LogEntry>)
    requires Taken(table, es) == []
    ensures TableOver(table, es) == table
    decreases |es|
  {
    hide TakesEffect, Parse;
    if es != [] {
      NothingTaken(TableAfter(table, es[0]), es[1..]);
    }
  }

  lemma TakenOne(table: SeqTable, e: LogEntry)
    ensures Taken(table, [e]) == TakenHere(table, e)
  {
    hide TakesEffect, TableAfter, Parse;
    assert [e][1..] == [];
    assert Taken(TableAfter(table, e), []) == [];
  }

  /** From an empty table, what is taken is what ought to take effect. */
  lemma {:induction false} TakenFromNothing(es: seq<LogEntry>)
    ensures Taken(map[], es) == Effective(es)
  {
    hide Parse, Exceeds, ApplyAll, TableOver, IsDuplicate;
    if es != [] {
      var prior, last := es[..|es| - 1], es[|es| - 1];
      assert es == prior + [last];
      TakenFromNothing(prior);
      TakenConcat(map[], prior, [last]);
      TakenOne(TableOver(map[], prior), last);
      ReplayIsExecutionOfTaken(EMPTY_REPLICA, prior);
      if Parse(last.data).Some? {
        TableMeans(prior, Parse(last.data).value);
      }
    }
  }

  // ---- An older table against a later one ------------------------------------------------

  ghost predicate AtMost(r: SeqTable, f: SeqTable) {
    forall id :: id in r ==> id in f && r[id] <= f[id]
  }

  /** Entry j is one the table r lets through and the later table f does not, and no entry before it
      has brought the two level for its client. */
  ghost predicate Gap(r: SeqTable, f: SeqTable, es: seq<LogEntry>, j: nat) {
    && j < |es| && Parse(es[j].data).Some?
    && var m := Parse(es[j].data).value.meta;
    && !IsDuplicate(r, m) && IsDuplicate(f, m)
    && forall i :: 0 <= i < j ==> WithinTable(f, es[i], m.clientId)
  }

  predicate WithinTable(f: SeqTable, e: LogEntry, id: u64) {
    Parse(e.data).Some? && Parse(e.data).value.meta.clientId == id ==> IsDuplicate(f, Parse(e.data).value.meta)
  }

  ghost predicate NoGap(r: SeqTable, f: SeqTable, es: seq<LogEntry>) {
    forall j: nat :: !Gap(r, f, es, j)
  }

  /** Replaying from an older client table takes the same decisions if and only if there is no gap. */
  lemma {:induction false} SameVerdictsIffNoGap(r: SeqTable, f: SeqTable, es: seq<LogEntry>)
    requires AtMost(r, f)
    ensures Verdicts(r, es) == Verdicts(f, es) <==> NoGap(r, f, es)
    decreases |es|
  {
    if es != [] {
      var e, rest := es[0], es[1..];
      var r', f' := TableAfter(r, e), TableAfter(f, e);
      var vr, vf := Verdicts(r, es), Verdicts(f, es);
      assert vr[1..] == Verdicts(r', rest) && vf[1..] == Verdicts(f', rest);
      if TakesEffect(r, e) != TakesEffect(f, e) {
        assert Gap(r, f, es, 0);
        assert vr[0] != vf[0];
      } else {
        SameVerdictsIffNoGap(r', f', rest);
        assert vr == [vr[0]] + vr[1..] && vf == [vf[0]] + vf[1..];
        forall j: nat ensures Gap(r, f, es, j + 1) <==> Gap(r', f', rest, j) {
          GapShifts(r, f, es, j);
        }
        assert !Gap(r, f, es, 0);
        if j: nat :| Gap(r, f, es, j) {
          var k: nat := j - 1;
          GapShifts(r, f, es, k);
          assert Gap(r', f', rest, k);
        }
      }
    }
  }

  lemma GapShifts(r: SeqTable, f: SeqTable, es: seq<LogEntry>, j: nat)
    requires es != [] && TakesEffect(r, es[0]) == TakesEffect(f, es[0])
    ensures Gap(r, f, es, j + 1) <==> Gap(TableAfter(r, es[0]), TableAfter(f, es[0]), es[1..], j)
  {
    hide Parse;
    var e, rest := es[0], es[1..];
    var r', f' := TableAfter(r, e), TableAfter(f, e);
    if j + 1 < |es| && Parse(es[j + 1].data).Some? {
      var m := Parse(es[j + 1].data).value.meta;
      assert rest[j] == es[j + 1];
      if Gap(r, f, es, j + 1) {
        assert WithinTable(f, es[0], m.clientId);
        forall i | 0 <= i < j ensures WithinTable(f', rest[i], m.clientId) {
          assert WithinTable(f, es[i + 1], m.clientId);
        }
      }
      if Gap(r', f', rest, j) {
        forall i | 0 <= i < j + 1 ensures WithinTable(f, es[i], m.clientId) {
          if i > 0 {
            assert WithinTable(f', rest[i - 1], m.clientId);
          }
        }
      }
    }
  }

  lemma {:induction false} TableGrows(table: SeqTable, es: seq<LogEntry>)
    ensures AtMost(table, TableOver(table, es))
    decreases |es|
  {
    hide Parse;
    if es != [] {
      TableGrows(TableAfter(table, es[0]), es[1..]);
    }
  }

  /** One entry: the older table takes it if the later one does, and stays the older. */
  lemma OlderTakesMore(r: SeqTable, f: SeqTable, e: LogEntry)
    requires AtMost(r, f)
    ensures TakesEffect(f, e) ==> TakesEffect(r, e)
    ensures AtMost(TableAfter(r, e), TableAfter(f, e))
  {
    hide Parse;
  }

  lemma {:induction false} OlderStaysOlder(r: SeqTable, f: SeqTable, es: seq<LogEntry>)
    requires AtMost(r, f)
    ensures AtMost(TableOver(r, es), TableOver(f, es))
    decreases |es|
  {
    hide AtMost, TableAfter;
    if es != [] {
      OlderTakesMore(r, f, es[0]);
      OlderStaysOlder(TableAfter(r, es[0]), TableAfter(f, es[0]), es[1..]);
    }
  }

  /** An older table takes all that a later one takes, and the same if and only if it decides every
      entry alike. */
  lemma {:induction false} TakenAlikeIff(r: SeqTable, f: SeqTable, es: seq<LogEntry>)
    requires AtMost(r, f)
    ensures |Taken(f, es)| <= |Taken(r, es)|
    ensures |Taken(r, es)| == |Taken(f, es)| <==> Verdicts(r, es) == Verdicts(f, es)
    ensures Verdicts(r, es) == Verdicts(f, es) ==> Taken(r, es) == Taken(f, es)
    decreases |es|
  {
    hide AtMost, TableAfter, TakesEffect, Parse;
    if es != [] {
      var vr, vf := Verdicts(r, es), Verdicts(f, es);
      OlderTakesMore(r, f, es[0]);
      TakenAlikeIff(TableAfter(r, es[0]), TableAfter(f, es[0]), es[1..]);
      assert vr[0] == TakesEffect(r, es[0]) && vf[0] == TakesEffect(f, es[0]);
      assert vr[1..] == Verdicts(TableAfter(r, es[0]), es[1..]) && vf[1..] == Verdicts(TableAfter(f, es[0]), es[1..]);
      assert vr == [vr[0]] + vr[1..] && vf == [vf[0]] + vf[1..];
    }
  }

  /** An older table takes what the later one takes if and only if there is no gap. */
  lemma SameTakenIffNoGap(r: SeqTable, f: SeqTable, es: seq<LogEntry>)
    requires AtMost(r, f)
    ensures |Taken(f, es)| <= |Taken(r, es)|
    ensures |Taken(r, es)| == |Taken(f, es)| <==> NoGap(r, f, es)
    ensures NoGap(r, f, es) ==> Taken(r, es) == Taken(f, es)
  {
    hide NoGap, AtMost, Taken, Verdicts;
    TakenAlikeIff(r, f, es);
    SameVerdictsIffNoGap(r, f, es);
  }

  /** The usual case: suffix numbers that exceed the prefix's leave no gap. */
  lemma FreshSuffixHasNoGap(prefix: seq<LogEntry>, r: SeqTable, suffix: seq<LogEntry>)
    requires forall i :: 0 <= i < |suffix| && Parse(suffix[i].data).Some? ==> Exceeds(prefix, Parse(suffix[i].data).value)
    ensures NoGap(r, ApplyAll(EMPTY_REPLICA, prefix).lastSeq, suffix)
  {
    forall j: nat ensures !Gap(r, ApplyAll(EMPTY_REPLICA, prefix).lastSeq, suffix, j) {
      if j < |suffix| && Parse(suffix[j].data).Some? {
        TableMeans(prefix, Parse(suffix[j].data).value);
      }
    }
  }

  // ---- Every suffix -----------------------------------------------------------------------

  /** Two replicas hold the same store after every suffix if and only if they are the same. */
  lemma SameForEverySuffixIff(r: Replica, f: Replica)
    ensures (forall es: seq<LogEntry> :: ApplyAll(r, es).store == ApplyAll(f, es).store) <==> r == f
  {
    if r.store != f.store {
      ApplyNothing(r);
      ApplyNothing(f);
      assert ApplyAll(r, []).store != ApplyAll(f, []).store;
    } else if r.lastSeq != f.lastSeq {
      var id: u64 :| !(id in r.lastSeq && id in f.lastSeq && r.lastSeq[id] == f.lastSeq[id])
                     && (id in r.lastSeq || id in f.lastSeq);
      if id in f.lastSeq && (id !in r.lastSeq || r.lastSeq[id] < f.lastSeq[id]) {
        TellsApart(r, f, id);
      } else {
        TellsApart(f, r, id);
      }
    }
  }

  /** If one table is ahead of the other for a client, an append of that client tells them apart. */
  lemma TellsApart(r: Replica, f: Replica, id: u64)
    requires r.store == f.store
    requires id in f.lastSeq && (id !in r.lastSeq || r.lastSeq[id] < f.lastSeq[id])
    ensures exists es: seq<LogEntry> :: ApplyAll(r, es).store != ApplyAll(f, es).store
  {
    var c := Command.Append(Meta(id, f.lastSeq[id]), [], [0]);
    LayoutFailsIff(c);
    var e := LogEntry(0, 0, Layout(c).value);
    ParseOfLayout(c, []);
    assert Layout(c).value + [] == e.data;
    hide Layout, Parse;
    ApplyOne(r, e);
    ApplyOne(f, e);
    assert ApplyAll(f, [e]).store == f.store;
    assert ApplyAll(r, [e]).store == Effect(r.store, c);
    assert Effect(r.store, c) != r.store by {
      assert [] in Effect(r.store, c);
      assert [] in r.store ==> |Effect(r.store, c)[[]]| == |r.store[[]]| + 1;
    }
  }
}
