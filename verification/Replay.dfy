/** The state machine that committed entries drive (src/raft/RaftNode.cpp:409-440): a key-value
    map and, per client, the last sequence number that took effect. */
module Replay {
  import opened Wrappers
  import opened ByteCodec
  import opened Commands
  import opened Logs

  type KV = map<Bytes, Bytes>
  type SeqTable = map<u64, u64>

  datatype Replica = Replica(store: KV, lastSeq: SeqTable)

  const EMPTY_REPLICA: Replica := Replica(map[], map[])

  /** What a command does to the map, deduplication aside. */
  function Effect(store: KV, c: Command): KV {
    match c
    case Put(_, k, v) => store[k := v]
    case Append(_, k, v) => if k in store then store[k := store[k] + v] else store[k := v]
    case Get(_, _) => store
  }

  predicate IsDuplicate(lastSeq: SeqTable, m: Meta) {
    m.clientId in lastSeq && lastSeq[m.clientId] >= m.sequenceNum
  }

  function ApplyCommand(r: Replica, c: Command): Replica {
    if IsDuplicate(r.lastSeq, c.meta) then r
    else Replica(Effect(r.store, c), r.lastSeq[c.meta.clientId := c.meta.sequenceNum])
  }

  /** Applying one entry; bytes that do not parse are swallowed with the exception. */
  function ApplyEntry(r: Replica, e: LogEntry): Replica {
    match Parse(e.data)
    case None => r
    case Some(c) => ApplyCommand(r, c)
  }

  function ApplyAll(r: Replica, es: seq<LogEntry>): Replica {
    if es == [] then r else ApplyEntry(ApplyAll(r, es[..|es| - 1]), es[|es| - 1])
  }

  lemma {:induction false} ApplyAllConcat(r: Replica, a: seq<LogEntry>, b: seq<LogEntry>)
    ensures ApplyAll(r, a + b) == ApplyAll(ApplyAll(r, a), b)
  {
    if b == [] {
      assert a + b == a;
    } else {
      ApplyAllConcat(r, a, b[..|b| - 1]);
      assert (a + b)[..|a + b| - 1] == a + b[..|b| - 1];
    }
  }

  lemma ApplyOne(r: Replica, e: LogEntry)
    ensures ApplyAll(r, [e]) == ApplyEntry(r, e)
  {
    assert [e][..0] == [];
  }

  /** The same fold, front first. */
  lemma ApplyAllFront(r: Replica, es: seq<LogEntry>)
    requires es != []
    ensures ApplyAll(r, es) == ApplyAll(ApplyEntry(r, es[0]), es[1..])
  {
    ApplyAllConcat(r, [es[0]], es[1..]);
    assert [es[0]] + es[1..] == es;
    ApplyOne(r, es[0]);
  }

  // ---- Exactly once ------------------------------------------------------------------

  /** The command's number exceeds that of every earlier command of its client. */
  ghost predicate Exceeds(prior: seq<LogEntry>, c: Command) {
    forall i :: 0 <= i < |prior| ==> NumberedBelow(prior[i], c.meta)
  }

  predicate NumberedBelow(e: LogEntry, m: Meta) {
    var d := Parse(e.data);
    d.Some? && d.value.meta.clientId == m.clientId ==> d.value.meta.sequenceNum < m.sequenceNum
  }

  /** The commands of a log that ought to take effect: those whose number exceeds all earlier ones of
      their client. */
  ghost function Effective(es: seq<LogEntry>): seq<Command> {
    if es == [] then []
    else
      var prior := es[..|es| - 1];
      var c := Parse(es[|es| - 1].data);
      Effective(prior) + (if c.Some? && Exceeds(prior, c.value) then [c.value] else [])
  }

  /** Plain execution, no deduplication. */
  function Execute(store: KV, cs: seq<Command>): KV {
    if cs == [] then store else Effect(Execute(store, cs[..|cs| - 1]), cs[|cs| - 1])
  }

  lemma DuplicateAfter(r: Replica, e: LogEntry, m: Meta)
    ensures IsDuplicate(ApplyEntry(r, e).lastSeq, m) <==> IsDuplicate(r.lastSeq, m) || !NumberedBelow(e, m)
  {
    hide Parse, Effect;
  }

  lemma ExceedsSplit(es: seq<LogEntry>, c: Command)
    requires es != []
    ensures Exceeds(es, c) <==> Exceeds(es[..|es| - 1], c) && NumberedBelow(es[|es| - 1], c.meta)
  {
    hide NumberedBelow;
    var prior := es[..|es| - 1];
    if Exceeds(prior, c) && NumberedBelow(es[|es| - 1], c.meta) {
      forall i | 0 <= i < |es| ensures NumberedBelow(es[i], c.meta) {
        assert i < |prior| ==> prior[i] == es[i];
      }
    }
    if Exceeds(es, c) {
      forall i | 0 <= i < |prior| ensures NumberedBelow(prior[i], c.meta) {
        assert prior[i] == es[i];
      }
    }
  }

  /** What the client table means: a command is a duplicate exactly when some earlier command of its
      client had a number at least as great. */
  lemma {:induction false} TableMeans(es: seq<LogEntry>, c: Command)
    ensures IsDuplicate(ApplyAll(EMPTY_REPLICA, es).lastSeq, c.meta) <==> !Exceeds(es, c)
  {
    hide ApplyEntry, NumberedBelow;
    if es != [] {
      TableMeans(es[..|es| - 1], c);
      ExceedsSplit(es, c);
      DuplicateAfter(ApplyAll(EMPTY_REPLICA, es[..|es| - 1]), es[|es| - 1], c.meta);
    }
  }

  lemma StoreAfter(r: Replica, e: LogEntry)
    ensures ApplyEntry(r, e).store
            == if Parse(e.data).Some? && !IsDuplicate(r.lastSeq, Parse(e.data).value.meta)
               then Effect(r.store, Parse(e.data).value) else r.store
  {
    hide Parse, Effect;
  }

  lemma ExecuteSnoc(store: KV, cs: seq<Command>, c: Command)
    ensures Execute(store, cs + [c]) == Effect(Execute(store, cs), c)
  {
    hide Effect;
    assert (cs + [c])[..|cs|] == cs;
  }

  /** Exactly once: the deduplicating replay of any log is the plain execution of its effective
      commands. */
  lemma {:induction false} ReplayIsExecutionOfEffective(es: seq<LogEntry>)
    ensures ApplyAll(EMPTY_REPLICA, es).store == Execute(map[], Effective(es))
  {
    hide Parse, Effect, Exceeds, IsDuplicate, ApplyEntry, Execute;
    if es == [] {
      ExecuteNothing(map[]);
    } else {
      var prior, last := es[..|es| - 1], es[|es| - 1];
      ReplayIsExecutionOfEffective(prior);
      StoreAfter(ApplyAll(EMPTY_REPLICA, prior), last);
      var c := Parse(last.data);
      if c.Some? {
        TableMeans(prior, c.value);
        ExecuteSnoc(map[], Effective(prior), c.value);
      }
      assert Effective(prior) + [] == Effective(prior);
    }
  }

  lemma ExecuteNothing(store: KV)
    ensures Execute(store, []) == store
  {
  }

  lemma {:induction false} EffectiveComeFrom(es: seq<LogEntry>, i: nat) returns (j: nat)
    requires i < |Effective(es)|
    ensures j < |es| && Parse(es[j].data) == Some(Effective(es)[i])
  {
    var prior := es[..|es| - 1];
    if i < |Effective(prior)| {
      j := EffectiveComeFrom(prior, i);
    } else {
      j := |es| - 1;
    }
  }

  /** No (client, number) pair takes effect twice: a client's effective numbers strictly increase. */
  lemma {:induction false} EffectiveNumbersIncrease(es: seq<LogEntry>, i: nat, j: nat)
    requires i < j < |Effective(es)|
    requires Effective(es)[i].meta.clientId == Effective(es)[j].meta.clientId
    ensures Effective(es)[i].meta.sequenceNum < Effective(es)[j].meta.sequenceNum
  {
    var prior := es[..|es| - 1];
    if j < |Effective(prior)| {
      EffectiveNumbersIncrease(prior, i, j);
    } else {
      var k := EffectiveComeFrom(prior, i);
      assert NumberedBelow(prior[k], Effective(es)[j].meta);
    }
  }

  /** Inserting again, anywhere later, a command whose client has already got as far changes nothing
      at all, whatever follows. */
  lemma RepeatChangesNothing(before: seq<LogEntry>, again: LogEntry, after: seq<LogEntry>)
    requires Parse(again.data).Some? ==> !Exceeds(before, Parse(again.data).value)
    ensures ApplyAll(EMPTY_REPLICA, before + [again] + after) == ApplyAll(EMPTY_REPLICA, before + after)
  {
    if Parse(again.data).Some? {
      TableMeans(before, Parse(again.data).value);
    }
    assert (before + [again])[..|before|] == before;
    assert ApplyAll(EMPTY_REPLICA, before + [again]) == ApplyAll(EMPTY_REPLICA, before);
    ApplyAllConcat(EMPTY_REPLICA, before + [again], after);
    ApplyAllConcat(EMPTY_REPLICA, before, after);
  }
}
