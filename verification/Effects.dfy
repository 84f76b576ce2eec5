/** What a command does to the store, key by key (src/kvstore/KVStore.cpp:3-32, src/raft/RaftNode.cpp:427-433). */
module Effects {
  import opened Wrappers
  import opened ByteCodec
  import opened Commands
  import opened Logs
  import opened Replay
  import opened Clusters
  import opened Safety

  /** What is bound to a key, if anything. */
  function Binding(store: KV, k: Bytes): Option<Bytes> {
    if k in store then Some(store[k]) else None
  }

  predicate Writes(c: Command, k: Bytes) {
    !c.Get? && c.key == k
  }

  // ---- One command more --------------------------------------------------------------------

  /** The difference one command makes: other keys keep their binding or its absence; a get changes
      nothing; a put binds the very value; an append extends what was bound, if anything. */
  ghost predicate OneCommandMore(before: KV, after: KV, c: Command) {
    && (forall k :: k != c.key ==> Binding(after, k) == Binding(before, k))
    && match c
       case Get(_, k) => after == before
       case Put(_, k, v) => Binding(after, k) == Some(v)
       case Append(_, k, v) => Binding(after, k) == Some((if k in before then before[k] else []) + v)
  }

  lemma ExecuteOneMore(store: KV, cs: seq<Command>, c: Command)
    ensures OneCommandMore(Execute(store, cs), Execute(store, cs + [c]), c)
  {
    assert (cs + [c])[..|cs|] == cs;
    if c.Append? && c.key !in Execute(store, cs) {
      assert [] + c.value == c.value;
    }
  }

  /** Applying one entry more: a command whose number exceeds all earlier ones of its client makes that
      difference and leaves its number in the table; any other entry changes nothing at all. */
  lemma ApplyOneMore(es: seq<LogEntry>, e: LogEntry)
    ensures var before, after := ApplyAll(EMPTY_REPLICA, es), ApplyAll(EMPTY_REPLICA, es + [e]);
      match Parse(e.data)
      case None => after == before
      case Some(c) =>
        if Exceeds(es, c)
        then OneCommandMore(before.store, after.store, c)
             && after.lastSeq == before.lastSeq[c.meta.clientId := c.meta.sequenceNum]
        else after == before
  {
    hide Parse, Exceeds;
    assert (es + [e])[..|es|] == es;
    if Parse(e.data).Some? {
      var c := Parse(e.data).value;
      TableMeans(es, c);
      var before := ApplyAll(EMPTY_REPLICA, es).store;
      if c.Append? && c.key !in before {
        assert [] + c.value == c.value;
      }
    }
  }

  // ---- The value of a key, in closed form ----------------------------------------------------

  function AppendedHere(c: Command, k: Bytes): Bytes {
    if c.Append? && c.key == k then c.value else []
  }

  /** The values of the appends to `k` among commands i, i + 1, ..., one after the other. */
  function AppendedFrom(cs: seq<Command>, k: Bytes, i: nat): Bytes
    requires i <= |cs|
    decreases |cs| - i
  {
    if i == |cs| then []
    else AppendedHere(cs[i], k) + AppendedFrom(cs, k, i + 1)
  }

  lemma {:induction false} AppendedOneMore(cs: seq<Command>, c: Command, k: Bytes, i: nat)
    requires i <= |cs|
    ensures AppendedFrom(cs + [c], k, i) == AppendedFrom(cs, k, i) + AppendedHere(c, k)
    decreases |cs| - i
  {
    hide AppendedHere;
    var cs' := cs + [c];
    if i < |cs| {
      AppendedOneMore(cs, c, k, i + 1);
      assert cs'[i] == cs[i];
      SeqAssociates(AppendedHere(cs[i], k), AppendedFrom(cs, k, i + 1), AppendedHere(c, k));
    } else {
      assert cs'[i] == c;
      assert AppendedFrom(cs', k, i + 1) == [];
    }
  }

  /** Command i is the last put of `k`. */
  ghost predicate LastPut(cs: seq<Command>, k: Bytes, i: nat) {
    && i < |cs| && cs[i].Put? && cs[i].key == k
    && forall j :: i < j < |cs| ==> !(cs[j].Put? && cs[j].key == k)
  }

  ghost predicate NoPut(cs: seq<Command>, k: Bytes) {
    forall j :: 0 <= j < |cs| ==> !(cs[j].Put? && cs[j].key == k)
  }

  ghost predicate Unwritten(cs: seq<Command>, k: Bytes) {
    forall j :: 0 <= j < |cs| ==> !Writes(cs[j], k)
  }

  /** The value of `k` after commands `cs` on an empty store: nothing if it is never written; else the value
      of its last put, or nothing if there is none, followed by all later appends to it. */
  ghost predicate IsValue(cs: seq<Command>, k: Bytes, v: Option<Bytes>) {
    && (v.None? <==> Unwritten(cs, k))
    && (forall i: nat :: LastPut(cs, k, i) ==> v == Some(cs[i].value + AppendedFrom(cs, k, i + 1)))
    && (NoPut(cs, k) && v.Some? ==> v == Some(AppendedFrom(cs, k, 0)))
  }

  lemma {:induction false} ValueIs(cs: seq<Command>, k: Bytes)
    ensures IsValue(cs, k, Binding(Execute(map[], cs), k))
  {
    hide Execute, IsValue, OneCommandMore;
    if cs == [] {
      ExecuteNothing(map[]);
      NoValueYet(k);
    } else {
      var prior, c := cs[..|cs| - 1], cs[|cs| - 1];
      assert cs == prior + [c];
      ValueIs(prior, k);
      ExecuteOneMore(map[], prior, c);
      BindingAfter(Execute(map[], prior), Execute(map[], cs), c, k);
      ValueOneMore(prior, c, k, Binding(Execute(map[], prior), k));
    }
  }

  lemma NoValueYet(k: Bytes)
    ensures IsValue([], k, Binding(map[], k))
  {
  }

  function Rebound(v: Option<Bytes>, c: Command, k: Bytes): Option<Bytes> {
    if !Writes(c, k) then v
    else if c.Put? then Some(c.value)
    else Some((if v.Some? then v.value else []) + c.value)
  }

  lemma BindingAfter(before: KV, after: KV, c: Command, k: Bytes)
    requires OneCommandMore(before, after, c)
    ensures Binding(after, k) == Rebound(Binding(before, k), c, k)
  {
  }

  lemma ValueOneMore(prior: seq<Command>, c: Command, k: Bytes, v: Option<Bytes>)
    requires IsValue(prior, k, v)
    ensures IsValue(prior + [c], k, Rebound(v, c, k))
  {
    hide Unwritten, AppendedFrom, NoPut;
    var cs := prior + [c];
    UnwrittenOneMore(prior, c, k);
    AppendedOneMore(prior, c, k, 0);
    forall i: nat | LastPut(cs, k, i) ensures Rebound(v, c, k) == Some(cs[i].value + AppendedFrom(cs, k, i + 1)) {
      if i < |prior| {
        AfterLastPut(prior, c, k, i);
        assert cs[i] == prior[i];
        var rest := AppendedFrom(prior, k, i + 1);
        assert v == Some(prior[i].value + rest);
        assert rest + [] == rest;
        if c.Append? && c.key == k {
          SeqAssociates(prior[i].value, rest, c.value);
        }
      } else {
        PutLast(prior, c, k);
      }
    }
    if NoPut(cs, k) && Rebound(v, c, k).Some? {
      NoPutBefore(prior, c, k);
      assert AppendedFrom(prior, k, 0) + [] == AppendedFrom(prior, k, 0);
    }
  }

  lemma SeqAssociates(a: Bytes, b: Bytes, c: Bytes)
    ensures a + b + c == a + (b + c)
  {
  }

  lemma PutLast(prior: seq<Command>, c: Command, k: Bytes)
    requires LastPut(prior + [c], k, |prior|)
    ensures c.Put? && c.key == k && AppendedFrom(prior + [c], k, |prior| + 1) == []
    ensures c.value + [] == c.value
  {
    assert (prior + [c])[|prior|] == c;
  }

  lemma UnwrittenOneMore(cs: seq<Command>, c: Command, k: Bytes)
    ensures Unwritten(cs + [c], k) <==> Unwritten(cs, k) && !Writes(c, k)
    ensures Unwritten(cs, k) ==> AppendedFrom(cs, k, 0) == []
  {
    if Unwritten(cs + [c], k) {
      forall j | 0 <= j < |cs| ensures !Writes(cs[j], k) {
        assert (cs + [c])[j] == cs[j];
      }
      assert (cs + [c])[|cs|] == c;
    }
    if Unwritten(cs, k) {
      NothingAppended(cs, k, 0);
    }
  }

  lemma {:induction false} NothingAppended(cs: seq<Command>, k: Bytes, i: nat)
    requires i <= |cs| && Unwritten(cs, k)
    ensures AppendedFrom(cs, k, i) == []
    decreases |cs| - i
  {
    if i < |cs| {
      NothingAppended(cs, k, i + 1);
      assert !Writes(cs[i], k);
    }
  }

  lemma AfterLastPut(prior: seq<Command>, c: Command, k: Bytes, i: nat)
    requires i < |prior| && LastPut(prior + [c], k, i)
    ensures LastPut(prior, k, i) && !Unwritten(prior, k) && !(c.Put? && c.key == k)
    ensures AppendedFrom(prior + [c], k, i + 1)
            == AppendedFrom(prior, k, i + 1) + AppendedHere(c, k)
  {
    var cs := prior + [c];
    assert cs[|prior|] == c && cs[i] == prior[i];
    forall j | i < j < |prior| ensures !(prior[j].Put? && prior[j].key == k) {
      assert cs[j] == prior[j];
    }
    assert Writes(prior[i], k);
    AppendedOneMore(prior, c, k, i + 1);
  }

  lemma NoPutBefore(prior: seq<Command>, c: Command, k: Bytes)
    requires NoPut(prior + [c], k)
    ensures NoPut(prior, k) && !(c.Put? && c.key == k)
  {
    var cs := prior + [c];
    assert cs[|prior|] == c;
    forall j | 0 <= j < |prior| ensures !(prior[j].Put? && prior[j].key == k) {
      assert cs[j] == prior[j];
    }
  }

  // ---- In a cluster ---------------------------------------------------------------------------

  /** What any node of any run holds at a key, in terms of the commands of its applied entries that exceed
      all earlier ones of their client. */
  lemma NodeHoldsWritten(cfg: Config, run: seq<Cluster>, i: nat, x: nat, k: Bytes)
    requires IsRun(cfg, run) && At(run, i, x)
    ensures var s := Node(run, i, x);
      && s.lastApplied < |s.log|
      && var cs := Effective(s.log[1..s.lastApplied + 1]);
      IsValue(cs, k, Binding(s.replica.store, k))
  {
    hide IsRun, Effective, Execute, IsValue;
    StoreIsExecutionOfEffective(cfg, run, i, x);
    var s := Node(run, i, x);
    ValueIs(Effective(s.log[1..s.lastApplied + 1]), k);
  }
}
