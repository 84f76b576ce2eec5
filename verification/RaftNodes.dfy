/** The server class of src/raft/RaftNode.cpp. Each method is proved to do to the fields what the
    function of the same name in module Nodes does to the node as a value, whose log is the one that
    forgot nothing. Methods that ask the log by index and not by position do so on a compacted log too. */
module RaftNodes {
  import opened Wrappers
  import opened ByteCodec
  import opened Commands
  import opened Logs
  import opened Replay
  import opened RaftLogs
  import opened Stores
  import opened Snapshots
  import opened Handlers
  import opened Nodes
  import Persistence

  // ---- Specifications that only the code needs --------------------------------------

  /** The leader's books have a line per peer, and next indices count from 1. */
  predicate Booked(s: NodeState) {
    && |s.nextIndex| == |s.matchIndex| == |s.peers|
    && forall i :: 0 <= i < |s.nextIndex| ==> s.nextIndex[i] >= 1
  }

  /** Counting votes: the replies come in peer order. */
  function Campaign(s: NodeState, votes: nat, replies: seq<RequestVoteReply>): (t: NodeState)
    requires |s.log| >= 1
    ensures t.log == s.log && t.peers == s.peers && (Booked(s) ==> Booked(t))
    decreases |replies|
  {
    if replies == [] then (if votes >= Majority(|s.peers|) then Nodes.BecomeLeader(s) else s)
    else if replies[0].term > s.term then Nodes.BecomeFollower(s, replies[0].term)
    else Campaign(s, votes + (if replies[0].voteGranted then 1 else 0), replies[1..])
  }

  /** A heartbeat sweep as the code runs it, without a look at the role between peers. */
  function Sweep(s: NodeState, i: nat, replies: seq<AppendEntriesReply>): NodeState
    requires |s.log| >= 1 && i + |replies| == |s.nextIndex| && |s.nextIndex| == |s.matchIndex|
    requires forall k :: 0 <= k < |s.nextIndex| ==> s.nextIndex[k] >= 1
    decreases |replies|
  {
    if replies == [] then s
    else Sweep(OnAppendReply(s, i, AppendArgs(s, i), replies[0]), i + 1, replies[1..])
  }

  /** What a term seen in a request to install does: only a higher one makes a node step down. */
  function SeenTerm(s: NodeState, term: nat): NodeState {
    if term > s.term then Nodes.BecomeFollower(s, term) else s
  }

  /** The node with a snapshot in place of its store, written to disk. */
  function InstalledNode(s: NodeState, data: Bytes, lastIncluded: nat): Option<NodeState> {
    match Installed(s.replica, s.lastApplied, data, lastIncluded)
    case None => None
    case Some((replica, applied)) =>
      Some(Persist(s.(replica := replica, lastApplied := applied, commitIndex := Max(s.commitIndex, lastIncluded))))
  }

  /** What installing leaves: the snapshot's store with the node's own client table, indices that only rise,
      and all else as it was, on disk too. It fails if and only if the bytes are no snapshot. */
  lemma InstallOutcome(s: NodeState, data: Bytes, lastIncluded: nat)
    ensures InstalledNode(s, data, lastIncluded).Some? <==> ParseSnapshot(data).Some?
    ensures InstalledNode(s, data, lastIncluded).Some? ==>
      var t := InstalledNode(s, data, lastIncluded).value;
      && Some(t.replica.store) == ParseSnapshot(data) && t.replica.lastSeq == s.replica.lastSeq
      && t.commitIndex == (if s.commitIndex < lastIncluded then lastIncluded else s.commitIndex)
      && t.lastApplied == (if s.lastApplied < lastIncluded then lastIncluded else s.lastApplied)
      && t.disk == Durable(s.term, s.votedFor, s.log)
      && t == s.(replica := t.replica, commitIndex := t.commitIndex, lastApplied := t.lastApplied, disk := t.disk)
  {
    hide ParseSnapshot;
  }

  /** Before that, a higher term makes the node a follower that has not voted; the same term changes nothing. */
  lemma SeenTermOutcome(s: NodeState, term: nat)
    requires term >= s.term
    ensures SeenTerm(s, term)
            == if term == s.term then s
               else s.(term := term, role := Follower, votedFor := 0, leaderId := 0, disk := Durable(term, 0, s.log))
  {
  }

  /** The stored log stands for the whole one, and is it if nothing was compacted. */
  ghost predicate Stands(s: Stored, full: Log) {
    Represents(s, full) && (s.snapshotIndex == 0 ==> s.entries == full)
  }

  datatype InstallSnapshotArgs = InstallSnapshotArgs(
    term: nat, leaderId: nat, lastIncludedIndex: nat, lastIncludedTerm: nat, data: Bytes)

  class RaftNode {
    const nodeId: nat
    const peerIds: seq<nat>
    const log: RaftLog
    const kvStore: KVStore

    // Persistent state
    var currentTerm: nat
    var votedFor: nat

    // What the state file and the snapshot file hold
    var stateFile: Persistence.Saved
    var snapshotFile: Bytes

    // The log as if nothing had been compacted, and the state file's content likewise
    ghost var full: Log
    ghost var disk: Durable

    // State of all servers
    var commitIndex: nat
    var lastApplied: nat
    var role: Role
    var currentLeaderId: nat
    var lastAppliedSeq: SeqTable

    // Leader state, by position in peerIds
    var nextIndex: seq<nat>
    var matchIndex: seq<nat>

    // The current snapshot
    var snapshotData: Bytes
    var snapshotIndex: nat
    var snapshotTerm: nat

    /** The fields as one value. */
    ghost function State(): NodeState
      reads this, kvStore
    {
      NodeState(nodeId, peerIds, currentTerm, votedFor, full, commitIndex, lastApplied, role,
                currentLeaderId, nextIndex, matchIndex, Replica(kvStore.kvMap, lastAppliedSeq), disk)
    }

    /** The snapshot fields, which only the two snapshot operations touch. */
    ghost function Snapshot(): (Bytes, nat, nat, nat, nat)
      reads this, log
    {
      (snapshotData, snapshotIndex, snapshotTerm, log.snapshotIndex, log.snapshotTerm)
    }

    /** The state file holds the current fields. */
    ghost predicate FileIsCurrent()
      reads this, log
    {
      && stateFile == Persistence.Saved(currentTerm, votedFor, log.snapshotIndex, log.snapshotTerm, log.State())
      && (snapshotData != [] ==> snapshotFile == snapshotData)
    }

    /** The class invariant: log and state file stand for the whole log and the whole content. */
    ghost predicate Valid()
      reads this, log
    {
      && Stands(log.State(), full)
      && Stands(stateFile.log, disk.log) && stateFile.term == disk.term && stateFile.votedFor == disk.votedFor
      && log.snapshotIndex <= lastApplied
      && |nextIndex| == |matchIndex| == |peerIds|
      && forall i :: 0 <= i < |nextIndex| ==> nextIndex[i] >= 1
    }

    /** The node has not compacted its log, so that position and index agree. */
    ghost predicate Uncompacted()
      reads this, log
    {
      && Valid()
      && log.snapshotIndex == 0
      && log.State() == Stored(full, 0, 0) && WellIndexed(full)
    }

    /** A new process, over the state file of an earlier one if there is one. */
    constructor (id: nat, peers: seq<nat>, store: KVStore, saved: Option<Durable>)
      requires saved.Some? ==> WellIndexed(saved.value.log)
      requires store.kvMap == map[]
      ensures Uncompacted() && fresh(log) && kvStore == store
      ensures State() == if saved.None? then InitialNode(id, peers)
                         else Restart(InitialNode(id, peers).(disk := saved.value))
    {
      nodeId, peerIds, kvStore := id, peers, store;
      currentTerm, votedFor := 0, 0;
      full, disk := [DUMMY], Durable(0, 0, [DUMMY]);
      stateFile, snapshotFile := Persistence.Saved(0, 0, 0, 0, FRESH), [];
      commitIndex, lastApplied, role, currentLeaderId, lastAppliedSeq := 0, 0, Follower, 0, map[];
      nextIndex := seq(|peers|, _ => 1);
      matchIndex := seq(|peers|, _ => 0);
      snapshotData, snapshotIndex, snapshotTerm := [], 0, 0;
      log := new RaftLog();
      new;
      if saved.Some? {
        currentTerm, votedFor, disk := saved.value.term, saved.value.votedFor, saved.value;
        stateFile := Persistence.Saved(currentTerm, votedFor, 0, 0, Stored(saved.value.log, 0, 0));
        full, log.entries := saved.value.log, saved.value.log;
      }
    }

    // ---- Helpers ----------------------------------------------------------------------

    method PersistState()
      modifies this
      ensures State() == Persist(old(State())) && FileIsCurrent()
      ensures Snapshot() == old(Snapshot()) && full == old(full)
      ensures Stands(log.State(), full) ==> Stands(stateFile.log, disk.log)
    {
      stateFile := Persistence.Saved(currentTerm, votedFor, log.snapshotIndex, log.snapshotTerm, log.State());
      if snapshotData != [] {
        snapshotFile := snapshotData;
      }
      disk := Durable(currentTerm, votedFor, full);
    }

    method BecomeFollower(newTerm: nat)
      modifies this
      ensures State() == Nodes.BecomeFollower(old(State()), newTerm) && FileIsCurrent()
      ensures Snapshot() == old(Snapshot()) && full == old(full)
      ensures old(Valid()) ==> Valid()
    {
      currentTerm := newTerm;
      role := Follower;
      votedFor := 0;
      currentLeaderId := 0;
      PersistState();
    }

    method BecomeCandidate()
      modifies this
      ensures State() == Nodes.BecomeCandidate(old(State())) && FileIsCurrent()
      ensures Snapshot() == old(Snapshot())
      ensures old(Valid()) ==> Valid()
    {
      role := Candidate;
      currentTerm := currentTerm + 1;
      votedFor := nodeId;
      currentLeaderId := 0;
      PersistState();
    }

    method BecomeLeader()
      requires Valid()
      modifies this
      ensures Valid() && State() == Nodes.BecomeLeader(old(State()))
      ensures Snapshot() == old(Snapshot())
    {
      hide Represents;
      StandsAnswers(log.State(), full);
      role := Leader;
      currentLeaderId := nodeId;
      var lastLogIndex := log.GetLastIndex();
      for i := 0 to |peerIds|
        invariant Valid()
        invariant forall k :: 0 <= k < i ==> nextIndex[k] == lastLogIndex + 1 && matchIndex[k] == 0
        invariant Snapshot() == old(Snapshot())
        invariant State() == old(State()).(role := Leader, leaderId := nodeId, nextIndex := nextIndex, matchIndex := matchIndex)
      {
        nextIndex := nextIndex[i := lastLogIndex + 1];
        matchIndex := matchIndex[i := 0];
      }
      assert nextIndex == seq(|peerIds|, _ => lastLogIndex + 1);
      assert matchIndex == seq(|peerIds|, _ => 0);
    }

    method IsLogUpToDate(candidateLastLogIndex: nat, candidateLastLogTerm: nat) returns (ok: bool)
      requires Valid()
      ensures ok == UpToDate(candidateLastLogIndex, candidateLastLogTerm, full)
    {
      hide Represents;
      StandsAnswers(log.State(), full);
      var myLastLogIndex := log.GetLastIndex();
      var myLastLogTerm := log.GetLastTerm();
      if candidateLastLogTerm != myLastLogTerm {
        return candidateLastLogTerm > myLastLogTerm;
      }
      ok := candidateLastLogIndex >= myLastLogIndex;
    }

    // ---- Votes -------------------------------------------------------------------------

    method HandleRequestVote(args: RequestVoteArgs) returns (reply: RequestVoteReply)
      requires Valid()
      modifies this
      ensures Valid() && (State(), reply) == Nodes.HandleRequestVote(old(State()), args)
      ensures Snapshot() == old(Snapshot())
    {
      hide Represents;
      if args.term < currentTerm {
        return RequestVoteReply(currentTerm, false);
      }
      if args.term > currentTerm {
        BecomeFollower(args.term);
      }
      var canVote := votedFor == 0 || votedFor == args.candidateId;
      var logIsUpToDate := IsLogUpToDate(args.lastLogIndex, args.lastLogTerm);
      if canVote && logIsUpToDate {
        votedFor := args.candidateId;
        PersistState();
        return RequestVoteReply(currentTerm, true);
      }
      reply := RequestVoteReply(currentTerm, false);
    }

    /** The replies of the peers to the request for votes, and to the sweep that follows if the node wins,
        or the failures in their place, are parameters. */
    method StartElection(replies: seq<RequestVoteReply>, answers: seq<AppendEntriesReply>)
      returns (args: RequestVoteArgs)
      requires Uncompacted() && |replies| == |answers| == |peerIds|
      modifies this, kvStore
      ensures Uncompacted() && args == VoteArgs(Nodes.BecomeCandidate(old(State())))
      ensures var s := Campaign(Nodes.BecomeCandidate(old(State())), 1, replies);
        State() == if s.role == Leader then Sweep(s, 0, answers) else s
      ensures Snapshot() == old(Snapshot())
    {
      hide Represents;
      BecomeCandidate();
      var lastLogIndex := log.GetLastIndex();
      var lastLogTerm := log.GetLastTerm();
      args := RequestVoteArgs(currentTerm, nodeId, lastLogIndex, lastLogTerm);
      ghost var candidate := State();
      var votesReceived := 1;
      var votesNeeded := (|peerIds| + 1) / 2 + 1;
      for i := 0 to |peerIds|
        invariant State() == candidate && Uncompacted() && Snapshot() == old(Snapshot())
        invariant Campaign(candidate, 1, replies) == Campaign(candidate, votesReceived, replies[i..])
      {
        if replies[i].voteGranted {
          votesReceived := votesReceived + 1;
        }
        if replies[i].term > currentTerm {
          BecomeFollower(replies[i].term);
          return;
        }
      }
      if votesReceived >= votesNeeded {
        BecomeLeader();
        SendHeartbeats(answers);
      }
    }

    // ---- Replication, follower side ------------------------------------------------------

    /** The backwards scan for the first entry of the conflicting term. */
    method FindRunStart(from: nat) returns (r: nat)
      requires 1 <= from < |log.entries|
      ensures r == RunStart(log.entries, from)
    {
      var prevTerm := log.GetTerm(from);
      r := from;
      var i := from;
      while i > 0
        invariant 0 <= i <= from
        invariant i > 0 && i < from ==> log.entries[i + 1].term == prevTerm
        invariant i == 0 ==> r == RunStart(log.entries, from)
        invariant i > 0 ==> RunStart(log.entries, from) == if i == from then RunStart(log.entries, i) else RunStart(log.entries, i + 1)
      {
        var term := log.GetTerm(i);
        if term != prevTerm {
          return i + 1;
        }
        if i == 1 {
          r := 1;
        }
        i := i - 1;
      }
    }

    /** One round of the merge: an entry of another term at the place is cut away with all that follow
        it, and the new one appended. */
    method PlaceEntry(entryIndex: nat, entry: LogEntry) returns (appended: bool)
      requires log.snapshotIndex == 0 && WellIndexed(log.entries) && 1 <= entryIndex <= |log.entries|
      modifies log
      ensures log.snapshotIndex == 0 && log.snapshotTerm == old(log.snapshotTerm) && WellIndexed(log.entries)
      ensures var before := old(log.entries);
        if entryIndex < |before| && before[entryIndex].term == entry.term then appended && log.entries == before
        else
          && appended == (entry.index == entryIndex)
          && log.entries == before[..entryIndex] + (if appended then [entry] else [])
    {
      ghost var before := log.entries;
      var lastLogIndex := log.GetLastIndex();
      if entryIndex <= lastLogIndex {
        var existingTerm := log.GetTerm(entryIndex);
        if existingTerm != entry.term {
          var truncated := log.Truncate(entryIndex);
          lastLogIndex := log.GetLastIndex();
        }
      }
      appended := true;
      if entryIndex > lastLogIndex {
        assert log.entries == before[..entryIndex];
        appended := log.Append(entry);
      }
    }

    /** The merge loop, in place. `threw` says an append threw. */
    method MergeEntries(prev: nat, entries: seq<LogEntry>) returns (threw: bool)
      requires log.snapshotIndex == 0 && WellIndexed(log.entries) && prev < |log.entries|
      modifies log
      ensures log.snapshotIndex == 0 && log.snapshotTerm == old(log.snapshotTerm) && WellIndexed(log.entries)
      ensures (log.entries, threw) == MergeRun(old(log.entries), prev, entries)
    {
      hide HeldCount, FirstMisnumbered, MergedTo, MergeRun;
      ghost var start := log.entries;
      ghost var stop := MergeStop(start, prev, entries);
      MergeRunIs(start, prev, entries);
      for i := 0 to |entries|
        invariant log.snapshotIndex == 0 && log.snapshotTerm == old(log.snapshotTerm) && WellIndexed(log.entries)
        invariant i <= stop && log.entries == MergedTo(start, prev, entries, i)
      {
        MergedOneMore(start, prev, entries, i);
        var appended := PlaceEntry(prev + 1 + i, entries[i]);
        if !appended {
          assert log.entries == MergedTo(start, prev, entries, i)[..prev + 1 + i];
          return true;
        }
      }
      threw := false;
    }

    /** The check of the previous entry, and the reply if it fails. */
    method CheckPrevious(args: AppendEntriesArgs) returns (refusal: Option<AppendEntriesReply>)
      requires Uncompacted()
      ensures refusal == Conflict(full, args, currentTerm)
    {
      hide Represents;
      var lastLogIndex := log.GetLastIndex();
      if args.prevLogIndex > lastLogIndex {
        return Some(AppendEntriesReply(currentTerm, false, lastLogIndex + 1, 0));
      }
      if args.prevLogIndex > 0 {
        var prevTerm := log.GetTerm(args.prevLogIndex);
        if prevTerm != args.prevLogTerm {
          var start := FindRunStart(args.prevLogIndex);
          return Some(AppendEntriesReply(currentTerm, false, start, prevTerm));
        }
      }
      refusal := None;
    }

    /** The accepting half of the handler. */
    method TakeEntries(args: AppendEntriesArgs) returns (threw: bool)
      requires Uncompacted() && args.prevLogIndex < |full|
      modifies this, log, kvStore
      ensures Uncompacted()
      ensures var t, (log', stopped) := old(State()), MergeRun(old(full), args.prevLogIndex, args.entries);
        threw == stopped && State() == if threw then t.(log := log') else Accept(t, args)
      ensures Snapshot() == old(Snapshot())
    {
      hide Merge, MergeRun, ApplyCommitted, Represents;
      ghost var t := State();
      MergeRunRefinesMergeIff(t.log, args.prevLogIndex, args.entries);
      threw := false;
      if args.entries != [] {
        threw := MergeEntries(args.prevLogIndex, args.entries);
        full := log.entries;
        StandsWhole(full);
        if threw {
          return;
        }
        PersistState();
      } else {
        NothingToMerge(t.log, args.prevLogIndex);
      }
      if args.leaderCommit > commitIndex {
        var last := log.GetLastIndex();
        commitIndex := if args.leaderCommit <= last then args.leaderCommit else last;
        ApplyCommittedEntries();
      }
    }

    /** `threw` is set where an append throws out of the handler, which then has no reply. */
    method HandleAppendEntries(args: AppendEntriesArgs) returns (reply: AppendEntriesReply, threw: bool)
      requires Uncompacted()
      modifies this, log, kvStore
      ensures Uncompacted()
      ensures (State(), if threw then None else Some(reply)) == Handled(old(State()), args)
      ensures Snapshot() == old(Snapshot())
    {
      hide Merge, MergeRun, RunStart, Accept, Represents;
      threw := false;
      if args.term < currentTerm {
        return AppendEntriesReply(currentTerm, false, 0, 0), false;
      }
      if args.term > currentTerm {
        BecomeFollower(args.term);
      } else if role != Follower {
        BecomeFollower(args.term);
      }
      currentLeaderId := args.leaderId;
      var refusal := CheckPrevious(args);
      if refusal.Some? {
        return refusal.value, false;
      }
      reply := AppendEntriesReply(currentTerm, true, 0, 0);
      threw := TakeEntries(args);
    }

    // ---- Committing and applying -----------------------------------------------------------

    method ApplyCommittedEntries()
      requires Valid() && commitIndex < |full|
      modifies this, kvStore
      ensures Valid() && State() == ApplyCommitted(old(State()))
      ensures Snapshot() == old(Snapshot())
    {
      hide ApplyAll, ApplyEntry, Represents;
      ghost var s := State();
      AppliedNone(s);
      while lastApplied < commitIndex
        invariant Valid() && Snapshot() == old(Snapshot())
        invariant lastApplied == s.lastApplied || s.lastApplied <= lastApplied <= commitIndex
        invariant State() == s.(lastApplied := lastApplied, replica := Replica(kvStore.kvMap, lastAppliedSeq))
        invariant s.lastApplied <= lastApplied
        invariant lastApplied < |s.log| ==>
          Replica(kvStore.kvMap, lastAppliedSeq) == ApplyAll(s.replica, s.log[s.lastApplied + 1..lastApplied + 1])
        invariant lastApplied == s.lastApplied ==> Replica(kvStore.kvMap, lastAppliedSeq) == s.replica
        decreases commitIndex - lastApplied
      {
        lastApplied := lastApplied + 1;
        StandsEntry(log.State(), full, lastApplied);
        var entry := log.GetEntry(lastApplied);
        AppliedOneMore(s.replica, s.log, s.lastApplied + 1, lastApplied);
        ApplyOne(entry.value);
      }
    }

    method ApplyOne(entry: LogEntry)
      modifies this`lastAppliedSeq, kvStore
      ensures Replica(kvStore.kvMap, lastAppliedSeq) == ApplyEntry(old(Replica(kvStore.kvMap, lastAppliedSeq)), entry)
    {
      var command := Deserialize(entry.data);
      if command.None? {
        return;
      }
      var c := command.value;
      if c.meta.clientId in lastAppliedSeq && lastAppliedSeq[c.meta.clientId] >= c.meta.sequenceNum {
        return;
      }
      match c {
        case Put(_, key, value) => kvStore.Put(key, value);
        case Append(_, key, value) => var done := kvStore.Append(key, value);
        case Get(_, _) =>
      }
      lastAppliedSeq := lastAppliedSeq[c.meta.clientId := c.meta.sequenceNum];
    }

    /** Only commits entries of the current term that a majority, this leader included, has matched. */
    method UpdateCommitIndex()
      requires Uncompacted()
      modifies this, kvStore
      ensures Uncompacted() && State() == Nodes.UpdateCommitIndex(old(State()))
      ensures Snapshot() == old(Snapshot())
    {
      hide ApplyCommitted, Committable, CommitTarget, CommittedUpTo, Represents;
      if role != Leader {
        return;
      }
      ghost var s := State();
      var lastLogIndex := log.GetLastIndex();
      CommittedUpToEnd(s);
      var n := commitIndex + 1;
      while n <= lastLogIndex
        invariant Uncompacted() && s.commitIndex + 1 <= n && (n <= lastLogIndex + 1 || n == s.commitIndex + 1)
        invariant State() == CommittedUpTo(s, n - 1) && Snapshot() == old(Snapshot())
        decreases lastLogIndex + 1 - n
      {
        CommitOneMore(s, n);
        TryCommit(n);
        n := n + 1;
      }
    }

    method TryCommit(n: nat)
      requires Uncompacted() && commitIndex <= n < |full|
      modifies this, kvStore
      ensures Uncompacted()
      ensures State() == if Committable(old(State()), n) then ApplyCommitted(old(State()).(commitIndex := n)) else old(State())
      ensures Snapshot() == old(Snapshot())
    {
      hide Represents;
      var term := log.GetTerm(n);
      if term != currentTerm {
        return;
      }
      var replicationCount := CountMatching(n);
      var majority := (|peerIds| + 1) / 2 + 1;
      if replicationCount >= majority {
        commitIndex := n;
        ApplyCommittedEntries();
      }
    }

    method CountMatching(n: nat) returns (replicationCount: nat)
      requires |matchIndex| == |peerIds|
      ensures replicationCount == 1 + CountAtLeast(matchIndex, n)
    {
      replicationCount := 1;
      for i := 0 to |peerIds|
        invariant replicationCount == 1 + CountAtLeast(matchIndex[..i], n)
      {
        assert matchIndex[..i + 1][..i] == matchIndex[..i];
        if matchIndex[i] >= n {
          replicationCount := replicationCount + 1;
        }
      }
      assert matchIndex[..|peerIds|] == matchIndex;
    }

    // ---- Replication, leader side ------------------------------------------------------------

    /** The request is built from the fields; the peer's reply, or the failure in its place, is a
        parameter. */
    method ReplicateToFollower(i: nat, reply: AppendEntriesReply) returns (args: AppendEntriesArgs)
      requires Uncompacted() && i < |peerIds|
      modifies this, kvStore
      ensures Uncompacted()
      ensures args == AppendArgs(old(State()), i)
      ensures State() == OnAppendReply(old(State()), i, args, reply)
      ensures Snapshot() == old(Snapshot())
    {
      hide AppendArgs, Represents;
      args := RequestFor(i);
      if reply.term > currentTerm {
        BecomeFollower(reply.term);
        return;
      }
      if reply.success {
        if args.entries != [] {
          matchIndex := matchIndex[i := args.entries[|args.entries| - 1].index];
          nextIndex := nextIndex[i := matchIndex[i] + 1];
        }
        UpdateCommitIndex();
      } else {
        nextIndex := nextIndex[i := if 1 >= reply.conflictIndex then 1 else reply.conflictIndex];
      }
    }

    method RequestFor(i: nat) returns (args: AppendEntriesArgs)
      requires Uncompacted() && i < |peerIds|
      ensures args == AppendArgs(State(), i)
    {
      hide Represents;
      var next := nextIndex[i];
      var prevIndex := next - 1;
      var prevTerm := log.GetTerm(prevIndex);
      var entries := SuffixFrom(next);
      args := AppendEntriesArgs(currentTerm, nodeId, prevIndex, prevTerm, entries, commitIndex);
    }

    method SuffixFrom(next: nat) returns (entries: seq<LogEntry>)
      requires Valid() && next > log.snapshotIndex
      ensures entries == if next <= |full| then full[next..] else []
    {
      hide Represents;
      StandsAnswers(log.State(), full);
      entries := [];
      var last := log.GetLastIndex();
      var i := next;
      while i <= last
        invariant next <= i && (next <= |full| ==> i <= |full|)
        invariant entries == if next <= |full| then full[next..i] else []
        decreases last + 1 - i
      {
        StandsEntry(log.State(), full, i);
        var entry := log.GetEntry(i);
        assert full[next..i + 1] == full[next..i] + [full[i]];
        entries := entries + [entry.value];
        i := i + 1;
      }
    }

    method SendHeartbeats(replies: seq<AppendEntriesReply>)
      requires Uncompacted() && |replies| == |peerIds|
      modifies this, kvStore
      ensures Uncompacted()
      ensures State() == Sweep(old(State()), 0, replies)
      ensures Snapshot() == old(Snapshot())
    {
      hide Represents;
      ghost var s := State();
      for i := 0 to |peerIds|
        invariant Uncompacted() && Snapshot() == old(Snapshot())
        invariant Sweep(s, 0, replies) == Sweep(State(), i, replies[i..])
      {
        assert replies[i..][1..] == replies[i + 1..];
        var args := ReplicateToFollower(i, replies[i]);
      }
    }

    // ---- Clients -------------------------------------------------------------------------------

    method HandleClientRequest(request: ClientRequest) returns (reply: ClientReply)
      requires Valid()
      modifies this, log
      ensures Valid() && (State(), reply) == Nodes.HandleClientRequest(old(State()), request)
      ensures Snapshot() == old(Snapshot())
    {
      hide Represents;
      if role != Leader {
        return ClientReply(false, [], false, currentLeaderId);
      }
      if request.clientId in lastAppliedSeq && lastAppliedSeq[request.clientId] >= request.sequenceNum {
        var value := [];
        if request.command.Get? {
          var result := kvStore.Get(request.command.key);
          if result.Some? {
            value := result.value;
          }
        }
        return ClientReply(true, value, true, currentLeaderId);
      }
      var commandData := Serialize(request.command);
      if commandData.None? {
        return ClientReply(false, [], true, currentLeaderId);
      }
      StandsAnswers(log.State(), full);
      var last := log.GetLastIndex();
      ghost var entry := LogEntry(last + 1, currentTerm, commandData.value);
      StandsAppended(log.State(), full, entry);
      var appended := log.Append(LogEntry(last + 1, currentTerm, commandData.value));
      full := full + [entry];
      PersistState();
      reply := ClientReply(true, [], true, currentLeaderId);
    }

    // ---- Snapshots -------------------------------------------------------------------------------

    /** `ok` is false where the code throws: entries not yet applied cannot be snapshot. The log goes on
        standing for the same whole log if `getTerm` answers right. */
    method TakeSnapshot(upToIndex: nat) returns (ok: bool)
      requires log.entries != [] && |kvStore.kvMap| < TWO_TO_64
      modifies this, log
      ensures ok <==> upToIndex <= old(log.snapshotIndex) || upToIndex <= lastApplied
      ensures full == old(full)
      ensures if upToIndex <= old(log.snapshotIndex) || !ok
              then State() == old(State()) && log.State() == old(log.State()) && Snapshot() == old(Snapshot())
              else
                && State() == Persist(old(State())) && FileIsCurrent()
                && log.State() == Discarded(old(log.State()), upToIndex, snapshotTerm)
                && snapshotIndex == upToIndex && snapshotTerm == TermAt(old(log.State()), upToIndex)
                && (exists order :: Enumerates(order, kvStore.kvMap) && snapshotData == SnapshotImage(kvStore.kvMap, order))
      ensures old(Valid()) && upToIndex < |full| && TermAt(old(log.State()), upToIndex) == full[upToIndex].term ==> Valid()
      ensures old(Uncompacted()) && upToIndex < |full| ==> Valid()
    {
      hide Represents, Discarded, TermAt;
      if upToIndex <= log.snapshotIndex {
        return true;
      }
      if upToIndex > lastApplied {
        return false;
      }
      ghost var before := log.State();
      snapshotData := kvStore.TakeSnapshot();
      snapshotIndex := upToIndex;
      snapshotTerm := log.GetTerm(upToIndex);
      log.DiscardEntriesUpTo(upToIndex, snapshotTerm);
      StandsDiscarded(before, full, upToIndex, snapshotTerm);
      WholeTerm(full, upToIndex);
      PersistState();
      ok := true;
    }

    /** `ok` is false where reading the snapshot runs off its end. The log goes on standing for the same
        whole log if it has the entry that the snapshot names; the code does not look. */
    method HandleInstallSnapshot(args: InstallSnapshotArgs) returns (replyTerm: nat, ok: bool)
      modifies this, log, kvStore
      ensures replyTerm == Max(old(currentTerm), args.term) == currentTerm && full == old(full)
      ensures args.term < old(currentTerm) ==>
        ok && State() == old(State()) && log.State() == old(log.State()) && Snapshot() == old(Snapshot())
      ensures args.term >= old(currentTerm) ==>
        && log.State() == Discarded(old(log.State()), args.lastIncludedIndex, args.lastIncludedTerm)
        && (snapshotData, snapshotIndex, snapshotTerm) == (args.data, args.lastIncludedIndex, args.lastIncludedTerm)
        && var s := SeenTerm(old(State()), args.term);
        && ok == InstalledNode(s, args.data, args.lastIncludedIndex).Some?
        && (ok ==> Some(State()) == InstalledNode(s, args.data, args.lastIncludedIndex) && FileIsCurrent())
      ensures old(Valid()) && ok ==>
        (args.lastIncludedIndex < |full| && full[args.lastIncludedIndex].term == args.lastIncludedTerm ==> Valid())
    {
      hide InstalledNode, Discarded, Represents;
      ok := true;
      if args.term < currentTerm {
        return currentTerm, true;
      }
      if args.term > currentTerm {
        BecomeFollower(args.term);
      }
      replyTerm := currentTerm;
      ghost var before := log.State();
      snapshotData := args.data;
      snapshotIndex := args.lastIncludedIndex;
      snapshotTerm := args.lastIncludedTerm;
      log.DiscardEntriesUpTo(args.lastIncludedIndex, args.lastIncludedTerm);
      StandsDiscarded(before, full, args.lastIncludedIndex, args.lastIncludedTerm);
      ok := RestoreStore(args.data, args.lastIncludedIndex);
    }

    /** The client table stays as it was, and the store is replaced even by a snapshot older than what is
        applied. */
    method RestoreStore(data: Bytes, lastIncludedIndex: nat) returns (ok: bool)
      modifies this, kvStore
      ensures currentTerm == old(currentTerm) && Snapshot() == old(Snapshot()) && full == old(full)
      ensures ok == InstalledNode(old(State()), data, lastIncludedIndex).Some?
      ensures ok ==> Some(State()) == InstalledNode(old(State()), data, lastIncludedIndex) && FileIsCurrent()
      ensures ok && Stands(log.State(), full) ==> Stands(stateFile.log, disk.log)
      ensures ok ==> lastApplied == Max(old(lastApplied), lastIncludedIndex)
      ensures ok ==> stateFile.term == disk.term && stateFile.votedFor == disk.votedFor
      ensures unchanged(`nextIndex) && unchanged(`matchIndex)
    {
      hide ParseSnapshot, Represents;
      ok := kvStore.InstallSnapshot(data);
      if !ok {
        return;
      }
      if lastIncludedIndex > lastApplied {
        lastApplied := lastIncludedIndex;
      }
      if lastIncludedIndex > commitIndex {
        commitIndex := lastIncludedIndex;
      }
      PersistState();
    }
  }

  lemma StandsWhole(full: Log)
    requires WellIndexed(full)
    ensures Stands(Stored(full, 0, 0), full)
  {
  }

  lemma WholeTerm(full: Log, index: nat)
    ensures index < |full| ==> TermAt(Stored(full, 0, 0), index) == full[index].term
  {
  }

  lemma StandsAnswers(s: Stored, full: Log)
    requires Stands(s, full)
    ensures WellIndexed(full) && s.snapshotIndex < |full| && s.entries != []
    ensures Last(s).index == LastIndex(full) && Last(s).term == LastTerm(full)
  {
    SameAnswers(s, full, 0);
  }

  lemma StandsEntry(s: Stored, full: Log, index: nat)
    requires Stands(s, full) && s.snapshotIndex < index < |full|
    ensures EntryAt(s, index) == Some(full[index])
  {
    SameAnswers(s, full, index);
  }

  lemma StandsAppended(s: Stored, full: Log, e: LogEntry)
    requires Stands(s, full) && e.index == |full|
    ensures s.entries != [] && Appended(s, e).Some? && Stands(Appended(s, e).value, full + [e])
  {
    AppendRepresents(s, full, e);
  }

  lemma StandsDiscarded(s: Stored, full: Log, index: nat, term: nat)
    ensures Stands(s, full) && index < |full| && full[index].term == term ==> Stands(Discarded(s, index, term), full)
    ensures Discarded(s, index, term).snapshotIndex == Max(s.snapshotIndex, index)
  {
    if Stands(s, full) && s.snapshotIndex < index < |full| {
      DiscardRepresentsIff(s, full, index, term);
    }
  }

  lemma AppliedNone(s: NodeState)
    ensures s.lastApplied < |s.log| ==> ApplyAll(s.replica, s.log[s.lastApplied + 1..s.lastApplied + 1]) == s.replica
  {
  }

  lemma AppliedOneMore(r: Replica, log: Log, from: nat, i: nat)
    requires from <= i < |log|
    ensures ApplyAll(r, log[from..i + 1]) == ApplyEntry(ApplyAll(r, log[from..i]), log[i])
  {
    hide ApplyEntry;
    assert log[from..i + 1][..i - from] == log[from..i];
  }

  /** The node once the commit loop has looked at every index up to `n`. */
  function CommittedUpTo(s: NodeState, n: nat): NodeState {
    if n >= |s.log| || CommitTarget(s, n) == s.commitIndex then s
    else ApplyCommitted(s.(commitIndex := CommitTarget(s, n)))
  }

  lemma CommitOneMore(s: NodeState, n: nat)
    requires s.commitIndex < n < |s.log|
    ensures CommittedUpTo(s, n)
            == if Committable(CommittedUpTo(s, n - 1), n) then ApplyCommitted(CommittedUpTo(s, n - 1).(commitIndex := n))
               else CommittedUpTo(s, n - 1)
    ensures CommittedUpTo(s, n - 1).commitIndex <= n
  {
    var m := CommitTarget(s, n - 1);
    if m > s.commitIndex {
      CommitInSteps(s, m, n);
    }
  }

  lemma CommittedUpToEnd(s: NodeState)
    requires |s.log| >= 1
    ensures s.role == Leader ==> CommittedUpTo(s, |s.log| - 1) == Nodes.UpdateCommitIndex(s)
    ensures s.commitIndex >= |s.log| ==> CommittedUpTo(s, s.commitIndex) == CommittedUpTo(s, |s.log| - 1)
    ensures s.commitIndex < |s.log| ==> CommittedUpTo(s, s.commitIndex) == s
  {
  }

  /** Committing to m and then to n is committing to n. */
  lemma CommitInSteps(s: NodeState, m: nat, n: nat)
    requires s.commitIndex < m < n < |s.log|
    ensures ApplyCommitted(ApplyCommitted(s.(commitIndex := m)).(commitIndex := n)) == ApplyCommitted(s.(commitIndex := n))
  {
    hide ApplyAll;
    if s.lastApplied < m {
      ApplyAllConcat(s.replica, s.log[s.lastApplied + 1..m + 1], s.log[m + 1..n + 1]);
      assert s.log[s.lastApplied + 1..m + 1] + s.log[m + 1..n + 1] == s.log[s.lastApplied + 1..n + 1];
    }
  }
}
