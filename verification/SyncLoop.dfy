/** The push and pull cycles of src/sync/mod.rs: the loops as written, and what one cycle does. */
module SyncLoop {
  import opened Base
  import opened Lex
  import opened Retry
  import opened Schema
  import opened Protocol
  import opened Tracking
  import opened Agreement
  import opened Convergence
  import opened Replay
  import Store
  import Database

  datatype SyncStats = SyncStats(pushed: nat, pulled: nat, conflicts: nat, errors: nat)

  const NO_STATS := SyncStats(0, 0, 0, 0)

  /** What happens to the i-th request; the network delivers where nothing else is given. */
  function FaultAt(faults: seq<Fault>, i: nat): Fault {
    if i < |faults| then faults[i] else Delivered
  }

  /** The state of a cycle under way. */
  datatype Cycle = Cycle(t: Tables, remote: Remote, stats: SyncStats)

  /** The cycle from the i-th entry of its batch on: push, write back, stop at an error. */
  function PushFrom(c: Cycle, batch: seq<PushEntry>, i: nat, faults: seq<Fault>, now: int): Cycle
    requires i <= |batch|
    decreases |batch| - i
  {
    if i == |batch| then c
    else
      var (next, goOn) := PushNext(c, batch[i], FaultAt(faults, i), now);
      if goOn then PushFrom(next, batch, i + 1, faults, now) else next
  }

  /** One entry pushed and its answer written back, and whether the cycle goes on. */
  function PushNext(c: Cycle, e: PushEntry, fault: Fault, now: int): (Cycle, bool) {
    var remote := Received(c.remote, e, fault);
    match Reply(c.remote, e, fault)
    case Failed(error) =>
      (Cycle(MarkRetry(c.t, e.seqNo, now, error), remote, c.stats.(errors := c.stats.errors + 1)), false)
    case Taken =>
      (Cycle(DeleteSeq(c.t, e.seqNo), remote, c.stats.(pushed := c.stats.pushed + 1)), true)
    case Refused =>
      (Cycle(DeleteSeq(c.t, e.seqNo), remote, c.stats.(conflicts := c.stats.conflicts + 1)), true)
  }

  function PushCycle(t: Tables, remote: Remote, faults: seq<Fault>, now: int, later: int): Cycle {
    PushFrom(Cycle(t, remote, NO_STATS), ReadBatch(t, now), 0, faults, later)
  }

  /** The pulled records from the i-th on, where `refused` are those the database fails to apply. */
  function PullFrom(t: Tables, cp: Option<Stamp>, rs: seq<RemoteRecord>, i: nat, refused: set<nat>,
                    now: int): (Tables, Option<Stamp>)
    requires i <= |rs|
    decreases |rs| - i
  {
    if i == |rs| then (t, cp)
    else if i in refused then PullFrom(t, cp, rs, i + 1, refused, now)
    else PullFrom(ApplyRemote(t, rs[i], now), Advance(cp, rs[i].hlc), rs, i + 1, refused, now)
  }

  function RefusedBefore(refused: set<nat>, n: nat): set<nat> {
    set k | k in refused && k < n
  }

  function PullCycle(t: Tables, rs: seq<RemoteRecord>, refused: set<nat>, now: int): Tables {
    var (applied, cp) := PullFrom(t, t.checkpoint, rs, 0, refused, now);
    applied.(checkpoint := cp)
  }

  class SyncLoop {
    const db: Database.Database
    const backend: Store.InMemoryStore

    constructor (db: Database.Database, backend: Store.InMemoryStore)
      ensures this.db == db && this.backend == backend
    {
      this.db, this.backend := db, backend;
    }

    /** `push_one` as the loop sees it: the request or the reply may be lost. */
    method PushOverNetwork(entry: PushEntry, fault: Fault) returns (result: Store.PushResult)
      modifies backend
      ensures backend.records == Received(old(backend.records), entry, fault)
      ensures match Reply(old(backend.records), entry, fault)
        case Taken => result == Store.Pushed([entry.seqNo])
        case Refused => result == Store.ConflictAt(entry.key.id, entry.seqNo)
        case Failed(error) => result == Store.TransientError(error)
    {
      match fault {
        case Delivered =>
          result := backend.PushOne(entry);
        case RequestLost(error) =>
          result := Store.TransientError(error);
        case ReplyLost(error) =>
          var unseen := backend.PushOne(entry);
          result := Store.TransientError(error);
      }
    }

    /** One turn of the push loop: the entry goes, or is marked and ends the cycle. */
    method PushNextEntry(entry: PushEntry, fault: Fault, later: int, counted: SyncStats)
      returns (stats: SyncStats, goOn: bool)
      modifies db, backend
      ensures (Cycle(db.View(), backend.records, stats), goOn) ==
        PushNext(Cycle(old(db.View()), old(backend.records), counted), entry, fault, later)
    {
      stats, goOn := counted, true;
      DeleteOne(db.View(), entry.seqNo);
      var result := PushOverNetwork(entry, fault);
      match result {
        case Pushed(pushedSeqs) =>
          db.DeleteSeqs(pushedSeqs);
          stats := stats.(pushed := stats.pushed + 1);
        case ConflictAt(_, seqNo) =>
          db.DeleteSeqs([seqNo]);
          stats := stats.(conflicts := stats.conflicts + 1);
        case TransientError(error) =>
          db.MarkRetry(entry.seqNo, later, error);
          stats, goOn := stats.(errors := stats.errors + 1), false;
      }
    }

    /** `run_push_cycle`, without writes of the actor in between. */
    method RunPushCycle(faults: seq<Fault>, now: int, later: int) returns (stats: SyncStats)
      modifies db, backend
      ensures Cycle(db.View(), backend.records, stats) ==
        PushCycle(old(db.View()), old(backend.records), faults, now, later)
    {
      stats := NO_STATS;
      var pushEntries := ReadBatch(db.View(), now);
      if |pushEntries| == 0 {
        return;
      }
      ghost var whole := PushCycle(db.View(), backend.records, faults, now, later);
      var i, goOn := 0, true;
      while i < |pushEntries| && goOn
        invariant 0 <= i <= |pushEntries|
        invariant goOn ==> PushFrom(Cycle(db.View(), backend.records, stats), pushEntries, i, faults, later) == whole
        invariant !goOn ==> Cycle(db.View(), backend.records, stats) == whole
      {
        stats, goOn := PushNextEntry(pushEntries[i], FaultAt(faults, i), later, stats);
        i := i + 1;
      }
    }

    /** `run_pull_cycle`, without writes of the actor in between. */
    method RunPullCycle(reachable: bool, refused: set<nat>, now: int) returns (stats: SyncStats,
                        ghost snapshot: seq<RemoteRecord>)
      requires WellKeyed(backend.records)
      modifies db
      ensures !reachable ==> db.View() == old(db.View()) && stats == NO_STATS.(errors := 1)
      ensures reachable ==> IsPull(backend.records, old(db.checkpoint), snapshot)
      ensures reachable ==> db.View() == PullCycle(old(db.View()), snapshot, refused, now)
      ensures reachable ==>
        stats.errors == |RefusedBefore(refused, |snapshot|)| && stats.pulled + stats.errors == |snapshot|
      ensures reachable ==> stats.pushed == stats.conflicts == 0
    {
      stats, snapshot := NO_STATS, [];
      var checkpoint := db.checkpoint;
      if !reachable {
        stats := stats.(errors := 1);
        return;
      }
      var remoteRecords := backend.PullSince(checkpoint);
      snapshot := remoteRecords;
      if |remoteRecords| == 0 {
        return;
      }
      ghost var whole := PullFrom(db.View(), checkpoint, remoteRecords, 0, refused, now);
      var newCheckpoint := checkpoint;
      var i := 0;
      while i < |remoteRecords|
        invariant 0 <= i <= |remoteRecords|
        invariant stats.errors == |RefusedBefore(refused, i)| && stats.pulled + stats.errors == i
        invariant stats.pushed == stats.conflicts == 0
        invariant newCheckpoint.None? ==> checkpoint.None?
        invariant db.checkpoint == checkpoint
        invariant PullFrom(db.View(), newCheckpoint, remoteRecords, i, refused, now) == whole
      {
        var remote := remoteRecords[i];
        assert RefusedBefore(refused, i + 1) == RefusedBefore(refused, i) + if i in refused then {i} else {};
        if i in refused {
          stats := stats.(errors := stats.errors + 1);
        } else {
          db.ApplyRemoteRecord(remote, now);
          stats := stats.(pulled := stats.pulled + 1);
          match newCheckpoint {
            case None => newCheckpoint := Some(remote.hlc);
            case Some(cp) =>
              if Before(cp, remote.hlc) {
                newCheckpoint := Some(remote.hlc);
              }
          }
        }
        i := i + 1;
      }
      if newCheckpoint.Some? {
        if newCheckpoint != checkpoint {
          db.SetCheckpoint(newCheckpoint.value);
        }
      }
    }
  }

  // ── What one push cycle does ───────────────────────────────────────────────

  /** The first entry from i on that meets a transient error, or the end of the batch. */
  function FirstFailure(batch: seq<PushEntry>, i: nat, faults: seq<Fault>): (j: nat)
    requires i <= |batch|
    ensures i <= j <= |batch|
    ensures forall k :: i <= k < j ==> FaultAt(faults, k).Delivered?
    ensures j < |batch| ==> !FaultAt(faults, j).Delivered?
    decreases |batch| - i
  {
    if i == |batch| || !FaultAt(faults, i).Delivered? then i else FirstFailure(batch, i + 1, faults)
  }

  function SeqNos(batch: seq<PushEntry>, from: nat, to: nat): set<int>
    requires from <= to <= |batch|
  {
    set k | from <= k < to :: batch[k].seqNo
  }

  /** What the store receives: the entries before the first failure, and the failing one itself
      when only its reply was lost. */
  function Sent(batch: seq<PushEntry>, from: nat, to: nat, faults: seq<Fault>): seq<PushEntry>
    requires from <= to <= |batch|
  {
    if to < |batch| && FaultAt(faults, to).ReplyLost? then batch[from..to + 1] else batch[from..to]
  }

  /** From the i-th entry on, a cycle deletes exactly the entries before the first failure, marks
      only the failing one, sends the store exactly those, and counts each deletion once as pushed
      or conflict. */
  lemma {:induction false} PushFromPrefix(c: Cycle, batch: seq<PushEntry>, i: nat, faults: seq<Fault>, now: int)
    requires i <= |batch|
    ensures var j := FirstFailure(batch, i, faults); var end := PushFrom(c, batch, i, faults, now);
      && (var cut := DeleteSeqs(c.t, SeqNos(batch, i, j));
          if j == |batch| then end.t == cut
          else end.t == MarkRetry(cut, batch[j].seqNo, now, FaultAt(faults, j).error))
      && end.stats.pushed + end.stats.conflicts == c.stats.pushed + c.stats.conflicts + j - i
      && end.stats.errors == c.stats.errors + (if j == |batch| then 0 else 1)
      && end.stats.pulled == c.stats.pulled
      && end.remote == PushAll(c.remote, Sent(batch, i, j, faults))
    decreases |batch| - i
  {
    var j := FirstFailure(batch, i, faults);
    if i == j {
      assert SeqNos(batch, i, j) == {};
      assert c.t.outbox - {} == c.t.outbox;
      if j < |batch| && FaultAt(faults, j).ReplyLost? {
        assert batch[j..j + 1] == [batch[j]];
        assert PushAll(c.remote, [batch[j]]) == Schema.Pushed(c.remote, batch[j]);
      }
    } else {
      var e := batch[i];
      DeleteOneMore(c.t, batch, i, j);
      SentSplits(batch, i, j, faults);
      var t1, remote1 := DeleteSeq(c.t, e.seqNo), Schema.Pushed(c.remote, e);
      var stats1 := if Accepts(c.remote, e) then c.stats.(pushed := c.stats.pushed + 1)
                    else c.stats.(conflicts := c.stats.conflicts + 1);
      PushFromPrefix(Cycle(t1, remote1, stats1), batch, i + 1, faults, now);
    }
  }

  lemma DeleteOneMore(t: Tables, batch: seq<PushEntry>, i: nat, j: nat)
    requires i < j <= |batch|
    ensures DeleteSeqs(DeleteSeq(t, batch[i].seqNo), SeqNos(batch, i + 1, j)) == DeleteSeqs(t, SeqNos(batch, i, j))
  {
    assert SeqNos(batch, i, j) == {batch[i].seqNo} + SeqNos(batch, i + 1, j);
    assert t.outbox - {batch[i].seqNo} - SeqNos(batch, i + 1, j) == t.outbox - SeqNos(batch, i, j);
  }

  lemma SentSplits(batch: seq<PushEntry>, i: nat, j: nat, faults: seq<Fault>)
    requires i < j <= |batch|
    ensures var sent := Sent(batch, i, j, faults);
      sent != [] && sent[0] == batch[i] && sent[1..] == Sent(batch, i + 1, j, faults)
  {
  }

  /** Entries of an ascending batch have as many numbers as there are entries. */
  lemma {:induction false} SeqNosCount(batch: seq<PushEntry>, from: nat, to: nat)
    requires from <= to <= |batch| && Ascending(batch)
    ensures |SeqNos(batch, from, to)| == to - from
  {
    if from < to {
      SeqNosCount(batch, from, to - 1);
      assert SeqNos(batch, from, to) == SeqNos(batch, from, to - 1) + {batch[to - 1].seqNo};
    } else {
      assert SeqNos(batch, from, to) == {};
    }
  }

  lemma RemoveCount<V>(m: map<int, V>, xs: set<int>)
    requires xs <= m.Keys
    ensures |m - xs| == |m| - |xs|
  {
    assert (m - xs).Keys == m.Keys - xs;
    assert |(m - xs).Keys| == |m - xs| && |m.Keys| == |m|;
  }

  /** One push cycle: prefix removal and conservation. The outbox loses exactly the entries of the
      batch before the first transient error and shrinks by pushed + conflicts; only the failing
      entry is touched otherwise; rows and checkpoint stay. */
  lemma PushCycleConserves(t: Tables, remote: Remote, faults: seq<Fault>, now: int, later: int)
    ensures var batch := ReadBatch(t, now); var j := FirstFailure(batch, 0, faults);
      var end := PushCycle(t, remote, faults, now, later);
      && |end.t.outbox| == |t.outbox| - end.stats.pushed - end.stats.conflicts
      && end.stats.pushed + end.stats.conflicts == j
      && end.t.outbox.Keys == t.outbox.Keys - SeqNos(batch, 0, j)
      && (forall s :: s in end.t.outbox && (j < |batch| ==> s != batch[j].seqNo) ==> end.t.outbox[s] == t.outbox[s])
      && (j < |batch| ==> batch[j].seqNo in end.t.outbox)
      && (j < |batch| ==>
            end.t.outbox[batch[j].seqNo].(retry := t.outbox[batch[j].seqNo].retry) == t.outbox[batch[j].seqNo])
      && end.t.records == t.records && end.t.checkpoint == t.checkpoint
      && end.remote == PushAll(remote, Sent(batch, 0, j, faults))
  {
    var batch := ReadBatch(t, now);
    var j := FirstFailure(batch, 0, faults);
    PushFromPrefix(Cycle(t, remote, NO_STATS), batch, 0, faults, later);
    BuiltBatchAscends(t, PeekBatch(t, now, PUSH_BATCH));
    SeqNosCount(batch, 0, j);
    forall k | 0 <= k < |batch| ensures batch[k].seqNo in t.outbox { assert batch[k] in batch; }
    RemoveCount(t.outbox, SeqNos(batch, 0, j));
    var cut := DeleteSeqs(t, SeqNos(batch, 0, j));
    if j < |batch| {
      assert batch[j].seqNo in cut.outbox;
      var end := PushCycle(t, remote, faults, now, later).t;
      assert end.outbox.Keys == cut.outbox.Keys;
      assert |end.outbox.Keys| == |end.outbox| && |cut.outbox.Keys| == |cut.outbox|;
    }
  }

  /** The entries from i up to j that the store takes, each in the state the ones before it left. */
  function TakenFrom(remote: Remote, batch: seq<PushEntry>, i: nat, j: nat): set<nat>
    requires i <= j <= |batch|
  {
    set k: nat | i <= k < j && Accepts(PushAll(remote, batch[i..k]), batch[k])
  }

  lemma TakenSplits(remote: Remote, batch: seq<PushEntry>, i: nat, j: nat)
    requires i < j <= |batch|
    ensures TakenFrom(remote, batch, i, j) ==
      TakenFrom(Schema.Pushed(remote, batch[i]), batch, i + 1, j) + if Accepts(remote, batch[i]) then {i} else {}
  {
    assert batch[i..i] == [];
    forall k | i < k < j
      ensures PushAll(remote, batch[i..k]) == PushAll(Schema.Pushed(remote, batch[i]), batch[i + 1..k])
    {
      assert batch[i..k][0] == batch[i] && batch[i..k][1..] == batch[i + 1..k];
    }
  }

  lemma {:induction false} PushFromCounts(c: Cycle, batch: seq<PushEntry>, i: nat, faults: seq<Fault>, now: int)
    requires i <= |batch|
    ensures var j := FirstFailure(batch, i, faults);
      PushFrom(c, batch, i, faults, now).stats.pushed == c.stats.pushed + |TakenFrom(c.remote, batch, i, j)|
    decreases |batch| - i
  {
    var j := FirstFailure(batch, i, faults);
    if i == j {
      assert TakenFrom(c.remote, batch, i, j) == {};
    } else {
      var e := batch[i];
      var stats1 := if Accepts(c.remote, e) then c.stats.(pushed := c.stats.pushed + 1)
                    else c.stats.(conflicts := c.stats.conflicts + 1);
      var next := Cycle(DeleteSeq(c.t, e.seqNo), Schema.Pushed(c.remote, e), stats1);
      assert PushFrom(c, batch, i, faults, now) == PushFrom(next, batch, i + 1, faults, now) by {
        assert FaultAt(faults, i).Delivered?;
      }
      PushFromCounts(next, batch, i + 1, faults, now);
      TakenSplits(c.remote, batch, i, j);
      assert i !in TakenFrom(Schema.Pushed(c.remote, e), batch, i + 1, j);
    }
  }

  /** The entries before the j-th that the store takes: strictly newer than what it holds after the
      entries before them. */
  function Taken(remote: Remote, batch: seq<PushEntry>, j: nat): set<nat>
    requires j <= |batch|
  {
    set k: nat | 0 <= k < j && Accepts(PushAll(remote, batch[..k]), batch[k])
  }

  lemma BatchCounts(t: Tables, remote: Remote, batch: seq<PushEntry>, faults: seq<Fault>, now: int)
    ensures var j := FirstFailure(batch, 0, faults);
      var stats := PushFrom(Cycle(t, remote, NO_STATS), batch, 0, faults, now).stats;
      && stats.pushed == |Taken(remote, batch, j)|
      && stats.conflicts == j - stats.pushed && stats.pulled == 0
      && stats.errors == if j < |batch| then 1 else 0
  {
    var j := FirstFailure(batch, 0, faults);
    PushFromPrefix(Cycle(t, remote, NO_STATS), batch, 0, faults, now);
    PushFromCounts(Cycle(t, remote, NO_STATS), batch, 0, faults, now);
    forall k: nat | k < j ensures batch[0..k] == batch[..k] {}
    assert TakenFrom(remote, batch, 0, j) == Taken(remote, batch, j);
  }

  /** What a push cycle reports: as pushed, the entries before the first failure that the store took; as
      conflicts, the others before it; one error if it failed. */
  lemma PushCycleCounts(t: Tables, remote: Remote, faults: seq<Fault>, now: int, later: int)
    ensures var batch := ReadBatch(t, now); var j := FirstFailure(batch, 0, faults);
      var stats := PushCycle(t, remote, faults, now, later).stats;
      && stats.pushed == |Taken(remote, batch, j)|
      && stats.conflicts == j - stats.pushed && stats.pulled == 0
      && stats.errors == if j < |batch| then 1 else 0
  {
    BatchCounts(t, remote, ReadBatch(t, now), faults, later);
  }

  /** What a push cycle writes back for the entry that failed: one more attempt, the doubled delay, the
      error, and the last twenty failures. */
  lemma PushCycleMarks(t: Tables, remote: Remote, faults: seq<Fault>, now: int, later: int)
    requires var batch := ReadBatch(t, now); var j := FirstFailure(batch, 0, faults);
      j < |batch| && batch[j].seqNo in t.outbox && 0 <= t.outbox[batch[j].seqNo].retry.retries < 0x1_0000_0000
    ensures var batch := ReadBatch(t, now); var j := FirstFailure(batch, 0, faults);
      var after := PushCycle(t, remote, faults, now, later).t.outbox;
      var r, error := t.outbox[batch[j].seqNo].retry, FaultAt(faults, j).error;
      var log := r.log + [Failure(later, error)];
      && batch[j].seqNo in after
      && after[batch[j].seqNo].retry.retries == r.retries + 1
      && after[batch[j].seqNo].retry.nextRetryAt == later + Min(1000 * Pow2(r.retries), 300_000)
      && after[batch[j].seqNo].retry.lastError == Some(error)
      && after[batch[j].seqNo].retry.log == log[if |log| <= 20 then 0 else |log| - 20..]
  {
    var batch := ReadBatch(t, now);
    var j := FirstFailure(batch, 0, faults);
    PushCycleConserves(t, remote, faults, now, later);
    PushFromPrefix(Cycle(t, remote, NO_STATS), batch, 0, faults, later);
    MarkExactly(t.outbox[batch[j].seqNo].retry, later, FaultAt(faults, j).error);
  }

  lemma {:induction false} RefusedLeaveStore(remote: Remote, es: seq<PushEntry>)
    requires forall k :: 0 <= k < |es| ==> !Accepts(PushAll(remote, es[..k]), es[k])
    ensures PushAll(remote, es) == remote
    decreases |es|
  {
    if es != [] {
      assert es[..0] == [] && !Accepts(PushAll(remote, es[..0]), es[0]);
      forall k | 0 <= k < |es[1..]| ensures !Accepts(PushAll(remote, es[1..][..k]), es[1..][k]) {
        assert es[..k + 1][0] == es[0] && es[..k + 1][1..] == es[1..][..k];
        assert !Accepts(PushAll(remote, es[..k + 1]), es[k + 1]);
      }
      RefusedLeaveStore(remote, es[1..]);
    }
  }

  lemma NoneTaken(remote: Remote, batch: seq<PushEntry>, j: nat)
    requires j <= |batch| && |Taken(remote, batch, j)| == 0
    ensures PushAll(remote, batch[..j]) == remote
  {
    forall k | 0 <= k < j ensures !Accepts(PushAll(remote, batch[..j][..k]), batch[..j][k]) {
      assert batch[..j][..k] == batch[..k] && k !in Taken(remote, batch, j);
    }
    RefusedLeaveStore(remote, batch[..j]);
  }

  /** A cycle that pushed nothing and lost no reply left the store as it was. */
  lemma NothingPushedNothingStored(t: Tables, remote: Remote, faults: seq<Fault>, now: int, later: int)
    requires PushCycle(t, remote, faults, now, later).stats.pushed == 0
    requires var batch := ReadBatch(t, now); var j := FirstFailure(batch, 0, faults);
      j < |batch| ==> !FaultAt(faults, j).ReplyLost?
    ensures PushCycle(t, remote, faults, now, later).remote == remote
  {
    var batch := ReadBatch(t, now);
    var j := FirstFailure(batch, 0, faults);
    PushCycleCounts(t, remote, faults, now, later);
    PushCycleConserves(t, remote, faults, now, later);
    assert batch[0..j] == batch[..j];
    NoneTaken(remote, batch, j);
  }

  // ── Draining ───────────────────────────────────────────────────────────────

  /** Faultless cycles at the given times. */
  function Cycles(t: Tables, remote: Remote, times: seq<int>): Tables
    decreases |times|
  {
    if times == [] then t
    else
      var c := PushCycle(t, remote, [], times[0], times[0]);
      Cycles(c.t, c.remote, times[1..])
  }

  /** Every entry can be built and is ready at all the times. */
  ghost predicate AllReady(t: Tables, times: seq<int>) {
    && (forall s :: s in t.outbox ==> 1 <= s < t.nextSeq && BuildPushEntry(t, s).Some?)
    && (forall s, i :: s in t.outbox && 0 <= i < |times| ==> t.outbox[s].retry.nextRetryAt <= times[i])
  }

  lemma {:induction false} DistinctSeqs(seqs: seq<int>)
    requires forall i, j :: 0 <= i < j < |seqs| ==> seqs[i] < seqs[j]
    ensures |set s | s in seqs| == |seqs|
  {
    if seqs != [] {
      var last := |seqs| - 1;
      DistinctSeqs(seqs[..last]);
      assert seqs == seqs[..last] + [seqs[last]];
      assert (set s | s in seqs) == (set s | s in seqs[..last]) + {seqs[last]};
    }
  }

  lemma {:induction false} BuiltBatchLength(t: Tables, seqs: seq<int>)
    requires forall s :: s in seqs ==> s in t.outbox && BuildPushEntry(t, s).Some?
    ensures |BuildBatch(t, seqs)| == |seqs|
  {
    if seqs != [] { BuiltBatchLength(t, seqs[1..]); }
  }

  /** When every entry is ready, a batch takes as many as fit. */
  lemma PeekTakes(t: Tables, now: int, limit: nat)
    requires forall s :: s in t.outbox ==> 1 <= s < t.nextSeq && Ready(t.outbox, s, now)
    ensures |PeekBatch(t, now, limit)| == Min(limit, |t.outbox|)
  {
    var seqs := PeekBatch(t, now, limit);
    var picked := set s | s in seqs;
    DistinctSeqs(seqs);
    if |seqs| < limit {
      forall s | s in t.outbox ensures s in picked { assert Ready(t.outbox, s, now); }
      assert picked == t.outbox.Keys;
    }
    SubsetCount(picked, t.outbox.Keys);
    assert |t.outbox.Keys| == |t.outbox|;
  }

  lemma SubsetCount<T>(a: set<T>, b: set<T>)
    requires a <= b
    ensures |a| <= |b|
  {
    assert b == a + (b - a);
  }

  lemma CycleDrains(t: Tables, remote: Remote, times: seq<int>)
    requires times != [] && AllReady(t, times)
    ensures var c := PushCycle(t, remote, [], times[0], times[0]);
      |c.t.outbox| == Max(0, |t.outbox| - PUSH_BATCH) && AllReady(c.t, times[1..])
  {
    var now := times[0];
    var batch := ReadBatch(t, now);
    PeekTakes(t, now, PUSH_BATCH);
    BuiltBatchLength(t, PeekBatch(t, now, PUSH_BATCH));
    PushCycleConserves(t, remote, [], now, now);
    PushFromPrefix(Cycle(t, remote, NO_STATS), batch, 0, [], now);
    assert FirstFailure(batch, 0, []) == |batch|;
    RemainderReady(t, SeqNos(batch, 0, |batch|), times);
  }

  lemma RemainderReady(t: Tables, gone: set<int>, times: seq<int>)
    requires times != [] && AllReady(t, times)
    ensures AllReady(DeleteSeqs(t, gone), times[1..])
  {
    var t' := DeleteSeqs(t, gone);
    forall s | s in t'.outbox ensures BuildPushEntry(t', s).Some? {
      assert BuildPushEntry(t, s).Some?;
    }
    forall s, i | s in t'.outbox && 0 <= i < |times[1..]| ensures t'.outbox[s].retry.nextRetryAt <= times[1..][i] {
      assert times[1..][i] == times[i + 1];
    }
  }

  /** With no transient errors each cycle pushes twenty-five entries, so n ready entries are gone
      after exactly ceil(n / 25) cycles. */
  lemma {:induction false} OutboxDrains(t: Tables, remote: Remote, times: seq<int>)
    requires AllReady(t, times)
    ensures |Cycles(t, remote, times).outbox| == Max(0, |t.outbox| - 25 * |times|)
    ensures Cycles(t, remote, times).outbox == map[] <==> |times| >= (|t.outbox| + 24) / 25
    decreases |times|
  {
    if times != [] {
      var c := PushCycle(t, remote, [], times[0], times[0]);
      CycleDrains(t, remote, times);
      OutboxDrains(c.t, c.remote, times[1..]);
    }
    var end := Cycles(t, remote, times);
    assert |end.outbox| == 0 <==> end.outbox == map[];
  }

  /** In a system started from nothing, no matter what happened before: once its entries are due, a
      device's outbox drains in that many faultless cycles. */
  lemma ReachedOutboxDrains(home: Home, w: World, steps: seq<Step>, end: World, d: nat, times: seq<int>)
    requires Initial(w) && Runs(Distinct, home, w, steps, end) && d < |end.devices|
    requires forall s, i :: s in end.devices[d].t.outbox && 0 <= i < |times| ==>
      end.devices[d].t.outbox[s].retry.nextRetryAt <= times[i]
    ensures var t := end.devices[d].t;
      Cycles(t, end.remote, times).outbox == map[] <==> |times| >= (|t.outbox| + 24) / 25
  {
    InitiallyTracked(w);
    RunKeepsTracked(Distinct, home, w, steps, end);
    assert DeviceTracked(end.devices[d], end.remote);
    forall s | s in end.devices[d].t.outbox ensures BuildPushEntry(end.devices[d].t, s).Some? {
      EveryUpsertHasItsRow(home, w, steps, end, d, s);
    }
    OutboxDrains(end.devices[d].t, end.remote, times);
  }

  // ── The cycles are protocol runs ───────────────────────────────────────────

  /** The protocol steps of device d's push loop from the i-th entry on. */
  function PushSteps(d: nat, batch: seq<PushEntry>, i: nat, faults: seq<Fault>, now: int): seq<Step>
    requires i <= |batch|
    decreases |batch| - i
  {
    if i == |batch| then []
    else
      [Push(d, FaultAt(faults, i)), Acknowledge(d, true, now)] +
      if FaultAt(faults, i).Delivered? then PushSteps(d, batch, i + 1, faults, now) else []
  }

  /** The two steps of one entry: its push and the answer written back. */
  lemma PushPair(home: Home, w: World, d: nat, batch: seq<PushEntry>, i: nat, fault: Fault, now: int,
                 stats: SyncStats) returns (w2: World)
    requires i < |batch| && d < |w.devices| && w.devices[d].phase == PushPhase(batch[i..])
    ensures Allowed(Anything, home, w, Push(d, fault))
    ensures Allowed(Anything, home, Next(w, Push(d, fault)), Acknowledge(d, true, now))
    ensures w2 == Next(Next(w, Push(d, fault)), Acknowledge(d, true, now))
    ensures var (next, goOn) := PushNext(Cycle(w.devices[d].t, w.remote, stats), batch[i], fault, now);
      var phase := if goOn then PushPhase(batch[i + 1..]) else Idle;
      && w2 == w.(devices := w.devices[d := Device(next.t, phase)], remote := next.remote)
      && goOn == fault.Delivered?
  {
    assert batch[i..][0] == batch[i] && batch[i..][1..] == batch[i + 1..];
    var w1 := Next(w, Push(d, fault));
    w2 := Next(w1, Acknowledge(d, true, now));
    assert w1.devices[d := w2.devices[d]] == w.devices[d := w2.devices[d]];
  }

  lemma RunsAfterTwo(level: Level, home: Home, w: World, a: Step, b: Step, rest: seq<Step>, end: World)
    requires Allowed(level, home, w, a) && Allowed(level, home, Next(w, a), b)
    requires Runs(level, home, Next(Next(w, a), b), rest, end)
    ensures Runs(level, home, w, [a, b] + rest, end)
  {
    var steps := [a, b] + rest;
    assert steps[1..][1..] == rest;
    assert Runs(level, home, Next(w, a), steps[1..], end);
  }

  lemma {:induction false} PushLoopIsARun(home: Home, w: World, d: nat, batch: seq<PushEntry>, i: nat,
                                          faults: seq<Fault>, now: int, stats: SyncStats)
    requires i <= |batch| && d < |w.devices| && w.devices[d].phase == PushPhase(batch[i..])
    ensures var c := PushFrom(Cycle(w.devices[d].t, w.remote, stats), batch, i, faults, now);
      Runs(Anything, home, w, PushSteps(d, batch, i, faults, now),
           w.(devices := w.devices[d := Device(c.t, Idle)], remote := c.remote))
    decreases |batch| - i
  {
    if i == |batch| {
      assert w.devices[d := Device(w.devices[d].t, Idle)] == w.devices;
    } else {
      var (next, goOn) := PushNext(Cycle(w.devices[d].t, w.remote, stats), batch[i], FaultAt(faults, i), now);
      var c := PushFrom(Cycle(w.devices[d].t, w.remote, stats), batch, i, faults, now);
      var end := w.(devices := w.devices[d := Device(c.t, Idle)], remote := c.remote);
      var w2 := PushPair(home, w, d, batch, i, FaultAt(faults, i), now, stats);
      var rest := if goOn then PushSteps(d, batch, i + 1, faults, now) else [];
      if goOn {
        PushLoopIsARun(home, w2, d, batch, i + 1, faults, now, next.stats);
        assert w2.devices[d := Device(c.t, Idle)] == w.devices[d := Device(c.t, Idle)];
      }
      RunsAfterTwo(Anything, home, w, Push(d, FaultAt(faults, i)), Acknowledge(d, true, now), rest, end);
    }
  }

  /** A push cycle of the loop is a run of the protocol, so all that protocol runs keep holds of
      it: read the batch, then push and acknowledge entry by entry. */
  lemma PushCycleIsARun(home: Home, w: World, d: nat, faults: seq<Fault>, now: int, later: int)
    requires d < |w.devices| && w.devices[d].phase.Idle?
    ensures var batch := ReadBatch(w.devices[d].t, now);
      var c := PushCycle(w.devices[d].t, w.remote, faults, now, later);
      Runs(Anything, home, w, [ReadPushBatch(d, now)] + PushSteps(d, batch, 0, faults, later),
           w.(devices := w.devices[d := Device(c.t, Idle)], remote := c.remote))
  {
    var batch := ReadBatch(w.devices[d].t, now);
    var read := ReadPushBatch(d, now);
    var w1 := Next(w, read);
    assert batch[0..] == batch;
    PushLoopIsARun(home, w1, d, batch, 0, faults, later, NO_STATS);
    var c := PushCycle(w.devices[d].t, w.remote, faults, now, later);
    assert w1.devices[d := Device(c.t, Idle)] == w.devices[d := Device(c.t, Idle)];
    var steps := [read] + PushSteps(d, batch, 0, faults, later);
    assert steps[1..] == PushSteps(d, batch, 0, faults, later);
  }

  function PullSteps(d: nat, n: nat, i: nat, refused: set<nat>, now: int): seq<Step>
    requires i <= n
    decreases n - i
  {
    if i == n then [SaveCheckpoint(d)] else [ApplyOne(d, i !in refused, now)] + PullSteps(d, n, i + 1, refused, now)
  }

  lemma {:induction false} PullLoopIsARun(home: Home, w: World, d: nat, rs: seq<RemoteRecord>, i: nat,
                                          refused: set<nat>, now: int)
    requires i <= |rs| && d < |w.devices| && w.devices[d].phase.Pulling? && w.devices[d].phase.todo == rs[i..]
    ensures var (t, cp) := PullFrom(w.devices[d].t, w.devices[d].phase.newCheckpoint, rs, i, refused, now);
      Runs(Anything, home, w, PullSteps(d, |rs|, i, refused, now),
           w.(devices := w.devices[d := Device(t.(checkpoint := cp), Idle)]))
    decreases |rs| - i
  {
    var steps := PullSteps(d, |rs|, i, refused, now);
    var w1 := Next(w, steps[0]);
    if i < |rs| {
      assert rs[i..][0] == rs[i] && rs[i..][1..] == rs[i + 1..];
      PullLoopIsARun(home, w1, d, rs, i + 1, refused, now);
      var (t, cp) := PullFrom(w.devices[d].t, w.devices[d].phase.newCheckpoint, rs, i, refused, now);
      assert w1.devices[d := Device(t.(checkpoint := cp), Idle)] == w.devices[d := Device(t.(checkpoint := cp), Idle)];
      assert steps[1..] == PullSteps(d, |rs|, i + 1, refused, now);
    } else {
      assert steps[1..] == [];
    }
  }

  /** A pull cycle of the loop is a run of the protocol. */
  lemma PullCycleIsARun(home: Home, w: World, d: nat, rs: seq<RemoteRecord>, refused: set<nat>, now: int)
    requires d < |w.devices| && w.devices[d].phase.Idle? && IsPull(w.remote, w.devices[d].t.checkpoint, rs)
    ensures Runs(Anything, home, w, [Fetch(d, rs)] + PullSteps(d, |rs|, 0, refused, now),
                 w.(devices := w.devices[d := Device(PullCycle(w.devices[d].t, rs, refused, now), Idle)]))
  {
    var w1 := Next(w, Fetch(d, rs));
    assert rs[0..] == rs;
    PullLoopIsARun(home, w1, d, rs, 0, refused, now);
    var last := Device(PullCycle(w.devices[d].t, rs, refused, now), Idle);
    assert w1.devices[d := last] == w.devices[d := last];
    var steps := [Fetch(d, rs)] + PullSteps(d, |rs|, 0, refused, now);
    assert steps[1..] == PullSteps(d, |rs|, 0, refused, now);
  }

  // ── A clean pull catches up ────────────────────────────────────────────────

  lemma {:induction false} PullReaches(t: Tables, cp: Option<Stamp>, rs: seq<RemoteRecord>, i: nat, now: int)
    requires i <= |rs|
    ensures var (t', cp') := PullFrom(t, cp, rs, i, {}, now);
      && t' == ApplyAll(t, rs[i..], now)
      && (forall h :: !After(cp, h) ==> !After(cp', h))
      && (forall j :: i <= j < |rs| ==> !After(cp', rs[j].hlc))
    decreases |rs| - i
  {
    TotalOrder();
    if i < |rs| {
      PullReaches(ApplyRemote(t, rs[i], now), Advance(cp, rs[i].hlc), rs, i + 1, now);
      assert rs[i..][1..] == rs[i + 1..] && rs[i..][0] == rs[i];
    }
  }

  /** After a pull cycle in which nothing was refused, the next pull would return nothing. */
  lemma CleanPullCatchesUp(t: Tables, remote: Remote, rs: seq<RemoteRecord>, now: int)
    requires WellKeyed(remote) && IsPull(remote, t.checkpoint, rs)
    ensures forall k :: k in remote ==> !After(PullCycle(t, rs, {}, now).checkpoint, remote[k].hlc)
    ensures PullCycle(t, rs, {}, now).records == ApplyAll(t, rs, now).records
  {
    PullReaches(t, t.checkpoint, rs, 0, now);
    assert rs[0..] == rs;
    forall k | k in remote ensures !After(PullCycle(t, rs, {}, now).checkpoint, remote[k].hlc) {
      if After(t.checkpoint, remote[k].hlc) {
        assert remote[k] in rs;
      }
    }
  }
}
