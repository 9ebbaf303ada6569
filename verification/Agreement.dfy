/** When no two writes of a key share an HLC, an HLC stands for one content: all copies of a key
    that carry the same HLC at the same moment show the same thing. */
module Agreement {
  import opened Base
  import opened Lex
  import opened Schema
  import opened Protocol
  import opened Tracking

  // ── The properties ─────────────────────────────────────────────────────────

  /** The device's row, or a record of its pulled snapshot, is this copy of the key. */
  ghost predicate DeviceHolds(dev: Device, key: Key, hlc: Stamp, c: Content) {
    || (var row := Get(dev.t.records, key); row.Some? && row.value.hlc == hlc && RowContent(row.value) == c)
    || (exists r :: r in Todo(dev.phase) && r.key == key && r.hlc == hlc && RemoteContent(r) == c)
  }

  ghost predicate StoreHolds(remote: Remote, key: Key, hlc: Stamp, c: Content) {
    key in remote && remote[key].hlc == hlc && RemoteContent(remote[key]) == c
  }

  ghost predicate IsCopy(w: World, key: Key, hlc: Stamp, c: Content) {
    || StoreHolds(w.remote, key, hlc, c)
    || (exists i :: 0 <= i < |w.devices| && DeviceHolds(w.devices[i], key, hlc, c))
  }

  ghost predicate CopiesAgree(w: World) {
    forall key, hlc, c, c' :: IsCopy(w, key, hlc, c) && IsCopy(w, key, hlc, c') ==> c == c'
  }

  // ── Supporting invariants ──────────────────────────────────────────────────

  /** The key is in its collection and the write is on record as this operation. */
  ghost predicate Recorded(home: Home, w: World, key: Key, hlc: Stamp, deletion: bool) {
    && key.collection == home(key.id)
    && WriteId(key, hlc) in w.history
    && (w.history[WriteId(key, hlc)] == Delete <==> deletion)
  }

  ghost predicate RowFaithful(home: Home, w: World, id: string, row: Row) {
    && Recorded(home, w, Key(id, row.collection), row.hlc, row.deleted)
    && (!row.deleted ==> (Key(id, row.collection), row.payload) in w.puts)
  }

  ghost predicate RecordFaithful(home: Home, w: World, r: RemoteRecord) {
    && Recorded(home, w, r.key, r.hlc, r.deleted)
    && (if r.deleted then r.payload == None else r.payload.Some? && (r.key, r.payload.value) in w.puts)
  }

  /** An upsert waiting in the outbox still has its row, and the row holds a payload that was put
      even when the row is a tombstone. */
  ghost predicate EntryFaithful(home: Home, w: World, t: Tables, s: int)
    requires s in t.outbox
  {
    var e := t.outbox[s];
    && Recorded(home, w, e.key, e.hlc, e.operation == Delete)
    && (e.operation == Upsert ==>
          Get(t.records, e.key).Some? && (e.key, Get(t.records, e.key).value.payload) in w.puts)
  }

  /** An in-flight entry is in the outbox; if the row still carries its HLC, they agree. */
  ghost predicate InFlightFaithful(w: World, t: Tables, e: PushEntry) {
    && e.seqNo in t.outbox
    && (if e.operation == Delete then e.payload == None else e.payload.Some? && (e.key, e.payload.value) in w.puts)
    && (var row := Get(t.records, e.key);
        row.Some? && row.value.hlc == e.hlc ==> RowContent(row.value) == EntryContent(e))
  }

  ghost predicate Ascending(batch: seq<PushEntry>) {
    forall i, j :: 0 <= i < j < |batch| ==> batch[i].seqNo < batch[j].seqNo
  }

  ghost predicate TablesFaithful(home: Home, w: World, t: Tables) {
    && (forall id :: id in t.records ==> RowFaithful(home, w, id, t.records[id]))
    && (forall s :: s in t.outbox ==> EntryFaithful(home, w, t, s))
  }

  ghost predicate DeviceFaithful(home: Home, w: World, dev: Device) {
    && TablesFaithful(home, w, dev.t)
    && (forall e :: e in InFlight(dev.phase) ==> InFlightFaithful(w, dev.t, e))
    && Ascending(InFlight(dev.phase))
    && (forall r :: r in Todo(dev.phase) ==> RecordFaithful(home, w, r))
  }

  ghost predicate SameWrite(x: OutboxEntry, y: OutboxEntry) {
    x.key == y.key && x.hlc == y.hlc
  }

  /** No write waits in two outbox entries, on one device or on two. */
  ghost predicate EntriesUnique(w: World) {
    forall i, j, s, u ::
      (&& 0 <= i < |w.devices| && 0 <= j < |w.devices|
       && s in w.devices[i].t.outbox && u in w.devices[j].t.outbox
       && SameWrite(w.devices[i].t.outbox[s], w.devices[j].t.outbox[u]))
      ==> i == j && s == u
  }

  ghost predicate StoreFaithful(home: Home, w: World) {
    forall k :: k in w.remote ==> RecordFaithful(home, w, w.remote[k])
  }

  ghost predicate Faithful(home: Home, w: World) {
    && StoreFaithful(home, w)
    && (forall i :: 0 <= i < |w.devices| ==> DeviceFaithful(home, w, w.devices[i]))
  }

  ghost predicate Agreeing(home: Home, w: World) {
    Tracked(w) && Faithful(home, w) && EntriesUnique(w) && CopiesAgree(w)
  }

  // ── Growth of the history ──────────────────────────────────────────────────

  ghost predicate Extends(w: World, w': World) {
    && (forall x :: x in w.history ==> x in w'.history && w'.history[x] == w.history[x])
    && w.puts <= w'.puts
  }

  lemma FaithfulOnward(home: Home, w: World, w': World, dev: Device)
    requires DeviceFaithful(home, w, dev) && Extends(w, w')
    ensures DeviceFaithful(home, w', dev)
  {
    forall s | s in dev.t.outbox ensures EntryFaithful(home, w', dev.t, s) {
      assert EntryFaithful(home, w, dev.t, s);
    }
    forall id | id in dev.t.records ensures RowFaithful(home, w', id, dev.t.records[id]) {
      assert RowFaithful(home, w, id, dev.t.records[id]);
    }
    forall e | e in InFlight(dev.phase) ensures InFlightFaithful(w', dev.t, e) {
      assert InFlightFaithful(w, dev.t, e);
    }
    forall r | r in Todo(dev.phase) ensures RecordFaithful(home, w', r) {
      assert RecordFaithful(home, w, r);
    }
  }

  lemma StepExtends(home: Home, w: World, s: Step)
    requires Allowed(Distinct, home, w, s)
    ensures Extends(w, Next(w, s))
  {
  }

  // ── Each step keeps the device faithful ────────────────────────────────────

  lemma WriteKeepsInFlight(home: Home, w: World, w': World, dev: Device, t': Tables,
                           key: Key, operation: Operation, hlc: Stamp, e: PushEntry)
    requires DeviceFaithful(home, w, dev) && DeviceTracked(dev, w.remote)
    requires key.collection == home(key.id) && WriteId(key, hlc) !in w.history
    requires Extends(w, w') && e in InFlight(dev.phase)
    requires t' == Append(dev.t.(records := t'.records), key, operation, hlc)
    requires operation == Delete ==> exists now :: t'.records == SoftDelete(dev.t.records, key, hlc, now)
    requires operation == Upsert ==> exists payload, now ::
      t'.records == UpsertRow(dev.t.records, key, payload, hlc, now)
    ensures InFlightFaithful(w', t', e)
  {
    FaithfulOnward(home, w, w', dev);
    assert InFlightFaithful(w', dev.t, e) && Matches(dev.t, e);
    assert EntryFaithful(home, w, dev.t, e.seqNo);
    assert e.key != key ==> Get(t'.records, e.key) == Get(dev.t.records, e.key);
  }

  lemma WriteKeepsFaithful(home: Home, w: World, w': World, dev: Device, t': Tables,
                           key: Key, operation: Operation, hlc: Stamp)
    requires DeviceFaithful(home, w, dev) && DeviceTracked(dev, w.remote)
    requires key.collection == home(key.id) && WriteId(key, hlc) !in w.history
    requires Extends(w, w') && WriteId(key, hlc) in w'.history && w'.history[WriteId(key, hlc)] == operation
    requires t' == Append(dev.t.(records := t'.records), key, operation, hlc)
    requires operation == Delete ==> exists now :: t'.records == SoftDelete(dev.t.records, key, hlc, now)
    requires operation == Upsert ==> exists payload, now ::
      t'.records == UpsertRow(dev.t.records, key, payload, hlc, now) && (key, payload) in w'.puts
    ensures DeviceFaithful(home, w', dev.(t := t'))
  {
    FaithfulOnward(home, w, w', dev);
    forall id | id in t'.records ensures RowFaithful(home, w', id, t'.records[id]) {
      if id != key.id {
        assert RowFaithful(home, w', id, dev.t.records[id]);
      } else if id in dev.t.records {
        assert RowFaithful(home, w', id, dev.t.records[id]);
      }
    }
    forall s | s in t'.outbox ensures EntryFaithful(home, w', t', s) {
      if s != dev.t.nextSeq {
        assert EntryFaithful(home, w', dev.t, s);
      }
    }
    forall e | e in InFlight(dev.phase) ensures InFlightFaithful(w', t', e) {
      WriteKeepsInFlight(home, w, w', dev, t', key, operation, hlc, e);
    }
  }

  lemma {:induction false} BuiltBatchAscends(t: Tables, seqs: seq<int>)
    requires forall s :: s in seqs ==> s in t.outbox
    requires forall i, j :: 0 <= i < j < |seqs| ==> seqs[i] < seqs[j]
    ensures Ascending(BuildBatch(t, seqs))
  {
    if seqs != [] {
      BuiltBatchAscends(t, seqs[1..]);
      var rest := BuildBatch(t, seqs[1..]);
      match BuildPushEntry(t, seqs[0])
      case Some(e) =>
        assert e.seqNo == seqs[0];
        forall j | 0 <= j < |rest| ensures e.seqNo < rest[j].seqNo {
          assert rest[j] in rest && rest[j].seqNo in seqs[1..];
        }
        AscendsInFront(e, rest);
      case None =>
    }
  }

  lemma AscendsInFront(e: PushEntry, rest: seq<PushEntry>)
    requires Ascending(rest) && forall j :: 0 <= j < |rest| ==> e.seqNo < rest[j].seqNo
    ensures Ascending([e] + rest)
  {
  }

  /** A push batch, exactly: ready entries that could be built, in the order they were queued, and none
      is passed over but for entries beyond the twenty-five looked at, which were queued later. */
  lemma ReadBatchExactly(t: Tables, now: int)
    ensures Ascending(ReadBatch(t, now))
    ensures forall e :: e in ReadBatch(t, now) ==>
      Ready(t.outbox, e.seqNo, now) && BuildPushEntry(t, e.seqNo) == Some(e)
    ensures forall s :: 1 <= s < t.nextSeq && Ready(t.outbox, s, now) && BuildPushEntry(t, s).Some? ==>
      || BuildPushEntry(t, s).value in ReadBatch(t, now)
      || (|PeekBatch(t, now, 25)| == 25 && forall e :: e in ReadBatch(t, now) ==> e.seqNo < s)
  {
    BuiltBatchAscends(t, PeekBatch(t, now, PUSH_BATCH));
  }

  lemma ReadKeepsFaithful(home: Home, w: World, dev: Device, now: int)
    requires DeviceFaithful(home, w, dev) && dev.phase.Idle?
    ensures DeviceFaithful(home, w, dev.(phase := PushPhase(ReadBatch(dev.t, now))))
  {
    var batch := ReadBatch(dev.t, now);
    BuiltBatchAscends(dev.t, PeekBatch(dev.t, now, PUSH_BATCH));
    forall e | e in batch ensures InFlightFaithful(w, dev.t, e) {
      assert BuildPushEntry(dev.t, e.seqNo) == Some(e);
      assert EntryFaithful(home, w, dev.t, e.seqNo);
      var row := Get(dev.t.records, e.key);
      if row.Some? { assert RowFaithful(home, w, e.key.id, row.value); }
    }
  }

  lemma AcknowledgeKeepsFaithful(home: Home, w: World, dev: Device, stored: bool, now: int)
    requires DeviceFaithful(home, w, dev) && dev.phase.Answered? && dev.phase.batch != []
    ensures DeviceFaithful(home, w, Acknowledged(dev, stored, now))
  {
    var dev' := Acknowledged(dev, stored, now);
    var batch := dev.phase.batch;
    forall s | s in dev'.t.outbox ensures EntryFaithful(home, w, dev'.t, s) {
      assert EntryFaithful(home, w, dev.t, s);
    }
    forall e | e in InFlight(dev'.phase) ensures InFlightFaithful(w, dev'.t, e) {
      var i :| 0 <= i < |batch[1..]| && batch[1..][i] == e;
      assert batch[i + 1] == e && batch[0].seqNo < e.seqNo;
      assert e in InFlight(dev.phase) && InFlightFaithful(w, dev.t, e);
    }
    assert Ascending(batch[1..]);
  }

  lemma ApplyKeepsFaithful(home: Home, w: World, t: Tables, r: RemoteRecord, now: int)
    requires TablesFaithful(home, w, t) && RecordFaithful(home, w, r)
    ensures TablesFaithful(home, w, ApplyRemote(t, r, now))
  {
    var t' := ApplyRemote(t, r, now);
    if t' != t {
      forall id | id in t'.records ensures RowFaithful(home, w, id, t'.records[id]) {
        if id != r.key.id { assert RowFaithful(home, w, id, t.records[id]); }
      }
      forall s | s in t'.outbox ensures EntryFaithful(home, w, t', s) {
        assert EntryFaithful(home, w, t, s);
        assert t.outbox[s].key.id != r.key.id;
      }
    }
  }

  lemma WriteStepFaithful(home: Home, w: World, s: Step)
    requires Allowed(Distinct, home, w, s) && (s.Put? || s.Erase?)
    requires DeviceFaithful(home, w, w.devices[s.d]) && DeviceTracked(w.devices[s.d], w.remote)
    ensures DeviceFaithful(home, Next(w, s), Next(w, s).devices[s.d])
  {
    var dev, w' := w.devices[s.d], Next(w, s);
    StepExtends(home, w, s);
    if s.Put? {
      var t' := HandlePut(dev.t, s.key, s.payload, s.hlc, s.now);
      assert t'.records == UpsertRow(dev.t.records, s.key, s.payload, s.hlc, s.now);
      WriteKeepsFaithful(home, w, w', dev, t', s.key, Upsert, s.hlc);
    } else {
      var t' := HandleDelete(dev.t, s.key, s.hlc, s.now);
      assert t'.records == SoftDelete(dev.t.records, s.key, s.hlc, s.now);
      WriteKeepsFaithful(home, w, w', dev, t', s.key, Delete, s.hlc);
    }
  }

  lemma AppliedOneKeepsFaithful(home: Home, w: World, dev: Device, ok: bool, now: int)
    requires DeviceFaithful(home, w, dev) && dev.phase.Pulling? && dev.phase.todo != []
    ensures DeviceFaithful(home, w, AppliedOne(dev, ok, now))
  {
    var r := dev.phase.todo[0];
    assert r in Todo(dev.phase);
    ApplyKeepsFaithful(home, w, dev.t, r, now);
    forall x | x in dev.phase.todo[1..] ensures x in Todo(dev.phase) {}
  }

  lemma CheckpointKeepsFaithful(home: Home, w: World, dev: Device)
    requires DeviceFaithful(home, w, dev) && dev.phase.Pulling?
    ensures DeviceFaithful(home, w, Device(dev.t.(checkpoint := dev.phase.newCheckpoint), Idle))
  {
    var t' := dev.t.(checkpoint := dev.phase.newCheckpoint);
    forall u | u in t'.outbox ensures EntryFaithful(home, w, t', u) {
      assert EntryFaithful(home, w, dev.t, u);
    }
  }

  /** The steps of the sync loop write nothing into the history. */
  lemma SyncStepFaithful(home: Home, w: World, s: Step)
    requires Allowed(Distinct, home, w, s) && !s.Put? && !s.Erase? && StoreFaithful(home, w)
    requires DeviceFaithful(home, w, w.devices[s.d]) && DeviceTracked(w.devices[s.d], w.remote)
    ensures DeviceFaithful(home, w, Next(w, s).devices[s.d])
  {
    var dev := w.devices[s.d];
    match s
    case ReadPushBatch(_, now) => ReadKeepsFaithful(home, w, dev, now);
    case Acknowledge(_, stored, now) => AcknowledgeKeepsFaithful(home, w, dev, stored, now);
    case ApplyOne(_, ok, now) => AppliedOneKeepsFaithful(home, w, dev, ok, now);
    case SaveCheckpoint(_) => CheckpointKeepsFaithful(home, w, dev);
    case _ =>
  }

  lemma DeviceStepFaithful(home: Home, w: World, s: Step)
    requires Allowed(Distinct, home, w, s) && StoreFaithful(home, w)
    requires DeviceFaithful(home, w, w.devices[s.d]) && DeviceTracked(w.devices[s.d], w.remote)
    ensures DeviceFaithful(home, Next(w, s), Next(w, s).devices[s.d])
  {
    if s.Put? || s.Erase? {
      WriteStepFaithful(home, w, s);
    } else {
      SyncStepFaithful(home, w, s);
      StepExtends(home, w, s);
      FaithfulOnward(home, w, Next(w, s), Next(w, s).devices[s.d]);
    }
  }

  lemma PushKeepsStoreFaithful(home: Home, w: World, s: Step)
    requires Agreeing(home, w) && Allowed(Distinct, home, w, s)
    ensures StoreFaithful(home, Next(w, s))
  {
    var w' := Next(w, s);
    StepExtends(home, w, s);
    forall k | k in w'.remote ensures RecordFaithful(home, w', w'.remote[k]) {
      if k in w.remote && w'.remote[k] == w.remote[k] {
        assert RecordFaithful(home, w, w.remote[k]);
      } else {
        var dev := w.devices[s.d];
        var e := dev.phase.batch[0];
        assert e in InFlight(dev.phase) && DeviceFaithful(home, w, dev) && DeviceTracked(dev, w.remote);
        assert InFlightFaithful(w, dev.t, e) && Matches(dev.t, e);
        assert EntryFaithful(home, w, dev.t, e.seqNo);
      }
    }
  }

  lemma StepKeepsFaithful(home: Home, w: World, s: Step)
    requires Agreeing(home, w) && Allowed(Distinct, home, w, s)
    ensures Faithful(home, Next(w, s))
  {
    var w' := Next(w, s);
    PushKeepsStoreFaithful(home, w, s);
    DeviceStepFaithful(home, w, s);
    StepExtends(home, w, s);
    forall i | 0 <= i < |w'.devices| ensures DeviceFaithful(home, w', w'.devices[i]) {
      if i != s.d { FaithfulOnward(home, w, w', w.devices[i]); }
    }
  }

  // ── Outbox entries stay unique ─────────────────────────────────────────────

  /** Every entry of a new outbox is an old one with the same write, or the one just written. */
  lemma EntryOrigin(home: Home, w: World, s: Step, i: nat, u: int)
    requires Allowed(Distinct, home, w, s) && i < |w.devices|
    requires DeviceTracked(w.devices[i], w.remote) && DeviceFaithful(home, w, w.devices[i])
    requires u in Next(w, s).devices[i].t.outbox
    ensures var e := Next(w, s).devices[i].t.outbox[u];
      if u in w.devices[i].t.outbox then
        SameWrite(w.devices[i].t.outbox[u], e) && WriteId(e.key, e.hlc) in w.history
      else
        (s.Put? || s.Erase?) && i == s.d && u == w.devices[i].t.nextSeq && e.key == s.key && e.hlc == s.hlc
  {
    var dev := w.devices[i];
    if u in dev.t.outbox { assert EntryFaithful(home, w, dev.t, u); }
  }

  lemma StepKeepsEntriesUnique(home: Home, w: World, s: Step)
    requires Agreeing(home, w) && Allowed(Distinct, home, w, s)
    ensures EntriesUnique(Next(w, s))
  {
    var w' := Next(w, s);
    forall i, j, a, b |
      && 0 <= i < |w'.devices| && 0 <= j < |w'.devices|
      && a in w'.devices[i].t.outbox && b in w'.devices[j].t.outbox
      && SameWrite(w'.devices[i].t.outbox[a], w'.devices[j].t.outbox[b])
      ensures i == j && a == b
    {
      assert DeviceTracked(w.devices[i], w.remote) && DeviceFaithful(home, w, w.devices[i]);
      assert DeviceTracked(w.devices[j], w.remote) && DeviceFaithful(home, w, w.devices[j]);
      EntryOrigin(home, w, s, i, a);
      EntryOrigin(home, w, s, j, b);
    }
  }

  // ── Copies agree ───────────────────────────────────────────────────────────

  lemma CopyRecorded(home: Home, w: World, key: Key, hlc: Stamp, c: Content)
    requires Agreeing(home, w) && IsCopy(w, key, hlc, c)
    ensures WriteId(key, hlc) in w.history
  {
    if StoreHolds(w.remote, key, hlc, c) {
      assert RecordFaithful(home, w, w.remote[key]);
    } else {
      var i :| 0 <= i < |w.devices| && DeviceHolds(w.devices[i], key, hlc, c);
      assert DeviceFaithful(home, w, w.devices[i]);
      var row := Get(w.devices[i].t.records, key);
      if row.Some? { assert RowFaithful(home, w, key.id, row.value); }
    }
  }

  /** If everything the stepping device and the store hold afterwards was a copy before, nothing
      new can disagree. */
  lemma NoNewCopies(w: World, w': World, d: nat)
    requires CopiesAgree(w) && d < |w.devices| == |w'.devices|
    requires forall i :: 0 <= i < |w.devices| && i != d ==> w'.devices[i] == w.devices[i]
    requires forall k, h, c :: StoreHolds(w'.remote, k, h, c) ==> IsCopy(w, k, h, c)
    requires forall k, h, c :: DeviceHolds(w'.devices[d], k, h, c) ==> IsCopy(w, k, h, c)
    ensures CopiesAgree(w')
  {
    forall k, h, c | IsCopy(w', k, h, c) ensures IsCopy(w, k, h, c) {
      if !StoreHolds(w'.remote, k, h, c) {
        var i :| 0 <= i < |w'.devices| && DeviceHolds(w'.devices[i], k, h, c);
        if i != d { assert DeviceHolds(w.devices[i], k, h, c); }
      }
    }
  }

  /** A write touches no copy but the one it makes. */
  lemma WriteMakesOneCopy(home: Home, w: World, s: Step, k: Key, h: Stamp, c: Content)
    requires Allowed(Distinct, home, w, s) && (s.Put? || s.Erase?) && DeviceFaithful(home, w, w.devices[s.d])
    requires IsCopy(Next(w, s), k, h, c) && !(k == s.key && h == s.hlc)
    ensures IsCopy(w, k, h, c)
  {
    var w' := Next(w, s);
    var dev, dev' := w.devices[s.d], w'.devices[s.d];
    if !StoreHolds(w'.remote, k, h, c) {
      var i :| 0 <= i < |w'.devices| && DeviceHolds(w'.devices[i], k, h, c);
      if i == s.d {
        var row := Get(dev'.t.records, k);
        assert row.Some? && row.value.hlc != s.hlc ==> row == Get(dev.t.records, k);
      }
      assert DeviceHolds(w.devices[i], k, h, c);
    }
  }

  /** The write's own HLC is new, so the row it wrote is the only copy that carries it. */
  lemma WrittenCopyIsTheRow(home: Home, w: World, s: Step, c: Content)
    requires Agreeing(home, w) && Allowed(Distinct, home, w, s) && (s.Put? || s.Erase?)
    requires IsCopy(Next(w, s), s.key, s.hlc, c)
    ensures var row := Get(Next(w, s).devices[s.d].t.records, s.key); row.Some? && RowContent(row.value) == c
  {
    var w' := Next(w, s);
    assert !IsCopy(w, s.key, s.hlc, c) by {
      if IsCopy(w, s.key, s.hlc, c) { CopyRecorded(home, w, s.key, s.hlc, c); }
    }
    assert !DeviceHolds(w.devices[s.d], s.key, s.hlc, c);
    forall i | 0 <= i < |w'.devices| && i != s.d ensures !DeviceHolds(w'.devices[i], s.key, s.hlc, c) {
      assert w'.devices[i] == w.devices[i];
    }
  }

  lemma WriteKeepsAgreement(home: Home, w: World, s: Step)
    requires Agreeing(home, w) && Allowed(Distinct, home, w, s) && (s.Put? || s.Erase?)
    ensures CopiesAgree(Next(w, s))
  {
    var w' := Next(w, s);
    forall k, h, c, c' | IsCopy(w', k, h, c) && IsCopy(w', k, h, c') ensures c == c' {
      if k == s.key && h == s.hlc {
        WrittenCopyIsTheRow(home, w, s, c);
        WrittenCopyIsTheRow(home, w, s, c');
      } else {
        WriteMakesOneCopy(home, w, s, k, h, c);
        WriteMakesOneCopy(home, w, s, k, h, c');
      }
    }
  }

  /** An entry the store accepts agrees with every copy that already carries its HLC. */
  lemma AcceptedAgrees(home: Home, w: World, d: nat, c: Content)
    requires Agreeing(home, w) && d < |w.devices|
    requires w.devices[d].phase.Pushing? && w.devices[d].phase.batch != []
    requires Accepts(w.remote, w.devices[d].phase.batch[0])
    requires var e := w.devices[d].phase.batch[0]; IsCopy(w, e.key, e.hlc, c)
    ensures c == EntryContent(w.devices[d].phase.batch[0])
  {
    var dev := w.devices[d];
    var e := dev.phase.batch[0];
    assert e in InFlight(dev.phase) && DeviceFaithful(home, w, dev) && DeviceTracked(dev, w.remote);
    assert InFlightFaithful(w, dev.t, e) && Matches(dev.t, e);
    Irreflexive(e.hlc);
    assert !StoreHolds(w.remote, e.key, e.hlc, c);
    var i :| 0 <= i < |w.devices| && DeviceHolds(w.devices[i], e.key, e.hlc, c);
    assert !RemoteAtLeast(w.remote, e.key, e.hlc);
    HolderIsWriter(w, i, e.key, e.hlc, c);
    var t := w.devices[i].t;
    var s :| s in t.outbox && t.outbox[s].key == e.key && t.outbox[s].hlc == e.hlc;
    assert SameWrite(t.outbox[s], dev.t.outbox[e.seqNo]);
  }

  /** A device that holds a write the store has not reached still queues it. */
  lemma HolderIsWriter(w: World, i: nat, key: Key, hlc: Stamp, c: Content)
    requires Tracked(w) && i < |w.devices| && DeviceHolds(w.devices[i], key, hlc, c)
    requires !RemoteAtLeast(w.remote, key, hlc)
    ensures Queued(w.devices[i].t.outbox, key, hlc)
    ensures var row := Get(w.devices[i].t.records, key); row.Some? && row.value.hlc == hlc && RowContent(row.value) == c
  {
    assert DeviceTracked(w.devices[i], w.remote);
    assert key.id in w.devices[i].t.records ==> RowTracked(w.devices[i].t, w.remote, key.id);
  }

  lemma PushKeepsAgreement(home: Home, w: World, s: Step)
    requires Agreeing(home, w) && Allowed(Distinct, home, w, s) && s.Push?
    ensures CopiesAgree(Next(w, s))
  {
    var w' := Next(w, s);
    var dev := w.devices[s.d];
    var e := dev.phase.batch[0];
    forall k, h, c | DeviceHolds(w'.devices[s.d], k, h, c) ensures IsCopy(w, k, h, c) {
      assert DeviceHolds(dev, k, h, c);
    }
    if w'.remote == w.remote {
      NoNewCopies(w, w', s.d);
    } else {
      forall k, h, c | IsCopy(w', k, h, c)
        ensures IsCopy(w, k, h, c) || (k == e.key && h == e.hlc && c == EntryContent(e))
      {
        if !StoreHolds(w'.remote, k, h, c) {
          var i :| 0 <= i < |w'.devices| && DeviceHolds(w'.devices[i], k, h, c);
          if i != s.d { assert DeviceHolds(w.devices[i], k, h, c); }
        } else if k != e.key {
          assert StoreHolds(w.remote, k, h, c);
        }
      }
      forall c | IsCopy(w, e.key, e.hlc, c) ensures c == EntryContent(e) {
        AcceptedAgrees(home, w, s.d, c);
      }
    }
  }

  lemma ApplyKeepsAgreement(w: World, s: Step)
    requires CopiesAgree(w) && Enabled(w, s) && s.ApplyOne?
    ensures CopiesAgree(Next(w, s))
  {
    var w' := Next(w, s);
    var dev, dev' := w.devices[s.d], w'.devices[s.d];
    var r := dev.phase.todo[0];
    assert r in Todo(dev.phase);
    forall k, h, c | DeviceHolds(dev', k, h, c) ensures IsCopy(w, k, h, c) {
      if exists x :: x in Todo(dev'.phase) && x.key == k && x.hlc == h && RemoteContent(x) == c {
        var x :| x in Todo(dev'.phase) && x.key == k && x.hlc == h && RemoteContent(x) == c;
        assert x in Todo(dev.phase);
        assert DeviceHolds(dev, k, h, c);
      } else if k == r.key {
        assert DeviceHolds(dev, k, h, c) by {
          assert Get(dev'.t.records, k) == Get(dev.t.records, k) ||
            (r.hlc == h && RemoteContent(r) == c);
        }
      } else {
        assert DeviceHolds(dev, k, h, c);
      }
    }
    NoNewCopies(w, w', s.d);
  }

  lemma OtherStepKeepsAgreement(w: World, s: Step)
    requires CopiesAgree(w) && Enabled(w, s)
    requires s.ReadPushBatch? || s.Acknowledge? || s.Fetch? || s.SaveCheckpoint? || s.Crash?
    ensures CopiesAgree(Next(w, s))
  {
    var w' := Next(w, s);
    var dev, dev' := w.devices[s.d], w'.devices[s.d];
    assert dev'.t.records == dev.t.records;
    forall k, h, c | DeviceHolds(dev', k, h, c) ensures IsCopy(w, k, h, c) {
      if s.Fetch? && exists x :: x in Todo(dev'.phase) && x.key == k && x.hlc == h && RemoteContent(x) == c {
        assert StoreHolds(w.remote, k, h, c);
      } else {
        assert DeviceHolds(dev, k, h, c);
      }
    }
    NoNewCopies(w, w', s.d);
  }

  lemma StepKeepsAgreement(home: Home, w: World, s: Step)
    requires Agreeing(home, w) && Allowed(Distinct, home, w, s)
    ensures Agreeing(home, Next(w, s))
  {
    StepKeepsTracked(w, s);
    StepKeepsFaithful(home, w, s);
    StepKeepsEntriesUnique(home, w, s);
    if s.Put? || s.Erase? { WriteKeepsAgreement(home, w, s); }
    else if s.Push? { PushKeepsAgreement(home, w, s); }
    else if s.ApplyOne? { ApplyKeepsAgreement(w, s); }
    else { OtherStepKeepsAgreement(w, s); }
  }

  lemma {:induction false} RunKeepsAgreement(level: Level, home: Home, w: World, steps: seq<Step>, end: World)
    requires level != Anything && Agreeing(home, w) && Runs(level, home, w, steps, end)
    ensures Agreeing(home, end)
    decreases |steps|
  {
    if steps != [] {
      StepKeepsAgreement(home, w, steps[0]);
      RunKeepsAgreement(level, home, Next(w, steps[0]), steps[1..], end);
    }
  }

  lemma InitiallyAgreeing(home: Home, w: World)
    requires Initial(w)
    ensures Agreeing(home, w)
  {
    InitiallyTracked(w);
    forall i, k, h, c | 0 <= i < |w.devices| ensures !DeviceHolds(w.devices[i], k, h, c) {
      assert w.devices[i] == Device(EMPTY_TABLES, Idle);
    }
  }

  // ── The theorems ───────────────────────────────────────────────────────────

  /** The HLC determines the content: in every reachable state, copies of a key in any device's
      rows, the store, or any pulled snapshot that carry one HLC show one content. */
  lemma HlcDeterminesContent(home: Home, w: World, steps: seq<Step>, end: World,
                             key: Key, hlc: Stamp, c: Content, c': Content)
    requires Initial(w) && Runs(Distinct, home, w, steps, end)
    requires IsCopy(end, key, hlc, c) && IsCopy(end, key, hlc, c')
    ensures c == c'
  {
    InitiallyAgreeing(home, w);
    RunKeepsAgreement(Distinct, home, w, steps, end);
  }

  /** No upsert is ever stranded without its row, so no entry is silently left out of a batch. */
  lemma EveryUpsertHasItsRow(home: Home, w: World, steps: seq<Step>, end: World, d: nat, s: int)
    requires Initial(w) && Runs(Distinct, home, w, steps, end)
    requires d < |end.devices| && s in end.devices[d].t.outbox
    ensures BuildPushEntry(end.devices[d].t, s).Some?
  {
    InitiallyAgreeing(home, w);
    RunKeepsAgreement(Distinct, home, w, steps, end);
    assert DeviceFaithful(home, end, end.devices[d]);
    assert EntryFaithful(home, end, end.devices[d].t, s);
  }
}
