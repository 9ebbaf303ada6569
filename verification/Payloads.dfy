/** No torn payloads, with no hypothesis on clocks, ids, faults or crashes: whatever a live copy of a key
    holds, anywhere, one put of that key wrote it, whole. */
module Payloads {
  import opened Base
  import opened Schema
  import opened Protocol
  import opened Agreement

  ghost predicate RecordPut(w: World, r: RemoteRecord) {
    !r.deleted ==> r.payload.Some? && (r.key, r.payload.value) in w.puts
  }

  /** Live rows hold what was put, and so does the row of every queued upsert, tombstone or not. */
  ghost predicate TablesPut(w: World, t: Tables) {
    && (forall id :: id in t.records && !t.records[id].deleted ==>
          (Key(id, t.records[id].collection), t.records[id].payload) in w.puts)
    && (forall s :: s in t.outbox ==> EntryPut(w, t, s))
  }

  ghost predicate EntryPut(w: World, t: Tables, s: int)
    requires s in t.outbox
  {
    var e := t.outbox[s];
    e.operation == Upsert && Get(t.records, e.key).Some? ==> (e.key, Get(t.records, e.key).value.payload) in w.puts
  }

  ghost predicate InFlightPut(w: World, e: PushEntry) {
    e.operation == Upsert ==> e.payload.Some? && (e.key, e.payload.value) in w.puts
  }

  ghost predicate DevicePut(w: World, dev: Device) {
    && TablesPut(w, dev.t)
    && (forall e :: e in InFlight(dev.phase) ==> InFlightPut(w, e))
    && (forall r :: r in Todo(dev.phase) ==> RecordPut(w, r))
  }

  ghost predicate AllPut(w: World) {
    && (forall k :: k in w.remote ==> w.remote[k].key == k && RecordPut(w, w.remote[k]))
    && (forall i :: 0 <= i < |w.devices| ==> DevicePut(w, w.devices[i]))
  }

  lemma MorePuts(w: World, w': World, dev: Device)
    requires DevicePut(w, dev) && w.puts <= w'.puts
    ensures DevicePut(w', dev)
  {
    forall s | s in dev.t.outbox ensures EntryPut(w', dev.t, s) {
      assert EntryPut(w, dev.t, s);
    }
  }

  lemma PutKeepsPut(w: World, w': World, t: Tables, key: Key, payload: Payload, hlc: Stamp, now: int)
    requires TablesPut(w, t) && w.puts <= w'.puts && (key, payload) in w'.puts
    ensures TablesPut(w', HandlePut(t, key, payload, hlc, now))
  {
    var t' := HandlePut(t, key, payload, hlc, now);
    forall s | s in t'.outbox ensures EntryPut(w', t', s) {
      if s in t.outbox && t'.outbox[s] == t.outbox[s] { assert EntryPut(w, t, s); }
    }
  }

  lemma DeleteKeepsPut(w: World, t: Tables, key: Key, hlc: Stamp, now: int)
    requires TablesPut(w, t)
    ensures TablesPut(w, HandleDelete(t, key, hlc, now))
  {
    var t' := HandleDelete(t, key, hlc, now);
    forall s | s in t'.outbox ensures EntryPut(w, t', s) {
      if s in t.outbox && t'.outbox[s] == t.outbox[s] { assert EntryPut(w, t, s); }
    }
  }

  lemma ApplyKeepsPut(w: World, t: Tables, r: RemoteRecord, now: int)
    requires TablesPut(w, t) && RecordPut(w, r)
    ensures TablesPut(w, ApplyRemote(t, r, now))
  {
    var t' := ApplyRemote(t, r, now);
    forall s | s in t'.outbox ensures EntryPut(w, t', s) {
      assert EntryPut(w, t, s);
    }
  }

  lemma ReadKeepsPut(w: World, t: Tables, now: int)
    requires TablesPut(w, t)
    ensures forall e :: e in ReadBatch(t, now) ==> InFlightPut(w, e)
  {
    forall e | e in ReadBatch(t, now) ensures InFlightPut(w, e) {
      assert BuildPushEntry(t, e.seqNo) == Some(e);
      assert EntryPut(w, t, e.seqNo);
    }
  }

  /** Steps that leave the rows alone keep each entry's key and operation. */
  lemma SameRowsKeepPut(w: World, t: Tables, t': Tables)
    requires TablesPut(w, t) && t'.records == t.records
    requires forall s :: s in t'.outbox ==>
      s in t.outbox && t'.outbox[s].key == t.outbox[s].key && t'.outbox[s].operation == t.outbox[s].operation
    ensures TablesPut(w, t')
  {
    forall s | s in t'.outbox ensures EntryPut(w, t', s) {
      assert EntryPut(w, t, s);
    }
  }

  /** The steps of the sync loop. */
  lemma SyncStepPut(w: World, s: Step)
    requires AllPut(w) && Enabled(w, s) && !s.Put? && !s.Erase?
    ensures DevicePut(w, Next(w, s).devices[s.d])
  {
    var dev, dev' := w.devices[s.d], Next(w, s).devices[s.d];
    assert DevicePut(w, dev);
    match s
    case ReadPushBatch(_, now) => ReadKeepsPut(w, dev.t, now);
    case ApplyOne(_, ok, now) =>
      assert dev.phase.todo[0] in Todo(dev.phase);
      ApplyKeepsPut(w, dev.t, dev.phase.todo[0], now);
      forall r | r in dev.phase.todo[1..] ensures r in Todo(dev.phase) {}
    case Acknowledge(_, _, _) =>
      SameRowsKeepPut(w, dev.t, dev'.t);
      forall e | e in InFlight(dev'.phase) ensures e in InFlight(dev.phase) {}
    case SaveCheckpoint(_) => SameRowsKeepPut(w, dev.t, dev'.t);
    case _ =>
  }

  lemma DeviceStepPut(w: World, s: Step)
    requires AllPut(w) && Enabled(w, s)
    ensures DevicePut(Next(w, s), Next(w, s).devices[s.d])
  {
    var dev, w' := w.devices[s.d], Next(w, s);
    assert DevicePut(w, dev);
    match s
    case Put(_, key, payload, hlc, now) =>
      MorePuts(w, w', dev);
      PutKeepsPut(w, w', dev.t, key, payload, hlc, now);
    case Erase(_, key, hlc, now) =>
      MorePuts(w, w', dev);
      DeleteKeepsPut(w', dev.t, key, hlc, now);
    case _ =>
      SyncStepPut(w, s);
      MorePuts(w, w', w'.devices[s.d]);
  }

  lemma StepKeepsPut(w: World, s: Step)
    requires AllPut(w) && Enabled(w, s)
    ensures AllPut(Next(w, s))
  {
    var w' := Next(w, s);
    DeviceStepPut(w, s);
    forall i | 0 <= i < |w'.devices| && i != s.d ensures DevicePut(w', w'.devices[i]) {
      MorePuts(w, w', w.devices[i]);
    }
    if s.Push? {
      var e := w.devices[s.d].phase.batch[0];
      assert e in InFlight(w.devices[s.d].phase) && DevicePut(w, w.devices[s.d]);
    }
  }

  lemma {:induction false} RunKeepsPut(home: Home, w: World, steps: seq<Step>, end: World)
    requires AllPut(w) && Runs(Anything, home, w, steps, end)
    ensures AllPut(end)
    decreases |steps|
  {
    if steps != [] {
      StepKeepsPut(w, steps[0]);
      RunKeepsPut(home, Next(w, steps[0]), steps[1..], end);
    }
  }

  /** The payloads on record are those the run's puts wrote. */
  lemma {:induction false} PutsAreSteps(home: Home, w: World, steps: seq<Step>, end: World, key: Key, p: Payload)
    requires Runs(Anything, home, w, steps, end) && (key, p) in end.puts
    ensures (key, p) in w.puts || exists s :: s in steps && s.Put? && s.key == key && s.payload == p
    decreases |steps|
  {
    if steps != [] {
      PutsAreSteps(home, Next(w, steps[0]), steps[1..], end, key, p);
      if (key, p) in Next(w, steps[0]).puts && (key, p) !in w.puts {
        assert steps[0] in steps && steps[0].Put?;
      } else if (key, p) !in w.puts {
        var s :| s in steps[1..] && s.Put? && s.key == key && s.payload == p;
        assert s in steps;
      }
    }
  }

  /** No torn payload: in every state of any run, whatever the clocks, ids and faults, each live copy of a
      key, in a row, the store or a pulled snapshot, holds whole the payload of one put of that key. */
  lemma NoTornPayload(home: Home, w: World, steps: seq<Step>, end: World, key: Key, hlc: Stamp, payload: Payload)
    requires Initial(w) && Runs(Anything, home, w, steps, end)
    requires IsCopy(end, key, hlc, Live(payload))
    ensures exists s :: s in steps && s.Put? && s.key == key && s.payload == payload
  {
    RunKeepsPut(home, w, steps, end);
    if !StoreHolds(end.remote, key, hlc, Live(payload)) {
      var i :| 0 <= i < |end.devices| && DeviceHolds(end.devices[i], key, hlc, Live(payload));
      assert DevicePut(end, end.devices[i]);
    }
    PutsAreSteps(home, w, steps, end, key, payload);
  }
}
