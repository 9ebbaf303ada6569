/** No local write is ever lost track of: in every reachable state, with no assumption about
    clocks, faults or crashes, a local row is still queued for push or the store already holds
    the record at that HLC or a later one. */
module Tracking {
  import opened Base
  import opened Lex
  import opened Schema
  import opened Protocol

  ghost predicate RemoteAtLeast(remote: Remote, key: Key, hlc: Stamp) {
    key in remote && AtMost(hlc, remote[key].hlc)
  }

  /** An outbox entry for this write is waiting. */
  ghost predicate Queued(outbox: Outbox, key: Key, hlc: Stamp) {
    exists s :: s in outbox && outbox[s].key == key && outbox[s].hlc == hlc
  }

  ghost predicate RowTracked(t: Tables, remote: Remote, id: string)
    requires id in t.records
  {
    var row := t.records[id];
    Queued(t.outbox, Key(id, row.collection), row.hlc) || RemoteAtLeast(remote, Key(id, row.collection), row.hlc)
  }

  /** An in-flight entry is the outbox entry of its number, while that exists. */
  ghost predicate Matches(t: Tables, e: PushEntry) {
    && e.seqNo < t.nextSeq
    && (e.seqNo in t.outbox ==>
          var o := t.outbox[e.seqNo]; o.key == e.key && o.operation == e.operation && o.hlc == e.hlc)
  }

  ghost predicate TablesTracked(t: Tables, remote: Remote) {
    && (forall s :: s in t.outbox ==> 1 <= s < t.nextSeq)
    && 1 <= t.nextSeq
    && (forall id :: id in t.records ==> RowTracked(t, remote, id))
  }

  /** A pulled snapshot is in HLC order, without repetition, and above the saved checkpoint. */
  ghost predicate SnapshotOrdered(dev: Device) {
    var todo := Todo(dev.phase);
    && (forall i, j :: 0 <= i < j < |todo| ==> todo[i] != todo[j] && AtMost(todo[i].hlc, todo[j].hlc))
    && (forall r :: r in todo ==> After(dev.t.checkpoint, r.hlc))
  }

  /** What the store has confirmed to the device is still true of the store. */
  ghost predicate PhaseTracked(dev: Device, remote: Remote) {
    && (forall e :: e in InFlight(dev.phase) ==> Matches(dev.t, e))
    && (dev.phase.Answered? ==> dev.phase.batch != [])
    && (dev.phase.Answered? && !dev.phase.answer.Failed? ==>
          RemoteAtLeast(remote, dev.phase.batch[0].key, dev.phase.batch[0].hlc))
    && (forall r :: r in Todo(dev.phase) ==> RemoteAtLeast(remote, r.key, r.hlc))
  }

  ghost predicate DeviceTracked(dev: Device, remote: Remote) {
    TablesTracked(dev.t, remote) && PhaseTracked(dev, remote) && SnapshotOrdered(dev)
  }

  ghost predicate WellKeyed(remote: Remote) {
    forall k :: k in remote ==> remote[k].key == k
  }

  ghost predicate Tracked(w: World) {
    && WellKeyed(w.remote)
    && (forall i :: 0 <= i < |w.devices| ==> DeviceTracked(w.devices[i], w.remote))
  }

  // ── The store only moves forward ───────────────────────────────────────────

  lemma PushAdvances(remote: Remote, e: PushEntry)
    ensures forall k, h :: RemoteAtLeast(remote, k, h) ==> RemoteAtLeast(Pushed(remote, e), k, h)
    ensures RemoteAtLeast(Pushed(remote, e), e.key, e.hlc)
    ensures WellKeyed(remote) ==> WellKeyed(Pushed(remote, e))
  {
    TotalOrder();
  }

  lemma TrackedOnward(dev: Device, remote: Remote, onward: Remote)
    requires DeviceTracked(dev, remote)
    requires forall k, h :: RemoteAtLeast(remote, k, h) ==> RemoteAtLeast(onward, k, h)
    ensures DeviceTracked(dev, onward)
  {
    forall id | id in dev.t.records ensures RowTracked(dev.t, onward, id) {
      assert RowTracked(dev.t, remote, id);
    }
  }

  // ── Each step keeps each device tracked ────────────────────────────────────

  lemma WriteKeepsTracked(dev: Device, remote: Remote, t': Tables, key: Key, operation: Operation, hlc: Stamp)
    requires DeviceTracked(dev, remote)
    requires t' == Append(dev.t.(records := t'.records), key, operation, hlc)
    requires forall id :: id in t'.records ==>
      || (id in dev.t.records && t'.records[id] == dev.t.records[id])
      || (Key(id, t'.records[id].collection) == key && t'.records[id].hlc == hlc)
    ensures DeviceTracked(dev.(t := t'), remote)
  {
    forall id | id in t'.records ensures RowTracked(t', remote, id) {
      var row := t'.records[id];
      var k := Key(id, row.collection);
      if k == key && row.hlc == hlc {
        assert t'.outbox[dev.t.nextSeq].key == k;
      } else {
        assert RowTracked(dev.t, remote, id);
        if Queued(dev.t.outbox, k, row.hlc) {
          var s :| s in dev.t.outbox && dev.t.outbox[s].key == k && dev.t.outbox[s].hlc == row.hlc;
          assert t'.outbox[s] == dev.t.outbox[s];
        }
      }
    }
  }

  lemma ReadKeepsTracked(dev: Device, remote: Remote, now: int)
    requires DeviceTracked(dev, remote) && dev.phase.Idle?
    ensures DeviceTracked(dev.(phase := PushPhase(ReadBatch(dev.t, now))), remote)
  {
    var batch := ReadBatch(dev.t, now);
    forall e | e in batch ensures Matches(dev.t, e) {
      assert BuildPushEntry(dev.t, e.seqNo) == Some(e);
    }
  }

  lemma DeleteKeepsTracked(t: Tables, remote: Remote, e: PushEntry)
    requires TablesTracked(t, remote) && Matches(t, e) && RemoteAtLeast(remote, e.key, e.hlc)
    ensures TablesTracked(DeleteSeq(t, e.seqNo), remote)
  {
    var t' := DeleteSeq(t, e.seqNo);
    forall id | id in t'.records ensures RowTracked(t', remote, id) {
      assert RowTracked(t, remote, id);
      var row := t.records[id];
      var k := Key(id, row.collection);
      if Queued(t.outbox, k, row.hlc) {
        var s :| s in t.outbox && t.outbox[s].key == k && t.outbox[s].hlc == row.hlc;
        if s != e.seqNo { assert t'.outbox[s] == t.outbox[s]; }
      }
    }
  }

  lemma MarkKeepsTracked(t: Tables, remote: Remote, seqNo: int, now: int, error: string)
    requires TablesTracked(t, remote)
    ensures TablesTracked(MarkRetry(t, seqNo, now, error), remote)
  {
    var t' := MarkRetry(t, seqNo, now, error);
    forall id | id in t'.records ensures RowTracked(t', remote, id) {
      assert RowTracked(t, remote, id);
      var row := t.records[id];
      var k := Key(id, row.collection);
      if Queued(t.outbox, k, row.hlc) {
        var s :| s in t.outbox && t.outbox[s].key == k && t.outbox[s].hlc == row.hlc;
        assert t'.outbox[s].key == k && t'.outbox[s].hlc == row.hlc;
      }
    }
  }

  lemma ApplyKeepsTracked(t: Tables, remote: Remote, r: RemoteRecord, now: int)
    requires TablesTracked(t, remote) && RemoteAtLeast(remote, r.key, r.hlc)
    ensures TablesTracked(ApplyRemote(t, r, now), remote)
  {
    var t' := ApplyRemote(t, r, now);
    if t' != t {
      forall id | id in t'.records ensures RowTracked(t', remote, id) {
        if id != r.key.id {
          assert RowTracked(t, remote, id);
          var row := t.records[id];
          var k := Key(id, row.collection);
          if Queued(t.outbox, k, row.hlc) {
            var s :| s in t.outbox && t.outbox[s].key == k && t.outbox[s].hlc == row.hlc;
            assert t'.outbox[s] == t.outbox[s];
          }
        }
      }
    }
  }

  lemma AcknowledgeKeepsTracked(dev: Device, remote: Remote, stored: bool, now: int)
    requires DeviceTracked(dev, remote) && dev.phase.Answered? && dev.phase.batch != []
    ensures DeviceTracked(Acknowledged(dev, stored, now), remote)
  {
    var e := dev.phase.batch[0];
    assert e in InFlight(dev.phase);
    match dev.phase.answer
    case Failed(error) => MarkKeepsTracked(dev.t, remote, e.seqNo, now, error);
    case _ =>
      DeleteKeepsTracked(dev.t, remote, e);
      forall x | x in dev.phase.batch[1..] ensures x in InFlight(dev.phase) {}
  }

  lemma ApplyOneKeepsTracked(dev: Device, remote: Remote, ok: bool, now: int)
    requires DeviceTracked(dev, remote) && dev.phase.Pulling? && dev.phase.todo != []
    ensures DeviceTracked(AppliedOne(dev, ok, now), remote)
  {
    var r := dev.phase.todo[0];
    assert r in Todo(dev.phase);
    ApplyKeepsTracked(dev.t, remote, r, now);
    forall x | x in dev.phase.todo[1..] ensures x in Todo(dev.phase) {}
  }

  lemma DeviceStep(w: World, s: Step)
    requires Tracked(w) && Enabled(w, s)
    ensures DeviceTracked(Next(w, s).devices[s.d], Next(w, s).remote)
    ensures WellKeyed(Next(w, s).remote)
  {
    var dev := w.devices[s.d];
    assert DeviceTracked(dev, w.remote);
    match s
    case Put(_, key, payload, hlc, now) =>
      WriteKeepsTracked(dev, w.remote, HandlePut(dev.t, key, payload, hlc, now), key, Upsert, hlc);
    case Erase(_, key, hlc, now) =>
      WriteKeepsTracked(dev, w.remote, HandleDelete(dev.t, key, hlc, now), key, Delete, hlc);
    case ReadPushBatch(_, now) => ReadKeepsTracked(dev, w.remote, now);
    case Push(_, fault) =>
      PushAdvances(w.remote, dev.phase.batch[0]);
      TrackedOnward(dev, w.remote, Received(w.remote, dev.phase.batch[0], fault));
    case Acknowledge(_, stored, now) => AcknowledgeKeepsTracked(dev, w.remote, stored, now);
    case Fetch(_, snapshot) => TotalOrder();
    case ApplyOne(_, ok, now) => ApplyOneKeepsTracked(dev, w.remote, ok, now);
    case SaveCheckpoint(_) =>
      forall id | id in dev.t.records
        ensures RowTracked(dev.t.(checkpoint := dev.phase.newCheckpoint), w.remote, id)
      {
        assert RowTracked(dev.t, w.remote, id);
      }
    case Crash(_) =>
  }

  lemma StepKeepsTracked(w: World, s: Step)
    requires Tracked(w) && Enabled(w, s)
    ensures Tracked(Next(w, s))
  {
    var w' := Next(w, s);
    DeviceStep(w, s);
    forall i | 0 <= i < |w'.devices| ensures DeviceTracked(w'.devices[i], w'.remote) {
      if i != s.d {
        assert w'.devices[i] == w.devices[i];
        if s.Push? {
          PushAdvances(w.remote, w.devices[s.d].phase.batch[0]);
          TrackedOnward(w.devices[i], w.remote, w'.remote);
        }
      }
    }
  }

  /** Runs of any kind keep every write tracked. */
  lemma {:induction false} RunKeepsTracked(level: Level, home: Home, w: World, steps: seq<Step>, end: World)
    requires Tracked(w) && Runs(level, home, w, steps, end)
    ensures Tracked(end)
    decreases |steps|
  {
    if steps != [] {
      StepKeepsTracked(w, steps[0]);
      RunKeepsTracked(level, home, Next(w, steps[0]), steps[1..], end);
    }
  }

  lemma InitiallyTracked(w: World)
    requires Initial(w)
    ensures Tracked(w)
  {
  }

  /** No write goes untracked: whatever the clocks, faults, interleavings and crashes, each
      device's row is queued for push or the store holds its record at that HLC or above. */
  lemma NoWriteUntracked(home: Home, w: World, steps: seq<Step>, end: World, d: nat, id: string)
    requires Initial(w) && Runs(Anything, home, w, steps, end)
    requires d < |end.devices| && id in end.devices[d].t.records
    ensures var t := end.devices[d].t; var key := Key(id, t.records[id].collection);
      || (exists s :: s in t.outbox && t.outbox[s].key == key && t.outbox[s].hlc == t.records[id].hlc)
      || (key in end.remote && AtMost(t.records[id].hlc, end.remote[key].hlc))
  {
    InitiallyTracked(w);
    RunKeepsTracked(Anything, home, w, steps, end);
    assert DeviceTracked(end.devices[d], end.remote);
    assert RowTracked(end.devices[d].t, end.remote, id);
  }

  /** The store never goes back: along any run a record stays and its HLC never falls. */
  lemma {:induction false} StoreNeverRegresses(level: Level, home: Home, w: World, steps: seq<Step>, end: World,
                                               key: Key)
    requires Runs(level, home, w, steps, end) && key in w.remote
    ensures key in end.remote && AtMost(w.remote[key].hlc, end.remote[key].hlc)
    decreases |steps|
  {
    if steps == [] {
      Irreflexive(w.remote[key].hlc);
    } else {
      var w' := Next(w, steps[0]);
      if steps[0].Push? {
        PushAdvances(w.remote, w.devices[steps[0].d].phase.batch[0]);
      }
      Irreflexive(w.remote[key].hlc);
      assert RemoteAtLeast(w.remote, key, w.remote[key].hlc);
      StoreNeverRegresses(level, home, w', steps[1..], end, key);
      TotalOrder();
    }
  }

  /** Rows are never removed, and each keeps the creation time it was given first. */
  lemma {:induction false} CreationTimeStays(level: Level, home: Home, w: World, steps: seq<Step>, end: World,
                                             d: nat, id: string)
    requires Runs(level, home, w, steps, end) && d < |w.devices| && id in w.devices[d].t.records
    ensures |end.devices| == |w.devices| && id in end.devices[d].t.records
    ensures end.devices[d].t.records[id].createdAt == w.devices[d].t.records[id].createdAt
    decreases |steps|
  {
    if steps != [] {
      CreationTimeStays(level, home, Next(w, steps[0]), steps[1..], end, d, id);
    }
  }
}
