/** Convergence: what makes every device and the store end up alike. */
module Convergence {
  import opened Base
  import opened Lex
  import opened Schema
  import opened Protocol
  import opened Tracking
  import opened Agreement

  /** Device and store show the same: the same ids, and for each the same HLC and content. */
  ghost predicate InStep(home: Home, t: Tables, remote: Remote) {
    && (forall id :: id in t.records ==> Key(id, home(id)) in remote)
    && (forall k :: k in remote ==>
          var row := Get(t.records, k);
          row.Some? && row.value.hlc == remote[k].hlc && RowContent(row.value) == RemoteContent(remote[k]))
  }

  /** A device with nothing queued is in step with the store exactly when no row of it is missing
      or older than the store's record. */
  lemma InStepExactly(home: Home, w: World, d: nat)
    requires Agreeing(home, w) && d < |w.devices| && w.devices[d].t.outbox == map[]
    ensures InStep(home, w.devices[d].t, w.remote) <==>
      forall k :: k in w.remote ==> Dominates(w.devices[d].t, k, w.remote[k].hlc)
  {
    if forall k :: k in w.remote ==> Dominates(w.devices[d].t, k, w.remote[k].hlc) {
      DominatingIsInStep(home, w, d);
    } else if InStep(home, w.devices[d].t, w.remote) {
      var k :| k in w.remote && !Dominates(w.devices[d].t, k, w.remote[k].hlc);
      Irreflexive(w.remote[k].hlc);
    }
  }

  lemma DominatingIsInStep(home: Home, w: World, d: nat)
    requires Agreeing(home, w) && d < |w.devices| && w.devices[d].t.outbox == map[]
    requires forall k :: k in w.remote ==> Dominates(w.devices[d].t, k, w.remote[k].hlc)
    ensures InStep(home, w.devices[d].t, w.remote)
  {
    var t := w.devices[d].t;
    assert DeviceTracked(w.devices[d], w.remote) && DeviceFaithful(home, w, w.devices[d]);
    forall id | id in t.records
      ensures RemoteAtLeast(w.remote, Key(id, home(id)), t.records[id].hlc)
    {
      assert RowTracked(t, w.remote, id) && RowFaithful(home, w, id, t.records[id]);
    }
    forall k | k in w.remote
      ensures Get(t.records, k).Some?
      ensures Get(t.records, k).value.hlc == w.remote[k].hlc
      ensures RowContent(Get(t.records, k).value) == RemoteContent(w.remote[k])
    {
      assert RecordFaithful(home, w, w.remote[k]);
      assert Dominates(t, k, w.remote[k].hlc) && RemoteAtLeast(w.remote, k, t.records[k.id].hlc);
      var row := Get(t.records, k).value;
      Trichotomy(row.hlc, w.remote[k].hlc);
      assert StoreHolds(w.remote, k, row.hlc, RemoteContent(w.remote[k]));
      assert DeviceHolds(w.devices[d], k, row.hlc, RowContent(row));
      assert IsCopy(w, k, row.hlc, RemoteContent(w.remote[k])) && IsCopy(w, k, row.hlc, RowContent(row));
    }
  }

  // ── Checkpoints ────────────────────────────────────────────────────────────

  /** The device has this record, or will still see it: it waits in the pulled snapshot, or lies
      above all that the device has pulled. */
  ghost predicate Covered(dev: Device, k: Key, r: RemoteRecord) {
    Dominates(dev.t, k, r.hlc) || Waits(dev, r) || BeyondPulls(dev, r.hlc)
  }

  ghost predicate CheckpointsSound(w: World) {
    forall i, k :: 0 <= i < |w.devices| && k in w.remote ==> Covered(w.devices[i], k, w.remote[k])
  }

  lemma AdvanceIsMax(cp: Option<Stamp>, a: Stamp, b: Stamp)
    requires After(cp, b) && Before(a, b)
    ensures After(Advance(cp, a), b)
  {
  }

  lemma ApplyKeepsCovered(home: Home, dev: Device, now: int, k: Key, r: RemoteRecord)
    requires dev.phase.Pulling? && dev.phase.todo != [] && Covered(dev, k, r)
    requires k.collection == home(k.id) && r.key == k
    requires dev.phase.todo[0].key.collection == home(dev.phase.todo[0].key.id)
    ensures Covered(AppliedOne(dev, true, now), k, r)
  {
    var first := dev.phase.todo[0];
    var dev' := AppliedOne(dev, true, now);
    assert first in Todo(dev.phase);
    if Dominates(dev.t, k, r.hlc) {
      if dev'.t != dev.t && first.key == k {
        var was := Get(dev.t.records, k).value.hlc;
        TotalOrder();
      }
    } else if r in Todo(dev.phase) && After(dev.t.checkpoint, r.hlc) {
      if r == first { Irreflexive(r.hlc); } else { assert r in Todo(dev'.phase); }
    } else {
      AdvanceIsMax(dev.phase.newCheckpoint, first.hlc, r.hlc);
      forall x | x in Todo(dev'.phase) ensures Before(x.hlc, r.hlc) { assert x in Todo(dev.phase); }
    }
  }

  lemma FetchKeepsCovered(w: World, d: nat, snapshot: seq<RemoteRecord>, k: Key)
    requires d < |w.devices| && w.devices[d].phase.Idle? && Tracked(w)
    requires IsPull(w.remote, w.devices[d].t.checkpoint, snapshot) && k in w.remote
    requires Covered(w.devices[d], k, w.remote[k])
    ensures Covered(w.devices[d].(phase := Pulling(snapshot, w.devices[d].t.checkpoint)), k, w.remote[k])
  {
    if After(w.devices[d].t.checkpoint, w.remote[k].hlc) {
      assert w.remote[k] in snapshot;
    }
  }

  /** Outside a pull, only rows and checkpoint matter. */
  lemma IdleKeepsCovered(dev: Device, dev': Device, k: Key, r: RemoteRecord)
    requires Covered(dev, k, r) && !dev.phase.Pulling? && !dev'.phase.Pulling?
    requires dev'.t.records == dev.t.records && dev'.t.checkpoint == dev.t.checkpoint
    ensures Covered(dev', k, r)
  {
  }

  /** After a put or a delete, the records still covered are the others and, exactly when the
      write is in order, its own. */
  lemma WriteCoversExactly(home: Home, w: World, s: Step, k: Key)
    requires Agreeing(home, w) && Allowed(Distinct, home, w, s) && (s.Put? || s.Erase?)
    requires k in w.remote && Covered(w.devices[s.d], k, w.remote[k])
    ensures Covered(Next(w, s).devices[s.d], k, w.remote[k]) <==>
      (k == s.key ==> WriteInOrder(w, w.devices[s.d], s.key, s.hlc))
  {
    var dev, t' := w.devices[s.d], Next(w, s).devices[s.d].t;
    assert RecordFaithful(home, w, w.remote[k]);
    assert DeviceFaithful(home, w, dev);
    if k == s.key {
      assert Get(t'.records, k).Some? ==> Get(t'.records, k).value.hlc == s.hlc;
      assert Get(dev.t.records, k).Some? ==> Get(t'.records, k).Some?;
    } else {
      assert k.id != s.key.id && Get(t'.records, k) == Get(dev.t.records, k);
    }
  }

  /** When a record fails to apply, the others stay covered, and it does exactly when skipping it
      is in order. */
  lemma SkipCoversExactly(home: Home, w: World, s: Step, k: Key)
    requires Agreeing(home, w) && Allowed(Distinct, home, w, s) && s.ApplyOne? && !s.ok
    requires k in w.remote && Covered(w.devices[s.d], k, w.remote[k])
    ensures Covered(Next(w, s).devices[s.d], k, w.remote[k]) <==>
      (k == w.devices[s.d].phase.todo[0].key ==> SkipInOrder(w, w.devices[s.d]))
  {
    var dev := w.devices[s.d];
    var first, skipped := dev.phase.todo[0], AppliedOne(dev, false, s.now);
    assert WellKeyed(w.remote) && DeviceTracked(dev, w.remote);
    if w.remote[k] == first {
      SkippedBeyondExactly(dev, s.now);
    } else {
      assert Waits(dev, w.remote[k]) ==> w.remote[k] in dev.phase.todo[1..];
      forall x | x in Todo(skipped.phase) ensures x in Todo(dev.phase) {}
    }
  }

  /** A skipped record is still ahead of the device exactly when it was the last of its snapshot and
      lies above the checkpoint reached: all that follow it would move the checkpoint past it. */
  lemma SkippedBeyondExactly(dev: Device, now: int)
    requires dev.phase.Pulling? && dev.phase.todo != [] && SnapshotOrdered(dev)
    ensures var r, skipped := dev.phase.todo[0], AppliedOne(dev, false, now);
      && !Waits(skipped, r)
      && (BeyondPulls(skipped, r.hlc) <==> |dev.phase.todo| == 1 && After(dev.phase.newCheckpoint, r.hlc))
  {
    var todo := dev.phase.todo;
    assert todo[0] in Todo(dev.phase);
    assert forall j :: 1 <= j < |todo| ==> todo[1..][j - 1] == todo[j];
    if |todo| > 1 { assert todo[1] in todo[1..]; }
  }

  /** All other steps of a device keep everything covered. */
  lemma OtherStepCovers(home: Home, w: World, s: Step, k: Key)
    requires Agreeing(home, w) && Allowed(Distinct, home, w, s)
    requires !s.Put? && !s.Erase? && !s.Push? && (s.ApplyOne? ==> s.ok)
    requires k in w.remote && Covered(w.devices[s.d], k, w.remote[k])
    ensures Covered(Next(w, s).devices[s.d], k, w.remote[k])
  {
    var dev := w.devices[s.d];
    if s.ReadPushBatch? || s.Acknowledge? {
      IdleKeepsCovered(dev, Next(w, s).devices[s.d], k, w.remote[k]);
    } else if s.Fetch? {
      FetchKeepsCovered(w, s.d, s.snapshot, k);
    } else if s.ApplyOne? {
      var first := dev.phase.todo[0];
      assert first in Todo(dev.phase);
      assert DeviceFaithful(home, w, dev);
      assert RecordFaithful(home, w, first) && RecordFaithful(home, w, w.remote[k]);
      ApplyKeepsCovered(home, dev, s.now, k, w.remote[k]);
    }
  }

  lemma DeviceStepCoversExactly(home: Home, w: World, s: Step)
    requires Agreeing(home, w) && Allowed(Distinct, home, w, s) && !s.Push?
    requires forall k :: k in w.remote ==> Covered(w.devices[s.d], k, w.remote[k])
    ensures (forall k :: k in w.remote ==> Covered(Next(w, s).devices[s.d], k, w.remote[k])) <==> OrderedStep(w, s)
  {
    forall k | k in w.remote
      ensures s.Put? || s.Erase? ==>
        (Covered(Next(w, s).devices[s.d], k, w.remote[k]) <==>
          (k == s.key ==> WriteInOrder(w, w.devices[s.d], s.key, s.hlc)))
      ensures s.ApplyOne? && !s.ok ==>
        (Covered(Next(w, s).devices[s.d], k, w.remote[k]) <==>
          (k == w.devices[s.d].phase.todo[0].key ==> SkipInOrder(w, w.devices[s.d])))
      ensures !s.Put? && !s.Erase? && (s.ApplyOne? ==> s.ok) ==> Covered(Next(w, s).devices[s.d], k, w.remote[k])
    {
      if s.Put? || s.Erase? { WriteCoversExactly(home, w, s, k); }
      else if s.ApplyOne? && !s.ok { SkipCoversExactly(home, w, s, k); }
      else { OtherStepCovers(home, w, s, k); }
    }
  }

  /** A push leaves every device's other records as they were. A new record waits in no snapshot,
      so it is covered exactly when it lies beyond the device's pulls or is had already. */
  lemma PushCoversExactly(home: Home, w: World, s: Step, i: nat)
    requires Agreeing(home, w) && Allowed(Distinct, home, w, s) && s.Push? && !s.fault.RequestLost?
    requires i < |w.devices| && Accepts(w.remote, w.devices[s.d].phase.batch[0])
    ensures var e := w.devices[s.d].phase.batch[0];
      Covered(Next(w, s).devices[i], e.key, RecordOf(e)) <==>
      BeyondPulls(w.devices[i], e.hlc) || Dominates(w.devices[i].t, e.key, e.hlc)
  {
    var e := w.devices[s.d].phase.batch[0];
    assert DeviceTracked(w.devices[i], w.remote);
    assert RecordOf(e) in Todo(w.devices[i].phase) ==> RemoteAtLeast(w.remote, e.key, e.hlc);
  }

  lemma PushStepExactly(home: Home, w: World, s: Step)
    requires Agreeing(home, w) && CheckpointsSound(w) && Allowed(Distinct, home, w, s) && s.Push?
    ensures CheckpointsSound(Next(w, s)) <==> OrderedStep(w, s)
  {
    var w', e := Next(w, s), w.devices[s.d].phase.batch[0];
    forall i, k | 0 <= i < |w.devices| && k in w.remote && k in w'.remote && w'.remote[k] == w.remote[k]
      ensures Covered(w'.devices[i], k, w'.remote[k])
    {
      assert Covered(w.devices[i], k, w.remote[k]);
    }
    if !s.fault.RequestLost? && Accepts(w.remote, e) {
      assert w'.remote[e.key] == RecordOf(e);
      forall i | 0 <= i < |w.devices|
        ensures Covered(w'.devices[i], e.key, RecordOf(e)) <==>
          BeyondPulls(w.devices[i], e.hlc) || Dominates(w.devices[i].t, e.key, e.hlc)
      {
        PushCoversExactly(home, w, s, i);
      }
    }
  }

  /** What keeps checkpoints sound, exactly: from a state in which every device has or will still see
      every record, a step leads to another such state if and only if it is an Ordered step. */
  lemma StepKeepsCheckpointsExactly(home: Home, w: World, s: Step)
    requires Agreeing(home, w) && CheckpointsSound(w) && Allowed(Distinct, home, w, s)
    ensures CheckpointsSound(Next(w, s)) <==> OrderedStep(w, s)
  {
    if s.Push? {
      PushStepExactly(home, w, s);
    } else {
      var w' := Next(w, s);
      DeviceStepCoversExactly(home, w, s);
      forall i, k | 0 <= i < |w.devices| && i != s.d && k in w.remote
        ensures Covered(w'.devices[i], k, w'.remote[k])
      {
        assert Covered(w.devices[i], k, w.remote[k]) && w'.devices[i] == w.devices[i];
      }
    }
  }

  /** Checkpoints are sound in every state of the run. */
  ghost predicate SoundThroughout(w: World, steps: seq<Step>)
    decreases |steps|
  {
    && CheckpointsSound(w)
    && (steps != [] ==> Enabled(w, steps[0]) && SoundThroughout(Next(w, steps[0]), steps[1..]))
  }

  /** A Distinct run keeps checkpoints sound throughout if and only if it is an Ordered run. */
  lemma {:induction false} SoundRunsExactly(home: Home, w: World, steps: seq<Step>, end: World)
    requires Agreeing(home, w) && CheckpointsSound(w) && Runs(Distinct, home, w, steps, end)
    ensures SoundThroughout(w, steps) <==> Runs(Ordered, home, w, steps, end)
    decreases |steps|
  {
    if steps != [] {
      StepKeepsAgreement(home, w, steps[0]);
      StepKeepsCheckpointsExactly(home, w, steps[0]);
      if OrderedStep(w, steps[0]) {
        SoundRunsExactly(home, Next(w, steps[0]), steps[1..], end);
      } else {
        assert !CheckpointsSound(Next(w, steps[0]));
      }
    }
  }

  lemma {:induction false} RunKeepsCheckpoints(home: Home, w: World, steps: seq<Step>, end: World)
    requires Agreeing(home, w) && CheckpointsSound(w) && Runs(Ordered, home, w, steps, end)
    ensures Agreeing(home, end) && CheckpointsSound(end)
    decreases |steps|
  {
    if steps != [] {
      StepKeepsAgreement(home, w, steps[0]);
      StepKeepsCheckpointsExactly(home, w, steps[0]);
      RunKeepsCheckpoints(home, Next(w, steps[0]), steps[1..], end);
    }
  }

  /** Checkpoint soundness: in every state reached by an Ordered run, a device dominates every
      record at or below its checkpoint. */
  lemma CheckpointSoundness(home: Home, w: World, steps: seq<Step>, end: World, d: nat, k: Key)
    requires Initial(w) && Runs(Ordered, home, w, steps, end)
    requires d < |end.devices| && k in end.remote
    ensures After(end.devices[d].t.checkpoint, end.remote[k].hlc) ||
      Dominates(end.devices[d].t, k, end.remote[k].hlc)
  {
    InitiallyAgreeing(home, w);
    RunKeepsCheckpoints(home, w, steps, end);
    assert Covered(end.devices[d], k, end.remote[k]);
  }

  // ── Convergence of an Ordered run ──────────────────────────────────────────

  /** Nothing is queued anywhere and no device's next pull would return a record. */
  ghost predicate Settled(w: World) {
    forall i :: 0 <= i < |w.devices| ==>
      && w.devices[i].t.outbox == map[]
      && forall k :: k in w.remote ==> !After(w.devices[i].t.checkpoint, w.remote[k].hlc)
  }

  /** A settled Distinct run has converged if and only if it ends with sound checkpoints. */
  lemma SettledConvergesExactly(home: Home, w: World, steps: seq<Step>, end: World)
    requires Initial(w) && Runs(Distinct, home, w, steps, end) && Settled(end)
    ensures (forall d :: 0 <= d < |end.devices| ==> InStep(home, end.devices[d].t, end.remote)) <==>
      CheckpointsSound(end)
  {
    InitiallyAgreeing(home, w);
    RunKeepsAgreement(Distinct, home, w, steps, end);
    forall d | 0 <= d < |end.devices|
      ensures InStep(home, end.devices[d].t, end.remote) <==>
        forall k :: k in end.remote ==> Covered(end.devices[d], k, end.remote[k])
    {
      InStepExactly(home, end, d);
      forall k | k in end.remote
        ensures Covered(end.devices[d], k, end.remote[k]) <==> Dominates(end.devices[d].t, k, end.remote[k].hlc)
      {
        assert !After(end.devices[d].t.checkpoint, end.remote[k].hlc);
      }
    }
  }

  /** Convergence: however pushes, pulls, writes, crashes and lost messages interleave, once an
      Ordered run has settled, all devices and the store agree on every key's HLC and content,
      tombstones included. */
  lemma SettledRunConverges(home: Home, w: World, steps: seq<Step>, end: World)
    requires Initial(w) && Runs(Ordered, home, w, steps, end) && Settled(end)
    ensures forall d :: 0 <= d < |end.devices| ==> InStep(home, end.devices[d].t, end.remote)
  {
    InitiallyAgreeing(home, w);
    RunKeepsCheckpoints(home, w, steps, end);
    OrderedIsDistinct(home, w, steps, end);
    SettledConvergesExactly(home, w, steps, end);
  }

  lemma {:induction false} OrderedIsDistinct(home: Home, w: World, steps: seq<Step>, end: World)
    requires Runs(Ordered, home, w, steps, end)
    ensures Runs(Distinct, home, w, steps, end)
    decreases |steps|
  {
    if steps != [] { OrderedIsDistinct(home, Next(w, steps[0]), steps[1..], end); }
  }

  // ── A full pull heals every run ────────────────────────────────────────────

  /** The records applied one after another, all successfully. */
  function ApplyAll(t: Tables, rs: seq<RemoteRecord>, now: int): Tables
    decreases |rs|
  {
    if rs == [] then t else ApplyAll(ApplyRemote(t, rs[0], now), rs[1..], now)
  }

  ghost predicate AllHome(home: Home, rs: seq<RemoteRecord>) {
    forall r :: r in rs ==> r.key.collection == home(r.key.id)
  }

  /** Applying a record makes the device dominate it and keeps whatever it dominated. */
  lemma ApplyRaises(home: Home, t: Tables, r: RemoteRecord, now: int)
    requires r.key.collection == home(r.key.id)
    ensures Dominates(ApplyRemote(t, r, now), r.key, r.hlc)
    ensures forall k: Key, h :: k.collection == home(k.id) && Dominates(t, k, h) ==>
      Dominates(ApplyRemote(t, r, now), k, h)
  {
    TotalOrder();
  }

  lemma {:induction false} ApplyAllRaises(home: Home, t: Tables, rs: seq<RemoteRecord>, now: int)
    requires AllHome(home, rs)
    ensures forall r :: r in rs ==> Dominates(ApplyAll(t, rs, now), r.key, r.hlc)
    ensures forall k: Key, h :: k.collection == home(k.id) && Dominates(t, k, h) ==>
      Dominates(ApplyAll(t, rs, now), k, h)
    decreases |rs|
  {
    if rs != [] {
      ApplyRaises(home, t, rs[0], now);
      ApplyAllRaises(home, ApplyRemote(t, rs[0], now), rs[1..], now);
    }
  }

  /** A pull of device d, from fetch to the last record, as protocol steps on a world whose device
      d is idle; everything the protocol keeps holds at its end. */
  lemma {:induction false} PullIsARun(home: Home, w: World, d: nat, todo: seq<RemoteRecord>, now: int)
    requires Agreeing(home, w) && d < |w.devices| && w.devices[d].phase.Pulling? && w.devices[d].phase.todo == todo
    ensures exists cp :: Agreeing(home,
      w.(devices := w.devices[d := Device(ApplyAll(w.devices[d].t, todo, now), Pulling([], cp))]))
    decreases |todo|
  {
    if todo == [] {
      assert w.devices[d := Device(w.devices[d].t, Pulling([], w.devices[d].phase.newCheckpoint))] == w.devices;
    } else {
      var s := ApplyOne(d, true, now);
      assert Allowed(Distinct, home, w, s);
      StepKeepsAgreement(home, w, s);
      var w' := Next(w, s);
      PullIsARun(home, w', d, todo[1..], now);
      var cp :| Agreeing(home,
        w'.(devices := w'.devices[d := Device(ApplyAll(w'.devices[d].t, todo[1..], now), Pulling([], cp))]));
      var last := Device(ApplyAll(w'.devices[d].t, todo[1..], now), Pulling([], cp));
      assert w'.devices[d := last] == w.devices[d := last];
      assert ApplyAll(w.devices[d].t, todo, now) == last.t;
    }
  }

  /** The world in which device d is idle and has forgotten its checkpoint. */
  function Rewound(w: World, d: nat): World
    requires d < |w.devices|
  {
    w.(devices := w.devices[d := Device(w.devices[d].t.(checkpoint := None), Idle)])
  }

  lemma RewoundAgrees(home: Home, w: World, d: nat)
    requires Agreeing(home, w) && d < |w.devices|
    ensures Agreeing(home, Rewound(w, d))
  {
    var s := Crash(d);
    assert Allowed(Distinct, home, w, s);
    StepKeepsAgreement(home, w, s);
    var c := Next(w, s);
    var w' := Rewound(w, d);
    assert w' == c.(devices := c.devices[d := Device(c.devices[d].t.(checkpoint := None), Idle)]);
    var dev, dev' := c.devices[d], w'.devices[d];
    assert DeviceTracked(dev, c.remote) && DeviceFaithful(home, c, dev);
    forall id | id in dev'.t.records ensures RowTracked(dev'.t, c.remote, id) {
      assert RowTracked(dev.t, c.remote, id);
    }
    forall u | u in dev'.t.outbox ensures EntryFaithful(home, w', dev'.t, u) {
      assert EntryFaithful(home, c, dev.t, u);
    }
    forall i | 0 <= i < |w'.devices| && i != d
      ensures DeviceTracked(w'.devices[i], w'.remote) && DeviceFaithful(home, w', w'.devices[i])
    {
      assert DeviceTracked(c.devices[i], c.remote) && DeviceFaithful(home, c, c.devices[i]);
      FaithfulOnward(home, c, w', c.devices[i]);
    }
    forall k, h, x | DeviceHolds(dev', k, h, x) ensures IsCopy(c, k, h, x) {
      assert DeviceHolds(dev, k, h, x);
    }
    forall k | k in w'.remote ensures RecordFaithful(home, w', w'.remote[k]) {
      assert RecordFaithful(home, c, c.remote[k]);
    }
    NoNewCopies(c, w', d);
  }

  /** With nothing more than distinct HLCs, whatever went wrong before (pushes below checkpoints,
      skipped records, writes below pulled rows, crashes): a device with an empty outbox that
      applies a full pull is in step with the store. */
  lemma FullPullHeals(home: Home, w: World, steps: seq<Step>, end: World, d: nat, all: seq<RemoteRecord>, now: int)
    requires Initial(w) && Runs(Distinct, home, w, steps, end)
    requires d < |end.devices| && end.devices[d].t.outbox == map[]
    requires IsPull(end.remote, None, all)
    ensures InStep(home, ApplyAll(end.devices[d].t, all, now), end.remote)
  {
    InitiallyAgreeing(home, w);
    RunKeepsAgreement(Distinct, home, w, steps, end);
    RewoundAgrees(home, end, d);
    var r := Rewound(end, d);
    var s := Fetch(d, all);
    assert Allowed(Distinct, home, r, s);
    StepKeepsAgreement(home, r, s);
    var f := Next(r, s);
    PullIsARun(home, f, d, all, now);
    var cp :| Agreeing(home,
      f.(devices := f.devices[d := Device(ApplyAll(f.devices[d].t, all, now), Pulling([], cp))]));
    var last := f.(devices := f.devices[d := Device(ApplyAll(f.devices[d].t, all, now), Pulling([], cp))]);
    ApplyAllIgnoresCheckpoint(end.devices[d].t, all, now);
    FullPullDominates(home, end, f.devices[d].t, all, now);
    ApplyAllShrinksOutbox(f.devices[d].t, all, now);
    DominatingIsInStep(home, last, d);
  }

  lemma FullPullDominates(home: Home, w: World, t: Tables, all: seq<RemoteRecord>, now: int)
    requires StoreFaithful(home, w) && WellKeyed(w.remote) && IsPull(w.remote, None, all)
    ensures forall k :: k in w.remote ==> Dominates(ApplyAll(t, all, now), k, w.remote[k].hlc)
  {
    forall x | x in all ensures x.key.collection == home(x.key.id) {
      assert RecordFaithful(home, w, w.remote[x.key]);
    }
    ApplyAllRaises(home, t, all, now);
    forall k | k in w.remote ensures Dominates(ApplyAll(t, all, now), k, w.remote[k].hlc) {
      assert w.remote[k] in all;
    }
  }

  lemma {:induction false} ApplyAllIgnoresCheckpoint(t: Tables, rs: seq<RemoteRecord>, now: int)
    ensures ApplyAll(t.(checkpoint := None), rs, now).records == ApplyAll(t, rs, now).records
    decreases |rs|
  {
    if rs != [] {
      assert ApplyRemote(t.(checkpoint := None), rs[0], now) == ApplyRemote(t, rs[0], now).(checkpoint := None);
      ApplyAllIgnoresCheckpoint(ApplyRemote(t, rs[0], now), rs[1..], now);
    }
  }

  lemma {:induction false} ApplyAllShrinksOutbox(t: Tables, rs: seq<RemoteRecord>, now: int)
    ensures t.outbox == map[] ==> ApplyAll(t, rs, now).outbox == map[]
    decreases |rs|
  {
    if rs != [] { ApplyAllShrinksOutbox(ApplyRemote(t, rs[0], now), rs[1..], now); }
  }
}
