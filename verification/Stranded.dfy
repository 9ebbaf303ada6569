/** Why the hypotheses on runs are needed. A record that a checkpoint has passed over stays out of the
    device's reach; a low push, a low write and a failed apply each lead there, or to a device that
    differs for good; one stamp for two writes and one id in two collections break agreement itself. */
module Stranded {
  import opened Base
  import opened Lex
  import opened Schema
  import opened Retry
  import opened Protocol
  import opened Tracking
  import opened Convergence
  import opened Agreement
  import opened SyncLoop

  /** The device has no row of the record or an older one, its checkpoint is already at or above the
      record, and nothing it is pulling would bring it that far. */
  ghost predicate Missed(dev: Device, k: Key, hlc: Stamp) {
    && !Dominates(dev.t, k, hlc)
    && !After(dev.t.checkpoint, hlc) && !After(Reached(dev), hlc)
    && (forall r :: r in Todo(dev.phase) ==> r.key.id != k.id || Before(r.hlc, hlc))
  }

  ghost predicate StoreHome(home: Home, w: World) {
    && WellKeyed(w.remote)
    && (forall k :: k in w.remote ==> k.collection == home(k.id))
    && (forall i, e :: 0 <= i < |w.devices| && e in InFlight(w.devices[i].phase) ==> e.key.collection == home(e.key.id))
    && (forall i, s :: 0 <= i < |w.devices| && s in w.devices[i].t.outbox ==>
          w.devices[i].t.outbox[s].key.collection == home(w.devices[i].t.outbox[s].key.id))
  }

  lemma AdvanceKeepsBelow(cp: Option<Stamp>, hlc: Stamp, h: Stamp)
    requires !After(cp, h)
    ensures !After(Advance(cp, hlc), h)
  {
    if After(cp, hlc) {
      Trichotomy(hlc, h);
      if Before(hlc, h) { Transitive(cp.value, hlc, h); }
    }
  }

  lemma StepKeepsMissed(home: Home, w: World, s: Step, d: nat, k: Key)
    requires Allowed(Distinct, home, w, s) && StoreHome(home, w)
    requires d < |w.devices| && k in w.remote && Missed(w.devices[d], k, w.remote[k].hlc)
    requires s.d == d && (s.Put? || s.Erase?) ==> s.key.id != k.id
    ensures Missed(Next(w, s).devices[d], k, w.remote[k].hlc)
  {
    var w' := Next(w, s);
    var dev, dev' := w.devices[d], w'.devices[d];
    if s.d == d {
      match s
      case Fetch(_, snapshot) =>
        forall r | r in snapshot ensures r.key.id != k.id {
          assert r.key.id == k.id ==> r.key == k;
        }
      case ApplyOne(_, ok, now) =>
        var first := dev.phase.todo[0];
        assert first in Todo(dev.phase);
        assert Get(dev'.t.records, k) == Get(dev.t.records, k) || first.key.id == k.id;
        forall r | r in Todo(dev'.phase) ensures r in Todo(dev.phase) {}
        AdvanceKeepsBelow(dev.phase.newCheckpoint, first.hlc, w.remote[k].hlc);
      case _ =>
    }
  }

  lemma StepKeepsStoreHome(home: Home, w: World, s: Step)
    requires Allowed(Distinct, home, w, s) && StoreHome(home, w)
    ensures StoreHome(home, Next(w, s))
  {
    var w' := Next(w, s);
    var dev, dev' := w.devices[s.d], w'.devices[s.d];
    StepKeepsFlightHome(home, w, s);
    StepKeepsOutboxHome(home, w, s);
    if s.Push? {
      PushAdvances(w.remote, dev.phase.batch[0]);
    }
  }

  lemma StepKeepsFlightHome(home: Home, w: World, s: Step)
    requires Allowed(Distinct, home, w, s) && StoreHome(home, w)
    ensures forall e :: e in InFlight(Next(w, s).devices[s.d].phase) ==> e.key.collection == home(e.key.id)
  {
    if s.ReadPushBatch? {
      ReadHome(home, w.devices[s.d].t, s.now);
    } else {
      OnlyReadsAdd(w, s);
    }
  }

  lemma ReadHome(home: Home, t: Tables, now: int)
    requires forall s :: s in t.outbox ==> t.outbox[s].key.collection == home(t.outbox[s].key.id)
    ensures forall e :: e in ReadBatch(t, now) ==> e.key.collection == home(e.key.id)
  {
    forall e | e in ReadBatch(t, now) ensures e.key.collection == home(e.key.id) {
      assert BuildPushEntry(t, e.seqNo) == Some(e);
    }
  }

  lemma OnlyReadsAdd(w: World, s: Step)
    requires Enabled(w, s) && !s.ReadPushBatch?
    ensures forall e :: e in InFlight(Next(w, s).devices[s.d].phase) ==> e in InFlight(w.devices[s.d].phase)
  {
  }

  lemma StepKeepsOutboxHome(home: Home, w: World, s: Step)
    requires Allowed(Distinct, home, w, s) && StoreHome(home, w)
    ensures var outbox := Next(w, s).devices[s.d].t.outbox;
      forall u :: u in outbox ==> outbox[u].key.collection == home(outbox[u].key.id)
  {
    var was, outbox := w.devices[s.d].t.outbox, Next(w, s).devices[s.d].t.outbox;
    forall u | u in outbox ensures outbox[u].key.collection == home(outbox[u].key.id) {
      assert (u in was && outbox[u].key == was[u].key) || ((s.Put? || s.Erase?) && outbox[u].key == s.key);
    }
  }

  lemma {:induction false} RunKeepsStoreHome(home: Home, w: World, steps: seq<Step>, end: World)
    requires Runs(Distinct, home, w, steps, end) && StoreHome(home, w)
    ensures StoreHome(home, end)
    decreases |steps|
  {
    if steps != [] {
      StepKeepsStoreHome(home, w, steps[0]);
      RunKeepsStoreHome(home, Next(w, steps[0]), steps[1..], end);
    }
  }

  /** Device d neither puts nor deletes the id. */
  ghost predicate NeverWrites(steps: seq<Step>, d: nat, id: string) {
    forall s :: s in steps && (s.Put? || s.Erase?) && s.d == d ==> s.key.id != id
  }

  /** A record that a device lacks, or has in an older version, at or below its checkpoint, stays out
      of its reach: however many pulls, pushes, crashes and writes of others follow, until the store
      takes another version of it or the device writes the id itself. */
  lemma {:induction false} MissedForever(home: Home, w: World, steps: seq<Step>, end: World, d: nat, k: Key)
    requires Runs(Distinct, home, w, steps, end) && StoreHome(home, w)
    requires d < |w.devices| && k in w.remote && Missed(w.devices[d], k, w.remote[k].hlc)
    requires k in end.remote && end.remote[k].hlc == w.remote[k].hlc
    requires NeverWrites(steps, d, k.id)
    ensures |end.devices| == |w.devices| && !Dominates(end.devices[d].t, k, end.remote[k].hlc)
    decreases |steps|
  {
    if steps != [] {
      var w' := Next(w, steps[0]);
      assert steps[0] in steps;
      StepKeepsMissed(home, w, steps[0], d, k);
      StepKeepsStoreHome(home, w, steps[0]);
      StoreHoldsStill(home, w, steps, end, k);
      forall s | s in steps[1..] ensures s in steps {}
      MissedForever(home, w', steps[1..], end, d, k);
    }
  }

  /** If a run ends with the record's HLC unchanged, its first step did not change it either. */
  lemma StoreHoldsStill(home: Home, w: World, steps: seq<Step>, end: World, k: Key)
    requires Runs(Distinct, home, w, steps, end) && steps != [] && k in w.remote
    requires k in end.remote && end.remote[k].hlc == w.remote[k].hlc
    ensures k in Next(w, steps[0]).remote && Next(w, steps[0]).remote[k].hlc == w.remote[k].hlc
  {
    var w' := Next(w, steps[0]);
    StoreNeverRegresses(Distinct, home, w', steps[1..], end, k);
  }

  // ── A failed apply strands, too ────────────────────────────────────────────

  /** Where a pull that refuses some records leaves the checkpoint, exactly: an HLC is still above
      it when it was before and lies above every record that was applied. */
  lemma {:induction false} PullReachesExactly(t: Tables, cp: Option<Stamp>, rs: seq<RemoteRecord>, i: nat,
                                              refused: set<nat>, now: int, h: Stamp)
    requires i <= |rs|
    ensures After(PullFrom(t, cp, rs, i, refused, now).1, h) <==>
      After(cp, h) && forall j :: i <= j < |rs| && j !in refused ==> Before(rs[j].hlc, h)
    decreases |rs| - i
  {
    if i < |rs| {
      if i in refused {
        PullReachesExactly(t, cp, rs, i + 1, refused, now, h);
      } else {
        var cp' := Advance(cp, rs[i].hlc);
        PullReachesExactly(ApplyRemote(t, rs[i], now), cp', rs, i + 1, refused, now, h);
        AdvanceExactly(cp, rs[i].hlc, h);
      }
    }
  }

  lemma AdvanceExactly(cp: Option<Stamp>, hlc: Stamp, h: Stamp)
    ensures After(Advance(cp, hlc), h) <==> After(cp, h) && Before(hlc, h)
  {
    TotalOrder();
  }

  lemma {:induction false} PullLeavesRow(t: Tables, cp: Option<Stamp>, rs: seq<RemoteRecord>, i: nat,
                                         refused: set<nat>, now: int, id: string)
    requires i <= |rs|
    requires forall j :: i <= j < |rs| && j !in refused ==> rs[j].key.id != id
    ensures var records := PullFrom(t, cp, rs, i, refused, now).0.records;
      (id in records <==> id in t.records) && (id in records ==> records[id] == t.records[id])
    decreases |rs| - i
  {
    if i < |rs| {
      if i in refused {
        PullLeavesRow(t, cp, rs, i + 1, refused, now, id);
      } else {
        PullLeavesRow(ApplyRemote(t, rs[i], now), Advance(cp, rs[i].hlc), rs, i + 1, refused, now, id);
      }
    }
  }

  /** A record newer than the device's row (or new to it) that the database refuses is lost to
      incremental pulls exactly when the same pull applies a record at or above it: the loop goes on,
      and the checkpoint passes over it. Otherwise the next pull returns it again. */
  lemma RefusedIsLostExactly(home: Home, t: Tables, remote: Remote, rs: seq<RemoteRecord>, refused: set<nat>,
                             i: nat, now: int)
    requires WellKeyed(remote) && IsPull(remote, t.checkpoint, rs)
    requires forall k :: k in remote ==> k.collection == home(k.id)
    requires i < |rs| && i in refused && !Dominates(t, rs[i].key, rs[i].hlc)
    ensures var after := PullCycle(t, rs, refused, now);
      && !Dominates(after, rs[i].key, rs[i].hlc)
      && (!After(after.checkpoint, rs[i].hlc) <==>
            exists j :: 0 <= j < |rs| && j !in refused && AtMost(rs[i].hlc, rs[j].hlc))
      && (Missed(Device(after, Idle), rs[i].key, rs[i].hlc) <==> !After(after.checkpoint, rs[i].hlc))
  {
    var skipped := rs[i];
    forall m | 0 <= m < |rs| && m !in refused ensures rs[m].key.id != skipped.key.id {
      var applied := rs[m];
      assert applied in rs && skipped in rs && applied != skipped;
      assert applied.key.id == skipped.key.id ==> applied.key == skipped.key;
    }
    PullReachesExactly(t, t.checkpoint, rs, 0, refused, now, skipped.hlc);
    PullLeavesRow(t, t.checkpoint, rs, 0, refused, now, skipped.key.id);
    assert skipped in rs;
  }

  // ── Such a state is reachable ──────────────────────────────────────────────

  function Notes(id: string): string {
    "notes"
  }

  lemma {:induction false} RunsThen(level: Level, home: Home, w: World, steps: seq<Step>, mid: World, s: Step)
    requires Runs(level, home, w, steps, mid) && Allowed(level, home, mid, s)
    ensures Runs(level, home, w, steps + [s], Next(mid, s))
    decreases |steps|
  {
    if steps == [] {
      assert steps + [s] == [s] && [s][1..] == [];
    } else {
      assert (steps + [s])[0] == steps[0] && (steps + [s])[1..] == steps[1..] + [s];
      RunsThen(level, home, Next(w, steps[0]), steps[1..], mid, s);
    }
  }

  function Two(): World {
    World([Device(EMPTY_TABLES, Idle), Device(EMPTY_TABLES, Idle)], map[], map[], {})
  }

  /** The first write of a device whose outbox was never used, read into a push batch. */
  lemma WriteAndRead(level: Level, w: World, steps: seq<Step>, d: nat, key: Key, payload: Payload,
                     hlc: Stamp) returns (steps': seq<Step>, w': World)
    requires level != Ordered
    requires Runs(level, Notes, Two(), steps, w)
    requires d < |w.devices| && w.devices[d].phase.Idle?
    requires w.devices[d].t.outbox == map[] && w.devices[d].t.nextSeq == 1
    requires level != Anything ==> key.collection == "notes" && WriteId(key, hlc) !in w.history
    ensures Runs(level, Notes, Two(), steps', w')
    ensures w'.devices == w.devices[d := Device(HandlePut(w.devices[d].t, key, payload, hlc, 0),
                                                Pushing([PushEntry(1, key, Upsert, hlc, Some(payload))]))]
    ensures w'.remote == w.remote && w'.history == w.history[WriteId(key, hlc) := Upsert]
  {
    var put, read := Put(d, key, payload, hlc, 0), ReadPushBatch(d, 0);
    var w1 := Next(w, put);
    RunsThen(level, Notes, Two(), steps, w, put);
    FirstBatch(w.devices[d].t, key, payload, hlc);
    w' := Next(w1, read);
    steps' := steps + [put] + [read];
    RunsThen(level, Notes, Two(), steps + [put], w1, read);
  }

  lemma FirstBatch(t: Tables, key: Key, payload: Payload, hlc: Stamp)
    requires t.outbox == map[] && t.nextSeq == 1
    ensures ReadBatch(HandlePut(t, key, payload, hlc, 0), 0) == [PushEntry(1, key, Upsert, hlc, Some(payload))]
  {
    var t' := HandlePut(t, key, payload, hlc, 0);
    assert ReadySeqs(t'.outbox, 1, 2, 0, PUSH_BATCH) == [1];
    assert [1][1..] == [];
    assert BuildBatch(t', [1]) == [PushEntry(1, key, Upsert, hlc, Some(payload))];
  }

  /** One device's write, pushed and acknowledged. */
  lemma WriteAndPush(level: Level, w: World, steps: seq<Step>, d: nat, key: Key, payload: Payload, hlc: Stamp)
    returns (steps': seq<Step>, w': World)
    requires level != Ordered
    requires Runs(level, Notes, Two(), steps, w)
    requires d < |w.devices| && w.devices[d] == Device(EMPTY_TABLES, Idle)
    requires key !in w.remote
    requires level != Anything ==> key.collection == "notes" && WriteId(key, hlc) !in w.history
    ensures Runs(level, Notes, Two(), steps', w')
    ensures |w'.devices| == |w.devices| && forall i :: 0 <= i < |w.devices| && i != d ==> w'.devices[i] == w.devices[i]
    ensures w'.devices[d].phase == Idle && w'.devices[d].t.checkpoint == None && w'.devices[d].t.outbox == map[]
    ensures w'.devices[d].t.records == UpsertRow(map[], key, payload, hlc, 0)
    ensures w'.remote == w.remote[key := RemoteRecord(key, hlc, Some(payload), false)]
    ensures w'.history == w.history[WriteId(key, hlc) := Upsert]
  {
    var steps2, w2 := WriteAndRead(level, w, steps, d, key, payload, hlc);
    var push, ack := Push(d, Delivered), Acknowledge(d, true, 0);
    var w3 := Next(w2, push);
    RunsThen(level, Notes, Two(), steps2, w2, push);
    w' := Next(w3, ack);
    steps' := steps2 + [push] + [ack];
    RunsThen(level, Notes, Two(), steps2 + [push], w3, ack);
  }

  /** A pull of the only record in the store. */
  lemma PullOne(level: Level, w: World, steps: seq<Step>, d: nat, r: RemoteRecord)
    returns (steps': seq<Step>, w': World)
    requires Runs(level, Notes, Two(), steps, w)
    requires d < |w.devices| && w.devices[d].phase == Idle && w.devices[d].t.checkpoint == None
    requires w.remote == map[r.key := r]
    ensures Runs(level, Notes, Two(), steps', w')
    ensures |w'.devices| == |w.devices| && forall i :: 0 <= i < |w.devices| && i != d ==> w'.devices[i] == w.devices[i]
    ensures w'.devices[d] == Device(ApplyRemote(w.devices[d].t, r, 0).(checkpoint := Some(r.hlc)), Idle)
    ensures w'.remote == w.remote && w'.history == w.history
  {
    var fetch := Fetch(d, [r]);
    Irreflexive(r.hlc);
    var w1 := Next(w, fetch);
    RunsThen(level, Notes, Two(), steps, w, fetch);
    var apply := ApplyOne(d, true, 0);
    var w2 := Next(w1, apply);
    RunsThen(level, Notes, Two(), steps + [fetch], w1, apply);
    assert [r][1..] == [];
    var save := SaveCheckpoint(d);
    w' := Next(w2, save);
    steps' := steps + [fetch] + [apply] + [save];
    RunsThen(level, Notes, Two(), steps + [fetch] + [apply], w2, save);
  }

  /** Whenever two clocks disagree: a run of two devices in which nothing fails. The first pushes
      and pulls its write stamped `high`, then the second pushes one stamped `low`. Both outboxes
      are empty, the store holds both records, and the first device has missed the second. */
  lemma LowPushStrands(early: Key, late: Key, low: Stamp, high: Stamp) returns (steps: seq<Step>, end: World)
    requires early.id != late.id && early.collection == late.collection == "notes" && Before(low, high)
    ensures Initial(Two()) && Runs(Distinct, Notes, Two(), steps, end) && StoreHome(Notes, end)
    ensures |end.devices| == 2 && end.devices[0].t.outbox == map[] && end.devices[1].t.outbox == map[]
    ensures early in end.remote && Missed(end.devices[0], early, end.remote[early].hlc)
    ensures Get(end.devices[0].t.records, early).None?
    ensures !InStep(Notes, end.devices[0].t, end.remote)
  {
    var s1, w1 := WriteAndPush(Distinct, Two(), [], 0, late, EMPTY_PAYLOAD, high);
    var s2, w2 := PullOne(Distinct, w1, s1, 0, w1.remote[late]);
    steps, end := WriteAndPush(Distinct, w2, s2, 1, early, EMPTY_PAYLOAD, low);
    RunKeepsStoreHome(Notes, Two(), steps, end);
    assert end.devices[0] == w2.devices[0];
    OwnPullMisses(w1.devices[0].t, w1.remote[late], early, low);
    LackingIsNotInStep(end.devices[0].t, end.remote, early);
  }

  lemma LackingIsNotInStep(t: Tables, remote: Remote, k: Key)
    requires k in remote && k.id !in t.records
    ensures !InStep(Notes, t, remote)
  {
    assert Get(t.records, k) == None;
  }

  /** The second hypothesis is needed too: the clock of the second device is behind, and since a
      pull does not move it (`merge` is never called), its write of a record it has pulled carries
      the lower stamp. The store refuses the push, the entry goes, and the higher record is below
      the checkpoint already: nothing is queued, nothing is left to pull, and the device keeps for
      good a content that the store never took. */
  lemma LowWriteDiverges(key: Key, payload: Payload, low: Stamp, high: Stamp) returns (steps: seq<Step>, end: World)
    requires key.collection == "notes" && Before(low, high)
    ensures Initial(Two()) && Runs(Distinct, Notes, Two(), steps, end) && Settled(end)
    ensures |end.devices| == 2 && key in end.remote && end.remote[key].hlc == high
    ensures Get(end.devices[1].t.records, key).Some? && Get(end.devices[1].t.records, key).value.hlc == low
    ensures Get(end.devices[1].t.records, key).value.payload == payload
    ensures !InStep(Notes, end.devices[1].t, end.remote)
  {
    Trichotomy(low, high);
    var s1, w1 := BothPull(key, high);
    var s2, w2 := WriteAndRead(Distinct, w1, s1, 1, key, payload, low);
    steps, end := RefusedAndGone(Distinct, w2, s2, key, payload, low);
    LowRowOutOfStep(w1.devices[1].t, key, payload, low, end.remote);
    BothSettled(end, key, high);
  }

  lemma LowRowOutOfStep(t: Tables, key: Key, payload: Payload, low: Stamp, remote: Remote)
    requires t.outbox == map[] && t.nextSeq == 1 && key.collection == "notes"
    requires key in remote && remote[key].hlc != low
    ensures var t' := DeleteSeq(HandlePut(t, key, payload, low, 0), 1);
      && t'.outbox == map[] && t'.checkpoint == t.checkpoint
      && Get(t'.records, key).Some?
      && Get(t'.records, key).value.hlc == low && Get(t'.records, key).value.payload == payload
      && !InStep(Notes, t', remote)
  {
    var t' := DeleteSeq(HandlePut(t, key, payload, low, 0), 1);
    assert Get(t'.records, key).value.hlc == low;
  }

  lemma BothSettled(w: World, key: Key, high: Stamp)
    requires |w.devices| == 2 && w.remote.Keys == {key} && w.remote[key].hlc == high
    requires w.devices[0].t.outbox == map[] && w.devices[1].t.outbox == map[]
    requires w.devices[0].t.checkpoint == Some(high) && w.devices[1].t.checkpoint == Some(high)
    ensures Settled(w)
  {
    Irreflexive(high);
  }

  /** One device writes and pushes, then both pull. */
  lemma BothPull(key: Key, high: Stamp) returns (steps: seq<Step>, w: World)
    requires key.collection == "notes"
    ensures Runs(Distinct, Notes, Two(), steps, w) && |w.devices| == 2
    ensures forall d :: 0 <= d < 2 ==> w.devices[d].phase == Idle && w.devices[d].t.outbox == map[]
    ensures forall d :: 0 <= d < 2 ==> w.devices[d].t.checkpoint == Some(high)
    ensures w.devices[1].t.nextSeq == 1
    ensures w.remote == map[key := RemoteRecord(key, high, Some(EMPTY_PAYLOAD), false)]
    ensures w.history == map[WriteId(key, high) := Upsert]
  {
    Irreflexive(high);
    var s1, w1 := WriteAndPush(Distinct, Two(), [], 0, key, EMPTY_PAYLOAD, high);
    var r := w1.remote[key];
    var s2, w2 := PullOne(Distinct, w1, s1, 0, r);
    steps, w := PullOne(Distinct, w2, s2, 1, r);
    assert w.devices[0] == w2.devices[0];
  }

  /** A push below the stored record is refused, and its entry deleted all the same. */
  lemma RefusedAndGone(level: Level, w: World, steps: seq<Step>, key: Key, payload: Payload,
                       low: Stamp) returns (steps': seq<Step>, w': World)
    requires level != Ordered
    requires Runs(level, Notes, Two(), steps, w) && |w.devices| == 2
    requires w.devices[1].phase == Pushing([PushEntry(1, key, Upsert, low, Some(payload))])
    requires key in w.remote && AtMost(low, w.remote[key].hlc)
    ensures Runs(level, Notes, Two(), steps', w')
    ensures w'.devices == [w.devices[0], Device(DeleteSeq(w.devices[1].t, 1), Idle)] && w'.remote == w.remote
  {
    Trichotomy(low, w.remote[key].hlc);
    var push, ack := Push(1, Delivered), Acknowledge(1, true, 0);
    var w1 := Next(w, push);
    RunsThen(level, Notes, Two(), steps, w, push);
    w' := Next(w1, ack);
    steps' := steps + [push] + [ack];
    RunsThen(level, Notes, Two(), steps + [push], w1, ack);
  }

  /** A device that pulls back its own record has missed everything below it that it lacks. */
  lemma OwnPullMisses(t: Tables, r: RemoteRecord, k: Key, low: Stamp)
    requires t.records.Keys == {r.key.id} && k.id != r.key.id && Before(low, r.hlc)
    ensures Missed(Device(ApplyRemote(t, r, 0).(checkpoint := Some(r.hlc)), Idle), k, low)
  {
    Trichotomy(low, r.hlc);
  }

  // ── Shared stamps ──────────────────────────────────────────────────────────

  /** Distinct stamps are needed: when two devices write a key under one stamp, the second push is
      refused and its entry goes. Nothing failed and nothing is queued, the contents differ under one
      HLC, and not even a full pull changes the device. */
  lemma SharedStampDiverges(key: Key, p: Payload, q: Payload, hlc: Stamp) returns (steps: seq<Step>, end: World)
    requires key.collection == "notes" && p != q
    ensures Initial(Two()) && Runs(Anything, Notes, Two(), steps, end)
    ensures |end.devices| == 2 && end.devices[0].t.outbox == map[] && end.devices[1].t.outbox == map[]
    ensures StoreHolds(end.remote, key, hlc, Live(p)) && DeviceHolds(end.devices[1], key, hlc, Live(q))
    ensures forall all, now :: IsPull(end.remote, None, all) ==>
      ApplyAll(end.devices[1].t, all, now) == end.devices[1].t
  {
    Irreflexive(hlc);
    var s1, w1 := WriteAndPush(Anything, Two(), [], 0, key, p, hlc);
    var s2, w2 := WriteAndRead(Anything, w1, s1, 1, key, q, hlc);
    steps, end := RefusedAndGone(Anything, w2, s2, key, q, hlc);
    var t := end.devices[1].t;
    assert Get(t.records, key).Some? && Get(t.records, key).value.hlc == hlc;
    forall all, now | IsPull(end.remote, None, all) ensures ApplyAll(t, all, now) == t {
      NothingNewer(t, all, now);
    }
  }

  lemma {:induction false} NothingNewer(t: Tables, rs: seq<RemoteRecord>, now: int)
    requires forall r :: r in rs ==> Dominates(t, r.key, r.hlc)
    ensures ApplyAll(t, rs, now) == t
    decreases |rs|
  {
    if rs != [] {
      assert ApplyRemote(t, rs[0], now) == t;
      NothingNewer(t, rs[1..], now);
    }
  }

  // ── Shared ids ─────────────────────────────────────────────────────────────

  /** One collection per id is needed: `records` is keyed by the id alone, so a pulled record takes the
      row of another collection's record with that id. The entry of the local write still waits, but
      finds no row and is left out of every batch; the write is nowhere any more. */
  lemma SharedIdLosesWrite(id: string, mine: string, theirs: string, p: Payload, q: Payload, h: Stamp, g: Stamp)
    returns (steps: seq<Step>, end: World)
    requires mine != theirs
    ensures Initial(Two()) && Runs(Anything, Notes, Two(), steps, end) && |end.devices| == 2
    ensures var t := end.devices[0].t;
      && 1 in t.outbox && t.outbox[1] == OutboxEntry(Key(id, mine), Upsert, h, NO_RETRY)
      && BuildPushEntry(t, 1) == None && (forall now :: ReadBatch(t, now) == [])
      && Get(t.records, Key(id, mine)) == None && Get(end.devices[1].t.records, Key(id, mine)) == None
      && Key(id, mine) !in end.remote
  {
    var s1, w1 := WriteAndPush(Anything, Two(), [], 1, Key(id, theirs), q, g);
    var put := Put(0, Key(id, mine), p, h, 0);
    RunsThen(Anything, Notes, Two(), s1, w1, put);
    steps, end := PullOne(Anything, Next(w1, put), s1 + [put], 0, w1.remote[Key(id, theirs)]);
    assert end.devices[1] == w1.devices[1];
    RowTaken(id, mine, w1.remote[Key(id, theirs)], p, h);
  }

  /** The tables after the pull, checkpoint aside. */
  lemma RowTaken(id: string, mine: string, r: RemoteRecord, p: Payload, h: Stamp)
    requires r.key.id == id && r.key.collection != mine
    ensures var t := ApplyRemote(HandlePut(EMPTY_TABLES, Key(id, mine), p, h, 0), r, 0).(checkpoint := Some(r.hlc));
      && t.outbox == map[1 := OutboxEntry(Key(id, mine), Upsert, h, NO_RETRY)]
      && Get(t.records, Key(id, mine)) == None && BuildPushEntry(t, 1) == None
      && forall now :: ReadBatch(t, now) == []
  {
    var t := ApplyRemote(HandlePut(EMPTY_TABLES, Key(id, mine), p, h, 0), r, 0).(checkpoint := Some(r.hlc));
    assert t.outbox == map[1 := OutboxEntry(Key(id, mine), Upsert, h, NO_RETRY)];
    forall now ensures ReadBatch(t, now) == [] {
      NothingToBuild(t, now);
    }
  }

  lemma NothingToBuild(t: Tables, now: int)
    requires forall s :: s in t.outbox ==> BuildPushEntry(t, s) == None
    ensures ReadBatch(t, now) == []
  {
    var batch := ReadBatch(t, now);
    if batch != [] { HasMember(batch); }
  }

  /** A put of the id in another collection does the same on one device alone, with no pull at all: the
      first of two queued writes has no row and is not in the store. */
  lemma LocalPutLosesWrite(id: string, mine: string, other: string, p: Payload, q: Payload, h: Stamp, g: Stamp)
    returns (steps: seq<Step>, end: World)
    requires mine != other
    ensures Initial(Two()) && Runs(Anything, Notes, Two(), steps, end) && |end.devices| == 2
    ensures var t := end.devices[0].t;
      && t.outbox == map[1 := OutboxEntry(Key(id, mine), Upsert, h, NO_RETRY),
                         2 := OutboxEntry(Key(id, other), Upsert, g, NO_RETRY)]
      && BuildPushEntry(t, 1) == None && BuildPushEntry(t, 2).Some?
      && Get(t.records, Key(id, mine)) == None && end.devices[1].t == EMPTY_TABLES && end.remote == map[]
  {
    var first, second := Put(0, Key(id, mine), p, h, 0), Put(0, Key(id, other), q, g, 0);
    RunsThen(Anything, Notes, Two(), [], Two(), first);
    RunsThen(Anything, Notes, Two(), [] + [first], Next(Two(), first), second);
    steps, end := [] + [first] + [second], Next(Next(Two(), first), second);
  }
}
