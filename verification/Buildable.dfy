/** When a queued write keeps its row. A push batch silently leaves out an upsert whose row is not
    found (src/sync/mod.rs), and `records` is keyed by the id alone: a write or a pulled record of the
    same id in another collection takes the row. */
module Buildable {
  import opened Schema
  import opened Protocol
  import opened Tracking

  /** No entry is left out of a batch for want of its row. */
  ghost predicate AllBuildable(t: Tables) {
    forall s :: s in t.outbox ==> BuildPushEntry(t, s).Some?
  }

  /** The entry is an upsert of this id in another collection. */
  predicate IsElsewhere(e: OutboxEntry, key: Key) {
    e.operation == Upsert && e.key.id == key.id && e.key != key
  }

  ghost predicate Elsewhere(t: Tables, key: Key) {
    exists s :: s in t.outbox && IsElsewhere(t.outbox[s], key)
  }

  /** The step puts, or applies, a record whose id is queued in another collection. */
  ghost predicate TakesRow(w: World, s: Step)
    requires Enabled(w, s)
  {
    var dev := w.devices[s.d];
    match s
    case Put(_, key, _, _, _) => Elsewhere(dev.t, key)
    case ApplyOne(_, ok, _) => ok && Elsewhere(dev.t, dev.phase.todo[0].key)
    case _ => false
  }

  lemma PutTakesRowExactly(t: Tables, key: Key, payload: Payload, hlc: Stamp, now: int)
    requires AllBuildable(t) && forall s :: s in t.outbox ==> s < t.nextSeq
    ensures AllBuildable(HandlePut(t, key, payload, hlc, now)) <==> !Elsewhere(t, key)
  {
    var t' := HandlePut(t, key, payload, hlc, now);
    assert t'.outbox[t.nextSeq].key == key;
    forall s | s in t.outbox
      ensures BuildPushEntry(t', s).Some? <==> !IsElsewhere(t.outbox[s], key)
    {
      assert t'.outbox[s] == t.outbox[s] && BuildPushEntry(t, s).Some?;
    }
    if Elsewhere(t, key) {
      var s :| s in t.outbox && IsElsewhere(t.outbox[s], key);
      assert s in t'.outbox && BuildPushEntry(t', s).None?;
    }
  }

  /** If a local row of the record stands in the way, no upsert of its id is queued elsewhere, since
      that one would have no row; otherwise the pulled record takes the row. */
  lemma ApplyTakesRowExactly(t: Tables, r: RemoteRecord, now: int)
    requires AllBuildable(t)
    ensures AllBuildable(ApplyRemote(t, r, now)) <==> !Elsewhere(t, r.key)
  {
    var t' := ApplyRemote(t, r, now);
    if Elsewhere(t, r.key) {
      var s :| s in t.outbox && IsElsewhere(t.outbox[s], r.key);
      assert BuildPushEntry(t, s).Some?;
      assert s in t'.outbox && BuildPushEntry(t', s).None?;
    } else {
      forall s | s in t'.outbox ensures BuildPushEntry(t', s).Some? {
        assert s in t.outbox && t'.outbox[s] == t.outbox[s] && BuildPushEntry(t, s).Some?;
      }
    }
  }

  lemma OtherStepsKeepRows(w: World, s: Step)
    requires Enabled(w, s) && !s.Put? && (s.ApplyOne? ==> !s.ok)
    requires AllBuildable(w.devices[s.d].t) && forall u :: u in w.devices[s.d].t.outbox ==> u < w.devices[s.d].t.nextSeq
    ensures AllBuildable(Next(w, s).devices[s.d].t)
  {
    var t, t' := w.devices[s.d].t, Next(w, s).devices[s.d].t;
    forall u | u in t'.outbox ensures BuildPushEntry(t', u).Some? {
      if u in t.outbox {
        assert BuildPushEntry(t, u).Some?;
        assert t'.outbox[u].key == t.outbox[u].key && t'.outbox[u].operation == t.outbox[u].operation;
      }
    }
  }

  /** From a state in which every queued write of the device has its row, a step leads to another such
      state if and only if it takes no row. */
  lemma StepKeepsBuildableExactly(w: World, s: Step)
    requires Enabled(w, s) && AllBuildable(w.devices[s.d].t)
    requires forall u :: u in w.devices[s.d].t.outbox ==> u < w.devices[s.d].t.nextSeq
    ensures AllBuildable(Next(w, s).devices[s.d].t) <==> !TakesRow(w, s)
  {
    var dev := w.devices[s.d];
    match s
    case Put(_, key, payload, hlc, now) => PutTakesRowExactly(dev.t, key, payload, hlc, now);
    case ApplyOne(_, ok, now) =>
      if ok { ApplyTakesRowExactly(dev.t, dev.phase.todo[0], now); } else { OtherStepsKeepRows(w, s); }
    case _ => OtherStepsKeepRows(w, s);
  }

  ghost predicate EveryWriteHasItsRow(w: World) {
    forall i :: 0 <= i < |w.devices| ==> AllBuildable(w.devices[i].t)
  }

  ghost predicate RowsThroughout(w: World, steps: seq<Step>)
    decreases |steps|
  {
    && EveryWriteHasItsRow(w)
    && (steps != [] ==> Enabled(w, steps[0]) && RowsThroughout(Next(w, steps[0]), steps[1..]))
  }

  ghost predicate NeverTakesRow(w: World, steps: seq<Step>)
    decreases |steps|
  {
    steps != [] ==>
      Enabled(w, steps[0]) && !TakesRow(w, steps[0]) && NeverTakesRow(Next(w, steps[0]), steps[1..])
  }

  /** With no hypothesis on clocks, ids, faults or crashes: every queued write has its row in every
      state of a run if and only if no step of the run takes one. */
  lemma {:induction false} RunKeepsRowsExactly(home: Home, w: World, steps: seq<Step>, end: World)
    requires Tracked(w) && EveryWriteHasItsRow(w) && Runs(Anything, home, w, steps, end)
    ensures RowsThroughout(w, steps) <==> NeverTakesRow(w, steps)
    decreases |steps|
  {
    if steps != [] {
      var s, w' := steps[0], Next(w, steps[0]);
      assert DeviceTracked(w.devices[s.d], w.remote);
      StepKeepsTracked(w, s);
      StepKeepsBuildableExactly(w, s);
      forall i | 0 <= i < |w.devices| && i != s.d ensures AllBuildable(w'.devices[i].t) {
        assert w'.devices[i] == w.devices[i];
      }
      if TakesRow(w, s) {
        assert !AllBuildable(w'.devices[s.d].t);
      } else {
        RunKeepsRowsExactly(home, w', steps[1..], end);
      }
    }
  }

  /** In a system started from nothing. */
  lemma WritesKeepRowsExactly(home: Home, w: World, steps: seq<Step>, end: World)
    requires Initial(w) && Runs(Anything, home, w, steps, end)
    ensures RowsThroughout(w, steps) <==> NeverTakesRow(w, steps)
  {
    InitiallyTracked(w);
    RunKeepsRowsExactly(home, w, steps, end);
  }
}
