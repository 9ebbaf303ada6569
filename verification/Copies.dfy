/** What agreement of copies hangs on, exactly, with no hypothesis on stamps: two copies of a key with
    one HLC come to differ where a write, or a push, puts its content beside another's. */
module Copies {
  import opened Lex
  import opened Schema
  import opened Protocol
  import opened Agreement

  ghost predicate SnapshotHolds(dev: Device, key: Key, hlc: Stamp, c: Content) {
    exists r :: r in Todo(dev.phase) && r.key == key && r.hlc == hlc && RemoteContent(r) == c
  }

  /** A copy in the store, on another device, or in the device's own pulled snapshot. */
  ghost predicate OtherCopy(w: World, d: nat, key: Key, hlc: Stamp, c: Content)
    requires d < |w.devices|
  {
    || StoreHolds(w.remote, key, hlc, c)
    || (exists i :: 0 <= i < |w.devices| && i != d && DeviceHolds(w.devices[i], key, hlc, c))
    || SnapshotHolds(w.devices[d], key, hlc, c)
  }

  /** No copy with this HLC outside the device's row shows anything else. */
  ghost predicate FitsCopies(w: World, d: nat, key: Key, hlc: Stamp, written: Content)
    requires d < |w.devices|
  {
    forall c :: OtherCopy(w, d, key, hlc, c) ==> c == written
  }

  /** What the step writes fits the copies that carry its HLC already. */
  ghost predicate FittingStep(w: World, s: Step)
    requires Enabled(w, s)
  {
    var dev := w.devices[s.d];
    match s
    case Put(d, key, payload, hlc, _) => FitsCopies(w, d, key, hlc, Live(payload))
    case Erase(d, key, hlc, _) => Get(dev.t.records, key).Some? ==> FitsCopies(w, d, key, hlc, Tombstone)
    case Push(_, fault) =>
      var e := dev.phase.batch[0];
      !fault.RequestLost? && Accepts(w.remote, e) ==>
        forall c :: IsCopy(w, e.key, e.hlc, c) ==> c == EntryContent(e)
    case _ => true
  }

  /** The device's row of the key becomes this; all else stays. */
  ghost predicate OnlyRowChanges(w: World, w': World, d: nat, key: Key, hlc: Stamp, written: Content) {
    && d < |w.devices| == |w'.devices| && w'.remote == w.remote
    && (forall i :: 0 <= i < |w.devices| && i != d ==> w'.devices[i] == w.devices[i])
    && w'.devices[d].phase == w.devices[d].phase
    && (forall k: Key :: k.id != key.id ==> Get(w'.devices[d].t.records, k) == Get(w.devices[d].t.records, k))
    && (forall k: Key :: k.id == key.id && k != key ==> Get(w'.devices[d].t.records, k).None?)
    && (var row := Get(w'.devices[d].t.records, key);
        row.Some? && row.value.hlc == hlc && RowContent(row.value) == written)
  }

  lemma CopiesAfterRowChange(w: World, w': World, d: nat, key: Key, hlc: Stamp, written: Content, k: Key, h: Stamp,
                             c: Content)
    requires OnlyRowChanges(w, w', d, key, hlc, written)
    ensures k == key && h == hlc ==> (IsCopy(w', k, h, c) <==> c == written || OtherCopy(w, d, k, h, c))
    ensures !(k == key && h == hlc) && IsCopy(w', k, h, c) ==> IsCopy(w, k, h, c)
  {
    assert SnapshotHolds(w'.devices[d], k, h, c) <==> SnapshotHolds(w.devices[d], k, h, c);
    if IsCopy(w', k, h, c) && !StoreHolds(w'.remote, k, h, c) {
      var i :| 0 <= i < |w'.devices| && DeviceHolds(w'.devices[i], k, h, c);
      if i != d || !(k == key && h == hlc) { assert DeviceHolds(w.devices[i], k, h, c); }
    }
    if k == key && h == hlc {
      if c == written { assert DeviceHolds(w'.devices[d], k, h, c); }
      if SnapshotHolds(w.devices[d], k, h, c) { assert DeviceHolds(w'.devices[d], k, h, c); }
      if i :| 0 <= i < |w.devices| && i != d && DeviceHolds(w.devices[i], k, h, c) {
        assert DeviceHolds(w'.devices[i], k, h, c);
      }
    }
  }

  lemma RowChangeFitsExactly(w: World, w': World, d: nat, key: Key, hlc: Stamp, written: Content)
    requires CopiesAgree(w) && OnlyRowChanges(w, w', d, key, hlc, written)
    ensures CopiesAgree(w') <==> FitsCopies(w, d, key, hlc, written)
  {
    forall k, h, c
      ensures k == key && h == hlc ==> (IsCopy(w', k, h, c) <==> c == written || OtherCopy(w, d, k, h, c))
      ensures !(k == key && h == hlc) && IsCopy(w', k, h, c) ==> IsCopy(w, k, h, c)
    {
      CopiesAfterRowChange(w, w', d, key, hlc, written, k, h, c);
    }
    assert IsCopy(w', key, hlc, written);
  }

  lemma WriteFitsExactly(w: World, s: Step)
    requires CopiesAgree(w) && Enabled(w, s) && (s.Put? || s.Erase?)
    ensures CopiesAgree(Next(w, s)) <==> FittingStep(w, s)
  {
    var w' := Next(w, s);
    if s.Put? {
      RowChangeFitsExactly(w, w', s.d, s.key, s.hlc, Live(s.payload));
    } else if Get(w.devices[s.d].t.records, s.key).Some? {
      RowChangeFitsExactly(w, w', s.d, s.key, s.hlc, Tombstone);
    } else {
      forall k, h, c | DeviceHolds(w'.devices[s.d], k, h, c) ensures IsCopy(w, k, h, c) {
        assert DeviceHolds(w.devices[s.d], k, h, c);
      }
      NoNewCopies(w, w', s.d);
    }
  }

  lemma CopiesAfterPush(w: World, s: Step, k: Key, h: Stamp, c: Content)
    requires Enabled(w, s) && s.Push? && !s.fault.RequestLost? && Accepts(w.remote, w.devices[s.d].phase.batch[0])
    ensures var e := w.devices[s.d].phase.batch[0];
      && (IsCopy(Next(w, s), k, h, c) ==> IsCopy(w, k, h, c) || (k == e.key && h == e.hlc && c == EntryContent(e)))
      && (k == e.key && h == e.hlc && (IsCopy(w, k, h, c) || c == EntryContent(e)) ==> IsCopy(Next(w, s), k, h, c))
  {
    var w', e := Next(w, s), w.devices[s.d].phase.batch[0];
    Irreflexive(e.hlc);
    if IsCopy(w', k, h, c) && !StoreHolds(w'.remote, k, h, c) {
      var i :| 0 <= i < |w'.devices| && DeviceHolds(w'.devices[i], k, h, c);
      assert DeviceHolds(w.devices[i], k, h, c);
    }
    if k == e.key && h == e.hlc {
      if i :| 0 <= i < |w.devices| && DeviceHolds(w.devices[i], k, h, c) {
        assert DeviceHolds(w'.devices[i], k, h, c);
      }
    }
  }

  lemma PushFitsExactly(w: World, s: Step)
    requires CopiesAgree(w) && Enabled(w, s) && s.Push?
    ensures CopiesAgree(Next(w, s)) <==> FittingStep(w, s)
  {
    var w', e := Next(w, s), w.devices[s.d].phase.batch[0];
    if !s.fault.RequestLost? && Accepts(w.remote, e) {
      forall k, h, c
        ensures IsCopy(w', k, h, c) ==> IsCopy(w, k, h, c) || (k == e.key && h == e.hlc && c == EntryContent(e))
        ensures k == e.key && h == e.hlc && (IsCopy(w, k, h, c) || c == EntryContent(e)) ==> IsCopy(w', k, h, c)
      {
        CopiesAfterPush(w, s, k, h, c);
      }
      assert IsCopy(w', e.key, e.hlc, EntryContent(e));
    } else {
      forall k, h, c | DeviceHolds(w'.devices[s.d], k, h, c) ensures IsCopy(w, k, h, c) {
        assert DeviceHolds(w.devices[s.d], k, h, c);
      }
      NoNewCopies(w, w', s.d);
    }
  }

  /** Whatever the stamps: from a state in which copies with one HLC agree, a step leads to another such
      state if and only if what it writes fits the copies that are there. */
  lemma StepKeepsCopiesExactly(w: World, s: Step)
    requires CopiesAgree(w) && Enabled(w, s)
    ensures CopiesAgree(Next(w, s)) <==> FittingStep(w, s)
  {
    if s.Put? || s.Erase? { WriteFitsExactly(w, s); }
    else if s.Push? { PushFitsExactly(w, s); }
    else if s.ApplyOne? { ApplyKeepsAgreement(w, s); }
    else { OtherStepKeepsAgreement(w, s); }
  }

  ghost predicate CopiesAgreeThroughout(w: World, steps: seq<Step>)
    decreases |steps|
  {
    && CopiesAgree(w)
    && (steps != [] ==> Enabled(w, steps[0]) && CopiesAgreeThroughout(Next(w, steps[0]), steps[1..]))
  }

  ghost predicate FittingRun(w: World, steps: seq<Step>)
    decreases |steps|
  {
    steps != [] ==> Enabled(w, steps[0]) && FittingStep(w, steps[0]) && FittingRun(Next(w, steps[0]), steps[1..])
  }

  /** An HLC stands for one content in every state of a run if and only if every write and every
      accepted push of the run fits. */
  lemma {:induction false} RunKeepsCopiesExactly(home: Home, w: World, steps: seq<Step>, end: World)
    requires CopiesAgree(w) && Runs(Anything, home, w, steps, end)
    ensures CopiesAgreeThroughout(w, steps) <==> FittingRun(w, steps)
    decreases |steps|
  {
    if steps != [] {
      StepKeepsCopiesExactly(w, steps[0]);
      if FittingStep(w, steps[0]) {
        RunKeepsCopiesExactly(home, Next(w, steps[0]), steps[1..], end);
      } else {
        assert !CopiesAgree(Next(w, steps[0]));
      }
    }
  }
}
