/** Last write wins, whatever the order: pushing entries to the store and applying pulled records
    to a device both depend only on which entries arrive, not on their order or repetition. */
module Replay {
  import opened Base
  import opened Lex
  import opened Schema
  import opened Protocol
  import opened Tracking
  import opened Agreement
  import opened Convergence

  // ── Pushing ────────────────────────────────────────────────────────────────

  /** The store after a series of pushes. */
  function PushAll(remote: Remote, es: seq<PushEntry>): Remote
    decreases |es|
  {
    if es == [] then remote else PushAll(Pushed(remote, es[0]), es[1..])
  }

  /** Entries of one key with one HLC say the same. */
  ghost predicate EntriesDistinct(es: seq<PushEntry>) {
    forall e, f :: e in es && f in es && e.key == f.key && e.hlc == f.hlc ==> RecordOf(e) == RecordOf(f)
  }

  /** What the store holds for k after the pushes: what it held, when no entry was newer, and
      otherwise the entry with the greatest HLC. */
  ghost predicate HoldsLatest(before: Remote, es: seq<PushEntry>, after: Remote, k: Key) {
    if exists e :: e in es && e.key == k && Accepts(before, e) then
      exists e :: e in es && e.key == k && Accepts(before, e) && k in after && after[k] == RecordOf(e) &&
        forall f :: f in es && f.key == k ==> AtMost(f.hlc, e.hlc)
    else
      (k in after <==> k in before) && (k in after ==> after[k] == before[k])
  }

  lemma {:induction false} PushAllHoldsLatest(remote: Remote, es: seq<PushEntry>, k: Key)
    ensures HoldsLatest(remote, es, PushAll(remote, es), k)
    decreases |es|
  {
    if es != [] {
      var first, rest := es[0], es[1..];
      var mid, end := Pushed(remote, first), PushAll(remote, es);
      PushAllHoldsLatest(mid, rest, k);
      assert forall e :: e in es <==> e == first || e in rest;
      if exists e :: e in rest && e.key == k && Accepts(mid, e) {
        var e :| e in rest && e.key == k && Accepts(mid, e) && k in end && end[k] == RecordOf(e) &&
          forall f :: f in rest && f.key == k ==> AtMost(f.hlc, e.hlc);
        assert Accepts(remote, e) && (first.key == k ==> AtMost(first.hlc, e.hlc)) by { TotalOrder(); }
      } else if first.key == k && Accepts(remote, first) {
        assert end[k] == RecordOf(first);
        forall f | f in es && f.key == k ensures AtMost(f.hlc, first.hlc) {
          if f == first { Irreflexive(f.hlc); } else { assert !Accepts(mid, f); }
        }
      }
    }
  }

  /** The store's HLC-wise latest entry is the only one it can end up holding. */
  lemma LatestIsUnique(before: Remote, es: seq<PushEntry>, fs: seq<PushEntry>, a: Remote, b: Remote, k: Key)
    requires EntriesDistinct(es) && forall e :: e in es <==> e in fs
    requires HoldsLatest(before, es, a, k) && HoldsLatest(before, fs, b, k)
    ensures (k in a <==> k in b) && (k in a ==> a[k] == b[k])
  {
    if exists e :: e in es && e.key == k && Accepts(before, e) {
      var e :| e in es && e.key == k && Accepts(before, e) && k in a && a[k] == RecordOf(e) &&
        forall f :: f in es && f.key == k ==> AtMost(f.hlc, e.hlc);
      var f :| f in fs && f.key == k && Accepts(before, f) && k in b && b[k] == RecordOf(f) &&
        forall g :: g in fs && g.key == k ==> AtMost(g.hlc, f.hlc);
      assert AtMost(f.hlc, e.hlc) && AtMost(e.hlc, f.hlc);
      Trichotomy(e.hlc, f.hlc);
    }
  }

  /** Order independence: any two series with the same entries, in whatever order and however
      often repeated, leave the same store. Backoff, which pushes entries out of order, therefore
      ends where FIFO does. */
  lemma PushOrderIndependent(remote: Remote, es: seq<PushEntry>, fs: seq<PushEntry>)
    requires EntriesDistinct(es) && forall e :: e in es <==> e in fs
    ensures PushAll(remote, es) == PushAll(remote, fs)
  {
    var a, b := PushAll(remote, es), PushAll(remote, fs);
    forall k ensures (k in a <==> k in b) && (k in a ==> a[k] == b[k]) {
      PushAllHoldsLatest(remote, es, k);
      PushAllHoldsLatest(remote, fs, k);
      LatestIsUnique(remote, es, fs, a, b, k);
    }
  }

  // ── Applying pulled records ────────────────────────────────────────────────

  /** The row a pulled record leaves, timestamps aside. */
  ghost predicate IsRowOf(row: Row, r: RemoteRecord) {
    && row.collection == r.key.collection && row.payload == r.payload.GetOr(EMPTY_PAYLOAD)
    && row.hlc == r.hlc && row.deleted == r.deleted
  }

  ghost predicate SameRow(a: Row, b: Row) {
    a.collection == b.collection && a.payload == b.payload && a.hlc == b.hlc && a.deleted == b.deleted
  }

  /** The same rows, timestamps aside, and the same entries still queued. */
  ghost predicate SameTables(a: Tables, b: Tables) {
    && a.records.Keys == b.records.Keys
    && (forall id :: id in a.records ==> SameRow(a.records[id], b.records[id]))
    && a.outbox == b.outbox
  }

  ghost predicate RowsHome(home: Home, t: Tables) {
    forall id :: id in t.records ==> t.records[id].collection == home(id)
  }

  ghost predicate RecordsDistinct(rs: seq<RemoteRecord>) {
    forall r, q :: r in rs && q in rs && r.key == q.key && r.hlc == q.hlc ==> r == q
  }

  /** Some record of the key is newer than the device's row. */
  ghost predicate Overtaken(t: Tables, rs: seq<RemoteRecord>, k: Key) {
    exists r :: r in rs && r.key == k && !Dominates(t, k, r.hlc)
  }

  ghost predicate RowIsLatest(t: Tables, rs: seq<RemoteRecord>, t': Tables, k: Key) {
    if Overtaken(t, rs, k) then
      exists r :: r in rs && r.key == k && k.id in t'.records && IsRowOf(t'.records[k.id], r) &&
        forall q :: q in rs && q.key == k ==> AtMost(q.hlc, r.hlc)
    else Get(t'.records, k) == Get(t.records, k)
  }

  ghost predicate AppliedLatest(home: Home, t: Tables, rs: seq<RemoteRecord>, t': Tables) {
    && RowsHome(home, t')
    && (forall k: Key :: k.collection == home(k.id) ==> RowIsLatest(t, rs, t', k))
    && (forall s :: s in t'.outbox <==> s in t.outbox && !Overtaken(t, rs, t.outbox[s].key))
    && (forall s :: s in t'.outbox ==> t'.outbox[s] == t.outbox[s])
  }

  lemma ApplyStep(home: Home, t: Tables, r: RemoteRecord, now: int, k: Key)
    requires RowsHome(home, t) && r.key.collection == home(r.key.id)
    ensures var t' := ApplyRemote(t, r, now);
      && RowsHome(home, t')
      && (k != r.key && k.collection == home(k.id) ==> Get(t'.records, k) == Get(t.records, k))
      && (Dominates(t, r.key, r.hlc) ==> t' == t)
      && (!Dominates(t, r.key, r.hlc) ==> Get(t'.records, r.key).Some? && IsRowOf(t'.records[r.key.id], r))
      && (!Dominates(t, r.key, r.hlc) ==> t'.outbox == RemoveOutboxFor(t, r.key).outbox)
  {
  }

  /** Being overtaken by the rest, or by the first record, is being overtaken. */
  lemma OvertakenSplits(home: Home, t: Tables, rs: seq<RemoteRecord>, now: int, k: Key)
    requires rs != [] && RowsHome(home, t) && AllHome(home, rs)
    ensures var t1 := ApplyRemote(t, rs[0], now);
      Overtaken(t, rs, k) <==> (k == rs[0].key && !Dominates(t, k, rs[0].hlc)) || Overtaken(t1, rs[1..], k)
  {
    var t1 := ApplyRemote(t, rs[0], now);
    assert forall r :: r in rs <==> r == rs[0] || r in rs[1..];
    ApplyStep(home, t, rs[0], now, k);
    if k == rs[0].key && !Dominates(t, k, rs[0].hlc) {
      assert rs[0] in rs;
    } else if Overtaken(t, rs, k) {
      var r :| r in rs && r.key == k && !Dominates(t, k, r.hlc);
      assert r in rs[1..] && !Dominates(t1, k, r.hlc);
    }
  }

  lemma {:induction false} ApplyAllIsLatest(home: Home, t: Tables, rs: seq<RemoteRecord>, now: int)
    requires RowsHome(home, t) && AllHome(home, rs)
    ensures AppliedLatest(home, t, rs, ApplyAll(t, rs, now))
    decreases |rs|
  {
    var t' := ApplyAll(t, rs, now);
    if rs == [] {
    } else {
      var first, rest := rs[0], rs[1..];
      var t1 := ApplyRemote(t, first, now);
      assert forall r :: r in rs <==> r == first || r in rest;
      ApplyStep(home, t, first, now, first.key);
      ApplyAllIsLatest(home, t1, rest, now);
      forall k: Key | k.collection == home(k.id) ensures RowIsLatest(t, rs, t', k) {
        OvertakenSplits(home, t, rs, now, k);
        ApplyStep(home, t, first, now, k);
        assert RowIsLatest(t1, rest, t', k);
        LatestExtends(home, t, rs, now, k);
      }
      forall s ensures s in t'.outbox <==> s in t.outbox && !Overtaken(t, rs, t.outbox[s].key) {
        if s in t.outbox { OvertakenSplits(home, t, rs, now, t.outbox[s].key); }
      }
    }
  }

  lemma LatestExtends(home: Home, t: Tables, rs: seq<RemoteRecord>, now: int, k: Key)
    requires rs != [] && RowsHome(home, t) && AllHome(home, rs) && k.collection == home(k.id)
    requires RowIsLatest(ApplyRemote(t, rs[0], now), rs[1..], ApplyAll(t, rs, now), k)
    ensures RowIsLatest(t, rs, ApplyAll(t, rs, now), k)
  {
    var first, rest := rs[0], rs[1..];
    var t1, t' := ApplyRemote(t, first, now), ApplyAll(t, rs, now);
    assert forall r :: r in rs <==> r == first || r in rest;
    OvertakenSplits(home, t, rs, now, k);
    ApplyStep(home, t, first, now, k);
    ApplyRaises(home, t, first, now);
    if Overtaken(t1, rest, k) {
      var r :| r in rest && r.key == k && k.id in t'.records && IsRowOf(t'.records[k.id], r) &&
        forall q :: q in rest && q.key == k ==> AtMost(q.hlc, r.hlc);
      if first.key == k {
        var q :| q in rest && q.key == k && !Dominates(t1, k, q.hlc);
        assert Dominates(t1, k, first.hlc);
        assert AtMost(first.hlc, r.hlc) by { TotalOrder(); }
      }
      assert r in rs;
    } else if Overtaken(t, rs, k) {
      assert first.key == k && IsRowOf(t'.records[k.id], first);
      forall q | q in rs && q.key == k ensures AtMost(q.hlc, first.hlc) {
        if q == first { Irreflexive(q.hlc); } else { assert Dominates(t1, k, q.hlc); }
      }
      assert first in rs;
    }
  }

  lemma LatestTablesUnique(home: Home, t: Tables, rs: seq<RemoteRecord>, qs: seq<RemoteRecord>, a: Tables, b: Tables)
    requires RecordsDistinct(rs) && forall r :: r in rs <==> r in qs
    requires AppliedLatest(home, t, rs, a) && AppliedLatest(home, t, qs, b)
    ensures SameTables(a, b)
  {
    forall k ensures Overtaken(t, rs, k) <==> Overtaken(t, qs, k) {}
    forall id
      ensures (id in a.records <==> id in b.records) && (id in a.records ==> SameRow(a.records[id], b.records[id]))
    {
      var k := Key(id, home(id));
      assert RowIsLatest(t, rs, a, k) && RowIsLatest(t, qs, b, k);
      if Overtaken(t, rs, k) {
        var r :| r in rs && r.key == k && k.id in a.records && IsRowOf(a.records[k.id], r) &&
          forall q :: q in rs && q.key == k ==> AtMost(q.hlc, r.hlc);
        var q :| q in qs && q.key == k && k.id in b.records && IsRowOf(b.records[k.id], q) &&
          forall x :: x in qs && x.key == k ==> AtMost(x.hlc, q.hlc);
        assert AtMost(q.hlc, r.hlc) && AtMost(r.hlc, q.hlc);
        Trichotomy(r.hlc, q.hlc);
      }
    }
    assert a.records.Keys == b.records.Keys;
    forall s
      ensures (s in a.outbox <==> s in b.outbox) && (s in a.outbox ==> a.outbox[s] == b.outbox[s])
    {
      if s in t.outbox { assert Overtaken(t, rs, t.outbox[s].key) <==> Overtaken(t, qs, t.outbox[s].key); }
    }
  }

  /** Replay is harmless: reordering or repeating the pulled records, or applying a prefix of them
      before a crash and all of them after it, gives the same rows (timestamps aside) and leaves
      the same entries queued as applying them once in HLC order. */
  lemma PullReplayHarmless(home: Home, t: Tables, rs: seq<RemoteRecord>, qs: seq<RemoteRecord>, now: int, later: int)
    requires RowsHome(home, t) && AllHome(home, rs) && RecordsDistinct(rs)
    requires forall r :: r in rs <==> r in qs
    ensures SameTables(ApplyAll(t, rs, now), ApplyAll(t, qs, later))
  {
    ApplyAllIsLatest(home, t, rs, now);
    ApplyAllIsLatest(home, t, qs, later);
    LatestTablesUnique(home, t, rs, qs, ApplyAll(t, rs, now), ApplyAll(t, qs, later));
  }

  /** An incremental pull gives the device what a full pull would exactly when the device already
      dominates every record at or below its checkpoint. */
  lemma IncrementalPullExactly(home: Home, t: Tables, remote: Remote, part: seq<RemoteRecord>,
                               all: seq<RemoteRecord>, now: int)
    requires RowsHome(home, t) && WellKeyed(remote) && forall k :: k in remote ==> k.collection == home(k.id)
    requires IsPull(remote, t.checkpoint, part) && IsPull(remote, None, all)
    ensures SameTables(ApplyAll(t, part, now), ApplyAll(t, all, now)) <==>
      forall k :: k in remote && !After(t.checkpoint, remote[k].hlc) ==> Dominates(t, k, remote[k].hlc)
  {
    ApplyAllIsLatest(home, t, part, now);
    ApplyAllIsLatest(home, t, all, now);
    var a, b := ApplyAll(t, part, now), ApplyAll(t, all, now);
    if forall k :: k in remote && !After(t.checkpoint, remote[k].hlc) ==> Dominates(t, k, remote[k].hlc) {
      forall k ensures Overtaken(t, part, k) <==> Overtaken(t, all, k) {
        if Overtaken(t, all, k) {
          var r :| r in all && r.key == k && !Dominates(t, k, r.hlc);
          assert r in part;
        }
      }
      PullsAgree(home, t, remote, part, all, a, b);
    } else {
      var k :| k in remote && !After(t.checkpoint, remote[k].hlc) && !Dominates(t, k, remote[k].hlc);
      PullsDiffer(home, t, remote, part, all, a, b, k);
    }
  }

  /** A record below the checkpoint that the device does not dominate comes with the full pull only. */
  lemma PullsDiffer(home: Home, t: Tables, remote: Remote, part: seq<RemoteRecord>, all: seq<RemoteRecord>,
                    a: Tables, b: Tables, k: Key)
    requires WellKeyed(remote) && IsPull(remote, t.checkpoint, part) && IsPull(remote, None, all)
    requires AppliedLatest(home, t, part, a) && AppliedLatest(home, t, all, b)
    requires k in remote && k.collection == home(k.id)
    requires !After(t.checkpoint, remote[k].hlc) && !Dominates(t, k, remote[k].hlc)
    ensures !SameTables(a, b)
  {
    assert remote[k] in all && Overtaken(t, all, k);
    assert !Overtaken(t, part, k);
    assert RowIsLatest(t, part, a, k) && RowIsLatest(t, all, b, k);
    assert b.records[k.id].hlc == remote[k].hlc;
    Irreflexive(remote[k].hlc);
  }

  lemma PullsAgree(home: Home, t: Tables, remote: Remote, part: seq<RemoteRecord>, all: seq<RemoteRecord>, a: Tables,
                   b: Tables)
    requires IsPull(remote, t.checkpoint, part) && IsPull(remote, None, all) && WellKeyed(remote)
    requires AppliedLatest(home, t, part, a) && AppliedLatest(home, t, all, b)
    requires forall k :: Overtaken(t, part, k) <==> Overtaken(t, all, k)
    ensures SameTables(a, b)
  {
    forall id
      ensures (id in a.records <==> id in b.records) && (id in a.records ==> SameRow(a.records[id], b.records[id]))
    {
      var k := Key(id, home(id));
      assert RowIsLatest(t, part, a, k) && RowIsLatest(t, all, b, k);
      if Overtaken(t, part, k) {
        assert IsRowOf(a.records[id], remote[k]) && IsRowOf(b.records[id], remote[k]);
      }
    }
    assert a.records.Keys == b.records.Keys;
    forall s
      ensures (s in a.outbox <==> s in b.outbox) && (s in a.outbox ==> a.outbox[s] == b.outbox[s])
    {
      if s in t.outbox { assert Overtaken(t, part, t.outbox[s].key) <==> Overtaken(t, all, t.outbox[s].key); }
    }
  }

  /** On every device, in every state of an Ordered run, an incremental pull gives what a full pull would. */
  lemma IncrementalIsFull(home: Home, w: World, steps: seq<Step>, end: World, d: nat,
                          part: seq<RemoteRecord>, all: seq<RemoteRecord>, now: int)
    requires Initial(w) && Runs(Ordered, home, w, steps, end) && d < |end.devices|
    requires IsPull(end.remote, end.devices[d].t.checkpoint, part) && IsPull(end.remote, None, all)
    ensures SameTables(ApplyAll(end.devices[d].t, part, now), ApplyAll(end.devices[d].t, all, now))
  {
    var t := end.devices[d].t;
    InitiallyAgreeing(home, w);
    RunKeepsCheckpoints(home, w, steps, end);
    assert DeviceFaithful(home, end, end.devices[d]);
    forall id | id in t.records ensures t.records[id].collection == home(id) {
      assert RowFaithful(home, end, id, t.records[id]);
    }
    forall k | k in end.remote ensures k.collection == home(k.id) {
      assert RecordFaithful(home, end, end.remote[k]);
    }
    forall k | k in end.remote && !After(t.checkpoint, end.remote[k].hlc)
      ensures Dominates(t, k, end.remote[k].hlc)
    {
      CheckpointSoundness(home, w, steps, end, d, k);
    }
    IncrementalPullExactly(home, t, end.remote, part, all, now);
  }
}
