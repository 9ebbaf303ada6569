/** Where distinct stamps come from: devices whose clocks carry different nodes and keep room in their
    counters (src/hlc.rs, src/engine.rs) make no two writes with one stamp. */
module Clocked {
  import opened Schema
  import opened Protocol
  import opened Agreement
  import opened Hlc

  /** One clock per device, as `last_hlc` of its engine. */
  type Clocks = seq<Hlc>

  predicate Writes(s: Step) {
    s.Put? || s.Erase?
  }

  /** The engine stamps a write with its clock's next tick, and the write is in its one collection. */
  ghost predicate StampedStep(home: Home, clocks: Clocks, w: World, s: Step, wallMs: u64) {
    && Enabled(w, s)
    && (Writes(s) ==>
          && s.d < |clocks| && s.key.collection == home(s.key.id)
          && s.hlc == ToString(Tick(clocks[s.d], wallMs))
          && (clocks[s.d].physicalMs < wallMs || clocks[s.d].logical < U16_MAX))
  }

  function Ticked(clocks: Clocks, s: Step, wallMs: u64): Clocks {
    if Writes(s) && s.d < |clocks| then clocks[s.d := Tick(clocks[s.d], wallMs)] else clocks
  }

  /** A run whose writes are stamped by the devices' clocks, one wall-clock reading per step. */
  ghost predicate StampedRun(home: Home, clocks: Clocks, w: World, steps: seq<Step>, walls: seq<u64>, end: World)
    requires |walls| == |steps|
    decreases |steps|
  {
    if steps == [] then end == w
    else
      && StampedStep(home, clocks, w, steps[0], walls[0])
      && StampedRun(home, Ticked(clocks, steps[0], walls[0]), Next(w, steps[0]), steps[1..], walls[1..], end)
  }

  ghost predicate NodesDiffer(clocks: Clocks) {
    forall i, j :: 0 <= i < j < |clocks| ==> clocks[i].nodeId != clocks[j].nodeId
  }

  /** The stamp was made by the clock of device d, at its present reading or before. */
  ghost predicate MadeBy(clocks: Clocks, d: nat, h: Hlc, hlc: Stamp) {
    d < |clocks| && hlc == ToString(h) && h.nodeId == clocks[d].nodeId && !Less(clocks[d], h)
  }

  ghost predicate AllMade(clocks: Clocks, w: World) {
    forall x :: x in w.history ==> exists d, h :: MadeBy(clocks, d, h, x.hlc)
  }

  lemma TickIsNew(clocks: Clocks, w: World, d: nat, wallMs: u64, key: Key)
    requires NodesDiffer(clocks) && AllMade(clocks, w) && d < |clocks|
    requires clocks[d].physicalMs < wallMs || clocks[d].logical < U16_MAX
    ensures WriteId(key, ToString(Tick(clocks[d], wallMs))) !in w.history
  {
    var tick := Tick(clocks[d], wallMs);
    TickExceedsExactly(clocks[d], wallMs);
    var x := WriteId(key, ToString(tick));
    if x in w.history {
      var e, h :| MadeBy(clocks, e, h, x.hlc);
      PrintsDistinctly(tick, h);
    }
  }

  lemma MadeStaysMade(clocks: Clocks, d: nat, wallMs: u64, e: nat, h: Hlc, hlc: Stamp)
    requires d < |clocks| && MadeBy(clocks, e, h, hlc)
    ensures MadeBy(clocks[d := Tick(clocks[d], wallMs)], e, h, hlc)
  {
    TickExceedsExactly(clocks[d], wallMs);
    BytesTrichotomy(h.nodeId, h.nodeId);
  }

  lemma WriteIsMade(clocks: Clocks, after: Clocks, w: World, s: Step, wallMs: u64, x: WriteId)
    requires s.d < |clocks| && after == clocks[s.d := Tick(clocks[s.d], wallMs)]
    requires AllMade(clocks, w) && (x in w.history || x.hlc == ToString(Tick(clocks[s.d], wallMs)))
    ensures exists d, h :: MadeBy(after, d, h, x.hlc)
  {
    var tick := Tick(clocks[s.d], wallMs);
    if x in w.history {
      var e, h :| MadeBy(clocks, e, h, x.hlc);
      MadeStaysMade(clocks, s.d, wallMs, e, h, x.hlc);
    } else {
      BytesTrichotomy(tick.nodeId, tick.nodeId);
      assert MadeBy(after, s.d, tick, x.hlc);
    }
  }

  lemma StepKeepsMade(home: Home, clocks: Clocks, w: World, s: Step, wallMs: u64)
    requires NodesDiffer(clocks) && AllMade(clocks, w) && StampedStep(home, clocks, w, s, wallMs)
    ensures Allowed(Distinct, home, w, s)
    ensures NodesDiffer(Ticked(clocks, s, wallMs)) && AllMade(Ticked(clocks, s, wallMs), Next(w, s))
  {
    if Writes(s) {
      var after := Ticked(clocks, s, wallMs);
      TickIsNew(clocks, w, s.d, wallMs, s.key);
      TickExceedsExactly(clocks[s.d], wallMs);
      forall x | x in Next(w, s).history ensures exists d, h :: MadeBy(after, d, h, x.hlc) {
        WriteIsMade(clocks, after, w, s, wallMs, x);
      }
    }
  }

  /** Devices whose clocks carry different nodes, and tick only while their counters have room, make
      only Distinct runs, whatever the wall clocks read. */
  lemma {:induction false} StampedRunsAreDistinct(home: Home, clocks: Clocks, w: World, steps: seq<Step>,
                                                  walls: seq<u64>, end: World)
    requires |walls| == |steps| && NodesDiffer(clocks) && AllMade(clocks, w)
    requires StampedRun(home, clocks, w, steps, walls, end)
    ensures Runs(Distinct, home, w, steps, end)
    decreases |steps|
  {
    if steps != [] {
      StepKeepsMade(home, clocks, w, steps[0], walls[0]);
      StampedRunsAreDistinct(home, Ticked(clocks, steps[0], walls[0]), Next(w, steps[0]), steps[1..], walls[1..], end);
    }
  }

  /** So in a system started from nothing, with such clocks, an HLC stands for one content. */
  lemma StampedContentAgrees(home: Home, clocks: Clocks, w: World, steps: seq<Step>, walls: seq<u64>, end: World,
                             key: Key, hlc: Stamp, c: Content, c': Content)
    requires |walls| == |steps| && Initial(w) && NodesDiffer(clocks)
    requires StampedRun(home, clocks, w, steps, walls, end)
    requires IsCopy(end, key, hlc, c) && IsCopy(end, key, hlc, c')
    ensures c == c'
  {
    StampedRunsAreDistinct(home, clocks, w, steps, walls, end);
    HlcDeterminesContent(home, w, steps, end, key, hlc, c, c');
  }
}
