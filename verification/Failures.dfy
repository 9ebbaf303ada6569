/** What failed pushes do to an entry over whole runs: its retry columns are what the failures recorded
    for it so far give, and no batch contains it before it is due (src/db/outbox.rs, src/sync/mod.rs). */
module Failures {
  import opened Base
  import opened Retry
  import opened Schema
  import opened Protocol
  import opened Tracking
  import opened Agreement

  /** The failure a step records for the entry: the answer to its push was an error, and the statement
      that writes it back succeeds. */
  ghost function Recorded(w: World, s: Step, d: nat, u: int): seq<Failure>
    requires Enabled(w, s) && d < |w.devices|
  {
    if s.Acknowledge? && s.d == d && s.stored && w.devices[d].phase.answer.Failed? &&
       w.devices[d].phase.batch[0].seqNo == u && u in w.devices[d].t.outbox
    then [Failure(s.now, w.devices[d].phase.answer.error)]
    else []
  }

  /** All those of a run, oldest first. */
  ghost function FailuresOf(level: Level, home: Home, w: World, steps: seq<Step>, end: World,
                            d: nat, u: int): seq<Failure>
    requires Runs(level, home, w, steps, end) && d < |w.devices|
    decreases |steps|
  {
    if steps == [] then []
    else Recorded(w, steps[0], d, u) + FailuresOf(level, home, Next(w, steps[0]), steps[1..], end, d, u)
  }

  lemma {:induction false} MarkAllSplits(r: Retry, fs: seq<Failure>, gs: seq<Failure>)
    ensures MarkAll(MarkAll(r, fs), gs) == MarkAll(r, fs + gs)
  {
    if gs == [] {
      assert fs + gs == fs;
    } else {
      var last := |gs| - 1;
      MarkAllSplits(r, fs, gs[..last]);
      assert (fs + gs)[..|fs + gs| - 1] == fs + gs[..last];
    }
  }

  /** One step leaves an entry's retry as it was, marks it once, or brings in a new entry. */
  lemma StepMarks(w: World, s: Step, d: nat, u: int)
    requires Tracked(w) && Enabled(w, s) && d < |w.devices| && u in Next(w, s).devices[d].t.outbox
    ensures u in w.devices[d].t.outbox ==>
      Next(w, s).devices[d].t.outbox[u].retry == MarkAll(w.devices[d].t.outbox[u].retry, Recorded(w, s, d, u))
    ensures u !in w.devices[d].t.outbox ==>
      u == w.devices[d].t.nextSeq && Next(w, s).devices[d].t.outbox[u].retry == NO_RETRY && Recorded(w, s, d, u) == []
  {
    assert DeviceTracked(w.devices[d], w.remote);
    var fs := Recorded(w, s, d, u);
    if fs != [] { assert fs[..0] == []; }
  }

  /** A number once used and gone never comes back. */
  lemma {:induction false} GoneForGood(level: Level, home: Home, w: World, steps: seq<Step>, end: World, d: nat, u: int)
    requires Tracked(w) && Runs(level, home, w, steps, end)
    requires d < |w.devices| && u < w.devices[d].t.nextSeq && u !in w.devices[d].t.outbox
    ensures |end.devices| == |w.devices| && u !in end.devices[d].t.outbox
    decreases |steps|
  {
    if steps != [] {
      var w' := Next(w, steps[0]);
      StepKeepsTracked(w, steps[0]);
      if u in w'.devices[d].t.outbox { StepMarks(w, steps[0], d, u); }
      GoneForGood(level, home, w', steps[1..], end, d, u);
    }
  }

  /** The retry of an entry; one that is not queued has none. */
  ghost function RetryOf(w: World, d: nat, u: int): Retry
    requires d < |w.devices|
  {
    if u in w.devices[d].t.outbox then w.devices[d].t.outbox[u].retry else NO_RETRY
  }

  /** The first step of a run that ends with the entry queued. */
  lemma FirstStepMarks(level: Level, home: Home, w: World, steps: seq<Step>, end: World, d: nat, u: int)
    requires Tracked(w) && steps != [] && Runs(level, home, w, steps, end)
    requires d < |w.devices| == |end.devices| && u in end.devices[d].t.outbox
    ensures RetryOf(Next(w, steps[0]), d, u) == MarkAll(RetryOf(w, d, u), Recorded(w, steps[0], d, u))
  {
    var s, w' := steps[0], Next(w, steps[0]);
    if u in w'.devices[d].t.outbox {
      StepMarks(w, s, d, u);
    } else if u in w.devices[d].t.outbox {
      StepKeepsTracked(w, s);
      assert DeviceTracked(w.devices[d], w.remote);
      GoneForGood(level, home, w', steps[1..], end, d, u);
    }
  }

  lemma {:induction false} RunMarks(level: Level, home: Home, w: World, steps: seq<Step>, end: World, d: nat, u: int)
    requires Tracked(w) && Runs(level, home, w, steps, end)
    requires d < |w.devices| == |end.devices| && u in end.devices[d].t.outbox
    ensures end.devices[d].t.outbox[u].retry == MarkAll(RetryOf(w, d, u), FailuresOf(level, home, w, steps, end, d, u))
    decreases |steps|
  {
    if steps != [] {
      var w' := Next(w, steps[0]);
      StepKeepsTracked(w, steps[0]);
      RunMarks(level, home, w', steps[1..], end, d, u);
      FirstStepMarks(level, home, w, steps, end, d, u);
      var rest := FailuresOf(level, home, w', steps[1..], end, d, u);
      MarkAllSplits(RetryOf(w, d, u), Recorded(w, steps[0], d, u), rest);
    }
  }

  /** In every state of any run: a queued entry has failed as often as its row says, is due at its last
      failure plus min(2^(n-1) s, 300 s), and carries the last error and the last twenty. */
  lemma RetryIsWhatFailed(home: Home, w: World, steps: seq<Step>, end: World, d: nat, u: int)
    requires Initial(w) && Runs(Anything, home, w, steps, end)
    requires d < |w.devices| == |end.devices| && u in end.devices[d].t.outbox
    requires |FailuresOf(Anything, home, w, steps, end, d, u)| <= 0x1_0000_0000
    ensures var fs := FailuresOf(Anything, home, w, steps, end, d, u); var n := |fs|;
      var r := end.devices[d].t.outbox[u].retry;
      && r.retries == n
      && r.nextRetryAt == (if n == 0 then 0 else fs[n - 1].at + Min(1000 * Pow2(n - 1), 300_000))
      && r.lastError == (if n == 0 then None else Some(fs[n - 1].error))
      && r.log == fs[if n <= 20 then 0 else n - 20..]
  {
    InitiallyTracked(w);
    RunMarks(Anything, home, w, steps, end, d, u);
    var fs := FailuresOf(Anything, home, w, steps, end, d, u);
    if fs != [] { RetryRun(fs); }
  }

  /** No batch contains an entry before it is due. */
  lemma NotBeforeDue(t: Tables, now: int, u: int)
    requires u in t.outbox && now < t.outbox[u].retry.nextRetryAt
    ensures forall e :: e in ReadBatch(t, now) ==> e.seqNo != u
  {
    ReadBatchExactly(t, now);
  }
}
