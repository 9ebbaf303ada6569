/** The multi-device sync protocol as a state machine. Each device runs an engine actor and a sync
    loop over one database; the loop works in phases between which the actor's writes interleave
    (src/sync/mod.rs, src/engine.rs, src/backend/in_memory.rs). */
module Protocol {
  import opened Base
  import opened Lex
  import opened Schema

  // ── State ──────────────────────────────────────────────────────────────────

  /** What the network makes of one push: the request or the reply may be lost. */
  datatype Fault = Delivered | RequestLost(error: string) | ReplyLost(error: string)

  /** `PushResult` */
  datatype Answer = Taken | Refused | Failed(error: string)

  /** The sync loop's volatile state: the rest of a push batch, an answer not yet written back,
      or the rest of a pulled snapshot with the checkpoint reached so far. */
  datatype Phase =
    | Idle
    | Pushing(batch: seq<PushEntry>)
    | Answered(batch: seq<PushEntry>, answer: Answer)
    | Pulling(todo: seq<RemoteRecord>, newCheckpoint: Option<Stamp>)

  datatype Device = Device(t: Tables, phase: Phase)

  datatype WriteId = WriteId(key: Key, hlc: Stamp)

  /** All devices and the store, and as history the writes made and the payloads put so far. */
  datatype World = World(devices: seq<Device>, remote: Remote,
                         history: map<WriteId, Operation>, puts: set<(Key, Payload)>)

  datatype Step =
    | Put(d: nat, key: Key, payload: Payload, hlc: Stamp, now: int)
    | Erase(d: nat, key: Key, hlc: Stamp, now: int)
    | ReadPushBatch(d: nat, now: int)
    | Push(d: nat, fault: Fault)
    | Acknowledge(d: nat, stored: bool, now: int)
    | Fetch(d: nat, snapshot: seq<RemoteRecord>)
    | ApplyOne(d: nat, ok: bool, now: int)
    | SaveCheckpoint(d: nat)
    | Crash(d: nat)

  function InFlight(p: Phase): seq<PushEntry> {
    match p
    case Pushing(batch) => batch
    case Answered(batch, _) => batch
    case _ => []
  }

  function Todo(p: Phase): seq<RemoteRecord> {
    if p.Pulling? then p.todo else []
  }

  /** The checkpoint the device would save now. */
  function Reached(dev: Device): Option<Stamp> {
    if dev.phase.Pulling? then dev.phase.newCheckpoint else dev.t.checkpoint
  }

  function PushPhase(batch: seq<PushEntry>): Phase {
    if batch == [] then Idle else Pushing(batch)
  }

  // ── Steps ──────────────────────────────────────────────────────────────────

  ghost predicate Enabled(w: World, s: Step) {
    s.d < |w.devices| &&
    var dev := w.devices[s.d];
    match s
    case Put(_, _, _, _, _) => true
    case Erase(_, _, _, _) => true
    case ReadPushBatch(_, _) => dev.phase.Idle?
    case Push(_, _) => dev.phase.Pushing? && dev.phase.batch != []
    case Acknowledge(_, _, _) => dev.phase.Answered? && dev.phase.batch != []
    case Fetch(_, snapshot) => dev.phase.Idle? && IsPull(w.remote, dev.t.checkpoint, snapshot)
    case ApplyOne(_, _, _) => dev.phase.Pulling? && dev.phase.todo != []
    case SaveCheckpoint(_) => dev.phase.Pulling? && dev.phase.todo == []
    case Crash(_) => true
  }

  function Reply(remote: Remote, e: PushEntry, fault: Fault): Answer {
    match fault
    case Delivered => if Accepts(remote, e) then Taken else Refused
    case RequestLost(error) => Failed(error)
    case ReplyLost(error) => Failed(error)
  }

  function Received(remote: Remote, e: PushEntry, fault: Fault): Remote {
    if fault.RequestLost? then remote else Pushed(remote, e)
  }

  /** The answer written back: success and conflict delete the entry and go on, an error marks
      the entry and ends the cycle. A failed database write leaves the entry as it is. */
  function Acknowledged(dev: Device, stored: bool, now: int): Device
    requires dev.phase.Answered? && dev.phase.batch != []
  {
    var e := dev.phase.batch[0];
    match dev.phase.answer
    case Failed(error) => Device(if stored then MarkRetry(dev.t, e.seqNo, now, error) else dev.t, Idle)
    case _ => Device(if stored then DeleteSeq(dev.t, e.seqNo) else dev.t, PushPhase(dev.phase.batch[1..]))
  }

  /** One pulled record applied, or skipped over when the database refuses it. */
  function AppliedOne(dev: Device, ok: bool, now: int): Device
    requires dev.phase.Pulling? && dev.phase.todo != []
  {
    var r, rest := dev.phase.todo[0], dev.phase.todo[1..];
    if ok then Device(ApplyRemote(dev.t, r, now), Pulling(rest, Advance(dev.phase.newCheckpoint, r.hlc)))
    else Device(dev.t, Pulling(rest, dev.phase.newCheckpoint))
  }

  ghost function Next(w: World, s: Step): World
    requires Enabled(w, s)
  {
    var dev := w.devices[s.d];
    match s
    case Put(d, key, payload, hlc, now) =>
      w.(devices := w.devices[d := dev.(t := HandlePut(dev.t, key, payload, hlc, now))],
         history := w.history[WriteId(key, hlc) := Upsert], puts := w.puts + {(key, payload)})
    case Erase(d, key, hlc, now) =>
      w.(devices := w.devices[d := dev.(t := HandleDelete(dev.t, key, hlc, now))],
         history := w.history[WriteId(key, hlc) := Delete])
    case ReadPushBatch(d, now) =>
      w.(devices := w.devices[d := dev.(phase := PushPhase(ReadBatch(dev.t, now)))])
    case Push(d, fault) =>
      var e := dev.phase.batch[0];
      w.(devices := w.devices[d := dev.(phase := Answered(dev.phase.batch, Reply(w.remote, e, fault)))],
         remote := Received(w.remote, e, fault))
    case Acknowledge(d, stored, now) => w.(devices := w.devices[d := Acknowledged(dev, stored, now)])
    case Fetch(d, snapshot) => w.(devices := w.devices[d := dev.(phase := Pulling(snapshot, dev.t.checkpoint))])
    case ApplyOne(d, ok, now) => w.(devices := w.devices[d := AppliedOne(dev, ok, now)])
    case SaveCheckpoint(d) =>
      w.(devices := w.devices[d := Device(dev.t.(checkpoint := dev.phase.newCheckpoint), Idle)])
    case Crash(d) => w.(devices := w.devices[d := dev.(phase := Idle)])
  }

  // ── Runs, under growing hypotheses ─────────────────────────────────────────

  /** Which hypotheses the steps of a run meet.
      Anything: none.
      Distinct: every id is written in its one collection, and no two writes of a key share an HLC.
      Ordered: also, no write, push or failed apply leaves a device with a record of the store that
      it neither has nor will still see. */
  datatype Level = Anything | Distinct | Ordered

  type Home = string -> string

  ghost predicate DistinctStep(home: Home, w: World, s: Step) {
    (s.Put? || s.Erase?) ==>
      s.key.collection == home(s.key.id) && WriteId(s.key, s.hlc) !in w.history
  }

  /** The device's row of the key is at this HLC or a later one. */
  ghost predicate Dominates(t: Tables, key: Key, hlc: Stamp) {
    Get(t.records, key).Some? && AtMost(hlc, Get(t.records, key).value.hlc)
  }

  /** The record waits in the pulled snapshot, and would be pulled again if that were lost. */
  ghost predicate Waits(dev: Device, r: RemoteRecord) {
    r in Todo(dev.phase) && After(dev.t.checkpoint, r.hlc)
  }

  /** Above the device's checkpoint and everything in its pulled snapshot. */
  ghost predicate BeyondPulls(dev: Device, hlc: Stamp) {
    && After(dev.t.checkpoint, hlc)
    && After(Reached(dev), hlc)
    && (forall r :: r in Todo(dev.phase) ==> Before(r.hlc, hlc))
  }

  /** A write of the device does not go below what the store holds, unless the device will still
      see that. */
  ghost predicate WriteInOrder(w: World, dev: Device, key: Key, hlc: Stamp) {
    key in w.remote ==>
      AtMost(w.remote[key].hlc, hlc) || Waits(dev, w.remote[key]) || BeyondPulls(dev, w.remote[key].hlc)
  }

  /** An accepted push lies, for each device, above all it has pulled or is pulling, or the device
      has the record already, as the one that wrote it does. */
  ghost predicate PushInOrder(w: World, e: PushEntry) {
    Accepts(w.remote, e) ==>
      forall i :: 0 <= i < |w.devices| ==>
        BeyondPulls(w.devices[i], e.hlc) || Dominates(w.devices[i].t, e.key, e.hlc)
  }

  /** A record that fails to apply is no longer the store's, or is had, or is the last of its snapshot
      and above the checkpoint reached. */
  ghost predicate SkipInOrder(w: World, dev: Device)
    requires dev.phase.Pulling? && dev.phase.todo != []
  {
    var r := dev.phase.todo[0];
    r.key in w.remote && w.remote[r.key] == r ==>
      Dominates(dev.t, r.key, r.hlc) || (|dev.phase.todo| == 1 && After(dev.phase.newCheckpoint, r.hlc))
  }

  ghost predicate OrderedStep(w: World, s: Step)
    requires Enabled(w, s)
  {
    var dev := w.devices[s.d];
    match s
    case Put(_, key, _, hlc, _) => WriteInOrder(w, dev, key, hlc)
    case Erase(_, key, hlc, _) => WriteInOrder(w, dev, key, hlc)
    case Push(_, fault) => fault.RequestLost? || PushInOrder(w, dev.phase.batch[0])
    case ApplyOne(_, ok, _) => ok || SkipInOrder(w, dev)
    case _ => true
  }

  ghost predicate Allowed(level: Level, home: Home, w: World, s: Step) {
    && Enabled(w, s)
    && (level != Anything ==> DistinctStep(home, w, s))
    && (level == Ordered ==> OrderedStep(w, s))
  }

  ghost predicate Initial(w: World) {
    && (forall i :: 0 <= i < |w.devices| ==> w.devices[i] == Device(EMPTY_TABLES, Idle))
    && w.remote == map[] && w.history == map[] && w.puts == {}
  }

  /** `steps` leads from w to end, each step allowed at the level. */
  ghost predicate Runs(level: Level, home: Home, w: World, steps: seq<Step>, end: World)
    decreases |steps|
  {
    if steps == [] then end == w
    else Allowed(level, home, w, steps[0]) && Runs(level, home, Next(w, steps[0]), steps[1..], end)
  }
}
