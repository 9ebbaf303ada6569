/** The life of a blob row: the actor's handlers (src/engine.rs) and the blob worker
    (src/blob/worker.rs) as one state machine, the worker cut at every point where the actor or a
    crash can come between. */
module BlobLifecycle {
  import opened Base
  import opened BlobTable
  import opened Retry

  /** Where the worker stands. Sent: the object is stored and its status is not; Failed: the attempt
      is lost and not yet recorded; Fetched, Saved: a download before and after its path is set. */
  datatype Worker =
    | Idle
    | Cycle(queue: seq<string>)
    | Sending(id: string, queue: seq<string>)
    | Sent(id: string, queue: seq<string>)
    | Failed(id: string, queue: seq<string>)
    | Fetched(id: string)
    | Saved(id: string)

  /** One device's rows, the keys of the objects in the shared store, the worker and its two
      channels of requests. */
  datatype State = State(rows: Blobs, objects: set<string>, worker: Worker,
                         staging: set<string>, downloads: set<string>)

  const INITIAL := State(map[], {}, Idle, {}, {})

  datatype Step =
    // the actor
    | PutBlob(id: string, delivered: bool)
    | RegisterRemote(id: string)
    | GetBlob(id: string, asked: bool) // asked: the file is missing and the channel takes the request
    // the worker, which goes on when a statement fails (not stored)
    | Stage(id: string, copied: Option<(string, nat)>, now: int, error: string, stored: bool)
    | StartCycle(ready: seq<string>, now: int)
    | TakeNext
    | OpenSession(uploadId: UploadId, stored: bool)
    | DropSession(stored: bool)
    | StoreObject(acknowledged: bool)
    | Fail
    | MarkUploaded(stored: bool)
    | RecordError(now: int, error: string, stored: bool)
    | EndCycle
    | Fetch(id: string, found: bool, now: int, error: string, stored: bool)
    | SavePath(path: string, size: nat, stored: bool)
    | MarkCached(stored: bool)
    // the rest of the world
    | OtherDeviceStores(key: string)
    | Crash

  /** `list_ready(["pending", "uploading"])`, in some order */
  ghost predicate IsReadyList(rows: Blobs, ready: seq<string>, now: int) {
    && (forall id :: id in ready <==>
          id in rows && rows[id].status in {Pending, Uploading} && rows[id].retry.nextRetryAt <= now)
    && (forall i, j :: 0 <= i < j < |ready| ==> ready[i] != ready[j])
  }

  ghost predicate Enabled(st: State, step: Step) {
    match step
    case Stage(id, _, _, _, _) => st.worker.Idle? && id in st.staging
    case StartCycle(ready, now) => st.worker.Idle? && IsReadyList(st.rows, ready, now)
    case TakeNext => st.worker.Cycle? && st.worker.queue != []
    case OpenSession(_, _) => st.worker.Sending? && st.worker.id in st.rows && st.rows[st.worker.id].uploadId.None?
    case DropSession(_) => st.worker.Sending? && st.worker.id in st.rows && st.rows[st.worker.id].uploadId.Some?
    case StoreObject(_) => st.worker.Sending? && st.worker.id in st.rows
    case Fail => st.worker.Sending?
    case MarkUploaded(_) => st.worker.Sent?
    case RecordError(_, _, _) => st.worker.Failed?
    case EndCycle => st.worker.Cycle? && st.worker.queue == []
    case Fetch(id, found, _, _, _) =>
      && st.worker.Idle? && id in st.rows && (id in st.downloads || st.rows[id].status == DownloadPending)
      && (found ==> st.rows[id].s3Key in st.objects)
    case SavePath(_, _, _) => st.worker.Fetched?
    case MarkCached(_) => st.worker.Saved?
    case _ => true
  }

  /** The rows after a statement, or as they were when it failed. */
  function Written(stored: bool, rows: Blobs, after: Blobs): Blobs {
    if stored then after else rows
  }

  ghost function Next(st: State, step: Step): State
    requires Enabled(st, step)
  {
    var rows := st.rows;
    match step
    case PutBlob(id, delivered) =>
      if id in rows then st
      else st.(rows := Inserted(rows, id), staging := if delivered then st.staging + {id} else st.staging)
    case RegisterRemote(id) => st.(rows := Registered(rows, id))
    case GetBlob(id, asked) =>
      if asked && id in rows && rows[id].status == Uploaded then st.(downloads := st.downloads + {id}) else st
    case Stage(id, copied, now, error, stored) =>
      var after :=
        (match copied
         case Some((path, size)) => WithLocalFile(rows, id, path, size)
         case None => WithFailure(rows, id, now, error));
      st.(rows := Written(stored, rows, after), staging := st.staging - {id})
    case StartCycle(ready, now) => st.(worker := Cycle(ready))
    case TakeNext =>
      var id, rest := st.worker.queue[0], st.worker.queue[1..];
      if id in rows && rows[id].localPath.Some? then st.(worker := Sending(id, rest)) else st.(worker := Cycle(rest))
    case OpenSession(uploadId, stored) =>
      st.(rows := Written(stored, rows, WithUploadId(rows, st.worker.id, uploadId)))
    case DropSession(stored) =>
      st.(rows := Written(stored, rows, WithoutUploadId(rows, st.worker.id)),
          worker := Failed(st.worker.id, st.worker.queue))
    case StoreObject(acknowledged) =>
      st.(objects := st.objects + {rows[st.worker.id].s3Key},
          worker := if acknowledged then Sent(st.worker.id, st.worker.queue) else Failed(st.worker.id, st.worker.queue))
    case Fail => st.(worker := Failed(st.worker.id, st.worker.queue))
    case MarkUploaded(stored) =>
      st.(rows := Written(stored, rows, WithStatus(rows, st.worker.id, Uploaded)), worker := Cycle(st.worker.queue))
    case RecordError(now, error, stored) =>
      st.(rows := Written(stored, rows, WithFailure(rows, st.worker.id, now, error)), worker := Cycle(st.worker.queue))
    case EndCycle => st.(worker := Idle)
    case Fetch(id, found, now, error, stored) =>
      if found then st.(worker := Fetched(id), downloads := st.downloads - {id})
      else st.(rows := Written(stored, rows, WithFailure(rows, id, now, error)), downloads := st.downloads - {id})
    case SavePath(path, size, stored) =>
      st.(rows := Written(stored, rows, WithLocalFile(rows, st.worker.id, path, size)), worker := Saved(st.worker.id))
    case MarkCached(stored) =>
      st.(rows := Written(stored, rows, WithStatus(rows, st.worker.id, Cached)), worker := Idle)
    case OtherDeviceStores(key) => st.(objects := st.objects + {key})
    case Crash => st.(worker := Idle, staging := {}, downloads := {})
  }

  ghost predicate Runs(st: State, steps: seq<Step>, end: State)
    decreases |steps|
  {
    if steps == [] then end == st
    else Enabled(st, steps[0]) && Runs(Next(st, steps[0]), steps[1..], end)
  }

  // ── What every reachable state keeps ───────────────────────────────────────

  /** Not yet uploaded as far as the row knows. */
  predicate Unsent(r: BlobRow) {
    r.status == Pending || r.status == Uploading
  }

  predicate RowGood(r: BlobRow, objects: set<string>) {
    && (r.status == Uploading ==> r.uploadId.Some?)
    && (r.status == Uploaded || r.status == Cached ==> r.s3Key in objects)
    && (r.status == Uploaded ==> r.localPath.Some?)
    && (r.localPath.Some? <==> r.sizeBytes.Some?)
  }

  /** Every row names the object of its own id. */
  ghost predicate OwnKeys(rows: Blobs) {
    forall id :: id in rows ==> rows[id].s3Key == "blobs/" + id
  }

  /** Cached, and no file recorded. */
  predicate Pathless(r: BlobRow) {
    r.status == Cached && r.localPath.None?
  }

  /** The blobs of the upload cycle under way that are not done with, the current one first. */
  function Busy(w: Worker): seq<string> {
    match w
    case Cycle(queue) => queue
    case Sending(id, queue) => [id] + queue
    case Sent(id, queue) => [id] + queue
    case Failed(id, queue) => [id] + queue
    case _ => []
  }

  /** The rows an upload cycle works on were unsent when it started, and stay so until it sends them. */
  ghost predicate QueueGood(rows: Blobs, queue: seq<string>) {
    && (forall i :: 0 <= i < |queue| ==> queue[i] in rows && Unsent(rows[queue[i]]))
    && (forall i, j :: 0 <= i < j < |queue| ==> queue[i] != queue[j])
  }

  ghost predicate WorkerGood(st: State) {
    && QueueGood(st.rows, Busy(st.worker))
    && (st.worker.Sending? || st.worker.Sent? ==> st.worker.id in st.rows && st.rows[st.worker.id].localPath.Some?)
    && (st.worker.Sent? || st.worker.Fetched? || st.worker.Saved? ==>
          st.worker.id in st.rows && st.rows[st.worker.id].s3Key in st.objects)
    && (st.worker.Fetched? || st.worker.Saved? ==>
          !Unsent(st.rows[st.worker.id]) && !Pathless(st.rows[st.worker.id]))
  }

  ghost predicate Good(st: State) {
    && (forall id :: id in st.rows ==> RowGood(st.rows[id], st.objects))
    && OwnKeys(st.rows)
    && (forall id :: id in st.staging ==>
          id in st.rows && st.rows[id].status == Pending && st.rows[id].localPath.None?)
    && (forall id :: id in st.downloads ==> id in st.rows && !Unsent(st.rows[id]) && st.rows[id].localPath.Some?)
    && WorkerGood(st)
  }

  /** A row once sent, here or elsewhere, is never unsent again. */
  ghost predicate StaysSent(rows: Blobs, rows': Blobs) {
    forall id :: id in rows && !Unsent(rows[id]) ==> id in rows' && !Unsent(rows'[id])
  }

  /** Rows keep their key and, once they have one, a file; objects stay. */
  ghost predicate KeepsFiles(st: State, after: State) {
    && (forall id :: id in st.rows ==> id in after.rows && after.rows[id].s3Key == st.rows[id].s3Key)
    && (forall id :: id in st.rows && st.rows[id].localPath.Some? ==> after.rows[id].localPath.Some?)
    && st.objects <= after.objects
  }

  ghost predicate Onward(st: State, after: State) {
    StaysSent(st.rows, after.rows) && KeepsFiles(st, after)
  }

  lemma SentStays(st: State, step: Step)
    requires Good(st) && Enabled(st, step)
    ensures StaysSent(st.rows, Next(st, step).rows)
  {
    WorkerOnQueue(st);
  }

  lemma FilesStay(st: State, step: Step)
    requires Enabled(st, step)
    ensures KeepsFiles(st, Next(st, step))
  {
  }

  /** Only the worker's own blob can leave the unsent rows, and only as uploaded. */
  lemma UnsentStays(st: State, step: Step)
    requires Good(st) && Enabled(st, step)
    ensures forall id :: id in st.rows && Unsent(st.rows[id]) && !(step.MarkUploaded? && id == st.worker.id) ==>
      id in Next(st, step).rows && Unsent(Next(st, step).rows[id])
  {
  }

  lemma WorkerOnQueue(st: State)
    requires Good(st)
    ensures st.worker.Sending? || st.worker.Sent? || st.worker.Failed? ==>
      && st.worker.id in st.rows && Unsent(st.rows[st.worker.id])
      && QueueGood(st.rows, st.worker.queue) && st.worker.id !in st.worker.queue
  {
    if st.worker.Sending? || st.worker.Sent? || st.worker.Failed? {
      var queue := Busy(st.worker);
      assert queue[0] == st.worker.id && queue[1..] == st.worker.queue;
      assert forall i :: 0 <= i < |st.worker.queue| ==> st.worker.queue[i] == queue[i + 1];
    }
  }

  lemma RowsStayGood(st: State, step: Step)
    requires Good(st) && Enabled(st, step)
    ensures var after := Next(st, step); forall id :: id in after.rows ==> RowGood(after.rows[id], after.objects)
  {
    WorkerOnQueue(st);
  }

  lemma KeysStayOwn(st: State, step: Step)
    requires Good(st) && Enabled(st, step)
    ensures OwnKeys(Next(st, step).rows)
  {
  }

  lemma QueueStep(st: State, step: Step)
    requires Good(st) && Enabled(st, step)
    ensures QueueGood(Next(st, step).rows, Busy(Next(st, step).worker))
  {
    UnsentStays(st, step);
    WorkerOnQueue(st);
    var after := Next(st, step);
    var was, now := Busy(st.worker), Busy(after.worker);
    if step.TakeNext? {
      assert was == [was[0]] + was[1..];
      assert now == was || now == was[1..];
    } else if step.MarkUploaded? || step.RecordError? {
      assert now == st.worker.queue;
    } else if step.StartCycle? {
      assert forall i :: 0 <= i < |now| ==> now[i] in step.ready;
    } else {
      assert now == was || now == [];
    }
  }

  lemma StagingStaysGood(st: State, step: Step)
    requires Good(st) && Enabled(st, step)
    ensures var after := Next(st, step); forall id :: id in after.staging ==>
      id in after.rows && after.rows[id].status == Pending && after.rows[id].localPath.None?
  {
    WorkerOnQueue(st);
  }

  lemma DownloadsStayGood(st: State, step: Step)
    requires Good(st) && Enabled(st, step)
    ensures var after := Next(st, step); forall id :: id in after.downloads ==>
      id in after.rows && !Unsent(after.rows[id]) && after.rows[id].localPath.Some?
  {
    WorkerOnQueue(st);
  }

  lemma StepKeepsGood(st: State, step: Step)
    requires Good(st) && Enabled(st, step)
    ensures Good(Next(st, step)) && Onward(st, Next(st, step))
  {
    SentStays(st, step);
    FilesStay(st, step);
    RowsStayGood(st, step);
    KeysStayOwn(st, step);
    StagingStaysGood(st, step);
    DownloadsStayGood(st, step);
    QueueStep(st, step);
    WorkerOnQueue(st);
  }

  lemma {:induction false} RunKeepsGood(st: State, steps: seq<Step>, end: State)
    requires Good(st) && Runs(st, steps, end)
    ensures Good(end) && Onward(st, end)
    decreases |steps|
  {
    if steps != [] {
      StepKeepsGood(st, steps[0]);
      RunKeepsGood(Next(st, steps[0]), steps[1..], end);
    }
  }

  /** In every state a device can reach, whatever statements fail, a blob that is uploading has an
      upload id, one that is uploaded or cached has its object in the store, and one that is uploaded
      has its path and size recorded; path and size are recorded together. From there on, whatever
      happens, an uploaded or cached blob never goes back to pending or uploading. */
  lemma BlobLifecycle(before: seq<Step>, st: State, later: seq<Step>, end: State, id: string)
    requires Runs(INITIAL, before, st) && Runs(st, later, end) && id in st.rows
    ensures st.rows[id].status == Uploading ==> st.rows[id].uploadId.Some?
    ensures st.rows[id].localPath.Some? <==> st.rows[id].sizeBytes.Some?
    ensures st.rows[id].status == Uploaded ==> st.rows[id].localPath.Some?
    ensures st.rows[id].status == Uploaded || st.rows[id].status == Cached ==>
      && st.rows[id].s3Key in st.objects
      && id in end.rows && end.rows[id].status != Pending && end.rows[id].status != Uploading
      && end.rows[id].s3Key in end.objects
  {
    RunKeepsGood(INITIAL, before, st);
    RunKeepsGood(st, later, end);
  }

  /** No two blobs share an object, in any reachable state. */
  lemma ObjectsAreOwn(steps: seq<Step>, st: State, a: string, b: string)
    requires Runs(INITIAL, steps, st) && a in st.rows && b in st.rows
    ensures st.rows[a].s3Key == st.rows[b].s3Key <==> a == b
  {
    RunKeepsGood(INITIAL, steps, st);
    S3KeysDiffer(a, b);
  }

  /** Every way a row changes its status. */
  lemma StatusFollows(st: State, step: Step, id: string)
    requires Good(st) && Enabled(st, step) && id in st.rows
    ensures id in Next(st, step).rows
    ensures Next(st, step).rows[id].status ==
      if step.OpenSession? && step.stored && st.worker.id == id then Uploading
      else if step.DropSession? && step.stored && st.worker.id == id then Pending
      else if step.MarkUploaded? && step.stored && st.worker.id == id then Uploaded
      else if step.MarkCached? && step.stored && st.worker.id == id then Cached
      else if step == RegisterRemote(id) && st.rows[id].status == Uploaded then DownloadPending
      else st.rows[id].status
  {
  }

  /** A cycle takes exactly the blobs that are due and not sent. */
  lemma ReadyIsDue(st: State, step: Step, id: string)
    requires Enabled(st, step) && step.StartCycle?
    ensures id in Busy(Next(st, step).worker) <==>
      id in st.rows && st.rows[id].retry.nextRetryAt <= step.now && st.rows[id].status in {Pending, Uploading}
  {
  }

  /** Every way a request comes up and goes: an uploaded blob is asked for when its file is missing, a
      new one is to be staged; the worker takes each request once, and a crash loses all. */
  lemma RequestsFollow(st: State, step: Step, id: string)
    requires Enabled(st, step)
    ensures id in Next(st, step).downloads <==>
      || (step == GetBlob(id, true) && id in st.rows && st.rows[id].status == Uploaded)
      || (id in st.downloads && !step.Crash? && !(step.Fetch? && step.id == id))
    ensures id in Next(st, step).staging <==>
      || (step == PutBlob(id, true) && id !in st.rows)
      || (id in st.staging && !step.Crash? && !(step.Stage? && step.id == id))
  {
  }

  /** How an attempt ends: it has sent the file exactly when the store acknowledged the object, and has
      failed when the store did not, the session had expired or anything else went wrong. */
  lemma AttemptEnds(st: State, step: Step, key: string)
    requires Enabled(st, step)
    ensures Next(st, step).worker.Sent? <==>
      step == StoreObject(true) || (st.worker.Sent? && !step.MarkUploaded? && !step.Crash?)
    ensures Next(st, step).worker.Failed? <==>
      || step == StoreObject(false) || step == Fail || step.DropSession?
      || (st.worker.Failed? && !step.RecordError? && !step.Crash?)
    ensures key in Next(st, step).objects <==>
      || key in st.objects || step == OtherDeviceStores(key)
      || (step.StoreObject? && key == st.rows[st.worker.id].s3Key)
  {
  }

  /** The path and size of a row are those last stored for it, by staging or by a download. */
  lemma FileIsLastStored(st: State, step: Step, id: string)
    requires Good(st) && Enabled(st, step) && id in st.rows
    ensures id in Next(st, step).rows
    ensures var was, now := st.rows[id], Next(st, step).rows[id];
      if step.Stage? && step.id == id && step.copied.Some? && step.stored then
        now.localPath == Some(step.copied.value.0) && now.sizeBytes == Some(step.copied.value.1)
      else if step.SavePath? && st.worker.id == id && step.stored then
        now.localPath == Some(step.path) && now.sizeBytes == Some(step.size)
      else now.localPath == was.localPath && now.sizeBytes == was.sizeBytes
  {
  }

  /** The failure the step records for the blob. */
  function FailureOf(st: State, step: Step, id: string): Option<Failure> {
    match step
    case Stage(x, copied, now, error, stored) =>
      if x == id && copied.None? && stored then Some(Failure(now, error)) else None
    case RecordError(now, error, stored) =>
      if st.worker.Failed? && st.worker.id == id && stored then Some(Failure(now, error)) else None
    case Fetch(x, found, now, error, stored) =>
      if x == id && !found && stored then Some(Failure(now, error)) else None
    case _ => None
  }

  /** A blob's retry columns change with a recorded failure, which counts and delays like one of an outbox
      entry, and when its session is dropped, which makes it due at once but keeps the log. */
  lemma RetryFollows(st: State, step: Step, id: string)
    requires Good(st) && Enabled(st, step) && id in st.rows && 0 <= st.rows[id].retry.retries < 0x1_0000_0000
    ensures id in Next(st, step).rows
    ensures var was, now := st.rows[id].retry, Next(st, step).rows[id].retry;
      match FailureOf(st, step, id)
      case Some(f) =>
        var log := was.log + [f];
        && now.retries == was.retries + 1
        && now.nextRetryAt == f.at + Min(1000 * Pow2(was.retries), 300_000)
        && now.lastError == Some(f.error) && now.log == log[if |log| <= 20 then 0 else |log| - 20..]
      case None =>
        if step.DropSession? && step.stored && st.worker.id == id then
          now == Retry(0, 0, was.lastError, was.log)
        else now == was
  {
    if FailureOf(st, step, id).Some? {
      var f := FailureOf(st, step, id).value;
      MarkExactly(st.rows[id].retry, f.at, f.error);
    }
  }

  // ── Cached without a file ──────────────────────────────────────────────────

  /** The status of a download is stored, and its path never was. */
  ghost predicate CachesPathless(st: State, step: Step) {
    && step.MarkCached? && step.stored
    && st.worker.Saved? && st.worker.id in st.rows && st.rows[st.worker.id].localPath.None?
  }

  ghost predicate AllRecorded(st: State) {
    forall id :: id in st.rows ==> !Pathless(st.rows[id])
  }

  /** A cached blob without a recorded file comes about at one point alone, where a download stores
      the status after its path was not stored. */
  lemma StepRecordsExactly(st: State, step: Step)
    requires Good(st) && AllRecorded(st) && Enabled(st, step)
    ensures AllRecorded(Next(st, step)) <==> !CachesPathless(st, step)
  {
    WorkerOnQueue(st);
    if CachesPathless(st, step) { assert Pathless(Next(st, step).rows[st.worker.id]); }
  }

  ghost predicate RecordedThroughout(st: State, steps: seq<Step>)
    decreases |steps|
  {
    AllRecorded(st) && (steps != [] ==> Enabled(st, steps[0]) && RecordedThroughout(Next(st, steps[0]), steps[1..]))
  }

  ghost predicate NeverCachesPathless(st: State, steps: seq<Step>)
    decreases |steps|
  {
    steps != [] ==>
      Enabled(st, steps[0]) && !CachesPathless(st, steps[0]) && NeverCachesPathless(Next(st, steps[0]), steps[1..])
  }

  /** Every cached blob has its path and size recorded in every state of a run exactly when the run
      never does that. */
  lemma {:induction false} RunRecordsExactly(st: State, steps: seq<Step>, end: State)
    requires Good(st) && AllRecorded(st) && Runs(st, steps, end)
    ensures RecordedThroughout(st, steps) <==> NeverCachesPathless(st, steps)
    decreases |steps|
  {
    if steps != [] {
      StepKeepsGood(st, steps[0]);
      StepRecordsExactly(st, steps[0]);
      if CachesPathless(st, steps[0]) {
        assert !AllRecorded(Next(st, steps[0]));
      } else {
        RunRecordsExactly(Next(st, steps[0]), steps[1..], end);
      }
    }
  }

  /** It is enough that no path is lost between fetching a file and marking it. */
  lemma {:induction false} StoredPathsSuffice(st: State, steps: seq<Step>, end: State)
    requires Good(st) && AllRecorded(st) && Runs(st, steps, end)
    requires st.worker.Saved? ==> st.rows[st.worker.id].localPath.Some?
    requires forall s :: s in steps && s.SavePath? ==> s.stored
    ensures AllRecorded(end)
    decreases |steps|
  {
    if steps != [] {
      assert steps[0] in steps;
      StepKeepsGood(st, steps[0]);
      StepRecordsExactly(st, steps[0]);
      forall s | s in steps[1..] ensures s in steps {}
      StoredPathsSuffice(Next(st, steps[0]), steps[1..], end);
    }
  }

  /** Once there, it stays: the file is never asked for again, so no later download records it. */
  lemma {:induction false} PathlessForever(st: State, steps: seq<Step>, end: State, id: string)
    requires Good(st) && Runs(st, steps, end) && id in st.rows && Pathless(st.rows[id])
    ensures id in end.rows && Pathless(end.rows[id]) && id !in end.downloads
    decreases |steps|
  {
    if steps != [] {
      StepKeepsGood(st, steps[0]);
      StepKeepsPathless(st, steps[0], id);
      PathlessForever(Next(st, steps[0]), steps[1..], end, id);
    }
  }

  lemma StepKeepsPathless(st: State, step: Step, id: string)
    requires Good(st) && Enabled(st, step) && id in st.rows && Pathless(st.rows[id])
    ensures id in Next(st, step).rows && Pathless(Next(st, step).rows[id])
  {
    WorkerOnQueue(st);
  }

  lemma {:induction false} RunsThen(st: State, steps: seq<Step>, mid: State, s: Step)
    requires Runs(st, steps, mid) && Enabled(mid, s)
    ensures Runs(st, steps + [s], Next(mid, s))
    decreases |steps|
  {
    if steps == [] {
      assert [s][1..] == [];
    } else {
      assert (steps + [s])[0] == steps[0] && (steps + [s])[1..] == steps[1..] + [s];
      RunsThen(Next(st, steps[0]), steps[1..], mid, s);
    }
  }

  /** A blob another device has stored is registered and fetched. */
  lemma RemoteIsFetched(id: string) returns (steps: seq<Step>, st: State)
    ensures Runs(INITIAL, steps, st) && st.worker == Fetched(id) && id in st.rows && st.rows[id].localPath.None?
  {
    var register, elsewhere, fetch := RegisterRemote(id), OtherDeviceStores(S3Key(id)), Fetch(id, true, 0, "", true);
    RunsThen(INITIAL, [], INITIAL, register);
    var st1 := Next(INITIAL, register);
    RunsThen(INITIAL, [] + [register], st1, elsewhere);
    var st2 := Next(st1, elsewhere);
    RunsThen(INITIAL, [] + [register] + [elsewhere], st2, fetch);
    steps, st := [] + [register] + [elsewhere] + [fetch], Next(st2, fetch);
  }

  /** Such a run: the path of a fetched blob is lost and its status is stored. */
  lemma LostPathIsCached(id: string, path: string, size: nat) returns (steps: seq<Step>, end: State)
    ensures Runs(INITIAL, steps, end) && id in end.rows && Pathless(end.rows[id])
  {
    var before, st := RemoteIsFetched(id);
    var save, mark := SavePath(path, size, false), MarkCached(true);
    RunsThen(INITIAL, before, st, save);
    RunsThen(INITIAL, before + [save], Next(st, save), mark);
    steps, end := before + [save] + [mark], Next(Next(st, save), mark);
  }

  // ── Pending without a file ─────────────────────────────────────────────────

  /** Staged by nobody: the row waits for a file and no request to copy it is left. */
  ghost predicate Unstaged(st: State, id: string) {
    id in st.rows && st.rows[id].status == Pending && st.rows[id].localPath.None? && id !in st.staging
  }

  /** A new blob loses its request in four ways and no other: the channel is full, the copy fails, the
      path statement fails, or a crash comes first. */
  lemma UnstagedExactly(st: State, step: Step, id: string)
    requires Good(st) && Enabled(st, step) && !Unstaged(st, id)
    ensures Unstaged(Next(st, step), id) <==>
      || (step == PutBlob(id, false) && id !in st.rows)
      || (step.Stage? && step.id == id && (step.copied.None? || !step.stored))
      || (step.Crash? && id in st.staging)
  {
    WorkerOnQueue(st);
  }

  lemma StepKeepsUnstaged(st: State, step: Step, id: string)
    requires Good(st) && Enabled(st, step) && Unstaged(st, id)
    ensures Unstaged(Next(st, step), id)
  {
    WorkerOnQueue(st);
  }

  /** From then on the blob is never uploaded: `put_blob` returns early on a known id and nothing else
      asks for staging. */
  lemma {:induction false} UnstagedForever(st: State, steps: seq<Step>, end: State, id: string)
    requires Good(st) && Runs(st, steps, end) && Unstaged(st, id)
    ensures Unstaged(end, id)
    decreases |steps|
  {
    if steps != [] {
      StepKeepsGood(st, steps[0]);
      StepKeepsUnstaged(st, steps[0], id);
      UnstagedForever(Next(st, steps[0]), steps[1..], end, id);
    }
  }

  // ── What callers see of it ─────────────────────────────────────────────────

  /** A blob reported as uploaded or cached is reported as pending after a step exactly when the step
      registers the uploaded blob for download. */
  lemma ReportedPendingAgainExactly(st: State, step: Step, id: string)
    requires Good(st) && Enabled(st, step) && id in st.rows
    requires var status := HandleBlobInfo(st.rows, id).value.status; status == Uploaded || status == Cached
    ensures HandleBlobInfo(Next(st, step).rows, id).Some?
    ensures HandleBlobInfo(Next(st, step).rows, id).value.status == Pending <==>
      step == RegisterRemote(id) && st.rows[id].status == Uploaded
  {
    ReportedExactly(st.rows, id);
    ReportedExactly(Next(st, step).rows, id);
    WorkerOnQueue(st);
    FilesStay(st, step);
  }
}
