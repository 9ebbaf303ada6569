/** The rows of one device's database and the statements the engine and the sync loop run on
    them (src/db/records.rs, src/db/outbox.rs, src/db/sync_state.rs), as functions on values. */
module Schema {
  import opened Base
  import opened Lex
  import opened Retry

  type Stamp = string

  /** The remote's key. A device's `records` table is keyed by `id` alone. */
  datatype Key = Key(id: string, collection: string)

  /** What a put stores and a pull must reproduce: bytes, wrapped key and the two versions. */
  datatype Payload = Payload(data: Bytes, dek: Option<Bytes>, schemaVersion: nat, formatVersion: nat)

  /** The payload a pulled tombstone leaves in the row. */
  const EMPTY_PAYLOAD := Payload([], None, 0, 0)

  datatype Row = Row(collection: string, payload: Payload, hlc: Stamp, deleted: bool,
                     createdAt: int, updatedAt: int)

  datatype Operation = Upsert | Delete

  datatype OutboxEntry = OutboxEntry(key: Key, operation: Operation, hlc: Stamp, retry: Retry)

  /** An outbox entry made ready for the backend; a tombstone carries no payload. */
  datatype PushEntry = PushEntry(seqNo: int, key: Key, operation: Operation, hlc: Stamp, payload: Option<Payload>)

  datatype RemoteRecord = RemoteRecord(key: Key, hlc: Stamp, payload: Option<Payload>, deleted: bool)

  type Records = map<string, Row>
  type Outbox = map<int, OutboxEntry>
  type Remote = map<Key, RemoteRecord>

  /** records, outbox with its AUTOINCREMENT counter, and sync_state for the one backend. */
  datatype Tables = Tables(records: Records, outbox: Outbox, nextSeq: int, checkpoint: Option<Stamp>)

  const EMPTY_TABLES := Tables(map[], map[], 1, None)

  /** What a reader sees of a record. */
  datatype Content = Tombstone | Live(payload: Payload)

  function RowContent(r: Row): Content {
    if r.deleted then Tombstone else Live(r.payload)
  }

  function RemoteContent(r: RemoteRecord): Content {
    if r.deleted then Tombstone else Live(r.payload.GetOr(EMPTY_PAYLOAD))
  }

  function EntryContent(e: PushEntry): Content {
    if e.operation == Delete then Tombstone else Live(e.payload.GetOr(EMPTY_PAYLOAD))
  }

  // ── records ────────────────────────────────────────────────────────────────

  /** `WHERE id = ?1 AND collection = ?2` */
  function Get(records: Records, key: Key): Option<Row> {
    if key.id in records && records[key.id].collection == key.collection then Some(records[key.id]) else None
  }

  function CreatedAt(records: Records, id: string, now: int): int {
    if id in records then records[id].createdAt else now
  }

  /** A local put; an existing row keeps its creation time. */
  function UpsertRow(records: Records, key: Key, payload: Payload, hlc: Stamp, now: int): Records {
    records[key.id := Row(key.collection, payload, hlc, false, CreatedAt(records, key.id, now), now)]
  }

  /** A pulled record, tombstone or not. */
  function UpsertRemoteRow(records: Records, r: RemoteRecord, now: int): Records {
    records[r.key.id := Row(r.key.collection, r.payload.GetOr(EMPTY_PAYLOAD), r.hlc, r.deleted,
                            CreatedAt(records, r.key.id, now), now)]
  }

  /** A local delete: marks an existing row and leaves its payload; no row, no change. */
  function SoftDelete(records: Records, key: Key, hlc: Stamp, now: int): Records {
    if Get(records, key).Some? then
      records[key.id := records[key.id].(deleted := true, hlc := hlc, updatedAt := now)]
    else records
  }

  // ── outbox ─────────────────────────────────────────────────────────────────

  function Append(t: Tables, key: Key, operation: Operation, hlc: Stamp): Tables {
    t.(outbox := t.outbox[t.nextSeq := OutboxEntry(key, operation, hlc, NO_RETRY)], nextSeq := t.nextSeq + 1)
  }

  predicate Ready(outbox: Outbox, seqNo: int, now: int) {
    seqNo in outbox && outbox[seqNo].retry.nextRetryAt <= now
  }

  /** The ready entries numbered from `from` up to `to`, in order, at most `limit` of them. */
  function ReadySeqs(outbox: Outbox, from: int, to: int, now: int, limit: nat): (seqs: seq<int>)
    ensures |seqs| <= limit
    ensures forall i :: 0 <= i < |seqs| ==> from <= seqs[i] < to && Ready(outbox, seqs[i], now)
    ensures forall i, j :: 0 <= i < j < |seqs| ==> seqs[i] < seqs[j]
    ensures forall s :: from <= s < to && Ready(outbox, s, now) && s !in seqs ==>
      |seqs| == limit && forall k :: k in seqs ==> k < s
    decreases if from < to then to - from else 0
  {
    if from >= to || limit == 0 then []
    else if Ready(outbox, from, now) then
      var rest := ReadySeqs(outbox, from + 1, to, now, limit - 1);
      [from] + rest
    else ReadySeqs(outbox, from + 1, to, now, limit)
  }

  /** `WHERE next_retry_at <= now ORDER BY seq ASC LIMIT limit` */
  function PeekBatch(t: Tables, now: int, limit: nat): seq<int> {
    ReadySeqs(t.outbox, 1, t.nextSeq, now, limit)
  }

  /** `DELETE FROM outbox WHERE seq = ?` */
  function DeleteSeq(t: Tables, seqNo: int): Tables {
    t.(outbox := t.outbox - {seqNo})
  }

  function DeleteSeqs(t: Tables, seqNos: set<int>): Tables {
    t.(outbox := t.outbox - seqNos)
  }

  function Elements(seqNos: seq<int>): set<int> {
    set s | s in seqNos
  }

  lemma DeleteOne(t: Tables, seqNo: int)
    ensures DeleteSeqs(t, Elements([seqNo])) == DeleteSeq(t, seqNo)
  {
    assert Elements([seqNo]) == {seqNo};
  }

  /** A failed push of the entry; nothing happens when it is gone. */
  function MarkRetry(t: Tables, seqNo: int, now: int, error: string): Tables {
    if seqNo in t.outbox then
      var e := t.outbox[seqNo];
      t.(outbox := t.outbox[seqNo := e.(retry := Mark(e.retry, now, error))])
    else t
  }

  /** `remove_outbox_for_record` */
  function RemoveOutboxFor(t: Tables, key: Key): Tables {
    t.(outbox := map s | s in t.outbox && t.outbox[s].key != key :: t.outbox[s])
  }

  // ── engine and sync-loop transactions ──────────────────────────────────────

  /** `handle_put`: the row and its outbox entry in one transaction. */
  function HandlePut(t: Tables, key: Key, payload: Payload, hlc: Stamp, now: int): Tables {
    Append(t.(records := UpsertRow(t.records, key, payload, hlc, now)), key, Upsert, hlc)
  }

  /** `handle_delete` */
  function HandleDelete(t: Tables, key: Key, hlc: Stamp, now: int): Tables {
    Append(t.(records := SoftDelete(t.records, key, hlc, now)), key, Delete, hlc)
  }

  /** `build_push_entry`: an upsert carries whatever the row holds now, and is dropped when the
      row cannot be found. */
  function BuildPushEntry(t: Tables, seqNo: int): Option<PushEntry>
    requires seqNo in t.outbox
  {
    var e := t.outbox[seqNo];
    if e.operation == Delete then Some(PushEntry(seqNo, e.key, e.operation, e.hlc, None))
    else
      match Get(t.records, e.key)
      case Some(row) => Some(PushEntry(seqNo, e.key, e.operation, e.hlc, Some(row.payload)))
      case None => None
  }

  /** `entries.iter().filter_map(build_push_entry)` */
  function BuildBatch(t: Tables, seqs: seq<int>): (batch: seq<PushEntry>)
    requires forall s :: s in seqs ==> s in t.outbox
    ensures |batch| <= |seqs|
    ensures forall e :: e in batch ==> e.seqNo in seqs && BuildPushEntry(t, e.seqNo) == Some(e)
    ensures forall s :: s in seqs && BuildPushEntry(t, s).Some? ==> BuildPushEntry(t, s).value in batch
  {
    if seqs == [] then []
    else
      var rest := BuildBatch(t, seqs[1..]);
      match BuildPushEntry(t, seqs[0])
      case Some(e) => [e] + rest
      case None => rest
  }

  const PUSH_BATCH: nat := 25

  /** The database read that opens a push cycle. */
  function ReadBatch(t: Tables, now: int): seq<PushEntry> {
    BuildBatch(t, PeekBatch(t, now, PUSH_BATCH))
  }

  /** `apply_remote_record`: a local row that is the same or newer stays; otherwise the remote
      record replaces it and the record's outbox entries go. */
  function ApplyRemote(t: Tables, r: RemoteRecord, now: int): Tables {
    var local := Get(t.records, r.key);
    if local.Some? && AtMost(r.hlc, local.value.hlc) then t
    else RemoveOutboxFor(t.(records := UpsertRemoteRow(t.records, r, now)), r.key)
  }

  // ── the remote store ───────────────────────────────────────────────────────

  /** `push_one` takes an entry only when it is strictly newer than what the store holds. */
  predicate Accepts(remote: Remote, e: PushEntry) {
    e.key !in remote || Before(remote[e.key].hlc, e.hlc)
  }

  function RecordOf(e: PushEntry): RemoteRecord {
    RemoteRecord(e.key, e.hlc, e.payload, e.operation == Delete)
  }

  function Pushed(remote: Remote, e: PushEntry): Remote {
    if Accepts(remote, e) then remote[e.key := RecordOf(e)] else remote
  }

  /** Above the checkpoint; without a checkpoint, everything is. */
  predicate After(checkpoint: Option<Stamp>, hlc: Stamp) {
    checkpoint.None? || Before(checkpoint.value, hlc)
  }

  /** `new_checkpoint` after a successfully applied record. */
  function Advance(checkpoint: Option<Stamp>, hlc: Stamp): Option<Stamp> {
    if After(checkpoint, hlc) then Some(hlc) else checkpoint
  }

  /** A result of `pull_since`: every record above the checkpoint exactly once, in HLC order. The
      order of equal HLCs is the hash map's and not fixed. */
  ghost predicate IsPull(remote: Remote, checkpoint: Option<Stamp>, results: seq<RemoteRecord>) {
    && (forall r :: r in results <==> r.key in remote && remote[r.key] == r && After(checkpoint, r.hlc))
    && (forall i, j :: 0 <= i < j < |results| ==> results[i] != results[j])
    && (forall i, j :: 0 <= i < j < |results| ==> AtMost(results[i].hlc, results[j].hlc))
  }

  // ── What the statements leave ──────────────────────────────────────────────

  /** After a put the row is live, in its collection, with what was put; only a new row is created now. */
  lemma PutRowExactly(records: Records, key: Key, payload: Payload, hlc: Stamp, now: int)
    ensures var after := UpsertRow(records, key, payload, hlc, now); var row := Get(after, key);
      && row.Some? && row.value.payload == payload && row.value.hlc == hlc && !row.value.deleted
      && row.value.updatedAt == now
      && row.value.createdAt == (if key.id in records then records[key.id].createdAt else now)
      && after - {key.id} == records - {key.id}
  {
  }

  /** A delete marks an existing row of that collection and keeps its payload and creation time. */
  lemma DeletedRowExactly(records: Records, key: Key, hlc: Stamp, now: int)
    ensures var was, after := Get(records, key), SoftDelete(records, key, hlc, now);
      && (was.None? ==> after == records)
      && (was.Some? ==>
            Get(after, key) == Some(Row(key.collection, was.value.payload, hlc, true, was.value.createdAt, now)))
      && after - {key.id} == records - {key.id}
  {
  }

  /** After a pull the row is the store's record; a tombstone leaves no payload behind. */
  lemma PulledRowExactly(records: Records, r: RemoteRecord, now: int)
    ensures var after := UpsertRemoteRow(records, r, now); var row := Get(after, r.key);
      && row.Some? && row.value.hlc == r.hlc && row.value.deleted == r.deleted && row.value.updatedAt == now
      && (r.payload.Some? ==> row.value.payload == r.payload.value)
      && (r.payload.None? ==> row.value.payload == Payload([], None, 0, 0))
      && row.value.createdAt == (if r.key.id in records then records[r.key.id].createdAt else now)
      && after - {r.key.id} == records - {r.key.id}
  {
  }

  /** A write queues one entry, under the next number, due at once and never failed. */
  lemma QueuedExactly(t: Tables, key: Key, payload: Payload, hlc: Stamp, now: int)
    ensures var put, erased := HandlePut(t, key, payload, hlc, now), HandleDelete(t, key, hlc, now);
      && put.outbox == t.outbox[t.nextSeq := OutboxEntry(key, Upsert, hlc, Retry(0, 0, None, []))]
      && erased.outbox == t.outbox[t.nextSeq := OutboxEntry(key, Delete, hlc, Retry(0, 0, None, []))]
      && put.nextSeq == erased.nextSeq == t.nextSeq + 1
      && put.checkpoint == erased.checkpoint == t.checkpoint
      && put.records == UpsertRow(t.records, key, payload, hlc, now)
      && erased.records == SoftDelete(t.records, key, hlc, now)
  {
  }
}
