/** One device's SQLite database: the tables as fields, the statements of src/db/records.rs,
    src/db/outbox.rs and src/db/sync_state.rs as methods. */
module Database {
  import opened Base
  import opened Lex
  import opened Retry
  import opened Schema

  class Database {
    var records: Records
    var outbox: Outbox
    var nextSeq: int
    var checkpoint: Option<Stamp>

    /** The rows of all tables. */
    function View(): Tables
      reads this
    {
      Tables(records, outbox, nextSeq, checkpoint)
    }

    constructor ()
      ensures View() == EMPTY_TABLES
    {
      records, outbox, nextSeq, checkpoint := map[], map[], 1, None;
    }

    /** `records::upsert` */
    method Upsert(key: Key, payload: Payload, hlc: Stamp, now: int)
      modifies this`records
      ensures records == UpsertRow(old(records), key, payload, hlc, now)
    {
      var createdAt := now;
      if key.id in records {
        createdAt := records[key.id].createdAt;
      }
      records := records[key.id := Row(key.collection, payload, hlc, false, createdAt, now)];
    }

    /** `records::upsert_remote` */
    method UpsertRemote(r: RemoteRecord, now: int)
      modifies this`records
      ensures records == UpsertRemoteRow(old(records), r, now)
    {
      var createdAt := now;
      if r.key.id in records {
        createdAt := records[r.key.id].createdAt;
      }
      records := records[r.key.id :=
        Row(r.key.collection, r.payload.GetOr(EMPTY_PAYLOAD), r.hlc, r.deleted, createdAt, now)];
    }

    /** `records::soft_delete` */
    method MarkDeleted(key: Key, hlc: Stamp, now: int)
      modifies this`records
      ensures records == SoftDelete(old(records), key, hlc, now)
    {
      if key.id in records && records[key.id].collection == key.collection {
        records := records[key.id := records[key.id].(deleted := true, hlc := hlc, updatedAt := now)];
      }
    }

    /** `outbox::append` */
    method AppendOutbox(key: Key, operation: Operation, hlc: Stamp)
      modifies this`outbox, this`nextSeq
      ensures View() == Append(old(View()), key, operation, hlc)
    {
      outbox := outbox[nextSeq := OutboxEntry(key, operation, hlc, NO_RETRY)];
      nextSeq := nextSeq + 1;
    }

    /** `outbox::delete_seqs` */
    method DeleteSeqs(seqs: seq<int>)
      modifies this`outbox
      ensures View() == Schema.DeleteSeqs(old(View()), Elements(seqs))
    {
      outbox := outbox - Elements(seqs);
    }

    /** `outbox::mark_retry` */
    method MarkRetry(seqNo: int, now: int, error: string)
      modifies this`outbox
      ensures View() == Schema.MarkRetry(old(View()), seqNo, now, error)
    {
      if seqNo !in outbox {
        return;
      }
      var entry := outbox[seqNo];
      var newRetries := entry.retry.retries + 1;
      var backoffMs := Backoff(entry.retry.retries);
      var newLog := AppendToErrorLog(entry.retry.log, now, error);
      outbox := outbox[seqNo := entry.(retry := Retry(newRetries, now + backoffMs, Some(error), newLog))];
    }

    /** `apply_remote_record` of src/sync/mod.rs, in one transaction. */
    method ApplyRemoteRecord(r: RemoteRecord, now: int)
      modifies this`records, this`outbox
      ensures View() == ApplyRemote(old(View()), r, now)
    {
      var local := Get(records, r.key);
      if local.Some? && AtMost(r.hlc, local.value.hlc) {
        return;
      }
      UpsertRemote(r, now);
      outbox := map s | s in outbox && outbox[s].key != r.key :: outbox[s];
    }

    /** `sync_state::set_checkpoint` */
    method SetCheckpoint(hlc: Stamp)
      modifies this`checkpoint
      ensures View() == old(View()).(checkpoint := Some(hlc))
    {
      checkpoint := Some(hlc);
    }
  }
}
