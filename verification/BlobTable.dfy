/** The `blobs` table and its statements (src/db/blobs.rs). */
module BlobTable {
  import opened Base
  import opened Retry

  datatype BlobStatus = Pending | Uploading | Uploaded | Cached | DownloadPending

  type UploadId = nat

  datatype BlobRow = BlobRow(s3Key: string, localPath: Option<string>, sizeBytes: Option<nat>,
                             uploadId: Option<UploadId>, status: BlobStatus, retry: Retry)

  type Blobs = map<string, BlobRow>

  function S3Key(id: string): string {
    "blobs/" + id
  }

  function Inserted(rows: Blobs, id: string): Blobs {
    rows[id := BlobRow(S3Key(id), None, None, None, Pending, NO_RETRY)]
  }

  // Each UPDATE names one id: no row, no change.

  function WithStatus(rows: Blobs, id: string, status: BlobStatus): Blobs {
    if id in rows then rows[id := rows[id].(status := status)] else rows
  }

  function WithLocalFile(rows: Blobs, id: string, path: string, size: nat): Blobs {
    if id in rows then rows[id := rows[id].(localPath := Some(path), sizeBytes := Some(size))] else rows
  }

  function WithUploadId(rows: Blobs, id: string, uploadId: UploadId): Blobs {
    if id in rows then rows[id := rows[id].(uploadId := Some(uploadId), status := Uploading)] else rows
  }

  /** Forgetting a session also forgets the failed attempts, but not the error log. */
  function WithoutUploadId(rows: Blobs, id: string): Blobs {
    if id in rows then
      var r := rows[id];
      rows[id := r.(uploadId := None, status := Pending, retry := r.retry.(retries := 0, nextRetryAt := 0))]
    else rows
  }

  function WithFailure(rows: Blobs, id: string, now: int, error: string): Blobs {
    if id in rows then rows[id := rows[id].(retry := Mark(rows[id].retry, now, error))] else rows
  }

  /** `register_for_download`: a new row, or an uploaded row sent back for download. */
  function Registered(rows: Blobs, id: string): Blobs {
    if id !in rows then rows[id := BlobRow(S3Key(id), None, None, None, DownloadPending, NO_RETRY)]
    else if rows[id].status == Uploaded then WithStatus(rows, id, DownloadPending)
    else rows
  }

  // ── What the statements leave ──────────────────────────────────────────────

  /** Every blob has an object of its own. */
  lemma S3KeysDiffer(a: string, b: string)
    ensures S3Key(a) == S3Key(b) <==> a == b
  {
    assert S3Key(a)[6..] == a && S3Key(b)[6..] == b;
  }

  /** A new row, put or registered, waits for its file and has never failed. */
  lemma NewRowExactly(rows: Blobs, id: string)
    ensures Inserted(rows, id) == rows[id := BlobRow("blobs/" + id, None, None, None, Pending, Retry(0, 0, None, []))]
    ensures id !in rows ==>
      Registered(rows, id) ==
        rows[id := BlobRow("blobs/" + id, None, None, None, DownloadPending, Retry(0, 0, None, []))]
    ensures id in rows && rows[id].status == Uploaded ==>
      Registered(rows, id) == rows[id := rows[id].(status := DownloadPending)]
    ensures id in rows && rows[id].status != Uploaded ==> Registered(rows, id) == rows
  {
  }

  /** A session goes into its row with the status, and out of it with the attempts but not the log. */
  lemma SessionExactly(rows: Blobs, id: string, uploadId: UploadId)
    requires id in rows
    ensures WithUploadId(rows, id, uploadId) == rows[id := rows[id].(uploadId := Some(uploadId), status := Uploading)]
    ensures var was, after := rows[id], WithoutUploadId(rows, id);
      && after == rows[id := was.(uploadId := None, status := Pending, retry := after[id].retry)]
      && after[id].retry == Retry(0, 0, was.retry.lastError, was.retry.log)
  {
  }

  /** A failure of a blob counts and delays like one of an outbox entry. */
  lemma FailedBlobExactly(rows: Blobs, id: string, now: int, error: string)
    requires id in rows && 0 <= rows[id].retry.retries < 0x1_0000_0000
    ensures var was, after := rows[id], WithFailure(rows, id, now, error);
      var log := was.retry.log + [Failure(now, error)];
      && after == rows[id := was.(retry := after[id].retry)]
      && after[id].retry.retries == was.retry.retries + 1
      && after[id].retry.nextRetryAt == now + Min(1000 * Pow2(was.retry.retries), 300_000)
      && after[id].retry.lastError == Some(error)
      && after[id].retry.log == log[if |log| <= 20 then 0 else |log| - 20..]
  {
    MarkExactly(rows[id].retry, now, error);
  }

  // ── What a caller is told ──────────────────────────────────────────────────

  /** The text in the `status` column. */
  function StatusText(status: BlobStatus): string {
    match status
    case Pending => "pending"
    case Uploading => "uploading"
    case Uploaded => "uploaded"
    case Cached => "cached"
    case DownloadPending => "download_pending"
  }

  /** `BlobStatus::from_db_str`, which knows four of the five. */
  function FromDbStr(s: string): Option<BlobStatus> {
    if s == "pending" then Some(Pending)
    else if s == "uploading" then Some(Uploading)
    else if s == "uploaded" then Some(Uploaded)
    else if s == "cached" then Some(Cached)
    else None
  }

  datatype BlobInfo = BlobInfo(status: BlobStatus, localPath: Option<string>, sizeBytes: Option<nat>,
                               retries: int, lastError: Option<string>)

  /** `handle_blob_info` */
  function HandleBlobInfo(rows: Blobs, id: string): Option<BlobInfo> {
    if id !in rows then None
    else
      var r := rows[id];
      var status := FromDbStr(StatusText(r.status)).GetOr(Pending);
      Some(BlobInfo(status, r.localPath, r.sizeBytes, r.retry.retries, r.retry.lastError))
  }

  /** A blob is reported under its own status, except that one registered for download is reported
      as pending. */
  lemma ReportedExactly(rows: Blobs, id: string)
    ensures HandleBlobInfo(rows, id).None? <==> id !in rows
    ensures id in rows && rows[id].status != DownloadPending ==>
      HandleBlobInfo(rows, id).value.status == rows[id].status
    ensures id in rows ==>
      (HandleBlobInfo(rows, id).value.status == Pending <==>
        rows[id].status == Pending || rows[id].status == DownloadPending)
    ensures id in rows ==>
      var info, r := HandleBlobInfo(rows, id).value, rows[id];
      && info.localPath == r.localPath && info.sizeBytes == r.sizeBytes
      && info.retries == r.retry.retries && info.lastError == r.retry.lastError
  {
    assert |StatusText(DownloadPending)| == 16;
  }

  class BlobTable {
    var rows: Blobs

    constructor ()
      ensures rows == map[]
    {
      rows := map[];
    }

    /** The rows of `handle_put_blob`: staging an id that is known already changes nothing. */
    method PutBlob(id: string)
      modifies this
      ensures rows == if id in old(rows) then old(rows) else Inserted(old(rows), id)
    {
      if id in rows {
        return;
      }
      rows := rows[id := BlobRow(S3Key(id), None, None, None, Pending, NO_RETRY)];
    }

    method RegisterForDownload(id: string)
      modifies this
      ensures rows == Registered(old(rows), id)
    {
      if id !in rows {
        rows := rows[id := BlobRow(S3Key(id), None, None, None, DownloadPending, NO_RETRY)];
      } else if rows[id].status == Uploaded {
        rows := rows[id := rows[id].(status := DownloadPending)];
      }
    }

    method SetLocalPathAndSize(id: string, path: string, size: nat)
      modifies this
      ensures rows == WithLocalFile(old(rows), id, path, size)
    {
      if id in rows {
        rows := rows[id := rows[id].(localPath := Some(path), sizeBytes := Some(size))];
      }
    }

    method SetStatus(id: string, status: BlobStatus)
      modifies this
      ensures rows == WithStatus(old(rows), id, status)
    {
      if id in rows {
        rows := rows[id := rows[id].(status := status)];
      }
    }

    method SetUploadId(id: string, uploadId: UploadId)
      modifies this
      ensures rows == WithUploadId(old(rows), id, uploadId)
    {
      if id in rows {
        rows := rows[id := rows[id].(uploadId := Some(uploadId), status := Uploading)];
      }
    }

    method ClearUploadId(id: string)
      modifies this
      ensures rows == WithoutUploadId(old(rows), id)
    {
      if id in rows {
        var r := rows[id];
        rows := rows[id := r.(uploadId := None, status := Pending, retry := r.retry.(retries := 0, nextRetryAt := 0))];
      }
    }

    method MarkRetry(id: string, now: int, error: string)
      modifies this
      ensures rows == WithFailure(old(rows), id, now, error)
    {
      if id in rows {
        var r := rows[id];
        var log := AppendToErrorLog(r.retry.log, now, error);
        rows := rows[id := r.(retry := Retry(r.retry.retries + 1, now + Backoff(r.retry.retries), Some(error), log))];
      }
    }
  }
}
