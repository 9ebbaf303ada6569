/** Resumable multipart upload: the worker's loop (src/blob/worker.rs) over the object store of
    src/backend/in_memory.rs. */
module Multipart {
  import opened Base
  import opened BlobTable
  import opened Retry

  // ── Parts of a file ────────────────────────────────────────────────────────

  const MULTIPART_THRESHOLD: nat := 5 * 1024 * 1024
  const CHUNK_SIZE: nat := MULTIPART_THRESHOLD

  /** `as i32`: keep the low 32 bits, read as two's complement. */
  function AsI32(n: nat): int {
    var low := n % 0x1_0000_0000;
    if low < 0x8000_0000 then low else low - 0x1_0000_0000
  }

  /** ceil(size / CHUNK_SIZE) */
  function PartsNeeded(size: nat): nat {
    (size + CHUNK_SIZE - 1) / CHUNK_SIZE
  }

  /** The loop bound of the worker, after its cast. */
  function TotalParts(size: nat): int {
    AsI32(PartsNeeded(size))
  }

  /** The bytes of part n, counted from one. */
  function Chunk(file: Bytes, n: int): Bytes
    requires 1 <= n <= PartsNeeded(|file|)
  {
    PartStart(|file|, n);
    file[(n - 1) * CHUNK_SIZE..Min(n * CHUNK_SIZE, |file|)]
  }

  /** Every part starts inside the file, so `size_bytes - offset` never underflows. */
  lemma PartStart(size: nat, n: int)
    requires 1 <= n <= PartsNeeded(size)
    ensures 0 <= (n - 1) * CHUNK_SIZE < size
    ensures n < PartsNeeded(size) ==> n * CHUNK_SIZE < size
    ensures n == PartsNeeded(size) ==> size <= n * CHUNK_SIZE
  {
  }

  /** Every part but the last is 5 MiB, and the last is no larger and not empty. */
  lemma PartSizes(file: Bytes, n: int)
    requires 1 <= n <= PartsNeeded(|file|)
    ensures n < PartsNeeded(|file|) ==> |Chunk(file, n)| == 5_242_880
    ensures n == PartsNeeded(|file|) ==> 1 <= |Chunk(file, n)| <= 5_242_880
    ensures |file| == 5_242_880 * (PartsNeeded(|file|) - 1) + |Chunk(file, PartsNeeded(|file|))|
  {
    PartStart(|file|, n);
    PartStart(|file|, PartsNeeded(|file|));
  }

  /** What a completed upload of `total` parts stores. */
  function Leading(file: Bytes, total: int): Bytes {
    if total <= 0 then [] else file[..Min(total * CHUNK_SIZE, |file|)]
  }

  lemma LeadingExtends(file: Bytes, n: int)
    requires 1 <= n <= PartsNeeded(|file|)
    ensures Leading(file, n - 1) + Chunk(file, n) == Leading(file, n)
  {
    PartStart(|file|, n);
    if n > 1 { PartStart(|file|, n - 1); }
  }

  /** A completed upload stores the whole file exactly when the part count survives the cast to
      32 bits; every file up to (2^31 - 1) * 5 MiB, the empty one included, does. */
  lemma WholeFileExactly(file: Bytes)
    ensures TotalParts(|file|) <= PartsNeeded(|file|)
    ensures Leading(file, TotalParts(|file|)) == file <==> PartsNeeded(|file|) < 0x8000_0000
  {
    var needed, total := PartsNeeded(|file|), TotalParts(|file|);
    if needed < 0x8000_0000 {
      assert total == needed;
      if needed > 0 { PartStart(|file|, needed); }
    } else {
      assert total < needed && 0 < |file|;
      if total > 0 {
        PartStart(|file|, total);
        assert |Leading(file, total)| < |file|;
      }
    }
  }

  // ── The object store ───────────────────────────────────────────────────────

  datatype Session = Session(key: string, id: UploadId)

  type Parts = map<int, Bytes>

  predicate Ascending(parts: seq<int>) {
    forall i, j :: 0 <= i < j < |parts| ==> parts[i] < parts[j]
  }

  /** The listed parts that are pending, joined in the given order. */
  function Join(pending: Parts, parts: seq<int>): Bytes {
    if parts == [] then []
    else
      var last := parts[|parts| - 1];
      Join(pending, parts[..|parts| - 1]) + if last in pending then pending[last] else []
  }

  predicate Distinct(parts: seq<int>) {
    forall i, j :: 0 <= i < j < |parts| ==> parts[i] != parts[j]
  }

  /** `sort_by_key(|p| p.part_number)` */
  ghost predicate InOrder(parts: seq<int>, sorted: seq<int>) {
    multiset(sorted) == multiset(parts) && forall i, j :: 0 <= i < j < |sorted| ==> sorted[i] <= sorted[j]
  }

  lemma InsertKeepsOrder(parts: seq<int>, sorted: seq<int>, k: nat, x: int)
    requires InOrder(parts, sorted) && k <= |sorted|
    requires forall j :: 0 <= j < k ==> sorted[j] <= x
    requires k < |sorted| ==> x < sorted[k]
    ensures InOrder(parts + [x], sorted[..k] + [x] + sorted[k..])
  {
    InsertCounts(sorted, k, x);
    assert multiset(parts + [x]) == multiset(parts) + multiset{x};
    InsertAscends(sorted, k, x);
  }

  lemma InsertCounts<T>(s: seq<T>, k: nat, x: T)
    requires k <= |s|
    ensures multiset(s[..k] + [x] + s[k..]) == multiset(s) + multiset{x}
  {
    assert s == s[..k] + s[k..];
  }

  lemma InsertAscends(s: seq<int>, k: nat, x: int)
    requires forall i, j :: 0 <= i < j < |s| ==> s[i] <= s[j]
    requires k <= |s| && forall j :: 0 <= j < k ==> s[j] <= x
    requires k < |s| ==> x < s[k]
    ensures var t := s[..k] + [x] + s[k..]; forall i, j :: 0 <= i < j < |t| ==> t[i] <= t[j]
  {
  }

  method SortParts(parts: seq<int>) returns (sorted: seq<int>)
    ensures InOrder(parts, sorted)
  {
    sorted := [];
    for i := 0 to |parts|
      invariant InOrder(parts[..i], sorted)
    {
      var k := 0;
      while k < |sorted| && sorted[k] <= parts[i]
        invariant k <= |sorted|
        invariant forall j :: 0 <= j < k ==> sorted[j] <= parts[i]
      {
        k := k + 1;
      }
      InsertKeepsOrder(parts[..i], sorted, k, parts[i]);
      sorted := sorted[..k] + [parts[i]] + sorted[k..];
      assert parts[..i + 1] == parts[..i] + [parts[i]];
    }
    assert parts[..|parts|] == parts;
  }

  lemma {:induction false} DistinctCounts(parts: seq<int>, v: int)
    requires Distinct(parts)
    ensures multiset(parts)[v] <= 1
  {
    if parts != [] {
      var last := |parts| - 1;
      DistinctCounts(parts[..last], v);
      assert parts == parts[..last] + [parts[last]];
      assert parts[last] !in multiset(parts[..last]);
    }
  }

  /** Two occurrences count twice. */
  lemma CountsTwice<T>(s: seq<T>, i: nat, j: nat)
    requires i < j < |s| && s[i] == s[j]
    ensures multiset(s)[s[i]] >= 2
  {
    assert s == s[..j] + s[j..];
    assert s[..j][i] in multiset(s[..j]) && s[j..][0] in multiset(s[j..]);
  }

  /** Distinct parts sort strictly, and none is gained or lost. */
  lemma DistinctSort(parts: seq<int>, sorted: seq<int>)
    requires Distinct(parts) && InOrder(parts, sorted)
    ensures Ascending(sorted) && forall p :: p in sorted <==> p in parts
  {
    assert forall p :: p in sorted <==> p in multiset(sorted);
    assert forall p :: p in parts <==> p in multiset(parts);
    forall i, j | 0 <= i < j < |sorted| ensures sorted[i] < sorted[j] {
      DistinctCounts(parts, sorted[i]);
      if sorted[i] == sorted[j] { CountsTwice(sorted, i, j); }
    }
  }

  class InMemoryBlobStore {
    var objects: map<string, Bytes>
    var pendingParts: map<Session, Parts>
    var nextUploadId: nat

    constructor ()
      ensures objects == map[] && pendingParts == map[] && nextUploadId == 1
    {
      objects, pendingParts, nextUploadId := map[], map[], 1;
    }

    function PartsOf(s: Session): Parts
      reads this
    {
      if s in pendingParts then pendingParts[s] else map[]
    }

    method PutObject(key: string, data: Bytes)
      modifies this`objects
      ensures objects == old(objects)[key := data]
    {
      objects := objects[key := data];
    }

    method CreateMultipartUpload() returns (id: UploadId)
      modifies this`nextUploadId
      ensures id == old(nextUploadId) && nextUploadId == id + 1
    {
      id := nextUploadId;
      nextUploadId := nextUploadId + 1;
    }

    method UploadPart(s: Session, part: int, data: Bytes)
      modifies this`pendingParts
      ensures pendingParts == old(pendingParts)[s := old(PartsOf(s))[part := data]]
    {
      pendingParts := pendingParts[s := PartsOf(s)[part := data]];
    }

    /** Joins the listed parts in order into the object and closes the session. */
    method CompleteMultipartUpload(s: Session, parts: seq<int>)
      modifies this`objects, this`pendingParts
      ensures pendingParts == old(pendingParts) - {s}
      ensures exists sorted :: InOrder(parts, sorted) && objects == old(objects)[s.key := Join(old(PartsOf(s)), sorted)]
    {
      var pending := PartsOf(s);
      pendingParts := pendingParts - {s};
      var data := [];
      var sorted := SortParts(parts);
      for i := 0 to |sorted|
        invariant data == Join(pending, sorted[..i])
      {
        assert sorted[..i + 1][..i] == sorted[..i];
        if sorted[i] in pending {
          data := data + pending[sorted[i]];
        }
      }
      assert sorted[..|sorted|] == sorted;
      objects := objects[s.key := data];
    }
  }

  // ── The worker ─────────────────────────────────────────────────────────────

  datatype Net = Works | RequestLost | ReplyLost

  /** What one attempt meets: the network's answer to each call, which of the parts already uploaded
      the listing shows, and whether the statements on the blob's row succeed. */
  datatype Conditions = Conditions(create: Net, listing: bool, visible: set<int>, parts: map<int, Net>, complete: Net,
                                   stored: bool)

  /** Every part waiting is that part of the file. */
  ghost predicate PartsGood(parts: Parts, file: Bytes) {
    forall n :: n in parts ==> 1 <= n <= TotalParts(|file|) && n <= PartsNeeded(|file|) && parts[n] == Chunk(file, n)
  }

  /** That holds in every session of the key. */
  ghost predicate SessionsGood(pending: map<Session, Parts>, key: string, file: Bytes) {
    forall s :: s in pending && s.key == key ==> PartsGood(pending[s], file)
  }

  /** The sessions of all other keys. */
  function OtherKeys(pending: map<Session, Parts>, key: string): map<Session, Parts> {
    map s | s in pending && s.key != key :: pending[s]
  }

  /** When one session of a key changed and is good, all of the key are. */
  lemma OneSessionChanged(pending: map<Session, Parts>, pending': map<Session, Parts>, s: Session, file: Bytes)
    requires SessionsGood(pending, s.key, file) && pending' - {s} == pending - {s}
    requires s in pending' ==> PartsGood(pending'[s], file)
    ensures SessionsGood(pending', s.key, file)
    ensures OtherKeys(pending', s.key) == OtherKeys(pending, s.key)
  {
    forall x | x in pending' && x != s ensures x in pending && pending'[x] == pending[x] {
      assert x in pending' - {s} && x in pending - {s};
    }
    forall x | x in pending && x != s ensures x in pending' && pending'[x] == pending[x] {
      assert x in pending - {s} && x in pending' - {s};
    }
  }

  /** Parts 1..n of the file, joined, are its leading bytes. */
  lemma {:induction false} JoinIsLeading(pending: Parts, file: Bytes, sorted: seq<int>, n: nat)
    requires n <= PartsNeeded(|file|) && Ascending(sorted)
    requires forall p :: p in sorted <==> 1 <= p <= n
    requires forall p :: 1 <= p <= n ==> p in pending && pending[p] == Chunk(file, p)
    ensures Join(pending, sorted) == Leading(file, n)
  {
    if n == 0 {
      if sorted != [] { HasMember(sorted); }
    } else {
      GreatestIsLast(sorted, n);
      JoinIsLeading(pending, file, sorted[..|sorted| - 1], n - 1);
      LeadingExtends(file, n);
    }
  }

  /** Of the numbers 1..n in ascending order, n is the last and the others come before it. */
  lemma GreatestIsLast(sorted: seq<int>, n: nat)
    requires n > 0 && Ascending(sorted) && forall p :: p in sorted <==> 1 <= p <= n
    ensures sorted != [] && sorted[|sorted| - 1] == n
    ensures var front := sorted[..|sorted| - 1]; Ascending(front) && forall p :: p in front <==> 1 <= p <= n - 1
  {
    assert n in sorted;
    var last := |sorted| - 1;
    assert sorted[last] in sorted;
    var i :| 0 <= i < |sorted| && sorted[i] == n;
    var front := sorted[..last];
    assert sorted == front + [n];
    forall p ensures p in front <==> 1 <= p <= n - 1 {
      assert p in sorted <==> p in front || p == n;
    }
  }

  /** The parts to complete with: each of 1..n once, all pending with the file's bytes. */
  ghost predicate Complete(pending: Parts, file: Bytes, parts: seq<int>, n: int) {
    && Distinct(parts)
    && (forall p :: p in parts <==> 1 <= p <= n)
    && (forall p :: 1 <= p <= n ==> p <= PartsNeeded(|file|) && p in pending && pending[p] == Chunk(file, p))
  }

  /** Any element, as a hash map would iterate. */
  method Pick<T>(s: set<T>) returns (x: T)
    requires s != {}
    ensures x in s
  {
    x :| x in s;
  }

  /** `list_parts`: the pending part numbers that the listing shows, in order. */
  method ListParts(pending: Parts, visible: set<int>) returns (parts: seq<int>)
    ensures Ascending(parts)
    ensures forall p :: p in parts <==> p in pending && p in visible
    ensures parts == [] <==> forall p :: p in pending ==> p !in visible
  {
    var listed := [];
    var rest := pending.Keys * visible;
    while rest != {}
      invariant rest <= pending.Keys * visible && Distinct(listed)
      invariant forall p :: p in listed <==> p in pending && p in visible && p !in rest
      decreases |rest|
    {
      var p := Pick(rest);
      rest := rest - {p};
      listed := listed + [p];
    }
    parts := SortParts(listed);
    DistinctSort(listed, parts);
    if parts != [] { HasMember(parts); }
  }

  /** The row knows a session and the listing shows none of its parts. */
  predicate Expired(blob: BlobRow, pending: map<Session, Parts>, c: Conditions)
    requires blob.uploadId.Some?
  {
    var s := Session(blob.s3Key, blob.uploadId.value);
    s in pending ==> forall p :: p in pending[s] ==> p !in c.visible
  }

  /** An attempt on a large file drops an expired session and opens one where there is none. */
  predicate DropsSession(blob: BlobRow, pending: map<Session, Parts>, file: Bytes, c: Conditions) {
    |file| >= 5_242_880 && blob.uploadId.Some? && c.listing && Expired(blob, pending, c)
  }

  predicate OpensSession(blob: BlobRow, file: Bytes, c: Conditions) {
    |file| >= 5_242_880 && blob.uploadId.None? && c.create.Works?
  }

  predicate NothingFails(c: Conditions) {
    c.create.Works? && c.listing && c.complete.Works? && c.stored && forall p :: p in c.parts ==> c.parts[p].Works?
  }

  /** The sessions that expire before the first n attempts. */
  function ExpiredBy(attempts: seq<(set<Session>, Conditions)>, n: nat): set<Session>
    requires n <= |attempts|
  {
    if n == 0 then {} else ExpiredBy(attempts, n - 1) + attempts[n - 1].0
  }

  lemma ExpireOthers(pending: map<Session, Parts>, key: string, expired: set<Session>)
    ensures OtherKeys(pending - expired, key) == OtherKeys(pending, key) - expired
  {
  }

  /** The numbers up to n that are not among the listed ones. */
  function Missing(listed: seq<int>, n: nat): seq<int> {
    if n == 0 then [] else Missing(listed, n - 1) + if n in listed then [] else [n]
  }

  /** Each of them once, in order, and no other: what was uploaded before an interruption and is still
      listed is not sent again. */
  lemma {:induction false} MissingExactly(listed: seq<int>, n: nat)
    ensures Ascending(Missing(listed, n)) && forall p :: p in Missing(listed, n) <==> 1 <= p <= n && p !in listed
  {
    if n > 0 {
      MissingExactly(listed, n - 1);
      var before := Missing(listed, n - 1);
      forall i | 0 <= i < |before| ensures before[i] < n { assert before[i] in before; }
    }
  }

  class BlobWorker {
    const table: BlobTable
    const backend: InMemoryBlobStore

    constructor (table: BlobTable, backend: InMemoryBlobStore)
      ensures this.table == table && this.backend == backend
    {
      this.table, this.backend := table, backend;
    }

    /** The part loop: upload every part the listing did not show, in order, each once, and no other. */
    method UploadMissingParts(s: Session, file: Bytes, remoteParts: seq<int>, c: Conditions)
      returns (ok: bool, allParts: seq<int>, ghost sent: seq<int>, ghost reached: nat)
      requires SessionsGood(backend.pendingParts, s.key, file)
      requires Distinct(remoteParts) && forall p :: p in remoteParts ==> p in backend.PartsOf(s)
      modifies backend`pendingParts
      ensures PartsGood(backend.PartsOf(s), file)
      ensures backend.pendingParts - {s} == old(backend.pendingParts) - {s}
      ensures ok ==> Complete(backend.PartsOf(s), file, allParts, TotalParts(|file|))
      ensures (forall p :: p in c.parts ==> c.parts[p].Works?) ==> ok
      ensures sent == Missing(remoteParts, reached) && reached <= Max(0, TotalParts(|file|))
      ensures ok ==> reached == Max(0, TotalParts(|file|))
    {
      var sizeBytes := |file|;
      var totalParts := TotalParts(sizeBytes);
      WholeFileExactly(file);
      allParts, sent, reached := remoteParts, [], 0;
      var part := 1;
      while part <= totalParts
        invariant 1 <= part && (part <= totalParts + 1 || part == 1)
        invariant PartsGood(backend.PartsOf(s), file)
        invariant backend.pendingParts - {s} == old(backend.pendingParts) - {s}
        invariant Distinct(allParts)
        invariant forall p :: p in allParts <==> p in remoteParts || 1 <= p < part
        invariant forall p :: p in allParts ==> p in backend.PartsOf(s)
        invariant reached == part - 1 && sent == Missing(remoteParts, reached)
        decreases totalParts - part
      {
        if part in remoteParts {
          reached, part := part, part + 1;
          continue;
        }
        var net := if part in c.parts then c.parts[part] else Works;
        var uploaded := SendPart(s, file, part, net);
        if !net.RequestLost? { sent, reached := sent + [part], part; }
        if !uploaded { return false, [], sent, reached; }
        allParts := allParts + [part];
        part := part + 1;
      }
      ok := true;
    }

    /** Read one part and send it; the request or the reply may be lost. */
    method SendPart(s: Session, file: Bytes, part: int, net: Net) returns (ok: bool)
      requires 1 <= part <= PartsNeeded(|file|)
      modifies backend`pendingParts
      ensures net.RequestLost? ==> backend.pendingParts == old(backend.pendingParts)
      ensures !net.RequestLost? ==>
        backend.pendingParts == old(backend.pendingParts)[s := old(backend.PartsOf(s))[part := Chunk(file, part)]]
      ensures ok <==> net.Works?
      ensures backend.pendingParts - {s} == old(backend.pendingParts) - {s}
      ensures backend.PartsOf(s) ==
        if net.RequestLost? then old(backend.PartsOf(s)) else old(backend.PartsOf(s))[part := Chunk(file, part)]
    {
      var chunk := ReadChunk(file, part);
      if net.RequestLost? { return false; }
      backend.UploadPart(s, part, chunk);
      ok := net.Works?;
    }

    /** Seek to the part's offset and read it; the subtraction cannot underflow. */
    method ReadChunk(file: Bytes, part: int) returns (chunk: Bytes)
      requires 1 <= part <= PartsNeeded(|file|)
      ensures chunk == Chunk(file, part)
    {
      var sizeBytes := |file|;
      var offset := (part - 1) * CHUNK_SIZE;
      PartStart(sizeBytes, part);
      var remaining: nat := sizeBytes - offset;
      var chunkLen := Min(remaining, CHUNK_SIZE);
      chunk := file[offset..offset + chunkLen];
    }

    /** `upload_multipart`: resume or open the session, upload the missing parts, complete.
        Whatever fails on the way, waiting parts stay parts of the file; success, and a completion
        whose reply is lost, store exactly the leading TotalParts parts. */
    method UploadMultipart(id: string, blob: BlobRow, file: Bytes, c: Conditions) returns (ok: bool)
      requires SessionsGood(backend.pendingParts, blob.s3Key, file)
      modifies table, backend
      ensures SessionsGood(backend.pendingParts, blob.s3Key, file)
      ensures OtherKeys(backend.pendingParts, blob.s3Key) == OtherKeys(old(backend.pendingParts), blob.s3Key)
      ensures ok ==> backend.objects == old(backend.objects)[blob.s3Key := Leading(file, TotalParts(|file|))]
      ensures backend.objects == old(backend.objects) ||
        backend.objects == old(backend.objects)[blob.s3Key := Leading(file, TotalParts(|file|))]
      ensures blob.uploadId.None? ==>
        table.rows == if c.create.Works? && c.stored
                      then WithUploadId(old(table.rows), id, old(backend.nextUploadId)) else old(table.rows)
      ensures blob.uploadId.Some? ==>
        table.rows == if c.listing && c.stored && Expired(blob, old(backend.pendingParts), c)
                      then WithoutUploadId(old(table.rows), id) else old(table.rows)
      ensures backend.nextUploadId == old(backend.nextUploadId) +
        if blob.uploadId.None? && !c.create.RequestLost? then 1 else 0
      ensures ok ==> !(blob.uploadId.Some? && Expired(blob, old(backend.pendingParts), c))
      ensures !(blob.uploadId.Some? && Expired(blob, old(backend.pendingParts), c)) && NothingFails(c) ==> ok
    {
      var uploadId;
      if blob.uploadId.Some? {
        uploadId := blob.uploadId.value;
      } else {
        if c.create.RequestLost? { return false; }
        uploadId := backend.CreateMultipartUpload();
        if c.create.ReplyLost? { return false; }
        if c.stored { table.SetUploadId(id, uploadId); }
      }
      var s := Session(blob.s3Key, uploadId);

      if !c.listing { return false; }
      var remoteParts := ListParts(backend.PartsOf(s), c.visible);
      if |remoteParts| == 0 && blob.uploadId.Some? {
        if c.stored { table.ClearUploadId(id); }
        return false;
      }

      var uploaded, allParts, _, _ := UploadMissingParts(s, file, remoteParts, c);
      OneSessionChanged(old(backend.pendingParts), backend.pendingParts, s, file);
      if !uploaded || c.complete.RequestLost? { return false; }

      CompleteUpload(s, file, allParts);
      ok := !c.complete.ReplyLost?;
    }

    /** The last call: with every part at hand, the object becomes the leading parts of the file. */
    method CompleteUpload(s: Session, file: Bytes, allParts: seq<int>)
      requires Complete(backend.PartsOf(s), file, allParts, TotalParts(|file|))
      modifies backend`objects, backend`pendingParts
      ensures backend.pendingParts == old(backend.pendingParts) - {s}
      ensures backend.objects == old(backend.objects)[s.key := Leading(file, TotalParts(|file|))]
    {
      ghost var pending := backend.PartsOf(s);
      backend.CompleteMultipartUpload(s, allParts);
      ghost var sorted :|
        InOrder(allParts, sorted) && backend.objects == old(backend.objects)[s.key := Join(pending, sorted)];
      WholeFileExactly(file);
      DistinctSort(allParts, sorted);
      JoinIsLeading(pending, file, sorted, Max(0, TotalParts(|file|)));
    }

    /** `upload_blob`: a file below 5 MiB in one piece, any other in parts; then the status or the
        failure goes into the row, when that statement succeeds. */
    method UploadBlob(id: string, file: Bytes, c: Conditions, now: int) returns (done: bool)
      requires id in table.rows && SessionsGood(backend.pendingParts, table.rows[id].s3Key, file)
      modifies table, backend
      ensures id in table.rows && table.rows[id].s3Key == old(table.rows[id].s3Key)
      ensures SessionsGood(backend.pendingParts, table.rows[id].s3Key, file)
      ensures OtherKeys(backend.pendingParts, table.rows[id].s3Key) ==
        OtherKeys(old(backend.pendingParts), table.rows[id].s3Key)
      ensures backend.objects == old(backend.objects) ||
        backend.objects == old(backend.objects)[table.rows[id].s3Key := Leading(file, TotalParts(|file|))]
      ensures done ==> table.rows[id].status == Uploaded && table.rows[id].s3Key in backend.objects
      ensures done ==> backend.objects[table.rows[id].s3Key] == Leading(file, TotalParts(|file|))
      ensures table.rows - {id} == old(table.rows) - {id}
      ensures NothingFails(c) && !done ==> table.rows[id].uploadId.None?
      ensures NothingFails(c) && old(table.rows[id].uploadId.None?) ==> done
      ensures |file| < 5_242_880 ==> backend.pendingParts == old(backend.pendingParts)
      ensures backend.nextUploadId == old(backend.nextUploadId) +
        if |file| >= 5_242_880 && old(table.rows[id].uploadId.None?) && !c.create.RequestLost? then 1 else 0
      ensures !c.stored ==> table.rows == old(table.rows)
      ensures !done && c.stored ==>
        var was, now' := old(table.rows[id]), table.rows[id];
        var dropped := DropsSession(was, old(backend.pendingParts), file, c);
        && now'.status == (if dropped then Pending else if OpensSession(was, file, c) then Uploading else was.status)
        && now'.retry ==
             Mark(if dropped then was.retry.(retries := 0, nextRetryAt := 0) else was.retry, now, "upload failed")
    {
      var ok;
      if |file| < MULTIPART_THRESHOLD {
        WholeFileExactly(file);
        ok := UploadSingle(table.rows[id].s3Key, file, c.complete);
      } else {
        ok := UploadMultipart(id, table.rows[id], file, c);
      }
      if c.stored {
        if ok {
          table.SetStatus(id, Uploaded);
        } else {
          table.MarkRetry(id, now, "upload failed");
        }
      }
      done := ok && c.stored;
    }

    /** `upload_single` */
    method UploadSingle(key: string, file: Bytes, net: Net) returns (ok: bool)
      modifies backend`objects
      ensures backend.objects == if net.RequestLost? then old(backend.objects) else old(backend.objects)[key := file]
      ensures ok <==> net.Works?
    {
      if net.RequestLost? { return false; }
      backend.PutObject(key, file);
      ok := net.Works?;
    }

    /** Upload cycles of one blob until one succeeds: before each attempt sessions may expire, and
        each attempt may be cut short anywhere. If one succeeds, the store holds the leading
        TotalParts parts, and so exactly the file if and only if its part count fits in 31 bits; and
        two attempts in a row that nothing disturbs are enough, one to find the session expired and
        one to start over. The rows, objects and sessions of other blobs stay as they were, but for
        the sessions that expire. */
    method UploadUntilDone(id: string, file: Bytes, attempts: seq<(set<Session>, Conditions)>,
                           now: int) returns (done: bool)
      requires id in table.rows
      requires SessionsGood(backend.pendingParts, table.rows[id].s3Key, file)
      modifies table, backend
      ensures id in table.rows && table.rows[id].s3Key == old(table.rows[id].s3Key)
      ensures done ==> table.rows[id].status == Uploaded && table.rows[id].s3Key in backend.objects
      ensures done ==> (backend.objects[table.rows[id].s3Key] == file <==> PartsNeeded(|file|) < 0x8000_0000)
      ensures !done ==> forall k :: 0 <= k < |attempts| - 1 ==>
        !(NothingFails(attempts[k].1) && NothingFails(attempts[k + 1].1))
      ensures SessionsGood(backend.pendingParts, table.rows[id].s3Key, file)
      ensures table.rows - {id} == old(table.rows) - {id}
      ensures backend.objects - {table.rows[id].s3Key} == old(backend.objects) - {table.rows[id].s3Key}
      ensures var key := table.rows[id].s3Key;
        exists n :: 0 <= n <= |attempts| &&
          OtherKeys(backend.pendingParts, key) == OtherKeys(old(backend.pendingParts), key) - ExpiredBy(attempts, n)
    {
      done := false;
      WholeFileExactly(file);
      ghost var key := table.rows[id].s3Key;
      var i := 0;
      while i < |attempts| && !done
        invariant 0 <= i <= |attempts|
        invariant id in table.rows && table.rows[id].s3Key == key
        invariant SessionsGood(backend.pendingParts, key, file)
        invariant done ==> table.rows[id].status == Uploaded && key in backend.objects
        invariant done ==> backend.objects[key] == Leading(file, TotalParts(|file|))
        invariant i > 0 && !done && NothingFails(attempts[i - 1].1) ==> table.rows[id].uploadId.None?
        invariant !done ==> forall k :: 0 <= k < i - 1 ==>
          !(NothingFails(attempts[k].1) && NothingFails(attempts[k + 1].1))
        invariant table.rows - {id} == old(table.rows) - {id}
        invariant backend.objects - {key} == old(backend.objects) - {key}
        invariant OtherKeys(backend.pendingParts, key) ==
          OtherKeys(old(backend.pendingParts), key) - ExpiredBy(attempts, i)
      {
        ghost var others := OtherKeys(backend.pendingParts, key);
        ExpireOthers(backend.pendingParts, key, attempts[i].0);
        backend.pendingParts := backend.pendingParts - attempts[i].0;
        done := UploadBlob(id, file, attempts[i].1, now);
        assert others - attempts[i].0 == OtherKeys(old(backend.pendingParts), key) - ExpiredBy(attempts, i + 1);
        i := i + 1;
      }
    }
  }
}
