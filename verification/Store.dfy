/** The in-memory record store of src/backend/in_memory.rs. */
module Store {
  import opened Base
  import opened Lex
  import opened Schema

  datatype PushResult =
    | Pushed(pushedSeqs: seq<int>)
    | ConflictAt(recordId: string, seqNo: int)
    | TransientError(error: string)

  /** A sorted pick from the store that covers exactly the keys of `seen`. */
  ghost predicate SortedPick(records: Remote, checkpoint: Option<Stamp>, seen: set<Key>, results: seq<RemoteRecord>) {
    && (forall r :: r in results <==>
         r.key in seen && r.key in records && records[r.key] == r && After(checkpoint, r.hlc))
    && (forall i, j :: 0 <= i < j < |results| ==> results[i] != results[j])
    && Sorted(results)
  }

  ghost predicate Sorted(results: seq<RemoteRecord>) {
    forall i, j :: 0 <= i < j < |results| ==> AtMost(results[i].hlc, results[j].hlc)
  }

  /** The first position whose record does not come before r. */
  method InsertionPoint(results: seq<RemoteRecord>, r: RemoteRecord) returns (p: nat)
    requires Sorted(results)
    ensures p <= |results|
    ensures forall i :: 0 <= i < p ==> AtMost(results[i].hlc, r.hlc)
    ensures forall i :: p <= i < |results| ==> AtMost(r.hlc, results[i].hlc)
  {
    p := 0;
    while p < |results| && Before(results[p].hlc, r.hlc)
      invariant p <= |results|
      invariant forall i :: 0 <= i < p ==> Before(results[i].hlc, r.hlc)
    {
      p := p + 1;
    }
    forall i | p <= i < |results| ensures AtMost(r.hlc, results[i].hlc) {
      if i > p { TotalOrder(); }
    }
    forall i | 0 <= i < p ensures AtMost(results[i].hlc, r.hlc) {
      Trichotomy(results[i].hlc, r.hlc);
    }
  }

  function Insert<T>(s: seq<T>, p: nat, x: T): seq<T>
    requires p <= |s|
  {
    s[..p] + [x] + s[p..]
  }

  lemma InsertedMembers<T>(s: seq<T>, p: nat, x: T)
    requires p <= |s|
    ensures forall y :: y in Insert(s, p, x) <==> y == x || y in s
  {
    forall y | y in s ensures y in Insert(s, p, x) {
      var i :| 0 <= i < |s| && s[i] == y;
      assert Insert(s, p, x)[if i < p then i else i + 1] == y;
    }
    assert Insert(s, p, x)[p] == x;
  }

  lemma InsertStaysSorted(s: seq<RemoteRecord>, p: nat, r: RemoteRecord)
    requires p <= |s| && Sorted(s) && r !in s
    requires forall i, j :: 0 <= i < j < |s| ==> s[i] != s[j]
    requires forall i :: 0 <= i < p ==> AtMost(s[i].hlc, r.hlc)
    requires forall i :: p <= i < |s| ==> AtMost(r.hlc, s[i].hlc)
    ensures Sorted(Insert(s, p, r))
    ensures forall i, j :: 0 <= i < j < |s| + 1 ==> Insert(s, p, r)[i] != Insert(s, p, r)[j]
  {
    var longer := Insert(s, p, r);
    forall i, j | 0 <= i < j < |longer|
      ensures longer[i] != longer[j] && AtMost(longer[i].hlc, longer[j].hlc)
    {
      if i == p {
        assert longer[j] == s[j - 1];
      } else if j == p {
        assert longer[i] == s[i];
      } else {
        assert longer[i] == s[if i < p then i else i - 1] && longer[j] == s[if j < p then j else j - 1];
      }
    }
  }

  /** Inserting the record of a new key in its place extends the pick by that key. */
  lemma InsertExtendsPick(records: Remote, checkpoint: Option<Stamp>, seen: set<Key>, results: seq<RemoteRecord>,
                          k: Key, p: nat)
    requires SortedPick(records, checkpoint, seen, results) && k in records && k !in seen && records[k].key == k
    requires After(checkpoint, records[k].hlc) && p <= |results|
    requires forall i :: 0 <= i < p ==> AtMost(results[i].hlc, records[k].hlc)
    requires forall i :: p <= i < |results| ==> AtMost(records[k].hlc, results[i].hlc)
    ensures SortedPick(records, checkpoint, seen + {k}, Insert(results, p, records[k]))
  {
    InsertedMembers(results, p, records[k]);
    InsertStaysSorted(results, p, records[k]);
  }

  class InMemoryStore {
    var records: Remote

    constructor ()
      ensures records == map[]
    {
      records := map[];
    }

    /** Takes the entry only when it is strictly newer than the stored record. */
    method PushOne(entry: PushEntry) returns (result: PushResult)
      modifies this
      ensures records == Schema.Pushed(old(records), entry)
      ensures result == if Accepts(old(records), entry) then Pushed([entry.seqNo])
                        else ConflictAt(entry.key.id, entry.seqNo)
      ensures result.Pushed? <==> entry.key !in old(records) || Before(old(records)[entry.key].hlc, entry.hlc)
      ensures result.ConflictAt? ==> records == old(records)
      ensures result.Pushed? ==> records == old(records)[entry.key :=
        RemoteRecord(entry.key, entry.hlc, entry.payload, entry.operation == Delete)]
    {
      if entry.key in records {
        var existing := records[entry.key];
        if AtMost(entry.hlc, existing.hlc) {
          return ConflictAt(entry.key.id, entry.seqNo);
        }
      }
      records := records[entry.key := RemoteRecord(entry.key, entry.hlc, entry.payload, entry.operation == Delete)];
      result := Pushed([entry.seqNo]);
    }

    /** All records above the checkpoint, once each, in HLC order. */
    method PullSince(checkpoint: Option<Stamp>) returns (results: seq<RemoteRecord>)
      requires forall k :: k in records ==> records[k].key == k
      ensures IsPull(records, checkpoint, results)
    {
      results := [];
      var rest := records.Keys;
      while rest != {}
        invariant rest <= records.Keys
        invariant SortedPick(records, checkpoint, records.Keys - rest, results)
        decreases |rest|
      {
        var k :| k in rest;
        rest := rest - {k};
        var r := records[k];
        if After(checkpoint, r.hlc) {
          var p := InsertionPoint(results, r);
          InsertExtendsPick(records, checkpoint, records.Keys - rest - {k}, results, k, p);
          results := Insert(results, p, r);
          assert records.Keys - rest == records.Keys - rest - {k} + {k};
        }
      }
    }
  }
}
