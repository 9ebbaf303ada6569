/** The engine's record handlers (src/engine.rs): each write ticks the clock, seals the payload and
    queues the push in one transaction; a read opens what any device sealed. The index upkeep of the
    same handlers is in module Index. */
module Engine {
  import opened Base
  import opened Schema
  import opened Protocol
  import opened Agreement
  import opened Payloads
  import Hlc
  import Database

  datatype ItemEncryption = Default | Enabled | Disabled

  /** Envelope encryption, its randomness an argument: encrypt(kek, data, random) yields the
      ciphertext and the wrapped key, decrypt(kek, ciphertext, wrapped key) the data. */
  datatype Cipher = Cipher(encrypt: (Bytes, Bytes, Bytes) -> (Bytes, Bytes),
                           decrypt: (Bytes, Bytes, Bytes) -> Option<Bytes>)

  ghost predicate Sound(c: Cipher) {
    forall kek, data, random ::
      c.decrypt(kek, c.encrypt(kek, data, random).0, c.encrypt(kek, data, random).1) == Some(data)
  }

  /** `maybe_encrypt` */
  function MaybeEncrypt(c: Cipher, kek: Option<Bytes>, data: Bytes, enc: ItemEncryption, schemaVersion: nat,
                        random: Bytes): Outcome<Payload> {
    var should := match enc case Default => kek.Some? case Enabled => true case Disabled => false;
    if !should then Ok(Payload(data, None, schemaVersion, 0))
    else if kek.None? then Err("ItemEncryption::Enabled requires a KEK")
    else
      var (sealedData, wrapped) := c.encrypt(kek.value, data, random);
      Ok(Payload(sealedData, Some(wrapped), schemaVersion, 1))
  }

  /** `maybe_decrypt`, the payload bytes of a row */
  function MaybeDecrypt(c: Cipher, kek: Option<Bytes>, p: Payload): Outcome<Bytes> {
    if p.formatVersion != 1 then Ok(p.data)
    else if kek.None? then Err("record is encrypted but no KEK is configured")
    else if p.dek.None? then Err("format_version=1 but dek_encrypted is NULL")
    else
      match c.decrypt(kek.value, p.data, p.dek.value)
      case Some(data) => Ok(data)
      case None => Err("decryption failed")
  }

  /** `handle_get`: nothing for a missing or deleted record. */
  function HandleGet(c: Cipher, kek: Option<Bytes>, t: Tables, key: Key): Outcome<Option<Bytes>> {
    var row := Get(t.records, key);
    if row.None? || row.value.deleted then Ok(None)
    else
      match MaybeDecrypt(c, kek, row.value.payload)
      case Ok(data) => Ok(Some(data))
      case Err(error) => Err(error)
  }

  class Engine {
    const db: Database.Database
    const cipher: Cipher
    const kek: Option<Bytes>
    var lastHlc: Hlc.Hlc

    constructor (db: Database.Database, cipher: Cipher, kek: Option<Bytes>, lastHlc: Hlc.Hlc)
      ensures this.db == db && this.cipher == cipher && this.kek == kek && this.lastHlc == lastHlc
    {
      this.db, this.cipher, this.kek, this.lastHlc := db, cipher, kek, lastHlc;
    }

    /** `handle_put`. Under a KEK a put is encrypted unless it opts out; without one it is stored as it
        is, and one that insists on encryption fails and moves neither clock nor tables. */
    method HandlePut(key: Key, data: Bytes, enc: ItemEncryption, schemaVersion: Option<nat>, random: Bytes,
                     wallMs: Hlc.u64, now: int) returns (r: Outcome<string>)
      modifies this`lastHlc, db
      ensures r.Err? <==> enc == Enabled && kek.None?
      ensures r.Err? ==> lastHlc == old(lastHlc) && db.View() == old(db.View())
      ensures r.Ok? ==> r == Ok(key.id) && lastHlc == Hlc.Tick(old(lastHlc), wallMs) && key.id in db.records
      ensures r.Ok? && kek.Some? && enc != Disabled ==>
        var c := cipher.encrypt(kek.value, data, random);
        db.records[key.id].payload == Payload(c.0, Some(c.1), schemaVersion.GetOr(0), 1)
      ensures r.Ok? && !(kek.Some? && enc != Disabled) ==>
        db.records[key.id].payload == Payload(data, None, schemaVersion.GetOr(0), 0)
      ensures r.Ok? ==>
        db.View() == Schema.HandlePut(old(db.View()), key, db.records[key.id].payload, Hlc.ToString(lastHlc), now)
    {
      var hlc := Hlc.Tick(lastHlc, wallMs);
      var sealed := MaybeEncrypt(cipher, kek, data, enc, schemaVersion.GetOr(0), random);
      if sealed.Err? {
        return Err(sealed.error);
      }
      db.Upsert(key, sealed.value, Hlc.ToString(hlc), now);
      db.AppendOutbox(key, Upsert, Hlc.ToString(hlc));
      lastHlc := hlc;
      r := Ok(key.id);
    }

    /** `handle_delete` */
    method HandleDelete(key: Key, wallMs: Hlc.u64, now: int)
      modifies this`lastHlc, db
      ensures lastHlc == Hlc.Tick(old(lastHlc), wallMs)
      ensures db.View() == Schema.HandleDelete(old(db.View()), key, Hlc.ToString(lastHlc), now)
    {
      var hlc := Hlc.Tick(lastHlc, wallMs);
      db.MarkDeleted(key, Hlc.ToString(hlc), now);
      db.AppendOutbox(key, Delete, Hlc.ToString(hlc));
      lastHlc := hlc;
    }
  }

  // ── What is stored ─────────────────────────────────────────────────────────

  /** A put fails exactly when it insists on encryption and there is no KEK; otherwise it is encrypted
      exactly when there is one and it does not opt out. */
  lemma SealsExactly(c: Cipher, kek: Option<Bytes>, data: Bytes, enc: ItemEncryption, schemaVersion: nat, random: Bytes)
    ensures var sealed := MaybeEncrypt(c, kek, data, enc, schemaVersion, random);
      && (sealed.Err? <==> enc == Enabled && kek.None?)
      && (kek.Some? && enc in {Default, Enabled} ==>
            sealed == Ok(Payload(c.encrypt(kek.value, data, random).0, Some(c.encrypt(kek.value, data, random).1),
                                 schemaVersion, 1)))
      && (enc == Disabled || (enc == Default && kek.None?) ==> sealed == Ok(Payload(data, None, schemaVersion, 0)))
  {
  }

  /** An engine with this KEK put the payload, and the put did not opt out. */
  ghost predicate EncryptedPut(c: Cipher, kek: Bytes, p: Payload) {
    exists data, enc, schemaVersion, random ::
      enc != Disabled && MaybeEncrypt(c, Some(kek), data, enc, schemaVersion, random) == Ok(p)
  }

  /** Where every put of a record was made under a KEK and none opted out, no copy of it is in clear: not
      on any device, not in the store, not in a pulled snapshot, whatever the run. */
  lemma EncryptedEverywhere(c: Cipher, kek: Bytes, home: Home, w: World, steps: seq<Step>, end: World,
                            key: Key, hlc: Stamp, p: Payload)
    requires Initial(w) && Runs(Anything, home, w, steps, end) && IsCopy(end, key, hlc, Live(p))
    requires forall s :: s in steps && s.Put? && s.key == key ==> EncryptedPut(c, kek, s.payload)
    ensures p.formatVersion == 1 && p.dek.Some?
    ensures exists data, random :: (p.data, p.dek.value) == c.encrypt(kek, data, random)
  {
    NoTornPayload(home, w, steps, end, key, hlc, p);
    var data, enc, schemaVersion, random :|
      enc != Disabled && MaybeEncrypt(c, Some(kek), data, enc, schemaVersion, random) == Ok(p);
    SealsExactly(c, Some(kek), data, enc, schemaVersion, random);
    assert (p.data, p.dek.value) == c.encrypt(kek, data, random);
  }

  // ── What a get can return ──────────────────────────────────────────────────

  /** Some put of `data` under the key sealed this payload. */
  ghost predicate Seals(c: Cipher, kek: Option<Bytes>, data: Bytes, p: Payload) {
    exists enc, schemaVersion, random :: MaybeEncrypt(c, kek, data, enc, schemaVersion, random) == Ok(p)
  }

  lemma SealedOpens(c: Cipher, kek: Option<Bytes>, data: Bytes, p: Payload)
    requires Sound(c) && Seals(c, kek, data, p)
    ensures MaybeDecrypt(c, kek, p) == Ok(data)
  {
    var enc, schemaVersion, random :| MaybeEncrypt(c, kek, data, enc, schemaVersion, random) == Ok(p);
    if kek.Some? {
      assert c.decrypt(kek.value, c.encrypt(kek.value, data, random).0, c.encrypt(kek.value, data, random).1) ==
        Some(data);
    }
  }

  /** What a get answers: nothing exactly when there is no live row; the stored bytes of a plain one; the
      decrypted bytes of an encrypted one, and an error when there is no KEK, no wrapped key, or the
      cipher refuses. */
  lemma GetExactly(c: Cipher, kek: Option<Bytes>, t: Tables, key: Key)
    ensures var got := HandleGet(c, kek, t, key);
      && (got == Ok(None) <==> !exists row :: Get(t.records, key) == Some(row) && !row.deleted)
      && forall row :: Get(t.records, key) == Some(row) && !row.deleted ==>
           && (row.payload.formatVersion != 1 ==> got == Ok(Some(row.payload.data)))
           && (row.payload.formatVersion == 1 ==>
                 (got.Ok? <==> kek.Some? && row.payload.dek.Some? &&
                               c.decrypt(kek.value, row.payload.data, row.payload.dek.value).Some?))
           && (row.payload.formatVersion == 1 && got.Ok? ==>
                 got.value == c.decrypt(kek.value, row.payload.data, row.payload.dek.value))
  {
    var row := Get(t.records, key);
    if row.Some? && !row.value.deleted { assert Get(t.records, key) == Some(row.value); }
  }

  /** Across all devices that share the key encryption key: whatever route a record took, a get
      never fails to decrypt, finds exactly the live records, and returns the bytes that one put of
      that key wrote. */
  lemma GetReturnsPutBytes(c: Cipher, kek: Option<Bytes>, home: Home, w: World, steps: seq<Step>, end: World,
                           d: nat, key: Key)
    requires Sound(c) && Initial(w) && Runs(Anything, home, w, steps, end) && d < |end.devices|
    requires forall s :: s in steps && s.Put? ==> exists data :: Seals(c, kek, data, s.payload)
    ensures var got := HandleGet(c, kek, end.devices[d].t, key);
      && got.Ok?
      && (got.value.Some? <==> exists row :: Get(end.devices[d].t.records, key) == Some(row) && !row.deleted)
      && (got.value.Some? ==>
            exists s :: s in steps && s.Put? && s.key == key && Seals(c, kek, got.value.value, s.payload))
  {
    var row := Get(end.devices[d].t.records, key);
    if row.Some? && !row.value.deleted {
      var p := row.value.payload;
      assert DeviceHolds(end.devices[d], key, row.value.hlc, Live(p));
      NoTornPayload(home, w, steps, end, key, row.value.hlc, p);
      var s :| s in steps && s.Put? && s.key == key && s.payload == p;
      var data :| Seals(c, kek, data, s.payload);
      SealedOpens(c, kek, data, p);
      assert Get(end.devices[d].t.records, key) == Some(row.value);
    }
  }
}
