/** The shadow index and the full-text rows of one indexed collection (src/db/index.rs), kept up by
    every put and delete (src/engine.rs), against a plain scan of the records. */
module Index {
  import opened Base
  import opened Lex
  import opened Schema
  import opened Filter
  import Database

  datatype Affinity = TextAffinity | IntegerAffinity | RealAffinity

  datatype FieldDef = FieldDef(name: string, affinity: Affinity)

  datatype IndexDef = IndexDef(collection: string, fields: seq<FieldDef>, ftsFields: seq<string>)

  /** The values a put supplies for the index. */
  type Fields = map<string, Value>

  datatype FtsRow = FtsRow(recordId: string, texts: seq<string>)

  /** `sidx_c` is keyed by record_id; `fts_c` has no key. */
  type Shadow = map<string, Fields>

  // ── Row maintenance ────────────────────────────────────────────────────────

  function Supplied(values: Fields, name: string): Value {
    if name in values then values[name] else Null
  }

  function Names(def: IndexDef): set<string> {
    set d | d in def.fields :: d.name
  }

  /** One value per declared column, NULL where the put supplied none. */
  function Projected(def: IndexDef, values: Fields): Fields {
    map name | name in Names(def) :: Supplied(values, name)
  }

  function Digits(n: nat): string {
    (if n < 10 then "" else Digits(n / 10)) + [('0' as int + n % 10) as char]
  }

  function Decimal(n: int): string {
    if n < 0 then "-" + Digits(-n) else Digits(n)
  }

  /** What full-text search sees of a value: texts and integers, nothing else. */
  function FtsText(v: Value): string {
    match v
    case Text(s) => s
    case Integer(n) => Decimal(n)
    case _ => ""
  }

  /** Reading a decimal back. */
  function DecimalValue(s: string): int {
    if s != "" && s[0] == '-' then -DigitsValue(s[1..]) else DigitsValue(s)
  }

  function DigitsValue(s: string): int {
    if s == "" then 0 else 10 * DigitsValue(s[..|s| - 1]) + (s[|s| - 1] as int - '0' as int)
  }

  lemma {:induction false} DigitsRead(n: nat)
    ensures DigitsValue(Digits(n)) == n && Digits(n) != ""
    ensures forall c :: c in Digits(n) ==> '0' <= c <= '9'
    ensures n > 0 ==> Digits(n)[0] != '0'
  {
    if n >= 10 {
      DigitsRead(n / 10);
      assert Digits(n)[..|Digits(n)| - 1] == Digits(n / 10);
    } else {
      assert Digits(n) == [('0' as int + n) as char];
    }
  }

  /** An integer is indexed as its decimal text: digits that read back as it, a sign only when it is
      negative, no leading zero. */
  lemma DecimalExactly(n: int)
    ensures DecimalValue(Decimal(n)) == n
    ensures (n < 0 <==> Decimal(n)[0] == '-') && (n != 0 ==> Decimal(n)[if n < 0 then 1 else 0] != '0')
    ensures n == 0 ==> Decimal(n) == "0"
  {
    DigitsRead(if n < 0 then -n else n);
    if n < 0 {
      assert Decimal(n)[1..] == Digits(-n);
    } else {
      assert Decimal(n)[0] in Digits(n);
    }
  }

  /** Full-text search sees a supplied text as it is, an integer in decimal, and nothing else. */
  lemma FtsTextsExactly(def: IndexDef, values: Fields, i: nat)
    requires i < |def.ftsFields|
    ensures |FtsTexts(def, values)| == |def.ftsFields|
    ensures var name, text := def.ftsFields[i], FtsTexts(def, values)[i];
      && (name !in values ==> text == "")
      && (name in values && values[name].Text? ==> text == values[name].s)
      && (name in values && values[name].Integer? ==> text == Decimal(values[name].n))
      && (name in values && (values[name].Null? || values[name].Real?) ==> text == "")
  {
  }

  function FtsTexts(def: IndexDef, values: Fields): seq<string> {
    seq(|def.ftsFields|, i requires 0 <= i < |def.ftsFields| => FtsText(Supplied(values, def.ftsFields[i])))
  }

  /** `DELETE FROM fts_c WHERE record_id = ?1` */
  function WithoutId(fts: seq<FtsRow>, id: string): seq<FtsRow> {
    if fts == [] then []
    else if fts[0].recordId == id then WithoutId(fts[1..], id)
    else [fts[0]] + WithoutId(fts[1..], id)
  }

  function WithShadowRow(shadow: Shadow, def: IndexDef, id: string, values: Fields): Shadow {
    if def.fields == [] then shadow else shadow[id := Projected(def, values)]
  }

  function WithFtsRow(fts: seq<FtsRow>, def: IndexDef, id: string, values: Fields): seq<FtsRow> {
    if def.ftsFields == [] then fts else WithoutId(fts, id) + [FtsRow(id, FtsTexts(def, values))]
  }

  // ── Runs ───────────────────────────────────────────────────────────────────

  datatype State = State(records: Records, shadow: Shadow, fts: seq<FtsRow>)

  datatype Step =
    | Put(key: Key, payload: Payload, values: Fields, hlc: Stamp, now: int)
    | Delete(key: Key, hlc: Stamp, now: int)

  /** A put or a delete of any record; only those of the indexed collection touch its index. */
  function Apply(def: IndexDef, st: State, step: Step): State {
    match step
    case Put(key, payload, values, hlc, now) =>
      var records := UpsertRow(st.records, key, payload, hlc, now);
      if key.collection != def.collection then st.(records := records)
      else State(records, WithShadowRow(st.shadow, def, key.id, values), WithFtsRow(st.fts, def, key.id, values))
    case Delete(key, hlc, now) =>
      var records := SoftDelete(st.records, key, hlc, now);
      if key.collection != def.collection then st.(records := records)
      else State(records,
                 if def.fields == [] then st.shadow else st.shadow - {key.id},
                 if def.ftsFields == [] then st.fts else WithoutId(st.fts, key.id))
  }

  function Run(def: IndexDef, steps: seq<Step>): State
    decreases |steps|
  {
    if steps == [] then State(map[], map[], [])
    else Apply(def, Run(def, steps[..|steps| - 1]), steps[|steps| - 1])
  }

  /** The values of the last put of the record. */
  function Latest(steps: seq<Step>, id: string): Fields
    decreases |steps|
  {
    if steps == [] then map[]
    else
      var last := steps[|steps| - 1];
      if last.Put? && last.key.id == id then last.values else Latest(steps[..|steps| - 1], id)
  }

  /** A database with the tables of one registered index beside its own. */
  class IndexedDatabase {
    const db: Database.Database
    const def: IndexDef
    var shadow: Shadow
    var fts: seq<FtsRow>

    constructor (db: Database.Database, def: IndexDef)
      ensures this.db == db && this.def == def && shadow == map[] && fts == []
    {
      this.db, this.def, shadow, fts := db, def, map[], [];
    }

    function View(): State
      reads this, db
    {
      State(db.records, shadow, fts)
    }

    /** `upsert_index_row` */
    method UpsertIndexRow(id: string, values: Fields)
      modifies this`shadow
      ensures shadow == WithShadowRow(old(shadow), def, id, values)
    {
      if def.fields == [] {
        return;
      }
      var row: Fields := map[];
      for i := 0 to |def.fields|
        invariant row.Keys == set d | d in def.fields[..i] :: d.name
        invariant forall name :: name in row ==> row[name] == Supplied(values, name)
      {
        row := row[def.fields[i].name := Supplied(values, def.fields[i].name)];
        assert def.fields[..i + 1] == def.fields[..i] + [def.fields[i]];
      }
      assert def.fields[..|def.fields|] == def.fields;
      assert row == Projected(def, values);
      shadow := shadow[id := row];
    }

    /** `upsert_fts_row`: full-text tables know no upsert, so delete and insert. */
    method UpsertFtsRow(id: string, values: Fields)
      modifies this`fts
      ensures fts == WithFtsRow(old(fts), def, id, values)
    {
      if def.ftsFields == [] {
        return;
      }
      fts := WithoutId(fts, id);
      var texts := [];
      for i := 0 to |def.ftsFields|
        invariant texts == FtsTexts(def, values)[..i]
        invariant fts == WithoutId(old(fts), id)
      {
        texts := texts + [FtsText(Supplied(values, def.ftsFields[i]))];
      }
      assert texts == FtsTexts(def, values);
      fts := fts + [FtsRow(id, texts)];
    }

    /** `delete_index_rows` */
    method DeleteIndexRows(id: string)
      modifies this`shadow, this`fts
      ensures shadow == if def.fields == [] then old(shadow) else old(shadow) - {id}
      ensures fts == if def.ftsFields == [] then old(fts) else WithoutId(old(fts), id)
    {
      if def.fields != [] {
        shadow := shadow - {id};
      }
      if def.ftsFields != [] {
        fts := WithoutId(fts, id);
      }
    }

    /** The statements `handle_put` runs in its transaction. */
    method Put(key: Key, payload: Payload, values: Fields, hlc: Stamp, now: int)
      modifies this, db
      ensures View() == Apply(def, old(View()), Step.Put(key, payload, values, hlc, now))
      ensures db.View() == HandlePut(old(db.View()), key, payload, hlc, now)
    {
      db.Upsert(key, payload, hlc, now);
      db.AppendOutbox(key, Upsert, hlc);
      if key.collection == def.collection {
        if values != map[] || def.fields != [] {
          UpsertIndexRow(key.id, values);
        }
        if def.ftsFields != [] {
          UpsertFtsRow(key.id, values);
        }
      }
    }

    /** The statements `handle_delete` runs in its transaction. */
    method Delete(key: Key, hlc: Stamp, now: int)
      modifies this, db
      ensures View() == Apply(def, old(View()), Step.Delete(key, hlc, now))
      ensures db.View() == HandleDelete(old(db.View()), key, hlc, now)
    {
      db.MarkDeleted(key, hlc, now);
      db.AppendOutbox(key, Operation.Delete, hlc);
      if key.collection == def.collection {
        DeleteIndexRows(key.id);
      }
    }
  }

  // ── The index follows the records ──────────────────────────────────────────

  ghost predicate OneEach(fts: seq<FtsRow>) {
    forall i, j :: 0 <= i < j < |fts| ==> fts[i].recordId != fts[j].recordId
  }

  /** A live record of the collection has the rows its last put supplied; a tombstone has none. No
      record has two. */
  ghost predicate InSync(def: IndexDef, steps: seq<Step>) {
    var st := Run(def, steps);
    && OneEach(st.fts)
    && (def.fields == [] ==> st.shadow == map[])
    && (def.ftsFields == [] ==> st.fts == [])
    && (forall id :: id in st.records && st.records[id].collection == def.collection ==>
         RowsInSync(def, st, id, Latest(steps, id)))
  }

  ghost predicate RowsInSync(def: IndexDef, st: State, id: string, values: Fields)
    requires id in st.records
  {
    if st.records[id].deleted then id !in st.shadow && forall r :: r in st.fts ==> r.recordId != id
    else
      && (def.fields != [] ==> id in st.shadow && st.shadow[id] == Projected(def, values))
      && (def.ftsFields != [] ==> FtsRow(id, FtsTexts(def, values)) in st.fts)
  }

  lemma {:induction false} WithoutIdKeeps(fts: seq<FtsRow>, id: string)
    ensures forall r :: r in WithoutId(fts, id) <==> r in fts && r.recordId != id
    ensures OneEach(fts) ==> OneEach(WithoutId(fts, id))
    ensures |WithoutId(fts, id)| <= |fts|
  {
    if fts != [] {
      WithoutIdKeeps(fts[1..], id);
      assert forall r :: r in fts <==> r == fts[0] || r in fts[1..];
    }
  }

  lemma {:induction false} RunInSync(def: IndexDef, steps: seq<Step>)
    ensures InSync(def, steps)
    decreases |steps|
  {
    if steps != [] {
      var before, step := steps[..|steps| - 1], steps[|steps| - 1];
      RunInSync(def, before);
      var was := Run(def, before);
      WithoutIdKeeps(was.fts, step.key.id);
      var st := Apply(def, was, step);
      forall id | id in st.records && st.records[id].collection == def.collection
        ensures RowsInSync(def, st, id, Latest(steps, id))
      {
        if id != step.key.id {
          assert RowsInSync(def, was, id, Latest(before, id));
          StepKeepsRows(def, was, step, id, Latest(before, id));
        } else if step.Delete? && id in was.records {
          assert was.records[id].collection == def.collection;
        }
      }
    }
  }

  /** A step on one record leaves the rows of every other alone. */
  lemma StepKeepsRows(def: IndexDef, st: State, step: Step, id: string, values: Fields)
    requires id in st.records && id != step.key.id && RowsInSync(def, st, id, values)
    ensures var after := Apply(def, st, step);
      id in after.records && after.records[id] == st.records[id] && RowsInSync(def, after, id, values)
  {
    WithoutIdKeeps(st.fts, step.key.id);
  }

  // ── The query, as SQLite answers it ────────────────────────────────────────

  /** MATCH, tokenising and all: whether the texts of a full-text row match a search text. */
  type Matcher = (seq<string>, string) -> bool

  function RecordColumns(id: string, row: Row): map<string, Value> {
    map["id" := Text(id), "collection" := Text(row.collection), "hlc" := Text(row.hlc),
        "schema_version" := Integer(row.payload.schemaVersion), "deleted" := Integer(if row.deleted then 1 else 0),
        "created_at" := Integer(row.createdAt), "updated_at" := Integer(row.updatedAt)]
  }

  /** Of the record's columns a filter can name, all but the collection are read from `r`; every other
      field of an indexed collection is read from its shadow table. */
  lemma RecordColumnsExactly(id: string, row: Row, field: string)
    ensures ColPrefix(field, true) == R <==> field in RecordColumns(id, row) && field != "collection"
    ensures ColPrefix(field, false) == R
  {
    assert "created_at"[1] != 'o' && "updated_at"[1] != 'o';
  }

  ghost predicate FtsMatches(fts: seq<FtsRow>, m: Matcher, id: string, text: string) {
    exists r :: r in fts && r.recordId == id && m(r.texts, text)
  }

  ghost function EnvOf(st: State, m: Matcher, id: string): Env
    requires id in st.records
  {
    Env(RecordColumns(id, st.records[id]), if id in st.shadow then st.shadow[id] else map[],
        iset text | FtsMatches(st.fts, m, id, text))
  }

  /** The row of `FROM records r JOIN sidx_c s ON s.record_id = r.id` exists and the WHERE clause,
      read as SQL, is true on it. */
  ghost predicate Selected(def: IndexDef, st: State, opts: QueryOpts, m: Matcher, id: string)
    requires BuildQuery(def.collection, def.fields != [], def.ftsFields != [], opts).Ok?
  {
    var q := BuildQuery(def.collection, def.fields != [], def.ftsFields != [], opts).value;
    && id in st.records
    && (def.fields != [] ==> id in st.shadow)
    && ParseOr(q.clause).Some?
    && Eval(ParseOr(q.clause).value.0, EnvOf(st, m, id), q.params) == True
  }

  ghost predicate Sorted(ids: seq<string>, records: Records, order: SortOrder)
    requires forall id :: id in ids ==> id in records
  {
    forall i, j :: 0 <= i < j < |ids| ==>
      if order == HlcAsc then AtMost(records[ids[i]].hlc, records[ids[j]].hlc)
      else AtMost(records[ids[j]].hlc, records[ids[i]].hlc)
  }

  /** `ORDER BY r.hlc`: all the selected records, each once. */
  ghost predicate Lists(ids: seq<string>, records: Records, order: SortOrder, selected: set<string>)
    requires selected <= records.Keys
  {
    && (forall id :: id in ids <==> id in selected)
    && (forall i, j :: 0 <= i < j < |ids| ==> ids[i] != ids[j])
    && Sorted(ids, records, order)
  }

  /** LIMIT and OFFSET: a negative limit is none, a negative offset is zero. */
  function Window<T>(all: seq<T>, limit: int, offset: int): seq<T> {
    var rest := all[Min(Max(offset, 0), |all|)..];
    if limit < 0 then rest else rest[..Min(limit, |rest|)]
  }

  /** What `query` can return. */
  ghost predicate Answers(def: IndexDef, st: State, opts: QueryOpts, m: Matcher, out: seq<string>)
    requires BuildQuery(def.collection, def.fields != [], def.ftsFields != [], opts).Ok?
  {
    var q := BuildQuery(def.collection, def.fields != [], def.ftsFields != [], opts).value;
    var limit, offset := OperandValue(OfParam(q.limitIdx), q.params), OperandValue(OfParam(q.offsetIdx), q.params);
    && limit.Integer? && offset.Integer?
    && exists all :: Lists(all, st.records, opts.order, set id | id in st.records && Selected(def, st, opts, m, id))
                     && out == Window(all, limit.n, offset.n)
  }

  // ── The plain scan ─────────────────────────────────────────────────────────

  /** What a filter can compare of the record itself. */
  function OfRecord(id: string, row: Row, field: string): Value {
    if field == "id" then Text(id)
    else if field == "hlc" then Text(row.hlc)
    else if field == "schema_version" then Integer(row.payload.schemaVersion)
    else if field == "deleted" then Integer(if row.deleted then 1 else 0)
    else if field == "created_at" then Integer(row.createdAt)
    else if field == "updated_at" then Integer(row.updatedAt)
    else Null
  }

  /** The filter on a record and the values its last put supplied; a comparison with a value that
      is missing or NULL does not hold, and a tombstone has no text. */
  predicate Satisfied(def: IndexDef, f: QueryFilter, id: string, row: Row, values: Fields, m: Matcher) {
    match f
    case Compare(op, field, value) =>
      var supplied := if field in values then values[field] else Null;
      var v := if field in Names(def) then supplied else OfRecord(id, row, field);
      v != Null && value != Null && Satisfies(op, v, value)
    case Contains(text) => !row.deleted && m(FtsTexts(def, values), text)
    case And(filters) => forall g :: g in filters ==> Satisfied(def, g, id, row, values, m)
    case Or(filters) => exists g :: g in filters && Satisfied(def, g, id, row, values, m)
  }

  /** A tombstone is found only when asked for, and never through a shadow table. */
  predicate Wanted(def: IndexDef, steps: seq<Step>, opts: QueryOpts, m: Matcher, id: string)
    requires id in Run(def, steps).records
  {
    var row := Run(def, steps).records[id];
    && row.collection == def.collection
    && (row.deleted ==> opts.includeDeleted && def.fields == [])
    && (opts.filter.Some? ==> Satisfied(def, opts.filter.value, id, row, Latest(steps, id), m))
  }

  // ── The indexed query is the plain scan ────────────────────────────────────

  /** SQLite converts a value that does not match the affinity of its column, and one compared with
      it; the model keeps values as they are, so it speaks of matching values only. */
  predicate Fits(affinity: Affinity, v: Value) {
    match affinity
    case TextAffinity => v.Text? || v.Null?
    case IntegerAffinity => v.Integer? || v.Null?
    case RealAffinity => v.Real? || v.Null?
  }

  predicate FitsColumn(def: IndexDef, field: string, v: Value) {
    && (field in RECORD_COLUMNS ==> Fits(if field == "id" || field == "hlc" then TextAffinity else IntegerAffinity, v))
    && (forall d :: d in def.fields && d.name == field ==> Fits(d.affinity, v))
  }

  predicate Typed(def: IndexDef, steps: seq<Step>) {
    forall s :: s in steps && s.Put? && s.key.collection == def.collection ==>
      forall d :: d in def.fields ==> Fits(d.affinity, Supplied(s.values, d.name))
  }

  /** Filters over fields that are declared or record columns, and not both; full-text search over a
      full-text index. */
  predicate OverKnown(def: IndexDef, f: QueryFilter) {
    match f
    case Compare(_, field, value) =>
      (field in RECORD_COLUMNS <==> field !in Names(def)) && FitsColumn(def, field, value)
    case Contains(_) => def.ftsFields != []
    case And(filters) => forall g :: g in filters ==> OverKnown(def, g)
    case Or(filters) => forall g :: g in filters ==> OverKnown(def, g)
  }

  lemma {:induction false} HoldsIsSatisfied(def: IndexDef, steps: seq<Step>, id: string, f: QueryFilter, m: Matcher)
    requires OverKnown(def, f) && InSync(def, steps)
    requires var st := Run(def, steps);
      id in st.records && st.records[id].collection == def.collection && (st.records[id].deleted ==> def.fields == [])
    ensures var st := Run(def, steps);
      Holds(f, def.fields != [], EnvOf(st, m, id)) <==> Satisfied(def, f, id, st.records[id], Latest(steps, id), m)
    decreases f
  {
    var st := Run(def, steps);
    match f
    case Compare(op, field, value) => ColumnIsSupplied(def, st, id, Latest(steps, id), field, m);
    case Contains(text) => TextIsIndexed(def, st, id, Latest(steps, id), text, m);
    case And(filters) =>
      forall g | g in filters
        ensures Holds(g, def.fields != [], EnvOf(st, m, id)) <==>
          Satisfied(def, g, id, st.records[id], Latest(steps, id), m)
      {
        HoldsIsSatisfied(def, steps, id, g, m);
      }
    case Or(filters) =>
      forall g | g in filters
        ensures Holds(g, def.fields != [], EnvOf(st, m, id)) <==>
          Satisfied(def, g, id, st.records[id], Latest(steps, id), m)
      {
        HoldsIsSatisfied(def, steps, id, g, m);
      }
  }

  lemma ColumnIsSupplied(def: IndexDef, st: State, id: string, values: Fields, field: string, m: Matcher)
    requires field in RECORD_COLUMNS <==> field !in Names(def)
    requires id in st.records && (st.records[id].deleted ==> def.fields == []) && RowsInSync(def, st, id, values)
    ensures ColumnValue(EnvOf(st, m, id), ColPrefix(field, def.fields != []), field) ==
      if field in Names(def) then Supplied(values, field) else OfRecord(id, st.records[id], field)
  {
    if field in Names(def) {
      assert st.shadow[id] == Projected(def, values);
    }
  }

  /** A declared field is compared with the value its put supplied exactly when its name is not a record
      column's; otherwise the record's own column is compared, whatever was supplied. */
  lemma DeclaredIsReadExactly(def: IndexDef, st: State, id: string, values: Fields, field: string, m: Matcher)
    requires field in Names(def) && id in st.records && !st.records[id].deleted && RowsInSync(def, st, id, values)
    ensures ColPrefix(field, def.fields != []) == S <==> field !in RECORD_COLUMNS
    ensures ColumnValue(EnvOf(st, m, id), ColPrefix(field, def.fields != []), field) ==
      if field in RECORD_COLUMNS then OfRecord(id, st.records[id], field) else Supplied(values, field)
  {
    assert st.shadow[id] == Projected(def, values);
  }

  lemma TextIsIndexed(def: IndexDef, st: State, id: string, values: Fields, text: string, m: Matcher)
    requires def.ftsFields != [] && OneEach(st.fts)
    requires id in st.records && RowsInSync(def, st, id, values)
    ensures text in EnvOf(st, m, id).matches <==> !st.records[id].deleted && m(FtsTexts(def, values), text)
  {
    if !st.records[id].deleted {
      var row := FtsRow(id, FtsTexts(def, values));
      assert row in st.fts;
      assert forall r :: r in st.fts && r.recordId == id ==> r == row;
    }
  }

  lemma SelectedIsWanted(def: IndexDef, steps: seq<Step>, opts: QueryOpts, m: Matcher, id: string)
    requires opts.filter.Some? ==> OverKnown(def, opts.filter.value)
    requires BuildQuery(def.collection, def.fields != [], def.ftsFields != [], opts).Ok?
    requires InSync(def, steps) && id in Run(def, steps).records
    ensures Selected(def, Run(def, steps), opts, m, id) <==> Wanted(def, steps, opts, m, id)
  {
    var st := Run(def, steps);
    var row := st.records[id];
    QueryMeans(def.collection, def.fields != [], def.ftsFields != [], opts, EnvOf(st, m, id));
    if row.collection == def.collection && (row.deleted ==> def.fields == []) && opts.filter.Some? {
      HoldsIsSatisfied(def, steps, id, opts.filter.value, m);
    }
  }

  /** Over any run of puts and deletes of any records, a query through the index returns just what
      a scan of the records would: those of the collection whose last supplied values satisfy the
      filter, tombstones left out, in HLC order, windowed. */
  lemma IndexedQueryIsScan(def: IndexDef, steps: seq<Step>, opts: QueryOpts, m: Matcher, out: seq<string>)
    requires opts.filter.Some? ==> OverKnown(def, opts.filter.value)
    requires BuildQuery(def.collection, def.fields != [], def.ftsFields != [], opts).Ok? && Typed(def, steps)
    ensures var st := Run(def, steps);
      Answers(def, st, opts, m, out) <==>
      exists all :: Lists(all, st.records, opts.order, set id | id in st.records && Wanted(def, steps, opts, m, id))
                    && out == Window(all, LimitValue(opts.limit), AsI64(opts.offset))
  {
    var st := Run(def, steps);
    RunInSync(def, steps);
    forall id | id in st.records
      ensures Selected(def, st, opts, m, id) <==> Wanted(def, steps, opts, m, id)
    {
      SelectedIsWanted(def, steps, opts, m, id);
    }
    assert (set id | id in st.records && Selected(def, st, opts, m, id)) ==
      (set id | id in st.records && Wanted(def, steps, opts, m, id));
    QueryBounds(def, opts);
  }

  /** The same in plain terms, for limits and offsets that a signed 64-bit number can hold: of the wanted
      records in order, newest first unless asked otherwise, skip `offset` and return the rest, or the
      first `limit` of the rest. */
  lemma QueryWindowExactly(def: IndexDef, steps: seq<Step>, opts: QueryOpts, m: Matcher, out: seq<string>)
    requires opts.filter.Some? ==> OverKnown(def, opts.filter.value)
    requires BuildQuery(def.collection, def.fields != [], def.ftsFields != [], opts).Ok? && Typed(def, steps)
    requires opts.offset <= 0x7FFF_FFFF_FFFF_FFFF && (opts.limit.Some? ==> opts.limit.value <= 0x7FFF_FFFF_FFFF_FFFF)
    requires Answers(def, Run(def, steps), opts, m, out)
    ensures exists all ::
      && Lists(all, Run(def, steps).records, opts.order,
               set id | id in Run(def, steps).records && Wanted(def, steps, opts, m, id))
      && IsWindow(all, opts.limit, opts.offset, out)
    ensures forall i, j :: 0 <= i < j < |out| ==>
      && out[i] in Run(def, steps).records && out[j] in Run(def, steps).records
      && (opts.order == HlcDesc ==> !Before(Run(def, steps).records[out[i]].hlc, Run(def, steps).records[out[j]].hlc))
      && (opts.order == HlcAsc ==> !Before(Run(def, steps).records[out[j]].hlc, Run(def, steps).records[out[i]].hlc))
  {
    var st := Run(def, steps);
    IndexedQueryIsScan(def, steps, opts, m, out);
    var wanted := set id | id in st.records && Wanted(def, steps, opts, m, id);
    var all :|
      Lists(all, st.records, opts.order, wanted) && out == Window(all, LimitValue(opts.limit), AsI64(opts.offset));
    WindowExactly(all, opts.limit, opts.offset);
    WindowInOrder(all, st.records, opts.order, wanted, opts.limit, opts.offset, out);
  }

  lemma WindowInOrder(all: seq<string>, records: Records, order: SortOrder, wanted: set<string>,
                      limit: Option<nat>, offset: nat, out: seq<string>)
    requires wanted <= records.Keys && Lists(all, records, order, wanted) && IsWindow(all, limit, offset, out)
    ensures forall i, j :: 0 <= i < j < |out| ==>
      && out[i] in records && out[j] in records
      && (order == HlcDesc ==> !Before(records[out[i]].hlc, records[out[j]].hlc))
      && (order == HlcAsc ==> !Before(records[out[j]].hlc, records[out[i]].hlc))
  {
    var o := Min(offset, |all|);
    forall i | 0 <= i < |out| ensures o + i < |all| && out[i] == all[o + i] && out[i] in all {}
  }

  /** What LIMIT and OFFSET leave of a list. */
  ghost predicate IsWindow<T>(all: seq<T>, limit: Option<nat>, offset: nat, out: seq<T>) {
    var o := Min(offset, |all|);
    match limit
    case None => out == all[o..]
    case Some(l) => |out| == Min(l, |all| - o) && forall i :: 0 <= i < |out| ==> out[i] == all[o + i]
  }

  lemma WindowExactly<T>(all: seq<T>, limit: Option<nat>, offset: nat)
    requires offset <= 0x7FFF_FFFF_FFFF_FFFF && (limit.Some? ==> limit.value <= 0x7FFF_FFFF_FFFF_FFFF)
    ensures IsWindow(all, limit, offset, Window(all, LimitValue(limit), AsI64(offset)))
  {
  }

  lemma QueryBounds(def: IndexDef, opts: QueryOpts)
    requires BuildQuery(def.collection, def.fields != [], def.ftsFields != [], opts).Ok?
    ensures var q := BuildQuery(def.collection, def.fields != [], def.ftsFields != [], opts).value;
      && OperandValue(OfParam(q.limitIdx), q.params) == Integer(LimitValue(opts.limit))
      && OperandValue(OfParam(q.offsetIdx), q.params) == Integer(AsI64(opts.offset))
  {
    var env := Env(map["collection" := Text(""), "deleted" := Integer(0)], map[], iset{});
    QueryMeans(def.collection, def.fields != [], def.ftsFields != [], opts, env);
  }

  /** Through a shadow table `include_deleted` changes nothing: a delete takes the row that the
      join needs. */
  lemma DeletedNeverIncluded(def: IndexDef, steps: seq<Step>, opts: QueryOpts, m: Matcher, out: seq<string>)
    requires opts.filter.Some? ==> OverKnown(def, opts.filter.value)
    requires def.fields != [] && opts.includeDeleted && Typed(def, steps)
    requires BuildQuery(def.collection, true, def.ftsFields != [], opts).Ok?
    ensures BuildQuery(def.collection, true, def.ftsFields != [], opts.(includeDeleted := false)).Ok?
    ensures Answers(def, Run(def, steps), opts, m, out) <==>
      Answers(def, Run(def, steps), opts.(includeDeleted := false), m, out)
  {
    var st, without := Run(def, steps), opts.(includeDeleted := false);
    IndexedQueryIsScan(def, steps, opts, m, out);
    IndexedQueryIsScan(def, steps, without, m, out);
    assert (set id | id in st.records && Wanted(def, steps, opts, m, id)) ==
      (set id | id in st.records && Wanted(def, steps, without, m, id));
  }

  /** With distinct HLCs there is one answer. */
  lemma AnswerIsUnique(def: IndexDef, st: State, opts: QueryOpts, m: Matcher, a: seq<string>, b: seq<string>)
    requires BuildQuery(def.collection, def.fields != [], def.ftsFields != [], opts).Ok?
    requires forall x, y :: x in st.records && y in st.records && x != y ==> st.records[x].hlc != st.records[y].hlc
    requires Answers(def, st, opts, m, a) && Answers(def, st, opts, m, b)
    ensures a == b
  {
    var q := BuildQuery(def.collection, def.fields != [], def.ftsFields != [], opts).value;
    var limit, offset := OperandValue(OfParam(q.limitIdx), q.params).n, OperandValue(OfParam(q.offsetIdx), q.params).n;
    var selected := set id | id in st.records && Selected(def, st, opts, m, id);
    var p :| Lists(p, st.records, opts.order, selected) && a == Window(p, limit, offset);
    var r :| Lists(r, st.records, opts.order, selected) && b == Window(r, limit, offset);
    SameList(p, r, st.records, opts.order, selected);
  }

  lemma {:induction false} SameList(a: seq<string>, b: seq<string>, records: Records, order: SortOrder,
                                    selected: set<string>)
    requires selected <= records.Keys
    requires forall x, y :: x in records && y in records && x != y ==> records[x].hlc != records[y].hlc
    requires Lists(a, records, order, selected) && Lists(b, records, order, selected)
    ensures a == b
    decreases |a|
  {
    EmptyListsNothing(a, records, order, selected);
    EmptyListsNothing(b, records, order, selected);
    if a != [] {
      SameFirst(a, b, records, order, selected);
      ListsRest(a, records, order, selected);
      ListsRest(b, records, order, selected);
      SameList(a[1..], b[1..], records, order, selected - {a[0]});
      assert a == [a[0]] + a[1..] && b == [b[0]] + b[1..];
    }
  }

  lemma EmptyListsNothing(a: seq<string>, records: Records, order: SortOrder, selected: set<string>)
    requires selected <= records.Keys && Lists(a, records, order, selected)
    ensures a == [] <==> selected == {}
  {
    if a != [] { assert a[0] in selected; }
  }

  lemma SameFirst(a: seq<string>, b: seq<string>, records: Records, order: SortOrder, selected: set<string>)
    requires selected <= records.Keys && a != [] && b != []
    requires forall x, y :: x in records && y in records && x != y ==> records[x].hlc != records[y].hlc
    requires Lists(a, records, order, selected) && Lists(b, records, order, selected)
    ensures a[0] == b[0]
  {
    assert a[0] in b && b[0] in a;
    var i :| 0 <= i < |b| && b[i] == a[0];
    var j :| 0 <= j < |a| && a[j] == b[0];
    if i != 0 && j != 0 {
      Trichotomy(records[a[0]].hlc, records[b[0]].hlc);
    }
  }

  lemma ListsRest(a: seq<string>, records: Records, order: SortOrder, selected: set<string>)
    requires selected <= records.Keys && a != [] && Lists(a, records, order, selected)
    ensures Lists(a[1..], records, order, selected - {a[0]})
  {
    forall id ensures id in a[1..] <==> id in selected - {a[0]} {
      assert id in a <==> id == a[0] || id in a[1..];
      if id in a[1..] {
        var k :| 1 <= k < |a| && a[k] == id;
      }
    }
  }
}
