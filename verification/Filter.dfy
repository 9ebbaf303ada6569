/** Compilation of a query filter into a SQL clause with numbered parameters (src/db/index.rs), and
    the reading of that clause: SQL precedence, three-valued logic. */
module Filter {
  import opened Base
  import opened Lex

  // ── Filters and values ─────────────────────────────────────────────────────

  /** `IndexValue`, which `to_sql_value` carries over one to one. */
  datatype Value = Null | Integer(n: int) | Real(x: real) | Text(s: string)

  datatype CmpOp = Eq | Lt | Gt | Le | Ge

  datatype QueryFilter =
    | Compare(op: CmpOp, field: string, value: Value)
    | Contains(text: string)
    | And(filters: seq<QueryFilter>)
    | Or(filters: seq<QueryFilter>)

  // ── SQL text as tokens ─────────────────────────────────────────────────────

  datatype Table = R | S

  /** The words of a WHERE clause. InFts(k) is the subquery that matches the record's full-text row
      against ?k. */
  datatype Token = Column(table: Table, name: string) | Op(op: CmpOp) | Param(k: nat) | Number(n: int)
                 | InFts(k: nat) | AndWord | OrWord | Open | Close

  predicate IsAlpha(c: char) { 'a' <= c <= 'z' || 'A' <= c <= 'Z' || c == '_' }

  predicate IsWord(c: char) { IsAlpha(c) || '0' <= c <= '9' }

  /** `sanitize_ident` accepts the name. */
  predicate ValidIdent(name: string) {
    name != "" && IsAlpha(name[0]) && forall i :: 1 <= i < |name| ==> IsWord(name[i])
  }

  const RECORD_COLUMNS := ["id", "hlc", "schema_version", "deleted", "created_at", "updated_at"]

  /** An identifier is one or more ASCII letters, digits and underscores, and does not start with a digit. */
  lemma IdentExactly(name: string)
    ensures ValidIdent(name) <==>
      && name != "" && !('0' <= name[0] <= '9')
      && forall c :: c in name ==> 'A' <= c <= 'Z' || 'a' <= c <= 'z' || '0' <= c <= '9' || c == '_'
  {
    if ValidIdent(name) {
      forall c | c in name ensures IsWord(c) {
        var i :| 0 <= i < |name| && name[i] == c;
      }
    } else if name != "" && IsAlpha(name[0]) {
      var i :| 1 <= i < |name| && !IsWord(name[i]);
      assert name[i] in name;
    } else if name != "" {
      assert name[0] in name;
    }
  }

  /** `col_prefix` */
  function ColPrefix(field: string, hasShadow: bool): Table {
    if !hasShadow || field in RECORD_COLUMNS then R else S
  }

  /** `parts.join(word)` */
  function Join(parts: seq<seq<Token>>, word: Token): seq<Token> {
    if parts == [] then []
    else if |parts| == 1 then parts[0]
    else parts[0] + [word] + Join(parts[1..], word)
  }

  /** `build_filter_sql`: the clause, and the parameter list with the clause's own appended. */
  function BuildFilterSql(f: QueryFilter, hasShadow: bool, hasFts: bool, params: seq<Value>): Outcome<(seq<Token>,
                          seq<Value>)>
    decreases f, 1
  {
    match f
    case Compare(op, field, value) =>
      if !ValidIdent(field) then Err("invalid identifier")
      else
        var grown := params + [value];
        Ok(([Column(ColPrefix(field, hasShadow), field), Op(op), Param(|grown|)], grown))
    case Contains(text) =>
      if !hasFts then Err("QueryFilter::Contains requires an FTS index")
      else
        var grown := params + [Text(text)];
        Ok(([InFts(|grown|)], grown))
    case And(filters) =>
      if filters == [] then Ok(([Number(1)], params))
      else
        (match BuildAll(filters, hasShadow, hasFts, params)
         case Ok((parts, grown)) => Ok(([Open] + Join(parts, AndWord) + [Close], grown))
         case Err(error) => Err(error))
    case Or(filters) =>
      if filters == [] then Ok(([Number(0)], params))
      else
        (match BuildAll(filters, hasShadow, hasFts, params)
         case Ok((parts, grown)) => Ok(([Open] + Join(parts, OrWord) + [Close], grown))
         case Err(error) => Err(error))
  }

  /** The clauses of several filters, one after the other on one parameter list. */
  function BuildAll(fs: seq<QueryFilter>, hasShadow: bool, hasFts: bool,
                    params: seq<Value>): (r: Outcome<(seq<seq<Token>>, seq<Value>)>)
    ensures r.Ok? ==> |r.value.0| == |fs|
    decreases fs, 0
  {
    if fs == [] then Ok(([], params))
    else
      match BuildFilterSql(fs[0], hasShadow, hasFts, params)
      case Err(error) => Err(error)
      case Ok((clause, grown)) =>
        match BuildAll(fs[1..], hasShadow, hasFts, grown)
        case Err(error) => Err(error)
        case Ok((clauses, all)) => Ok(([clause] + clauses, all))
  }

  /** The first clause of a non-empty list and the parameters after it; the rest compiles from there. */
  ghost function FirstOf(fs: seq<QueryFilter>, hasShadow: bool, hasFts: bool, params: seq<Value>): (r: (seq<Token>,
                         seq<Value>))
    requires fs != [] && BuildAll(fs, hasShadow, hasFts, params).Ok?
    ensures BuildFilterSql(fs[0], hasShadow, hasFts, params) == Ok(r)
    ensures BuildAll(fs[1..], hasShadow, hasFts, r.1).Ok?
    ensures var later := BuildAll(fs[1..], hasShadow, hasFts, r.1).value;
      BuildAll(fs, hasShadow, hasFts, params).value == ([r.0] + later.0, later.1)
  {
    BuildFilterSql(fs[0], hasShadow, hasFts, params).value
  }

  // ── Reading a clause ───────────────────────────────────────────────────────

  datatype Operand = OfParam(k: nat) | OfNumber(n: int)

  datatype Expr =
    | ECompare(table: Table, name: string, op: CmpOp, right: Operand)
    | EMatch(k: nat)
    | EConst(n: int)
    | EAnd(l: Expr, r: Expr)
    | EOr(l: Expr, r: Expr)

  type Parsed = Option<(Expr, seq<Token>)>

  /** A comparison, a constant, a full-text test or a parenthesised clause. */
  function ParseAtom(ts: seq<Token>): (p: Parsed)
    ensures p.Some? ==> |p.value.1| < |ts|
    decreases |ts|, 0
  {
    if ts == [] then None
    else
      match ts[0]
      case Open =>
        (match ParseOr(ts[1..])
         case Some((e, rest)) => if rest != [] && rest[0] == Close then Some((e, rest[1..])) else None
         case None => None)
      case Column(table, name) =>
        if |ts| >= 3 && ts[1].Op? && ts[2].Param?
          then Some((ECompare(table, name, ts[1].op, OfParam(ts[2].k)), ts[3..]))
        else if |ts| >= 3 && ts[1].Op? && ts[2].Number?
          then Some((ECompare(table, name, ts[1].op, OfNumber(ts[2].n)), ts[3..]))
        else None
      case InFts(k) => Some((EMatch(k), ts[1..]))
      case Number(n) => Some((EConst(n), ts[1..]))
      case _ => None
  }

  /** AND binds tighter than OR. */
  function ParseAnd(ts: seq<Token>): (p: Parsed)
    ensures p.Some? ==> |p.value.1| < |ts|
    decreases |ts|, 1
  {
    match ParseAtom(ts)
    case None => None
    case Some((l, rest)) =>
      if rest != [] && rest[0] == AndWord then
        match ParseAnd(rest[1..])
        case Some((r, rest')) => Some((EAnd(l, r), rest'))
        case None => None
      else Some((l, rest))
  }

  function ParseOr(ts: seq<Token>): (p: Parsed)
    ensures p.Some? ==> |p.value.1| < |ts|
    decreases |ts|, 2
  {
    match ParseAnd(ts)
    case None => None
    case Some((l, rest)) =>
      if rest != [] && rest[0] == OrWord then
        match ParseOr(rest[1..])
        case Some((r, rest')) => Some((EOr(l, r), rest'))
        case None => None
      else Some((l, rest))
  }

  // ── Meaning ────────────────────────────────────────────────────────────────

  /** A row as the query sees it: the columns of `records r` and, joined by id, of the shadow table
      `s`, and which texts its full-text row matches. */
  datatype Env = Env(records: map<string, Value>, shadow: map<string, Value>, matches: iset<string>)

  function ColumnValue(env: Env, table: Table, name: string): Value {
    var columns := if table == R then env.records else env.shadow;
    if name in columns then columns[name] else Null
  }

  /** SQLite's order: numbers by value before texts by bytes. Defined for non-null values. */
  predicate Below(a: Value, b: Value) {
    match (a, b)
    case (Integer(x), Integer(y)) => x < y
    case (Integer(x), Real(y)) => (x as real) < y
    case (Real(x), Integer(y)) => x < (y as real)
    case (Real(x), Real(y)) => x < y
    case (Text(x), Text(y)) => Before(x, y)
    case (Text(_), _) => false
    case (_, Text(_)) => true
    case _ => false
  }

  predicate Satisfies(op: CmpOp, a: Value, b: Value) {
    match op
    case Eq => !Below(a, b) && !Below(b, a)
    case Lt => Below(a, b)
    case Gt => Below(b, a)
    case Le => !Below(b, a)
    case Ge => !Below(a, b)
  }

  /** What each operator says of two integers, of two texts, and of a number and a text. */
  lemma ComparisonsExactly(x: int, y: int, s: string, t: string)
    ensures Satisfies(Eq, Integer(x), Integer(y)) <==> x == y
    ensures Satisfies(Lt, Integer(x), Integer(y)) <==> x < y
    ensures Satisfies(Gt, Integer(x), Integer(y)) <==> x > y
    ensures Satisfies(Le, Integer(x), Integer(y)) <==> x <= y
    ensures Satisfies(Ge, Integer(x), Integer(y)) <==> x >= y
    ensures Satisfies(Eq, Text(s), Text(t)) <==> s == t
    ensures Satisfies(Lt, Text(s), Text(t)) <==> Before(s, t)
    ensures Satisfies(Gt, Text(s), Text(t)) <==> Before(t, s)
    ensures Satisfies(Le, Text(s), Text(t)) <==> Before(s, t) || s == t
    ensures Satisfies(Ge, Text(s), Text(t)) <==> Before(t, s) || s == t
    ensures Satisfies(Lt, Integer(x), Text(s)) && !Satisfies(Eq, Integer(x), Text(s))
  {
    Trichotomy(s, t);
  }

  /** And of two reals, and of an integer and a real. */
  lemma RealComparisonsExactly(x: real, y: real, n: int, s: string)
    ensures Satisfies(Eq, Real(x), Real(y)) <==> x == y
    ensures Satisfies(Lt, Real(x), Real(y)) <==> x < y
    ensures Satisfies(Gt, Real(x), Real(y)) <==> x > y
    ensures Satisfies(Le, Real(x), Real(y)) <==> x <= y
    ensures Satisfies(Ge, Real(x), Real(y)) <==> x >= y
    ensures Satisfies(Lt, Integer(n), Real(y)) <==> (n as real) < y
    ensures Satisfies(Lt, Real(x), Integer(n)) <==> x < (n as real)
    ensures Satisfies(Eq, Integer(n), Real(y)) <==> (n as real) == y
    ensures Satisfies(Lt, Real(x), Text(s))
  {
  }

  datatype Tri = True | False | Unknown

  function And3(a: Tri, b: Tri): Tri {
    if a == False || b == False then False else if a == True && b == True then True else Unknown
  }

  function Or3(a: Tri, b: Tri): Tri {
    if a == True || b == True then True else if a == False && b == False then False else Unknown
  }

  function OperandValue(o: Operand, params: seq<Value>): Value {
    match o
    case OfParam(k) => if 1 <= k <= |params| then params[k - 1] else Null
    case OfNumber(n) => Integer(n)
  }

  /** The clause on a row: a comparison with NULL is unknown. */
  function Eval(e: Expr, env: Env, params: seq<Value>): Tri {
    match e
    case ECompare(table, name, op, right) =>
      var a, b := ColumnValue(env, table, name), OperandValue(right, params);
      if a == Null || b == Null then Unknown else if Satisfies(op, a, b) then True else False
    case EMatch(k) =>
      var v := OperandValue(OfParam(k), params);
      if v.Text? && v.s in env.matches then True else False
    case EConst(n) => if n != 0 then True else False
    case EAnd(l, r) => And3(Eval(l, env, params), Eval(r, env, params))
    case EOr(l, r) => Or3(Eval(l, env, params), Eval(r, env, params))
  }

  /** What the filter means: a built-in field reads the record, any other the shadow row, and a
      comparison with NULL does not hold. */
  predicate Holds(f: QueryFilter, hasShadow: bool, env: Env) {
    match f
    case Compare(op, field, value) =>
      var a := ColumnValue(env, ColPrefix(field, hasShadow), field);
      a != Null && value != Null && Satisfies(op, a, value)
    case Contains(text) => text in env.matches
    case And(filters) => forall g :: g in filters ==> Holds(g, hasShadow, env)
    case Or(filters) => exists g :: g in filters && Holds(g, hasShadow, env)
  }

  // ── The parameters of a clause ─────────────────────────────────────────────

  /** The filter's parameters, left to right. */
  function Collected(f: QueryFilter): seq<Value>
    decreases f, 1
  {
    match f
    case Compare(_, _, value) => [value]
    case Contains(text) => [Text(text)]
    case And(filters) => CollectedAll(filters)
    case Or(filters) => CollectedAll(filters)
  }

  function CollectedAll(fs: seq<QueryFilter>): seq<Value>
    decreases fs, 0
  {
    if fs == [] then [] else Collected(fs[0]) + CollectedAll(fs[1..])
  }

  /** The parameter numbers a clause mentions, left to right. */
  function Refs(ts: seq<Token>): seq<nat> {
    if ts == [] then [] else RefOf(ts[0]) + Refs(ts[1..])
  }

  function RefOf(t: Token): seq<nat> {
    match t
    case Param(k) => [k]
    case InFts(k) => [k]
    case _ => []
  }

  /** from, from + 1, .., count numbers in all. */
  function Numbers(from: nat, count: nat): (s: seq<nat>)
    ensures |s| == count
    ensures forall i :: 0 <= i < |s| ==> s[i] == from + i
    decreases count
  {
    if count == 0 then [] else [from] + Numbers(from + 1, count - 1)
  }

  lemma {:induction false} RefsConcat(a: seq<Token>, b: seq<Token>)
    ensures Refs(a + b) == Refs(a) + Refs(b)
  {
    if a == [] {
      assert a + b == b;
      assert Refs(a) + Refs(b) == Refs(b);
    } else {
      var t := a[1..];
      RefsConcat(t, b);
      assert Refs(a + b) == RefOf(a[0]) + Refs(t + b) by { assert (a + b)[0] == a[0] && (a + b)[1..] == t + b; }
      assert Refs(a) == RefOf(a[0]) + Refs(t);
      Associative(RefOf(a[0]), Refs(t), Refs(b));
    }
  }

  lemma Associative<T>(a: seq<T>, b: seq<T>, c: seq<T>)
    ensures a + (b + c) == a + b + c
  {
  }

  lemma NumbersConcat(from: nat, m: nat, n: nat)
    ensures Numbers(from, m) + Numbers(from + m, n) == Numbers(from, m + n)
  {
  }

  lemma JoinRefs(first: seq<Token>, later: seq<seq<Token>>, word: Token)
    requires !word.Param? && !word.InFts?
    ensures Refs(Join([first] + later, word)) == Refs(first) + Refs(Join(later, word))
  {
    if later != [] {
      JoinStep(first, later, word);
      RefsConcat(first + [word], Join(later, word));
      RefsConcat(first, [word]);
    }
  }

  lemma JoinStep(first: seq<Token>, later: seq<seq<Token>>, word: Token)
    requires later != []
    ensures Join([first] + later, word) == first + [word] + Join(later, word)
  {
    assert ([first] + later)[1..] == later;
  }

  lemma ParenthesisedRefs(ts: seq<Token>)
    ensures Refs([Open] + ts + [Close]) == Refs(ts)
  {
    RefsConcat([Open] + ts, [Close]);
    RefsConcat([Open], ts);
  }

  /** The clause adds exactly `own` after the earlier parameters, which stay as they are, and
      mentions each new number once, in order. */
  ghost predicate Appends(ts: seq<Token>, grown: seq<Value>, params: seq<Value>, own: seq<Value>) {
    grown == params + own && Refs(ts) == Numbers(|params| + 1, |own|)
  }

  lemma LinkAppends(first: seq<Token>, later: seq<seq<Token>>, word: Token, params: seq<Value>, mid: seq<Value>,
                    grown: seq<Value>, a: seq<Value>, b: seq<Value>)
    requires !word.Param? && !word.InFts?
    requires Appends(first, mid, params, a) && Appends(Join(later, word), grown, mid, b)
    ensures Appends(Join([first] + later, word), grown, params, a + b)
  {
    JoinRefs(first, later, word);
    NumbersConcat(|params| + 1, |a|, |b|);
    Associative(params, a, b);
  }

  lemma WrapAppends(ts: seq<Token>, grown: seq<Value>, params: seq<Value>, own: seq<Value>)
    requires Appends(ts, grown, params, own)
    ensures Appends([Open] + ts + [Close], grown, params, own)
  {
    ParenthesisedRefs(ts);
  }

  lemma CompareAppends(table: Table, field: string, op: CmpOp, value: Value, params: seq<Value>)
    ensures Appends([Column(table, field), Op(op), Param(|params| + 1)], params + [value], params, [value])
  {
    var front, rhs := [Column(table, field), Op(op)], [Param(|params| + 1)];
    assert [Column(table, field), Op(op), Param(|params| + 1)] == front + rhs;
    RefsConcat(front, rhs);
    assert front[1..] == [Op(op)] && Refs([Op(op)]) == [];
  }

  lemma {:induction false} ClauseNumbers(f: QueryFilter, hasShadow: bool, hasFts: bool, params: seq<Value>)
    requires BuildFilterSql(f, hasShadow, hasFts, params).Ok?
    ensures var (ts, grown) := BuildFilterSql(f, hasShadow, hasFts, params).value;
      Appends(ts, grown, params, Collected(f))
    decreases f, 1
  {
    var (ts, grown) := BuildFilterSql(f, hasShadow, hasFts, params).value;
    match f
    case Compare(op, field, value) => CompareAppends(ColPrefix(field, hasShadow), field, op, value, params);
    case Contains(text) =>
    case And(filters) =>
      if filters != [] {
        AllNumbers(filters, hasShadow, hasFts, params, AndWord);
        WrapAppends(Join(BuildAll(filters, hasShadow, hasFts, params).value.0, AndWord), grown, params,
          CollectedAll(filters));
      }
    case Or(filters) =>
      if filters != [] {
        AllNumbers(filters, hasShadow, hasFts, params, OrWord);
        WrapAppends(Join(BuildAll(filters, hasShadow, hasFts, params).value.0, OrWord), grown, params,
          CollectedAll(filters));
      }
  }

  lemma {:induction false} AllNumbers(fs: seq<QueryFilter>, hasShadow: bool, hasFts: bool, params: seq<Value>,
                                      word: Token)
    requires BuildAll(fs, hasShadow, hasFts, params).Ok? && !word.Param? && !word.InFts?
    ensures var (parts, grown) := BuildAll(fs, hasShadow, hasFts, params).value;
      Appends(Join(parts, word), grown, params, CollectedAll(fs))
    decreases fs, 0
  {
    if fs == [] {
      assert params == params + [];
    } else {
      var (first, mid) := FirstOf(fs, hasShadow, hasFts, params);
      var (later, grown) := BuildAll(fs[1..], hasShadow, hasFts, mid).value;
      ClauseNumbers(fs[0], hasShadow, hasFts, params);
      AllNumbers(fs[1..], hasShadow, hasFts, mid, word);
      LinkAppends(first, later, word, params, mid, grown, Collected(fs[0]), CollectedAll(fs[1..]));
    }
  }

  // ── Reading gives back the filter's structure ──────────────────────────────

  /** The filter as an expression whose parameters are numbered from n + 1. */
  function ExprOf(f: QueryFilter, hasShadow: bool, n: nat): Expr
    decreases f, 1
  {
    match f
    case Compare(op, field, value) => ECompare(ColPrefix(field, hasShadow), field, op, OfParam(n + 1))
    case Contains(text) => EMatch(n + 1)
    case And(filters) => if filters == [] then EConst(1) else ChainOf(filters, hasShadow, n, true)
    case Or(filters) => if filters == [] then EConst(0) else ChainOf(filters, hasShadow, n, false)
  }

  function ChainOf(fs: seq<QueryFilter>, hasShadow: bool, n: nat, conjunction: bool): Expr
    requires fs != []
    decreases fs, 0
  {
    var first := ExprOf(fs[0], hasShadow, n);
    if |fs| == 1 then first
    else
      var rest := ChainOf(fs[1..], hasShadow, n + |Collected(fs[0])|, conjunction);
      if conjunction then EAnd(first, rest) else EOr(first, rest)
  }

  /** Neither a conjunction nor a disjunction goes on here. */
  ghost predicate Ends(rest: seq<Token>) {
    rest == [] || (rest[0] != AndWord && rest[0] != OrWord)
  }

  /** A clause is read, to its end and no further, as the filter's expression. */
  lemma {:induction false} ClauseParses(f: QueryFilter, hasShadow: bool, hasFts: bool, params: seq<Value>,
                                        rest: seq<Token>)
    requires BuildFilterSql(f, hasShadow, hasFts, params).Ok?
    ensures ParseAtom(BuildFilterSql(f, hasShadow, hasFts, params).value.0 + rest) ==
      Some((ExprOf(f, hasShadow, |params|), rest))
    decreases f, 1
  {
    var (ts, grown) := BuildFilterSql(f, hasShadow, hasFts, params).value;
    match f
    case Compare(op, field, value) => assert (ts + rest)[3..] == rest;
    case Contains(text) => assert (ts + rest)[1..] == rest;
    case And(filters) =>
      if filters == [] {
        assert (ts + rest)[1..] == rest;
      } else {
        ChainParses(filters, hasShadow, hasFts, params, [Close] + rest, true);
        ParenthesisedParses(Join(BuildAll(filters, hasShadow, hasFts, params).value.0, AndWord), rest);
      }
    case Or(filters) =>
      if filters == [] {
        assert (ts + rest)[1..] == rest;
      } else {
        ChainParses(filters, hasShadow, hasFts, params, [Close] + rest, false);
        ParenthesisedParses(Join(BuildAll(filters, hasShadow, hasFts, params).value.0, OrWord), rest);
      }
  }

  lemma ParenthesisedParses(ts: seq<Token>, rest: seq<Token>)
    requires ParseOr(ts + ([Close] + rest)).Some? && ParseOr(ts + ([Close] + rest)).value.1 == [Close] + rest
    ensures ParseAtom([Open] + ts + [Close] + rest) == Some((ParseOr(ts + ([Close] + rest)).value.0, rest))
  {
    var whole := [Open] + ts + [Close] + rest;
    assert whole[1..] == ts + ([Close] + rest);
    assert ([Close] + rest)[1..] == rest;
  }

  lemma {:induction false} ChainParses(fs: seq<QueryFilter>, hasShadow: bool, hasFts: bool, params: seq<Value>,
                                       rest: seq<Token>, conjunction: bool)
    requires fs != [] && BuildAll(fs, hasShadow, hasFts, params).Ok? && Ends(rest)
    ensures var ts := Join(BuildAll(fs, hasShadow, hasFts, params).value.0, if conjunction then AndWord else OrWord);
      var parsed := Some((ChainOf(fs, hasShadow, |params|, conjunction), rest));
      ParseOr(ts + rest) == parsed && (conjunction ==> ParseAnd(ts + rest) == parsed)
    decreases fs, 0
  {
    var word := if conjunction then AndWord else OrWord;
    var (first, mid) := FirstOf(fs, hasShadow, hasFts, params);
    var later := BuildAll(fs[1..], hasShadow, hasFts, mid).value.0;
    ClauseNumbers(fs[0], hasShadow, hasFts, params);
    if |fs| == 1 {
      ClauseParses(fs[0], hasShadow, hasFts, params, rest);
      LoneParses(first, rest, ExprOf(fs[0], hasShadow, |params|));
    } else {
      var more := Join(later, word);
      ClauseParses(fs[0], hasShadow, hasFts, params, [word] + (more + rest));
      ChainParses(fs[1..], hasShadow, hasFts, mid, rest, conjunction);
      JoinStep(first, later, word);
      var tail := ChainOf(fs[1..], hasShadow, |mid|, conjunction);
      LinkParses(first, more, rest, ExprOf(fs[0], hasShadow, |params|), tail, conjunction);
    }
  }

  lemma LoneParses(first: seq<Token>, rest: seq<Token>, e: Expr)
    requires ParseAtom(first + rest) == Some((e, rest)) && Ends(rest)
    ensures ParseAnd(first + rest) == ParseOr(first + rest) == Some((e, rest))
  {
  }

  /** An atom, AND or OR, and a chain read to its end make one longer chain. */
  lemma LinkParses(first: seq<Token>, more: seq<Token>, rest: seq<Token>, head: Expr, tail: Expr, conjunction: bool)
    requires var word := if conjunction then AndWord else OrWord; var after := [word] + (more + rest);
      ParseAtom(first + after) == Some((head, after))
    requires ParseOr(more + rest) == Some((tail, rest)) && Ends(rest)
    requires conjunction ==> ParseAnd(more + rest) == Some((tail, rest))
    ensures var word := if conjunction then AndWord else OrWord;
      var parsed := Some((if conjunction then EAnd(head, tail) else EOr(head, tail), rest));
      var ts := first + [word] + more + rest;
      ParseOr(ts) == parsed && (conjunction ==> ParseAnd(ts) == parsed)
  {
    var word := if conjunction then AndWord else OrWord;
    var after := [word] + (more + rest);
    assert first + [word] + more + rest == first + after;
    assert after[1..] == more + rest;
  }

  // ── The clause means what the filter means ─────────────────────────────────

  /** The list holds these parameters at numbers n + 1 and on. */
  ghost predicate HoldsAt(params: seq<Value>, n: nat, own: seq<Value>) {
    n + |own| <= |params| && params[n..n + |own|] == own
  }

  lemma HoldsAtSplits(params: seq<Value>, n: nat, a: seq<Value>, b: seq<Value>)
    requires HoldsAt(params, n, a + b)
    ensures HoldsAt(params, n, a) && HoldsAt(params, n + |a|, b)
  {
    assert params[n..n + |a + b|][..|a|] == a && params[n..n + |a + b|][|a|..] == b;
    assert params[n..n + |a + b|][..|a|] == params[n..n + |a|];
    assert params[n..n + |a + b|][|a|..] == params[n + |a|..n + |a| + |b|];
  }

  lemma {:induction false} ExprMeans(f: QueryFilter, hasShadow: bool, n: nat, params: seq<Value>, env: Env)
    requires HoldsAt(params, n, Collected(f))
    ensures Eval(ExprOf(f, hasShadow, n), env, params) == True <==> Holds(f, hasShadow, env)
    decreases f, 1
  {
    match f
    case Compare(op, field, value) => assert params[n..n + 1][0] == value;
    case Contains(text) => assert params[n..n + 1][0] == Text(text);
    case And(filters) => if filters != [] { ChainMeans(filters, hasShadow, n, params, env, true); }
    case Or(filters) => if filters != [] { ChainMeans(filters, hasShadow, n, params, env, false); }
  }

  ghost predicate ListHolds(fs: seq<QueryFilter>, hasShadow: bool, env: Env, conjunction: bool) {
    if conjunction then forall g :: g in fs ==> Holds(g, hasShadow, env)
    else exists g :: g in fs && Holds(g, hasShadow, env)
  }

  lemma ListHoldsSplits(fs: seq<QueryFilter>, hasShadow: bool, env: Env, conjunction: bool)
    requires fs != []
    ensures var first, rest := Holds(fs[0], hasShadow, env), ListHolds(fs[1..], hasShadow, env, conjunction);
      ListHolds(fs, hasShadow, env, conjunction) <==> if conjunction then first && rest else first || rest
  {
    assert forall g :: g in fs <==> g == fs[0] || g in fs[1..];
    if !conjunction && ListHolds(fs[1..], hasShadow, env, conjunction) {
      var g :| g in fs[1..] && Holds(g, hasShadow, env);
      assert g in fs;
    }
  }

  lemma {:induction false} ChainMeans(fs: seq<QueryFilter>, hasShadow: bool, n: nat, params: seq<Value>, env: Env,
                                      conjunction: bool)
    requires fs != [] && HoldsAt(params, n, CollectedAll(fs))
    ensures Eval(ChainOf(fs, hasShadow, n, conjunction), env, params) == True <==>
      ListHolds(fs, hasShadow, env, conjunction)
    decreases fs, 0
  {
    HoldsAtSplits(params, n, Collected(fs[0]), CollectedAll(fs[1..]));
    ExprMeans(fs[0], hasShadow, n, params, env);
    ListHoldsSplits(fs, hasShadow, env, conjunction);
    if |fs| > 1 {
      ChainMeans(fs[1..], hasShadow, n + |Collected(fs[0])|, params, env, conjunction);
    }
  }

  /** A clause compiles exactly when every field is a plain identifier and full-text search is
      asked for only where there is a full-text index. */
  predicate Compiles(f: QueryFilter, hasFts: bool) {
    match f
    case Compare(_, field, _) => ValidIdent(field)
    case Contains(_) => hasFts
    case And(filters) => forall g :: g in filters ==> Compiles(g, hasFts)
    case Or(filters) => forall g :: g in filters ==> Compiles(g, hasFts)
  }

  lemma {:induction false} CompilesExactly(f: QueryFilter, hasShadow: bool, hasFts: bool, params: seq<Value>)
    ensures BuildFilterSql(f, hasShadow, hasFts, params).Ok? <==> Compiles(f, hasFts)
    decreases f, 1
  {
    match f
    case Compare(_, _, _) =>
    case Contains(_) =>
    case And(filters) => AllCompile(filters, hasShadow, hasFts, params);
    case Or(filters) => AllCompile(filters, hasShadow, hasFts, params);
  }

  lemma {:induction false} AllCompile(fs: seq<QueryFilter>, hasShadow: bool, hasFts: bool, params: seq<Value>)
    ensures BuildAll(fs, hasShadow, hasFts, params).Ok? <==> forall g :: g in fs ==> Compiles(g, hasFts)
    decreases fs, 0
  {
    if fs != [] {
      CompilesExactly(fs[0], hasShadow, hasFts, params);
      assert forall g :: g in fs <==> g == fs[0] || g in fs[1..];
      if BuildFilterSql(fs[0], hasShadow, hasFts, params).Ok? {
        AllCompile(fs[1..], hasShadow, hasFts, BuildFilterSql(fs[0], hasShadow, hasFts, params).value.1);
      }
    }
  }

  // ── The whole query ────────────────────────────────────────────────────────

  datatype SortOrder = HlcAsc | HlcDesc

  datatype QueryOpts = QueryOpts(filter: Option<QueryFilter>, limit: Option<nat>, offset: nat,
                                 includeDeleted: bool, order: SortOrder)

  /** The statement `query` prepares: its WHERE clause, the numbers of LIMIT and OFFSET, and the
      values bound to the parameters. */
  datatype Statement = Statement(clause: seq<Token>, limitIdx: nat, offsetIdx: nat, params: seq<Value>)

  /** Rust's `usize as i64` on a 64-bit machine: the low 64 bits, read as two's complement. */
  function AsI64(n: nat): (r: int)
    ensures n <= I64_MAX ==> r == n
    ensures -I64_MAX - 1 <= r <= I64_MAX && (n - r) % (2 * (I64_MAX + 1)) == 0
  {
    var low := n % (2 * (I64_MAX + 1));
    if low <= I64_MAX then low else low - 2 * (I64_MAX + 1)
  }

  /** LIMIT -1 is SQLite's "no limit". */
  function LimitValue(limit: Option<nat>): int {
    match limit case Some(l) => AsI64(l) case None => -1
  }

  function FilterSql(filter: Option<QueryFilter>, hasShadow: bool, hasFts: bool,
                     params: seq<Value>): Outcome<(seq<Token>, seq<Value>)> {
    match filter
    case None => Ok(([], params))
    case Some(f) =>
      match BuildFilterSql(f, hasShadow, hasFts, params)
      case Ok((ts, grown)) => Ok(([AndWord, Open] + ts + [Close], grown))
      case Err(error) => Err(error)
  }

  function BuildQuery(collection: string, hasShadow: bool, hasFts: bool, opts: QueryOpts): Outcome<Statement> {
    if !ValidIdent(collection) then Err("invalid identifier")
    else
      match FilterSql(opts.filter, hasShadow, hasFts, [Text(collection)])
      case Err(error) => Err(error)
      case Ok((filterSql, params)) =>
        var deleted := if opts.includeDeleted then [] else [AndWord, Column(R, "deleted"), Op(Eq), Number(0)];
        Ok(Statement([Column(R, "collection"), Op(Eq), Param(1)] + deleted + filterSql,
                     |params| + 1, |params| + 2,
                     params + [Integer(LimitValue(opts.limit)), Integer(AsI64(opts.offset))]))
  }

  /** The row passes the query: its collection, its deletion mark, the filter. */
  predicate Passes(collection: string, hasShadow: bool, opts: QueryOpts, env: Env) {
    && ColumnValue(env, R, "collection") == Text(collection)
    && (!opts.includeDeleted ==> ColumnValue(env, R, "deleted") == Integer(0))
    && (opts.filter.Some? ==> Holds(opts.filter.value, hasShadow, env))
  }

  /** The columns every record has, with the types the schema gives them. */
  predicate RecordColumnsTyped(env: Env) {
    ColumnValue(env, R, "collection").Text? && ColumnValue(env, R, "deleted").Integer?
  }

  /** The expression the whole clause is read as. */
  function Conjoined(includeDeleted: bool, filter: Option<Expr>): Expr {
    var collection := ECompare(R, "collection", Eq, OfParam(1));
    var deleted := ECompare(R, "deleted", Eq, OfNumber(0));
    match filter
    case None => if includeDeleted then collection else EAnd(collection, deleted)
    case Some(e) => if includeDeleted then EAnd(collection, e) else EAnd(collection, EAnd(deleted, e))
  }

  function QueryExpr(hasShadow: bool, opts: QueryOpts): Expr {
    Conjoined(opts.includeDeleted, match opts.filter case None => None case Some(f) => Some(ExprOf(f, hasShadow, 1)))
  }

  lemma ComparisonParses(table: Table, name: string, op: CmpOp, right: Token, rest: seq<Token>)
    requires right.Param? || right.Number?
    ensures ParseAtom([Column(table, name), Op(op), right] + rest) ==
      Some((ECompare(table, name, op, if right.Param? then OfParam(right.k) else OfNumber(right.n)), rest))
  {
    assert ([Column(table, name), Op(op), right] + rest)[3..] == rest;
  }

  /** What follows the fixed comparisons: nothing, or AND and the parenthesised filter. */
  lemma FilterSqlParses(f: QueryFilter, hasShadow: bool, hasFts: bool, params: seq<Value>)
    requires BuildFilterSql(f, hasShadow, hasFts, params).Ok?
    ensures var ts := FilterSql(Some(f), hasShadow, hasFts, params).value.0;
      ts[0] == AndWord && ParseAnd(ts[1..]) == Some((ExprOf(f, hasShadow, |params|), []))
  {
    var clause := BuildFilterSql(f, hasShadow, hasFts, params).value.0;
    ClauseParses(f, hasShadow, hasFts, params, [Close] + []);
    ParenthesisedParses(clause, []);
    var ts := [AndWord, Open] + clause + [Close];
    assert ts[1..] == [Open] + clause + [Close] + [];
  }

  /** `r.deleted = 0` and what follows it. */
  lemma DeletedParses(filterSql: seq<Token>, filter: Option<Expr>)
    requires filter.None? ==> filterSql == []
    requires filter.Some? ==>
      filterSql != [] && filterSql[0] == AndWord && ParseAnd(filterSql[1..]) == Some((filter.value, []))
    ensures var mark := [AndWord, Column(R, "deleted"), Op(Eq), Number(0)] + filterSql;
      var deleted := ECompare(R, "deleted", Eq, OfNumber(0));
      var read := if filter.Some? then EAnd(deleted, filter.value) else deleted;
      mark[0] == AndWord && ParseAnd(mark[1..]) == Some((read, []))
  {
    ComparisonParses(R, "deleted", Eq, Number(0), filterSql);
    assert ([AndWord, Column(R, "deleted"), Op(Eq), Number(0)] + filterSql)[1..] ==
      [Column(R, "deleted"), Op(Eq), Number(0)] + filterSql;
  }

  /** `r.collection = ?1` and what follows it. */
  lemma CollectionParses(more: seq<Token>, tail: Option<Expr>)
    requires tail.None? ==> more == []
    requires tail.Some? ==> more != [] && more[0] == AndWord && ParseAnd(more[1..]) == Some((tail.value, []))
    ensures var collection := ECompare(R, "collection", Eq, OfParam(1));
      ParseOr([Column(R, "collection"), Op(Eq), Param(1)] + more) ==
      Some((if tail.Some? then EAnd(collection, tail.value) else collection, []))
  {
    ComparisonParses(R, "collection", Eq, Param(1), more);
  }

  lemma QueryParses(collection: string, hasShadow: bool, hasFts: bool, opts: QueryOpts)
    requires BuildQuery(collection, hasShadow, hasFts, opts).Ok?
    ensures ParseOr(BuildQuery(collection, hasShadow, hasFts, opts).value.clause) ==
      Some((QueryExpr(hasShadow, opts), []))
  {
    var filterSql := FilterSql(opts.filter, hasShadow, hasFts, [Text(collection)]).value.0;
    var filter := if opts.filter.None? then None else Some(ExprOf(opts.filter.value, hasShadow, 1));
    if opts.filter.Some? { FilterSqlParses(opts.filter.value, hasShadow, hasFts, [Text(collection)]); }
    StatementParses(opts.includeDeleted, filterSql, filter);
  }

  lemma StatementParses(includeDeleted: bool, filterSql: seq<Token>, filter: Option<Expr>)
    requires filter.None? ==> filterSql == []
    requires filter.Some? ==>
      filterSql != [] && filterSql[0] == AndWord && ParseAnd(filterSql[1..]) == Some((filter.value, []))
    ensures var mark := if includeDeleted then [] else [AndWord, Column(R, "deleted"), Op(Eq), Number(0)];
      ParseOr([Column(R, "collection"), Op(Eq), Param(1)] + mark + filterSql) ==
        Some((Conjoined(includeDeleted, filter), []))
  {
    var start := [Column(R, "collection"), Op(Eq), Param(1)];
    if includeDeleted {
      assert start + [] + filterSql == start + filterSql;
      CollectionParses(filterSql, filter);
    } else {
      var mark, deleted := [AndWord, Column(R, "deleted"), Op(Eq), Number(0)], ECompare(R, "deleted", Eq, OfNumber(0));
      DeletedParses(filterSql, filter);
      CollectionParses(mark + filterSql, Some(if filter.Some? then EAnd(deleted, filter.value) else deleted));
      Associative(start, mark, filterSql);
    }
  }

  /** The compiled query means what was asked. Read with SQL precedence and three-valued logic
      against the complete parameter list, its clause is true exactly on the rows of the collection
      that pass the deletion mark and the filter; LIMIT and OFFSET read their own values; every
      parameter number is used exactly once. */
  lemma QueryMeans(collection: string, hasShadow: bool, hasFts: bool, opts: QueryOpts, env: Env)
    requires BuildQuery(collection, hasShadow, hasFts, opts).Ok? && RecordColumnsTyped(env)
    ensures var st := BuildQuery(collection, hasShadow, hasFts, opts).value; var read := ParseOr(st.clause);
      && read.Some? && read.value.1 == []
      && (Eval(read.value.0, env, st.params) == True <==> Passes(collection, hasShadow, opts, env))
      && OperandValue(OfParam(st.limitIdx), st.params) == Integer(LimitValue(opts.limit))
      && OperandValue(OfParam(st.offsetIdx), st.params) == Integer(AsI64(opts.offset))
      && Refs(st.clause) + [st.limitIdx, st.offsetIdx] == Numbers(1, |st.params|)
  {
    var st := BuildQuery(collection, hasShadow, hasFts, opts).value;
    QueryParses(collection, hasShadow, hasFts, opts);
    QueryNumbers(collection, hasShadow, hasFts, opts);
    QueryParams(collection, hasShadow, hasFts, opts);
    QueryExprMeans(collection, hasShadow, opts, env, st.params);
  }

  /** The bound values: the collection, the filter's own, then LIMIT and OFFSET. */
  lemma QueryParams(collection: string, hasShadow: bool, hasFts: bool, opts: QueryOpts)
    requires BuildQuery(collection, hasShadow, hasFts, opts).Ok?
    ensures var st := BuildQuery(collection, hasShadow, hasFts, opts).value;
      var own := if opts.filter.Some? then Collected(opts.filter.value) else [];
      && st.params == [Text(collection)] + own + [Integer(LimitValue(opts.limit)), Integer(AsI64(opts.offset))]
      && st.limitIdx == |own| + 2 && st.offsetIdx == |own| + 3
      && HoldsAt(st.params, 1, own)
  {
    var st := BuildQuery(collection, hasShadow, hasFts, opts).value;
    if opts.filter.Some? {
      ClauseNumbers(opts.filter.value, hasShadow, hasFts, [Text(collection)]);
      var own := Collected(opts.filter.value);
      assert st.params == [Text(collection)] + own + [Integer(LimitValue(opts.limit)), Integer(AsI64(opts.offset))];
      assert st.params[1..1 + |own|] == own;
    } else {
      assert st.params == [Text(collection)] + [] + [Integer(LimitValue(opts.limit)), Integer(AsI64(opts.offset))];
    }
  }

  lemma QueryExprMeans(collection: string, hasShadow: bool, opts: QueryOpts, env: Env, params: seq<Value>)
    requires RecordColumnsTyped(env) && params != [] && params[0] == Text(collection)
    requires opts.filter.Some? ==> HoldsAt(params, 1, Collected(opts.filter.value))
    ensures Eval(QueryExpr(hasShadow, opts), env, params) == True <==> Passes(collection, hasShadow, opts, env)
  {
    TextEqualsOnlyItself(ColumnValue(env, R, "collection"), collection);
    assert Eval(ECompare(R, "collection", Eq, OfParam(1)), env, params) == True
      <==> ColumnValue(env, R, "collection") == Text(collection);
    assert Eval(ECompare(R, "deleted", Eq, OfNumber(0)), env, params) == True
      <==> ColumnValue(env, R, "deleted") == Integer(0);
    if opts.filter.Some? { ExprMeans(opts.filter.value, hasShadow, 1, params, env); }
  }

  lemma TextEqualsOnlyItself(v: Value, s: string)
    requires v.Text?
    ensures Satisfies(Eq, v, Text(s)) <==> v == Text(s)
  {
    Trichotomy(v.s, s);
  }

  /** The fixed comparisons mention ?1 alone. */
  lemma FixedRefs()
    ensures Refs([Column(R, "collection"), Op(Eq), Param(1)]) == [1]
    ensures Refs([AndWord, Column(R, "deleted"), Op(Eq), Number(0)]) == []
  {
    var collection := [Column(R, "collection"), Op(Eq), Param(1)];
    var mark := [AndWord, Column(R, "deleted"), Op(Eq), Number(0)];
    assert collection[1..] == [Op(Eq), Param(1)] && collection[1..][1..] == [Param(1)];
    assert mark[1..] == [Column(R, "deleted"), Op(Eq), Number(0)] && mark[1..][1..] == [Op(Eq), Number(0)];
    assert mark[1..][1..][1..] == [Number(0)];
  }

  lemma FilterSqlAppends(filter: Option<QueryFilter>, hasShadow: bool, hasFts: bool, params: seq<Value>)
    requires FilterSql(filter, hasShadow, hasFts, params).Ok?
    ensures var (ts, grown) := FilterSql(filter, hasShadow, hasFts, params).value;
      Appends(ts, grown, params, if filter.Some? then Collected(filter.value) else [])
  {
    match filter
    case None => assert params + [] == params;
    case Some(f) =>
      ClauseNumbers(f, hasShadow, hasFts, params);
      ConjoinedRefs(BuildFilterSql(f, hasShadow, hasFts, params).value.0);
  }

  lemma ConjoinedRefs(ts: seq<Token>)
    ensures Refs([AndWord, Open] + ts + [Close]) == Refs(ts)
  {
    ParenthesisedRefs(ts);
    assert [AndWord, Open] + ts + [Close] == [AndWord] + ([Open] + ts + [Close]);
    RefsConcat([AndWord], [Open] + ts + [Close]);
    assert Refs([AndWord]) == [];
  }

  lemma QueryNumbers(collection: string, hasShadow: bool, hasFts: bool, opts: QueryOpts)
    requires BuildQuery(collection, hasShadow, hasFts, opts).Ok?
    ensures var st := BuildQuery(collection, hasShadow, hasFts, opts).value;
      Refs(st.clause) + [st.limitIdx, st.offsetIdx] == Numbers(1, |st.params|)
  {
    var (filterSql, grown) := FilterSql(opts.filter, hasShadow, hasFts, [Text(collection)]).value;
    FilterSqlAppends(opts.filter, hasShadow, hasFts, [Text(collection)]);
    StatementRefs(opts.includeDeleted, filterSql);
    AllNumbered(|grown|);
  }

  lemma AllNumbered(n: nat)
    requires n > 0
    ensures [1] + Numbers(2, n - 1) + [n + 1, n + 2] == Numbers(1, n + 2)
  {
  }

  lemma StatementRefs(includeDeleted: bool, filterSql: seq<Token>)
    ensures var deleted := if includeDeleted then [] else [AndWord, Column(R, "deleted"), Op(Eq), Number(0)];
      Refs([Column(R, "collection"), Op(Eq), Param(1)] + deleted + filterSql) == [1] + Refs(filterSql)
  {
    var first := [Column(R, "collection"), Op(Eq), Param(1)];
    var deleted := if includeDeleted then [] else [AndWord, Column(R, "deleted"), Op(Eq), Number(0)];
    FixedRefs();
    RefsConcat(first + deleted, filterSql);
    RefsConcat(first, deleted);
    assert Refs(first + deleted) == [1];
  }
}
