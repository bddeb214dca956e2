/** server/drizzle-utils.ts: the predicate builder, against SQL's three-valued logic
    (PostgreSQL 16 documentation, section 9.1). */
module SqlPredicate {
  import opened Values
  import opened Filter

  datatype Truth = True | False | Unknown

  datatype Pred =
    | IsNull(col: string)
    | IsNotNull(col: string)
    | Compare(op: CompareOp, col: string, v: Value)
    | In(col: string, vs: seq<Value>)
    | Never
    | And(ps: seq<Pred>)
    | Or(ps: seq<Pred>)
    | Not(p: Pred)

  /** A column's SQL type as far as comparison goes. Integers and floats reach JavaScript as numbers,
      a `numeric` as text; SQL compares either by value. A ranked column reaches it as text that SQL
      orders otherwise: an enum, a uuid, a timestamp or date in string mode. Every other type with an
      order (timestamp, date, bigint in bigint mode, jsonb) reaches it as a value known to `===` only. */
  datatype SqlType = NumericColumn | TextColumn | RankedColumn | BooleanColumn | OtherColumn

  /** The table as SQL sees it: the exact number a numeric text denotes beside JavaScript's rounded
      reading `num`, and the places SQL's order gives to the texts of ranked columns and to the values
      of the others. */
  datatype Schema = Schema(
    types: string -> SqlType, num: NumberOf, exact: NumberOf, textRank: string -> real, rank: nat -> real)

  // ----- SQL semantics -----

  /** How two non-null values of one column compare; None when either is NULL. */
  function SqlOrder(schema: Schema, t: SqlType, a: Value, b: Value): Option<int> {
    match t
    case NumericColumn =>
      var x, y := NumberIn(schema.exact, a), NumberIn(schema.exact, b);
      if x.Some? && y.Some? then Some(CompareReals(x.value, y.value)) else None
    case TextColumn => if a.Str? && b.Str? then Some(CompareTexts(a.s, b.s)) else None
    case RankedColumn =>
      if a.Str? && b.Str? then Some(CompareReals(schema.textRank(a.s), schema.textRank(b.s))) else None
    case BooleanColumn =>
      if a.Bool? && b.Bool? then Some(if a.b == b.b then 0 else if b.b then -1 else 1) else None
    case OtherColumn =>
      if a.Other? && b.Other? then Some(CompareReals(schema.rank(a.id), schema.rank(b.id))) else None
  }

  predicate Holds(op: CompareOp, order: int) {
    match op
    case Eq => order == 0
    case Ne => order != 0
    case Gt => order > 0
    case Gte => order >= 0
    case Lt => order < 0
    case Lte => order <= 0
  }

  function CompareTruth(schema: Schema, op: CompareOp, t: SqlType, a: Value, b: Value): Truth {
    var order := SqlOrder(schema, t, a, b);
    if order.None? then Unknown else if Holds(op, order.value) then True else False
  }

  function Eval(schema: Schema, p: Pred, row: Row): Truth
    decreases p
  {
    match p
    case IsNull(col) => if Nullish(Field(row, col)) then True else False
    case IsNotNull(col) => if Nullish(Field(row, col)) then False else True
    case Compare(op, col, v) => CompareTruth(schema, op, schema.types(col), Field(row, col), v)
    case In(col, vs) =>
      if exists v :: v in vs && CompareTruth(schema, Eq, schema.types(col), Field(row, col), v) == True then True
      else if exists v :: v in vs && CompareTruth(schema, Eq, schema.types(col), Field(row, col), v) == Unknown
        then Unknown
      else False
    case Never => False
    case And(ps) =>
      if exists q :: q in ps && Eval(schema, q, row) == False then False
      else if exists q :: q in ps && Eval(schema, q, row) == Unknown then Unknown
      else True
    case Or(ps) =>
      if exists q :: q in ps && Eval(schema, q, row) == True then True
      else if exists q :: q in ps && Eval(schema, q, row) == Unknown then Unknown
      else False
    case Not(q) =>
      match Eval(schema, q, row)
      case True => False
      case False => True
      case Unknown => Unknown
  }

  /** A missing predicate is no WHERE clause at all. */
  function EvalClause(schema: Schema, p: Option<Pred>, row: Row): Truth {
    if p.None? then True else Eval(schema, p.value, row)
  }

  // ----- the builder -----

  datatype Built = Clause(p: Option<Pred>) | Throws

  /** drizzle's and(): nothing for no clauses, the clause itself for one. */
  function AndOf(ps: seq<Pred>): Option<Pred> {
    if ps == [] then None else if |ps| == 1 then Some(ps[0]) else Some(And(ps))
  }

  function OrOf(ps: seq<Pred>): Option<Pred> {
    if ps == [] then None else if |ps| == 1 then Some(ps[0]) else Some(Or(ps))
  }

  function Given(v: Value, p: Pred): seq<Pred> {
    if v.Undefined? then [] else [p]
  }

  function Comparisons(name: string, ops: Ops): seq<Pred> {
    Given(ops.eq, Compare(Eq, name, ops.eq)) +
    Given(ops.ne, Compare(Ne, name, ops.ne)) +
    Given(ops.gt, Compare(Gt, name, ops.gt)) +
    Given(ops.gte, Compare(Gte, name, ops.gte)) +
    Given(ops.lt, Compare(Lt, name, ops.lt)) +
    Given(ops.lte, Compare(Lte, name, ops.lte))
  }

  function Memberships(name: string, ops: Ops): seq<Pred> {
    (if ops.within.InArray? then [if ops.within.vs == [] then Never else In(name, ops.within.vs)] else []) +
    (if ops.isNull then [IsNull(name)] else []) +
    (if ops.isNotNull then [IsNotNull(name)] else [])
  }

  function OpClauses(name: string, ops: Ops): seq<Pred> {
    Comparisons(name, ops) + Memberships(name, ops)
  }

  /** buildColumnFilterPredicate. A `undefined` filter is skipped before the column is looked up. */
  function BuildColumn(c: ColumnFilter, allowed: set<string>): Built {
    match c.filter
    case Scalar(Undefined) => Clause(None)
    case Scalar(v) =>
      if c.name !in allowed then Throws
      else if v.Null? then Clause(Some(IsNull(c.name)))
      else Clause(Some(Compare(Eq, c.name, v)))
    case Operators(ops) =>
      if c.name !in allowed || ops.within.InNotArray? then Throws
      else Clause(AndOf(OpClauses(c.name, ops)))
  }

  /** The clauses that are there, in order: what pushing the defined ones leaves. */
  function Somes(bs: seq<Built>): seq<Pred> {
    if bs == [] then []
    else
      var b := bs[|bs| - 1];
      Somes(bs[..|bs| - 1]) + if b.Clause? && b.p.Some? then [b.p.value] else []
  }

  lemma {:induction false} SomesIn(bs: seq<Built>)
    ensures forall p :: p in Somes(bs) <==> Clause(Some(p)) in bs
  {
    if bs != [] {
      SomesIn(bs[..|bs| - 1]);
      assert bs == bs[..|bs| - 1] + [bs[|bs| - 1]];
    }
  }

  function BuildColumns(cs: seq<ColumnFilter>, allowed: set<string>): (bs: seq<Built>)
    ensures |bs| == |cs| && forall i :: 0 <= i < |cs| ==> bs[i] == BuildColumn(cs[i], allowed)
  {
    seq(|cs|, i requires 0 <= i < |cs| => BuildColumn(cs[i], allowed))
  }

  function BuildAll(asts: seq<WhereAst>, allowed: set<string>): (bs: seq<Built>)
    ensures |bs| == |asts|
    ensures forall i :: 0 <= i < |asts| ==> bs[i] == Build(asts[i], allowed)
    decreases asts, 0
  {
    if asts == [] then []
    else BuildAll(asts[..|asts| - 1], allowed) + [Build(asts[|asts| - 1], allowed)]
  }

  /** What buildWhereAstPredicate returns. */
  function Build(ast: WhereAst, allowed: set<string>): Built
    decreases ast, 1
  {
    match ast
    case AlwaysTrue => Clause(None)
    case AlwaysFalse => Throws
    case Group(columns, and, or, not) =>
      var cs, ands, ors := BuildColumns(columns, allowed), BuildAll(and, allowed), BuildAll(or, allowed);
      var negated := if not.Some? then Build(not.value, allowed) else Clause(None);
      if Throws in cs || Throws in ands || Throws in ors || negated.Throws? then Throws
      else
        var orClause := OrOf(Somes(ors));
        Clause(AndOf(
          Somes(cs) + Somes(ands) +
          (if orClause.Some? then [orClause.value] else []) +
          (if negated.p.Some? then [Not(negated.p.value)] else [])))
  }

  /** The builder as written: clauses are pushed into an array, child by child. */
  method BuildWhereAstPredicate(ast: WhereAst, allowed: set<string>) returns (b: Built)
    ensures b == Build(ast, allowed)
    decreases ast
  {
    if ast.AlwaysTrue? { return Clause(None); }
    if ast.AlwaysFalse? { return Throws; }
    var cs := BuildColumns(ast.columns, allowed);
    if Throws in cs { return Throws; }
    var ands, andsOk := BuildChildren(ast, ast.and, allowed);
    if !andsOk { return Throws; }
    var clauses := Somes(cs) + ands;
    var orClauses, orsOk := BuildChildren(ast, ast.or, allowed);
    if !orsOk { return Throws; }
    if |orClauses| == 1 {
      clauses := clauses + [orClauses[0]];
    } else if |orClauses| > 1 {
      clauses := clauses + [Or(orClauses)];
    }
    if ast.not.Some? {
      var negated := BuildWhereAstPredicate(ast.not.value, allowed);
      if negated.Throws? { return Throws; }
      if negated.p.Some? {
        clauses := clauses + [Not(negated.p.value)];
      }
    }
    ghost var orClause := OrOf(orClauses);
    ghost var negatedClause := if ast.not.Some? then Build(ast.not.value, allowed) else Clause(None);
    assert clauses == Somes(cs) + ands + (if orClause.Some? then [orClause.value] else []) +
      (if negatedClause.p.Some? then [Not(negatedClause.p.value)] else []);
    return Clause(AndOf(clauses));
  }

  method BuildChildren(ghost parent: WhereAst, children: seq<WhereAst>, allowed: set<string>)
    returns (clauses: seq<Pred>, ok: bool)
    requires forall child :: child in children ==> child < parent
    ensures ok <==> Throws !in BuildAll(children, allowed)
    ensures ok ==> clauses == Somes(BuildAll(children, allowed))
    decreases parent, 0
  {
    clauses, ok := [], true;
    for i := 0 to |children|
      invariant Throws !in BuildAll(children[..i], allowed)
      invariant clauses == Somes(BuildAll(children[..i], allowed))
    {
      assert children[..i + 1][..i] == children[..i];
      assert children[i] in children;
      var child := BuildWhereAstPredicate(children[i], allowed);
      if child.Throws? {
        assert BuildAll(children, allowed)[i] == Throws;
        return [], false;
      }
      if child.p.Some? {
        clauses := clauses + [child.p.value];
      }
    }
    assert children[..|children|] == children;
  }
}
