/** shared/filter-ast.ts: parsing a WHERE object and evaluating it against an in-memory row. */
module Filter {
  import opened Values

  /** JavaScript's `Number(text)` where it is finite on non-blank text; a parameter throughout. */
  type NumberOf = string -> Option<real>

  datatype InList = NoIn | InArray(vs: seq<Value>) | InNotArray

  /** An operator object; an operator that is absent or `undefined` is `Undefined`. */
  datatype Ops = Ops(
    eq: Value, ne: Value, gt: Value, gte: Value, lt: Value, lte: Value,
    within: InList, isNull: bool, isNotNull: bool)

  datatype FilterValue = Scalar(v: Value) | Operators(ops: Ops)

  datatype ColumnFilter = ColumnFilter(name: string, filter: FilterValue)

  datatype WhereAst =
    | AlwaysTrue
    | AlwaysFalse
    | Group(columns: seq<ColumnFilter>, and: seq<WhereAst>, or: seq<WhereAst>, not: Option<WhereAst>)

  // ----- scalar comparison -----

  function NumberIn(num: NumberOf, v: Value): Option<real> {
    match v
    case Num(n) => Some(n)
    case Str(s) => num(s)
    case _ => None
  }

  function CompareReals(a: real, b: real): int {
    if a == b then 0 else if a < b then -1 else 1
  }

  function CompareTexts(a: string, b: string): int {
    if a == b then 0 else if StrLess(a, b) then -1 else 1
  }

  /** compareScalarValues; None is its `null`. */
  function CompareScalars(num: NumberOf, left: Value, right: Value): Option<int> {
    var l, r := NumberIn(num, left), NumberIn(num, right);
    if l.Some? && r.Some? then Some(CompareReals(l.value, r.value))
    else if left.Str? && right.Str? then Some(CompareTexts(left.s, right.s))
    else if left == right then Some(0)
    else None
  }

  predicate Nullish(v: Value) {
    v.Null? || v.Undefined?
  }

  // ----- evaluation -----

  datatype CompareOp = Eq | Ne | Gt | Gte | Lt | Lte

  /** One comparison of an operator object, `v` being its operand. */
  predicate EvalOp(num: NumberOf, op: CompareOp, col: Value, v: Value) {
    var r := CompareScalars(num, col, v);
    match op
    case Eq => !v.Null? && r == Some(0)
    case Ne => !Nullish(col) && r != Some(0)
    case Gt => r.Some? && r.value > 0
    case Gte => r.Some? && r.value >= 0
    case Lt => r.Some? && r.value < 0
    case Lte => r.Some? && r.value <= 0
  }

  predicate EvalIn(num: NumberOf, within: InList, col: Value) {
    match within
    case NoIn => true
    case InNotArray => false
    case InArray(vs) => !Nullish(col) && exists v :: v in vs && CompareScalars(num, col, v) == Some(0)
  }

  predicate EvalOps(num: NumberOf, ops: Ops, col: Value) {
    && (ops.eq.Undefined? || EvalOp(num, Eq, col, ops.eq))
    && (ops.ne.Undefined? || EvalOp(num, Ne, col, ops.ne))
    && (ops.gt.Undefined? || EvalOp(num, Gt, col, ops.gt))
    && (ops.gte.Undefined? || EvalOp(num, Gte, col, ops.gte))
    && (ops.lt.Undefined? || EvalOp(num, Lt, col, ops.lt))
    && (ops.lte.Undefined? || EvalOp(num, Lte, col, ops.lte))
    && EvalIn(num, ops.within, col)
    && (ops.isNull ==> Nullish(col))
    && (ops.isNotNull ==> !Nullish(col))
  }

  predicate EvalColumn(num: NumberOf, filter: FilterValue, col: Value) {
    match filter
    case Scalar(Null) => Nullish(col)
    case Scalar(v) => CompareScalars(num, col, v) == Some(0)
    case Operators(ops) => EvalOps(num, ops, col)
  }

  predicate EvalAst(num: NumberOf, ast: WhereAst, row: Row)
    decreases ast
  {
    match ast
    case AlwaysTrue => true
    case AlwaysFalse => false
    case Group(columns, and, or, not) =>
      && (forall c :: c in columns ==> EvalColumn(num, c.filter, Field(row, c.name)))
      && (forall child :: child in and ==> EvalAst(num, child, row))
      && (or == [] || exists child :: child in or && EvalAst(num, child, row))
      && (not.Some? ==> !EvalAst(num, not.value, row))
  }

  // ----- parsing -----

  /** A WHERE condition as it arrives. `Object` lists its non-logical keys in order and keeps the
      three logical keys apart. */
  datatype Raw =
    | NullishRaw
    | NonObject
    | Object(columns: seq<ColumnFilter>, and: RawList, or: RawList, not: RawNot)

  datatype RawList = NoList | NotAList | Elements(items: seq<Raw>)

  /** `FalsyNot` is a NOT key whose value is null, false, 0 or "". */
  datatype RawNot = NoNot | FalsyNot | ListNot | TruthyNot(item: Raw)

  function Present(b: bool): nat { if b then 1 else 0 }

  /** validateLogicalNodeShape does not throw. */
  predicate ShapeOk(columns: seq<ColumnFilter>, and: RawList, or: RawList, not: RawNot) {
    var logical := Present(!and.NoList?) + Present(!or.NoList?) + Present(!not.NoNot?);
    logical <= 1 && (logical == 1 ==> columns == []) && !and.NotAList? && !or.NotAList? && !not.ListNot?
  }

  /** parseWhereClause; None stands for the thrown error. */
  function Parse(raw: Raw): Option<WhereAst>
    decreases raw, 1
  {
    match raw
    case NullishRaw => Some(AlwaysTrue)
    case NonObject => Some(AlwaysFalse)
    case Object(columns, and, or, not) =>
      if !ShapeOk(columns, and, or, not) then None
      else
        var ands := if and.Elements? then ParseAll(and.items) else Some([]);
        var ors := if or.Elements? then ParseAll(or.items) else Some([]);
        var negated := if not.TruthyNot? then Parse(not.item) else None;
        if ands.None? || ors.None? || (not.TruthyNot? && negated.None?) then None
        else Some(Group(columns, ands.value, ors.value, negated))
  }

  function ParseAll(raws: seq<Raw>): Option<seq<WhereAst>>
    decreases raws, 0
  {
    if raws == [] then Some([])
    else
      var first, rest := Parse(raws[0]), ParseAll(raws[1..]);
      if first.None? || rest.None? then None else Some([first.value] + rest.value)
  }

  /** Every level holds columns only, or one of AND, OR and NOT only. */
  predicate Exclusive(ast: WhereAst)
    decreases ast
  {
    ast.Group? ==>
      && Present(ast.columns != []) + Present(ast.and != []) + Present(ast.or != []) + Present(ast.not.Some?) <= 1
      && (forall child :: child in ast.and ==> Exclusive(child))
      && (forall child :: child in ast.or ==> Exclusive(child))
      && (ast.not.Some? ==> Exclusive(ast.not.value))
  }

  lemma {:induction false} ParsedIsExclusive(raw: Raw)
    ensures Parse(raw).Some? ==> Exclusive(Parse(raw).value)
    decreases raw, 1
  {
    if raw.Object? && Parse(raw).Some? {
      if raw.and.Elements? { ParsedAllExclusive(raw.and.items); }
      if raw.or.Elements? { ParsedAllExclusive(raw.or.items); }
      if raw.not.TruthyNot? { ParsedIsExclusive(raw.not.item); }
    }
  }

  lemma {:induction false} ParsedAllExclusive(raws: seq<Raw>)
    ensures ParseAll(raws).Some? ==>
      |ParseAll(raws).value| == |raws| && forall child :: child in ParseAll(raws).value ==> Exclusive(child)
    decreases raws, 0
  {
    if raws != [] {
      ParsedIsExclusive(raws[0]);
      ParsedAllExclusive(raws[1..]);
    }
  }

  /** The comparison behind `gt` and `lt` on text is not an order: it mixes a numeric reading with
      a textual one, and three texts compare in a circle. */
  lemma ScalarOrderIsCyclic(num: NumberOf)
    requires num("9") == Some(9.0) && num("10") == Some(10.0) && num("1a") == None
    ensures CompareScalars(num, Str("9"), Str("10")) == Some(-1)
    ensures CompareScalars(num, Str("10"), Str("1a")) == Some(-1)
    ensures CompareScalars(num, Str("1a"), Str("9")) == Some(-1)
  {
    assert "10"[0] == "1a"[0] && "10"[1..] == "0" && "1a"[1..] == "a";
    assert "1a"[0] == '1' && "9"[0] == '9';
    assert StrLess("0", "a");
  }
}
