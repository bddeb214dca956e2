/** Where the in-memory evaluator and the SQL predicate built from the same filter agree: test by test,
    at OR and NOT, and over whole filters, each time exactly. */
module FilterMeetsSql {
  import opened Values
  import opened Filter
  import opened SqlPredicate
  import opened SqlVerdict

  // ----- one test -----

  predicate SameReading(num: NumberOf, a: string, b: string) {
    num(a).Some? && num(a) == num(b)
  }

  /** How the evaluator and SQL relate two values, `None` being the evaluator's "neither less, equal nor
      greater", and that the operator comes out the same on both. */
  predicate RelationsMeet(op: CompareOp, evaluator: Option<int>, sql: int) {
    if evaluator.Some? then Holds(op, evaluator.value) <==> Holds(op, sql)
    else !Holds(if op.Ne? then Eq else op, sql)
  }

  /** Two texts that both read as numbers must stand in the same relation as texts. */
  predicate TextsMeet(num: NumberOf, op: CompareOp, a: string, b: string) {
    num(a).None? || num(b).None? ||
    (Holds(op, CompareReals(num(a).value, num(b).value)) <==> Holds(op, CompareTexts(a, b)))
  }

  /** Numbers: JavaScript's readings, or the texts where one of them has none, against the exact
      values. */
  predicate NumbersMeet(schema: Schema, op: CompareOp, col: Value, v: Value) {
    NumberIn(schema.exact, col).Some? && NumberIn(schema.exact, v).Some? ==>
      RelationsMeet(op, CompareScalars(schema.num, col, v),
                    CompareReals(NumberIn(schema.exact, col).value, NumberIn(schema.exact, v).value))
  }

  /** When both sides answer one comparison alike. A null operand never holds in SQL; the evaluator lets
      `ne` pass on values, and `gte` and `lte` on null. Otherwise, by the column's type: the relation
      SQL sees must not be one the evaluator misses. Booleans it knows to be equal or not; dates and
      the like only to be the very same value, so that no order between two of them may matter. */
  predicate CmpMeets(schema: Schema, t: SqlType, op: CompareOp, col: Value, v: Value) {
    if v.Null? then (if op.Ne? then Nullish(col) else op.Gte? || op.Lte? ==> !col.Null?)
    else if Nullish(col) then true
    else match t
      case NumericColumn => NumbersMeet(schema, op, col, v)
      case TextColumn => col.Str? && v.Str? ==> TextsMeet(schema.num, op, col.s, v.s)
      case RankedColumn =>
        col.Str? && v.Str? ==>
          RelationsMeet(op, CompareScalars(schema.num, col, v),
            CompareReals(schema.textRank(col.s), schema.textRank(v.s)))
      case BooleanColumn => op.Eq? || op.Ne? || col == v || (v.Bool? ==> !Holds(op, if v.b then -1 else 1))
      case OtherColumn =>
        col.Other? && v.Other? && col != v ==>
          !Holds(if op.Ne? then Eq else op, CompareReals(schema.rank(col.id), schema.rank(v.id)))
  }

  /** The value is in the list for the evaluator. */
  predicate Listed(num: NumberOf, vs: seq<Value>, col: Value) {
    exists v :: v in vs && CompareScalars(num, col, v) == Some(0)
  }

  /** The value is in the list for SQL: as a number, or by its rank. */
  predicate ListedExactly(schema: Schema, vs: seq<Value>, col: Value) {
    exists v :: v in vs && NumberIn(schema.exact, v).Some? && NumberIn(schema.exact, v) == NumberIn(schema.exact, col)
  }

  predicate ListedByRank(schema: Schema, vs: seq<Value>, col: string) {
    exists v :: v in vs && v.Str? && schema.textRank(v.s) == schema.textRank(col)
  }

  /** When both sides answer an `in` alike. */
  predicate WithinMeets(schema: Schema, t: SqlType, vs: seq<Value>, col: Value) {
    Nullish(col) ||
    match t
    case NumericColumn => Listed(schema.num, vs, col) <==> ListedExactly(schema, vs, col)
    case TextColumn => col.Str? ==> col in vs || forall v :: v in vs && v.Str? ==> !SameReading(schema.num, col.s, v.s)
    case RankedColumn => col.Str? ==> (Listed(schema.num, vs, col) <==> ListedByRank(schema, vs, col.s))
    case BooleanColumn => true
    case OtherColumn =>
      col.Other? ==> col in vs || forall v :: v in vs && v.Other? ==> schema.rank(v.id) != schema.rank(col.id)
  }

  predicate TestMeets(schema: Schema, t: SqlType, test: Test, col: Value) {
    match test
    case Cmp(op, v) => CmpMeets(schema, t, op, col, v)
    case Within(vs) => WithinMeets(schema, t, vs, col)
    case NullTest => true
    case NotNullTest => true
    case NoClause => col.Undefined?
  }

  lemma CmpMeetsIff(schema: Schema, t: SqlType, op: CompareOp, col: Value, v: Value)
    requires Comparable(schema, t, col, v) && !v.Undefined?
    ensures (EvalOp(schema.num, op, col, v) <==> SqlHolds(schema, t, op, col, v)) <==> CmpMeets(schema, t, op, col, v)
  {
  }

  /** What equality in a list comes to, type by type. */
  lemma EqualityIs(schema: Schema, t: SqlType, col: Value, v: Value)
    requires Comparable(schema, t, col, v) && !Nullish(col)
    ensures t.TextColumn? && v.Str? ==> (SqlHolds(schema, t, Eq, col, v) <==> col == v)
    ensures t.TextColumn? ==>
      (CompareScalars(schema.num, col, v) == Some(0) <==> col == v || (v.Str? && SameReading(schema.num, col.s, v.s)))
    ensures t.BooleanColumn? ==> (SqlHolds(schema, t, Eq, col, v) <==> CompareScalars(schema.num, col, v) == Some(0))
    ensures t.OtherColumn? ==> (CompareScalars(schema.num, col, v) == Some(0) <==> col == v)
    ensures t.OtherColumn? ==>
      (SqlHolds(schema, t, Eq, col, v) <==> v.Other? && schema.rank(v.id) == schema.rank(col.id))
    ensures t.RankedColumn? ==>
      (SqlHolds(schema, t, Eq, col, v) <==> v.Str? && schema.textRank(v.s) == schema.textRank(col.s))
    ensures t.NumericColumn? ==>
      (SqlHolds(schema, t, Eq, col, v) <==>
       NumberIn(schema.exact, v).Some? && NumberIn(schema.exact, v) == NumberIn(schema.exact, col))
    ensures v.Null? ==> !SqlHolds(schema, t, Eq, col, v)
  {
  }

  lemma WithinMeetsIff(schema: Schema, t: SqlType, vs: seq<Value>, col: Value)
    requires forall v :: v in vs ==> Comparable(schema, t, col, v)
    ensures (EvalIn(schema.num, InArray(vs), col) <==> TestKeeps(schema, t, Within(vs), col)) <==>
      TestMeets(schema, t, Within(vs), col)
  {
    if !Nullish(col) {
      forall v | v in vs { EqualityIs(schema, t, col, v); }
      hide CompareScalars, SqlHolds, NumberIn;
      if vs != [] { assert vs[0] in vs; }
    } else {
      forall v | v in vs { OrderIsKnown(schema, t, col, v); }
      hide CompareScalars, WithinMeets;
    }
  }
  /** Every operator, every operand: the evaluator passes a test exactly when SQL finds it TRUE, if and
      only if the test's condition holds on the column's value. */
  lemma TestMeetsIff(schema: Schema, name: string, test: Test, row: Row)
    requires TestTyped(schema, schema.types(name), test, Field(row, name)) && (test.Cmp? ==> !test.v.Undefined?)
    ensures
      var t, col := schema.types(name), Field(row, name);
      var sql := test.NoClause? || Eval(schema, PredOf(name, test), row) == True;
      ((Passes(schema.num, test, col) <==> sql) <==> TestMeets(schema, t, test, col)) &&
      (sql <==> TestKeeps(schema, t, test, col))
  {
    var t, col := schema.types(name), Field(row, name);
    if !test.NoClause? { TestIsPred(schema, name, test, row); }
    hide Eval, PredOf;
    if test.Cmp? { CmpMeetsIff(schema, t, test.op, col, test.v); }
    if test.Within? { WithinMeetsIff(schema, t, test.vs, col); }
    hide EvalOp, EvalIn, SqlHolds, CmpMeets;
  }

  /** Equality of texts: alike exactly when they are the same, one is no number, or they are different
      numbers. */
  lemma TextEqualityMeets(num: NumberOf, a: string, b: string)
    ensures TextsMeet(num, Eq, a, b) <==> a == b || num(a).None? || num(b).None? || num(a) != num(b)
  {
  }

  /** Numbers whose readings are exact always meet, for every operator and in every list. */
  lemma ExactNumbersMeet(schema: Schema, test: Test, col: Value)
    requires NumberIn(schema.num, col) == NumberIn(schema.exact, col)
    requires test.Cmp? ==>
      NumberIn(schema.num, test.v) == NumberIn(schema.exact, test.v) && NumberIn(schema.exact, test.v).Some?
    requires test.Within? ==>
      forall v :: v in test.vs && !v.Null? ==>
        NumberIn(schema.num, v) == NumberIn(schema.exact, v) && NumberIn(schema.exact, v).Some?
    requires NumberIn(schema.exact, col).Some? && !test.NoClause?
    ensures TestMeets(schema, NumericColumn, test, col)
  {
    if test.Within? {
      forall v | v in test.vs
        ensures CompareScalars(schema.num, col, v) == Some(0) <==>
          NumberIn(schema.exact, v).Some? && NumberIn(schema.exact, v) == NumberIn(schema.exact, col)
      {
      }
      hide CompareScalars, NumberIn;
    }
  }

  // ----- whole filters, in memory -----

  /** The evaluator's no rests on values that are there: SQL will not be in doubt. */
  predicate Denies(num: NumberOf, ast: WhereAst, row: Row)
    decreases ast
  {
    ast.Group? &&
    (|| (exists c :: c in ast.columns && ColumnDenies(num, c, row))
     || (exists child :: child in ast.and && Denies(num, child, row))
     || ((exists child :: child in ast.or && !Vacuous(child)) &&
         forall child :: child in ast.or && !Vacuous(child) ==> Denies(num, child, row))
     || (ast.not.Some? && !Vacuous(ast.not.value) && EvalAst(num, ast.not.value, row)))
  }

  predicate ColumnDenies(num: NumberOf, c: ColumnFilter, row: Row) {
    exists test :: test in TestsOf(c.filter) && Known(test, Field(row, c.name)) &&
      !Passes(num, test, Field(row, c.name))
  }

  predicate ColumnMeets(schema: Schema, c: ColumnFilter, row: Row) {
    forall test :: test in TestsOf(c.filter) ==> TestMeets(schema, schema.types(c.name), test, Field(row, c.name))
  }

  /** Children of an OR of which the builder drops some: one of the others has to accept the row. */
  predicate OrMeets(num: NumberOf, children: seq<WhereAst>, row: Row) {
    (exists child :: child in children && Vacuous(child)) && (exists child :: child in children && !Vacuous(child)) ==>
    exists child :: child in children && !Vacuous(child) && EvalAst(num, child, row)
  }

  /** A negated filter has to make a clause, and to accept the row or deny it on values. */
  predicate NotMeets(num: NumberOf, child: WhereAst, row: Row) {
    !Vacuous(child) && (EvalAst(num, child, row) || Denies(num, child, row))
  }

  /** No test, no OR and no NOT of the filter, at any depth, parts the two sides on this row. */
  predicate Straight(schema: Schema, ast: WhereAst, row: Row)
    decreases ast
  {
    ast.Group? ==>
      && (forall c :: c in ast.columns ==> ColumnMeets(schema, c, row))
      && (forall child :: child in ast.and ==> Straight(schema, child, row))
      && (forall child :: child in ast.or ==> Straight(schema, child, row))
      && OrMeets(schema.num, ast.or, row)
      && (ast.not.Some? ==> Straight(schema, ast.not.value, row) && NotMeets(schema.num, ast.not.value, row))
  }

  lemma ColumnStraight(schema: Schema, c: ColumnFilter, row: Row)
    requires ColumnTyped(schema, c, row) && ColumnMeets(schema, c, row)
    ensures ColumnKeeps(schema, c, row) <==> EvalColumn(schema.num, c.filter, Field(row, c.name))
    ensures ColumnRefutes(schema, c, row) <==> ColumnDenies(schema.num, c, row)
  {
    ColumnIsTests(schema.num, c.filter, Field(row, c.name));
    OperandsAreGiven(c.filter);
    hide TestsOf, EvalColumn, TestMeets, TestKeeps, Passes, Known, TestTyped, Eval;
    forall test | test in TestsOf(c.filter)
      ensures Passes(schema.num, test, Field(row, c.name)) <==>
        TestKeeps(schema, schema.types(c.name), test, Field(row, c.name))
    {
      TestMeetsIff(schema, c.name, test, row);
    }
  }

  lemma OperandsAreGiven(filter: FilterValue)
    ensures forall test :: test in TestsOf(filter) && test.Cmp? ==> !test.v.Undefined?
  {
  }

  lemma {:induction false} VacuousKeeps(schema: Schema, ast: WhereAst, row: Row)
    requires Vacuous(ast)
    ensures Keeps(schema, ast, row) && !Refutes(schema, ast, row)
    decreases ast
  {
    if ast.Group? {
      forall child | child in ast.and || child in ast.or
        ensures Keeps(schema, child, row) && !Refutes(schema, child, row)
      {
        VacuousKeeps(schema, child, row);
      }
      forall c | c in ast.columns ensures ColumnKeeps(schema, c, row) && !ColumnRefutes(schema, c, row) {
        assert forall test :: test in TestsOf(c.filter) ==> test.NoClause?;
      }
    }
  }

  /** On a straight filter SQL's verdict is the evaluator's. */
  lemma {:induction false} StraightVerdict(schema: Schema, ast: WhereAst, row: Row)
    requires FilterTyped(schema, ast, row) && Straight(schema, ast, row)
    ensures Keeps(schema, ast, row) <==> EvalAst(schema.num, ast, row)
    ensures Refutes(schema, ast, row) <==> Denies(schema.num, ast, row)
    decreases ast
  {
    if ast.Group? {
      forall c | c in ast.columns { ColumnStraight(schema, c, row); }
      forall child | child in ast.and || child in ast.or
        ensures Keeps(schema, child, row) <==> EvalAst(schema.num, child, row)
        ensures Refutes(schema, child, row) <==> Denies(schema.num, child, row)
      {
        StraightVerdict(schema, child, row);
      }
      if ast.not.Some? { StraightVerdict(schema, ast.not.value, row); }
      GroupStraight(schema, ast, row);
    }
  }

  lemma OrSides(schema: Schema, children: seq<WhereAst>, row: Row)
    requires forall child :: child in children ==> (Keeps(schema, child, row) <==> EvalAst(schema.num, child, row))
    ensures
      var sql := (forall child :: child in children ==> Vacuous(child)) ||
                 exists child :: child in children && !Vacuous(child) && Keeps(schema, child, row);
      var evaluator := children == [] || exists child :: child in children && EvalAst(schema.num, child, row);
      (sql <==> evaluator) <==> OrMeets(schema.num, children, row)
  {
    hide Vacuous, Keeps, EvalAst;
    forall child | child in children && Vacuous(child)
      ensures EvalAst(schema.num, child, row)
    {
      VacuousKeeps(schema, child, row);
    }
    if children != [] { assert children[0] in children; }
  }

  lemma GroupStraight(schema: Schema, ast: WhereAst, row: Row)
    requires ast.Group? && Straight(schema, ast, row)
    requires forall c :: c in ast.columns ==>
      (ColumnKeeps(schema, c, row) <==> EvalColumn(schema.num, c.filter, Field(row, c.name))) &&
      (ColumnRefutes(schema, c, row) <==> ColumnDenies(schema.num, c, row))
    requires forall child :: child in ast.and || child in ast.or ==>
      (Keeps(schema, child, row) <==> EvalAst(schema.num, child, row)) &&
      (Refutes(schema, child, row) <==> Denies(schema.num, child, row))
    requires ast.not.Some? ==>
      (Keeps(schema, ast.not.value, row) <==> EvalAst(schema.num, ast.not.value, row)) &&
      (Refutes(schema, ast.not.value, row) <==> Denies(schema.num, ast.not.value, row))
    ensures Keeps(schema, ast, row) <==> EvalAst(schema.num, ast, row)
    ensures Refutes(schema, ast, row) <==> Denies(schema.num, ast, row)
  {
    hide ColumnKeeps, ColumnRefutes, ColumnDenies, ColumnMeets, EvalColumn, Vacuous;
    assert OrMeets(schema.num, ast.or, row) && (ast.not.Some? ==> NotMeets(schema.num, ast.not.value, row));
    OrSides(schema, ast.or, row);
    if ast.not.Some? { NotBoth(schema, ast.not.value, row); }
    hide Straight, OrMeets;
  }

  /** TRUE and FALSE exclude each other. */
  lemma {:induction false} NotBoth(schema: Schema, ast: WhereAst, row: Row)
    ensures !(Keeps(schema, ast, row) && Refutes(schema, ast, row))
    decreases ast
  {
    if ast.Group? && Keeps(schema, ast, row) {
      forall child | child in ast.and || child in ast.or { NotBoth(schema, child, row); }
      if ast.not.Some? { NotBoth(schema, ast.not.value, row); }
      hide TestKeeps, TestRefutes, TestsOf;
      forall c | c in ast.columns ensures !ColumnRefutes(schema, c, row) {
        KeptIsNotRefuted(schema, c, row);
      }
    }
  }

  lemma KeptIsNotRefuted(schema: Schema, c: ColumnFilter, row: Row)
    requires ColumnKeeps(schema, c, row)
    ensures !ColumnRefutes(schema, c, row)
  {
    hide TestKeeps, TestsOf, Known;
  }

  // ----- whole filters, against SQL -----

  /** The evaluator keeps the row exactly when the built predicate is TRUE. */
  ghost predicate Meets(schema: Schema, ast: WhereAst, allowed: set<string>, row: Row) {
    Build(ast, allowed).Clause? &&
    (EvalAst(schema.num, ast, row) <==> EvalClause(schema, Build(ast, allowed).p, row) == True)
  }

  /** The same for every filter within, down to the single tests. */
  ghost predicate MeetsThroughout(schema: Schema, ast: WhereAst, allowed: set<string>, row: Row)
    decreases ast
  {
    Meets(schema, ast, allowed, row) &&
    (ast.Group? ==>
      && (forall c :: c in ast.columns ==> ColumnAnswersAlike(schema, c, row))
      && (forall child :: child in ast.and ==> MeetsThroughout(schema, child, allowed, row))
      && (forall child :: child in ast.or ==> MeetsThroughout(schema, child, allowed, row))
      && (ast.not.Some? ==> MeetsThroughout(schema, ast.not.value, allowed, row)))
  }

  ghost predicate ColumnAnswersAlike(schema: Schema, c: ColumnFilter, row: Row) {
    forall test :: test in TestsOf(c.filter) ==>
      (Passes(schema.num, test, Field(row, c.name)) <==>
       test.NoClause? || Eval(schema, PredOf(c.name, test), row) == True)
  }

  /** For any filter on any row: the two sides answer alike exactly when the evaluator's answer is the
      verdict. */
  lemma MeetsIsVerdict(schema: Schema, ast: WhereAst, allowed: set<string>, row: Row)
    requires FilterTyped(schema, ast, row) && Build(ast, allowed).Clause?
    ensures Meets(schema, ast, allowed, row) <==> (EvalAst(schema.num, ast, row) <==> Keeps(schema, ast, row))
  {
    VerdictIsSql(schema, ast, allowed, row);
  }

  lemma ColumnMeetsIff(schema: Schema, c: ColumnFilter, row: Row)
    requires ColumnTyped(schema, c, row)
    ensures ColumnAnswersAlike(schema, c, row) <==> ColumnMeets(schema, c, row)
  {
    OperandsAreGiven(c.filter);
    hide TestsOf, TestMeets, TestKeeps, Passes, TestTyped, Eval;
    forall test | test in TestsOf(c.filter) { TestMeetsIff(schema, c.name, test, row); }
  }

  /** An OR over children that each meet, vacuous ones among them or not. */
  lemma OrMeetsIff(schema: Schema, children: seq<WhereAst>, allowed: set<string>, row: Row)
    requires
      var ast := Group([], [], children, None);
      FilterTyped(schema, ast, row) && Build(ast, allowed).Clause?
    requires forall child :: child in children ==> Meets(schema, child, allowed, row)
    ensures Meets(schema, Group([], [], children, None), allowed, row) <==> OrMeets(schema.num, children, row)
  {
    var ast := Group([], [], children, None);
    MeetsIsVerdict(schema, ast, allowed, row);
    forall child | child in children
      ensures EvalAst(schema.num, child, row) <==> Keeps(schema, child, row)
    {
      MeetsIsVerdict(schema, child, allowed, row);
    }
    hide Meets, Build;
    OrSides(schema, children, row);
  }

  /** A NOT over a filter that meets: never over a vacuous one, otherwise unless SQL is in doubt. */
  lemma NotMeetsIff(schema: Schema, child: WhereAst, allowed: set<string>, row: Row)
    requires
      var ast := Group([], [], [], Some(child));
      FilterTyped(schema, ast, row) && Build(ast, allowed).Clause?
    requires Meets(schema, child, allowed, row)
    ensures Meets(schema, Group([], [], [], Some(child)), allowed, row) <==>
      !Vacuous(child) && (EvalAst(schema.num, child, row) || Refutes(schema, child, row))
  {
    var ast := Group([], [], [], Some(child));
    MeetsIsVerdict(schema, ast, allowed, row);
    MeetsIsVerdict(schema, child, allowed, row);
    if Vacuous(child) { VacuousKeeps(schema, child, row); }
    NotBoth(schema, child, row);
    hide Meets, Build;
  }

  /** The exact condition, over whole filters. A parsed filter and every filter within it get the same
      answer from both sides on a row if and only if no test, no OR and no NOT of it trips on that
      row. */
  lemma {:induction false} MeetsIffStraight(schema: Schema, ast: WhereAst, allowed: set<string>, row: Row)
    requires Exclusive(ast) && FilterTyped(schema, ast, row) && Build(ast, allowed).Clause?
    ensures MeetsThroughout(schema, ast, allowed, row) <==> Straight(schema, ast, row)
    decreases ast
  {
    hide ColumnMeets, ColumnAnswersAlike, OrMeets, NotMeets, Keeps, EvalAst, ColumnTyped, Meets;
    if ast.Group? {
      PartsBuild(ast, allowed);
      forall c | c in ast.columns { ColumnMeetsIff(schema, c, row); }
      forall child | child in ast.and || child in ast.or
        ensures MeetsThroughout(schema, child, allowed, row) <==> Straight(schema, child, row)
      {
        assert child in ast.and + ast.or;
        MeetsIffStraight(schema, child, allowed, row);
      }
      if ast.not.Some? { MeetsIffStraight(schema, ast.not.value, allowed, row); }
    }
    hide Build, Exclusive, Vacuous;
    if MeetsThroughout(schema, ast, allowed, row) && ast.Group? { MeetingGroupIsStraight(schema, ast, allowed, row); }
    if Straight(schema, ast, row) {
      StraightVerdict(schema, ast, row);
      MeetsIsVerdict(schema, ast, allowed, row);
    }
  }

  lemma MeetingGroupIsStraight(schema: Schema, ast: WhereAst, allowed: set<string>, row: Row)
    requires ast.Group? && Exclusive(ast) && FilterTyped(schema, ast, row) && Build(ast, allowed).Clause?
    requires MeetsThroughout(schema, ast, allowed, row)
    requires forall child :: child in ast.and || child in ast.or ==> Straight(schema, child, row)
    requires forall c :: c in ast.columns ==> ColumnMeets(schema, c, row)
    requires ast.not.Some? ==> Straight(schema, ast.not.value, row)
    ensures Straight(schema, ast, row)
  {
    if ast.or != [] {
      MeetingOr(schema, ast, allowed, row);
    } else if ast.not.Some? {
      MeetingNot(schema, ast, allowed, row);
    }
    hide Meets, MeetsThroughout, Build, Exclusive, FilterTyped, Refutes, EvalAst, Denies, Vacuous, ColumnMeets;
  }

  lemma MeetingOr(schema: Schema, ast: WhereAst, allowed: set<string>, row: Row)
    requires ast.Group? && Exclusive(ast) && FilterTyped(schema, ast, row) && Build(ast, allowed).Clause?
    requires MeetsThroughout(schema, ast, allowed, row) && ast.or != []
    ensures ast.not.None? && OrMeets(schema.num, ast.or, row)
  {
    assert ast == Group([], [], ast.or, None);
    hide Meets, Build, Exclusive, FilterTyped, OrMeets;
    forall child | child in ast.or
      ensures Meets(schema, child, allowed, row)
    {
      assert MeetsThroughout(schema, child, allowed, row);
    }
    assert Meets(schema, ast, allowed, row);
    hide MeetsThroughout;
    OrMeetsIff(schema, ast.or, allowed, row);
  }

  lemma MeetingNot(schema: Schema, ast: WhereAst, allowed: set<string>, row: Row)
    requires ast.Group? && Exclusive(ast) && FilterTyped(schema, ast, row) && Build(ast, allowed).Clause?
    requires MeetsThroughout(schema, ast, allowed, row) && ast.not.Some?
    requires Straight(schema, ast.not.value, row)
    ensures ast.or == [] && NotMeets(schema.num, ast.not.value, row)
  {
    assert ast == Group([], [], [], ast.not);
    assert FilterTyped(schema, ast.not.value, row);
    hide Meets, Build, Exclusive, FilterTyped, Straight, EvalAst, Refutes, Denies, Vacuous;
    assert Meets(schema, ast, allowed, row) && MeetsThroughout(schema, ast.not.value, allowed, row);
    hide MeetsThroughout;
    NotMeetsIff(schema, ast.not.value, allowed, row);
    StraightVerdict(schema, ast.not.value, row);
  }

  // ----- filters whose only difficulty is null -----

  /** Typed tests on which the two sides agree, no OR with both vacuous and other children, no vacuous
      NOT; under a NOT nothing tested is null. */
  predicate InFragment(schema: Schema, ast: WhereAst, row: Row, negated: bool)
    decreases ast
  {
    !ast.AlwaysFalse? &&
    (ast.Group? ==>
      && (forall c :: c in ast.columns ==>
            ColumnTyped(schema, c, row) && ColumnMeets(schema, c, row) && (negated ==> ColumnKnown(c, row)))
      && (forall child :: child in ast.and ==> InFragment(schema, child, row, negated))
      && (forall child :: child in ast.or ==> InFragment(schema, child, row, negated))
      && ((forall child :: child in ast.or ==> Vacuous(child)) || forall child :: child in ast.or ==> !Vacuous(child))
      && (ast.not.Some? ==> InFragment(schema, ast.not.value, row, true) && !Vacuous(ast.not.value)))
  }

  predicate ColumnKnown(c: ColumnFilter, row: Row) {
    forall test :: test in TestsOf(c.filter) ==> Known(test, Field(row, c.name))
  }

  lemma {:induction false} FragmentIsStraight(schema: Schema, ast: WhereAst, row: Row, negated: bool)
    requires InFragment(schema, ast, row, negated)
    ensures FilterTyped(schema, ast, row) && Straight(schema, ast, row)
    ensures negated ==> EvalAst(schema.num, ast, row) || Denies(schema.num, ast, row)
    decreases ast
  {
    if ast.Group? {
      forall child | child in ast.and || child in ast.or
        ensures FilterTyped(schema, child, row) && Straight(schema, child, row)
        ensures negated ==> EvalAst(schema.num, child, row) || Denies(schema.num, child, row)
      {
        FragmentIsStraight(schema, child, row, negated);
      }
      if ast.not.Some? { FragmentIsStraight(schema, ast.not.value, row, true); }
      hide ColumnTyped, ColumnMeets, ColumnKnown, ColumnDenies, EvalColumn, Denies, EvalAst, Vacuous;
      if negated { KnownIsDecided(schema, ast, row); }
    }
  }

  lemma KnownIsDecided(schema: Schema, ast: WhereAst, row: Row)
    requires ast.Group? && InFragment(schema, ast, row, true)
    requires forall child :: child in ast.and || child in ast.or ==>
      FilterTyped(schema, child, row) && Straight(schema, child, row) &&
      (EvalAst(schema.num, child, row) || Denies(schema.num, child, row))
    ensures EvalAst(schema.num, ast, row) || Denies(schema.num, ast, row)
  {
    hide InFragment, Straight, FilterTyped, Vacuous, Keeps;
    forall c | c in ast.columns
      ensures EvalColumn(schema.num, c.filter, Field(row, c.name)) || ColumnDenies(schema.num, c, row)
    {
      assert ColumnKnown(c, row) by { KnownColumns(schema, ast, row, c); }
      ColumnIsTests(schema.num, c.filter, Field(row, c.name));
    }
    forall child | child in ast.or && Vacuous(child) ensures EvalAst(schema.num, child, row) {
      VacuousKeeps(schema, child, row);
      StraightVerdict(schema, child, row);
    }
    NegatesSomething(schema, ast, row);
    if ast.or != [] { assert ast.or[0] in ast.or; }
    hide EvalColumn, ColumnDenies, ColumnKnown;
  }

  lemma KnownColumns(schema: Schema, ast: WhereAst, row: Row, c: ColumnFilter)
    requires ast.Group? && InFragment(schema, ast, row, true) && c in ast.columns
    ensures ColumnKnown(c, row)
  {
  }

  lemma NegatesSomething(schema: Schema, ast: WhereAst, row: Row)
    requires ast.Group? && InFragment(schema, ast, row, true)
    ensures ast.not.Some? ==> !Vacuous(ast.not.value)
  {
  }

  /** What evaluateCondition promises, where it holds: nulls are no obstacle outside of a NOT. Where
      nothing tested is null SQL is not in doubt either. */
  lemma EvaluatorMeetsSql(schema: Schema, ast: WhereAst, allowed: set<string>, row: Row, negated: bool)
    requires InFragment(schema, ast, row, negated) && Build(ast, allowed).Clause?
    ensures EvalAst(schema.num, ast, row) <==> EvalClause(schema, Build(ast, allowed).p, row) == True
    ensures negated ==> EvalClause(schema, Build(ast, allowed).p, row) != Unknown
  {
    hide InFragment, Build, EvalAst, Denies, Straight;
    FragmentIsStraight(schema, ast, row, negated);
    StraightVerdict(schema, ast, row);
    VerdictIsSql(schema, ast, allowed, row);
  }

  /** Every NOT of the filter, at any depth, is over a filter that accepts the row or denies it on
      columns that are not null. */
  predicate NotsDecided(num: NumberOf, ast: WhereAst, row: Row)
    decreases ast
  {
    ast.Group? ==>
      && (forall child :: child in ast.and ==> NotsDecided(num, child, row))
      && (forall child :: child in ast.or ==> NotsDecided(num, child, row))
      && (ast.not.Some? ==>
            NotsDecided(num, ast.not.value, row) &&
            (EvalAst(num, ast.not.value, row) || Denies(num, ast.not.value, row)))
  }

  /** The fragment without its condition on nulls. */
  predicate NullsAside(schema: Schema, ast: WhereAst, row: Row)
    decreases ast
  {
    ast.Group? ==>
      && (forall c :: c in ast.columns ==> ColumnTyped(schema, c, row) && ColumnMeets(schema, c, row))
      && (forall child :: child in ast.and ==> NullsAside(schema, child, row))
      && (forall child :: child in ast.or ==> NullsAside(schema, child, row))
      && ((forall child :: child in ast.or ==> Vacuous(child)) || forall child :: child in ast.or ==> !Vacuous(child))
      && (ast.not.Some? ==> NullsAside(schema, ast.not.value, row) && !Vacuous(ast.not.value))
  }

  lemma {:induction false} NullsAsideStraight(schema: Schema, ast: WhereAst, row: Row)
    requires NullsAside(schema, ast, row)
    ensures FilterTyped(schema, ast, row)
    ensures Straight(schema, ast, row) <==> NotsDecided(schema.num, ast, row)
    decreases ast
  {
    if ast.Group? {
      forall child | child in ast.and || child in ast.or
        ensures FilterTyped(schema, child, row)
        ensures Straight(schema, child, row) <==> NotsDecided(schema.num, child, row)
      {
        NullsAsideStraight(schema, child, row);
      }
      if ast.not.Some? { NullsAsideStraight(schema, ast.not.value, row); }
      hide ColumnTyped, ColumnMeets, EvalAst, Denies, Vacuous;
    }
  }

  /** Null exactly: where nulls are the only difficulty, the two sides answer alike throughout if and
      only if every NOT, at any depth, is decided by columns that are not null. */
  lemma NotMeetsSqlExactly(schema: Schema, ast: WhereAst, allowed: set<string>, row: Row)
    requires NullsAside(schema, ast, row) && Exclusive(ast) && Build(ast, allowed).Clause?
    ensures MeetsThroughout(schema, ast, allowed, row) <==> NotsDecided(schema.num, ast, row)
  {
    hide NullsAside, Exclusive, Build, MeetsThroughout, Straight;
    NullsAsideStraight(schema, ast, row);
    MeetsIffStraight(schema, ast, allowed, row);
  }

  // ----- where they differ -----

  function NoOps(): Ops {
    Ops(Undefined, Undefined, Undefined, Undefined, Undefined, Undefined, NoIn, false, false)
  }

  function Only(filter: FilterValue): WhereAst {
    Group([ColumnFilter("a", filter)], [], [], None)
  }

  ghost predicate Differ(schema: Schema, ast: WhereAst, row: Row) {
    Build(ast, {"a"}).Clause? &&
    EvalAst(schema.num, ast, row) != (EvalClause(schema, Build(ast, {"a"}).p, row) == True)
  }

  /** NOT over a null: {NOT: {a: 1}} keeps a row whose `a` is null, SQL drops it. */
  lemma NotOverNullDiffers(schema: Schema)
    requires schema.types("a") == NumericColumn
    ensures Differ(schema, Group([], [], [], Some(Only(Scalar(Num(1.0))))), map["a" := Null])
  {
    var child, row := Only(Scalar(Num(1.0))), map["a" := Null];
    OneColumn(schema, Scalar(Num(1.0)), row);
    assert EvalClause(schema, Build(child, {"a"}).p, row) == Unknown;
    NegationIs(schema, child, {"a"}, row);
  }

  lemma NegationIs(schema: Schema, child: WhereAst, allowed: set<string>, row: Row)
    requires Build(child, allowed).Clause? && Build(child, allowed).p.Some?
    ensures
      var negation := Group([], [], [], Some(child));
      Build(negation, allowed) == Clause(Some(Not(Build(child, allowed).p.value))) &&
      (EvalAst(schema.num, negation, row) <==> !EvalAst(schema.num, child, row))
  {
  }

  /** A null operand: {a: {ne: null}} keeps every non-null row, {a: {gte: null}} keeps null ones;
      SQL keeps neither. */
  lemma NullOperandDiffers(schema: Schema)
    requires schema.types("a") == NumericColumn
    ensures Differ(schema, Only(Operators(NoOps().(ne := Null))), map["a" := Num(1.0)])
    ensures Differ(schema, Only(Operators(NoOps().(gte := Null))), map["a" := Null])
  {
    var ne, gte := NoOps().(ne := Null), NoOps().(gte := Null);
    OneColumn(schema, Operators(ne), map["a" := Num(1.0)]);
    OneColumn(schema, Operators(gte), map["a" := Null]);
    assert OpClauses("a", ne) == [Compare(Ne, "a", Null)];
    assert OpClauses("a", gte) == [Compare(Gte, "a", Null)];
  }

  /** An `undefined` filter value: the builder skips the column, the evaluator rejects the row. */
  lemma UndefinedFilterDiffers(schema: Schema)
    ensures Differ(schema, Only(Scalar(Undefined)), map["a" := Num(1.0)])
  {
    OneColumn(schema, Scalar(Undefined), map["a" := Num(1.0)]);
  }

  /** Numbers written as text in a text column: '1.0' equals '1' for the evaluator only. */
  lemma NumericTextDiffers(schema: Schema)
    requires schema.types("a") == TextColumn
    requires schema.num("1.0") == schema.num("1") == Some(1.0)
    ensures Differ(schema, Only(Scalar(Str("1"))), map["a" := Str("1.0")])
  {
    OneColumn(schema, Scalar(Str("1")), map["a" := Str("1.0")]);
    assert |"1.0"| != |"1"|;
  }

  /** Dates: a filter value is never the very object in the row. Of a row with the same date the
      evaluator says it is unequal, of one with a later date that it is not greater. */
  lemma DateDiffers(schema: Schema, col: nat, v: nat)
    requires schema.types("a") == OtherColumn && col != v
    ensures schema.rank(col) == schema.rank(v) ==>
      Differ(schema, Only(Scalar(Other(v))), map["a" := Other(col)]) &&
      Differ(schema, Only(Operators(NoOps().(ne := Other(v)))), map["a" := Other(col)])
    ensures schema.rank(col) > schema.rank(v) ==>
      Differ(schema, Only(Operators(NoOps().(gt := Other(v)))), map["a" := Other(col)])
  {
    var row, ne, gt := map["a" := Other(col)], NoOps().(ne := Other(v)), NoOps().(gt := Other(v));
    OneColumn(schema, Scalar(Other(v)), row);
    OneColumn(schema, Operators(ne), row);
    OneColumn(schema, Operators(gt), row);
    assert OpClauses("a", ne) == [Compare(Ne, "a", Other(v))];
    assert OpClauses("a", gt) == [Compare(Gt, "a", Other(v))];
  }

  /** A numeric column: two numbers that JavaScript rounds to the same one are equal for the evaluator
      only. */
  lemma RoundingDiffers(schema: Schema, col: string, v: string)
    requires schema.types("a") == NumericColumn && schema.num(col).Some? && schema.num(col) == schema.num(v)
    requires schema.exact(col).Some? && schema.exact(v).Some? && schema.exact(col) != schema.exact(v)
    ensures Differ(schema, Only(Scalar(Str(v))), map["a" := Str(col)])
  {
    OneColumn(schema, Scalar(Str(v)), map["a" := Str(col)]);
  }

  /** An enum whose labels are not declared in the order of their texts. */
  lemma EnumDiffers(schema: Schema)
    requires schema.types("a") == RankedColumn && schema.textRank("b") < schema.textRank("a")
    requires schema.num("a") == schema.num("b") == None
    ensures Differ(schema, Only(Operators(NoOps().(gt := Str("a")))), map["a" := Str("b")])
  {
    var gt := NoOps().(gt := Str("a"));
    OneColumn(schema, Operators(gt), map["a" := Str("b")]);
    assert OpClauses("a", gt) == [Compare(Gt, "a", Str("a"))];
    assert "a"[0] < "b"[0];
  }

  /** A vacuous OR child: {OR: [{}, {a: 2}]} keeps every row for the evaluator; SQL drops the
      empty child and keeps only a = 2. */
  lemma VacuousOrDiffers(schema: Schema)
    requires schema.types("a") == NumericColumn
    ensures Differ(schema, Group([], [], [Group([], [], [], None), Only(Scalar(Num(2.0)))], None), map["a" := Num(1.0)])
  {
    var empty, two, row := Group([], [], [], None), Only(Scalar(Num(2.0))), map["a" := Num(1.0)];
    var either, test := Group([], [], [empty, two], None), Compare(Eq, "a", Num(2.0));
    TwoIsNotOne(schema);
    hide Build, EvalClause, Eval;
    TwoOrs(empty, two, {"a"}, test);
    assert EvalClause(schema, Some(test), row) != True;
    assert EvalAst(schema.num, empty, row);
    assert EvalAst(schema.num, either, row) by { assert empty in either.or; }
  }

  lemma TwoIsNotOne(schema: Schema)
    requires schema.types("a") == NumericColumn
    ensures EvalClause(schema, Some(Compare(Eq, "a", Num(2.0))), map["a" := Num(1.0)]) != True
    ensures Build(Only(Scalar(Num(2.0))), {"a"}) == Clause(Some(Compare(Eq, "a", Num(2.0))))
    ensures Build(Group([], [], [], None), {"a"}) == Clause(None)
  {
    OneColumn(schema, Scalar(Num(2.0)), map["a" := Num(1.0)]);
  }

  /** A vacuous NOT: {NOT: {}} keeps nothing for the evaluator, everything for SQL. */
  lemma VacuousNotDiffers(schema: Schema, row: Row)
    ensures Differ(schema, Group([], [], [], Some(Group([], [], [], None))), row)
  {
    var empty := Group([], [], [], None);
    assert Build(empty, {"a"}) == Clause(None);
    assert EvalAst(schema.num, empty, row);
    assert Build(Group([], [], [], Some(empty)), {"a"}) == Clause(None);
  }

  lemma TwoOrs(empty: WhereAst, other: WhereAst, allowed: set<string>, p: Pred)
    requires Build(empty, allowed) == Clause(None) && Build(other, allowed) == Clause(Some(p))
    ensures Build(Group([], [], [empty, other], None), allowed) == Clause(Some(p))
  {
    var bs := BuildAll([empty, other], allowed);
    assert bs == [Clause(None), Clause(Some(p))];
    assert bs[..1] == [Clause(None)] && bs[..1][..0] == [];
    assert Somes(bs[..1]) == [];
    assert Somes(bs) == [p];
  }

  lemma OneColumn(schema: Schema, filter: FilterValue, row: Row)
    ensures EvalAst(schema.num, Only(filter), row) <==> EvalColumn(schema.num, filter, Field(row, "a"))
    ensures Build(Only(filter), {"a"}) == BuildColumn(ColumnFilter("a", filter), {"a"})
  {
    var cs := [ColumnFilter("a", filter)];
    var bs := BuildColumns(cs, {"a"});
    assert cs[0] in cs;
    assert bs == [BuildColumn(cs[0], {"a"})];
    assert bs[..0] == [] && bs[0] in bs;
    assert Somes(bs) == if bs[0].Clause? && bs[0].p.Some? then [bs[0].p.value] else [];
  }
}
