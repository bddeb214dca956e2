/** What SQL answers to the predicate built from a filter, read off the filter and the row alone. SQL's
    three truth values become two predicates that NOT exchanges: `Keeps`, the predicate is TRUE, and
    `Refutes`, it is FALSE. */
module SqlVerdict {
  import opened Values
  import opened Filter
  import opened SqlPredicate

  // ----- the tests a column filter makes -----

  /** `NoClause` is a filter value of `undefined`: the builder makes no clause of it. */
  datatype Test = Cmp(op: CompareOp, v: Value) | Within(vs: seq<Value>) | NullTest | NotNullTest | NoClause

  function Asked(op: CompareOp, v: Value): seq<Test> {
    if v.Undefined? then [] else [Cmp(op, v)]
  }

  function CmpTests(ops: Ops): seq<Test> {
    Asked(Eq, ops.eq) + Asked(Ne, ops.ne) + Asked(Gt, ops.gt) + Asked(Gte, ops.gte) + Asked(Lt, ops.lt) +
      Asked(Lte, ops.lte)
  }

  function MemberTests(ops: Ops): seq<Test> {
    (match ops.within
     case NoIn => []
     case InArray(vs) => [Within(vs)]
     case InNotArray => [Within([])]) +
    (if ops.isNull then [NullTest] else []) +
    (if ops.isNotNull then [NotNullTest] else [])
  }

  function TestsOf(filter: FilterValue): seq<Test> {
    match filter
    case Scalar(Undefined) => [NoClause]
    case Scalar(Null) => [NullTest]
    case Scalar(v) => [Cmp(Eq, v)]
    case Operators(ops) => CmpTests(ops) + MemberTests(ops)
  }

  /** The evaluator's answer to one test. */
  predicate Passes(num: NumberOf, test: Test, col: Value) {
    match test
    case Cmp(op, v) => EvalOp(num, op, col, v)
    case Within(vs) => EvalIn(num, InArray(vs), col)
    case NullTest => Nullish(col)
    case NotNullTest => !Nullish(col)
    case NoClause => col.Undefined?
  }

  /** A column filter is its tests. */
  lemma ColumnIsTests(num: NumberOf, filter: FilterValue, col: Value)
    ensures EvalColumn(num, filter, col) <==> forall test :: test in TestsOf(filter) ==> Passes(num, test, col)
  {
    match filter
    case Scalar(v) =>
      assert TestsOf(filter)[0] in TestsOf(filter);
      if v.Undefined? { assert CompareScalars(num, col, Undefined) == Some(0) <==> col.Undefined?; }
    case Operators(ops) => OperatorsAreTests(num, ops, col);
  }

  lemma OperatorsAreTests(num: NumberOf, ops: Ops, col: Value)
    ensures EvalOps(num, ops, col) <==>
      forall test :: test in CmpTests(ops) + MemberTests(ops) ==> Passes(num, test, col)
  {
    hide EvalOp;
    CmpsAreTests(num, ops, col);
    MembersAreTests(num, ops, col);
    assert forall test :: test in CmpTests(ops) + MemberTests(ops) <==>
      test in CmpTests(ops) || test in MemberTests(ops);
    hide CmpTests, MemberTests, Passes;
  }

  lemma CmpsAreTests(num: NumberOf, ops: Ops, col: Value)
    ensures (forall test :: test in CmpTests(ops) ==> Passes(num, test, col)) <==>
      && (ops.eq.Undefined? || EvalOp(num, Eq, col, ops.eq))
      && (ops.ne.Undefined? || EvalOp(num, Ne, col, ops.ne))
      && (ops.gt.Undefined? || EvalOp(num, Gt, col, ops.gt))
      && (ops.gte.Undefined? || EvalOp(num, Gte, col, ops.gte))
      && (ops.lt.Undefined? || EvalOp(num, Lt, col, ops.lt))
      && (ops.lte.Undefined? || EvalOp(num, Lte, col, ops.lte))
  {
    AskedIn(ops);
    hide CmpTests, EvalOp, Asked;
    AskedPasses(num, Eq, ops.eq, col);
    AskedPasses(num, Ne, ops.ne, col);
    AskedPasses(num, Gt, ops.gt, col);
    AskedPasses(num, Gte, ops.gte, col);
    AskedPasses(num, Lt, ops.lt, col);
    AskedPasses(num, Lte, ops.lte, col);
    hide Passes;
  }

  lemma AskedIn(ops: Ops)
    ensures forall test :: test in CmpTests(ops) <==>
      test in Asked(Eq, ops.eq) || test in Asked(Ne, ops.ne) || test in Asked(Gt, ops.gt) ||
      test in Asked(Gte, ops.gte) || test in Asked(Lt, ops.lt) || test in Asked(Lte, ops.lte)
  {
    hide Asked;
  }

  lemma AskedPasses(num: NumberOf, op: CompareOp, v: Value, col: Value)
    ensures (forall test :: test in Asked(op, v) ==> Passes(num, test, col)) <==>
      v.Undefined? || EvalOp(num, op, col, v)
  {
    hide EvalOp;
    if !v.Undefined? { assert Cmp(op, v) in Asked(op, v); }
  }

  lemma MembersAreTests(num: NumberOf, ops: Ops, col: Value)
    ensures (forall test :: test in MemberTests(ops) ==> Passes(num, test, col)) <==>
      && EvalIn(num, ops.within, col)
      && (ops.isNull ==> Nullish(col))
      && (ops.isNotNull ==> !Nullish(col))
  {
    assert ops.isNull ==> NullTest in MemberTests(ops);
    assert ops.isNotNull ==> NotNullTest in MemberTests(ops);
    assert ops.within.InArray? ==> Within(ops.within.vs) in MemberTests(ops);
    assert ops.within.InNotArray? ==> Within([]) in MemberTests(ops);
  }

  // ----- SQL's answer to a test -----

  predicate Typed(schema: Schema, t: SqlType, v: Value) {
    match t
    case NumericColumn => NumberIn(schema.exact, v).Some?
    case TextColumn => v.Str?
    case RankedColumn => v.Str?
    case BooleanColumn => v.Bool?
    case OtherColumn => v.Other?
  }

  /** What Postgres can compare without an error: NULL, or a value of the column's type. */
  predicate Comparable(schema: Schema, t: SqlType, col: Value, v: Value) {
    (Nullish(col) || Typed(schema, t, col)) && (v.Null? || Typed(schema, t, v))
  }

  predicate TestTyped(schema: Schema, t: SqlType, test: Test, col: Value) {
    match test
    case Cmp(_, v) => Comparable(schema, t, col, v)
    case Within(vs) => forall v :: v in vs ==> Comparable(schema, t, col, v)
    case NullTest => true
    case NotNullTest => true
    case NoClause => true
  }

  /** Both sides are there and stand in the operator's relation. */
  predicate SqlHolds(schema: Schema, t: SqlType, op: CompareOp, col: Value, v: Value) {
    var order := SqlOrder(schema, t, col, v);
    order.Some? && Holds(op, order.value)
  }

  predicate TestKeeps(schema: Schema, t: SqlType, test: Test, col: Value) {
    match test
    case Cmp(op, v) => SqlHolds(schema, t, op, col, v)
    case Within(vs) => exists v :: v in vs && SqlHolds(schema, t, Eq, col, v)
    case NullTest => Nullish(col)
    case NotNullTest => !Nullish(col)
    case NoClause => true
  }

  /** Nothing the test looks at is NULL. */
  predicate Known(test: Test, col: Value) {
    match test
    case Cmp(_, v) => !Nullish(col) && !v.Null?
    case Within(vs) => vs == [] || (!Nullish(col) && Null !in vs)
    case NullTest => true
    case NotNullTest => true
    case NoClause => true
  }

  /** A test is FALSE when it does not hold and nothing it looks at is NULL. */
  predicate TestRefutes(schema: Schema, t: SqlType, test: Test, col: Value) {
    Known(test, col) && !TestKeeps(schema, t, test, col)
  }

  function PredOf(name: string, test: Test): Pred
    requires !test.NoClause?
  {
    match test
    case Cmp(op, v) => Compare(op, name, v)
    case Within(vs) => if vs == [] then Never else In(name, vs)
    case NullTest => IsNull(name)
    case NotNullTest => IsNotNull(name)
  }

  lemma TestIsPred(schema: Schema, name: string, test: Test, row: Row)
    requires !test.NoClause? && TestTyped(schema, schema.types(name), test, Field(row, name))
    ensures Eval(schema, PredOf(name, test), row) == True <==>
      TestKeeps(schema, schema.types(name), test, Field(row, name))
    ensures Eval(schema, PredOf(name, test), row) == False <==>
      TestRefutes(schema, schema.types(name), test, Field(row, name))
  {
    var t, col := schema.types(name), Field(row, name);
    if test.Cmp? {
      OrderIsKnown(schema, t, col, test.v);
    } else if test.Within? && test.vs != [] {
      forall v | v in test.vs { OrderIsKnown(schema, t, col, v); }
      assert test.vs[0] in test.vs;
    }
  }

  lemma OrderIsKnown(schema: Schema, t: SqlType, col: Value, v: Value)
    requires Comparable(schema, t, col, v)
    ensures SqlOrder(schema, t, col, v).Some? <==> !Nullish(col) && !v.Null?
  {
  }

  // ----- clause lists -----

  function Preds(name: string, tests: seq<Test>): seq<Pred> {
    if tests == [] then []
    else
      var last := tests[|tests| - 1];
      Preds(name, tests[..|tests| - 1]) + if last.NoClause? then [] else [PredOf(name, last)]
  }

  lemma {:induction false} PredsConcat(name: string, a: seq<Test>, b: seq<Test>)
    ensures Preds(name, a + b) == Preds(name, a) + Preds(name, b)
    decreases |b|
  {
    if b == [] {
      assert a + b == a;
    } else {
      PredsConcat(name, a, b[..|b| - 1]);
      assert (a + b)[..|a + b| - 1] == a + b[..|b| - 1];
    }
  }

  lemma {:induction false} PredsIn(name: string, tests: seq<Test>)
    ensures forall test :: test in tests && !test.NoClause? ==> PredOf(name, test) in Preds(name, tests)
    ensures forall p :: p in Preds(name, tests) ==>
      exists test :: test in tests && !test.NoClause? && PredOf(name, test) == p
  {
    if tests != [] {
      var init, last := tests[..|tests| - 1], tests[|tests| - 1];
      PredsIn(name, init);
      assert tests == init + [last];
      forall p | p in Preds(name, tests)
        ensures exists test :: test in tests && !test.NoClause? && PredOf(name, test) == p
      {
        if p in Preds(name, init) {
          var test :| test in init && !test.NoClause? && PredOf(name, test) == p;
          assert test in tests;
        } else {
          assert last in tests && PredOf(name, last) == p;
        }
      }
    }
  }

  lemma OneTest(name: string, test: Test)
    ensures Preds(name, [test]) == if test.NoClause? then [] else [PredOf(name, test)]
  {
    assert [test][..0] == [];
  }

  lemma AskedIsGiven(name: string, op: CompareOp, v: Value)
    ensures Preds(name, Asked(op, v)) == Given(v, Compare(op, name, v))
  {
    if !v.Undefined? { OneTest(name, Cmp(op, v)); }
  }

  lemma CmpTestsAre(name: string, ops: Ops)
    ensures Preds(name, CmpTests(ops)) == Comparisons(name, ops)
  {
    hide Preds, Given, Asked;
    var a1, a2, a3 := Asked(Eq, ops.eq), Asked(Ne, ops.ne), Asked(Gt, ops.gt);
    var a4, a5, a6 := Asked(Gte, ops.gte), Asked(Lt, ops.lt), Asked(Lte, ops.lte);
    PredsConcat(name, a1, a2);
    PredsConcat(name, a1 + a2, a3);
    PredsConcat(name, a1 + a2 + a3, a4);
    PredsConcat(name, a1 + a2 + a3 + a4, a5);
    PredsConcat(name, a1 + a2 + a3 + a4 + a5, a6);
    AskedIsGiven(name, Eq, ops.eq);
    AskedIsGiven(name, Ne, ops.ne);
    AskedIsGiven(name, Gt, ops.gt);
    AskedIsGiven(name, Gte, ops.gte);
    AskedIsGiven(name, Lt, ops.lt);
    AskedIsGiven(name, Lte, ops.lte);
  }

  lemma MemberTestsAre(name: string, ops: Ops)
    requires !ops.within.InNotArray?
    ensures Preds(name, MemberTests(ops)) == Memberships(name, ops)
  {
    var a: seq<Test> := if ops.within.InArray? then [Within(ops.within.vs)] else [];
    var b: seq<Test>, c: seq<Test> :=
      if ops.isNull then [NullTest] else [], if ops.isNotNull then [NotNullTest] else [];
    assert MemberTests(ops) == a + b + c;
    hide Preds, MemberTests;
    PredsConcat(name, a, b);
    PredsConcat(name, a + b, c);
    MaybeTest(name, ops.within.InArray?, if ops.within.InArray? then Within(ops.within.vs) else NullTest);
    MaybeTest(name, ops.isNull, NullTest);
    MaybeTest(name, ops.isNotNull, NotNullTest);
  }

  lemma MaybeTest(name: string, asked: bool, test: Test)
    requires !test.NoClause?
    ensures Preds(name, if asked then [test] else []) == if asked then [PredOf(name, test)] else []
  {
    OneTest(name, test);
    NoTests(name);
  }

  lemma NoTests(name: string)
    ensures Preds(name, []) == []
  {
  }

  lemma BuildColumnIs(c: ColumnFilter, allowed: set<string>)
    requires BuildColumn(c, allowed).Clause?
    ensures BuildColumn(c, allowed) == Clause(AndOf(Preds(c.name, TestsOf(c.filter))))
  {
    match c.filter
    case Scalar(v) => OneTest(c.name, TestsOf(c.filter)[0]);
    case Operators(ops) =>
      PredsConcat(c.name, CmpTests(ops), MemberTests(ops));
      CmpTestsAre(c.name, ops);
      MemberTestsAre(c.name, ops);
  }

  ghost predicate AllTrue(schema: Schema, ps: seq<Pred>, row: Row) {
    forall p :: p in ps ==> Eval(schema, p, row) == True
  }

  ghost predicate SomeFalse(schema: Schema, ps: seq<Pred>, row: Row) {
    exists p :: p in ps && Eval(schema, p, row) == False
  }

  lemma AndTruth(schema: Schema, ps: seq<Pred>, row: Row)
    ensures EvalClause(schema, AndOf(ps), row) == True <==> AllTrue(schema, ps, row)
    ensures EvalClause(schema, AndOf(ps), row) == False <==> SomeFalse(schema, ps, row)
  {
    if |ps| == 1 { assert forall p :: p in ps <==> p == ps[0]; }
    if forall p :: p in ps ==> Eval(schema, p, row) == True {
    } else {
      var p :| p in ps && Eval(schema, p, row) != True;
    }
  }

  lemma OrTruth(schema: Schema, ps: seq<Pred>, row: Row)
    requires ps != []
    ensures EvalClause(schema, OrOf(ps), row) == True <==> exists p :: p in ps && Eval(schema, p, row) == True
    ensures EvalClause(schema, OrOf(ps), row) == False <==> forall p :: p in ps ==> Eval(schema, p, row) == False
  {
    assert ps[0] in ps;
    if |ps| == 1 { assert forall p :: p in ps ==> p == ps[0]; }
    if forall p :: p in ps ==> Eval(schema, p, row) == False {
    } else {
      var p :| p in ps && Eval(schema, p, row) != False;
    }
  }

  lemma TruthConcat(schema: Schema, a: seq<Pred>, b: seq<Pred>, row: Row)
    ensures AllTrue(schema, a + b, row) <==> AllTrue(schema, a, row) && AllTrue(schema, b, row)
    ensures SomeFalse(schema, a + b, row) <==> SomeFalse(schema, a, row) || SomeFalse(schema, b, row)
  {
    hide Eval;
    assert forall p :: p in a + b <==> p in a || p in b;
  }

  // ----- columns -----

  predicate ColumnTyped(schema: Schema, c: ColumnFilter, row: Row) {
    forall test :: test in TestsOf(c.filter) ==> TestTyped(schema, schema.types(c.name), test, Field(row, c.name))
  }

  predicate ColumnKeeps(schema: Schema, c: ColumnFilter, row: Row) {
    forall test :: test in TestsOf(c.filter) ==> TestKeeps(schema, schema.types(c.name), test, Field(row, c.name))
  }

  predicate ColumnRefutes(schema: Schema, c: ColumnFilter, row: Row) {
    exists test :: test in TestsOf(c.filter) && TestRefutes(schema, schema.types(c.name), test, Field(row, c.name))
  }

  lemma ColumnVerdict(schema: Schema, c: ColumnFilter, allowed: set<string>, row: Row)
    requires ColumnTyped(schema, c, row) && BuildColumn(c, allowed).Clause?
    ensures EvalClause(schema, BuildColumn(c, allowed).p, row) == True <==> ColumnKeeps(schema, c, row)
    ensures EvalClause(schema, BuildColumn(c, allowed).p, row) == False <==> ColumnRefutes(schema, c, row)
  {
    var ps := Preds(c.name, TestsOf(c.filter));
    BuildColumnIs(c, allowed);
    AndTruth(schema, ps, row);
    PredsIn(c.name, TestsOf(c.filter));
    hide BuildColumn, AndOf, EvalClause, TestsOf, Preds, PredOf, Eval, TestTyped, Known;
    TestsVerdict(schema, c, row);
  }

  lemma TestsVerdict(schema: Schema, c: ColumnFilter, row: Row)
    requires ColumnTyped(schema, c, row)
    ensures AllTrue(schema, Preds(c.name, TestsOf(c.filter)), row) <==> ColumnKeeps(schema, c, row)
    ensures SomeFalse(schema, Preds(c.name, TestsOf(c.filter)), row) <==> ColumnRefutes(schema, c, row)
  {
    hide TestsOf, Preds, PredOf, Eval, TestTyped, Known;
    var tests, t, col := TestsOf(c.filter), schema.types(c.name), Field(row, c.name);
    PredsIn(c.name, tests);
    forall test | test in tests && !test.NoClause?
      ensures Eval(schema, PredOf(c.name, test), row) == True <==> TestKeeps(schema, t, test, col)
      ensures Eval(schema, PredOf(c.name, test), row) == False <==> TestRefutes(schema, t, test, col)
    {
      TestIsPred(schema, c.name, test, row);
    }
  }

  // ----- whole filters -----

  /** The builder makes no clause of the filter. */
  predicate Vacuous(ast: WhereAst)
    decreases ast
  {
    match ast
    case AlwaysTrue => true
    case AlwaysFalse => false
    case Group(columns, and, or, not) =>
      && (forall c :: c in columns ==> forall test :: test in TestsOf(c.filter) ==> test.NoClause?)
      && (forall child :: child in and ==> Vacuous(child))
      && (forall child :: child in or ==> Vacuous(child))
      && (not.Some? ==> Vacuous(not.value))
  }

  /** SQL's predicate is TRUE, or there is none. Vacuous children of an OR and a vacuous NOT drop out. */
  predicate Keeps(schema: Schema, ast: WhereAst, row: Row)
    decreases ast
  {
    match ast
    case AlwaysTrue => true
    case AlwaysFalse => false
    case Group(columns, and, or, not) =>
      && (forall c :: c in columns ==> ColumnKeeps(schema, c, row))
      && (forall child :: child in and ==> Keeps(schema, child, row))
      && ((forall child :: child in or ==> Vacuous(child)) ||
          exists child :: child in or && !Vacuous(child) && Keeps(schema, child, row))
      && (not.Some? ==> Vacuous(not.value) || Refutes(schema, not.value, row))
  }

  /** SQL's predicate is FALSE. */
  predicate Refutes(schema: Schema, ast: WhereAst, row: Row)
    decreases ast
  {
    match ast
    case AlwaysTrue => false
    case AlwaysFalse => false
    case Group(columns, and, or, not) =>
      || (exists c :: c in columns && ColumnRefutes(schema, c, row))
      || (exists child :: child in and && Refutes(schema, child, row))
      || ((exists child :: child in or && !Vacuous(child)) &&
          forall child :: child in or && !Vacuous(child) ==> Refutes(schema, child, row))
      || (not.Some? && !Vacuous(not.value) && Keeps(schema, not.value, row))
  }

  /** Every test compares what Postgres can compare. */
  predicate FilterTyped(schema: Schema, ast: WhereAst, row: Row)
    decreases ast
  {
    ast.Group? ==>
      && (forall c :: c in ast.columns ==> ColumnTyped(schema, c, row))
      && (forall child :: child in ast.and ==> FilterTyped(schema, child, row))
      && (forall child :: child in ast.or ==> FilterTyped(schema, child, row))
      && (ast.not.Some? ==> FilterTyped(schema, ast.not.value, row))
  }

  /** SQL says `keeps` and `refutes` of one built clause. */
  ghost predicate Says(schema: Schema, b: Built, row: Row, keeps: bool, refutes: bool) {
    b.Clause? && (EvalClause(schema, b.p, row) == True <==> keeps) &&
      (EvalClause(schema, b.p, row) == False <==> refutes)
  }

  ghost predicate AllSay(schema: Schema, bs: seq<Built>, row: Row) {
    forall b :: b in bs ==> b.Clause? && EvalClause(schema, b.p, row) == True
  }

  ghost predicate OneDenies(schema: Schema, bs: seq<Built>, row: Row) {
    exists b :: b in bs && b.Clause? && EvalClause(schema, b.p, row) == False
  }

  lemma SomesTruth(schema: Schema, bs: seq<Built>, row: Row)
    requires Throws !in bs
    ensures AllTrue(schema, Somes(bs), row) <==> AllSay(schema, bs, row)
    ensures SomeFalse(schema, Somes(bs), row) <==> OneDenies(schema, bs, row)
  {
    hide Eval, Somes;
    SomesIn(bs);
    if AllTrue(schema, Somes(bs), row) {
      forall b | b in bs ensures EvalClause(schema, b.p, row) == True {
        if b.p.Some? { assert Clause(Some(b.p.value)) == b; }
      }
    }
    if OneDenies(schema, bs, row) {
      var b :| b in bs && b.Clause? && EvalClause(schema, b.p, row) == False;
      assert b == Clause(Some(b.p.value));
    }
    if SomeFalse(schema, Somes(bs), row) {
      var p :| p in Somes(bs) && Eval(schema, p, row) == False;
      assert Clause(Some(p)) in bs;
    }
  }

  lemma BuiltAt(asts: seq<WhereAst>, allowed: set<string>)
    ensures forall child :: child in asts ==> Build(child, allowed) in BuildAll(asts, allowed)
    ensures forall b :: b in BuildAll(asts, allowed) ==> exists child :: child in asts && Build(child, allowed) == b
  {
    hide Build;
    var bs := BuildAll(asts, allowed);
    forall child | child in asts ensures Build(child, allowed) in bs {
      var i :| 0 <= i < |asts| && asts[i] == child;
      assert bs[i] == Build(child, allowed);
    }
    forall b | b in bs ensures exists child :: child in asts && Build(child, allowed) == b {
      var i :| 0 <= i < |bs| && bs[i] == b;
      assert asts[i] in asts;
    }
  }

  lemma ColumnBuiltAt(cs: seq<ColumnFilter>, allowed: set<string>)
    ensures forall c :: c in cs ==> BuildColumn(c, allowed) in BuildColumns(cs, allowed)
    ensures forall b :: b in BuildColumns(cs, allowed) ==> exists c :: c in cs && BuildColumn(c, allowed) == b
  {
    hide BuildColumn;
    var bs := BuildColumns(cs, allowed);
    forall c | c in cs ensures BuildColumn(c, allowed) in bs {
      var i :| 0 <= i < |cs| && cs[i] == c;
      assert bs[i] == BuildColumn(c, allowed);
    }
    forall b | b in bs ensures exists c :: c in cs && BuildColumn(c, allowed) == b {
      var i :| 0 <= i < |bs| && bs[i] == b;
      assert cs[i] in cs;
    }
  }

  // ----- vacuous filters -----

  lemma PredsEmpty(name: string, tests: seq<Test>)
    ensures Preds(name, tests) == [] <==> forall test :: test in tests ==> test.NoClause?
  {
    PredsIn(name, tests);
    var ps := Preds(name, tests);
    if ps != [] { assert ps[0] in ps; }
  }

  lemma ColumnVacuous(c: ColumnFilter, allowed: set<string>)
    requires BuildColumn(c, allowed).Clause?
    ensures BuildColumn(c, allowed) == Clause(None) <==> forall test :: test in TestsOf(c.filter) ==> test.NoClause?
  {
    BuildColumnIs(c, allowed);
    PredsEmpty(c.name, TestsOf(c.filter));
  }

  lemma SomesEmpty(bs: seq<Built>)
    requires Throws !in bs
    ensures Somes(bs) == [] <==> forall b :: b in bs ==> b == Clause(None)
  {
    SomesIn(bs);
    var ps := Somes(bs);
    if ps != [] { assert ps[0] in ps; }
    if !(forall b :: b in bs ==> b == Clause(None)) {
      var b :| b in bs && b != Clause(None);
      assert Clause(Some(b.p.value)) == b && b.p.value in ps;
    }
  }

  /** Vacuous filters are exactly those the builder makes nothing of. */
  lemma {:induction false} VacuousIs(ast: WhereAst, allowed: set<string>)
    requires Build(ast, allowed).Clause?
    ensures Vacuous(ast) <==> Build(ast, allowed) == Clause(None)
    decreases ast
  {
    if ast.Group? {
      PartsBuild(ast, allowed);
      forall child | child in ast.and + ast.or
        ensures Build(child, allowed).Clause? && (Vacuous(child) <==> Build(child, allowed) == Clause(None))
      {
        VacuousIs(child, allowed);
      }
      if ast.not.Some? { VacuousIs(ast.not.value, allowed); }
      GroupVacuous(ast, allowed);
    }
  }

  /** The parts of a filter that builds do. */
  lemma PartsBuild(ast: WhereAst, allowed: set<string>)
    requires ast.Group? && Build(ast, allowed).Clause?
    ensures Throws !in BuildColumns(ast.columns, allowed) && Throws !in BuildAll(ast.and, allowed) &&
      Throws !in BuildAll(ast.or, allowed)
    ensures forall c :: c in ast.columns ==> BuildColumn(c, allowed).Clause?
    ensures forall child :: child in ast.and + ast.or ==> Build(child, allowed).Clause?
    ensures ast.not.Some? ==> Build(ast.not.value, allowed).Clause?
  {
    ColumnBuiltAt(ast.columns, allowed);
    BuiltAt(ast.and, allowed);
    BuiltAt(ast.or, allowed);
  }

  function OrPart(ast: WhereAst, allowed: set<string>): seq<Pred>
    requires ast.Group?
  {
    var o := OrOf(Somes(BuildAll(ast.or, allowed)));
    if o.Some? then [o.value] else []
  }

  function NotPart(ast: WhereAst, allowed: set<string>): seq<Pred>
    requires ast.Group? && Build(ast, allowed).Clause?
  {
    if ast.not.Some? && Build(ast.not.value, allowed).p.Some? then [Not(Build(ast.not.value, allowed).p.value)] else []
  }

  lemma GroupBuilds(ast: WhereAst, allowed: set<string>)
    requires ast.Group? && Build(ast, allowed).Clause?
    ensures Build(ast, allowed) == Clause(AndOf(
      Somes(BuildColumns(ast.columns, allowed)) + Somes(BuildAll(ast.and, allowed)) + OrPart(ast, allowed) +
        NotPart(ast, allowed)))
  {
  }

  lemma GroupVacuous(ast: WhereAst, allowed: set<string>)
    requires ast.Group? && Build(ast, allowed).Clause?
    requires forall child :: child in ast.and + ast.or ==>
      Build(child, allowed).Clause? && (Vacuous(child) <==> Build(child, allowed) == Clause(None))
    requires ast.not.Some? ==> (Vacuous(ast.not.value) <==> Build(ast.not.value, allowed) == Clause(None))
    ensures Vacuous(ast) <==> Build(ast, allowed) == Clause(None)
  {
    hide Build, BuildAll, BuildColumns, Somes, TestsOf, AndOf, OrOf;
    assert forall child :: child in ast.and || child in ast.or ==> child in ast.and + ast.or;
    GroupBuilds(ast, allowed);
    PartsBuild(ast, allowed);
    ColumnsVacuous(ast.columns, allowed);
    ChildrenVacuous(ast.and, allowed);
    ChildrenVacuous(ast.or, allowed);
    PartsEmpty(ast, allowed);
    FourEmpty(Somes(BuildColumns(ast.columns, allowed)), Somes(BuildAll(ast.and, allowed)), OrPart(ast, allowed),
      NotPart(ast, allowed));
    hide OrPart, NotPart;
  }

  lemma PartsEmpty(ast: WhereAst, allowed: set<string>)
    requires ast.Group? && Build(ast, allowed).Clause?
    ensures OrPart(ast, allowed) == [] <==> Somes(BuildAll(ast.or, allowed)) == []
    ensures NotPart(ast, allowed) == [] <==> (ast.not.Some? ==> Build(ast.not.value, allowed) == Clause(None))
  {
    PartsBuild(ast, allowed);
    hide Build, BuildAll, Somes;
  }

  lemma FourEmpty(c: seq<Pred>, a: seq<Pred>, o: seq<Pred>, n: seq<Pred>)
    ensures AndOf(c + a + o + n) == None <==> c == [] && a == [] && o == [] && n == []
  {
    assert |c + a + o + n| == |c| + |a| + |o| + |n|;
  }

  lemma ColumnsVacuous(cs: seq<ColumnFilter>, allowed: set<string>)
    requires Throws !in BuildColumns(cs, allowed) && forall c :: c in cs ==> BuildColumn(c, allowed).Clause?
    ensures Somes(BuildColumns(cs, allowed)) == [] <==>
      forall c :: c in cs ==> forall test :: test in TestsOf(c.filter) ==> test.NoClause?
  {
    hide BuildColumns, BuildColumn, Somes, TestsOf;
    ColumnBuiltAt(cs, allowed);
    SomesEmpty(BuildColumns(cs, allowed));
    forall c | c in cs { ColumnVacuous(c, allowed); }
  }

  lemma ChildrenVacuous(asts: seq<WhereAst>, allowed: set<string>)
    requires Throws !in BuildAll(asts, allowed)
    requires forall child :: child in asts ==> (Vacuous(child) <==> Build(child, allowed) == Clause(None))
    ensures Somes(BuildAll(asts, allowed)) == [] <==> forall child :: child in asts ==> Vacuous(child)
  {
    hide Build, BuildAll, Somes, Vacuous;
    BuiltAt(asts, allowed);
    SomesEmpty(BuildAll(asts, allowed));
  }

  // ----- the verdict on a group -----

  lemma OrPartVerdict(schema: Schema, ast: WhereAst, allowed: set<string>, row: Row)
    requires ast.Group? && Throws !in BuildAll(ast.or, allowed)
    requires forall child :: child in ast.or ==>
      Says(schema, Build(child, allowed), row, Keeps(schema, child, row), Refutes(schema, child, row))
    requires forall child :: child in ast.or ==> (Vacuous(child) <==> Build(child, allowed) == Clause(None))
    ensures AllTrue(schema, OrPart(ast, allowed), row) <==>
      (forall child :: child in ast.or ==> Vacuous(child)) ||
      exists child :: child in ast.or && !Vacuous(child) && Keeps(schema, child, row)
    ensures SomeFalse(schema, OrPart(ast, allowed), row) <==>
      (exists child :: child in ast.or && !Vacuous(child)) &&
      forall child :: child in ast.or && !Vacuous(child) ==> Refutes(schema, child, row)
  {
    hide Build, BuildAll, Somes, Eval, Keeps, Refutes, Vacuous;
    var ps := Somes(BuildAll(ast.or, allowed));
    ClausesOf(ast.or, allowed);
    if ps != [] {
      assert ps[0] in ps;
      OrTruth(schema, ps, row);
      assert OrPart(ast, allowed) == [OrOf(ps).value];
      hide OrOf;
      forall p | p in ps
        ensures exists child :: child in ast.or && !Vacuous(child) && Build(child, allowed) == Clause(Some(p)) {}
      forall child | child in ast.or && !Vacuous(child)
        ensures Build(child, allowed).p.Some? && Build(child, allowed).p.value in ps {}
      OnePart(schema, OrOf(ps).value, row);
    }
  }

  lemma OnePart(schema: Schema, p: Pred, row: Row)
    ensures AllTrue(schema, [p], row) <==> Eval(schema, p, row) == True
    ensures SomeFalse(schema, [p], row) <==> Eval(schema, p, row) == False
  {
    hide Eval;
    assert p in [p];
  }

  /** The clauses of a list of children are those of its non-vacuous members. */
  lemma ClausesOf(asts: seq<WhereAst>, allowed: set<string>)
    requires Throws !in BuildAll(asts, allowed)
    ensures forall child :: child in asts && Build(child, allowed).p.Some? ==>
      Build(child, allowed).p.value in Somes(BuildAll(asts, allowed))
    ensures forall p :: p in Somes(BuildAll(asts, allowed)) ==>
      exists child :: child in asts && Build(child, allowed) == Clause(Some(p))
  {
    hide Build, BuildAll, Somes;
    BuiltAt(asts, allowed);
    SomesIn(BuildAll(asts, allowed));
    forall child | child in asts && Build(child, allowed).p.Some?
      ensures Build(child, allowed).p.value in Somes(BuildAll(asts, allowed))
    {
      assert Build(child, allowed) == Clause(Some(Build(child, allowed).p.value));
    }
  }

  lemma ColumnsVerdict(schema: Schema, cs: seq<ColumnFilter>, allowed: set<string>, row: Row)
    requires Throws !in BuildColumns(cs, allowed) && forall c :: c in cs ==> ColumnTyped(schema, c, row)
    ensures AllTrue(schema, Somes(BuildColumns(cs, allowed)), row) <==>
      forall c :: c in cs ==> ColumnKeeps(schema, c, row)
    ensures SomeFalse(schema, Somes(BuildColumns(cs, allowed)), row) <==>
      exists c :: c in cs && ColumnRefutes(schema, c, row)
  {
    hide BuildColumns, BuildColumn, Somes, ColumnTyped, ColumnKeeps, ColumnRefutes, EvalClause;
    ColumnBuiltAt(cs, allowed);
    SomesTruth(schema, BuildColumns(cs, allowed), row);
    forall c | c in cs { ColumnVerdict(schema, c, allowed, row); }
  }

  lemma ChildrenVerdict(schema: Schema, asts: seq<WhereAst>, allowed: set<string>, row: Row)
    requires Throws !in BuildAll(asts, allowed)
    requires forall child :: child in asts ==>
      Says(schema, Build(child, allowed), row, Keeps(schema, child, row), Refutes(schema, child, row))
    ensures AllTrue(schema, Somes(BuildAll(asts, allowed)), row) <==>
      forall child :: child in asts ==> Keeps(schema, child, row)
    ensures SomeFalse(schema, Somes(BuildAll(asts, allowed)), row) <==>
      exists child :: child in asts && Refutes(schema, child, row)
  {
    hide Build, BuildAll, Somes, Keeps, Refutes, EvalClause;
    BuiltAt(asts, allowed);
    SomesTruth(schema, BuildAll(asts, allowed), row);
  }

  lemma NotPartVerdict(schema: Schema, ast: WhereAst, allowed: set<string>, row: Row)
    requires ast.Group? && Build(ast, allowed).Clause? && ast.not.Some?
    requires Says(schema, Build(ast.not.value, allowed), row, Keeps(schema, ast.not.value, row),
      Refutes(schema, ast.not.value, row))
    requires Vacuous(ast.not.value) <==> Build(ast.not.value, allowed) == Clause(None)
    ensures AllTrue(schema, NotPart(ast, allowed), row) <==>
      Vacuous(ast.not.value) || Refutes(schema, ast.not.value, row)
    ensures SomeFalse(schema, NotPart(ast, allowed), row) <==>
      !Vacuous(ast.not.value) && Keeps(schema, ast.not.value, row)
  {
    hide Build, Keeps, Refutes, Vacuous;
    if Build(ast.not.value, allowed).p.Some? {
      OnePart(schema, Not(Build(ast.not.value, allowed).p.value), row);
    }
  }

  lemma FourParts(schema: Schema, c: seq<Pred>, a: seq<Pred>, o: seq<Pred>, n: seq<Pred>, row: Row)
    ensures EvalClause(schema, AndOf(c + a + o + n), row) == True <==>
      AllTrue(schema, c, row) && AllTrue(schema, a, row) && AllTrue(schema, o, row) && AllTrue(schema, n, row)
    ensures EvalClause(schema, AndOf(c + a + o + n), row) == False <==>
      SomeFalse(schema, c, row) || SomeFalse(schema, a, row) || SomeFalse(schema, o, row) || SomeFalse(schema, n, row)
  {
    hide Eval, AndOf, EvalClause, AllTrue, SomeFalse;
    TruthConcat(schema, c, a, row);
    TruthConcat(schema, c + a, o, row);
    TruthConcat(schema, c + a + o, n, row);
    AndTruth(schema, c + a + o + n, row);
  }

  lemma GroupVerdict(schema: Schema, ast: WhereAst, allowed: set<string>, row: Row)
    requires ast.Group? && Build(ast, allowed).Clause? && FilterTyped(schema, ast, row)
    requires forall child :: child in ast.and + ast.or ==>
      Says(schema, Build(child, allowed), row, Keeps(schema, child, row), Refutes(schema, child, row))
    requires ast.not.Some? ==>
      Says(schema, Build(ast.not.value, allowed), row, Keeps(schema, ast.not.value, row),
        Refutes(schema, ast.not.value, row))
    ensures Says(schema, Build(ast, allowed), row, Keeps(schema, ast, row), Refutes(schema, ast, row))
  {
    hide Build, BuildAll, BuildColumns, Somes, EvalClause, AndOf, Says, AllTrue, SomeFalse, OrPart, NotPart,
        ColumnKeeps, ColumnRefutes, ColumnTyped;
    PartsBuild(ast, allowed);
    GroupBuilds(ast, allowed);
    assert forall child :: child in ast.and || child in ast.or ==> child in ast.and + ast.or;
    ColumnsVerdict(schema, ast.columns, allowed, row);
    ChildrenVerdict(schema, ast.and, allowed, row);
    forall child | child in ast.or { VacuousIs(child, allowed); }
    OrPartVerdict(schema, ast, allowed, row);
    NotPartSays(schema, ast, allowed, row);
    FourParts(schema, Somes(BuildColumns(ast.columns, allowed)), Somes(BuildAll(ast.and, allowed)),
      OrPart(ast, allowed), NotPart(ast, allowed), row);
    SaysOf(schema, Build(ast, allowed), row, Keeps(schema, ast, row), Refutes(schema, ast, row));
  }

  lemma SaysOf(schema: Schema, b: Built, row: Row, keeps: bool, refutes: bool)
    ensures Says(schema, b, row, keeps, refutes) <==>
      b.Clause? && (EvalClause(schema, b.p, row) == True <==> keeps) &&
        (EvalClause(schema, b.p, row) == False <==> refutes)
  {
  }

  lemma NotPartSays(schema: Schema, ast: WhereAst, allowed: set<string>, row: Row)
    requires ast.Group? && Build(ast, allowed).Clause?
    requires ast.not.Some? ==>
      Says(schema, Build(ast.not.value, allowed), row, Keeps(schema, ast.not.value, row),
        Refutes(schema, ast.not.value, row))
    ensures AllTrue(schema, NotPart(ast, allowed), row) <==>
      (ast.not.Some? ==> Vacuous(ast.not.value) || Refutes(schema, ast.not.value, row))
    ensures SomeFalse(schema, NotPart(ast, allowed), row) <==>
      ast.not.Some? && !Vacuous(ast.not.value) && Keeps(schema, ast.not.value, row)
  {
    if ast.not.Some? {
      PartsBuild(ast, allowed);
      VacuousIs(ast.not.value, allowed);
      NotPartVerdict(schema, ast, allowed, row);
    } else {
      assert NotPart(ast, allowed) == [];
    }
  }

  /** The verdict is SQL's: for every filter that builds and compares what can be compared, on every
      row, nulls and all, the built predicate is TRUE iff the filter keeps the row, FALSE iff it refutes
      it, and UNKNOWN otherwise. */
  lemma {:induction false} VerdictIsSql(schema: Schema, ast: WhereAst, allowed: set<string>, row: Row)
    requires FilterTyped(schema, ast, row) && Build(ast, allowed).Clause?
    ensures EvalClause(schema, Build(ast, allowed).p, row) == True <==> Keeps(schema, ast, row)
    ensures EvalClause(schema, Build(ast, allowed).p, row) == False <==> Refutes(schema, ast, row)
    decreases ast
  {
    if ast.Group? {
      PartsBuild(ast, allowed);
      forall child | child in ast.and + ast.or
        ensures Says(schema, Build(child, allowed), row, Keeps(schema, child, row), Refutes(schema, child, row))
      {
        VerdictIsSql(schema, child, allowed, row);
      }
      if ast.not.Some? { VerdictIsSql(schema, ast.not.value, allowed, row); }
      hide Build, Keeps, Refutes;
      GroupVerdict(schema, ast, allowed, row);
    }
  }
}
