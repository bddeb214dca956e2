/** JavaScript values as they reach this code, rows, and the primary-key order of
    shared/pk-utils.ts. */
module Values {

  /** `Other` stands for every value that JavaScript compares with `===` only: a bigint, known by its
      value, or a Date, an array or an object, known by its identity, so that two equal dates are two
      values. `Undefined` is an absent property. `Num` holds the finite numbers. */
  datatype Value = Undefined | Null | Bool(b: bool) | Num(n: real) | Str(s: string) | Other(id: nat)

  type Row = map<string, Value>

  function Field(row: Row, key: string): Value {
    if key in row then row[key] else Undefined
  }

  datatype Option<+T> = None | Some(value: T)

  datatype Order = Asc | Desc

  predicate IsPkComparable(v: Value) {
    v.Num? || v.Str?
  }

  predicate SameKind(a: Value, b: Value) {
    (a.Num? && b.Num?) || (a.Str? && b.Str?)
  }

  /** The string `<` of JavaScript: code unit by code unit. */
  predicate StrLess(a: string, b: string)
    decreases |a|
  {
    if b == "" then false
    else if a == "" then true
    else if a[0] != b[0] then a[0] < b[0]
    else StrLess(a[1..], b[1..])
  }

  predicate PkLess(a: Value, b: Value) {
    (a.Num? && b.Num? && a.n < b.n) || (a.Str? && b.Str? && StrLess(a.s, b.s))
  }

  /** comparePkValues, on its documented domain narrowed to one column's type. */
  function ComparePkValues(left: Value, right: Value): (c: int)
    requires SameKind(left, right)
    ensures c == 0 <==> left == right
    ensures c < 0 <==> PkLess(left, right)
    ensures c > 0 <==> PkLess(right, left)
  {
    PkLessTotal(left, right);
    if left == right then 0 else if PkLess(left, right) then -1 else 1
  }

  /** `a` is displayed strictly before `b`. */
  predicate Before(order: Order, a: Value, b: Value) {
    if order.Desc? then PkLess(b, a) else PkLess(a, b)
  }

  lemma {:induction false} StrLessTotal(a: string, b: string)
    ensures !(StrLess(a, b) && StrLess(b, a))
    ensures StrLess(a, b) || StrLess(b, a) || a == b
    ensures !StrLess(a, a)
    decreases |a|
  {
    if a != "" {
      StrLessTotal(a[1..], a[1..]);
      if b != "" && a[0] == b[0] {
        StrLessTotal(a[1..], b[1..]);
        assert a == [a[0]] + a[1..] && b == [b[0]] + b[1..];
      }
    }
  }

  lemma {:induction false} StrLessTransitive(a: string, b: string, c: string)
    requires StrLess(a, b) && StrLess(b, c)
    ensures StrLess(a, c)
    decreases |a|
  {
    if a != "" && a[0] == b[0] && b[0] == c[0] {
      StrLessTransitive(a[1..], b[1..], c[1..]);
    }
  }

  lemma PkLessTotal(a: Value, b: Value)
    ensures !(PkLess(a, b) && PkLess(b, a))
    ensures SameKind(a, b) ==> PkLess(a, b) || PkLess(b, a) || a == b
    ensures !PkLess(a, a)
  {
    if a.Str? {
      StrLessTotal(a.s, a.s);
      if b.Str? {
        StrLessTotal(a.s, b.s);
      }
    }
  }

  /** Display order is a strict total order on one kind of primary key: the precondition under
      which sorting and binary search mean anything. */
  lemma BeforeIsStrictOrder(order: Order, a: Value, b: Value, c: Value)
    ensures !Before(order, a, a)
    ensures !(Before(order, a, b) && Before(order, b, a))
    ensures SameKind(a, b) ==> Before(order, a, b) || Before(order, b, a) || a == b
    ensures Before(order, a, b) && Before(order, b, c) ==> Before(order, a, c)
  {
    PkLessTotal(a, b);
    if Before(order, a, b) && Before(order, b, c) && a.Str? {
      if order.Desc? {
        StrLessTransitive(c.s, b.s, a.s);
      } else {
        StrLessTransitive(a.s, b.s, c.s);
      }
    }
  }
}
