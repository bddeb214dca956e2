/** Events-table names (server/events-table-resolver.ts) and the registration loop in the constructor
    of server/pulse-runtime.ts that keeps them apart. */
module Names {
  import opened Values

  datatype Table = Table(schema: Option<string>, name: string)

  function SchemaOf(t: Table): string {
    if t.schema.Some? then t.schema.value else "public"
  }

  /** escapeComponent: every underscore doubled. */
  function Escape(component: string): string {
    if component == "" then ""
    else (if component[0] == '_' then "__" else [component[0]]) + Escape(component[1..])
  }

  function Join(schema: string, name: string): string {
    Escape(schema) + "_" + Escape(name)
  }

  /** getEventsTableName, without its length check. */
  function EventsTableName(t: Table): string {
    Join(SchemaOf(t), t.name)
  }

  /** getQualifiedTableName. */
  function QualifiedName(t: Table): string {
    SchemaOf(t) + "." + t.name
  }

  // ----- when two names are the same -----

  function Underscores(k: nat): string {
    if k == 0 then "" else "_" + Underscores(k - 1)
  }

  /** The second pair is the first with underscores moved from the schema's end to the name's start. */
  ghost predicate Moved(s1: string, t1: string, s2: string, t2: string) {
    exists k: nat :: s1 == s2 + Underscores(k) && t2 == Underscores(k) + t1
  }

  lemma {:induction false} EscapeIsInjective(a: string, b: string)
    ensures Escape(a) == Escape(b) <==> a == b
    decreases |a|
  {
    if a != "" && b != "" && Escape(a) == Escape(b) {
      assert Escape(a)[0] == Escape(b)[0] == a[0] == b[0];
      SameAfter(if a[0] == '_' then "__" else [a[0]], Escape(a[1..]), Escape(b[1..]));
      EscapeIsInjective(a[1..], b[1..]);
      assert a == [a[0]] + a[1..] && b == [b[0]] + b[1..];
    }
  }

  lemma SameAfter(prefix: string, a: string, b: string)
    ensures prefix + a == prefix + b <==> a == b
  {
    if prefix + a == prefix + b {
      assert a == (prefix + a)[|prefix|..] && b == (prefix + b)[|prefix|..];
    }
  }

  lemma JoinOfCons(c: char, schema: string, name: string)
    ensures Join([c] + schema, name) == (if c == '_' then "__" else [c]) + Join(schema, name)
  {
    assert ([c] + schema)[1..] == schema;
  }

  /** The names of ("", t2) and (s1, t1) can only agree if s1 is all underscores. */
  lemma {:induction false} EmptySchemaCollides(s1: string, t1: string, t2: string)
    requires Join(s1, t1) == Join("", t2)
    ensures Moved(s1, t1, "", t2)
    decreases |s1|
  {
    assert Join("", t2) == "_" + Escape(t2);
    if s1 == "" {
      SameAfter("_", Escape(t1), Escape(t2));
      EscapeIsInjective(t1, t2);
      assert s1 == "" + Underscores(0) && t2 == Underscores(0) + t1;
    } else {
      PeelUnderscore(s1, t1, t2);
      EmptySchemaCollides(s1[1..], t1, t2[1..]);
      MoveOneMore(s1, t1, t2);
    }
  }

  lemma PeelUnderscore(s1: string, t1: string, t2: string)
    requires s1 != "" && Join(s1, t1) == Join("", t2)
    ensures s1[0] == '_' && t2 != "" && t2[0] == '_' && Join(s1[1..], t1) == Join("", t2[1..])
  {
    var rest := Join(s1[1..], t1);
    assert s1 == [s1[0]] + s1[1..];
    JoinOfCons(s1[0], s1[1..], t1);
    assert Join("", t2) == "_" + Escape(t2);
    hide Join;
    assert Join(s1, t1)[0] == s1[0] == '_';
    assert "__" + rest == "_" + ("_" + rest);
    SameAfter("_", Escape(t2), "_" + rest);
    StartsWithUnderscore(t2, rest);
  }

  lemma StartsWithUnderscore(t: string, rest: string)
    requires Escape(t) == "_" + rest
    ensures t != "" && t[0] == '_' && rest == Join("", t[1..])
  {
    assert Escape(t)[0] == '_' == t[0];
    assert "__" + Escape(t[1..]) == "_" + Join("", t[1..]);
    SameAfter("_", Join("", t[1..]), rest);
  }

  lemma MoveOneMore(s1: string, t1: string, t2: string)
    requires s1 != "" && s1[0] == '_' && t2 != "" && t2[0] == '_' && Moved(s1[1..], t1, "", t2[1..])
    ensures Moved(s1, t1, "", t2)
  {
    var k: nat :| s1[1..] == "" + Underscores(k) && t2[1..] == Underscores(k) + t1;
    assert t2 == "_" + t2[1..] && s1 == "_" + s1[1..];
    assert Underscores(k + 1) == "_" + Underscores(k);
    assert s1 == "" + Underscores(k + 1) && t2 == Underscores(k + 1) + t1;
  }

  lemma {:induction false} MovedCollides(s: string, t: string, k: nat)
    ensures Join(s + Underscores(k), t) == Join(s, Underscores(k) + t)
    decreases |s|, k
  {
    if s != "" {
      MovedCollides(s[1..], t, k);
      assert s == [s[0]] + s[1..] && s + Underscores(k) == [s[0]] + (s[1..] + Underscores(k));
      JoinOfCons(s[0], s[1..] + Underscores(k), t);
      JoinOfCons(s[0], s[1..], Underscores(k) + t);
    } else if k > 0 {
      MovedCollides("", t, k - 1);
      var u := Underscores(k - 1);
      assert "" + Underscores(k) == ['_'] + u && "" + u == u;
      JoinOfCons('_', u, t);
      assert (Underscores(k) + t)[1..] == u + t;
      assert Join("", Underscores(k) + t) == "_" + ("__" + Escape(u + t));
      assert "__" + Join("", u + t) == "_" + ("__" + Escape(u + t));
    } else {
      assert "" + Underscores(0) == "" && Underscores(0) + t == t;
    }
  }

  /** Two pairs derive the same name exactly when one is the other with underscores moved across the
      joint. */
  lemma {:induction false} NamesCollideIff(s1: string, t1: string, s2: string, t2: string)
    ensures Join(s1, t1) == Join(s2, t2) <==> Moved(s1, t1, s2, t2) || Moved(s2, t2, s1, t1)
    decreases |s1|
  {
    if Moved(s1, t1, s2, t2) {
      var k: nat :| s1 == s2 + Underscores(k) && t2 == Underscores(k) + t1;
      MovedCollides(s2, t1, k);
    } else if Moved(s2, t2, s1, t1) {
      var k: nat :| s2 == s1 + Underscores(k) && t1 == Underscores(k) + t2;
      MovedCollides(s1, t2, k);
    } else if Join(s1, t1) == Join(s2, t2) {
      CollidersAreMoved(s1, t1, s2, t2);
    }
  }

  lemma {:induction false} CollidersAreMoved(s1: string, t1: string, s2: string, t2: string)
    requires Join(s1, t1) == Join(s2, t2)
    ensures Moved(s1, t1, s2, t2) || Moved(s2, t2, s1, t1)
    decreases |s1|
  {
    if s2 == "" {
      EmptySchemaCollides(s1, t1, t2);
    } else if s1 == "" {
      EmptySchemaCollides(s2, t2, t1);
    } else {
      assert Join(s1, t1)[0] == s1[0] && Join(s2, t2)[0] == s2[0];
      assert s1 == [s1[0]] + s1[1..] && s2 == [s1[0]] + s2[1..];
      JoinOfCons(s1[0], s1[1..], t1);
      JoinOfCons(s1[0], s2[1..], t2);
      SameAfter(if s1[0] == '_' then "__" else [s1[0]], Join(s1[1..], t1), Join(s2[1..], t2));
      CollidersAreMoved(s1[1..], t1, s2[1..], t2);
      MovedUnder(s1[0], s1[1..], t1, s2[1..], t2);
    }
  }

  lemma MovedUnder(c: char, s1: string, t1: string, s2: string, t2: string)
    ensures Moved(s1, t1, s2, t2) ==> Moved([c] + s1, t1, [c] + s2, t2)
    ensures Moved(s2, t2, s1, t1) ==> Moved([c] + s2, t2, [c] + s1, t1)
  {
    if Moved(s1, t1, s2, t2) {
      var k: nat :| s1 == s2 + Underscores(k) && t2 == Underscores(k) + t1;
      assert [c] + s1 == ([c] + s2) + Underscores(k);
    }
    if Moved(s2, t2, s1, t1) {
      var k: nat :| s2 == s1 + Underscores(k) && t1 == Underscores(k) + t2;
      assert [c] + s2 == ([c] + s1) + Underscores(k);
    }
  }

  predicate CleanJoint(t: Table) {
    var s := SchemaOf(t);
    (s != "" ==> s[|s| - 1] != '_') && (t.name != "" ==> t.name[0] != '_')
  }

  /** With no underscore at the joint the name determines schema and table. */
  lemma CleanNamesAreDistinct(a: Table, b: Table)
    requires CleanJoint(a) && CleanJoint(b) && EventsTableName(a) == EventsTableName(b)
    ensures SchemaOf(a) == SchemaOf(b) && a.name == b.name
  {
    NamesCollideIff(SchemaOf(a), a.name, SchemaOf(b), b.name);
    if Moved(SchemaOf(a), a.name, SchemaOf(b), b.name) {
      var k: nat :| SchemaOf(a) == SchemaOf(b) + Underscores(k) && b.name == Underscores(k) + a.name;
      EndsInUnderscore(k);
    } else {
      var k: nat :| SchemaOf(b) == SchemaOf(a) + Underscores(k) && a.name == Underscores(k) + b.name;
      EndsInUnderscore(k);
    }
  }

  lemma {:induction false} EndsInUnderscore(k: nat)
    ensures |Underscores(k)| == k && forall i :: 0 <= i < k ==> Underscores(k)[i] == '_'
  {
    if k > 0 { EndsInUnderscore(k - 1); }
  }

  // ----- qualified names -----

  /** The second pair splits the same dotted path at an earlier dot. */
  ghost predicate SplitEarlier(s1: string, t1: string, s2: string, t2: string) {
    exists r: string :: s1 == s2 + "." + r && t2 == r + "." + t1
  }

  /** Two tables share a qualified name exactly when they are the same or a schema or table name holds
      a dot that makes them split one path differently. */
  lemma QualifiedCollideIff(a: Table, b: Table)
    ensures QualifiedName(a) == QualifiedName(b) <==>
      (SchemaOf(a) == SchemaOf(b) && a.name == b.name) ||
      SplitEarlier(SchemaOf(a), a.name, SchemaOf(b), b.name) || SplitEarlier(SchemaOf(b), b.name, SchemaOf(a), a.name)
  {
    SplitsIff(SchemaOf(a), a.name, SchemaOf(b), b.name);
    SplitsIff(SchemaOf(b), b.name, SchemaOf(a), a.name);
  }

  lemma SplitsIff(s1: string, t1: string, s2: string, t2: string)
    ensures |s1| == |s2| ==> (s1 + "." + t1 == s2 + "." + t2 <==> s1 == s2 && t1 == t2)
    ensures |s1| > |s2| ==> (s1 + "." + t1 == s2 + "." + t2 <==> SplitEarlier(s1, t1, s2, t2))
    ensures SplitEarlier(s1, t1, s2, t2) ==> |s1| > |s2|
  {
    var q1, q2 := s1 + "." + t1, s2 + "." + t2;
    if q1 == q2 && |s1| >= |s2| {
      assert s2 == q2[..|s2|] == s1[..|s2|];
      assert t2 == q2[|s2| + 1..];
      assert t1 == q1[|s1| + 1..];
      if |s1| > |s2| {
        var r := s1[|s2| + 1..];
        assert q1[|s2|] == '.' == s1[|s2|];
        assert s1 == s2 + "." + r;
        assert t2 == r + "." + t1;
      }
    }
    if SplitEarlier(s1, t1, s2, t2) {
      var r :| s1 == s2 + "." + r && t2 == r + "." + t1;
      assert q1 == q2;
    }
  }

  // ----- registration -----

  /** No earlier table has the same qualified name. */
  predicate First(tables: seq<Table>, i: nat)
    requires i < |tables|
  {
    forall k :: 0 <= k < i ==> QualifiedName(tables[k]) != QualifiedName(tables[i])
  }

  ghost predicate Collide(tables: seq<Table>, i: nat, j: nat) {
    i < j < |tables| && First(tables, i) && First(tables, j) && EventsTableName(tables[i]) == EventsTableName(tables[j])
  }

  ghost predicate FirstIs(tables: seq<Table>, n: nat, t: Table)
    requires n <= |tables|
  {
    exists i :: 0 <= i < n && First(tables, i) && tables[i] == t
  }

  /** What the loop has put down for the first `n` tables. */
  ghost predicate RegisteredUpto(tables: seq<Table>, n: nat, metadata: map<string, Table>) {
    && n <= |tables|
    && (forall i :: 0 <= i < n ==> QualifiedName(tables[i]) in metadata)
    && (forall i :: 0 <= i < n && First(tables, i) ==> metadata[QualifiedName(tables[i])] == tables[i])
    && (forall q :: q in metadata ==> QualifiedName(metadata[q]) == q && FirstIs(tables, n, metadata[q]))
  }

  ghost predicate OriginsOf(metadata: map<string, Table>, origin: map<string, string>) {
    && (forall q :: q in metadata ==>
          EventsTableName(metadata[q]) in origin && origin[EventsTableName(metadata[q])] == q)
    && (forall e :: e in origin ==> origin[e] in metadata && EventsTableName(metadata[origin[e]]) == e)
  }

  /** The constructor's loop. It fails exactly when two tables of different qualified names derive the
      same events name; a runtime that comes out of it holds the first table of every qualified name,
      each with an events name of its own. */
  method RegisterSources(tables: seq<Table>) returns (r: Option<map<string, Table>>)
    ensures r.None? <==> exists i: nat, j: nat :: Collide(tables, i, j)
    ensures r.Some? ==> RegisteredUpto(tables, |tables|, r.value)
    ensures r.Some? ==> forall p, q :: p in r.value && q in r.value && p != q ==>
      EventsTableName(r.value[p]) != EventsTableName(r.value[q])
  {
    hide QualifiedName, EventsTableName, RegisteredUpto, OriginsOf, Collide;
    NothingRegistered(tables);
    var metadata: map<string, Table>, origin: map<string, string> := map[], map[];
    for n := 0 to |tables|
      invariant RegisteredUpto(tables, n, metadata) && OriginsOf(metadata, origin)
      invariant forall i: nat, j: nat :: j < n ==> !Collide(tables, i, j)
    {
      var t := tables[n];
      var q := QualifiedName(t);
      FirstIffAbsent(tables, n, metadata);
      if q in metadata {
        RegisterKnown(tables, n, metadata);
        continue;
      }
      var eventsName := EventsTableName(t);
      CollidesIff(tables, n, metadata, origin);
      if eventsName in origin && origin[eventsName] != q { return None; }
      RegisterNew(tables, n, metadata);
      OriginsGrow(metadata, origin, t);
      origin := origin[eventsName := q];
      metadata := metadata[q := t];
    }
    EachItsOwn(metadata, origin);
    return Some(metadata);
  }

  lemma NothingRegistered(tables: seq<Table>)
    ensures RegisteredUpto(tables, 0, map[]) && OriginsOf(map[], map[])
    ensures forall i: nat, j: nat :: Collide(tables, i, j) ==> j < |tables|
  {
    hide First;
  }

  lemma OriginsGrow(metadata: map<string, Table>, origin: map<string, string>, t: Table)
    requires OriginsOf(metadata, origin) && QualifiedName(t) !in metadata && EventsTableName(t) !in origin
    ensures OriginsOf(metadata[QualifiedName(t) := t], origin[EventsTableName(t) := QualifiedName(t)])
  {
    hide QualifiedName, EventsTableName;
  }

  lemma EachItsOwn(metadata: map<string, Table>, origin: map<string, string>)
    requires OriginsOf(metadata, origin)
    ensures forall p, q :: p in metadata && q in metadata && p != q ==>
      EventsTableName(metadata[p]) != EventsTableName(metadata[q])
  {
    hide EventsTableName;
  }

  lemma RegisterKnown(tables: seq<Table>, n: nat, metadata: map<string, Table>)
    requires n < |tables| && RegisteredUpto(tables, n, metadata) && QualifiedName(tables[n]) in metadata
    ensures RegisteredUpto(tables, n + 1, metadata) && !First(tables, n)
    ensures forall i: nat :: !Collide(tables, i, n)
  {
    hide QualifiedName, EventsTableName;
    FirstIffAbsent(tables, n, metadata);
    forall q | q in metadata ensures FirstIs(tables, n + 1, metadata[q]) {
      assert FirstIs(tables, n, metadata[q]);
    }
  }

  lemma RegisterNew(tables: seq<Table>, n: nat, metadata: map<string, Table>)
    requires n < |tables| && RegisteredUpto(tables, n, metadata) && QualifiedName(tables[n]) !in metadata
    ensures RegisteredUpto(tables, n + 1, metadata[QualifiedName(tables[n]) := tables[n]])
  {
    hide QualifiedName, EventsTableName;
    FirstIffAbsent(tables, n, metadata);
    var metadata' := metadata[QualifiedName(tables[n]) := tables[n]];
    forall q | q in metadata' ensures FirstIs(tables, n + 1, metadata'[q]) {
      if q in metadata { assert FirstIs(tables, n, metadata[q]); }
    }
  }

  /** A new table clashes with an earlier one exactly when its events name already has an origin. */
  lemma CollidesIff(tables: seq<Table>, n: nat, metadata: map<string, Table>, origin: map<string, string>)
    requires n < |tables| && RegisteredUpto(tables, n, metadata) && OriginsOf(metadata, origin)
    requires QualifiedName(tables[n]) !in metadata
    ensures EventsTableName(tables[n]) in origin ==> origin[EventsTableName(tables[n])] != QualifiedName(tables[n])
    ensures EventsTableName(tables[n]) in origin <==> exists i: nat :: Collide(tables, i, n)
  {
    hide QualifiedName, EventsTableName;
    FirstIffAbsent(tables, n, metadata);
    var e := EventsTableName(tables[n]);
    if e in origin {
      var prior := metadata[origin[e]];
      assert FirstIs(tables, n, prior);
      var i :| 0 <= i < n && First(tables, i) && tables[i] == prior;
      assert Collide(tables, i, n);
    }
    forall i: nat | Collide(tables, i, n) ensures e in origin {
      assert metadata[QualifiedName(tables[i])] == tables[i];
    }
  }

  lemma FirstIffAbsent(tables: seq<Table>, n: nat, metadata: map<string, Table>)
    requires n < |tables| && RegisteredUpto(tables, n, metadata)
    ensures First(tables, n) <==> QualifiedName(tables[n]) !in metadata
  {
  }
}
