/**
 Other names on the target. The protocol keeps the target under the source's names; the
 server has it under the rewritten ones. As long as no two tables are given one name, what
 is done to the one is done to the other.
 */
module Rewriting {
  import opened Rows
  import opened Lexer
  import opened DmlEvents
  import opened SqlMeaning
  import opened RowBatch

  function TargetKey(rw: Rewrites, k: Key): Key {
    Key(TargetName(rw, k.table), k.pk)
  }

  /** No two of the tables are given one name. */
  ghost predicate Injective(rw: Rewrites, tables: set<TableName>) {
    forall t, u :: t in tables && u in tables && TargetName(rw, t) == TargetName(rw, u) ==> t == u
  }

  ghost predicate Within(db: Database, tables: set<TableName>) {
    forall k :: k in db ==> k.table in tables
  }

  ghost predicate AllWithin(es: seq<Change>, tables: set<TableName>) {
    forall i :: 0 <= i < |es| ==> es[i].key.table in tables
  }

  /** The target as the server has it. */
  ghost function Renamed(rw: Rewrites, tables: set<TableName>, db: Database): Database
    requires Injective(rw, tables) && Within(db, tables)
  {
    map k | k in db :: TargetKey(rw, k) := db[k]
  }

  function RenamedChange(rw: Rewrites, e: Change): Change {
    Change(TargetKey(rw, e.key), e.before, e.after)
  }

  function RenamedChanges(rw: Rewrites, es: seq<Change>): seq<Change> {
    seq(|es|, i requires 0 <= i < |es| => RenamedChange(rw, es[i]))
  }

  lemma RenamedLookup(rw: Rewrites, tables: set<TableName>, db: Database, k: Key)
    requires Injective(rw, tables) && Within(db, tables) && k.table in tables
    ensures Lookup(Renamed(rw, tables, db), TargetKey(rw, k)) == Lookup(db, k)
  {
    var there := Renamed(rw, tables, db);
    if TargetKey(rw, k) in there {
      var j :| j in db && TargetKey(rw, j) == TargetKey(rw, k);
      assert j == k;
    }
  }

  lemma RenamedStore(rw: Rewrites, tables: set<TableName>, db: Database, k: Key, v: Option<Row>)
    requires Injective(rw, tables) && Within(db, tables) && k.table in tables
    ensures Within(Store(db, k, v), tables)
    ensures Renamed(rw, tables, Store(db, k, v)) == Store(Renamed(rw, tables, db), TargetKey(rw, k), v)
  {
    var a, b := Renamed(rw, tables, Store(db, k, v)), Store(Renamed(rw, tables, db), TargetKey(rw, k), v);
    forall x ensures Lookup(a, x) == Lookup(b, x) {
      RenamedStoreAt(rw, tables, db, k, v, x);
    }
    SameLookups(a, b);
  }

  lemma RenamedStoreAt(rw: Rewrites, tables: set<TableName>, db: Database, k: Key, v: Option<Row>, x: Key)
    requires Injective(rw, tables) && Within(db, tables) && k.table in tables
    ensures Within(Store(db, k, v), tables)
    ensures Lookup(Renamed(rw, tables, Store(db, k, v)), x)
         == Lookup(Store(Renamed(rw, tables, db), TargetKey(rw, k), v), x)
  {
    var db' := Store(db, k, v);
    if j :| (j in db || j == k) && TargetKey(rw, j) == x {
      RenamedLookup(rw, tables, db, j);
      RenamedLookup(rw, tables, db', j);
      assert j == k <==> x == TargetKey(rw, k);
    } else {
      assert x != TargetKey(rw, k);
      assert x !in Renamed(rw, tables, db) && x !in Renamed(rw, tables, db');
    }
  }

  lemma RenamedCas(rw: Rewrites, tables: set<TableName>, db: Database, e: Change)
    requires Injective(rw, tables) && Within(db, tables) && e.key.table in tables
    ensures Within(Cas(db, e), tables)
    ensures Renamed(rw, tables, Cas(db, e)) == Cas(Renamed(rw, tables, db), RenamedChange(rw, e))
  {
    RenamedLookup(rw, tables, db, e.key);
    if Lookup(db, e.key) == e.before {
      RenamedStore(rw, tables, db, e.key, e.after);
    }
  }

  /** Replaying a batch under other names is replaying it and then changing the names. */
  lemma {:induction false} RenamedCasAll(rw: Rewrites, tables: set<TableName>, db: Database, es: seq<Change>)
    requires Injective(rw, tables) && Within(db, tables) && AllWithin(es, tables)
    ensures Within(CasAll(db, es), tables)
    ensures Renamed(rw, tables, CasAll(db, es)) == CasAll(Renamed(rw, tables, db), RenamedChanges(rw, es))
  {
    if es != [] {
      var n := |es| - 1;
      var done := CasAll(db, es[..n]);
      RenamedCasAll(rw, tables, db, es[..n]);
      RenamedCas(rw, tables, done, es[n]);
      assert RenamedChanges(rw, es)[..n] == RenamedChanges(rw, es[..n]);
    } else {
      assert RenamedChanges(rw, es) == [];
    }
  }

  lemma RenamedInsert(rw: Rewrites, tables: set<TableName>, db: Database, k: Key, row: Row)
    requires Injective(rw, tables) && Within(db, tables) && k.table in tables
    ensures Within(InsertIgnore(db, k, row), tables)
    ensures Renamed(rw, tables, InsertIgnore(db, k, row))
         == InsertIgnore(Renamed(rw, tables, db), TargetKey(rw, k), row)
  {
    RenamedLookup(rw, tables, db, k);
    RenamedStore(rw, tables, db, k, Some(row));
  }

  function TargetSchema(rw: Rewrites, schema: Schema): Schema {
    schema.(table := TargetName(rw, schema.table))
  }

  /** The same for the rows of a page. */
  lemma {:induction false} RenamedInsertRows(rw: Rewrites, tables: set<TableName>, db: Database,
                                             schema: Schema, rows: seq<GoRow>)
    requires Injective(rw, tables) && Within(db, tables) && schema.table in tables
    requires forall i :: 0 <= i < |rows| ==> GoodValues(schema, rows[i])
    ensures Within(InsertRows(db, schema, rows), tables)
    ensures Renamed(rw, tables, InsertRows(db, schema, rows))
         == InsertRows(Renamed(rw, tables, db), TargetSchema(rw, schema), rows)
  {
    if rows != [] {
      var n := |rows| - 1;
      RenamedInsertRows(rw, tables, db, schema, rows[..n]);
      assert GoodValues(schema, rows[n]);
      var k := Key(schema.table, PkOf(schema, rows[n]).n);
      RenamedInsert(rw, tables, InsertRows(db, schema, rows[..n]), k, RowOf(rows[n]));
    }
  }

  lemma SameValues(rw: Rewrites, schema: Schema, values: GoRow)
    requires GoodValues(schema, values)
    ensures GoodValues(TargetSchema(rw, schema), values)
  {
  }

  /** The server that executes the query of a page inserts the page's rows under its own names. */
  lemma RenamedQuery(rw: Rewrites, tables: set<TableName>, there: Catalogue, db: Database, schema: Schema,
                     rows: seq<GoRow>)
    requires Injective(rw, tables) && Within(db, tables) && schema.table in tables && rows != []
    requires var target := TargetSchema(rw, schema);
             target.table in there && there[target.table] == target && PlainSchema(target)
    requires forall i :: 0 <= i < |rows| ==> GoodValues(schema, rows[i])
    ensures Within(InsertRows(db, schema, rows), tables)
    ensures ExecQuery(there, Renamed(rw, tables, db),
                      Text(QueryPieces(TargetName(rw, schema.table), schema.columns, |rows|)), Flat(rows))
         == Some(Renamed(rw, tables, InsertRows(db, schema, rows)))
  {
    forall i | 0 <= i < |rows| ensures GoodValues(TargetSchema(rw, schema), rows[i]) {
      SameValues(rw, schema, rows[i]);
    }
    RenamedInsertRows(rw, tables, db, schema, rows);
    QueryInsertsPage(there, Renamed(rw, tables, db), TargetSchema(rw, schema), rows);
  }

  /** The changes of the rewritten events are the rewritten changes. */
  lemma RewrittenChanges(rw: Rewrites, cat: Catalogue, there: Catalogue, es: seq<DmlEvent>)
    requires GoodEvents(cat, es) && GoodEvents(there, AllRewritten(rw, es))
    ensures ChangesOf(there, AllRewritten(rw, es)) == RenamedChanges(rw, ChangesOf(cat, es))
  {
    forall i | 0 <= i < |es|
      ensures ChangeOf(there, AllRewritten(rw, es)[i]) == RenamedChange(rw, ChangeOf(cat, es[i]))
    {
      assert AllRewritten(rw, es)[i] == Rewritten(rw, es[i]);
    }
  }

  /** Two tables that are given one name get in each other's way: the second insert of a key is lost. */
  lemma MergedTablesCollide(rw: Rewrites, t: TableName, u: TableName, pk: nat, a: Row, b: Row)
    requires t != u && TargetName(rw, t) == TargetName(rw, u) && a != b
    ensures var es := [Change(Key(t, pk), None, Some(a)), Change(Key(u, pk), None, Some(b))];
            && Lookup(CasAll(map[], es), Key(u, pk)) == Some(b)
            && Lookup(CasAll(map[], RenamedChanges(rw, es)), TargetKey(rw, Key(u, pk))) == Some(a)
  {
    var e, f := Change(Key(t, pk), None, Some(a)), Change(Key(u, pk), None, Some(b));
    var es, there := [e, f], [RenamedChange(rw, e), RenamedChange(rw, f)];
    assert RenamedChanges(rw, es) == there;
    TwoInserts(e, f);
    TwoInserts(there[0], there[1]);
  }

  lemma TwoInserts(e: Change, f: Change)
    requires e.before.None? && f.before.None? && e.after.Some? && f.after.Some?
    ensures Lookup(CasAll(map[], [e, f]), f.key) == if e.key == f.key then e.after else f.after
  {
    assert [e, f][..1] == [e] && [e][..0] == [];
    assert CasAll(map[], [e]) == Cas(map[], e);
  }
}
