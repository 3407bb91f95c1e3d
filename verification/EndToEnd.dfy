/**
 The protocol's steps on the target are what the server does with the text it is sent.
 */
module EndToEnd {
  import opened Rows
  import opened Lexer
  import opened SqlText
  import opened DmlEvents
  import opened SqlMeaning
  import opened RowBatch
  import opened Rewriting
  import opened Protocol
  import opened Races
  import opened Progress
  import opened GoodRuns

  /** The batch after its first `n` statements. */
  function AfterStatements(s: State, n: nat): State
    requires n <= |s.writer.batch|
  {
    s.(target := CasAll(s.target, s.writer.batch[..n]), writer := s.writer.(next := n))
  }

  lemma {:induction false} StatementSteps(c: Config, s: State, n: nat) returns (steps: seq<Step>)
    requires s.writer.writing && s.writer.next == 0 && n <= |s.writer.batch|
    ensures Runs(c, s, steps, AfterStatements(s, n))
  {
    if n == 0 {
      steps := [];
    } else {
      var before := AfterStatements(s, n - 1);
      var init := StatementSteps(c, s, n - 1);
      var t: State;
      steps, t := Then(c, s, init, before, Replaying(Statement));
      assert s.writer.batch[..n][..n - 1] == s.writer.batch[..n - 1];
    }
  }

  /** The batch is replayed from its beginning, whatever part of it had been before. */
  lemma WholeBatchSteps(c: Config, s: State) returns (steps: seq<Step>)
    requires s.writer.writing
    ensures Runs(c, s, steps, AfterStatements(s, |s.writer.batch|))
  {
    var n := |s.writer.batch|;
    var again, t := Then(c, s, [], s, Replaying(Retry));
    steps := StatementSteps(c, t, n);
    assert AfterStatements(t, n) == AfterStatements(s, n);
    RunsConcat(c, s, again, t, steps, AfterStatements(s, n));
    steps := again + steps;
  }

  /**
   At any moment of a run at which the writer sends a batch, for the first time or once
   more, the transaction text moves the server's database, under its own names, exactly as
   the protocol's statement steps for the whole batch move the target.
   */
  lemma TransactionIsSteps(c: Config, start: State, before: seq<Step>, s: State, rw: Rewrites, cat: Catalogue,
                           there: Catalogue, es: seq<DmlEvent>)
      returns (steps: seq<Step>, t: State)
    requires OrderlyRun(c, cat, start, before, s) && s.writer.writing
    requires Injective(rw, s.tables.Keys) && SameTables(rw, s.tables.Keys, cat, there)
    requires GoodEvents(cat, es) && AllFit(es) && s.writer.batch == ChangesOf(cat, es)
    requires forall i :: 0 <= i < |es| ==> PlainSchema(AllRewritten(rw, es)[i].schema)
    ensures Runs(c, s, steps, t) && t.writer == s.writer.(next := |s.writer.batch|)
    ensures Within(s.target, s.tables.Keys) && Within(t.target, s.tables.Keys)
    ensures ExecText(there, Renamed(rw, s.tables.Keys, s.target), Text(ScriptPieces(Script(AllRewritten(rw, es)))))
         == Some(Renamed(rw, s.tables.Keys, t.target))
  {
    var tables, n := s.tables.Keys, |s.writer.batch|;
    BatchIsGood(c, start, before, s, rw, cat, there, es);
    steps := WholeBatchSteps(c, s);
    t := AfterStatements(s, n);
    assert s.writer.batch[..n] == s.writer.batch;
    RenamedCasAll(rw, tables, s.target, s.writer.batch);
    RewrittenChanges(rw, cat, there, es);
    TransactionIsCas(there, Renamed(rw, tables, s.target), AllRewritten(rw, es));
  }

  /** What the target's server needs to execute a batch. */
  lemma BatchIsGood(c: Config, start: State, before: seq<Step>, s: State, rw: Rewrites, cat: Catalogue,
                    there: Catalogue, es: seq<DmlEvent>)
    requires OrderlyRun(c, cat, start, before, s)
    requires Injective(rw, s.tables.Keys) && SameTables(rw, s.tables.Keys, cat, there)
    requires GoodEvents(cat, es) && s.writer.batch == ChangesOf(cat, es)
    ensures Within(s.target, s.tables.Keys) && AllWithin(s.writer.batch, s.tables.Keys)
    ensures GoodDatabase(there, Renamed(rw, s.tables.Keys, s.target)) && GoodEvents(there, AllRewritten(rw, es))
  {
    TargetIsGood(c, cat, start, before, s);
    RenamedGood(rw, s.tables.Keys, cat, there, s.target);
    EventTables(cat, s.tables.Keys, es);
    RewrittenGood(rw, s.tables.Keys, cat, there, es);
  }

  lemma EventTables(cat: Catalogue, tables: set<TableName>, es: seq<DmlEvent>)
    requires GoodEvents(cat, es) && AllWithin(ChangesOf(cat, es), tables)
    ensures forall i :: 0 <= i < |es| ==> es[i].schema.table in tables
  {
    forall i | 0 <= i < |es| ensures es[i].schema.table in tables {
      assert ChangesOf(cat, es)[i].key.table in tables;
    }
  }

  // ---- pages ---------------------------------------------------------------

  function KeyOf(schema: Schema, row: GoRow): Key
    requires GoodValues(schema, row)
  {
    Key(schema.table, PkOf(schema, row).n)
  }

  ghost predicate AllGood(schema: Schema, rows: seq<GoRow>) {
    forall i :: 0 <= i < |rows| ==> GoodValues(schema, rows[i])
  }

  function KeysOf(schema: Schema, rows: seq<GoRow>): set<Key>
    requires AllGood(schema, rows)
  {
    set i | 0 <= i < |rows| :: KeyOf(schema, rows[i])
  }

  /** These rows are on the held page of `schema`'s table. */
  ghost predicate OnPage(s: State, schema: Schema, rows: seq<GoRow>) {
    && schema.table in s.tables && s.tables[schema.table].Holding? && AllGood(schema, rows)
    && forall i :: 0 <= i < |rows| ==>
         && KeyOf(schema, rows[i]) in s.tables[schema.table].page
         && s.tables[schema.table].page[KeyOf(schema, rows[i])] == RowOf(rows[i])
  }

  /** They are all of it. */
  ghost predicate IsPageOf(s: State, schema: Schema, rows: seq<GoRow>) {
    OnPage(s, schema, rows) && KeysOf(schema, rows) == s.tables[schema.table].page.Keys
  }

  /** The state once these rows of the page have been inserted. */
  ghost function AfterInserts(s: State, schema: Schema, rows: seq<GoRow>): State
    requires OnPage(s, schema, rows)
  {
    var it := s.tables[schema.table];
    s.(target := InsertRows(s.target, schema, rows),
       tables := s.tables[schema.table := it.(copied := it.copied + KeysOf(schema, rows))])
  }

  lemma {:induction false} InsertSteps(c: Config, s: State, schema: Schema, rows: seq<GoRow>) returns (steps: seq<Step>)
    requires OnPage(s, schema, rows)
    ensures Runs(c, s, steps, AfterInserts(s, schema, rows))
    decreases |rows|
  {
    if rows == [] {
      steps := [];
      var it := s.tables[schema.table];
      assert KeysOf(schema, rows) == {} && it.copied + {} == it.copied;
      assert s.tables[schema.table := it] == s.tables;
    } else {
      var n := |rows| - 1;
      var before := AfterInserts(s, schema, rows[..n]);
      var init := InsertSteps(c, s, schema, rows[..n]);
      KeysNext(schema, rows);
      var t: State;
      steps, t := Then(c, s, init, before, Copy(Insert(schema.table, KeyOf(schema, rows[n]).pk)));
      OneMoreInsert(c, s, schema, rows, t);
    }
  }

  lemma KeysNext(schema: Schema, rows: seq<GoRow>)
    requires AllGood(schema, rows) && rows != []
    ensures KeysOf(schema, rows) == KeysOf(schema, rows[..|rows| - 1]) + {KeyOf(schema, rows[|rows| - 1])}
  {
  }

  lemma OneMoreInsert(c: Config, s: State, schema: Schema, rows: seq<GoRow>, t: State)
    requires OnPage(s, schema, rows) && rows != []
    requires KeysOf(schema, rows) == KeysOf(schema, rows[..|rows| - 1]) + {KeyOf(schema, rows[|rows| - 1])}
    requires var before := AfterInserts(s, schema, rows[..|rows| - 1]);
             var step := Insert(schema.table, KeyOf(schema, rows[|rows| - 1]).pk);
             CopyEnabled(c, before, step) && t == CopyApply(c, before, step)
    ensures t == AfterInserts(s, schema, rows)
  {
    var n, it := |rows| - 1, s.tables[schema.table];
    var k, keys := KeyOf(schema, rows[n]), KeysOf(schema, rows[..n]);
    assert it.copied + keys + {k} == it.copied + KeysOf(schema, rows);
    assert t.tables == s.tables[schema.table := it.(copied := it.copied + KeysOf(schema, rows))];
  }

  /**
   At any moment of a run at which a page is held, sending its prepared query moves the
   server's database, under its own names, as the protocol's insert steps for its rows, and
   the page can be released then.
   */
  lemma QueryIsSteps(c: Config, start: State, before: seq<Step>, s: State, rw: Rewrites, cat: Catalogue,
                     there: Catalogue, schema: Schema, rows: seq<GoRow>)
      returns (steps: seq<Step>, t: State)
    requires OrderlyRun(c, cat, start, before, s)
    requires Injective(rw, s.tables.Keys) && SameTables(rw, s.tables.Keys, cat, there)
    requires IsPageOf(s, schema, rows) && cat[schema.table] == schema && PlainSchema(TargetSchema(rw, schema))
    ensures Runs(c, s, steps, t) && Enabled(c, t, Copy(Release(schema.table)))
    ensures Within(s.target, s.tables.Keys) && Within(t.target, s.tables.Keys)
    ensures ExecQuery(there, Renamed(rw, s.tables.Keys, s.target),
                      Text(QueryPieces(TargetName(rw, schema.table), schema.columns, |rows|)), Flat(rows))
         == Some(Renamed(rw, s.tables.Keys, t.target))
  {
    TargetIsGood(c, cat, start, before, s);
    RunKeepsLive(c, start, before, s);
    assert HeldOk(schema.table, s.tables[schema.table]);
    RowsOfPage(s, schema, rows);
    steps := InsertSteps(c, s, schema, rows);
    t := AfterInserts(s, schema, rows);
    CanRelease(c, s, schema, rows);
    RenamedQuery(rw, s.tables.Keys, there, s.target, schema, rows);
  }

  lemma RowsOfPage(s: State, schema: Schema, rows: seq<GoRow>)
    requires IsPageOf(s, schema, rows) && s.tables[schema.table].page != map[]
    ensures rows != []
  {
  }

  lemma CanRelease(c: Config, s: State, schema: Schema, rows: seq<GoRow>)
    requires IsPageOf(s, schema, rows) && s.tables[schema.table].copied <= s.tables[schema.table].page.Keys
    ensures CopyEnabled(c, AfterInserts(s, schema, rows), Release(schema.table))
  {
    var it := s.tables[schema.table];
    assert it.copied + KeysOf(schema, rows) == it.page.Keys;
  }
}
