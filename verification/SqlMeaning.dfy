/**
 What the server does with the statements, under SQL's three-valued logic, and that for
 the statements of row events this is compare-and-swap.
 */
module SqlMeaning {
  import opened Rows
  import opened Lexer
  import opened SqlText
  import opened SqlReader
  import opened DmlEvents

  datatype Truth = True | False | Unknown

  function And3(a: Truth, b: Truth): Truth {
    if a == False || b == False then False
    else if a == Unknown || b == Unknown then Unknown
    else True
  }

  /** The `=` operator: comparing with NULL is neither true nor false. */
  function Equal3(v: Value, w: Value): Truth {
    if v == Null || w == Null then Unknown else if v == w then True else False
  }

  function Stored(l: Literal): Value {
    match l
    case NullLit => Null
    case NumberLit(n) => Number(n)
    case TextLit(s) => Bytes(s)
    case BinaryLit(s) => Bytes(s)
  }

  /** Where a column stands in its table; |columns| if it has no such column. */
  function ColumnIndex(columns: seq<string>, name: string): (i: nat)
    ensures i <= |columns|
    ensures i < |columns| ==> columns[i] == name
  {
    if columns == [] then 0 else if columns[0] == name then 0 else 1 + ColumnIndex(columns[1..], name)
  }

  function ColumnOf(columns: seq<string>, row: Row, name: string): Value {
    var i := ColumnIndex(columns, name);
    if i < |row| then row[i] else Null
  }

  function Test(columns: seq<string>, row: Row, item: Item): Truth {
    match item
    case Binding(c, l) => Equal3(ColumnOf(columns, row, c), Stored(l))
    case IsNull(c) => if ColumnOf(columns, row, c) == Null then True else False
    case _ => Unknown
  }

  /** A WHERE clause of conditions joined with AND. */
  function Where3(columns: seq<string>, row: Row, items: seq<Item>): Truth {
    if items == [] then True
    else And3(Where3(columns, row, items[..|items| - 1]), Test(columns, row, items[|items| - 1]))
  }

  /** SET assignments, applied to a row one after the other. */
  function Assign(columns: seq<string>, row: Row, items: seq<Item>): Row {
    if items == [] then row
    else
      var done := Assign(columns, row, items[..|items| - 1]);
      var item := items[|items| - 1];
      if item.Binding? && ColumnIndex(columns, item.name) < |done|
      then done[ColumnIndex(columns, item.name) := Stored(item.value)]
      else done
  }

  /** The row an INSERT builds: columns that are not listed are NULL. */
  function Build(columns: seq<string>, listed: seq<Item>, values: seq<Item>): Row
    requires |listed| == |values|
  {
    if listed == [] then seq(|columns|, _ => Null)
    else
      var n := |listed| - 1;
      var done := Build(columns, listed[..n], values[..n]);
      if listed[n].Column? && values[n].Val? && ColumnIndex(columns, listed[n].name) < |done|
      then done[ColumnIndex(columns, listed[n].name) := Stored(values[n].value)]
      else done
  }

  type Catalogue = map<TableName, Schema>

  /**
   What one statement does to the rows. A row stays under its key, so an UPDATE must not
   change the primary key; statements on unknown tables have no effect.
   */
  function Exec(cat: Catalogue, db: Database, stmt: Stmt): Database {
    match stmt
    case Begin => db
    case Commit => db
    case InsertStmt(t, listed, values) =>
      if t in cat && |listed| == |values| then
        var row := Build(cat[t].columns, listed, values);
        if cat[t].pkIndex < |row| && row[cat[t].pkIndex].Number? && row[cat[t].pkIndex].n >= 0
        then InsertIgnore(db, Key(t, row[cat[t].pkIndex].n), row)
        else db
      else db
    case UpdateStmt(t, sets, conditions) =>
      if t in cat then
        map k | k in db ::
          if k.table == t && Where3(cat[t].columns, db[k], conditions) == True
          then Assign(cat[t].columns, db[k], sets) else db[k]
      else db
    case DeleteStmt(t, conditions) =>
      if t in cat then
        map k | k in db && !(k.table == t && Where3(cat[t].columns, db[k], conditions) == True) :: db[k]
      else db
  }

  /** What others see of the server's rows, and what an open transaction has made of them. */
  datatype Session = Session(stored: Database, open: Option<Database>)

  /**
   A statement inside a transaction becomes visible with the COMMIT, one outside at once.
   BEGIN commits a transaction that is still open.
   */
  function Perform(cat: Catalogue, s: Session, stmt: Stmt): Session {
    var now := if s.open.Some? then s.open.value else s.stored;
    match stmt
    case Begin => Session(now, Some(now))
    case Commit => Session(now, None)
    case _ =>
      if s.open.Some? then s.(open := Some(Exec(cat, now, stmt))) else s.(stored := Exec(cat, now, stmt))
  }

  function PerformAll(cat: Catalogue, s: Session, stmts: seq<Stmt>): Session {
    if stmts == [] then s else Perform(cat, PerformAll(cat, s, stmts[..|stmts| - 1]), stmts[|stmts| - 1])
  }

  // ---- rows and events -----------------------------------------------------

  function RowOf(values: GoRow): Row {
    seq(|values|, i requires 0 <= i < |values| => Meant(values[i]))
  }

  predicate Distinct(columns: seq<string>) {
    forall i, j :: 0 <= i < j < |columns| ==> columns[i] != columns[j]
  }

  predicate GoodSchema(schema: Schema) {
    Distinct(schema.columns) && schema.pkIndex < |schema.columns|
  }

  /** Every row has all columns and sits under its own primary key. */
  predicate GoodRow(schema: Schema, k: Key, row: Row) {
    && k.table == schema.table && |row| == |schema.columns| && schema.pkIndex < |row|
    && row[schema.pkIndex].Number? && row[schema.pkIndex].n == k.pk
  }

  ghost predicate GoodDatabase(cat: Catalogue, db: Database) {
    && (forall t :: t in cat ==> cat[t].table == t && GoodSchema(cat[t]))
    && (forall k :: k in db && k.table in cat ==> GoodRow(cat[k.table], k, db[k]))
  }

  function PkOf(schema: Schema, values: GoRow): Value
    requires schema.pkIndex < |values|
  {
    Meant(values[schema.pkIndex])
  }

  /** Reading its literal back gives the value that was meant, kind by kind. */
  lemma LiteralMeans(v: GoValue)
    ensures Stored(LiteralOf(v)) == Meant(v)
  {
  }

  /** What the server's lexer makes of the text written for a value, kind by kind. */
  lemma ValueTokens(v: GoValue)
    ensures Lex(Text(LiteralPieces(LiteralOf(v)))) == Some(
              match v
              case Nil => [Word("NULL")]
              case NilBytes => [Word("NULL")]
              case Unsigned(n) => if n < 0 then [Sym('-'), Word(Decimal(-n))] else [Word(Decimal(n))]
              case Signed(n) => if n < 0 then [Sym('-'), Word(Decimal(-n))] else [Word(Decimal(n))]
              case Boolean(b) => [Word(if b then "1" else "0")]
              case GoString(s) => [Str(s)]
              case GoBytes(s) => [Word("_binary"), Str(s)])
  {
    LiteralSpaced(LiteralOf(v));
    LexText(LiteralPieces(LiteralOf(v)));
    LiteralTokensOf(LiteralOf(v));
  }

  /** A full-image event on a known table, with a usable key that an update does not change. */
  predicate GoodEvent(cat: Catalogue, e: DmlEvent) {
    && e.schema.table in cat && cat[e.schema.table] == e.schema && GoodSchema(e.schema) && Fits(e)
    && var pk := PkOf(e.schema, if e.DeleteEvent? then e.oldValues else e.newValues);
       pk.Number? && pk.n >= 0 && (e.UpdateEvent? ==> PkOf(e.schema, e.oldValues) == pk)
  }

  /** The row change an event describes. */
  function ChangeOf(cat: Catalogue, e: DmlEvent): Change
    requires GoodEvent(cat, e)
  {
    var pk := PkOf(e.schema, if e.DeleteEvent? then e.oldValues else e.newValues);
    Change(Key(e.schema.table, pk.n),
           if e.InsertEvent? then None else Some(RowOf(e.oldValues)),
           if e.DeleteEvent? then None else Some(RowOf(e.newValues)))
  }

  // ---- columns by name -----------------------------------------------------

  lemma {:induction false} IndexOfColumn(columns: seq<string>, i: nat)
    requires Distinct(columns) && i < |columns|
    ensures ColumnIndex(columns, columns[i]) == i
  {
    if i > 0 {
      assert columns[0] != columns[i];
      assert columns[1..][i - 1] == columns[i];
      IndexOfColumn(columns[1..], i - 1);
    }
  }

  /** A condition is TRUE exactly of the value it was made from, NULL included. */
  lemma TestExact(columns: seq<string>, row: Row, i: nat, v: GoValue)
    requires Distinct(columns) && i < |columns| && |row| == |columns|
    ensures Test(columns, row, WhereItem(columns[i], v)) == True <==> row[i] == Meant(v)
  {
    IndexOfColumn(columns, i);
    LiteralMeans(v);
  }

  lemma {:induction false} Where3Exact(columns: seq<string>, row: Row, values: GoRow, n: nat)
    requires Distinct(columns) && |row| == |columns| == |values| && n <= |values|
    ensures Where3(columns, row, WhereItems(columns, values)[..n]) == True
       <==> forall i :: 0 <= i < n ==> row[i] == Meant(values[i])
  {
    if n > 0 {
      var items := WhereItems(columns, values);
      Where3Exact(columns, row, values, n - 1);
      assert items[..n][..n - 1] == items[..n - 1];
      TestExact(columns, row, n - 1, values[n - 1]);
    }
  }

  /** The WHERE clause of an event is TRUE only of a row that equals its old image null-safely. */
  lemma WhereIsOldImage(columns: seq<string>, row: Row, values: GoRow)
    requires Distinct(columns) && |row| == |columns| == |values|
    ensures Where3(columns, row, WhereItems(columns, values)) == True <==> row == RowOf(values)
  {
    Where3Exact(columns, row, values, |values|);
    assert WhereItems(columns, values)[..|values|] == WhereItems(columns, values);
    SameRow(row, values);
  }

  lemma SameRow(row: Row, values: GoRow)
    requires |row| == |values|
    ensures row == RowOf(values) <==> forall i :: 0 <= i < |values| ==> row[i] == Meant(values[i])
  {
    if forall i :: 0 <= i < |values| ==> row[i] == Meant(values[i]) {
      assert forall i :: 0 <= i < |row| ==> row[i] == RowOf(values)[i];
    }
    if row == RowOf(values) {
      assert forall i :: 0 <= i < |values| ==> RowOf(values)[i] == Meant(values[i]);
    }
  }

  lemma {:induction false} AssignPrefix(columns: seq<string>, row: Row, values: GoRow, n: nat)
    requires Distinct(columns) && |row| == |columns| == |values| && n <= |values|
    ensures Assign(columns, row, SetItems(columns, values)[..n]) == RowOf(values)[..n] + row[n..]
  {
    if n > 0 {
      var items := SetItems(columns, values);
      AssignPrefix(columns, row, values, n - 1);
      assert items[..n][..n - 1] == items[..n - 1];
      IndexOfColumn(columns, n - 1);
      SetNext(RowOf(values), row, n - 1);
    }
  }

  lemma SetNext(a: Row, b: Row, i: nat)
    requires i < |a| == |b|
    ensures (a[..i] + b[i..])[i := a[i]] == a[..i + 1] + b[i + 1..]
  {
  }

  lemma {:induction false} BuildPrefix(columns: seq<string>, values: GoRow, n: nat)
    requires Distinct(columns) && |columns| == |values| && n <= |values|
    ensures |Build(columns, ColumnItems(columns)[..n], ValueItems(values)[..n])| == |columns|
    ensures Build(columns, ColumnItems(columns)[..n], ValueItems(values)[..n])[..n] == RowOf(values)[..n]
  {
    if n > 0 {
      BuildPrefix(columns, values, n - 1);
      assert ColumnItems(columns)[..n][..n - 1] == ColumnItems(columns)[..n - 1];
      assert ValueItems(values)[..n][..n - 1] == ValueItems(values)[..n - 1];
      IndexOfColumn(columns, n - 1);
      var done := Build(columns, ColumnItems(columns)[..n - 1], ValueItems(values)[..n - 1]);
      var next := Build(columns, ColumnItems(columns)[..n], ValueItems(values)[..n]);
      assert next == done[n - 1 := RowOf(values)[n - 1]];
      assert next[..n] == done[..n - 1] + [RowOf(values)[n - 1]];
    }
  }

  lemma BuildWhole(columns: seq<string>, values: GoRow)
    requires Distinct(columns) && |columns| == |values|
    ensures Build(columns, ColumnItems(columns), ValueItems(values)) == RowOf(values)
  {
    BuildPrefix(columns, values, |values|);
    assert ColumnItems(columns)[..|values|] == ColumnItems(columns);
    assert ValueItems(values)[..|values|] == ValueItems(values);
    var row := Build(columns, ColumnItems(columns), ValueItems(values));
    assert row == row[..|values|] && RowOf(values)[..|values|] == RowOf(values);
  }

  // ---- statements are compare-and-swap ------------------------------------

  lemma InsertIsCas(cat: Catalogue, db: Database, e: DmlEvent)
    requires GoodEvent(cat, e) && e.InsertEvent?
    ensures Exec(cat, db, StmtOf(e, e.schema.table)) == Cas(db, ChangeOf(cat, e))
  {
    BuildWhole(e.schema.columns, e.newValues);
  }

  /** In a good database only the row under the event's own key can equal its old image. */
  lemma OldImageIsUnique(cat: Catalogue, db: Database, e: DmlEvent, k: Key)
    requires GoodDatabase(cat, db) && GoodEvent(cat, e) && !e.InsertEvent?
    requires k in db && k.table == e.schema.table
    ensures Where3(e.schema.columns, db[k], WhereItems(e.schema.columns, e.oldValues)) == True
       <==> k == ChangeOf(cat, e).key && Some(db[k]) == ChangeOf(cat, e).before
  {
    assert GoodRow(cat[k.table], k, db[k]);
    WhereIsOldImage(e.schema.columns, db[k], e.oldValues);
  }

  lemma UpdateIsCas(cat: Catalogue, db: Database, e: DmlEvent)
    requires GoodDatabase(cat, db) && GoodEvent(cat, e) && e.UpdateEvent?
    ensures Exec(cat, db, StmtOf(e, e.schema.table)) == Cas(db, ChangeOf(cat, e))
  {
    var columns, values := e.schema.columns, e.newValues;
    var done, cas := Exec(cat, db, StmtOf(e, e.schema.table)), Cas(db, ChangeOf(cat, e));
    assert done.Keys == cas.Keys;
    forall k | k in db ensures done[k] == cas[k] {
      if k.table == e.schema.table {
        OldImageIsUnique(cat, db, e, k);
        assert GoodRow(cat[k.table], k, db[k]);
        AssignWhole(columns, db[k], values);
      }
    }
  }

  lemma AssignWhole(columns: seq<string>, row: Row, values: GoRow)
    requires Distinct(columns) && |row| == |columns| == |values|
    ensures Assign(columns, row, SetItems(columns, values)) == RowOf(values)
  {
    AssignPrefix(columns, row, values, |values|);
    assert SetItems(columns, values)[..|values|] == SetItems(columns, values);
    assert RowOf(values)[..|values|] + row[|values|..] == RowOf(values);
  }

  lemma DeleteIsCas(cat: Catalogue, db: Database, e: DmlEvent)
    requires GoodDatabase(cat, db) && GoodEvent(cat, e) && e.DeleteEvent?
    ensures Exec(cat, db, StmtOf(e, e.schema.table)) == Cas(db, ChangeOf(cat, e))
  {
    var done, cas := Exec(cat, db, StmtOf(e, e.schema.table)), Cas(db, ChangeOf(cat, e));
    forall k | k in db ensures k in done <==> k in cas {
      if k.table == e.schema.table {
        OldImageIsUnique(cat, db, e, k);
      }
    }
    assert done.Keys == cas.Keys;
  }

  /** Executing the statement of any event is compare-and-swap of the change it describes. */
  lemma StatementIsCas(cat: Catalogue, db: Database, e: DmlEvent)
    requires GoodDatabase(cat, db) && GoodEvent(cat, e)
    ensures Exec(cat, db, StmtOf(e, e.schema.table)) == Cas(db, ChangeOf(cat, e))
    ensures GoodDatabase(cat, Cas(db, ChangeOf(cat, e)))
  {
    match e
    case InsertEvent(_, _) => InsertIsCas(cat, db, e);
    case UpdateEvent(_, _, _) => UpdateIsCas(cat, db, e);
    case DeleteEvent(_, _) => DeleteIsCas(cat, db, e);
  }

  // ---- a whole transaction -------------------------------------------------

  predicate GoodEvents(cat: Catalogue, es: seq<DmlEvent>) {
    forall i :: 0 <= i < |es| ==> GoodEvent(cat, es[i])
  }

  function ChangesOf(cat: Catalogue, es: seq<DmlEvent>): seq<Change>
    requires GoodEvents(cat, es)
  {
    seq(|es|, i requires 0 <= i < |es| => ChangeOf(cat, es[i]))
  }

  lemma {:induction false} StatementsAreCas(cat: Catalogue, db: Database, es: seq<DmlEvent>)
    requires GoodDatabase(cat, db) && GoodEvents(cat, es) && AllFit(es)
    ensures PerformAll(cat, Session(db, None), [Begin] + StmtsOf(es))
         == Session(db, Some(CasAll(db, ChangesOf(cat, es))))
    ensures GoodDatabase(cat, CasAll(db, ChangesOf(cat, es)))
  {
    if es == [] {
      assert [Begin] + StmtsOf(es) == [Begin] && [Begin][..0] == [];
    } else {
      var n := |es| - 1;
      var done := CasAll(db, ChangesOf(cat, es[..n]));
      StatementsAreCas(cat, db, es[..n]);
      StatementIsCas(cat, done, es[n]);
      PerformNext(cat, Session(db, None), [Begin] + StmtsOf(es[..n]), StmtOf(es[n], es[n].schema.table));
      StmtsNext(es);
      CasNext(cat, db, es);
    }
  }

  lemma StmtsNext(es: seq<DmlEvent>)
    requires AllFit(es) && es != []
    ensures var n := |es| - 1;
            AllFit(es[..n]) && [Begin] + StmtsOf(es) == [Begin] + StmtsOf(es[..n]) + [StmtOf(es[n], es[n].schema.table)]
  {
  }

  lemma CasNext(cat: Catalogue, db: Database, es: seq<DmlEvent>)
    requires GoodEvents(cat, es) && es != []
    ensures var n := |es| - 1;
            && GoodEvents(cat, es[..n])
            && CasAll(db, ChangesOf(cat, es)) == Cas(CasAll(db, ChangesOf(cat, es[..n])), ChangeOf(cat, es[n]))
  {
    assert ChangesOf(cat, es)[..|es| - 1] == ChangesOf(cat, es[..|es| - 1]);
  }

  lemma PerformNext(cat: Catalogue, s: Session, stmts: seq<Stmt>, next: Stmt)
    ensures PerformAll(cat, s, stmts + [next]) == Perform(cat, PerformAll(cat, s, stmts), next)
  {
    assert (stmts + [next])[..|stmts|] == stmts;
  }

  /**
   All or nothing: wherever the server stops before the end of the script, nothing of it is
   to be seen.
   */
  lemma NothingBeforeCommit(cat: Catalogue, db: Database, es: seq<DmlEvent>, n: nat)
    requires GoodDatabase(cat, db) && GoodEvents(cat, es) && AllFit(es) && n < |Script(es)|
    ensures PerformAll(cat, Session(db, None), Script(es)[..n]).stored == db
  {
    if n == 0 {
      assert Script(es)[..n] == [];
    } else {
      var some := es[..n - 1];
      assert Script(es)[..n] == [Begin] + StmtsOf(some);
      StatementsAreCas(cat, db, some);
    }
  }

  /** The server reads the text and executes the statements it finds. What is not committed is lost. */
  function ExecText(cat: Catalogue, db: Database, text: string): Option<Database> {
    match ReadText(text)
    case None => None
    case Some(stmts) => Some(PerformAll(cat, Session(db, None), stmts).stored)
  }

  predicate PlainSchema(schema: Schema) {
    PlainTable(schema.table) && forall i :: 0 <= i < |schema.columns| ==> PlainName(schema.columns[i])
  }

  lemma PlainScriptOf(cat: Catalogue, es: seq<DmlEvent>)
    requires GoodEvents(cat, es) && AllFit(es) && forall i :: 0 <= i < |es| ==> PlainSchema(es[i].schema)
    ensures PlainScript(Script(es))
  {
    forall i | 0 <= i < |es| ensures PlainStmt(StmtsOf(es)[i]) {
    }
  }

  /**
   From the text to the effect: the server that reads the transaction text of a batch of
   events and executes it does exactly what the protocol's replay of the batch does.
   */
  lemma TransactionIsCas(cat: Catalogue, db: Database, es: seq<DmlEvent>)
    requires GoodDatabase(cat, db) && GoodEvents(cat, es) && AllFit(es)
    requires forall i :: 0 <= i < |es| ==> PlainSchema(es[i].schema)
    ensures ExecText(cat, db, Text(ScriptPieces(Script(es)))) == Some(CasAll(db, ChangesOf(cat, es)))
  {
    var stmts := Script(es);
    PlainScriptOf(cat, es);
    ScriptRoundTrip(stmts);
    StatementsAreCas(cat, db, es);
    assert stmts[..|stmts| - 1] == [Begin] + StmtsOf(es);
  }
}
