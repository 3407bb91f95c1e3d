/**
 Row events and the SQL text they are turned into, as the program builds it: by
 appending to a buffer, column by column.
 */
module DmlEvents {
  import opened Rows
  import opened Lexer
  import opened SqlText

  /** A column value as the binlog decoder or the driver hands it over. */
  datatype GoValue =
    | Nil
    | NilBytes                // a []byte that is nil
    | Unsigned(u: Integer)
    | Signed(i: Integer)
    | Boolean(b: bool)
    | GoString(s: string)     // also decimals, which are written as their string
    | GoBytes(bytes: string)

  type GoRow = seq<GoValue>

  datatype Schema = Schema(table: TableName, columns: seq<string>, pkIndex: nat)

  datatype DmlEvent =
    | InsertEvent(schema: Schema, newValues: GoRow)
    | UpdateEvent(schema: Schema, oldValues: GoRow, newValues: GoRow)
    | DeleteEvent(schema: Schema, oldValues: GoRow)

  datatype Result<+T> = Ok(value: T) | Err

  predicate IsNilValue(v: GoValue) {
    v.Nil? || v.NilBytes?
  }

  /** The stored value that a driver's value stands for. */
  function Meant(v: GoValue): Value {
    match v
    case Nil => Null
    case NilBytes => Null
    case Unsigned(u) => Number(u)
    case Signed(i) => Number(i)
    case Boolean(b) => Number(if b then 1 else 0)
    case GoString(s) => Bytes(s)
    case GoBytes(s) => Bytes(s)
  }

  /** The literal it is written as. */
  function LiteralOf(v: GoValue): Literal {
    match v
    case Nil => NullLit
    case NilBytes => NullLit
    case Unsigned(u) => NumberLit(u)
    case Signed(i) => NumberLit(i)
    case Boolean(b) => NumberLit(if b then 1 else 0)
    case GoString(s) => TextLit(s)
    case GoBytes(s) => BinaryLit(s)
  }

  // ---- the statement an event stands for ----------------------------------

  function ColumnItems(columns: seq<string>): seq<Item> {
    seq(|columns|, i requires 0 <= i < |columns| => Column(columns[i]))
  }

  function ValueItems(values: GoRow): seq<Item> {
    seq(|values|, i requires 0 <= i < |values| => Val(LiteralOf(values[i])))
  }

  function SetItems(columns: seq<string>, values: GoRow): seq<Item>
    requires |columns| == |values|
  {
    seq(|values|, i requires 0 <= i < |values| => Binding(columns[i], LiteralOf(values[i])))
  }

  /** In a WHERE clause NULL is asked for with IS NULL, since `c`=NULL is never TRUE. */
  function WhereItem(column: string, v: GoValue): Item {
    if IsNilValue(v) then IsNull(column) else Binding(column, LiteralOf(v))
  }

  function WhereItems(columns: seq<string>, values: GoRow): seq<Item>
    requires |columns| == |values|
  {
    seq(|values|, i requires 0 <= i < |values| => WhereItem(columns[i], values[i]))
  }

  /** All images have as many values as the table has columns. */
  predicate Fits(e: DmlEvent) {
    var n := |e.schema.columns|;
    match e
    case InsertEvent(_, now) => |now| == n
    case UpdateEvent(_, was, now) => |was| == n && |now| == n
    case DeleteEvent(_, was) => |was| == n
  }

  function StmtOf(e: DmlEvent, target: TableName): Stmt
    requires Fits(e)
  {
    var columns := e.schema.columns;
    match e
    case InsertEvent(_, now) => InsertStmt(target, ColumnItems(columns), ValueItems(now))
    case UpdateEvent(_, was, now) => UpdateStmt(target, SetItems(columns, now), WhereItems(columns, was))
    case DeleteEvent(_, was) => DeleteStmt(target, WhereItems(columns, was))
  }

  // ---- building the text ---------------------------------------------------

  lemma {:induction false} DoubledAppend(q: char, a: string, b: string)
    ensures Doubled(q, a + b) == Doubled(q, a) + Doubled(q, b)
  {
    if a == "" {
      assert a + b == b;
    } else {
      assert (a + b)[1..] == a[1..] + b;
      DoubledAppend(q, a[1..], b);
    }
  }

  lemma PieceTexts(a: Piece, b: Piece)
    ensures Text([a]) == Spell(a) && Text([a, b]) == Spell(a) + Spell(b)
  {
    assert [a][1..] == [] && [a, b][1..] == [b] && [b][1..] == [];
    assert Text([b]) == Spell(b);
  }

  /** The loop shared by strings and binary strings. */
  method AppendDoubled(buffer: string, value: string) returns (r: string)
    ensures r == buffer + Doubled('\'', value)
  {
    r := buffer;
    for i := 0 to |value|
      invariant r == buffer + Doubled('\'', value[..i])
    {
      var c := value[i];
      assert value[..i + 1] == value[..i] + [c];
      DoubledAppend('\'', value[..i], [c]);
      if c == '\'' {
        r := r + ['\'', '\''];
      } else {
        r := r + [c];
      }
    }
    assert value[..|value|] == value;
  }

  method AppendEscapedString(buffer: string, value: string) returns (r: string)
    ensures r == buffer + Text(LiteralPieces(TextLit(value)))
  {
    r := buffer + ['\''];
    r := AppendDoubled(r, value);
    r := r + ['\''];
    PieceTexts(Tok(Str(value)), Blank(' '));
  }

  method AppendEscapedBuffer(buffer: string, value: string) returns (r: string)
    ensures r == buffer + Text(LiteralPieces(BinaryLit(value)))
  {
    r := buffer + "_binary'";
    r := AppendDoubled(r, value);
    r := r + ['\''];
    PieceTexts(Keyword("_binary"), Tok(Str(value)));
  }

  /** The text of a number. */
  function SignedDecimal(n: Integer): string {
    if n < 0 then "-" + Decimal(-n) else Decimal(n)
  }

  lemma NumberText(n: Integer)
    ensures Text(LiteralPieces(NumberLit(n))) == SignedDecimal(n)
  {
    PieceTexts(Sign('-'), Keyword(Decimal(if n < 0 then -n else n)));
    PieceTexts(Keyword(Decimal(if n < 0 then -n else n)), Blank(' '));
  }

  /** The text of a value, kind by kind, and that it is the spelling of the value's literal. */
  method AppendEscapedValue(buffer: string, value: GoValue) returns (r: string)
    ensures r == buffer + Text(LiteralPieces(LiteralOf(value)))
    ensures value.Nil? || value.NilBytes? ==> r == buffer + "NULL"
    ensures value.Unsigned? ==> r == buffer + SignedDecimal(value.u)
    ensures value.Signed? ==> r == buffer + SignedDecimal(value.i)
    ensures value.Boolean? ==> r == buffer + if value.b then "1" else "0"
    ensures value.GoString? ==> r == buffer + ("'" + Doubled('\'', value.s) + "'")
    ensures value.GoBytes? ==> r == buffer + ("_binary" + "'" + Doubled('\'', value.bytes) + "'")
  {
    PieceTexts(Keyword("NULL"), Blank(' '));
    ValueTexts(value);
    match value
    case Nil => r := buffer + "NULL";
    case NilBytes => r := buffer + "NULL";
    case Unsigned(u) => r := AppendNumber(buffer, u);
    case Signed(i) => r := AppendNumber(buffer, i);
    case GoString(s) => r := AppendEscapedString(buffer, s);
    case GoBytes(s) => r := AppendEscapedBuffer(buffer, s);
    case Boolean(b) => r := AppendNumber(buffer, if b then 1 else 0);
  }

  lemma ValueTexts(value: GoValue)
    ensures value.Unsigned? ==> Text(LiteralPieces(LiteralOf(value))) == SignedDecimal(value.u)
    ensures value.Signed? ==> Text(LiteralPieces(LiteralOf(value))) == SignedDecimal(value.i)
    ensures value.Boolean? ==> Text(LiteralPieces(LiteralOf(value))) == if value.b then "1" else "0"
    ensures value.GoString? ==> Text(LiteralPieces(LiteralOf(value))) == "'" + Doubled('\'', value.s) + "'"
    ensures value.GoBytes? ==>
              Text(LiteralPieces(LiteralOf(value))) == "_binary" + "'" + Doubled('\'', value.bytes) + "'"
  {
    match value
    case Unsigned(u) => NumberText(u);
    case Signed(i) => NumberText(i);
    case Boolean(b) => BooleanText(b);
    case GoString(s) => StringText(s);
    case GoBytes(s) => BinaryText(s);
    case _ =>
  }

  lemma BooleanText(b: bool)
    ensures Text(LiteralPieces(LiteralOf(Boolean(b)))) == if b then "1" else "0"
  {
    NumberText(if b then 1 else 0);
  }

  lemma StringText(s: string)
    ensures Text(LiteralPieces(LiteralOf(GoString(s)))) == "'" + Doubled('\'', s) + "'"
  {
    PieceTexts(Tok(Str(s)), Blank(' '));
  }

  lemma BinaryText(s: string)
    ensures Text(LiteralPieces(LiteralOf(GoBytes(s)))) == "_binary" + "'" + Doubled('\'', s) + "'"
  {
    PieceTexts(Keyword("_binary"), Tok(Str(s)));
    Reassociate("_binary", "'", Doubled('\'', s), "'");
  }

  method AppendNumber(buffer: string, n: Integer) returns (r: string)
    ensures r == buffer + Text(LiteralPieces(NumberLit(n)))
  {
    if n < 0 {
      r := buffer + (['-'] + Decimal(-n));
      PieceTexts(Sign('-'), Keyword(Decimal(-n)));
    } else {
      r := buffer + Decimal(n);
      PieceTexts(Keyword(Decimal(n)), Blank(' '));
    }
  }

  /** One more item at the end of a list. */
  lemma ItemsText(sep: Separator, items: seq<Item>, i: nat)
    requires i < |items|
    ensures Text(ItemsPieces(sep, items[..i + 1]))
         == Text(ItemsPieces(sep, items[..i]))
            + (if i > 0 then Text(SeparatorPieces(sep)) else "") + Text(ItemPieces(items[i]))
  {
    var more := items[..i + 1];
    if i == 0 {
      assert more == [items[0]];
    } else {
      assert more[..i] == items[..i];
      var a, b, c := ItemsPieces(sep, items[..i]), SeparatorPieces(sep), ItemPieces(items[i]);
      TextConcat(a, b);
      TextConcat(a + b, c);
    }
  }

  lemma SeparatorText()
    ensures Text(SeparatorPieces(Comma)) == "," && Text(SeparatorPieces(And)) == " AND "
  {
    var ps := SeparatorPieces(And);
    assert ps[1..][1..] == [Blank(' ')] && ps[1..][1..][1..] == [];
    assert SeparatorPieces(Comma)[1..] == [];
  }

  lemma BindingText(column: string, l: Literal)
    ensures Text(ItemPieces(Binding(column, l))) == "`" + column + "`" + "=" + Text(LiteralPieces(l))
  {
    var ps := ItemPieces(Binding(column, l));
    assert ps[1..][1..] == LiteralPieces(l);
    assert Text(ps[1..]) == "=" + Text(ps[1..][1..]);
  }

  lemma IsNullText(column: string)
    ensures Text(ItemPieces(IsNull(column))) == "`" + column + "`" + " IS NULL"
  {
    var ps := ItemPieces(IsNull(column));
    assert ps[4..][1..] == [] && ps[3..][1..] == ps[4..] && ps[2..][1..] == ps[3..] && ps[1..][1..] == ps[2..];
    assert Text(ps[4..]) == "NULL";
    assert Text(ps[3..]) == " NULL";
    assert Text(ps[2..]) == "IS" + " NULL";
    assert Text(ps[1..]) == " IS NULL";
  }

  function QuoteField(field: string): string {
    "`" + field + "`"
  }

  predicate Quoted(quoted: seq<string>, columns: seq<string>) {
    |quoted| == |columns| && forall i :: 0 <= i < |columns| ==> quoted[i] == QuoteField(columns[i])
  }

  method BuildStringListForValues(values: GoRow) returns (r: string)
    ensures r == Text(ItemsPieces(Comma, ValueItems(values)))
  {
    r := "";
    var items := ValueItems(values);
    SeparatorText();
    for i := 0 to |values|
      invariant r == Text(ItemsPieces(Comma, items[..i]))
    {
      if i > 0 {
        r := r + [','];
      }
      ItemsText(Comma, items, i);
      r := AppendEscapedValue(r, values[i]);
    }
    assert items[..|values|] == items;
  }

  method AppendCondition(buffer: string, quoted: string, value: GoValue, ghost column: string) returns (r: string)
    requires quoted == QuoteField(column)
    ensures r == buffer + Text(ItemPieces(WhereItem(column, value)))
  {
    r := buffer + quoted;
    if IsNilValue(value) {
      r := r + " IS NULL";
      IsNullText(column);
    } else {
      r := r + ['='];
      r := AppendEscapedValue(r, value);
      BindingText(column, LiteralOf(value));
      Reassociate(buffer, quoted, "=", Text(LiteralPieces(LiteralOf(value))));
    }
  }

  method BuildStringMapForWhere(quoted: seq<string>, values: GoRow, ghost columns: seq<string>) returns (r: string)
    requires Quoted(quoted, columns) && |columns| == |values|
    ensures r == Text(ItemsPieces(And, WhereItems(columns, values)))
  {
    r := "";
    ghost var items := WhereItems(columns, values);
    SeparatorText();
    for i := 0 to |values|
      invariant r == Text(ItemsPieces(And, items[..i]))
    {
      if i > 0 {
        r := r + " AND ";
      }
      r := AppendCondition(r, quoted[i], values[i], columns[i]);
      ItemsText(And, items, i);
    }
    assert items[..|values|] == items;
  }

  method BuildStringMapForSet(quoted: seq<string>, values: GoRow, ghost columns: seq<string>) returns (r: string)
    requires Quoted(quoted, columns) && |columns| == |values|
    ensures r == Text(ItemsPieces(Comma, SetItems(columns, values)))
  {
    r := "";
    ghost var items := SetItems(columns, values);
    SeparatorText();
    for i := 0 to |values|
      invariant r == Text(ItemsPieces(Comma, items[..i]))
    {
      ghost var done, sep := r, if i > 0 then "," else "";
      if i > 0 {
        r := r + [','];
      }
      assert r == done + sep;
      r := r + quoted[i];
      r := r + ['='];
      r := AppendEscapedValue(r, values[i]);
      ItemsText(Comma, items, i);
      BindingText(columns[i], LiteralOf(values[i]));
      Reassociate(done + sep, quoted[i], "=", Text(LiteralPieces(LiteralOf(values[i]))));
    }
    assert items[..|values|] == items;
  }

  // ---- whole statements ----------------------------------------------------

  method QuotedColumnNames(columns: seq<string>) returns (quoted: seq<string>)
    ensures Quoted(quoted, columns)
  {
    quoted := [];
    for i := 0 to |columns|
      invariant |quoted| == i && forall j :: 0 <= j < i ==> quoted[j] == QuoteField(columns[j])
    {
      quoted := quoted + [QuoteField(columns[i])];
    }
  }

  method JoinComma(quoted: seq<string>, ghost columns: seq<string>) returns (r: string)
    requires Quoted(quoted, columns)
    ensures r == Text(ItemsPieces(Comma, ColumnItems(columns)))
  {
    r := "";
    ghost var items := ColumnItems(columns);
    SeparatorText();
    for i := 0 to |quoted|
      invariant r == Text(ItemsPieces(Comma, items[..i]))
    {
      if i > 0 {
        r := r + [','];
      }
      r := r + quoted[i];
      ItemsText(Comma, items, i);
      PieceTexts(Name(columns[i]), Blank(' '));
    }
    assert items[..|quoted|] == items;
  }

  function QuotedTableName(t: TableName): string {
    QuoteField(t.schema) + "." + QuoteField(t.name)
  }

  lemma InsertKeywords()
    ensures Text([Keyword("INSERT"), Blank(' '), Keyword("IGNORE"), Blank(' '), Keyword("INTO"), Blank(' ')])
         == "INSERT IGNORE INTO "
  {
    var a, b, c := [Keyword("INSERT"), Blank(' ')], [Keyword("IGNORE"), Blank(' ')], [Keyword("INTO"), Blank(' ')];
    PieceTexts(a[0], a[1]);
    PieceTexts(b[0], b[1]);
    PieceTexts(c[0], c[1]);
    TextConcat(a, b);
    TextConcat(a + b, c);
    assert a + b + c == [Keyword("INSERT"), Blank(' '), Keyword("IGNORE"), Blank(' '), Keyword("INTO"), Blank(' ')];
  }

  lemma ThreeTexts(p: Piece, q: Piece, r: Piece)
    ensures Text([p, q, r]) == Spell(p) + Spell(q) + Spell(r)
  {
    PieceTexts(q, r);
    assert [p, q, r][1..] == [q, r];
  }

  lemma InsertHeadText(t: TableName)
    ensures Text(InsertHead(t)) == "INSERT IGNORE INTO " + QuotedTableName(t) + " ("
  {
    var a := [Keyword("INSERT"), Blank(' '), Keyword("IGNORE"), Blank(' '), Keyword("INTO"), Blank(' ')];
    var b := [Name(t.schema), Sign('.'), Name(t.name)];
    InsertKeywords();
    TableText(t);
    PieceTexts(Blank(' '), Sign('('));
    assert InsertHead(t) == a + b + [Blank(' '), Sign('(')];
    TextConcat(a, b);
    TextConcat(a + b, [Blank(' '), Sign('(')]);
  }

  lemma UpdateHeadText(t: TableName)
    ensures Text(UpdateHead(t)) == "UPDATE " + QuotedTableName(t) + " SET "
  {
    var a := [Keyword("UPDATE"), Blank(' ')];
    var b := [Name(t.schema), Sign('.'), Name(t.name)];
    var c := [Blank(' '), Keyword("SET"), Blank(' ')];
    PieceTexts(Keyword("UPDATE"), Blank(' '));
    ThreeTexts(c[0], c[1], c[2]);
    TableText(t);
    assert UpdateHead(t) == a + b + c;
    TextConcat(a, b);
    TextConcat(a + b, c);
  }

  lemma DeleteHeadText(t: TableName)
    ensures Text(DeleteHead(t)) == "DELETE FROM " + QuotedTableName(t)
  {
    var a, b := [Keyword("DELETE"), Blank(' ')], [Keyword("FROM"), Blank(' ')];
    var c := [Name(t.schema), Sign('.'), Name(t.name)];
    PieceTexts(a[0], a[1]);
    PieceTexts(b[0], b[1]);
    TableText(t);
    assert DeleteHead(t) == a + b + c;
    TextConcat(a, b);
    TextConcat(a + b, c);
  }

  lemma WhereText()
    ensures Text(Where()) == " WHERE "
  {
    ThreeTexts(Blank(' '), Keyword("WHERE"), Blank(' '));
  }

  lemma InsertMiddleText()
    ensures Text(InsertMiddle()) == ") VALUES ("
  {
    var a, b := [Sign(')'), Blank(' '), Keyword("VALUES")], [Blank(' '), Sign('(')];
    ThreeTexts(a[0], a[1], a[2]);
    PieceTexts(b[0], b[1]);
    TextConcat(a, b);
    assert a + b == InsertMiddle();
  }

  lemma MiddleTexts()
    ensures Text(InsertMiddle()) == ") VALUES (" && Text(Where()) == " WHERE "
    ensures Text([Sign(')')]) == ")" && Text([Sign(';'), Blank('\n')]) == ";\n"
    ensures Text([Keyword("BEGIN")]) == "BEGIN" && Text([Keyword("COMMIT")]) == "COMMIT"
  {
    WhereText();
    InsertMiddleText();
    PieceTexts(Sign(')'), Blank(' '));
    PieceTexts(Sign(';'), Blank('\n'));
    PieceTexts(Keyword("BEGIN"), Blank(' '));
    PieceTexts(Keyword("COMMIT"), Blank(' '));
  }

  lemma TableText(t: TableName)
    ensures Text([Name(t.schema), Sign('.'), Name(t.name)]) == QuotedTableName(t)
  {
    var ps := [Name(t.schema), Sign('.'), Name(t.name)];
    assert ps[1..] == [Sign('.'), Name(t.name)];
    PieceTexts(Sign('.'), Name(t.name));
  }

  lemma StmtText(stmt: Stmt)
    ensures Text(StmtPieces(stmt)) ==
      match stmt
      case Begin => "BEGIN"
      case Commit => "COMMIT"
      case InsertStmt(t, columns, values) =>
        "INSERT IGNORE INTO " + QuotedTableName(t) + " (" + Text(ItemsPieces(Comma, columns)) + ") VALUES ("
        + Text(ItemsPieces(Comma, values)) + ")"
      case UpdateStmt(t, sets, conditions) =>
        "UPDATE " + QuotedTableName(t) + " SET " + Text(ItemsPieces(Comma, sets)) + " WHERE "
        + Text(ItemsPieces(And, conditions))
      case DeleteStmt(t, conditions) =>
        "DELETE FROM " + QuotedTableName(t) + " WHERE " + Text(ItemsPieces(And, conditions))
  {
    MiddleTexts();
    match stmt
    case Begin =>
    case Commit =>
    case InsertStmt(t, columns, values) =>
      InsertHeadText(t);
      var a, b, c, d := InsertHead(t), ItemsPieces(Comma, columns), InsertMiddle(), ItemsPieces(Comma, values);
      TextConcat(a, b);
      TextConcat(a + b, c);
      TextConcat(a + b + c, d);
      TextConcat(a + b + c + d, [Sign(')')]);
    case UpdateStmt(t, sets, conditions) =>
      UpdateHeadText(t);
      var a, b, c, d := UpdateHead(t), ItemsPieces(Comma, sets), Where(), ItemsPieces(And, conditions);
      TextConcat(a, b);
      TextConcat(a + b, c);
      TextConcat(a + b + c, d);
    case DeleteStmt(t, conditions) =>
      DeleteHeadText(t);
      TextConcat(DeleteHead(t), Where());
      TextConcat(DeleteHead(t) + Where(), ItemsPieces(And, conditions));
  }

  method InsertString(schema: Schema, values: GoRow, target: TableName) returns (r: string)
    ensures r == Text(StmtPieces(InsertStmt(target, ColumnItems(schema.columns), ValueItems(values))))
  {
    var columns := QuotedColumnNames(schema.columns);
    var names := JoinComma(columns, schema.columns);
    var list := BuildStringListForValues(values);
    r := "INSERT IGNORE INTO " + QuotedTableName(target) + " (" + names + ") VALUES (" + list + ")";
    StmtText(InsertStmt(target, ColumnItems(schema.columns), ValueItems(values)));
  }

  method UpdateString(schema: Schema, was: GoRow, now: GoRow, target: TableName) returns (r: string)
    requires |was| == |schema.columns| && |now| == |schema.columns|
    ensures r == Text(StmtPieces(UpdateStmt(target, SetItems(schema.columns, now), WhereItems(schema.columns, was))))
  {
    var columns := QuotedColumnNames(schema.columns);
    var sets := BuildStringMapForSet(columns, now, schema.columns);
    var conditions := BuildStringMapForWhere(columns, was, schema.columns);
    r := "UPDATE " + QuotedTableName(target) + " SET " + sets + " WHERE " + conditions;
    StmtText(UpdateStmt(target, SetItems(schema.columns, now), WhereItems(schema.columns, was)));
  }

  method DeleteString(schema: Schema, was: GoRow, target: TableName) returns (r: string)
    requires |was| == |schema.columns|
    ensures r == Text(StmtPieces(DeleteStmt(target, WhereItems(schema.columns, was))))
  {
    var columns := QuotedColumnNames(schema.columns);
    var conditions := BuildStringMapForWhere(columns, was, schema.columns);
    r := "DELETE FROM " + QuotedTableName(target) + " WHERE " + conditions;
    StmtText(DeleteStmt(target, WhereItems(schema.columns, was)));
  }

  /** The text of one event's statement; an image of the wrong length is an error. */
  method AsSQLString(e: DmlEvent, target: TableName) returns (r: Result<string>)
    ensures r.Ok? <==> Fits(e)
    ensures r.Err? <==>
              || (!e.InsertEvent? && |e.oldValues| != |e.schema.columns|)
              || (!e.DeleteEvent? && |e.newValues| != |e.schema.columns|)
    ensures r.Ok? ==> r.value == Text(StmtPieces(StmtOf(e, target)))
  {
    if !Fits(e) {
      return Err;
    }
    var text: string;
    match e {
      case InsertEvent(schema, now) => text := InsertString(schema, now, target);
      case UpdateEvent(schema, was, now) => text := UpdateString(schema, was, now, target);
      case DeleteEvent(schema, was) => text := DeleteString(schema, was, target);
    }
    r := Ok(text);
  }

  // ---- the transaction -----------------------------------------------------

  predicate AllFit(es: seq<DmlEvent>) {
    forall i :: 0 <= i < |es| ==> Fits(es[i])
  }

  function StmtsOf(es: seq<DmlEvent>): seq<Stmt>
    requires AllFit(es)
  {
    seq(|es|, i requires 0 <= i < |es| => StmtOf(es[i], es[i].schema.table))
  }

  /** One transaction: BEGIN, a statement per event in order, COMMIT. */
  function Script(es: seq<DmlEvent>): seq<Stmt>
    requires AllFit(es)
  {
    [Begin] + StmtsOf(es) + [Commit]
  }

  lemma ScriptText(stmts: seq<Stmt>, next: Stmt)
    requires stmts != []
    ensures Text(ScriptPieces(stmts + [next])) == Text(ScriptPieces(stmts)) + ";\n" + Text(StmtPieces(next))
  {
    var all := stmts + [next];
    assert all[..|stmts|] == stmts;
    MiddleTexts();
    TextConcat(ScriptPieces(stmts), [Sign(';'), Blank('\n')]);
    TextConcat(ScriptPieces(stmts) + [Sign(';'), Blank('\n')], StmtPieces(next));
  }

  lemma StmtsGrow(events: seq<DmlEvent>, i: nat)
    requires i < |events| && AllFit(events[..i]) && Fits(events[i])
    ensures AllFit(events[..i + 1])
    ensures [Begin] + StmtsOf(events[..i]) + [StmtOf(events[i], events[i].schema.table)]
         == [Begin] + StmtsOf(events[..i + 1])
  {
    assert events[..i + 1] == events[..i] + [events[i]];
  }

  /** Databases and tables may have other names on the target. */
  datatype Rewrites = Rewrites(databases: map<string, string>, tables: map<string, string>)

  function TargetName(rw: Rewrites, t: TableName): (r: TableName)
    ensures t.schema in rw.databases ==> r.schema == rw.databases[t.schema]
    ensures t.name in rw.tables ==> r.name == rw.tables[t.name]
    ensures t.schema !in rw.databases ==> r.schema == t.schema
    ensures t.name !in rw.tables ==> r.name == t.name
  {
    TableName(if t.schema in rw.databases then rw.databases[t.schema] else t.schema,
              if t.name in rw.tables then rw.tables[t.name] else t.name)
  }

  /** The event as if it had happened on the target. */
  function Rewritten(rw: Rewrites, e: DmlEvent): (r: DmlEvent)
    ensures Fits(r) <==> Fits(e)
    ensures Fits(e) ==> StmtOf(r, r.schema.table) == StmtOf(e, TargetName(rw, e.schema.table))
  {
    var schema := e.schema.(table := TargetName(rw, e.schema.table));
    match e
    case InsertEvent(_, now) => InsertEvent(schema, now)
    case UpdateEvent(_, was, now) => UpdateEvent(schema, was, now)
    case DeleteEvent(_, was) => DeleteEvent(schema, was)
  }

  function AllRewritten(rw: Rewrites, es: seq<DmlEvent>): (r: seq<DmlEvent>)
    ensures |r| == |es| && (AllFit(r) <==> AllFit(es))
  {
    var r := seq(|es|, i requires 0 <= i < |es| => Rewritten(rw, es[i]));
    assert forall i :: 0 <= i < |es| ==> (Fits(r[i]) <==> Fits(es[i]));
    r
  }

  /** The text of one event's statement for the target. */
  method StatementText(e: DmlEvent, rw: Rewrites) returns (r: Result<string>)
    ensures r.Ok? <==> Fits(e)
    ensures r.Ok? ==> r.value == Text(StmtPieces(StmtOf(Rewritten(rw, e), Rewritten(rw, e).schema.table)))
  {
    r := AsSQLString(e, TargetName(rw, e.schema.table));
  }

  /** The buffer holds the statements of the first `i` events. */
  ghost predicate Holds(query: string, there: seq<DmlEvent>, i: nat) {
    i <= |there| && AllFit(there[..i]) && query == Text(ScriptPieces([Begin] + StmtsOf(there[..i]))) + ";\n"
  }

  lemma HoldsNone(there: seq<DmlEvent>)
    ensures Holds("BEGIN;\n", there, 0)
  {
    MiddleTexts();
    assert [Begin] + StmtsOf(there[..0]) == [Begin];
  }

  lemma HoldsNext(query: string, there: seq<DmlEvent>, i: nat)
    requires Holds(query, there, i) && i < |there| && Fits(there[i])
    ensures Holds(query + Text(StmtPieces(StmtOf(there[i], there[i].schema.table))) + ";\n", there, i + 1)
  {
    StmtsGrow(there, i);
    ScriptText([Begin] + StmtsOf(there[..i]), StmtOf(there[i], there[i].schema.table));
  }

  lemma HoldsAll(query: string, there: seq<DmlEvent>)
    requires Holds(query, there, |there|)
    ensures AllFit(there) && query + "COMMIT" == Text(ScriptPieces(Script(there)))
  {
    MiddleTexts();
    assert there[..|there|] == there;
    ScriptText([Begin] + StmtsOf(there), Commit);
  }

  /** The query buffer of a batch of events. */
  method TransactionText(events: seq<DmlEvent>, rw: Rewrites) returns (r: Result<string>)
    ensures r.Ok? <==> AllFit(events)
    ensures r.Ok? ==> r.value == Text(ScriptPieces(Script(AllRewritten(rw, events))))
  {
    var query := "BEGIN;\n";
    ghost var there := AllRewritten(rw, events);
    HoldsNone(there);
    for i := 0 to |events|
      invariant Holds(query, there, i)
    {
      var sql := StatementText(events[i], rw);
      if sql.Err? {
        return Err;
      }
      HoldsNext(query, there, i);
      query := query + sql.value + ";\n";
    }
    HoldsAll(query, there);
    r := Ok(query + "COMMIT");
  }
}
