/**
 A page of selected rows as one prepared INSERT IGNORE with a flat argument list.
 */
module RowBatch {
  import opened Rows
  import opened Lexer
  import opened SqlText
  import opened SqlReader
  import opened DmlEvents
  import opened SqlMeaning

  // ---- the arguments -------------------------------------------------------

  /** All rows have the same number of values. */
  predicate Rectangular(values: seq<GoRow>, width: nat) {
    forall i :: 0 <= i < |values| ==> |values[i]| == width
  }

  function Flat(values: seq<GoRow>): seq<GoValue> {
    if values == [] then [] else Flat(values[..|values| - 1]) + values[|values| - 1]
  }

  lemma {:induction false} FlatLength(values: seq<GoRow>, width: nat)
    requires Rectangular(values, width)
    ensures |Flat(values)| == |values| * width
  {
    if values != [] {
      var n := |values| - 1;
      FlatLength(values[..n], width);
      assert n * width + width == (n + 1) * width;
    }
  }

  /** What the server makes of placeholders in tuples of `width`: rows of that many arguments each. */
  function Grouped(args: seq<GoValue>, width: nat): seq<GoRow> {
    if width == 0 || |args| < width then []
    else Grouped(args[..|args| - width], width) + [args[|args| - width..]]
  }

  /** Flattening loses nothing: the server sees the rows that were selected. */
  lemma {:induction false} GroupedFlat(values: seq<GoRow>, width: nat)
    requires width > 0 && Rectangular(values, width)
    ensures Grouped(Flat(values), width) == values
  {
    if values != [] {
      var n := |values| - 1;
      GroupedFlat(values[..n], width);
      var flat := Flat(values);
      assert flat[..|flat| - width] == Flat(values[..n]) && flat[|flat| - width..] == values[n];
      assert values == values[..n] + [values[n]];
    }
  }

  /** The inner loop: one row goes behind those already in place. */
  method PlaceRow(flattened: array<GoValue>, start: nat, row: GoRow)
    requires start + |row| <= flattened.Length
    modifies flattened
    ensures flattened[..start + |row|] == old(flattened[..start]) + row
  {
    for colIdx := 0 to |row|
      invariant flattened[..start] == old(flattened[..start])
      invariant flattened[start..start + colIdx] == row[..colIdx]
    {
      flattened[start + colIdx] := row[colIdx];
    }
    assert flattened[..start + |row|] == flattened[..start] + flattened[start..start + |row|];
  }

  method FlattenRowData(values: seq<GoRow>) returns (flattened: array<GoValue>)
    requires values != [] && Rectangular(values, |values[0]|)
    ensures flattened[..] == Flat(values)
  {
    var rowSize := |values[0]|;
    flattened := new GoValue[rowSize * |values|];
    FlatLength(values, rowSize);
    for rowIdx := 0 to |values|
      invariant rowIdx * rowSize <= flattened.Length
      invariant flattened[..rowIdx * rowSize] == Flat(values[..rowIdx])
    {
      RowFits(rowIdx, |values|, rowSize);
      PlaceRow(flattened, rowIdx * rowSize, values[rowIdx]);
      assert values[..rowIdx + 1][..rowIdx] == values[..rowIdx];
    }
    assert values[..|values|] == values;
    assert |values| * rowSize == flattened.Length;
  }

  lemma RowFits(i: nat, n: nat, width: nat)
    requires i < n
    ensures (i + 1) * width == i * width + width && (i + 1) * width <= width * n
  {
    MonotoneProduct(i + 1, n, width);
  }

  lemma {:induction false} MonotoneProduct(i: nat, n: nat, width: nat)
    requires i <= n
    ensures i * width <= width * n
    decreases n - i
  {
    if i < n {
      MonotoneProduct(i + 1, n, width);
      assert (i + 1) * width == i * width + width;
    }
  }

  // ---- the placeholders ----------------------------------------------------

  function Marks(n: nat): seq<Piece> {
    if n <= 1 then [Sign('?')] else [Sign('?'), Sign(',')] + Marks(n - 1)
  }

  function Tuple(n: nat): seq<Piece> {
    [Sign('(')] + Marks(n) + [Sign(')')]
  }

  function Tuples(rows: nat, n: nat): seq<Piece> {
    if rows <= 1 then Tuple(n) else Tuple(n) + [Sign(',')] + Tuples(rows - 1, n)
  }

  function Repeated(s: string, n: nat): string {
    if n == 0 then "" else s + Repeated(s, n - 1)
  }

  method Repeat(s: string, n: nat) returns (r: string)
    ensures r == Repeated(s, n)
  {
    r := "";
    for i := n downto 0
      invariant r == Repeated(s, n - i)
    {
      r := s + r;
    }
  }

  lemma {:induction false} MarksText(n: nat)
    requires n >= 1
    ensures Text(Marks(n)) == Repeated("?,", n - 1) + "?"
  {
    if n == 1 {
      PieceTexts(Sign('?'), Sign(','));
    } else {
      MarksText(n - 1);
      PieceTexts(Sign('?'), Sign(','));
      TextConcat([Sign('?'), Sign(',')], Marks(n - 1));
    }
  }

  lemma TupleText(n: nat)
    requires n >= 1
    ensures Text(Tuple(n)) == "(" + Repeated("?,", n - 1) + "?)"
  {
    MarksText(n);
    PieceTexts(Sign('('), Blank(' '));
    PieceTexts(Sign(')'), Blank(' '));
    TextConcat([Sign('(')], Marks(n));
    TextConcat([Sign('(')] + Marks(n), [Sign(')')]);
  }

  lemma {:induction false} TuplesText(rows: nat, n: nat)
    requires rows >= 1
    ensures Text(Tuples(rows, n)) == Repeated(Text(Tuple(n)) + ",", rows - 1) + Text(Tuple(n))
  {
    if rows > 1 {
      TuplesText(rows - 1, n);
      PieceTexts(Sign(','), Blank(' '));
      TextConcat(Tuple(n), [Sign(',')]);
      TextConcat(Tuple(n) + [Sign(',')], Tuples(rows - 1, n));
      OneMore(Text(Tuple(n)) + ",", rows - 1, Text(Tuple(n)));
    }
  }

  lemma OneMore(s: string, n: nat, last: string)
    requires n >= 1
    ensures Repeated(s, n) + last == s + (Repeated(s, n - 1) + last)
  {
  }

  /** The VALUES list of the query; a batch and a table have at least one row and one column. */
  method ValuesString(rows: nat, columns: nat) returns (r: string)
    requires rows >= 1 && columns >= 1
    ensures r == Text(Tuples(rows, columns))
  {
    var marks := Repeat("?,", columns - 1);
    var tuple := "(" + marks + "?)";
    TupleText(columns);
    var all := Repeat(tuple + ",", rows - 1);
    r := all + tuple;
    TuplesText(rows, columns);
  }

  // ---- the query -----------------------------------------------------------

  function QueryTail(): seq<Piece> {
    [Sign(')'), Blank(' '), Keyword("VALUES"), Blank(' ')]
  }

  function QueryPieces(t: TableName, columns: seq<string>, rows: nat): seq<Piece> {
    InsertHead(t) + ItemsPieces(Comma, ColumnItems(columns)) + QueryTail() + Tuples(rows, |columns|)
  }

  /** The query and its arguments; a row of the wrong length is an error. */
  method AsSQLQuery(schema: Schema, values: seq<GoRow>, target: TableName)
      returns (r: Result<string>, args: array<GoValue>)
    requires values != [] && schema.columns != []
    ensures r.Ok? <==> Rectangular(values, |schema.columns|)
    ensures r.Ok? ==> r.value == Text(QueryPieces(target, schema.columns, |values|)) && args[..] == Flat(values)
  {
    args := new GoValue[0];
    for i := 0 to |values|
      invariant forall j :: 0 <= j < i ==> |values[j]| == |schema.columns|
    {
      if |values[i]| != |schema.columns| {
        return Err, args;
      }
    }
    var columns := QuotedColumnNames(schema.columns);
    var names := JoinComma(columns, schema.columns);
    var list := ValuesString(|values|, |columns|);
    QueryText(target, schema.columns, |values|);
    r := Ok("INSERT IGNORE INTO " + QuotedTableName(target) + " (" + names + ") VALUES " + list);
    args := FlattenRowData(values);
  }

  lemma TailText()
    ensures Text(QueryTail()) == ") VALUES "
  {
    var a, b := [Sign(')'), Blank(' ')], [Keyword("VALUES"), Blank(' ')];
    PieceTexts(a[0], a[1]);
    PieceTexts(b[0], b[1]);
    TextConcat(a, b);
    assert a + b == QueryTail();
  }

  lemma QueryText(t: TableName, columns: seq<string>, rows: nat)
    ensures Text(QueryPieces(t, columns, rows))
         == "INSERT IGNORE INTO " + QuotedTableName(t) + " (" + Text(ItemsPieces(Comma, ColumnItems(columns)))
            + ") VALUES " + Text(Tuples(rows, |columns|))
  {
    var a, b, c := InsertHead(t), ItemsPieces(Comma, ColumnItems(columns)), QueryTail();
    InsertHeadText(t);
    TailText();
    TextConcat(a, b);
    TextConcat(a + b, c);
    TextConcat(a + b + c, Tuples(rows, |columns|));
  }

  // ---- reading the query ---------------------------------------------------

  function ReadMarks(ts: seq<Token>): (r: Option<(nat, seq<Token>)>)
    ensures r.Some? ==> |r.value.1| < |ts|
    decreases |ts|
  {
    if |ts| < 2 || ts[0] != Sym('?') then None
    else if ts[1] == Sym(')') then Some((1, ts[2..]))
    else if ts[1] != Sym(',') then None
    else match ReadMarks(ts[2..])
      case None => None
      case Some((n, rest)) => Some((n + 1, rest))
  }

  /** The sizes of the tuples in a VALUES list. */
  function ReadTuples(ts: seq<Token>): Option<seq<nat>>
    decreases |ts|
  {
    if ts == [] || ts[0] != Sym('(') then None
    else match ReadMarks(ts[1..])
      case None => None
      case Some((n, rest)) =>
        if rest == [] then Some([n])
        else if rest[0] != Sym(',') then None
        else match ReadTuples(rest[1..])
          case None => None
          case Some(sizes) => Some([n] + sizes)
  }

  datatype Query = Query(table: TableName, columns: seq<Item>, sizes: seq<nat>)

  function ReadQuery(ts: seq<Token>): Option<Query> {
    if !([Word("INSERT"), Word("IGNORE"), Word("INTO")] <= ts) then None
    else match ReadTable(ts[3..])
      case None => None
      case Some((t, ts1)) =>
        if ts1 == [] || ts1[0] != Sym('(') then None
        else match ReadItems(Comma, ts1[1..])
          case None => None
          case Some((columns, ts2)) =>
            match Skip([Sym(')'), Word("VALUES")], ts2)
            case None => None
            case Some(ts3) =>
              match ReadTuples(ts3)
              case None => None
              case Some(sizes) => Some(Query(t, columns, sizes))
  }

  // every piece of a VALUES list is a symbol

  ghost predicate Symbols(ps: seq<Piece>) {
    forall i :: 0 <= i < |ps| ==> ps[i].Tok? && ps[i].token.Sym? && SymbolChar(ps[i].token.symbol)
  }

  function Raw(ps: seq<Piece>): seq<Token>
    requires Symbols(ps)
  {
    seq(|ps|, i requires 0 <= i < |ps| => ps[i].token)
  }

  lemma {:induction false} SymbolTokens(ps: seq<Piece>)
    requires Symbols(ps)
    ensures Tokens(ps) == Raw(ps) && WellSpaced(ps)
  {
    if ps != [] {
      SymbolTokens(ps[1..]);
    }
  }

  lemma {:induction false} MarksSymbols(n: nat)
    ensures Symbols(Marks(n))
  {
    if n > 1 { MarksSymbols(n - 1); }
  }

  lemma {:induction false} TuplesSymbols(rows: nat, n: nat)
    ensures Symbols(Tuples(rows, n))
  {
    MarksSymbols(n);
    if rows > 1 { TuplesSymbols(rows - 1, n); }
  }

  lemma {:induction false} MarksRead(n: nat, rest: seq<Token>)
    requires n >= 1 && Symbols(Marks(n))
    ensures ReadMarks(Raw(Marks(n)) + ([Sym(')')] + rest)) == Some((n, rest))
  {
    var ts := Raw(Marks(n)) + ([Sym(')')] + rest);
    if n == 1 {
      assert ts[2..] == rest;
    } else {
      MarksSymbols(n - 1);
      MarksRead(n - 1, rest);
      assert Raw(Marks(n)) == [Sym('?'), Sym(',')] + Raw(Marks(n - 1));
      assert ts[2..] == Raw(Marks(n - 1)) + ([Sym(')')] + rest);
    }
  }

  lemma RawTuple(n: nat, rest: seq<Piece>)
    requires Symbols(Marks(n)) && Symbols(rest)
    ensures Symbols(Tuple(n) + rest)
    ensures Raw(Tuple(n) + rest) == [Sym('(')] + (Raw(Marks(n)) + ([Sym(')')] + Raw(rest)))
  {
  }

  lemma TupleRead(n: nat, rest: seq<Token>)
    requires n >= 1 && Symbols(Marks(n))
    ensures ReadTuples([Sym('(')] + (Raw(Marks(n)) + ([Sym(')')] + rest)))
         == if rest == [] then Some([n])
            else if rest[0] != Sym(',') then None
            else match ReadTuples(rest[1..])
              case None => None
              case Some(sizes) => Some([n] + sizes)
  {
    MarksRead(n, rest);
    var tail := Raw(Marks(n)) + ([Sym(')')] + rest);
    assert ([Sym('(')] + tail)[1..] == tail;
  }

  lemma {:induction false} TuplesRead(rows: nat, n: nat)
    requires rows >= 1 && n >= 1 && Symbols(Tuples(rows, n))
    ensures ReadTuples(Raw(Tuples(rows, n))) == Some(seq(rows, _ => n))
  {
    MarksSymbols(n);
    if rows == 1 {
      RawTuple(n, []);
      TupleRead(n, []);
      assert Tuples(rows, n) == Tuple(n) + [] && seq(rows, _ => n) == [n];
    } else {
      TuplesSymbols(rows - 1, n);
      TuplesRead(rows - 1, n);
      RawTuples(rows, n);
      TupleRead(n, [Sym(',')] + Raw(Tuples(rows - 1, n)));
      assert ([Sym(',')] + Raw(Tuples(rows - 1, n)))[1..] == Raw(Tuples(rows - 1, n));
      assert seq(rows, _ => n) == [n] + seq(rows - 1, _ => n);
    }
  }

  lemma RawTuples(rows: nat, n: nat)
    requires rows > 1 && Symbols(Tuples(rows, n)) && Symbols(Tuples(rows - 1, n)) && Symbols(Marks(n))
    ensures Raw(Tuples(rows, n))
         == [Sym('(')] + (Raw(Marks(n)) + ([Sym(')')] + ([Sym(',')] + Raw(Tuples(rows - 1, n)))))
  {
    var rest := [Sign(',')] + Tuples(rows - 1, n);
    RawTuple(n, rest);
    assert Tuples(rows, n) == Tuple(n) + rest;
    assert Raw(rest) == [Sym(',')] + Raw(Tuples(rows - 1, n));
  }

  lemma TailSpaced()
    ensures WellSpaced(QueryTail())
  {
  }

  lemma TailTokens()
    ensures Tokens(QueryTail()) == [Sym(')'), Word("VALUES")]
  {
    var a, b := [Sign(')'), Blank(' ')], [Keyword("VALUES"), Blank(' ')];
    Tokens2(a[0], a[1]);
    Tokens2(b[0], b[1]);
    TokensConcat(a, b);
    assert a + b == QueryTail();
  }

  lemma QuerySpaced(t: TableName, columns: seq<string>, rows: nat)
    requires columns != [] && PlainTable(t) && forall i :: 0 <= i < |columns| ==> PlainName(columns[i])
    ensures WellSpaced(QueryPieces(t, columns, rows))
  {
    var a, b, c, d := InsertHead(t), ItemsPieces(Comma, ColumnItems(columns)), QueryTail(), Tuples(rows, |columns|);
    InsertSpaced(t);
    ItemsSpaced(Comma, ColumnItems(columns));
    TuplesSymbols(rows, |columns|);
    SymbolTokens(d);
    TailSpaced();
    SpacedAround(a, b, c);
    WellSpacedConcat(a + b + c, d);
  }

  lemma QueryTokens(t: TableName, columns: seq<string>, rows: nat)
    requires Symbols(Tuples(rows, |columns|))
    ensures Tokens(QueryPieces(t, columns, rows))
         == [Word("INSERT"), Word("IGNORE"), Word("INTO")] + TableTokens(t) + [Sym('(')]
            + ItemsTokens(Comma, ColumnItems(columns)) + [Sym(')'), Word("VALUES")] + Raw(Tuples(rows, |columns|))
  {
    var a, b, c, d := InsertHead(t), ItemsPieces(Comma, ColumnItems(columns)), QueryTail(), Tuples(rows, |columns|);
    InsertHeadTokens(t);
    ItemsTokensOf(Comma, ColumnItems(columns));
    TailTokens();
    SymbolTokens(d);
    TokensConcat(a, b);
    TokensConcat(a + b, c);
    TokensConcat(a + b + c, d);
  }

  /** The server reads the query as one tuple of |columns| placeholders per row. */
  lemma QueryRead(t: TableName, columns: seq<string>, rows: nat)
    requires columns != [] && rows >= 1 && PlainTable(t) && forall i :: 0 <= i < |columns| ==> PlainName(columns[i])
    ensures Lex(Text(QueryPieces(t, columns, rows))).Some?
    ensures ReadQuery(Lex(Text(QueryPieces(t, columns, rows))).value)
         == Some(Query(t, ColumnItems(columns), seq(rows, _ => |columns|)))
  {
    QuerySpaced(t, columns, rows);
    LexText(QueryPieces(t, columns, rows));
    TuplesSymbols(rows, |columns|);
    QueryTokens(t, columns, rows);
    QueryTokensRead(t, ColumnItems(columns), rows, |columns|);
  }

  lemma QueryTokensRead(t: TableName, columns: seq<Item>, rows: nat, n: nat)
    requires columns != [] && rows >= 1 && n >= 1 && Symbols(Tuples(rows, n))
    ensures ReadQuery([Word("INSERT"), Word("IGNORE"), Word("INTO")] + TableTokens(t) + [Sym('(')]
                      + ItemsTokens(Comma, columns) + [Sym(')'), Word("VALUES")] + Raw(Tuples(rows, n)))
         == Some(Query(t, columns, seq(rows, _ => n)))
  {
    var head, mid := [Word("INSERT"), Word("IGNORE"), Word("INTO")], [Sym(')'), Word("VALUES")];
    var ts3 := Raw(Tuples(rows, n));
    var ts1 := [Sym('(')] + (ItemsTokens(Comma, columns) + (mid + ts3));
    Regroup6(head, TableTokens(t), [Sym('(')], ItemsTokens(Comma, columns), mid, ts3);
    assert (head + (TableTokens(t) + ts1))[3..] == TableTokens(t) + ts1;
    TableRead(t, ts1);
    assert ts1[1..] == ItemsTokens(Comma, columns) + (mid + ts3);
    ItemsRead(Comma, columns, mid + ts3);
    assert Skip(mid, mid + ts3) == Some(ts3);
    TuplesRead(rows, n);
  }

  lemma Regroup6(a: seq<Token>, b: seq<Token>, c: seq<Token>, d: seq<Token>, e: seq<Token>, f: seq<Token>)
    ensures a + b + c + d + e + f == a + (b + (c + (d + (e + f))))
  {
  }

  // ---- what the server does with it ---------------------------------------

  /** One INSERT IGNORE per row, in order. */
  function ExecRows(cat: Catalogue, db: Database, t: TableName, listed: seq<Item>, rows: seq<GoRow>): Database {
    if rows == [] then db
    else
      var n := |rows| - 1;
      Exec(cat, ExecRows(cat, db, t, listed, rows[..n]), InsertStmt(t, listed, ValueItems(rows[n])))
  }

  /** The prepared query with its arguments bound, tuple by tuple. */
  function ExecQuery(cat: Catalogue, db: Database, text: string, args: seq<GoValue>): Option<Database> {
    match Lex(text)
    case None => None
    case Some(ts) =>
      match ReadQuery(ts)
      case None => None
      case Some(q) =>
        if q.sizes == [] || exists i :: 0 <= i < |q.sizes| && q.sizes[i] != q.sizes[0] then None
        else if |args| != |q.sizes| * q.sizes[0] then None
        else Some(ExecRows(cat, db, q.table, q.columns, Grouped(args, q.sizes[0])))
  }

  predicate GoodValues(schema: Schema, values: GoRow) {
    && GoodSchema(schema) && |values| == |schema.columns|
    && PkOf(schema, values).Number? && PkOf(schema, values).n >= 0
  }

  /** Copying a page means inserting each of its rows, in turn, where its key is absent. */
  function InsertRows(db: Database, schema: Schema, rows: seq<GoRow>): Database
    requires forall i :: 0 <= i < |rows| ==> GoodValues(schema, rows[i])
  {
    if rows == [] then db
    else
      var row := rows[|rows| - 1];
      assert GoodValues(schema, row);
      InsertIgnore(InsertRows(db, schema, rows[..|rows| - 1]), Key(schema.table, PkOf(schema, row).n), RowOf(row))
  }

  lemma {:induction false} RowsInserted(cat: Catalogue, db: Database, schema: Schema, rows: seq<GoRow>)
    requires schema.table in cat && cat[schema.table] == schema
    requires forall i :: 0 <= i < |rows| ==> GoodValues(schema, rows[i])
    ensures ExecRows(cat, db, schema.table, ColumnItems(schema.columns), rows) == InsertRows(db, schema, rows)
  {
    if rows != [] {
      var n := |rows| - 1;
      RowsInserted(cat, db, schema, rows[..n]);
      InsertIsCas(cat, InsertRows(db, schema, rows[..n]), InsertEvent(schema, rows[n]));
    }
  }

  /** The arguments are bound to the tuples of a text that reads as such a query. */
  lemma ExecRead(cat: Catalogue, db: Database, text: string, args: seq<GoValue>, t: TableName, listed: seq<Item>,
                 rows: nat, width: nat)
    requires Lex(text).Some? && ReadQuery(Lex(text).value) == Some(Query(t, listed, seq(rows, _ => width)))
    requires rows >= 1 && |args| == rows * width
    ensures ExecQuery(cat, db, text, args) == Some(ExecRows(cat, db, t, listed, Grouped(args, width)))
  {
    var sizes := seq(rows, _ => width);
    assert sizes[0] == width && |sizes| == rows;
  }

  lemma GoodRectangle(schema: Schema, rows: seq<GoRow>)
    requires rows != [] && forall i :: 0 <= i < |rows| ==> GoodValues(schema, rows[i])
    ensures Rectangular(rows, |schema.columns|) && schema.columns != []
  {
    assert GoodValues(schema, rows[0]);
    forall i | 0 <= i < |rows| ensures |rows[i]| == |schema.columns| {
      assert GoodValues(schema, rows[i]);
    }
  }

  /**
   The batch insert: the server that reads the query of a page and binds the flattened
   arguments inserts exactly the page's rows, each where its key is absent.
   */
  lemma QueryInsertsPage(cat: Catalogue, db: Database, schema: Schema, rows: seq<GoRow>)
    requires schema.table in cat && cat[schema.table] == schema && PlainSchema(schema) && rows != []
    requires forall i :: 0 <= i < |rows| ==> GoodValues(schema, rows[i])
    ensures ExecQuery(cat, db, Text(QueryPieces(schema.table, schema.columns, |rows|)), Flat(rows))
         == Some(InsertRows(db, schema, rows))
  {
    var width := |schema.columns|;
    GoodRectangle(schema, rows);
    QueryRead(schema.table, schema.columns, |rows|);
    FlatLength(rows, width);
    ExecRead(cat, db, Text(QueryPieces(schema.table, schema.columns, |rows|)), Flat(rows), schema.table,
             ColumnItems(schema.columns), |rows|, width);
    GroupedFlat(rows, width);
    RowsInserted(cat, db, schema, rows);
  }
}
