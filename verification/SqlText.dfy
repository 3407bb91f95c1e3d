/**
 The statements the writer sends: what they say, how they are spelled, and that the
 server reads back exactly what was meant.
 */
module SqlText {
  import opened Rows
  import opened Lexer

  datatype Literal = NullLit | NumberLit(n: Integer) | TextLit(s: string) | BinaryLit(s: string)

  /** The items statements list: a column, a value, `c`=v, or `c` IS NULL. */
  datatype Item =
    | Column(name: string)
    | Val(value: Literal)
    | Binding(name: string, value: Literal)
    | IsNull(name: string)

  datatype Stmt =
    | Begin
    | Commit
    | InsertStmt(table: TableName, columns: seq<Item>, values: seq<Item>)
    | UpdateStmt(table: TableName, sets: seq<Item>, conditions: seq<Item>)
    | DeleteStmt(table: TableName, conditions: seq<Item>)

  // ---- numbers -------------------------------------------------------------

  function Digit(d: nat): char
    requires d < 10
  {
    '0' + d as char
  }

  function Decimal(n: nat): string {
    if n < 10 then [Digit(n)] else Decimal(n / 10) + [Digit(n % 10)]
  }

  predicate IsDigit(c: char) {
    '0' <= c <= '9'
  }

  predicate IsDigits(s: string) {
    s != "" && forall i :: 0 <= i < |s| ==> IsDigit(s[i])
  }

  function ReadDecimal(s: string): nat
    requires forall i :: 0 <= i < |s| ==> IsDigit(s[i])
  {
    if s == "" then 0
    else
      assert IsDigit(s[|s| - 1]);
      10 * ReadDecimal(s[..|s| - 1]) + (s[|s| - 1] as int - '0' as int)
  }

  lemma {:induction false} ReadBack(n: nat)
    ensures IsDigits(Decimal(n)) && ReadDecimal(Decimal(n)) == n
  {
    var s := Decimal(n);
    if n >= 10 {
      ReadBack(n / 10);
      assert s[..|s| - 1] == Decimal(n / 10);
    } else {
      assert s[..0] == "";
    }
  }

  // ---- spelling ------------------------------------------------------------

  function Sign(c: char): Piece {
    Tok(Sym(c))
  }

  function Name(n: string): Piece {
    Tok(Ident(n))
  }

  function Keyword(w: string): Piece {
    Tok(Word(w))
  }

  function LiteralPieces(l: Literal): seq<Piece> {
    match l
    case NullLit => [Keyword("NULL")]
    case NumberLit(n) => if n < 0 then [Sign('-'), Keyword(Decimal(-n))] else [Keyword(Decimal(n))]
    case TextLit(s) => [Tok(Str(s))]
    case BinaryLit(s) => [Keyword("_binary"), Tok(Str(s))]
  }

  function ItemPieces(item: Item): seq<Piece> {
    match item
    case Column(c) => [Name(c)]
    case Val(l) => LiteralPieces(l)
    case Binding(c, l) => [Name(c), Sign('=')] + LiteralPieces(l)
    case IsNull(c) => [Name(c), Blank(' '), Keyword("IS"), Blank(' '), Keyword("NULL")]
  }

  datatype Separator = Comma | And

  function SeparatorPieces(sep: Separator): seq<Piece> {
    match sep
    case Comma => [Sign(',')]
    case And => [Blank(' '), Keyword("AND"), Blank(' ')]
  }

  function ItemsPieces(sep: Separator, items: seq<Item>): seq<Piece> {
    if items == [] then []
    else if |items| == 1 then ItemPieces(items[0])
    else ItemsPieces(sep, items[..|items| - 1]) + SeparatorPieces(sep) + ItemPieces(items[|items| - 1])
  }

  function InsertHead(t: TableName): seq<Piece> {
    [Keyword("INSERT"), Blank(' '), Keyword("IGNORE"), Blank(' '), Keyword("INTO"), Blank(' '),
     Name(t.schema), Sign('.'), Name(t.name), Blank(' '), Sign('(')]
  }

  function InsertMiddle(): seq<Piece> {
    [Sign(')'), Blank(' '), Keyword("VALUES"), Blank(' '), Sign('(')]
  }

  function UpdateHead(t: TableName): seq<Piece> {
    [Keyword("UPDATE"), Blank(' '), Name(t.schema), Sign('.'), Name(t.name), Blank(' '), Keyword("SET"), Blank(' ')]
  }

  function DeleteHead(t: TableName): seq<Piece> {
    [Keyword("DELETE"), Blank(' '), Keyword("FROM"), Blank(' '), Name(t.schema), Sign('.'), Name(t.name)]
  }

  function Where(): seq<Piece> {
    [Blank(' '), Keyword("WHERE"), Blank(' ')]
  }

  function StmtPieces(stmt: Stmt): seq<Piece> {
    match stmt
    case Begin => [Keyword("BEGIN")]
    case Commit => [Keyword("COMMIT")]
    case InsertStmt(t, columns, values) =>
      InsertHead(t) + ItemsPieces(Comma, columns) + InsertMiddle() + ItemsPieces(Comma, values) + [Sign(')')]
    case UpdateStmt(t, sets, conditions) =>
      UpdateHead(t) + ItemsPieces(Comma, sets) + Where() + ItemsPieces(And, conditions)
    case DeleteStmt(t, conditions) =>
      DeleteHead(t) + Where() + ItemsPieces(And, conditions)
  }

  /** Each statement is followed by a semicolon and a newline, except the last. */
  function ScriptPieces(stmts: seq<Stmt>): seq<Piece> {
    if stmts == [] then []
    else if |stmts| == 1 then StmtPieces(stmts[0])
    else ScriptPieces(stmts[..|stmts| - 1]) + [Sign(';'), Blank('\n')] + StmtPieces(stmts[|stmts| - 1])
  }

  // ---- what may be spelled -------------------------------------------------

  predicate PlainName(n: string) {
    '`' !in n
  }

  predicate PlainItem(item: Item) {
    item.Val? || PlainName(item.name)
  }

  predicate PlainTable(t: TableName) {
    PlainName(t.schema) && PlainName(t.name)
  }

  predicate PlainItems(items: seq<Item>) {
    items != [] && forall i :: 0 <= i < |items| ==> PlainItem(items[i])
  }

  predicate PlainStmt(stmt: Stmt) {
    match stmt
    case Begin => true
    case Commit => true
    case InsertStmt(t, columns, values) => PlainTable(t) && PlainItems(columns) && PlainItems(values)
    case UpdateStmt(t, sets, conditions) => PlainTable(t) && PlainItems(sets) && PlainItems(conditions)
    case DeleteStmt(t, conditions) => PlainTable(t) && PlainItems(conditions)
  }

  // ---- spelling is well spaced --------------------------------------------

  lemma DigitsAreWord(n: nat)
    ensures Spellable(Keyword(Decimal(n)))
  {
    ReadBack(n);
  }

  lemma LiteralSpaced(l: Literal)
    ensures WellSpaced(LiteralPieces(l)) && LiteralPieces(l) != []
    ensures LiteralPieces(l)[0].Tok? && !LiteralPieces(l)[0].token.Ident?
  {
    if l.NumberLit? {
      DigitsAreWord(if l.n < 0 then -l.n else l.n);
    }
  }

  lemma ItemSpaced(item: Item)
    requires PlainItem(item)
    ensures WellSpaced(ItemPieces(item)) && ItemPieces(item) != []
  {
    if item.Val? || item.Binding? {
      LiteralSpaced(item.value);
      if item.Binding? {
        WellSpacedConcat([Name(item.name), Sign('=')], LiteralPieces(item.value));
      }
    }
  }

  lemma {:induction false} ItemsSpaced(sep: Separator, items: seq<Item>)
    requires PlainItems(items)
    ensures WellSpaced(ItemsPieces(sep, items)) && ItemsPieces(sep, items) != []
  {
    var n := |items| - 1;
    ItemSpaced(items[n]);
    if n > 0 {
      ItemsSpaced(sep, items[..n]);
      SeparatorSpaced(sep);
      FollowsSeparator(sep, ItemsPieces(sep, items[..n]), ItemPieces(items[n]));
    }
  }

  lemma SeparatorSpaced(sep: Separator)
    ensures WellSpaced(SeparatorPieces(sep)) && SeparatorPieces(sep) != []
  {
  }

  /** A separator starts and ends with something that cannot be taken for part of an item. */
  lemma FollowsSeparator(sep: Separator, a: seq<Piece>, b: seq<Piece>)
    requires WellSpaced(a) && WellSpaced(b) && WellSpaced(SeparatorPieces(sep)) && a != [] && b != []
    ensures WellSpaced(a + SeparatorPieces(sep) + b)
  {
    SpacedAround(a, SeparatorPieces(sep), b);
  }

  lemma SpacedAround(a: seq<Piece>, b: seq<Piece>, c: seq<Piece>)
    requires WellSpaced(a) && WellSpaced(b) && WellSpaced(c) && a != [] && b != [] && c != []
    requires MayFollow(a[|a| - 1], b[0]) && MayFollow(b[|b| - 1], c[0])
    ensures WellSpaced(a + b + c)
  {
    WellSpacedConcat(a, b);
    WellSpacedConcat(a + b, c);
  }

  lemma InsertSpaced(t: TableName)
    requires PlainTable(t)
    ensures WellSpaced(InsertHead(t))
  {
    var a := [Keyword("INSERT"), Blank(' '), Keyword("IGNORE"), Blank(' '), Keyword("INTO"), Blank(' ')];
    var b := [Name(t.schema), Sign('.'), Name(t.name), Blank(' '), Sign('(')];
    InsertKeywordsSpaced();
    assert WellSpaced(b);
    WellSpacedConcat(a, b);
    assert a + b == InsertHead(t);
  }

  lemma InsertKeywordsSpaced()
    ensures WellSpaced([Keyword("INSERT"), Blank(' '), Keyword("IGNORE"), Blank(' '), Keyword("INTO"), Blank(' ')])
  {
  }

  lemma UpdateSpaced(t: TableName)
    requires PlainTable(t)
    ensures WellSpaced(UpdateHead(t))
  {
  }

  lemma DeleteSpaced(t: TableName)
    requires PlainTable(t)
    ensures WellSpaced(DeleteHead(t))
  {
  }

  lemma MiddlesSpaced()
    ensures WellSpaced(InsertMiddle()) && WellSpaced(Where()) && WellSpaced([Sign(')')])
  {
  }

  lemma StmtSpaced(stmt: Stmt)
    requires PlainStmt(stmt)
    ensures WellSpaced(StmtPieces(stmt)) && StmtPieces(stmt) != []
  {
    MiddlesSpaced();
    match stmt
    case Begin =>
    case Commit =>
    case InsertStmt(t, columns, values) =>
      InsertSpaced(t);
      ItemsSpaced(Comma, columns);
      ItemsSpaced(Comma, values);
      SpacedAround(InsertHead(t), ItemsPieces(Comma, columns), InsertMiddle());
      var front := InsertHead(t) + ItemsPieces(Comma, columns) + InsertMiddle();
      SpacedAround(front, ItemsPieces(Comma, values), [Sign(')')]);
    case UpdateStmt(t, sets, conditions) =>
      UpdateSpaced(t);
      ItemsSpaced(Comma, sets);
      ItemsSpaced(And, conditions);
      SpacedAround(UpdateHead(t), ItemsPieces(Comma, sets), Where());
      WellSpacedConcat(UpdateHead(t) + ItemsPieces(Comma, sets) + Where(), ItemsPieces(And, conditions));
    case DeleteStmt(t, conditions) =>
      DeleteSpaced(t);
      ItemsSpaced(And, conditions);
      SpacedAround(DeleteHead(t), Where(), ItemsPieces(And, conditions));
  }

  predicate PlainScript(stmts: seq<Stmt>) {
    forall i :: 0 <= i < |stmts| ==> PlainStmt(stmts[i])
  }

  lemma {:induction false} ScriptSpaced(stmts: seq<Stmt>)
    requires PlainScript(stmts)
    ensures WellSpaced(ScriptPieces(stmts)) && (stmts != [] ==> ScriptPieces(stmts) != [])
  {
    if stmts != [] {
      var n := |stmts| - 1;
      StmtSpaced(stmts[n]);
      if n > 0 {
        ScriptSpaced(stmts[..n]);
        SpacedAround(ScriptPieces(stmts[..n]), [Sign(';'), Blank('\n')], StmtPieces(stmts[n]));
      }
    }
  }
}
