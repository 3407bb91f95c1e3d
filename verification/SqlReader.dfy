/**
 Reading SQL text back into statements, and that this undoes the spelling.
 */
module SqlReader {
  import opened Rows
  import opened Lexer
  import opened SqlText

  function ReadLiteral(ts: seq<Token>): (r: Option<(Literal, seq<Token>)>)
    ensures r.Some? ==> |r.value.1| < |ts|
  {
    if ts == [] then None
    else match ts[0]
      case Word(w) =>
        if w == "NULL" then Some((NullLit, ts[1..]))
        else if w == "_binary" && |ts| > 1 && ts[1].Str? then Some((BinaryLit(ts[1].content), ts[2..]))
        else if IsDigits(w) && ReadDecimal(w) < TWO_64 then Some((NumberLit(ReadDecimal(w)), ts[1..]))
        else None
      case Sym('-') =>
        if |ts| > 1 && ts[1].Word? && IsDigits(ts[1].text) && ReadDecimal(ts[1].text) <= TWO_63
        then Some((NumberLit(0 - ReadDecimal(ts[1].text)), ts[2..]))
        else None
      case Str(s) => Some((TextLit(s), ts[1..]))
      case _ => None
  }

  function ReadItem(ts: seq<Token>): (r: Option<(Item, seq<Token>)>)
    ensures r.Some? ==> |r.value.1| < |ts|
  {
    if ts != [] && ts[0].Ident? then
      if |ts| > 1 && ts[1] == Sym('=') then
        match ReadLiteral(ts[2..])
        case None => None
        case Some((l, rest)) => Some((Binding(ts[0].name, l), rest))
      else if |ts| > 2 && ts[1] == Word("IS") && ts[2] == Word("NULL") then Some((IsNull(ts[0].name), ts[3..]))
      else Some((Column(ts[0].name), ts[1..]))
    else
      match ReadLiteral(ts)
      case None => None
      case Some((l, rest)) => Some((Val(l), rest))
  }

  function SeparatorToken(sep: Separator): Token {
    match sep
    case Comma => Sym(',')
    case And => Word("AND")
  }

  function ReadItems(sep: Separator, ts: seq<Token>): (r: Option<(seq<Item>, seq<Token>)>)
    ensures r.Some? ==> |r.value.1| < |ts|
    decreases |ts|
  {
    match ReadItem(ts)
    case None => None
    case Some((item, rest)) =>
      if rest != [] && rest[0] == SeparatorToken(sep) then
        match ReadItems(sep, rest[1..])
        case None => None
        case Some((items, rest')) => Some(([item] + items, rest'))
      else Some(([item], rest))
  }

  /** `head`, then what remains. */
  function Skip(head: seq<Token>, ts: seq<Token>): Option<seq<Token>> {
    if head <= ts then Some(ts[|head|..]) else None
  }

  function ReadTable(ts: seq<Token>): (r: Option<(TableName, seq<Token>)>)
    ensures r.Some? ==> |r.value.1| < |ts|
  {
    if |ts| >= 3 && ts[0].Ident? && ts[1] == Sym('.') && ts[2].Ident?
    then Some((TableName(ts[0].name, ts[2].name), ts[3..]))
    else None
  }

  function ReadInsert(ts: seq<Token>): (r: Option<(Stmt, seq<Token>)>)
    ensures r.Some? ==> |r.value.1| < |ts|
  {
    match ReadTable(ts)
    case None => None
    case Some((t, ts1)) =>
      if ts1 == [] || ts1[0] != Sym('(') then None
      else match ReadItems(Comma, ts1[1..])
        case None => None
        case Some((columns, ts2)) =>
          match Skip([Sym(')'), Word("VALUES"), Sym('(')], ts2)
          case None => None
          case Some(ts3) =>
            match ReadItems(Comma, ts3)
            case None => None
            case Some((values, ts4)) =>
              if ts4 == [] || ts4[0] != Sym(')') then None
              else Some((InsertStmt(t, columns, values), ts4[1..]))
  }

  function ReadUpdate(ts: seq<Token>): (r: Option<(Stmt, seq<Token>)>)
    ensures r.Some? ==> |r.value.1| < |ts|
  {
    match ReadTable(ts)
    case None => None
    case Some((t, ts1)) =>
      if ts1 == [] || ts1[0] != Word("SET") then None
      else match ReadItems(Comma, ts1[1..])
        case None => None
        case Some((sets, ts2)) =>
          if ts2 == [] || ts2[0] != Word("WHERE") then None
          else match ReadItems(And, ts2[1..])
            case None => None
            case Some((conditions, ts3)) => Some((UpdateStmt(t, sets, conditions), ts3))
  }

  function ReadDelete(ts: seq<Token>): (r: Option<(Stmt, seq<Token>)>)
    ensures r.Some? ==> |r.value.1| < |ts|
  {
    match ReadTable(ts)
    case None => None
    case Some((t, ts1)) =>
      if ts1 == [] || ts1[0] != Word("WHERE") then None
      else match ReadItems(And, ts1[1..])
        case None => None
        case Some((conditions, ts2)) => Some((DeleteStmt(t, conditions), ts2))
  }

  function ReadStmt(ts: seq<Token>): (r: Option<(Stmt, seq<Token>)>)
    ensures r.Some? ==> |r.value.1| < |ts|
  {
    if ts == [] then None
    else if ts[0] == Word("BEGIN") then Some((Begin, ts[1..]))
    else if ts[0] == Word("COMMIT") then Some((Commit, ts[1..]))
    else if [Word("INSERT"), Word("IGNORE"), Word("INTO")] <= ts then ReadInsert(ts[3..])
    else if ts[0] == Word("UPDATE") then ReadUpdate(ts[1..])
    else if [Word("DELETE"), Word("FROM")] <= ts then ReadDelete(ts[2..])
    else None
  }

  /** Statements separated by semicolons. */
  function ReadScript(ts: seq<Token>): Option<seq<Stmt>>
    decreases |ts|
  {
    match ReadStmt(ts)
    case None => None
    case Some((stmt, rest)) =>
      if rest == [] then Some([stmt])
      else if rest[0] != Sym(';') then None
      else match ReadScript(rest[1..])
        case None => None
        case Some(stmts) => Some([stmt] + stmts)
  }

  // ---- reading undoes spelling --------------------------------------------

  function LiteralTokens(l: Literal): seq<Token> {
    match l
    case NullLit => [Word("NULL")]
    case NumberLit(n) => if n < 0 then [Sym('-'), Word(Decimal(-n))] else [Word(Decimal(n))]
    case TextLit(s) => [Str(s)]
    case BinaryLit(s) => [Word("_binary"), Str(s)]
  }

  function ItemTokens(item: Item): seq<Token> {
    match item
    case Column(c) => [Ident(c)]
    case Val(l) => LiteralTokens(l)
    case Binding(c, l) => [Ident(c), Sym('=')] + LiteralTokens(l)
    case IsNull(c) => [Ident(c), Word("IS"), Word("NULL")]
  }

  lemma LiteralTokensOf(l: Literal)
    ensures Tokens(LiteralPieces(l)) == LiteralTokens(l)
  {
    var ps := LiteralPieces(l);
    if |ps| == 1 {
      assert ps[1..] == [];
    } else {
      assert ps[1..][1..] == [];
      assert Tokens(ps[1..]) == [ps[1].token] + Tokens(ps[1..][1..]);
    }
  }

  lemma ItemTokensOf(item: Item)
    ensures Tokens(ItemPieces(item)) == ItemTokens(item)
  {
    match item
    case Column(c) => assert ItemPieces(item)[1..] == [];
    case Val(l) => LiteralTokensOf(l);
    case Binding(c, l) =>
      LiteralTokensOf(l);
      var ps := ItemPieces(item);
      assert ps[1..][1..] == LiteralPieces(l);
    case IsNull(c) =>
      var ps := ItemPieces(item);
      assert ps[1..] == [ps[1], ps[2], ps[3], ps[4]];
      assert ps[2..] == [ps[2], ps[3], ps[4]];
      assert ps[3..] == [ps[3], ps[4]];
      assert ps[4..] == [ps[4]];
      assert Tokens(ps[4..]) == [Word("NULL")] + Tokens(ps[4..][1..]);
      assert ps[4..][1..] == [];
      assert Tokens(ps[3..]) == Tokens(ps[3..][1..]) && ps[3..][1..] == ps[4..];
      assert Tokens(ps[2..]) == [Word("IS")] + Tokens(ps[2..][1..]) && ps[2..][1..] == ps[3..];
      assert Tokens(ps[1..]) == Tokens(ps[1..][1..]) && ps[1..][1..] == ps[2..];
  }

  lemma LiteralRead(l: Literal, rest: seq<Token>)
    ensures ReadLiteral(LiteralTokens(l) + rest) == Some((l, rest))
  {
    match l
    case NullLit => assert ([Word("NULL")] + rest)[1..] == rest;
    case NumberLit(n) => NumberRead(n, rest);
    case TextLit(s) => assert ([Str(s)] + rest)[1..] == rest;
    case BinaryLit(s) => assert ([Word("_binary"), Str(s)] + rest)[2..] == rest;
  }

  lemma NumberRead(n: Integer, rest: seq<Token>)
    ensures ReadLiteral(LiteralTokens(NumberLit(n)) + rest) == Some((NumberLit(n), rest))
  {
    var ts := LiteralTokens(NumberLit(n)) + rest;
    ReadBack(if n < 0 then -n else n);
    assert IsDigit(Decimal(if n < 0 then -n else n)[0]);
    if n < 0 {
      assert ts[2..] == rest;
    } else {
      assert ts[1..] == rest;
    }
  }

  /** The list, or the statement, goes on with something that is not part of an item. */
  predicate Stops(rest: seq<Token>) {
    rest == [] || (rest[0] != Sym('=') && rest[0] != Word("IS"))
  }

  lemma ItemRead(item: Item, rest: seq<Token>)
    requires Stops(rest)
    ensures ReadItem(ItemTokens(item) + rest) == Some((item, rest))
  {
    match item
    case Column(c) => assert ([Ident(c)] + rest)[1..] == rest;
    case Val(l) => ValRead(l, rest);
    case Binding(c, l) => BindingRead(c, l, rest);
    case IsNull(c) => assert ([Ident(c), Word("IS"), Word("NULL")] + rest)[3..] == rest;
  }

  lemma ValRead(l: Literal, rest: seq<Token>)
    ensures ReadItem(LiteralTokens(l) + rest) == Some((Val(l), rest))
  {
    LiteralRead(l, rest);
  }

  lemma BindingRead(c: string, l: Literal, rest: seq<Token>)
    ensures ReadItem([Ident(c), Sym('=')] + LiteralTokens(l) + rest) == Some((Binding(c, l), rest))
  {
    var ts := LiteralTokens(l) + rest;
    LiteralRead(l, rest);
    Regroup3([Ident(c), Sym('=')], LiteralTokens(l), rest);
    assert ([Ident(c), Sym('=')] + ts)[2..] == ts;
  }

  /** Token lists with a separator between them. */
  function Joined(sep: Token, parts: seq<seq<Token>>): seq<Token> {
    if parts == [] then []
    else if |parts| == 1 then parts[0]
    else parts[0] + [sep] + Joined(sep, parts[1..])
  }

  /** The same taken apart from the other end. */
  lemma {:induction false} JoinedBack(sep: Token, parts: seq<seq<Token>>)
    requires |parts| > 1
    ensures var n := |parts| - 1; Joined(sep, parts) == Joined(sep, parts[..n]) + [sep] + parts[n]
    decreases |parts|
  {
    var n := |parts| - 1;
    var init, rest := parts[..n], parts[1..];
    if n > 1 {
      JoinedBack(sep, rest);
      assert rest[..n - 1] == init[1..];
      RegroupBack(parts[0], [sep], Joined(sep, init[1..]), parts[n]);
    } else {
      assert init == [parts[0]] && rest == [parts[1]];
    }
  }

  lemma RegroupBack(a: seq<Token>, b: seq<Token>, c: seq<Token>, d: seq<Token>)
    ensures a + b + (c + b + d) == a + b + c + b + d
  {
  }

  function ItemParts(items: seq<Item>): seq<seq<Token>> {
    seq(|items|, i requires 0 <= i < |items| => ItemTokens(items[i]))
  }

  function ItemsTokens(sep: Separator, items: seq<Item>): seq<Token> {
    Joined(SeparatorToken(sep), ItemParts(items))
  }

  lemma ItemsTokensFirst(sep: Separator, items: seq<Item>)
    requires items != []
    ensures ItemsTokens(sep, items)
         == if |items| == 1 then ItemTokens(items[0])
            else ItemTokens(items[0]) + [SeparatorToken(sep)] + ItemsTokens(sep, items[1..])
  {
    assert ItemParts(items)[1..] == ItemParts(items[1..]);
  }

  lemma SeparatorTokensOf(sep: Separator)
    ensures Tokens(SeparatorPieces(sep)) == [SeparatorToken(sep)]
  {
    var ps := SeparatorPieces(sep);
    match sep
    case Comma => assert ps[1..] == [];
    case And =>
      assert ps[2..][1..] == [] && ps[1..][1..] == ps[2..];
      assert Tokens(ps[2..]) == [];
      assert Tokens(ps[1..]) == [Word("AND")] + Tokens(ps[1..][1..]);
  }

  lemma ItemsTokensBack(sep: Separator, items: seq<Item>)
    requires |items| > 1
    ensures var n := |items| - 1;
            ItemsTokens(sep, items) == ItemsTokens(sep, items[..n]) + [SeparatorToken(sep)] + ItemTokens(items[n])
  {
    JoinedBack(SeparatorToken(sep), ItemParts(items));
    assert ItemParts(items)[..|items| - 1] == ItemParts(items[..|items| - 1]);
  }

  lemma {:induction false} ItemsTokensOf(sep: Separator, items: seq<Item>)
    ensures Tokens(ItemsPieces(sep, items)) == ItemsTokens(sep, items)
  {
    if items != [] {
      var n := |items| - 1;
      ItemTokensOf(items[n]);
      ItemsTokensFirst(sep, items);
      if n > 0 {
        ItemsTokensOf(sep, items[..n]);
        ItemsTokensBack(sep, items);
        SeparatorTokensOf(sep);
        TokensConcat(ItemsPieces(sep, items[..n]), SeparatorPieces(sep));
        TokensConcat(ItemsPieces(sep, items[..n]) + SeparatorPieces(sep), ItemPieces(items[n]));
      }
    }
  }

  lemma Regroup(a: seq<Token>, b: seq<Token>, c: seq<Token>, d: seq<Token>)
    ensures a + b + c + d == a + (b + (c + d))
  {
  }

  lemma ItemThenRead(sep: Separator, item: Item, tail: seq<Token>)
    ensures ReadItems(sep, ItemTokens(item) + ([SeparatorToken(sep)] + tail))
         == match ReadItems(sep, tail)
            case None => None
            case Some((items, rest)) => Some(([item] + items, rest))
  {
    var more := [SeparatorToken(sep)] + tail;
    ItemRead(item, more);
    assert more[1..] == tail;
  }

  /** Reading the tokens `ts`, and then `rest`, gives the items and leaves `rest`. */
  ghost predicate Reads(sep: Separator, ts: seq<Token>, items: seq<Item>, rest: seq<Token>) {
    ReadItems(sep, ts + rest) == Some((items, rest))
  }

  lemma LastItemRead(sep: Separator, items: seq<Item>, ts: seq<Token>, rest: seq<Token>)
    requires |items| == 1 && ts == ItemTokens(items[0])
    requires Stops(rest) && (rest == [] || rest[0] != SeparatorToken(sep))
    ensures Reads(sep, ts, items, rest)
  {
    ItemRead(items[0], rest);
    assert items == [items[0]];
  }

  lemma MoreItemsRead(sep: Separator, items: seq<Item>, ts: seq<Token>, more: seq<Token>, rest: seq<Token>)
    requires |items| > 1 && ts == ItemTokens(items[0]) + [SeparatorToken(sep)] + more
    requires Reads(sep, more, items[1..], rest)
    ensures Reads(sep, ts, items, rest)
  {
    Regroup(ItemTokens(items[0]), [SeparatorToken(sep)], more, rest);
    ItemThenRead(sep, items[0], more + rest);
    assert items == [items[0]] + items[1..];
  }

  lemma {:induction false} ItemsRead(sep: Separator, items: seq<Item>, rest: seq<Token>)
    requires items != [] && Stops(rest) && (rest == [] || rest[0] != SeparatorToken(sep))
    ensures Reads(sep, ItemsTokens(sep, items), items, rest)
    decreases |items|
  {
    var ts := ItemsTokens(sep, items);
    ItemsTokensFirst(sep, items);
    if |items| == 1 {
      LastItemRead(sep, items, ts, rest);
    } else {
      ItemsRead(sep, items[1..], rest);
      MoreItemsRead(sep, items, ts, ItemsTokens(sep, items[1..]), rest);
    }
  }

  // ---- statements ----------------------------------------------------------

  function TableTokens(t: TableName): seq<Token> {
    [Ident(t.schema), Sym('.'), Ident(t.name)]
  }

  function StmtTokens(stmt: Stmt): seq<Token> {
    match stmt
    case Begin => [Word("BEGIN")]
    case Commit => [Word("COMMIT")]
    case InsertStmt(t, columns, values) =>
      [Word("INSERT"), Word("IGNORE"), Word("INTO")] + TableTokens(t) + [Sym('(')] + ItemsTokens(Comma, columns)
      + [Sym(')'), Word("VALUES"), Sym('(')] + ItemsTokens(Comma, values) + [Sym(')')]
    case UpdateStmt(t, sets, conditions) =>
      [Word("UPDATE")] + TableTokens(t) + [Word("SET")] + ItemsTokens(Comma, sets)
      + [Word("WHERE")] + ItemsTokens(And, conditions)
    case DeleteStmt(t, conditions) =>
      [Word("DELETE"), Word("FROM")] + TableTokens(t) + [Word("WHERE")] + ItemsTokens(And, conditions)
  }

  function One(p: Piece): seq<Token> {
    if p.Tok? then [p.token] else []
  }

  lemma Tokens1(p: Piece)
    ensures Tokens([p]) == One(p)
  {
    assert [p][1..] == [];
  }

  lemma Tokens2(p: Piece, q: Piece)
    ensures Tokens([p, q]) == One(p) + One(q)
  {
    Tokens1(q);
    assert [p, q][1..] == [q];
  }

  lemma Tokens3(p: Piece, q: Piece, r: Piece)
    ensures Tokens([p, q, r]) == One(p) + One(q) + One(r)
  {
    Tokens2(q, r);
    assert [p, q, r][1..] == [q, r];
  }

  lemma TableTokensOf(t: TableName)
    ensures Tokens([Name(t.schema), Sign('.'), Name(t.name)]) == TableTokens(t)
  {
    Tokens3(Name(t.schema), Sign('.'), Name(t.name));
  }

  lemma InsertKeywordTokens()
    ensures Tokens([Keyword("INSERT"), Blank(' '), Keyword("IGNORE"), Blank(' '), Keyword("INTO"), Blank(' ')])
         == [Word("INSERT"), Word("IGNORE"), Word("INTO")]
  {
    var a, b, c := [Keyword("INSERT"), Blank(' ')], [Keyword("IGNORE"), Blank(' ')], [Keyword("INTO"), Blank(' ')];
    Tokens2(a[0], a[1]);
    Tokens2(b[0], b[1]);
    Tokens2(c[0], c[1]);
    TokensConcat(a, b);
    TokensConcat(a + b, c);
    assert a + b + c == [Keyword("INSERT"), Blank(' '), Keyword("IGNORE"), Blank(' '), Keyword("INTO"), Blank(' ')];
  }

  lemma InsertHeadTokens(t: TableName)
    ensures Tokens(InsertHead(t)) == [Word("INSERT"), Word("IGNORE"), Word("INTO")] + TableTokens(t) + [Sym('(')]
  {
    var a := [Keyword("INSERT"), Blank(' '), Keyword("IGNORE"), Blank(' '), Keyword("INTO"), Blank(' ')];
    var b, c := [Name(t.schema), Sign('.'), Name(t.name)], [Blank(' '), Sign('(')];
    InsertKeywordTokens();
    TableTokensOf(t);
    Tokens2(c[0], c[1]);
    TokensConcat(a, b);
    TokensConcat(a + b, c);
    assert a + b + c == InsertHead(t);
  }

  lemma UpdateHeadTokens(t: TableName)
    ensures Tokens(UpdateHead(t)) == [Word("UPDATE")] + TableTokens(t) + [Word("SET")]
  {
    var a, b := [Keyword("UPDATE"), Blank(' ')], [Name(t.schema), Sign('.'), Name(t.name)];
    var c := [Blank(' '), Keyword("SET"), Blank(' ')];
    Tokens2(a[0], a[1]);
    TableTokensOf(t);
    Tokens3(c[0], c[1], c[2]);
    TokensConcat(a, b);
    TokensConcat(a + b, c);
    assert a + b + c == UpdateHead(t);
  }

  lemma DeleteHeadTokens(t: TableName)
    ensures Tokens(DeleteHead(t)) == [Word("DELETE"), Word("FROM")] + TableTokens(t)
  {
    var a, b := [Keyword("DELETE"), Blank(' ')], [Keyword("FROM"), Blank(' ')];
    var c := [Name(t.schema), Sign('.'), Name(t.name)];
    Tokens2(a[0], a[1]);
    Tokens2(b[0], b[1]);
    TableTokensOf(t);
    TokensConcat(a, b);
    TokensConcat(a + b, c);
    assert a + b + c == DeleteHead(t);
  }

  lemma InsertMiddleTokens()
    ensures Tokens(InsertMiddle()) == [Sym(')'), Word("VALUES"), Sym('(')]
  {
    var a, b := [Sign(')'), Blank(' '), Keyword("VALUES")], [Blank(' '), Sign('(')];
    Tokens3(a[0], a[1], a[2]);
    Tokens2(b[0], b[1]);
    TokensConcat(a, b);
    assert a + b == InsertMiddle();
  }

  lemma MiddleTokens()
    ensures Tokens(InsertMiddle()) == [Sym(')'), Word("VALUES"), Sym('(')]
    ensures Tokens(Where()) == [Word("WHERE")]
    ensures Tokens([Sign(')')]) == [Sym(')')]
    ensures Tokens([Sign(';'), Blank('\n')]) == [Sym(';')]
  {
    InsertMiddleTokens();
    Tokens3(Blank(' '), Keyword("WHERE"), Blank(' '));
    Tokens1(Sign(')'));
    Tokens2(Sign(';'), Blank('\n'));
  }

  lemma StmtTokensOf(stmt: Stmt)
    ensures Tokens(StmtPieces(stmt)) == StmtTokens(stmt)
  {
    MiddleTokens();
    match stmt
    case Begin => Tokens1(Keyword("BEGIN"));
    case Commit => Tokens1(Keyword("COMMIT"));
    case InsertStmt(t, columns, values) =>
      var a, b, c, d := InsertHead(t), ItemsPieces(Comma, columns), InsertMiddle(), ItemsPieces(Comma, values);
      InsertHeadTokens(t);
      ItemsTokensOf(Comma, columns);
      ItemsTokensOf(Comma, values);
      TokensConcat(a, b);
      TokensConcat(a + b, c);
      TokensConcat(a + b + c, d);
      TokensConcat(a + b + c + d, [Sign(')')]);
    case UpdateStmt(t, sets, conditions) =>
      var a, b, c, d := UpdateHead(t), ItemsPieces(Comma, sets), Where(), ItemsPieces(And, conditions);
      UpdateHeadTokens(t);
      ItemsTokensOf(Comma, sets);
      ItemsTokensOf(And, conditions);
      TokensConcat(a, b);
      TokensConcat(a + b, c);
      TokensConcat(a + b + c, d);
    case DeleteStmt(t, conditions) =>
      var a, c, d := DeleteHead(t), Where(), ItemsPieces(And, conditions);
      DeleteHeadTokens(t);
      ItemsTokensOf(And, conditions);
      TokensConcat(a, c);
      TokensConcat(a + c, d);
  }

  predicate NextStatement(rest: seq<Token>) {
    rest == [] || rest[0] == Sym(';')
  }

  lemma RegroupInsert(a: seq<Token>, b: seq<Token>, c: seq<Token>, d: seq<Token>, e: seq<Token>,
                      f: seq<Token>, g: seq<Token>, h: seq<Token>)
    ensures a + b + c + d + e + f + g + h == a + (b + (c + (d + (e + (f + (g + h))))))
  {
    assert a + b + c + d + e + f + g + h == a + b + c + d + (e + f + g + h);
  }

  lemma TableRead(t: TableName, rest: seq<Token>)
    ensures ReadTable(TableTokens(t) + rest) == Some((t, rest))
  {
    assert (TableTokens(t) + rest)[3..] == rest;
  }

  lemma InsertRead(t: TableName, columns: seq<Item>, values: seq<Item>, rest: seq<Token>)
    requires columns != [] && values != []
    ensures var mid := [Sym(')'), Word("VALUES"), Sym('(')];
            var ts3 := ItemsTokens(Comma, values) + ([Sym(')')] + rest);
            var ts1 := [Sym('(')] + (ItemsTokens(Comma, columns) + (mid + ts3));
            ReadInsert(TableTokens(t) + ts1) == Some((InsertStmt(t, columns, values), rest))
  {
    var mid := [Sym(')'), Word("VALUES"), Sym('(')];
    var ts3 := ItemsTokens(Comma, values) + ([Sym(')')] + rest);
    var ts1 := [Sym('(')] + (ItemsTokens(Comma, columns) + (mid + ts3));
    TableRead(t, ts1);
    assert ts1[1..] == ItemsTokens(Comma, columns) + (mid + ts3);
    ItemsRead(Comma, columns, mid + ts3);
    assert Skip(mid, mid + ts3) == Some(ts3);
    ItemsRead(Comma, values, [Sym(')')] + rest);
    assert ([Sym(')')] + rest)[1..] == rest;
  }

  lemma UpdateRead(t: TableName, sets: seq<Item>, conditions: seq<Item>, rest: seq<Token>)
    requires sets != [] && conditions != [] && NextStatement(rest)
    ensures var ts2 := [Word("WHERE")] + (ItemsTokens(And, conditions) + rest);
            var ts1 := [Word("SET")] + (ItemsTokens(Comma, sets) + ts2);
            ReadUpdate(TableTokens(t) + ts1) == Some((UpdateStmt(t, sets, conditions), rest))
  {
    var ts2 := [Word("WHERE")] + (ItemsTokens(And, conditions) + rest);
    var ts1 := [Word("SET")] + (ItemsTokens(Comma, sets) + ts2);
    TableRead(t, ts1);
    assert ts1[1..] == ItemsTokens(Comma, sets) + ts2;
    ItemsRead(Comma, sets, ts2);
    assert ts2[1..] == ItemsTokens(And, conditions) + rest;
    ItemsRead(And, conditions, rest);
  }

  lemma DeleteRead(t: TableName, conditions: seq<Item>, rest: seq<Token>)
    requires conditions != [] && NextStatement(rest)
    ensures var ts1 := [Word("WHERE")] + (ItemsTokens(And, conditions) + rest);
            ReadDelete(TableTokens(t) + ts1) == Some((DeleteStmt(t, conditions), rest))
  {
    var ts1 := [Word("WHERE")] + (ItemsTokens(And, conditions) + rest);
    TableRead(t, ts1);
    assert ts1[1..] == ItemsTokens(And, conditions) + rest;
    ItemsRead(And, conditions, rest);
  }

  predicate Complete(stmt: Stmt) {
    match stmt
    case Begin => true
    case Commit => true
    case InsertStmt(_, columns, values) => columns != [] && values != []
    case UpdateStmt(_, sets, conditions) => sets != [] && conditions != []
    case DeleteStmt(_, conditions) => conditions != []
  }

  lemma UpdateKeyword(tail: seq<Token>)
    ensures ReadStmt([Word("UPDATE")] + tail) == ReadUpdate(tail)
  {
    var ts := [Word("UPDATE")] + tail;
    assert ts[0].text[0] == 'U' && ts[1..] == tail;
  }

  lemma StmtReadInsert(t: TableName, columns: seq<Item>, values: seq<Item>, rest: seq<Token>)
    requires columns != [] && values != []
    ensures var stmt := InsertStmt(t, columns, values);
            ReadStmt(StmtTokens(stmt) + rest) == Some((stmt, rest))
  {
    var head := [Word("INSERT"), Word("IGNORE"), Word("INTO")];
    var tail := TableTokens(t) + ([Sym('(')] + (ItemsTokens(Comma, columns) + ([Sym(')'), Word("VALUES"), Sym('(')]
                + (ItemsTokens(Comma, values) + ([Sym(')')] + rest)))));
    RegroupInsert(head, TableTokens(t), [Sym('(')], ItemsTokens(Comma, columns),
                  [Sym(')'), Word("VALUES"), Sym('(')], ItemsTokens(Comma, values), [Sym(')')], rest);
    InsertRead(t, columns, values, rest);
    InsertKeywords(tail);
  }

  lemma InsertKeywords(tail: seq<Token>)
    ensures ReadStmt([Word("INSERT"), Word("IGNORE"), Word("INTO")] + tail) == ReadInsert(tail)
  {
    var ts := [Word("INSERT"), Word("IGNORE"), Word("INTO")] + tail;
    assert ts[0].text[0] == 'I' && ts[3..] == tail;
  }

  lemma StmtReadUpdate(t: TableName, sets: seq<Item>, conditions: seq<Item>, rest: seq<Token>)
    requires sets != [] && conditions != [] && NextStatement(rest)
    ensures var stmt := UpdateStmt(t, sets, conditions);
            ReadStmt(StmtTokens(stmt) + rest) == Some((stmt, rest))
  {
    var head := [Word("UPDATE")];
    var tail := TableTokens(t) + ([Word("SET")] + (ItemsTokens(Comma, sets)
                + ([Word("WHERE")] + (ItemsTokens(And, conditions) + rest))));
    RegroupUpdate(head, TableTokens(t), [Word("SET")], ItemsTokens(Comma, sets),
                  [Word("WHERE")], ItemsTokens(And, conditions), rest);
    UpdateRead(t, sets, conditions, rest);
    UpdateKeyword(tail);
  }

  lemma StmtReadDelete(t: TableName, conditions: seq<Item>, rest: seq<Token>)
    requires conditions != [] && NextStatement(rest)
    ensures var stmt := DeleteStmt(t, conditions);
            ReadStmt(StmtTokens(stmt) + rest) == Some((stmt, rest))
  {
    var head := [Word("DELETE"), Word("FROM")];
    var tail := TableTokens(t) + ([Word("WHERE")] + (ItemsTokens(And, conditions) + rest));
    Regroup5(head, TableTokens(t), [Word("WHERE")], ItemsTokens(And, conditions), rest);
    DeleteRead(t, conditions, rest);
    DeleteKeywords(tail);
  }

  lemma DeleteKeywords(tail: seq<Token>)
    ensures ReadStmt([Word("DELETE"), Word("FROM")] + tail) == ReadDelete(tail)
  {
    var ts := [Word("DELETE"), Word("FROM")] + tail;
    assert ts[0].text[0] == 'D' && ts[2..] == tail;
  }

  lemma StmtRead(stmt: Stmt, rest: seq<Token>)
    requires Complete(stmt) && NextStatement(rest)
    ensures ReadStmt(StmtTokens(stmt) + rest) == Some((stmt, rest))
  {
    match stmt
    case Begin => assert (StmtTokens(stmt) + rest)[1..] == rest;
    case Commit => assert (StmtTokens(stmt) + rest)[1..] == rest;
    case InsertStmt(t, columns, values) => StmtReadInsert(t, columns, values, rest);
    case UpdateStmt(t, sets, conditions) => StmtReadUpdate(t, sets, conditions, rest);
    case DeleteStmt(t, conditions) => StmtReadDelete(t, conditions, rest);
  }

  lemma RegroupUpdate(a: seq<Token>, b: seq<Token>, c: seq<Token>, d: seq<Token>, e: seq<Token>,
                      f: seq<Token>, g: seq<Token>)
    ensures a + b + c + d + e + f + g == a + (b + (c + (d + (e + (f + g)))))
  {
    assert a + b + c + d + e + f + g == a + b + c + (d + e + f + g);
  }

  lemma Regroup5(a: seq<Token>, b: seq<Token>, c: seq<Token>, d: seq<Token>, e: seq<Token>)
    ensures a + b + c + d + e == a + (b + (c + (d + e)))
  {
  }

  // ---- scripts -------------------------------------------------------------

  function StmtParts(stmts: seq<Stmt>): seq<seq<Token>> {
    seq(|stmts|, i requires 0 <= i < |stmts| => StmtTokens(stmts[i]))
  }

  function ScriptTokens(stmts: seq<Stmt>): seq<Token> {
    Joined(Sym(';'), StmtParts(stmts))
  }

  lemma ScriptTokensFirst(stmts: seq<Stmt>)
    requires stmts != []
    ensures ScriptTokens(stmts)
         == if |stmts| == 1 then StmtTokens(stmts[0])
            else StmtTokens(stmts[0]) + ([Sym(';')] + ScriptTokens(stmts[1..]))
  {
    var parts := StmtParts(stmts);
    assert parts[1..] == StmtParts(stmts[1..]);
    if |stmts| > 1 {
      Regroup3(parts[0], [Sym(';')], Joined(Sym(';'), parts[1..]));
    }
  }

  lemma ScriptTokensBack(stmts: seq<Stmt>)
    requires |stmts| > 1
    ensures var n := |stmts| - 1;
            ScriptTokens(stmts) == ScriptTokens(stmts[..n]) + [Sym(';')] + StmtTokens(stmts[n])
  {
    JoinedBack(Sym(';'), StmtParts(stmts));
    assert StmtParts(stmts)[..|stmts| - 1] == StmtParts(stmts[..|stmts| - 1]);
  }

  lemma {:induction false} ScriptTokensOf(stmts: seq<Stmt>)
    ensures Tokens(ScriptPieces(stmts)) == ScriptTokens(stmts)
  {
    if stmts != [] {
      var n := |stmts| - 1;
      StmtTokensOf(stmts[n]);
      ScriptTokensFirst(stmts);
      if n > 0 {
        ScriptTokensOf(stmts[..n]);
        ScriptTokensBack(stmts);
        MiddleTokens();
        TokensConcat(ScriptPieces(stmts[..n]), [Sign(';'), Blank('\n')]);
        TokensConcat(ScriptPieces(stmts[..n]) + [Sign(';'), Blank('\n')], StmtPieces(stmts[n]));
      }
    }
  }

  lemma {:induction false} ScriptRead(stmts: seq<Stmt>)
    requires stmts != [] && forall i :: 0 <= i < |stmts| ==> Complete(stmts[i])
    ensures ReadScript(ScriptTokens(stmts)) == Some(stmts)
    decreases |stmts|
  {
    ScriptTokensFirst(stmts);
    if |stmts| == 1 {
      LastStmtRead(stmts[0]);
      assert stmts == [stmts[0]];
    } else {
      ScriptRead(stmts[1..]);
      ScriptThenRead(stmts[0], ScriptTokens(stmts[1..]), stmts[1..]);
      assert stmts == [stmts[0]] + stmts[1..];
    }
  }

  lemma LastStmtRead(stmt: Stmt)
    requires Complete(stmt)
    ensures ReadScript(StmtTokens(stmt)) == Some([stmt])
  {
    StmtRead(stmt, []);
    assert StmtTokens(stmt) + [] == StmtTokens(stmt);
  }

  lemma Regroup3(a: seq<Token>, b: seq<Token>, c: seq<Token>)
    ensures a + b + c == a + (b + c)
  {
  }

  lemma ScriptThenRead(stmt: Stmt, tail: seq<Token>, rest: seq<Stmt>)
    requires Complete(stmt) && ReadScript(tail) == Some(rest)
    ensures ReadScript(StmtTokens(stmt) + ([Sym(';')] + tail)) == Some([stmt] + rest)
  {
    StmtRead(stmt, [Sym(';')] + tail);
    assert ([Sym(';')] + tail)[1..] == tail;
  }

  /** Lexing and parsing the text of a script. */
  function ReadText(text: string): Option<seq<Stmt>> {
    match Lex(text)
    case None => None
    case Some(ts) => ReadScript(ts)
  }

  /**
   Whatever bytes the values hold - quotes, semicolons, newlines, comment signs - the
   server reads back exactly the statements that were spelled.
   */
  lemma ScriptRoundTrip(stmts: seq<Stmt>)
    requires stmts != [] && PlainScript(stmts)
    ensures ReadText(Text(ScriptPieces(stmts))) == Some(stmts)
  {
    ScriptSpaced(stmts);
    LexText(ScriptPieces(stmts));
    ScriptTokensOf(stmts);
    ScriptRead(stmts);
  }
}
