/**
 The lexical layer of the SQL text: how tokens are spelled, and how a server in
 NO_BACKSLASH_ESCAPES mode reads them back (MySQL 5.7 Reference Manual, sections 9.1.1
 "String Literals" and 9.2 "Schema Object Names": inside quotes, two quotes stand for one).
 */
module Lexer {
  import opened Rows

  datatype Token = Word(text: string) | Ident(name: string) | Str(content: string) | Sym(symbol: char)

  /** What a statement is built from: tokens, and blanks or newlines between them. */
  datatype Piece = Tok(token: Token) | Blank(blank: char)

  predicate WordChar(c: char) {
    'a' <= c <= 'z' || 'A' <= c <= 'Z' || '0' <= c <= '9' || c == '_'
  }

  predicate SymbolChar(c: char) {
    c in {',', '(', ')', '.', '=', ';', '-', '?'}
  }

  predicate BlankChar(c: char) {
    c == ' ' || c == '\n'
  }

  // ---- spelling ------------------------------------------------------------

  /** Every quote inside is written twice. */
  function Doubled(q: char, s: string): string {
    if s == "" then "" else (if s[0] == q then [q, q] else [s[0]]) + Doubled(q, s[1..])
  }

  function Spell(p: Piece): string {
    match p
    case Blank(c) => [c]
    case Tok(Word(w)) => w
    case Tok(Ident(n)) => "`" + n + "`"
    case Tok(Str(s)) => "'" + Doubled('\'', s) + "'"
    case Tok(Sym(c)) => [c]
  }

  function Text(ps: seq<Piece>): string {
    if ps == [] then "" else Spell(ps[0]) + Text(ps[1..])
  }

  function Tokens(ps: seq<Piece>): seq<Token> {
    if ps == [] then []
    else if ps[0].Tok? then [ps[0].token] + Tokens(ps[1..])
    else Tokens(ps[1..])
  }

  /** Identifiers are spelled without doubling, so they must not contain a backtick. */
  predicate Spellable(p: Piece) {
    match p
    case Blank(c) => BlankChar(c)
    case Tok(Word(w)) => w != "" && forall c :: c in w ==> WordChar(c)
    case Tok(Ident(n)) => '`' !in n
    case Tok(Str(s)) => true
    case Tok(Sym(c)) => SymbolChar(c)
  }

  /** Two words, two strings or two identifiers side by side would be read as one. */
  predicate MayFollow(p: Piece, q: Piece) {
    p.Tok? && q.Tok? ==>
      && !(p.token.Word? && q.token.Word?)
      && !(p.token.Str? && q.token.Str?)
      && !(p.token.Ident? && q.token.Ident?)
  }

  predicate WellSpaced(ps: seq<Piece>) {
    && (forall i :: 0 <= i < |ps| ==> Spellable(ps[i]))
    && (forall i :: 0 <= i < |ps| - 1 ==> MayFollow(ps[i], ps[i + 1]))
  }

  // ---- reading -------------------------------------------------------------

  /** The content up to the closing quote, and what follows it. */
  function ScanQuoted(q: char, s: string): Option<(string, string)> {
    if s == "" then None
    else if s[0] != q then
      match ScanQuoted(q, s[1..])
      case None => None
      case Some((content, rest)) => Some(([s[0]] + content, rest))
    else if |s| > 1 && s[1] == q then
      match ScanQuoted(q, s[2..])
      case None => None
      case Some((content, rest)) => Some(([q] + content, rest))
    else Some(("", s[1..]))
  }

  lemma {:induction false} ScanShrinks(q: char, s: string)
    ensures var r := ScanQuoted(q, s);
            r.Some? ==>
              && |r.value.0| + |r.value.1| < |s|
              && (|r.value.0| + |r.value.1| + 1 == |s| ==> q !in r.value.0)
  {
    if s != "" {
      if s[0] != q {
        ScanShrinks(q, s[1..]);
      } else if |s| > 1 && s[1] == q {
        ScanShrinks(q, s[2..]);
      }
    }
  }

  /** The longest word at the start. */
  function WordLength(s: string): (n: nat)
    ensures n <= |s|
  {
    if s == "" || !WordChar(s[0]) then 0 else 1 + WordLength(s[1..])
  }

  function Prepend(t: Token, rest: Option<seq<Token>>): Option<seq<Token>> {
    if rest.Some? then Some([t] + rest.value) else None
  }

  function Lex(s: string): Option<seq<Token>>
    decreases |s|
  {
    if s == "" then Some([])
    else if BlankChar(s[0]) then Lex(s[1..])
    else if s[0] == '\'' || s[0] == '`' then
      ScanShrinks(s[0], s[1..]);
      match ScanQuoted(s[0], s[1..])
      case None => None
      case Some((content, rest)) => Prepend(if s[0] == '`' then Ident(content) else Str(content), Lex(rest))
    else if WordChar(s[0]) then
      var n := WordLength(s);
      Prepend(Word(s[..n]), Lex(s[n..]))
    else if SymbolChar(s[0]) then Prepend(Sym(s[0]), Lex(s[1..]))
    else None
  }

  // ---- reading undoes spelling --------------------------------------------

  lemma {:induction false} ScanDoubled(q: char, s: string, rest: string)
    requires rest == "" || rest[0] != q
    ensures ScanQuoted(q, Doubled(q, s) + [q] + rest) == Some((s, rest))
  {
    var all := Doubled(q, s) + [q] + rest;
    if s == "" {
      assert all[1..] == rest;
    } else {
      ScanDoubled(q, s[1..], rest);
      var tail := Doubled(q, s[1..]) + [q] + rest;
      assert all == (if s[0] == q then [q, q] else [s[0]]) + tail;
      assert s == [s[0]] + s[1..];
      if s[0] == q {
        assert all[2..] == tail;
      } else {
        assert all[1..] == tail;
      }
    }
  }

  lemma {:induction false} DoubledAbsent(q: char, s: string)
    requires q !in s
    ensures Doubled(q, s) == s
  {
    if s != "" {
      DoubledAbsent(q, s[1..]);
    }
  }

  lemma {:induction false} WordLengthOf(w: string, rest: string)
    requires forall c :: c in w ==> WordChar(c)
    requires rest == "" || !WordChar(rest[0])
    ensures WordLength(w + rest) == |w|
  {
    if w == "" {
      assert w + rest == rest;
    } else {
      assert (w + rest)[1..] == w[1..] + rest;
      WordLengthOf(w[1..], rest);
    }
  }

  /** The rest of the text cannot be mistaken for a continuation of `p`. */
  predicate Ends(p: Piece, rest: string) {
    rest == "" ||
    match p
    case Tok(Word(_)) => !WordChar(rest[0])
    case Tok(Str(_)) => rest[0] != '\''
    case Tok(Ident(_)) => rest[0] != '`'
    case _ => true
  }

  lemma LexWord(w: string, rest: string)
    requires w != "" && (forall c :: c in w ==> WordChar(c)) && (rest == "" || !WordChar(rest[0]))
    ensures Lex(w + rest) == Prepend(Word(w), Lex(rest))
  {
    var s := w + rest;
    WordLengthOf(w, rest);
    assert s[0] == w[0] && w[0] in w;
    assert s[..|w|] == w && s[|w|..] == rest;
  }

  lemma LexQuoted(q: char, content: string, rest: string)
    requires q == '\'' || q == '`'
    requires rest == "" || rest[0] != q
    ensures Lex([q] + Doubled(q, content) + [q] + rest)
         == Prepend(if q == '`' then Ident(content) else Str(content), Lex(rest))
  {
    ScanDoubled(q, content, rest);
    Reassociate([q], Doubled(q, content), [q], rest);
    LexAfterQuote(q, Doubled(q, content) + [q] + rest, content, rest);
  }

  lemma Reassociate(a: string, b: string, c: string, d: string)
    ensures a + b + c + d == a + (b + c + d)
  {
  }

  lemma LexAfterQuote(q: char, tail: string, content: string, rest: string)
    requires q == '\'' || q == '`'
    requires ScanQuoted(q, tail) == Some((content, rest))
    ensures Lex([q] + tail) == Prepend(if q == '`' then Ident(content) else Str(content), Lex(rest))
  {
    assert ([q] + tail)[1..] == tail;
  }

  lemma LexPiece(p: Piece, rest: string)
    requires Spellable(p) && Ends(p, rest)
    ensures Lex(Spell(p) + rest) == if p.Tok? then Prepend(p.token, Lex(rest)) else Lex(rest)
  {
    match p
    case Blank(c) => assert ([c] + rest)[1..] == rest;
    case Tok(Sym(c)) => assert ([c] + rest)[1..] == rest;
    case Tok(Word(w)) => LexWord(w, rest);
    case Tok(Str(c)) => LexQuoted('\'', c, rest);
    case Tok(Ident(n)) =>
      DoubledAbsent('`', n);
      LexQuoted('`', n, rest);
  }

  lemma FirstChar(p: Piece)
    requires Spellable(p)
    ensures Spell(p) != ""
    ensures var c := Spell(p)[0];
            match p
            case Blank(_) => BlankChar(c)
            case Tok(Word(_)) => WordChar(c)
            case Tok(Str(_)) => c == '\''
            case Tok(Ident(_)) => c == '`'
            case Tok(Sym(_)) => SymbolChar(c)
  {
    if p.Tok? && p.token.Word? {
      assert p.token.text[0] in p.token.text;
    }
  }

  lemma PieceEnds(ps: seq<Piece>)
    requires WellSpaced(ps) && ps != []
    ensures Ends(ps[0], Text(ps[1..]))
  {
    if |ps| > 1 {
      assert MayFollow(ps[0], ps[1]) && Spellable(ps[1]);
      FirstChar(ps[1]);
      assert Text(ps[1..]) == Spell(ps[1]) + Text(ps[1..][1..]);
    }
  }

  /** Whatever well-spaced pieces say, the reader sees exactly their tokens. */
  lemma {:induction false} LexText(ps: seq<Piece>)
    requires WellSpaced(ps)
    ensures Lex(Text(ps)) == Some(Tokens(ps))
    decreases |ps|
  {
    if ps != [] {
      assert WellSpaced(ps[1..]) by {
        forall i | 0 <= i < |ps[1..]| - 1 ensures MayFollow(ps[1..][i], ps[1..][i + 1]) {
          assert MayFollow(ps[i + 1], ps[i + 2]);
        }
      }
      LexText(ps[1..]);
      PieceEnds(ps);
      LexPiece(ps[0], Text(ps[1..]));
    }
  }

  /** An identifier comes back as it was exactly if it contains no backtick. */
  lemma IdentifierRecovered(name: string)
    ensures Lex(Spell(Tok(Ident(name)))) == Some([Ident(name)]) <==> '`' !in name
  {
    var s := Spell(Tok(Ident(name)));
    if '`' !in name {
      LexPiece(Tok(Ident(name)), "");
      assert s + "" == s && [Ident(name)] + [] == [Ident(name)];
    } else {
      assert s[1..] == name + "`";
      ScanShrinks('`', s[1..]);
      var r := ScanQuoted('`', s[1..]);
      assert r.Some? ==> r.value.0 != name;
      assert Lex(s).Some? ==> Lex(s).value[0] == Ident(r.value.0);
    }
  }

  // ---- joining -------------------------------------------------------------

  lemma {:induction false} TextConcat(a: seq<Piece>, b: seq<Piece>)
    ensures Text(a + b) == Text(a) + Text(b)
    decreases |a|
  {
    if a == [] {
      assert a + b == b;
    } else {
      assert (a + b)[1..] == a[1..] + b;
      TextConcat(a[1..], b);
    }
  }

  lemma {:induction false} TokensConcat(a: seq<Piece>, b: seq<Piece>)
    ensures Tokens(a + b) == Tokens(a) + Tokens(b)
    decreases |a|
  {
    if a == [] {
      assert a + b == b;
    } else {
      var ab := a + b;
      assert ab[1..] == a[1..] + b && ab[0] == a[0];
      TokensConcat(a[1..], b);
      if a[0].Tok? {
        assert [a[0].token] + (Tokens(a[1..]) + Tokens(b)) == Tokens(a) + Tokens(b);
      }
    }
  }

  lemma WellSpacedConcat(a: seq<Piece>, b: seq<Piece>)
    requires WellSpaced(a) && WellSpaced(b)
    requires a != [] && b != [] ==> MayFollow(a[|a| - 1], b[0])
    ensures WellSpaced(a + b)
  {
    forall i | 0 <= i < |a + b| - 1 ensures MayFollow((a + b)[i], (a + b)[i + 1]) {
      if i < |a| - 1 {
        assert MayFollow(a[i], a[i + 1]);
      } else if i >= |a| {
        assert MayFollow(b[i - |a|], b[i - |a| + 1]);
      }
    }
  }
}
