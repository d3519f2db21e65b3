/**
  What blanking comments and string contents means: every text is a row of comments, literals and
  other characters, and of those the contents of comments and literals are blanked.
 */
module StripMeaning {
  import opened Collections
  import opened StripNoise

  /** A character of a literal, or an escaped one with its backslash. */
  datatype Piece = Plain(c: char) | Escaped(c: char)

  datatype Token =
    | Bare(c: char)
    | BlockComment(body: string)
    | LineComment(body: string)                 // without its line end
    | Literal(q: char, inside: seq<Piece>)

  /** What stands unfinished at the end of the text. */
  datatype Tail = NoTail | OpenComment(body: string) | OpenLiteral(q: char, inside: seq<Piece>, slash: bool)

  // ---------------------------------------------------------------- the text, and what it becomes

  function PieceText(p: Piece): string {
    match p
    case Plain(c) => [c]
    case Escaped(c) => ['\\', c]
  }

  function PiecesText(ps: seq<Piece>): string {
    if ps == [] then []
    else PieceText(ps[0]) + PiecesText(ps[1..])
  }

  function TokenText(t: Token): string {
    match t
    case Bare(c) => [c]
    case BlockComment(body) => "/*" + (body + "*/")
    case LineComment(body) => "//" + body
    case Literal(q, inside) => [q] + (PiecesText(inside) + [q])
  }

  function TailText(tail: Tail): string {
    match tail
    case NoTail => []
    case OpenComment(body) => "/*" + body
    case OpenLiteral(q, inside, slash) => [q] + (PiecesText(inside) + if slash then "\\" else [])
  }

  function Text(ts: seq<Token>, tail: Tail): string {
    if ts == [] then TailText(tail) else TokenText(ts[0]) + Text(ts[1..], tail)
  }

  /** Line ends stay, every other character becomes a blank. */
  function Blanked(s: string): string {
    if s == [] then [] else [if s[0] == '\n' then '\n' else ' '] + Blanked(s[1..])
  }

  /** Escaped characters stay. */
  function PieceLeft(p: Piece): string {
    match p
    case Plain(c) => [if c == '\n' then '\n' else ' ']
    case Escaped(c) => ['\\', c]
  }

  function PiecesLeft(ps: seq<Piece>): string {
    if ps == [] then []
    else PieceLeft(ps[0]) + PiecesLeft(ps[1..])
  }

  function TokenLeft(t: Token): string {
    match t
    case Bare(c) => [c]
    case BlockComment(body) => "  " + (Blanked(body) + "  ")
    case LineComment(body) => "  " + Blanked(body)
    case Literal(q, inside) => [q] + (PiecesLeft(inside) + [q])
  }

  function TailLeft(tail: Tail): string {
    match tail
    case NoTail => []
    case OpenComment(body) => "  " + Blanked(body)
    case OpenLiteral(q, inside, slash) => [q] + (PiecesLeft(inside) + if slash then "\\" else [])
  }

  function Left(ts: seq<Token>, tail: Tail): string {
    if ts == [] then TailLeft(tail) else TokenLeft(ts[0]) + Left(ts[1..], tail)
  }

  // ---------------------------------------------------------------- what tokens are

  predicate EndsComment(s: string) {
    exists i :: 0 <= i < |s| - 1 && s[i] == '*' && s[i + 1] == '/'
  }

  predicate IsQuote(c: char) {
    c == '"' || c == '\''
  }

  predicate PiecesOk(q: char, ps: seq<Piece>) {
    forall i | 0 <= i < |ps| :: ps[i].Plain? ==> ps[i].c != '\\' && ps[i].c != q
  }

  /** The token is one before this text. */
  predicate TokenOk(t: Token, rest: string) {
    match t
    case Bare(c) => !IsQuote(c) && !(c == '/' && rest != [] && (rest[0] == '/' || rest[0] == '*'))
    case BlockComment(body) => !EndsComment(body)
    case LineComment(body) => '\n' !in body && (rest == [] || rest[0] == '\n')
    case Literal(q, inside) => IsQuote(q) && PiecesOk(q, inside)
  }

  predicate TailOk(tail: Tail) {
    match tail
    case NoTail => true
    case OpenComment(body) => !EndsComment(body)
    case OpenLiteral(q, inside, _) => IsQuote(q) && PiecesOk(q, inside)
  }

  predicate Tokens(ts: seq<Token>, tail: Tail) {
    if ts == [] then TailOk(tail) else TokenOk(ts[0], Text(ts[1..], tail)) && Tokens(ts[1..], tail)
  }

  // ---------------------------------------------------------------- what the modes do

  lemma {:induction false} OneTurn(s: string, m: Mode, n: nat, t: string, m': Mode, rest: string)
    requires s != [] && Turn(s, m) == (n, t, m') && s[n..] == rest
    ensures Strip(s, m) == t + Strip(rest, m')
  {
  }

  lemma {:induction false} StripBlock(body: string, rest: string)
    requires !EndsComment(body)
    ensures Strip(body + ("*/" + rest), Block) == Blanked(body) + ("  " + Strip(rest, Code))
  {
    var s := body + ("*/" + rest);
    if body == [] {
      assert s == "*/" + rest && s[2..] == rest;
      OneTurn(s, Block, 2, "  ", Code, rest);
      assert [] + ("  " + Strip(rest, Code)) == "  " + Strip(rest, Code);
    } else {
      assert s[1..] == body[1..] + ("*/" + rest) && s[0] == body[0];
      assert |body| > 1 ==> s[1] == body[1];
      assert !EndsComment(body[1..]) by {
        forall i | 0 <= i < |body[1..]| - 1 ensures !(body[1..][i] == '*' && body[1..][i + 1] == '/') {
          assert body[1..][i] == body[i + 1] && body[1..][i + 1] == body[i + 2];
        }
      }
      StripBlock(body[1..], rest);
      OneTurn(s, Block, 1, [Blank(body[0])], Block, s[1..]);
      Assoc([Blank(body[0])], Blanked(body[1..]), "  " + Strip(rest, Code));
    }
  }

  lemma {:induction false} StripOpenBlock(body: string)
    requires !EndsComment(body)
    ensures Strip(body, Block) == Blanked(body)
  {
    if body != [] {
      assert !EndsComment(body[1..]) by {
        forall i | 0 <= i < |body[1..]| - 1 ensures !(body[1..][i] == '*' && body[1..][i + 1] == '/') {
          assert body[1..][i] == body[i + 1] && body[1..][i + 1] == body[i + 2];
        }
      }
      StripOpenBlock(body[1..]);
      OneTurn(body, Block, 1, [Blank(body[0])], Block, body[1..]);
    }
  }

  lemma {:induction false} StripLine(body: string, rest: string)
    requires '\n' !in body && (rest == [] || rest[0] == '\n')
    ensures Strip(body + rest, Line) == Blanked(body) + Strip(rest, Code)
  {
    var s := body + rest;
    if body == [] {
      assert s == rest && [] + Strip(rest, Code) == Strip(rest, Code);
      if rest != [] {
        OneTurn(rest, Line, 1, "\n", Code, rest[1..]);
        OneTurn(rest, Code, 1, "\n", Code, rest[1..]);
      }
    } else {
      assert s[1..] == body[1..] + rest && s[0] == body[0] && body[0] in body;
      StripLine(body[1..], rest);
      OneTurn(s, Line, 1, " ", Line, s[1..]);
      Assoc(" ", Blanked(body[1..]), Strip(rest, Code));
    }
  }

  lemma {:induction false} StripPlain(q: char, c: char, later: string)
    requires IsQuote(q) && c != '\\' && c != q
    ensures Strip([c] + later, Quote(q)) == [Blank(c)] + Strip(later, Quote(q))
  {
    assert ([c] + later)[1..] == later;
    OneTurn([c] + later, Quote(q), 1, [Blank(c)], Quote(q), later);
  }

  lemma {:induction false} StripEscaped(q: char, c: char, later: string)
    requires IsQuote(q)
    ensures Strip(['\\', c] + later, Quote(q)) == ['\\', c] + Strip(later, Quote(q))
  {
    var s := ['\\', c] + later;
    assert s[2..] == later && s[..2] == ['\\', c];
    OneTurn(s, Quote(q), 2, ['\\', c], Quote(q), later);
  }

  lemma {:induction false} StripPiece(q: char, p: Piece, later: string)
    requires IsQuote(q) && PiecesOk(q, [p])
    ensures Strip(PieceText(p) + later, Quote(q)) == PieceLeft(p) + Strip(later, Quote(q))
  {
    assert [p][0] == p;
    match p
    case Plain(c) => StripPlain(q, c, later);
    case Escaped(c) => StripEscaped(q, c, later);
  }

  lemma {:induction false} StripPieces(q: char, ps: seq<Piece>, rest: string)
    requires IsQuote(q) && PiecesOk(q, ps)
    ensures Strip(PiecesText(ps) + rest, Quote(q)) == PiecesLeft(ps) + Strip(rest, Quote(q))
  {
    if ps == [] {
      assert [] + rest == rest && [] + Strip(rest, Quote(q)) == Strip(rest, Quote(q));
    } else {
      StripPieces(q, ps[1..], rest);
      StripPiece(q, ps[0], PiecesText(ps[1..]) + rest);
      Assoc(PieceText(ps[0]), PiecesText(ps[1..]), rest);
      Assoc(PieceLeft(ps[0]), PiecesLeft(ps[1..]), Strip(rest, Quote(q)));
    }
  }

  // ---------------------------------------------------------------- what each token becomes

  lemma {:induction false} StripBare(c: char, rest: string)
    requires TokenOk(Bare(c), rest)
    ensures Strip([c] + rest, Code) == [c] + Strip(rest, Code)
  {
    var s := [c] + rest;
    assert s[1..] == rest && (rest != [] ==> s[1] == rest[0]);
    OneTurn(s, Code, 1, [c], Code, rest);
  }

  lemma {:induction false} StripBlockComment(body: string, rest: string)
    requires !EndsComment(body)
    ensures Strip(("/*" + (body + "*/")) + rest, Code) == ("  " + (Blanked(body) + "  ")) + Strip(rest, Code)
  {
    var inner := body + ("*/" + rest);
    var s := "/*" + inner;
    assert s == ("/*" + (body + "*/")) + rest && s[2..] == inner;
    OneTurn(s, Code, 2, "  ", Block, inner);
    StripBlock(body, rest);
    Around("  ", Blanked(body), "  ", Strip(rest, Code));
  }

  lemma {:induction false} Around(a: string, b: string, c: string, d: string)
    ensures a + (b + (c + d)) == (a + (b + c)) + d
  {
  }

  lemma {:induction false} StripLineComment(body: string, rest: string)
    requires TokenOk(LineComment(body), rest)
    ensures Strip(("//" + body) + rest, Code) == ("  " + Blanked(body)) + Strip(rest, Code)
  {
    var s := "//" + (body + rest);
    assert s == ("//" + body) + rest && s[2..] == body + rest;
    OneTurn(s, Code, 2, "  ", Line, body + rest);
    StripLine(body, rest);
    Assoc("  ", Blanked(body), Strip(rest, Code));
  }

  lemma {:induction false} StripToken(t: Token, rest: string)
    requires TokenOk(t, rest)
    ensures Strip(TokenText(t) + rest, Code) == TokenLeft(t) + Strip(rest, Code)
  {
    match t
    case Bare(c) => StripBare(c, rest);
    case BlockComment(body) => StripBlockComment(body, rest);
    case LineComment(body) => StripLineComment(body, rest);
    case Literal(q, inside) => StripLiteral(q, inside, rest);
  }

  lemma {:induction false} StripLiteral(q: char, inside: seq<Piece>, rest: string)
    requires IsQuote(q) && PiecesOk(q, inside)
    ensures Strip(([q] + (PiecesText(inside) + [q])) + rest, Code)
         == ([q] + (PiecesLeft(inside) + [q])) + Strip(rest, Code)
  {
    var last := [q] + rest;
    var inner := PiecesText(inside) + last;
    var s := ([q] + (PiecesText(inside) + [q])) + rest;
    Around([q], PiecesText(inside), [q], rest);
    assert s[1..] == inner;
    OneTurn(s, Code, 1, [q], Quote(q), inner);
    StripPieces(q, inside, last);
    assert last[1..] == rest;
    OneTurn(last, Quote(q), 1, [q], Code, rest);
    Around([q], PiecesLeft(inside), [q], Strip(rest, Code));
  }

  lemma {:induction false} StripTail(tail: Tail)
    requires TailOk(tail)
    ensures Strip(TailText(tail), Code) == TailLeft(tail)
  {
    var s := TailText(tail);
    match tail
    case NoTail =>
    case OpenComment(body) =>
      assert s[2..] == body;
      OneTurn(s, Code, 2, "  ", Block, body);
      StripOpenBlock(body);
    case OpenLiteral(q, inside, slash) =>
      var end := if slash then "\\" else [];
      assert s[1..] == PiecesText(inside) + end;
      OneTurn(s, Code, 1, [q], Quote(q), PiecesText(inside) + end);
      StripPieces(q, inside, end);
      if slash {
        assert end[1..] == [];
        OneTurn(end, Quote(q), 1, end, Quote(q), []);
        assert end + [] == end;
      }
  }

  /** Of a text, the contents of comments and literals are blanked, escaped characters and line ends
      apart, with the marks of comments but not the quotes, and everything else stays. */
  lemma {:induction false} StripMeans(ts: seq<Token>, tail: Tail)
    requires Tokens(ts, tail)
    ensures Strip(Text(ts, tail), Code) == Left(ts, tail)
  {
    if ts == [] {
      StripTail(tail);
    } else {
      StripMeans(ts[1..], tail);
      StripToken(ts[0], Text(ts[1..], tail));
    }
  }

  // ---------------------------------------------------------------- every text has tokens

  lemma {:induction false} LexBlock(s: string) returns (body: string, closed: bool, rest: string)
    ensures !EndsComment(body) && s == if closed then body + ("*/" + rest) else body
    ensures |rest| <= |s|
  {
    if |s| >= 2 && s[0] == '*' && s[1] == '/' {
      body, closed, rest := [], true, s[2..];
      assert s == [] + ("*/" + rest);
    } else if s == [] {
      body, closed, rest := [], false, [];
    } else {
      var b: string;
      b, closed, rest := LexBlock(s[1..]);
      body := [s[0]] + b;
      assert s == [s[0]] + s[1..];
      assert b != [] ==> s[1] == b[0];
      forall i | 0 <= i < |body| - 1 ensures !(body[i] == '*' && body[i + 1] == '/') {
        if i > 0 {
          assert body[i] == b[i - 1] && body[i + 1] == b[i];
        }
      }
    }
  }

  lemma {:induction false} LexLine(s: string) returns (body: string, rest: string)
    ensures s == body + rest && '\n' !in body && (rest == [] || rest[0] == '\n')
  {
    if s == [] || s[0] == '\n' {
      body, rest := [], s;
    } else {
      var b: string;
      b, rest := LexLine(s[1..]);
      body := [s[0]] + b;
      assert s == [s[0]] + s[1..];
    }
  }

  datatype LiteralEnd = Closed | Cut | CutAtSlash

  lemma {:induction false} LexLiteral(q: char, s: string) returns (inside: seq<Piece>, end: LiteralEnd, rest: string)
    requires IsQuote(q)
    ensures PiecesOk(q, inside) && |rest| <= |s|
    ensures s == match end
                 case Closed => PiecesText(inside) + ([q] + rest)
                 case Cut => PiecesText(inside)
                 case CutAtSlash => PiecesText(inside) + "\\"
    decreases |s|
  {
    if s == [] {
      inside, end, rest := [], Cut, [];
    } else if s[0] == '\\' && |s| == 1 {
      inside, end, rest := [], CutAtSlash, [];
    } else if s[0] == q {
      inside, end, rest := [], Closed, s[1..];
      assert s == [] + ([q] + rest);
    } else {
      var n := if s[0] == '\\' then 2 else 1;
      var piece := if s[0] == '\\' then Escaped(s[1]) else Plain(s[0]);
      var ps: seq<Piece>;
      ps, end, rest := LexLiteral(q, s[n..]);
      inside := [piece] + ps;
      assert inside[1..] == ps;
      assert s == s[..n] + s[n..] && PiecesText([piece] + ps) == s[..n] + PiecesText(ps);
    }
  }

  /** Every text has tokens. */
  lemma {:induction false} Lex(s: string) returns (ts: seq<Token>, tail: Tail)
    ensures Tokens(ts, tail) && Text(ts, tail) == s
    decreases |s|, 2
  {
    if s == [] {
      ts, tail := [], NoTail;
    } else if IsQuote(s[0]) {
      ts, tail := LexQuoted(s);
    } else if |s| >= 2 && s[0] == '/' && s[1] == '*' {
      ts, tail := LexComment(s);
    } else if |s| >= 2 && s[0] == '/' && s[1] == '/' {
      ts, tail := LexToLineEnd(s);
    } else {
      assert s == [s[0]] + s[1..];
      ts, tail := LexBehind(s, Bare(s[0]), s[1..]);
    }
  }

  /** The tokens of a text that begins with a given one. */
  lemma {:induction false} LexBehind(s: string, t: Token, rest: string) returns (ts: seq<Token>, tail: Tail)
    requires s == TokenText(t) + rest && TokenOk(t, rest) && |rest| < |s|
    ensures Tokens(ts, tail) && Text(ts, tail) == s
    decreases |s|, 0
  {
    var later: seq<Token>;
    later, tail := Lex(rest);
    ts := [t] + later;
    assert ts[1..] == later;
  }

  lemma {:induction false} LexToLineEnd(s: string) returns (ts: seq<Token>, tail: Tail)
    requires |s| >= 2 && s[0] == '/' && s[1] == '/'
    ensures Tokens(ts, tail) && Text(ts, tail) == s
    decreases |s|, 1
  {
    var body, rest := LexLine(s[2..]);
    assert s == "//" + s[2..];
    Assoc("//", body, rest);
    ts, tail := LexBehind(s, LineComment(body), rest);
  }

  lemma {:induction false} LexQuoted(s: string) returns (ts: seq<Token>, tail: Tail)
    requires s != [] && IsQuote(s[0])
    ensures Tokens(ts, tail) && Text(ts, tail) == s
    decreases |s|, 1
  {
    var q := s[0];
    var inside, end, rest := LexLiteral(q, s[1..]);
    assert s == [q] + s[1..];
    match end
    case Closed =>
      Around([q], PiecesText(inside), [q], rest);
      ts, tail := LexBehind(s, Literal(q, inside), rest);
    case Cut =>
      ts, tail := [], OpenLiteral(q, inside, false);
      assert PiecesText(inside) + [] == PiecesText(inside);
    case CutAtSlash =>
      ts, tail := [], OpenLiteral(q, inside, true);
  }

  lemma {:induction false} LexComment(s: string) returns (ts: seq<Token>, tail: Tail)
    requires |s| >= 2 && s[0] == '/' && s[1] == '*'
    ensures Tokens(ts, tail) && Text(ts, tail) == s
    decreases |s|, 1
  {
    var body, closed, rest := LexBlock(s[2..]);
    assert s == "/*" + s[2..];
    if closed {
      Around("/*", body, "*/", rest);
      ts, tail := LexBehind(s, BlockComment(body), rest);
    } else {
      ts, tail := [], OpenComment(body);
    }
  }
}
