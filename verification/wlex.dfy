/** The scanner of the older snapshot (src/wlex.c): a handful of
    recognisers that each return the length of the token at the front of
    a NUL-terminated string, and `nextToken`, which skips blanks and
    comments and dispatches on the first character.  The source is read
    through CharClass.At, so reading at the end yields the terminator.
    The type numbers `wlex.c` writes (TOKEN_*) are not declared anywhere
    in the snapshot; the model names them instead. */
module WLex {
  import opened CharClass
  import opened Options
  import Lexer

  /** The token type `nextToken` leaves in `type`; Unset where nothing
      wrote it (at the end of input and after a symbol). */
  datatype TokenType = Unset | Unknown | Keyword(index: nat) | Ident | Int | Float

  /** A recogniser's answer: a length and the type it wrote. */
  datatype Scan = Scan(size: nat, kind: TokenType)

  /** What `nextToken` produces: where the token starts after blanks and
      comments, its length (the return value; `*endPtr` is start plus
      length) and its type. */
  datatype Lexed = Lexed(start: nat, size: nat, kind: TokenType)

  /** `keywords[]` (lines 12-14), in the order of TOKEN_FOR onwards. */
  const KEYWORDS: seq<string> := ["for", "do", "while", "break", "if", "else", "return"]

  /** `symbols` (line 20). */
  const SYMBOLS: string := ",;()[]{}"

  /** `isAlphaUnder`, or `isAlNumUnder` where `asWritten` is off: the
      characters that make a keyword match a longer word. */
  predicate Continues(c: char, asWritten: bool) {
    if asWritten then IsAlpha(c) || c == '_' else IsAlnum(c) || c == '_'
  }

  // ---------------------------------------------------------------------
  // Blanks and comments

  /** Where `skipWhitespaces` stops. */
  function SpaceEnd(s: string, i: nat): (j: nat)
    ensures i <= j && (i <= |s| ==> j <= |s|)
    ensures !IsSpace(At(s, j))
    decreases |s| - i
  {
    if i < |s| && IsSpace(s[i]) then SpaceEnd(s, i + 1) else i
  }

  /** The end of a line comment: the newline or the terminator. */
  function LineEnd(s: string, i: nat): (j: nat)
    ensures i <= j && (i <= |s| ==> j <= |s|)
    ensures At(s, j) == NUL || At(s, j) == '\n'
    decreases |s| - i
  {
    if i < |s| && s[i] != NUL && s[i] != '\n' then LineEnd(s, i + 1) else i
  }

  /** Position `k` neither ends the input nor starts a star-slash. */
  predicate InsideBlock(s: string, k: nat) {
    At(s, k) != NUL && !(At(s, k) == '*' && At(s, k + 1) == '/')
  }

  /** Where the closing star-slash starts, or the terminator. */
  function BlockEnd(s: string, i: nat): (j: nat)
    ensures i <= j && (i <= |s| ==> j <= |s|)
    ensures !InsideBlock(s, j)
    decreases |s| - i
  {
    if i < |s| && InsideBlock(s, i) then BlockEnd(s, i + 1) else i
  }

  /** `skipComments` (lines 28-42): the length of the comment at `pos`,
      0 where none starts there. */
  function CommentLength(s: string, pos: nat): (n: nat)
    ensures n > 0 <==> At(s, pos) == '/' && (At(s, pos + 1) == '/' || At(s, pos + 1) == '*')
    ensures n > 0 ==> 2 <= n && pos + n <= |s|
  {
    if At(s, pos) != '/' then 0
    else if At(s, pos + 1) == '/' then LineEnd(s, pos + 2) - pos
    else if At(s, pos + 1) == '*' then
      var j := BlockEnd(s, pos + 2);
      (if At(s, j) != NUL then j + 2 else j) - pos
    else 0
  }

  /** The `do ... while (comment)` loop of `nextToken` (lines 105-109). */
  function Skip(s: string, pos: nat): (j: nat)
    ensures pos <= j && (pos <= |s| ==> j <= |s|)
    ensures !IsSpace(At(s, j)) && CommentLength(s, j) == 0
    decreases |s| - pos
  {
    var a := SpaceEnd(s, pos);
    var c := CommentLength(s, a);
    if c == 0 then a else Skip(s, a + c)
  }

  /** A pass of the loop that finds a comment moves on past it. */
  lemma SkipStep(s: string, p: nat)
    requires CommentLength(s, SpaceEnd(s, p)) > 0
    ensures Skip(s, p) == Skip(s, SpaceEnd(s, p) + CommentLength(s, SpaceEnd(s, p)))
  {
  }

  // ---------------------------------------------------------------------
  // Recognisers

  /** Keyword `i` is spelled at `pos` and no word character continues it:
      the test of `isKeyword` (lines 48-49). */
  predicate Fits(s: string, pos: nat, asWritten: bool, i: nat)
    requires i < |KEYWORDS|
  {
    Lexer.StartsWith(s, pos, KEYWORDS[i]) && !Continues(At(s, pos + |KEYWORDS[i]|), asWritten)
  }

  /** The first keyword from index `i` on that the input spells at `pos`
      and that no word character continues. */
  function KeywordFrom(s: string, pos: nat, asWritten: bool, i: nat): (r: Option<nat>)
    requires i <= |KEYWORDS|
    ensures r.Some? ==> i <= r.value < |KEYWORDS| && Fits(s, pos, asWritten, r.value)
    decreases |KEYWORDS| - i
  {
    if i == |KEYWORDS| then None
    else if Fits(s, pos, asWritten, i) then Some(i)
    else KeywordFrom(s, pos, asWritten, i + 1)
  }

  /** Every keyword has at least two characters and no terminator. */
  lemma KeywordSpelling(i: nat)
    requires i < |KEYWORDS|
    ensures |KEYWORDS[i]| >= 2 && NUL !in KEYWORDS[i]
  {
  }

  /** One entry of the table: a fitting keyword is the answer, otherwise
      the search goes on with the next one. */
  lemma KeywordFromStep(s: string, pos: nat, asWritten: bool, i: nat)
    requires i < |KEYWORDS|
    ensures Fits(s, pos, asWritten, i) ==> KeywordFrom(s, pos, asWritten, i) == Some(i)
    ensures !Fits(s, pos, asWritten, i) ==> KeywordFrom(s, pos, asWritten, i) == KeywordFrom(s, pos, asWritten, i + 1)
  {
  }

  /** `isKeyword` (lines 45-57). */
  function KeywordScan(s: string, pos: nat, asWritten: bool): (r: Scan)
    ensures r.size > 0 ==> pos + r.size <= |s|
  {
    match KeywordFrom(s, pos, asWritten, 0)
    case None => Scan(0, Unset)
    case Some(i) =>
      KeywordSpelling(i);
      Lexer.SpelledInside(s, pos, KEYWORDS[i]);
      Scan(|KEYWORDS[i]|, Keyword(i))
  }

  /** `isSymbol` (lines 60-67). */
  function SymbolLength(s: string, pos: nat): nat {
    if At(s, pos) in SYMBOLS then 1 else 0
  }

  /** `isIdentifier` (lines 70-78). */
  function IdentLength(s: string, pos: nat): (n: nat)
    ensures n > 0 <==> IsAlpha(At(s, pos)) || At(s, pos) == '_'
    ensures n > 0 ==> pos + n <= |s| && !Lexer.InClass(At(s, pos + n), Lexer.IdentChars)
  {
    if IsAlpha(At(s, pos)) || At(s, pos) == '_' then 1 + Lexer.Span(s, pos + 1, Lexer.IdentChars) else 0
  }

  /** `isNumber` (lines 81-98): as written a hexadecimal literal needs a
      decimal digit after `0x`; otherwise any hexadecimal digit. */
  function NumberScan(s: string, pos: nat, asWritten: bool): (r: Scan)
    ensures r.size > 0 <==> IsDigit(At(s, pos))
    ensures r.size > 0 ==> pos + r.size <= |s| && (r.kind == Int || r.kind == Float)
    ensures r.size == 0 ==> r.kind == Unset
  {
    if !IsDigit(At(s, pos)) then Scan(0, Unset)
    else if At(s, pos) == '0' && (At(s, pos + 1) == 'x' || At(s, pos + 1) == 'X') &&
            (if asWritten then IsDigit(At(s, pos + 2)) else IsHex(At(s, pos + 2))) then
      Scan(3 + Lexer.Span(s, pos + 3, Lexer.HexDigits), Int)
    else DecimalScan(s, pos)
  }

  /** The decimal part of `isNumber` (lines 89-97): digits, then a point
      and more digits for a float. */
  function DecimalScan(s: string, pos: nat): (r: Scan)
    requires IsDigit(At(s, pos))
    ensures r.size > 0 && pos + r.size <= |s| && (r.kind == Int || r.kind == Float)
  {
    var d := Lexer.Span(s, pos, Lexer.Digits);
    if At(s, pos + d) == '.' then Scan(d + 1 + Lexer.Span(s, pos + d + 1, Lexer.Digits), Float)
    else Scan(d, Int)
  }

  /** The dispatch of `nextToken` (lines 111-125) on the first character
      after the blanks and comments. */
  function TokenAt(s: string, start: nat, asWritten: bool): (t: Lexed)
    ensures t.start == start
    ensures t.size == 0 <==> At(s, start) == NUL
    ensures t.size > 0 ==> t.start + t.size <= |s|
  {
    var c := At(s, start);
    if c == NUL then Lexed(start, 0, Unset)
    else if IsAlpha(c) || c == '_' then
      var k := KeywordScan(s, start, asWritten);
      if k.size > 0 then Lexed(start, k.size, k.kind)
      else Lexed(start, IdentLength(s, start), Ident)
    else
      var n := NumberScan(s, start, asWritten);
      if n.size > 0 then Lexed(start, n.size, n.kind)
      else if SymbolLength(s, start) > 0 then Lexed(start, 1, Unset)
      else Lexed(start, 1, Unknown)
  }

  /** `nextToken` (lines 100-138) from `pos`. */
  function Next(s: string, pos: nat, asWritten: bool): (t: Lexed)
    ensures pos <= t.start && !IsSpace(At(s, t.start)) && CommentLength(s, t.start) == 0
    ensures t.size == 0 <==> At(s, t.start) == NUL
    ensures t.size > 0 ==> t.start + t.size <= |s|
  {
    TokenAt(s, Skip(s, pos), asWritten)
  }

  /** The loop of `main` (lines 140-144): `nextToken` again and again from
      where the last token ended, until it returns 0.  The tokens it
      prints are the ones listed here. */
  function Tokens(s: string, pos: nat, asWritten: bool): (ts: seq<Lexed>)
    requires pos <= |s|
    ensures forall k :: 0 <= k < |ts| ==> 0 < ts[k].size && pos <= ts[k].start && ts[k].start + ts[k].size <= |s|
    decreases |s| - pos
  {
    var t := Next(s, pos, asWritten);
    if t.size == 0 then [] else [t] + Tokens(s, t.start + t.size, asWritten)
  }

  // ---------------------------------------------------------------------
  // The scanner's loops

  /** `skipWhitespaces`: the position past the blanks. */
  method SkipWhitespaces(s: string, pos: nat) returns (p: nat)
    ensures p == SpaceEnd(s, pos)
  {
    p := pos;
    while IsSpace(At(s, p))
      invariant pos <= p && SpaceEnd(s, p) == SpaceEnd(s, pos)
      decreases |s| - p
    {
      p := p + 1;
    }
  }

  /** `skipComments`. */
  method SkipComments(s: string, pos: nat) returns (n: nat)
    ensures n == CommentLength(s, pos)
  {
    if At(s, pos) == '/' {
      var i: nat := 2;
      if At(s, pos + 1) == '/' {
        while At(s, pos + i) != NUL && At(s, pos + i) != '\n'
          invariant 2 <= i && LineEnd(s, pos + i) == LineEnd(s, pos + 2)
          decreases |s| - (pos + i)
        {
          i := i + 1;
        }
        return i;
      } else if At(s, pos + 1) == '*' {
        while InsideBlock(s, pos + i)
          invariant 2 <= i && BlockEnd(s, pos + i) == BlockEnd(s, pos + 2)
          decreases |s| - (pos + i)
        {
          i := i + 1;
        }
        return if At(s, pos + i) != NUL then i + 2 else i;
      }
    }
    return 0;
  }

  /** `isKeyword`: the table in order, `strncmp` against each entry. */
  method IsKeyword(s: string, pos: nat, asWritten: bool) returns (r: Scan)
    ensures r == KeywordScan(s, pos, asWritten)
  {
    for i := 0 to |KEYWORDS|
      invariant KeywordFrom(s, pos, asWritten, i) == KeywordFrom(s, pos, asWritten, 0)
    {
      var length := |KEYWORDS[i]|;
      KeywordFromStep(s, pos, asWritten, i);
      if Fits(s, pos, asWritten, i) {
        return Scan(length, Keyword(i));
      }
    }
    return Scan(0, Unset);
  }

  /** `isSymbol`: 1 exactly for a character of `symbols`. */
  method IsSymbol(s: string, pos: nat) returns (n: nat)
    ensures n == 1 <==> At(s, pos) in SYMBOLS
    ensures n == 0 <==> At(s, pos) !in SYMBOLS
  {
    for i := 0 to |SYMBOLS|
      invariant At(s, pos) !in SYMBOLS[..i]
    {
      if At(s, pos) == SYMBOLS[i] {
        return 1;
      }
    }
    assert SYMBOLS[..|SYMBOLS|] == SYMBOLS;
    return 0;
  }

  /** `isIdentifier`. */
  method IsIdentifier(s: string, pos: nat) returns (n: nat)
    ensures n == IdentLength(s, pos)
  {
    if IsAlpha(At(s, pos)) || At(s, pos) == '_' {
      var rest := Lexer.RunFrom(s, pos + 1, Lexer.IdentChars);
      return 1 + rest;
    }
    return 0;
  }

  /** `isNumber`. */
  method IsNumber(s: string, pos: nat, asWritten: bool) returns (r: Scan)
    ensures r == NumberScan(s, pos, asWritten)
  {
    if !IsDigit(At(s, pos)) {
      return Scan(0, Unset);
    }
    var hexStart := if asWritten then IsDigit(At(s, pos + 2)) else IsHex(At(s, pos + 2));
    if At(s, pos) == '0' && (At(s, pos + 1) == 'x' || At(s, pos + 1) == 'X') && hexStart {
      var hex := Lexer.RunFrom(s, pos + 3, Lexer.HexDigits);
      return Scan(3 + hex, Int);
    }
    r := IsDecimal(s, pos);
  }

  /** The decimal part of `isNumber`. */
  method IsDecimal(s: string, pos: nat) returns (r: Scan)
    requires IsDigit(At(s, pos))
    ensures r == DecimalScan(s, pos)
  {
    var d := Lexer.RunFrom(s, pos, Lexer.Digits);
    if At(s, pos + d) == '.' {
      var frac := Lexer.RunFrom(s, pos + d + 1, Lexer.Digits);
      return Scan(d + 1 + frac, Float);
    }
    return Scan(d, Int);
  }

  /** The `do ... while (comment)` loop of `nextToken`. */
  method SkipBlanks(s: string, pos: nat) returns (p: nat)
    ensures p == Skip(s, pos)
  {
    p := pos;
    while true
      invariant pos <= p && Skip(s, p) == Skip(s, pos)
      invariant pos <= |s| ==> p <= |s|
      decreases if p <= |s| then |s| - p + 1 else 0
    {
      var a := SkipWhitespaces(s, p);
      var comment := SkipComments(s, a);
      if comment == 0 {
        return a;
      }
      SkipStep(s, p);
      p := a + comment;
    }
  }

  /** The dispatch of `nextToken` at `p`. */
  method Dispatch(s: string, p: nat, asWritten: bool) returns (size: nat, kind: TokenType)
    ensures var t := TokenAt(s, p, asWritten); size == t.size && kind == t.kind
  {
    var c := At(s, p);
    if c == NUL {
      return 0, Unset;
    }
    if IsAlpha(c) || c == '_' {
      var k := IsKeyword(s, p, asWritten);
      if k.size > 0 {
        return k.size, k.kind;
      }
      size := IsIdentifier(s, p);
      return size, Ident;
    }
    var n := IsNumber(s, p, asWritten);
    if n.size > 0 {
      return n.size, n.kind;
    }
    size := IsSymbol(s, p);
    if size > 0 {
      return 1, Unset;
    }
    return 1, Unknown;
  }

  /** `nextToken`: the token after the blanks and comments from `pos`;
      `end` is what it stores through `endPtr`. */
  method NextToken(s: string, pos: nat, asWritten: bool) returns (size: nat, end: nat, kind: TokenType)
    ensures var t := Next(s, pos, asWritten); size == t.size && kind == t.kind && end == t.start + t.size
  {
    var p := SkipBlanks(s, pos);
    size, kind := Dispatch(s, p, asWritten);
    end := p + size;
  }

  /** `main`'s loop stops where `nextToken` returns 0. */
  lemma TokensEnd(s: string, pos: nat, asWritten: bool)
    requires pos <= |s| && Next(s, pos, asWritten).size == 0
    ensures Tokens(s, pos, asWritten) == []
  {
  }

  /** One pass of `main`'s loop: the token found, then the rest. */
  lemma TokensNext(s: string, pos: nat, asWritten: bool, end: nat)
    requires pos <= |s|
    requires Next(s, pos, asWritten).size > 0 && end == Next(s, pos, asWritten).start + Next(s, pos, asWritten).size
    ensures end <= |s| && Tokens(s, pos, asWritten) == [Next(s, pos, asWritten)] + Tokens(s, end, asWritten)
  {
  }

  /** The same pass after the tokens `a` already printed. */
  lemma TokensStep(s: string, pos: nat, asWritten: bool, end: nat, t: Lexed, a: seq<Lexed>)
    requires pos <= |s| && t == Next(s, pos, asWritten)
    requires t.size > 0 && end == t.start + t.size
    ensures end <= |s| && a + Tokens(s, pos, asWritten) == (a + [t]) + Tokens(s, end, asWritten)
  {
    TokensNext(s, pos, asWritten, end);
  }

  /** The loop of `main` over a whole source. */
  method ScanAll(s: string, asWritten: bool) returns (ts: seq<Lexed>)
    ensures ts == Tokens(s, 0, asWritten)
  {
    var pos: nat := 0;
    ts := [];
    while true
      invariant pos <= |s| && ts + Tokens(s, pos, asWritten) == Tokens(s, 0, asWritten)
      decreases |s| - pos
    {
      var size, end, kind := NextToken(s, pos, asWritten);
      if size == 0 {
        TokensEnd(s, pos, asWritten);
        assert ts + [] == ts;
        return;
      }
      TokensStep(s, pos, asWritten, end, Lexed(end - size, size, kind), ts);
      ts := ts + [Lexed(end - size, size, kind)];
      pos := end;
    }
  }
}
