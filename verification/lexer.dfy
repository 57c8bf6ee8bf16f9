/** The scanner of src/lexer.c: a cursor over a NUL-terminated source
    string, with the token just consumed (`current`) and the one after it
    (`lookahead`).  Every classifier reads the source through CharClass.At,
    so reading at the end of the contents yields the terminator. */
module Lexer {
  import opened CharClass
  import opened Tags
  import opened Options

  /** A position in the source: offset, column and line. */
  datatype Cursor = Cursor(pos: nat, carrot: nat, line: nat)

  /** A token of the scanner: its tag, where it starts and its length. */
  datatype Lexeme = Lexeme(kind: int, cursor: Cursor, size: nat)

  /** What a classifier recognises: a tag and a length. */
  datatype Lexed = Lexed(kind: int, size: nat)

  const KEYWORDS: seq<string> := ["for", "do", "while", "if", "else"]
  const SYMBOL3: seq<string> := ["<<=", ">>="]
  const SYMBOL2: seq<string> := [
    "++", "--", "**",
    "+=", "-=", "*=", "/=", "%=",
    "||", "&&",
    "|=", "&=", "^=",
    "<<", ">>",
    "!=", "<=", ">=", "=="]
  /** The single-character symbols; the C array's length counts its
      terminator, so the loop also compares against NUL. */
  const SYMBOLS: string := ".,=+-*/%;<>(){}[]&|!^~" + [NUL]

  // ---------------------------------------------------------------------
  // Character runs

  datatype Class = Digits | HexDigits | IdentChars

  predicate InClass(c: char, k: Class) {
    match k
    case Digits => IsDigit(c)
    case HexDigits => IsHex(c)
    case IdentChars => IsAlpha(c) || IsDigit(c) || c == '_'
  }

  /** The length of the run of class `k` starting at `i`. */
  function Span(s: string, i: nat, k: Class): (n: nat)
    ensures n > 0 ==> i + n <= |s|
    ensures forall j :: i <= j < i + n ==> InClass(At(s, j), k)
    ensures !InClass(At(s, i + n), k)
    decreases |s| - i
  {
    if i < |s| && InClass(s[i], k) then 1 + Span(s, i + 1, k) else 0
  }

  /** The characters from `pos` spell `w` (strncmp over |w| characters). */
  predicate StartsWith(s: string, pos: nat, w: string) {
    forall j :: 0 <= j < |w| ==> At(s, pos + j) == w[j]
  }

  /** Every entry of the symbol tables has the length of its table and no NUL. */
  lemma SymbolTables()
    ensures forall i :: 0 <= i < |SYMBOL3| ==> |SYMBOL3[i]| == 3 && NUL !in SYMBOL3[i]
    ensures forall i :: 0 <= i < |SYMBOL2| ==> |SYMBOL2[i]| == 2 && NUL !in SYMBOL2[i]
  {
  }

  /** A word without NUL spelled at `pos` lies inside the source. */
  lemma SpelledInside(s: string, pos: nat, w: string)
    requires |w| > 0 && NUL !in w && StartsWith(s, pos, w)
    ensures pos + |w| <= |s|
  {
    assert At(s, pos + |w| - 1) == w[|w| - 1];
  }

  // ---------------------------------------------------------------------
  // Whitespace and comments

  /** One skipped character: a newline starts a new line at column 0. */
  function Advance(c: Cursor, ch: char): (d: Cursor)
    ensures d.pos == c.pos + 1
    ensures d.line == c.line + (if ch == '\n' then 1 else 0)
    ensures ch == '\n' ==> d.carrot == 0
    ensures ch != '\n' ==> d.carrot == c.carrot + 1
  {
    if ch == '\n' then Cursor(c.pos + 1, 0, c.line + 1) else Cursor(c.pos + 1, c.carrot + 1, c.line)
  }

  /** The inner loop of skipWhitespace. */
  function SpaceRun(s: string, c: Cursor): (d: Cursor)
    ensures c.pos <= d.pos && (c.pos <= |s| ==> d.pos <= |s|)
    ensures !IsSpace(At(s, d.pos))
    decreases |s| - c.pos
  {
    if c.pos < |s| && IsSpace(s[c.pos]) then SpaceRun(s, Advance(c, s[c.pos])) else c
  }

  /** The rest of a `//` comment: up to the newline, or to the end of
      the source (see LineAsWritten). */
  function LineRest(s: string, c: Cursor): (d: Cursor)
    ensures c.pos <= d.pos && d.line == c.line
    ensures c.pos <= |s| ==> d.pos <= |s|
    ensures At(s, d.pos) == '\n' || At(s, d.pos) == NUL
    decreases |s| - c.pos
  {
    if At(s, c.pos) == '\n' || At(s, c.pos) == NUL then c
    else LineRest(s, Cursor(c.pos + 1, c.carrot + 1, c.line))
  }

  /** skipComments: the cursor after a `//` comment, or None when no
      comment starts here (see CommentAsWritten for a lone `/`). */
  function Comment(s: string, c: Cursor): (r: Option<Cursor>)
    ensures r.Some? ==> c.pos + 2 <= r.value.pos <= |s| && r.value.line == c.line
    ensures r.Some? <==> At(s, c.pos) == '/' && At(s, c.pos + 1) == '/'
  {
    if At(s, c.pos) == '/' && At(s, c.pos + 1) == '/' then Some(LineRest(s, c)) else None
  }

  /** skipWhitespace: whitespace runs and comments until neither is left. */
  function Skip(s: string, c: Cursor): (d: Cursor)
    ensures c.pos <= d.pos && (c.pos <= |s| ==> d.pos <= |s|)
    ensures !IsSpace(At(s, d.pos)) && Comment(s, d).None?
    decreases |s| - c.pos
  {
    var e := SpaceRun(s, c);
    match Comment(s, e)
    case None => e
    case Some(f) => Skip(s, f)
  }

  // ---------------------------------------------------------------------
  // Classifiers

  /** Keyword `k` is spelled at `pos` and no letter or digit follows it. */
  predicate KeywordAt(s: string, pos: nat, k: nat)
    requires k < |KEYWORDS|
  {
    StartsWith(s, pos, KEYWORDS[k]) && !IsAlnum(At(s, pos + |KEYWORDS[k]|))
  }

  /** The loop of lexKeyword over the first `n` keywords: the last match wins. */
  function KeywordIn(s: string, pos: nat, n: nat): (r: Option<Lexed>)
    requires n <= |KEYWORDS|
    ensures r.Some? ==> 2 <= r.value.size && pos + r.value.size <= |s|
  {
    if n == 0 then None
    else if KeywordAt(s, pos, n - 1) then
      SpelledInside(s, pos, KEYWORDS[n - 1]);
      Some(Lexed(TK_FOR + n - 1, |KEYWORDS[n - 1]|))
    else KeywordIn(s, pos, n - 1)
  }

  function KeywordScan(s: string, pos: nat): (r: Option<Lexed>)
    ensures r.Some? ==> 2 <= r.value.size && pos + r.value.size <= |s|
  {
    KeywordIn(s, pos, |KEYWORDS|)
  }

  /** lexIdent: a letter or `_`, then letters, digits and `_`. */
  function IdentScan(s: string, pos: nat): (r: Option<Lexed>)
    ensures r.Some? <==> IsAlpha(At(s, pos)) || At(s, pos) == '_'
    ensures r.Some? ==> 1 <= r.value.size && pos + r.value.size <= |s|
  {
    if IsAlpha(At(s, pos)) || At(s, pos) == '_' then Some(Lexed(TK_IDENT, 1 + Span(s, pos + 1, IdentChars)))
    else None
  }

  /** lexNumber: `0x` and a hex run, or a digit run with an optional
      fraction that makes it a float. */
  function NumberScan(s: string, pos: nat): (r: Option<Lexed>)
    ensures r.Some? <==> IsDigit(At(s, pos))
    ensures r.Some? ==> 1 <= r.value.size && pos + r.value.size <= |s|
  {
    if !IsDigit(At(s, pos)) then None
    else if At(s, pos) == '0' && (At(s, pos + 1) == 'x' || At(s, pos + 1) == 'X') && IsHex(At(s, pos + 2)) then
      Some(Lexed(TK_INT, 3 + Span(s, pos + 3, HexDigits)))
    else
      var d := 1 + Span(s, pos + 1, Digits);
      if At(s, pos + d) == '.' then Some(Lexed(TK_FLOAT, d + 1 + Span(s, pos + d + 1, Digits)))
      else Some(Lexed(TK_INT, d))
  }

  /** The end of a string literal whose body starts at `i`: just past the
      closing quote, or at the end of the source; a backslash takes the
      character after it literally (see StringEndAsWritten). */
  function StringEnd(s: string, i: nat): (e: nat)
    ensures i <= e && (i <= |s| ==> e <= |s|)
    ensures At(s, e) == NUL || (i < e && s[e - 1] == '"')
    decreases |s| - i
  {
    if At(s, i) == NUL then i
    else if s[i] == '"' then i + 1
    else if s[i] == '\\' && At(s, i + 1) != NUL then StringEnd(s, i + 2)
    else StringEnd(s, i + 1)
  }

  /** lexString. */
  function StringScan(s: string, pos: nat): (r: Option<Lexed>)
    ensures r.Some? <==> At(s, pos) == '"'
    ensures r.Some? ==> 1 <= r.value.size && pos + r.value.size <= |s|
  {
    if At(s, pos) == '"' then Some(Lexed(TK_STRING, StringEnd(s, pos + 1) - pos)) else None
  }

  /** The first entry of `table` from `i` on spelled at `pos`. */
  function FirstAt(s: string, pos: nat, table: seq<string>, i: nat): (r: Option<nat>)
    requires i <= |table|
    ensures r.Some? ==> i <= r.value < |table| && StartsWith(s, pos, table[r.value])
    ensures forall j :: i <= j < |table| && (r.None? || j < r.value) ==> !StartsWith(s, pos, table[j])
    decreases |table| - i
  {
    if i == |table| then None
    else if StartsWith(s, pos, table[i]) then Some(i)
    else FirstAt(s, pos, table, i + 1)
  }

  /** lexSymbol: three-character symbols, then two-character ones, then
      single characters, which carry their own code as their tag. */
  function SymbolScan(s: string, pos: nat): (r: Option<Lexed>)
    ensures r.Some? && At(s, pos) != NUL ==> 1 <= r.value.size && pos + r.value.size <= |s|
  {
    SymbolTables();
    match FirstAt(s, pos, SYMBOL3, 0)
    case Some(i) =>
      SpelledInside(s, pos, SYMBOL3[i]);
      Some(Lexed(TK_LSHIFTEQ + i, 3))
    case None =>
      match FirstAt(s, pos, SYMBOL2, 0)
      case Some(i) =>
        SpelledInside(s, pos, SYMBOL2[i]);
        Some(Lexed(TK_INC + i, 2))
      case None => if At(s, pos) in SYMBOLS then Some(Lexed(At(s, pos) as int, 1)) else None
  }

  /** The lookahead _winter_lexNext makes at `pos`: EOF at the end, else
      keyword, identifier, number, string, symbol, or one unknown
      character. */
  function Classify(s: string, pos: nat): (l: Lexed)
    ensures At(s, pos) == NUL ==> l == Lexed(TK_EOF, 0)
    ensures At(s, pos) != NUL ==> 1 <= l.size && pos + l.size <= |s|
  {
    if At(s, pos) == NUL then Lexed(TK_EOF, 0)
    else
      var k := KeywordScan(s, pos);
      if k.Some? then k.value
      else
        var i := IdentScan(s, pos);
        if i.Some? then i.value
        else
          var n := NumberScan(s, pos);
          if n.Some? then n.value
          else
            var t := StringScan(s, pos);
            if t.Some? then t.value
            else
              var y := SymbolScan(s, pos);
              if y.Some? then y.value else Lexed(TK_UNKNOWN, 1)
  }

  /** The cursor moved over `n` characters of one token. */
  function Past(c: Cursor, n: nat): Cursor {
    Cursor(c.pos + n, c.carrot + n, c.line)
  }

  // ---------------------------------------------------------------------
  // The scanner

  /** `lexState_t`. */
  class Lexer {
    const source: string
    var cursor: Cursor
    var current: Lexeme
    var lookahead: Lexeme

    /** `lexState_t lex = {source}`: everything else zero. */
    constructor(source: string)
      ensures this.source == source && cursor == Cursor(0, 0, 0)
      ensures current == lookahead == Lexeme(TK_UNKNOWN, Cursor(0, 0, 0), 0)
    {
      this.source := source;
      cursor := Cursor(0, 0, 0);
      current := Lexeme(TK_UNKNOWN, Cursor(0, 0, 0), 0);
      lookahead := Lexeme(TK_UNKNOWN, Cursor(0, 0, 0), 0);
    }

    /** skipComments. */
    method SkipComments() returns (skipped: bool)
      modifies this`cursor
      ensures skipped <==> Comment(source, old(cursor)).Some?
      ensures cursor == if skipped then Comment(source, old(cursor)).value else old(cursor)
    {
      if At(source, cursor.pos) == '/' && At(source, cursor.pos + 1) == '/' {
        while At(source, cursor.pos) != '\n' && At(source, cursor.pos) != NUL
          invariant LineRest(source, cursor) == LineRest(source, old(cursor))
          decreases |source| - cursor.pos
        {
          cursor := Cursor(cursor.pos + 1, cursor.carrot + 1, cursor.line);
        }
        return true;
      }
      return false;
    }

    /** skipWhitespace. */
    method SkipWhitespace()
      modifies this`cursor
      ensures cursor == Skip(source, old(cursor))
    {
      var more := true;
      while more
        invariant more ==> Skip(source, cursor) == Skip(source, old(cursor))
        invariant !more ==> cursor == Skip(source, old(cursor))
        decreases |source| - cursor.pos, more
      {
        ghost var start := cursor;
        while At(source, cursor.pos) != NUL && IsSpace(At(source, cursor.pos))
          invariant SpaceRun(source, cursor) == SpaceRun(source, start)
          decreases |source| - cursor.pos
        {
          cursor := Advance(cursor, At(source, cursor.pos));
        }
        more := SkipComments();
      }
    }

    /** _winter_lexNext: skip to the next token, shift the lookahead into
        `current`, classify the next one and move past it; returns the
        length of the token now current. */
    method LexNext() returns (size: nat)
      modifies this`cursor, this`current, this`lookahead
      ensures current == old(lookahead) && size == current.size
      ensures var c := Skip(source, old(cursor));
        lookahead == Lexeme(Classify(source, c.pos).kind, c, Classify(source, c.pos).size) &&
        cursor == Past(c, lookahead.size)
    {
      SkipWhitespace();
      current := lookahead;
      var c := cursor;
      var lexed: Lexed;
      if At(source, c.pos) != NUL {
        var r := LexKeyword(source, c.pos);
        if r.None? {
          r := LexIdent(source, c.pos);
        }
        if r.None? {
          r := LexNumber(source, c.pos);
        }
        if r.None? {
          r := LexString(source, c.pos);
        }
        if r.None? {
          r := LexSymbol(source, c.pos);
        }
        lexed := if r.Some? then r.value else Lexed(TK_UNKNOWN, 1);
        cursor := Past(c, lexed.size);
      } else {
        lexed := Lexed(TK_EOF, 0);
      }
      lookahead := Lexeme(lexed.kind, c, lexed.size);
      size := current.size;
    }
  }

  /** lexKeyword. */
  method LexKeyword(s: string, pos: nat) returns (r: Option<Lexed>)
    ensures r == KeywordScan(s, pos)
  {
    r := None;
    for i := 0 to |KEYWORDS|
      invariant r == KeywordIn(s, pos, i)
    {
      var w := KEYWORDS[i];
      var j := 0;
      while j < |w| && At(s, pos + j) == w[j]
        invariant j <= |w| && forall m :: 0 <= m < j ==> At(s, pos + m) == w[m]
      {
        j := j + 1;
      }
      if j == |w| && !IsAlnum(At(s, pos + |w|)) {
        r := Some(Lexed(TK_FOR + i, |w|));
      }
    }
  }

  /** A run of class `k` from `i` (the `while` loops of the classifiers). */
  method RunFrom(s: string, i: nat, k: Class) returns (n: nat)
    ensures n == Span(s, i, k)
  {
    n := 0;
    while InClass(At(s, i + n), k)
      invariant n + Span(s, i + n, k) == Span(s, i, k)
      decreases |s| - (i + n)
    {
      n := n + 1;
    }
  }

  /** lexIdent. */
  method LexIdent(s: string, pos: nat) returns (r: Option<Lexed>)
    ensures r == IdentScan(s, pos)
  {
    if IsAlpha(At(s, pos)) || At(s, pos) == '_' {
      var n := RunFrom(s, pos + 1, IdentChars);
      return Some(Lexed(TK_IDENT, 1 + n));
    }
    return None;
  }

  /** lexNumber. */
  method LexNumber(s: string, pos: nat) returns (r: Option<Lexed>)
    ensures r == NumberScan(s, pos)
  {
    if !IsDigit(At(s, pos)) {
      return None;
    }
    if At(s, pos) == '0' && (At(s, pos + 1) == 'x' || At(s, pos + 1) == 'X') && IsHex(At(s, pos + 2)) {
      var n := RunFrom(s, pos + 3, HexDigits);
      return Some(Lexed(TK_INT, 3 + n));
    }
    var n := RunFrom(s, pos + 1, Digits);
    var size := 1 + n;
    if At(s, pos + size) == '.' {
      var f := RunFrom(s, pos + size + 1, Digits);
      return Some(Lexed(TK_FLOAT, size + 1 + f));
    }
    return Some(Lexed(TK_INT, size));
  }

  /** lexString. */
  method LexString(s: string, pos: nat) returns (r: Option<Lexed>)
    ensures r == StringScan(s, pos)
  {
    if At(s, pos) != '"' {
      return None;
    }
    var end := pos + 1;
    var closed := false;
    while !closed && At(s, end) != NUL
      invariant pos < end
      invariant !closed ==> StringEnd(s, end) == StringEnd(s, pos + 1)
      invariant closed ==> end == StringEnd(s, pos + 1)
      decreases |s| - end, !closed
    {
      var ch := s[end];
      end := end + 1;
      if ch == '"' {
        closed := true;
      } else if ch == '\\' && At(s, end) != NUL {
        end := end + 1;
      }
    }
    return Some(Lexed(TK_STRING, end - pos));
  }

  /** The first entry of `table` spelled at `pos` (strncmp in a loop). */
  method FindAt(s: string, pos: nat, table: seq<string>) returns (r: Option<nat>)
    ensures r == FirstAt(s, pos, table, 0)
  {
    for i := 0 to |table|
      invariant FirstAt(s, pos, table, i) == FirstAt(s, pos, table, 0)
    {
      if StartsWith(s, pos, table[i]) {
        return Some(i);
      }
    }
    return None;
  }

  /** lexSymbol. */
  method LexSymbol(s: string, pos: nat) returns (r: Option<Lexed>)
    ensures r == SymbolScan(s, pos)
  {
    var i3 := FindAt(s, pos, SYMBOL3);
    if i3.Some? {
      return Some(Lexed(TK_LSHIFTEQ + i3.value, 3));
    }
    var i2 := FindAt(s, pos, SYMBOL2);
    if i2.Some? {
      return Some(Lexed(TK_INC + i2.value, 2));
    }
    var single := IsSymbol(At(s, pos));
    if single {
      return Some(Lexed(At(s, pos) as int, 1));
    }
    return None;
  }

  /** The loop of lexSymbol over the single-character symbols. */
  method IsSymbol(c: char) returns (found: bool)
    ensures found <==> c in SYMBOLS
  {
    for i := 0 to |SYMBOLS|
      invariant forall j :: 0 <= j < i ==> SYMBOLS[j] != c
    {
      if SYMBOLS[i] == c {
        return true;
      }
    }
    return false;
  }

  // ---------------------------------------------------------------------
  // As written

  /** One turn of skipComments as written, and the cursor after it. */
  datatype Turn = Turn(more: bool, cursor: Cursor)

  /** The `//` loop as written stops only at a newline: at the terminator
      it goes on reading past the end of the source (None). */
  function LineAsWritten(s: string, c: Cursor): (r: Option<Cursor>)
    ensures r.Some? ==> r.value == LineRest(s, c)
    decreases |s| - c.pos
  {
    if At(s, c.pos) == '\n' then Some(c)
    else if At(s, c.pos) == NUL then None
    else LineAsWritten(s, Cursor(c.pos + 1, c.carrot + 1, c.line))
  }

  /** skipComments as written: true for any `/`, also when nothing is
      skipped. */
  function CommentAsWritten(s: string, c: Cursor): (r: Option<Turn>)
    ensures r.Some? ==> (r.value.more <==> At(s, c.pos) == '/')
    ensures r.Some? && Comment(s, c).Some? ==> r.value.cursor == Comment(s, c).value
    ensures Comment(s, c).None? ==> r == Some(Turn(At(s, c.pos) == '/', c))
  {
    if At(s, c.pos) != '/' then Some(Turn(false, c))
    else if At(s, c.pos + 1) == '/' then
      match LineAsWritten(s, c)
      case None => None
      case Some(d) => Some(Turn(true, d))
    else Some(Turn(true, c))
  }

  /** One turn of the do-while loop of skipWhitespace as written. */
  function WhitespaceTurnAsWritten(s: string, c: Cursor): (r: Option<Turn>)
    ensures r.Some? ==> c.pos <= r.value.cursor.pos
    ensures r.Some? && !r.value.more ==> !IsSpace(At(s, r.value.cursor.pos)) && At(s, r.value.cursor.pos) != '/'
  {
    CommentAsWritten(s, SpaceRun(s, c))
  }

  /** lexString's loop as written: after taking a character it tests the
      character that follows it for a backslash, and skips that
      backslash rather than the character it escapes. */
  function StringEndAsWritten(s: string, i: nat): (e: nat)
    ensures i <= e
    ensures At(s, e) == NUL || (i < e <= |s| && s[e - 1] == '"')
    decreases |s| - i
  {
    if At(s, i) == NUL then i
    else if s[i] == '"' then i + 1
    else if At(s, i + 1) == '\\' then StringEndAsWritten(s, i + 2)
    else StringEndAsWritten(s, i + 1)
  }
}
