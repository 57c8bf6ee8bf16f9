/** Properties of the scanner: keywords and symbols, progress and bounds
    of every token, line counting, and the as-written defects of
    skipComments and lexString. */
module LexerFacts {
  import opened CharClass
  import opened Tags
  import opened Options
  import opened Lexer

  /** The keywords start with five different letters, so at most one
      matches, and lexKeyword finds exactly the one that does. */
  lemma KeywordFound(s: string, pos: nat)
    ensures forall k :: 0 <= k < |KEYWORDS| ==>
      (KeywordScan(s, pos) == Some(Lexed(TK_FOR + k, |KEYWORDS[k]|)) <==> KeywordAt(s, pos, k))
    ensures KeywordScan(s, pos).None? <==> forall k :: 0 <= k < |KEYWORDS| ==> !KeywordAt(s, pos, k)
  {
    KeywordsFrom(s, pos, |KEYWORDS|);
  }

  lemma {:induction false} KeywordsFrom(s: string, pos: nat, n: nat)
    requires n <= |KEYWORDS|
    ensures forall k :: 0 <= k < n ==>
      (KeywordIn(s, pos, n) == Some(Lexed(TK_FOR + k, |KEYWORDS[k]|)) <==> KeywordAt(s, pos, k))
    ensures KeywordIn(s, pos, n).None? <==> forall k :: 0 <= k < n ==> !KeywordAt(s, pos, k)
  {
    if n > 0 {
      KeywordsFrom(s, pos, n - 1);
      assert KEYWORDS[0][0] == 'f' && KEYWORDS[1][0] == 'd' && KEYWORDS[2][0] == 'w';
      assert KEYWORDS[3][0] == 'i' && KEYWORDS[4][0] == 'e';
      forall k | 0 <= k < n - 1 && KeywordAt(s, pos, k)
        ensures !KeywordAt(s, pos, n - 1)
      {
        assert At(s, pos) == KEYWORDS[k][0];
      }
    }
  }

  /** The longest symbol wins: a one-character symbol is lexed only where
      no two- or three-character symbol starts, and a two-character one
      only where no three-character one starts. */
  lemma LongestSymbol(s: string, pos: nat)
    ensures SymbolScan(s, pos).Some? && SymbolScan(s, pos).value.size <= 2 ==>
      forall w :: w in SYMBOL3 ==> !StartsWith(s, pos, w)
    ensures SymbolScan(s, pos).Some? && SymbolScan(s, pos).value.size == 1 ==>
      forall w :: w in SYMBOL2 ==> !StartsWith(s, pos, w)
    ensures SymbolScan(s, pos).Some? && SymbolScan(s, pos).value.size >= 2 ==>
      exists w :: w in SYMBOL3 + SYMBOL2 && |w| == SymbolScan(s, pos).value.size && StartsWith(s, pos, w)
  {
    match FirstAt(s, pos, SYMBOL3, 0)
    case Some(i) =>
      assert SYMBOL3[i] in SYMBOL3 + SYMBOL2;
    case None =>
      match FirstAt(s, pos, SYMBOL2, 0)
      case Some(i) =>
        assert SYMBOL2[i] in SYMBOL3 + SYMBOL2;
      case None =>
  }

  /** lexNext from any cursor inside the source: the lookahead starts
      after the whitespace and comments and ends inside the source, and
      it is empty exactly when it is EOF. */
  lemma NextInside(s: string, c: Cursor)
    requires c.pos <= |s|
    ensures var d := Skip(s, c); var l := Classify(s, d.pos);
      c.pos <= d.pos && d.pos + l.size <= |s| &&
      (d.pos == |s| || s[d.pos] == NUL ==> l == Lexed(TK_EOF, 0)) &&
      (d.pos < |s| && s[d.pos] != NUL ==> l.size >= 1)
  {
  }

  /** The number of line breaks in `t`. */
  function Newlines(t: string): nat {
    if t == [] then 0 else (if t[0] == '\n' then 1 else 0) + Newlines(t[1..])
  }

  lemma {:induction false} NewlinesConcat(a: string, b: string)
    ensures Newlines(a + b) == Newlines(a) + Newlines(b)
  {
    if a != [] {
      assert (a + b)[0] == a[0];
      assert (a + b)[1..] == a[1..] + b;
      NewlinesConcat(a[1..], b);
    } else {
      assert a + b == b;
    }
  }

  lemma {:induction false} SpaceRunLines(s: string, c: Cursor)
    requires c.pos <= |s|
    ensures SpaceRun(s, c).line == c.line + Newlines(s[c.pos..SpaceRun(s, c).pos])
    decreases |s| - c.pos
  {
    if c.pos < |s| && IsSpace(s[c.pos]) {
      var d := Advance(c, s[c.pos]);
      SpaceRunLines(s, d);
      var e := SpaceRun(s, d).pos;
      assert s[c.pos..e][1..] == s[d.pos..e];
    }
  }

  lemma {:induction false} LineRestLines(s: string, c: Cursor)
    requires c.pos <= |s|
    ensures Newlines(s[c.pos..LineRest(s, c).pos]) == 0
    decreases |s| - c.pos
  {
    if !(At(s, c.pos) == '\n' || At(s, c.pos) == NUL) {
      var d := Cursor(c.pos + 1, c.carrot + 1, c.line);
      LineRestLines(s, d);
      var e := LineRest(s, d).pos;
      assert s[c.pos..e][1..] == s[d.pos..e];
    }
  }

  /** skipWhitespace counts every line break it passes: comments stop at
      the newline, which the whitespace loop then counts. */
  lemma {:induction false} SkipLines(s: string, c: Cursor)
    requires c.pos <= |s|
    ensures Skip(s, c).line == c.line + Newlines(s[c.pos..Skip(s, c).pos])
    decreases |s| - c.pos
  {
    var e := SpaceRun(s, c);
    SpaceRunLines(s, c);
    match Comment(s, e)
    case None =>
    case Some(f) =>
      LineRestLines(s, e);
      SkipLines(s, f);
      var d := Skip(s, f).pos;
      assert c.pos <= e.pos <= f.pos <= d <= |s|;
      assert s[c.pos..d] == s[c.pos..e.pos] + s[e.pos..d];
      assert s[e.pos..d] == s[e.pos..f.pos] + s[f.pos..d];
      NewlinesConcat(s[c.pos..e.pos], s[e.pos..d]);
      NewlinesConcat(s[e.pos..f.pos], s[f.pos..d]);
  }

  /** As written, a `/` that does not start `//` makes skipComments
      report a comment without moving, so the do-while loop of
      skipWhitespace repeats from the same cursor for ever; corrected,
      the slash is left to the classifiers, which consume it. */
  lemma LoneSlash(s: string, c: Cursor)
    requires At(s, c.pos) == '/' && At(s, c.pos + 1) != '/'
    ensures WhitespaceTurnAsWritten(s, c) == Some(Turn(true, c))
    ensures Skip(s, c) == c
    ensures Classify(s, c.pos).size >= 1
  {
    assert SpaceRun(s, c) == c;
  }

  /** As written, a `//` comment that runs to the end of the source is
      read past the terminator; corrected, it ends there. */
  lemma {:induction false} TrailingComment(s: string, c: Cursor)
    requires c.pos <= |s|
    requires forall j :: c.pos <= j < |s| ==> s[j] != '\n' && s[j] != NUL
    ensures LineAsWritten(s, c).None?
    ensures LineRest(s, c) == Cursor(|s|, c.carrot + |s| - c.pos, c.line)
    decreases |s| - c.pos
  {
    if c.pos < |s| {
      TrailingComment(s, Cursor(c.pos + 1, c.carrot + 1, c.line));
    }
  }

  /** The input `"a\"b"` followed by `;`. */
  const ESCAPED: string := "\"a\\\"b\";"

  /** As written, lexString ends `"a\"b"` at the escaped quote, four
      characters in; corrected, the literal is all six characters. */
  lemma EscapedQuote()
    ensures StringEndAsWritten(ESCAPED, 1) == 4
    ensures StringScan(ESCAPED, 0) == Some(Lexed(TK_STRING, 6))
  {
    assert StringEnd(ESCAPED, 1) == StringEnd(ESCAPED, 2) == StringEnd(ESCAPED, 4) == 6;
  }

  /** Keywords take priority over identifiers only when they end there. */
  lemma KeywordOrIdent()
    ensures Classify("if x", 0) == Lexed(TK_FOR + 3, 2)
    ensures Classify("iffy", 0) == Lexed(TK_IDENT, 4)
  {
    KeywordFound("if x", 0);
    assert KeywordAt("if x", 0, 3);
    KeywordFound("iffy", 0);
    assert Span("iffy", 1, IdentChars) == 3;
  }

  /** Hex literals need a digit after `0x`, and a `.` makes a float. */
  lemma NumberForms()
    ensures NumberScan("0x1F;", 0) == Some(Lexed(TK_INT, 4))
    ensures NumberScan("0x;", 0) == Some(Lexed(TK_INT, 1))
    ensures NumberScan("12.5;", 0) == Some(Lexed(TK_FLOAT, 4))
  {
    assert Span("0x1F;", 3, HexDigits) == 1;
    assert Span("12.5;", 1, Digits) == 1;
    assert Span("12.5;", 3, Digits) == 1;
  }

  // ---------------------------------------------------------------------
  // Numbers and string literals over all inputs

  /** The characters from `i` to `j` are all of class `k`, and the one at
      `j` is not: `j` ends the run that starts at `i`. */
  predicate RunEnds(s: string, i: nat, j: nat, k: Class) {
    i <= j && (forall m :: i <= m < j ==> InClass(At(s, m), k)) && !InClass(At(s, j), k)
  }

  /** `0x` or `0X` and a hex digit start at `pos`. */
  predicate HexPrefix(s: string, pos: nat) {
    At(s, pos) == '0' && (At(s, pos + 1) == 'x' || At(s, pos + 1) == 'X') && IsHex(At(s, pos + 2))
  }

  /** A run is determined by where it starts. */
  lemma SpanIsRun(s: string, i: nat, j: nat, k: Class)
    requires RunEnds(s, i, j, k)
    ensures Span(s, i, k) == j - i
  {
    var n := Span(s, i, k);
    assert !InClass(At(s, i + n), k) && !InClass(At(s, j), k);
  }

  /** lexNumber takes a maximal token: after `0x`, the whole hex run that
      follows; otherwise the whole digit run ending at `d`, and when a `.`
      follows it, the `.` and the whole digit run after that, as a float.
      In every case the character after the token is outside its class. */
  lemma NumberMaximal(s: string, pos: nat, d: nat)
    requires RunEnds(s, pos, d, Digits) && pos < d
    ensures NumberScan(s, pos).Some?
    ensures HexPrefix(s, pos) ==>
      var l := NumberScan(s, pos).value;
      l.kind == TK_INT && 3 <= l.size && RunEnds(s, pos + 2, pos + l.size, HexDigits)
    ensures !HexPrefix(s, pos) && At(s, d) == '.' ==>
      var l := NumberScan(s, pos).value;
      l.kind == TK_FLOAT && d < pos + l.size && RunEnds(s, d + 1, pos + l.size, Digits)
    ensures !HexPrefix(s, pos) && At(s, d) != '.' ==>
      NumberScan(s, pos) == Some(Lexed(TK_INT, d - pos))
  {
    assert IsDigit(At(s, pos));
    if !HexPrefix(s, pos) {
      SpanIsRun(s, pos + 1, d, Digits);
    }
  }

  /** The characters from `i` to `j` form a literal body: no NUL, and every
      `"` escaped by a backslash that is itself not escaped. */
  predicate Body(s: string, i: nat, j: nat)
    decreases j - i
  {
    i == j
    || (i < j && At(s, i) != '"' && At(s, i) != '\\' && At(s, i) != NUL && Body(s, i + 1, j))
    || (i + 1 < j && At(s, i) == '\\' && At(s, i + 1) != NUL && Body(s, i + 2, j))
  }

  /** The corrected scan of a literal body: it stops just past a `"` that
      closes a body, or at the terminator after a body, possibly with a
      lone backslash before the terminator. */
  lemma {:induction false} StringEndCloses(s: string, i: nat)
    ensures var e := StringEnd(s, i);
      (i < e && At(s, e - 1) == '"' && Body(s, i, e - 1))
      || (At(s, e) == NUL && (Body(s, i, e) || (i < e && At(s, e - 1) == '\\' && Body(s, i, e - 1))))
    decreases |s| - i
  {
    if At(s, i) == NUL {
    } else if s[i] == '"' {
    } else if s[i] == '\\' && At(s, i + 1) != NUL {
      StringEndCloses(s, i + 2);
    } else {
      StringEndCloses(s, i + 1);
    }
  }

  /** Conversely, the first `"` after a body closes the literal. */
  lemma {:induction false} StringEndAtQuote(s: string, i: nat, q: nat)
    requires Body(s, i, q) && At(s, q) == '"'
    ensures StringEnd(s, i) == q + 1
    decreases q - i
  {
    if i == q {
    } else if At(s, i) == '\\' && At(s, i + 1) != NUL && i + 1 < q && Body(s, i + 2, q) {
      StringEndAtQuote(s, i + 2, q);
    } else {
      StringEndAtQuote(s, i + 1, q);
    }
  }

  /** and a body that runs into the terminator ends the literal there. */
  lemma {:induction false} StringEndAtNul(s: string, i: nat, k: nat)
    requires Body(s, i, k) && At(s, k) == NUL
    ensures StringEnd(s, i) == k
    decreases k - i
  {
    if i == k {
    } else if At(s, i) == '\\' && At(s, i + 1) != NUL && i + 1 < k && Body(s, i + 2, k) {
      StringEndAtNul(s, i + 2, k);
    } else {
      StringEndAtNul(s, i + 1, k);
    }
  }

  /** lexString over all inputs: the literal is the opening `"`, a body and
      the first unescaped closing `"`, or it runs to the terminator. */
  lemma StringMaximal(s: string, pos: nat)
    requires At(s, pos) == '"'
    ensures StringScan(s, pos).Some? && StringScan(s, pos).value.kind == TK_STRING
    ensures var e := pos + StringScan(s, pos).value.size;
      (pos + 1 < e && At(s, e - 1) == '"' && Body(s, pos + 1, e - 1))
      || (At(s, e) == NUL && (Body(s, pos + 1, e) || (pos + 1 < e && At(s, e - 1) == '\\' && Body(s, pos + 1, e - 1))))
    ensures forall q: nat :: Body(s, pos + 1, q) && At(s, q) == '"' ==> StringScan(s, pos).value.size == q + 1 - pos
  {
    StringEndCloses(s, pos + 1);
    forall q: nat | Body(s, pos + 1, q) && At(s, q) == '"'
      ensures StringEnd(s, pos + 1) == q + 1
    {
      StringEndAtQuote(s, pos + 1, q);
    }
  }
}
