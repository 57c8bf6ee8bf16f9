/** Properties of the older scanner (src/wlex.c): how keywords are told
    from identifiers, what a comment spans, the one-character tokens, the
    token stream of `main`, and the two places where the code as written
    splits a word that was meant to stay whole. */
module WLexFacts {
  import opened CharClass
  import opened Options
  import opened WLex
  import Lexer

  // ---------------------------------------------------------------------
  // Keywords

  /** A keyword that fits starts with its own first letter. */
  lemma FitsFirstLetter(s: string, pos: nat, asWritten: bool, k: nat)
    requires k < |KEYWORDS| && Fits(s, pos, asWritten, k)
    ensures At(s, pos) == KEYWORDS[k][0] && At(s, pos) in "fdwbier"
  {
    KeywordSpelling(k);
  }

  /** The seven keywords start with seven different letters. */
  lemma FirstLettersDiffer(j: nat, k: nat)
    requires j < |KEYWORDS| && k < |KEYWORDS| && j != k
    ensures |KEYWORDS[j]| > 0 && |KEYWORDS[k]| > 0 && KEYWORDS[j][0] != KEYWORDS[k][0]
  {
    assert KEYWORDS[0][0] == 'f' && KEYWORDS[1][0] == 'd' && KEYWORDS[2][0] == 'w' && KEYWORDS[3][0] == 'b';
    assert KEYWORDS[4][0] == 'i' && KEYWORDS[5][0] == 'e' && KEYWORDS[6][0] == 'r';
  }

  /** So at most one keyword fits at a position. */
  lemma AtMostOneFits(s: string, pos: nat, asWritten: bool, j: nat, k: nat)
    requires j < |KEYWORDS| && k < |KEYWORDS|
    requires Fits(s, pos, asWritten, j) && Fits(s, pos, asWritten, k)
    ensures j == k
  {
    FitsFirstLetter(s, pos, asWritten, j);
    FitsFirstLetter(s, pos, asWritten, k);
    if j != k {
      FirstLettersDiffer(j, k);
    }
  }

  /** The search from entry `i` answers the entry that fits, and nothing
      when none from `i` on does. */
  lemma {:induction false} KeywordsFrom(s: string, pos: nat, asWritten: bool, i: nat)
    requires i <= |KEYWORDS|
    ensures forall k :: i <= k < |KEYWORDS| ==>
              (KeywordFrom(s, pos, asWritten, i) == Some(k) <==> Fits(s, pos, asWritten, k))
    ensures KeywordFrom(s, pos, asWritten, i).None? <==>
              forall k :: i <= k < |KEYWORDS| ==> !Fits(s, pos, asWritten, k)
    decreases |KEYWORDS| - i
  {
    if i < |KEYWORDS| {
      KeywordsFrom(s, pos, asWritten, i + 1);
      KeywordFromStep(s, pos, asWritten, i);
      forall k | i < k < |KEYWORDS| && Fits(s, pos, asWritten, i)
        ensures !Fits(s, pos, asWritten, k)
      {
        if Fits(s, pos, asWritten, k) {
          AtMostOneFits(s, pos, asWritten, i, k);
        }
      }
    }
  }

  /** `isKeyword` answers keyword `k` exactly when `k` fits, and 0 exactly
      when no keyword fits. */
  lemma KeywordFound(s: string, pos: nat, asWritten: bool)
    ensures forall k :: 0 <= k < |KEYWORDS| ==>
              (KeywordScan(s, pos, asWritten) == Scan(|KEYWORDS[k]|, Keyword(k)) <==> Fits(s, pos, asWritten, k))
    ensures KeywordScan(s, pos, asWritten).size == 0 <==> forall k :: 0 <= k < |KEYWORDS| ==> !Fits(s, pos, asWritten, k)
  {
    KeywordsFrom(s, pos, asWritten, 0);
    forall k | 0 <= k < |KEYWORDS|
      ensures |KEYWORDS[k]| > 0
    {
      KeywordSpelling(k);
    }
  }

  /** A keyword token is the keyword's own spelling, copied from the
      source, and no word character follows it. */
  lemma KeywordSpelled(s: string, pos: nat, asWritten: bool)
    ensures var r := KeywordScan(s, pos, asWritten);
            r.size > 0 ==> r.kind.Keyword? && r.kind.index < |KEYWORDS| &&
                           s[pos..pos + r.size] == KEYWORDS[r.kind.index] &&
                           !Continues(At(s, pos + r.size), asWritten)
  {
    var r := KeywordScan(s, pos, asWritten);
    KeywordsFrom(s, pos, asWritten, 0);
    if r.size > 0 {
      var w := KEYWORDS[r.kind.index];
      assert |w| == r.size;
      forall j | 0 <= j < |w|
        ensures s[pos..pos + |w|][j] == w[j]
      {
        assert At(s, pos + j) == w[j];
      }
    }
  }

  /** With the corrected test a keyword ends the word: the character after
      it cannot continue an identifier. */
  lemma KeywordEndsWord(s: string, pos: nat)
    ensures var t := Next(s, pos, false);
            t.kind.Keyword? ==> !Lexer.InClass(At(s, t.start + t.size), Lexer.IdentChars)
  {
    var t := Next(s, pos, false);
    KeywordSpelled(s, t.start, false);
    if t.kind.Keyword? {
      var c := At(s, t.start);
      assert IsAlpha(c) || c == '_';
      assert t.size == KeywordScan(s, t.start, false).size;
    }
  }

  /** An identifier token is where no keyword fits; it is one word,
      ended by a character that cannot continue it. */
  lemma IdentifierIsNoKeyword(s: string, pos: nat, asWritten: bool)
    ensures var t := Next(s, pos, asWritten);
            t.kind == Ident ==>
              t.size == IdentLength(s, t.start) && t.size >= 1 &&
              !Lexer.InClass(At(s, t.start + t.size), Lexer.IdentChars) &&
              forall k :: 0 <= k < |KEYWORDS| ==> !Fits(s, t.start, asWritten, k)
  {
    var t := Next(s, pos, asWritten);
    KeywordFound(s, t.start, asWritten);
  }

  /** No keyword starts with a letter other than the seven first letters. */
  lemma NoKeywordStartsWith(s: string, pos: nat, asWritten: bool)
    requires At(s, pos) !in "fdwbier"
    ensures KeywordScan(s, pos, asWritten).size == 0
  {
    KeywordFound(s, pos, asWritten);
    forall k | 0 <= k < |KEYWORDS| && Fits(s, pos, asWritten, k)
      ensures false
    {
      FitsFirstLetter(s, pos, asWritten, k);
    }
  }

  /** As written, "for1" splits into the keyword `for` and the number 1. */
  lemma KeywordSplitsWord()
    ensures Next("for1", 0, true) == Lexed(0, 3, Keyword(0))
    ensures Next("for1", 3, true) == Lexed(3, 1, Int)
  {
    var s := "for1";
    assert Skip(s, 0) == 0;
    assert Fits(s, 0, true, 0);
    KeywordFound(s, 0, true);
    assert Skip(s, 3) == 3;
    assert Lexer.Span(s, 3, Lexer.Digits) == 1;
  }

  /** With the corrected test "for1" is a single identifier. */
  lemma WordStaysWhole()
    ensures Next("for1", 0, false) == Lexed(0, 4, Ident)
  {
    var s := "for1";
    assert Skip(s, 0) == 0;
    assert !Fits(s, 0, false, 0);
    KeywordFound(s, 0, false);
    forall k | 1 <= k < |KEYWORDS| && Fits(s, 0, false, k)
      ensures false
    {
      FitsFirstLetter(s, 0, false, k);
      FirstLettersDiffer(0, k);
    }
    assert Lexer.Span(s, 4, Lexer.IdentChars) == 0;
    assert Lexer.Span(s, 3, Lexer.IdentChars) == 1;
    assert Lexer.Span(s, 2, Lexer.IdentChars) == 2;
    assert Lexer.Span(s, 1, Lexer.IdentChars) == 3;
  }

  // ---------------------------------------------------------------------
  // Numbers

  /** With the corrected test, `0x` and a hexadecimal digit make one
      integer token that takes in every hexadecimal digit that follows. */
  lemma HexConsumed(s: string, pos: nat)
    requires At(s, pos) == '0' && (At(s, pos + 1) == 'x' || At(s, pos + 1) == 'X') && IsHex(At(s, pos + 2))
    ensures var r := NumberScan(s, pos, false);
            r == Scan(2 + Lexer.Span(s, pos + 2, Lexer.HexDigits), Int) && !IsHex(At(s, pos + r.size))
  {
    assert pos + 2 < |s|;
    assert Lexer.Span(s, pos + 2, Lexer.HexDigits) == 1 + Lexer.Span(s, pos + 3, Lexer.HexDigits);
  }

  /** As written, "0xA" splits into the number 0 and the identifier xA. */
  lemma HexSplits()
    ensures Next("0xA", 0, true) == Lexed(0, 1, Int)
    ensures Next("0xA", 1, true) == Lexed(1, 2, Ident)
  {
    var s := "0xA";
    assert Skip(s, 0) == 0;
    assert Lexer.Span(s, 0, Lexer.Digits) == 1;
    assert Skip(s, 1) == 1;
    NoKeywordStartsWith(s, 1, true);
    assert Lexer.Span(s, 3, Lexer.IdentChars) == 0;
    assert Lexer.Span(s, 2, Lexer.IdentChars) == 1;
  }

  /** With the corrected test "0xA" is one integer token. */
  lemma HexWhole()
    ensures Next("0xA", 0, false) == Lexed(0, 3, Int)
  {
    var s := "0xA";
    assert Skip(s, 0) == 0;
    HexConsumed(s, 0);
    assert Lexer.Span(s, 2, Lexer.HexDigits) == 1;
  }

  /** Digits, a point and digits make one float token. */
  lemma FloatLiteral()
    ensures Next("1.5", 0, true) == Lexed(0, 3, Float)
    ensures Next("1.5", 0, false) == Lexed(0, 3, Float)
  {
    var s := "1.5";
    assert Skip(s, 0) == 0;
    assert Lexer.Span(s, 0, Lexer.Digits) == 1;
    assert Lexer.Span(s, 2, Lexer.Digits) == 1;
  }

  // ---------------------------------------------------------------------
  // Comments

  /** Everything from `i` up to the block end lies inside the comment. */
  lemma {:induction false} BlockBody(s: string, i: nat)
    ensures forall k :: i <= k < BlockEnd(s, i) ==> InsideBlock(s, k)
    decreases |s| - i
  {
    if i < |s| && InsideBlock(s, i) {
      BlockBody(s, i + 1);
    }
  }

  /** A block comment runs to its first star-slash, which it takes in,
      or, when it is not closed, to the end of the input. */
  lemma BlockComment(s: string, pos: nat)
    requires At(s, pos) == '/' && At(s, pos + 1) == '*'
    ensures var n := CommentLength(s, pos);
            (4 <= n && At(s, pos + n - 2) == '*' && At(s, pos + n - 1) == '/' &&
             forall k :: pos + 2 <= k < pos + n - 2 ==> InsideBlock(s, k)) ||
            (At(s, pos + n) == NUL && forall k :: pos + 2 <= k < pos + n ==> InsideBlock(s, k))
  {
    BlockBody(s, pos + 2);
  }

  /** Everything from `i` up to the line end belongs to the line. */
  lemma {:induction false} LineBody(s: string, i: nat)
    ensures forall k :: i <= k < LineEnd(s, i) ==> At(s, k) != NUL && At(s, k) != '\n'
    decreases |s| - i
  {
    if i < |s| && s[i] != NUL && s[i] != '\n' {
      LineBody(s, i + 1);
    }
  }

  /** A line comment runs up to the newline, which it leaves in place. */
  lemma LineComment(s: string, pos: nat)
    requires At(s, pos) == '/' && At(s, pos + 1) == '/'
    ensures var n := CommentLength(s, pos);
            (At(s, pos + n) == '\n' || At(s, pos + n) == NUL) &&
            forall k :: pos + 2 <= k < pos + n ==> At(s, k) != NUL && At(s, k) != '\n'
  {
    LineBody(s, pos + 2);
  }

  /** An unclosed block comment swallows the rest of the input. */
  lemma UnclosedComment()
    ensures Next("/* x", 0, true) == Lexed(4, 0, Unset)
  {
    var s := "/* x";
    assert BlockEnd(s, 2) == 4;
    assert CommentLength(s, 0) == 4;
    assert Skip(s, 4) == 4;
  }

  /** A line comment, a blank and a block comment are all skipped. */
  lemma CommentsSkipped()
    ensures Next("// c\n/* d */x", 0, true) == Lexed(12, 1, Ident)
  {
    var s := "// c\n/* d */x";
    assert LineEnd(s, 2) == 4;
    assert CommentLength(s, 0) == 4;
    assert SpaceEnd(s, 4) == 5;
    assert BlockEnd(s, 7) == 10;
    assert CommentLength(s, 5) == 7;
    assert Skip(s, 12) == 12;
    assert Skip(s, 4) == 12;
    KeywordFound(s, 12, true);
    assert Lexer.Span(s, 13, Lexer.IdentChars) == 0;
  }

  // ---------------------------------------------------------------------
  // One-character tokens and the token stream

  /** A token that starts with neither a letter, an underscore nor a digit
      is one character long; it has no type written when it is a symbol
      and is unknown otherwise. */
  lemma OneCharacter(s: string, pos: nat, asWritten: bool)
    ensures var t := Next(s, pos, asWritten);
            var c := At(s, t.start);
            c != NUL && !IsAlpha(c) && c != '_' && !IsDigit(c) ==>
              t.size == 1 && (t.kind == Unset <==> c in SYMBOLS) && (t.kind == Unknown <==> c !in SYMBOLS)
  {
  }

  /** The tokens of `main`'s loop are non-empty, lie inside the source
      from `pos` on, and follow one another without overlapping. */
  lemma {:induction false} TokensInOrder(s: string, pos: nat, asWritten: bool)
    requires pos <= |s|
    ensures var ts := Tokens(s, pos, asWritten);
            (forall k :: 0 <= k < |ts| ==> pos <= ts[k].start && 0 < ts[k].size && ts[k].start + ts[k].size <= |s|) &&
            (forall k :: 0 <= k < |ts| - 1 ==> ts[k].start + ts[k].size <= ts[k + 1].start)
    decreases |s| - pos
  {
    var t := Next(s, pos, asWritten);
    if t.size > 0 {
      var end := t.start + t.size;
      TokensNext(s, pos, asWritten, end);
      TokensInOrder(s, end, asWritten);
      var rest := Tokens(s, end, asWritten);
      assert Tokens(s, pos, asWritten) == [t] + rest;
      assert forall k :: 1 <= k < 1 + |rest| ==> ([t] + rest)[k] == rest[k - 1];
    } else {
      TokensEnd(s, pos, asWritten);
    }
  }
}
