/** The error paths of src/parser.c on small token streams, and the two
    associativities its operator table gives. */
module ParserCases {
  import opened Tags
  import opened Objects
  import opened Parser
  import opened ParserFacts
  import opened Options

  /** `x o t` where `t` can start no operand: the operator's right operand
      is missing, and the partial tree gives way to an error. */
  lemma MissingOperand(x: Token, o: Token, t: Token)
    requires Primary(x) && Binary(o)
    requires !IsExpression(t.kind) && !IsUnarySymbol(t.kind) && t.kind != TK_EOF
    ensures ExprSpec([x, o, t], 0) == Parsed(ErrorNode(EXPECTED_EXPRESSION), 2)
  {
    var toks := [x, o, t];
    TagClassification(x.kind);
    var X := Leaf(x);
    StepLeaf(toks, 0, Climb(Hole, None, Operand));
    RootedBinary(o.kind, X);
    StepOperator(toks, 1, Climb(X, None, Operator));
  }

  /** `x o ( y` with the stream ending inside the parentheses: the error
      replaces the tree built so far. */
  lemma UnclosedParen(x: Token, o: Token, lp: Token, y: Token)
    requires Primary(x) && Binary(o) && lp.kind == TK_LPAREN && Primary(y)
    ensures ExprSpec([x, o, lp, y], 0) == Parsed(ErrorNode(EXPECTED_PAREN), 4)
  {
    var toks := [x, o, lp, y];
    TagClassification(x.kind);
    var X := Leaf(x);
    StepLeaf(toks, 0, Climb(Hole, None, Operand));
    RootedBinary(o.kind, X);
    StepOperator(toks, 1, Climb(X, None, Operator));
    StepLeaf(toks, 3, Climb(Hole, None, Operand));
    assert ExprSpec(toks, 3) == Parsed(Leaf(y), 4);
  }

  /** An expression statement followed by anything but `;` (and not an
      operator that would continue it) is an error. */
  lemma MissingSemicolon(x: Token, t: Token)
    requires Primary(x) && !IsOperator(t.kind) && t.kind != TK_SEMICOLON
    ensures StmtSpec([x, t], 0) == Parsed(ErrorNode(EXPECTED_SEMICOLON), 1)
  {
    var toks := [x, t];
    TagClassification(x.kind);
    StepLeaf(toks, 0, Climb(Hole, None, Operand));
    assert ExprSpec(toks, 0) == Parsed(Leaf(x), 1);
  }

  /** `x ; let t` with `t` not an identifier: the declaration is an error,
      and parseBlock returns it in place of the block holding `x`. */
  lemma ErrorAbortsBlock(x: Token, semi: Token, l: Token, t: Token)
    requires Primary(x) && semi.kind == TK_SEMICOLON && l.kind == TK_LET && t.kind != TK_IDENT
    ensures Blocking([x, semi, l, t], 0, TK_EOF, []) == Parsed(ErrorNode(EXPECTED_IDENT), 3)
  {
    var toks := [x, semi, l, t];
    TagClassification(x.kind);
    StepLeaf(toks, 0, Climb(Hole, None, Operand));
    assert ExprSpec(toks, 0) == Parsed(Leaf(x), 1);
    assert StmtSpec(toks, 0) == Parsed(Leaf(x), 2);
    assert Blocking(toks, 0, TK_EOF, []) == Blocking(toks, 2, TK_EOF, [Leaf(x)]);
    assert StmtSpec(toks, 2) == Parsed(ErrorNode(EXPECTED_IDENT), 3);
  }

  /** `10 - 3 - 2`: `-` is "right"-tagged, so the second minus takes the
      first difference as its left operand. */
  lemma SubtractionGroupsLeft(x: Token, m1: Token, y: Token, m2: Token, z: Token)
    requires Primary(x) && Primary(y) && Primary(z) && m1.kind == TK_SUB && m2.kind == TK_SUB
    ensures ExprSpec([x, m1, y, m2, z], 0) ==
      Parsed(BinNode(m2, BinNode(m1, Leaf(x), Leaf(y)), Leaf(z)), 5)
  {
    ArithmeticRows();
    ThreeOperands(x, m1, y, m2, z);
  }

  /** `2 ** 3 ** 2`: `**` is "left"-tagged, so the second power attaches
      at the tail and takes `3` as its left operand. */
  lemma PowerGroupsRight(x: Token, p1: Token, y: Token, p2: Token, z: Token)
    requires Primary(x) && Primary(y) && Primary(z) && p1.kind == TK_POW && p2.kind == TK_POW
    ensures ExprSpec([x, p1, y, p2, z], 0) ==
      Parsed(BinNode(p1, Leaf(x), BinNode(p2, Leaf(y), Leaf(z))), 5)
  {
    ArithmeticRows();
    ThreeOperands(x, p1, y, p2, z);
  }
}
