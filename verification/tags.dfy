/** Token and syntax-tree tags of the newest parser (src/lexer.h,
    src/parser.h) and the operator table of src/parser.c.

    src/lexer.h declares the tags up to TK_EQ.  The remaining operator
    tokens, TK_LET and TK_INT are used by the parser and the lexer but
    declared nowhere in the repository; they are numbered here after TK_EQ
    in the order of the operator table, so that every operator token indexes
    its own table row as the parser presumes.  `(`, `)` and `;` are
    single-character tokens and carry their ASCII code, as the lexer gives
    them.  AST_ERROR, AST_BLOCK and AST_LET are likewise undeclared and get
    small values below every token tag. */
module Tags {

  // Token tags (src/lexer.h)
  const TK_UNKNOWN: int := 0
  const TK_LPAREN: int := 40
  const TK_RPAREN: int := 41
  const TK_SEMICOLON: int := 59
  const TK_EOF: int := 128
  const TK_IDENT: int := 129
  const TK_DECIMAL: int := 130
  const TK_HEX: int := 131
  const TK_BINARY: int := 132
  const TK_OCTAL: int := 133
  const TK_CHAR: int := 134
  const TK_FLOAT: int := 135
  const TK_STRING: int := 136
  const TK_FOR: int := 137
  const TK_ELSE: int := 141
  const TK_LSHIFTEQ: int := 142
  const TK_INC: int := 144
  const TK_POW: int := 146
  const TK_EQ: int := 162
  const TK_DOT: int := 163
  const TK_COMMA: int := 164
  const TK_ASSIGN: int := 165
  const TK_ADD: int := 166
  const TK_SUB: int := 167
  const TK_MUL: int := 168
  const TK_DIV: int := 169
  const TK_MOD: int := 170
  const TK_NOT: int := 175
  const TK_BITNOT: int := 177
  const TK_LET: int := 179
  const TK_INT: int := 180

  // Node tags (src/parser.h); operator nodes reuse their token's tag.
  const AST_UNKNOWN: int := 0
  const AST_PASS: int := 1
  const AST_ERROR: int := 2
  const AST_BLOCK: int := 3
  const AST_LET: int := 4
  const AST_IDENT: int := TK_IDENT
  const AST_VALUE: int := TK_IDENT + 1
  const AST_ASSIGN: int := TK_ASSIGN
  const AST_NOT: int := TK_NOT
  const AST_NEGATE: int := TK_BITNOT + 1

  /** A token: its tag and the characters it spans. */
  datatype Token = Token(kind: int, text: string)

  /** `isOperator`: the operator tokens, plus the NEGATE and PASS nodes. */
  predicate IsOperator(t: int) {
    (TK_LSHIFTEQ <= t <= TK_BITNOT) || t == AST_NEGATE || t == AST_PASS
  }

  /** `isUnarySymbol`: the tokens that may open an expression as a prefix operator. */
  predicate IsUnarySymbol(t: int) {
    t == TK_SUB || t == TK_NOT
  }

  /** `isUnary`: the node types built with a single child. */
  predicate IsUnary(t: int) {
    t == AST_NOT || t == AST_NEGATE
  }

  /** `isExpression`: `(` and the identifier and literal tokens. */
  predicate IsExpression(t: int) {
    t == TK_LPAREN || (TK_IDENT <= t <= TK_STRING)
  }

  // ---------------------------------------------------------------------
  // The operator table

  datatype Assoc = Left | Right

  /** What walkTree calls for an operator; NoFunction is a NULL table entry. */
  datatype OpFunction = NoFunction | PowFn | AssignFn | AddFn | SubFn | MulFn | DivFn | ModFn | NegateFn

  datatype OpInfo = OpInfo(precedence: int, associativity: Assoc, operation: OpFunction)

  /** `opinfo`, one row per tag from TK_LSHIFTEQ to AST_NEGATE. */
  const OPINFO: seq<OpInfo> := [
    OpInfo(2, Right, NoFunction),     // <<=
    OpInfo(2, Right, NoFunction),     // >>=
    OpInfo(2, Right, NoFunction),     // ++
    OpInfo(2, Right, NoFunction),     // --
    OpInfo(5, Left, PowFn),           // **
    OpInfo(2, Left, NoFunction),      // +=
    OpInfo(2, Left, NoFunction),      // -=
    OpInfo(2, Left, NoFunction),      // *=
    OpInfo(2, Left, NoFunction),      // /=
    OpInfo(2, Left, NoFunction),      // %=
    OpInfo(2, Right, NoFunction),     // ||
    OpInfo(2, Right, NoFunction),     // &&
    OpInfo(2, Left, NoFunction),      // |=
    OpInfo(2, Left, NoFunction),      // &=
    OpInfo(2, Left, NoFunction),      // ^=
    OpInfo(2, Right, NoFunction),     // <<
    OpInfo(2, Right, NoFunction),     // >>
    OpInfo(2, Right, NoFunction),     // !=
    OpInfo(2, Right, NoFunction),     // <=
    OpInfo(2, Right, NoFunction),     // >=
    OpInfo(2, Right, NoFunction),     // ==
    OpInfo(2, Right, NoFunction),     // .
    OpInfo(2, Right, NoFunction),     // ,
    OpInfo(1, Left, AssignFn),        // =
    OpInfo(2, Right, AddFn),          // +
    OpInfo(2, Right, SubFn),          // -
    OpInfo(3, Right, MulFn),          // *
    OpInfo(3, Right, DivFn),          // /
    OpInfo(3, Right, ModFn),          // %
    OpInfo(2, Right, NoFunction),     // <
    OpInfo(2, Right, NoFunction),     // >
    OpInfo(2, Right, NoFunction),     // &
    OpInfo(2, Right, NoFunction),     // |
    OpInfo(2, Right, NoFunction),     // !
    OpInfo(2, Right, NoFunction),     // ^
    OpInfo(2, Right, NoFunction),     // ~
    OpInfo(6, Right, NegateFn)        // unary -
  ]

  /** A tag with a row in the operator table. */
  predicate HasOpInfo(t: int) {
    TK_LSHIFTEQ <= t <= AST_NEGATE
  }

  /** The tags that can appear in a tree while it is being parsed. */
  predicate TreeTag(t: int) {
    t < TK_LSHIFTEQ || HasOpInfo(t)
  }

  /** `precedence`: the table's value for operators and 999 ("infinite")
      for every tag below the operators, so primaries bind tightest. */
  function Precedence(t: int): (p: int)
    requires TreeTag(t)
    ensures t < TK_LSHIFTEQ <==> p == 999
    ensures HasOpInfo(t) ==> 1 <= p <= 6
  {
    if t < TK_LSHIFTEQ then 999 else OPINFO[t - TK_LSHIFTEQ].precedence
  }

  /** `associativity`. */
  function Associativity(t: int): (a: Assoc)
    requires HasOpInfo(t)
    ensures a == Left <==> t == TK_POW || t == TK_ASSIGN || 147 <= t <= 151 || 154 <= t <= 156
  {
    OPINFO[t - TK_LSHIFTEQ].associativity
  }

  /** `function`: the object operation behind an operator tag. */
  function Function(t: int): (f: OpFunction)
    requires HasOpInfo(t)
    ensures f == AddFn <==> t == TK_ADD
    ensures f == SubFn <==> t == TK_SUB
    ensures f == MulFn <==> t == TK_MUL
    ensures f == DivFn <==> t == TK_DIV
    ensures f == ModFn <==> t == TK_MOD
    ensures f == NegateFn <==> t == AST_NEGATE
    ensures f == PowFn <==> t == TK_POW
    ensures f == AssignFn <==> t == TK_ASSIGN
  {
    OPINFO[t - TK_LSHIFTEQ].operation
  }

  /** How parser.h's predicates relate to the table: every operator except
      PASS has a row, the two leaf tags are expressions, the unary node
      types are operators, and AST_PASS sits below the table. */
  lemma TagClassification(t: int)
    ensures IsOperator(t) && t != AST_PASS ==> HasOpInfo(t)
    ensures IsUnary(t) ==> IsOperator(t) && HasOpInfo(t)
    ensures IsExpression(AST_IDENT) && IsExpression(AST_VALUE)
    ensures !IsExpression(AST_PASS) && IsOperator(AST_PASS) && !HasOpInfo(AST_PASS)
    ensures IsExpression(t) ==> !IsOperator(t)
  {
  }

  /** The rows the arithmetic relies on: `* / %` bind tighter than `+ -`,
      `=` is loosest, unary minus tightest, and `=` and `**` are the
      "left"-tagged operators that walkTree can evaluate. */
  lemma ArithmeticRows()
    ensures Precedence(TK_ADD) == Precedence(TK_SUB) == 2
    ensures Precedence(TK_MUL) == Precedence(TK_DIV) == Precedence(TK_MOD) == 3
    ensures Precedence(TK_ASSIGN) == 1 && Precedence(TK_POW) == 5 && Precedence(AST_NEGATE) == 6
    ensures Associativity(TK_ADD) == Associativity(TK_MUL) == Right
    ensures Associativity(TK_ASSIGN) == Associativity(TK_POW) == Left
  {
  }
}
