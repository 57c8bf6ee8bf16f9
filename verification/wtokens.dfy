/** Token and node tags of the older snapshot's parsers (src/wparse.c,
    src/wparser.c).  No header declares the numbering these parsers use:
    src/wlex.h stops at TK_STRING, has no TK_COLON or operator tags, and
    numbers TK_LPAREN 10 and TK_IDENT 16.  The numbers here agree with
    src/wlex.h from TK_UNKNOWN to TK_COMMA only; from TK_COMMA on they
    follow the list in the comment above src/wparser.c's precedence table,
    which that table is indexed by, so TK_LPAREN is 11; TK_IDENT, TK_INT
    and TK_FLOAT come after TK_NOT. */
module WTokens {
  import opened CInt

  const TK_UNKNOWN := 0
  const TK_FOR := 1
  const TK_RETURN := 7
  const TK_COMMA := 8
  const TK_LPAREN := 11
  const TK_RPAREN := 12
  const TK_INC := 17
  const TK_ASSIGN := 28
  const TK_ADD := 31
  const TK_SUB := 32
  const TK_MUL := 33
  const TK_DIV := 34
  const TK_MOD := 35
  const TK_NOT := 38
  const TK_IDENT := 39
  const TK_INT := 40
  const TK_FLOAT := 41

  /** `ast_type_t` of src/wparser.h. */
  const AST_INC := 1
  const AST_ADD := 15
  const AST_SUB := 16
  const AST_MUL := 17
  const AST_DIV := 18
  const AST_MOD := 19
  const AST_INT := 24

  /** A token as the parsers read it: its type and the integer of its
      value union (the bits of a float for TK_FLOAT). */
  datatype Token = Token(kind: int, value: Int64)

  /** `isOperator` of src/wparse.c, also taken as `isTKOperator`. */
  predicate IsOperator(t: int) {
    TK_INC <= t <= TK_NOT
  }

  /** `isExpression` of src/wparse.c. */
  predicate IsExpression(t: int) {
    t == TK_IDENT || t == TK_INT || t == TK_FLOAT
  }

  /** The node type src/wparser.c gives a reduced operator. */
  function AstOf(op: int): int {
    op - TK_INC + AST_INC
  }

  /** The two enumerations line up: each arithmetic token maps to the node
      type of the same name, and parentheses map below AST_INC. */
  lemma AstAlignment()
    ensures AstOf(TK_ADD) == AST_ADD && AstOf(TK_SUB) == AST_SUB
    ensures AstOf(TK_MUL) == AST_MUL && AstOf(TK_DIV) == AST_DIV && AstOf(TK_MOD) == AST_MOD
    ensures AstOf(TK_LPAREN) < AST_INC
  {
  }
}
