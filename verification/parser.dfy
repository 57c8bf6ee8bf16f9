/** The precedence-climbing parser of src/parser.c over an abstract token
    stream: the lookahead is the token at `pos`, and the end of the stream
    reads as TK_EOF.  Pointer surgery on `ast_node_t` becomes the
    replacement of a subtree of a tree value. */
module Parser {
  import opened Tags
  import opened Objects
  import opened Options

  /** `ast_node_t`: a tag, a value and the children; Hole is a NULL child. */
  datatype Tree = Hole | Node(tag: int, value: Object, kids: seq<Tree>)

  /** A parse: the tree (Hole for NULL) and where the lookahead stopped;
      Undefined where the C code dereferences NULL or reads outside a table. */
  datatype Parsed = Parsed(tree: Tree, pos: nat) | Undefined

  const EXPECTED_EXPRESSION: string := "expected an expression"
  const EXPECTED_PAREN: string := "expected closing parenthesis"
  const EXPECTED_IDENT: string := "expected an identifier"
  const EXPECTED_SEMICOLON: string := "expected a semicolon"

  /** The lookahead at `pos`: past the last token the lexer keeps
      returning TK_EOF. */
  function Look(toks: seq<Token>, pos: nat): (t: Token)
    ensures t.kind != TK_EOF ==> pos < |toks| && t == toks[pos]
  {
    if pos < |toks| then toks[pos] else Token(TK_EOF, [])
  }

  /** `_winter_lexNext`: the stream moves on unless it is at its end. */
  function Next(toks: seq<Token>, pos: nat): nat {
    if pos < |toks| then pos + 1 else pos
  }

  // ---------------------------------------------------------------------
  // Nodes (createEprNode, createOprNode, createErrorNode)

  /** An identifier or literal leaf.  An identifier carries its name as a
      String: the evaluator looks names up by it. */
  function Leaf(t: Token): (n: Tree)
    ensures n.Node? && n.kids == [] && (n.tag == AST_IDENT || n.tag == AST_VALUE)
  {
    if t.kind == TK_IDENT then Node(AST_IDENT, Str(t.text), [])
    else Node(AST_VALUE, TokenValue(t), [])
  }

  /** The PASS node a parenthesised expression hangs from. */
  function Paren(inner: Tree): Tree {
    Node(AST_PASS, Unknown, [inner])
  }

  /** An operator node with its operand slots empty: one for the unary
      node types, two for the others.  The value is left unset in C;
      the model uses the all-zero object. */
  function OpNode(tag: int): (n: Tree)
    ensures n.Node? && n.tag == tag && |n.kids| == (if IsUnary(tag) then 1 else 2)
    ensures forall i :: 0 <= i < |n.kids| ==> n.kids[i] == Hole
  {
    Node(tag, Unknown, if IsUnary(tag) then [Hole] else [Hole, Hole])
  }

  function ErrorNode(msg: string): Tree {
    Node(AST_ERROR, Error(msg), [])
  }

  predicate IsError(t: Tree) {
    t.Node? && t.tag == AST_ERROR
  }

  // ---------------------------------------------------------------------
  // The right spine

  /** The type of a node, AST_UNKNOWN for NULL. */
  function Kind(t: Tree): int {
    if t.Node? then t.tag else AST_UNKNOWN
  }

  /** `precedence` of a node's type: 999 for every non-operator. */
  function Prec(t: Tree): (p: int)
    ensures p <= 999
    ensures p < 999 ==> t.Node? && HasOpInfo(t.tag)
  {
    if t.Node? && TreeTag(t.tag) then Precedence(t.tag) else 999
  }

  /** `children[numNodes - 1]`: the last child, NULL when there is none. */
  function LastKid(t: Tree): (c: Tree)
    ensures c.Node? ==> t.Node? && |t.kids| > 0 && c == t.kids[|t.kids| - 1]
  {
    if t.Node? && |t.kids| > 0 then t.kids[|t.kids| - 1] else Hole
  }

  /** `t` with the last child of its spine node at depth `d` replaced by
      `c` (the assignment `x->children[x->numNodes - 1] = c`). */
  function SetLast(t: Tree, d: nat, c: Tree): Tree
    decreases d
  {
    if t.Hole? || |t.kids| == 0 then t
    else if d == 0 then t.(kids := t.kids[|t.kids| - 1 := c])
    else t.(kids := t.kids[|t.kids| - 1 := SetLast(t.kids[|t.kids| - 1], d - 1, c)])
  }

  /** Lines 219-220: the new operator takes the whole tree as its first operand. */
  function Rooted(node: Tree, tree: Tree): Tree
    requires node.Node? && |node.kids| > 0
  {
    node.(kids := node.kids[0 := tree])
  }

  /** Lines 233-234: the new operator takes over the last child of the
      spine node at depth `a` as its first operand and takes its place. */
  function InsertBelow(t: Tree, a: nat, node: Tree): Tree
    requires node.Node? && |node.kids| > 0
    decreases a
  {
    if t.Hole? || |t.kids| == 0 then t
    else if a == 0 then t.(kids := t.kids[|t.kids| - 1 := Rooted(node, t.kids[|t.kids| - 1])])
    else t.(kids := t.kids[|t.kids| - 1 := InsertBelow(t.kids[|t.kids| - 1], a - 1, node)])
  }

  /** Lines 229-231: how many steps the walk takes down the spine from
      `append` while the operator binds tighter than the last child. */
  function WalkFrom(append: Tree, priority: int): nat
    requires priority <= 999
    decreases append
  {
    if priority > Prec(LastKid(append)) then 1 + WalkFrom(LastKid(append), priority) else 0
  }

  // ---------------------------------------------------------------------
  // parseExpression as a function of the token stream

  datatype Expect = Operand | Operator

  /** The local state of parseExpression: the tree, the depth of `tail`
      on the spine (None for NULL) and what the next token should be. */
  datatype Climb = Climb(tree: Tree, tail: Option<nat>, want: Expect)

  /** The depth `tail` stands at; a NULL tail is never followed here. */
  function TailDepth(tail: Option<nat>): nat {
    if tail.Some? then tail.value else 0
  }

  /** Lines 178-183: an operand goes to the top, or into the last child of `tail`. */
  function Place(s: Climb, node: Tree): Climb {
    if s.tree.Hole? then Climb(node, s.tail, Operator)
    else Climb(SetLast(s.tree, TailDepth(s.tail), node), s.tail, Operator)
  }

  /** Lines 187-196: a prefix operator goes where an operand would and
      becomes the tail; an operand is still expected. */
  function PlaceUnary(s: Climb, node: Tree): Climb {
    if s.tree.Hole? then Climb(node, Some(0), Operand)
    else Climb(SetLast(s.tree, TailDepth(s.tail), node), Some(TailDepth(s.tail) + 1), Operand)
  }

  /** A tree that is a single operand: a leaf, or a parenthesised
      expression under its PASS node. */
  predicate IsPrimary(t: Tree) {
    IsExpression(Kind(t)) || Kind(t) == AST_PASS
  }

  /** Lines 214-238: an operator after an operand, with a parenthesised
      operand at the root treated like a leaf (see GraftAsWritten).  None
      where the C code reads the associativity of AST_PASS outside the
      table, or appends to a NULL tail. */
  function Graft(s: Climb, op: int): (r: Option<Climb>)
    requires IsOperator(op)
    ensures IsPrimary(s.tree) ==> r == Some(Climb(Rooted(OpNode(op), s.tree), Some(0), Operand))
    ensures r.Some? ==> r.value.want == Operand && r.value.tail.Some?
  {
    var node := OpNode(op);
    var priority := Precedence(op);
    if IsPrimary(s.tree) then Some(Climb(Rooted(node, s.tree), Some(0), Operand))
    else if !HasOpInfo(op) then None
    else if Associativity(op) == Right && priority <= Prec(s.tree) then
      Some(Climb(Rooted(node, s.tree), Some(0), Operand))
    else if Associativity(op) == Left then
      if s.tail.None? then None
      else Some(Climb(InsertBelow(s.tree, s.tail.value, node), Some(s.tail.value + 1), Operand))
    else
      var a := WalkFrom(s.tree, priority);
      Some(Climb(InsertBelow(s.tree, a, node), Some(a + 1), Operand))
  }

  /** Lines 214-238 as written: only a leaf at the root is taken as the
      new operator's operand, so after `( a )` the "left" operators `=`
      and `**` go to the tail, which is still NULL. */
  function GraftAsWritten(s: Climb, op: int): (r: Option<Climb>)
    requires IsOperator(op)
    ensures Kind(s.tree) != AST_PASS ==> r == Graft(s, op)
  {
    var node := OpNode(op);
    var priority := Precedence(op);
    if IsExpression(Kind(s.tree)) then Some(Climb(Rooted(node, s.tree), Some(0), Operand))
    else if !HasOpInfo(op) then None
    else if Associativity(op) == Right && priority <= Prec(s.tree) then
      Some(Climb(Rooted(node, s.tree), Some(0), Operand))
    else if Associativity(op) == Left then
      if s.tail.None? then None
      else Some(Climb(InsertBelow(s.tree, s.tail.value, node), Some(s.tail.value + 1), Operand))
    else
      var a := WalkFrom(s.tree, priority);
      Some(Climb(InsertBelow(s.tree, a, node), Some(a + 1), Operand))
  }

  /** `parseExpression`: NULL unless the lookahead starts an expression. */
  function ExprSpec(toks: seq<Token>, pos: nat): (r: Parsed)
    requires pos <= |toks|
    ensures r.Parsed? ==> pos <= r.pos <= |toks|
    decreases |toks| - pos, 1
  {
    if IsExpression(Look(toks, pos).kind) then Climbing(toks, pos, Climb(Hole, None, Operand))
    else Parsed(Hole, pos)
  }

  /** The loop of parseExpression (lines 141-245) from state `s` with the
      lookahead at `pos`. */
  function Climbing(toks: seq<Token>, pos: nat, s: Climb): (r: Parsed)
    requires pos <= |toks|
    ensures r.Parsed? ==> pos <= r.pos <= |toks|
    decreases |toks| - pos, 0
  {
    var t := Look(toks, pos);
    if t.kind == TK_EOF then Parsed(s.tree, pos)
    else if s.want == Operand then
      if IsExpression(t.kind) then
        if t.kind == TK_LPAREN then
          match ExprSpec(toks, pos + 1)
          case Undefined => Undefined
          case Parsed(inner, q) =>
            if inner.Hole? then Parsed(ErrorNode(EXPECTED_EXPRESSION), q)
            else if inner.tag == AST_ERROR then Parsed(inner, q)
            else if Look(toks, q).kind != TK_RPAREN then Parsed(ErrorNode(EXPECTED_PAREN), q)
            else Climbing(toks, q + 1, Place(s, Paren(inner)))
        else Climbing(toks, pos + 1, Place(s, Leaf(t)))
      else if IsUnarySymbol(t.kind) then
        Climbing(toks, pos + 1, PlaceUnary(s, OpNode(if t.kind == TK_SUB then AST_NEGATE else t.kind)))
      else if s.tree.Hole? then Parsed(Hole, pos)
      else Parsed(ErrorNode(EXPECTED_EXPRESSION), pos)
    else if IsOperator(t.kind) then
      match Graft(s, t.kind)
      case None => Undefined
      case Some(next) => Climbing(toks, pos + 1, next)
    else Parsed(s.tree, pos)
  }

  // ---------------------------------------------------------------------
  // parseLet, parseStatement, parseBlock as functions

  function LetNode(kids: seq<Tree>): Tree {
    Node(AST_LET, Unknown, kids)
  }

  /** `parseLet`: NULL unless the lookahead is `let`. */
  function LetSpec(toks: seq<Token>, pos: nat): (r: Parsed)
    requires pos <= |toks|
    ensures r.Parsed? ==> pos <= r.pos <= |toks|
  {
    if Look(toks, pos).kind == TK_LET then Declaring(toks, pos + 1, []) else Parsed(Hole, pos)
  }

  /** The loop of parseLet (lines 256-296) after the declarations `kids`. */
  function Declaring(toks: seq<Token>, pos: nat, kids: seq<Tree>): (r: Parsed)
    requires pos <= |toks|
    ensures r.Parsed? ==> pos <= r.pos <= |toks|
    decreases |toks| - pos
  {
    if Look(toks, pos).kind != TK_IDENT then Parsed(ErrorNode(EXPECTED_IDENT), pos)
    else
      var id := Leaf(toks[pos]);
      var p := pos + 1;
      if Look(toks, p).kind == TK_COMMA then Declaring(toks, p + 1, kids + [id])
      else if Look(toks, p).kind == TK_ASSIGN then
        match ExprSpec(toks, p + 1)
        case Undefined => Undefined
        case Parsed(e, q) =>
          if e.Hole? then Parsed(ErrorNode(EXPECTED_EXPRESSION), q)
          else if e.tag == AST_ERROR then Parsed(e, q)
          else
            var declared := kids + [Node(AST_ASSIGN, Unknown, [id, e])];
            if Look(toks, q).kind == TK_COMMA then Declaring(toks, q + 1, declared)
            else Parsed(LetNode(declared), q)
      else Parsed(LetNode(kids + [id]), p)
  }

  /** `parseStatement`: a declaration or an expression, then `;`.  A
      statement that is NULL still consumes its `;`. */
  function StmtSpec(toks: seq<Token>, pos: nat): (r: Parsed)
    requires pos <= |toks|
    ensures r.Parsed? ==> pos <= r.pos <= |toks|
    ensures r.Parsed? && !IsError(r.tree) ==> pos < r.pos
  {
    var first := LetSpec(toks, pos);
    var st := if first.Parsed? && first.tree.Hole? then ExprSpec(toks, pos) else first;
    match st
    case Undefined => Undefined
    case Parsed(t, q) =>
      if IsError(t) then st
      else if Look(toks, q).kind == TK_SEMICOLON then Parsed(t, q + 1)
      else Parsed(ErrorNode(EXPECTED_SEMICOLON), q)
  }

  /** The BLOCK node over the statements; NULL for none. */
  function BlockOf(kids: seq<Tree>): Tree {
    if kids == [] then Hole else Node(AST_BLOCK, Unknown, kids)
  }

  /** The loop of parseBlock (lines 331-345) after the statements `kids`. */
  function Blocking(toks: seq<Token>, pos: nat, stop: int, kids: seq<Tree>): (r: Parsed)
    requires pos <= |toks|
    ensures r.Parsed? ==> pos <= r.pos <= |toks|
    decreases |toks| - pos
  {
    if Look(toks, pos).kind == stop then Parsed(BlockOf(kids), Next(toks, pos))
    else match StmtSpec(toks, pos)
      case Undefined => Undefined
      case Parsed(t, q) =>
        if t.Hole? then Blocking(toks, q, stop, kids)
        else if IsError(t) then Parsed(t, q)
        else Blocking(toks, q, stop, kids + [t])
  }

  // ---------------------------------------------------------------------
  // The parser as procedures over the token stream

  /** Lines 214-238 of parseExpression: the operator `op` joins the tree
      after an operand, at the root or by walking down the spine. */
  method GraftOperator(tree: Tree, tail: Option<nat>, op: int) returns (r: Option<Climb>)
    requires IsOperator(op)
    ensures r == Graft(Climb(tree, tail, Operator), op)
    ensures r.Some? ==> r.value.want == Operand && r.value.tail.Some?
  {
    var node := OpNode(op);
    var priority := Precedence(op);
    if IsPrimary(tree) {
      return Some(Climb(Rooted(node, tree), Some(0), Operand));
    } else if !HasOpInfo(op) {
      return None;
    } else if Associativity(op) == Right && priority <= Prec(tree) {
      return Some(Climb(Rooted(node, tree), Some(0), Operand));
    }
    var a: nat;
    if Associativity(op) == Left {
      if tail.None? {
        return None;
      }
      a := tail.value;
    } else {
      var append := tree;
      a := 0;
      while priority > Prec(LastKid(append))
        invariant WalkFrom(tree, priority) == a + WalkFrom(append, priority)
        decreases append
      {
        append := LastKid(append);
        a := a + 1;
      }
    }
    return Some(Climb(InsertBelow(tree, a, node), Some(a + 1), Operand));
  }

  /** `parseExpression`. */
  method ParseExpression(toks: seq<Token>, start: nat) returns (r: Parsed)
    requires start <= |toks|
    ensures r == ExprSpec(toks, start)
    decreases |toks| - start
  {
    var pos := start;
    var tree: Tree := Hole;
    var tail: Option<nat> := None;
    var want := Operand;
    if IsExpression(Look(toks, pos).kind) {
      while Look(toks, pos).kind != TK_EOF
        invariant start <= pos <= |toks|
        invariant Climbing(toks, pos, Climb(tree, tail, want)) == ExprSpec(toks, start)
        invariant want == Operand && tree.Node? ==> tail.Some?
        decreases |toks| - pos
      {
        var token := toks[pos];
        if want == Operand {
          if IsExpression(token.kind) {
            var node: Tree;
            if token.kind == TK_LPAREN {
              var parens := ParseExpression(toks, pos + 1);
              if parens.Undefined? {
                return Undefined;
              }
              if parens.tree.Hole? {
                return Parsed(ErrorNode(EXPECTED_EXPRESSION), parens.pos);
              } else if parens.tree.tag == AST_ERROR {
                return parens;
              } else if Look(toks, parens.pos).kind != TK_RPAREN {
                return Parsed(ErrorNode(EXPECTED_PAREN), parens.pos);
              }
              node := Paren(parens.tree);
              pos := parens.pos;
            } else {
              node := Leaf(token);
            }
            if tree.Hole? {
              tree := node;
            } else {
              tree := SetLast(tree, tail.value, node);
            }
            want := Operator;
          } else if IsUnarySymbol(token.kind) {
            var node := OpNode(if token.kind == TK_SUB then AST_NEGATE else token.kind);
            if tree.Hole? {
              tree := node;
              tail := Some(0);
            } else {
              tree := SetLast(tree, tail.value, node);
              tail := Some(tail.value + 1);
            }
          } else {
            if tree.Hole? {
              return Parsed(Hole, pos);
            }
            return Parsed(ErrorNode(EXPECTED_EXPRESSION), pos);
          }
        } else {
          if IsOperator(token.kind) {
            var grafted := GraftOperator(tree, tail, token.kind);
            if grafted.None? {
              return Undefined;
            }
            tree, tail := grafted.value.tree, grafted.value.tail;
            want := Operand;
          } else {
            break;
          }
        }
        pos := pos + 1;
      }
    }
    return Parsed(tree, pos);
  }

  /** `parseLet`: the declaration list grows one child per name. */
  method ParseLet(toks: seq<Token>, start: nat) returns (r: Parsed)
    requires start <= |toks|
    ensures r == LetSpec(toks, start)
  {
    var pos := start;
    if Look(toks, pos).kind != TK_LET {
      return Parsed(Hole, pos);
    }
    pos := pos + 1;
    var kids: seq<Tree> := [];
    while Look(toks, pos).kind == TK_IDENT
      invariant start < pos <= |toks|
      invariant Declaring(toks, pos, kids) == LetSpec(toks, start)
      decreases |toks| - pos
    {
      var id := Leaf(toks[pos]);
      pos := pos + 1;
      if Look(toks, pos).kind == TK_COMMA {
        pos := pos + 1;
        kids := kids + [id];
        continue;
      } else if Look(toks, pos).kind == TK_ASSIGN {
        pos := pos + 1;
        var expr := ParseExpression(toks, pos);
        if expr.Undefined? {
          return Undefined;
        } else if expr.tree.Hole? {
          return Parsed(ErrorNode(EXPECTED_EXPRESSION), expr.pos);
        } else if expr.tree.tag == AST_ERROR {
          return expr;
        }
        kids := kids + [Node(AST_ASSIGN, Unknown, [id, expr.tree])];
        pos := expr.pos;
        if Look(toks, pos).kind == TK_COMMA {
          pos := pos + 1;
          continue;
        }
        return Parsed(LetNode(kids), pos);
      }
      return Parsed(LetNode(kids + [id]), pos);
    }
    return Parsed(ErrorNode(EXPECTED_IDENT), pos);
  }

  /** `parseStatement`. */
  method ParseStatement(toks: seq<Token>, start: nat) returns (r: Parsed)
    requires start <= |toks|
    ensures r == StmtSpec(toks, start)
  {
    r := ParseLet(toks, start);
    if r.Parsed? && r.tree.Hole? {
      r := ParseExpression(toks, start);
    }
    if r.Undefined? || IsError(r.tree) {
      return r;
    }
    if Look(toks, r.pos).kind == TK_SEMICOLON {
      r := r.(pos := r.pos + 1);
    } else {
      r := Parsed(ErrorNode(EXPECTED_SEMICOLON), r.pos);
    }
  }

  /** `parseBlock`: statements up to `stop`, which is consumed; the first
      ERROR statement is returned in place of the block. */
  method ParseBlock(toks: seq<Token>, start: nat, stop: int) returns (r: Parsed)
    requires start <= |toks|
    ensures r == Blocking(toks, start, stop, [])
  {
    var pos := start;
    var kids: seq<Tree> := [];
    while Look(toks, pos).kind != stop
      invariant start <= pos <= |toks|
      invariant Blocking(toks, pos, stop, kids) == Blocking(toks, start, stop, [])
      decreases |toks| - pos
    {
      var temp := ParseStatement(toks, pos);
      if temp.Undefined? {
        return Undefined;
      }
      if temp.tree.Node? {
        if temp.tree.tag == AST_ERROR {
          return temp;
        }
        kids := kids + [temp.tree];
      }
      pos := temp.pos;
    }
    return Parsed(BlockOf(kids), Next(toks, pos));
  }

  /** `_winter_generateTree`: the block of the whole stream. */
  method GenerateTree(toks: seq<Token>) returns (r: Parsed)
    ensures r == Blocking(toks, 0, TK_EOF, [])
  {
    r := ParseBlock(toks, 0, TK_EOF);
  }
}
