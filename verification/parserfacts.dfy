/** What the parser of src/parser.c guarantees about the trees it builds:
    which streams give NULL, how three operands group, and that a tree
    reaching the evaluator has no NULL child unless the stream ended
    inside an expression. */
module ParserFacts {
  import opened Tags
  import opened Objects
  import opened Options
  import opened Parser

  /** No NULL child anywhere, and every operator node has an operand slot. */
  predicate Complete(t: Tree)
    decreases t
  {
    t.Node? && (HasOpInfo(t.tag) ==> |t.kids| > 0) &&
    forall i :: 0 <= i < |t.kids| ==> Complete(t.kids[i])
  }

  /** Complete except in the last child of the spine node at depth `d`,
      where the next operand goes. */
  predicate Open(t: Tree, d: nat)
    decreases d
  {
    t.Node? && |t.kids| > 0 &&
    (forall i :: 0 <= i < |t.kids| - 1 ==> Complete(t.kids[i])) &&
    (d > 0 ==> Open(t.kids[|t.kids| - 1], d - 1))
  }

  /** The states parseExpression passes through: after an operand the
      tree is complete (and a NULL tail means it is a single operand);
      before one, the tail marks the one open slot. */
  predicate Shaped(s: Climb) {
    !IsError(s.tree) &&
    match s.want
    case Operator =>
      Complete(s.tree) && (if s.tail.Some? then Open(s.tree, s.tail.value) else IsPrimary(s.tree))
    case Operand =>
      if s.tree.Hole? then s.tail.None? else s.tail.Some? && Open(s.tree, s.tail.value)
  }

  /** No token carries the PASS tag, which has no row in the operator
      table.  The lexer never produces one. */
  predicate NoPass(toks: seq<Token>) {
    forall i :: 0 <= i < |toks| ==> toks[i].kind != AST_PASS
  }

  // ---------------------------------------------------------------------
  // Filling and extending the spine

  /** Putting a complete operand in the open slot completes the tree and
      leaves the spine down to the slot as it was. */
  lemma {:induction false} FillCompletes(t: Tree, d: nat, c: Tree)
    requires Open(t, d) && Complete(c)
    ensures Complete(SetLast(t, d, c)) && Open(SetLast(t, d, c), d)
    decreases d
  {
    var last := |t.kids| - 1;
    if d > 0 {
      FillCompletes(t.kids[last], d - 1, c);
    }
    var u := SetLast(t, d, c);
    assert forall i :: 0 <= i < last ==> u.kids[i] == t.kids[i];
  }

  /** Putting a prefix operator in the open slot moves the slot one step
      down, into the operator. */
  lemma {:induction false} FillOpens(t: Tree, d: nat, c: Tree)
    requires Open(t, d) && Open(c, 0)
    ensures Open(SetLast(t, d, c), d + 1)
    decreases d
  {
    var last := |t.kids| - 1;
    if d > 0 {
      FillOpens(t.kids[last], d - 1, c);
    }
    var u := SetLast(t, d, c);
    assert forall i :: 0 <= i < last ==> u.kids[i] == t.kids[i];
  }

  /** An operator inserted below the spine node at depth `a` takes the
      complete subtree there as its first operand; its last slot is open. */
  lemma {:induction false} InsertOpens(t: Tree, a: nat, op: int)
    requires Complete(t) && Open(t, a)
    ensures Open(InsertBelow(t, a, OpNode(op)), a + 1)
    decreases a
  {
    var last := |t.kids| - 1;
    assert Complete(t.kids[last]);
    if a > 0 {
      InsertOpens(t.kids[last], a - 1, op);
    }
    var u := InsertBelow(t, a, OpNode(op));
    assert forall i :: 0 <= i < last ==> u.kids[i] == t.kids[i];
  }

  /** The walk of lines 229-231 stops on the spine of a complete tree. */
  lemma {:induction false} WalkOpens(t: Tree, priority: int)
    requires Complete(t) && |t.kids| > 0 && priority <= 999
    ensures Open(t, WalkFrom(t, priority))
    decreases t
  {
    var last := |t.kids| - 1;
    assert Complete(t.kids[last]);
    if priority > Prec(LastKid(t)) {
      WalkOpens(t.kids[last], priority);
    }
  }

  /** An operator after an operand keeps the shape, and is placed
      whenever it has a row in the table. */
  lemma GraftShaped(s: Climb, op: int)
    requires Shaped(s) && s.want == Operator && IsOperator(op)
    ensures HasOpInfo(op) ==> Graft(s, op).Some?
    ensures Graft(s, op).Some? ==> Shaped(Graft(s, op).value)
  {
    var node := OpNode(op);
    var priority := Precedence(op);
    if IsPrimary(s.tree) {
    } else if !HasOpInfo(op) {
    } else if Associativity(op) == Right && priority <= Prec(s.tree) {
    } else if Associativity(op) == Left {
      InsertOpens(s.tree, s.tail.value, op);
    } else {
      WalkOpens(s.tree, priority);
      InsertOpens(s.tree, WalkFrom(s.tree, priority), op);
    }
  }

  // ---------------------------------------------------------------------
  // Expressions

  /** An expression is complete unless the stream ended inside it, and it
      is defined whenever no token carries the PASS tag. */
  lemma {:induction false} ExprShape(toks: seq<Token>, pos: nat)
    requires pos <= |toks|
    ensures ExprSpec(toks, pos).Parsed? ==>
      var r := ExprSpec(toks, pos);
      r.tree.Hole? || Complete(r.tree) || (Look(toks, r.pos).kind == TK_EOF && !IsError(r.tree))
    ensures NoPass(toks) ==> ExprSpec(toks, pos).Parsed?
    decreases |toks| - pos, 3
  {
    if IsExpression(Look(toks, pos).kind) {
      ClimbingShape(toks, pos, Climb(Hole, None, Operand));
    }
  }

  /** The same for the loop, from any state it passes through. */
  lemma {:induction false} ClimbingShape(toks: seq<Token>, pos: nat, s: Climb)
    requires pos <= |toks| && Shaped(s)
    ensures Climbing(toks, pos, s).Parsed? ==>
      var r := Climbing(toks, pos, s);
      r.tree.Hole? || Complete(r.tree) || (Look(toks, r.pos).kind == TK_EOF && !IsError(r.tree))
    ensures NoPass(toks) ==> Climbing(toks, pos, s).Parsed?
    decreases |toks| - pos, 2
  {
    var t := Look(toks, pos);
    if t.kind == TK_EOF {
    } else if s.want == Operand {
      OperandShape(toks, pos, s);
    } else if IsOperator(t.kind) {
      TagClassification(t.kind);
      GraftShaped(s, t.kind);
      if Graft(s, t.kind).Some? {
        ClimbingShape(toks, pos + 1, Graft(s, t.kind).value);
      }
    }
  }

  /** The loop's turn where an operand is expected. */
  lemma {:induction false} OperandShape(toks: seq<Token>, pos: nat, s: Climb)
    requires pos < |toks| && toks[pos].kind != TK_EOF && Shaped(s) && s.want == Operand
    ensures Climbing(toks, pos, s).Parsed? ==>
      var r := Climbing(toks, pos, s);
      r.tree.Hole? || Complete(r.tree) || (Look(toks, r.pos).kind == TK_EOF && !IsError(r.tree))
    ensures NoPass(toks) ==> Climbing(toks, pos, s).Parsed?
    decreases |toks| - pos, 1
  {
    var t := toks[pos];
    if t.kind == TK_LPAREN {
      ParenShape(toks, pos, s);
    } else if IsExpression(t.kind) {
      var node := Leaf(t);
      TagClassification(t.kind);
      StepLeaf(toks, pos, s);
      if s.tree.Node? {
        FillCompletes(s.tree, s.tail.value, node);
      }
      ClimbingShape(toks, pos + 1, Place(s, node));
    } else if IsUnarySymbol(t.kind) {
      var node := OpNode(if t.kind == TK_SUB then AST_NEGATE else t.kind);
      if s.tree.Node? {
        FillOpens(s.tree, s.tail.value, node);
      }
      StepUnary(toks, pos, s);
      ClimbingShape(toks, pos + 1, PlaceUnary(s, node));
    }
  }

  /** The same turn on a parenthesised operand. */
  lemma {:induction false} ParenShape(toks: seq<Token>, pos: nat, s: Climb)
    requires pos < |toks| && toks[pos].kind == TK_LPAREN && Shaped(s) && s.want == Operand
    ensures Climbing(toks, pos, s).Parsed? ==>
      var r := Climbing(toks, pos, s);
      r.tree.Hole? || Complete(r.tree) || (Look(toks, r.pos).kind == TK_EOF && !IsError(r.tree))
    ensures NoPass(toks) ==> Climbing(toks, pos, s).Parsed?
    decreases |toks| - pos, 0
  {
    ExprShape(toks, pos + 1);
    var inner := ExprSpec(toks, pos + 1);
    if inner.Undefined? || inner.tree.Hole? || inner.tree.tag == AST_ERROR
       || Look(toks, inner.pos).kind != TK_RPAREN {
      return;
    }
    var node := Paren(inner.tree);
    StepParen(toks, pos, s, inner.tree, inner.pos);
    if s.tree.Node? {
      FillCompletes(s.tree, s.tail.value, node);
    }
    ClimbingShape(toks, inner.pos + 1, Place(s, node));
  }

  /** parseExpression returns NULL exactly when the lookahead cannot
      start an expression, and then it consumes nothing. */
  lemma ExprNull(toks: seq<Token>, pos: nat)
    requires pos <= |toks|
    ensures !IsExpression(Look(toks, pos).kind) ==> ExprSpec(toks, pos) == Parsed(Hole, pos)
    ensures IsExpression(Look(toks, pos).kind) ==>
      ExprSpec(toks, pos).Undefined? || ExprSpec(toks, pos).tree.Node?
  {
    var t := Look(toks, pos);
    if IsExpression(t.kind) {
      var s := Climb(Hole, None, Operand);
      if t.kind == TK_LPAREN {
        var inner := ExprSpec(toks, pos + 1);
        if inner.Parsed? && inner.tree.Node? && inner.tree.tag != AST_ERROR
           && Look(toks, inner.pos).kind == TK_RPAREN {
          KeepsTree(toks, inner.pos + 1, Place(s, Paren(inner.tree)));
        }
      } else {
        KeepsTree(toks, pos + 1, Place(s, Leaf(t)));
      }
    }
  }

  /** Once the tree holds a node, the loop never gives NULL. */
  lemma {:induction false} KeepsTree(toks: seq<Token>, pos: nat, s: Climb)
    requires pos <= |toks| && s.tree.Node?
    ensures Climbing(toks, pos, s).Undefined? || Climbing(toks, pos, s).tree.Node?
    decreases |toks| - pos
  {
    var t := Look(toks, pos);
    if t.kind == TK_EOF {
    } else if s.want == Operand {
      if IsExpression(t.kind) {
        if t.kind == TK_LPAREN {
          var inner := ExprSpec(toks, pos + 1);
          if inner.Parsed? && inner.tree.Node? && inner.tree.tag != AST_ERROR
             && Look(toks, inner.pos).kind == TK_RPAREN {
            KeepsTree(toks, inner.pos + 1, Place(s, Paren(inner.tree)));
          }
        } else {
          KeepsTree(toks, pos + 1, Place(s, Leaf(t)));
        }
      } else if IsUnarySymbol(t.kind) {
        KeepsTree(toks, pos + 1, PlaceUnary(s, OpNode(if t.kind == TK_SUB then AST_NEGATE else t.kind)));
      }
    } else if IsOperator(t.kind) && Graft(s, t.kind).Some? {
      KeepsTree(toks, pos + 1, Graft(s, t.kind).value);
    }
  }

  // ---------------------------------------------------------------------
  // Grouping

  /** A token that becomes a leaf: an identifier or a literal. */
  predicate Primary(t: Token) {
    IsExpression(t.kind) && t.kind != TK_LPAREN
  }

  /** A token that becomes a two-operand node. */
  predicate Binary(t: Token) {
    HasOpInfo(t.kind) && !IsUnary(t.kind)
  }

  function BinNode(op: Token, l: Tree, r: Tree): Tree {
    Node(op.kind, Unknown, [l, r])
  }

  /** One turn of the loop on an identifier or literal. */
  lemma StepLeaf(toks: seq<Token>, pos: nat, s: Climb)
    requires pos < |toks| && Primary(toks[pos]) && s.want == Operand
    ensures Climbing(toks, pos, s) == Climbing(toks, pos + 1, Place(s, Leaf(toks[pos])))
  {
  }

  /** One turn of the loop on an operator after an operand. */
  lemma StepOperator(toks: seq<Token>, pos: nat, s: Climb)
    requires pos < |toks| && Binary(toks[pos]) && s.want == Operator
    requires Graft(s, toks[pos].kind).Some?
    ensures Climbing(toks, pos, s) == Climbing(toks, pos + 1, Graft(s, toks[pos].kind).value)
  {
  }

  /** One turn of the loop on a prefix operator. */
  lemma StepUnary(toks: seq<Token>, pos: nat, s: Climb)
    requires pos < |toks| && IsUnarySymbol(toks[pos].kind) && s.want == Operand
    ensures Climbing(toks, pos, s) ==
      Climbing(toks, pos + 1, PlaceUnary(s, OpNode(if toks[pos].kind == TK_SUB then AST_NEGATE else toks[pos].kind)))
  {
  }

  /** One turn of the loop on a parenthesised expression. */
  lemma StepParen(toks: seq<Token>, pos: nat, s: Climb, inner: Tree, q: nat)
    requires pos < |toks| && toks[pos].kind == TK_LPAREN && s.want == Operand
    requires ExprSpec(toks, pos + 1) == Parsed(inner, q)
    requires inner.Node? && inner.tag != AST_ERROR && Look(toks, q).kind == TK_RPAREN
    ensures Climbing(toks, pos, s) == Climbing(toks, q + 1, Place(s, Paren(inner)))
  {
  }

  /** A two-operand node after its first operand is in place. */
  lemma RootedBinary(op: int, l: Tree)
    requires !IsUnary(op)
    ensures Rooted(OpNode(op), l) == Node(op, Unknown, [l, Hole])
  {
  }

  /** The first three tokens of `x o1 y ...` give the node `o1(x, y)`
      with the lookahead on the fourth. */
  lemma FirstGroup(x: Token, o1: Token, y: Token, rest: seq<Token>)
    requires Primary(x) && Binary(o1) && Primary(y)
    ensures var toks := [x, o1, y] + rest;
      ExprSpec(toks, 0) == Climbing(toks, 3, Climb(BinNode(o1, Leaf(x), Leaf(y)), Some(0), Operator))
  {
    var toks := [x, o1, y] + rest;
    TagClassification(x.kind);
    TagClassification(o1.kind);
    var X, Y := Leaf(x), Leaf(y);
    StepLeaf(toks, 0, Climb(Hole, None, Operand));
    RootedBinary(o1.kind, X);
    StepOperator(toks, 1, Climb(X, None, Operator));
    var s2 := Climb(BinNode(o1, X, Hole), Some(0), Operand);
    StepLeaf(toks, 2, s2);
    assert Place(s2, Y).tree == BinNode(o1, X, Y);
  }

  /** The second operator of `x o1 y o2 z` either takes `o1(x, y)` as
      its left operand or takes `y` from it. */
  lemma SecondOperator(o1: Token, o2: Token, X: Tree, y: Token)
    requires Binary(o1) && Binary(o2) && Primary(y)
    ensures var Y := Leaf(y);
      Graft(Climb(BinNode(o1, X, Y), Some(0), Operator), o2.kind) == Some(
      if Associativity(o2.kind) == Right && Precedence(o2.kind) <= Precedence(o1.kind)
      then Climb(BinNode(o2, BinNode(o1, X, Y), Hole), Some(0), Operand)
      else Climb(BinNode(o1, X, BinNode(o2, Y, Hole)), Some(1), Operand))
  {
    var Y := Leaf(y);
    var s3 := Climb(BinNode(o1, X, Y), Some(0), Operator);
    TagClassification(o1.kind);
    TagClassification(o2.kind);
    assert !IsPrimary(s3.tree) && Prec(s3.tree) == Precedence(o1.kind);
    RootedBinary(o2.kind, s3.tree);
    RootedBinary(o2.kind, Y);
    if !(Associativity(o2.kind) == Right && Precedence(o2.kind) <= Precedence(o1.kind)) {
      assert InsertBelow(s3.tree, 0, OpNode(o2.kind)) == BinNode(o1, X, BinNode(o2, Y, Hole));
      if Associativity(o2.kind) == Right {
        assert Prec(LastKid(s3.tree)) == 999;
        assert WalkFrom(s3.tree, Precedence(o2.kind)) == 0;
      }
    }
  }

  /** `x o1 y o2 z`: the second operator takes the first group as its
      left operand when it is tagged right-associative and binds no
      tighter; otherwise it binds `y` and `z` under the first.  So
      `a - b - c` is `(a - b) - c`, `a + b * c` is `a + (b * c)` and
      `a = b = c` is `a = (b = c)`. */
  lemma ThreeOperands(x: Token, o1: Token, y: Token, o2: Token, z: Token)
    requires Primary(x) && Primary(y) && Primary(z) && Binary(o1) && Binary(o2)
    ensures ExprSpec([x, o1, y, o2, z], 0) == Parsed(
      if Associativity(o2.kind) == Right && Precedence(o2.kind) <= Precedence(o1.kind)
      then BinNode(o2, BinNode(o1, Leaf(x), Leaf(y)), Leaf(z))
      else BinNode(o1, Leaf(x), BinNode(o2, Leaf(y), Leaf(z))), 5)
  {
    var toks := [x, o1, y, o2, z];
    var X, Y, Z := Leaf(x), Leaf(y), Leaf(z);
    FirstGroup(x, o1, y, [o2, z]);
    assert [x, o1, y] + [o2, z] == toks;
    var s3 := Climb(BinNode(o1, X, Y), Some(0), Operator);
    SecondOperator(o1, o2, X, y);
    var s4 := Graft(s3, o2.kind).value;
    StepOperator(toks, 3, s3);
    StepLeaf(toks, 4, s4);
    var grouped: Tree;
    if Associativity(o2.kind) == Right && Precedence(o2.kind) <= Precedence(o1.kind) {
      assert s4 == Climb(BinNode(o2, BinNode(o1, X, Y), Hole), Some(0), Operand);
      grouped := BinNode(o2, BinNode(o1, X, Y), Z);
      assert SetLast(s4.tree, 0, Z) == grouped;
    } else {
      assert s4 == Climb(BinNode(o1, X, BinNode(o2, Y, Hole)), Some(1), Operand);
      assert SetLast(BinNode(o2, Y, Hole), 0, Z) == BinNode(o2, Y, Z);
      grouped := BinNode(o1, X, BinNode(o2, Y, Z));
      assert SetLast(s4.tree, 1, Z) == grouped;
    }
    assert Place(s4, Z) == Climb(grouped, s4.tail, Operator);
    assert Climbing(toks, 5, Place(s4, Z)) == Parsed(grouped, 5);
  }

  /** `x o - y`: the minus after an operator is a prefix negation of `y`. */
  lemma NegatedOperand(x: Token, o: Token, minus: Token, y: Token)
    requires Primary(x) && Primary(y) && Binary(o) && minus.kind == TK_SUB
    ensures ExprSpec([x, o, minus, y], 0) ==
      Parsed(BinNode(o, Leaf(x), Node(AST_NEGATE, Unknown, [Leaf(y)])), 4)
  {
    var toks := [x, o, minus, y];
    TagClassification(x.kind);
    TagClassification(o.kind);
    var X, Y := Leaf(x), Leaf(y);
    StepLeaf(toks, 0, Climb(Hole, None, Operand));
    var s1 := Climb(X, None, Operator);
    RootedBinary(o.kind, X);
    StepOperator(toks, 1, s1);
    var s2 := Climb(BinNode(o, X, Hole), Some(0), Operand);
    var s3 := Climb(BinNode(o, X, OpNode(AST_NEGATE)), Some(1), Operand);
    StepUnary(toks, 2, s2);
    assert PlaceUnary(s2, OpNode(AST_NEGATE)) == s3;
    StepLeaf(toks, 3, s3);
    assert SetLast(OpNode(AST_NEGATE), 0, Y) == Node(AST_NEGATE, Unknown, [Y]);
    assert Place(s3, Y).tree == BinNode(o, X, Node(AST_NEGATE, Unknown, [Y]));
    assert Climbing(toks, 4, Place(s3, Y)) == Parsed(Place(s3, Y).tree, 4);
  }

  /** `( x ) = y` as written: after `( x )` the tree is the PASS node and
      the tail is NULL, and `=` is tagged left-associative, so the code
      as written appends to the NULL tail.  Treating the parenthesised
      root as an operand gives the assignment. */
  lemma ParenThenAssign(lp: Token, x: Token, rp: Token, eq: Token, y: Token)
    requires lp.kind == TK_LPAREN && rp.kind == TK_RPAREN && eq.kind == TK_ASSIGN
    requires Primary(x) && Primary(y)
    ensures ExprSpec([lp, x, rp], 0) == Parsed(Paren(Leaf(x)), 3)
    ensures GraftAsWritten(Climb(Paren(Leaf(x)), None, Operator), eq.kind) == None
    ensures ExprSpec([lp, x, rp, eq, y], 0) == Parsed(BinNode(eq, Paren(Leaf(x)), Leaf(y)), 5)
  {
    TagClassification(x.kind);
    ArithmeticRows();
    var X, Y := Leaf(x), Leaf(y);
    var start := Climb(Hole, None, Operand);
    var s1 := Climb(Paren(X), None, Operator);
    var short := [lp, x, rp];
    StepLeaf(short, 1, start);
    assert ExprSpec(short, 1) == Parsed(X, 2);
    StepParen(short, 0, start, X, 2);
    assert Place(start, Paren(X)) == s1;
    assert Climbing(short, 3, s1) == Parsed(Paren(X), 3);
    var toks := [lp, x, rp, eq, y];
    StepLeaf(toks, 1, start);
    assert ExprSpec(toks, 1) == Parsed(X, 2);
    StepParen(toks, 0, start, X, 2);
    RootedBinary(eq.kind, Paren(X));
    var s2 := Climb(BinNode(eq, Paren(X), Hole), Some(0), Operand);
    assert Graft(s1, eq.kind) == Some(s2);
    assert Climbing(toks, 3, s1) == Climbing(toks, 4, s2);
    StepLeaf(toks, 4, s2);
    assert Place(s2, Y).tree == BinNode(eq, Paren(X), Y);
    assert Climbing(toks, 5, Place(s2, Y)) == Parsed(Place(s2, Y).tree, 5);
  }

  // ---------------------------------------------------------------------
  // Declarations, statements, blocks

  lemma {:induction false} DeclaringShape(toks: seq<Token>, pos: nat, kids: seq<Tree>)
    requires pos <= |toks|
    requires forall i :: 0 <= i < |kids| ==> Complete(kids[i])
    ensures Declaring(toks, pos, kids).Parsed? ==>
      var r := Declaring(toks, pos, kids);
      r.tree.Node? && (Complete(r.tree) || (Look(toks, r.pos).kind == TK_EOF && !IsError(r.tree)))
    ensures NoPass(toks) ==> Declaring(toks, pos, kids).Parsed?
    decreases |toks| - pos
  {
    if Look(toks, pos).kind == TK_IDENT {
      var id := Leaf(toks[pos]);
      assert Complete(id);
      var p := pos + 1;
      if Look(toks, p).kind == TK_COMMA {
        DeclaringShape(toks, p + 1, kids + [id]);
      } else if Look(toks, p).kind == TK_ASSIGN {
        ExprShape(toks, p + 1);
        var e := ExprSpec(toks, p + 1);
        if e.Parsed? && e.tree.Node? && e.tree.tag != AST_ERROR {
          var assign := Node(AST_ASSIGN, Unknown, [id, e.tree]);
          var declared := kids + [assign];
          if Complete(e.tree) {
            assert Complete(assign);
            assert forall i :: 0 <= i < |declared| ==> Complete(declared[i]);
          }
          if Look(toks, e.pos).kind == TK_COMMA {
            DeclaringShape(toks, e.pos + 1, declared);
          }
        }
      } else {
        assert forall i :: 0 <= i < |kids + [id]| ==> Complete((kids + [id])[i]);
      }
    }
  }

  /** A statement is NULL, or complete: a statement must end in `;`, so
      its expression did not run into the end of the stream. */
  lemma StmtShape(toks: seq<Token>, pos: nat)
    requires pos <= |toks|
    ensures StmtSpec(toks, pos).Parsed? ==>
      StmtSpec(toks, pos).tree.Hole? || Complete(StmtSpec(toks, pos).tree)
    ensures NoPass(toks) ==> StmtSpec(toks, pos).Parsed?
  {
    if Look(toks, pos).kind == TK_LET {
      DeclaringShape(toks, pos + 1, []);
    }
    ExprShape(toks, pos);
  }

  lemma {:induction false} BlockShape(toks: seq<Token>, pos: nat, stop: int, kids: seq<Tree>)
    requires pos <= |toks|
    requires forall i :: 0 <= i < |kids| ==> Complete(kids[i])
    ensures Blocking(toks, pos, stop, kids).Parsed? ==>
      Blocking(toks, pos, stop, kids).tree.Hole? || Complete(Blocking(toks, pos, stop, kids).tree)
    ensures NoPass(toks) ==> Blocking(toks, pos, stop, kids).Parsed?
    decreases |toks| - pos
  {
    if Look(toks, pos).kind != stop {
      StmtShape(toks, pos);
      var st := StmtSpec(toks, pos);
      if st.Parsed? && !IsError(st.tree) {
        BlockShape(toks, st.pos, stop, if st.tree.Hole? then kids else kids + [st.tree]);
      }
    }
  }

  /** `_winter_generateTree` on any stream without a PASS-tagged token
      returns a tree (never undefined behaviour), and that tree is NULL
      or has no NULL child anywhere: the evaluator never meets a hole. */
  lemma GenerateTreeSound(toks: seq<Token>)
    ensures Blocking(toks, 0, TK_EOF, []).Parsed? ==>
      Blocking(toks, 0, TK_EOF, []).tree.Hole? || Complete(Blocking(toks, 0, TK_EOF, []).tree)
    ensures NoPass(toks) ==> Blocking(toks, 0, TK_EOF, []).Parsed?
  {
    BlockShape(toks, 0, TK_EOF, []);
  }
}
