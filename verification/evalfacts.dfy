/** Properties of the evaluator: the table never loses a name, gains one
    only through a declaration and changes a binding only through an
    assignment, every statement evaluates to a value or an error,
    declarations bind or refuse a name, parentheses leave a value as it
    is, and parsed arithmetic evaluates to its result. */
module EvalFacts {
  import opened CInt
  import opened Tags
  import opened Objects
  import opened Options
  import opened Parser
  import opened ParserFacts
  import opened Evaluator

  /** Every binding of `before` is still in `after`, to the same object. */
  predicate Keeps(before: Env, after: Env) {
    forall k :: k in before ==> k in after && after[k] == before[k]
  }

  lemma KeepsTrans(a: Env, b: Env, c: Env)
    requires Keeps(a, b) && Keeps(b, c)
    ensures Keeps(a, c)
  {
  }

  /** A tree holding a declaration somewhere. */
  predicate Declares(t: Tree) {
    t.Node? && (t.tag == AST_LET || exists k :: k in t.kids && Declares(k))
  }

  /** A tree that walkTree makes assign somewhere: an assignment node, or
      one inside an operand, a statement or a declaration's initialiser. */
  predicate Assigns(t: Tree)
    decreases t, 1
  {
    t.Node? && if t.tag == AST_LET then InitialiserAssigns(t) else t.tag == AST_ASSIGN || KidAssigns(t)
  }

  /** One of the children of `t` assigns. */
  predicate KidAssigns(t: Tree)
    decreases t, 0
  {
    t.Node? && exists k :: k in t.kids && Assigns(k)
  }

  /** One of the initialisers of the declaration `t` assigns. */
  predicate InitialiserAssigns(t: Tree)
    decreases t, 0
  {
    t.Node? && exists k :: k in t.kids && k.Node? && k.tag == AST_ASSIGN && |k.kids| >= 2 && Assigns(k.kids[1])
  }

  lemma NoKidAssigns(t: Tree, i: nat)
    requires t.Node? && t.tag != AST_LET && !Assigns(t) && i < |t.kids|
    ensures !Assigns(t.kids[i]) && t.tag != AST_ASSIGN
  {
    assert !KidAssigns(t);
    assert t.kids[i] in t.kids;
  }

  /** A walk never removes a name; it rebinds one only through an
      assignment and adds one only through a declaration, so a tree with
      neither leaves the table as it was. */
  lemma {:induction false} EvalKeeps(t: Tree, env: Env, pow: Operation)
    ensures var w := Eval(t, env, pow); w.Walked? ==> env.Keys <= w.env.Keys
    ensures var w := Eval(t, env, pow); w.Walked? && !Assigns(t) ==> Keeps(env, w.env)
    ensures var w := Eval(t, env, pow); w.Walked? && !Declares(t) ==> w.env.Keys == env.Keys
    ensures var w := Eval(t, env, pow); w.Walked? && !Declares(t) && !Assigns(t) ==> w.env == env
    decreases t, 1, 0, 0
  {
    if t.Hole? {
    } else if t.tag == AST_BLOCK {
      BlockKeeps(t, 0, env, Hole, pow);
    } else if IsOperator(t.tag) {
      if |t.kids| > 0 {
        EvalKeeps(t.kids[0], env, pow);
        assert t.kids[0] in t.kids;
        match Eval(t.kids[0], env, pow)
        case Stuck =>
        case Walked(l, e1) =>
          if l.Node? && l.tag != AST_ERROR {
            var e2 := e1;
            var b: Option<Object> := None;
            if |t.kids| == 2 {
              EvalKeeps(t.kids[1], e1, pow);
              assert t.kids[1] in t.kids;
              var r := Eval(t.kids[1], e1, pow);
              if r.Walked? && !Assigns(t) {
                NoKidAssigns(t, 0);
                NoKidAssigns(t, 1);
                KeepsTrans(env, e1, r.env);
              }
              if r.Walked? && r.node.Node? && r.node.tag != AST_ERROR {
                e2, b := r.env, Some(r.node.value);
              }
            }
            var applied := Apply(t.tag, l.value, b, e2, pow);
            if applied.Some? && !Assigns(t) {
              NoKidAssigns(t, 0);
              assert applied.value.env == e2;
            }
          }
      }
    } else if t.tag == AST_LET {
      LetKeeps(t, 0, env, pow);
    }
  }

  /** The same for a block's statements from statement `i`. */
  lemma {:induction false} BlockKeeps(t: Tree, i: nat, env: Env, last: Tree, pow: Operation)
    requires t.Node? && i <= |t.kids|
    ensures var w := Block(t, i, env, last, pow); w.Walked? ==> env.Keys <= w.env.Keys
    ensures var w := Block(t, i, env, last, pow); w.Walked? && !KidAssigns(t) ==> Keeps(env, w.env)
    ensures var w := Block(t, i, env, last, pow); w.Walked? && !Declares(t) ==> w.env.Keys == env.Keys
    ensures var w := Block(t, i, env, last, pow); w.Walked? && !Declares(t) && !KidAssigns(t) ==> w.env == env
    decreases t, 0, |t.kids| - i, 0
  {
    if i < |t.kids| {
      EvalKeeps(t.kids[i], env, pow);
      assert t.kids[i] in t.kids;
      match Eval(t.kids[i], env, pow)
      case Stuck =>
      case Walked(n, e) =>
        if n.Node? && n.tag != AST_ERROR {
          BlockKeeps(t, i + 1, e, n, pow);
        }
    }
  }

  /** A declaration never removes a name, and rebinds one only through an
      initialiser that assigns. */
  lemma {:induction false} LetKeeps(t: Tree, i: nat, env: Env, pow: Operation)
    requires t.Node? && i <= |t.kids|
    ensures var w := Let(t, i, env, pow); w.Walked? ==> env.Keys <= w.env.Keys
    ensures var w := Let(t, i, env, pow); w.Walked? && !InitialiserAssigns(t) ==> Keeps(env, w.env)
    decreases t, 0, |t.kids| - i, 0
  {
    if i < |t.kids| && t.kids[i].Node? {
      var keyNode := t.kids[i];
      var key := LetKey(t, keyNode);
      if key.Some? {
        if keyNode.tag == AST_ASSIGN {
          assert keyNode in t.kids;
          EvalKeeps(keyNode.kids[1], env, pow);
          match Eval(keyNode.kids[1], env, pow)
          case Stuck =>
          case Walked(v, e) =>
            if v.Node? && v.tag != AST_ERROR {
              DeclareKeeps(t, i, key.value, Some(v.value), e, pow);
            }
        } else {
          DeclareKeeps(t, i, key.value, None, env, pow);
        }
      }
    }
  }

  /** Binding one name of a declaration keeps the names already there. */
  lemma {:induction false} DeclareKeeps(t: Tree, i: nat, key: Object, value: Option<Object>, env: Env,
                                        pow: Operation)
    requires t.Node? && i < |t.kids|
    ensures var w := Declare(t, i, key, value, env, pow); w.Walked? ==> env.Keys <= w.env.Keys
    ensures var w := Declare(t, i, key, value, env, pow); w.Walked? && !InitialiserAssigns(t) ==> Keeps(env, w.env)
    decreases t, 0, |t.kids| - i - 1, 1
  {
    if key.Str? && key.text !in env {
      LetKeeps(t, i + 1, env[key.text := Tables.StoredValue(value)], pow);
    }
  }

  /** `name = e` with `name` bound stores the value of `e`, evaluated
      first, in the slot of `name`; the node holds the reference. */
  lemma AssignWrites(name: string, e: Tree, o: Object, env: Env, pow: Operation)
    requires name in env && Eval(e, env, pow) == Walked(Value(o), env)
    ensures Eval(Node(AST_ASSIGN, Unknown, [Ident(name), e]), env, pow) ==
      Walked(Value(Reference(name)), env[name := o])
  {
    var t := Node(AST_ASSIGN, Unknown, [Ident(name), e]);
    assert t.kids[0] == Ident(name) && t.kids[1] == e;
    TagClassification(AST_ASSIGN);
  }

  /** An assignment to a value that is not a reference is "incompatible
      type", and the table stays as it was. */
  lemma AssignToValue(l: Tree, r: Tree, a: Object, b: Object, env: Env, pow: Operation)
    requires !a.Reference?
    requires Eval(l, env, pow) == Walked(Value(a), env) && Eval(r, env, pow) == Walked(Value(b), env)
    ensures Eval(Node(AST_ASSIGN, Unknown, [l, r]), env, pow) == Walked(ErrorNode(INCOMPATIBLE), env)
  {
    var t := Node(AST_ASSIGN, Unknown, [l, r]);
    assert t.kids[0] == l && t.kids[1] == r;
    TagClassification(AST_ASSIGN);
  }

  /** `let name = v; name = w;` declares `name` and then rebinds it: the
      block ends with the reference and `name` bound to `w`. */
  lemma DeclareThenAssign(name: string, v: Int64, w: Int64, env: Env, pow: Operation)
    requires name !in env
    ensures Eval(Node(AST_BLOCK, Unknown, [
                   LetNode([Node(AST_ASSIGN, Unknown, [Ident(name), Value(Int(v))])]),
                   Node(AST_ASSIGN, Unknown, [Ident(name), Value(Int(w))])]), env, pow)
            == Walked(Value(Reference(name)), env[name := Int(w)])
  {
    var decl := LetNode([Node(AST_ASSIGN, Unknown, [Ident(name), Value(Int(v))])]);
    var update := Node(AST_ASSIGN, Unknown, [Ident(name), Value(Int(w))]);
    var t := Node(AST_BLOCK, Unknown, [decl, update]);
    var e := env[name := Int(v)];
    DeclareWithValue(name, Value(Int(v)), Int(v), env, pow);
    AssignWrites(name, Value(Int(w)), Int(w), e, pow);
    assert e[name := Int(w)] == env[name := Int(w)];
    assert Block(t, 1, e, Value(Null), pow) == Block(t, 2, e[name := Int(w)], Value(Reference(name)), pow);
  }

  /** The node types a statement can have: a value, an error, an
      identifier, an operator, a declaration, or a block of statements. */
  predicate Statement(t: Tree) {
    t.Node? &&
    (t.tag == AST_VALUE || t.tag == AST_ERROR || t.tag == AST_IDENT || t.tag == AST_LET ||
     IsOperator(t.tag) ||
     (t.tag == AST_BLOCK && |t.kids| > 0 && forall k :: k in t.kids ==> Statement(k)))
  }

  /** A statement that does not run into undefined behaviour evaluates
      to a VALUE or an ERROR node. */
  lemma {:induction false} StatementResult(t: Tree, env: Env, pow: Operation)
    requires Statement(t)
    ensures var w := Eval(t, env, pow);
      w.Walked? ==> w.node.Node? && (w.node.tag == AST_VALUE || w.node.tag == AST_ERROR)
    decreases t, 1
  {
    if t.tag == AST_BLOCK {
      BlockResult(t, 0, env, Hole, pow);
    } else if t.tag == AST_LET {
      LetResult(t, 0, env, pow);
    }
  }

  /** A declaration ends in NULL, or in the error that stopped it. */
  lemma {:induction false} LetResult(t: Tree, i: nat, env: Env, pow: Operation)
    requires t.Node? && i <= |t.kids|
    ensures var w := Let(t, i, env, pow);
      w.Walked? ==> w.node == Value(Null) || (w.node.Node? && w.node.tag == AST_ERROR)
    decreases |t.kids| - i
  {
    if i < |t.kids| && t.kids[i].Node? {
      var keyNode := t.kids[i];
      var key := LetKey(t, keyNode);
      if key.Some? && key.value.Str? {
        var e := if keyNode.tag == AST_ASSIGN then Eval(keyNode.kids[1], env, pow) else Walked(Hole, env);
        if e.Walked? && key.value.text !in e.env {
          LetResult(t, i + 1, e.env[key.value.text := Tables.StoredValue(if e.node.Node? then Some(e.node.value) else None)], pow);
        }
      }
    }
  }

  lemma {:induction false} BlockResult(t: Tree, i: nat, env: Env, last: Tree, pow: Operation)
    requires t.Node? && i <= |t.kids| && forall k :: k in t.kids ==> Statement(k)
    requires i == |t.kids| ==> last.Node? && last.tag == AST_VALUE
    ensures var w := Block(t, i, env, last, pow);
      w.Walked? ==> w.node.Node? && (w.node.tag == AST_VALUE || w.node.tag == AST_ERROR)
    decreases t, 0, |t.kids| - i
  {
    if i < |t.kids| {
      assert t.kids[i] in t.kids;
      StatementResult(t.kids[i], env, pow);
      match Eval(t.kids[i], env, pow)
      case Stuck =>
      case Walked(n, e) =>
        if n.Node? && n.tag != AST_ERROR {
          BlockResult(t, i + 1, e, n, pow);
        }
    }
  }

  /** The identifier leaf parseLet builds for `name`. */
  function Ident(name: string): Tree {
    Node(AST_IDENT, Str(name), [])
  }

  /** `let name;` binds `name` to NULL, and is an error that leaves the
      table as it was when the name is taken. */
  lemma DeclareName(name: string, env: Env, pow: Operation)
    ensures Eval(LetNode([Ident(name)]), env, pow) ==
      if name in env then Walked(ErrorNode(Redeclared(name)), env)
      else Walked(Value(Null), env[name := Null])
  {
    var t := LetNode([Ident(name)]);
    assert LetKey(t, Ident(name)) == Some(Str(name));
    assert Eval(t, env, pow) == Declare(t, 0, Str(name), None, env, pow);
    if name !in env {
      assert Declare(t, 0, Str(name), None, env, pow) == Let(t, 1, env[name := Null], pow);
    }
  }

  /** `let name = e;` binds `name` to the value of `e`, evaluated first. */
  lemma DeclareWithValue(name: string, e: Tree, o: Object, env: Env, pow: Operation)
    requires Eval(e, env, pow) == Walked(Value(o), env)
    ensures Eval(LetNode([Node(AST_ASSIGN, Unknown, [Ident(name), e])]), env, pow) ==
      if name in env then Walked(ErrorNode(Redeclared(name)), env)
      else Walked(Value(Null), env[name := o])
  {
    var d := Node(AST_ASSIGN, Unknown, [Ident(name), e]);
    var t := LetNode([d]);
    assert LetKey(t, d) == Some(Str(name));
    assert Eval(t, env, pow) == Declare(t, 0, Str(name), Some(o), env, pow);
    if name !in env {
      assert Declare(t, 0, Str(name), Some(o), env, pow) == Let(t, 1, env[name := o], pow);
    }
  }

  /** `let name, name;` declares the name once and then fails on the
      second: the first binding stays in the table. */
  lemma DeclareTwice(name: string, env: Env, pow: Operation)
    requires name !in env
    ensures Eval(LetNode([Ident(name), Ident(name)]), env, pow) ==
      Walked(ErrorNode(Redeclared(name)), env[name := Null])
  {
    var t := LetNode([Ident(name), Ident(name)]);
    assert LetKey(t, t.kids[0]) == Some(Str(name));
    assert LetKey(t, t.kids[1]) == Some(Str(name));
    var e := env[name := Null];
    assert Eval(t, env, pow) == Declare(t, 0, Str(name), None, env, pow);
    assert Declare(t, 0, Str(name), None, env, pow) == Let(t, 1, e, pow);
    assert Let(t, 1, e, pow) == Declare(t, 1, Str(name), None, e, pow);
  }

  /** Parentheses hand on the value or the error of what they enclose. */
  lemma ParenTransparent(u: Tree, env: Env, pow: Operation)
    requires var w := Eval(u, env, pow);
      w.Walked? && w.node.Node? && (w.node.tag == AST_ERROR || w.node == Value(w.node.value))
    ensures Eval(Paren(u), env, pow) == Eval(u, env, pow)
  {
  }

  /** As written, the PASS node calls `function(AST_PASS)`, an `opinfo`
      read below the table; the corrected call hands the operand on. */
  lemma PassAsWritten(a: Object, env: Env, pow: Operation)
    ensures ApplyAsWritten(AST_PASS, a, None, env, pow) == None
    ensures Apply(AST_PASS, a, None, env, pow) == Some(Applied(Outcome(Ok, a), env))
  {
  }

  /** As written, `let name;` takes the LET node's unset value as its key,
      which is not a string; the corrected key is the name itself. */
  lemma LetKeyWritten(name: string)
    ensures LetKeyAsWritten(LetNode([Ident(name)]), Ident(name)) == Some(Unknown)
    ensures LetKey(LetNode([Ident(name)]), Ident(name)) == Some(Str(name))
  {
  }

  /** An identifier evaluates to a reference, and the arithmetic rejects a
      reference: `let name = v; name + w;` is "incompatible type". */
  lemma ReferenceArithmetic(name: string, v: Int64, w: Int64, env: Env, pow: Operation)
    requires name !in env
    ensures Eval(Node(AST_BLOCK, Unknown, [
                   LetNode([Node(AST_ASSIGN, Unknown, [Ident(name), Value(Int(v))])]),
                   Node(TK_ADD, Unknown, [Ident(name), Value(Int(w))])]), env, pow)
            == Walked(ErrorNode(INCOMPATIBLE), env[name := Int(v)])
  {
    var decl := LetNode([Node(AST_ASSIGN, Unknown, [Ident(name), Value(Int(v))])]);
    var sum := Node(TK_ADD, Unknown, [Ident(name), Value(Int(w))]);
    var t := Node(AST_BLOCK, Unknown, [decl, sum]);
    var e := env[name := Int(v)];
    DeclareWithValue(name, Value(Int(v)), Int(v), env, pow);
    assert Eval(Ident(name), e, pow) == Walked(Value(Reference(name)), e);
    assert Add(Reference(name), Int(w)).status == TypeError;
    assert Eval(sum, e, pow) == Walked(ErrorNode(INCOMPATIBLE), e);
    assert Block(t, 1, e, Value(Null), pow) == Block(t, 2, e, ErrorNode(INCOMPATIBLE), pow);
  }

  /** A literal token that is an integer. */
  predicate IntLiteral(t: Token, v: Int64) {
    Primary(t) && t.kind != TK_IDENT && TokenValue(t) == Int(v)
  }

  /** `x + y * z` parses with the product below the sum and evaluates to
      x + y * z when nothing overflows. */
  lemma ParsedArithmetic(x: Token, plus: Token, y: Token, times: Token, z: Token,
                         a: Int64, b: Int64, c: Int64, env: Env, pow: Operation)
    requires IntLiteral(x, a) && IntLiteral(y, b) && IntLiteral(z, c)
    requires plus.kind == TK_ADD && times.kind == TK_MUL
    requires InInt64(b * c) && InInt64(a + b * c)
    ensures ExprSpec([x, plus, y, times, z], 0).Parsed?
    ensures Eval(ExprSpec([x, plus, y, times, z], 0).tree, env, pow) == Walked(Value(Int(a + b * c)), env)
  {
    SumOfProduct(x, plus, y, times, z);
    LiteralValue(x, a, env, pow);
    LiteralValue(y, b, env, pow);
    LiteralValue(z, c, env, pow);
    EvalSumOfProduct(plus, times, Leaf(x), Leaf(y), Leaf(z), a, b, c, env, pow);
  }

  /** `x + y * z` parses as a sum whose right operand is the product. */
  lemma SumOfProduct(x: Token, plus: Token, y: Token, times: Token, z: Token)
    requires Primary(x) && Primary(y) && Primary(z)
    requires plus.kind == TK_ADD && times.kind == TK_MUL
    ensures ExprSpec([x, plus, y, times, z], 0) ==
      Parsed(BinNode(plus, Leaf(x), BinNode(times, Leaf(y), Leaf(z))), 5)
  {
    ArithmeticRows();
    ThreeOperands(x, plus, y, times, z);
  }

  /** The sum over a product evaluates to the integer it denotes. */
  lemma EvalSumOfProduct(plus: Token, times: Token, l: Tree, m: Tree, r: Tree,
                         a: Int64, b: Int64, c: Int64, env: Env, pow: Operation)
    requires plus.kind == TK_ADD && times.kind == TK_MUL
    requires Eval(l, env, pow) == Walked(Value(Int(a)), env)
    requires Eval(m, env, pow) == Walked(Value(Int(b)), env)
    requires Eval(r, env, pow) == Walked(Value(Int(c)), env)
    requires InInt64(b * c) && InInt64(a + b * c)
    ensures Eval(BinNode(plus, l, BinNode(times, m, r)), env, pow) == Walked(Value(Int(a + b * c)), env)
  {
    EvalBinary(times, m, r, Int(b), Int(c), env, pow);
    EvalBinary(plus, l, BinNode(times, m, r), Int(a), Int(b * c), env, pow);
  }

  /** A literal leaf evaluates to its own value. */
  lemma LiteralValue(t: Token, v: Int64, env: Env, pow: Operation)
    requires IntLiteral(t, v)
    ensures Eval(Leaf(t), env, pow) == Walked(Value(Int(v)), env)
  {
  }

  /** A binary operator over two operands that evaluate to objects. */
  lemma EvalBinary(op: Token, l: Tree, r: Tree, a: Object, b: Object, env: Env, pow: Operation)
    requires op.kind == TK_ADD || op.kind == TK_MUL
    requires Eval(l, env, pow) == Walked(Value(a), env)
    requires Eval(r, env, pow) == Walked(Value(b), env)
    requires a.Int? && b.Int? && InInt64(if op.kind == TK_ADD then a.i + b.i else a.i * b.i)
    ensures Eval(BinNode(op, l, r), env, pow) ==
      Walked(Value(Int(if op.kind == TK_ADD then a.i + b.i else a.i * b.i)), env)
  {
    var t := BinNode(op, l, r);
    assert t.kids[0] == l && t.kids[1] == r;
  }
}
