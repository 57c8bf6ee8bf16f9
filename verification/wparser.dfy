/** The second shunting-yard parser of the older snapshot (src/wparser.c,
    src/wparser.h): integer literals, parentheses and binary operators on
    two fixed stacks of twenty entries, and an evaluator for the tree it
    builds.  Reading or writing outside a stack is undefined behaviour in
    C; the model stops there with OutOfBounds. */
module WParser {
  import opened CInt
  import opened Options
  import opened WTokens
  import WParse

  /** Both stacks hold twenty entries (lines 56 and 59). */
  const CAPACITY := 20

  /** `precedence[]` (lines 39-51), indexed by token type minus TK_COMMA. */
  const PRECEDENCE: seq<int> :=
    [0, 0, 0, 0, 0, 0, 0, 0, 0, 0, 0, 0, 0, 0, 0, 0, 0, 0, 0, 0, 0, 0, 0, 2, 2, 3, 3, 3, 0, 0, 0]

  /** The precedence of a token type: 2 for `+ -`, 3 for `* / %`, 0 for
      the rest.  Only '(' and operators are ever looked up. */
  function Prec(t: int): int {
    if t == TK_ADD || t == TK_SUB then 2
    else if t == TK_MUL || t == TK_DIV || t == TK_MOD then 3
    else 0
  }

  /** Prec agrees with every entry of the table, and the table covers '('
      and every operator. */
  lemma PrecedenceTable()
    ensures forall t :: TK_COMMA <= t < TK_COMMA + |PRECEDENCE| ==> Prec(t) == PRECEDENCE[t - TK_COMMA]
    ensures TK_COMMA <= TK_LPAREN && TK_NOT < TK_COMMA + |PRECEDENCE|
  {
    forall t | TK_COMMA <= t < TK_COMMA + |PRECEDENCE|
      ensures Prec(t) == PRECEDENCE[t - TK_COMMA]
    {
      var k := t - TK_COMMA;
      assert PRECEDENCE[23] == PRECEDENCE[24] == 2;
      assert PRECEDENCE[25] == PRECEDENCE[26] == PRECEDENCE[27] == 3;
      assert k < 23 || k > 27 ==> PRECEDENCE[k] == 0;
    }
  }

  /** `ast_node_t`: its type, the integer of its `info` union (None where
      nothing has written it) and its children. */
  datatype Ast = Ast(kind: int, value: Option<Int64>, kids: seq<Ast>)

  /** The leaf of an integer token (lines 69-71). */
  function IntLeaf(v: Int64): Ast {
    Ast(AST_INT, Some(v), [])
  }

  /** A reduced operator over its two operands (lines 82-85). */
  function Join(op: int, l: Ast, r: Ast): Ast {
    Ast(AstOf(op), None, [l, r])
  }

  /** The used parts of `operators` and `expressions`, bottom first. */
  datatype Stacks = Stacks(ops: seq<int>, exprs: seq<Ast>)

  /** What the parser returns: the top expression, or the first access
      outside a stack (an overflow past twenty, a pop from an empty
      stack, or the read of `expressions[-1]` for an empty input). */
  datatype Parsed = Tree(tree: Ast) | OutOfBounds

  /** Both stacks within their arrays. */
  predicate Fits(st: Stacks) {
    |st.ops| <= CAPACITY && |st.exprs| <= CAPACITY
  }

  /** The trees `_winter_executeAST` can walk: an AST_INT node is a leaf
      with a value, any other node has two children. */
  predicate WellFormed(n: Ast)
    decreases n
  {
    if n.kind == AST_INT then n.kids == [] && n.value.Some?
    else |n.kids| == 2 && WellFormed(n.kids[0]) && WellFormed(n.kids[1])
  }

  /** What the stacks can hold: '(' and operators, and well-formed trees. */
  predicate Valid(st: Stacks) {
    (forall k :: 0 <= k < |st.ops| ==> st.ops[k] == TK_LPAREN || IsOperator(st.ops[k])) &&
    (forall k :: 0 <= k < |st.exprs| ==> WellFormed(st.exprs[k]))
  }

  /** One reduction (lines 78-87, 95-104, 112-121): pop an operator and two
      expressions, push their node; None where fewer than two
      expressions are left to pop. */
  function Combine(st: Stacks): (r: Option<Stacks>)
    requires |st.ops| >= 1
    ensures r.Some? <==> |st.exprs| >= 2
    ensures r.Some? ==> r.value.ops == st.ops[..|st.ops| - 1] && |r.value.exprs| == |st.exprs| - 1
  {
    var n := |st.exprs|;
    if n < 2 then None
    else
      var op := st.ops[|st.ops| - 1];
      var r := Stacks(st.ops[..|st.ops| - 1], st.exprs[..n - 2] + [Join(op, st.exprs[n - 2], st.exprs[n - 1])]);
      Some(r)
  }

  /** The reductions before an operator of precedence `p` is pushed
      (lines 75-89): while the top operator binds at least as tight. */
  function ReduceAbove(st: Stacks, p: int): (r: Option<Stacks>)
    ensures r.Some? ==> r.value.ops <= st.ops && |r.value.exprs| <= |st.exprs|
    ensures r.Some? ==> |r.value.ops| == 0 || Prec(r.value.ops[|r.value.ops| - 1]) < p
    decreases |st.ops|
  {
    if |st.ops| > 0 && Prec(st.ops[|st.ops| - 1]) >= p then
      match Combine(st)
      case None => None
      case Some(s) => ReduceAbove(s, p)
    else Some(st)
  }

  /** A ')' (lines 93-107): reduce down to the nearest '(' and drop it;
      None where the operator stack runs empty first. */
  function CloseParen(st: Stacks): (r: Option<Stacks>)
    ensures r.Some? ==> |r.value.ops| < |st.ops| && |r.value.exprs| <= |st.exprs|
    ensures r.Some? ==> r.value.ops == st.ops[..|r.value.ops|] && st.ops[|r.value.ops|] == TK_LPAREN
    decreases |st.ops|
  {
    if |st.ops| == 0 then None
    else if st.ops[|st.ops| - 1] == TK_LPAREN then Some(Stacks(st.ops[..|st.ops| - 1], st.exprs))
    else
      match Combine(st)
      case None => None
      case Some(s) => CloseParen(s)
  }

  /** The final loop (lines 111-122): every operator reduced. */
  function ReduceAll(st: Stacks): (r: Option<Stacks>)
    ensures r.Some? ==> r.value.ops == [] && |r.value.exprs| <= |st.exprs|
    ensures r.Some? <==> |st.exprs| > |st.ops| || |st.ops| == 0
    decreases |st.ops|
  {
    if |st.ops| == 0 then Some(st)
    else
      match Combine(st)
      case None => None
      case Some(s) => ReduceAll(s)
  }

  /** `operators[operator_size++] = k`; None past the twentieth entry. */
  function PushOp(st: Stacks, k: int): (r: Option<Stacks>)
    ensures r.Some? <==> |st.ops| < CAPACITY
  {
    if |st.ops| < CAPACITY then Some(Stacks(st.ops + [k], st.exprs)) else None
  }

  /** One pass of the token loop (lines 64-108); tokens of any other type
      are skipped. */
  function Step(st: Stacks, t: Token): (r: Option<Stacks>)
    ensures r.Some? && Fits(st) ==> Fits(r.value)
  {
    if t.kind == TK_LPAREN then PushOp(st, TK_LPAREN)
    else if t.kind == TK_INT then
      if |st.exprs| < CAPACITY then Some(Stacks(st.ops, st.exprs + [IntLeaf(t.value)])) else None
    else if IsOperator(t.kind) then
      match ReduceAbove(st, Prec(t.kind))
      case None => None
      case Some(s) => PushOp(s, t.kind)
    else if t.kind == TK_RPAREN then CloseParen(st)
    else Some(st)
  }

  /** The end of a parse (lines 111-124): reduce everything, return the top
      expression. */
  function Finish(st: Stacks): (r: Parsed)
  {
    match ReduceAll(st)
    case None => OutOfBounds
    case Some(s) => if |s.exprs| == 0 then OutOfBounds else Tree(s.exprs[|s.exprs| - 1])
  }

  /** The token loop from token `i` on. */
  function Run(tokens: seq<Token>, i: nat, st: Stacks): (r: Parsed)
    requires i <= |tokens|
    decreases |tokens| - i
  {
    if i == |tokens| then Finish(st)
    else
      match Step(st, tokens[i])
      case None => OutOfBounds
      case Some(s) => Run(tokens, i + 1, s)
  }

  /** `_winter_parseExpression` over the tokens `_winter_nextToken` yields. */
  function Parse(tokens: seq<Token>): (r: Parsed)
    ensures |tokens| == 0 ==> r == OutOfBounds
  {
    Run(tokens, 0, Stacks([], []))
  }

  // ---------------------------------------------------------------------
  // The stacks as arrays

  /** One reduction on the arrays. */
  method Reduce(ops: array<int>, opSize: nat, exprs: array<Ast>, exprSize: nat) returns (o: nat, e: nat)
    requires 1 <= opSize <= ops.Length && 2 <= exprSize <= exprs.Length
    modifies exprs
    ensures o == opSize - 1 && e == exprSize - 1
    ensures Some(Stacks(ops[..o], exprs[..e])) == Combine(Stacks(ops[..opSize], old(exprs[..exprSize])))
  {
    var e1 := exprs[exprSize - 1];
    var e0 := exprs[exprSize - 2];
    var op := ops[opSize - 1];
    exprs[exprSize - 2] := Join(op, e0, e1);
    o, e := opSize - 1, exprSize - 1;
    assert exprs[..e] == old(exprs[..exprSize])[..exprSize - 2] + [Join(op, e0, e1)];
    assert ops[..o] == ops[..opSize][..opSize - 1];
  }

  /** ReduceAbove unfolded once, for a stack that does reduce. */
  lemma ReduceAboveStep(st: Stacks, p: int)
    requires |st.ops| > 0 && Prec(st.ops[|st.ops| - 1]) >= p && |st.exprs| >= 2
    ensures ReduceAbove(st, p) == ReduceAbove(Combine(st).value, p)
  {
  }

  /** CloseParen unfolded once, for a stack whose top is not '('. */
  lemma CloseParenStep(st: Stacks)
    requires |st.ops| > 0 && st.ops[|st.ops| - 1] != TK_LPAREN && |st.exprs| >= 2
    ensures CloseParen(st) == CloseParen(Combine(st).value)
  {
  }

  /** The reductions before an operator is pushed, on the arrays. */
  method ReduceAboveInPlace(ops: array<int>, opSize: nat, exprs: array<Ast>, exprSize: nat, p: int)
    returns (ok: bool, o: nat, e: nat)
    requires opSize <= ops.Length && exprSize <= exprs.Length
    modifies exprs
    ensures o <= opSize && e <= exprSize
    ensures ok == ReduceAbove(Stacks(ops[..opSize], old(exprs[..exprSize])), p).Some?
    ensures ok ==> ReduceAbove(Stacks(ops[..opSize], old(exprs[..exprSize])), p).value == Stacks(ops[..o], exprs[..e])
  {
    o, e := opSize, exprSize;
    ghost var st := Stacks(ops[..o], exprs[..e]);
    while o > 0 && Prec(ops[o - 1]) >= p
      invariant o <= opSize && e <= exprSize && st == Stacks(ops[..o], exprs[..e])
      invariant ReduceAbove(st, p) == ReduceAbove(Stacks(ops[..opSize], old(exprs[..exprSize])), p)
      decreases o
    {
      if e < 2 {
        return false, o, e;
      }
      ReduceAboveStep(st, p);
      o, e := Reduce(ops, o, exprs, e);
      st := Stacks(ops[..o], exprs[..e]);
    }
    assert ReduceAbove(st, p) == Some(st);
    return true, o, e;
  }

  /** A ')' on the arrays: `operators[operator_size-1]` is read before the
      size is checked, so an empty operator stack is out of bounds. */
  method CloseParenInPlace(ops: array<int>, opSize: nat, exprs: array<Ast>, exprSize: nat)
    returns (ok: bool, o: nat, e: nat)
    requires opSize <= ops.Length && exprSize <= exprs.Length
    modifies exprs
    ensures o <= opSize && e <= exprSize
    ensures ok == CloseParen(Stacks(ops[..opSize], old(exprs[..exprSize]))).Some?
    ensures ok ==> CloseParen(Stacks(ops[..opSize], old(exprs[..exprSize]))).value == Stacks(ops[..o], exprs[..e])
  {
    o, e := opSize, exprSize;
    ghost var st := Stacks(ops[..o], exprs[..e]);
    while true
      invariant o <= opSize && e <= exprSize && st == Stacks(ops[..o], exprs[..e])
      invariant CloseParen(st) == CloseParen(Stacks(ops[..opSize], old(exprs[..exprSize])))
      decreases o
    {
      if o == 0 {
        return false, o, e;
      }
      if ops[o - 1] == TK_LPAREN {
        assert ops[..o - 1] == st.ops[..o - 1];
        return true, o - 1, e;
      }
      if e < 2 {
        return false, o, e;
      }
      CloseParenStep(st);
      o, e := Reduce(ops, o, exprs, e);
      st := Stacks(ops[..o], exprs[..e]);
    }
  }

  /** The final reduction loop on the arrays. */
  method ReduceAllInPlace(ops: array<int>, opSize: nat, exprs: array<Ast>, exprSize: nat)
    returns (ok: bool, e: nat)
    requires opSize <= ops.Length && exprSize <= exprs.Length
    modifies exprs
    ensures e <= exprSize
    ensures ok == ReduceAll(Stacks(ops[..opSize], old(exprs[..exprSize]))).Some?
    ensures ok ==> ReduceAll(Stacks(ops[..opSize], old(exprs[..exprSize]))).value == Stacks([], exprs[..e])
  {
    var o: nat := opSize;
    e := exprSize;
    while o > 0
      invariant o <= opSize && e <= exprSize
      invariant ReduceAll(Stacks(ops[..o], exprs[..e])) == ReduceAll(Stacks(ops[..opSize], old(exprs[..exprSize])))
      decreases o
    {
      if e < 2 {
        return false, e;
      }
      o, e := Reduce(ops, o, exprs, e);
    }
    return true, e;
  }

  /** An operator token on the arrays (lines 74-91). */
  method OperatorInPlace(ops: array<int>, opSize: nat, exprs: array<Ast>, exprSize: nat, k: int)
    returns (ok: bool, o: nat, e: nat)
    requires opSize <= ops.Length == CAPACITY && exprSize <= exprs.Length
    modifies ops, exprs
    ensures o <= CAPACITY && e <= exprSize
    ensures var r := ReduceAbove(Stacks(old(ops[..opSize]), old(exprs[..exprSize])), Prec(k));
      ok == (r.Some? && PushOp(r.value, k).Some?) &&
      (ok ==> PushOp(r.value, k).value == Stacks(ops[..o], exprs[..e]))
  {
    ok, o, e := ReduceAboveInPlace(ops, opSize, exprs, exprSize, Prec(k));
    if !ok {
      return;
    }
    if o == CAPACITY {
      return false, o, e;
    }
    o := WParse.Push(ops, o, k);
  }

  /** One token on the arrays. */
  method StepInPlace(ops: array<int>, opSize: nat, exprs: array<Ast>, exprSize: nat, t: Token)
    returns (ok: bool, o: nat, e: nat)
    requires opSize <= ops.Length == CAPACITY && exprSize <= exprs.Length == CAPACITY
    modifies ops, exprs
    ensures o <= CAPACITY && e <= CAPACITY
    ensures ok == Step(Stacks(old(ops[..opSize]), old(exprs[..exprSize])), t).Some?
    ensures ok ==> Step(Stacks(old(ops[..opSize]), old(exprs[..exprSize])), t).value == Stacks(ops[..o], exprs[..e])
  {
    o, e := opSize, exprSize;
    if t.kind == TK_LPAREN {
      if o == CAPACITY {
        return false, o, e;
      }
      o := WParse.Push(ops, o, TK_LPAREN);
      ok := true;
    } else if t.kind == TK_INT {
      if e == CAPACITY {
        return false, o, e;
      }
      e := WParse.Push(exprs, e, IntLeaf(t.value));
      ok := true;
    } else if IsOperator(t.kind) {
      ok, o, e := OperatorInPlace(ops, opSize, exprs, exprSize, t.kind);
    } else if t.kind == TK_RPAREN {
      ok, o, e := CloseParenInPlace(ops, opSize, exprs, exprSize);
    } else {
      ok := true;
    }
  }

  /** The end of a parse on the arrays. */
  method FinishInPlace(ops: array<int>, opSize: nat, exprs: array<Ast>, exprSize: nat) returns (r: Parsed)
    requires opSize <= ops.Length && exprSize <= exprs.Length
    modifies exprs
    ensures r == Finish(Stacks(ops[..opSize], old(exprs[..exprSize])))
  {
    var ok, e := ReduceAllInPlace(ops, opSize, exprs, exprSize);
    if !ok || e == 0 {
      return OutOfBounds;
    }
    return Tree(exprs[e - 1]);
  }

  /** Run unfolded once. */
  lemma RunStep(tokens: seq<Token>, i: nat, st: Stacks)
    requires i < |tokens|
    ensures Run(tokens, i, st) == match Step(st, tokens[i])
                                  case None => OutOfBounds
                                  case Some(s) => Run(tokens, i + 1, s)
  {
  }

  /** `_winter_parseExpression`. */
  method ParseExpression(tokens: seq<Token>) returns (r: Parsed)
    ensures r == Parse(tokens)
  {
    var ops := new int[CAPACITY];
    var exprs := new Ast[CAPACITY](_ => IntLeaf(0));
    var o: nat, e: nat := 0, 0;
    var i: nat := 0;
    ghost var st := Stacks([], []);
    while i < |tokens|
      invariant i <= |tokens| && o <= CAPACITY && e <= CAPACITY
      invariant st == Stacks(ops[..o], exprs[..e]) && Run(tokens, i, st) == Parse(tokens)
      decreases |tokens| - i
    {
      var ok;
      RunStep(tokens, i, st);
      ok, o, e := StepInPlace(ops, o, exprs, e, tokens[i]);
      if !ok {
        return OutOfBounds;
      }
      st := Stacks(ops[..o], exprs[..e]);
      i := i + 1;
    }
    r := FinishInPlace(ops, o, exprs, e);
  }

  // ---------------------------------------------------------------------
  // Evaluation

  /** What `_winter_executeAST` leaves: the rewritten node, undefined
      behaviour (signed overflow, division by zero), or the failed
      `assert(0)` of line 145. */
  datatype Outcome = Value(node: Ast) | Undefined | Aborted

  /** The switch of lines 131-146 on two operand values; `%` is computed
      like `/` unless `asWritten`, where it reaches `default`. */
  function Apply(kind: int, x: Int64, y: Int64, asWritten: bool): (r: Outcome)
    ensures r.Value? ==> r.node.kind == AST_INT && r.node.kids == [] && r.node.value.Some?
    ensures kind == AST_ADD && InInt64(x + y) ==> r == Value(IntLeaf(x + y))
    ensures kind == AST_SUB && InInt64(x - y) ==> r == Value(IntLeaf(x - y))
    ensures kind == AST_MUL && InInt64(x * y) ==> r == Value(IntLeaf(x * y))
    ensures kind == AST_DIV && y != 0 && !(x == INT64_MIN && y == -1) ==> r.Value? && r.node.value.value == TDiv(x, y)
    ensures kind == AST_MOD && y != 0 && !(x == INT64_MIN && y == -1) ==>
              if asWritten then r == Aborted else r.Value? && r.node.value.value == TRem(x, y)
    ensures !(AST_ADD <= kind <= AST_MOD) ==> r == Aborted
  {
    if kind == AST_ADD || kind == AST_SUB || kind == AST_MUL then
      var v := if kind == AST_ADD then x + y else if kind == AST_SUB then x - y else x * y;
      if InInt64(v) then Value(IntLeaf(v)) else Undefined
    else if kind == AST_DIV || (kind == AST_MOD && !asWritten) then
      if y == 0 || (x == INT64_MIN && y == -1) then Undefined
      else if kind == AST_DIV then TDivInRange(x, y); Value(IntLeaf(TDiv(x, y)))
      else
        var q := TRem(x, y);
        assert InInt64(y) && Abs(q) < Abs(y);
        Value(IntLeaf(q))
    else Aborted
  }

  /** `_winter_executeAST`: children first, then the node becomes an
      AST_INT leaf; the freed children are dropped. */
  function Execute(n: Ast, asWritten: bool): (r: Outcome)
    requires WellFormed(n)
    ensures n.kind == AST_INT ==> r == Value(n)
    ensures r.Value? ==> r.node.kind == AST_INT && r.node.kids == [] && r.node.value.Some?
    decreases n
  {
    if n.kind == AST_INT then Value(n)
    else
      match Execute(n.kids[0], asWritten)
      case Undefined => Undefined
      case Aborted => Aborted
      case Value(l) =>
        match Execute(n.kids[1], asWritten)
        case Undefined => Undefined
        case Aborted => Aborted
        case Value(r) => Apply(n.kind, l.value.value, r.value.value, asWritten)
  }
}
