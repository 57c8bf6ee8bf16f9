/** The two-stack shunting-yard parser of the older snapshot
    (src/wparse.c) and its integer evaluator `execute`.  The token stream
    that `_winter_nextToken` produces is the input sequence. */
module WParse {
  import opened CInt
  import opened Options
  import opened WTokens

  /** `precedence`. */
  function Precedence(t: int): (p: int)
    ensures IsOperator(t) ==> -1 <= p <= 1
  {
    if t == TK_LPAREN || t == TK_RPAREN then 69
    else if t == TK_MUL || t == TK_DIV || t == TK_MOD then 1
    else if t == TK_ADD || t == TK_SUB then 0
    else -1
  }

  /** `ast_node_t`: its type, the integer of its value union (None while
      nothing has written it) and its children. */
  datatype Node = Node(kind: int, value: Option<Int64>, kids: seq<Node>)

  /** `createNode` for a token in expression position: an INT or FLOAT
      token hands on its value, an identifier leaves it unset. */
  function Leaf(t: Token): Node {
    Node(t.kind, if t.kind == TK_INT || t.kind == TK_FLOAT then Some(t.value) else None, [])
  }

  /** `createNode` for an operator, with its two children filled in. */
  function Binary(op: int, l: Node, r: Node): Node {
    Node(op, None, [l, r])
  }

  /** Every operator node has the two children `execute` reads. */
  predicate WellFormed(n: Node)
    decreases n
  {
    IsOperator(n.kind) ==> |n.kids| == 2 && WellFormed(n.kids[0]) && WellFormed(n.kids[1])
  }

  /** The node types of a tree, read left to right. */
  function Flat(n: Node): seq<int>
    decreases n
  {
    if |n.kids| == 2 then Flat(n.kids[0]) + [n.kind] + Flat(n.kids[1]) else [n.kind]
  }

  /** The token types of a token sequence. */
  function Kinds(ts: seq<Token>): (ks: seq<int>)
    ensures |ks| == |ts|
  {
    if ts == [] then [] else Kinds(ts[..|ts| - 1]) + [ts[|ts| - 1].kind]
  }

  /** What the parser returns: a tree, NULL for an empty input, the
      failed assert of line 126, or a read below the expression stack. */
  datatype Parsed = Parsed(tree: Node) | NoToken | Aborted | OutOfBounds

  /** The `expect` variable. */
  datatype Expect = Operator | Expression

  /** The used parts of `op_stack` and `expr_stack`, bottom first. */
  datatype Stacks = Stacks(ops: seq<int>, exprs: seq<Node>)

  /** Stacked operators bind ever tighter from bottom to top. */
  predicate Rising(ops: seq<int>) {
    forall a, b :: 0 <= a < b < |ops| ==> Precedence(ops[a]) < Precedence(ops[b])
  }

  predicate Sane(st: Stacks) {
    (forall k :: 0 <= k < |st.ops| ==> IsOperator(st.ops[k])) &&
    (forall k :: 0 <= k < |st.exprs| ==> WellFormed(st.exprs[k])) &&
    Rising(st.ops)
  }

  /** One more expression than operators when an operator is expected,
      as many when an expression is. */
  predicate Shape(st: Stacks, want: Expect) {
    match want
    case Operator => |st.exprs| == |st.ops| + 1
    case Expression => |st.exprs| == |st.ops|
  }

  /** The stacks between two tokens, `i` tokens in. */
  predicate Good(st: Stacks, want: Expect, i: nat) {
    Sane(st) && Shape(st, want) && (want == Expression && i > 0 ==> |st.ops| >= 1)
  }

  /** One reduction (lines 89-98): the top operator over the top two
      expressions, the earlier one as child 0. */
  function Combine(st: Stacks): (r: Stacks)
    requires |st.ops| >= 1 && |st.exprs| >= 2
    ensures r.ops == st.ops[..|st.ops| - 1] && |r.exprs| == |st.exprs| - 1
    ensures Sane(st) ==> Sane(r)
  {
    var n := |st.exprs|;
    Stacks(st.ops[..|st.ops| - 1],
           st.exprs[..n - 2] + [Binary(st.ops[|st.ops| - 1], st.exprs[n - 2], st.exprs[n - 1])])
  }

  /** The reductions before an operator of precedence `p` is pushed
      (lines 88-99): every stacked operator that binds at least as tight. */
  function ReduceAbove(st: Stacks, p: int): (r: Stacks)
    requires |st.exprs| == |st.ops| + 1
    ensures |r.exprs| == |r.ops| + 1 && r.ops <= st.ops
    ensures |r.ops| == 0 || Precedence(r.ops[|r.ops| - 1]) < p
    ensures Sane(st) ==> Sane(r)
    decreases |st.ops|
  {
    if |st.ops| > 0 && Precedence(st.ops[|st.ops| - 1]) >= p then ReduceAbove(Combine(st), p) else st
  }

  /** Every pending operator reduced (lines 103-114 and 131-142); None
      where a reduction pops from an empty expression stack. */
  function ReduceAll(st: Stacks): (r: Option<Stacks>)
    ensures |st.exprs| == |st.ops| + 1 ==> r.Some? && r.value.ops == [] && |r.value.exprs| == 1
    ensures |st.exprs| == |st.ops| >= 1 ==> r.None?
    ensures r.Some? && Sane(st) ==> Sane(r.value)
    decreases |st.ops|
  {
    if |st.ops| == 0 then Some(st)
    else if |st.exprs| < 2 then None
    else ReduceAll(Combine(st))
  }

  /** The end of a parse: everything reduced, the bottom expression returned. */
  function Finish(st: Stacks): Parsed {
    match ReduceAll(st)
    case None => OutOfBounds
    case Some(s) => if |s.exprs| == 0 then OutOfBounds else Parsed(s.exprs[0])
  }

  /** The `do ... while` loop from token `i` on. */
  function Run(tokens: seq<Token>, i: nat, st: Stacks, want: Expect): (r: Parsed)
    requires i <= |tokens| && Good(st, want, i)
    ensures r != NoToken
    decreases |tokens| - i
  {
    if i == |tokens| then Finish(st)
    else
      var t := tokens[i];
      match want
      case Operator =>
        if IsOperator(t.kind) then
          var s := ReduceAbove(st, Precedence(t.kind));
          PushOperator(s, t.kind, i);
          Run(tokens, i + 1, Stacks(s.ops + [t.kind], s.exprs), Expression)
        else Finish(st)
      case Expression =>
        if IsExpression(t.kind) then Run(tokens, i + 1, Stacks(st.ops, st.exprs + [Leaf(t)]), Operator)
        else Aborted
  }

  /** `_winter_parseExpression` as a function of the token stream. */
  function Parse(tokens: seq<Token>): (r: Parsed)
    ensures r == NoToken <==> |tokens| == 0
    ensures |tokens| > 0 && !IsExpression(tokens[0].kind) ==> r == Aborted
  {
    if |tokens| == 0 then NoToken else Run(tokens, 0, Stacks([], []), Expression)
  }

  /** Operators of precedence at most `hi` can stack only `hi + 2` deep. */
  lemma {:induction false} RisingBound(ops: seq<int>, hi: int)
    requires Rising(ops) && forall k :: 0 <= k < |ops| ==> IsOperator(ops[k]) && Precedence(ops[k]) <= hi
    ensures |ops| == 0 || |ops| <= hi + 2
  {
    if |ops| > 0 {
      var top := Precedence(ops[|ops| - 1]);
      var rest := ops[..|ops| - 1];
      assert forall k :: 0 <= k < |rest| ==> Precedence(rest[k]) < top;
      RisingBound(rest, top - 1);
    }
  }

  /** Both stacks stay far below their 8 and 16 entries. */
  lemma StacksBounded(st: Stacks, want: Expect, i: nat)
    requires Good(st, want, i)
    ensures |st.ops| <= 3 && |st.exprs| <= 4
  {
    RisingBound(st.ops, 1);
  }

  /** Pushing an operator after ReduceAbove keeps the stacks good. */
  lemma PushOperator(s: Stacks, k: int, i: nat)
    requires Sane(s) && |s.exprs| == |s.ops| + 1 && IsOperator(k)
    requires |s.ops| == 0 || Precedence(s.ops[|s.ops| - 1]) < Precedence(k)
    ensures Good(Stacks(s.ops + [k], s.exprs), Expression, i + 1)
    ensures |s.ops| <= 2
  {
    var ops := s.ops + [k];
    forall a, b | 0 <= a < b < |ops|
      ensures Precedence(ops[a]) < Precedence(ops[b])
    {
      if b < |s.ops| {
      } else if a < |s.ops| - 1 {
        assert Precedence(s.ops[a]) < Precedence(s.ops[|s.ops| - 1]);
      }
    }
    RisingBound(s.ops, Precedence(k) - 1);
  }

  /** Pushing a leaf in expression position keeps the stacks good. */
  lemma PushLeaf(st: Stacks, t: Token, i: nat)
    requires Good(st, Expression, i) && IsExpression(t.kind)
    ensures Good(Stacks(st.ops, st.exprs + [Leaf(t)]), Operator, i + 1)
  {
  }

  /** One reduction on the arrays. */
  method Reduce(ops: array<int>, opSize: nat, exprs: array<Node>, exprSize: nat) returns (o: nat, e: nat)
    requires 1 <= opSize <= ops.Length && 2 <= exprSize <= exprs.Length
    modifies exprs
    ensures o == opSize - 1 && e == exprSize - 1
    ensures Stacks(ops[..o], exprs[..e]) == Combine(Stacks(ops[..opSize], old(exprs[..exprSize])))
  {
    var expr2 := exprs[exprSize - 1];
    var expr1 := exprs[exprSize - 2];
    var op := ops[opSize - 1];
    exprs[exprSize - 2] := Binary(op, expr1, expr2);
    o, e := opSize - 1, exprSize - 1;
    assert exprs[..e] == old(exprs[..exprSize - 2]) + [Binary(op, expr1, expr2)];
  }

  /** The reduce-everything loop on the arrays. */
  method ReduceAllInPlace(ops: array<int>, opSize: nat, exprs: array<Node>, exprSize: nat)
    returns (ok: bool, e: nat)
    requires opSize <= ops.Length && exprSize <= exprs.Length
    modifies exprs
    ensures ok == ReduceAll(Stacks(ops[..opSize], old(exprs[..exprSize]))).Some?
    ensures ok ==> e <= exprs.Length && ReduceAll(Stacks(ops[..opSize], old(exprs[..exprSize]))).value == Stacks([], exprs[..e])
  {
    var o: nat := opSize;
    e := exprSize;
    while o > 0
      invariant o <= opSize <= ops.Length && e <= exprSize <= exprs.Length
      invariant ReduceAll(Stacks(ops[..o], exprs[..e])) == ReduceAll(Stacks(ops[..opSize], old(exprs[..exprSize])))
      decreases o
    {
      if e < 2 {
        return false, e;
      }
      o, e := Reduce(ops, o, exprs, e);
    }
    return true, e;
  }

  /** The reductions before an operator is pushed (lines 88-99), on the
      arrays. */
  method ReduceAboveInPlace(ops: array<int>, opSize: nat, exprs: array<Node>, exprSize: nat, p: int)
    returns (o: nat, e: nat)
    requires opSize <= ops.Length && exprSize <= exprs.Length && exprSize == opSize + 1
    modifies exprs
    ensures o <= opSize && e <= exprSize
    ensures Stacks(ops[..o], exprs[..e]) == ReduceAbove(Stacks(ops[..opSize], old(exprs[..exprSize])), p)
  {
    o, e := opSize, exprSize;
    while o > 0 && Precedence(ops[o - 1]) >= p
      invariant o <= opSize && e == o + 1
      invariant ReduceAbove(Stacks(ops[..o], exprs[..e]), p) == ReduceAbove(Stacks(ops[..opSize], old(exprs[..exprSize])), p)
      decreases o
    {
      o, e := Reduce(ops, o, exprs, e);
    }
  }

  /** `stack[size++] = x`. */
  method Push<T>(stack: array<T>, size: nat, x: T) returns (n: nat)
    requires size < stack.Length
    modifies stack
    ensures n == size + 1 && stack[..n] == old(stack[..size]) + [x]
  {
    stack[size] := x;
    n := size + 1;
    assert stack[..n] == old(stack[..size]) + [x];
  }

  /** Run at the end of the input, or at a non-operator in operator
      position. */
  lemma RunEnds(tokens: seq<Token>, i: nat, st: Stacks, want: Expect)
    requires i <= |tokens| && Good(st, want, i)
    requires i == |tokens| || (want == Operator && !IsOperator(tokens[i].kind))
    ensures Run(tokens, i, st, want) == Finish(st)
  {
  }

  /** Run on an operator in operator position. */
  lemma RunOperator(tokens: seq<Token>, i: nat, st: Stacks)
    requires i < |tokens| && Good(st, Operator, i) && IsOperator(tokens[i].kind)
    ensures var s := ReduceAbove(st, Precedence(tokens[i].kind));
      Good(Stacks(s.ops + [tokens[i].kind], s.exprs), Expression, i + 1) &&
      Run(tokens, i, st, Operator) == Run(tokens, i + 1, Stacks(s.ops + [tokens[i].kind], s.exprs), Expression)
  {
    PushOperator(ReduceAbove(st, Precedence(tokens[i].kind)), tokens[i].kind, i);
  }

  /** Run on an expression in expression position. */
  lemma RunExpression(tokens: seq<Token>, i: nat, st: Stacks)
    requires i < |tokens| && Good(st, Expression, i) && IsExpression(tokens[i].kind)
    ensures Good(Stacks(st.ops, st.exprs + [Leaf(tokens[i])]), Operator, i + 1)
    ensures Run(tokens, i, st, Expression) == Run(tokens, i + 1, Stacks(st.ops, st.exprs + [Leaf(tokens[i])]), Operator)
  {
  }

  /** An operator in operator position (lines 87-101): the reductions,
      then the push. */
  method OperatorInPlace(ops: array<int>, opSize: nat, exprs: array<Node>, exprSize: nat, k: int,
                         ghost st: Stacks, ghost i: nat)
    returns (o: nat, e: nat, ghost next: Stacks)
    requires opSize <= ops.Length == 8 && exprSize <= exprs.Length
    requires st == Stacks(ops[..opSize], exprs[..exprSize]) && Good(st, Operator, i) && IsOperator(k)
    modifies ops, exprs
    ensures o <= 8 && e <= exprs.Length && next == Stacks(ops[..o], exprs[..e])
    ensures var s := ReduceAbove(st, Precedence(k)); next == Stacks(s.ops + [k], s.exprs)
    ensures Good(next, Expression, i + 1)
  {
    ghost var s := ReduceAbove(st, Precedence(k));
    PushOperator(s, k, i);
    o, e := ReduceAboveInPlace(ops, opSize, exprs, exprSize, Precedence(k));
    o := Push(ops, o, k);
    next := Stacks(s.ops + [k], s.exprs);
  }

  /** An expression in expression position (lines 120-122). */
  method ExpressionInPlace(ops: array<int>, opSize: nat, exprs: array<Node>, exprSize: nat, t: Token,
                           ghost st: Stacks, ghost i: nat)
    returns (e: nat, ghost next: Stacks)
    requires opSize <= ops.Length && exprSize <= exprs.Length == 16
    requires st == Stacks(ops[..opSize], exprs[..exprSize]) && Good(st, Expression, i) && IsExpression(t.kind)
    modifies exprs
    ensures e <= 16 && next == Stacks(ops[..opSize], exprs[..e])
    ensures next == Stacks(st.ops, st.exprs + [Leaf(t)]) && Good(next, Operator, i + 1)
  {
    StacksBounded(st, Expression, i);
    PushLeaf(st, t, i);
    e := Push(exprs, exprSize, Leaf(t));
    next := Stacks(st.ops, st.exprs + [Leaf(t)]);
  }

  /** The reduce-everything loop and `return expr_stack[0]` that end the
      parse, both in the middle (lines 103-115) and at the end of the
      input (lines 131-143). */
  method FinishInPlace(ops: array<int>, opSize: nat, exprs: array<Node>, exprSize: nat,
                       ghost st: Stacks, ghost want: Expect, ghost i: nat)
    returns (r: Parsed)
    requires opSize <= ops.Length && exprSize <= exprs.Length
    requires st == Stacks(ops[..opSize], exprs[..exprSize]) && Good(st, want, i) && i > 0
    modifies exprs
    ensures r == Finish(st)
  {
    var ok, e := ReduceAllInPlace(ops, opSize, exprs, exprSize);
    if !ok {
      return OutOfBounds;
    }
    return Parsed(exprs[0]);
  }

  /** `_winter_parseExpression`. */
  method ParseExpression(tokens: seq<Token>) returns (r: Parsed)
    ensures r == Parse(tokens)
  {
    if |tokens| == 0 {
      return NoToken;
    }
    var opStack := new int[8];
    var opSize: nat := 0;
    var exprStack := new Node[16](_ => Node(TK_UNKNOWN, None, []));
    var exprSize: nat := 0;
    var want := Expression;
    var i: nat := 0;
    ghost var st := Stacks([], []);
    while i < |tokens|
      invariant i <= |tokens| && opSize <= 8 && exprSize <= 16
      invariant st == Stacks(opStack[..opSize], exprStack[..exprSize])
      invariant Good(st, want, i) && Run(tokens, i, st, want) == Parse(tokens)
      invariant want == Operator ==> i > 0
      decreases |tokens| - i
    {
      var token := tokens[i];
      if want == Operator && IsOperator(token.kind) {
        RunOperator(tokens, i, st);
        opSize, exprSize, st := OperatorInPlace(opStack, opSize, exprStack, exprSize, token.kind, st, i);
        want := Expression;
      } else if want == Operator {
        RunEnds(tokens, i, st, want);
        r := FinishInPlace(opStack, opSize, exprStack, exprSize, st, want, i);
        return;
      } else if IsExpression(token.kind) {
        RunExpression(tokens, i, st);
        exprSize, st := ExpressionInPlace(opStack, opSize, exprStack, exprSize, token, st, i);
        want := Operator;
      } else {
        return Aborted;
      }
      i := i + 1;
    }
    r := FinishInPlace(opStack, opSize, exprStack, exprSize, st, want, i);
  }

  /** What `execute` leaves: the rewritten node, or undefined behaviour
      (signed overflow, division by zero). */
  datatype Outcome = Value(node: Node) | Undefined

  /** The value an operator node holds after `execute` (lines 160-174),
      with `%` computed like `/`; None where C leaves the behaviour
      undefined.  An operand whose value nothing has written gives an
      unset result. */
  function Compute(op: int, a: Option<Int64>, b: Option<Int64>, own: Option<Int64>): (r: Option<Option<Int64>>)
    ensures op == TK_MOD && a.Some? && b.Some? && b.value != 0 && !(a.value == INT64_MIN && b.value == -1)
            ==> r == Some(Some(TRem(a.value, b.value)))
  {
    if op != TK_ADD && op != TK_SUB && op != TK_MUL && op != TK_DIV && op != TK_MOD then Some(own)
    else if a.None? || b.None? then Some(None)
    else
      var x, y := a.value, b.value;
      if op == TK_DIV || op == TK_MOD then
        if y == 0 || (x == INT64_MIN && y == -1) then None
        else if op == TK_DIV then TDivInRange(x, y); Some(Some(TDiv(x, y)))
        else Some(Some(TRem(x, y)))
      else
        var v := if op == TK_ADD then x + y else if op == TK_SUB then x - y else x * y;
        if InInt64(v) then Some(Some(v)) else None
  }

  /** The switch of lines 160-174 as written: `%` falls to `default`, so
      the node keeps the value nothing has written. */
  function ComputeAsWritten(op: int, a: Option<Int64>, b: Option<Int64>, own: Option<Int64>): (r: Option<Option<Int64>>)
    ensures op != TK_MOD ==> r == Compute(op, a, b, own)
    ensures op == TK_MOD ==> r == Some(own)
  {
    if op == TK_MOD then Some(own) else Compute(op, a, b, own)
  }

  /** `execute`: children first, then the node becomes an INT leaf; the
      freed children are dropped.  `asWritten` picks ComputeAsWritten
      over Compute. */
  function Execute(n: Node, asWritten: bool): (r: Outcome)
    requires WellFormed(n)
    ensures !IsOperator(n.kind) ==> r == Value(n)
    ensures IsOperator(n.kind) && r.Value? ==> r.node.kind == TK_INT && r.node.kids == []
    decreases n
  {
    if !IsOperator(n.kind) then Value(n)
    else
      match Execute(n.kids[0], asWritten)
      case Undefined => Undefined
      case Value(l) =>
        match Execute(n.kids[1], asWritten)
        case Undefined => Undefined
        case Value(r) =>
          var v := if asWritten then ComputeAsWritten(n.kind, l.value, r.value, n.value)
                   else Compute(n.kind, l.value, r.value, n.value);
          if v.None? then Undefined else Value(Node(TK_INT, v.value, []))
  }
}
