/** Properties of the older snapshot's shunting-yard parser (src/wparse.c):
    a parse reads its input left to right, `* / %` bind tighter than
    `+ -`, equal precedences group to the left, and the error cases. */
module WParseFacts {
  import opened CInt
  import opened Options
  import opened WTokens
  import opened WParse

  /** The node and operator types the stacks hold, read left to right. */
  function Yield(ops: seq<int>, exprs: seq<Node>): seq<int>
    requires |exprs| == |ops| + 1
    decreases |ops|
  {
    if |ops| == 0 then Flat(exprs[0])
    else Yield(ops[..|ops| - 1], exprs[..|exprs| - 1]) + [ops[|ops| - 1]] + Flat(exprs[|exprs| - 1])
  }

  /** What the stacks have read so far: in expression position the last
      operator is still waiting for its right operand. */
  function Read(st: Stacks, want: Expect): seq<int>
    requires Shape(st, want)
  {
    match want
    case Operator => Yield(st.ops, st.exprs)
    case Expression =>
      if |st.ops| == 0 then [] else Yield(st.ops[..|st.ops| - 1], st.exprs) + [st.ops[|st.ops| - 1]]
  }

  lemma {:induction false} KindsPrefix(ts: seq<Token>, i: nat)
    requires i <= |ts|
    ensures Kinds(ts[..i]) == Kinds(ts)[..i]
    decreases |ts| - i
  {
    if i < |ts| {
      KindsPrefix(ts, i + 1);
      assert ts[..i + 1][..i] == ts[..i];
    } else {
      assert ts[..i] == ts;
    }
  }

  lemma KindsStep(ts: seq<Token>, i: nat)
    requires i < |ts|
    ensures Kinds(ts[..i + 1]) == Kinds(ts[..i]) + [ts[i].kind]
  {
    assert ts[..i + 1][..i] == ts[..i];
  }

  /** A reduction does not change what the stacks have read. */
  lemma CombineYield(st: Stacks)
    requires |st.ops| >= 1 && |st.exprs| == |st.ops| + 1
    ensures Yield(Combine(st).ops, Combine(st).exprs) == Yield(st.ops, st.exprs)
  {
    var k := |st.ops|;
    var c := Combine(st);
    var e1, e2 := st.exprs[k - 1], st.exprs[k];
    var b := Binary(st.ops[k - 1], e1, e2);
    assert Flat(b) == Flat(e1) + [st.ops[k - 1]] + Flat(e2);
    assert st.exprs[..k][..k - 1] == st.exprs[..k - 1];
    assert c.exprs == st.exprs[..k - 1] + [b];
    if k > 1 {
      assert c.ops[..k - 2] == st.ops[..k - 1][..k - 2];
      assert c.exprs[..k - 1] == st.exprs[..k][..k - 1];
    }
  }

  lemma {:induction false} ReduceAboveYield(st: Stacks, p: int)
    requires |st.exprs| == |st.ops| + 1
    ensures Yield(ReduceAbove(st, p).ops, ReduceAbove(st, p).exprs) == Yield(st.ops, st.exprs)
    decreases |st.ops|
  {
    if |st.ops| > 0 && Precedence(st.ops[|st.ops| - 1]) >= p {
      CombineYield(st);
      ReduceAboveYield(Combine(st), p);
    }
  }

  lemma {:induction false} ReduceAllYield(st: Stacks)
    requires |st.exprs| == |st.ops| + 1
    ensures Flat(ReduceAll(st).value.exprs[0]) == Yield(st.ops, st.exprs)
    decreases |st.ops|
  {
    if |st.ops| > 0 {
      CombineYield(st);
      ReduceAllYield(Combine(st));
    }
  }

  lemma PushLeafYield(st: Stacks, t: Token)
    requires Shape(st, Expression)
    ensures Yield(st.ops, st.exprs + [Leaf(t)]) == Read(st, Expression) + [t.kind]
  {
    assert (st.exprs + [Leaf(t)])[..|st.exprs|] == st.exprs;
  }

  lemma PushOperatorYield(s: Stacks, k: int)
    requires |s.exprs| == |s.ops| + 1
    ensures Read(Stacks(s.ops + [k], s.exprs), Expression) == Yield(s.ops, s.exprs) + [k]
  {
    assert (s.ops + [k])[..|s.ops|] == s.ops;
  }

  /** Finishing returns a tree that reads what the stacks have read. */
  lemma FinishYield(st: Stacks, want: Expect, i: nat)
    requires Good(st, want, i)
    ensures Finish(st).Parsed? ==> Flat(Finish(st).tree) == Read(st, want) && WellFormed(Finish(st).tree)
  {
    if want == Operator {
      ReduceAllYield(st);
    }
  }

  /** The loop keeps the stacks' reading equal to the tokens consumed. */
  lemma {:induction false} RunYield(tokens: seq<Token>, i: nat, st: Stacks, want: Expect)
    requires i <= |tokens| && Good(st, want, i) && Read(st, want) == Kinds(tokens[..i])
    ensures Run(tokens, i, st, want).Parsed? ==>
      Flat(Run(tokens, i, st, want).tree) <= Kinds(tokens) && WellFormed(Run(tokens, i, st, want).tree)
    decreases |tokens| - i
  {
    if i == |tokens| || (want == Operator && !IsOperator(tokens[i].kind)) {
      RunEnds(tokens, i, st, want);
      FinishYield(st, want, i);
      KindsPrefix(tokens, i);
    } else if want == Operator {
      var k := tokens[i].kind;
      var s := ReduceAbove(st, Precedence(k));
      RunOperator(tokens, i, st);
      ReduceAboveYield(st, Precedence(k));
      PushOperatorYield(s, k);
      KindsStep(tokens, i);
      RunYield(tokens, i + 1, Stacks(s.ops + [k], s.exprs), Expression);
    } else if IsExpression(tokens[i].kind) {
      RunExpression(tokens, i, st);
      PushLeafYield(st, tokens[i]);
      KindsStep(tokens, i);
      RunYield(tokens, i + 1, Stacks(st.ops, st.exprs + [Leaf(tokens[i])]), Operator);
    }
  }

  /** A parse is a bracketing of a prefix of its input: read left to
      right, the tree's types are the first token types; and every
      operator node has its two children. */
  lemma ParseReadsInput(tokens: seq<Token>)
    ensures Parse(tokens).Parsed? ==> Flat(Parse(tokens).tree) <= Kinds(tokens) && WellFormed(Parse(tokens).tree)
  {
    if |tokens| > 0 {
      RunYield(tokens, 0, Stacks([], []), Expression);
    }
  }

  /** The first three tokens of `x o1 y o2 z` go onto the stacks as they
      come. */
  lemma ThreeOperandsPrefix(x: Token, o1: Token, y: Token, o2: Token, z: Token)
    requires IsExpression(x.kind) && IsExpression(y.kind) && IsOperator(o1.kind)
    ensures Parse([x, o1, y, o2, z]) == Run([x, o1, y, o2, z], 3, Stacks([o1.kind], [Leaf(x), Leaf(y)]), Operator)
  {
    var ts := [x, o1, y, o2, z];
    assert ts[0] == x && ts[1] == o1 && ts[2] == y;
    var s0 := Stacks([], []);
    var s1 := Stacks([], [Leaf(x)]);
    var s2 := Stacks([o1.kind], [Leaf(x)]);
    var s3 := Stacks([o1.kind], [Leaf(x), Leaf(y)]);
    assert Run(ts, 0, s0, Expression) == Run(ts, 1, s1, Operator) by {
      RunExpression(ts, 0, s0);
      assert s0.exprs + [Leaf(x)] == s1.exprs;
    }
    assert Run(ts, 1, s1, Operator) == Run(ts, 2, s2, Expression) by {
      RunOperator(ts, 1, s1);
      assert ReduceAbove(s1, Precedence(o1.kind)) == s1;
      assert [] + [o1.kind] == s2.ops;
    }
    assert Run(ts, 2, s2, Expression) == Run(ts, 3, s3, Operator) by {
      RunExpression(ts, 2, s2);
      assert s2.exprs + [Leaf(y)] == s3.exprs;
    }
  }

  /** An operand as the last token ends the parse with a full reduction. */
  lemma LastOperand(ts: seq<Token>, st: Stacks)
    requires |ts| >= 1 && Good(st, Expression, |ts| - 1) && IsExpression(ts[|ts| - 1].kind)
    ensures Run(ts, |ts| - 1, st, Expression) == Finish(Stacks(st.ops, st.exprs + [Leaf(ts[|ts| - 1])]))
  {
    var i := |ts| - 1;
    RunExpression(ts, i, st);
    RunEnds(ts, i + 1, Stacks(st.ops, st.exprs + [Leaf(ts[i])]), Operator);
  }

  /** The rest of `x o1 y o2 z` when `o1` binds at least as tightly. */
  lemma LeftGroupsFirst(x: Token, o1: Token, y: Token, o2: Token, z: Token)
    requires IsExpression(x.kind) && IsExpression(y.kind) && IsExpression(z.kind)
    requires IsOperator(o1.kind) && IsOperator(o2.kind)
    requires Precedence(o1.kind) >= Precedence(o2.kind)
    ensures Run([x, o1, y, o2, z], 3, Stacks([o1.kind], [Leaf(x), Leaf(y)]), Operator)
         == Parsed(Binary(o2.kind, Binary(o1.kind, Leaf(x), Leaf(y)), Leaf(z)))
  {
    var ts := [x, o1, y, o2, z];
    assert ts[3] == o2 && ts[4] == z;
    var s3 := Stacks([o1.kind], [Leaf(x), Leaf(y)]);
    var b := Binary(o1.kind, Leaf(x), Leaf(y));
    var s4 := Stacks([o2.kind], [b]);
    var s5 := Stacks([o2.kind], [b, Leaf(z)]);
    assert Run(ts, 3, s3, Operator) == Run(ts, 4, s4, Expression) by {
      ReduceFirst(o1.kind, Precedence(o2.kind), Leaf(x), Leaf(y));
      RunOperator(ts, 3, s3);
      assert [] + [o2.kind] == s4.ops;
    }
    assert Run(ts, 4, s4, Expression) == Finish(s5) by {
      LastOperand(ts, s4);
      assert s4.exprs + [Leaf(z)] == s5.exprs;
    }
    ReduceOne(o2.kind, b, Leaf(z));
  }

  /** An operator binding at least as tightly as the next one is reduced
      before that one is pushed. */
  lemma ReduceFirst(o: int, p: int, a: Node, b: Node)
    requires Precedence(o) >= p
    ensures ReduceAbove(Stacks([o], [a, b]), p) == Stacks([], [Binary(o, a, b)])
  {
    assert Combine(Stacks([o], [a, b])) == Stacks([], [Binary(o, a, b)]);
  }

  /** Reducing one pending operator over two expressions. */
  lemma ReduceOne(o: int, a: Node, b: Node)
    ensures ReduceAll(Stacks([o], [a, b])) == Some(Stacks([], [Binary(o, a, b)]))
  {
    var done := Stacks([], [Binary(o, a, b)]);
    assert Combine(Stacks([o], [a, b])) == done;
    assert ReduceAll(Stacks([o], [a, b])) == ReduceAll(done);
  }

  /** Reducing two pending operators nests the later one on the right. */
  lemma ReduceTwo(o1: int, o2: int, a: Node, b: Node, c: Node)
    ensures ReduceAll(Stacks([o1, o2], [a, b, c])) == Some(Stacks([], [Binary(o1, a, Binary(o2, b, c))]))
  {
    var s := Stacks([o1, o2], [a, b, c]);
    var one := Stacks([o1], [a, Binary(o2, b, c)]);
    var done := Stacks([], [Binary(o1, a, Binary(o2, b, c))]);
    assert Combine(s) == one;
    assert Combine(one) == done;
    assert ReduceAll(s) == ReduceAll(one) == ReduceAll(done);
  }

  /** The rest of `x o1 y o2 z` when `o2` binds more tightly. */
  lemma RightGroupsFirst(x: Token, o1: Token, y: Token, o2: Token, z: Token)
    requires IsExpression(x.kind) && IsExpression(y.kind) && IsExpression(z.kind)
    requires IsOperator(o1.kind) && IsOperator(o2.kind)
    requires Precedence(o1.kind) < Precedence(o2.kind)
    ensures Run([x, o1, y, o2, z], 3, Stacks([o1.kind], [Leaf(x), Leaf(y)]), Operator)
         == Parsed(Binary(o1.kind, Leaf(x), Binary(o2.kind, Leaf(y), Leaf(z))))
  {
    var ts := [x, o1, y, o2, z];
    assert ts[3] == o2 && ts[4] == z;
    var s3 := Stacks([o1.kind], [Leaf(x), Leaf(y)]);
    var s4 := Stacks([o1.kind, o2.kind], [Leaf(x), Leaf(y)]);
    var s5 := Stacks([o1.kind, o2.kind], [Leaf(x), Leaf(y), Leaf(z)]);
    assert Run(ts, 3, s3, Operator) == Run(ts, 4, s4, Expression) by {
      RunOperator(ts, 3, s3);
      assert ReduceAbove(s3, Precedence(o2.kind)) == s3;
      assert s3.ops + [o2.kind] == s4.ops;
    }
    assert Run(ts, 4, s4, Expression) == Finish(s5) by {
      LastOperand(ts, s4);
      assert s4.exprs + [Leaf(z)] == s5.exprs;
    }
    ReduceTwo(o1.kind, o2.kind, Leaf(x), Leaf(y), Leaf(z));
  }

  /** Three operands: a tighter right operator groups to the right, and
      otherwise the left pair groups first. */
  lemma ThreeOperands(x: Token, o1: Token, y: Token, o2: Token, z: Token)
    requires IsExpression(x.kind) && IsExpression(y.kind) && IsExpression(z.kind)
    requires IsOperator(o1.kind) && IsOperator(o2.kind)
    ensures Parse([x, o1, y, o2, z]) == Parsed(
      if Precedence(o1.kind) >= Precedence(o2.kind)
      then Binary(o2.kind, Binary(o1.kind, Leaf(x), Leaf(y)), Leaf(z))
      else Binary(o1.kind, Leaf(x), Binary(o2.kind, Leaf(y), Leaf(z))))
  {
    ThreeOperandsPrefix(x, o1, y, o2, z);
    if Precedence(o1.kind) >= Precedence(o2.kind) {
      LeftGroupsFirst(x, o1, y, o2, z);
    } else {
      RightGroupsFirst(x, o1, y, o2, z);
    }
  }

  /** The error paths: no token gives NULL, a first token that is not an
      expression fails the assert, and a trailing operator makes the last
      reduction pop below the expression stack. */
  lemma ErrorPaths(x: Token, o: Token, rest: seq<Token>)
    requires IsExpression(x.kind) && IsOperator(o.kind)
    ensures Parse([]) == NoToken
    ensures Parse([o] + rest) == Aborted
    ensures Parse([x, o]) == OutOfBounds
  {
    assert ([o] + rest)[0] == o;
    var ts := [x, o];
    var s1 := Stacks([], [Leaf(x)]);
    RunExpression(ts, 0, Stacks([], []));
    assert [] + [Leaf(x)] == s1.exprs;
    RunOperator(ts, 1, s1);
    var s2 := Stacks([o.kind], [Leaf(x)]);
    assert ReduceAbove(s1, Precedence(o.kind)).ops + [o.kind] == s2.ops;
    RunEnds(ts, 2, s2, Expression);
  }

  /** A non-operator where an operator is expected ends the parse: the
      tokens after it are never read. */
  lemma StopsEarly(x: Token, y: Token, rest: seq<Token>)
    requires IsExpression(x.kind) && !IsOperator(y.kind)
    ensures Parse([x, y] + rest) == Parsed(Leaf(x))
  {
    var ts := [x, y] + rest;
    assert ts[0] == x && ts[1] == y;
    RunExpression(ts, 0, Stacks([], []));
    assert [] + [Leaf(x)] == [Leaf(x)];
    RunEnds(ts, 1, Stacks([], [Leaf(x)]), Operator);
  }

  function IntToken(v: Int64): Token {
    Token(TK_INT, v)
  }

  /** An integer token's node is a well-formed leaf. */
  lemma IntLeaf(v: Int64)
    ensures Leaf(IntToken(v)) == Node(TK_INT, Some(v), []) && WellFormed(Leaf(IntToken(v)))
  {
    assert !IsOperator(TK_INT);
  }

  /** The tree of `x + y * z`. */
  function SumTree(x: Int64, y: Int64, z: Int64): (n: Node)
    ensures WellFormed(n)
  {
    IntLeaf(x);
    IntLeaf(y);
    IntLeaf(z);
    var product := Binary(TK_MUL, Leaf(IntToken(y)), Leaf(IntToken(z)));
    assert WellFormed(product);
    Binary(TK_ADD, Leaf(IntToken(x)), product)
  }

  /** The tree of `x - y - z`, grouped to the left. */
  function DifferenceTree(x: Int64, y: Int64, z: Int64): (n: Node)
    ensures WellFormed(n)
  {
    IntLeaf(x);
    IntLeaf(y);
    IntLeaf(z);
    var difference := Binary(TK_SUB, Leaf(IntToken(x)), Leaf(IntToken(y)));
    assert WellFormed(difference);
    Binary(TK_SUB, difference, Leaf(IntToken(z)))
  }

  /** `x + y * z` parses and executes to the integer it denotes. */
  lemma SumOfProduct(x: Int64, y: Int64, z: Int64, plus: Token, times: Token)
    requires plus.kind == TK_ADD && times.kind == TK_MUL
    requires InInt64(y * z) && InInt64(x + y * z)
    ensures Parse([IntToken(x), plus, IntToken(y), times, IntToken(z)]) == Parsed(SumTree(x, y, z))
    ensures Execute(SumTree(x, y, z), false) == Value(Node(TK_INT, Some(x + y * z), []))
  {
    ThreeOperands(IntToken(x), plus, IntToken(y), times, IntToken(z));
    IntLeaf(y);
    IntLeaf(z);
    var inner := Binary(TK_MUL, Leaf(IntToken(y)), Leaf(IntToken(z)));
    assert Execute(inner, false) == Value(Node(TK_INT, Some(y * z), []));
  }

  /** `x - y - z` groups to the left. */
  lemma DifferenceGroupsLeft(x: Int64, y: Int64, z: Int64, minus: Token)
    requires minus.kind == TK_SUB
    requires InInt64(x - y) && InInt64(x - y - z)
    ensures Parse([IntToken(x), minus, IntToken(y), minus, IntToken(z)]) == Parsed(DifferenceTree(x, y, z))
    ensures Execute(DifferenceTree(x, y, z), false) == Value(Node(TK_INT, Some(x - y - z), []))
  {
    ThreeOperands(IntToken(x), minus, IntToken(y), minus, IntToken(z));
    IntLeaf(x);
    IntLeaf(y);
    var inner := Binary(TK_SUB, Leaf(IntToken(x)), Leaf(IntToken(y)));
    assert Execute(inner, false) == Value(Node(TK_INT, Some(x - y), []));
  }

  /** The tree of `x % y`. */
  function ModTree(x: Int64, y: Int64): (n: Node)
    ensures WellFormed(n)
  {
    Binary(TK_MOD, Leaf(IntToken(x)), Leaf(IntToken(y)))
  }

  /** As written `x % y` executes to an INT node whose value nothing has
      written; with the remainder computed it is C's `x % y`. */
  lemma Remainder(x: Int64, y: Int64)
    requires y != 0 && !(x == INT64_MIN && y == -1)
    ensures Execute(ModTree(x, y), true) == Value(Node(TK_INT, None, []))
    ensures Execute(ModTree(x, y), false) == Value(Node(TK_INT, Some(TRem(x, y)), []))
  {
  }
}
