/** Properties of the parenthesised shunting-yard parser (src/wparser.c):
    its trees are well formed for the evaluator, tokens it does not know
    are skipped, parentheses group, `* / %` bind tighter than `+ -`,
    equal precedences group to the left, and the out-of-bounds cases. */
module WParserFacts {
  import opened CInt
  import opened Options
  import opened WTokens
  import opened WParser

  // ---------------------------------------------------------------------
  // Well-formed trees

  lemma CombineValid(st: Stacks)
    requires |st.ops| >= 1 && Valid(st) && Combine(st).Some?
    ensures Valid(Combine(st).value)
  {
    var n := |st.exprs|;
    assert WellFormed(Combine(st).value.exprs[n - 2]);
  }

  lemma {:induction false} ReduceAboveValid(st: Stacks, p: int)
    requires Valid(st) && ReduceAbove(st, p).Some?
    ensures Valid(ReduceAbove(st, p).value)
    decreases |st.ops|
  {
    if |st.ops| > 0 && Prec(st.ops[|st.ops| - 1]) >= p {
      CombineValid(st);
      ReduceAboveValid(Combine(st).value, p);
    }
  }

  lemma {:induction false} CloseParenValid(st: Stacks)
    requires Valid(st) && CloseParen(st).Some?
    ensures Valid(CloseParen(st).value)
    decreases |st.ops|
  {
    if st.ops[|st.ops| - 1] != TK_LPAREN {
      CombineValid(st);
      CloseParenValid(Combine(st).value);
    }
  }

  lemma {:induction false} ReduceAllValid(st: Stacks)
    requires Valid(st) && ReduceAll(st).Some?
    ensures Valid(ReduceAll(st).value)
    decreases |st.ops|
  {
    if |st.ops| > 0 {
      CombineValid(st);
      ReduceAllValid(Combine(st).value);
    }
  }

  lemma StepValid(st: Stacks, t: Token)
    requires Valid(st) && Step(st, t).Some?
    ensures Valid(Step(st, t).value)
  {
    if IsOperator(t.kind) && t.kind != TK_LPAREN && t.kind != TK_INT {
      ReduceAboveValid(st, Prec(t.kind));
    } else if t.kind == TK_RPAREN {
      CloseParenValid(st);
    }
  }

  lemma {:induction false} RunValid(tokens: seq<Token>, i: nat, st: Stacks)
    requires i <= |tokens| && Valid(st)
    ensures Run(tokens, i, st).Tree? ==> WellFormed(Run(tokens, i, st).tree)
    decreases |tokens| - i
  {
    if i == |tokens| {
      if ReduceAll(st).Some? {
        ReduceAllValid(st);
      }
    } else if Step(st, tokens[i]).Some? {
      StepValid(st, tokens[i]);
      RunValid(tokens, i + 1, Step(st, tokens[i]).value);
    }
  }

  /** Every tree the parser returns can be walked by the evaluator: each
      node that is not AST_INT has its two children, each AST_INT node
      its value. */
  lemma ParseWellFormed(tokens: seq<Token>)
    ensures Parse(tokens).Tree? ==> WellFormed(Parse(tokens).tree)
  {
    RunValid(tokens, 0, Stacks([], []));
  }

  // ---------------------------------------------------------------------
  // Skipped tokens

  /** The token types the loop acts on. */
  predicate Known(kind: int) {
    kind == TK_LPAREN || kind == TK_RPAREN || kind == TK_INT || IsOperator(kind)
  }

  /** The tokens the loop acts on, in order. */
  function Relevant(ts: seq<Token>): (r: seq<Token>)
    ensures |r| <= |ts|
  {
    if ts == [] then []
    else (if Known(ts[0].kind) then [ts[0]] else []) + Relevant(ts[1..])
  }

  /** The loop from token `i` on reads only the tokens from `i` on. */
  lemma {:induction false} RunSuffix(ts: seq<Token>, i: nat, st: Stacks)
    requires i <= |ts|
    ensures Run(ts, i, st) == Run(ts[i..], 0, st)
    decreases |ts| - i
  {
    if i < |ts| {
      RunStep(ts, i, st);
      RunStep(ts[i..], 0, st);
      match Step(st, ts[i])
      case None =>
      case Some(s) =>
        RunSuffix(ts, i + 1, s);
        RunSuffix(ts[i..], 1, s);
        assert ts[i..][1..] == ts[i + 1..];
    }
  }

  /** Identifiers, floats, keywords and the other symbols are skipped:
      the parse is that of the known tokens alone. */
  lemma {:induction false} SkipsUnknown(ts: seq<Token>, st: Stacks)
    ensures Run(ts, 0, st) == Run(Relevant(ts), 0, st)
    decreases |ts|
  {
    if ts != [] {
      var t := ts[0];
      var rest := Relevant(ts[1..]);
      RunStep(ts, 0, st);
      match Step(st, t)
      case None =>
        assert Known(t.kind);
        RunStep([t] + rest, 0, st);
      case Some(s) =>
        RunSuffix(ts, 1, s);
        SkipsUnknown(ts[1..], s);
        if Known(t.kind) {
          RunStep([t] + rest, 0, st);
          RunSuffix([t] + rest, 1, s);
          assert ([t] + rest)[1..] == rest;
        } else {
          assert s == st;
          assert Relevant(ts) == rest;
        }
    }
  }

  // ---------------------------------------------------------------------
  // Out of bounds

  /** Nothing to return: `expressions[-1]` is read. */
  lemma EmptyInput()
    ensures Parse([]) == OutOfBounds
  {
  }

  /** A ')' with no '(' below it reads `operators[-1]`. */
  lemma UnmatchedClose(t: Token, rest: seq<Token>)
    requires t.kind == TK_RPAREN
    ensures Parse([t] + rest) == OutOfBounds
  {
    RunStep([t] + rest, 0, Stacks([], []));
  }

  /** An operator with one operand pops `expressions[-1]` at the end. */
  lemma MissingOperand(x: Int64, o: Token)
    requires IsOperator(o.kind)
    ensures Parse([Token(TK_INT, x), o]) == OutOfBounds
  {
    var ts := [Token(TK_INT, x), o];
    RunStep(ts, 0, Stacks([], []));
    var s1 := Stacks([], [IntLeaf(x)]);
    assert [] + [IntLeaf(x)] == s1.exprs;
    RunStep(ts, 1, s1);
    assert [] + [o.kind] == [o.kind];
  }

  lemma {:induction false} Nesting(ts: seq<Token>, k: nat)
    requires k <= CAPACITY < |ts|
    requires forall j :: 0 <= j <= CAPACITY ==> ts[j].kind == TK_LPAREN
    ensures Run(ts, k, Stacks(seq(k, _ => TK_LPAREN), [])) == OutOfBounds
    decreases CAPACITY - k
  {
    var st := Stacks(seq(k, _ => TK_LPAREN), []);
    RunStep(ts, k, st);
    if k < CAPACITY {
      assert st.ops + [TK_LPAREN] == seq(k + 1, _ => TK_LPAREN);
      Nesting(ts, k + 1);
    }
  }

  /** Twenty-one '(' in a row write past the end of `operators`. */
  lemma DeepNesting(ts: seq<Token>)
    requires CAPACITY < |ts|
    requires forall j :: 0 <= j <= CAPACITY ==> ts[j].kind == TK_LPAREN
    ensures Parse(ts) == OutOfBounds
  {
    Nesting(ts, 0);
    assert seq(0, _ => TK_LPAREN) == [];
  }

  // ---------------------------------------------------------------------
  // Grouping and evaluation

  /** A parse step that succeeds moves the loop one token on. */
  lemma Advance(ts: seq<Token>, i: nat, st: Stacks, s: Stacks)
    requires i < |ts| && Step(st, ts[i]) == Some(s)
    ensures Run(ts, i, st) == Run(ts, i + 1, s)
  {
    RunStep(ts, i, st);
  }

  function IntTok(v: Int64): Token {
    Token(TK_INT, v)
  }

  function Tok(kind: int): Token {
    Token(kind, 0)
  }

  /** An integer token pushes its leaf. */
  lemma StepInt(st: Stacks, v: Int64)
    requires |st.exprs| < CAPACITY
    ensures Step(st, IntTok(v)) == Some(Stacks(st.ops, st.exprs + [IntLeaf(v)]))
  {
  }

  /** An operator over a looser one (or none) is pushed as it is. */
  lemma StepPush(st: Stacks, k: int)
    requires IsOperator(k) && |st.ops| < CAPACITY
    requires |st.ops| == 0 || Prec(st.ops[|st.ops| - 1]) < Prec(k)
    ensures Step(st, Tok(k)) == Some(Stacks(st.ops + [k], st.exprs))
  {
  }

  /** One reduction of the top operator `o` over `l` and `r`. */
  lemma CombineTop(ops: seq<int>, o: int, exprs: seq<Ast>, l: Ast, r: Ast)
    ensures Combine(Stacks(ops + [o], exprs + [l, r])) == Some(Stacks(ops, exprs + [Join(o, l, r)]))
  {
    var st := Stacks(ops + [o], exprs + [l, r]);
    assert st.ops[..|st.ops| - 1] == ops;
    assert st.exprs[..|st.exprs| - 2] == exprs;
  }

  lemma SingleCombine(o: int, l: Ast, r: Ast)
    ensures Combine(Stacks([o], [l, r])) == Some(Stacks([], [Join(o, l, r)]))
  {
    CombineTop([], o, [], l, r);
    assert Stacks([o], [l, r]) == Stacks([] + [o], [] + [l, r]);
    assert [] + [Join(o, l, r)] == [Join(o, l, r)];
  }

  /** An operator over a single tighter-or-equal one reduces it first. */
  lemma StepReduceOnce(o: int, l: Ast, r: Ast, k: int)
    requires IsOperator(k) && Prec(o) >= Prec(k)
    ensures Step(Stacks([o], [l, r]), Tok(k)) == Some(Stacks([k], [Join(o, l, r)]))
  {
    var st := Stacks([o], [l, r]);
    var done := Stacks([], [Join(o, l, r)]);
    SingleCombine(o, l, r);
    assert ReduceAbove(st, Prec(k)) == ReduceAbove(done, Prec(k)) == Some(done);
    assert done.ops + [k] == [k];
  }

  /** A ')' over `( l o r` leaves their node. */
  lemma StepClose(o: int, l: Ast, r: Ast)
    requires o != TK_LPAREN
    ensures Step(Stacks([TK_LPAREN, o], [l, r]), Tok(TK_RPAREN)) == Some(Stacks([], [Join(o, l, r)]))
  {
    var st := Stacks([TK_LPAREN, o], [l, r]);
    var open := Stacks([TK_LPAREN], [Join(o, l, r)]);
    CombineTop([TK_LPAREN], o, [], l, r);
    assert st == Stacks([TK_LPAREN] + [o], [] + [l, r]);
    assert [] + [Join(o, l, r)] == open.exprs;
    assert CloseParen(st) == CloseParen(open);
    assert open.ops[..0] == [];
  }

  /** The end of input over one pending operator. */
  lemma FinishOne(o: int, l: Ast, r: Ast)
    ensures Finish(Stacks([o], [l, r])) == Tree(Join(o, l, r))
  {
    var done := Stacks([], [Join(o, l, r)]);
    SingleCombine(o, l, r);
    assert ReduceAll(Stacks([o], [l, r])) == ReduceAll(done) == Some(done);
  }

  /** The end of input over two pending operators nests the later one on
      the right. */
  lemma FinishTwo(o1: int, o2: int, a: Ast, b: Ast, c: Ast)
    ensures Finish(Stacks([o1, o2], [a, b, c])) == Tree(Join(o1, a, Join(o2, b, c)))
  {
    CombineTop([o1], o2, [a], b, c);
    assert [o1] + [o2] == [o1, o2] && [a] + [b, c] == [a, b, c];
    assert [a] + [Join(o2, b, c)] == [a, Join(o2, b, c)];
    FinishOne(o1, a, Join(o2, b, c));
  }

  /** `(x + y) * z`: the parentheses make the sum the left operand. */
  lemma ParenthesesGroup(x: Int64, y: Int64, z: Int64)
    ensures Parse([Tok(TK_LPAREN), IntTok(x), Tok(TK_ADD), IntTok(y), Tok(TK_RPAREN), Tok(TK_MUL), IntTok(z)])
         == Tree(Join(TK_MUL, Join(TK_ADD, IntLeaf(x), IntLeaf(y)), IntLeaf(z)))
  {
    var ts := [Tok(TK_LPAREN), IntTok(x), Tok(TK_ADD), IntTok(y), Tok(TK_RPAREN), Tok(TK_MUL), IntTok(z)];
    var a, b, c := IntLeaf(x), IntLeaf(y), IntLeaf(z);
    var sum := Join(TK_ADD, a, b);
    var s1 := Stacks([TK_LPAREN], []);
    var s2 := Stacks([TK_LPAREN], [a]);
    var s3 := Stacks([TK_LPAREN, TK_ADD], [a]);
    var s4 := Stacks([TK_LPAREN, TK_ADD], [a, b]);
    var s5 := Stacks([], [sum]);
    var s6 := Stacks([TK_MUL], [sum]);
    var s7 := Stacks([TK_MUL], [sum, c]);
    assert [] + [TK_LPAREN] == s1.ops;
    Advance(ts, 0, Stacks([], []), s1);
    StepInt(s1, x);
    assert [] + [a] == s2.exprs;
    Advance(ts, 1, s1, s2);
    StepPush(s2, TK_ADD);
    assert s2.ops + [TK_ADD] == s3.ops;
    Advance(ts, 2, s2, s3);
    StepInt(s3, y);
    assert s3.exprs + [b] == s4.exprs;
    Advance(ts, 3, s3, s4);
    StepClose(TK_ADD, a, b);
    Advance(ts, 4, s4, s5);
    StepPush(s5, TK_MUL);
    assert [] + [TK_MUL] == s6.ops;
    Advance(ts, 5, s5, s6);
    StepInt(s6, z);
    assert s6.exprs + [c] == s7.exprs;
    Advance(ts, 6, s6, s7);
    FinishOne(TK_MUL, sum, c);
  }

  /** `x + y * z`: the product is the right operand of the sum. */
  lemma ProductBindsTighter(x: Int64, y: Int64, z: Int64)
    ensures Parse([IntTok(x), Tok(TK_ADD), IntTok(y), Tok(TK_MUL), IntTok(z)])
         == Tree(Join(TK_ADD, IntLeaf(x), Join(TK_MUL, IntLeaf(y), IntLeaf(z))))
  {
    var ts := [IntTok(x), Tok(TK_ADD), IntTok(y), Tok(TK_MUL), IntTok(z)];
    var a, b, c := IntLeaf(x), IntLeaf(y), IntLeaf(z);
    var s1 := Stacks([], [a]);
    var s2 := Stacks([TK_ADD], [a]);
    var s3 := Stacks([TK_ADD], [a, b]);
    var s4 := Stacks([TK_ADD, TK_MUL], [a, b]);
    var s5 := Stacks([TK_ADD, TK_MUL], [a, b, c]);
    StepInt(Stacks([], []), x);
    assert [] + [a] == s1.exprs;
    Advance(ts, 0, Stacks([], []), s1);
    StepPush(s1, TK_ADD);
    assert [] + [TK_ADD] == s2.ops;
    Advance(ts, 1, s1, s2);
    StepInt(s2, y);
    assert s2.exprs + [b] == s3.exprs;
    Advance(ts, 2, s2, s3);
    StepPush(s3, TK_MUL);
    assert s3.ops + [TK_MUL] == s4.ops;
    Advance(ts, 3, s3, s4);
    StepInt(s4, z);
    assert s4.exprs + [c] == s5.exprs;
    Advance(ts, 4, s4, s5);
    FinishTwo(TK_ADD, TK_MUL, a, b, c);
  }

  /** `x - y - z`: equal precedences group to the left. */
  lemma DifferenceGroupsLeft(x: Int64, y: Int64, z: Int64)
    ensures Parse([IntTok(x), Tok(TK_SUB), IntTok(y), Tok(TK_SUB), IntTok(z)])
         == Tree(Join(TK_SUB, Join(TK_SUB, IntLeaf(x), IntLeaf(y)), IntLeaf(z)))
  {
    var ts := [IntTok(x), Tok(TK_SUB), IntTok(y), Tok(TK_SUB), IntTok(z)];
    var a, b, c := IntLeaf(x), IntLeaf(y), IntLeaf(z);
    var d := Join(TK_SUB, a, b);
    var s1 := Stacks([], [a]);
    var s2 := Stacks([TK_SUB], [a]);
    var s3 := Stacks([TK_SUB], [a, b]);
    var s4 := Stacks([TK_SUB], [d]);
    var s5 := Stacks([TK_SUB], [d, c]);
    StepInt(Stacks([], []), x);
    assert [] + [a] == s1.exprs;
    Advance(ts, 0, Stacks([], []), s1);
    StepPush(s1, TK_SUB);
    assert [] + [TK_SUB] == s2.ops;
    Advance(ts, 1, s1, s2);
    StepInt(s2, y);
    assert s2.exprs + [b] == s3.exprs;
    Advance(ts, 2, s2, s3);
    StepReduceOnce(TK_SUB, a, b, TK_SUB);
    Advance(ts, 3, s3, s4);
    StepInt(s4, z);
    assert s4.exprs + [c] == s5.exprs;
    Advance(ts, 4, s4, s5);
    FinishOne(TK_SUB, d, c);
  }

  /** The tree of `(x + y) * z` evaluates to the product of the sum. */
  lemma ExecuteGrouped(x: Int64, y: Int64, z: Int64)
    requires InInt64(x + y) && InInt64((x + y) * z)
    ensures Execute(Join(TK_MUL, Join(TK_ADD, IntLeaf(x), IntLeaf(y)), IntLeaf(z)), false)
         == Value(IntLeaf((x + y) * z))
  {
    AstAlignment();
    assert Execute(Join(TK_ADD, IntLeaf(x), IntLeaf(y)), false) == Value(IntLeaf(x + y));
  }

  /** As written `x % y` fails the `assert(0)` of the switch's default;
      with the remainder computed it is C's `x % y`. */
  lemma Remainder(x: Int64, y: Int64)
    requires y != 0 && !(x == INT64_MIN && y == -1)
    ensures Execute(Join(TK_MOD, IntLeaf(x), IntLeaf(y)), true) == Aborted
    ensures Execute(Join(TK_MOD, IntLeaf(x), IntLeaf(y)), false).Value?
    ensures Execute(Join(TK_MOD, IntLeaf(x), IntLeaf(y)), false).node.value == Some(TRem(x, y))
  {
    AstAlignment();
  }

  /** Operators with no case in the switch, `=` for one, abort. */
  lemma OtherOperatorsAbort(x: Int64, y: Int64)
    ensures Execute(Join(TK_ASSIGN, IntLeaf(x), IntLeaf(y)), false) == Aborted
  {
  }
}
