/** How walkTree of src/parser.c treats errors, identifiers and missing
    operations, one node at a time. */
module EvalCases {
  import opened Tags
  import opened Objects
  import opened Options
  import opened Parser
  import opened Evaluator

  /** An ERROR from the first operand is the result of the operator node;
      the second operand is never walked. */
  lemma LeftErrorPropagates(op: int, v: Object, l: Tree, r: Tree, env: Env, pow: Operation)
    requires IsOperator(op) && Eval(l, env, pow).Walked? && IsError(Eval(l, env, pow).node)
    ensures Eval(Node(op, v, [l, r]), env, pow) == Eval(l, env, pow)
  {
    assert Node(op, v, [l, r]).kids[0] == l;
  }

  /** An ERROR from the second operand is the result, after the first
      operand has been walked. */
  lemma RightErrorPropagates(op: int, v: Object, l: Tree, r: Tree, a: Object, env: Env, e1: Env,
                             pow: Operation)
    requires IsOperator(op) && Eval(l, env, pow) == Walked(Value(a), e1)
    requires Eval(r, e1, pow).Walked? && IsError(Eval(r, e1, pow).node)
    ensures Eval(Node(op, v, [l, r]), env, pow) == Eval(r, e1, pow)
  {
    var t := Node(op, v, [l, r]);
    assert t.kids[0] == l && t.kids[1] == r && |t.kids| == 2;
  }

  /** An operator whose table row names no function makes the node the
      error "incompatible type", whatever its operands' values. */
  lemma MissingFunction(op: int, v: Object, l: Tree, r: Tree, a: Object, b: Object, env: Env, e1: Env, e2: Env,
                        pow: Operation)
    requires HasOpInfo(op) && Tags.Function(op) == NoFunction && op != AST_PASS
    requires Eval(l, env, pow) == Walked(Value(a), e1)
    requires Eval(r, e1, pow) == Walked(Value(b), e2)
    ensures Eval(Node(op, v, [l, r]), env, pow) == Walked(ErrorNode(INCOMPATIBLE), e2)
  {
    var t := Node(op, v, [l, r]);
    assert t.kids[0] == l && t.kids[1] == r && |t.kids| == 2;
    assert Apply(op, a, Some(b), e2, pow) == Some(Applied(Outcome(TypeError, a), e2));
  }

  /** A bound identifier becomes a VALUE holding a reference to its slot;
      an unbound one becomes the error "undeclared identifier". */
  lemma IdentifierLookup(name: string, env: Env, pow: Operation)
    ensures name in env ==> Eval(Node(AST_IDENT, Str(name), []), env, pow) == Walked(Value(Reference(name)), env)
    ensures name !in env ==> Eval(Node(AST_IDENT, Str(name), []), env, pow) == Walked(ErrorNode(Undeclared(name)), env)
  {
    TagClassification(AST_IDENT);
  }

  /** A block whose first statement is an ERROR ends there with that
      error: no later statement is walked. */
  lemma BlockStopsAtError(v: Object, first: Tree, rest: seq<Tree>, env: Env, pow: Operation)
    requires Eval(first, env, pow).Walked? && IsError(Eval(first, env, pow).node)
    ensures Eval(Node(AST_BLOCK, v, [first] + rest), env, pow) == Eval(first, env, pow)
  {
    var t := Node(AST_BLOCK, v, [first] + rest);
    assert t.kids[0] == first;
    assert Eval(t, env, pow) == Block(t, 0, env, Hole, pow);
  }
}
