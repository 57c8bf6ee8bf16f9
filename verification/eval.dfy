/** `walkTree` of src/parser.c: evaluation of a parsed tree against the
    global table.  The table is modelled by its contents, the map from
    names to objects that Tables.Table.Contents describes.  An identifier
    evaluates to a reference to its slot, and assignment writes through
    that reference (see Assign).  `pow` stands for `_winter_objectPow`,
    which is not part of this model. */
module Evaluator {
  import opened Tags
  import opened Objects
  import opened Options
  import opened Parser
  import Tables

  type Env = map<string, Object>

  /** An operation that is a parameter of the model. */
  type Operation = (Object, Object) -> Outcome

  /** The node walkTree returns and the table after the walk; Stuck where
      the C code dereferences NULL, overflows or reads outside a table. */
  datatype Walked = Walked(node: Tree, env: Env) | Stuck

  /** What an operation leaves: its outcome and the table after it. */
  datatype Applied = Applied(outcome: Outcome, env: Env)

  const INCOMPATIBLE: string := "incompatible type"

  /** A VALUE node holding `o`. */
  function Value(o: Object): Tree {
    Node(AST_VALUE, o, [])
  }

  function Redeclared(name: string): string {
    "mutiple declarations of '" + name + "'"
  }

  function Undeclared(name: string): string {
    "undeclared identifier '" + name + "'"
  }

  /** The operation an operator node calls on its operands' values
      (lines 394-404): the PASS node around a parenthesised expression
      hands its operand on (see ApplyAsWritten), a NULL table entry is a
      type error, and None is undefined behaviour (signed overflow,
      division by zero, a binary call without a second operand).  Only an
      assignment changes the table, and never its set of names. */
  function Apply(tag: int, a: Object, b: Option<Object>, env: Env, pow: Operation): (r: Option<Applied>)
    requires IsOperator(tag)
    ensures tag == AST_PASS ==> r == Some(Applied(Outcome(Ok, a), env))
    ensures tag != AST_PASS && Tags.Function(tag) == NoFunction ==> r == Some(Applied(Outcome(TypeError, a), env))
    ensures r.Some? ==> r.value.env.Keys == env.Keys
    ensures r.Some? && r.value.env != env ==> tag == AST_ASSIGN && a.Reference? && a.name in env
  {
    if tag == AST_PASS then Some(Applied(Outcome(Ok, a), env))
    else
      var f := Tags.Function(tag);
      if f == NoFunction then Some(Applied(Outcome(TypeError, a), env))
      else if f == NegateFn then (if NegateDefined(a) then Some(Applied(Negate(a), env)) else None)
      else if b.None? then None
      else Call(f, a, b.value, env, pow)
  }

  /** A binary operation; None where C's arithmetic is undefined.  Every
      operation except the assignment leaves the table as it was. */
  function Call(f: OpFunction, a: Object, b: Object, env: Env, pow: Operation): (r: Option<Applied>)
    ensures f == AddFn ==> (r.Some? <==> AddDefined(a, b))
    ensures f == DivFn || f == ModFn ==> (r.Some? <==> DivDefined(a, b))
    ensures f == AssignFn ==> r.Some? && r.value.env.Keys == env.Keys
    ensures f != AssignFn && r.Some? ==> r.value.env == env
  {
    match f
    case PowFn => Some(Applied(pow(a, b), env))
    case AssignFn => Some(Assign(a, b, env))
    case AddFn => if AddDefined(a, b) then Some(Applied(Add(a, b), env)) else None
    case SubFn => if SubDefined(a, b) then Some(Applied(Sub(a, b), env)) else None
    case MulFn => if MulDefined(a, b) then Some(Applied(Mul(a, b), env)) else None
    case DivFn => if DivDefined(a, b) then Some(Applied(Div(a, b), env)) else None
    case ModFn => if DivDefined(a, b) then Some(Applied(Mod(a, b), env)) else None
    case _ => None
  }

  /** `_winter_objectAssign`, the AST_ASSIGN row: the target must be a
      reference to a slot of the table, which takes the right operand as
      walkTree passes it, and the node keeps the reference.  Any other
      target is a type error that leaves the table as it was. */
  function Assign(a: Object, b: Object, env: Env): (r: Applied)
    ensures r.outcome.status == Ok <==> a.Reference? && a.name in env
    ensures r.outcome.a == a && r.env.Keys == env.Keys
    ensures r.outcome.status == Ok ==> r.env[a.name] == b
    ensures forall k :: k in env && !(r.outcome.status == Ok && k == a.name) ==> r.env[k] == env[k]
  {
    if a.Reference? && a.name in env then Applied(Outcome(Ok, a), env[a.name := b])
    else Applied(Outcome(TypeError, a), env)
  }

  /** The call as written: the PASS node is an operator too, and
      `function(AST_PASS)` reads `opinfo` at a negative index. */
  function ApplyAsWritten(tag: int, a: Object, b: Option<Object>, env: Env, pow: Operation): (r: Option<Applied>)
    requires IsOperator(tag)
    ensures HasOpInfo(tag) ==> r == Apply(tag, a, b, env, pow)
  {
    if !HasOpInfo(tag) then None else Apply(tag, a, b, env, pow)
  }

  /** Lines 407-416: the node becomes the result or an error. */
  function Settle(applied: Option<Applied>): (w: Walked)
    ensures applied.None? <==> w.Stuck?
    ensures w.Walked? ==> w.env == applied.value.env && w.node.Node? && w.node.kids == []
    ensures w.Walked? ==> (w.node.tag == AST_VALUE <==> applied.value.outcome.status == Ok)
    ensures w.Walked? && applied.value.outcome.status == Ok ==> w.node.value == applied.value.outcome.a
    ensures w.Walked? && applied.value.outcome.status == TypeError ==> w.node == ErrorNode(INCOMPATIBLE)
  {
    match applied
    case None => Stuck
    case Some(Applied(Outcome(Ok, a), env)) => Walked(Value(a), env)
    case Some(Applied(Outcome(TypeError, _), env)) => Walked(ErrorNode(INCOMPATIBLE), env)
  }

  /** `walkTree` as a function of the tree and the table: a walk never
      removes a name from the table. */
  function Eval(t: Tree, env: Env, pow: Operation): (w: Walked)
    ensures w.Walked? ==> env.Keys <= w.env.Keys
    decreases t, 1, 0, 0
  {
    if t.Hole? then Stuck
    else if t.tag == AST_BLOCK then Block(t, 0, env, Hole, pow)
    else if IsOperator(t.tag) then
      if |t.kids| == 0 then Stuck
      else
        match Eval(t.kids[0], env, pow)
        case Stuck => Stuck
        case Walked(l, e1) =>
          if l.Hole? then Stuck
          else if l.tag == AST_ERROR then Walked(l, e1)
          else if |t.kids| == 2 then
            match Eval(t.kids[1], e1, pow)
            case Stuck => Stuck
            case Walked(r, e2) =>
              if r.Hole? then Stuck
              else if r.tag == AST_ERROR then Walked(r, e2)
              else Settle(Apply(t.tag, l.value, Some(r.value), e2, pow))
          else Settle(Apply(t.tag, l.value, None, e1, pow))
    else if t.tag == AST_LET then Let(t, 0, env, pow)
    else if t.tag == AST_IDENT then
      if !t.value.Str? then Stuck
      else if t.value.text in env then Walked(Value(Reference(t.value.text)), env)
      else Walked(ErrorNode(Undeclared(t.value.text)), env)
    else Walked(t, env)
  }

  /** The loop over a block's statements from statement `i`, after the
      result `last`: the first ERROR ends the block. */
  function Block(t: Tree, i: nat, env: Env, last: Tree, pow: Operation): (w: Walked)
    requires t.Node? && i <= |t.kids|
    ensures w.Walked? ==> env.Keys <= w.env.Keys
    decreases t, 0, |t.kids| - i, 0
  {
    if i == |t.kids| then Walked(last, env)
    else
      match Eval(t.kids[i], env, pow)
      case Stuck => Stuck
      case Walked(n, e) =>
        if n.Hole? then Stuck
        else if n.tag == AST_ERROR then Walked(n, e)
        else Block(t, i + 1, e, n, pow)
  }

  /** The key a declaration binds: the identifier of `name = value`, and
      the declaration node's own value otherwise (see LetKeyAsWritten). */
  function LetKey(let: Tree, keyNode: Tree): Option<Object>
    requires keyNode.Node?
  {
    if keyNode.tag == AST_ASSIGN then
      if |keyNode.kids| < 2 || keyNode.kids[0].Hole? then None else Some(keyNode.kids[0].value)
    else Some(keyNode.value)
  }

  /** Line 447 as written: a declaration without a value takes the LET
      node's value, which parseLet never sets, as its key. */
  function LetKeyAsWritten(let: Tree, keyNode: Tree): (k: Option<Object>)
    requires let.Node? && keyNode.Node?
    ensures keyNode.tag == AST_ASSIGN ==> k == LetKey(let, keyNode)
  {
    if keyNode.tag == AST_ASSIGN then LetKey(let, keyNode) else Some(let.value)
  }

  /** The loop over a declaration's names from name `i` (lines 430-457):
      a name already in the table makes the whole declaration an error,
      and the names declared before it stay declared. */
  function Let(t: Tree, i: nat, env: Env, pow: Operation): (w: Walked)
    requires t.Node? && i <= |t.kids|
    ensures w.Walked? ==> env.Keys <= w.env.Keys
    decreases t, 0, |t.kids| - i, 0
  {
    if i == |t.kids| then Walked(Value(Null), env)
    else
      var keyNode := t.kids[i];
      if keyNode.Hole? then Stuck
      else
        var key := LetKey(t, keyNode);
        if key.None? then Stuck
        else if keyNode.tag == AST_ASSIGN then
          match Eval(keyNode.kids[1], env, pow)
          case Stuck => Stuck
          case Walked(v, e) =>
            if v.Hole? then Stuck
            else if v.tag == AST_ERROR then Walked(v, e)
            else Declare(t, i, key.value, Some(v.value), e, pow)
        else Declare(t, i, key.value, None, env, pow)
  }

  /** Lines 449-456: bind `key` unless the table has it already. */
  function Declare(t: Tree, i: nat, key: Object, value: Option<Object>, env: Env,
                   pow: Operation): (w: Walked)
    requires t.Node? && i < |t.kids|
    ensures w.Walked? ==> env.Keys <= w.env.Keys
    decreases t, 0, |t.kids| - i - 1, 1
  {
    if !key.Str? then Stuck
    else if key.text in env then Walked(ErrorNode(Redeclared(key.text)), env)
    else Let(t, i + 1, env[key.text := Tables.StoredValue(value)], pow)
  }

  /** `walkTree`. */
  method WalkTree(t: Tree, env: Env, pow: Operation) returns (w: Walked)
    ensures w == Eval(t, env, pow)
    decreases t
  {
    if t.Hole? {
      return Stuck;
    }
    if t.tag == AST_BLOCK {
      var result: Tree := Hole;
      var e := env;
      var i := 0;
      while i < |t.kids|
        invariant i <= |t.kids|
        invariant Block(t, i, e, result, pow) == Eval(t, env, pow)
        decreases |t.kids| - i
      {
        var next := WalkTree(t.kids[i], e, pow);
        if next.Stuck? || next.node.Hole? {
          return Stuck;
        }
        result, e := next.node, next.env;
        if result.tag == AST_ERROR {
          return next;
        }
        i := i + 1;
      }
      return Walked(result, e);
    } else if IsOperator(t.tag) {
      if |t.kids| == 0 {
        return Stuck;
      }
      var left := WalkTree(t.kids[0], env, pow);
      if left.Stuck? || left.node.Hole? {
        return Stuck;
      }
      if left.node.tag == AST_ERROR {
        return left;
      }
      var e := left.env;
      var right: Option<Object> := None;
      if |t.kids| == 2 {
        var r := WalkTree(t.kids[1], e, pow);
        if r.Stuck? || r.node.Hole? {
          return Stuck;
        }
        if r.node.tag == AST_ERROR {
          return r;
        }
        right, e := Some(r.node.value), r.env;
      }
      w := Settle(Apply(t.tag, left.node.value, right, e, pow));
    } else if t.tag == AST_LET {
      var e := env;
      var i := 0;
      while i < |t.kids|
        invariant i <= |t.kids|
        invariant Let(t, i, e, pow) == Eval(t, env, pow)
        decreases |t.kids| - i
      {
        var keyNode := t.kids[i];
        if keyNode.Hole? {
          return Stuck;
        }
        var key := LetKey(t, keyNode);
        if key.None? {
          return Stuck;
        }
        var value: Option<Object> := None;
        if keyNode.tag == AST_ASSIGN {
          var v := WalkTree(keyNode.kids[1], e, pow);
          if v.Stuck? || v.node.Hole? {
            return Stuck;
          }
          if v.node.tag == AST_ERROR {
            return v;
          }
          value, e := Some(v.node.value), v.env;
        }
        if !key.value.Str? {
          return Stuck;
        }
        if key.value.text in e {
          return Walked(ErrorNode(Redeclared(key.value.text)), e);
        }
        e := e[key.value.text := Tables.StoredValue(value)];
        i := i + 1;
      }
      return Walked(Value(Null), e);
    } else if t.tag == AST_IDENT {
      if !t.value.Str? {
        return Stuck;
      }
      if t.value.text in env {
        return Walked(Value(Reference(t.value.text)), env);
      }
      return Walked(ErrorNode(Undeclared(t.value.text)), env);
    } else {
      return Walked(t, env);
    }
  }
}
