/** The object operations of the older snapshot (src/wobject.h,
    src/wobject.c): each writes its result into `dest` and returns 1, or
    returns 0 and leaves `dest` alone when the operands do not fit; `dest`,
    `a` and `b` may all be the same object.  An object is its tag and the
    64 bits of its union, read as an integer: the integer itself, or the
    bits of the float, string or pointer it holds.  Floating-point results
    are not computed: their bits are a parameter. */
module WObjects {
  import opened CInt
  import opened Options

  /** `object_type_t`. */
  datatype Kind = NullKind | IntKind | FloatKind | TableKind | StringKind | PointerKind

  /** `winterObject_t`. */
  datatype Obj = Obj(kind: Kind, raw: Int64)

  /** The floating-point operations whose results are parameters. */
  datatype FloatOp = FAdd | FSub | FMul | FDiv | FNeg | FInc | FDec | FTrunc

  /** The union's bits after a floating-point operation on the operands. */
  type FloatBits = (FloatOp, Obj, Obj) -> Int64

  predicate IsNumeric(o: Obj) {
    o.kind == IntKind || o.kind == FloatKind
  }

  /** The four operations that share one shape: + - * /. */
  datatype ArithOp = Plus | Minus | Times | Over

  function FloatOf(op: ArithOp): FloatOp {
    match op
    case Plus => FAdd
    case Minus => FSub
    case Times => FMul
    case Over => FDiv
  }

  /** The integer result of `op`, with C's truncating division. */
  function IntResult(op: ArithOp, a: int, b: int): int
    requires op == Over ==> b != 0
  {
    match op
    case Plus => a + b
    case Minus => a - b
    case Times => a * b
    case Over => TDiv(a, b)
  }

  /** The integer case is free of undefined behaviour: no overflow and no
      division by zero. */
  predicate Defined(op: ArithOp, x: Obj, y: Obj) {
    x.kind == IntKind && y.kind == IntKind ==>
      (op == Over ==> y.raw != 0) && (op == Over || InInt64(IntResult(op, x.raw, y.raw))) &&
      (op == Over ==> !(x.raw == INT64_MIN && y.raw == -1))
  }

  /** `_winter_objectAdd`, `Sub`, `Mul` and `Div`: integers give an
      integer, any other pair of numbers a float, and anything else fails. */
  function Arith(op: ArithOp, x: Obj, y: Obj, bits: FloatBits): (r: Option<Obj>)
    requires Defined(op, x, y)
    ensures r.Some? <==> IsNumeric(x) && IsNumeric(y)
  {
    if x.kind == IntKind && y.kind == IntKind then
      if op == Over then TDivInRange(x.raw, y.raw); Some(Obj(IntKind, TDiv(x.raw, y.raw)))
      else Some(Obj(IntKind, IntResult(op, x.raw, y.raw)))
    else if IsNumeric(x) && IsNumeric(y) then Some(Obj(FloatKind, bits(FloatOf(op), x, y)))
    else None
  }

  predicate ModDefined(x: Obj, y: Obj) {
    x.kind == IntKind && y.kind == IntKind ==> y.raw != 0 && !(x.raw == INT64_MIN && y.raw == -1)
  }

  /** `_winter_objectMod`: the integer remainder, and float 0.0 (all bits
      clear) as soon as one operand is a float, whatever the other is. */
  function Modulo(x: Obj, y: Obj): (r: Option<Obj>)
    requires ModDefined(x, y)
    ensures r.Some? <==> (x.kind == IntKind && y.kind == IntKind) || x.kind == FloatKind || y.kind == FloatKind
    ensures r.Some? && r.value.kind == IntKind ==> Abs(r.value.raw) < Abs(y.raw)
    ensures r.Some? && (x.kind == FloatKind || y.kind == FloatKind) ==> r.value == Obj(FloatKind, 0)
  {
    if x.kind == IntKind && y.kind == IntKind then Some(Obj(IntKind, TRem(x.raw, y.raw)))
    else if x.kind == FloatKind || y.kind == FloatKind then Some(Obj(FloatKind, 0))
    else None
  }

  /** `_winter_objectToInt` as written: a float converts its value, but the
      result keeps the FLOAT tag. */
  function ToIntAsWritten(x: Obj, bits: FloatBits): (r: Option<Obj>)
    ensures r.Some? <==> IsNumeric(x)
    ensures r.Some? ==> r.value.kind == x.kind
  {
    if x.kind == IntKind then Some(x)
    else if x.kind == FloatKind then Some(Obj(FloatKind, bits(FTrunc, x, x)))
    else None
  }

  /** `_winter_objectToInt` with the INT tag for the converted float. */
  function ToInt(x: Obj, bits: FloatBits): (r: Option<Obj>)
    ensures r.Some? <==> IsNumeric(x)
    ensures r.Some? ==> r.value.kind == IntKind
  {
    if x.kind == IntKind then Some(x)
    else if x.kind == FloatKind then Some(Obj(IntKind, bits(FTrunc, x, x)))
    else None
  }

  /** `_winter_objectNegate`. */
  function Negate(x: Obj, bits: FloatBits): (r: Option<Obj>)
    requires x.kind == IntKind ==> x.raw != INT64_MIN
    ensures r.Some? <==> IsNumeric(x)
  {
    if x.kind == IntKind then Some(Obj(IntKind, -x.raw))
    else if x.kind == FloatKind then Some(Obj(FloatKind, bits(FNeg, x, x)))
    else None
  }

  /** `_winter_objectNot`: C's `!` on the union's integer, for an integer
      and for a float alike. */
  function Not(x: Obj): (r: Option<Obj>)
    ensures r.Some? <==> IsNumeric(x)
  {
    if IsNumeric(x) then Some(Obj(IntKind, if x.raw == 0 then 1 else 0)) else None
  }

  /** `_winter_objectEqual`: the unions' integers compared, tags ignored. */
  function Equal(x: Obj, y: Obj): (r: Obj)
    ensures r.kind == IntKind && (r.raw == 0 || r.raw == 1)
    ensures r.raw == 1 <==> x.raw == y.raw
  {
    Obj(IntKind, if x.raw == y.raw then 1 else 0)
  }

  /** `_winter_objectPreInc` and `_winter_objectPreDec`: the new value of
      `a`, which `dest` receives too. */
  function Step(x: Obj, up: bool, bits: FloatBits): (r: Option<Obj>)
    requires x.kind == IntKind ==> if up then x.raw < INT64_MAX else x.raw > INT64_MIN
    ensures r.Some? <==> IsNumeric(x)
  {
    if x.kind == IntKind then Some(Obj(IntKind, x.raw + (if up then 1 else -1)))
    else if x.kind == FloatKind then Some(Obj(FloatKind, bits(if up then FInc else FDec, x, x)))
    else None
  }

  /** A `winterObject_t` in memory. */
  class Cell {
    var kind: Kind
    var raw: Int64

    function Get(): Obj
      reads this
    {
      Obj(kind, raw)
    }

    constructor(o: Obj)
      ensures Get() == o
    {
      kind := o.kind;
      raw := o.raw;
    }
  }

  /** `_winter_objectToInt`, with the INT tag (see ToIntAsWritten). */
  method ObjectToInt(dest: Cell, a: Cell, bits: FloatBits) returns (ok: bool)
    modifies dest
    ensures ok == ToInt(old(a.Get()), bits).Some?
    ensures dest.Get() == if ok then ToInt(old(a.Get()), bits).value else old(dest.Get())
  {
    if a.kind == IntKind {
      dest.kind, dest.raw := a.kind, a.raw;
      return true;
    } else if a.kind == FloatKind {
      var truncated := bits(FTrunc, a.Get(), a.Get());
      dest.kind := IntKind;
      dest.raw := truncated;
      return true;
    }
    return false;
  }

  /** `_winter_objectAdd`, `_winter_objectSub`, `_winter_objectMul` and
      `_winter_objectDiv`. */
  method ObjectArith(op: ArithOp, dest: Cell, a: Cell, b: Cell, bits: FloatBits) returns (ok: bool)
    requires Defined(op, a.Get(), b.Get())
    modifies dest
    ensures ok == Arith(op, old(a.Get()), old(b.Get()), bits).Some?
    ensures dest.Get() == if ok then Arith(op, old(a.Get()), old(b.Get()), bits).value else old(dest.Get())
  {
    if a.kind == IntKind && b.kind == IntKind {
      if op == Over {
        TDivInRange(a.raw, b.raw);
      }
      var value := IntResult(op, a.raw, b.raw);
      dest.kind := IntKind;
      dest.raw := value;
      return true;
    } else if IsNumeric(a.Get()) && IsNumeric(b.Get()) {
      var value := bits(FloatOf(op), a.Get(), b.Get());
      dest.raw := value;
      dest.kind := FloatKind;
      return true;
    }
    return false;
  }

  /** `_winter_objectMod`. */
  method ObjectMod(dest: Cell, a: Cell, b: Cell) returns (ok: bool)
    requires ModDefined(a.Get(), b.Get())
    modifies dest
    ensures ok == Modulo(old(a.Get()), old(b.Get())).Some?
    ensures dest.Get() == if ok then Modulo(old(a.Get()), old(b.Get())).value else old(dest.Get())
  {
    if a.kind == IntKind && b.kind == IntKind {
      var value := TRem(a.raw, b.raw);
      dest.kind := IntKind;
      dest.raw := value;
      return true;
    } else if a.kind == FloatKind || b.kind == FloatKind {
      dest.kind := FloatKind;
      dest.raw := 0;
      return true;
    }
    return false;
  }

  /** `_winter_objectNegate`. */
  method ObjectNegate(dest: Cell, a: Cell, bits: FloatBits) returns (ok: bool)
    requires a.kind == IntKind ==> a.raw != INT64_MIN
    modifies dest
    ensures ok == Negate(old(a.Get()), bits).Some?
    ensures dest.Get() == if ok then Negate(old(a.Get()), bits).value else old(dest.Get())
  {
    if a.kind == IntKind {
      var value := -a.raw;
      dest.kind := IntKind;
      dest.raw := value;
      return true;
    } else if a.kind == FloatKind {
      var value := bits(FNeg, a.Get(), a.Get());
      dest.kind := FloatKind;
      dest.raw := value;
      return true;
    }
    return false;
  }

  /** `_winter_objectNot`. */
  method ObjectNot(dest: Cell, a: Cell) returns (ok: bool)
    modifies dest
    ensures ok == Not(old(a.Get())).Some?
    ensures dest.Get() == if ok then Not(old(a.Get())).value else old(dest.Get())
  {
    if a.kind == IntKind || a.kind == FloatKind {
      dest.kind := IntKind;
      dest.raw := if a.raw == 0 then 1 else 0;
      return true;
    }
    return false;
  }

  /** `_winter_objectEqual`. */
  method ObjectEqual(dest: Cell, a: Cell, b: Cell) returns (ok: bool)
    modifies dest
    ensures ok && dest.Get() == Equal(old(a.Get()), old(b.Get()))
  {
    dest.kind := IntKind;
    dest.raw := if a.raw == b.raw then 1 else 0;
    return true;
  }

  /** `_winter_objectAssign`: `*dest = *a = *b`. */
  method ObjectAssign(dest: Cell, a: Cell, b: Cell) returns (ok: bool)
    modifies dest, a
    ensures ok && a.Get() == old(b.Get()) && dest.Get() == old(b.Get())
  {
    a.kind, a.raw := b.kind, b.raw;
    dest.kind, dest.raw := a.kind, a.raw;
    return true;
  }

  /** `_winter_objectPreInc` (`up`) and `_winter_objectPreDec`. */
  method ObjectStep(dest: Cell, a: Cell, up: bool, bits: FloatBits) returns (ok: bool)
    requires a.kind == IntKind ==> if up then a.raw < INT64_MAX else a.raw > INT64_MIN
    modifies dest, a
    ensures ok == Step(old(a.Get()), up, bits).Some?
    ensures ok ==> a.Get() == Step(old(a.Get()), up, bits).value && dest.Get() == a.Get()
    ensures !ok ==> a.Get() == old(a.Get()) && dest.Get() == old(dest.Get())
  {
    if a.kind == IntKind {
      dest.kind := IntKind;
      a.raw := a.raw + (if up then 1 else -1);
      dest.raw := a.raw;
      return true;
    } else if a.kind == FloatKind {
      dest.kind := FloatKind;
      a.raw := bits(if up then FInc else FDec, a.Get(), a.Get());
      dest.raw := a.raw;
      return true;
    }
    return false;
  }

  /** The operations accept aliased operands: `a = a + a` doubles `a`. */
  method Double(a: Cell, bits: FloatBits) returns (ok: bool)
    requires a.kind == IntKind ==> InInt64(a.raw + a.raw)
    modifies a
    ensures old(a.kind) == IntKind ==> ok && a.Get() == Obj(IntKind, 2 * old(a.raw))
    ensures !IsNumeric(old(a.Get())) ==> !ok && a.Get() == old(a.Get())
  {
    ok := ObjectArith(Plus, a, a, a, bits);
  }

  // ---------------------------------------------------------------------
  // Properties

  /** Integer pairs give the integer result, and subtraction undoes addition. */
  lemma SubUndoesAdd(x: Int64, y: Int64, bits: FloatBits)
    requires InInt64(x + y)
    ensures Arith(Plus, Obj(IntKind, x), Obj(IntKind, y), bits) == Some(Obj(IntKind, x + y))
    ensures Arith(Minus, Arith(Plus, Obj(IntKind, x), Obj(IntKind, y), bits).value, Obj(IntKind, y), bits)
            == Some(Obj(IntKind, x))
  {
  }

  /** Div and Mod of integers satisfy C's division identity. */
  lemma DivMod(x: Int64, y: Int64, bits: FloatBits)
    requires y != 0 && !(x == INT64_MIN && y == -1)
    ensures var q := Arith(Over, Obj(IntKind, x), Obj(IntKind, y), bits);
      var r := Modulo(Obj(IntKind, x), Obj(IntKind, y));
      q.Some? && r.Some? && q.value.raw * y + r.value.raw == x
  {
    DivisionIdentity(x, y);
  }

  /** A float operand makes every number pair a float; Mod alone turns a
      float and a non-number into float 0.0, where the others fail. */
  lemma FloatOperands(x: Obj, y: Obj, bits: FloatBits, op: ArithOp)
    requires x.kind == FloatKind
    ensures IsNumeric(y) ==> Arith(op, x, y, bits).value.kind == FloatKind
    ensures IsNumeric(y) ==> Arith(op, y, x, bits).value.kind == FloatKind
    ensures Modulo(x, y) == Some(Obj(FloatKind, 0)) && Modulo(y, x) == Some(Obj(FloatKind, 0))
    ensures !IsNumeric(y) ==> Arith(op, x, y, bits).None?
  {
  }

  /** Negating twice gives the integer back. */
  lemma NegateTwice(i: int, bits: FloatBits)
    requires INT64_MIN < i <= INT64_MAX
    ensures Negate(Negate(Obj(IntKind, i), bits).value, bits) == Some(Obj(IntKind, i))
  {
  }

  /** Not is 1 exactly for zero, and Not twice normalises to 0 or 1. */
  lemma NotTwice(x: Obj)
    requires IsNumeric(x)
    ensures Not(x).value.raw == 1 <==> x.raw == 0
    ensures Not(Not(x).value) == Some(Obj(IntKind, if x.raw != 0 then 1 else 0))
  {
  }

  /** Equal is reflexive and symmetric, and compares the unions only. */
  lemma EqualBits(x: Obj, y: Obj)
    ensures Equal(x, x) == Obj(IntKind, 1)
    ensures Equal(x, y) == Equal(y, x)
    ensures Equal(x, y).raw == 1 <==> x.raw == y.raw
  {
  }

  /** PreDec undoes PreInc. */
  lemma DecUndoesInc(i: int, bits: FloatBits)
    requires INT64_MIN <= i < INT64_MAX
    ensures Step(Obj(IntKind, i), true, bits) == Some(Obj(IntKind, i + 1))
    ensures Step(Step(Obj(IntKind, i), true, bits).value, false, bits) == Some(Obj(IntKind, i))
  {
  }

  /** As written, converting a float keeps the FLOAT tag; corrected, every
      number converts to an INT-tagged object. */
  lemma FloatToInt(x: Obj, bits: FloatBits)
    requires x.kind == FloatKind
    ensures ToIntAsWritten(x, bits).value.kind == FloatKind
    ensures ToInt(x, bits).value.kind == IntKind
  {
  }
}
