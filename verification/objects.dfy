/** Objects of the newest interpreter (src/object.c): a type tag with its
    payload, literal decoding and the type-ordered arithmetic that stores
    its result into the left operand.  Floating-point payloads are not
    modelled: a Float carries its tag only. */
module Objects {
  import opened CInt
  import opened CharClass
  import opened StrToI
  import opened Tags
  import opened Options

  /** An object.  A Reference names the table slot it points at by the
      slot's key; an Error carries its message. */
  datatype Object =
    | Unknown
    | Error(msg: string)
    | Null
    | Reference(name: string)
    | Int(i: Int64)
    | Float
    | Str(text: string)
    | Table
    | Function

  /** The position of an object's type in the type enumeration, which is
      the order the arithmetic compares: UNKNOWN, ERROR, NULL, REFERENCE,
      INT, FLOAT, STRING, TABLE, FUNCTION. */
  function Tag(o: Object): (t: nat)
    ensures t <= 8
  {
    match o
    case Unknown => 0
    case Error(_) => 1
    case Null => 2
    case Reference(_) => 3
    case Int(_) => 4
    case Float => 5
    case Str(_) => 6
    case Table => 7
    case Function => 8
  }

  const TYPE_NULL: nat := 2
  const TYPE_INT: nat := 4
  const TYPE_FLOAT: nat := 5
  const TYPE_STRING: nat := 6

  predicate IsNumber(o: Object) { o.Int? || o.Float? }

  /** OBJECT_OK and OBJECT_ERROR_TYPE. */
  datatype Status = Ok | TypeError

  /** What an operation returns together with the new left operand. */
  datatype Outcome = Outcome(status: Status, a: Object)

  // ---------------------------------------------------------------------
  // Literals

  /** The index a decoder starts at after skipping `n` prefix characters;
      a C read past the end of the text sees its terminator, which ends the
      digit run at once, so starting at the end gives the same value. */
  function Skip(s: string, n: nat): (k: nat)
    ensures k <= |s|
  {
    if n <= |s| then n else |s|
  }

  /** `_winter_tokenToObject`: integer literals decoded by winter_strtoi
      after their prefix, FLOAT literals tagged Float, and every other token
      the all-zero object, whose tag is UNKNOWN.  The decoded value is
      truncated to 64 bits. */
  function TokenValue(t: Token): (o: Object)
    ensures o.Int? || o.Float? || o.Unknown?
    ensures o.Int? <==> t.kind in {TK_BINARY, TK_OCTAL, TK_DECIMAL, TK_HEX}
    ensures o.Float? <==> t.kind == TK_FLOAT
  {
    var s := t.text;
    if t.kind == TK_BINARY then Int(ToInt64(StrToISpec(s, Skip(s, 2), 2)))
    else if t.kind == TK_OCTAL then Int(ToInt64(StrToISpec(s, Skip(s, 1), 8)))
    else if t.kind == TK_DECIMAL then Int(ToInt64(StrToISpec(s, 0, 10)))
    else if t.kind == TK_HEX then Int(ToInt64(StrToISpec(s, Skip(s, 2), 16)))
    else if t.kind == TK_FLOAT then Float
    else Unknown
  }

  /** `_winter_tokenToObject` as the procedure that fills `*dest`. */
  method TokenToObject(t: Token) returns (dest: Object)
    ensures dest == TokenValue(t)
  {
    var s := t.text;
    var v: int;
    if t.kind == TK_BINARY {
      v := WinterStrToI(s, Skip(s, 2), 2);
      dest := Int(ToInt64(v));
    } else if t.kind == TK_OCTAL {
      v := WinterStrToI(s, Skip(s, 1), 8);
      dest := Int(ToInt64(v));
    } else if t.kind == TK_DECIMAL {
      v := WinterStrToI(s, 0, 10);
      dest := Int(ToInt64(v));
    } else if t.kind == TK_HEX {
      v := WinterStrToI(s, Skip(s, 2), 16);
      dest := Int(ToInt64(v));
    } else if t.kind == TK_FLOAT {
      dest := Float;
    } else {
      dest := Unknown;
    }
  }

  /** A decimal literal made of digits only denotes its positional value. */
  lemma DecimalLiteral(t: Token)
    requires t.kind == TK_DECIMAL
    requires forall i :: 0 <= i < |t.text| ==> IsDigit(t.text[i])
    requires Positional(t.text, 10) <= INT64_MAX
    ensures TokenValue(t) == Int(Positional(t.text, 10))
  {
    LiteralRun(t.text, 0, 10);
  }

  /** A hex literal `0x` + hex digits denotes the digits' value, upper and
      lower case alike. */
  lemma HexLiteral(t: Token, digits: string)
    requires t.kind == TK_HEX && t.text == "0x" + digits
    requires forall i :: 0 <= i < |digits| ==> IsHex(digits[i])
    requires Positional(digits, 16) <= INT64_MAX
    ensures TokenValue(t) == Int(Positional(digits, 16))
  {
    assert t.text[2..] == digits;
    LiteralRun(t.text, 2, 16);
  }

  /** A binary literal `0b` + binary digits denotes their value. */
  lemma BinaryLiteral(t: Token, digits: string)
    requires t.kind == TK_BINARY && t.text == "0b" + digits
    requires forall i :: 0 <= i < |digits| ==> IsBinary(digits[i])
    requires Positional(digits, 2) <= INT64_MAX
    ensures TokenValue(t) == Int(Positional(digits, 2))
  {
    assert t.text[2..] == digits;
    LiteralRun(t.text, 2, 2);
  }

  /** An octal literal `0` + octal digits denotes their value. */
  lemma OctalLiteral(t: Token, digits: string)
    requires t.kind == TK_OCTAL && t.text == "0" + digits
    requires forall i :: 0 <= i < |digits| ==> IsOctal(digits[i])
    requires Positional(digits, 8) <= INT64_MAX
    ensures TokenValue(t) == Int(Positional(digits, 8))
  {
    assert t.text[1..] == digits;
    LiteralRun(t.text, 1, 8);
  }

  lemma LiteralRun(s: string, start: nat, base: int)
    requires start <= |s| && SupportedBase(base)
    requires forall i :: start <= i < |s| ==> IsDigitOf(s[i], base)
    ensures StrToISpec(s, start, base) == Positional(s[start..], base)
  {
    var digits := s[start..];
    assert forall i :: 0 <= i < |digits| ==> IsDigitOf(digits[i], base);
    AccumulateIsPositional(digits, base);
    assert forall k :: start <= k < |s| ==> InRun(s[k], base) by {
      forall k | start <= k < |s|
        ensures InRun(s[k], base)
      {
        assert s[k] == digits[k - start];
      }
    }
    RunEndIsLoopExit(s, start, |s|, base);
    assert s[start..|s|] == digits;
  }

  // ---------------------------------------------------------------------
  // Casts

  /** `_winter_castInt`: the integer of an Int and 0 for every non-number.
      The truncation of a Float's payload is not modelled (None). */
  function CastInt(o: Object): (r: Option<int>)
    ensures o.Int? ==> r == Some(o.i)
    ensures o.Float? <==> r.None?
    ensures !IsNumber(o) ==> r == Some(0)
  {
    match o
    case Int(i) => Some(i)
    case Float => None
    case _ => Some(0)
  }

  // ---------------------------------------------------------------------
  // Arithmetic.  Each operation returns its status and the new `a`.

  /** Both operands have a type above NULL and below `limit` (up to it when
      `inclusive`): the guard each binary operation opens with. */
  predicate Operands(a: Object, b: Object, limit: nat, inclusive: bool) {
    Tag(a) > TYPE_NULL && Tag(b) > TYPE_NULL &&
    (if inclusive then Tag(a) <= limit && Tag(b) <= limit else Tag(a) < limit && Tag(b) < limit)
  }

  /** The operand pairs Sub, Mul, Div and Mod compute on: two numbers, or a
      Float with a Reference (whose castFloat is 0). */
  predicate NumericPair(a: Object, b: Object) {
    Operands(a, b, TYPE_STRING, false) && (a.Float? || b.Float? || (a.Int? && b.Int?))
  }

  /** Signed overflow and division by zero are undefined in C, so the
      integer path of each operation is defined only on inputs avoiding them. */
  predicate AddDefined(a: Object, b: Object) { a.Int? && b.Int? ==> InInt64(a.i + b.i) }
  predicate SubDefined(a: Object, b: Object) { a.Int? && b.Int? ==> InInt64(a.i - b.i) }
  predicate MulDefined(a: Object, b: Object) { a.Int? && b.Int? ==> InInt64(a.i * b.i) }
  predicate DivDefined(a: Object, b: Object) {
    a.Int? && b.Int? ==> b.i != 0 && !(a.i == INT64_MIN && b.i == -1)
  }
  predicate NegateDefined(a: Object) { a.Int? ==> a.i != INT64_MIN }

  /** `_winter_objectAdd`, with the float result tagged Float (see
      TagAsWritten).  A String operand is accepted and leaves `a` as it
      was; Unknown, Error, Null, Table and Function operands are type errors,
      and so is a Reference paired with an Int or another Reference. */
  function Add(a: Object, b: Object): (r: Outcome)
    requires AddDefined(a, b)
    ensures r.status == Ok <==> Operands(a, b, TYPE_STRING, true) && (a.Str? || b.Str? || a.Float? || b.Float? || (a.Int? && b.Int?))
    ensures r.status == TypeError ==> r.a == a
    ensures a.Int? && b.Int? ==> r == Outcome(Ok, Int(a.i + b.i))
    ensures r.status == Ok && !a.Str? && !b.Str? && (a.Float? || b.Float?) ==> r.a == Float
    ensures r.status == Ok && (a.Str? || b.Str?) ==> r.a == a
  {
    if Tag(a) > TYPE_NULL && Tag(b) > TYPE_NULL then
      if Tag(a) > TYPE_STRING || Tag(b) > TYPE_STRING then Outcome(TypeError, a)
      else if a.Str? || b.Str? then Outcome(Ok, a)
      else if a.Float? || b.Float? then Outcome(Ok, Float)
      else if a.Int? && b.Int? then Outcome(Ok, Int(a.i + b.i))
      else Outcome(TypeError, a)
    else Outcome(TypeError, a)
  }

  /** `_winter_objectSub`: String is rejected along with everything above it. */
  function Sub(a: Object, b: Object): (r: Outcome)
    requires SubDefined(a, b)
    ensures r.status == Ok <==> NumericPair(a, b)
    ensures r.status == TypeError ==> r.a == a
    ensures a.Int? && b.Int? ==> r == Outcome(Ok, Int(a.i - b.i))
    ensures r.status == Ok && (a.Float? || b.Float?) ==> r.a == Float
  {
    if Tag(a) > TYPE_NULL && Tag(b) > TYPE_NULL then
      if Tag(a) >= TYPE_STRING || Tag(b) >= TYPE_STRING then Outcome(TypeError, a)
      else if a.Float? || b.Float? then Outcome(Ok, Float)
      else if a.Int? && b.Int? then Outcome(Ok, Int(a.i - b.i))
      else Outcome(TypeError, a)
    else Outcome(TypeError, a)
  }

  /** `_winter_objectMul`. */
  function Mul(a: Object, b: Object): (r: Outcome)
    requires MulDefined(a, b)
    ensures r.status == Ok <==> NumericPair(a, b)
    ensures r.status == TypeError ==> r.a == a
    ensures a.Int? && b.Int? ==> r == Outcome(Ok, Int(a.i * b.i))
    ensures r.status == Ok && (a.Float? || b.Float?) ==> r.a == Float
  {
    if Tag(a) > TYPE_NULL && Tag(b) > TYPE_NULL then
      if Tag(a) >= TYPE_STRING || Tag(b) >= TYPE_STRING then Outcome(TypeError, a)
      else if a.Float? || b.Float? then Outcome(Ok, Float)
      else if a.Int? && b.Int? then Outcome(Ok, Int(a.i * b.i))
      else Outcome(TypeError, a)
    else Outcome(TypeError, a)
  }

  /** `_winter_objectDiv`: C's truncating quotient on integers. */
  function Div(a: Object, b: Object): (r: Outcome)
    requires DivDefined(a, b)
    ensures r.status == Ok <==> NumericPair(a, b)
    ensures r.status == TypeError ==> r.a == a
    ensures a.Int? && b.Int? ==> r.status == Ok && r.a.Int? && r.a.i == TDiv(a.i, b.i)
    ensures r.status == Ok && (a.Float? || b.Float?) ==> r.a == Float
  {
    if Tag(a) > TYPE_NULL && Tag(b) > TYPE_NULL then
      if Tag(a) >= TYPE_STRING || Tag(b) >= TYPE_STRING then Outcome(TypeError, a)
      else if a.Float? || b.Float? then Outcome(Ok, Float)
      else if a.Int? && b.Int? then
        TDivInRange(a.i, b.i);
        Outcome(Ok, Int(TDiv(a.i, b.i)))
      else Outcome(TypeError, a)
    else Outcome(TypeError, a)
  }

  /** `_winter_objectMod`: C's remainder on integers; a Float operand gives
      Float 0.0 (a placeholder in the source). */
  function Mod(a: Object, b: Object): (r: Outcome)
    requires DivDefined(a, b)
    ensures r.status == Ok <==> NumericPair(a, b)
    ensures r.status == TypeError ==> r.a == a
    ensures a.Int? && b.Int? ==> r.status == Ok && r.a.Int? && r.a.i == TRem(a.i, b.i)
    ensures r.status == Ok && (a.Float? || b.Float?) ==> r.a == Float
  {
    if Tag(a) > TYPE_NULL && Tag(b) > TYPE_NULL then
      if Tag(a) >= TYPE_STRING || Tag(b) >= TYPE_STRING then Outcome(TypeError, a)
      else if a.Float? || b.Float? then Outcome(Ok, Float)
      else if a.Int? && b.Int? then Outcome(Ok, Int(TRem(a.i, b.i)))
      else Outcome(TypeError, a)
    else Outcome(TypeError, a)
  }

  /** `_winter_objectNegate`: defined for numbers only. */
  function Negate(a: Object): (r: Outcome)
    requires NegateDefined(a)
    ensures r.status == Ok <==> IsNumber(a)
    ensures r.status == TypeError ==> r.a == a
    ensures a.Int? ==> r.a == Int(-a.i)
    ensures a.Float? ==> r.a == Float
  {
    match a
    case Float => Outcome(Ok, Float)
    case Int(i) => Outcome(Ok, Int(-i))
    case _ => Outcome(TypeError, a)
  }

  // ---------------------------------------------------------------------
  // Properties relating the operations

  /** Addition and multiplication of numbers do not depend on operand order. */
  lemma NumbersCommute(a: Object, b: Object)
    requires IsNumber(a) && IsNumber(b) && AddDefined(a, b) && MulDefined(a, b)
    ensures Add(a, b) == Add(b, a) && Mul(a, b) == Mul(b, a)
  {
    if a.Int? && b.Int? {
      assert a.i * b.i == b.i * a.i;
    }
  }

  /** Subtraction undoes addition on integers. */
  lemma SubUndoesAdd(x: Int64, y: Int64)
    requires InInt64(x + y)
    ensures Add(Int(x), Int(y)).status == Ok
    ensures Sub(Add(Int(x), Int(y)).a, Int(y)) == Outcome(Ok, Int(x))
  {
  }

  /** Div and Mod together satisfy C's division identity:
      (x / y) * y + x % y == x. */
  lemma DivModIdentity(x: Int64, y: Int64)
    requires DivDefined(Int(x), Int(y))
    ensures Div(Int(x), Int(y)).status == Ok && Mod(Int(x), Int(y)).status == Ok
    ensures Div(Int(x), Int(y)).a.i * y + Mod(Int(x), Int(y)).a.i == x
  {
    DivisionIdentity(x, y);
  }

  /** Negation is its own inverse wherever it is defined. */
  lemma NegateInvolution(a: Object)
    requires IsNumber(a) && NegateDefined(a)
    ensures NegateDefined(Negate(a).a)
    ensures Negate(Negate(a).a) == Outcome(Ok, a)
  {
  }

  /** A Reference is never dereferenced: paired with an Int it is a type
      error for every operation, while with a Float it counts as 0.0. */
  lemma ReferenceOperands(n: string, i: Int64)
    ensures Add(Reference(n), Int(i)).status == TypeError
    ensures Sub(Int(i), Reference(n)).status == TypeError
    ensures Add(Reference(n), Float) == Outcome(Ok, Float)
  {
  }

  /** The five arithmetic operations of the operator table, as the
      OpFunction entries that name them. */
  predicate IsArithmetic(f: OpFunction) {
    f == AddFn || f == SubFn || f == MulFn || f == DivFn || f == ModFn
  }

  /** The integer path of arithmetic operation `f` is free of undefined
      behaviour. */
  predicate ArithDefined(f: OpFunction, a: Object, b: Object) {
    match f
    case AddFn => AddDefined(a, b)
    case SubFn => SubDefined(a, b)
    case MulFn => MulDefined(a, b)
    case DivFn => DivDefined(a, b)
    case ModFn => DivDefined(a, b)
    case _ => false
  }

  /** Arithmetic operation `f`, with its float result tagged Float. */
  function Arithmetic(f: OpFunction, a: Object, b: Object): Outcome
    requires ArithDefined(f, a, b)
  {
    match f
    case AddFn => Add(a, b)
    case SubFn => Sub(a, b)
    case MulFn => Mul(a, b)
    case DivFn => Div(a, b)
    case ModFn => Mod(a, b)
  }

  /** The tag `a` carries after objectAdd, objectSub, objectMul, objectDiv
      or objectMod as written.  Add rejects the tags above STRING, the
      others STRING too; every float branch stores only the `floating`
      member (Mod stores 0 there), so `a` keeps its own tag. */
  function TagAsWritten(f: OpFunction, a: Object, b: Object): (t: nat)
    requires ArithDefined(f, a, b)
    ensures Arithmetic(f, a, b).status == Ok && (a.Float? || b.Float?) ==> t == Tag(a)
    ensures !(Arithmetic(f, a, b).status == Ok && (a.Float? || b.Float?)) ==> t == Tag(Arithmetic(f, a, b).a)
  {
    var rejected := if f == AddFn then TYPE_STRING + 1 else TYPE_STRING;
    if Tag(a) > TYPE_NULL && Tag(b) > TYPE_NULL then
      if Tag(a) >= rejected || Tag(b) >= rejected then Tag(a)
      else if f == AddFn && (a.Str? || b.Str?) then Tag(a)
      else if a.Float? || b.Float? then Tag(a)
      else if a.Int? && b.Int? then TYPE_INT
      else Tag(a)
    else Tag(a)
  }

  /** As written, no arithmetic operation changes the type of `a`: Int
      with Float stays INT over a double's bits, and a Reference with a
      Float stays REFERENCE.  The corrected operations tag both results
      FLOAT. */
  lemma MixedArithKeepsTag(f: OpFunction, a: Object, b: Object, i: Int64, n: string)
    requires IsArithmetic(f) && ArithDefined(f, a, b)
    ensures TagAsWritten(f, a, b) == Tag(a)
    ensures TagAsWritten(f, Int(i), Float) == TYPE_INT
    ensures TagAsWritten(f, Reference(n), Float) == Tag(Reference(n))
    ensures Arithmetic(f, Int(i), Float) == Outcome(Ok, Float)
    ensures Arithmetic(f, Reference(n), Float) == Outcome(Ok, Float)
  {
  }
}
