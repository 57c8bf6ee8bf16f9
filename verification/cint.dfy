/** C integer semantics used by the interpreter: `winterInt_t` is a signed
    64-bit integer and `hash_t` is taken to be an unsigned 64-bit word. */
module CInt {

  const INT64_MIN: int := -0x8000_0000_0000_0000
  const INT64_MAX: int := 0x7FFF_FFFF_FFFF_FFFF
  const WORD: int := 0x1_0000_0000_0000_0000

  predicate InInt64(x: int) { INT64_MIN <= x <= INT64_MAX }

  /** The values a `winterInt_t` can hold. */
  type Int64 = x: int | InInt64(x)

  function Abs(x: int): nat { if x < 0 then -x else x }

  /** C's `/`: the quotient truncated toward zero. */
  function TDiv(a: int, b: int): (q: int)
    requires b != 0
    ensures Abs(q) == Abs(a) / Abs(b)
    ensures q != 0 ==> (q < 0 <==> (a < 0) != (b < 0))
  {
    var n: nat := Quotient(Abs(a), Abs(b));
    if (a < 0) == (b < 0) then n as int else -(n as int)
  }

  /** The quotient of two naturals. */
  function Quotient(x: nat, y: nat): (n: nat)
    requires y > 0
  {
    x / y
  }

  /** C's `%`: the remainder that goes with TDiv, signed like the dividend. */
  function TRem(a: int, b: int): (r: int)
    requires b != 0
    ensures Abs(r) < Abs(b)
    ensures r != 0 ==> (r < 0 <==> a < 0)
  {
    var r := Abs(a) % Abs(b);
    if a < 0 then -r else r
  }

  /** The division identity C guarantees for `/` and `%`. */
  lemma DivisionIdentity(a: int, b: int)
    requires b != 0
    ensures TDiv(a, b) * b + TRem(a, b) == a
  {
    var A: int, B: int := Abs(a), Abs(b);
    var q: int, r: int := A / B, A % B;
    var m := q * B;
    assert A == m + r;
    var t := TDiv(a, b);
    if a < 0 {
      assert TRem(a, b) == -r;
      if b < 0 {
        assert t == q && b == -B;
        NegateFactor(q, B);
      } else {
        assert t == -q && b == B;
        NegateFactor(B, q);
      }
    } else {
      assert TRem(a, b) == r;
      if b < 0 {
        assert t == -q && b == -B;
        NegateFactor(-q, B);
        NegateFactor(B, q);
      } else {
        assert t == q && b == B;
      }
    }
  }

  /** Negating one factor negates the product. */
  lemma NegateFactor(x: int, y: int)
    ensures x * -y == -(x * y) && -y * x == -(y * x) && x * y == y * x
  {
  }

  /** The quotient of two 64-bit values is a 64-bit value, except for
      INT64_MIN / -1. */
  lemma TDivInRange(a: int, b: int)
    requires InInt64(a) && InInt64(b) && b != 0
    requires !(a == INT64_MIN && b == -1)
    ensures InInt64(TDiv(a, b))
  {
    var A, B := Abs(a), Abs(b);
    var q := A / B;
    QuotientBound(A, B);
    assert TDiv(a, b) == if (a < 0) == (b < 0) then q else -q;
    assert 0 <= q <= A <= -INT64_MIN;
    if q == -INT64_MIN {
      assert B == 1 && a == INT64_MIN && b == 1;
    }
  }

  lemma QuotientBound(A: int, B: int)
    requires A >= 0 && B >= 1
    ensures A / B <= A
    ensures A > 0 && A / B == A ==> B == 1
  {
    var q, r := A / B, A % B;
    assert A == B * q + r && 0 <= r;
    assert q >= 0 by {
      if q < 0 {
        MulNonneg(B, -q);
      }
    }
    MulNonneg(B - 1, q);
    assert B * q == q + (B - 1) * q;
  }

  lemma MulNonneg(x: int, y: int)
    requires x >= 0 && y >= 0
    ensures x * y >= 0
  {
  }

  /** Unsigned 64-bit wrap-around. */
  function Wrap(x: int): (w: nat)
    ensures w < WORD
    ensures 0 <= x < WORD ==> w == x
  {
    x % WORD
  }

  /** Two's-complement truncation to 64 bits: the value a signed 64-bit
      register holds after an arithmetic result `x` is written to it. */
  function ToInt64(x: int): (r: Int64)
    ensures InInt64(x) ==> r == x
    ensures (r - x) % WORD == 0
  {
    var m := (x - INT64_MIN) % WORD;
    assert x - INT64_MIN == WORD * ((x - INT64_MIN) / WORD) + m;
    m + INT64_MIN
  }

  /** Values that differ by a multiple of 2^64 truncate alike. */
  lemma ToInt64Congruent(x: int, y: int)
    requires (x - y) % WORD == 0
    ensures ToInt64(x) == ToInt64(y)
  {
    var k := (x - y) / WORD;
    assert x - y == WORD * k;
    ModShift(y - INT64_MIN, k);
    assert x - INT64_MIN == (y - INT64_MIN) + WORD * k;
  }

  lemma ModShift(u: int, k: int)
    ensures (u + WORD * k) % WORD == u % WORD
  {
    var q, r := u / WORD, u % WORD;
    assert u + WORD * k == WORD * (q + k) + r;
  }
}
