/** `winter_strtoi` of src/wtype.h: decodes the leading run of digits of a
    NUL-terminated buffer in base 2, 8, 10 or 16.  The accumulator is modelled
    as an unbounded natural (see README, "Left out"). */
module StrToI {
  import opened CharClass

  /** C's `|` on non-negative integers, bit by bit. */
  function BitOr(x: nat, y: nat): nat
    decreases x + y
  {
    if x == 0 then y
    else if y == 0 then x
    else 2 * BitOr(x / 2, y / 2) + (if x % 2 == 1 || y % 2 == 1 then 1 else 0)
  }

  /** Or-ing a single bit into a value shifted left by one is addition. */
  lemma BitOrShiftedBit(x: nat, d: nat)
    requires d < 2
    ensures BitOr(2 * x, d) == 2 * x + d
  {
    if x != 0 && d != 0 {
      assert (2 * x) / 2 == x && d / 2 == 0 && d % 2 == 1;
      assert BitOr(x, 0) == x;
    }
  }

  /** The characters each base's loop accepts: decimal digits for 2, 8 and
      10 (so base 2 also takes 2-9, base 8 also takes 8 and 9), hex digits for 16. */
  predicate InRun(c: char, base: int) {
    if base == 16 then IsHex(c) else IsDigit(c)
  }

  /** The value the base-16 loop adds for a hex digit, tested as the source
      does: first `>= 'a'`, then `>= 'A'`, otherwise a decimal digit. */
  function HexDigit(c: char): int {
    if c >= 'a' then c as int - 'a' as int + 10
    else if c >= 'A' then c as int - 'A' as int + 10
    else c as int - '0' as int
  }

  /** One iteration of the loop for `base`. */
  function Step(out: nat, c: char, base: int): nat
    requires InRun(c, base)
  {
    if base == 2 then BitOr(2 * out, c as int - '0' as int)
    else if base == 16 then out * 16 + HexDigit(c)
    else if base == 8 || base == 10 then out * base + (c as int - '0' as int)
    else out
  }

  /** The loop run over `digits`, first to last. */
  function Accumulate(digits: seq<char>, base: int): nat
    requires forall i :: 0 <= i < |digits| ==> InRun(digits[i], base)
  {
    if digits == [] then 0
    else Step(Accumulate(digits[..|digits| - 1], base), digits[|digits| - 1], base)
  }

  /** The index of the first character at or after `i` that ends the run. */
  function RunEnd(s: seq<char>, i: nat, base: int): (j: nat)
    requires i <= |s|
    ensures i <= j <= |s|
    ensures forall k :: i <= k < j ==> InRun(s[k], base)
    ensures !InRun(At(s, j), base)
    decreases |s| - i
  {
    if InRun(At(s, i), base) then RunEnd(s, i + 1, base) else i
  }

  predicate SupportedBase(base: int) {
    base == 2 || base == 8 || base == 10 || base == 16
  }

  /** What `winter_strtoi(s + start, base)` returns. */
  function StrToISpec(s: seq<char>, start: nat, base: int): (r: nat)
    requires start <= |s|
    ensures !SupportedBase(base) || !InRun(At(s, start), base) ==> r == 0
  {
    if SupportedBase(base) then Accumulate(s[start..RunEnd(s, start, base)], base) else 0
  }

  method WinterStrToI(s: seq<char>, start: nat, base: int) returns (out: int)
    requires start <= |s|
    ensures out == StrToISpec(s, start, base)
    ensures !SupportedBase(base) ==> out == 0
    ensures !InRun(At(s, start), base) ==> out == 0
  {
    out := 0;
    var i := start;
    if base == 2 {
      out, i := BinaryRun(s, start);
    } else if base == 8 || base == 10 {
      out, i := DecimalRun(s, start, base);
    } else if base == 16 {
      out, i := HexRun(s, start);
    }
    RunEndIsLoopExit(s, start, i, base);
  }

  /** The `case 2` loop: `out <<= 1; out |= digit` over decimal digits. */
  method BinaryRun(s: seq<char>, start: nat) returns (out: nat, i: nat)
    requires start <= |s|
    ensures start <= i <= |s| && !IsDigit(At(s, i))
    ensures forall k :: start <= k < i ==> InRun(s[k], 2)
    ensures out == Accumulate(s[start..i], 2)
  {
    out, i := 0, start;
    while IsDigit(At(s, i))
      invariant start <= i <= |s|
      invariant forall k :: start <= k < i ==> InRun(s[k], 2)
      invariant out == Accumulate(s[start..i], 2)
      decreases |s| - i
    {
      AccumulateSnoc(s, start, i, 2);
      out := BitOr(2 * out, s[i] as int - '0' as int);
      i := i + 1;
    }
  }

  /** The shared `case 8` / `case 10` loop: `out = out * base + digit`. */
  method DecimalRun(s: seq<char>, start: nat, base: int) returns (out: nat, i: nat)
    requires start <= |s| && (base == 8 || base == 10)
    ensures start <= i <= |s| && !IsDigit(At(s, i))
    ensures forall k :: start <= k < i ==> InRun(s[k], base)
    ensures out == Accumulate(s[start..i], base)
  {
    out, i := 0, start;
    while IsDigit(At(s, i))
      invariant start <= i <= |s|
      invariant forall k :: start <= k < i ==> InRun(s[k], base)
      invariant out == Accumulate(s[start..i], base)
      decreases |s| - i
    {
      AccumulateSnoc(s, start, i, base);
      var next := out * base + (s[i] as int - '0' as int);
      assert next == Step(out, s[i], base);
      out := next;
      i := i + 1;
    }
  }

  /** The `case 16` loop over hex digits. */
  method HexRun(s: seq<char>, start: nat) returns (out: nat, i: nat)
    requires start <= |s|
    ensures start <= i <= |s| && !IsHex(At(s, i))
    ensures forall k :: start <= k < i ==> InRun(s[k], 16)
    ensures out == Accumulate(s[start..i], 16)
  {
    out, i := 0, start;
    while IsHex(At(s, i))
      invariant start <= i <= |s|
      invariant forall k :: start <= k < i ==> InRun(s[k], 16)
      invariant out == Accumulate(s[start..i], 16)
      decreases |s| - i
    {
      AccumulateSnoc(s, start, i, 16);
      var c := s[i];
      var digit: int;
      if c >= 'a' {
        digit := c as int - 'a' as int + 10;
      } else if c >= 'A' {
        digit := c as int - 'A' as int + 10;
      } else {
        digit := c as int - '0' as int;
      }
      var next := out * 16 + digit;
      assert next == Step(out, c, 16);
      out := next;
      i := i + 1;
    }
  }

  /** One more loop iteration extends the accumulated digits by s[i]. */
  lemma AccumulateSnoc(s: seq<char>, start: nat, i: nat, base: int)
    requires start <= i < |s|
    requires forall k :: start <= k <= i ==> InRun(s[k], base)
    ensures Accumulate(s[start..i + 1], base) == Step(Accumulate(s[start..i], base), s[i], base)
  {
    assert s[start..i + 1][..i - start] == s[start..i];
  }

  lemma {:induction false} RunEndIsLoopExit(s: seq<char>, start: nat, i: nat, base: int)
    requires start <= i <= |s|
    requires forall k :: start <= k < i ==> InRun(s[k], base)
    requires SupportedBase(base) ==> !InRun(At(s, i), base)
    ensures SupportedBase(base) ==> RunEnd(s, start, base) == i
    decreases i - start
  {
    if SupportedBase(base) && start < i {
      RunEndIsLoopExit(s, start + 1, i, base);
    }
  }

  // ---------------------------------------------------------------------
  // The reference meaning of a digit string: ordinary positional notation.

  /** A digit's value, case-insensitively for a-f. */
  function DigitValue(c: char): nat {
    if '0' <= c <= '9' then c as int - '0' as int
    else if 'a' <= c <= 'f' then c as int - 'a' as int + 10
    else if 'A' <= c <= 'F' then c as int - 'A' as int + 10
    else 0
  }

  /** Whether `c` is a digit of `base` in the usual sense. */
  predicate IsDigitOf(c: char, base: int) {
    (base == 2 && IsBinary(c)) || (base == 8 && IsOctal(c)) ||
    (base == 10 && IsDigit(c)) || (base == 16 && IsHex(c))
  }

  function Pow(b: nat, n: nat): nat {
    if n == 0 then 1 else b * Pow(b, n - 1)
  }

  /** sum of DigitValue(s[i]) * base^(|s|-1-i), most significant digit first. */
  function Positional(s: seq<char>, base: nat): nat {
    if s == [] then 0 else DigitValue(s[0]) * Pow(base, |s| - 1) + Positional(s[1..], base)
  }

  lemma {:induction false} PositionalSnoc(s: seq<char>, c: char, base: nat)
    ensures Positional(s + [c], base) == Positional(s, base) * base + DigitValue(c)
  {
    var t := s + [c];
    if s == [] {
      assert t[1..] == [];
      assert Positional(t, base) == DigitValue(c) * Pow(base, 0) + Positional([], base);
    } else {
      assert t[0] == s[0] && t[1..] == s[1..] + [c];
      PositionalSnoc(s[1..], c, base);
      var d, p, rest := DigitValue(s[0]), Pow(base, |s| - 1), Positional(s[1..], base);
      assert Positional(t, base) == d * Pow(base, |s|) + Positional(t[1..], base);
      assert Positional(t[1..], base) == rest * base + DigitValue(c);
      assert Pow(base, |s|) == base * p;
      assert Positional(s, base) == d * p + rest;
      Distribute(d, p, rest, base);
    }
  }

  lemma Distribute(d: int, p: int, rest: int, b: int)
    ensures d * (b * p) + rest * b == (d * p + rest) * b
  {
  }

  /** On a string of proper digits of its base, winter_strtoi's loop computes
      the positional value: base 2's shift-and-or is the binary value, and
      base 16 maps a-f and A-F to 10-15 alike. */
  lemma {:induction false} AccumulateIsPositional(s: seq<char>, base: int)
    requires SupportedBase(base)
    requires forall i :: 0 <= i < |s| ==> IsDigitOf(s[i], base)
    ensures forall i :: 0 <= i < |s| ==> InRun(s[i], base)
    ensures Accumulate(s, base) == Positional(s, base)
  {
    assert forall i :: 0 <= i < |s| ==> InRun(s[i], base);
    if s != [] {
      var init, c := s[..|s| - 1], s[|s| - 1];
      assert s == init + [c];
      AccumulateIsPositional(init, base);
      PositionalSnoc(init, c, base);
      var acc := Accumulate(init, base);
      if base == 2 {
        BitOrShiftedBit(acc, c as int - '0' as int);
      }
    }
  }

  /** The loop ends at the first character outside the run: what follows it
      never affects the result. */
  lemma StopsAtFirstNonDigit(s: seq<char>, start: nat, base: int, rest: seq<char>)
    requires start <= |s|
    requires RunEnd(s, start, base) < |s|
    ensures StrToISpec(s, start, base) == StrToISpec(s[..RunEnd(s, start, base) + 1] + rest, start, base)
  {
    var j := RunEnd(s, start, base);
    var t := s[..j + 1] + rest;
    RunEndIsLoopExit(t, start, j, base);
    assert t[start..j] == s[start..j];
  }

  /** Base 8 accepts the digits 8 and 9: "19" decodes to 1*8 + 9. */
  lemma OctalTakesEightAndNine()
    ensures StrToISpec("19", 0, 8) == 17
  {
    RunEndIsLoopExit("19", 0, 2, 8);
    var s: seq<char> := "19";
    assert s[0..2] == s && s[..1] == "1" && "1"[..0] == [];
    assert Accumulate("1", 8) == Step(0, '1', 8) == 1;
    assert Accumulate(s, 8) == Step(Accumulate("1", 8), '9', 8);
  }
}
