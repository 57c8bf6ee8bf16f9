/** The character classes of src/wtype.h (repeated in src/lexer.c) and the
    C-string view of a character buffer: reading at or past the end yields
    the NUL terminator. */
module CharClass {

  const NUL: char := '\0'

  /** `s[i]` of a NUL-terminated buffer whose contents are `s`. */
  function At(s: seq<char>, i: nat): char {
    if i < |s| then s[i] else NUL
  }

  predicate IsSpace(c: char) {
    c == ' ' || c == '\t' || c == '\n' || c == '\U{0B}' || c == '\U{0C}' || c == '\r'
  }

  predicate IsAlpha(c: char) {
    ('a' <= c <= 'z') || ('A' <= c <= 'Z')
  }

  predicate IsDigit(c: char)
  {
    '0' <= c <= '9'
  }

  predicate IsAlnum(c: char) {
    IsAlpha(c) || IsDigit(c)
  }

  predicate IsHex(c: char)
  {
    IsDigit(c) || ('a' <= c <= 'f') || ('A' <= c <= 'F')
  }

  predicate IsOctal(c: char)
  {
    '0' <= c <= '7'
  }

  predicate IsBinary(c: char)
  {
    c == '0' || c == '1'
  }

  /** isHex, isOctal and isBinary accept exactly the digits their names say. */
  lemma DigitClasses(c: char)
    ensures IsDigit(c) <==> c in "0123456789"
    ensures IsHex(c) <==> c in "0123456789abcdefABCDEF"
    ensures IsOctal(c) <==> c in "01234567"
    ensures IsBinary(c) <==> c in "01"
  {
  }

  /** The characters a C string function sees: everything before the first NUL. */
  function CPrefix(s: seq<char>): (p: seq<char>)
    ensures p <= s
    ensures NUL !in p
    ensures |p| < |s| ==> s[|p|] == NUL
  {
    if s == [] || s[0] == NUL then [] else [s[0]] + CPrefix(s[1..])
  }

  /** A buffer without NUL is its own C string, whatever follows the terminator. */
  lemma {:induction false} CPrefixOfTerminated(s: seq<char>, rest: seq<char>)
    requires NUL !in s
    ensures CPrefix(s + [NUL] + rest) == s
  {
    if s != [] {
      assert (s + [NUL] + rest)[1..] == s[1..] + [NUL] + rest;
      CPrefixOfTerminated(s[1..], rest);
    }
  }
}
