/** The djb2 string hash, as `_winter_hashCStr` (src/object.c) and
    `hashString` (src/wtable.c) compute it.  The width of `hash_t` is not
    shown in the source; both are modelled as unsigned 64-bit words
    (`unsigned long` on an LP64 target), so every step wraps modulo 2^64. */
module Djb2 {
  import opened CInt
  import opened CharClass

  const SEED: nat := 5381

  /** The value of `c` after `c = *string++`: `char` is signed, so a byte
      of 128 or more sign-extends into the top of the word.  A character
      stands for the byte `c % 256`. */
  function CharWord(c: char): (w: nat)
    ensures w < WORD
  {
    var b := c as int % 256;
    if b < 128 then b else WORD - 256 + b
  }

  /** `out = ((out << 5) + out) + c` with every operation wrapping. */
  function HashStep(out: nat, c: char): nat {
    Wrap(Wrap(Wrap(out * 32) + out) + CharWord(c))
  }

  /** The hash of the characters of `s`, folded first to last. */
  function Hash(s: seq<char>): (h: nat)
    ensures h < WORD
  {
    if s == [] then SEED else HashStep(Hash(s[..|s| - 1]), s[|s| - 1])
  }

  lemma ModAdd(x: int, y: int)
    ensures (x % WORD + y) % WORD == (x + y) % WORD
  {
    var q := x / WORD;
    assert x == q * WORD + x % WORD;
    assert x + y == (x % WORD + y) + q * WORD;
  }

  /** Each step multiplies by 33 and adds the character, modulo 2^64. */
  lemma HashStepIsTimes33(out: nat, c: char)
    ensures HashStep(out, c) == (out * 33 + CharWord(c)) % WORD
  {
    ModAdd(out * 32, out);
    ModAdd(out * 32 + out, CharWord(c));
    assert out * 32 + out == out * 33;
  }

  /** Iterating to the terminator reads exactly the C string. */
  lemma {:induction false} PrefixUpToNul(s: seq<char>, i: nat)
    requires i <= |s| && NUL !in s[..i] && At(s, i) == NUL
    ensures CPrefix(s) == s[..i]
  {
    if i > 0 {
      assert s[1..][..i - 1] == s[1..i] == s[..i][1..];
      PrefixUpToNul(s[1..], i - 1);
    }
  }

  /** The loop `while ((c = *string++)) out = ((out << 5) + out) + c;`
      shared by both hash functions. */
  method HashLoop(s: seq<char>) returns (out: nat)
    ensures out == Hash(CPrefix(s))
  {
    out := SEED;
    var i := 0;
    while At(s, i) != NUL
      invariant i <= |s| && NUL !in s[..i]
      invariant out == Hash(s[..i])
      decreases |s| - i
    {
      assert s[..i + 1][..i] == s[..i];
      out := Wrap(Wrap(Wrap(out * 32) + out) + CharWord(s[i]));
      i := i + 1;
    }
    PrefixUpToNul(s, i);
  }

  /** `_winter_hashCStr`: djb2 with 0 reserved, remapped to 1. */
  method HashCStr(s: seq<char>) returns (out: nat)
    ensures out != 0 && out < WORD
    ensures Hash(CPrefix(s)) != 0 ==> out == Hash(CPrefix(s))
    ensures Hash(CPrefix(s)) == 0 ==> out == 1
  {
    out := HashLoop(s);
    if out == 0 {
      out := 1;
    }
  }

  /** `hashString` of src/wtable.c: the same loop, with no zero remap. */
  method HashString(s: seq<char>) returns (out: nat)
    ensures out == Hash(CPrefix(s))
  {
    out := HashLoop(s);
  }

  /** The reserved value as a function: what HashCStr returns. */
  function NonZeroHash(s: seq<char>): (h: nat)
    ensures h != 0 && h < WORD
    ensures h == Hash(CPrefix(s)) || (Hash(CPrefix(s)) == 0 && h == 1)
  {
    var h := Hash(CPrefix(s));
    if h == 0 then 1 else h
  }

  /** Only the C string matters: bytes after a NUL never change the hash. */
  lemma HashIgnoresTail(s: seq<char>, rest: seq<char>)
    requires NUL !in s
    ensures NonZeroHash(s + [NUL] + rest) == NonZeroHash(s)
  {
    CPrefixOfTerminated(s, rest);
    CPrefixNoNul(s);
  }

  lemma {:induction false} CPrefixNoNul(s: seq<char>)
    requires NUL !in s
    ensures CPrefix(s) == s
  {
    if s != [] {
      CPrefixNoNul(s[1..]);
    }
  }

  /** djb2 of "a": 5381 * 33 + 97. */
  lemma HashOfA()
    ensures Hash("a") == 177670
  {
    var s: seq<char> := "a";
    assert s[..0] == [];
    HashStepIsTimes33(SEED, 'a');
  }
}
