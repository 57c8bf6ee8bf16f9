/** Reference-counted strings of src/wstring.c: a byte buffer with its
    length, its capacity and a lazily cached hash, 0 meaning "not yet
    computed". */
module WStrings {
  import opened CInt
  import opened CharClass
  import opened Djb2
  import opened Options

  class WString {
    var refcount: nat
    var hash: nat
    var length: nat
    const capacity: nat
    const data: array<char>

    /** The buffer holds `length` bytes and a terminator. */
    ghost predicate WellFormed()
      reads `length, data
    {
      data.Length == capacity && length < capacity && data[length] == NUL
    }

    /** A string as the create functions leave it: well formed, and a
        cached hash is the hash of the contents. */
    ghost predicate Valid()
      reads `hash, `length, data
    {
      WellFormed() && (hash != 0 ==> hash == NonZeroHash(data[..length]))
    }

    /** The contents. */
    ghost function Text(): seq<char>
      reads `length, data
      requires length <= data.Length
    {
      data[..length]
    }

    /** `_winter_stringAlloc`: an empty string with room for `size` bytes. */
    constructor Alloc(size: nat)
      ensures refcount == 0 && hash == 0 && length == 0 && capacity == size
      ensures fresh(data) && data.Length == size
    {
      refcount, hash, length := 0, 0, 0;
      capacity := size;
      data := new char[size];
    }

    /** `_winter_stringHash`: computes the hash only while the cache is 0. */
    method Hash() returns (h: nat)
      requires Valid()
      modifies this`hash
      ensures Valid()
      ensures h == hash == NonZeroHash(Text())
      ensures old(hash) != 0 ==> hash == old(hash)
    {
      if hash == 0 {
        CPrefixAtNul(data[..], length);
        hash := HashCStr(data[..]);
      }
      h := hash;
    }

    /** `_winter_stringHash` on a string whose hash is cached: it returns
        the cache and writes nothing. */
    method CachedHash() returns (h: nat)
      requires Valid() && hash != 0
      ensures h == hash == NonZeroHash(Text())
    {
      h := hash;
    }
  }

  /** The C string of a buffer ends at its first NUL, so it is the C string
      of any prefix that reaches a NUL. */
  lemma {:induction false} CPrefixAtNul(s: seq<char>, k: nat)
    requires k < |s| && s[k] == NUL
    ensures CPrefix(s) == CPrefix(s[..k])
  {
    if k > 0 && s[0] != NUL {
      assert s[1..][..k - 1] == s[..k][1..];
      CPrefixAtNul(s[1..], k - 1);
    }
  }

  /** `_winter_stringCreateSize`: copies exactly `size` bytes and terminates them. */
  method CreateSize(src: seq<char>, size: nat) returns (out: WString)
    requires size <= |src|
    ensures fresh(out) && fresh(out.data) && out.Valid()
    ensures out.Text() == src[..size]
    ensures out.length == size && out.capacity == size + 1
    ensures out.hash == 0 && out.refcount == 0
  {
    out := new WString.Alloc(size + 1);
    forall i | 0 <= i < size {
      out.data[i] := src[i];
    }
    out.data[size] := NUL;
    out.length := size;
  }

  /** `_winter_stringCreate`: the C string of `src`, up to its first NUL. */
  method Create(src: seq<char>) returns (out: WString)
    ensures fresh(out) && fresh(out.data) && out.Valid()
    ensures out.Text() == CPrefix(src) && out.hash == 0
  {
    out := CreateSize(src, |CPrefix(src)|);
  }

  /** `_winter_stringDup`: a fresh copy of the contents. */
  method Dup(s: WString) returns (out: WString)
    requires s.Valid()
    ensures fresh(out) && fresh(out.data) && out.Valid()
    ensures out.Text() == s.Text() && out.length == s.length
  {
    out := CreateSize(s.data[..], s.length);
  }

  /** `_winter_stringCat`: a fresh string holding `a`'s bytes then `b`'s. */
  method Cat(a: WString, b: WString) returns (out: WString)
    requires a.Valid() && b.Valid()
    ensures fresh(out) && fresh(out.data) && out.Valid()
    ensures out.Text() == a.Text() + b.Text()
    ensures out.length == a.length + b.length && out.hash == 0
  {
    var required := a.length + b.length + 1;
    out := new WString.Alloc(required);
    forall i | 0 <= i < a.length {
      out.data[i] := a.data[i];
    }
    forall i | 0 <= i < b.length {
      out.data[a.length + i] := b.data[i];
    }
    out.length := required - 1;
    out.data[required - 1] := NUL;
    assert out.Text() == a.Text() + b.Text() by {
      assert forall i :: 0 <= i < a.length ==> out.Text()[i] == a.Text()[i];
      assert forall i :: 0 <= i < b.length ==> out.Text()[a.length + i] == b.Text()[i];
    }
  }

  /** `_winter_stringCompare`, with the byte loop's exit test made safe for
      empty strings (see CompareLoopAsWritten): true for the same string,
      and otherwise exactly when the contents agree.  Distinct strings have
      their hashes computed and cached first. */
  method Compare(a: WString, b: WString) returns (r: bool)
    requires a.Valid() && b.Valid()
    modifies a`hash, b`hash
    ensures a.Valid() && b.Valid()
    ensures r <==> a.Text() == b.Text()
    ensures old(a.hash) != 0 ==> a.hash == old(a.hash)
    ensures old(b.hash) != 0 ==> b.hash == old(b.hash)
  {
    if a == b {
      return true;
    }
    var ha := a.Hash();
    var hb := b.Hash();
    r := CompareHashed(a, b);
  }

  /** `_winter_stringCompare` on two strings whose hashes are already
      cached: the two hash calls only read the cache, so nothing changes.
      Different hashes or lengths mean different contents; otherwise the
      bytes are compared up to the length. */
  method CompareHashed(a: WString, b: WString) returns (r: bool)
    requires a.Valid() && b.Valid() && a.hash != 0 && b.hash != 0
    ensures r <==> a.Text() == b.Text()
  {
    if a == b {
      return true;
    }
    r := false;
    if a.hash == b.hash && a.length == b.length {
      var i := 0;
      while i < a.length && a.data[i] == b.data[i]
        invariant i <= a.length
        invariant a.data[..i] == b.data[..i]
      {
        assert a.data[..i + 1] == a.data[..i] + [a.data[i]];
        assert b.data[..i + 1] == b.data[..i] + [b.data[i]];
        i := i + 1;
      }
      r := i == a.length;
      if !r {
        assert a.Text()[i] != b.Text()[i];
      }
    }
  }

  /** The byte loop of `_winter_stringCompare` as written:
      `for (i = 0; a->data[i] == b->data[i]; i++) if (i == a->length - 1) return true;`
      over the buffers `x` and `y`, with `length - 1` computed in `size_t`.
      None stands for a read outside a buffer. */
  function CompareLoopAsWritten(x: seq<char>, y: seq<char>, length: nat, i: nat): (r: Option<bool>)
    ensures r == Some(true) ==> i <= Wrap(length - 1) < |x| && Wrap(length - 1) < |y|
    ensures r == Some(true) ==> forall k :: i <= k <= Wrap(length - 1) ==> x[k] == y[k]
    decreases |x| - i
  {
    if i >= |x| || i >= |y| then None
    else if x[i] != y[i] then Some(false)
    else if i == Wrap(length - 1) then Some(true)
    else CompareLoopAsWritten(x, y, length, i + 1)
  }

  /** Two distinct empty strings (their one-byte buffers hold only the
      terminator) make the loop run past the terminator: `length - 1` wraps
      to 2^64 - 1, so the exit test never fires and byte 1 is read. */
  lemma EmptyCompareOverreads()
    ensures Wrap(0 - 1) == WORD - 1
    ensures CompareLoopAsWritten([NUL], [NUL], 0, 0) == None
  {
    assert CompareLoopAsWritten([NUL], [NUL], 0, 0) == CompareLoopAsWritten([NUL], [NUL], 0, 1);
  }

  /** For non-empty strings the loop as written decides equality of the
      contents, as Compare does. */
  lemma {:induction false} CompareLoopNonEmpty(x: seq<char>, y: seq<char>, length: nat, i: nat)
    requires 0 < length < WORD && |x| == |y| == length + 1
    requires i < length && x[..i] == y[..i]
    ensures CompareLoopAsWritten(x, y, length, i) == Some(x[..length] == y[..length])
    decreases length - i
  {
    assert Wrap(length - 1) == length - 1;
    if x[i] != y[i] {
      assert x[..length][i] != y[..length][i];
    } else if i == length - 1 {
      assert x[..length] == x[..i] + [x[i]] && y[..length] == y[..i] + [y[i]];
    } else {
      assert x[..i + 1] == x[..i] + [x[i]] && y[..i + 1] == y[..i] + [y[i]];
      CompareLoopNonEmpty(x, y, length, i + 1);
    }
  }
}
