/** The hash table of the older snapshot (src/wtable.h, src/wtable.c): one
    bucket per hash value, no chaining, and no name check, so two names
    that land in the same bucket share it. */
module WTables {
  import opened CInt
  import opened Options
  import opened CharClass
  import Djb2

  /** `object_type_t` of src/wtable.h. */
  datatype SlotKind = UnknownSlot | IntSlot | FloatSlot | StringSlot | TableSlot | FunctionSlot

  /** `bucket_t`: its name (nothing ever writes it), its type and the
      integer of its union. */
  datatype Bucket = Bucket(name: Option<string>, kind: SlotKind, value: Int64)

  /** A bucket as `calloc` leaves it: NULL name, TYPE_UNKNOWN, zero. */
  const EMPTY: Bucket := Bucket(None, UnknownSlot, 0)

  /** The bucket `getBucket` picks for `name` among `n`. */
  function SlotOf(n: nat, name: seq<char>): (i: nat)
    requires n > 0
    ensures i < n
  {
    Djb2.Hash(CPrefix(name)) % n
  }

  /** The buckets after `_winter_tableInsertInt`. */
  function Insert(slots: seq<Bucket>, name: seq<char>, v: Int64): (r: seq<Bucket>)
    requires |slots| > 0
    ensures |r| == |slots|
    ensures r[SlotOf(|slots|, name)].kind == IntSlot && r[SlotOf(|slots|, name)].value == v
  {
    var i := SlotOf(|slots|, name);
    slots[i := slots[i].(kind := IntSlot, value := v)]
  }

  /** What `_winter_tableToInt` returns; None where its assert fails. */
  function Lookup(slots: seq<Bucket>, name: seq<char>): (r: Option<Int64>)
    requires |slots| > 0
    ensures r.Some? <==> slots[SlotOf(|slots|, name)].kind == IntSlot
  {
    var b := slots[SlotOf(|slots|, name)];
    if b.kind == IntSlot then Some(b.value) else None
  }

  /** `winterTable_t`. */
  class WTable {
    var buckets: array<Bucket>
    var numBuckets: nat
    var size: nat

    predicate Valid()
      reads this
    {
      buckets.Length == numBuckets
    }

    /** `_winter_tableAlloc`. */
    constructor Alloc(initial: nat)
      ensures Valid() && numBuckets == initial && size == 0
      ensures buckets[..] == seq(initial, _ => EMPTY)
      ensures fresh(buckets)
    {
      buckets := new Bucket[initial](_ => EMPTY);
      numBuckets := initial;
      size := 0;
    }

    /** `getBucket`: the index of the bucket for `name`, whoever holds it. */
    method GetBucket(name: seq<char>) returns (i: nat)
      requires Valid() && numBuckets > 0
      ensures i == SlotOf(numBuckets, name) && i < buckets.Length
    {
      var hash := Djb2.HashString(name);
      i := hash % numBuckets;
    }

    /** `_winter_tableInsertInt`: `size` and the name stay as they are. */
    method InsertInt(name: seq<char>, value: Int64)
      requires Valid() && numBuckets > 0
      modifies buckets
      ensures buckets[..] == Insert(old(buckets[..]), name, value)
    {
      var i := GetBucket(name);
      buckets[i] := buckets[i].(kind := IntSlot, value := value);
    }

    /** `_winter_tableToInt`. */
    method ToInt(name: seq<char>) returns (r: Option<Int64>)
      requires Valid() && numBuckets > 0
      ensures r == Lookup(buckets[..], name)
    {
      var i := GetBucket(name);
      var bucket := buckets[i];
      if bucket.kind == IntSlot {
        return Some(bucket.value);
      }
      return None;
    }
  }

  // ---------------------------------------------------------------------
  // Properties

  /** A value inserted under a name reads back under that name. */
  lemma ReadAfterInsert(slots: seq<Bucket>, name: seq<char>, v: Int64)
    requires |slots| > 0
    ensures Lookup(Insert(slots, name, v), name) == Some(v)
  {
  }

  /** An insert leaves the other buckets, the bucket count and every name
      as they were. */
  lemma InsertFrame(slots: seq<Bucket>, name: seq<char>, other: seq<char>, v: Int64)
    requires |slots| > 0
    ensures |Insert(slots, name, v)| == |slots|
    ensures forall i :: 0 <= i < |slots| ==> Insert(slots, name, v)[i].name == slots[i].name
    ensures SlotOf(|slots|, other) != SlotOf(|slots|, name) ==>
              Lookup(Insert(slots, name, v), other) == Lookup(slots, other)
  {
  }

  /** Two names whose hashes agree modulo the bucket count share a bucket:
      the later insert overwrites the earlier. */
  lemma Collision(slots: seq<Bucket>, a: seq<char>, b: seq<char>, x: Int64, y: Int64)
    requires |slots| > 0 && SlotOf(|slots|, a) == SlotOf(|slots|, b)
    ensures Lookup(Insert(Insert(slots, a, x), b, y), a) == Some(y)
  {
  }

  /** With one bucket every pair of names collides. */
  lemma SingleBucket(x: Int64, y: Int64)
    ensures Lookup(Insert(Insert([EMPTY], "a", x), "b", y), "a") == Some(y)
  {
    Collision([EMPTY], "a", "b", x, y);
  }

  /** A fresh table holds no integer: reading one fails the assert. */
  lemma FreshTable(n: nat, name: seq<char>)
    requires n > 0
    ensures Lookup(seq(n, _ => EMPTY), name) == None
  {
  }
}
