/** The shape of the chained hash table of src/table.c, as plain values
    and as the linked entries behind it.  A single global singly-linked
    list holds every entry; the entries of each bucket form a contiguous
    run of that list, and the bucket array points at the first entry of
    each run. */
module TableShape {
  import opened Djb2
  import opened WStrings
  import opened Objects

  // ---------------------------------------------------------------------
  // The abstract state: keys, values and bucket numbers in list order.

  /** The bucket a key falls in. */
  function SlotOf(key: seq<char>, n: nat): (s: nat)
    requires n > 0
    ensures s < n
  {
    NonZeroHash(key) % n
  }

  predicate Distinct(keys: seq<seq<char>>) {
    forall i, j :: 0 <= i < j < |keys| ==> keys[i] != keys[j]
  }

  /** With `slots[j]` the bucket of list entry j: bucket s holds exactly
      the entries in [heads[s], ends[s]), and both bounds are -1 when the
      bucket is empty. */
  predicate Runs(slots: seq<int>, heads: seq<int>, ends: seq<int>, n: nat) {
    |heads| == n && |ends| == n &&
    (forall s :: 0 <= s < n ==>
      (heads[s] == -1 && ends[s] == -1) || (0 <= heads[s] < ends[s] <= |slots|)) &&
    (forall s, j :: 0 <= s < n && 0 <= heads[s] <= j < ends[s] ==> slots[j] == s) &&
    (forall j :: 0 <= j < |slots| ==> 0 <= slots[j] < n && heads[slots[j]] <= j < ends[slots[j]])
  }

  /** What the run bounds stand for: the entries of each bucket sit next to
      each other in the list. */
  lemma RunsAreContiguous(slots: seq<int>, heads: seq<int>, ends: seq<int>, n: nat, i: nat, j: nat, m: nat)
    requires Runs(slots, heads, ends, n)
    requires i < j < m < |slots| && slots[i] == slots[m]
    ensures slots[j] == slots[i]
  {
    var s := slots[i];
    assert heads[s] <= i && m < ends[s];
  }

  /** The table as a dictionary: entries are added in list order, so with
      distinct keys each key maps to the value stored beside it. */
  function MapOf(keys: seq<seq<char>>, vals: seq<Object>): map<seq<char>, Object>
    requires |keys| == |vals|
    decreases |keys|
  {
    if keys == [] then map[]
    else MapOf(keys[..|keys| - 1], vals[..|vals| - 1])[keys[|keys| - 1] := vals[|vals| - 1]]
  }

  /** The dictionary's keys are exactly the listed keys. */
  lemma {:induction false} MapOfKeys(keys: seq<seq<char>>, vals: seq<Object>)
    requires |keys| == |vals|
    ensures forall k :: k in MapOf(keys, vals) <==> k in keys
    decreases |keys|
  {
    if keys != [] {
      var n := |keys| - 1;
      MapOfKeys(keys[..n], vals[..n]);
      assert keys == keys[..n] + [keys[n]];
    }
  }

  /** With distinct keys, each key maps to the value beside it. */
  lemma {:induction false} MapOfAt(keys: seq<seq<char>>, vals: seq<Object>, i: nat)
    requires |keys| == |vals| && Distinct(keys) && i < |keys|
    ensures keys[i] in MapOf(keys, vals) && MapOf(keys, vals)[keys[i]] == vals[i]
    decreases |keys|
  {
    var n := |keys| - 1;
    if i < n {
      assert Distinct(keys[..n]) by {
        forall a, b | 0 <= a < b < n ensures keys[..n][a] != keys[..n][b] {
          assert keys[..n][a] == keys[a] && keys[..n][b] == keys[b];
        }
      }
      MapOfAt(keys[..n], vals[..n], i);
      assert keys[..n][i] == keys[i] && vals[..n][i] == vals[i];
      assert keys[i] != keys[n];
    }
  }

  /** The bounds after an entry of the empty bucket s is put at the front. */
  function Prepended(bounds: seq<int>, s: nat, v: int): (r: seq<int>)
    ensures |r| == |bounds|
    ensures forall t :: 0 <= t < |bounds| ==> r[t] == (if t == s then v else if bounds[t] >= 0 then bounds[t] + 1 else -1)
  {
    seq(|bounds|, t requires 0 <= t < |bounds| => if t == s then v else if bounds[t] >= 0 then bounds[t] + 1 else -1)
  }

  /** The bounds after an entry is linked in at list index p + 1. */
  function Shifted(bounds: seq<int>, p: int): (r: seq<int>)
    ensures |r| == |bounds|
    ensures forall t :: 0 <= t < |bounds| ==> r[t] == (if bounds[t] > p then bounds[t] + 1 else bounds[t])
  {
    seq(|bounds|, t requires 0 <= t < |bounds| => if bounds[t] > p then bounds[t] + 1 else bounds[t])
  }

  /** `x` inserted into `xs` so that it ends up at index `at`. */
  function InsertAt<T>(xs: seq<T>, at: nat, x: T): (r: seq<T>)
    requires at <= |xs|
    ensures |r| == |xs| + 1 && r[at] == x
    ensures forall i {:trigger r[i]} :: 0 <= i < at ==> r[i] == xs[i]
    ensures forall i {:trigger r[i]} :: at < i < |r| ==> r[i] == xs[i - 1]
  {
    xs[..at] + [x] + xs[at..]
  }

  /** An entry of an empty bucket can go at the front of the list. */
  lemma PrependKeepsRuns(slots: seq<int>, heads: seq<int>, ends: seq<int>, n: nat, s: nat)
    requires Runs(slots, heads, ends, n) && s < n && heads[s] == -1
    ensures Runs(InsertAt(slots, 0, s), Prepended(heads, s, 0), Prepended(ends, s, 1), n)
  {
    var s2 := InsertAt(slots, 0, s);
    var h2, e2 := Prepended(heads, s, 0), Prepended(ends, s, 1);
    forall t, j | 0 <= t < n && 0 <= h2[t] <= j < e2[t]
      ensures s2[j] == t
    {
      if t != s {
        assert s2[j] == slots[j - 1];
      }
    }
    forall j | 0 <= j < |s2|
      ensures 0 <= s2[j] < n && h2[s2[j]] <= j < e2[s2[j]]
    {
      if j > 0 {
        assert s2[j] == slots[j - 1];
      }
    }
  }

  /** An entry of bucket s, linked in right after the bucket's first entry
      p, keeps every bucket a run. */
  lemma InsertAfterKeepsRuns(slots: seq<int>, heads: seq<int>, ends: seq<int>, n: nat, s: nat, p: nat)
    requires Runs(slots, heads, ends, n) && s < n && heads[s] == p
    ensures Runs(InsertAt(slots, p + 1, s), Shifted(heads, p), Shifted(ends, p), n)
  {
    var s2 := InsertAt(slots, p + 1, s);
    var h2, e2 := Shifted(heads, p), Shifted(ends, p);
    forall t, j | 0 <= t < n && 0 <= h2[t] <= j < e2[t]
      ensures s2[j] == t
    {
      if j == p + 1 {
        assert slots[p] == s;
      } else if j > p + 1 {
        assert s2[j] == slots[j - 1];
      } else {
        assert s2[j] == slots[j];
      }
    }
    forall j | 0 <= j < |s2|
      ensures 0 <= s2[j] < n && h2[s2[j]] <= j < e2[s2[j]]
    {
      if j > p + 1 {
        assert s2[j] == slots[j - 1];
      } else if j == p + 1 {
        assert p < ends[s];
      } else {
        assert s2[j] == slots[j];
      }
    }
  }

  /** Keys stay distinct when a key not among them is inserted. */
  lemma DistinctInsert(keys: seq<seq<char>>, at: nat, key: seq<char>)
    requires Distinct(keys) && key !in keys && at <= |keys|
    ensures Distinct(InsertAt(keys, at, key))
  {
    var k2 := InsertAt(keys, at, key);
    forall i, j | 0 <= i < j < |k2|
      ensures k2[i] != k2[j]
    {
      var oi := if i < at then i else i - 1;
      var oj := if j < at then j else j - 1;
      if i != at && j != at {
        assert k2[i] == keys[oi] && k2[j] == keys[oj];
      } else if i == at {
        assert k2[j] == keys[oj];
      } else {
        assert k2[i] == keys[oi];
      }
    }
  }

  /** The elements of a sequence with one element inserted. */
  lemma InsertAtMembers<T>(xs: seq<T>, at: nat, x: T)
    requires at <= |xs|
    ensures forall y :: y in InsertAt(xs, at, x) <==> y == x || y in xs
  {
    assert xs == xs[..at] + xs[at..];
  }

  /** The dictionary gains exactly the new key, wherever it is inserted. */
  lemma MapOfInsert(keys: seq<seq<char>>, vals: seq<Object>, at: nat, key: seq<char>, v: Object)
    requires |keys| == |vals| && Distinct(keys) && key !in keys && at <= |keys|
    ensures Distinct(InsertAt(keys, at, key))
    ensures MapOf(InsertAt(keys, at, key), InsertAt(vals, at, v)) == MapOf(keys, vals)[key := v]
  {
    var k2, v2 := InsertAt(keys, at, key), InsertAt(vals, at, v);
    DistinctInsert(keys, at, key);
    InsertAtMembers(keys, at, key);
    MapOfKeys(keys, vals);
    MapOfKeys(k2, v2);
    var m2, m := MapOf(k2, v2), MapOf(keys, vals)[key := v];
    assert m2.Keys == m.Keys;
    forall x | x in m
      ensures m2[x] == m[x]
    {
      if x == key {
        MapOfAt(k2, v2, at);
      } else {
        var i :| 0 <= i < |keys| && keys[i] == x;
        var i2 := if i < at then i else i + 1;
        assert k2[i2] == keys[i] && v2[i2] == vals[i];
        MapOfAt(k2, v2, i2);
        MapOfAt(keys, vals, i);
      }
    }
    MapExt(m2, m);
  }

  /** Entry k of `keys`/`vals` is the entry for `key`: the one it already
      had in `keys0`/`vals0`, nothing else changed, or else a new entry
      holding NULL inserted at k. */
  ghost predicate Placed(keys0: seq<seq<char>>, vals0: seq<Object>, keys: seq<seq<char>>, vals: seq<Object>, k: int, key: seq<char>) {
    |keys0| == |vals0| &&
    if key in keys0 then 0 <= k < |keys0| && keys0[k] == key && keys == keys0 && vals == vals0
    else 0 <= k <= |keys0| && keys == InsertAt(keys0, k, key) && vals == InsertAt(vals0, k, Null)
  }

  /** Giving `key` the value `v` by overwriting the entry placed for it:
      the dictionary maps `key` to `v` and is otherwise unchanged. */
  lemma MapOfPut(keys0: seq<seq<char>>, vals0: seq<Object>, keys: seq<seq<char>>, vals: seq<Object>, k: nat, key: seq<char>, v: Object)
    requires Distinct(keys0) && Placed(keys0, vals0, keys, vals, k, key)
    ensures key in MapOf(keys0, vals0) <==> key in keys0
    ensures Distinct(keys) && k < |keys| == |vals| && keys[k] == key
    ensures MapOf(keys, vals[k := v]) == MapOf(keys0, vals0)[key := v]
  {
    MapOfKeys(keys0, vals0);
    if key in keys0 {
      MapOfUpdate(keys0, vals0, k, v);
    } else {
      MapOfInsert(keys0, vals0, k, key, Null);
      assert keys[k] == key;
      MapOfUpdate(keys, vals, k, v);
      MapUpdateTwice(MapOf(keys0, vals0), key, Null, v);
    }
  }

  /** Maps with the same keys and the same value at each key are equal. */
  lemma MapExt<K, V>(a: map<K, V>, b: map<K, V>)
    requires a.Keys == b.Keys && forall x :: x in a ==> a[x] == b[x]
    ensures a == b
  {
  }

  /** A new value at entry k is the dictionary updated at key k. */
  lemma MapOfUpdate(keys: seq<seq<char>>, vals: seq<Object>, k: nat, v: Object)
    requires |keys| == |vals| && Distinct(keys) && k < |keys|
    ensures MapOf(keys, vals[k := v]) == MapOf(keys, vals)[keys[k] := v]
  {
    MapOfKeys(keys, vals);
    MapOfKeys(keys, vals[k := v]);
    var m2, m := MapOf(keys, vals[k := v]), MapOf(keys, vals)[keys[k] := v];
    forall x | x in m
      ensures m2[x] == m[x]
    {
      var i :| 0 <= i < |keys| && keys[i] == x;
      MapOfAt(keys, vals[k := v], i);
      if i != k {
        MapOfAt(keys, vals, i);
      }
    }
    MapExt(m2, m);
  }

  /** A second update of the same key overrides the first. */
  lemma MapUpdateTwice<K, V>(m: map<K, V>, k: K, a: V, b: V)
    ensures m[k := a][k := b] == m[k := b]
  {
    MapExt(m[k := a][k := b], m[k := b]);
  }

  /** `bucket_t`: one entry of the global list. */
  class Bucket {
    const name: WString
    var value: Object
    var next: Bucket?

    constructor (name: WString, next: Bucket?)
      ensures this.name == name && this.next == next && value == Null
    {
      this.name := name;
      this.next := next;
      value := Null;
    }
  }

  /** What a scan of the global list needs of each entry: its successor,
      a valid name with the right contents and its hash cached, and that
      hash's bucket. */
  ghost predicate Chain(list: seq<Bucket>, keys: seq<seq<char>>, slots: seq<int>, n: nat)
    reads list, set i | 0 <= i < |list| :: list[i].name, set i | 0 <= i < |list| :: list[i].name.data
  {
    |keys| == |list| && |slots| == |list| && n > 0 &&
    forall i {:trigger list[i].name} :: 0 <= i < |list| ==>
      list[i].next == (if i + 1 < |list| then list[i + 1] else null) &&
      list[i].name.Valid() && list[i].name.hash != 0 && list[i].name.Text() == keys[i] &&
      list[i].name.hash % n == slots[i]
  }

  /** The loop of getBucket: it walks the run [h, e) of bucket s from its
      first entry, stops at the entry whose name equals `name`, and gives
      up as soon as the next entry hashes to another bucket. */
  method ScanRun(name: WString, first: Bucket, s: nat, n: nat,
                 ghost list: seq<Bucket>, ghost keys: seq<seq<char>>, ghost slots: seq<int>, ghost h: int, ghost e: int)
    returns (b: Bucket?, ghost k: int)
    requires name.Valid() && name.hash != 0 && Chain(list, keys, slots, n)
    requires 0 <= h < e <= |list| && first == list[h]
    requires forall j :: h <= j < e ==> slots[j] == s
    requires e < |list| ==> slots[e] != s
    ensures b == null <==> name.Text() !in keys[h..e]
    ensures b != null ==> h <= k < e && b == list[k] && keys[k] == name.Text()
  {
    ghost var key := name.Text();
    b, k := first, h;
    while b != null
      invariant h <= k <= e
      invariant b != null ==> k < e && b == list[k]
      invariant b == null ==> k == e
      invariant forall j :: h <= j < k ==> keys[j] != key
      decreases e - k
    {
      var found := WStrings.CompareHashed(name, b.name);
      if found {
        return;
      }
      b := b.next;
      k := k + 1;
      if b != null {
        var hb := b.name.CachedHash();
        if hb % n != s {
          b := null;
        }
      }
    }
    assert forall j :: 0 <= j < e - h ==> keys[h..e][j] == keys[h + j];
  }

  // ---------------------------------------------------------------------
  // The parts of the table invariant, each over explicit sequences so
  // that it only depends on the fields it reads.

  /** The ghost shape of a table: the global list from `head`; the
      contents, bucket number and value of each entry; the bounds of each
      bucket's run; the stored names and their character buffers. */
  datatype Shape = Shape(list: seq<Bucket>, keys: seq<seq<char>>, slots: seq<int>, vals: seq<Object>,
                         heads: seq<int>, ends: seq<int>, names: set<WString>, nameData: set<array<char>>)

  /** The entries' `next` fields chain the list, and the last one is null. */
  ghost predicate Chained(list: seq<Bucket>)
    reads list`next
  {
    forall i {:trigger list[i].next} :: 0 <= i < |list| ==>
      list[i].next == if i + 1 < |list| then list[i + 1] else null
  }

  /** Each entry's name is a well-formed string whose contents are the
      entry's key and whose hash is cached; every stored name has a hash. */
  ghost predicate Named(list: seq<Bucket>, keys: seq<seq<char>>, names: set<WString>, nameData: set<array<char>>)
    reads names`length, names`hash, nameData
  {
    |keys| == |list| &&
    (forall w :: w in names ==> w.hash != 0) &&
    forall i :: 0 <= i < |list| ==>
      list[i].name in names && list[i].name.data in nameData &&
      list[i].name.WellFormed() && list[i].name.Text() == keys[i] && list[i].name.hash == NonZeroHash(keys[i])
  }

  /** Each entry holds its value. */
  ghost predicate Valued(list: seq<Bucket>, vals: seq<Object>)
    reads list`value
  {
    |vals| == |list| && forall i :: 0 <= i < |list| ==> list[i].value == vals[i]
  }

  /** Every stored name holds the reference its entry took. */
  ghost predicate Owned(names: set<WString>)
    reads names`refcount
  {
    forall w :: w in names ==> w.refcount >= 1
  }

  /** Each entry's bucket number is its key's bucket. */
  ghost predicate Slotted(keys: seq<seq<char>>, slots: seq<int>, n: nat) {
    |slots| == |keys| && n > 0 &&
    forall j {:trigger slots[j]} :: 0 <= j < |slots| ==> slots[j] == SlotOf(keys[j], n)
  }

  /** `bs[s]` is the first entry of bucket s's run, null for an empty one. */
  ghost predicate Heads(bs: seq<Bucket?>, list: seq<Bucket>, heads: seq<int>) {
    |bs| == |heads| &&
    forall s :: 0 <= s < |bs| ==>
      (heads[s] == -1 <==> bs[s] == null) && (0 <= heads[s] < |list| ==> bs[s] == list[heads[s]])
  }

  /** The bucket array `bs` indexes the list: every entry sits in its key's
      bucket, the buckets are runs, and `bs[s]` is the first entry of run
      s.  A table without buckets has no entries. */
  ghost predicate Indexes(bs: seq<Bucket?>, st: Shape, n: nat) {
    |bs| == n && |st.heads| == n && |st.keys| == |st.list| &&
    (n == 0 ==> st.list == []) &&
    (n > 0 ==> Slotted(st.keys, st.slots, n) && Runs(st.slots, st.heads, st.ends, n)) &&
    Heads(bs, st.list, st.heads)
  }

  /** The invariant of a table whose list starts at `head` and whose
      bucket array is `buckets`, `n` long, with abstract state `st`. */
  ghost predicate Invariant(head: Bucket?, buckets: array<Bucket?>, n: nat, st: Shape)
    reads buckets, st.list`next, st.list`value, st.names`length, st.names`hash, st.names`refcount, st.nameData
  {
    (head == if |st.list| == 0 then null else st.list[0]) &&
    Chained(st.list) && Named(st.list, st.keys, st.names, st.nameData) && Distinct(st.keys) &&
    Valued(st.list, st.vals) && Owned(st.names) &&
    buckets.Length == n && Indexes(buckets[..], st, n)
  }

  /** A new first entry whose `next` is the old first entry keeps the list
      chained. */
  lemma ChainedPrepend(list: seq<Bucket>, b: Bucket)
    requires Chained(list) && b.next == (if |list| == 0 then null else list[0])
    ensures Chained(InsertAt(list, 0, b))
  {
    var l2 := InsertAt(list, 0, b);
    forall i | 0 <= i < |l2|
      ensures l2[i].next == if i + 1 < |l2| then l2[i + 1] else null
    {
      if i + 1 < |l2| {
        assert l2[i + 1] == list[i];
      }
      if i > 0 {
        assert l2[i] == list[i - 1];
        assert list[i - 1].next == if i < |list| then list[i] else null;
      } else {
        assert l2[0] == b;
      }
    }
  }

  /** Entry p pointing at a new entry that points at p's old successor
      keeps the list chained. */
  lemma ChainedInsertAfter(list: seq<Bucket>, p: nat, b: Bucket)
    requires p < |list|
    requires forall i :: 0 <= i < |list| && i != p ==> list[i].next == if i + 1 < |list| then list[i + 1] else null
    requires list[p].next == b && b.next == (if p + 1 < |list| then list[p + 1] else null)
    ensures Chained(InsertAt(list, p + 1, b))
  {
    var l2 := InsertAt(list, p + 1, b);
    forall i | 0 <= i < |l2|
      ensures l2[i].next == if i + 1 < |l2| then l2[i + 1] else null
    {
      if i < p {
        assert l2[i] == list[i] && l2[i + 1] == list[i + 1];
      } else if i == p {
        assert l2[i] == list[p] && l2[i + 1] == b;
      } else if i == p + 1 {
        assert l2[i] == b;
        if i + 1 < |l2| {
          assert l2[i + 1] == list[p + 1];
        }
      } else {
        assert l2[i] == list[i - 1] && i - 1 != p;
        assert list[i - 1].next == if i < |list| then list[i] else null;
        if i + 1 < |l2| {
          assert l2[i + 1] == list[i];
        }
      }
    }
    assert Chained(l2);
  }

  /** A new entry whose name is a well-formed string with contents `key`
      and its hash cached keeps the entries named. */
  lemma NamedInsert(list: seq<Bucket>, keys: seq<seq<char>>, names: set<WString>, nameData: set<array<char>>,
                    at: nat, b: Bucket, key: seq<char>)
    requires Named(list, keys, names, nameData) && at <= |list|
    requires b.name.WellFormed() && b.name.Text() == key && b.name.hash == NonZeroHash(key)
    ensures Named(InsertAt(list, at, b), InsertAt(keys, at, key), names + {b.name}, nameData + {b.name.data})
  {
    var l2, k2 := InsertAt(list, at, b), InsertAt(keys, at, key);
    forall i | 0 <= i < |l2|
      ensures l2[i].name.WellFormed() && l2[i].name.Text() == k2[i] && l2[i].name.hash == NonZeroHash(k2[i])
      ensures l2[i].name in names + {b.name} && l2[i].name.data in nameData + {b.name.data}
    {
      if i < at {
        assert l2[i] == list[i] && k2[i] == keys[i];
      } else if i > at {
        assert l2[i] == list[i - 1] && k2[i] == keys[i - 1];
      }
    }
  }

  /** A new entry holding `v` keeps the entries valued. */
  lemma ValuedInsert(list: seq<Bucket>, vals: seq<Object>, at: nat, b: Bucket, v: Object)
    requires Valued(list, vals) && at <= |list| && b.value == v
    ensures Valued(InsertAt(list, at, b), InsertAt(vals, at, v))
  {
    var l2, v2 := InsertAt(list, at, b), InsertAt(vals, at, v);
    forall i | 0 <= i < |l2|
      ensures l2[i].value == v2[i]
    {
      if i < at {
        assert l2[i] == list[i] && v2[i] == vals[i];
      } else if i > at {
        assert l2[i] == list[i - 1] && v2[i] == vals[i - 1];
      }
    }
  }

  /** A new entry with its key's bucket number keeps the entries slotted. */
  lemma SlottedInsert(keys: seq<seq<char>>, slots: seq<int>, n: nat, at: nat, key: seq<char>)
    requires Slotted(keys, slots, n) && at <= |keys|
    ensures Slotted(InsertAt(keys, at, key), InsertAt(slots, at, SlotOf(key, n)), n)
  {
    var k2, s2 := InsertAt(keys, at, key), InsertAt(slots, at, SlotOf(key, n));
    forall j | 0 <= j < |s2|
      ensures s2[j] == SlotOf(k2[j], n)
    {
      if j < at {
        assert s2[j] == slots[j] && k2[j] == keys[j];
      } else if j > at {
        assert s2[j] == slots[j - 1] && k2[j] == keys[j - 1];
      }
    }
  }

  /** The empty bucket s pointing at a new first entry of the list. */
  lemma HeadsPrepend(bs: seq<Bucket?>, list: seq<Bucket>, heads: seq<int>, s: nat, b: Bucket)
    requires Heads(bs, list, heads) && s < |bs| && bs[s] == null
    requires forall t :: 0 <= t < |heads| ==> -1 <= heads[t] < |list|
    ensures Heads(bs[s := b], InsertAt(list, 0, b), Prepended(heads, s, 0))
  {
    var l2, h2 := InsertAt(list, 0, b), Prepended(heads, s, 0);
    forall t | 0 <= t < |bs|
      ensures (h2[t] == -1 <==> bs[s := b][t] == null) && (0 <= h2[t] < |l2| ==> bs[s := b][t] == l2[h2[t]])
    {
      if t != s && heads[t] >= 0 {
        assert l2[heads[t] + 1] == list[heads[t]];
      }
    }
  }

  /** A new entry after list index p leaves every bucket's first entry in
      place. */
  lemma HeadsInsertAfter(bs: seq<Bucket?>, list: seq<Bucket>, heads: seq<int>, p: nat, b: Bucket)
    requires Heads(bs, list, heads) && p < |list|
    requires forall t :: 0 <= t < |heads| ==> -1 <= heads[t] < |list|
    ensures Heads(bs, InsertAt(list, p + 1, b), Shifted(heads, p))
  {
    var l2, h2 := InsertAt(list, p + 1, b), Shifted(heads, p);
    forall t | 0 <= t < |bs| && 0 <= h2[t] < |l2|
      ensures bs[t] == l2[h2[t]]
    {
      if heads[t] > p {
        assert l2[heads[t] + 1] == list[heads[t]];
      } else {
        assert l2[heads[t]] == list[heads[t]];
      }
    }
  }

  /** Entries with distinct keys are distinct objects with distinct names. */
  lemma EntriesDistinct(list: seq<Bucket>, keys: seq<seq<char>>, names: set<WString>, nameData: set<array<char>>, i: nat, j: nat)
    requires Named(list, keys, names, nameData) && Distinct(keys) && i < |list| && j < |list| && i != j
    ensures list[i] != list[j] && list[i].name != list[j].name
  {
    assert keys[i] != keys[j] by {
      if i < j {
        assert keys[i] != keys[j];
      } else {
        assert keys[j] != keys[i];
      }
    }
  }
}
