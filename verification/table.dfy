/** The chained hash table of src/table.c.  A fixed array of bucket heads
    indexes a single global singly-linked list that starts at `head`; the
    entries of each bucket form a contiguous run of that list, and
    `buckets[h]` points at the first entry of run h. */
module Tables {
  import opened Djb2
  import opened WStrings
  import opened Objects
  import opened Options
  import opened TableShape

  /** The value `_winter_tableInsert` stores: the given one, or NULL. */
  function StoredValue(value: Option<Object>): (v: Object)
    ensures value.Some? ==> v == value.value
    ensures value.None? ==> v == Null
  {
    if value.Some? then value.value else Null
  }

  /** A new entry `b` with contents `key` for bucket `s`, to become entry
      `at` of the global list of a table whose shape was `st0` and whose
      bucket array held `bs`. */
  datatype Link = Link(st0: Shape, bs: seq<Bucket?>, s: nat, at: nat, b: Bucket, key: seq<char>)

  /** The shape after the link `l`: the new entry becomes list entry
      `l.at`, and the bounds of the runs move past it; `first` says that
      it starts the run of an empty bucket at the front of the list. */
  ghost function Linked(l: Link, first: bool): Shape
    requires l.at <= |l.st0.list| && l.at <= |l.st0.keys| && l.at <= |l.st0.slots| && l.at <= |l.st0.vals|
  {
    var st0 := l.st0;
    Shape(InsertAt(st0.list, l.at, l.b), InsertAt(st0.keys, l.at, l.key), InsertAt(st0.slots, l.at, l.s),
          InsertAt(st0.vals, l.at, Null),
          if first then Prepended(st0.heads, l.s, 0) else Shifted(st0.heads, l.at - 1),
          if first then Prepended(st0.ends, l.s, 1) else Shifted(st0.ends, l.at - 1),
          st0.names + {l.b.name}, st0.nameData + {l.b.name.data})
  }

  /** Entry `k` of a table whose shape was `st0` getting the value `v`. */
  datatype Put = Put(st0: Shape, k: nat, v: Object)

  /** Lines 48-51 of `_winter_tableInsert`: a new entry holding NULL whose
      name is `name`, on which it takes a reference. */
  method NewBucket(name: WString, next: Bucket?) returns (b: Bucket)
    modifies name`refcount
    ensures fresh(b) && b.name == name && b.next == next && b.value == Null
    ensures name.refcount == old(name.refcount) + 1
  {
    name.refcount := name.refcount + 1;
    b := new Bucket(name, next);
  }

  /** Lines 48-51 and 62-63 of `_winter_tableInsert`: a new entry for
      `name` linked in right after `first`.  Of the entries `list` and the
      names `names`, only `first`'s successor and `name`'s reference count
      change. */
  method SpliceAfter(first: Bucket, name: WString, ghost list: seq<Bucket>, ghost names: set<WString>,
                     ghost nameData: set<array<char>>) returns (b: Bucket)
    modifies first`next, name`refcount
    ensures fresh(b) && b.name == name && b.value == Null && b.next == old(first.next) && first.next == b
    ensures name.refcount == old(name.refcount) + 1
    ensures forall x :: x in list && x != first ==> x.next == old(x.next)
    ensures unchanged(list`value) && unchanged(names`length) && unchanged(names`hash)
    ensures unchanged((names - {name})`refcount) && unchanged(nameData)
  {
    b := NewBucket(name, first.next);
    first.next := b;
  }

  /** `table_t`. */
  class Table {
    var refcount: nat
    const buckets: array<Bucket?>
    var head: Bucket?
    const numBuckets: nat
    var size: nat

    /** The abstract state. */
    ghost var st: Shape

    /** `buckets` points at the first entry of each bucket's run. */
    ghost predicate Indexed()
      reads this`st, buckets
    {
      buckets.Length == numBuckets && Indexes(buckets[..], st, numBuckets)
    }

    ghost predicate Valid()
      reads this`head, this`st, buckets, st.list`next, st.list`value, st.names`length, st.names`hash, st.names`refcount, st.nameData
    {
      Invariant(head, buckets, numBuckets, st)
    }

    /** The table as a dictionary from name contents to values. */
    ghost function Contents(): map<seq<char>, Object>
      reads this`st
      requires |st.keys| == |st.vals|
    {
      MapOf(st.keys, st.vals)
    }

    /** `_winter_tableAlloc`: `capacity` empty buckets, no entries. */
    constructor Alloc(capacity: nat)
      ensures Valid() && fresh(buckets)
      ensures numBuckets == capacity && size == 0 && refcount == 0 && head == null
      ensures forall s :: 0 <= s < capacity ==> buckets[s] == null
      ensures st.list == [] && Contents() == map[]
    {
      refcount := 0;
      buckets := new Bucket?[capacity](_ => null);
      head := null;
      numBuckets := capacity;
      size := 0;
      st := Shape([], [], [], [], seq(capacity, _ => -1), seq(capacity, _ => -1), {}, {});
      new;
      assert Runs(st.slots, st.heads, st.ends, numBuckets);
      assert Heads(buckets[..], st.list, st.heads);
    }

    /** `getBucket`: the entry whose name equals `name`, or null.  Only
        `name` can have its hash computed here: every stored name has its
        hash cached already. */
    method GetBucket(name: WString) returns (b: Bucket?, ghost k: int)
      requires Valid() && numBuckets > 0 && name.Valid()
      modifies name`hash
      ensures Valid() && name.Valid() && name.hash == NonZeroHash(name.Text())
      ensures b == null <==> name.Text() !in st.keys
      ensures b != null ==> 0 <= k < |st.list| && b == st.list[k] && st.keys[k] == name.Text()
    {
      var h := name.Hash();
      b, k := ScanBucket(name, h % numBuckets);
    }

    /** getBucket after hashing: bucket s is empty, or its run is scanned
        from the entry `buckets[s]` points at. */
    method ScanBucket(name: WString, s: nat) returns (b: Bucket?, ghost k: int)
      requires Valid() && numBuckets > 0 && name.Valid() && name.hash != 0
      requires s == SlotOf(name.Text(), numBuckets)
      ensures b == null <==> name.Text() !in st.keys
      ensures b != null ==> 0 <= k < |st.list| && b == st.list[k] && st.keys[k] == name.Text()
    {
      assert buckets[s] == buckets[..][s];
      b := buckets[s];
      if b == null {
        k := -1;
        NotInRun(s, name.Text());
        return;
      }
      Scannable();
      b, k := ScanRun(name, b, s, numBuckets, st.list, st.keys, st.slots, st.heads[s], st.ends[s]);
      if b == null {
        NotInRun(s, name.Text());
      }
    }

    /** The facts the scan of one run relies on. */
    lemma Scannable()
      requires Valid() && numBuckets > 0
      ensures Chain(st.list, st.keys, st.slots, numBuckets)
    {
    }

    /** A key of bucket s can only sit in the bucket's run. */
    lemma NotInRun(s: nat, key: seq<char>)
      requires Indexed() && numBuckets > 0 && s == SlotOf(key, numBuckets)
      requires st.heads[s] == -1 || key !in st.keys[st.heads[s]..st.ends[s]]
      ensures key !in st.keys
    {
      forall j | 0 <= j < |st.keys|
        ensures st.keys[j] != key
      {
        if !(st.heads[s] <= j < st.ends[s]) {
          assert st.slots[j] != s;
        } else {
          assert st.keys[j] == st.keys[st.heads[s]..st.ends[s]][j - st.heads[s]];
        }
      }
    }

    /** `_winter_tableGetObject`: the entry holding the value stored under
        `name`, or null when there is none. */
    method GetObject(name: WString) returns (slot: Bucket?)
      requires Valid() && numBuckets > 0 && name.Valid()
      modifies name`hash
      ensures Valid() && name.Valid() && name.Text() == old(name.Text())
      ensures slot == null <==> name.Text() !in Contents()
      ensures slot != null ==> slot.value == Contents()[name.Text()] && slot.name.WellFormed() && slot.name.Text() == name.Text()
    {
      ghost var k;
      slot, k := GetBucket(name);
      MapOfKeys(st.keys, st.vals);
      if slot != null {
        MapOfAt(st.keys, st.vals, k);
      }
    }

    /** `_winter_tableInsert`: finds or creates the entry for `name` and
        stores `value` in it, NULL when no value is given.  `size` grows on
        every call, an update included. */
    method Insert(name: WString, value: Option<Object>) returns (slot: Bucket)
      requires Valid() && numBuckets > 0 && name.Valid()
      modifies this`head, this`st, this`size, buckets, st.list, name`hash, name`refcount
      ensures Valid() && name.Valid() && name.Text() == old(name.Text())
      ensures Contents() == old(Contents())[name.Text() := StoredValue(value)]
      ensures size == old(size) + 1
      ensures slot.name.WellFormed() && slot.name.Text() == name.Text() && slot.value == StoredValue(value)
      ensures name.refcount == old(name.refcount) + (if name.Text() in old(Contents()) then 0 else 1)
    {
      ghost var k: int;
      slot, k := Entry(name, StoredValue(value));
      Store(slot, k, StoredValue(value), name);
    }

    /** Lines 46-66 of `_winter_tableInsert`: the entry for `name`, found
        by getBucket or else created holding NULL.  A new entry takes a
        reference to `name` itself and is linked in as the first entry of
        an empty bucket, or right after the bucket's first entry. */
    method Entry(name: WString, ghost v: Object) returns (b: Bucket, ghost k: int)
      requires Valid() && numBuckets > 0 && name.Valid()
      modifies this`head, this`st, buckets, st.list`next, name`hash, name`refcount
      ensures Valid() && name.Valid() && name.Text() == old(name.Text()) && size == old(size)
      ensures 0 <= k < |st.list| && b == st.list[k] && (b in old(st.list) || fresh(b))
      ensures b.name.WellFormed() && b.name.Text() == name.Text()
      ensures MapOf(st.keys, st.vals[k := v]) == old(Contents())[name.Text() := v]
      ensures name.refcount == old(name.refcount) + (if name.Text() in old(Contents()) then 0 else 1)
    {
      ghost var keys, vals := st.keys, st.vals;
      var found: Bucket?;
      found, k := GetBucket(name);
      if found != null {
        b := found;
      } else {
        b, k := NewEntry(name);
      }
      MapOfPut(keys, vals, st.keys, st.vals, k, name.Text(), v);
    }

    /** Lines 47-65 of `_winter_tableInsert`: a new entry for `name`, which
        is not in the table, holding NULL, in the bucket of its cached hash. */
    method NewEntry(name: WString) returns (b: Bucket, ghost k: int)
      requires Valid() && numBuckets > 0 && name.Valid() && name.hash != 0
      requires name.Text() !in st.keys
      modifies this`head, this`st, buckets, st.list`next, name`refcount
      ensures Valid() && name.Valid() && name.Text() == old(name.Text()) && size == old(size)
      ensures name.refcount == old(name.refcount) + 1
      ensures 0 <= k < |st.list| && b == st.list[k] && b.name == name && fresh(b)
      ensures Placed(old(st.keys), old(st.vals), st.keys, st.vals, k, name.Text())
    {
      var h := name.CachedHash();
      var s := h % numBuckets;
      if buckets[s] == null {
        b, k := LinkFirst(name, s);
      } else {
        b, k := LinkAfter(name, s);
      }
    }

    /** Linking in a new entry that holds NULL and a reference to a
        well-formed name with its hash cached keeps the entries named,
        valued and owned, as long as the old entries' values and the old
        names are left alone (a name may gain a reference). */
    twostate lemma EntriesKept(new l: Link)
      requires old(st) == l.st0 && old(Named(st.list, st.keys, st.names, st.nameData))
      requires old(Valued(st.list, st.vals)) && old(Owned(st.names)) && l.at <= |l.st0.list|
      requires unchanged(l.st0.list`value) && unchanged(l.st0.names`length) && unchanged(l.st0.names`hash)
      requires unchanged((l.st0.names - {l.b.name})`refcount) && unchanged(l.st0.nameData)
      requires l.b.name.WellFormed() && l.b.name.Text() == l.key && l.b.name.hash == NonZeroHash(l.key)
      requires l.b.name.refcount >= 1 && l.b.value == Null
      ensures Named(InsertAt(l.st0.list, l.at, l.b), InsertAt(l.st0.keys, l.at, l.key),
                    l.st0.names + {l.b.name}, l.st0.nameData + {l.b.name.data})
      ensures Valued(InsertAt(l.st0.list, l.at, l.b), InsertAt(l.st0.vals, l.at, Null))
      ensures Owned(l.st0.names + {l.b.name})
    {
      assert Named(l.st0.list, l.st0.keys, l.st0.names, l.st0.nameData) && Valued(l.st0.list, l.st0.vals);
      NamedInsert(l.st0.list, l.st0.keys, l.st0.names, l.st0.nameData, l.at, l.b, l.key);
      ValuedInsert(l.st0.list, l.st0.vals, l.at, l.b, Null);
    }

    /** Entry `at - 1` pointing at the new entry, which points at the old
        successor, keeps the list chained when no other entry changed its
        `next`. */
    twostate lemma ChainedAfter(new l: Link)
      requires old(st) == l.st0 && old(Chained(st.list)) && old(Named(st.list, st.keys, st.names, st.nameData))
      requires Distinct(l.st0.keys) && 0 < l.at <= |l.st0.list|
      requires unchanged(l.st0.names`length) && unchanged(l.st0.names`hash) && unchanged(l.st0.nameData)
      requires l.st0.list[l.at - 1].next == l.b && l.b.next == if l.at < |l.st0.list| then l.st0.list[l.at] else null
      requires forall x :: x in l.st0.list && x != l.st0.list[l.at - 1] ==> x.next == old(x.next)
      ensures Chained(InsertAt(l.st0.list, l.at, l.b))
    {
      var list, p := l.st0.list, l.at - 1;
      assert Named(l.st0.list, l.st0.keys, l.st0.names, l.st0.nameData);
      forall i | 0 <= i < |list| && i != p
        ensures list[i].next == if i + 1 < |list| then list[i + 1] else null
      {
        EntriesDistinct(list, l.st0.keys, l.st0.names, l.st0.nameData, i, p);
        assert old(list[i].next) == if i + 1 < |list| then list[i + 1] else null;
      }
      ChainedInsertAfter(list, p, l.b);
    }

    /** Lines 49-60 of `_winter_tableInsert`: the new entry of the empty
        bucket s goes at the front of the global list. */
    method LinkFirst(name: WString, s: nat) returns (b: Bucket, ghost k: int)
      requires Valid() && numBuckets > 0 && name.Valid() && name.hash != 0
      requires s == SlotOf(name.Text(), numBuckets) && buckets[s] == null
      requires name.Text() !in st.keys
      modifies this`head, this`st, buckets, name`refcount
      ensures Valid() && name.Valid() && name.Text() == old(name.Text()) && size == old(size)
      ensures name.refcount == old(name.refcount) + 1
      ensures 0 <= k < |st.list| && b == st.list[k] && b.name == name && fresh(b)
      ensures Placed(old(st.keys), old(st.vals), st.keys, st.vals, k, name.Text())
    {
      ghost var key := name.Text();
      ghost var st0, bs := st, buckets[..];
      b := PushFront(name, s, st0.list, st0.names, st0.nameData);
      k := 0;
      ghost var l := Link(st0, bs, s, 0, b, key);
      st := Linked(l, true);
      FirstLinked(l);
    }

    /** Lines 48-51 and 57-58 of `_winter_tableInsert`: a new entry for
        `name` becomes the head of the list and the first entry of bucket
        s.  Of the entries `list` and the names `names`, only `name`'s
        reference count changes. */
    method PushFront(name: WString, s: nat, ghost list: seq<Bucket>, ghost names: set<WString>,
                     ghost nameData: set<array<char>>) returns (b: Bucket)
      requires s < buckets.Length
      modifies this`head, buckets, name`refcount
      ensures fresh(b) && b.name == name && b.value == Null && b.next == old(head) && head == b
      ensures buckets[..] == old(buckets[..])[s := b]
      ensures name.refcount == old(name.refcount) + 1
      ensures unchanged(list) && unchanged(names`length) && unchanged(names`hash)
      ensures unchanged((names - {name})`refcount) && unchanged(nameData)
    {
      b := NewBucket(name, head);
      buckets[s] := b;
      head := b;
    }

    /** The table invariant after LinkFirst: bucket s's run is the new
        first entry, every other run moves one place down the list. */
    twostate lemma FirstLinked(new l: Link)
      requires old(Valid()) && old(st) == l.st0 && numBuckets > 0 && l.s < numBuckets && l.at == 0
      requires l.key !in l.st0.keys && l.s == SlotOf(l.key, numBuckets) && l.s < |l.bs| && l.bs[l.s] == null
      requires Heads(l.bs, l.st0.list, l.st0.heads) && buckets[..] == l.bs[l.s := l.b]
      requires head == l.b && l.b.next == old(head) && l.b.value == Null
      requires l.b.name.WellFormed() && l.b.name.Text() == l.key && l.b.name.hash == NonZeroHash(l.key) && l.b.name.refcount >= 1
      requires unchanged(l.st0.list) && unchanged(l.st0.names`length) && unchanged(l.st0.names`hash)
      requires unchanged((l.st0.names - {l.b.name})`refcount) && unchanged(l.st0.nameData)
      requires st == Linked(l, true)
      ensures Valid() && 0 <= l.at < |st.list| && st.list[l.at] == l.b
      ensures Placed(l.st0.keys, l.st0.vals, st.keys, st.vals, l.at, l.key)
    {
      var st0, s, b, key := l.st0, l.s, l.b, l.key;
      assert Chained(st0.list);
      ChainedPrepend(st0.list, b);
      EntriesKept(l);
      SlottedInsert(st0.keys, st0.slots, numBuckets, 0, key);
      PrependKeepsRuns(st0.slots, st0.heads, st0.ends, numBuckets, s);
      HeadsPrepend(l.bs, st0.list, st0.heads, s, b);
      DistinctInsert(st0.keys, 0, key);
    }

    /** Lines 49-55 and 62-63 of `_winter_tableInsert`: the new entry of
        bucket s, whose first entry is `buckets[s]`, is linked in right
        after that entry. */
    method LinkAfter(name: WString, s: nat) returns (b: Bucket, ghost k: int)
      requires Valid() && numBuckets > 0 && name.Valid() && name.hash != 0
      requires s == SlotOf(name.Text(), numBuckets) && buckets[s] != null
      requires name.Text() !in st.keys
      modifies this`st, {buckets[s]}`next, name`refcount
      ensures Valid() && name.Valid() && name.Text() == old(name.Text()) && size == old(size)
      ensures name.refcount == old(name.refcount) + 1
      ensures 0 <= k < |st.list| && b == st.list[k] && b.name == name && fresh(b)
      ensures Placed(old(st.keys), old(st.vals), st.keys, st.vals, k, name.Text())
    {
      ghost var key := name.Text();
      ghost var st0, bs := st, buckets[..];
      ghost var p := st.heads[s];
      assert buckets[s] == bs[s];
      var first := buckets[s];
      b := SpliceAfter(first, name, st0.list, st0.names, st0.nameData);
      k := p + 1;
      ghost var l := Link(st0, bs, s, k, b, key);
      st := Linked(l, false);
      AfterLinked(l);
    }

    /** The table invariant after LinkAfter: the new entry joins bucket s's
        run right after its first entry. */
    twostate lemma AfterLinked(new l: Link)
      requires old(Valid()) && old(st) == l.st0 && numBuckets > 0 && l.s < numBuckets
      requires l.key !in l.st0.keys && l.s == SlotOf(l.key, numBuckets) && l.s < |l.bs| && l.bs[l.s] != null
      requires Heads(l.bs, l.st0.list, l.st0.heads) && buckets[..] == l.bs && head == old(head)
      requires 0 <= l.st0.heads[l.s] < |l.st0.list| && l.at == l.st0.heads[l.s] + 1
      requires l.st0.list[l.at - 1].next == l.b && l.b.value == Null
      requires l.b.next == if l.at < |l.st0.list| then l.st0.list[l.at] else null
      requires forall x :: x in l.st0.list && x != l.st0.list[l.at - 1] ==> x.next == old(x.next)
      requires l.b.name.WellFormed() && l.b.name.Text() == l.key && l.b.name.hash == NonZeroHash(l.key) && l.b.name.refcount >= 1
      requires unchanged(l.st0.list`value) && unchanged(l.st0.names`length) && unchanged(l.st0.names`hash)
      requires unchanged((l.st0.names - {l.b.name})`refcount) && unchanged(l.st0.nameData)
      requires st == Linked(l, false)
      ensures Valid() && 0 <= l.at < |st.list| && st.list[l.at] == l.b
      ensures Placed(l.st0.keys, l.st0.vals, st.keys, st.vals, l.at, l.key)
    {
      var st0, s, p, key := l.st0, l.s, l.at - 1, l.key;
      ChainedAfter(l);
      EntriesKept(l);
      SlottedInsert(st0.keys, st0.slots, numBuckets, p + 1, key);
      InsertAfterKeepsRuns(st0.slots, st0.heads, st0.ends, numBuckets, s, p);
      HeadsInsertAfter(l.bs, st0.list, st0.heads, p, l.b);
      DistinctInsert(st0.keys, p + 1, key);
    }

    /** Lines 67-72 of `_winter_tableInsert`: the value goes into entry k
        and the insertion is counted. */
    method Store(b: Bucket, ghost k: int, v: Object, ghost name: WString)
      requires Valid() && 0 <= k < |st.list| && b == st.list[k]
      modifies this`st, this`size, b`value
      ensures Valid() && st.vals == old(st.vals)[k := v] && b.value == v && size == old(size) + 1
      ensures st.keys == old(st.keys)
      ensures old(name.Valid()) ==> name.Valid() && name.Text() == old(name.Text())
      ensures old(b.name.WellFormed()) ==> b.name.WellFormed() && b.name.Text() == old(b.name.Text())
      ensures name.refcount == old(name.refcount)
    {
      ghost var st0 := st;
      b.value := v;
      size := size + 1;
      st := st.(vals := st.vals[k := v]);
      Stored(Put(st0, k, v));
    }

    /** The table invariant after Store: only entry k's value changed. */
    twostate lemma Stored(u: Put)
      requires old(Valid()) && old(st) == u.st0 && 0 <= u.k < |u.st0.list|
      requires st == u.st0.(vals := u.st0.vals[u.k := u.v]) && u.st0.list[u.k].value == u.v
      requires forall x :: x in u.st0.list && x != u.st0.list[u.k] ==> x.value == old(x.value)
      requires unchanged(u.st0.list`next) && unchanged(u.st0.names) && unchanged(u.st0.nameData)
      requires head == old(head) && unchanged(buckets)
      ensures Valid()
    {
      var list, k := u.st0.list, u.k;
      assert Named(list, u.st0.keys, u.st0.names, u.st0.nameData);
      forall i | 0 <= i < |list|
        ensures list[i].value == st.vals[i]
      {
        if i != k {
          EntriesDistinct(list, u.st0.keys, u.st0.names, u.st0.nameData, i, k);
          assert old(list[i].value) == u.st0.vals[i];
        }
      }
    }

    /** `_winter_tableFree`: walks the list from `head`, dropping the
        reference each entry holds on its name. */
    method Free()
      requires Valid()
      modifies this`head, st.names`refcount
      ensures head == null
      ensures forall i :: 0 <= i < |st.list| ==> st.list[i].name.refcount == old(st.list[i].name.refcount) - 1
    {
      ghost var list := st.list;
      forall j, j' | 0 <= j < |list| && 0 <= j' < |list| && j != j'
        ensures list[j].name != list[j'].name
      {
        EntriesDistinct(list, st.keys, st.names, st.nameData, j, j');
      }
      Release(list, st.names);
    }

    /** The loop of `_winter_tableFree` over `list`, the entries chained
        from `head`, whose names are distinct and each hold a reference. */
    method Release(ghost list: seq<Bucket>, ghost names: set<WString>)
      requires Chained(list) && head == (if |list| == 0 then null else list[0])
      requires forall j, j' :: 0 <= j < |list| && 0 <= j' < |list| && j != j' ==> list[j].name != list[j'].name
      requires forall j :: 0 <= j < |list| ==> list[j].name in names && list[j].name.refcount >= 1
      modifies this`head, names`refcount
      ensures head == null
      ensures forall j :: 0 <= j < |list| ==> list[j].name.refcount == old(list[j].name.refcount) - 1
    {
      ghost var i := 0;
      while head != null
        invariant 0 <= i <= |list| && head == if i < |list| then list[i] else null
        invariant forall j :: 0 <= j < |list| ==>
          list[j].name.refcount == old(list[j].name.refcount) - (if j < i then 1 else 0)
        decreases |list| - i
      {
        var temp := head;
        temp.name.refcount := temp.name.refcount - 1;
        head := temp.next;
        i := i + 1;
      }
    }
  }
}
