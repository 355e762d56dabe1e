/**
 The cache of shadowsocksr-native/src/cache.c on top of uthash: the application order of the table is the order of
 use, the element at its head is the one to evict.
 */
module LruCache {
  import opened UtHash

  datatype Stamp<D> = Stamp(data: D, ts: real)

  /** One entry as it can be seen from outside. */
  datatype Entry<K, D> = Entry(key: K, data: D, ts: real)

  ghost function KeysOf<K, D>(es: seq<Entry<K, D>>): seq<K> { seq(|es|, i requires 0 <= i < |es| => es[i].key) }

  /** `s` with the element at `k` gone and `x` as the most recent one. */
  ghost function Renewed<T>(s: seq<T>, k: nat, x: T): seq<T>
    requires k < |s|
  {
    Without(s, k) + [x]
  }

  /** Where the entry with this key is; the number of entries when there is none. */
  function IndexOf<K(==), D>(es: seq<Entry<K, D>>, key: K): (k: nat)
    ensures k <= |es| && forall i :: 0 <= i < k ==> es[i].key != key
    ensures k < |es| ==> es[k].key == key
  {
    if es == [] || es[0].key == key then 0 else 1 + IndexOf(es[1..], key)
  }

  /** The entries after a check for `key` that is followed by an insertion if the key was not there. */
  ghost function Used<K, D>(es: seq<Entry<K, D>>, key: K, data: D, now: real, capacity: nat): seq<Entry<K, D>> {
    var k := IndexOf(es, key);
    if k < |es| then Renewed(es, k, es[k].(ts := now)) else Trimmed(es + [Entry(key, data, now)], capacity)
  }

  predicate Stale<K, D>(e: Entry<K, D>, now: real, age: real) { now - e.ts > age }

  /** The entries that are at most `age` old. */
  function Kept<K, D>(es: seq<Entry<K, D>>, now: real, age: real): seq<Entry<K, D>> {
    if es == [] then []
    else Kept(es[..|es|-1], now, age) + if Stale(es[|es|-1], now, age) then [] else [es[|es|-1]]
  }

  /** The table holds the entries `es`, in this order and under distinct keys. */
  ghost predicate Holds<K, D>(order: seq<Handle<K, Stamp<D>>>, es: seq<Entry<K, D>>)
    reads order`value
  {
    |order| == |es| && DistinctKeys(order) &&
    forall i :: 0 <= i < |es| ==> es[i] == Entry(order[i].key, order[i].value.data, order[i].value.ts)
  }

  lemma HoldsPushed<K, D>(order: seq<Handle<K, Stamp<D>>>, es: seq<Entry<K, D>>, h: Handle<K, Stamp<D>>)
    requires Holds(order, es) && IndexOf(es, h.key) == |es|
    ensures forall x :: x in order ==> x.key != h.key
    ensures Holds(order + [h], es + [Entry(h.key, h.value.data, h.value.ts)])
  {
    forall i | 0 <= i < |order|
      ensures order[i].key != h.key
    {
      assert es[i].key == order[i].key;
    }
  }

  lemma HoldsDropped<K, D>(order: seq<Handle<K, Stamp<D>>>, es: seq<Entry<K, D>>, k: nat)
    requires Holds(order, es) && k < |order|
    ensures |order| == |es| && Holds(Without(order, k), Without(es, k))
    ensures order[k] !in Without(order, k) && forall x :: x in Without(order, k) ==> x in order
    ensures |Without(es, k)| == |es| - 1
    ensures IndexOf(Without(es, k), order[k].key) == |es| - 1
    ensures es[k] == Entry(order[k].key, order[k].value.data, order[k].value.ts)
  {
    var rest := Without(es, k);
    forall i | 0 <= i < |rest|
      ensures rest[i].key != order[k].key
    {
      assert rest[i].key == order[if i < k then i else i + 1].key;
    }
  }

  /** Without its head if it has reached the capacity. */
  function Trimmed<T>(s: seq<T>, capacity: nat): seq<T>
    requires s != []
  {
    if |s| >= capacity then s[1..] else s
  }

  class Cache<K(==), D> {
    const maxEntries: nat
    const entries: HashTable<K, Stamp<D>>
    /** The entries, least recently used first. */
    ghost var contents: seq<Entry<K, D>>

    ghost predicate Valid()
      reads this, entries, entries.order, entries.buckets
    {
      entries.Valid() && Holds(entries.order, contents)
    }

    ghost function Repr(): set<object>
      reads this, entries`order, entries`buckets
    {
      {this, entries, entries.buckets} + set h: Handle<K, Stamp<D>> | h in entries.order
    }

    /** `cache_create`. */
    constructor (capacity: nat, hash: K -> nat)
      ensures Valid() && contents == [] && maxEntries == capacity && fresh(Repr())
    {
      maxEntries := capacity;
      entries := new HashTable(hash);
      contents := [];
    }

    /** The element found under a key is the entry with this key. */
    lemma HeldKey(key: K, h: Handle<K, Stamp<D>>)
      requires Valid() && h in entries.order && h.key == key
      ensures IndexOf(contents, key) < |contents| == |entries.order| && entries.order[IndexOf(contents, key)] == h
    {
      var i := Position(entries.order, h);
      assert contents[i].key == key;
    }

    lemma NotHeld(key: K)
      requires Valid() && forall x :: x in entries.order ==> x.key != key
      ensures IndexOf(contents, key) == |contents|
    {
      forall i | 0 <= i < |contents|
        ensures contents[i].key != key
      {
        assert entries.order[i] in entries.order;
      }
    }

    /** `HASH_DELETE` of an element of the cache. */
    method Drop(h: Handle<K, Stamp<D>>) returns (ghost k: nat)
      requires Valid() && h in entries.order
      modifies this`contents, entries, entries.buckets, entries.order`next, entries.order`prev,
               entries.order`hhPrev, entries.order`hhNext
      ensures Valid() && entries.buckets == old(entries.buckets)
      ensures k < |old(contents)| && contents == Without(old(contents), k) && IndexOf(contents, h.key) == |contents|
      ensures old(contents)[k] == Entry(h.key, h.value.data, h.value.ts)
      ensures old(entries.order)[k] == h && entries.order == Without(old(entries.order), k)
      ensures h !in entries.order && forall x :: x in entries.order ==> x in old(entries.order)
    {
      ghost var was, es := entries.order, contents;
      hide HashTable.Valid, AppList, Holds, IndexOf, Without;
      k := entries.Delete(h);
      assert Holds(was, es);
      HoldsDropped(was, es, k);
      assert entries.Valid() && Holds(entries.order, Without(es, k));
      contents := Without(es, k);
      assert entries.Valid();
    }

    /** `HASH_ADD_KEYPTR` of a new element of the cache. */
    method Push(h: Handle<K, Stamp<D>>)
      requires Valid() && IndexOf(contents, h.key) == |contents| && h.hashv == entries.hash(h.key)
      modifies this`contents, entries, entries.buckets, entries.order`next, entries.order`hhPrev, entries.order`hhNext
      modifies h`next, h`prev, h`hhPrev, h`hhNext
      ensures Valid() && (entries.buckets == old(entries.buckets) || fresh(entries.buckets))
      ensures contents == old(contents) + [Entry(h.key, h.value.data, h.value.ts)]
      ensures entries.order == old(entries.order) + [h]
    {
      ghost var was, es := entries.order, contents;
      HoldsPushed(was, es, h);
      contents := es + [Entry(h.key, h.value.data, h.value.ts)];
      hide HashTable.Valid, AppList, Holds, IndexOf;
      entries.Add(h);
      assert Holds(was, es);
      HoldsPushed(was, es, h);
    }

    /** Takes an element out and puts it back as the most recent one, with a new time stamp. */
    method Touch(h: Handle<K, Stamp<D>>, now: real)
      requires Valid() && h in entries.order
      modifies Repr()
      ensures Valid() && fresh(Repr() - old(Repr()))
      ensures var k := IndexOf(old(contents), h.key);
              k < |old(contents)| && contents == Renewed(old(contents), k, old(contents)[k].(ts := now)) &&
              h.value.data == old(contents)[k].data
    {
      assert h.hashv == entries.hash(h.key);
      HeldKey(h.key, h);
      OnlyPlace(h);
      hide Valid, Without, IndexOf, Repr;
      ghost var k := Drop(h);
      assert h !in entries.order;
      h.value := h.value.(ts := now);
      assert Valid();
      Push(h);
    }

    lemma OnlyPlace(h: Handle<K, Stamp<D>>)
      requires Valid() && h in entries.order
      ensures forall i, j ::
                0 <= i < |entries.order| && 0 <= j < |entries.order| && entries.order[i] == entries.order[j] == h ==>
                  i == j
    {
    }

    /** `cache_key_exist`: an entry that is found becomes the most recent one. */
    method KeyExist(key: K, now: real) returns (found: bool)
      requires Valid()
      modifies Repr()
      ensures Valid() && fresh(Repr() - old(Repr()))
      ensures found <==> IndexOf(old(contents), key) < |old(contents)|
      ensures var k := IndexOf(old(contents), key);
              contents == if found then Renewed(old(contents), k, old(contents)[k].(ts := now)) else old(contents)
    {
      hide Holds, IndexOf;
      var h := entries.Find(key);
      if h == null {
        NotHeld(key);
        return false;
      }
      HeldKey(key, h);
      Touch(h, now);
      return true;
    }

    /** `cache_lookup`. */
    method Lookup(key: K, now: real) returns (found: bool, data: seq<D>)
      requires Valid()
      modifies Repr()
      ensures Valid() && fresh(Repr() - old(Repr()))
      ensures found <==> IndexOf(old(contents), key) < |old(contents)|
      ensures var k := IndexOf(old(contents), key);
              data == (if found then [old(contents)[k].data] else []) &&
              contents == if found then Renewed(old(contents), k, old(contents)[k].(ts := now)) else old(contents)
    {
      hide Holds, IndexOf;
      var h := entries.Find(key);
      if h == null {
        NotHeld(key);
        return false, [];
      }
      HeldKey(key, h);
      Touch(h, now);
      return true, [h.value.data];
    }

    /** `cache_remove`. */
    method Remove(key: K)
      requires Valid()
      modifies Repr()
      ensures Valid() && fresh(Repr() - old(Repr())) && IndexOf(contents, key) == |contents|
      ensures var k := IndexOf(old(contents), key);
              contents == if k < |old(contents)| then Without(old(contents), k) else old(contents)
    {
      hide Holds, IndexOf;
      var h := entries.Find(key);
      if h == null {
        NotHeld(key);
      } else {
        HeldKey(key, h);
        OnlyPlace(h);
        ghost var k := Drop(h);
      }
    }

    /** `cache_insert` of a key that is not there: when the table is full its head is evicted. */
    method Insert(key: K, data: D, now: real)
      requires Valid() && IndexOf(contents, key) == |contents|
      modifies Repr()
      ensures Valid() && fresh(Repr() - old(Repr()))
      ensures contents == Trimmed(old(contents) + [Entry(key, data, now)], maxEntries)
    {
      var h := new Handle(key, entries.hash(key), Stamp(data, now));
      Push(h);
      CountIsLength();
      if entries.numItems >= maxEntries {
        var first := entries.head;
        FirstIsHead();
        ghost var k := Drop(first);
        assert k == 0;
      }
    }

    lemma CountIsLength()
      requires Valid()
      ensures entries.numItems == |contents|
    {
    }

    lemma FirstIsHead()
      requires Valid() && contents != []
      ensures entries.head != null && entries.head in entries.order && entries.head == entries.order[0]
      ensures forall k :: 0 <= k < |entries.order| && entries.order[k] == entries.head ==> k == 0
    {
    }

    /** The way `ss_decrypt` uses the cache: check, and insert what was not there. */
    method Use(key: K, data: D, now: real) returns (found: bool)
      requires Valid()
      modifies Repr()
      ensures Valid() && fresh(Repr() - old(Repr()))
      ensures found <==> IndexOf(old(contents), key) < |old(contents)|
      ensures contents == Used(old(contents), key, data, now, maxEntries)
    {
      hide Valid, Renewed, Trimmed, IndexOf;
      found := KeyExist(key, now);
      if !found {
        Insert(key, data, now);
      }
    }

    lemma DistinctContents()
      requires Valid()
      ensures Distinct(KeysOf(contents))
    {
    }

    /** Any number of uses of an empty cache. */
    method UseAll(uses: seq<Entry<K, D>>)
      requires Valid() && contents == [] && maxEntries >= 1
      modifies Repr()
      ensures Valid() && fresh(Repr() - old(Repr()))
      ensures KeysOf(contents) == Latest(Recency(KeysOf(uses)), maxEntries - 1)
      ensures Sorted(uses) ==> Sorted(contents)
    {
      hide Valid, Access, Recency, Used, Monotone, Sorted;
      ghost var keys := KeysOf(uses);
      RecencyStart(keys[..0], maxEntries);
      SortedNone<K, D>();
      for i := 0 to |uses|
        invariant Valid() && fresh(Repr() - old(Repr()))
        invariant KeysOf(contents) == Latest(Recency(keys[..i]), maxEntries - 1)
        invariant Sorted(uses) ==> if i == 0 then contents == [] else Monotone(contents, uses[i-1].ts)
      {
        ghost var u := uses[i];
        DistinctContents();
        UsedKeys(contents, u.key, u.data, u.ts, maxEntries);
        if Sorted(uses) {
          StillMonotone(contents, uses, i);
          UsedMonotone(contents, u.key, u.data, u.ts, maxEntries);
        }
        var _ := Use(uses[i].key, uses[i].data, uses[i].ts);
        assert keys[..i+1] == keys[..i] + [u.key];
        LruStep(keys[..i], u.key, maxEntries);
      }
      assert keys[..|uses|] == keys;
      if Sorted(uses) && uses != [] {
        MonotoneSorted(contents, uses[|uses|-1].ts);
      }
    }

    /** `cache_clear`: drops what is older than `age`, walking the list while deleting from it. */
    method Clear(age: real, now: real)
      requires Valid()
      modifies Repr()
      ensures Valid() && fresh(Repr() - old(Repr()))
      ensures contents == Kept(old(contents), now, age)
    {
      hide Valid, Kept;
      ghost var was, es := entries.order, contents;
      var el := entries.head;
      var tmp := if el != null then el.next else null;
      ghost var i, done := 0, [];
      Starts();
      assert Kept(es[..0], now, age) == [] by { KeptNone<K, D>(now, age); }
      while el != null
        invariant i <= |was| == |es| && Valid() && |entries.order| == |contents|
        invariant entries.buckets == old(entries.buckets)
        invariant el == if i < |was| then was[i] else null
        invariant tmp == if i + 1 < |was| then was[i+1] else null
        invariant entries.order == done + was[i..] && contents == Kept(es[..i], now, age) + es[i..]
        invariant forall x :: x in entries.order ==> x in was
        decreases |was| - i
      {
        assert el in entries.order;
        i, done := ClearOne(el, age, now, was, es, i, done);
        el := tmp;
        if tmp != null {
          NextInOrder(|done|);
          assert tmp == entries.order[|done|];
        }
        tmp := if tmp != null then tmp.next else null;
      }
      assert es[..i] == es && es[i..] == [];
    }

    lemma Starts()
      requires Valid()
      ensures |entries.order| == |contents|
      ensures entries.head == if entries.order == [] then null else entries.order[0]
      ensures entries.order != [] ==> entries.order[0].next == if |entries.order| == 1 then null else entries.order[1]
    {
    }

    lemma NextInOrder(p: nat)
      requires Valid() && p < |entries.order|
      ensures entries.order[p].next == if p + 1 < |entries.order| then entries.order[p+1] else null
    {
    }

    /** One round of `Clear`. */
    method ClearOne(el: Handle<K, Stamp<D>>, age: real, now: real, ghost was: seq<Handle<K, Stamp<D>>>,
                    ghost es: seq<Entry<K, D>>, ghost i: nat, ghost done: seq<Handle<K, Stamp<D>>>)
      returns (ghost i': nat, ghost done': seq<Handle<K, Stamp<D>>>)
      requires i < |was| == |es| && Valid() && el == was[i] && |entries.order| == |contents|
      requires entries.order == done + was[i..] && contents == Kept(es[..i], now, age) + es[i..]
      modifies this`contents, entries, entries.buckets, entries.order`next, entries.order`prev,
               entries.order`hhPrev, entries.order`hhNext
      ensures Valid() && i' == i + 1 && entries.buckets == old(entries.buckets) && |entries.order| == |contents|
      ensures entries.order == done' + was[i'..] && contents == Kept(es[..i'], now, age) + es[i'..]
      ensures forall x :: x in entries.order ==> x in old(entries.order)
    {
      hide Valid, Without, Kept;
      ghost var p := |done|;
      assert entries.order[p] == el && contents[p] == es[i];
      Place(el, p);
      KeptStep(es, i, now, age);
      WithoutMiddle(done, was, i);
      WithoutMiddle(Kept(es[..i], now, age), es, i);
      i' := i + 1;
      if now - el.value.ts > age {
        ghost var k := Drop(el);
        done' := done;
      } else {
        done' := done + [el];
        assert done + was[i..] == done' + was[i'..];
      }
    }

    lemma Place(h: Handle<K, Stamp<D>>, p: nat)
      requires Valid() && p < |entries.order| && entries.order[p] == h
      ensures |entries.order| == |contents| && h in entries.order && h.value.ts == contents[p].ts
      ensures forall k :: 0 <= k < |entries.order| && entries.order[k] == h ==> k == p
    {
    }
  }

  lemma KeptNone<K, D>(now: real, age: real)
    ensures Kept<K, D>([], now, age) == []
  {
  }

  lemma KeptStep<K, D>(es: seq<Entry<K, D>>, i: nat, now: real, age: real)
    requires i < |es|
    ensures Kept(es[..i+1], now, age) == Kept(es[..i], now, age) + if Stale(es[i], now, age) then [] else [es[i]]
  {
    assert es[..i+1][..i] == es[..i];
  }

  lemma WithoutMiddle<T>(a: seq<T>, s: seq<T>, i: nat)
    requires i < |s|
    ensures Without(a + s[i..], |a|) == a + s[i+1..]
    ensures a + s[i..] == a + [s[i]] + s[i+1..]
  {
  }

  // ----- what the cache holds, in terms of how it was used -----

  function Removed<K(==)>(s: seq<K>, x: K): seq<K> {
    if s == [] then [] else Removed(s[..|s|-1], x) + if s[|s|-1] == x then [] else [s[|s|-1]]
  }

  /** The keys after one check-then-insert. */
  function Access<K(==)>(keys: seq<K>, key: K, capacity: nat): seq<K> {
    if key in keys then Removed(keys, key) + [key] else Trimmed(keys + [key], capacity)
  }

  /** All keys ever used, each once, in the order of their last use. */
  function Recency<K(==)>(uses: seq<K>): seq<K> {
    if uses == [] then [] else Removed(Recency(uses[..|uses|-1]), uses[|uses|-1]) + [uses[|uses|-1]]
  }

  /** The last `n` elements, or all if there are fewer. */
  function Latest<T>(s: seq<T>, n: nat): seq<T> { if |s| <= n then s else s[|s|-n..] }

  lemma {:induction false} RemovedIsLess<K>(s: seq<K>, x: K)
    ensures x !in Removed(s, x) && forall y :: y in Removed(s, x) ==> y in s
    ensures x !in s ==> Removed(s, x) == s
  {
    if s != [] {
      RemovedIsLess(s[..|s|-1], x);
    }
  }

  lemma InitDistinct<K>(s: seq<K>)
    requires Distinct(s) && s != []
    ensures Distinct(s[..|s|-1]) && s[|s|-1] !in s[..|s|-1]
  {
  }

  lemma SnocDistinct<K>(s: seq<K>, x: K)
    requires Distinct(s) && x !in s
    ensures Distinct(s + [x])
  {
  }

  lemma {:induction false} RemovedMembers<K>(s: seq<K>, x: K)
    requires Distinct(s)
    ensures x !in Removed(s, x) && forall y :: y in Removed(s, x) ==> y in s
    ensures Distinct(Removed(s, x)) && |Removed(s, x)| == |s| - if x in s then 1 else 0
    ensures x !in s ==> Removed(s, x) == s
  {
    hide Distinct;
    RemovedIsLess(s, x);
    if s != [] {
      var front, last := s[..|s|-1], s[|s|-1];
      InitDistinct(s);
      RemovedMembers(front, x);
      SnocDistinct(Removed(front, x), last);
      assert s == front + [last] && (x in s <==> x in front || x == last);
      assert Removed(s, x) == if last == x then Removed(front, x) else Removed(front, x) + [last];
    }
  }

  lemma {:induction false} RemovedAt<K>(s: seq<K>, k: nat)
    requires Distinct(s) && k < |s|
    ensures Removed(s, s[k]) == Without(s, k)
  {
    var n := |s| - 1;
    if k == n {
      RemovedMembers(s[..n], s[n]);
    } else {
      RemovedAt(s[..n], k);
      assert s[..n][..k] + s[..n][k+1..] + [s[n]] == s[..k] + s[k+1..];
    }
  }

  lemma {:induction false} RemovedFromSuffix<K>(s: seq<K>, m: nat, x: K)
    requires Distinct(s) && m <= |s| && x in s[m..]
    ensures Removed(s, x) == s[..m] + Removed(s[m..], x)
  {
    hide Distinct, Without, Removed;
    var i := Position(s[m..], x);
    WithoutInSuffix(s, m, i);
    RemovedAt(s[m..], i);
    RemovedAt(s, m + i);
  }

  lemma WithoutInSuffix<K>(s: seq<K>, m: nat, i: nat)
    requires Distinct(s) && m + i < |s|
    ensures Distinct(s[m..]) && s[m..][i] == s[m + i] && Without(s, m + i) == s[..m] + Without(s[m..], i)
  {
  }

  lemma {:induction false} RecencyDistinct<K>(uses: seq<K>)
    ensures Distinct(Recency(uses))
  {
    if uses != [] {
      var n := |uses| - 1;
      RecencyDistinct(uses[..n]);
      RemovedMembers(Recency(uses[..n]), uses[n]);
    }
  }

  lemma RecencyStart<K>(uses: seq<K>, capacity: nat)
    requires uses == [] && capacity >= 1
    ensures Latest(Recency(uses), capacity - 1) == []
  {
  }

  lemma SuffixMember<K>(s: seq<K>, m: nat, i: nat)
    requires m <= |s| && i < |s|
    ensures i >= m ==> s[i] in s[m..]
  {
    if i >= m {
      assert s[m..][i - m] == s[i];
    }
  }

  lemma AccessHit<K>(r: seq<K>, m: nat, key: K)
    requires Distinct(r) && m <= |r| && key in r[m..]
    ensures |Removed(r, key) + [key]| == |r|
    ensures Removed(r[m..], key) + [key] == (Removed(r, key) + [key])[m..]
  {
    RemovedFromSuffix(r, m, key);
    RemovedMembers(r, key);
    assert Removed(r, key) + [key] == r[..m] + (Removed(r[m..], key) + [key]);
  }

  lemma AccessEvicted<K>(r: seq<K>, m: nat, key: K)
    requires Distinct(r) && m <= |r| && key in r && key !in r[m..]
    ensures m > 0 && |Removed(r, key) + [key]| == |r|
    ensures (r[m..] + [key])[1..] == (Removed(r, key) + [key])[m..]
  {
    var i := Position(r, key);
    SuffixMember(r, m, i);
    RemovedAt(r, i);
    assert (Without(r, i) + [key])[m..] == (r[m..] + [key])[1..];
  }

  lemma AccessStep<K>(r: seq<K>, key: K, capacity: nat)
    requires Distinct(r) && capacity >= 1
    ensures Access(Latest(r, capacity - 1), key, capacity) == Latest(Removed(r, key) + [key], capacity - 1)
  {
    hide Removed, Distinct;
    var s := Latest(r, capacity - 1);
    var m := |r| - |s|;
    assert s == r[m..];
    if key in s {
      AccessHit(r, m, key);
    } else if key in r {
      AccessEvicted(r, m, key);
    } else {
      RemovedMembers(r, key);
    }
  }

  /**
   With capacity at least one, the cache holds exactly the `capacity - 1` most recently used distinct keys, the most
   recent last.
   */
  lemma LruStep<K>(uses: seq<K>, key: K, capacity: nat)
    requires capacity >= 1
    ensures Access(Latest(Recency(uses), capacity - 1), key, capacity) == Latest(Recency(uses + [key]), capacity - 1)
  {
    RecencyDistinct(uses);
    assert (uses + [key])[..|uses|] == uses;
    AccessStep(Recency(uses), key, capacity);
  }

  // ----- time stamps -----

  ghost predicate Sorted<K, D>(es: seq<Entry<K, D>>) { forall i, j :: 0 <= i < j < |es| ==> es[i].ts <= es[j].ts }

  /** Oldest first, and nothing from the future. */
  ghost predicate Monotone<K, D>(es: seq<Entry<K, D>>, now: real) { Sorted(es) && forall e :: e in es ==> e.ts <= now }

  lemma SortedNone<K, D>()
    ensures Sorted<K, D>([])
  {
  }

  lemma MonotoneSorted<K, D>(es: seq<Entry<K, D>>, now: real)
    requires Monotone(es, now)
    ensures Sorted(es)
  {
  }

  lemma StillMonotone<K, D>(es: seq<Entry<K, D>>, uses: seq<Entry<K, D>>, i: nat)
    requires Sorted(uses) && i < |uses| && if i == 0 then es == [] else Monotone(es, uses[i-1].ts)
    ensures Monotone(es, uses[i].ts)
  {
  }

  /** What one use does to the keys. */
  lemma UsedKeys<K, D>(es: seq<Entry<K, D>>, key: K, data: D, now: real, capacity: nat)
    requires Distinct(KeysOf(es))
    ensures KeysOf(Used(es, key, data, now, capacity)) == Access(KeysOf(es), key, capacity)
  {
    var k := IndexOf(es, key);
    if k < |es| {
      assert KeysOf(es)[k] == key;
      RemovedAt(KeysOf(es), k);
      assert KeysOf(Renewed(es, k, es[k].(ts := now))) == Without(KeysOf(es), k) + [key];
    } else {
      assert KeysOf(es + [Entry(key, data, now)]) == KeysOf(es) + [key];
    }
  }

  lemma UsedMonotone<K, D>(es: seq<Entry<K, D>>, key: K, data: D, now: real, capacity: nat)
    requires Monotone(es, now)
    ensures Monotone(Used(es, key, data, now, capacity), now)
  {
    hide IndexOf;
    var k := IndexOf(es, key);
    if k < |es| {
      RenewedMonotone(es, k, es[k].(ts := now));
    } else {
      TrimmedMonotone(es, Entry(key, data, now), capacity);
    }
  }

  lemma RenewedMonotone<K, D>(es: seq<Entry<K, D>>, k: nat, e: Entry<K, D>)
    requires Monotone(es, e.ts) && k < |es|
    ensures Monotone(Renewed(es, k, e), e.ts)
  {
  }

  lemma TrimmedMonotone<K, D>(es: seq<Entry<K, D>>, e: Entry<K, D>, capacity: nat)
    requires Monotone(es, e.ts)
    ensures Monotone(Trimmed(es + [e], capacity), e.ts)
  {
  }

  lemma {:induction false} KeptNothing<K, D>(es: seq<Entry<K, D>>, now: real, age: real)
    requires forall e :: e in es ==> Stale(e, now, age)
    ensures Kept(es, now, age) == []
  {
    if es != [] {
      KeptNothing(es[..|es|-1], now, age);
    }
  }

  /** With a clock that never goes back, `cache_clear` removes exactly a prefix of the order of use. */
  lemma {:induction false} ClearsPrefix<K, D>(es: seq<Entry<K, D>>, now: real, age: real) returns (m: nat)
    requires Sorted(es)
    ensures m <= |es| && Kept(es, now, age) == es[m..]
    ensures forall i :: 0 <= i < |es| ==> (i < m <==> Stale(es[i], now, age))
  {
    if es == [] {
      m := 0;
    } else if Stale(es[|es|-1], now, age) {
      m := |es|;
      KeptNothing(es, now, age);
    } else {
      m := ClearsPrefix(es[..|es|-1], now, age);
      AddsLast(es, m, now, age);
    }
  }

  lemma AddsLast<K, D>(es: seq<Entry<K, D>>, m: nat, now: real, age: real)
    requires es != [] && m < |es| && !Stale(es[|es|-1], now, age)
    requires var init := es[..|es|-1]; forall i :: 0 <= i < |init| ==> (i < m <==> Stale(init[i], now, age))
    ensures es[..|es|-1][m..] + [es[|es|-1]] == es[m..]
    ensures forall i :: 0 <= i < |es| ==> (i < m <==> Stale(es[i], now, age))
  {
    forall i | 0 <= i < |es| - 1
      ensures i < m <==> Stale(es[i], now, age)
    {
      var init := es[..|es|-1];
      assert init[i] == es[i];
    }
  }
}
