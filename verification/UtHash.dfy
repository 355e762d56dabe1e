/**
 uthash (shadowsocksr-native/src/uthash.h): every element is threaded on two doubly linked lists, the application-order
 list and the chain of its bucket, and the bucket array doubles when a chain grows long.
 */
module UtHash {
  import opened Bytes

  /** `UT_hash_handle` with the element it sits in. */
  class Handle<K(==), V> {
    var prev: Handle?<K, V>
    var next: Handle?<K, V>
    var hhPrev: Handle?<K, V>
    var hhNext: Handle?<K, V>
    const key: K
    const hashv: nat
    var value: V

    constructor (key: K, hashv: nat, value: V)
      ensures this.key == key && this.hashv == hashv && this.value == value
    {
      this.key, this.hashv, this.value := key, hashv, value;
      prev, next, hhPrev, hhNext := null, null, null, null;
    }
  }

  /** `UT_hash_bucket`. */
  datatype Bucket<!K(==), !V> = Bucket(head: Handle?<K, V>, count: nat, mult: nat)

  const INITIAL_BUCKETS: nat := 32
  const INITIAL_LOG2: nat := 5
  const CAPACITY_THRESH: nat := 10

  ghost predicate Distinct<T>(s: seq<T>) { forall i, j :: 0 <= i < j < |s| ==> s[i] != s[j] }

  /** `s` is the chain that starts at `head`, linked both ways. */
  ghost predicate Chain<K, V>(s: seq<Handle<K, V>>, head: Handle?<K, V>)
    reads s`hhPrev, s`hhNext
  {
    Distinct(s) && (if s == [] then head == null else head == s[0] && s[0].hhPrev == null && s[|s|-1].hhNext == null) &&
    (forall i {:trigger s[i].hhNext} :: 0 <= i < |s| - 1 ==> s[i].hhNext == s[i+1]) &&
    (forall i {:trigger s[i].hhPrev} :: 1 <= i < |s| ==> s[i].hhPrev == s[i-1])
  }

  /** `s` is what one meets walking from `p` along `hh_next`. */
  ghost predicate Walk<K, V>(s: seq<Handle<K, V>>, p: Handle?<K, V>)
    reads s`hhNext
  {
    Distinct(s) && (if s == [] then p == null else p == s[0] && s[|s|-1].hhNext == null) &&
    (forall i {:trigger s[i].hhNext} :: 0 <= i < |s| - 1 ==> s[i].hhNext == s[i+1])
  }

  /** The application-order list from `head` to `tail`. */
  ghost predicate AppList<K, V>(s: seq<Handle<K, V>>, head: Handle?<K, V>, tail: Handle?<K, V>)
    reads s`next, s`prev
  {
    Distinct(s) &&
    (if s == [] then head == null && tail == null
     else head == s[0] && tail == s[|s|-1] && s[0].prev == null && s[|s|-1].next == null) &&
    (forall i {:trigger s[i].next} :: 0 <= i < |s| - 1 ==> s[i].next == s[i+1]) &&
    (forall i {:trigger s[i].prev} :: 1 <= i < |s| ==> s[i].prev == s[i-1])
  }

  /** `hashv & (num_bkts - 1)`, for a power of two. */
  function ToBucket(hashv: nat, n: nat): (b: nat)
    requires n > 0
    ensures b < n
  {
    hashv % n
  }

  /** The bits of an `unsigned`. */
  const WIDTH: nat := 32

  /** The source selects buckets with a mask, the number of buckets being a power of two. */
  lemma ToBucketMasks(hashv: nat, log2: nat)
    requires hashv < Pow2(WIDTH) && log2 <= WIDTH
    ensures ToBucket(hashv, Pow2(log2)) == AndBits(hashv, Pow2(log2) - 1, WIDTH)
  {
    MaskIsRemainder(hashv, log2, WIDTH);
  }

  /** Every chain is well linked, has the length its bucket says, and holds elements of that bucket only. */
  ghost predicate Buckets<K, V>(buckets: seq<Bucket<K, V>>, chains: seq<seq<Handle<K, V>>>, all: set<Handle<K, V>>)
    reads all`hhPrev, all`hhNext
  {
    |buckets| == |chains| && |buckets| > 0 &&
    forall b :: 0 <= b < |chains| ==> BucketOk(buckets[b], chains[b], b, |chains|, all)
  }

  ghost predicate BucketOk<K, V>(bucket: Bucket<K, V>, chain: seq<Handle<K, V>>, b: nat, n: nat, all: set<Handle<K, V>>)
    requires n > 0
    reads all`hhPrev, all`hhNext
  {
    (forall h :: h in chain ==> h in all && ToBucket(h.hashv, n) == b) &&
    Chain(chain, bucket.head) && bucket.count == |chain|
  }

  /** Every element is in the chain of its bucket. */
  ghost predicate Covered<K, V>(all: set<Handle<K, V>>, chains: seq<seq<Handle<K, V>>>) {
    |chains| > 0 && forall h :: h in all ==> h in chains[ToBucket(h.hashv, |chains|)]
  }

  /** Puts `h` in front of a chain. */
  method PushFront<K, V>(buckets: array<Bucket<K, V>>, b: nat, h: Handle<K, V>, ghost chains: seq<seq<Handle<K, V>>>,
                      ghost all: set<Handle<K, V>>)
    requires Buckets(buckets[..], chains, all) && b < |chains| && h !in all && ToBucket(h.hashv, |chains|) == b
    modifies buckets, all`hhPrev, h`hhNext, h`hhPrev
    ensures Buckets(buckets[..], chains[b := [h] + chains[b]], all + {h})
    ensures buckets[b].count == old(buckets[b].count) + 1 && buckets[b].mult == old(buckets[b].mult)
    ensures forall c :: 0 <= c < buckets.Length && c != b ==> buckets[c] == old(buckets[c])
    ensures forall x :: x in all && (chains[b] == [] || x != chains[b][0]) ==> x.hhPrev == old(x.hhPrev)
  {
    var oldHead := buckets[b].head;
    assert BucketOk(buckets[..][b], chains[b], b, |chains|, all);
    h.hhNext := oldHead;
    h.hhPrev := null;
    if oldHead != null {
      oldHead.hhPrev := h;
    }
    buckets[b] := Bucket(h, buckets[b].count + 1, buckets[b].mult);
    ghost var after := chains[b := [h] + chains[b]];
    forall c | 0 <= c < |after|
      ensures BucketOk(buckets[..][c], after[c], c, |after|, all + {h})
    {
      assert old(BucketOk(buckets[..][c], chains[c], c, |chains|, all));
    }
  }

  ghost function Without<T>(s: seq<T>, k: nat): seq<T>
    requires k < |s|
  {
    s[..k] + s[k+1..]
  }

  /** Takes element `k` out of a chain. */
  method Unlink<K, V>(head: Handle?<K, V>, h: Handle<K, V>, ghost k: nat, ghost chain: seq<Handle<K, V>>)
    returns (newHead: Handle?<K, V>)
    requires Chain(chain, head) && k < |chain| && chain[k] == h
    modifies chain`hhPrev, chain`hhNext
    ensures Chain(Without(chain, k), newHead)
  {
    newHead := head;
    if head == h {
      newHead := h.hhNext;
    }
    if h.hhPrev != null {
      h.hhPrev.hhNext := h.hhNext;
    }
    if h.hhNext != null {
      h.hhNext.hhPrev := h.hhPrev;
    }
    ghost var rest := Without(chain, k);
    WithoutMembers(chain, k);
    forall i | 0 <= i < |rest| - 1
      ensures rest[i].hhNext == rest[i+1] && rest[i+1].hhPrev == rest[i]
    {
      var j := if i < k then i else i + 1;
      assert rest[i] == chain[j] && rest[i+1] == chain[if i + 1 < k then i + 1 else i + 2];
    }
  }

  /** `HASH_DEL_IN_BKT`. */
  method Unchain<K, V>(buckets: array<Bucket<K, V>>, b: nat, h: Handle<K, V>, ghost k: nat,
                       ghost chains: seq<seq<Handle<K, V>>>,
                    ghost all: set<Handle<K, V>>)
    requires Buckets(buckets[..], chains, all) && b < |chains| && k < |chains[b]| && chains[b][k] == h
    modifies buckets, all`hhPrev, all`hhNext
    ensures Buckets(buckets[..], chains[b := Without(chains[b], k)], all - {h})
  {
    assert BucketOk(buckets[..][b], chains[b], b, |chains|, all);
    ghost var was := buckets[..];
    BucketWalks(was, chains, all);
    WithoutMembers(chains[b], k);
    var newHead := Unlink(buckets[b].head, h, k, chains[b]);
    forall c | 0 <= c < |chains| && c != b
      ensures BucketOk(was[c], chains[c], c, |chains|, all - {h})
    {
      assert old(BucketOk(was[c], chains[c], c, |chains|, all));
      forall i | 0 <= i < |chains[c]|
        ensures chains[c][i].hhNext == old(chains[c][i].hhNext) && chains[c][i].hhPrev == old(chains[c][i].hhPrev)
      {
        assert chains[c][i] in chains[c] && chains[c][i] !in chains[b];
      }
    }
    assert BucketOk(Bucket(newHead, was[b].count - 1, was[b].mult), Without(chains[b], k), b, |chains|, all - {h});
    buckets[b] := Bucket(newHead, buckets[b].count - 1, buckets[b].mult);
    assert buckets[..] == was[b := Bucket(newHead, was[b].count - 1, was[b].mult)];
  }

  lemma WithoutMembers<T>(s: seq<T>, k: nat)
    requires Distinct(s) && k < |s|
    ensures Distinct(Without(s, k)) && |Without(s, k)| == |s| - 1
    ensures forall x :: x in Without(s, k) <==> x in s && x != s[k]
  {
    forall x | x in s && x != s[k]
      ensures x in Without(s, k)
    {
      var i :| 0 <= i < |s| && s[i] == x;
      assert Without(s, k)[if i < k then i else i - 1] == x;
    }
  }

  /** `HASH_APPEND_LIST`, and the first element of an empty table. */
  method Append<K, V>(head: Handle?<K, V>, tail: Handle?<K, V>, h: Handle<K, V>, ghost order: seq<Handle<K, V>>)
    returns (newHead: Handle<K, V>)
    requires AppList(order, head, tail) && h !in order
    modifies order`next, h`next, h`prev
    ensures AppList(order + [h], newHead, h)
  {
    h.next := null;
    h.prev := tail;
    if tail != null {
      tail.next := h;
      newHead := head;
    } else {
      newHead := h;
    }
  }

  /** The application-order half of `HASH_DELETE`. */
  method Unlist<K, V>(head: Handle?<K, V>, tail: Handle?<K, V>, h: Handle<K, V>, ghost k: nat,
                      ghost order: seq<Handle<K, V>>)
    returns (newHead: Handle?<K, V>, newTail: Handle?<K, V>)
    requires AppList(order, head, tail) && k < |order| && order[k] == h
    modifies order`next, order`prev
    ensures AppList(Without(order, k), newHead, newTail)
    ensures h.prev == old(h.prev) && h.next == old(h.next)
  {
    newHead, newTail := head, tail;
    if h == tail {
      newTail := h.prev;
    }
    if h.prev != null {
      h.prev.next := h.next;
    } else {
      newHead := h.next;
    }
    if h.next != null {
      h.next.prev := h.prev;
    }
    ghost var rest := Without(order, k);
    WithoutMembers(order, k);
    forall i | 0 <= i < |rest| - 1
      ensures rest[i].next == rest[i+1] && rest[i+1].prev == rest[i]
    {
      var j := if i < k then i else i + 1;
      assert rest[i] == order[j] && rest[i+1] == order[if i + 1 < k then i + 1 else i + 2];
    }
  }

  /** One step of the walk of `HASH_EXPAND_BUCKETS`: `p` goes to the front of its new bucket. */
  method Move<K, V>(fresher: array<Bucket<K, V>>, ideal: nat, p: Handle<K, V>, nonideal: nat,
                 ghost rechained: seq<seq<Handle<K, V>>>, ghost done: set<Handle<K, V>>)
    returns (nonideal': nat, ghost rechained': seq<seq<Handle<K, V>>>)
    requires Buckets(fresher[..], rechained, done) && Covered(done, rechained) && p !in done && ideal > 0
    modifies fresher, done`hhPrev, p`hhNext, p`hhPrev
    ensures Buckets(fresher[..], rechained', done + {p}) && Covered(done + {p}, rechained')
    ensures |rechained'| == |rechained|
  {
    hide BucketOk, Chain;
    var b := ToBucket(p.hashv, fresher.Length);
    PushFront(fresher, b, p, rechained, done);
    rechained' := rechained[b := [p] + rechained[b]];
    nonideal' := nonideal;
    if fresher[b].count > ideal {
      nonideal' := nonideal' + 1;
      SameButMult(fresher[..], b, fresher[b].count / ideal, rechained', done + {p});
      fresher[b] := fresher[b].(mult := fresher[b].count / ideal);
    }
  }

  lemma SameButMult<K, V>(buckets: seq<Bucket<K, V>>, b: nat, mult: nat, chains: seq<seq<Handle<K, V>>>,
                          all: set<Handle<K, V>>)
    requires Buckets(buckets, chains, all) && b < |buckets|
    ensures Buckets(buckets[b := buckets[b].(mult := mult)], chains, all)
  {
    var after := buckets[b := buckets[b].(mult := mult)];
    forall c | 0 <= c < |chains|
      ensures BucketOk(after[c], chains[c], c, |chains|, all)
    {
      assert BucketOk(buckets[c], chains[c], c, |chains|, all);
    }
  }

  lemma WalkOn<K, V>(s: seq<Handle<K, V>>, p: Handle<K, V>)
    requires Walk(s, p)
    ensures s != [] && Elements(s) == {p} + Elements(s[1..]) && p !in Elements(s[1..])
    ensures p !in s[1..] && Walk(s[1..], p.hhNext)
  {
  }

  lemma WalkEnds<K, V>(s: seq<Handle<K, V>>)
    requires Walk(s, null)
    ensures Elements(s) == {}
  {
  }

  /** One round of the walk along the chain `s`. */
  method MoveHead<K, V>(fresher: array<Bucket<K, V>>, ideal: nat, p: Handle<K, V>, nonideal: nat,
                     ghost s: seq<Handle<K, V>>, ghost rechained: seq<seq<Handle<K, V>>>, ghost done: set<Handle<K, V>>)
    returns (nxt: Handle?<K, V>, nonideal': nat, ghost rechained': seq<seq<Handle<K, V>>>)
    requires Buckets(fresher[..], rechained, done) && Covered(done, rechained) && p !in done && ideal > 0 && Walk(s, p)
    modifies fresher, done`hhPrev, p`hhNext, p`hhPrev
    ensures Buckets(fresher[..], rechained', done + {p}) && Covered(done + {p}, rechained')
    ensures |rechained'| == |rechained| && s != [] && Walk(s[1..], nxt)
  {
    hide Buckets, BucketOk, Chain, Covered, Walk, Distinct;
    WalkOn(s, p);
    nxt := p.hhNext;
    nonideal', rechained' := Move(fresher, ideal, p, nonideal, rechained, done);
  }

  /** Moves one chain over. */
  method MoveChain<K, V>(fresher: array<Bucket<K, V>>, ideal: nat, head: Handle?<K, V>, nonideal: nat,
                      ghost chain: seq<Handle<K, V>>, ghost rechained: seq<seq<Handle<K, V>>>,
                      ghost done: set<Handle<K, V>>)
    returns (nonideal': nat, ghost rechained': seq<seq<Handle<K, V>>>, ghost done': set<Handle<K, V>>)
    requires Buckets(fresher[..], rechained, done) && Covered(done, rechained) && ideal > 0
    requires Walk(chain, head) && Elements(chain) !! done
    modifies fresher, (done + Elements(chain))`hhPrev, Elements(chain)`hhNext
    ensures Buckets(fresher[..], rechained', done') && Covered(done', rechained') && |rechained'| == |rechained|
    ensures done' == done + Elements(chain)
  {
    hide Buckets, BucketOk, Chain, Covered, Walk, Elements;
    nonideal', rechained', done' := nonideal, rechained, done;
    var p := head;
    ghost var rest := chain;
    while p != null
      invariant Walk(rest, p) && done' !! Elements(rest) && done' + Elements(rest) == done + Elements(chain)
      invariant Elements(rest) <= Elements(chain) && done' <= done + Elements(chain)
      invariant |rechained'| == |rechained| && Buckets(fresher[..], rechained', done') && Covered(done', rechained')
      decreases |rest|
    {
      WalkOn(rest, p);
      ghost var moved := p;
      p, nonideal', rechained' := MoveHead(fresher, ideal, p, nonideal', rest, rechained', done');
      done', rest := done' + {moved}, rest[1..];
    }
    WalkEnds(rest);
  }

  /** `HASH_EXPAND_BUCKETS`: moves every element into an array of twice as many buckets. */
  method Rehash<K, V>(buckets: array<Bucket<K, V>>, ideal: nat, ghost chains: seq<seq<Handle<K, V>>>,
                      ghost all: set<Handle<K, V>>)
    returns (fresher: array<Bucket<K, V>>, nonideal: nat, ghost rechained: seq<seq<Handle<K, V>>>)
    requires Buckets(buckets[..], chains, all) && Covered(all, chains) && ideal > 0
    modifies all`hhPrev, all`hhNext
    ensures fresh(fresher) && fresher.Length == 2 * buckets.Length
    ensures Buckets(fresher[..], rechained, all) && Covered(all, rechained)
  {
    var n := buckets.Length;
    fresher := new Bucket<K, V>[2 * n](_ => Bucket(null, 0, 0));
    rechained := seq(2 * n, _ => []);
    nonideal := 0;
    ghost var done: set<Handle<K, V>> := {};
    ghost var was := buckets[..];
    BucketWalks(was, chains, all);
    assert Buckets(fresher[..], rechained, done);
    for i := 0 to n
      invariant buckets[..] == was && fresher.Length == |rechained| == 2 * n
      invariant forall k :: i <= k < n ==> Walk(chains[k], was[k].head)
      invariant done <= all && forall h :: h in all ==> (h in done <==> ToBucket(h.hashv, n) < i)
      invariant Buckets(fresher[..], rechained, done) && Covered(done, rechained)
    {
      ghost var before := done;
      nonideal, rechained, done := MoveChain(fresher, ideal, buckets[i].head, nonideal, chains[i], rechained, done);
      assert forall h :: h in all && ToBucket(h.hashv, n) == i ==> h in chains[i];
    }
  }

  lemma BucketWalks<K, V>(buckets: seq<Bucket<K, V>>, chains: seq<seq<Handle<K, V>>>, all: set<Handle<K, V>>)
    requires Buckets(buckets, chains, all)
    ensures forall k :: 0 <= k < |chains| ==> Walk(chains[k], buckets[k].head)
    ensures forall k, h :: 0 <= k < |chains| && h in chains[k] ==> h in all && ToBucket(h.hashv, |chains|) == k
  {
    forall k | 0 <= k < |chains|
      ensures Walk(chains[k], buckets[k].head) &&
              forall h :: h in chains[k] ==> h in all && ToBucket(h.hashv, |chains|) == k
    {
      assert BucketOk(buckets[k], chains[k], k, |chains|, all);
    }
  }

  // ----- counting -----

  ghost function Elements<T>(s: seq<T>): set<T> { set x | x in s }

  ghost function TotalLength<T>(ss: seq<seq<T>>): nat {
    if ss == [] then 0 else TotalLength(ss[..|ss|-1]) + |ss[|ss|-1]|
  }

  lemma {:induction false} DistinctSize<T>(s: seq<T>)
    requires Distinct(s)
    ensures |Elements(s)| == |s|
  {
    if s != [] {
      var n := |s| - 1;
      DistinctSize(s[..n]);
      assert Elements(s) == Elements(s[..n]) + {s[n]};
    }
  }

  /** The chains together hold as many elements as the table. */
  lemma {:induction false} ChainsCount<K, V>(buckets: seq<Bucket<K, V>>, chains: seq<seq<Handle<K, V>>>,
                                             all: set<Handle<K, V>>, i: nat)
    requires Buckets(buckets, chains, all) && Covered(all, chains) && i <= |chains|
    ensures TotalLength(chains[..i]) == |set h | h in all && ToBucket(h.hashv, |chains|) < i|
  {
    if i > 0 {
      ChainsCount(buckets, chains, all, i - 1);
      assert chains[..i][..i-1] == chains[..i-1];
      BucketWalks(buckets, chains, all);
      DistinctSize(chains[i-1]);
      var lower := set h | h in all && ToBucket(h.hashv, |chains|) < i - 1;
      assert (set h | h in all && ToBucket(h.hashv, |chains|) < i) == lower + Elements(chains[i-1]);
    }
  }

  // ----- the table -----

  class HashTable<K(==), V> {
    const hash: K -> nat
    var head: Handle?<K, V>
    var tail: Handle?<K, V>
    var buckets: array<Bucket<K, V>>
    var log2: nat
    var numItems: nat
    var idealMax: nat
    var nonideal: nat
    var ineffExpands: nat
    var noexpand: bool

    /** The elements in application order. */
    ghost var order: seq<Handle<K, V>>
    ghost var chains: seq<seq<Handle<K, V>>>

    ghost predicate Valid()
      reads this, order`next, order`prev, order`hhPrev, order`hhNext, buckets
    {
      AppList(order, head, tail) && numItems == |order| &&
      (forall h :: h in order ==> h.hashv == hash(h.key)) &&
      (order != [] ==> Indexed(order))
    }

    /** The bucket index holds exactly the elements of `s`. */
    ghost predicate Indexed(s: seq<Handle<K, V>>)
      reads this`chains, this`buckets, this`log2, s`hhPrev, s`hhNext, buckets
    {
      Buckets(buckets[..], chains, Elements(s)) && Covered(Elements(s), chains) && buckets.Length == Pow2(log2)
    }

    constructor (hash: K -> nat)
      ensures Valid() && order == [] && this.hash == hash && fresh(buckets)
    {
      this.hash := hash;
      head, tail, order, chains := null, null, [], [];
      buckets := new Bucket<K, V>[0];
      log2, numItems, idealMax, nonideal, ineffExpands, noexpand := 0, 0, 0, 0, 0, false;
    }

    /** `HASH_FIND`. */
    method Find(key: K) returns (h: Handle?<K, V>)
      requires Valid()
      ensures h == null <==> forall x :: x in order ==> x.key != key
      ensures h != null ==> h in order && h.key == key
      ensures DistinctKeys(order) ==> h == Scan(order, key)
    {
      h := null;
      if head != null {
        var hashv := hash(key);
        var b := ToBucket(hashv, buckets.Length);
        BucketWalks(buckets[..], chains, Elements(order));
        ghost var chain := chains[b];
        h := buckets[b].head;
        ghost var i := 0;
        while h != null
          invariant i <= |chain| && Walk(chain[i..], h)
          invariant forall j :: 0 <= j < i ==> chain[j].key != key
          decreases |chain| - i
        {
          assert h == chain[i];
          if h.hashv == hashv && h.key == key {
            break;
          }
          h := h.hhNext;
          i := i + 1;
        }
        assert h != null ==> h in chain;
        forall x | h == null && x in order
          ensures x.key != key
        {
          assert x.key == key ==> x in chain;
        }
      }
      if DistinctKeys(order) {
        FoundIsScanned(order, key, h);
      }
    }

    /** `HASH_MAKE_TABLE`. */
    method MakeTable()
      modifies this`buckets, this`chains, this`log2, this`numItems, this`idealMax, this`nonideal, this`ineffExpands,
               this`noexpand
      ensures Indexed([]) && fresh(buckets) && numItems == 0
      ensures buckets.Length == INITIAL_BUCKETS == Pow2(log2) &&
              forall b :: 0 <= b < buckets.Length ==> buckets[b] == Bucket(null, 0, 0)
    {
      assert Elements<Handle<K, V>>([]) == {};
      buckets := new Bucket<K, V>[INITIAL_BUCKETS](_ => Bucket(null, 0, 0));
      chains := seq(INITIAL_BUCKETS, _ => []);
      log2, numItems, idealMax, nonideal, ineffExpands, noexpand := INITIAL_LOG2, 0, 0, 0, 0, false;
      forall b | 0 <= b < |chains|
        ensures BucketOk(buckets[..][b], chains[b], b, |chains|, {})
      {
      }
    }

    /** The bucket half of `HASH_ADD_KEYPTR`; tells whether the bucket has become full. */
    method Index(h: Handle<K, V>, ghost s: seq<Handle<K, V>>) returns (full: bool)
      requires Indexed(s) && h !in s
      modifies this`chains, buckets, s`hhPrev, h`hhNext, h`hhPrev
      ensures Indexed(s + [h])
    {
      hide BucketOk, Chain;
      var b := ToBucket(h.hashv, buckets.Length);
      PushFront(buckets, b, h, chains, Elements(s));
      chains := chains[b := [h] + chains[b]];
      full := buckets[b].count >= (buckets[b].mult + 1) * CAPACITY_THRESH;
      assert Elements(s + [h]) == Elements(s) + {h};
    }

    /** The bucket half of `HASH_DELETE`. */
    method Unindex(h: Handle<K, V>, ghost k: nat, ghost s: seq<Handle<K, V>>)
      requires Indexed(s) && Distinct(s) && k < |s| && s[k] == h
      modifies this`chains, buckets, s`hhPrev, s`hhNext
      ensures Indexed(Without(s, k))
    {
      hide BucketOk, Chain;
      var b := ToBucket(h.hashv, buckets.Length);
      ghost var j := Position(chains[b], h);
      BucketWalks(buckets[..], chains, Elements(s));
      WithoutMembers(chains[b], j);
      WithoutMembers(s, k);
      Unchain(buckets, b, h, j, chains, Elements(s));
      chains := chains[b := Without(chains[b], j)];
      assert Elements(Without(s, k)) == Elements(s) - {h};
    }

    /** `HASH_EXPAND_BUCKETS`, around the move itself. */
    method Expand(ghost s: seq<Handle<K, V>>)
      requires Indexed(s) && numItems > 0
      modifies this`buckets, this`chains, this`log2, this`idealMax, this`nonideal, this`ineffExpands, this`noexpand
      modifies s`hhPrev, s`hhNext
      ensures Indexed(s) && fresh(buckets) && buckets.Length == 2 * old(buckets.Length)
    {
      hide BucketOk, Chain, Covered;
      var n := buckets.Length;
      idealMax := numItems / (2 * n) + if numItems % (2 * n) != 0 then 1 else 0;
      IdealPositive(numItems, 2 * n);
      var fresher, count, rechained := Rehash(buckets, idealMax, chains, Elements(s));
      nonideal := count;
      log2 := log2 + 1;
      buckets, chains := fresher, rechained;
      ineffExpands := if nonideal > numItems / 2 then ineffExpands + 1 else 0;
      if ineffExpands > 1 {
        noexpand := true;
      }
    }

    /** The application-order half of `HASH_ADD_KEYPTR`, which makes the table for a first element. */
    method List(h: Handle<K, V>)
      requires Valid() && h !in order
      modifies this, order`next, h`next, h`prev
      ensures AppList(order + [h], head, tail) && numItems == |order| + 1 && order == old(order)
      ensures Indexed(order) && (buckets == old(buckets) || fresh(buckets))
    {
      hide Indexed, Buckets, Covered, AppList;
      HeadIsFirst(order, head, tail);
      if head == null {
        MakeTable();
      }
      head := Append(head, tail, h, order);
      tail := h;
      numItems := numItems + 1;
    }

    /** `HASH_ADD_KEYPTR`. */
    method Add(h: Handle<K, V>)
      requires Valid() && h !in order && h.hashv == hash(h.key)
      modifies this, order`next, order`hhPrev, order`hhNext, buckets
      modifies h`next, h`prev, h`hhPrev, h`hhNext
      ensures Valid() && order == old(order) + [h]
      ensures buckets == old(buckets) || fresh(buckets)
    {
      hide Indexed, Buckets, Covered, AppList;
      List(h);
      var full := Index(h, order);
      order := order + [h];
      if full && !noexpand {
        Expand(order);
      }
    }

    /** The application-order half of `HASH_DELETE`, of one element among several. */
    method Detach(h: Handle<K, V>, ghost k: nat)
      requires Valid() && k < |order| && order[k] == h && |order| > 1
      modifies this`order, this`head, this`tail, this`numItems, order`next, order`prev
      ensures order == Without(old(order), k) && AppList(order, head, tail) && numItems == |order|
      ensures Indexed(old(order))
    {
      WithoutMembers(order, k);
      hide Indexed, AppList, Without;
      head, tail := Unlist(head, tail, h, k, order);
      order := Without(order, k);
      numItems := numItems - 1;
    }

    /** `HASH_DELETE` of one element among several. */
    method DeleteOne(h: Handle<K, V>, ghost k: nat)
      requires Valid() && k < |order| && order[k] == h && |order| > 1
      modifies this, order`next, order`prev, order`hhPrev, order`hhNext, buckets
      ensures Valid() && buckets == old(buckets) && order == Without(old(order), k)
    {
      ghost var was := order;
      WithoutMembers(was, k);
      hide Indexed, AppList, Without, Distinct;
      Detach(h, k);
      Unindex(h, k, was);
    }

    /** `HASH_DELETE`; `k` is where the element stood. */
    method Delete(h: Handle<K, V>) returns (ghost k: nat)
      requires Valid() && h in order
      modifies this, order`next, order`prev, order`hhPrev, order`hhNext, buckets
      ensures Valid() && buckets == old(buckets)
      ensures k < |old(order)| && old(order)[k] == h && order == Without(old(order), k)
    {
      k := Position(order, h);
      OnlyElement(order, head, tail, k);
      hide Indexed, AppList, Without, Distinct;
      if h.prev == null && h.next == null {
        head, tail, numItems := null, null, 0;
        order := [];
        EmptyList<K, V>();
      } else {
        DeleteOne(h, k);
      }
    }

    /** One bucket of `HASH_FSCK`: back-links and count. */
    method FsckBucket(b: nat) returns (ok: bool, n: nat)
      requires Indexed(order) && b < buckets.Length
      ensures ok && n == |chains[b]|
    {
      assert BucketOk(buckets[..][b], chains[b], b, |chains|, Elements(order));
      ghost var chain := chains[b];
      ok, n := true, 0;
      var thh, prev := buckets[b].head, null;
      while thh != null
        invariant ok && n <= |chain|
        invariant thh == if n == |chain| then null else chain[n]
        invariant prev == if n == 0 then null else chain[n-1]
        decreases |chain| - n
      {
        if prev != thh.hhPrev {
          ok := false;
        }
        n, prev, thh := n + 1, thh, thh.hhNext;
      }
      if buckets[b].count != n {
        ok := false;
      }
    }

    /** The walk of `HASH_FSCK` along the application order. */
    method FsckOrder() returns (ok: bool)
      requires Valid() && head != null
      ensures ok
    {
      var n, thh, prev := 0, head, null;
      ok := true;
      while thh != null
        invariant ok && n <= |order|
        invariant thh == if n == |order| then null else order[n]
        invariant prev == if n == 0 then null else order[n-1]
        decreases |order| - n
      {
        if prev != thh.prev {
          ok := false;
        }
        n, prev, thh := n + 1, thh, thh.next;
      }
      if n != numItems {
        ok := false;
      }
    }

    /** `HASH_FSCK`: none of its checks ever fails on a table that `Add` and `Delete` have produced. */
    method Fsck() returns (ok: bool)
      requires Valid()
      ensures ok
    {
      ok := true;
      if head != null {
        var count := 0;
        for b := 0 to buckets.Length
          invariant ok && count == TotalLength(chains[..b])
        {
          var good, n := FsckBucket(b);
          ok := ok && good;
          count := count + n;
          assert chains[..b+1][..b] == chains[..b];
        }
        ghost var all := Elements(order);
        assert chains[..buckets.Length] == chains;
        ChainsCount(buckets[..], chains, all, |chains|);
        assert (set h | h in all && ToBucket(h.hashv, |chains|) < |chains|) == all;
        DistinctSize(order);
        if count != numItems {
          ok := false;
        }
        var good := FsckOrder();
        ok := ok && good;
      }
    }
  }

  // ----- lookup against a plain scan -----

  /** The first element with the key, scanning the list from its head. */
  function Scan<K(==), V>(s: seq<Handle<K, V>>, key: K): (h: Handle?<K, V>)
  {
    if s == [] then null else if s[0].key == key then s[0] else Scan(s[1..], key)
  }

  ghost predicate DistinctKeys<K, V>(s: seq<Handle<K, V>>) {
    forall i, j :: 0 <= i < j < |s| ==> s[i].key != s[j].key
  }

  /** What `Find` promises is, for distinct keys, exactly the result of the scan. */
  lemma {:induction false} FoundIsScanned<K, V>(s: seq<Handle<K, V>>, key: K, h: Handle?<K, V>)
    requires DistinctKeys(s)
    requires h == null <==> forall x :: x in s ==> x.key != key
    requires h != null ==> h in s && h.key == key
    ensures h == Scan(s, key)
  {
    if s != [] {
      if s[0].key == key {
        assert s[0] in s;
      } else {
        assert forall x :: x in s <==> x == s[0] || x in s[1..];
        FoundIsScanned(s[1..], key, h);
      }
    }
  }

  lemma Position<T>(s: seq<T>, x: T) returns (k: nat)
    requires x in s
    ensures k < |s| && s[k] == x
  {
    k :| 0 <= k < |s| && s[k] == x;
  }

  lemma HeadIsFirst<K, V>(s: seq<Handle<K, V>>, head: Handle?<K, V>, tail: Handle?<K, V>)
    requires AppList(s, head, tail)
    ensures head == null <==> s == []
  {
  }

  lemma EmptyList<K, V>()
    ensures AppList<K, V>([], null, null)
  {
  }

  /** An element with neither neighbour is alone. */
  lemma OnlyElement<K, V>(s: seq<Handle<K, V>>, head: Handle?<K, V>, tail: Handle?<K, V>, k: nat)
    requires AppList(s, head, tail) && k < |s|
    ensures s[k].prev == null && s[k].next == null <==> |s| == 1
    ensures |s| == 1 ==> Without(s, k) == []
    ensures Distinct(s) && |Without(s, k)| == |s| - 1 && forall x :: x in Without(s, k) ==> x in s
  {
    WithoutMembers(s, k);
  }

  lemma IdealPositive(items: nat, n: nat)
    requires items > 0 && n > 0
    ensures items / n + (if items % n != 0 then 1 else 0) > 0
  {
  }
}
