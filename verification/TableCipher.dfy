/**
 The table cipher of shadowsocksr-native/src/encrypt.c: 1023 rounds of merge sort under changing orders make a table of
 256 bytes out of the identity.
 */
module TableCipher {
  import opened Bytes

  const UINT64: nat := 0x1_0000_0000_0000_0000
  const UINT32: nat := 0x1_0000_0000

  // ----- the order -----

  /** The conversion of a 64-bit value to `int`. */
  function ToInt(u: nat): int {
    var w := u % UINT32;
    if w >= UINT32 / 2 then w - UINT32 else w
  }

  /** The key of byte `x` in round `i`. */
  function Rank(x: Byte, i: nat, a: nat): nat
    requires i > 0
  {
    a % (x + i)
  }

  /** `random_compare`: an unsigned subtraction, cast to `int`. */
  function RandomCompare(x: Byte, y: Byte, i: nat, a: nat): int
    requires i > 0
  {
    ToInt((Rank(x, i, a) - Rank(y, i, a)) % UINT64)
  }

  /** The wrapping and the cast do no harm in any of the rounds. */
  lemma ComparesRanks(x: Byte, y: Byte, i: nat, a: nat)
    requires 0 < i < 1024
    ensures RandomCompare(x, y, i, a) == Rank(x, i, a) - Rank(y, i, a)
  {
    var d := Rank(x, i, a) - Rank(y, i, a);
    assert Rank(x, i, a) < 1279 && Rank(y, i, a) < 1279;
    if d < 0 {
      assert d % UINT64 == d + UINT64;
    } else {
      assert d % UINT64 == d;
    }
  }

  // ----- merge sort, on values -----

  function Merged(l: seq<Byte>, r: seq<Byte>, i: nat, a: nat): (m: seq<Byte>)
    requires i > 0
    ensures |m| == |l| + |r|
    decreases |l| + |r|
  {
    if l == [] then r
    else if r == [] then l
    else if RandomCompare(l[0], r[0], i, a) <= 0 then [l[0]] + Merged(l[1..], r, i, a)
    else [r[0]] + Merged(l, r[1..], i, a)
  }

  function MergeSorted(s: seq<Byte>, i: nat, a: nat): (m: seq<Byte>)
    requires i > 0
    ensures |m| == |s|
    decreases |s|
  {
    if |s| <= 1 then s
    else
      var llength := |s| - |s| / 2;
      Merged(MergeSorted(s[..llength], i, a), MergeSorted(s[llength..], i, a), i, a)
  }

  ghost predicate Ordered(s: seq<Byte>, i: nat, a: nat)
    requires i > 0
  {
    forall p, q :: 0 <= p < q < |s| ==> Rank(s[p], i, a) <= Rank(s[q], i, a)
  }

  /** The elements with rank `v`, in order. */
  function WithRank(s: seq<Byte>, v: nat, i: nat, a: nat): seq<Byte>
    requires i > 0
  {
    if s == [] then [] else (if Rank(s[0], i, a) == v then [s[0]] else []) + WithRank(s[1..], v, i, a)
  }

  lemma {:induction false} WithRankConcat(s: seq<Byte>, t: seq<Byte>, v: nat, i: nat, a: nat)
    requires i > 0
    ensures WithRank(s + t, v, i, a) == WithRank(s, v, i, a) + WithRank(t, v, i, a)
  {
    hide Rank;
    if s == [] {
      assert s + t == t;
    } else {
      assert (s + t)[1..] == s[1..] + t;
      WithRankConcat(s[1..], t, v, i, a);
      Assoc(if Rank(s[0], i, a) == v then [s[0]] else [], WithRank(s[1..], v, i, a), WithRank(t, v, i, a));
    }
  }

  lemma {:induction false} MergedMembers(l: seq<Byte>, r: seq<Byte>, i: nat, a: nat)
    requires i > 0
    ensures multiset(Merged(l, r, i, a)) == multiset(l) + multiset(r)
    decreases |l| + |r|
  {
    hide RandomCompare;
    if l != [] && r != [] {
      assert l == [l[0]] + l[1..] && r == [r[0]] + r[1..];
      if RandomCompare(l[0], r[0], i, a) <= 0 {
        MergedMembers(l[1..], r, i, a);
      } else {
        MergedMembers(l, r[1..], i, a);
      }
    }
  }

  lemma OrderedCons(x: Byte, s: seq<Byte>, i: nat, a: nat)
    requires i > 0 && Ordered(s, i, a) && forall y :: y in multiset(s) ==> Rank(x, i, a) <= Rank(y, i, a)
    ensures Ordered([x] + s, i, a)
  {
    hide Rank;
    var t := [x] + s;
    forall p, q | 0 <= p < q < |t|
      ensures Rank(t[p], i, a) <= Rank(t[q], i, a)
    {
      assert t[q] == s[q-1] && s[q-1] in multiset(s);
    }
  }

  lemma OrderedTail(s: seq<Byte>, i: nat, a: nat)
    requires i > 0 && s != [] && Ordered(s, i, a)
    ensures Ordered(s[1..], i, a) && forall y :: y in multiset(s) ==> Rank(s[0], i, a) <= Rank(y, i, a)
  {
    hide Rank;
    forall y | y in multiset(s)
      ensures Rank(s[0], i, a) <= Rank(y, i, a)
    {
      var p :| 0 <= p < |s| && s[p] == y;
    }
  }

  /** Merging ordered parts gives an ordered whole. */
  lemma {:induction false} MergedOrdered(l: seq<Byte>, r: seq<Byte>, i: nat, a: nat)
    requires 0 < i < 1024 && Ordered(l, i, a) && Ordered(r, i, a)
    ensures Ordered(Merged(l, r, i, a), i, a)
    decreases |l| + |r|
  {
    hide RandomCompare, Ordered, Rank;
    if l != [] && r != [] {
      ComparesRanks(l[0], r[0], i, a);
      OrderedTail(l, i, a);
      OrderedTail(r, i, a);
      assert l == [l[0]] + l[1..] && r == [r[0]] + r[1..];
      if RandomCompare(l[0], r[0], i, a) <= 0 {
        MergedOrdered(l[1..], r, i, a);
        MergedMembers(l[1..], r, i, a);
        OrderedCons(l[0], Merged(l[1..], r, i, a), i, a);
      } else {
        MergedOrdered(l, r[1..], i, a);
        MergedMembers(l, r[1..], i, a);
        OrderedCons(r[0], Merged(l, r[1..], i, a), i, a);
      }
    }
  }

  lemma {:induction false} NoneWithRank(s: seq<Byte>, v: nat, i: nat, a: nat)
    requires i > 0 && forall y :: y in multiset(s) ==> Rank(y, i, a) > v
    ensures WithRank(s, v, i, a) == []
  {
    hide Rank;
    if s != [] {
      assert s == [s[0]] + s[1..];
      NoneWithRank(s[1..], v, i, a);
    }
  }

  /** Merging keeps elements of equal rank in order, those of the left part first. */
  lemma {:induction false} MergedStable(l: seq<Byte>, r: seq<Byte>, v: nat, i: nat, a: nat)
    requires 0 < i < 1024 && Ordered(l, i, a)
    ensures WithRank(Merged(l, r, i, a), v, i, a) == WithRank(l, v, i, a) + WithRank(r, v, i, a)
    decreases |l| + |r|
  {
    if l == [] || r == [] {
      assert WithRank([], v, i, a) == [];
    } else if RandomCompare(l[0], r[0], i, a) <= 0 {
      OrderedTail(l, i, a);
      MergedStable(l[1..], r, v, i, a);
      hide RandomCompare, Ordered, Rank;
      assert Merged(l, r, i, a)[1..] == Merged(l[1..], r, i, a);
      Assoc(if Rank(l[0], i, a) == v then [l[0]] else [], WithRank(l[1..], v, i, a), WithRank(r, v, i, a));
    } else {
      ComparesRanks(l[0], r[0], i, a);
      OrderedTail(l, i, a);
      MergedStable(l, r[1..], v, i, a);
      hide RandomCompare, Ordered, Rank;
      assert Merged(l, r, i, a)[1..] == Merged(l, r[1..], i, a);
      if Rank(r[0], i, a) == v {
        NoneWithRank(l, v, i, a);
      }
    }
  }

  lemma Assoc(x: seq<Byte>, y: seq<Byte>, z: seq<Byte>)
    ensures x + (y + z) == (x + y) + z && [] + y == y
  {
  }

  /** One round: a permutation, ordered by rank, and stable. */
  lemma {:induction false} SortedStable(s: seq<Byte>, i: nat, a: nat)
    requires 0 < i < 1024
    ensures var m := MergeSorted(s, i, a);
            multiset(m) == multiset(s) && Ordered(m, i, a) &&
            forall v: nat :: WithRank(m, v, i, a) == WithRank(s, v, i, a)
    decreases |s|
  {
    hide Rank, WithRank, Merged;
    if |s| > 1 {
      var n := |s| - |s| / 2;
      assert s == s[..n] + s[n..];
      SortedStable(s[..n], i, a);
      SortedStable(s[n..], i, a);
      var l, r := MergeSorted(s[..n], i, a), MergeSorted(s[n..], i, a);
      MergedMembers(l, r, i, a);
      MergedOrdered(l, r, i, a);
      forall v: nat
        ensures WithRank(MergeSorted(s, i, a), v, i, a) == WithRank(s, v, i, a)
      {
        MergedStable(l, r, v, i, a);
        WithRankConcat(s[..n], s[n..], v, i, a);
      }
    }
  }

  // ----- merge sort, in place -----

  /** `s` with the part from `left` on overwritten by `m`. */
  function Splice(s: seq<Byte>, left: nat, m: seq<Byte>): (r: seq<Byte>)
    requires left + |m| <= |s|
    ensures |r| == |s|
  {
    s[..left] + m + s[left+|m|..]
  }

  /** The part of `s` from `left` on is `m`. */
  ghost predicate At(s: seq<Byte>, left: nat, m: seq<Byte>) { left + |m| <= |s| && s[left..left+|m|] == m }

  lemma SplicePut(s: seq<Byte>, left: nat, m: seq<Byte>, x: Byte)
    requires left + |m| < |s|
    ensures Splice(s, left, m)[left+|m| := x] == Splice(s, left, m + [x])
  {
  }

  lemma SpliceOver(s: seq<Byte>, left: nat, m: seq<Byte>, n: seq<Byte>)
    requires |m| == |n| && left + |m| <= |s|
    ensures Splice(Splice(s, left, m), left, n) == Splice(s, left, n)
  {
  }

  lemma Shift(before: seq<Byte>, x: Byte, after: seq<Byte>)
    ensures before + ([x] + after) == before + [x] + after
  {
  }

  /** The state of `merge`: `done` is written, `ltmp` and `rtmp` are still to be merged. */
  ghost predicate Merging(all: seq<Byte>, done: seq<Byte>, ltmp: seq<Byte>, rtmp: seq<Byte>, salt: nat, key: nat)
    requires salt > 0
  {
    done + Merged(ltmp, rtmp, salt, key) == all
  }

  lemma MergingLeft(all: seq<Byte>, done: seq<Byte>, ltmp: seq<Byte>, rtmp: seq<Byte>, salt: nat, key: nat)
    requires salt > 0 && Merging(all, done, ltmp, rtmp, salt, key)
    requires ltmp != [] && (rtmp == [] || RandomCompare(ltmp[0], rtmp[0], salt, key) <= 0)
    ensures Merging(all, done + [ltmp[0]], ltmp[1..], rtmp, salt, key)
  {
    hide RandomCompare;
    assert rtmp == [] ==> ltmp == [ltmp[0]] + ltmp[1..];
    Shift(done, ltmp[0], Merged(ltmp[1..], rtmp, salt, key));
  }

  lemma MergingRight(all: seq<Byte>, done: seq<Byte>, ltmp: seq<Byte>, rtmp: seq<Byte>, salt: nat, key: nat)
    requires salt > 0 && Merging(all, done, ltmp, rtmp, salt, key)
    requires rtmp != [] && (ltmp == [] || RandomCompare(ltmp[0], rtmp[0], salt, key) > 0)
    ensures Merging(all, done + [rtmp[0]], ltmp, rtmp[1..], salt, key)
  {
    hide RandomCompare;
    assert ltmp == [] ==> rtmp == [rtmp[0]] + rtmp[1..];
    Shift(done, rtmp[0], Merged(ltmp, rtmp[1..], salt, key));
  }

  /** `merge`, of two neighbouring parts of an array, which are `l` and `r`. */
  method Merge(arr: array<Byte>, left: nat, llength: nat, rlength: nat, salt: nat, key: nat, ghost l: seq<Byte>,
               ghost r: seq<Byte>)
    requires salt > 0 && llength == |l| && rlength == |r| && At(arr[..], left, l) && At(arr[..], left + llength, r)
    modifies arr
    ensures arr[..] == Splice(old(arr[..]), left, Merged(l, r, salt, key))
  {
    ghost var was := arr[..];
    var ltmp, rtmp := arr[left..left+llength], arr[left+llength..left+llength+rlength];
    assert ltmp == l && rtmp == r;
    ghost var all, done: seq<Byte> := Merged(l, r, salt, key), [];
    assert was == Splice(was, left, done) && Merging(all, done, ltmp, rtmp, salt, key);
    hide RandomCompare, Splice, Merged, Merging;
    var result := left;
    while |ltmp| > 0 && |rtmp| > 0
      invariant result == left + |done| && result + |ltmp| + |rtmp| == left + llength + rlength
      invariant Merging(all, done, ltmp, rtmp, salt, key) && arr[..] == Splice(was, left, done)
      decreases |ltmp| + |rtmp|
    {
      if RandomCompare(ltmp[0], rtmp[0], salt, key) <= 0 {
        MergingLeft(all, done, ltmp, rtmp, salt, key);
        Put(arr, result, ltmp[0], was, left, done);
        done, ltmp := done + [ltmp[0]], ltmp[1..];
      } else {
        MergingRight(all, done, ltmp, rtmp, salt, key);
        Put(arr, result, rtmp[0], was, left, done);
        done, rtmp := done + [rtmp[0]], rtmp[1..];
      }
      result := result + 1;
    }
    done := CopyRest(arr, result, ltmp, rtmp, salt, key, all, was, left, done);
  }

  /** The two loops behind the main one; at most one of them has something to do. */
  method CopyRest(arr: array<Byte>, result: nat, ltmp: seq<Byte>, rtmp: seq<Byte>, salt: nat, key: nat,
                  ghost all: seq<Byte>, ghost was: seq<Byte>, left: nat, ghost done: seq<Byte>)
    returns (ghost done': seq<Byte>)
    requires salt > 0 && (ltmp == [] || rtmp == []) && Merging(all, done, ltmp, rtmp, salt, key)
    requires result == left + |done| && result + |ltmp| + |rtmp| <= arr.Length == |was| &&
             arr[..] == Splice(was, left, done)
    modifies arr
    ensures left + |all| <= |was| && arr[..] == Splice(was, left, all)
  {
    var rest, at := if |ltmp| > 0 then ltmp else rtmp, result;
    done' := done;
    hide Splice;
    while |rest| > 0
      invariant at == left + |done'| && at + |rest| <= arr.Length
      invariant done' + rest == all && arr[..] == Splice(was, left, done')
      decreases |rest|
    {
      Put(arr, at, rest[0], was, left, done');
      Shift(done', rest[0], rest[1..]);
      done', rest, at := done' + [rest[0]], rest[1..], at + 1;
    }
    assert done' == all;
  }

  /** `*result = x`, where `done` has been written so far. */
  method Put(arr: array<Byte>, result: nat, x: Byte, ghost was: seq<Byte>, left: nat, ghost done: seq<Byte>)
    requires result == left + |done| < arr.Length == |was| && arr[..] == Splice(was, left, done)
    modifies arr
    ensures arr[..] == Splice(was, left, done + [x])
  {
    SplicePut(was, left, done, x);
    ghost var before := arr[..];
    arr[result] := x;
    assert arr[..] == before[result := x];
  }

  /** Half the length, cut to a byte. */
  function Middle(length: nat): (m: nat)
    requires length <= 256
    ensures m <= length && (length > 1 ==> 0 < m < length)
  {
    length / 2 % 256
  }

  lemma MiddleIsHalf(length: nat)
    requires length <= 256
    ensures Middle(length) == length / 2
  {
  }

  lemma MergeSortedSplit(s: seq<Byte>, llength: nat, salt: nat, key: nat)
    requires salt > 0 && 1 < |s| <= 256 && llength == |s| - Middle(|s|)
    ensures MergeSorted(s, salt, key) ==
            Merged(MergeSorted(s[..llength], salt, key), MergeSorted(s[llength..], salt, key), salt, key)
  {
    hide Middle, Merged;
    MiddleIsHalf(|s|);
  }

  lemma AtHalves(s: seq<Byte>, left: nat, m: seq<Byte>, llength: nat)
    requires At(s, left, m) && llength <= |m|
    ensures At(s, left, m[..llength]) && At(s, left + llength, m[llength..])
  {
    assert s[left..left+llength] == s[left..left+|m|][..llength];
    assert s[left+llength..left+llength+|m[llength..]|] == s[left..left+|m|][llength..];
  }

  lemma AtSpliced(s: seq<Byte>, left: nat, m: seq<Byte>, mid: nat, n: seq<Byte>)
    requires mid == left + |m| <= |s| && At(s, mid, n)
    ensures At(Splice(s, left, m), mid, n)
  {
    var t := Splice(s, left, m);
    assert t[mid..] == s[mid..];
    assert t[mid..mid+|n|] == t[mid..][..|n|] && s[mid..mid+|n|] == s[mid..][..|n|];
  }

  lemma SpliceSame(s: seq<Byte>, left: nat, m: seq<Byte>)
    requires At(s, left, m)
    ensures Splice(s, left, m) == s
  {
    assert s == s[..left] + s[left..left+|m|] + s[left+|m|..];
  }

  lemma AtBoth(s: seq<Byte>, left: nat, m: seq<Byte>, mid: nat, n: seq<Byte>)
    requires mid == left + |m| && mid + |n| <= |s|
    ensures Splice(Splice(s, left, m), mid, n) == Splice(s, left, m + n)
    ensures At(Splice(s, left, m + n), left, m) && At(Splice(s, left, m + n), mid, n)
  {
    AtFrom(s[..left], m, n + s[mid+|n|..]);
    AtFrom(s[..left] + m, n, s[mid+|n|..]);
    assert Splice(s, left, m + n) == s[..left] + m + (n + s[mid+|n|..]) == s[..left] + m + n + s[mid+|n|..];
  }

  lemma AtFrom(a: seq<Byte>, m: seq<Byte>, b: seq<Byte>)
    ensures At(a + m + b, |a|, m)
  {
  }

  /** `merge_sort`, of the part of an array that is `part`. */
  method MergeSort(arr: array<Byte>, left: nat, length: nat, salt: nat, key: nat, ghost part: seq<Byte>)
    requires salt > 0 && length == |part| <= 256 && At(arr[..], left, part)
    modifies arr
    ensures left + length <= arr.Length && arr[..] == Splice(old(arr[..]), left, MergeSorted(part, salt, key))
    decreases length, 1
  {
    if length <= 1 {
      SpliceSame(arr[..], left, part);
    } else {
      SortHalves(arr, left, length, salt, key, part);
    }
  }

  /** The two recursive calls of `merge_sort`, and the merge. */
  method SortHalves(arr: array<Byte>, left: nat, length: nat, salt: nat, key: nat, ghost part: seq<Byte>)
    requires salt > 0 && 1 < length == |part| <= 256 && At(arr[..], left, part)
    modifies arr
    ensures left + length <= arr.Length && arr[..] == Splice(old(arr[..]), left, MergeSorted(part, salt, key))
    decreases length, 0
  {
    ghost var was := arr[..];
    var middle := Middle(length);
    var llength := length - middle;
    var mid := left + llength;
    ghost var lpart, rpart := part[..llength], part[llength..];
    ghost var l, r := MergeSorted(lpart, salt, key), MergeSorted(rpart, salt, key);
    MergeSortedSplit(part, llength, salt, key);
    AtHalves(was, left, part, llength);
    hide Merged, Splice, MergeSorted, At, Middle;
    assert |lpart| == llength && |rpart| == middle;
    MergeSort(arr, left, llength, salt, key, lpart);
    AtSpliced(was, left, l, mid, rpart);
    MergeSort(arr, mid, middle, salt, key, rpart);
    AtBoth(was, left, l, mid, r);
    Merge(arr, left, llength, middle, salt, key, l, r);
    SpliceOver(was, left, l + r, Merged(l, r, salt, key));
  }

  // ----- the tables -----

  function Identity(): (s: seq<Byte>)
    ensures |s| == 256 && forall i :: 0 <= i < 256 ==> s[i] == i
  {
    seq(256, i requires 0 <= i < 256 => i)
  }

  /** `enc_table` after the rounds 1 to `n`. */
  function Rounds(n: nat, key: nat): (s: seq<Byte>)
    ensures |s| == 256
  {
    if n == 0 then Identity() else MergeSorted(Rounds(n - 1, key), n, key)
  }

  lemma {:induction false} RoundsPermute(n: nat, key: nat)
    requires n < 1024
    ensures multiset(Rounds(n, key)) == multiset(Identity())
  {
    if n > 0 {
      RoundsPermute(n - 1, key);
      SortedStable(Rounds(n - 1, key), n, key);
    }
  }

  lemma {:induction false} DistinctCounts(s: seq<Byte>, x: Byte)
    requires forall i, j :: 0 <= i < j < |s| ==> s[i] != s[j]
    ensures multiset(s)[x] <= 1
  {
    if s != [] {
      var n := |s| - 1;
      assert s == s[..n] + [s[n]];
      DistinctCounts(s[..n], x);
    }
  }

  lemma CountsDistinct(s: seq<Byte>, i: nat, j: nat)
    requires i < j < |s| && multiset(s)[s[i]] <= 1
    ensures s[i] != s[j]
  {
    assert s == s[..i] + [s[i]] + s[i+1..j] + [s[j]] + s[j+1..];
  }

  /** The encryption table is a permutation of all bytes. */
  lemma TableIsBijection(key: nat)
    ensures var t := Rounds(1023, key);
            (forall i, j :: 0 <= i < j < 256 ==> t[i] != t[j]) && forall b :: 0 <= b < 256 ==> b in t
  {
    hide Rounds;
    var t, id := Rounds(1023, key), Identity();
    RoundsPermute(1023, key);
    forall i, j | 0 <= i < j < 256
      ensures t[i] != t[j]
    {
      DistinctCounts(id, t[i]);
      CountsDistinct(t, i, j);
    }
    forall b | 0 <= b < 256
      ensures b in t
    {
      assert id[b] == b && b in multiset(id) && b in multiset(t);
    }
  }

  ghost predicate Inverse(enc: seq<Byte>, dec: seq<Byte>) {
    |enc| == |dec| == 256 && (forall i :: 0 <= i < 256 ==> dec[enc[i]] == i) &&
    forall b :: 0 <= b < 256 ==> enc[dec[b]] == b
  }

  method FillIdentity(enc: array<Byte>)
    requires enc.Length == 256
    modifies enc
    ensures enc[..] == Identity()
  {
    for i := 0 to 256
      invariant forall k :: 0 <= k < i ==> enc[k] == k
    {
      enc[i] := i;
    }
  }

  method SortRounds(enc: array<Byte>, key: nat)
    requires enc.Length == 256 && enc[..] == Identity()
    modifies enc
    ensures enc[..] == Rounds(1023, key)
  {
    hide MergeSorted, Identity, Splice;
    for i := 1 to 1024
      invariant enc[..] == Rounds(i - 1, key)
    {
      ghost var was := enc[..];
      assert was[0..256] == was;
      MergeSort(enc, 0, 256, i, key, was);
      SpliceAll(was, MergeSorted(was, i, key));
    }
  }

  lemma SpliceAll(s: seq<Byte>, m: seq<Byte>)
    requires |s| == |m|
    ensures Splice(s, 0, m) == m
  {
  }

  /** The decryption table from the encryption table. */
  method Invert(enc: array<Byte>, dec: array<Byte>)
    requires enc.Length == dec.Length == 256 && enc != dec
    requires forall i, j :: 0 <= i < j < 256 ==> enc[i] != enc[j]
    requires forall b :: 0 <= b < 256 ==> b in enc[..]
    modifies dec
    ensures Inverse(enc[..], dec[..])
  {
    for i := 0 to 256
      invariant forall k :: 0 <= k < i ==> dec[enc[k]] == k
    {
      dec[enc[i]] := i;
    }
    forall b | 0 <= b < 256
      ensures enc[dec[b]] == b
    {
      assert b in enc[..];
      var k :| 0 <= k < |enc[..]| && enc[..][k] == b;
      assert dec[enc[k]] == k;
    }
  }

  /** `enc_table_init`, with the key taken from the digest of the password. */
  method EncTableInit(key: nat) returns (enc: array<Byte>, dec: array<Byte>)
    requires key < UINT64
    ensures enc[..] == Rounds(1023, key) && Inverse(enc[..], dec[..])
  {
    enc, dec := new Byte[256](_ => 0), new Byte[256](_ => 0);
    FillIdentity(enc);
    SortRounds(enc, key);
    TableIsBijection(key);
    hide Rounds, Inverse;
    assert forall i :: 0 <= i < 256 ==> enc[i] == enc[..][i];
    Invert(enc, dec);
  }

  // ----- buffers -----

  function Mapped(table: seq<Byte>, s: seq<Byte>): (r: seq<Byte>)
    requires |table| == 256
    ensures |r| == |s|
  {
    seq(|s|, i requires 0 <= i < |s| => table[s[i]])
  }

  /** The loop of table mode, in `ss_encrypt` and `ss_decrypt` without a context. */
  method MapBuffer(buffer: array<Byte>, table: array<Byte>)
    requires table.Length == 256 && buffer != table
    modifies buffer
    ensures buffer[..] == Mapped(table[..], old(buffer[..]))
  {
    for i := 0 to buffer.Length
      invariant forall k :: 0 <= k < i ==> buffer[k] == table[old(buffer[k])]
      invariant forall k :: i <= k < buffer.Length ==> buffer[k] == old(buffer[k])
    {
      buffer[i] := table[buffer[i]];
    }
  }

  /** Decryption undoes encryption, and encryption decryption, on every buffer. */
  lemma TablesUndo(enc: seq<Byte>, dec: seq<Byte>, s: seq<Byte>)
    requires Inverse(enc, dec)
    ensures Mapped(dec, Mapped(enc, s)) == s && Mapped(enc, Mapped(dec, s)) == s
  {
    forall i | 0 <= i < |s|
      ensures Mapped(dec, Mapped(enc, s))[i] == s[i] && Mapped(enc, Mapped(dec, s))[i] == s[i]
    {
      assert Mapped(enc, s)[i] == enc[s[i]] && Mapped(dec, s)[i] == dec[s[i]];
    }
  }
}
