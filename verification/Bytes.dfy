/** Bytes, bits, buffers, and pieces of byte streams put together. */
module Bytes {

  type Byte = x: int | 0 <= x < 256

  function Join<T>(pieces: seq<seq<T>>): seq<T> {
    if pieces == [] then [] else pieces[0] + Join(pieces[1..])
  }

  lemma {:induction false} JoinConcat<T>(a: seq<seq<T>>, b: seq<seq<T>>)
    ensures Join(a + b) == Join(a) + Join(b)
  {
    if a == [] {
      assert a + b == b;
    } else {
      assert (a + b)[1..] == a[1..] + b;
      JoinConcat(a[1..], b);
    }
  }

  lemma JoinSnoc<T>(a: seq<seq<T>>, x: seq<T>)
    ensures Join(a + [x]) == Join(a) + x
  {
    JoinConcat(a, [x]);
    assert Join([x]) == x + Join<T>([]);
  }

  // ----- bits -----

  function Pow2(k: nat): (r: nat)
    ensures r > 0
  {
    if k == 0 then 1 else 2 * Pow2(k - 1)
  }

  /** `x ^ y`, on the lowest `k` bits. */
  function XorBits(x: nat, y: nat, k: nat): (r: nat)
    ensures r < Pow2(k)
  {
    if k == 0 then 0 else (if x % 2 == y % 2 then 0 else 1) + 2 * XorBits(x / 2, y / 2, k - 1)
  }

  lemma {:induction false} XorBitsTwice(x: nat, y: nat, k: nat)
    requires x < Pow2(k)
    ensures XorBits(XorBits(x, y, k), y, k) == x
  {
    if k > 0 {
      var r := XorBits(x, y, k);
      assert r / 2 == XorBits(x / 2, y / 2, k - 1);
      XorBitsTwice(x / 2, y / 2, k - 1);
    }
  }

  lemma EightBits()
    ensures Pow2(8) == 256
  {
    assert Pow2(4) == 16;
  }

  /** `x ^ y` */
  function Xor(x: Byte, y: Byte): Byte {
    EightBits();
    XorBits(x, y, 8)
  }

  lemma XorTwice(x: Byte, y: Byte)
    ensures Xor(Xor(x, y), y) == x
  {
    hide XorBits, Pow2;
    EightBits();
    XorBitsTwice(x, y, 8);
  }

  /** `x & y`, on the lowest `k` bits. */
  function AndBits(x: nat, y: nat, k: nat): nat {
    if k == 0 then 0 else (if x % 2 == 1 && y % 2 == 1 then 1 else 0) + 2 * AndBits(x / 2, y / 2, k - 1)
  }

  lemma {:induction false} AndNothing(x: nat, w: nat)
    ensures AndBits(x, 0, w) == 0
  {
    if w > 0 {
      AndNothing(x / 2, w - 1);
    }
  }

  lemma Remainder(x: nat, d: nat, a: nat, r: nat)
    requires x == d * a + r && r < d
    ensures x % d == r
  {
    var q := x / d;
    assert x == d * q + x % d;
    if q > a {
      Multiples(d, a + 1, q);
      Multiples(d, a, a);
    } else if q < a {
      Multiples(d, q + 1, a);
      Multiples(d, q, q);
    }
  }

  lemma Multiples(d: nat, a: nat, b: nat)
    requires a <= b
    ensures d * a <= d * b && d * (a + 1) == d * a + d
  {
  }

  /** The remainder of a division by `2 * m`, bit by bit. */
  lemma RemainderOfTwice(x: nat, m: nat)
    requires m > 0
    ensures x % (2 * m) == x % 2 + 2 * (x / 2 % m)
  {
    var q, b := x / 2, x % 2;
    var a, r := q / m, q % m;
    assert q == m * a + r;
    assert x == 2 * (m * a) + 2 * r + b;
    assert 2 * (m * a) == (2 * m) * a;
    Remainder(x, 2 * m, a, 2 * r + b);
  }

  /** Masking with all the bits below `Pow2(k)` is the remainder of a division by it. */
  lemma {:induction false} MaskIsRemainder(x: nat, k: nat, w: nat)
    requires k <= w && x < Pow2(w)
    ensures AndBits(x, Pow2(k) - 1, w) == x % Pow2(k)
  {
    if k == 0 {
      AndNothing(x, w);
    } else {
      var m := Pow2(k - 1);
      MaskIsRemainder(x / 2, k - 1, w - 1);
      assert (Pow2(k) - 1) / 2 == m - 1 && (Pow2(k) - 1) % 2 == 1;
      RemainderOfTwice(x, m);
    }
  }

  // ----- buffers -----

  /** `memcpy(data + at, s, |s|)` */
  method Copy(data: array<Byte>, at: nat, s: seq<Byte>) returns (next: nat)
    requires at + |s| <= data.Length
    modifies data
    ensures next == at + |s| && data[..next] == old(data[..at]) + s
    ensures forall i :: 0 <= i < data.Length ==> data[i] == if at <= i < at + |s| then s[i-at] else old(data[i])
  {
    next := at;
    while next < at + |s|
      invariant at <= next <= at + |s|
      invariant forall i :: 0 <= i < data.Length ==> data[i] == if at <= i < next then s[i-at] else old(data[i])
    {
      data[next] := s[next-at];
      next := next + 1;
    }
  }
}
