/**
 The salsa20 and chacha20 branches of `ss_encrypt` and `ss_decrypt` in shadowsocksr-native/src/encrypt.c: a keystream
 that can only be addressed by blocks of 64 bytes is used at any byte offset by padding in front.
 */
module SodiumStream {
  import opened Bytes
  import opened LruCache

  const SODIUM_BLOCK_SIZE: nat := 64

  /** A stream cipher under one key: `block(iv, n)` is block `n` of its keystream. */
  datatype StreamCipher = StreamCipher(ivLen: nat, ietf: bool, block: (seq<Byte>, nat) -> seq<Byte>)

  ghost predicate Blocky(c: StreamCipher) { forall iv, n :: |c.block(iv, n)| == SODIUM_BLOCK_SIZE }

  /** The block counter of the ietf variant has 32 bits, that of the others 64. */
  function CounterRange(c: StreamCipher): nat { if c.ietf then 0x1_0000_0000 else 0x1_0000_0000_0000_0000 }

  /** How long a stream may get: all counters in use stay in range. */
  function Limit(c: StreamCipher): nat { if c.ietf then 64 * 0x1_0000_0000 else 0x1_0000_0000_0000_0000 }

  /** `crypto_stream_xor_ic`: the counter `ic` is cut to the width of the variant's counter. */
  function XorIc(c: StreamCipher, m: seq<Byte>, iv: seq<Byte>, ic: nat): (r: seq<Byte>)
    requires Blocky(c)
    ensures |r| == |m|
  {
    seq(|m|, i requires 0 <= i < |m| => Xor(m[i], c.block(iv, (ic + i / 64) % CounterRange(c))[i % 64]))
  }

  /** Byte `pos` of the keystream. */
  function KeyByte(c: StreamCipher, iv: seq<Byte>, pos: nat): Byte
    requires Blocky(c)
  {
    c.block(iv, pos / 64)[pos % 64]
  }

  /** `m` combined with the keystream from byte `pos` on. */
  function XorAt(c: StreamCipher, iv: seq<Byte>, pos: nat, m: seq<Byte>): (r: seq<Byte>)
    requires Blocky(c)
    ensures |r| == |m|
  {
    seq(|m|, i requires 0 <= i < |m| => Xor(m[i], KeyByte(c, iv, pos + i)))
  }

  function Zeros(n: nat): (r: seq<Byte>)
    ensures |r| == n
  {
    seq(n, _ => 0)
  }

  lemma BlockOf(pos: nat, i: nat)
    ensures (pos % 64 + i) / 64 + pos / 64 == (pos + i) / 64 && (pos % 64 + i) % 64 == (pos + i) % 64
  {
  }

  lemma InRange(c: StreamCipher, pos: nat)
    requires pos < Limit(c)
    ensures pos / 64 < CounterRange(c) && (pos / 64) % CounterRange(c) == pos / 64
  {
  }

  /** Padding up to a block boundary and dropping the padding afterwards addresses the keystream by bytes. */
  lemma PaddingTrick(c: StreamCipher, iv: seq<Byte>, pos: nat, m: seq<Byte>)
    requires Blocky(c) && pos + |m| <= Limit(c)
    ensures XorIc(c, Zeros(pos % 64) + m, iv, pos / 64)[pos % 64..] == XorAt(c, iv, pos, m)
  {
    hide Xor;
    var p := pos % 64;
    var padded := XorIc(c, Zeros(p) + m, iv, pos / 64);
    forall i | 0 <= i < |m|
      ensures padded[p + i] == XorAt(c, iv, pos, m)[i]
    {
      BlockOf(pos, i);
      InRange(c, pos + i);
    }
  }

  /** Pieces combined at their offsets are the whole combined. */
  lemma XorPieces(c: StreamCipher, iv: seq<Byte>, pos: nat, a: seq<Byte>, b: seq<Byte>)
    requires Blocky(c)
    ensures XorAt(c, iv, pos, a + b) == XorAt(c, iv, pos, a) + XorAt(c, iv, pos + |a|, b)
  {
    forall i | 0 <= i < |a + b|
      ensures XorAt(c, iv, pos, a + b)[i] == (XorAt(c, iv, pos, a) + XorAt(c, iv, pos + |a|, b))[i]
    {
    }
  }

  lemma XorAtTwice(c: StreamCipher, iv: seq<Byte>, pos: nat, m: seq<Byte>)
    requires Blocky(c)
    ensures XorAt(c, iv, pos, XorAt(c, iv, pos, m)) == m
  {
    forall i | 0 <= i < |m|
      ensures XorAt(c, iv, pos, XorAt(c, iv, pos, m))[i] == m[i]
    {
      XorTwice(m[i], KeyByte(c, iv, pos + i));
    }
  }

  /** One direction of a connection, encrypting. */
  class Encryptor {
    const c: StreamCipher
    const iv: seq<Byte>
    var init: bool
    var counter: nat
    ghost var plain: seq<Byte>
    ghost var wire: seq<Byte>

    ghost predicate Valid()
      reads this
    {
      Blocky(c) && |iv| == c.ivLen && |plain| <= Limit(c) &&
      if init then counter == |plain| && wire == iv + XorAt(c, iv, 0, plain) else plain == [] && wire == []
    }

    constructor (c: StreamCipher, iv: seq<Byte>)
      requires Blocky(c) && |iv| == c.ivLen
      ensures Valid() && this.c == c && this.iv == iv && plain == []
    {
      this.c, this.iv := c, iv;
      init, counter, plain, wire := false, 0, [], [];
    }

    /** `ss_encrypt`: the IV in front of the first piece, and the piece at its offset. */
    method SsEncrypt(data: seq<Byte>) returns (out: seq<Byte>)
      requires Valid() && |plain| + |data| <= Limit(c)
      modifies this
      ensures Valid() && init && plain == old(plain) + data && wire == old(wire) + out
      ensures out == (if old(init) then [] else iv) + XorAt(c, iv, |old(plain)|, data)
    {
      var pos := if init then counter else 0;
      PaddingTrick(c, iv, pos, data);
      NextPiece(c, iv, plain, data);
      NoPiece(c, iv);
      hide XorIc, XorAt, Zeros;
      out := [];
      if !init {
        out, counter, init := iv, 0, true;
      }
      var padding := counter % SODIUM_BLOCK_SIZE;
      var buffer := XorIc(c, Zeros(padding) + data, iv, counter / SODIUM_BLOCK_SIZE);
      counter := counter + |data|;
      out := out + buffer[padding..];
      plain, wire := plain + data, wire + out;
    }
  }

  lemma NextPiece(c: StreamCipher, iv: seq<Byte>, a: seq<Byte>, b: seq<Byte>)
    requires Blocky(c)
    ensures iv + XorAt(c, iv, 0, a + b) == iv + XorAt(c, iv, 0, a) + XorAt(c, iv, |a|, b)
  {
    XorPieces(c, iv, 0, a, b);
  }

  lemma NoPiece(c: StreamCipher, iv: seq<Byte>)
    requires Blocky(c)
    ensures iv + XorAt(c, iv, 0, []) == iv
  {
  }

  /** One direction of a connection, decrypting. */
  class Decryptor {
    const c: StreamCipher
    var iv: seq<Byte>
    var init: bool
    var counter: nat
    ghost var received: seq<Byte>
    ghost var given: seq<Byte>

    ghost predicate Valid()
      reads this
    {
      Blocky(c) &&
      if init then
        c.ivLen <= |received| && iv == received[..c.ivLen] && counter == |received| - c.ivLen <= Limit(c) &&
        given == XorAt(c, iv, 0, received[c.ivLen..])
      else received == [] && given == []
    }

    constructor (c: StreamCipher)
      requires Blocky(c)
      ensures Valid() && this.c == c && received == []
    {
      this.c := c;
      iv, init, counter, received, given := [], false, 0, [], [];
    }

    method StartAt(iv: seq<Byte>)
      requires Valid() && !init && |iv| == c.ivLen
      modifies this
      ensures Valid() && init && received == iv == this.iv && given == []
    {
      this.iv, counter, init, received := iv, 0, true, iv;
    }

    /** The first piece has to hold the whole IV, and the IV must not be one of the recent ones. */
    method TakeIv(data: seq<Byte>, ivCache: Cache<seq<Byte>, ()>, now: real) returns (ok: bool)
      requires Valid() && !init && ivCache.Valid() && this !in ivCache.Repr()
      modifies this, ivCache.Repr()
      ensures ivCache.Valid() && fresh(ivCache.Repr() - old(ivCache.Repr()))
      ensures ok <==> |data| >= c.ivLen && IndexOf(old(ivCache.contents), data[..c.ivLen]) == |old(ivCache.contents)|
      ensures ivCache.contents == if |data| < c.ivLen then old(ivCache.contents)
                                  else Used(old(ivCache.contents), data[..c.ivLen], (), now, ivCache.maxEntries)
      ensures ok ==> Valid() && init && received == data[..c.ivLen] && given == []
    {
      if |data| < c.ivLen {
        return false;
      }
      StartAt(data[..c.ivLen]);
      assert ivCache.Valid() && ivCache.Repr() == old(ivCache.Repr());
      hide Cache.Valid, Used, IndexOf, Valid, Cache.Repr;
      var found := ivCache.Use(iv, (), now);
      assert Valid();
      ok := !found;
    }

    /** A later piece, or what follows the IV in the first one. */
    method Continue(data: seq<Byte>) returns (out: seq<Byte>)
      requires Valid() && init && counter + |data| <= Limit(c)
      modifies this
      ensures Valid() && init && received == old(received) + data && given == old(given) + out
      ensures out == XorAt(c, iv, |old(given)|, data)
    {
      PaddingTrick(c, iv, counter, data);
      XorPieces(c, iv, 0, received[c.ivLen..], data);
      assert (received + data)[c.ivLen..] == received[c.ivLen..] + data;
      assert (received + data)[..c.ivLen] == received[..c.ivLen];
      hide XorIc, XorAt, Zeros;
      var padding := counter % SODIUM_BLOCK_SIZE;
      var buffer := XorIc(c, Zeros(padding) + data, iv, counter / SODIUM_BLOCK_SIZE);
      counter := counter + |data|;
      out := buffer[padding..];
      received, given := received + data, given + out;
    }

    /** `ss_decrypt` */
    method SsDecrypt(data: seq<Byte>, ivCache: Cache<seq<Byte>, ()>, now: real) returns (ok: bool, out: seq<Byte>)
      requires Valid() && ivCache.Valid() && this !in ivCache.Repr() && |received| + |data| <= Limit(c)
      modifies this, ivCache.Repr()
      ensures ivCache.Valid() && fresh(ivCache.Repr() - old(ivCache.Repr()))
      ensures ok <==> old(init) ||
                      (|data| >= c.ivLen && IndexOf(old(ivCache.contents), data[..c.ivLen]) == |old(ivCache.contents)|)
      ensures ok ==> Valid() && init && received == old(received) + data && given == old(given) + out
    {
      hide Cache.Valid, IndexOf, Used, XorAt;
      var rest := data;
      if !init {
        ok := TakeIv(data, ivCache, now);
        if !ok {
          return false, [];
        }
        rest := data[c.ivLen..];
      }
      out := Continue(rest);
      ok := true;
    }
  }

  /**
   However the sender's plaintext was cut and however the bytes on the wire are cut, as long as the first piece holds
   the IV: what the receiver has given out is what the sender was given, as far as the bytes have arrived.
   */
  lemma RoundTrip(e: Encryptor, d: Decryptor)
    requires e.Valid() && d.Valid() && e.init && d.init && e.c == d.c && d.received <= e.wire
    ensures d.given <= e.plain && |d.given| == |d.received| - d.c.ivLen
    ensures d.received == e.wire ==> d.given == e.plain
  {
    var c := e.c;
    var n := |d.received| - c.ivLen;
    assert d.iv == e.iv by {
      assert d.received[..c.ivLen] == e.wire[..c.ivLen] == e.iv;
    }
    assert d.received[c.ivLen..] == XorAt(c, e.iv, 0, e.plain)[..n] by {
      assert d.received == e.wire[..|d.received|];
    }
    assert e.plain == e.plain[..n] + e.plain[n..];
    XorPieces(c, e.iv, 0, e.plain[..n], e.plain[n..]);
    assert d.received[c.ivLen..] == XorAt(c, e.iv, 0, e.plain[..n]);
    XorAtTwice(c, e.iv, 0, e.plain[..n]);
  }
}
