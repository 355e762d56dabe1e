/**
 Key derivation of shadowsocksr-native/src/aead.c and encrypt.c: HKDF-Expand (RFC 5869, section 2.3) and the three
 loops that stretch a password with a chain of MD5 digests.
 */
module KeyDerivation {
  import opened Bytes

  // ----- HKDF-Expand -----

  /** A keyed hash with results of `hashLen` bytes. */
  datatype Hmac = Hmac(hashLen: nat, hash: (seq<Byte>, seq<Byte>) -> seq<Byte>)

  ghost predicate Sized(h: Hmac) { h.hashLen > 0 && forall k, m :: |h.hash(k, m)| == h.hashLen }

  /** T(i) of section 2.3; T(0) is empty. */
  function T(h: Hmac, prk: seq<Byte>, info: seq<Byte>, i: nat): seq<Byte>
    requires i < 256
  {
    if i == 0 then [] else h.hash(prk, T(h, prk, info, i - 1) + info + [i])
  }

  /** T(1) || T(2) || ... || T(n) */
  function Ts(h: Hmac, prk: seq<Byte>, info: seq<Byte>, n: nat): seq<Byte>
    requires n < 256
  {
    if n == 0 then [] else Ts(h, prk, info, n - 1) + T(h, prk, info, n)
  }

  lemma {:induction false} TsLength(h: Hmac, prk: seq<Byte>, info: seq<Byte>, n: nat)
    requires Sized(h) && n < 256
    ensures |Ts(h, prk, info, n)| == n * h.hashLen
  {
    if n > 0 {
      TsLength(h, prk, info, n - 1);
      NextProduct(n - 1, h.hashLen);
    }
  }

  lemma NextProduct(n: nat, m: nat)
    ensures (n + 1) * m == n * m + m
  {
  }

  /** How many blocks `len` bytes need. */
  function Blocks(len: nat, hashLen: nat): nat
    requires hashLen > 0
  {
    len / hashLen + if len % hashLen != 0 then 1 else 0
  }

  lemma BlocksFit(len: nat, hashLen: nat)
    requires hashLen > 0
    ensures var n := Blocks(len, hashLen);
            len <= n * hashLen && (n > 0 ==> (n - 1) * hashLen < len) && (n == 0 <==> len == 0)
  {
    var q, r := len / hashLen, len % hashLen;
    assert len == q * hashLen + r;
    NextProduct(q, hashLen);
    if r == 0 && q > 0 {
      NextProduct(q - 1, hashLen);
    }
  }

  lemma ProductsInOrder(a: nat, b: nat, m: nat)
    requires a <= b
    ensures a * m <= b * m
  {
  }

  /** At most 255 blocks are needed exactly if at most 255 hash lengths are asked for. */
  lemma BlocksBound(len: nat, hashLen: nat)
    requires hashLen > 0
    ensures Blocks(len, hashLen) <= 255 <==> len <= 255 * hashLen
  {
    BlocksFit(len, hashLen);
    var n := Blocks(len, hashLen);
    hide Blocks;
    if n <= 255 {
      ProductsInOrder(n, 255, hashLen);
    } else {
      ProductsInOrder(255, n - 1, hashLen);
    }
  }

  /** Block `i` of `n` starts inside the output; all but the last one end inside, the last one reaches its end. */
  lemma BlockFits(h: Hmac, prk: seq<Byte>, info: seq<Byte>, i: nat, n: nat, len: nat)
    requires Sized(h) && 1 <= i <= n == Blocks(len, h.hashLen) && n < 256
    ensures |Ts(h, prk, info, i - 1)| < len && |Ts(h, prk, info, i)| == |Ts(h, prk, info, i - 1)| + h.hashLen
    ensures if i < n then |Ts(h, prk, info, i)| <= len else len <= |Ts(h, prk, info, i)|
  {
    TsLength(h, prk, info, i - 1);
    TsLength(h, prk, info, i);
    BlocksFit(len, h.hashLen);
    hide Blocks, Ts, Sized;
    NextProduct(i - 1, h.hashLen);
    ProductsInOrder(i - 1, n - 1, h.hashLen);
    if i < n {
      ProductsInOrder(i, n - 1, h.hashLen);
    }
  }

  /** The output after block `i`: a prefix of the blocks that ends with them or with the output. */
  ghost predicate Expanded(h: Hmac, prk: seq<Byte>, info: seq<Byte>, i: nat, out: seq<Byte>, len: nat)
    requires i < 256
  {
    var ts := Ts(h, prk, info, i);
    out == if |ts| <= len then ts else ts[..len]
  }

  /** `crypto_hkdf_expand`: an error beyond 255 hash lengths, else exactly the first bytes of the blocks. */
  method HkdfExpand(h: Hmac, prk: seq<Byte>, info: seq<Byte>, okm: array<Byte>) returns (ok: bool)
    requires Sized(h)
    modifies okm
    ensures ok <==> |prk| >= h.hashLen && okm.Length <= 255 * h.hashLen
    ensures ok ==> var n := Blocks(okm.Length, h.hashLen);
                   n < 256 && okm.Length <= |Ts(h, prk, info, n)| && okm[..] == Ts(h, prk, info, n)[..okm.Length]
  {
    if |prk| < h.hashLen {
      return false;
    }
    var n := Blocks(okm.Length, h.hashLen);
    BlocksFit(okm.Length, h.hashLen);
    BlocksBound(okm.Length, h.hashLen);
    if n > 255 {
      return false;
    }
    hide Blocks, Sized, Expanded, Ts;
    assert Expanded(h, prk, info, 0, okm[..0], okm.Length) by { ExpandedNothing(h, prk, info, okm.Length); }
    var t: seq<Byte>, where: nat := [], 0;
    for i := 1 to n + 1
      invariant t == T(h, prk, info, i - 1) && where <= okm.Length
      invariant Expanded(h, prk, info, i - 1, okm[..where], okm.Length)
    {
      t := h.hash(prk, t + info + [i]);
      where := ExpandBlock(h, prk, info, okm, i, n, where, t);
    }
    if n > 0 {
      BlockFits(h, prk, info, n, n, okm.Length);
    }
    AllExpanded(h, prk, info, n, okm[..where], okm.Length);
    assert where == okm.Length && okm[..where] == okm[..];
    ok := true;
  }

  lemma ExpandedNothing(h: Hmac, prk: seq<Byte>, info: seq<Byte>, len: nat)
    ensures Expanded(h, prk, info, 0, [], len)
  {
  }

  lemma AllExpanded(h: Hmac, prk: seq<Byte>, info: seq<Byte>, n: nat, out: seq<Byte>, len: nat)
    requires n < 256 && Expanded(h, prk, info, n, out, len) && len <= |Ts(h, prk, info, n)|
    ensures |out| == len && out == Ts(h, prk, info, n)[..len]
  {
  }

  /** The copy of one block. */
  method ExpandBlock(h: Hmac, prk: seq<Byte>, info: seq<Byte>, okm: array<Byte>, i: nat, n: nat, where: nat,
                     t: seq<Byte>)
    returns (next: nat)
    requires Sized(h) && 1 <= i <= n == Blocks(okm.Length, h.hashLen) && n < 256 && t == T(h, prk, info, i)
    requires where <= okm.Length && Expanded(h, prk, info, i - 1, okm[..where], okm.Length)
    modifies okm
    ensures next <= okm.Length && Expanded(h, prk, info, i, okm[..next], okm.Length)
  {
    BlockFits(h, prk, info, i, n, okm.Length);
    assert |t| == h.hashLen;
    hide Blocks, T, Sized;
    var take := if i != n then h.hashLen else okm.Length - where;
    ghost var ts := Ts(h, prk, info, i - 1);
    assert okm[..where] == ts && Ts(h, prk, info, i) == ts + t;
    next := Copy(okm, where, t[..take]);
    assert (ts + t)[..next] == ts + t[..take];
  }

  // ----- the MD5 chains -----

  const MD5_SIZE: nat := 16

  ghost predicate IsMd5(md5: seq<Byte> -> seq<Byte>) { forall m :: |md5(m)| == MD5_SIZE }

  /** D(1) = MD5(pass), D(i+1) = MD5(D(i) || pass). */
  function D(md5: seq<Byte> -> seq<Byte>, pass: seq<Byte>, i: nat): seq<Byte>
    requires i > 0
  {
    if i == 1 then md5(pass) else md5(D(md5, pass, i - 1) + pass)
  }

  /** D(1) || ... || D(n) */
  function Chain(md5: seq<Byte> -> seq<Byte>, pass: seq<Byte>, n: nat): seq<Byte> {
    if n == 0 then [] else Chain(md5, pass, n - 1) + D(md5, pass, n)
  }

  lemma {:induction false} ChainLength(md5: seq<Byte> -> seq<Byte>, pass: seq<Byte>, n: nat)
    requires IsMd5(md5)
    ensures |Chain(md5, pass, n)| == 16 * n
  {
    if n > 0 {
      ChainLength(md5, pass, n - 1);
    }
  }

  /** The first `len` bytes of the chain. */
  function Key(md5: seq<Byte> -> seq<Byte>, pass: seq<Byte>, len: nat): seq<Byte>
    requires IsMd5(md5)
  {
    ChainLength(md5, pass, len / 16 + 1);
    Chain(md5, pass, len / 16 + 1)[..len]
  }

  /** Longer chains begin with shorter ones. */
  lemma {:induction false} ChainPrefix(md5: seq<Byte> -> seq<Byte>, pass: seq<Byte>, m: nat, n: nat)
    requires IsMd5(md5) && m <= n
    ensures Chain(md5, pass, m) <= Chain(md5, pass, n)
  {
    if m < n {
      ChainPrefix(md5, pass, m, n - 1);
    }
  }

  /** Any prefix of any chain is the key of its length. */
  lemma PrefixIsKey(md5: seq<Byte> -> seq<Byte>, pass: seq<Byte>, n: nat, len: nat)
    requires IsMd5(md5) && len <= 16 * n
    ensures |Chain(md5, pass, n)| == 16 * n && Chain(md5, pass, n)[..len] == Key(md5, pass, len)
  {
    ChainLength(md5, pass, n);
    var m := len / 16 + 1;
    ChainLength(md5, pass, m);
    if m <= n {
      ChainPrefix(md5, pass, m, n);
    } else {
      ChainPrefix(md5, pass, n, m);
    }
  }

  /** `crypto_derive_key`, and the loop of `bytes_to_key`. */
  method DeriveKey(md5: seq<Byte> -> seq<Byte>, pass: seq<Byte>, key: array<Byte>)
    requires IsMd5(md5)
    modifies key
    ensures key[..] == Key(md5, pass, key.Length)
  {
    var j, addmd, digest := 0, 0, [];
    while j < key.Length
      invariant j <= key.Length && j <= 16 * addmd && (j < key.Length ==> j == 16 * addmd)
      invariant addmd > 0 ==> digest == D(md5, pass, addmd)
      invariant |Chain(md5, pass, addmd)| == 16 * addmd && key[..j] == Chain(md5, pass, addmd)[..j]
      decreases key.Length - j
    {
      digest := md5(if addmd > 0 then digest + pass else pass);
      addmd := addmd + 1;
      ChainLength(md5, pass, addmd);
      j := CopyDigest(key, j, digest);
    }
    PrefixIsKey(md5, pass, addmd, key.Length);
  }

  /** The inner loop: as much of the digest as fits. */
  method CopyDigest(key: array<Byte>, j: nat, digest: seq<Byte>) returns (j': nat)
    requires j <= key.Length && |digest| == MD5_SIZE
    modifies key
    ensures j' == (if j + 16 <= key.Length then j + 16 else key.Length) && key[..j'] == old(key[..j]) + digest[..j'-j]
  {
    j' := j;
    var i := 0;
    while i < MD5_SIZE && j' < key.Length
      invariant i <= MD5_SIZE && j' == j + i <= key.Length && key[..j'] == old(key[..j]) + digest[..i]
    {
      key[j'] := digest[i];
      i, j' := i + 1, j' + 1;
    }
  }

  /** `bytes_to_key_with_size`, whose buffer has room for a digest and a password of 112 bytes. */
  method BytesToKeyWithSize(md5: seq<Byte> -> seq<Byte>, pass: seq<Byte>, md: array<Byte>)
    requires IsMd5(md5) && |pass| <= 112 && md.Length % 16 == 0 && md.Length > 0
    modifies md
    ensures md[..] == Key(md5, pass, md.Length)
  {
    var result := md5(pass);
    assert md[..0] == [];
    var i := Copy(md, 0, result);
    ghost var n := 1;
    assert Chain(md5, pass, 1) == Chain(md5, pass, 0) + D(md5, pass, 1) == result;
    while i < md.Length
      invariant i == 16 * n <= md.Length && result == D(md5, pass, n) && md[..i] == Chain(md5, pass, n)
    {
      result := md5(result + pass);
      n := n + 1;
      i := Copy(md, i, result);
    }
    PrefixIsKey(md5, pass, n, md.Length);
  }
}
