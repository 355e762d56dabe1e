/**
 The AEAD stream of shadowsocksr-native/src/aead.c: a salt, then chunks of a sealed length and a sealed payload, with
 a nonce that counts. The primitives are functions with an inverse contract.
 */
module AeadStream {
  import opened Bytes
  import opened PpBloom
  import opened Wrappers

  type Key = seq<Byte>

  /** A cipher method under one master key. */
    datatype Crypto = Crypto(
    saltLen: nat,
    tagLen: nat,
    /** How many nonces there are: 256 to the power `nonce_len`. */
    nonces: nat,
    subkey: seq<Byte> -> Key,
    seal: (Key, nat, seq<Byte>) -> seq<Byte>,
    open: (Key, nat, seq<Byte>) -> Option<seq<Byte>>)

  /** Open inverts Seal under the same key and nonce; a sealed message is longer by the tag. */
  ghost predicate Correct(c: Crypto) {
    c.nonces > 0 &&
    (forall k, n, m :: |c.seal(k, n, m)| == |m| + c.tagLen && c.open(k, n, c.seal(k, n, m)) == Some(m)) &&
    (forall k, n, x :: c.open(k, n, x).Some? ==> |c.open(k, n, x).value| + c.tagLen == |x|)
  }

  const CHUNK_SIZE_LEN: nat := 2
  const CHUNK_SIZE_MASK: nat := 0x3FFF

  /** `sodium_increment` */
  function Next(c: Crypto, n: nat): nat
    requires c.nonces > 0
  {
    if n + 1 < c.nonces then n + 1 else 0
  }

  // ----- the format -----

  function LengthBytes(n: nat): seq<Byte> { [n / 256 % 256, n % 256] }

  function LengthOf(b: seq<Byte>): nat
    requires |b| == CHUNK_SIZE_LEN
  {
    (b[0] * 256 + b[1]) % (CHUNK_SIZE_MASK + 1)
  }

  function ChunkSize(c: Crypto, length: nat): nat { 2 * c.tagLen + CHUNK_SIZE_LEN + length }

  /** One chunk on the wire. */
  function Chunk(c: Crypto, k: Key, n: nat, m: seq<Byte>): seq<Byte>
    requires c.nonces > 0
  {
    c.seal(k, n, LengthBytes(|m|)) + c.seal(k, Next(c, n), m)
  }

  function Chunks(c: Crypto, k: Key, n: nat, ms: seq<seq<Byte>>): seq<Byte>
    requires c.nonces > 0
    decreases |ms|
  {
    if ms == [] then [] else Chunk(c, k, n, ms[0]) + Chunks(c, k, Next(c, Next(c, n)), ms[1..])
  }

  /** The nonce `i` steps after `n`. */
  function Later(c: Crypto, n: nat, i: nat): nat
    requires c.nonces > 0
    decreases i
  {
    if i == 0 then n else Later(c, Next(c, n), i - 1)
  }

  /** Until the nonces are used up, the nonce is the number of steps. */
  lemma {:induction false} LaterIs(c: Crypto, n: nat, i: nat)
    requires n + i < c.nonces
    ensures Later(c, n, i) == n + i
    decreases i
  {
    if i > 0 {
      LaterIs(c, Next(c, n), i - 1);
    }
  }

  lemma {:induction false} LaterSnoc(c: Crypto, n: nat, i: nat)
    requires c.nonces > 0
    ensures Later(c, n, i + 1) == Next(c, Later(c, n, i))
    decreases i
  {
    if i > 0 {
      LaterSnoc(c, Next(c, n), i - 1);
    }
  }

  // ----- decoding, as a function of all bytes received -----

  datatype Cut = Stop | Bad | Whole(plain: seq<Byte>, size: nat)

  /** `aead_chunk_decrypt` */
  function CutOne(c: Crypto, k: Key, n: nat, data: seq<Byte>): (r: Cut)
    requires c.nonces > 0
    ensures r.Whole? ==> 0 < r.size <= |data|
  {
    if |data| <= 2 * c.tagLen + CHUNK_SIZE_LEN then Stop
    else
      var header := c.open(k, n, data[..CHUNK_SIZE_LEN+c.tagLen]);
      if header.None? || |header.value| != CHUNK_SIZE_LEN || LengthOf(header.value) == 0 then Bad
      else
        var size := ChunkSize(c, LengthOf(header.value));
        if |data| < size then Stop
        else
          var payload := c.open(k, Next(c, n), data[CHUNK_SIZE_LEN+c.tagLen..size]);
          if payload.None? then Bad else Whole(payload.value, size)
  }

  datatype Parsed = Parsed(ok: bool, plain: seq<Byte>, count: nat, rest: seq<Byte>, nonce: nat)

  function Parse(c: Crypto, k: Key, n: nat, data: seq<Byte>): Parsed
    requires c.nonces > 0
    decreases |data|
  {
    match CutOne(c, k, n, data)
    case Stop => Parsed(true, [], 0, data, n)
    case Bad => Parsed(false, [], 0, data, n)
    case Whole(plain, size) =>
      var r := Parse(c, k, Next(c, Next(c, n)), data[size..]);
      Parsed(r.ok, plain + r.plain, r.count + 1, r.rest, r.nonce)
  }

  /** More bytes do not change what has been decided. */
  lemma CutMore(c: Crypto, k: Key, n: nat, data: seq<Byte>, more: seq<Byte>)
    requires c.nonces > 0 && !CutOne(c, k, n, data).Stop?
    ensures CutOne(c, k, n, data + more) == CutOne(c, k, n, data)
  {
    assert (data + more)[..CHUNK_SIZE_LEN+c.tagLen] == data[..CHUNK_SIZE_LEN+c.tagLen];
    var header := c.open(k, n, data[..CHUNK_SIZE_LEN+c.tagLen]);
    if header.Some? && |header.value| == CHUNK_SIZE_LEN && LengthOf(header.value) > 0 {
      var size := ChunkSize(c, LengthOf(header.value));
      assert (data + more)[CHUNK_SIZE_LEN+c.tagLen..size] == data[CHUNK_SIZE_LEN+c.tagLen..size];
    }
  }

  /** What decoding a first part and then the rest of the bytes gives. */
  function Then(r: Parsed, q: Parsed): Parsed { Parsed(q.ok, r.plain + q.plain, r.count + q.count, q.rest, q.nonce) }

  /** Decoding can stop anywhere and go on with what was left over. */
  lemma {:induction false} Resume(c: Crypto, k: Key, n: nat, a: seq<Byte>, b: seq<Byte>)
    requires c.nonces > 0
    ensures var r := Parse(c, k, n, a);
            if r.ok then Parse(c, k, n, a + b) == Then(r, Parse(c, k, r.nonce, r.rest + b))
            else !Parse(c, k, n, a + b).ok
    decreases |a|
  {
    hide CutOne;
    var cut := CutOne(c, k, n, a);
    if !cut.Stop? {
      CutMore(c, k, n, a, b);
    }
    if cut.Whole? {
      assert (a + b)[cut.size..] == a[cut.size..] + b;
      Resume(c, k, Next(c, Next(c, n)), a[cut.size..], b);
      var q := Parse(c, k, Next(c, Next(c, n)), a[cut.size..]);
      if q.ok {
        ThenAssoc(cut.plain, q, Parse(c, k, q.nonce, q.rest + b));
      }
    }
  }

  lemma ThenAssoc(plain: seq<Byte>, r: Parsed, q: Parsed)
    ensures plain + (r.plain + q.plain) == (plain + r.plain) + q.plain
  {
  }

  /** What is left over after decoding holds no complete chunk. */
  lemma {:induction false} Leftover(c: Crypto, k: Key, n: nat, data: seq<Byte>)
    requires c.nonces > 0
    ensures var r := Parse(c, k, n, data); r.ok ==> CutOne(c, k, r.nonce, r.rest).Stop?
    decreases |data|
  {
    hide CutOne;
    var cut := CutOne(c, k, n, data);
    if cut.Whole? {
      Leftover(c, k, Next(c, Next(c, n)), data[cut.size..]);
    }
  }

  lemma {:induction false} NonceCounts(c: Crypto, k: Key, n: nat, data: seq<Byte>)
    requires c.nonces > 0
    ensures var r := Parse(c, k, n, data); r.nonce == Later(c, n, 2 * r.count)
    decreases |data|
  {
    hide CutOne;
    var cut := CutOne(c, k, n, data);
    if cut.Whole? {
      NonceCounts(c, k, Next(c, Next(c, n)), data[cut.size..]);
    }
  }

  lemma {:induction false} PlainIfCounted(c: Crypto, k: Key, n: nat, data: seq<Byte>)
    requires Correct(c)
    ensures var r := Parse(c, k, n, data); r.count > 0 <==> r.plain != []
    decreases |data|
  {
    var cut := CutOne(c, k, n, data);
    if cut.Whole? {
      assert cut.plain != [];
    }
  }

  // ----- round trip -----

  ghost predicate Sendable(ms: seq<seq<Byte>>) { forall i :: 0 <= i < |ms| ==> 1 <= |ms[i]| <= CHUNK_SIZE_MASK }

  /** How many chunks lie completely in the first `p` bytes. */
  function WholeChunks(c: Crypto, ms: seq<seq<Byte>>, p: int): (j: nat)
    ensures j <= |ms|
  {
    if ms == [] || p < ChunkSize(c, |ms[0]|) then 0 else 1 + WholeChunks(c, ms[1..], p - ChunkSize(c, |ms[0]|))
  }

  lemma LengthsAgree(n: nat)
    requires n <= CHUNK_SIZE_MASK
    ensures LengthOf(LengthBytes(n)) == n
  {
  }

  lemma CutChunk(c: Crypto, k: Key, n: nat, m: seq<Byte>, more: seq<Byte>)
    requires Correct(c) && 1 <= |m| <= CHUNK_SIZE_MASK
    ensures |Chunk(c, k, n, m)| == ChunkSize(c, |m|)
    ensures CutOne(c, k, n, Chunk(c, k, n, m) + more) == Whole(m, ChunkSize(c, |m|))
  {
    LengthsAgree(|m|);
    var h, p := c.seal(k, n, LengthBytes(|m|)), c.seal(k, Next(c, n), m);
    var data := h + p + more;
    assert data[..CHUNK_SIZE_LEN+c.tagLen] == h;
    assert data[CHUNK_SIZE_LEN+c.tagLen..ChunkSize(c, |m|)] == p;
  }

  lemma CutPrefix(c: Crypto, k: Key, n: nat, m: seq<Byte>, p: nat)
    requires Correct(c) && 1 <= |m| <= CHUNK_SIZE_MASK && p < ChunkSize(c, |m|) == |Chunk(c, k, n, m)|
    ensures CutOne(c, k, n, Chunk(c, k, n, m)[..p]) == Stop
  {
    LengthsAgree(|m|);
    if p > 2 * c.tagLen + CHUNK_SIZE_LEN {
      var h := c.seal(k, n, LengthBytes(|m|));
      assert Chunk(c, k, n, m)[..p][..CHUNK_SIZE_LEN+c.tagLen] == h;
    }
  }

  /** Any prefix of a stream of chunks decodes, without error, to exactly the messages it holds completely. */
  lemma {:induction false} ParsePrefix(c: Crypto, k: Key, n: nat, ms: seq<seq<Byte>>, p: nat)
    requires Correct(c) && Sendable(ms) && p <= |Chunks(c, k, n, ms)|
    ensures var j, r := WholeChunks(c, ms, p), Parse(c, k, n, Chunks(c, k, n, ms)[..p]);
            r.ok && r.plain == Join(ms[..j]) && r.count == j && r.nonce == Later(c, n, 2 * j)
    decreases |ms|
  {
    hide Correct, CutOne, Chunk;
    Positive(c);
    if ms == [] {
      EmptyStops(c, k, n);
    } else {
      CutChunk(c, k, n, ms[0], []);
      var size := ChunkSize(c, |ms[0]|);
      var n' := Next(c, Next(c, n));
      if p < size {
        CutPrefix(c, k, n, ms[0], p);
        assert Chunks(c, k, n, ms)[..p] == Chunk(c, k, n, ms[0])[..p];
      } else {
        ParsePrefix(c, k, n', ms[1..], p - size);
        ParseFirst(c, k, n, ms[0], Chunks(c, k, n', ms[1..])[..p-size]);
        assert Chunks(c, k, n, ms)[..p] == Chunk(c, k, n, ms[0]) + Chunks(c, k, n', ms[1..])[..p-size];
        var j := WholeChunks(c, ms[1..], p - size);
        JoinCons(ms, j);
        assert Later(c, n, 2 * (j + 1)) == Later(c, n', 2 * j);
      }
    }
  }

  lemma ParseFirst(c: Crypto, k: Key, n: nat, m: seq<Byte>, more: seq<Byte>)
    requires Correct(c) && 1 <= |m| <= CHUNK_SIZE_MASK
    ensures var q, r := Parse(c, k, n, Chunk(c, k, n, m) + more), Parse(c, k, Next(c, Next(c, n)), more);
            q == Parsed(r.ok, m + r.plain, r.count + 1, r.rest, r.nonce)
  {
    hide Correct, CutOne, Chunk;
    Positive(c);
    CutChunk(c, k, n, m, more);
    assert (Chunk(c, k, n, m) + more)[ChunkSize(c, |m|)..] == more;
  }

  lemma Positive(c: Crypto)
    requires Correct(c)
    ensures c.nonces > 0
  {
  }

  lemma EmptyStops(c: Crypto, k: Key, n: nat)
    requires c.nonces > 0
    ensures CutOne(c, k, n, []) == Stop
  {
  }

  lemma JoinCons(ms: seq<seq<Byte>>, j: nat)
    requires ms != [] && j < |ms|
    ensures Join(ms[..j+1]) == ms[0] + Join(ms[1..][..j])
  {
    assert ms[..j+1][1..] == ms[1..][..j];
  }

  lemma {:induction false} ChunksSnoc(c: Crypto, k: Key, n: nat, ms: seq<seq<Byte>>, m: seq<Byte>)
    requires c.nonces > 0
    ensures Chunks(c, k, n, ms + [m]) == Chunks(c, k, n, ms) + Chunk(c, k, Later(c, n, 2 * |ms|), m)
    decreases |ms|
  {
    hide Chunk;
    if ms == [] {
      assert ms + [m] == [m];
      assert Chunks(c, k, Next(c, Next(c, n)), [m][1..]) == [];
    } else {
      assert (ms + [m])[1..] == ms[1..] + [m];
      ChunksSnoc(c, k, Next(c, Next(c, n)), ms[1..], m);
      assert Later(c, n, 2 * |ms|) == Later(c, Next(c, Next(c, n)), 2 * |ms[1..]|);
    }
  }

  // ----- the contexts -----

  datatype Code = Ok | NeedMore | Error

  /** A context that encrypts. */
  class Sender {
    const c: Crypto
    const salt: seq<Byte>
    var init: bool
    var nonce: nat
    var skey: Option<Key>
    /** The messages sent, and the bytes they became. */
    ghost var sent: seq<seq<Byte>>
    ghost var wire: seq<Byte>

    ghost predicate Valid()
      reads this
    {
      Correct(c) && |salt| == c.saltLen && Sendable(sent) &&
      if init then
        skey == Some(c.subkey(salt)) && wire == salt + Chunks(c, c.subkey(salt), 0, sent) &&
        nonce == Later(c, 0, 2 * |sent|)
      else wire == [] && sent == []
    }

    constructor (c: Crypto, salt: seq<Byte>)
      requires Correct(c) && |salt| == c.saltLen
      ensures Valid() && this.c == c && this.salt == salt && sent == []
    {
      this.c, this.salt := c, salt;
      init, nonce, skey, sent, wire := false, 0, None, [], [];
    }

    /** `aead_chunk_encrypt` */
    method ChunkEncrypt(m: seq<Byte>) returns (out: seq<Byte>)
      requires c.nonces > 0 && skey.Some?
      modifies `nonce
      ensures out == Chunk(c, skey.value, old(nonce), m) && nonce == Next(c, Next(c, old(nonce)))
    {
      out := c.seal(skey.value, nonce, LengthBytes(|m|));
      nonce := Next(c, nonce);
      out := out + c.seal(skey.value, nonce, m);
      nonce := Next(c, nonce);
    }

    /** The first message: the salt goes out, and is recorded. */
    method Begin(filter: PingPong)
      requires Valid() && !init && filter.Valid()
      modifies this, filter
      ensures Valid() && init && filter.Valid() && wire == salt && sent == []
      ensures filter.log == old(filter.log) + [Record(salt, false)]
    {
      NothingSent(c, c.subkey(salt));
      hide Correct, Chunks, Later, Sendable, PingPong.Valid;
      skey, nonce, init, wire := Some(c.subkey(salt)), 0, true, salt;
      filter.Add(salt, false);
    }

    method SendChunk(m: seq<Byte>) returns (out: seq<Byte>)
      requires Valid() && init && 1 <= |m| <= CHUNK_SIZE_MASK
      modifies this
      ensures Valid() && init && wire == old(wire) + out && sent == old(sent) + [m]
    {
      Positive(c);
      StillSendable(sent, m);
      OneMore(c, salt, sent, m);
      hide Correct, Chunks, Chunk, Later, Sendable, Next;
      out := ChunkEncrypt(m);
      sent, wire := sent + [m], wire + out;
    }

    /** `aead_encrypt` */
    method Encrypt(plaintext: seq<Byte>, filter: PingPong) returns (ciphertext: seq<Byte>)
      requires Valid() && filter.Valid() && |plaintext| <= CHUNK_SIZE_MASK
      modifies this, filter
      ensures Valid() && filter.Valid() && wire == old(wire) + ciphertext
      ensures sent == if plaintext == [] then old(sent) else old(sent) + [plaintext]
      ensures filter.log == old(filter.log) + if plaintext != [] && !old(init) then [Record(salt, false)] else []
    {
      ciphertext := [];
      if plaintext == [] {
        return;
      }
      hide Valid, PingPong.Valid;
      ghost var was := wire;
      if !init {
        NotBegun();
        Begin(filter);
        ciphertext := salt;
      }
      var chunk := SendChunk(plaintext);
      ciphertext := ciphertext + chunk;
    }

    lemma NotBegun()
      requires Valid() && !init
      ensures wire == [] && sent == []
    {
    }
  }

  lemma StillSendable(ms: seq<seq<Byte>>, m: seq<Byte>)
    requires Sendable(ms) && 1 <= |m| <= CHUNK_SIZE_MASK
    ensures Sendable(ms + [m])
  {
  }

  lemma NothingSent(c: Crypto, k: Key)
    requires c.nonces > 0
    ensures Later(c, 0, 0) == 0 && Chunks(c, k, 0, []) == []
  {
  }

  lemma OneMore(c: Crypto, salt: seq<Byte>, ms: seq<seq<Byte>>, m: seq<Byte>)
    requires c.nonces > 0
    ensures var k, n := c.subkey(salt), Later(c, 0, 2 * |ms|);
            salt + Chunks(c, k, 0, ms + [m]) == salt + Chunks(c, k, 0, ms) + Chunk(c, k, n, m) &&
            Later(c, 0, 2 * |ms + [m]|) == Next(c, Next(c, n))
  {
    hide Chunks, Chunk;
    ChunksSnoc(c, c.subkey(salt), 0, ms, m);
    LaterSnoc(c, 0, 2 * |ms|);
    LaterSnoc(c, 0, 2 * |ms| + 1);
  }

  /** A context that decrypts. */
  class Receiver {
    const c: Crypto
    /** 0 before the salt is there, 1 before the first chunk is, 2 after. */
    var init: nat
    var salt: seq<Byte>
    var nonce: nat
    var skey: Option<Key>
    /** Bytes that do not make a chunk yet. */
    var chunk: seq<Byte>
    /** All bytes received so far, and all plaintext given out. */
    ghost var received: seq<Byte>
    ghost var given: seq<Byte>

    ghost predicate Valid()
      reads this
    {
      Correct(c) &&
      if |received| <= c.saltLen then init == 0 && chunk == received && given == [] else Started() && Decoded()
    }

    ghost predicate Started()
      requires |received| > c.saltLen
      reads this
    {
      1 <= init <= 2 && salt == received[..c.saltLen] && skey == Some(c.subkey(salt))
    }

    /** The state is what decoding all received bytes at once would leave. */
    ghost predicate Decoded()
      requires |received| > c.saltLen && Correct(c)
      reads this
    {
      var r := Parse(c, c.subkey(salt), 0, received[c.saltLen..]);
      r.ok && given == r.plain && chunk == r.rest && nonce == r.nonce && (init == 2 <==> r.count > 0)
    }

    constructor (c: Crypto)
      requires Correct(c)
      ensures Valid() && this.c == c && received == []
    {
      this.c := c;
      init, salt, nonce, skey, chunk, received, given := 0, [], 0, None, [], [], [];
    }

    /** `aead_chunk_decrypt` */
    method ChunkDecrypt(data: seq<Byte>) returns (r: Cut)
      requires c.nonces > 0 && skey.Some?
      modifies `nonce
      ensures r == CutOne(c, skey.value, old(nonce), data)
      ensures nonce == if r.Whole? then Next(c, Next(c, old(nonce))) else if r.Stop? then old(nonce) else nonce
    {
      if |data| <= 2 * c.tagLen + CHUNK_SIZE_LEN {
        return Stop;
      }
      var header := c.open(skey.value, nonce, data[..CHUNK_SIZE_LEN+c.tagLen]);
      if header.None? || |header.value| != CHUNK_SIZE_LEN {
        return Bad;
      }
      var length := LengthOf(header.value);
      if length == 0 {
        return Bad;
      }
      var size := ChunkSize(c, length);
      if |data| < size {
        return Stop;
      }
      nonce := Next(c, nonce);
      var payload := c.open(skey.value, nonce, data[CHUNK_SIZE_LEN+c.tagLen..size]);
      if payload.None? {
        return Bad;
      }
      nonce := Next(c, nonce);
      return Whole(payload.value, size);
    }

    /** The loop of `aead_decrypt`. */
    method DecryptChunks() returns (code: Code, plain: seq<Byte>)
      requires Correct(c) && skey.Some?
      modifies `nonce, `chunk
      ensures var r := Parse(c, skey.value, old(nonce), old(chunk));
              code == (if !r.ok then Error else if r.count == 0 && r.rest != [] then NeedMore else Ok) &&
              (r.ok ==> plain == r.plain && chunk == r.rest && nonce == r.nonce)
    {
      Positive(c);
      plain := [];
      var rest := chunk;
      ghost var k, r, count := skey.value, Parse(c, skey.value, nonce, chunk), 0;
      assert r == Then(Parsed(true, [], 0, [], 0), r);
      hide Correct, CutOne, Then, Next, Parse;
      while |rest| > 0
        invariant (count > 0 <==> plain != []) && (count == 0 ==> rest == chunk)
        invariant r == Then(Parsed(true, plain, count, [], 0), Parse(c, k, nonce, rest))
        decreases |rest|
      {
        ghost var n := nonce;
        var cut := ChunkDecrypt(rest);
        Unfold(c, k, n, rest, cut, plain, count);
        if cut.Bad? {
          return Error, [];
        } else if cut.Stop? {
          if plain == [] {
            return NeedMore, [];
          }
          chunk := rest;
          return Ok, plain;
        }
        plain, rest, count := plain + cut.plain, rest[cut.size..], count + 1;
      }
      EmptyStops(c, k, nonce);
      Unfold(c, k, nonce, rest, Stop, plain, count);
      chunk := rest;
      return Ok, plain;
    }

    /** The bytes `data` are in the buffer; `r` is what was decoded before they came. */
    ghost predicate Pending(r: Parsed)
      reads this
    {
      Correct(c) && |received| > c.saltLen && Started() && r.ok && given == r.plain && (init == 2 <==> r.count > 0) &&
      Parse(c, c.subkey(salt), 0, received[c.saltLen..]) == Then(r, Parse(c, c.subkey(salt), nonce, chunk))
    }

    /** The first part of `aead_decrypt`: the salt, when all of it is there. */
    method TakeSalt(data: seq<Byte>, filter: PingPong) returns (code: Code)
      requires Valid() && init == 0
      modifies this
      ensures received == old(received) + data && given == []
      ensures code == if |received| <= c.saltLen then NeedMore
                      else if filter.Check(received[..c.saltLen]) then Error else Ok
      ensures code == NeedMore ==> Valid()
      ensures code == Ok ==> init == 1 && Pending(Parsed(true, [], 0, [], 0))
    {
      Positive(c);
      hide Correct, Parse;
      received := received + data;
      chunk := chunk + data;
      if |chunk| <= c.saltLen {
        return NeedMore;
      }
      salt := chunk[..c.saltLen];
      if filter.Check(salt) {
        return Error;
      }
      skey, nonce, init := Some(c.subkey(salt)), 0, 1;
      chunk := chunk[c.saltLen..];
      ghost var r := Parse(c, c.subkey(salt), 0, chunk);
      assert [] + r.plain == r.plain;
      return Ok;
    }

    /** Later parts of the stream are appended to what is left over. */
    method Append(data: seq<Byte>)
      requires Valid() && init > 0
      modifies this
      ensures received == old(received) + data && init == old(init) && salt == old(salt) && given == old(given)
      ensures Pending(old(Parse(c, c.subkey(salt), 0, received[c.saltLen..])))
    {
      Positive(c);
      Resume(c, c.subkey(salt), 0, received[c.saltLen..], data);
      assert (received + data)[c.saltLen..] == received[c.saltLen..] + data;
      assert (received + data)[..c.saltLen] == received[..c.saltLen];
      hide Correct, Parse;
      received := received + data;
      chunk := chunk + data;
    }

    /** With the first chunk the salt is looked up again and recorded. */
    method NoteSalt(filter: PingPong) returns (ok: bool)
      requires filter.Valid()
      modifies `init, filter
      ensures filter.Valid() && ok == !old(init == 1 && filter.Check(salt))
      ensures init == if ok && old(init) == 1 then 2 else old(init)
      ensures filter.log == old(filter.log) + if ok && old(init) == 1 then [Record(salt, true)] else []
      ensures !ok || old(init) != 1 ==> unchanged(filter)
    {
      if init == 1 {
        if filter.Check(salt) {
          return false;
        }
        filter.Add(salt, true);
        init := 2;
      }
      return true;
    }

    /** The second part: the chunks, and the second look at the filter. */
    method Finish(data: seq<Byte>, filter: PingPong, ghost r: Parsed) returns (code: Code, out: seq<Byte>)
      requires Pending(r) && filter.Valid()
      modifies this, filter
      ensures filter.Valid() && received == old(received)
      ensures var q := Parse(c, c.subkey(old(salt)), 0, received[c.saltLen..]);
              code == Error <==> !q.ok || (old(init == 1 && filter.Check(salt)) && q.count > 0)
      ensures code != Error ==> Valid() && init > 0 && given == old(given) + if code == Ok then out else []
      ensures code == NeedMore ==> out == data
      ensures filter.log == old(filter.log) +
                            if code != Error && old(init) == 1 && init == 2 then [Record(old(salt), true)] else []
      ensures code == Error || init < 2 ==> unchanged(filter)
    {
      ghost var q := Parse(c, c.subkey(salt), nonce, chunk);
      hide Correct, Parse, PingPong.Valid, PingPong.Check, Valid, Decoded;
      code, out := DecryptChunks();
      if code == Error {
        return;
      }
      if code == NeedMore {
        assert r.plain + out == r.plain;
        Settled(r, q);
        return NeedMore, data;
      }
      var ok := NoteSalt(filter);
      if !ok {
        return Error, [];
      }
      given := given + out;
      Settled(r, q);
    }

    lemma Settled(r: Parsed, q: Parsed)
      requires Correct(c) && |received| > c.saltLen && Started()
      requires Parse(c, c.subkey(salt), 0, received[c.saltLen..]) == Then(r, q)
      requires q.ok && given == r.plain + q.plain && chunk == q.rest && nonce == q.nonce
      requires init == 2 <==> r.count + q.count > 0
      ensures Valid()
    {
    }

    /** `aead_decrypt`; on `NeedMore` the buffer comes back as it was. */
    method Decrypt(data: seq<Byte>, filter: PingPong) returns (code: Code, out: seq<Byte>)
      requires Valid() && filter.Valid()
      modifies this, filter
      ensures filter.Valid()
      ensures var total := old(received) + data;
              if |total| <= c.saltLen then code == NeedMore
              else
                var salt := total[..c.saltLen];
                var r := Parse(c, c.subkey(salt), 0, total[c.saltLen..]);
                var seen :=
                  old(filter.Check(total[..c.saltLen])) && (old(init) == 0 || (old(init) == 1 && r.count > 0));
                code == Error <==> !r.ok || seen
      ensures code != Error ==> Valid() && received == old(received) + data
      ensures code != Error ==> given == old(given) + if code == Ok then out else []
      ensures code == NeedMore ==> out == data
      ensures filter.log == old(filter.log) +
                            if code != Error && old(init) < 2 && init == 2 then [Record(salt, true)] else []
      ensures code == Error || init < 2 ==> unchanged(filter)
    {
      ghost var r := Parsed(true, [], 0, [], 0);
      hide Correct, Parse, PingPong.Valid, PingPong.Check;
      if init == 0 {
        code := TakeSalt(data, filter);
        if code != Ok {
          return code, data;
        }
      } else {
        r := Parse(c, c.subkey(salt), 0, received[c.saltLen..]);
        Append(data);
      }
      code, out := Finish(data, filter, r);
    }

    /** The AEAD branch of `ss_decrypt`: when more is needed, nothing is given out and there is no error. */
    method SsDecrypt(data: seq<Byte>, filter: PingPong) returns (ok: bool, out: seq<Byte>)
      requires Valid() && filter.Valid()
      modifies this, filter
      ensures filter.Valid()
      ensures var total := old(received) + data;
              ok <==> |total| <= c.saltLen ||
                      var r := Parse(c, c.subkey(total[..c.saltLen]), 0, total[c.saltLen..]);
                      r.ok && !(old(filter.Check(total[..c.saltLen])) &&
                                (old(init) == 0 || (old(init) == 1 && r.count > 0)))
      ensures ok ==> Valid() && received == old(received) + data && given == old(given) + out
      ensures filter.log == old(filter.log) + if ok && old(init) < 2 && init == 2 then [Record(salt, true)] else []
      ensures !ok || init < 2 ==> unchanged(filter)
    {
      hide Correct, Parse, Valid, PingPong.Valid, PingPong.Check;
      var origin := data;
      var code;
      code, out := Decrypt(data, filter);
      ok := code != Error;
      if code == NeedMore {
        if origin == out {
          out := [];
        } else {
          assert false;
        }
      }
    }
  }

  /** One round of the loop, in terms of what is still to be decoded. */
  lemma Unfold(c: Crypto, k: Key, n: nat, rest: seq<Byte>, cut: Cut, plain: seq<Byte>, count: nat)
    requires Correct(c) && cut == CutOne(c, k, n, rest)
    ensures var r := Then(Parsed(true, plain, count, [], 0), Parse(c, k, n, rest));
            (cut.Bad? ==> !r.ok) &&
            (cut.Stop? ==> r == Parsed(true, plain, count, rest, n)) &&
            (cut.Whole? ==> cut.plain != [] && 0 < cut.size <= |rest| &&
                            r == Then(Parsed(true, plain + cut.plain, count + 1, [], 0),
                                      Parse(c, k, Next(c, Next(c, n)), rest[cut.size..])))
  {
    NonEmpty(c, k, n, rest, cut);
    hide Correct, CutOne;
    if cut.Whole? {
      var q := Parse(c, k, Next(c, Next(c, n)), rest[cut.size..]);
      assert plain + (cut.plain + q.plain) == plain + cut.plain + q.plain;
    } else if cut.Stop? {
      assert plain + [] == plain;
    }
  }

  lemma NonEmpty(c: Crypto, k: Key, n: nat, data: seq<Byte>, cut: Cut)
    requires Correct(c) && cut == CutOne(c, k, n, data)
    ensures cut.Whole? ==> cut.plain != []
  {
  }

  // ----- both ends together -----

  /** All the bytes a sender with this salt produces for the messages `ms`. */
  function Stream(c: Crypto, salt: seq<Byte>, ms: seq<seq<Byte>>): seq<Byte>
    requires c.nonces > 0
  {
    salt + Chunks(c, c.subkey(salt), 0, ms)
  }

  /** What a sender has put on the wire. */
  lemma SenderStream(s: Sender)
    requires s.Valid() && s.sent != []
    ensures s.c.nonces > 0 && s.wire == Stream(s.c, s.salt, s.sent)
  {
  }

  lemma PrefixTail(a: seq<Byte>, salt: seq<Byte>, b: seq<Byte>)
    requires a <= salt + b && |a| > |salt|
    ensures a[..|salt|] == salt && |a| - |salt| <= |b| && a[|salt|..] == b[..|a|-|salt|]
  {
  }

  /** Decoding any prefix of a stream. */
  lemma PrefixDecodes(c: Crypto, salt: seq<Byte>, ms: seq<seq<Byte>>, total: seq<Byte>)
    requires Correct(c) && Sendable(ms) && |salt| == c.saltLen && |total| > c.saltLen && total <= Stream(c, salt, ms)
    ensures total[..c.saltLen] == salt
    ensures var r, j := Parse(c, c.subkey(salt), 0, total[c.saltLen..]), WholeChunks(c, ms, |total| - c.saltLen);
            r.ok && r.plain == Join(ms[..j]) && r.nonce == Later(c, 0, 2 * j)
  {
    PrefixTail(total, salt, Chunks(c, c.subkey(salt), 0, ms));
    hide Correct, Chunks, Parse, Sendable, WholeChunks;
    ParsePrefix(c, c.subkey(salt), 0, ms, |total| - c.saltLen);
  }

  lemma NothingWhole(c: Crypto, ms: seq<seq<Byte>>, p: int)
    requires p <= 0
    ensures WholeChunks(c, ms, p) == 0 && Join(ms[..0]) == []
  {
  }

  /**
   One fragment of a sender's stream, however it was cut: no error, and what has been given out so far is exactly the
   messages whose chunks have arrived completely.
   */
  method Deliver(rx: Receiver, data: seq<Byte>, filter: PingPong, ghost salt: seq<Byte>, ghost ms: seq<seq<Byte>>)
    returns (ok: bool, out: seq<Byte>)
    requires rx.Valid() && filter.Valid() && Sendable(ms) && |salt| == rx.c.saltLen
    requires rx.received + data <= Stream(rx.c, salt, ms)
    requires rx.init < 2 ==> !filter.Check(salt)
    modifies rx, filter
    ensures ok && rx.Valid() && filter.Valid() && rx.received == old(rx.received) + data &&
            rx.given == old(rx.given) + out
    ensures var j := WholeChunks(rx.c, ms, |rx.received| - rx.c.saltLen);
            rx.given == Join(ms[..j]) && (|rx.received| > rx.c.saltLen ==> rx.nonce == Later(rx.c, 0, 2 * j))
    ensures filter.log == old(filter.log) + if old(rx.init) < 2 && rx.init == 2 then [Record(rx.salt, true)] else []
    ensures rx.init < 2 ==> unchanged(filter)
  {
    ghost var total := rx.received + data;
    if |total| > rx.c.saltLen {
      PrefixDecodes(rx.c, salt, ms, total);
    } else {
      NothingWhole(rx.c, ms, |total| - rx.c.saltLen);
    }
    hide Correct, Parse, Stream, Sendable, PingPong.Valid, PingPong.Check, Join, WholeChunks, Later, Next;
    ok, out := rx.SsDecrypt(data, filter);
  }

  lemma {:induction false} AllWhole(c: Crypto, k: Key, n: nat, ms: seq<seq<Byte>>)
    requires Correct(c) && Sendable(ms)
    ensures WholeChunks(c, ms, |Chunks(c, k, n, ms)|) == |ms|
    decreases |ms|
  {
    if ms != [] {
      CutChunk(c, k, n, ms[0], []);
      AllWhole(c, k, Next(c, Next(c, n)), ms[1..]);
    }
  }

  lemma JoinRest(pieces: seq<seq<Byte>>, i: nat, before: seq<Byte>, all: seq<Byte>)
    requires i < |pieces| && before + Join(pieces[i..]) == all
    ensures before + pieces[i] <= all && before + pieces[i] + Join(pieces[i+1..]) == all
  {
    assert pieces[i..][1..] == pieces[i+1..];
    assert before + (pieces[i] + Join(pieces[i+1..])) == before + pieces[i] + Join(pieces[i+1..]);
  }

  /** A whole stream, cut into any pieces, comes out as the messages that were sent. */
  method DeliverAll(rx: Receiver, pieces: seq<seq<Byte>>, filter: PingPong, ghost salt: seq<Byte>,
                    ghost ms: seq<seq<Byte>>)
    returns (outs: seq<seq<Byte>>)
    requires rx.Valid() && filter.Valid() && Sendable(ms) && |salt| == rx.c.saltLen && rx.received == []
    requires Join(pieces) == Stream(rx.c, salt, ms) && !filter.Check(salt)
    modifies rx, filter
    ensures |outs| == |pieces| && Join(outs) == Join(ms) && rx.received == Stream(rx.c, salt, ms)
  {
    outs := [];
    ghost var stream := Stream(rx.c, salt, ms);
    NothingWhole(rx.c, ms, -1);
    StartsEmpty(rx);
    assert pieces[0..] == pieces && [] + Join(pieces) == stream;
    hide Correct, Stream, Chunks, Receiver.Valid, PingPong.Valid, PingPong.Check, Sendable, WholeChunks;
    for i := 0 to |pieces|
      invariant rx.Valid() && filter.Valid() && |outs| == i
      invariant rx.received + Join(pieces[i..]) == stream && Join(outs) == rx.given
      invariant rx.given == Join(ms[..WholeChunks(rx.c, ms, |rx.received| - rx.c.saltLen)])
      invariant rx.init < 2 ==> !filter.Check(salt)
    {
      outs := DeliverNext(rx, pieces, i, filter, salt, ms, outs);
    }
    EverythingWhole(rx.c, salt, ms);
    assert rx.received == stream;
  }

  /** One round of `DeliverAll`. */
  method DeliverNext(rx: Receiver, pieces: seq<seq<Byte>>, i: nat, filter: PingPong, ghost salt: seq<Byte>,
                     ghost ms: seq<seq<Byte>>, outs: seq<seq<Byte>>)
    returns (outs': seq<seq<Byte>>)
    requires rx.Valid() && filter.Valid() && Sendable(ms) && |salt| == rx.c.saltLen && i < |pieces|
    requires rx.received + Join(pieces[i..]) == Stream(rx.c, salt, ms) && Join(outs) == rx.given
    requires rx.init < 2 ==> !filter.Check(salt)
    modifies rx, filter
    ensures rx.Valid() && filter.Valid() && |outs'| == |outs| + 1
    ensures rx.received + Join(pieces[i+1..]) == Stream(rx.c, salt, ms) && Join(outs') == rx.given
    ensures rx.given == Join(ms[..WholeChunks(rx.c, ms, |rx.received| - rx.c.saltLen)])
    ensures rx.init < 2 ==> !filter.Check(salt)
  {
    JoinRest(pieces, i, rx.received, Stream(rx.c, salt, ms));
    hide Correct, Stream, Chunks, Receiver.Valid, PingPong.Valid, Sendable, WholeChunks, Join;
    var ok, out := Deliver(rx, pieces[i], filter, salt, ms);
    JoinSnoc(outs, out);
    outs' := outs + [out];
  }

  lemma EverythingWhole(c: Crypto, salt: seq<Byte>, ms: seq<seq<Byte>>)
    requires Correct(c) && Sendable(ms) && |salt| == c.saltLen
    ensures Join(ms[..WholeChunks(c, ms, |Stream(c, salt, ms)| - c.saltLen)]) == Join(ms)
  {
    AllWhole(c, c.subkey(salt), 0, ms);
    assert ms[..|ms|] == ms;
  }

  lemma StartsEmpty(rx: Receiver)
    requires rx.Valid() && rx.received == []
    ensures rx.given == []
  {
  }
}
