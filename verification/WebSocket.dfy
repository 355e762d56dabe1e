/**
 WebSocket frames of shadowsocksr-native/src/websocket_basic.c (RFC 6455, sections 5.2, 5.3 and 5.5.1), on a
 little-endian machine.
 */
module WebSocket {
  import opened Bytes
  import opened Wrappers

  // ----- byte order -----

  /** How a number lies in `k` bytes of memory. */
  function LittleEndian(n: nat, k: nat): (s: seq<Byte>)
    ensures |s| == k
  {
    if k == 0 then [] else [n % 256] + LittleEndian(n / 256, k - 1)
  }

  function FromLittleEndian(s: seq<Byte>): nat {
    if s == [] then 0 else s[0] + 256 * FromLittleEndian(s[1..])
  }

  function Pow256(k: nat): nat { if k == 0 then 1 else 256 * Pow256(k - 1) }

  lemma {:induction false} LittleEndianInverse(n: nat, k: nat)
    requires n < Pow256(k)
    ensures FromLittleEndian(LittleEndian(n, k)) == n
  {
    if k > 0 {
      assert LittleEndian(n, k)[1..] == LittleEndian(n / 256, k - 1);
      LittleEndianInverse(n / 256, k - 1);
    }
  }

  function Reversed(s: seq<Byte>): (r: seq<Byte>)
    ensures |r| == |s|
  {
    seq(|s|, i requires 0 <= i < |s| => s[|s|-1-i])
  }

  lemma ReversedTwice(s: seq<Byte>)
    ensures Reversed(Reversed(s)) == s
  {
  }

  /** Network byte order. */
  function BigEndian(n: nat, k: nat): (s: seq<Byte>)
    ensures |s| == k
  {
    Reversed(LittleEndian(n, k))
  }

  /** `_ws_hton`, in place; memory of odd length is left alone. */
  method WsHton(mem: array<Byte>)
    modifies mem
    ensures mem[..] == if mem.Length % 2 == 0 then Reversed(old(mem[..])) else old(mem[..])
  {
    var len := mem.Length;
    if len % 2 != 0 {
      return;
    }
    var mid := len / 2;
    for i := 0 to mid
      invariant forall k :: 0 <= k < i ==> mem[k] == old(mem[len-1-k]) && mem[len-1-k] == old(mem[k])
      invariant forall k :: i <= k < len - i ==> mem[k] == old(mem[k])
    {
      var tmp := mem[i];
      mem[i] := mem[len-i-1];
      mem[len-i-1] := tmp;
    }
  }

  // ----- frames -----

  const WS_MASK_SIZE: nat := 4

  const NORMAL: nat := 1000
  const UNEXPECTED_DATA: nat := 1003
  const TOO_BIG: nat := 1009

  /** What `websocket_retrieve_payload` tells about a frame. */
  datatype Info = Info(opcode: Byte, fin: bool, masking: bool, reason: nat, payloadSize: nat, frameSize: nat)

  predicate KnownOpcode(o: Byte) { o == 0 || o == 1 || o == 2 || o == 8 || o == 9 || o == 10 }

  function LenSize(payloadLen: nat): nat { if payloadLen <= 125 then 0 else if payloadLen <= 0xFFFF then 2 else 8 }

  function LenSmall(payloadLen: nat): (l: nat)
    ensures l < 128
  {
    if payloadLen <= 125 then payloadLen else if payloadLen <= 0xFFFF then 126 else 127
  }

  function MaskSize(masking: bool): nat { if masking then WS_MASK_SIZE else 0 }

  /** `websocket_frame_size` */
  function FrameSize(masking: bool, payloadLen: nat): nat { 2 + LenSize(payloadLen) + MaskSize(masking) + payloadLen }

  function Masked(s: seq<Byte>, mask: seq<Byte>): (r: seq<Byte>)
    requires |mask| == WS_MASK_SIZE
    ensures |r| == |s|
  {
    seq(|s|, i requires 0 <= i < |s| => Xor(s[i], mask[i % WS_MASK_SIZE]))
  }

  /** `(fin ? 0x80 : 0x00) | opcode`; the opcodes have four bits. */
  function FirstByte(fin: bool, opcode: Byte): Byte
    requires opcode < 16
  {
    (if fin then 128 else 0) + opcode
  }

  /** The seven bits of `small` and the mask bit. */
  function SecondByte(masking: bool, small: nat): Byte
    requires small < 128
  {
    (if masking then 128 else 0) + small
  }

  /** `b & 0x80`, `b & 0x70`, `b & 0x0F` and `b & 0x7F` of a byte. */
  predicate HighBit(b: Byte) { b >= 128 }

  predicate Reserved(b: Byte) { b / 16 % 8 != 0 }

  function LowNibble(b: Byte): Byte { b % 16 }

  function LowBits(b: Byte): Byte { b % 128 }

  /** Two bytes, the extended length and the mask. */
  function Header(opcode: Byte, fin: bool, masking: bool, mask: seq<Byte>, payloadLen: nat): (h: seq<Byte>)
    requires |mask| == WS_MASK_SIZE && opcode < 16
    ensures |h| == 2 + LenSize(payloadLen) + MaskSize(masking)
  {
    [FirstByte(fin, opcode), SecondByte(masking, LenSmall(payloadLen))] + BigEndian(payloadLen, LenSize(payloadLen)) +
    if masking then mask else []
  }

  /** A frame on the wire. */
  function Frame(opcode: Byte, fin: bool, masking: bool, mask: seq<Byte>, payload: seq<Byte>): (f: seq<Byte>)
    requires |mask| == WS_MASK_SIZE && opcode < 16
    ensures |f| == FrameSize(masking, |payload|)
  {
    Header(opcode, fin, masking, mask, |payload|) + if masking then Masked(payload, mask) else payload
  }

  /** The result of `websocket_retrieve_payload`; `Silent` where it returns without filling in `info`. */
  datatype Parsed = Silent | Parsed(payload: Option<seq<Byte>>, info: Info)

  /** The length field, given that the first two bytes are there. */
  datatype Length = Missing | Refused | Length(len: nat, head: nat)

  function LengthField(data: seq<Byte>): Length
    requires |data| >= 2
  {
    var small := LowBits(data[1]);
    if small == 126 then if |data| < 4 then Missing else Length(FromLittleEndian(Reversed(data[2..4])), 4)
    else if small == 127 then
      if |data| < 10 then Missing
      else if FromLittleEndian(data[2..6]) != 0 then Refused
      else Length(FromLittleEndian(Reversed(data[2..10])), 10)
    else Length(small, 2)
  }

  function Parse(data: seq<Byte>): Parsed {
    if |data| < 2 then Parsed(None, Info(0, false, false, UNEXPECTED_DATA, 0, 0))
    else
      var opcode, fin, masking := LowNibble(data[0]), HighBit(data[0]), HighBit(data[1]);
      var reason := if KnownOpcode(opcode) then NORMAL else UNEXPECTED_DATA;
      if Reserved(data[0]) then Parsed(None, Info(opcode, fin, false, UNEXPECTED_DATA, 0, 0))
      else
        match LengthField(data)
        case Missing => Silent
        case Refused => Parsed(None, Info(opcode, fin, masking, TOO_BIG, 127, 127))
        case Length(len, n) =>
          var head := n + MaskSize(masking);
          var info := Info(opcode, fin, masking, reason, len, len + head);
          if |data| < head + len then Parsed(None, info)
          else
            var body := data[head..head+len];
            Parsed(Some(if masking then Masked(body, data[n..n+WS_MASK_SIZE]) else body), info)
  }

  // ----- bits -----

  lemma FirstByteBits(fin: bool, opcode: Byte)
    requires opcode < 16
    ensures var b := FirstByte(fin, opcode); LowNibble(b) == opcode && HighBit(b) == fin && !Reserved(b)
  {
  }

  lemma SecondByteBits(masking: bool, small: nat)
    requires small < 128
    ensures var b := SecondByte(masking, small); LowBits(b) == small && HighBit(b) == masking
  {
  }

  lemma MaskedTwice(s: seq<Byte>, mask: seq<Byte>)
    requires |mask| == WS_MASK_SIZE
    ensures Masked(Masked(s, mask), mask) == s
  {
    forall i | 0 <= i < |s|
      ensures Masked(Masked(s, mask), mask)[i] == s[i]
    {
      XorTwice(s[i], mask[i % WS_MASK_SIZE]);
    }
  }

  // ----- round trip -----

  lemma {:induction false} ZeroFrom(n: nat, k: nat, m: nat)
    requires n < Pow256(m) && m <= k
    ensures forall i :: m <= i < k ==> LittleEndian(n, k)[i] == 0
  {
    if m > 0 {
      ZeroFrom(n / 256, k - 1, m - 1);
    } else if k > 0 {
      ZeroFrom(0, k - 1, 0);
    }
  }

  lemma {:induction false} ZerosAreZero(s: seq<Byte>)
    requires forall i :: 0 <= i < |s| ==> s[i] == 0
    ensures FromLittleEndian(s) == 0
  {
    if s != [] {
      ZerosAreZero(s[1..]);
    }
  }

  lemma Powers()
    ensures Pow256(2) == 0x1_0000 && Pow256(4) == 0x1_0000_0000
  {
    assert Pow256(1) == 256 && Pow256(2) == 256 * 256 && Pow256(3) == 256 * 256 * 256;
  }

  lemma {:induction false} PowersGrow(k: nat, m: nat)
    requires k <= m
    ensures Pow256(k) <= Pow256(m)
  {
    if k < m {
      PowersGrow(k, m - 1);
    }
  }

  lemma BigEndianInverse(n: nat, k: nat)
    requires n < Pow256(k)
    ensures FromLittleEndian(Reversed(BigEndian(n, k))) == n
  {
    ReversedTwice(LittleEndian(n, k));
    LittleEndianInverse(n, k);
  }

  /** A 64-bit length of less than 2^32 has four zero bytes in front. */
  lemma HighHalfZero(n: nat)
    requires n < 0x1_0000_0000
    ensures n < Pow256(8) && FromLittleEndian(BigEndian(n, 8)[..4]) == 0
  {
    Powers();
    PowersGrow(4, 8);
    ZeroFrom(n, 8, 4);
    hide LittleEndian;
    assert forall i :: 0 <= i < 4 ==> BigEndian(n, 8)[i] == LittleEndian(n, 8)[7-i];
    ZerosAreZero(BigEndian(n, 8)[..4]);
  }

  /** Whatever follows the header, its length field is read back. */
  lemma LengthReadBack(opcode: Byte, fin: bool, masking: bool, mask: seq<Byte>, len: nat, rest: seq<Byte>)
    requires |mask| == WS_MASK_SIZE && opcode < 16 && len < 0x1_0000_0000
    ensures LengthField(Header(opcode, fin, masking, mask, len) + rest) == Length(len, 2 + LenSize(len))
  {
    var data := Header(opcode, fin, masking, mask, len) + rest;
    SecondByteBits(masking, LenSmall(len));
    var be := BigEndian(len, LenSize(len));
    hide SecondByte, BigEndian, FromLittleEndian, Reversed;
    assert data[1] == SecondByte(masking, LenSmall(len));
    assert data[2..2+LenSize(len)] == be;
    hide Header;
    if LenSize(len) == 2 {
      Powers();
      BigEndianInverse(len, 2);
    } else if LenSize(len) == 8 {
      HighHalfZero(len);
      assert data[2..6] == data[2..10][..4];
      BigEndianInverse(len, 8);
    }
  }

  /** A frame, whatever follows it: the payload and everything about it come back. */
  lemma RoundTrip(opcode: Byte, fin: bool, masking: bool, mask: seq<Byte>, payload: seq<Byte>, rest: seq<Byte>)
    requires opcode < 16 && |mask| == WS_MASK_SIZE && |payload| < 0x1_0000_0000
    ensures Parse(Frame(opcode, fin, masking, mask, payload) + rest) ==
            Parsed(Some(payload), Info(opcode, fin, masking, if KnownOpcode(opcode) then NORMAL else UNEXPECTED_DATA,
                                       |payload|, FrameSize(masking, |payload|)))
  {
    var data := Frame(opcode, fin, masking, mask, payload) + rest;
    FrameHead(opcode, fin, masking, mask, payload, rest);
    BodyReadBack(opcode, fin, masking, mask, payload, rest);
    hide LengthField, Parse, Masked, Reserved, HighBit, LowNibble, Frame, LenSize, KnownOpcode;
    var n := 2 + LenSize(|payload|);
    var head := n + MaskSize(masking);
    var body := data[head..head+|payload|];
    var plain := if masking then Masked(body, data[n..n+WS_MASK_SIZE]) else body;
    assert plain == payload;
    ParseWhole(data, opcode, fin, masking, |payload|, n);
  }

  lemma FrameHead(opcode: Byte, fin: bool, masking: bool, mask: seq<Byte>, payload: seq<Byte>, rest: seq<Byte>)
    requires opcode < 16 && |mask| == WS_MASK_SIZE && |payload| < 0x1_0000_0000
    ensures var data := Frame(opcode, fin, masking, mask, payload) + rest;
            LowNibble(data[0]) == opcode && HighBit(data[0]) == fin && !Reserved(data[0]) &&
            HighBit(data[1]) == masking &&
            LengthField(data) == Length(|payload|, 2 + LenSize(|payload|))
  {
    var header := Header(opcode, fin, masking, mask, |payload|);
    var body := if masking then Masked(payload, mask) else payload;
    FirstByteBits(fin, opcode);
    SecondByteBits(masking, LenSmall(|payload|));
    LengthReadBack(opcode, fin, masking, mask, |payload|, body + rest);
    hide FirstByte, SecondByte, LengthField, Masked, BigEndian, Reserved, HighBit, LowNibble, Header;
    Assoc(header, body, rest);
    HeaderStart(opcode, fin, masking, mask, |payload|, body + rest);
  }

  lemma Assoc(a: seq<Byte>, b: seq<Byte>, c: seq<Byte>)
    ensures (a + b) + c == a + (b + c)
  {
  }

  lemma HeaderStart(opcode: Byte, fin: bool, masking: bool, mask: seq<Byte>, len: nat, more: seq<Byte>)
    requires opcode < 16 && |mask| == WS_MASK_SIZE
    ensures var data := Header(opcode, fin, masking, mask, len) + more;
            data[0] == FirstByte(fin, opcode) && data[1] == SecondByte(masking, LenSmall(len))
  {
    hide FirstByte, SecondByte, BigEndian, LenSmall;
  }

  lemma ParseWhole(data: seq<Byte>, opcode: Byte, fin: bool, masking: bool, len: nat, n: nat)
    requires |data| >= n + MaskSize(masking) + len && n >= 2 && LengthField(data) == Length(len, n)
    requires LowNibble(data[0]) == opcode && HighBit(data[0]) == fin && !Reserved(data[0]) &&
             HighBit(data[1]) == masking
    ensures var head := n + MaskSize(masking);
            var body := data[head..head+len];
            Parse(data) == Parsed(Some(if masking then Masked(body, data[n..n+WS_MASK_SIZE]) else body),
                                  Info(opcode, fin, masking, if KnownOpcode(opcode) then NORMAL else UNEXPECTED_DATA,
                                       len, len + head))
  {
    hide LengthField, Reserved, HighBit, LowNibble, Masked;
  }

  lemma BodyReadBack(opcode: Byte, fin: bool, masking: bool, mask: seq<Byte>, payload: seq<Byte>, rest: seq<Byte>)
    requires |mask| == WS_MASK_SIZE && opcode < 16
    ensures var data, n := Frame(opcode, fin, masking, mask, payload) + rest, 2 + LenSize(|payload|);
            var head := n + MaskSize(masking);
            |data| >= head + |payload| &&
            (masking ==> data[n..n+WS_MASK_SIZE] == mask && Masked(data[head..head+|payload|], mask) == payload) &&
            (!masking ==> data[head..head+|payload|] == payload)
  {
    MaskedTwice(payload, mask);
  }

  /** No proper prefix of a frame yields a payload. */
  lemma PrefixYieldsNothing(opcode: Byte, fin: bool, masking: bool, mask: seq<Byte>, payload: seq<Byte>, n: nat)
    requires opcode < 16 && |mask| == WS_MASK_SIZE && |payload| < 0x1_0000_0000
    requires n < FrameSize(masking, |payload|)
    ensures var r := Parse(Frame(opcode, fin, masking, mask, payload)[..n]); r.Silent? || r.payload.None?
  {
    var frame := Frame(opcode, fin, masking, mask, payload);
    var data := frame[..n];
    if n >= 2 {
      FirstByteBits(fin, opcode);
      SecondByteBits(masking, LenSmall(|payload|));
      assert data[0] == FirstByte(fin, opcode) && data[1] == SecondByte(masking, LenSmall(|payload|));
      LengthReadBack(opcode, fin, masking, mask, |payload|, if masking then Masked(payload, mask) else payload);
      LengthOfPrefix(frame, n);
      hide FirstByte, SecondByte, LengthField, Frame;
    }
  }

  /** A prefix has the same length field, or not enough bytes for it. */
  lemma LengthOfPrefix(data: seq<Byte>, n: nat)
    requires 2 <= n <= |data|
    ensures LengthField(data[..n]) == LengthField(data) || LengthField(data[..n]) == Missing
  {
    if n >= 10 {
      assert data[..n][2..4] == data[2..4] && data[..n][2..6] == data[2..6] && data[..n][2..10] == data[2..10];
    } else if n >= 4 {
      assert data[..n][2..4] == data[2..4];
    }
  }

  // ----- several frames -----

  datatype Spec = Spec(opcode: Byte, fin: bool, masking: bool, mask: seq<Byte>, payload: seq<Byte>)

  predicate Sendable(f: Spec) { f.opcode < 16 && |f.mask| == WS_MASK_SIZE && |f.payload| < 0x1_0000_0000 }

  predicate AllSendable(fs: seq<Spec>) { forall i :: 0 <= i < |fs| ==> Sendable(fs[i]) }

  function FrameOf(f: Spec): seq<Byte>
    requires Sendable(f)
  {
    Frame(f.opcode, f.fin, f.masking, f.mask, f.payload)
  }

  function Wire(fs: seq<Spec>): seq<Byte>
    requires AllSendable(fs)
  {
    if fs == [] then [] else FrameOf(fs[0]) + Wire(fs[1..])
  }

  /** A payload never comes from more bytes than there are. */
  lemma ParseFits(data: seq<Byte>)
    ensures var r := Parse(data); r.Parsed? && r.payload.Some? ==> 2 <= r.info.frameSize <= |data|
  {
    hide FromLittleEndian, Reversed, LowBits, HighBit, LowNibble, Reserved;
  }

  /** The payloads one gets by parsing again and again, and the bytes that are left over. */
  function Split(data: seq<Byte>): (seq<seq<Byte>>, seq<Byte>)
    decreases |data|
  {
    ParseFits(data);
    var r := Parse(data);
    if r.Parsed? && r.payload.Some? then
      var (ps, rest) := Split(data[r.info.frameSize..]);
      ([r.payload.value] + ps, rest)
    else ([], data)
  }

  function Payloads(fs: seq<Spec>): seq<seq<Byte>> { if fs == [] then [] else [fs[0].payload] + Payloads(fs[1..]) }

  /** Frames one after the other, and the beginning of one more, split in exactly one way. */
  lemma {:induction false} SplitsUniquely(fs: seq<Spec>, next: Spec, n: nat)
    requires AllSendable(fs) && Sendable(next) && n < |FrameOf(next)|
    ensures Split(Wire(fs) + FrameOf(next)[..n]) == (Payloads(fs), FrameOf(next)[..n])
  {
    hide Parse, Frame;
    var tail := FrameOf(next)[..n];
    if fs == [] {
      PrefixYieldsNothing(next.opcode, next.fin, next.masking, next.mask, next.payload, n);
      assert Wire(fs) + tail == tail;
    } else {
      var f, rest := fs[0], Wire(fs[1..]) + tail;
      assert Wire(fs) + tail == FrameOf(f) + rest;
      RoundTrip(f.opcode, f.fin, f.masking, f.mask, f.payload, rest);
      assert (FrameOf(f) + rest)[|FrameOf(f)|..] == rest;
      SplitsUniquely(fs[1..], next, n);
    }
  }

  // ----- the code -----

  /** `ws_hton16` and `ws_hton64`, with the store of their result. */
  method NetworkBytes(n: nat, size: nat) returns (s: seq<Byte>)
    requires size == 2 || size == 8
    ensures s == BigEndian(n, size)
  {
    var le := LittleEndian(n, size);
    var mem := new Byte[size](i requires 0 <= i < size => le[i]);
    assert mem[..] == le;
    WsHton(mem);
    s := mem[..];
  }

  /** The mask, and behind it the payload under this mask. */
  method AddMask(data: array<Byte>, at: nat, len: nat, mask: seq<Byte>)
    requires |mask| == WS_MASK_SIZE && at + WS_MASK_SIZE + len <= data.Length
    modifies data
    ensures var m := at + WS_MASK_SIZE;
            data[..m+len] == old(data[..at]) + mask + Masked(old(data[m..m+len]), mask) &&
            forall i :: m + len <= i < data.Length ==> data[i] == old(data[i])
  {
    hide Xor;
    var _ := Copy(data, at, mask);
    var m := at + WS_MASK_SIZE;
    ghost var was := data[..];
    MaskInPlace(data, m, len, mask);
    assert data[..m] == was[..m];
    assert data[m..m+len] == Masked(was[m..m+len], mask);
    assert data[..m+len] == data[..m] + data[m..m+len];
  }

  /** The first two bytes and the length. */
  method AddHead(data: array<Byte>, opcode: Byte, fin: bool, masking: bool, len: nat)
    requires opcode < 16 && 2 + LenSize(len) <= data.Length
    modifies data
    ensures data[..2+LenSize(len)] ==
            [FirstByte(fin, opcode), SecondByte(masking, LenSmall(len))] + BigEndian(len, LenSize(len))
    ensures forall i :: 2 + LenSize(len) <= i < data.Length ==> data[i] == old(data[i])
  {
    hide FirstByte, SecondByte, LenSmall, BigEndian;
    data[0] := FirstByte(fin, opcode);
    data[1] := SecondByte(masking, LenSmall(len));
    assert data[..2] == [FirstByte(fin, opcode), SecondByte(masking, LenSmall(len))];
    var be := [];
    if LenSize(len) > 0 {
      be := NetworkBytes(len, LenSize(len));
    }
    assert be == BigEndian(len, LenSize(len));
    var _ := Copy(data, 2, be);
  }

  /** `websocket_build_frame`; one zero byte is kept behind the frame. */
  method BuildFrame(opcode: Byte, fin: bool, masking: bool, mask: seq<Byte>, payload: seq<Byte>)
    returns (data: array<Byte>)
    requires opcode < 16 && |mask| == WS_MASK_SIZE
    ensures fresh(data) && data.Length == FrameSize(masking, |payload|) + 1
    ensures data[..data.Length-1] == Frame(opcode, fin, masking, mask, payload) && data[data.Length-1] == 0
  {
    hide FirstByte, SecondByte, LenSmall, BigEndian, LenSize, Masked;
    var at := 2 + LenSize(|payload|);
    var offset := at + MaskSize(masking);
    var size := offset + |payload|;
    data := new Byte[size + 1](_ => 0);
    AddHead(data, opcode, fin, masking, |payload|);
    ghost var head := data[..at];
    var _ := Copy(data, offset, payload);
    assert data[..at] == head && data[offset..size] == payload;
    if masking {
      AddMask(data, at, |payload|, mask);
    }
  }

  /** The masking loop. */
  method MaskInPlace(data: array<Byte>, offset: nat, len: nat, mask: seq<Byte>)
    requires offset + len <= data.Length && |mask| == WS_MASK_SIZE
    modifies data
    ensures forall i :: 0 <= i < data.Length ==>
              data[i] ==
                if offset <= i < offset + len then Xor(old(data[i]), mask[(i - offset) % WS_MASK_SIZE])
                else old(data[i])
  {
    hide Xor;
    for k := 0 to len
      invariant forall i :: 0 <= i < data.Length ==>
                  data[i] ==
                    if offset <= i < offset + k then Xor(old(data[i]), mask[(i - offset) % WS_MASK_SIZE])
                    else old(data[i])
    {
      data[offset+k] := Xor(data[offset+k], mask[k % WS_MASK_SIZE]);
    }
  }

  /** `websocket_retrieve_payload` */
  method RetrievePayload(data: seq<Byte>) returns (r: Parsed)
    ensures r == Parse(data)
  {
    hide FromLittleEndian, Reversed, LowBits, HighBit, LowNibble, Reserved, KnownOpcode, Masked, Xor;
    if |data| < 2 {
      return Parsed(None, Info(0, false, false, UNEXPECTED_DATA, 0, 0));
    }
    var opcode, fin := LowNibble(data[0]), HighBit(data[0]);
    var reason := if KnownOpcode(opcode) then NORMAL else UNEXPECTED_DATA;
    if Reserved(data[0]) {
      return Parsed(None, Info(opcode, fin, false, UNEXPECTED_DATA, 0, 0));
    }
    var masking := HighBit(data[1]);
    var count := MaskSize(masking);
    var len, headLen := LowBits(data[1]), 2;
    if len == 126 {
      if |data| < 4 {
        return Silent;
      }
      len, headLen := FromLittleEndian(Reversed(data[2..4])), 4;
    } else if len == 127 {
      if |data| < 10 {
        return Silent;
      }
      if FromLittleEndian(data[2..6]) != 0 {
        return Parsed(None, Info(opcode, fin, masking, TOO_BIG, 127, 127));
      }
      len, headLen := FromLittleEndian(Reversed(data[2..10])), 10;
    }
    var info := Info(opcode, fin, masking, reason, len, len + headLen + count);
    if |data| < headLen + count + len {
      return Parsed(None, info);
    }
    var payload := Unmask(data, headLen, masking, len);
    return Parsed(Some(payload), info);
  }

  /** The copying loop of `websocket_retrieve_payload`. */
  method Unmask(data: seq<Byte>, headLen: nat, masking: bool, len: nat) returns (payload: seq<Byte>)
    requires headLen + MaskSize(masking) + len <= |data|
    ensures var head := headLen + MaskSize(masking);
            payload ==
              if masking then Masked(data[head..head+len], data[headLen..headLen+WS_MASK_SIZE])
              else data[head..head+len]
  {
    var head := headLen + MaskSize(masking);
    if !masking {
      return data[head..head+len];
    }
    hide Xor;
    var maskKey, body := data[headLen..headLen+WS_MASK_SIZE], data[head..head+len];
    var package := new Byte[len + 1](_ => 0);
    for i := 0 to len
      invariant package[..i] == Masked(body, maskKey)[..i]
    {
      package[i] := Xor(data[i+head], maskKey[i % WS_MASK_SIZE]);
    }
    payload := package[..len];
  }

  /** The payload of `websocket_build_close_frame`: the reason, and at most 123 bytes of text. */
  function ClosePayload(reason: nat, text: seq<Byte>): seq<Byte> {
    BigEndian(reason % 0x1_0000, 2) + if |text| <= 123 then text else text[..123]
  }

  /** A close frame is a control frame of at most 125 bytes, and its reason and text come back. */
  lemma CloseFrameReadBack(masking: bool, mask: seq<Byte>, reason: nat, text: seq<Byte>, rest: seq<Byte>)
    requires |mask| == WS_MASK_SIZE && reason < 0x1_0000
    ensures var r := Parse(Frame(8, true, masking, mask, ClosePayload(reason, text)) + rest);
            r.Parsed? && r.payload == Some(ClosePayload(reason, text)) && r.info.opcode == 8 && r.info.fin &&
            r.info.reason == NORMAL && 2 <= |r.payload.value| <= 125 &&
            FromLittleEndian(Reversed(r.payload.value[..2])) == reason &&
            r.payload.value[2..] == if |text| <= 123 then text else text[..123]
  {
    var payload := ClosePayload(reason, text);
    RoundTrip(8, true, masking, mask, payload, rest);
    Powers();
    BigEndianInverse(reason, 2);
    hide Parse, Frame, BigEndian, FromLittleEndian, Reversed;
    assert payload[..2] == BigEndian(reason, 2);
  }
}
