/**
 SOCKS5 addresses (RFC 1928, section 5): shadowsocksr-native/src/sockaddr_universal.c, and the second parser of the
 same format in shadowsocksr-native/src/udprelay.c.
 */
module Socks5 {
  import opened Bytes
  import opened Wrappers

  const IPV4: Byte := 1
  const DOMAINNAME: Byte := 3
  const IPV6: Byte := 4

  /** `struct socks5_address`; `name` is what the C string in `domainname` holds. */
  datatype Address =
    | Ipv4(ip: seq<Byte>, port: nat)
    | Domain(name: seq<Byte>, port: nat)
    | Ipv6(ip: seq<Byte>, port: nat)

  /** An address as it can be stored: sizes fit, and a name is a C string of at most 255 characters. */
  predicate Ok(a: Address) {
    a.port < 0x1_0000 &&
    match a
    case Ipv4(ip, _) => |ip| == 4
    case Domain(name, _) => |name| <= 255 && 0 !in name
    case Ipv6(ip, _) => |ip| == 16
  }

  /** `htons` and the store of its result. */
  function PortBytes(port: nat): seq<Byte>
    requires port < 0x1_0000
  {
    [port / 256, port % 256]
  }

  /** `ntohs` of two bytes. */
  function PortOf(high: Byte, low: Byte): (port: nat)
    ensures port < 0x1_0000
  {
    high as int * 256 + low as int
  }

  /** The C string at the start of a buffer. */
  function CString(s: seq<Byte>): (r: seq<Byte>)
    ensures 0 !in r && r <= s
  {
    if s == [] || s[0] == 0 then [] else [s[0]] + CString(s[1..])
  }

  lemma {:induction false} CStringWhole(s: seq<Byte>)
    ensures CString(s) == s <==> 0 !in s
  {
    if s != [] {
      CStringWhole(s[1..]);
      assert s == [s[0]] + s[1..];
    }
  }

  /** `socks5_address_size` */
  function Size(a: Address): nat {
    match a
    case Ipv4(_, _) => 7
    case Domain(name, _) => 4 + |name|
    case Ipv6(_, _) => 19
  }

  function Wire(a: Address): (s: seq<Byte>)
    requires Ok(a)
    ensures |s| == Size(a)
  {
    (match a
     case Ipv4(ip, _) => [IPV4] + ip
     case Domain(name, _) => [DOMAINNAME, |name|] + name
     case Ipv6(ip, _) => [IPV6] + ip) + PortBytes(a.port)
  }

  /** Where the port stands, for an address type and the byte behind it. */
  function PortAt(addrType: Byte, next: Byte): Option<nat> {
    if addrType == IPV4 then Some(5) else if addrType == DOMAINNAME then Some(2 + next as nat)
    else if addrType == IPV6 then Some(17) else None
  }

  /** The length of a name is looked at before it is known to be there. */
  predicate LengthThere(addrType: Byte, size: nat) { addrType == DOMAINNAME ==> size >= 2 }

  predicate Readable(data: seq<Byte>) { data != [] ==> LengthThere(data[0], |data|) }

  function Second(data: seq<Byte>): Byte { if |data| > 1 then data[1] else 0 }

  /** What `socks5_address_parse` answers: the address, and how many bytes it took. */
  function Parse(data: seq<Byte>): Option<(Address, nat)>
    requires Readable(data)
  {
    if data == [] then None
    else match PortAt(data[0], Second(data))
    case None => None
    case Some(p) =>
      if |data| < p + 2 then None
      else
        var port: nat := PortOf(data[p], data[p+1]);
        var a := if data[0] == IPV4 then Ipv4(data[1..5], port)
                 else if data[0] == DOMAINNAME then Domain(CString(data[2..p]), port)
                 else Ipv6(data[1..17], port);
        Some((a, p + 2))
  }

  /** Whatever follows it, an address comes back from its bytes. */
  lemma ParseInvertsBinary(a: Address, rest: seq<Byte>)
    requires Ok(a)
    ensures Parse(Wire(a) + rest) == Some((a, Size(a)))
  {
    var data := Wire(a) + rest;
    var p := Size(a) - 2;
    assert data[p] == a.port / 256 && data[p+1] == a.port % 256;
    if a.Domain? {
      assert data[2..p] == a.name;
      CStringWhole(a.name);
    } else {
      assert data[1..p] == a.ip;
    }
  }

  /** The bytes come back from an address exactly if a name has no NUL inside. */
  lemma BinaryInvertsParse(data: seq<Byte>)
    requires Readable(data) && Parse(data).Some?
    ensures var (a, off) := Parse(data).value;
            Ok(a) && off <= |data| &&
            (Wire(a) == data[..off] <==> (data[0] == DOMAINNAME ==> 0 !in data[2..off-2]))
  {
    var (a, off) := Parse(data).value;
    var p: nat := off - 2;
    PortBack(data[p], data[p+1]);
    hide PortBytes, PortOf, CString;
    if a.Domain? {
      var name := data[2..p];
      CStringWhole(name);
      if 0 !in name {
        assert data[..off] == [data[0], data[1]] + name + [data[p], data[p+1]];
      } else {
        assert |CString(name)| < |name|;
      }
    } else {
      assert data[..off] == [data[0]] + data[1..p] + [data[p], data[p+1]];
    }
  }

  /** A name with a NUL in it, which is empty when it is written again. */
  lemma NulInName()
    ensures var data: seq<Byte> := [3, 1, 0, 0, 80];
            Parse(data) == Some((Domain([], 80), 5)) && Wire(Domain([], 80)) == [3, 0, 0, 80]
  {
    var data: seq<Byte> := [3, 1, 0, 0, 80];
    assert data[2..3] == [0] && CString([0]) == [];
  }

  lemma PortBack(high: Byte, low: Byte)
    ensures PortBytes(PortOf(high, low)) == [high, low]
  {
  }

  /** `socks5_address_parse` */
  method AddressParse(data: seq<Byte>) returns (r: Option<(Address, nat)>)
    requires Readable(data)
    ensures r == Parse(data)
  {
    var len, offset: nat := |data|, 1;
    if len == 0 {
      return None;
    }
    var addrSize: nat, a;
    if data[0] == IPV4 {
      addrSize := 4;
      if len < 1 + addrSize + 2 {
        return None;
      }
      a := Ipv4(data[offset..offset+addrSize], 0);
    } else if data[0] == DOMAINNAME {
      addrSize := data[offset];
      offset := offset + 1;
      if len < 1 + 1 + addrSize + 2 {
        return None;
      }
      a := Domain(CString(data[offset..offset+addrSize]), 0);
    } else if data[0] == IPV6 {
      addrSize := 16;
      if len < 1 + addrSize + 2 {
        return None;
      }
      a := Ipv6(data[offset..offset+addrSize], 0);
    } else {
      return None;
    }
    offset := offset + addrSize;
    var port: nat := PortOf(data[offset], data[offset+1]);
    a := a.(port := port);
    offset := offset + 2;
    return Some((a, offset));
  }

  /** `socks5_address_binary` */
  method AddressBinary(a: Address) returns (buffer: array<Byte>, size: nat)
    requires Ok(a)
    ensures size == Size(a) && buffer.Length == size + 1 && buffer[..size] == Wire(a)
  {
    size := Size(a);
    buffer := new Byte[size + 1](_ => 0);
    var offset := 0;
    assert buffer[..0] == [];
    if a.Ipv4? {
      offset := Copy(buffer, 0, [IPV4]);
      offset := Copy(buffer, offset, a.ip);
    } else if a.Domain? {
      offset := Copy(buffer, 0, [DOMAINNAME]);
      offset := Copy(buffer, offset, [|a.name|]);
      assert buffer[..offset] == [DOMAINNAME, |a.name|];
      offset := Copy(buffer, offset, a.name);
    } else {
      offset := Copy(buffer, 0, [IPV6]);
      offset := Copy(buffer, offset, a.ip);
    }
    offset := Copy(buffer, offset, PortBytes(a.port));
  }

  /** `addr_type & ADDRTYPE_MASK`: the mask 0xEF drops bit 4. */
  function WithoutBit4(b: Byte): Byte { if b / 16 % 2 == 1 then b - 16 else b }

  /** The header length that `udprelay_parse_header` reports. */
  function HeaderLength(data: seq<Byte>): nat
    requires data != [] && LengthThere(WithoutBit4(data[0]), |data|)
  {
    match PortAt(WithoutBit4(data[0]), Second(data))
    case None => 0
    case Some(p) => if |data| < p + 2 then 0 else p + 2
  }

  /** `udprelay_parse_header`: the length of the header, 0 if it is invalid. */
  method UdpParseHeader(data: seq<Byte>) returns (offset: nat)
    requires data != [] && LengthThere(WithoutBit4(data[0]), |data|)
    ensures offset == HeaderLength(data)
  {
    offset := 1;
    var addrType := WithoutBit4(data[0]);
    if addrType == IPV4 {
      if |data| >= 4 + 3 {
        offset := offset + 4;
      }
    } else if addrType == DOMAINNAME {
      var nameLen: nat := data[offset];
      if nameLen + 4 <= |data| {
        offset := offset + 1 + nameLen;
      }
    } else if addrType == IPV6 {
      if |data| >= 16 + 3 {
        offset := offset + 16;
      }
    }
    if offset == 1 {
      return 0;
    }
    offset := offset + 2;
  }

  /** The length that `socks5_address_parse` reports, 0 if it refuses. */
  function ParsedLength(data: seq<Byte>): nat
    requires Readable(data)
  {
    if Parse(data).Some? then Parse(data).value.1 else 0
  }

  /**
   The two parsers agree except on the types 0x11, 0x13 and 0x14, which only the mask of the second one turns into
   known types; there they disagree as soon as there are enough bytes.
   */
  lemma ParsersAgree(data: seq<Byte>)
    requires data != [] && Readable(data) && LengthThere(WithoutBit4(data[0]), |data|)
    ensures HeaderLength(data) == ParsedLength(data) <==>
            !(data[0] == 0x11 && |data| >= 7) && !(data[0] == 0x13 && |data| >= 4 + Second(data) as int) &&
            !(data[0] == 0x14 && |data| >= 19)
  {
  }

  /** A header that only one of the two parsers accepts. */
  lemma ParsersDisagree()
    ensures HeaderLength([0x11, 1, 2, 3, 4, 0, 80]) == 7 && ParsedLength([0x11, 1, 2, 3, 4, 0, 80]) == 0
  {
    var data: seq<Byte> := [0x11, 1, 2, 3, 4, 0, 80];
    assert WithoutBit4(data[0]) == IPV4;
  }
}
