/**
 The ssr:// and ss:// links of shadowsocksr-native/src/ssr_qr_code.c. The base64 and URI coders are functions with an
 inverse contract and an alphabet.
 */
module QrLink {
  import opened Wrappers

  /** `struct server_config`, as far as links carry it. */
  datatype Config = Config(host: string, port: nat, protocol: string, cipherName: string, obfs: string,
                           password: string,
                           obfsParam: string, protocolParam: string, remarks: string, overTls: bool, tlsDomain: string,
                           tlsPath: string)

  /** `config_create` */
  function Defaults(cipherName: string, tlsPath: string): Config {
    Config("", 443, "origin", cipherName, "plain", "password", "", "", "Default", false, "", tlsPath)
  }

  datatype Coders = Coders(encode: string -> string, decode: string -> string, uriEncode: string -> string,
                           uriDecode: string -> string)

  predicate Without(s: string, c: char) { c !in s }

  /** The characters that separate the parts of a link. */
  const DELIMITERS: string := ":/?&=@#"

  predicate Clean(s: string) { forall c :: c in s ==> c !in DELIMITERS }

  ghost predicate Correct(k: Coders) {
    (forall s :: k.decode(k.encode(s)) == s && Clean(k.encode(s))) && forall s :: k.uriDecode(k.uriEncode(s)) == s
  }

  // ----- C strings -----

  /** `strchr`: the place of the first `c`, or the length. */
  function First(s: string, c: char): (i: nat)
    ensures i <= |s| && (i < |s| ==> s[i] == c) && forall j :: 0 <= j < i ==> s[j] != c
  {
    if s == "" || s[0] == c then 0 else 1 + First(s[1..], c)
  }

  /** `strrchr`: the place of the last `c`, or -1. */
  function Last(s: string, c: char): (i: int)
    ensures -1 <= i < |s| && (i >= 0 ==> s[i] == c) && forall j :: i < j < |s| ==> s[j] != c
  {
    if s == "" then -1 else if s[|s|-1] == c then |s| - 1 else Last(s[..|s|-1], c)
  }

  lemma FirstIs(a: string, c: char, b: string)
    requires Without(a, c)
    ensures First(a + [c] + b, c) == |a|
  {
    var s := a + [c] + b;
    assert s[|a|] == c && forall j :: 0 <= j < |a| ==> s[j] in a;
  }

  lemma LastIs(a: string, c: char, b: string)
    requires Without(b, c)
    ensures Last(a + [c] + b, c) == |a|
  {
    var s := a + [c] + b;
    assert s[|a|] == c && forall j :: |a| < j < |s| ==> s[j] in b;
  }

  lemma NoFirst(s: string, c: char)
    requires Without(s, c)
    ensures First(s, c) == |s|
  {
  }

  function Digits(n: nat): (s: string)
    ensures s != "" && forall i :: 0 <= i < |s| ==> '0' <= s[i] <= '9'
  {
    if n < 10 then [('0' as int + n) as char] else Digits(n / 10) + [('0' as int + n % 10) as char]
  }

  /** `atoi`, of a string of digits. */
  function Atoi(s: string): int { if s == "" then 0 else Atoi(s[..|s|-1]) * 10 + (s[|s|-1] as int - '0' as int) }

  lemma {:induction false} AtoiDigits(n: nat)
    ensures Atoi(Digits(n)) == n
  {
    if n < 10 {
      assert Digits(n)[..0] == "";
    } else {
      AtoiDigits(n / 10);
      assert Digits(n)[..|Digits(n)|-1] == Digits(n / 10);
    }
  }

  lemma DigitsClean(n: nat)
    ensures Clean(Digits(n))
  {
    forall c | c in Digits(n)
      ensures c !in DELIMITERS
    {
      var i :| 0 <= i < |Digits(n)| && Digits(n)[i] == c;
    }
  }

  lemma CleanWithout(s: string, c: char)
    requires Clean(s) && c in DELIMITERS
    ensures Without(s, c)
  {
  }

  // ----- optional parameters -----

  /** The text parameters. */
  datatype Param = ObfsParam | ProtoParam | Remarks | TlsDomain | TlsPath

  function Name(p: Param): string {
    match p
    case ObfsParam => "obfsparam"
    case ProtoParam => "protoparam"
    case Remarks => "remarks"
    case TlsDomain => "ot_domain"
    case TlsPath => "ot_path"
  }

  /** The parameters a link has, in this order; empty ones are left out. */
  function Pairs(c: Config, k: Coders): seq<(string, string)> {
    Pair(Name(ObfsParam), c.obfsParam, k) + Pair(Name(ProtoParam), c.protocolParam, k) +
    Pair(Name(Remarks), c.remarks, k) + (if c.overTls then [("ot_enable", "1")] else []) +
    Pair(Name(TlsDomain), c.tlsDomain, k) + Pair(Name(TlsPath), c.tlsPath, k)
  }

  function Pair(key: string, value: string, k: Coders): seq<(string, string)> {
    if value == "" then [] else [(key, k.encode(value))]
  }

  /** `sprintf(optional + len, len ? "&%s=%s" : "%s=%s", key, value)` */
  function Appended(optional: string, p: (string, string)): string {
    optional + (if optional == "" then "" else "&") + p.0 + "=" + p.1
  }

  /** The parameter string. */
  function Optional(ps: seq<(string, string)>): string {
    if ps == [] then "" else Appended(Optional(ps[..|ps|-1]), ps[|ps|-1])
  }

  /** What one parameter does to the configuration. */
  function Assign(c: Config, key: string, value: string, k: Coders): Config {
    if key == "obfsparam" then c.(obfsParam := k.decode(value))
    else if key == "protoparam" then c.(protocolParam := k.decode(value))
    else if key == "remarks" then c.(remarks := k.decode(value))
    else if key == "ot_enable" then c.(overTls := Atoi(value) != 0)
    else if key == "ot_domain" then c.(tlsDomain := k.decode(value))
    else if key == "ot_path" then c.(tlsPath := k.decode(value))
    else c
  }

  /** The text up to the next `&`: a key, and a value if there is a `=`. */
  function AssignText(c: Config, text: string, k: Coders): Config {
    var e := First(text, '=');
    if e == |text| then c else Assign(c, text[..e], text[e+1..], k)
  }

  /** The loop of `decode_ssr` over the parameters. */
  function Fill(c: Config, text: string, k: Coders): Config
    decreases |text|
  {
    var n := First(text, '&');
    var d := AssignText(c, text[..n], k);
    if n == |text| then d else Fill(d, text[n+1..], k)
  }

  function AssignAll(c: Config, ps: seq<(string, string)>, k: Coders): Config {
    if ps == [] then c else Assign(AssignAll(c, ps[..|ps|-1], k), ps[|ps|-1].0, ps[|ps|-1].1, k)
  }

  predicate CleanPair(p: (string, string)) { p.0 != "" && Clean(p.0) && Clean(p.1) }

  predicate CleanPairs(ps: seq<(string, string)>) { forall i :: 0 <= i < |ps| ==> CleanPair(ps[i]) }

  /** One more parameter at the end is assigned last. */
  lemma {:induction false} FillAppended(c: Config, text: string, p: (string, string), k: Coders)
    requires Clean(p.0) && Clean(p.1)
    ensures Fill(c, text + "&" + p.0 + "=" + p.1, k) == Assign(Fill(c, text, k), p.0, p.1, k)
    decreases |text|
  {
    hide First, AssignText, Assign;
    var tail := p.0 + "=" + p.1;
    var all := text + "&" + p.0 + "=" + p.1;
    assert all == text + "&" + tail;
    var n := First(text, '&');
    if n == |text| {
      FirstIs(text, '&', tail);
      assert all[..n] == text && all[n+1..] == tail && text[..n] == text;
      FillOne(AssignText(c, text, k), p, k);
    } else {
      var front, back := text[..n], text[n+1..];
      assert text == front + ['&'] + back;
      assert all == front + ['&'] + (back + "&" + tail);
      FirstIs(front, '&', back + "&" + tail);
      assert all[..n] == front && all[n+1..] == back + "&" + p.0 + "=" + p.1;
      FillAppended(AssignText(c, front, k), back, p, k);
    }
  }

  lemma FillOne(c: Config, p: (string, string), k: Coders)
    requires Clean(p.0) && Clean(p.1)
    ensures Fill(c, p.0 + "=" + p.1, k) == Assign(c, p.0, p.1, k)
  {
    var text := p.0 + "=" + p.1;
    NoFirst(text, '&');
    FirstIs(p.0, '=', p.1);
    assert text == p.0 + ['='] + p.1;
    assert text[..|text|] == text && text[..|p.0|] == p.0 && text[|p.0|+1..] == p.1;
  }

  /** Parsing the parameter string assigns every parameter, in order. */
  lemma {:induction false} FillOptional(c: Config, ps: seq<(string, string)>, k: Coders)
    requires CleanPairs(ps) && ps != []
    ensures Optional(ps) != "" && Fill(c, Optional(ps), k) == AssignAll(c, ps, k)
  {
    var rest, p := ps[..|ps|-1], ps[|ps|-1];
    hide Fill, Assign;
    if rest == [] {
      assert Optional(ps) == "" + "" + p.0 + "=" + p.1 == p.0 + "=" + p.1;
      FillOne(c, p, k);
    } else {
      FillOptional(c, rest, k);
      FillAppended(c, Optional(rest), p, k);
    }
  }

  lemma {:induction false} AssignAllConcat(c: Config, a: seq<(string, string)>, b: seq<(string, string)>, k: Coders)
    ensures AssignAll(c, a + b, k) == AssignAll(AssignAll(c, a, k), b, k)
  {
    hide Assign;
    if b == [] {
      assert a + b == a;
    } else {
      assert (a + b)[..|a + b|-1] == a + b[..|b|-1];
      AssignAllConcat(c, a, b[..|b|-1], k);
    }
  }

  function Or(value: string, otherwise: string): string { if value == "" then otherwise else value }

  function WithValue(c: Config, p: Param, v: string): Config {
    match p
    case ObfsParam => c.(obfsParam := Or(v, c.obfsParam))
    case ProtoParam => c.(protocolParam := Or(v, c.protocolParam))
    case Remarks => c.(remarks := Or(v, c.remarks))
    case TlsDomain => c.(tlsDomain := Or(v, c.tlsDomain))
    case TlsPath => c.(tlsPath := Or(v, c.tlsPath))
  }

  lemma AssignOne(c: Config, p: Param, value: string, k: Coders)
    requires Correct(k)
    ensures AssignAll(c, Pair(Name(p), value, k), k) == WithValue(c, p, value)
  {
    if value != "" {
      var ps := [(Name(p), k.encode(value))];
      assert Pair(Name(p), value, k) == ps && ps[..0] == [];
      assert AssignAll(c, ps, k) == Assign(c, Name(p), k.encode(value), k) by { hide Assign; }
      assert k.decode(k.encode(value)) == value;
      NamesDiffer(c, p, k.encode(value), k);
    }
  }

  lemma NamesDiffer(c: Config, p: Param, value: string, k: Coders)
    requires k.decode(value) != ""
    ensures Assign(c, Name(p), value, k) == WithValue(c, p, k.decode(value))
  {
    match p
    case ObfsParam =>
    case ProtoParam =>
      assert Name(p)[0] != "obfsparam"[0];
    case Remarks =>
      assert Name(p)[0] != "obfsparam"[0] && Name(p)[0] != "protoparam"[0];
    case TlsDomain =>
      assert Name(p)[1] != "obfsparam"[1] && Name(p)[0] != "protoparam"[0] && Name(p)[0] != "remarks"[0] &&
             Name(p)[3] != "ot_enable"[3];
    case TlsPath =>
      assert Name(p)[1] != "obfsparam"[1] && Name(p)[0] != "protoparam"[0] && Name(p)[0] != "remarks"[0] &&
             Name(p)[3] != "ot_enable"[3];
      assert Name(p)[3] != "ot_domain"[3];
  }

  /** Assigning the parameters of `c` gives its values; what is empty keeps the value it had. */
  lemma AssignPairs(c: Config, base: Config, k: Coders)
    requires Correct(k)
    ensures AssignAll(base, Pairs(c, k), k) ==
            base.(obfsParam := Or(c.obfsParam, base.obfsParam),
                  protocolParam := Or(c.protocolParam, base.protocolParam),
                  remarks := Or(c.remarks, base.remarks), overTls := c.overTls || base.overTls,
                  tlsDomain := Or(c.tlsDomain, base.tlsDomain), tlsPath := Or(c.tlsPath, base.tlsPath))
  {
    hide Correct, Assign, AssignAll, Pair, Or, Name;
    var a, b := Pair(Name(ObfsParam), c.obfsParam, k), Pair(Name(ProtoParam), c.protocolParam, k);
    var r := Pair(Name(Remarks), c.remarks, k);
    var o := if c.overTls then [("ot_enable", "1")] else [];
    var d, e := Pair(Name(TlsDomain), c.tlsDomain, k), Pair(Name(TlsPath), c.tlsPath, k);
    AssignAllConcat(base, a + b + r + o + d, e, k);
    AssignAllConcat(base, a + b + r + o, d, k);
    AssignAllConcat(base, a + b + r, o, k);
    AssignAllConcat(base, a + b, r, k);
    AssignAllConcat(base, a, b, k);
    AssignOne(base, ObfsParam, c.obfsParam, k);
    var s1 := WithValue(base, ObfsParam, c.obfsParam);
    AssignOne(s1, ProtoParam, c.protocolParam, k);
    var s2 := WithValue(s1, ProtoParam, c.protocolParam);
    AssignOne(s2, Remarks, c.remarks, k);
    var s3 := WithValue(s2, Remarks, c.remarks);
    EnableTls(s3, c.overTls, k);
    var s4 := s3.(overTls := c.overTls || s3.overTls);
    AssignOne(s4, TlsDomain, c.tlsDomain, k);
    AssignOne(WithValue(s4, TlsDomain, c.tlsDomain), TlsPath, c.tlsPath, k);
  }

  lemma EnableTls(c: Config, on: bool, k: Coders)
    ensures AssignAll(c, if on then [("ot_enable", "1")] else [], k) == c.(overTls := on || c.overTls)
  {
    if on {
      var ps := [("ot_enable", "1")];
      assert ps[..0] == [] && AssignAll(c, ps, k) == Assign(c, "ot_enable", "1", k) by { hide Assign; }
      assert "1"[..0] == "" && "ot_enable"[1] != "obfsparam"[1] && "ot_enable"[0] != "protoparam"[0] &&
             "ot_enable"[0] != "remarks"[0];
    }
  }

  lemma NameClean(p: Param)
    ensures Clean(Name(p)) && Name(p) != ""
  {
  }

  lemma PairClean(p: Param, value: string, k: Coders)
    requires Correct(k)
    ensures CleanPairs(Pair(Name(p), value, k))
  {
    NameClean(p);
    hide Name;
  }

  lemma CleanConcat(a: seq<(string, string)>, b: seq<(string, string)>)
    requires CleanPairs(a) && CleanPairs(b)
    ensures CleanPairs(a + b)
  {
    hide CleanPair;
  }

  lemma EnableClean(on: bool)
    ensures CleanPairs(if on then [("ot_enable", "1")] else [])
  {
  }

  lemma PairsClean(c: Config, k: Coders)
    requires Correct(k)
    ensures CleanPairs(Pairs(c, k))
  {
    PairClean(ObfsParam, c.obfsParam, k);
    PairClean(ProtoParam, c.protocolParam, k);
    PairClean(Remarks, c.remarks, k);
    PairClean(TlsDomain, c.tlsDomain, k);
    PairClean(TlsPath, c.tlsPath, k);
    EnableClean(c.overTls);
    hide Pair, CleanPairs, Correct, Name;
    var a, b := Pair(Name(ObfsParam), c.obfsParam, k), Pair(Name(ProtoParam), c.protocolParam, k);
    var r := Pair(Name(Remarks), c.remarks, k);
    var o := if c.overTls then [("ot_enable", "1")] else [];
    var d, e := Pair(Name(TlsDomain), c.tlsDomain, k), Pair(Name(TlsPath), c.tlsPath, k);
    CleanConcat(a, b);
    CleanConcat(a + b, r);
    CleanConcat(a + b + r, o);
    CleanConcat(a + b + r + o, d);
    CleanConcat(a + b + r + o + d, e);
  }

  /** A parameter string starts with a key. */
  lemma {:induction false} OptionalStarts(ps: seq<(string, string)>)
    requires CleanPairs(ps) && ps != []
    ensures Optional(ps) != "" && Optional(ps)[0] != '?'
  {
    var rest, p := ps[..|ps|-1], ps[|ps|-1];
    assert CleanPair(p);
    if rest == [] {
      assert p.0[0] in p.0;
      assert Optional(ps)[0] == p.0[0];
    } else {
      OptionalStarts(rest);
      assert Optional(ps)[0] == Optional(rest)[0];
    }
  }

  // ----- ssr links -----

  const SSR_HEADER: string := "ssr://"
  const SS_HEADER: string := "ss://"

  function Basic(c: Config, k: Coders): string {
    c.host + ":" + Digits(c.port) + ":" + c.protocol + ":" + c.cipherName + ":" + c.obfs + ":" + k.encode(c.password)
  }

  function EncodeSsr(c: Config, k: Coders): string {
    var optional := Optional(Pairs(c, k));
    SSR_HEADER + k.encode(Basic(c, k) + (if optional == "" then "/" else "/?") + optional)
  }

  /** What follows the first slash, without a question mark. */
  function Rest(plain: string): string {
    var i := First(plain, '/');
    if i == |plain| then "" else if i + 1 < |plain| && plain[i+1] == '?' then plain[i+2..] else plain[i+1..]
  }

  datatype Parts = Parts(host: string, port: string, protocol: string, cipherName: string, obfs: string,
                         password: string)

  /** Five cuts from the right. */
  function Cut(basic: string): Option<Parts> {
    var i := Last(basic, ':');
    if i < 0 then None else
    var j := Last(basic[..i], ':');
    if j < 0 then None else
    var l := Last(basic[..j], ':');
    if l < 0 then None else
    var m := Last(basic[..l], ':');
    if m < 0 then None else
    var n := Last(basic[..m], ':');
    if n < 0 then None else
    Some(Parts(basic[..n], basic[n+1..m], basic[m+1..l], basic[l+1..j], basic[j+1..i], basic[i+1..]))
  }

  function Basics(base: Config, p: Parts, k: Coders): Config {
    base.(host := p.host, port := U16(Atoi(p.port)), protocol := p.protocol, cipherName := p.cipherName, obfs := p.obfs,
          password := k.decode(p.password))
  }

  /** `decode_ssr`, behind the header: the cuts, then the parameters. */
  function DecodeSsr(text: string, base: Config, k: Coders): Option<Config> {
    var plain := k.decode(text);
    var parts := Cut(plain[..First(plain, '/')]);
    if parts.None? then None
    else
      var c := Basics(base, parts.value, k);
      Some(if Rest(plain) == "" then c else Fill(c, Rest(plain), k))
  }

  /** The conversion to the type of a port. */
  function U16(x: int): nat { x % 0x1_0000 }

  /** Names without delimiters; a host may have colons. */
  predicate Plain(c: Config) {
    0 < c.port < 0x1_0000 && Clean(c.protocol) && Clean(c.cipherName) && Clean(c.obfs) && Without(c.host, '/') &&
    Without(c.host, '#')
  }

  /** Cutting a string at the colon in front of its last part. */
  lemma CutLast(a: string, b: string)
    requires Without(b, ':')
    ensures var s := a + ":" + b; Last(s, ':') == |a| && s[..|a|] == a && s[|a|+1..] == b
  {
    LastIs(a, ':', b);
  }

  lemma BasicCuts(c: Config, k: Coders)
    requires Correct(k) && Plain(c)
    ensures Cut(Basic(c, k)) ==
            Some(Parts(c.host, Digits(c.port), c.protocol, c.cipherName, c.obfs, k.encode(c.password)))
  {
    hide Last, Digits;
    var a := c.host + ":" + Digits(c.port);
    var b := a + ":" + c.protocol;
    var d := b + ":" + c.cipherName;
    var e := d + ":" + c.obfs;
    DigitsClean(c.port);
    CutLast(e, k.encode(c.password));
    CutLast(d, c.obfs);
    CutLast(b, c.cipherName);
    CutLast(a, c.protocol);
    CutLast(c.host, Digits(c.port));
    var basic := Basic(c, k);
    assert basic == e + ":" + k.encode(c.password);
    assert basic[..|e|] == e;
    assert basic[..|d|] == e[..|d|] == d && basic[|d|+1..|e|] == e[|d|+1..];
    assert basic[..|b|] == d[..|b|] == b && basic[|b|+1..|d|] == d[|b|+1..];
    assert basic[..|a|] == b[..|a|] == a && basic[|a|+1..|b|] == b[|a|+1..];
    assert basic[..|c.host|] == a[..|c.host|] == c.host && basic[|c.host|+1..|a|] == a[|c.host|+1..];
  }

  lemma BasicNoSlash(c: Config, k: Coders)
    requires Correct(k) && Plain(c)
    ensures Without(Basic(c, k), '/')
  {
    DigitsClean(c.port);
    CleanWithout(Digits(c.port), '/');
    CleanWithout(c.protocol, '/');
    CleanWithout(c.cipherName, '/');
    CleanWithout(c.obfs, '/');
    CleanWithout(k.encode(c.password), '/');
    hide Clean, Digits;
  }

  /**
   An ssr link restores everything it carries. A field that is empty is not in the link; after decoding it has the
   value `config_create` gives it.
   */
  lemma SsrRoundTrip(c: Config, base: Config, k: Coders)
    requires Correct(k) && Plain(c) && !base.overTls
    ensures DecodeSsr(EncodeSsr(c, k)[|SSR_HEADER|..], base, k) ==
            Some(c.(obfsParam := Or(c.obfsParam, base.obfsParam),
                    protocolParam := Or(c.protocolParam, base.protocolParam),
                    remarks := Or(c.remarks, base.remarks), tlsDomain := Or(c.tlsDomain, base.tlsDomain),
                    tlsPath := Or(c.tlsPath, base.tlsPath)))
  {
    SsrPlain(c, k);
    BasicCuts(c, k);
    PortBack(c.port);
    hide U16, Or;
    var d := Basics(base, Cut(Basic(c, k)).value, k);
    AssignPairs(c, d, k);
    PairsClean(c, k);
    hide Fill, Cut, First, Basic, Pairs, Optional, Correct, Digits, Atoi, Plain, EncodeSsr, CleanPairs, Rest;
    if Pairs(c, k) == [] {
      NoPairs();
      assert AssignAll(d, [], k) == d;
    } else {
      FillOptional(d, Pairs(c, k), k);
    }
  }

  /** What is in an ssr link. */
  lemma SsrPlain(c: Config, k: Coders)
    requires Correct(k) && Plain(c)
    ensures var plain := k.decode(EncodeSsr(c, k)[|SSR_HEADER|..]);
            plain[..First(plain, '/')] == Basic(c, k) && Rest(plain) == Optional(Pairs(c, k)) &&
            k.decode(k.encode(c.password)) == c.password
  {
    var optional := Optional(Pairs(c, k));
    var basic := Basic(c, k);
    BasicNoSlash(c, k);
    PairsClean(c, k);
    if Pairs(c, k) == [] {
      NoPairs();
    } else {
      OptionalStarts(Pairs(c, k));
    }
    PlainCut(basic, optional);
    hide Basic, Pairs, Optional, First, Rest, Plain;
    var plain := basic + (if optional == "" then "/" else "/?") + optional;
    assert EncodeSsr(c, k)[|SSR_HEADER|..] == k.encode(plain) && k.decode(k.encode(plain)) == plain;
  }

  lemma PortBack(port: nat)
    requires port < 0x1_0000
    ensures U16(Atoi(Digits(port))) == port
  {
    AtoiDigits(port);
  }

  lemma NoPairs()
    ensures Optional([]) == ""
  {
  }

  lemma PlainCut(basic: string, optional: string)
    requires Without(basic, '/') && (optional == "" || optional[0] != '?')
    ensures var plain := basic + (if optional == "" then "/" else "/?") + optional;
            plain[..First(plain, '/')] == basic && Rest(plain) == optional
  {
    var plain := basic + (if optional == "" then "/" else "/?") + optional;
    if optional == "" {
      FirstIs(basic, '/', "");
      assert plain == basic + ['/'] + "";
    } else {
      FirstIs(basic, '/', "?" + optional);
      assert plain == basic + ['/'] + ("?" + optional);
    }
  }

  /** The loop of `decode_ssr` over the parameters. */
  method FillConfig(c: Config, optional: string, k: Coders) returns (d: Config)
    ensures d == Fill(c, optional, k)
  {
    d := c;
    var iter, more := optional, true;
    hide AssignText;
    while more
      invariant Fill(c, optional, k) == if more then Fill(d, iter, k) else d
      decreases more, |iter|
    {
      var n := First(iter, '&');
      d := AssignText(d, iter[..n], k);
      if n < |iter| {
        iter := iter[n+1..];
      } else {
        more := false;
      }
    }
  }

  /**
   With the defaults of `config_create`, a configuration comes back as it was exactly if it has remarks and a path.
   */
  lemma SsrExactly(c: Config, cipherName: string, tlsPath: string, k: Coders)
    requires Correct(k) && Plain(c) && tlsPath != ""
    ensures DecodeSsr(EncodeSsr(c, k)[|SSR_HEADER|..], Defaults(cipherName, tlsPath), k) == Some(c) <==>
            c.remarks != "" && c.tlsPath != ""
  {
    SsrRoundTrip(c, Defaults(cipherName, tlsPath), k);
    hide DecodeSsr, EncodeSsr;
  }

  /** A configuration without remarks comes back with the remarks of `config_create`. */
  lemma NoRemarks(cipherName: string, tlsPath: string, k: Coders)
    requires Correct(k) && tlsPath != ""
    ensures var c := Config("h", 80, "origin", "none", "plain", "pw", "", "", "", false, "", "/");
            Plain(c) && DecodeSsr(EncodeSsr(c, k)[|SSR_HEADER|..], Defaults(cipherName, tlsPath), k) != Some(c)
  {
    var c := Config("h", 80, "origin", "none", "plain", "pw", "", "", "", false, "", "/");
    assert Plain(c) by { PlainNames(); }
    hide DecodeSsr, EncodeSsr, Correct, Plain;
    SsrExactly(c, cipherName, tlsPath, k);
  }

  lemma PlainNames()
    ensures Clean("origin") && Clean("none") && Clean("plain") && Without("h", '/') && Without("h", '#')
  {
  }

  // ----- ss links -----

  function EncodeSs(c: Config, k: Coders): string {
    SS_HEADER + (SsContents(c, k) + if c.remarks == "" then "" else "#" + k.uriEncode(c.remarks))
  }

  /** The part in front of the remarks. */
  function SsContents(c: Config, k: Coders): string {
    k.encode(c.cipherName + ":" + c.password) + "@" + (c.host + ":" + Digits(c.port))
  }

  /** `strstr(s, "/?")` */
  function Plugin(s: string): (i: nat)
    ensures i <= |s|
  {
    if |s| < 2 then |s| else if s[0] == '/' && s[1] == '?' then 0 else 1 + Plugin(s[1..])
  }

  lemma {:induction false} NoPlugin(s: string)
    requires Without(s, '/')
    ensures Plugin(s) == |s|
  {
    if |s| >= 2 {
      assert s[0] in s;
      NoPlugin(s[1..]);
    }
  }

  /** The four parts of an ss link. */
  datatype SsParts = SsParts(cipherName: string, password: string, host: string, port: string)

  /** `userinfo "@" hostname ":" port`, where the userinfo alone is encoded. */
  function SsNew(contents: string, k: Coders): Option<SsParts> {
    var cut := contents[..Plugin(contents)];
    var a := First(cut, '@');
    if a == |cut| then None
    else
      var rest := cut[a+1..];
      var p := Last(rest, ':');
      var plain := k.decode(cut[..a]);
      var q := First(plain, ':');
      if p < 0 || q == |plain| then None else Some(SsParts(plain[..q], plain[q+1..], rest[..p], rest[p+1..]))
  }

  /** The older form: everything is encoded. */
  function SsOld(contents: string, k: Coders): Option<SsParts> {
    var plain := k.decode(contents);
    var q := First(plain, ':');
    if q == |plain| then None
    else
      var rest := plain[q+1..];
      var p := Last(rest, ':');
      if p < 0 then None
      else
        var a := Last(rest[..p], '@');
        if a < 0 then None else Some(SsParts(plain[..q], rest[..a], rest[a+1..p], rest[p+1..]))
  }

  /** `decode_shadowsocks`, behind the header; `aead` says which methods are AEAD ciphers. */
  /** `strpbrk(contents, "@:/?")` */
  predicate InNewStyle(contents: string) { exists c :: c in contents && c in "@:/?" }

  function SsFill(base: Config, parts: Option<SsParts>, remarks: string): Option<Config> {
    if parts.None? || parts.value.port == "" || !('0' <= parts.value.port[0] <= '9') then None
    else
      var v := parts.value;
      Some(base.(host := v.host, port := U16(Atoi(v.port)), protocol := "origin", cipherName := v.cipherName,
                 obfs := "plain", password := v.password, remarks := remarks, tlsPath := ""))
  }

  function DecodeSs(text: string, base: Config, k: Coders, aead: string -> bool): Option<Config> {
    var h := First(text, '#');
    var contents := text[..h];
    var parts := if InNewStyle(contents) then SsNew(contents, k) else SsOld(contents, k);
    SsFill(base, parts,
           if parts.None? || h == |text| then base.remarks
           else if InNewStyle(contents) || aead(parts.value.cipherName) then k.uriDecode(text[h+1..]) else text[h+1..])
  }

  lemma SsContentsParse(c: Config, k: Coders)
    requires Correct(k) && Plain(c)
    ensures SsNew(SsContents(c, k), k) == Some(SsParts(c.cipherName, c.password, c.host, Digits(c.port)))
    ensures Without(SsContents(c, k), '#') && '@' in SsContents(c, k)
  {
    var user, plain := k.encode(c.cipherName + ":" + c.password), c.cipherName + ":" + c.password;
    var rest := c.host + ":" + Digits(c.port);
    var contents := SsContents(c, k);
    assert k.decode(user) == plain && Clean(user);
    DigitsClean(c.port);
    SsChars(c, user);
    hide Plugin, First, Last, Digits, Clean, Correct, Plain;
    assert contents == user + ['@'] + rest;
    NoPlugin(contents);
    assert contents[..|contents|] == contents;
    FirstIs(user, '@', rest);
    assert contents[..|user|] == user && contents[|user|+1..] == rest;
    CutLast(c.host, Digits(c.port));
    CutFirst(c.cipherName, c.password);
  }

  lemma CutFirst(a: string, b: string)
    requires Without(a, ':')
    ensures var s := a + ":" + b; First(s, ':') == |a| && s[..|a|] == a && s[|a|+1..] == b
  {
    FirstIs(a, ':', b);
  }

  lemma SsChars(c: Config, user: string)
    requires Plain(c) && Clean(user) && Clean(Digits(c.port))
    ensures var s := user + "@" + (c.host + ":" + Digits(c.port)); Without(s, '/') && Without(s, '#') && '@' in s
    ensures Without(user, '@') && Without(Digits(c.port), ':') && Without(c.cipherName, ':')
  {
    CleanWithout(user, '/');
    CleanWithout(user, '#');
    CleanWithout(Digits(c.port), '/');
    CleanWithout(Digits(c.port), '#');
    assert (user + "@" + (c.host + ":" + Digits(c.port)))[|user|] == '@';
    hide Digits;
  }

  /** A link in the new style is filled in from its parts. */
  lemma SsFilled(text: string, base: Config, k: Coders, aead: string -> bool, parts: SsParts)
    requires InNewStyle(text[..First(text, '#')]) && SsNew(text[..First(text, '#')], k) == Some(parts)
    ensures var h := First(text, '#');
            DecodeSs(text, base, k, aead) ==
            SsFill(base, Some(parts), if h == |text| then base.remarks else k.uriDecode(text[h+1..]))
  {
    hide SsNew, SsOld, First, SsFill, InNewStyle;
  }

  lemma AtIsNewStyle(contents: string)
    requires '@' in contents
    ensures InNewStyle(contents)
  {
    assert '@' in "@:/?";
  }

  lemma DigitsStart(n: nat)
    ensures Digits(n) != "" && '0' <= Digits(n)[0] <= '9'
  {
  }

  /** An ss link restores host, port, method, password and remarks. */
  lemma SsRoundTrip(c: Config, base: Config, k: Coders, aead: string -> bool)
    requires Correct(k) && Plain(c)
    ensures DecodeSs(EncodeSs(c, k)[|SS_HEADER|..], base, k, aead) ==
            Some(base.(host := c.host, port := c.port, protocol := "origin", cipherName := c.cipherName,
                       obfs := "plain",
                       password := c.password, remarks := Or(c.remarks, base.remarks), tlsPath := ""))
  {
    SsText(c, k);
    SsContentsParse(c, k);
    PortBack(c.port);
    DigitsStart(c.port);
    AtIsNewStyle(SsContents(c, k));
    hide SsContents, EncodeSs, SsNew, SsOld, DecodeSs, First, Digits, Atoi, U16, Correct, Plain, InNewStyle;
    var text := EncodeSs(c, k)[|SS_HEADER|..];
    SsFilled(text, base, k, aead, SsParts(c.cipherName, c.password, c.host, Digits(c.port)));
  }

  /** Where an ss link is cut, and what is behind the cut. */
  lemma SsText(c: Config, k: Coders)
    requires Correct(k) && Plain(c)
    ensures var text := EncodeSs(c, k)[|SS_HEADER|..];
            var h := First(text, '#');
            text[..h] == SsContents(c, k) && (h == |text| <==> c.remarks == "") &&
            (h < |text| ==> k.uriDecode(text[h+1..]) == c.remarks)
  {
    var contents := SsContents(c, k);
    var tail := k.uriEncode(c.remarks);
    var text := EncodeSs(c, k)[|SS_HEADER|..];
    SsContentsParse(c, k);
    assert k.uriDecode(tail) == c.remarks;
    assert text == contents + if c.remarks == "" then "" else "#" + tail by { hide SsContents, First; }
    hide SsContents, EncodeSs, SsNew, First, Correct, Plain;
    if c.remarks == "" {
      NoFirst(contents, '#');
      assert text == contents && text[..|text|] == contents;
    } else {
      FirstIs(contents, '#', tail);
      assert text == contents + ['#'] + tail;
      assert text[..|contents|] == contents && text[|contents|+1..] == tail;
    }
  }

  // ----- both -----

  /** `ssr_qr_code_encode`; `origin` and `plain` recognise the names that make an ss link possible. */
  function Encode(c: Config, k: Coders, origin: string -> bool, plain: string -> bool): Option<string> {
    if c.port == 0 then None
    else if origin(c.protocol) && plain(c.obfs) && !c.overTls then Some(EncodeSs(c, k))
    else Some(EncodeSsr(c, k))
  }

  /** `ssr_qr_code_decode` */
  function Decode(text: string, base: Config, k: Coders, aead: string -> bool): Option<Config> {
    if SS_HEADER <= text then DecodeSs(text[|SS_HEADER|..], base, k, aead)
    else if SSR_HEADER <= text then DecodeSsr(text[|SSR_HEADER|..], base, k)
    else None
  }

  /** Every link that is made can be read, and carries the host, the port, the method, the password and the remarks. */
  lemma LinkRoundTrip(c: Config, base: Config, k: Coders, origin: string -> bool, plain: string -> bool,
                      aead: string -> bool)
    requires Correct(k) && Plain(c) && !base.overTls
    ensures var text := Encode(c, k, origin, plain);
            text.Some? &&
            var d := Decode(text.value, base, k, aead);
            d.Some? && d.value.host == c.host && d.value.port == c.port && d.value.cipherName == c.cipherName &&
            d.value.password == c.password && d.value.remarks == Or(c.remarks, base.remarks) &&
            d.value.overTls == c.overTls
  {
    var text := Encode(c, k, origin, plain).value;
    if origin(c.protocol) && plain(c.obfs) && !c.overTls {
      assert SS_HEADER <= text;
      SsRoundTrip(c, base, k, aead);
    } else {
      assert SSR_HEADER <= text && text[2] != SS_HEADER[2];
      SsrRoundTrip(c, base, k);
    }
    hide DecodeSs, DecodeSsr, Correct, Plain;
  }
}
