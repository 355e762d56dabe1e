/**
 `http_parser_parse_url` and `http_parse_host` of shadowsocksr-native/depends/http-parser/http_parser.c: two automata
 that cut a URL into fields.
 */
module HttpUrl {
  import opened HttpSyntax
  import opened HttpMachine
  import opened Wrappers

  /** The fields, in the order in which they stand in a URL. */
  datatype Field = SchemaField | UserinfoField | HostField | PortField | PathField | QueryField | FragmentField

  function Rank(f: Field): nat {
    match f
    case SchemaField => 1 case UserinfoField => 2 case HostField => 3 case PortField => 4
    case PathField => 5 case QueryField => 6 case FragmentField => 7
  }

  /** An element of `field_data`. */
  datatype Run = Run(off: nat, len: nat) {
    function End(): nat { off + len }

    predicate Holds(k: int) { off <= k < off + len }
  }

  /** The conversion to `uint16_t`. */
  function U16(x: nat): nat { x % 0x1_0000 }

  /** Longer: `r` with one more byte. */
  function Longer(r: Run): Run { r.(len := U16(r.len + 1)) }

  const MAX_URL: nat := 0xFFFF

  // ----- the URL automaton -----

  /** The field a state belongs to; none for the states that skip a delimiter. */
  function FieldOf(s: State): Option<Field> {
    match s
    case ReqSchema => Some(SchemaField)
    case ReqServer => Some(HostField)
    case ReqServerWithAt => Some(HostField)
    case ReqPath => Some(PathField)
    case ReqQueryString => Some(QueryField)
    case ReqFragment => Some(FragmentField)
    case _ => None
  }

  /** How far `http_parser_parse_url` has come: its state, the fields, `old_uf` and `found_at`. */
  datatype Walk = Lost | Walk(s: State, fields: map<Field, Run>, oldUf: Option<Field>, foundAt: bool)

  function Begin(isConnect: bool): Walk {
    Walk(if isConnect then ReqServerStart else ReqSpacesBeforeUrl, map[], None, false)
  }

  /** One round of the loop, on the byte `ch` at `p`. */
  function Step(w: Walk, p: nat, ch: Octet): Walk {
    if w.Lost? then Lost
    else
      var s := ParseUrlChar(w.s, ch);
      if s.Dead? then Lost
      else
        var at := w.foundAt || s.ReqServerWithAt?;
        match FieldOf(s)
        case None => Walk(s, w.fields, w.oldUf, at)
        case Some(uf) =>
          if w.oldUf == Some(uf) && uf in w.fields then Walk(s, w.fields[uf := Longer(w.fields[uf])], w.oldUf, at)
          else Walk(s, w.fields[uf := Run(U16(p), 1)], Some(uf), at)
  }

  function WalkUrl(buf: seq<Octet>, isConnect: bool, n: nat): Walk
    requires n <= |buf|
  {
    if n == 0 then Begin(isConnect) else Step(WalkUrl(buf, isConnect, n - 1), n - 1, buf[n-1])
  }

  // ----- the host automaton -----

  datatype HostState =
    | HostDead | UserinfoStart | Userinfo | HostStart | HostV6Start | Host | HostV6 | HostV6End | HostV6ZoneStart
    | HostV6Zone | HostPortStart | HostPort

  predicate IsZoneChar(c: Octet) { IsAlphaNum(c) || c == '%' || c == '.' || c == '-' || c == '_' || c == '~' }

  /** `http_parse_host_char` */
  function ParseHostChar(s: HostState, ch: Octet): HostState {
    match s
    case Userinfo => if ch == '@' then HostStart else if IsUserinfoChar(ch) then Userinfo else HostDead
    case UserinfoStart => if ch == '@' then HostStart else if IsUserinfoChar(ch) then Userinfo else HostDead
    case HostStart => if ch == '[' then HostV6Start else if IsHostChar(ch) then Host else HostDead
    case Host => if IsHostChar(ch) then Host else if ch == ':' then HostPortStart else HostDead
    case HostV6End => if ch == ':' then HostPortStart else HostDead
    case HostV6 =>
      if ch == ']' then HostV6End else if IsHex(ch) || ch == ':' || ch == '.' then HostV6
      else if ch == '%' then HostV6ZoneStart else HostDead
    case HostV6Start => if IsHex(ch) || ch == ':' || ch == '.' then HostV6 else HostDead
    case HostV6Zone => if ch == ']' then HostV6End else if IsZoneChar(ch) then HostV6Zone else HostDead
    case HostV6ZoneStart => if IsZoneChar(ch) then HostV6Zone else HostDead
    case HostPort => if IsNum(ch) then HostPort else HostDead
    case HostPortStart => if IsNum(ch) then HostPort else HostDead
    case HostDead => HostDead
  }

  /** How far `http_parse_host` has come. */
  datatype HostWalk = HostWalk(s: HostState, fields: map<Field, Run>)

  function Starts(r: Run, p: nat, entered: bool): Run { if entered then r.(off := U16(p)) else r }

  /** One round of the loop of `http_parse_host`, on the byte `ch` at `p`. */
  function HostStep(w: HostWalk, p: nat, ch: Octet): HostWalk
    requires HostField in w.fields
  {
    var s := ParseHostChar(w.s, ch);
    var host := w.fields[HostField];
    match s
    case Host => HostWalk(s, w.fields[HostField := Longer(Starts(host, p, !w.s.Host?))])
    case HostV6 => HostWalk(s, w.fields[HostField := Longer(Starts(host, p, !w.s.HostV6?))])
    case HostV6ZoneStart => HostWalk(s, w.fields[HostField := Longer(host)])
    case HostV6Zone => HostWalk(s, w.fields[HostField := Longer(host)])
    case HostPort =>
      HostWalk(s, w.fields[PortField := if !w.s.HostPort? || PortField !in w.fields then Run(U16(p), 1)
                                        else Longer(w.fields[PortField])])
    case Userinfo =>
      HostWalk(s, w.fields[UserinfoField := if !w.s.Userinfo? || UserinfoField !in w.fields then Run(U16(p), 1)
                                            else Longer(w.fields[UserinfoField])])
    case _ => HostWalk(s, w.fields)
  }

  function BeginHost(fields: map<Field, Run>, foundAt: bool): HostWalk
    requires HostField in fields
  {
    HostWalk(if foundAt then UserinfoStart else HostStart, fields[HostField := fields[HostField].(len := 0)])
  }

  /** The loop from the start of the host, `lo`, up to `n`; a dead state is kept. */
  function WalkHost(buf: seq<Octet>, fields: map<Field, Run>, foundAt: bool, lo: nat, n: nat): (w: HostWalk)
    requires HostField in fields && lo <= n <= |buf|
    ensures HostField in w.fields
    decreases n
  {
    if n == lo then BeginHost(fields, foundAt)
    else
      var w := WalkHost(buf, fields, foundAt, lo, n - 1);
      if w.s.HostDead? then w else HostStep(w, n - 1, buf[n-1])
  }

  /** The states in which a host may end. */
  predicate EndsHost(s: HostState) { s.Host? || s.HostV6End? || s.HostPort? }

  // ----- the whole -----

  /** The value of a string of digits. */
  function Decimal(s: seq<Octet>): int {
    if s == [] then 0 else Decimal(s[..|s|-1]) * 10 + (s[|s|-1] as int - '0' as int)
  }

  // ----- the URL automaton keeps the fields in order -----

  /** The highest field that can have been opened when the URL automaton is in state `s`. */
  function Bound(s: State): nat {
    match s
    case ReqSpacesBeforeUrl => 0
    case ReqSchemaSlash => 1
    case ReqSchemaSlashSlash => 1
    case ReqServerStart => 1
    case ReqQueryStringStart => 5
    case ReqFragmentStart => 6
    case _ => if FieldOf(s).Some? then Rank(FieldOf(s).value) else 0
  }

  predicate Delimiter(c: Octet) { c == ':' || c == '/' || c == '?' || c == '#' || c == '@' || c == '[' || c == ']' }

  /** The automaton never goes back, and what it skips is a delimiter. */
  lemma NeverBack(s: State, ch: Octet)
    requires (InUrl(s) || s.ReqSpacesBeforeUrl?) && !ParseUrlChar(s, ch).Dead?
    ensures var t := ParseUrlChar(s, ch);
            Bound(t) >= Bound(s) && InUrl(t) && (FieldOf(t).None? ==> Delimiter(ch)) &&
            (FieldOf(t).Some? ==> FieldOf(t) == FieldOf(s) || Rank(FieldOf(t).value) > Bound(s))
  {
    if s.ReqSpacesBeforeUrl? || s.ReqSchema? || s.ReqSchemaSlash? || s.ReqSchemaSlashSlash? {
      NotBackEarly(s, ch);
    } else {
      NotBackLate(s, ch);
    }
    hide ParseUrlChar, InUrl, Bound, FieldOf, Delimiter;
  }

  lemma NotBackEarly(s: State, ch: Octet)
    requires s.ReqSpacesBeforeUrl? || s.ReqSchema? || s.ReqSchemaSlash? || s.ReqSchemaSlashSlash?
    requires !ParseUrlChar(s, ch).Dead?
    ensures var t := ParseUrlChar(s, ch);
            Bound(t) >= Bound(s) && InUrl(t) && (FieldOf(t).None? ==> Delimiter(ch)) &&
            (FieldOf(t).Some? ==> FieldOf(t) == FieldOf(s) || Rank(FieldOf(t).value) > Bound(s))
  {
    hide IsAlpha, IsUserinfoChar, IsUrlChar;
  }

  lemma NotBackLate(s: State, ch: Octet)
    requires InUrl(s) && !s.ReqSchema? && !s.ReqSchemaSlash? && !s.ReqSchemaSlashSlash? && !ParseUrlChar(s, ch).Dead?
    ensures var t := ParseUrlChar(s, ch);
            Bound(t) >= Bound(s) && InUrl(t) && (FieldOf(t).None? ==> Delimiter(ch)) &&
            (FieldOf(t).Some? ==> FieldOf(t) == FieldOf(s) || Rank(FieldOf(t).value) > Bound(s))
  {
    hide IsAlpha, IsUserinfoChar, IsUrlChar;
  }

  /** The runs lie in the first `n` bytes, are not empty, and are in order. */
  ghost predicate InOrder(fields: map<Field, Run>, n: nat) {
    (forall f :: f in fields ==> Within(fields[f], n)) &&
    forall f, g :: f in fields && g in fields ==> Apart(f, fields[f], g, fields[g])
  }

  predicate Within(r: Run, n: nat) { r.len > 0 && r.End() <= n }

  /** Different fields do not overlap, and the lower one comes first. */
  predicate Apart(f: Field, r: Run, g: Field, q: Run) { Rank(f) < Rank(g) ==> r.End() <= q.off }

  /** A byte is in one of the fields, or a delimiter. */
  ghost predicate Accounted(fields: map<Field, Run>, buf: seq<Octet>, k: nat)
    requires k < |buf|
  {
    Delimiter(buf[k]) || exists f :: f in fields && fields[f].Holds(k)
  }

  predicate OfUrl(f: Field) { f.SchemaField? || f.HostField? || f.PathField? || f.QueryField? || f.FragmentField? }

  ghost predicate Fits(w: Walk, buf: seq<Octet>, n: nat)
    requires n <= |buf|
  {
    w.Walk? && (InUrl(w.s) || w.s.ReqSpacesBeforeUrl?) && InOrder(w.fields, n) &&
    (forall f :: f in w.fields ==> OfUrl(f) && Rank(f) <= Bound(w.s)) &&
    (FieldOf(w.s).Some? ==>
       w.oldUf == FieldOf(w.s) && w.oldUf.value in w.fields && w.fields[w.oldUf.value].End() == n) &&
    (w.oldUf.Some? ==> Rank(w.oldUf.value) <= Bound(w.s)) &&
    forall k :: 0 <= k < n ==> Accounted(w.fields, buf, k)
  }

  lemma {:induction false} WalkFits(buf: seq<Octet>, isConnect: bool, n: nat)
    requires n <= |buf| <= MAX_URL
    ensures WalkUrl(buf, isConnect, n).Walk? ==> Fits(WalkUrl(buf, isConnect, n), buf, n)
  {
    if n > 0 {
      WalkFits(buf, isConnect, n - 1);
      hide Fits, Step;
      if WalkUrl(buf, isConnect, n).Walk? {
        assert WalkUrl(buf, isConnect, n - 1).Walk? by { StepLost(WalkUrl(buf, isConnect, n - 1), n - 1, buf[n-1]); }
        StepFits(WalkUrl(buf, isConnect, n - 1), buf, n - 1);
      }
    }
  }

  lemma StepLost(w: Walk, p: nat, ch: Octet)
    ensures w.Lost? ==> Step(w, p, ch).Lost?
  {
  }

  /** Every run of `fields` is still there, at least as long. */
  ghost predicate Grown(fields: map<Field, Run>, after: map<Field, Run>) {
    forall f :: f in fields ==> f in after && after[f].off <= fields[f].off && fields[f].End() <= after[f].End()
  }

  lemma StillAccounted(fields: map<Field, Run>, after: map<Field, Run>, buf: seq<Octet>, n: nat)
    requires n <= |buf| && Grown(fields, after) && forall k :: 0 <= k < n ==> Accounted(fields, buf, k)
    ensures forall k :: 0 <= k < n ==> Accounted(after, buf, k)
  {
    forall k | 0 <= k < n
      ensures Accounted(after, buf, k)
    {
      assert Accounted(fields, buf, k);
      if !Delimiter(buf[k]) {
        var f :| f in fields && fields[f].Holds(k);
        assert after[f].Holds(k);
      }
    }
  }

  lemma U16Is(x: nat)
    requires x <= MAX_URL
    ensures U16(x) == x
  {
  }

  /** Field `f`, which is behind all others, now ends at `n + 1`. */
  lemma Put(fields: map<Field, Run>, f: Field, r: Run, n: nat)
    requires InOrder(fields, n) && Within(r, n + 1)
    requires forall g :: g in fields && g != f ==> Rank(g) < Rank(f) && fields[g].End() <= r.off
    ensures InOrder(fields[f := r], n + 1)
  {
    var after := fields[f := r];
    forall g, h | g in after && h in after
      ensures Apart(g, after[g], h, after[h])
    {
      if g != f && h != f {
        assert Apart(g, fields[g], h, fields[h]);
      }
    }
    forall g | g in after
      ensures Within(after[g], n + 1)
    {
      if g != f {
        assert Within(fields[g], n);
      }
    }
  }

  lemma RankInjective(f: Field, g: Field)
    ensures Rank(f) == Rank(g) ==> f == g
  {
  }

  /** The last field gets one more byte. */
  lemma Lengthened(fields: map<Field, Run>, f: Field, n: nat)
    requires InOrder(fields, n) && f in fields && fields[f].End() == n < MAX_URL
    requires forall g :: g in fields ==> Rank(g) <= Rank(f)
    ensures var after := fields[f := Longer(fields[f])];
            InOrder(after, n + 1) && Grown(fields, after) && after[f].End() == n + 1
  {
    U16Is(fields[f].len + 1);
    hide U16, Rank, InOrder, Apart;
    forall g | g in fields && g != f
      ensures Rank(g) < Rank(f) && fields[g].End() <= fields[f].off
    {
      RankInjective(g, f);
      Ordered(fields, n, g, f);
    }
    Put(fields, f, Longer(fields[f]), n);
  }

  lemma Ordered(fields: map<Field, Run>, n: nat, f: Field, g: Field)
    requires InOrder(fields, n) && f in fields && g in fields
    ensures Rank(f) < Rank(g) ==> fields[f].End() <= fields[g].off
    ensures fields[f].len > 0 && fields[f].End() <= n
  {
    assert Apart(f, fields[f], g, fields[g]) && Within(fields[f], n);
  }

  /** A field behind all others is opened. */
  lemma Opened(fields: map<Field, Run>, f: Field, n: nat)
    requires InOrder(fields, n) && n < MAX_URL && forall g :: g in fields ==> Rank(g) < Rank(f)
    ensures var after := fields[f := Run(U16(n), 1)];
            InOrder(after, n + 1) && Grown(fields, after) && after[f].End() == n + 1
  {
    U16Is(n);
    hide U16, Rank, InOrder, Apart;
    forall g | g in fields
      ensures fields[g].End() <= n
    {
      Ordered(fields, n, g, g);
    }
    Put(fields, f, Run(n, 1), n);
  }

  lemma StepFits(w: Walk, buf: seq<Octet>, p: nat)
    requires p < |buf| <= MAX_URL && Fits(w, buf, p) && Step(w, p, buf[p]).Walk?
    ensures Fits(Step(w, p, buf[p]), buf, p + 1)
  {
    var v := Step(w, p, buf[p]);
    NeverBack(w.s, buf[p]);
    hide ParseUrlChar, Delimiter, Longer, U16, Bound, Rank, InUrl, InOrder, Accounted, Grown;
    if FieldOf(v.s).Some? {
      FieldStep(w, v.s, buf, p);
    } else {
      assert Accounted(v.fields, buf, p) by { DelimiterAccounted(v.fields, buf, p); }
      MoreRoom(v.fields, p);
    }
  }

  lemma DelimiterAccounted(fields: map<Field, Run>, buf: seq<Octet>, p: nat)
    requires p < |buf| && Delimiter(buf[p])
    ensures Accounted(fields, buf, p)
  {
  }

  lemma MoreRoom(fields: map<Field, Run>, n: nat)
    requires InOrder(fields, n)
    ensures InOrder(fields, n + 1)
  {
    assert forall f :: f in fields && Within(fields[f], n) ==> Within(fields[f], n + 1);
  }

  /** The byte at `p` belongs to a field. */
  lemma FieldStep(w: Walk, s: State, buf: seq<Octet>, p: nat)
    requires p < |buf| <= MAX_URL && Fits(w, buf, p) && s == ParseUrlChar(w.s, buf[p]) && FieldOf(s).Some?
    requires Bound(s) >= Bound(w.s) && (FieldOf(s) == FieldOf(w.s) || Rank(FieldOf(s).value) > Bound(w.s))
    ensures var v := Step(w, p, buf[p]);
            v.Walk? && v.s == s && v.oldUf == FieldOf(s) && FieldOf(s).value in v.fields &&
            v.fields[FieldOf(s).value].End() == p + 1 && InOrder(v.fields, p + 1) &&
            (forall f :: f in v.fields ==> f in w.fields || f == FieldOf(s).value) &&
            forall k :: 0 <= k < p + 1 ==> Accounted(v.fields, buf, k)
  {
    hide ParseUrlChar, Delimiter, Longer, U16, Rank, InUrl, InOrder, Accounted, Grown;
    var v := Step(w, p, buf[p]);
    var uf := FieldOf(s).value;
    if w.oldUf == Some(uf) && uf in w.fields {
      assert FieldOf(w.s) == Some(uf);
      Lengthened(w.fields, uf, p);
    } else {
      Opened(w.fields, uf, p);
    }
    StillAccounted(w.fields, v.fields, buf, p);
    EndAccounted(v.fields, uf, buf, p);
  }

  lemma EndAccounted(fields: map<Field, Run>, f: Field, buf: seq<Octet>, p: nat)
    requires p < |buf| && f in fields && fields[f].End() == p + 1 && InOrder(fields, p + 1)
    ensures Accounted(fields, buf, p)
  {
    assert fields[f].Holds(p);
  }

  // ----- the host automaton cuts up the host -----

  function Get(fields: map<Field, Run>, f: Field): Option<Run> { if f in fields then Some(fields[f]) else None }

  predicate IsHostPart(f: Field) { f.UserinfoField? || f.HostField? || f.PortField? }

  predicate HoldsIn(r: Option<Run>, k: int) { r.Some? && r.value.Holds(k) }

  /** The bytes from `lo` up to `k` are delimiters or in one of the three parts. */
  ghost predicate HostAccounted(ui: Option<Run>, ho: Run, po: Option<Run>, buf: seq<Octet>, lo: nat, k: nat)
    requires lo <= k <= |buf|
  {
    forall j :: lo <= j < k ==> Delimiter(buf[j]) || HoldsIn(ui, j) || ho.Holds(j) || HoldsIn(po, j)
  }

  predicate UserinfoOk(ui: Option<Run>, lo: nat, k: nat) {
    ui.Some? ==> ui.value.off >= lo && ui.value.len > 0 && ui.value.End() <= k
  }

  predicate Digits(buf: seq<Octet>, r: Run) {
    r.End() <= |buf| && forall j :: r.off <= j < r.End() ==> IsNum(buf[j])
  }

  /** Where the parts can be when the host automaton is in state `s` before byte `k`. */
  predicate Shape(s: HostState, ui: Option<Run>, ho: Run, po: Option<Run>, buf: seq<Octet>, lo: nat, k: nat) {
    match s
    case HostDead => true
    case UserinfoStart => ui.None? && ho.len == 0 && po.None? && k == lo
    case Userinfo => ui.Some? && UserinfoOk(ui, lo, k) && ui.value.End() == k && ho.len == 0 && po.None?
    case HostStart => UserinfoOk(ui, lo, k) && ho.len == 0 && po.None?
    case HostV6Start => UserinfoOk(ui, lo, k) && ho.len == 0 && po.None?
    case HostPort =>
      UserinfoOk(ui, lo, ho.off) && lo <= ho.off && ho.len > 0 && po.Some? && ho.End() <= po.value.off &&
      po.value.len > 0 && po.value.End() == k && Digits(buf, po.value)
    case HostV6End => UserinfoOk(ui, lo, ho.off) && lo <= ho.off && ho.len > 0 && ho.End() <= k && po.None?
    case HostPortStart => UserinfoOk(ui, lo, ho.off) && lo <= ho.off && ho.len > 0 && ho.End() <= k && po.None?
    case _ => UserinfoOk(ui, lo, ho.off) && lo <= ho.off && ho.len > 0 && ho.End() == k && po.None?
  }

  ghost predicate HostFits(w: HostWalk, buf: seq<Octet>, lo: nat, k: nat)
    requires lo <= k <= |buf| && HostField in w.fields
  {
    !w.s.HostDead? ==>
      var ui, ho, po := Get(w.fields, UserinfoField), w.fields[HostField], Get(w.fields, PortField);
      Shape(w.s, ui, ho, po, buf, lo, k) && HostAccounted(ui, ho, po, buf, lo, k)
  }

  /** Which state can follow which, and on which byte. */
  lemma HostFollows(s: HostState, ch: Octet)
    ensures match ParseHostChar(s, ch)
            case HostDead => true
            case UserinfoStart => false
            case Userinfo => s.UserinfoStart? || s.Userinfo?
            case HostStart => (s.UserinfoStart? || s.Userinfo?) && Delimiter(ch)
            case HostV6Start => s.HostStart? && Delimiter(ch)
            case Host => s.HostStart? || s.Host?
            case HostV6 => s.HostV6Start? || s.HostV6?
            case HostV6ZoneStart => s.HostV6?
            case HostV6Zone => s.HostV6ZoneStart? || s.HostV6Zone?
            case HostV6End => (s.HostV6? || s.HostV6Zone?) && Delimiter(ch)
            case HostPortStart => (s.Host? || s.HostV6End?) && Delimiter(ch)
            case HostPort => (s.HostPortStart? || s.HostPort?) && IsNum(ch)
  {
  }

  lemma {:induction false} HostWalkFits(buf: seq<Octet>, fields: map<Field, Run>, foundAt: bool, lo: nat, n: nat)
    requires HostField in fields && lo <= n <= |buf| <= MAX_URL && UserinfoField !in fields && PortField !in fields
    ensures var w := WalkHost(buf, fields, foundAt, lo, n);
            HostFits(w, buf, lo, n) && forall f :: !IsHostPart(f) ==> Get(w.fields, f) == Get(fields, f)
    decreases n
  {
    hide HostFits, HostStep, BeginHost;
    if n == lo {
      BeginFits(buf, fields, foundAt, lo);
    } else {
      HostWalkFits(buf, fields, foundAt, lo, n - 1);
      var w := WalkHost(buf, fields, foundAt, lo, n - 1);
      if !w.s.HostDead? {
        HostStepFits(w, buf, lo, n - 1);
      } else {
        DeadFits(w, buf, lo, n);
      }
    }
  }

  lemma BeginFits(buf: seq<Octet>, fields: map<Field, Run>, foundAt: bool, lo: nat)
    requires HostField in fields && lo <= |buf| && UserinfoField !in fields && PortField !in fields
    ensures var w := BeginHost(fields, foundAt);
            HostField in w.fields && HostFits(w, buf, lo, lo) &&
            forall f :: !IsHostPart(f) ==> Get(w.fields, f) == Get(fields, f)
  {
  }

  lemma DeadFits(w: HostWalk, buf: seq<Octet>, lo: nat, k: nat)
    requires w.s.HostDead? && lo <= k <= |buf| && HostField in w.fields
    ensures HostFits(w, buf, lo, k)
  {
  }

  /** A byte goes into a part that has just been opened, or that ends here. */
  lemma Extended(r: Run, p: nat, entered: bool)
    requires p < MAX_URL && if entered then r.len == 0 else r.End() == p
    ensures var q := Longer(Starts(r, p, entered));
            q.len > 0 && q.End() == p + 1 && q.off == (if entered then p else r.off) && q.Holds(p) &&
            forall j :: r.Holds(j) ==> q.Holds(j)
  {
    U16Is(p);
    U16Is(r.len + 1);
    hide U16;
  }

  lemma MoreAccounted(ui: Option<Run>, ho: Run, po: Option<Run>, ui': Option<Run>, ho': Run, po': Option<Run>,
                      buf: seq<Octet>, lo: nat, p: nat)
    requires lo <= p < |buf| && HostAccounted(ui, ho, po, buf, lo, p)
    requires forall j :: HoldsIn(ui, j) ==> HoldsIn(ui', j)
    requires forall j :: ho.Holds(j) ==> ho'.Holds(j)
    requires forall j :: HoldsIn(po, j) ==> HoldsIn(po', j)
    requires Delimiter(buf[p]) || HoldsIn(ui', p) || ho'.Holds(p) || HoldsIn(po', p)
    ensures HostAccounted(ui', ho', po', buf, lo, p + 1)
  {
    hide Delimiter;
  }

  lemma HostStepFits(w: HostWalk, buf: seq<Octet>, lo: nat, p: nat)
    requires lo <= p < |buf| <= MAX_URL && HostField in w.fields && HostFits(w, buf, lo, p) && !w.s.HostDead?
    ensures var v := HostStep(w, p, buf[p]);
            HostField in v.fields && HostFits(v, buf, lo, p + 1) &&
            forall f :: !IsHostPart(f) ==> Get(v.fields, f) == Get(w.fields, f)
  {
    HostFollows(w.s, buf[p]);
    var v := HostStep(w, p, buf[p]);
    var ui, ho, po := Get(w.fields, UserinfoField), w.fields[HostField], Get(w.fields, PortField);
    var ui', ho', po' := Get(v.fields, UserinfoField), v.fields[HostField], Get(v.fields, PortField);
    hide ParseHostChar, Delimiter, IsNum, HostAccounted, Longer, U16, Starts;
    if !v.s.HostDead? {
      if v.s.Host? || v.s.HostV6? || v.s.HostV6ZoneStart? || v.s.HostV6Zone? {
        InHost(w, v, buf, lo, p);
      } else if v.s.HostPort? {
        InPort(w, v, buf, lo, p);
      } else if v.s.Userinfo? {
        InUserinfo(w, v, buf, lo, p);
      } else {
        MoreAccounted(ui, ho, po, ui', ho', po', buf, lo, p);
        Skipped(w.s, v.s, ui, ho, po, buf, lo, p);
      }
    }
  }

  lemma Skipped(s: HostState, t: HostState, ui: Option<Run>, ho: Run, po: Option<Run>, buf: seq<Octet>, lo: nat, p: nat)
    requires Shape(s, ui, ho, po, buf, lo, p) && lo <= p
    requires (t.HostStart? && (s.UserinfoStart? || s.Userinfo?)) || (t.HostV6Start? && s.HostStart?) ||
             (t.HostV6End? && (s.HostV6? || s.HostV6Zone?)) || (t.HostPortStart? && (s.Host? || s.HostV6End?))
    ensures Shape(t, ui, ho, po, buf, lo, p + 1)
  {
  }

  lemma InHost(w: HostWalk, v: HostWalk, buf: seq<Octet>, lo: nat, p: nat)
    requires lo <= p < |buf| <= MAX_URL && HostField in w.fields && HostFits(w, buf, lo, p)
    requires v == HostStep(w, p, buf[p])
    requires (v.s.Host? && (w.s.HostStart? || w.s.Host?)) || (v.s.HostV6? && (w.s.HostV6Start? || w.s.HostV6?)) ||
             (v.s.HostV6ZoneStart? && w.s.HostV6?) || (v.s.HostV6Zone? && (w.s.HostV6ZoneStart? || w.s.HostV6Zone?))
    ensures HostField in v.fields && HostFits(v, buf, lo, p + 1)
  {
    var ho := w.fields[HostField];
    var entered := w.s.HostStart? || w.s.HostV6Start?;
    Extended(ho, p, entered);
    var ho' := Longer(Starts(ho, p, entered));
    assert v.fields == w.fields[HostField := ho'];
    hide ParseHostChar, Delimiter, IsNum, HostAccounted, Longer, U16, Starts, HostStep;
    var ui, po := Get(w.fields, UserinfoField), Get(w.fields, PortField);
    MoreAccounted(ui, ho, po, ui, ho', po, buf, lo, p);
  }

  lemma InPort(w: HostWalk, v: HostWalk, buf: seq<Octet>, lo: nat, p: nat)
    requires lo <= p < |buf| <= MAX_URL && HostField in w.fields && HostFits(w, buf, lo, p)
    requires v == HostStep(w, p, buf[p]) && v.s.HostPort? && (w.s.HostPortStart? || w.s.HostPort?) && IsNum(buf[p])
    ensures HostField in v.fields && HostFits(v, buf, lo, p + 1)
  {
    var ui, ho, po := Get(w.fields, UserinfoField), w.fields[HostField], Get(w.fields, PortField);
    var r := if w.s.HostPort? then po.value else Run(p, 0);
    Extended(r, p, !w.s.HostPort?);
    U16Is(p);
    var r' := Longer(Starts(r, p, !w.s.HostPort?));
    assert v.fields == w.fields[PortField := r'];
    hide ParseHostChar, Delimiter, IsNum, HostAccounted, Longer, U16, Starts, HostStep;
    MoreAccounted(ui, ho, po, ui, ho, Some(r'), buf, lo, p);
  }

  lemma InUserinfo(w: HostWalk, v: HostWalk, buf: seq<Octet>, lo: nat, p: nat)
    requires lo <= p < |buf| <= MAX_URL && HostField in w.fields && HostFits(w, buf, lo, p)
    requires v == HostStep(w, p, buf[p]) && v.s.Userinfo? && (w.s.UserinfoStart? || w.s.Userinfo?)
    ensures HostField in v.fields && HostFits(v, buf, lo, p + 1)
  {
    var ui, ho, po := Get(w.fields, UserinfoField), w.fields[HostField], Get(w.fields, PortField);
    var r := if w.s.Userinfo? then ui.value else Run(p, 0);
    Extended(r, p, !w.s.Userinfo?);
    U16Is(p);
    var r' := Longer(Starts(r, p, !w.s.Userinfo?));
    assert v.fields == w.fields[UserinfoField := r'];
    hide ParseHostChar, Delimiter, IsNum, HostAccounted, Longer, U16, Starts, HostStep;
    MoreAccounted(ui, ho, po, Some(r'), ho, po, buf, lo, p);
  }

  // ----- the whole -----

  /** The fields that are found, if the URL is accepted; the port is not looked at yet. */
  function Fields(buf: seq<Octet>, isConnect: bool): Option<map<Field, Run>>
    requires |buf| <= MAX_URL
  {
    var w := WalkUrl(buf, isConnect, |buf|);
    if buf == [] || w.Lost? || (SchemaField in w.fields && HostField !in w.fields) then None
    else if HostField !in w.fields then if isConnect then None else Some(w.fields)
    else
      assert Fits(w, buf, |buf|) by { WalkFits(buf, isConnect, |buf|); }
      var host := w.fields[HostField];
      assert Within(host, |buf|);
      var h := WalkHost(buf, w.fields, w.foundAt, host.off, host.End());
      if !EndsHost(h.s) || (isConnect && h.fields.Keys != {HostField, PortField}) then None else Some(h.fields)
  }

  function Text(buf: seq<Octet>, r: Run): seq<Octet>
    requires r.End() <= |buf|
  {
    buf[r.off..r.End()]
  }

  /**
   The fields are non-empty, disjoint and in the order of a URL; every other byte is a delimiter; a port is digits.
   */
  ghost predicate Partition(fields: map<Field, Run>, buf: seq<Octet>) {
    InOrder(fields, |buf|) && (forall k :: 0 <= k < |buf| ==> Accounted(fields, buf, k)) &&
    (PortField in fields ==> HostField in fields && Digits(buf, fields[PortField])) &&
    (SchemaField in fields ==> HostField in fields)
  }

  lemma FieldsPartition(buf: seq<Octet>, isConnect: bool)
    requires |buf| <= MAX_URL && Fields(buf, isConnect).Some?
    ensures Partition(Fields(buf, isConnect).value, buf)
    ensures isConnect ==> Fields(buf, isConnect).value.Keys == {HostField, PortField}
  {
    var w := WalkUrl(buf, isConnect, |buf|);
    WalkFits(buf, isConnect, |buf|);
    assert UserinfoField !in w.fields && PortField !in w.fields;
    if HostField in w.fields {
      var host := w.fields[HostField];
      assert Within(host, |buf|);
      HostWalkFits(buf, w.fields, w.foundAt, host.off, host.End());
      CutHost(w.fields, WalkHost(buf, w.fields, w.foundAt, host.off, host.End()), buf);
    }
  }

  /** Cutting up the host keeps the partition. */
  lemma CutHost(fields: map<Field, Run>, h: HostWalk, buf: seq<Octet>)
    requires HostField in fields && UserinfoField !in fields && PortField !in fields && HostField in h.fields
    requires InOrder(fields, |buf|) && forall k :: 0 <= k < |buf| ==> Accounted(fields, buf, k)
    requires fields[HostField].End() <= |buf| && HostFits(h, buf, fields[HostField].off, fields[HostField].End())
    requires EndsHost(h.s) && forall f :: !IsHostPart(f) ==> Get(h.fields, f) == Get(fields, f)
    ensures Partition(h.fields, buf)
  {
    var lo, hi := fields[HostField].off, fields[HostField].End();
    forall f | f in h.fields
      ensures IsHostPart(f) ==> Within(h.fields[f], hi) && lo <= h.fields[f].off
      ensures !IsHostPart(f) ==> f in fields && h.fields[f] == fields[f]
    {
      assert Get(h.fields, f).Some?;
    }
    PartsApart(h, buf, lo, hi);
    CutOrder(fields, h.fields, |buf|);
    CutAccounted(fields, h.fields, buf);
  }

  lemma PartsApart(h: HostWalk, buf: seq<Octet>, lo: nat, hi: nat)
    requires HostField in h.fields && lo <= hi <= |buf| && HostFits(h, buf, lo, hi) && EndsHost(h.s)
    ensures forall f, g :: f in h.fields && g in h.fields && IsHostPart(f) && IsHostPart(g) ==>
              Apart(f, h.fields[f], g, h.fields[g])
    ensures PortField in h.fields ==> Digits(buf, h.fields[PortField])
  {
    var ui, ho, po := Get(h.fields, UserinfoField), h.fields[HostField], Get(h.fields, PortField);
    assert Shape(h.s, ui, ho, po, buf, lo, hi);
  }

  lemma CutOrder(fields: map<Field, Run>, after: map<Field, Run>, n: nat)
    requires InOrder(fields, n) && HostField in fields
    requires forall f :: f in after && !IsHostPart(f) ==> f in fields && after[f] == fields[f]
    requires forall f :: f in after && IsHostPart(f) ==>
               Within(after[f], fields[HostField].End()) && fields[HostField].off <= after[f].off
    requires forall f, g :: f in after && g in after && IsHostPart(f) && IsHostPart(g) ==>
               Apart(f, after[f], g, after[g])
    ensures InOrder(after, n)
  {
    var host := fields[HostField];
    assert Within(host, n);
    forall f, g | f in after && g in after
      ensures Apart(f, after[f], g, after[g])
    {
      if !IsHostPart(f) && !IsHostPart(g) {
        assert Apart(f, fields[f], g, fields[g]);
      } else if !IsHostPart(f) {
        assert Apart(f, fields[f], HostField, host);
      } else if !IsHostPart(g) {
        assert Apart(HostField, host, g, fields[g]);
      }
    }
    forall f | f in after
      ensures Within(after[f], n)
    {
      if !IsHostPart(f) {
        assert Within(fields[f], n);
      }
    }
  }

  lemma CutAccounted(fields: map<Field, Run>, after: map<Field, Run>, buf: seq<Octet>)
    requires HostField in fields && HostField in after && fields[HostField].End() <= |buf|
    requires UserinfoField !in fields && PortField !in fields
    requires forall k :: 0 <= k < |buf| ==> Accounted(fields, buf, k)
    requires forall f :: !IsHostPart(f) ==> Get(after, f) == Get(fields, f)
    requires HostAccounted(Get(after, UserinfoField), after[HostField], Get(after, PortField), buf,
                           fields[HostField].off, fields[HostField].End())
    ensures forall k :: 0 <= k < |buf| ==> Accounted(after, buf, k)
  {
    hide Delimiter;
    forall k | 0 <= k < |buf|
      ensures Accounted(after, buf, k)
    {
      assert Accounted(fields, buf, k);
      if fields[HostField].Holds(k) {
        assert Delimiter(buf[k]) || HoldsIn(Get(after, UserinfoField), k) || after[HostField].Holds(k) ||
               HoldsIn(Get(after, PortField), k);
      } else if !Delimiter(buf[k]) {
        var f :| f in fields && fields[f].Holds(k);
        assert Get(after, f) == Get(fields, f);
      }
    }
  }

  lemma {:induction false} LostStays(buf: seq<Octet>, isConnect: bool, k: nat, n: nat)
    requires k <= n <= |buf| && WalkUrl(buf, isConnect, k).Lost?
    ensures WalkUrl(buf, isConnect, n).Lost?
  {
    hide Step;
    if k < n {
      LostStays(buf, isConnect, k, n - 1);
      StepLost(WalkUrl(buf, isConnect, n - 1), n - 1, buf[n-1]);
    }
  }

  lemma {:induction false} DeadStays(buf: seq<Octet>, fields: map<Field, Run>, foundAt: bool, lo: nat, k: nat, n: nat)
    requires HostField in fields && lo <= k <= n <= |buf| && WalkHost(buf, fields, foundAt, lo, k).s.HostDead?
    ensures WalkHost(buf, fields, foundAt, lo, n).s.HostDead?
    decreases n
  {
    hide HostStep, BeginHost;
    if k < n {
      DeadStays(buf, fields, foundAt, lo, k, n - 1);
    }
  }

  lemma {:induction false} DecimalGrows(s: seq<Octet>, k: nat)
    requires k <= |s| && forall i :: 0 <= i < |s| ==> IsNum(s[i])
    ensures 0 <= Decimal(s[..k]) <= Decimal(s)
  {
    if |s| == 0 {
    } else if k == |s| {
      assert s[..k] == s;
      DecimalGrows(s[..|s|-1], 0);
    } else {
      DecimalGrows(s[..|s|-1], k);
      assert s[..|s|-1][..k] == s[..k];
    }
  }

  /** The decimal value of the port, of at most 16 bits. */
  method PortValue(buf: seq<Octet>, r: Run) returns (failed: bool, port: nat)
    requires Digits(buf, r)
    ensures failed == (Decimal(Text(buf, r)) > 0xFFFF) && (!failed ==> port == Decimal(Text(buf, r)))
  {
    var s := Text(buf, r);
    port := 0;
    hide Decimal;
    DecimalNothing();
    for p := 0 to |s|
      invariant port == Decimal(s[..p]) <= 0xFFFF
    {
      DecimalSnoc(s, p);
      DecimalGrows(s, p + 1);
      port := port * 10 + (s[p] as int - '0' as int);
      if port > 0xFFFF {
        return true, port;
      }
    }
    assert s[..|s|] == s;
    failed := false;
  }

  lemma DecimalNothing()
    ensures Decimal([]) == 0
  {
  }

  lemma DecimalSnoc(s: seq<Octet>, p: nat)
    requires p < |s|
    ensures Decimal(s[..p+1]) == Decimal(s[..p]) * 10 + (s[p] as int - '0' as int)
  {
    assert s[..p+1][..p] == s[..p];
  }

  /** The switch of `http_parser_parse_url`; its default branch is never taken. */
  method Classify(s: State) returns (uf: Option<Field>)
    requires InUrl(s)
    ensures uf == FieldOf(s)
  {
    if s.ReqSchemaSlash? || s.ReqSchemaSlashSlash? || s.ReqServerStart? ||
       s.ReqQueryStringStart? || s.ReqFragmentStart? {
      uf := None;
    } else if s.ReqSchema? {
      uf := Some(SchemaField);
    } else if s.ReqServerWithAt? || s.ReqServer? {
      uf := Some(HostField);
    } else if s.ReqPath? {
      uf := Some(PathField);
    } else if s.ReqQueryString? {
      uf := Some(QueryField);
    } else if s.ReqFragment? {
      uf := Some(FragmentField);
    } else {
      // "Unexpected state"
      assert false;
    }
  }

  /** `struct http_parser_url`; a field is set if it is in `fields`. */
  class ParsedUrl {
    var fields: map<Field, Run>
    var port: nat

    /** `http_parser_url_init` */
    constructor ()
      ensures fields == map[] && port == 0
    {
      fields, port := map[], 0;
    }

    /** `http_parse_host` */
    method ParseHost(buf: seq<Octet>, foundAt: bool) returns (failed: bool)
      requires HostField in fields && fields[HostField].End() <= |buf|
      modifies `fields
      ensures var host := old(fields)[HostField];
              var w := WalkHost(buf, old(fields), foundAt, host.off, host.End());
              failed == !EndsHost(w.s) && (!failed ==> fields == w.fields)
    {
      ghost var was := fields;
      var host := fields[HostField];
      var s := if foundAt then UserinfoStart else HostStart;
      fields := fields[HostField := host.(len := 0)];
      hide HostStep;
      for p := host.off to host.End()
        invariant HostField in fields && WalkHost(buf, was, foundAt, host.off, p) == HostWalk(s, fields) && !s.HostDead?
      {
        var w := HostStep(HostWalk(s, fields), p, buf[p]);
        if w.s.HostDead? {
          DeadStays(buf, was, foundAt, host.off, p + 1, host.End());
          return true;
        }
        s, fields := w.s, w.fields;
      }
      failed := !EndsHost(s);
    }

    /** The loop of `http_parser_parse_url`. */
    method ParseFields(buf: seq<Octet>, isConnect: bool) returns (failed: bool, foundAt: bool)
      requires |buf| <= MAX_URL
      modifies `fields
      ensures var w := WalkUrl(buf, isConnect, |buf|);
              failed == w.Lost? && (!failed ==> fields == w.fields && foundAt == w.foundAt)
    {
      var s := if isConnect then ReqServerStart else ReqSpacesBeforeUrl;
      var oldUf := None;
      foundAt, fields := false, map[];
      hide ParseUrlChar, Longer, FieldOf, U16, InUrl, WalkUrl;
      WalkStarts(buf, isConnect);
      for p := 0 to |buf|
        invariant WalkUrl(buf, isConnect, p) == Walk(s, fields, oldUf, foundAt)
      {
        StaysInUrl(buf, isConnect, p);
        WalkNext(buf, isConnect, p);
        s := ParseUrlChar(s, buf[p]);
        if s.Dead? {
          LostStays(buf, isConnect, p + 1, |buf|);
          return true, foundAt;
        }
        foundAt := foundAt || s.ReqServerWithAt?;
        var uf := Classify(s);
        if uf.Some? {
          if oldUf == uf && uf.value in fields {
            fields := fields[uf.value := Longer(fields[uf.value])];
          } else {
            fields := fields[uf.value := Run(U16(p), 1)];
            oldUf := uf;
          }
        }
      }
      failed := false;
    }

    /** `http_parser_parse_url` */
    method ParseUrl(buf: seq<Octet>, isConnect: bool) returns (failed: bool)
      requires |buf| <= MAX_URL
      modifies this
      ensures Fields(buf, isConnect).None? ==> failed
      ensures Fields(buf, isConnect).Some? ==>
                var f := Fields(buf, isConnect).value;
                failed == (PortField in f && f[PortField].End() <= |buf| && Decimal(Text(buf, f[PortField])) > 0xFFFF)
      ensures !failed ==> Fields(buf, isConnect) == Some(fields) && Partition(fields, buf)
      ensures !failed ==> port == if PortField in fields then Decimal(Text(buf, fields[PortField])) else 0
    {
      if |buf| == 0 {
        return true;
      }
      port, fields := 0, map[];
      var foundAt;
      failed, foundAt := ParseFields(buf, isConnect);
      if failed {
        return;
      }
      WalkFits(buf, isConnect, |buf|);
      HostWithin(WalkUrl(buf, isConnect, |buf|), buf, |buf|);
      hide WalkUrl, Fits, WalkHost, Partition;
      if SchemaField in fields && HostField !in fields {
        return true;
      }
      if HostField in fields {
        failed := ParseHost(buf, foundAt);
        if failed {
          return;
        }
      }
      if isConnect && fields.Keys != {HostField, PortField} {
        return true;
      }
      FieldsPartition(buf, isConnect);
      if PortField in fields {
        PortDigits(fields, buf);
        failed, port := PortValue(buf, fields[PortField]);
      }
    }
  }

  lemma WalkStarts(buf: seq<Octet>, isConnect: bool)
    ensures WalkUrl(buf, isConnect, 0) == Begin(isConnect)
  {
  }

  lemma WalkNext(buf: seq<Octet>, isConnect: bool, p: nat)
    requires p < |buf|
    ensures WalkUrl(buf, isConnect, p + 1) == Step(WalkUrl(buf, isConnect, p), p, buf[p])
  {
    hide Step;
  }

  lemma StaysInUrl(buf: seq<Octet>, isConnect: bool, p: nat)
    requires p < |buf| <= MAX_URL && WalkUrl(buf, isConnect, p).Walk?
    ensures var t := ParseUrlChar(WalkUrl(buf, isConnect, p).s, buf[p]); !t.Dead? ==> InUrl(t)
  {
    WalkFits(buf, isConnect, p);
  }

  lemma HostWithin(w: Walk, buf: seq<Octet>, n: nat)
    requires n <= |buf| && Fits(w, buf, n)
    ensures HostField in w.fields ==> w.fields[HostField].End() <= |buf|
  {
    assert HostField in w.fields ==> Within(w.fields[HostField], n);
  }

  lemma PortDigits(fields: map<Field, Run>, buf: seq<Octet>)
    requires Partition(fields, buf) && PortField in fields
    ensures Digits(buf, fields[PortField])
  {
  }
}
