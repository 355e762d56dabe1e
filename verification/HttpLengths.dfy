/**
 `content_length` while the head of a message is read: it is what the values of `Content-Length` spell, up to the moment
 the application is told. The names of headers are followed as well, since it is by its name that a value is one of
 these.
 */
module HttpLengths {
  import opened HttpSyntax
  import opened HttpMachine
  import opened HttpFeed
  import opened HttpHealth
  import opened HttpNames
  import opened Wrappers
  import opened HttpBooks

  // ----- the invariant -----

  predicate LengthOk(p: Parser, h: Headers) { Matches(p.flags.contentLength, p.contentLength, h.length) }

  /** The name that has been told is the one `header_state` stands for. */
  predicate Named(p: Parser, h: Headers) {
    h.inName && h.name != [] && Tokens(h.name) && p.hstate == NameState(Lowered(h.name))
  }

  predicate OfLength(h: HState) { h.ContentLength? || h.ContentLengthNum? || h.ContentLengthWs? }

  /** The value being read is one of `Content-Length` exactly if `header_state` says so. */
  predicate Valued(p: Parser, h: Headers) {
    !h.inName && !p.hstate.ContentLength? && (OfLength(p.hstate) <==> NamesLength(h.name)) &&
    (OfLength(p.hstate) ==> h.length != []) &&
    (p.hstate.ContentLengthNum? ==> Decimals(h.length) && !p.state.HeaderValueStart?)
  }

  /** The states between two messages, and those of a body. */
  predicate BehindHead(s: State) {
    s.Dead? || s.StartReqOrRes? || s.StartRes? || s.StartReq? || s.HeadersDone? ||
    s.BodyIdentity? || s.BodyIdentityEof? || s.MessageDone? ||
    s.ChunkData? || s.ChunkSizeStart? || s.ChunkSize? || s.ChunkParameters? ||
    s.ChunkSizeAlmostDone? || s.ChunkDataAlmostDone? || s.ChunkDataDone?
  }

  predicate InName(s: State) { s.HeaderField? }

  predicate BehindName(s: State) {
    s.HeaderValueDiscardWs? || s.HeaderValueDiscardWsAlmostDone? || s.HeaderValueDiscardLws?
  }

  predicate InValue(s: State) { s.HeaderValue? || s.HeaderAlmostDone? || s.HeaderValueLws? || s.HeaderValueStart? }

  /** States in which nothing is known of a header. */
  predicate Bare(s: State) { !BehindHead(s) && !InName(s) && !BehindName(s) && !InValue(s) }

  /** Outside the head of a message, or in a trailer, nothing more is to be said about its length. */
  predicate Loose(p: Parser) { BehindHead(p.state) || p.flags.trailing }

  predicate InHead(p: Parser, h: Headers) {
    LengthOk(p, h) &&
    if InName(p.state) then h.inName && h.name != [] && Tokens(h.name) && NameOk(p, Lowered(h.name))
    else if BehindName(p.state) then Named(p, h)
    else if InValue(p.state) then Valued(p, h)
    else !h.inName
  }

  predicate HeadOk(p: Parser, h: Headers) { h.sound && (Loose(p) || InHead(p, h)) }

  /** `s_header_value_start` is only ever re-executed, on the blank that continues a value on a new line. */
  predicate Blank(s: State, ch: Octet) { s.HeaderValueStart? ==> ch == ' ' || ch == '\t' }

  // ----- one pass -----

  function HeadAfter(h: Headers, c: Option<Call>): Headers { if c.Some? then TallyHead(h, c.value) else h }

  function HeadActs(h: Headers, acts: Acts, ch: Octet): Headers {
    match acts
    case Quiet => h
    case One(x) => HeadAfter(h, CallOf(x, ch))
    case Two(x, y) => HeadAfter(HeadAfter(h, CallOf(x, ch)), CallOf(y, ch))
  }

  /** A pass that keeps the invariant. */
  predicate Heads(p: Parser, m: Move, h: Headers, ch: Octet) {
    var k := HeadActs(h, m.acts, ch);
    match m.ctl
    case Next => HeadOk(m.p, HeadAfter(k, LastCall(AfterAll(GateOf(p.state), m.acts), ch))) &&
                 !m.p.state.HeaderValueStart?
    case Again => HeadOk(m.p, k) && Blank(m.p.state, ch)
    case Exit => k.sound
    case Stop(_) => true
  }

  /** No head is told. */
  predicate NoHead(acts: Acts) {
    match acts
    case Quiet => true
    case One(a) => !(a.Notify? && a.n.HeadersComplete?)
    case Two(a, b) => !(a.Notify? && a.n.HeadersComplete?) && !(b.Notify? && b.n.HeadersComplete?)
  }

  /** A pass that ends outside the head, or in a trailer. */
  predicate Loosely(m: Move, ch: Octet) {
    match m.ctl
    case Next => Loose(m.p) && NoHead(m.acts) && !m.p.state.HeaderValueStart?
    case Again => Loose(m.p) && NoHead(m.acts) && Blank(m.p.state, ch)
    case Exit => NoHead(m.acts)
    case Stop(_) => true
  }

  lemma LooseHeads(p: Parser, m: Move, h: Headers, ch: Octet)
    requires h.sound && Loosely(m, ch)
    ensures Heads(p, m, h, ch)
  {
    hide Loose, Blank, NamesLength, Matches, InHead, GateOf, AfterAll;
  }

  // ----- passes that are not about headers -----

  /** Only the spans of the URL and of the status are marked or told, or that a message begins. */
  predicate Silent(acts: Acts) {
    match acts
    case Quiet => true
    case One(a) => ((a.Mark? || a.Flush?) && (a.k.UrlSpan? || a.k.StatusSpan?)) || (a.Notify? && a.n.MessageBegin?)
    case Two(_, _) => false
  }

  predicate NoNews(acts: Acts) { acts.One? ==> !acts.a.Notify? }

  /** A pass that keeps flags and length, stays clear of headers and bodies, and is silent. */
  predicate Dull(p: Parser, m: Move) {
    !m.ctl.Stop? ==>
      !m.ctl.Exit? && m.p.flags == p.flags && m.p.contentLength == p.contentLength && Bare(m.p.state) &&
      Silent(m.acts) &&
      NoNews(m.acts)
  }

  lemma BareIs(s: State)
    requires Bare(s)
    ensures !BehindHead(s) && !InName(s) && !BehindName(s) && !InValue(s) && !s.HeaderValueStart?
  {
  }

  lemma BehindIs(s: State)
    requires BehindHead(s)
    ensures !s.HeaderValueStart?
  {
  }

  lemma BareGate(s: State, acts: Acts)
    requires Bare(s) && Silent(acts)
    ensures var g := AfterAll(GateOf(s), acts); g.Open? ==> g.k.UrlSpan? || g.k.StatusSpan?
  {
  }

  lemma DullHeads(p: Parser, m: Move, h: Headers, ch: Octet)
    requires Bare(p.state) && Dull(p, m) && HeadOk(p, h)
    ensures Heads(p, m, h, ch)
  {
    if !m.ctl.Stop? {
      BareGate(p.state, m.acts);
    }
    hide GateOf, AfterAll, LengthOk;
  }

  lemma StartPass(p: Parser, ch: Octet)
    requires GroupOf(p.state).StartG? && !p.state.ResOrRespH?
    ensures BehindHead(p.state) && GateOf(p.state).Shut?
    ensures var m := OnStart(p, ch);
            m.ctl.Stop? || (m.acts == Quiet && !m.ctl.Exit? && BehindHead(m.p.state)) ||
            (m.acts == One(Notify(MessageBegin)) && m.ctl.Next? && Bare(m.p.state) && GateOf(m.p.state).Shut? &&
             m.p.flags == NO_FLAGS && m.p.contentLength == ULLONG_MAX)
  {
  }

  lemma FirstByteDull(p: Parser, ch: Octet)
    requires p.state.ResOrRespH?
    ensures Bare(p.state) && Dull(p, OnStart(p, ch))
  {
  }

  lemma MessageBegun(m: Move, h: Headers, ch: Octet)
    requires m.acts == One(Notify(MessageBegin)) && h.sound && m.p.flags == NO_FLAGS && m.p.contentLength == ULLONG_MAX
    requires !InName(m.p.state) && !BehindName(m.p.state) && !InValue(m.p.state)
    ensures HeadOk(m.p, HeadActs(h, m.acts, ch))
  {
    hide BehindHead;
  }

  lemma StartHeads(p: Parser, ch: Octet, h: Headers)
    requires GroupOf(p.state).StartG? && HeadOk(p, h)
    ensures Heads(p, OnStart(p, ch), h, ch)
  {
    hide OnStart, GroupOf, GateOf, BehindHead, Bare;
    var m := OnStart(p, ch);
    if p.state.ResOrRespH? {
      FirstByteDull(p, ch);
      DullHeads(p, m, h, ch);
    } else {
      StartPass(p, ch);
      if m.acts == Quiet {
        if !m.ctl.Stop? {
          BehindIs(m.p.state);
        }
        LooseHeads(p, m, h, ch);
      } else if m.ctl.Next? {
        BareIs(m.p.state);
        MessageBegun(m, h, ch);
      }
    }
  }

  lemma ResVersionDull(p: Parser, ch: Octet)
    requires GroupOf(p.state).ResVersionG?
    ensures Bare(p.state) && Dull(p, OnResponseVersion(p, ch))
  {
  }

  lemma StatusLineDull(p: Parser, ch: Octet)
    requires GroupOf(p.state).StatusLineG?
    ensures Bare(p.state) && Dull(p, OnStatusLine(p, ch))
  {
  }

  lemma MethodDull(p: Parser, ch: Octet)
    requires GroupOf(p.state).MethodG?
    ensures Bare(p.state) && Dull(p, OnMethod(p, ch))
  {
    hide SwitchMethod, MatcherAt;
  }

  lemma InUrlBare(s: State)
    requires InUrl(s)
    ensures Bare(s)
  {
  }

  lemma UrlDull(p: Parser, ch: Octet)
    requires GroupOf(p.state).UrlG?
    ensures Bare(p.state) && Dull(p, OnUrl(p, ch))
  {
    hide ParseUrlChar, InUrl;
    if InUrl(OnUrl(p, ch).p.state) {
      InUrlBare(OnUrl(p, ch).p.state);
    }
  }

  lemma VersionDull(p: Parser, ch: Octet)
    requires GroupOf(p.state).VersionG?
    ensures Bare(p.state) && Dull(p, OnRequestVersion(p, ch))
  {
  }

  lemma LineEndDull(p: Parser, ch: Octet)
    requires GroupOf(p.state).LineEndG?
    ensures Bare(p.state) && Dull(p, OnRequestLineEnd(p, ch))
  {
  }

  // ----- header names -----

  lemma LoweredGrows(name: seq<Octet>, ch: Octet)
    requires Tokens(name) && IsToken(ch)
    ensures Tokens(name + [ch]) && Lowered(name + [ch]) == Lowered(name) + [Token(ch)]
  {
    hide IsToken, Token;
  }

  lemma FirstLowered(ch: Octet)
    requires IsToken(ch)
    ensures Tokens([ch]) && Lowered([ch]) == [Token(ch)]
  {
    hide IsToken, Token;
  }

  lemma NameStartPass(p: Parser, ch: Octet)
    requires p.state.HeaderFieldStart?
    ensures var m := OnHeaderField(p, ch);
            m.p.flags == p.flags && m.p.contentLength == p.contentLength &&
            (m.ctl.Stop? || (m.acts == Quiet && !m.ctl.Exit? && m.p.state.HeadersAlmostDone?) ||
             (IsToken(ch) && m.ctl.Next? && m.acts == One(Mark(FieldSpan)) && m.p.state.HeaderField? &&
              NameOk(m.p, [Token(ch)])))
  {
    if IsToken(ch) {
      FirstLetter(p, ch);
    }
    hide IsToken, Token, FieldStart, NameState;
  }

  lemma NameStartHeads(p: Parser, ch: Octet, h: Headers)
    requires p.state.HeaderFieldStart? && HeadOk(p, h)
    ensures Heads(p, OnHeaderField(p, ch), h, ch)
  {
    NameStartPass(p, ch);
    if IsToken(ch) {
      FirstLowered(ch);
      assert [] + [ch] == [ch];
    }
    hide OnHeaderField, IsToken, Token, Lowered, Tokens, LengthOk, NamesLength, NameOk;
  }

  lemma NameHeads(p: Parser, ch: Octet, h: Headers)
    requires p.state.HeaderField? && HeadOk(p, h)
    ensures Heads(p, OnHeaderField(p, ch), h, ch)
  {
    if IsToken(ch) && !p.flags.trailing {
      NameStep(p, Lowered(h.name), ch);
      LoweredGrows(h.name, ch);
    }
    hide IsToken, Token, FieldByte, Lowered, Tokens, NameState;
  }

  lemma FieldHeads(p: Parser, ch: Octet, h: Headers)
    requires GroupOf(p.state).FieldG? && HeadOk(p, h)
    ensures Heads(p, OnHeaderField(p, ch), h, ch)
  {
    hide Heads, OnHeaderField, HeadOk;
    if p.state.HeaderField? {
      NameHeads(p, ch, h);
    } else {
      NameStartHeads(p, ch, h);
    }
  }

  // ----- header values -----

  /** The state that a whole name leads to says whether it is `Content-Length`. */
  lemma NameStateSays(name: seq<Octet>)
    requires name != [] && Tokens(name)
    ensures var s := NameState(Lowered(name));
            (s.ContentLength? <==> NamesLength(name)) && !s.ContentLengthNum? && !s.ContentLengthWs?
  {
    var t := Lowered(name);
    OneStart(t);
    StartLength(t);
    hide Starts, Lowered, Tokens;
  }

  /** What a value scan does to the length: it appends digits, and never begins with that by itself. */
  predicate Numbers(s: Scan, r: Scanned, ch: Octet) {
    r.More? ==>
      r.s.flags.trailing == s.flags.trailing && r.s.flags.skipBody == s.flags.skipBody &&
      r.s.flags.contentLength == s.flags.contentLength && !r.s.h.ContentLength? &&
      (OfLength(r.s.h) <==> OfLength(s.h)) &&
      if r.s.h.ContentLengthNum? then s.h.ContentLengthNum? && IsNum(ch) && s.length <= (ULLONG_MAX - 10) / 10 &&
                                      r.s.length == s.length * 10 + Digit(ch)
      else r.s.length == s.length && (OfLength(r.s.h) ==> ch == ' ')
  }

  lemma RecognisedKeeps(f: Flags, h: HState)
    ensures var r := Recognised(f, h);
            r.trailing == f.trailing && r.contentLength == f.contentLength && r.skipBody == f.skipBody
  {
    if h.TeChunked? || h.ConnKeepAlive? || h.ConnClose? || h.ConnUpgrade? {
    } else {
      assert Recognised(f, h) == f;
    }
  }

  lemma ConnectionNumbers(s: Scan, ch: Octet)
    requires OfConnection(s.h)
    ensures Numbers(s, More(ConnectionByte(s, ch)), ch)
  {
    hide Recognised;
    RecognisedKeeps(s.flags, s.h);
  }

  lemma CodingNumbers(s: Scan, ch: Octet)
    requires IsValueState(s.h) && !OfConnection(s.h) && !OfLength(s.h)
    ensures Numbers(s, CodingOrLengthByte(s, ch), ch)
  {
    hide IsToken, LengthByte;
  }

  lemma LengthNumbers(s: Scan, ch: Octet)
    requires s.h.ContentLengthNum? || s.h.ContentLengthWs?
    ensures Numbers(s, CodingOrLengthByte(s, ch), ch)
  {
  }

  lemma ScanNumbers(s: Scan, ch: Octet)
    requires IsValueState(s.h)
    ensures Numbers(s, ScanByte(s, ch), ch)
  {
    hide ConnectionByte, CodingOrLengthByte, Numbers;
    if OfConnection(s.h) {
      ConnectionNumbers(s, ch);
    } else if OfLength(s.h) {
      LengthNumbers(s, ch);
    } else {
      CodingNumbers(s, ch);
    }
  }

  /** The length after one more byte of a value of `Content-Length`. */
  lemma LengthGrows(flag: bool, n: nat, length: seq<Octet>, ch: Octet)
    requires Matches(flag, n, length) && length != []
    ensures !IsNum(ch) ==> Matches(flag, n, length + [ch])
    ensures IsNum(ch) && Decimals(length) && n <= (ULLONG_MAX - 10) / 10 ==>
              Matches(flag, n * 10 + Digit(ch), length + [ch]) && Decimals(length + [ch])
  {
    NumberGrows(length, ch);
  }

  lemma ValueBytePass(p: Parser, ch: Octet)
    requires IsValueState(p.hstate)
    ensures var m := ValueByte(p, ch);
            m.ctl.Stop? ||
            (m.ctl.Next? && m.acts == Quiet && m.p.state == p.state && m.p.flags.trailing == p.flags.trailing &&
             m.p.flags.skipBody == p.flags.skipBody &&
             m.p.flags.contentLength == p.flags.contentLength && !m.p.hstate.ContentLength? &&
             (OfLength(m.p.hstate) <==> OfLength(p.hstate)) &&
             if m.p.hstate.ContentLengthNum? then
               p.hstate.ContentLengthNum? && IsNum(ch) && p.contentLength <= (ULLONG_MAX - 10) / 10 &&
               m.p.contentLength == p.contentLength * 10 + Digit(ch)
             else m.p.contentLength == p.contentLength && (OfLength(p.hstate) ==> ch == ' '))
  {
    hide ScanByte, IsValueState;
    ScanNumbers(Scan(p.hstate, p.index, p.flags, p.contentLength), ch);
  }

  /** A byte that only adds to the value. */
  lemma QuietInValue(p: Parser, m: Move, h: Headers, ch: Octet)
    requires p.state.HeaderValue? && m.ctl.Next? && m.acts == Quiet && m.p.state.HeaderValue?
    ensures Heads(p, m, h, ch) <==> HeadOk(m.p, TallyHead(h, Data(ValueSpan, [ch])))
  {
    hide HeadOk, TallyHead;
  }

  /** A byte of a value of `Content-Length`. */
  lemma LengthByteHead(p: Parser, ch: Octet, h: Headers)
    requires p.state.HeaderValue? && IsValueState(p.hstate) && OfLength(p.hstate) && InHead(p, h)
    requires !ValueByte(p, ch).ctl.Stop?
    ensures InHead(ValueByte(p, ch).p, TallyHead(h, Data(ValueSpan, [ch])))
  {
    ValueBytePass(p, ch);
    LengthGrows(p.flags.contentLength, p.contentLength, h.length, ch);
    hide ValueByte, IsValueState, Matches, NamesLength, Decimals;
  }

  lemma OtherByteHead(p: Parser, ch: Octet, h: Headers)
    requires p.state.HeaderValue? && IsValueState(p.hstate) && !OfLength(p.hstate) && InHead(p, h)
    requires !ValueByte(p, ch).ctl.Stop?
    ensures InHead(ValueByte(p, ch).p, TallyHead(h, Data(ValueSpan, [ch])))
  {
    ValueBytePass(p, ch);
    hide ValueByte, IsValueState, Matches, NamesLength, Decimals;
  }

  lemma ValueByteHeads(p: Parser, ch: Octet, h: Headers)
    requires p.state.HeaderValue? && IsValueState(p.hstate) && HeadOk(p, h)
    ensures Heads(p, ValueByte(p, ch), h, ch)
  {
    hide ValueByte, IsValueState, InHead, Heads, OfLength, NamesLength;
    var m := ValueByte(p, ch);
    if m.ctl.Stop? {
      Stopped(p, m, h, ch);
    } else {
      ValueBytePass(p, ch);
      QuietInValue(p, m, h, ch);
      if p.flags.trailing {
      } else if OfLength(p.hstate) {
        LengthByteHead(p, ch, h);
      } else {
        OtherByteHead(p, ch, h);
      }
    }
  }

  lemma ValueEndPass(cfg: Config, p: Parser, ch: Octet)
    requires p.state.HeaderValue?
    ensures var m := OnHeaderValue(cfg, p, ch);
            m == ValueByte(p, ch) || m.ctl.Stop? ||
            (!m.ctl.Exit? && m.acts == One(Flush(ValueSpan)) && m.p == p.(state := HeaderAlmostDone))
  {
    hide ValueByte, IsHeaderChar;
  }

  lemma InValueHeads(cfg: Config, p: Parser, ch: Octet, h: Headers)
    requires p.state.HeaderValue? && IsValueState(p.hstate) && HeadOk(p, h)
    ensures Heads(p, OnHeaderValue(cfg, p, ch), h, ch)
  {
    hide ValueByte, OnHeaderValue, IsValueState, Matches, NamesLength, Decimals;
    ValueByteHeads(p, ch, h);
    ValueEndPass(cfg, p, ch);
  }

  /** The first byte of a value, or of one more line of it. */
  lemma ValueStartPass(p: Parser, ch: Octet)
    requires !p.hstate.ContentLengthNum?
    ensures var m := OnValueStart(p, ch);
            m.ctl.Stop? ||
            (m.ctl.Next? && m.acts == One(Mark(ValueSpan)) && m.p.state.HeaderValue? &&
             m.p.flags.trailing == p.flags.trailing &&
             m.p.flags.skipBody == p.flags.skipBody && !m.p.hstate.ContentLength? &&
             if p.hstate.ContentLength? then
               m.p.hstate.ContentLengthNum? && IsNum(ch) && !p.flags.contentLength && m.p.flags.contentLength &&
               m.p.contentLength == Digit(ch)
             else m.p.flags.contentLength == p.flags.contentLength && m.p.contentLength == p.contentLength &&
                  (OfLength(m.p.hstate) <==> OfLength(p.hstate)) && !m.p.hstate.ContentLengthNum?)
  {
  }

  lemma ValueStartMark(p: Parser, ch: Octet)
    ensures var m := OnValueStart(p, ch);
            m.ctl.Stop? ||
            (m.ctl.Next? && m.acts == One(Mark(ValueSpan)) && m.p.state.HeaderValue? &&
             m.p.flags.trailing == p.flags.trailing &&
             m.p.flags.skipBody == p.flags.skipBody)
  {
  }

  lemma TrailingStart(p: Parser, ch: Octet)
    requires p.flags.trailing
    ensures Loosely(OnValueStart(p, ch), ch)
  {
    ValueStartMark(p, ch);
    hide OnValueStart, BehindHead;
  }

  lemma ValueStartHeads(p: Parser, ch: Octet, h: Headers)
    requires p.state.HeaderValueDiscardWs? || (p.state.HeaderValueStart? && Blank(p.state, ch))
    requires HeadOk(p, h)
    ensures Heads(p, OnValueStart(p, ch), h, ch)
  {
    hide Heads, OnValueStart, InHead, Loosely;
    if p.flags.trailing {
      TrailingStart(p, ch);
      LooseHeads(p, OnValueStart(p, ch), h, ch);
    } else if p.state.HeaderValueStart? {
      MoreLines(p, ch, h);
    } else {
      FirstOfValue(p, ch, h);
    }
  }

  lemma MoreLines(p: Parser, ch: Octet, h: Headers)
    requires p.state.HeaderValueStart? && Blank(p.state, ch) && InHead(p, h) && h.sound
    ensures Heads(p, OnValueStart(p, ch), h, ch)
  {
    ValueStartPass(p, ch);
    if OfLength(p.hstate) {
      LengthGrows(p.flags.contentLength, p.contentLength, h.length, ch);
    }
    assert h.length + [] == h.length;
    hide OnValueStart, NamesLength, Matches, Decimals;
  }

  lemma FirstOfValue(p: Parser, ch: Octet, h: Headers)
    requires p.state.HeaderValueDiscardWs? && InHead(p, h) && h.sound
    ensures Heads(p, OnValueStart(p, ch), h, ch)
  {
    NameStateSays(h.name);
    ValueStartPass(p, ch);
    NumberGrows([], ch);
    assert [] + [ch] == [ch] && h.length + [] == h.length;
    hide OnValueStart, NamesLength, NameState, Lowered, Tokens, Number;
  }

  // ----- line ends -----

  lemma LineFoldPass(cfg: Config, p: Parser, ch: Octet)
    requires p.state.HeaderAlmostDone? || p.state.HeaderValueLws?
    ensures var m := OnHeaderValue(cfg, p, ch);
            m.ctl.Stop? ||
            (m.acts == Quiet && !m.ctl.Exit? && m.p.contentLength == p.contentLength &&
             m.p.flags.trailing == p.flags.trailing &&
             m.p.flags.contentLength == p.flags.contentLength && m.p.flags.skipBody == p.flags.skipBody &&
             ((m.p.state.HeaderValueLws? && m.ctl.Next? && m.p.hstate == p.hstate) ||
              (m.p.state.HeaderFieldStart? && m.ctl.Again?) ||
              (m.p.state.HeaderValueStart? && m.ctl.Again? && Blank(m.p.state, ch) &&
               m.p.hstate == if p.hstate.ContentLengthNum? then ContentLengthWs else p.hstate)))
  {
    RecognisedKeeps(p.flags, p.hstate);
    hide Recognised;
  }

  lemma Stopped(p: Parser, m: Move, h: Headers, ch: Octet)
    requires m.ctl.Stop?
    ensures Heads(p, m, h, ch)
  {
  }

  /** A pass between lines that tells nothing. */
  lemma QuietLine(p: Parser, m: Move, h: Headers, ch: Octet)
    requires GateOf(p.state).Shut? && m.acts == Quiet && !m.ctl.Exit? && (m.ctl.Next? ==> !m.p.state.HeaderValueStart?)
    requires (m.ctl.Again? ==> Blank(m.p.state, ch))
    requires m.ctl.Next? || m.ctl.Again? ==> HeadOk(m.p, h)
    ensures Heads(p, m, h, ch)
  {
    hide HeadOk, GateOf, Blank;
  }

  lemma LineFoldHeads(cfg: Config, p: Parser, ch: Octet, h: Headers)
    requires (p.state.HeaderAlmostDone? || p.state.HeaderValueLws?) && HeadOk(p, h)
    ensures Heads(p, OnHeaderValue(cfg, p, ch), h, ch)
  {
    LineFoldPass(cfg, p, ch);
    hide OnHeaderValue, Matches, NamesLength, Decimals, Heads;
    var m := OnHeaderValue(cfg, p, ch);
    if m.ctl.Stop? {
      Stopped(p, m, h, ch);
    } else {
      QuietLine(p, m, h, ch);
    }
  }

  /** An empty value, which `Content-Length` may not have. */
  lemma EmptyValuePass(cfg: Config, p: Parser, ch: Octet)
    requires p.state.HeaderValueDiscardWsAlmostDone? || p.state.HeaderValueDiscardLws?
    ensures var m := OnHeaderValue(cfg, p, ch);
            m.ctl.Stop? ||
            (!m.ctl.Exit? && m.p.contentLength == p.contentLength && m.p.flags.trailing == p.flags.trailing &&
             m.p.flags.contentLength == p.flags.contentLength && m.p.flags.skipBody == p.flags.skipBody &&
             m.p.hstate == p.hstate &&
             ((m.ctl.Next? && m.acts == Quiet && BehindName(m.p.state)) ||
              (m.ctl.Again? && m.p.state.HeaderFieldStart? && !p.hstate.ContentLength? &&
               m.acts == Two(Mark(ValueSpan), Flush(ValueSpan)))))
  {
    RecognisedKeeps(p.flags, p.hstate);
    hide Recognised;
  }

  /** The line end behind an empty value. */
  lemma EmptyLine(p: Parser, m: Move, h: Headers, ch: Octet)
    requires m.ctl.Again? && m.p.state.HeaderFieldStart? && m.acts == Two(Mark(ValueSpan), Flush(ValueSpan))
    requires h.sound && (m.p.flags.trailing || (LengthOk(m.p, h) && !NamesLength(h.name)))
    ensures Heads(p, m, h, ch)
  {
    hide NamesLength, Matches;
  }

  lemma EmptyValueHeads(cfg: Config, p: Parser, ch: Octet, h: Headers)
    requires (p.state.HeaderValueDiscardWsAlmostDone? || p.state.HeaderValueDiscardLws?) && HeadOk(p, h)
    ensures Heads(p, OnHeaderValue(cfg, p, ch), h, ch)
  {
    EmptyValuePass(cfg, p, ch);
    if !p.flags.trailing {
      NameStateSays(h.name);
    }
    hide OnHeaderValue, Heads, Matches, NamesLength, NameState, Lowered, Tokens;
    var m := OnHeaderValue(cfg, p, ch);
    if m.ctl.Stop? {
      Stopped(p, m, h, ch);
    } else if m.ctl.Next? {
      QuietLine(p, m, h, ch);
    } else {
      EmptyLine(p, m, h, ch);
    }
  }

  lemma DiscardPass(cfg: Config, p: Parser, ch: Octet)
    requires p.state.HeaderValueDiscardWs?
    ensures var m := OnHeaderValue(cfg, p, ch);
            m == OnValueStart(p, ch) ||
            (m.ctl.Next? && m.acts == Quiet && BehindName(m.p.state) && m.p == p.(state := m.p.state))
  {
    hide OnValueStart;
  }

  lemma DiscardHeads(cfg: Config, p: Parser, ch: Octet, h: Headers)
    requires p.state.HeaderValueDiscardWs? && HeadOk(p, h)
    ensures Heads(p, OnHeaderValue(cfg, p, ch), h, ch)
  {
    hide OnValueStart, OnHeaderValue, Matches, NamesLength, NameState, Lowered, Tokens;
    ValueStartHeads(p, ch, h);
    DiscardPass(cfg, p, ch);
  }

  lemma ValueStartDispatch(cfg: Config, p: Parser, ch: Octet)
    requires p.state.HeaderValueStart?
    ensures OnHeaderValue(cfg, p, ch) == OnValueStart(p, ch)
  {
  }

  lemma ValueHeads(cfg: Config, p: Parser, ch: Octet, h: Headers)
    requires GroupOf(p.state).ValueG? && Ready(p) && HeadOk(p, h) && Blank(p.state, ch)
    ensures Heads(p, OnHeaderValue(cfg, p, ch), h, ch)
  {
    hide OnValueStart, HeadOk, Heads, OnHeaderValue;
    match p.state
    case HeaderValue => InValueHeads(cfg, p, ch, h);
    case HeaderValueStart =>
      ValueStartHeads(p, ch, h);
      ValueStartDispatch(cfg, p, ch);
    case HeaderValueDiscardWs => DiscardHeads(cfg, p, ch, h);
    case HeaderAlmostDone => LineFoldHeads(cfg, p, ch, h);
    case HeaderValueLws => LineFoldHeads(cfg, p, ch, h);
    case _ => EmptyValueHeads(cfg, p, ch, h);
  }

  // ----- the end of the headers, and behind it -----

  lemma NewMessageBehind(p: Parser)
    ensures BehindHead(NewMessage(p))
  {
  }

  /** The only pass that tells a head. */
  lemma HeadTold(cfg: Config, p: Parser, ch: Octet)
    requires p.state.HeadersAlmostDone? && !p.flags.trailing
    ensures var m := OnHeadersEnd(cfg, p, ch);
            m.ctl.Stop? ||
            (m.ctl.Again? && m.p.state.HeadersDone? && m.acts.One? && m.acts.a.Notify? && m.acts.a.n.HeadersComplete? &&
             m.acts.a.n.head.flags.contentLength == p.flags.contentLength &&
             m.acts.a.n.head.contentLength == p.contentLength)
  {
  }

  lemma HeadersEndLoosely(cfg: Config, p: Parser, ch: Octet)
    requires p.state.HeadersDone? || (p.state.HeadersAlmostDone? && p.flags.trailing)
    ensures Loosely(OnHeadersEnd(cfg, p, ch), ch)
  {
    NewMessageBehind(p.(nread := 0));
    hide NewMessage, NeedsEof;
  }

  lemma HeadersEndHeads(cfg: Config, p: Parser, ch: Octet, h: Headers)
    requires GroupOf(p.state).HeadersEndG? && HeadOk(p, h)
    ensures Heads(p, OnHeadersEnd(cfg, p, ch), h, ch)
  {
    hide OnHeadersEnd, Loosely, Matches;
    if p.state.HeadersDone? || p.flags.trailing {
      HeadersEndLoosely(cfg, p, ch);
      LooseHeads(p, OnHeadersEnd(cfg, p, ch), h, ch);
    } else {
      HeadTold(cfg, p, ch);
    }
  }

  lemma BodyLoosely(p: Parser, ch: Octet)
    requires GroupOf(p.state).BodyG?
    ensures Loosely(OnBody(p, ch), ch)
  {
    NewMessageBehind(p);
    hide NewMessage;
  }

  lemma ChunkSizeLoosely(p: Parser, ch: Octet)
    requires GroupOf(p.state).ChunkSizeG?
    ensures Loosely(OnChunkSize(p, ch), ch)
  {
    hide Unhex, BehindHead;
    ChunkStatesBehind();
  }

  lemma ChunkStatesBehind()
    ensures BehindHead(ChunkSizeStart) && BehindHead(ChunkSize) && BehindHead(ChunkParameters) &&
            BehindHead(ChunkSizeAlmostDone)
    ensures BehindHead(ChunkData)
  {
  }

  lemma ChunkDataLoosely(p: Parser, ch: Octet)
    requires GroupOf(p.state).ChunkDataG?
    ensures Loosely(OnChunkData(p, ch), ch)
  {
  }

  /** Every pass keeps the invariant, and tells a head only if its length is the one in the input. */
  lemma TransitionHeads(cfg: Config, p: Parser, ch: Octet, h: Headers)
    requires Ready(p) && HeadOk(p, h) && Blank(p.state, ch)
    ensures Heads(p, Transition(cfg, p, ch), h, ch)
  {
    hide OnStart, OnResponseVersion, OnStatusLine, OnMethod, OnUrl, OnRequestVersion, OnRequestLineEnd, OnHeaderField,
         OnHeaderValue, OnHeadersEnd, OnBody, OnChunkSize, OnChunkData, HealthyAt, InHead, Loose, Heads, Bare, Dull,
         Loosely;
    match GroupOf(p.state)
    case StartG => StartHeads(p, ch, h);
    case ResVersionG => ResVersionDull(p, ch); DullHeads(p, OnResponseVersion(p, ch), h, ch);
    case StatusLineG => StatusLineDull(p, ch); DullHeads(p, OnStatusLine(p, ch), h, ch);
    case MethodG => MethodDull(p, ch); DullHeads(p, OnMethod(p, ch), h, ch);
    case UrlG => UrlDull(p, ch); DullHeads(p, OnUrl(p, ch), h, ch);
    case VersionG => VersionDull(p, ch); DullHeads(p, OnRequestVersion(p, ch), h, ch);
    case LineEndG => LineEndDull(p, ch); DullHeads(p, OnRequestLineEnd(p, ch), h, ch);
    case FieldG => FieldHeads(p, ch, h);
    case ValueG => ValueHeads(cfg, p, ch, h);
    case HeadersEndG => HeadersEndHeads(cfg, p, ch, h);
    case BodyG => BodyLoosely(p, ch); LooseHeads(p, OnBody(p, ch), h, ch);
    case ChunkSizeG => ChunkSizeLoosely(p, ch); LooseHeads(p, OnChunkSize(p, ch), h, ch);
    case ChunkDataG => ChunkDataLoosely(p, ch); LooseHeads(p, OnChunkData(p, ch), h, ch);
  }

  // ----- the byte that a span is in the middle of -----

  /** Marking again the span that is being read makes no difference. */
  lemma OpenHeads(p: Parser, h: Headers)
    requires HeadOk(p, h) && GateOf(p.state).Open?
    ensures HeadOk(p, TallyHead(h, Data(GateOf(p.state).k, [])))
  {
    assert h.name + [] == h.name && h.length + [] == h.length;
    hide NamesLength, Number, NameState;
  }

  lemma CountedHeads(p: Parser, h: Headers)
    requires HeadOk(p, h)
    ensures HeadOk(Counted(p), h)
  {
    hide ParsingHeader, Number, NameState, NamesLength;
  }
}
