/**
 One pass of the big `switch` of `http_parser_execute` on one byte, state by state. Each pass gives the new
 parser, what it does with the marks and callbacks, and how the pass ends. The scanning loops of the source
 appear here byte by byte; `HttpExecute` holds the loops themselves.
 */
module HttpMachine {
  import opened HttpSyntax

  /** `MARK`, `CALLBACK_DATA`, `CALLBACK_DATA_` with the current byte included, `CALLBACK_NOTIFY`. */
  datatype Act = Mark(k: Kind) | Flush(k: Kind) | FlushIncl(k: Kind) | Notify(n: Notice)

  /** What one pass performs, in order. */
  datatype Acts = Quiet | One(a: Act) | Two(a: Act, b: Act)

  /** `break`, `REEXECUTE`, `goto error`, `RETURN` on a protocol upgrade. */
  datatype Control = Next | Again | Stop(e: Errno) | Exit

  datatype Move = Move(p: Parser, acts: Acts, ctl: Control)

  function Stay(p: Parser): Move { Move(p, Quiet, Next) }

  function Go(p: Parser, s: State): Move { Move(p.(state := s), Quiet, Next) }

  function GoWith(p: Parser, s: State, acts: Acts): Move { Move(p.(state := s), acts, Next) }

  function Redo(p: Parser, s: State, acts: Acts): Move { Move(p.(state := s), acts, Again) }

  function Err(p: Parser, e: Errno): Move { Move(p, Quiet, Stop(e)) }

  function Expect(p: Parser, ok: bool, s: State, e: Errno): Move { if ok then Go(p, s) else Err(p, e) }

  /** `++parser->index` on a five-bit field. */
  function Bump(i: nat): nat { (i + 1) % 32 }

  /** `http_parser_init`. */
  function Initial(ptype: ParserType): Parser {
    Parser(ptype, NO_FLAGS, if ptype.Request? then StartReq else if ptype.Response? then StartRes else StartReqOrRes,
           General, 0, false, 0, 0, 0, 0, 0, DELETE, false)
  }

  // ----- when a message ends -----

  /** `http_message_needs_eof`. */
  predicate NeedsEof(p: Parser) {
    if p.ptype.Request? then false
    else if p.status / 100 == 1 || p.status == 204 || p.status == 304 || p.flags.skipBody then false
    else if p.usesTe && !p.flags.chunked then true
    else if p.flags.chunked || p.contentLength != ULLONG_MAX then false
    else true
  }

  /** `http_should_keep_alive`. */
  predicate ShouldKeepAlive(p: Parser) {
    (if p.major > 0 && p.minor > 0 then !p.flags.close else p.flags.keepAlive) && !NeedsEof(p)
  }

  /** `NEW_MESSAGE` of the strict build. */
  function NewMessage(p: Parser): State {
    if ShouldKeepAlive(p) then (if p.ptype.Request? then StartReq else StartRes) else Dead
  }

  // ----- start of a message -----

  function Reset(p: Parser): Parser {
    p.(flags := NO_FLAGS, usesTe := false, contentLength := ULLONG_MAX)
  }

  function FirstMethod(ch: Octet): (r: seq<Method>) {
    match ch
    case 'A' => [ACL] case 'B' => [BIND] case 'C' => [CONNECT] case 'D' => [DELETE] case 'G' => [GET]
    case 'H' => [HEAD] case 'L' => [LOCK] case 'M' => [MKCOL] case 'N' => [NOTIFY] case 'O' => [OPTIONS]
    case 'P' => [POST] case 'R' => [REPORT] case 'S' => [SUBSCRIBE] case 'T' => [TRACE] case 'U' => [UNLOCK]
    case _ => []
  }

  function OnStart(p: Parser, ch: Octet): Move {
    if p.state.Dead? then
      if ch == CR || ch == LF then Stay(p) else Err(p, ClosedConnection)
    else if p.state.ResOrRespH? then
      if ch == 'T' then Go(p.(ptype := Response), ResHT)
      else if ch == 'E' then Go(p.(ptype := Request, verb := HEAD, index := 2), ReqMethod)
      else Err(p, InvalidConstant)
    else if ch == CR || ch == LF then Stay(p)
    else
      var q := Reset(p);
      if p.state.StartReqOrRes? then
        if ch == 'H' then GoWith(q, ResOrRespH, One(Notify(MessageBegin)))
        else Redo(q.(ptype := Request), StartReq, Quiet)
      else if p.state.StartRes? then
        if ch == 'H' then GoWith(q, ResH, One(Notify(MessageBegin))) else Err(q, InvalidConstant)
      else
        var m := FirstMethod(ch);
        if m == [] then Err(q, InvalidMethod)
        else GoWith(q.(verb := m[0], index := 1), ReqMethod, One(Notify(MessageBegin)))
  }

  // ----- status line -----

  function OnResponseVersion(p: Parser, ch: Octet): Move {
    match p.state
    case ResH => Expect(p, ch == 'T', ResHT, Strict)
    case ResHT => Expect(p, ch == 'T', ResHTT, Strict)
    case ResHTT => Expect(p, ch == 'P', ResHTTP, Strict)
    case ResHTTP => Expect(p, ch == '/', ResHttpMajor, Strict)
    case ResHttpMajor => if IsNum(ch) then Go(p.(major := Digit(ch)), ResHttpDot) else Err(p, InvalidVersion)
    case ResHttpDot => Expect(p, ch == '.', ResHttpMinor, InvalidVersion)
    case ResHttpMinor => if IsNum(ch) then Go(p.(minor := Digit(ch)), ResHttpEnd) else Err(p, InvalidVersion)
    case _ => Expect(p, ch == ' ', ResFirstStatusCode, InvalidVersion)
  }

  function OnStatusLine(p: Parser, ch: Octet): Move {
    match p.state
    case ResFirstStatusCode =>
      if IsNum(ch) then Go(p.(status := Digit(ch)), ResStatusCode)
      else if ch == ' ' then Stay(p) else Err(p, InvalidStatus)
    case ResStatusCode =>
      if IsNum(ch) then
        var code := p.status * 10 + Digit(ch);
        if code > 999 then Err(p.(status := code), InvalidStatus) else Stay(p.(status := code))
      else if ch == ' ' then Go(p, ResStatusStart)
      else if ch == CR || ch == LF then Redo(p, ResStatusStart, Quiet)
      else Err(p, InvalidStatus)
    case ResStatusStart =>
      Move(p.(state := ResStatus, index := 0), One(Mark(StatusSpan)), if ch == CR || ch == LF then Again else Next)
    case ResStatus =>
      if ch == CR then GoWith(p, ResLineAlmostDone, One(Flush(StatusSpan)))
      else if ch == LF then GoWith(p, HeaderFieldStart, One(Flush(StatusSpan)))
      else Stay(p)
    case _ => Expect(p, ch == LF, HeaderFieldStart, Strict)
  }

  // ----- request line -----

  /** The method another method turns into when the byte at `index` does not match it. */
  function SwitchMethod(m: Method, index: nat, ch: Octet): (r: seq<Method>) {
    match (m, index, ch)
    case (POST, 1, 'U') => [PUT]
    case (POST, 1, 'A') => [PATCH]
    case (POST, 1, 'R') => [PROPFIND]
    case (PUT, 2, 'R') => [PURGE]
    case (CONNECT, 1, 'H') => [CHECKOUT]
    case (CONNECT, 2, 'P') => [COPY]
    case (MKCOL, 1, 'O') => [MOVE]
    case (MKCOL, 1, 'E') => [MERGE]
    case (MKCOL, 1, '-') => [MSEARCH]
    case (MKCOL, 2, 'A') => [MKACTIVITY]
    case (MKCOL, 3, 'A') => [MKCALENDAR]
    case (SUBSCRIBE, 1, 'E') => [SEARCH]
    case (SUBSCRIBE, 1, 'O') => [SOURCE]
    case (REPORT, 2, 'B') => [REBIND]
    case (PROPFIND, 4, 'P') => [PROPPATCH]
    case (LOCK, 1, 'I') => [LINK]
    case (UNLOCK, 2, 'S') => [UNSUBSCRIBE]
    case (UNLOCK, 2, 'B') => [UNBIND]
    case (UNLOCK, 3, 'I') => [UNLINK]
    case _ => []
  }

  /** `matcher[index]`, with the terminating NUL. */
  function MatcherAt(m: Method, index: nat): char {
    if index < |MethodString(m)| then MethodString(m)[index] else '\0'
  }

  function OnMethod(p: Parser, ch: Octet): Move {
    if ch == '\0' then Err(p, InvalidMethod)
    else if ch == ' ' && MatcherAt(p.verb, p.index) == '\0' then Go(p.(index := Bump(p.index)), ReqSpacesBeforeUrl)
    else if ch == MatcherAt(p.verb, p.index) then Stay(p.(index := Bump(p.index)))
    else if 'A' <= ch <= 'Z' || ch == '-' then
      var m := SwitchMethod(p.verb, p.index, ch);
      if m == [] then Err(p, InvalidMethod) else Stay(p.(verb := m[0], index := Bump(p.index)))
    else Err(p, InvalidMethod)
  }

  /** `parse_url_char`. */
  function ParseUrlChar(s: State, ch: Octet): (r: State)
    ensures r.Dead? || InUrl(r)
  {
    if ch == ' ' || ch == CR || ch == LF || ch == '\t' || ch as int == 12 then Dead
    else match s
      case ReqSpacesBeforeUrl =>
        if ch == '/' || ch == '*' then ReqPath else if IsAlpha(ch) then ReqSchema else Dead
      case ReqSchema =>
        if IsAlpha(ch) then s else if ch == ':' then ReqSchemaSlash else Dead
      case ReqSchemaSlash => if ch == '/' then ReqSchemaSlashSlash else Dead
      case ReqSchemaSlashSlash => if ch == '/' then ReqServerStart else Dead
      case ReqServerWithAt => if ch == '@' then Dead else ParseServerChar(ch)
      case ReqServerStart => ParseServerChar(ch)
      case ReqServer => ParseServerChar(ch)
      case ReqPath =>
        if IsUrlChar(ch) then s else if ch == '?' then ReqQueryStringStart
        else if ch == '#' then ReqFragmentStart else Dead
      case ReqQueryStringStart => ParseQueryChar(ch)
      case ReqQueryString => ParseQueryChar(ch)
      case ReqFragmentStart =>
        if IsUrlChar(ch) || ch == '?' then ReqFragment else if ch == '#' then s else Dead
      case ReqFragment =>
        if IsUrlChar(ch) || ch == '?' || ch == '#' then s else Dead
      case _ => Dead
  }

  function ParseServerChar(ch: Octet): State {
    if ch == '/' then ReqPath
    else if ch == '?' then ReqQueryStringStart
    else if ch == '@' then ReqServerWithAt
    else if IsUserinfoChar(ch) || ch == '[' || ch == ']' then ReqServer
    else Dead
  }

  function ParseQueryChar(ch: Octet): State {
    if IsUrlChar(ch) || ch == '?' then ReqQueryString else if ch == '#' then ReqFragmentStart else Dead
  }

  /** The states in which a URL is being collected. */
  predicate InUrl(s: State) {
    s.ReqSchema? || s.ReqSchemaSlash? || s.ReqSchemaSlashSlash? || s.ReqServerStart? || s.ReqServer? ||
    s.ReqServerWithAt? || s.ReqPath? || s.ReqQueryStringStart? || s.ReqQueryString? || s.ReqFragmentStart? ||
    s.ReqFragment?
  }

  function UrlByte(p: Parser, s: State, ch: Octet, acts: Acts): Move {
    var t := ParseUrlChar(s, ch);
    if t.Dead? then Err(p, InvalidUrl) else GoWith(p, t, acts)
  }

  function OnUrl(p: Parser, ch: Octet): Move {
    if p.state.ReqSpacesBeforeUrl? then
      if ch == ' ' then Stay(p)
      else UrlByte(p, if p.verb.CONNECT? then ReqServerStart else p.state, ch, One(Mark(UrlSpan)))
    else if p.state.ReqSchema? || p.state.ReqSchemaSlash? ||
            p.state.ReqSchemaSlashSlash? || p.state.ReqServerStart? then
      if ch == ' ' || ch == CR || ch == LF then Err(p, InvalidUrl) else UrlByte(p, p.state, ch, Quiet)
    else if ch == ' ' then GoWith(p, ReqHttpStart, One(Flush(UrlSpan)))
    else if ch == CR || ch == LF then
      GoWith(p.(major := 0, minor := 9), if ch == CR then ReqLineAlmostDone else HeaderFieldStart, One(Flush(UrlSpan)))
    else UrlByte(p, p.state, ch, Quiet)
  }

  function OnRequestVersion(p: Parser, ch: Octet): Move {
    match p.state
    case ReqHttpStart =>
      if ch == ' ' then Stay(p)
      else if ch == 'H' then Go(p, ReqHttpH)
      else if ch == 'I' && p.verb.SOURCE? then Go(p, ReqHttpI)
      else Err(p, InvalidConstant)
    case ReqHttpH => Expect(p, ch == 'T', ReqHttpHT, Strict)
    case ReqHttpHT => Expect(p, ch == 'T', ReqHttpHTT, Strict)
    case ReqHttpHTT => Expect(p, ch == 'P', ReqHttpHTTP, Strict)
    case ReqHttpI => Expect(p, ch == 'C', ReqHttpIC, Strict)
    case ReqHttpIC => Expect(p, ch == 'E', ReqHttpHTTP, Strict)
    case _ => Expect(p, ch == '/', ReqHttpMajor, Strict)
  }

  function OnRequestLineEnd(p: Parser, ch: Octet): Move {
    match p.state
    case ReqHttpMajor => if IsNum(ch) then Go(p.(major := Digit(ch)), ReqHttpDot) else Err(p, InvalidVersion)
    case ReqHttpDot => Expect(p, ch == '.', ReqHttpMinor, InvalidVersion)
    case ReqHttpMinor => if IsNum(ch) then Go(p.(minor := Digit(ch)), ReqHttpEnd) else Err(p, InvalidVersion)
    case ReqHttpEnd =>
      if ch == CR then Go(p, ReqLineAlmostDone) else Expect(p, ch == LF, HeaderFieldStart, InvalidVersion)
    case _ => Expect(p, ch == LF, HeaderFieldStart, LfExpected)
  }

  // ----- header names -----

  const CONNECTION := "connection"
  const PROXY_CONNECTION := "proxy-connection"
  const CONTENT_LENGTH := "content-length"
  const TRANSFER_ENCODING := "transfer-encoding"
  const UPGRADE := "upgrade"
  const CHUNKED := "chunked"
  const KEEP_ALIVE := "keep-alive"
  const CLOSE := "close"

  function FieldStart(c: Octet): HState {
    match c
    case 'c' => C
    case 'p' => MatchingProxyConnection
    case 't' => MatchingTransferEncoding
    case 'u' => MatchingUpgrade
    case _ => General
  }

  /** The word that a matching state compares with. */
  function Wanted(h: HState): string {
    match h
    case MatchingConnection => CONNECTION
    case MatchingProxyConnection => PROXY_CONNECTION
    case MatchingContentLength => CONTENT_LENGTH
    case MatchingTransferEncoding => TRANSFER_ENCODING
    case MatchingUpgrade => UPGRADE
    case _ => ""
  }

  /** One step of matching `word`: `index` is already advanced to the position of `c`. */
  function MatchWord(word: string, index: nat, c: Octet, going: HState, done: HState, lost: HState): HState {
    if index >= |word| || c != word[index] then lost
    else if index == |word| - 1 then done
    else going
  }

  /** The body of the scanning loop of `s_header_field` on the token byte `ch`. */
  function FieldByte(p: Parser, ch: Octet): (q: Parser)
    requires IsToken(ch)
    ensures q == p.(hstate := q.hstate, index := q.index, usesTe := q.usesTe)
  {
    var c := Token(ch);
    var i := Bump(p.index);
    match p.hstate
    case General => p
    case C => p.(index := i, hstate := if c == 'o' then CO else General)
    case CO => p.(index := i, hstate := if c == 'n' then CON else General)
    case CON =>
      p.(index := i, hstate := if c == 'n' then MatchingConnection
                               else if c == 't' then MatchingContentLength else General)
    case MatchingConnection =>
      p.(index := i, hstate := MatchWord(Wanted(p.hstate), i, c, p.hstate, Connection, General))
    case MatchingProxyConnection =>
      p.(index := i, hstate := MatchWord(Wanted(p.hstate), i, c, p.hstate, Connection, General))
    case MatchingContentLength =>
      p.(index := i, hstate := MatchWord(Wanted(p.hstate), i, c, p.hstate, ContentLength, General))
    case MatchingTransferEncoding =>
      var h := MatchWord(Wanted(p.hstate), i, c, p.hstate, TransferEncoding, General);
      p.(index := i, hstate := h, usesTe := p.usesTe || h.TransferEncoding?)
    case MatchingUpgrade =>
      p.(index := i, hstate := MatchWord(Wanted(p.hstate), i, c, p.hstate, Upgrade, General))
    case _ => p.(hstate := General)
  }

  /** The header states `s_header_field` has a case for. */
  predicate IsFieldState(h: HState) {
    h.General? || h.C? || h.CO? || h.CON? || h.MatchingConnection? || h.MatchingProxyConnection? ||
    h.MatchingContentLength? || h.MatchingTransferEncoding? || h.MatchingUpgrade? || h.Connection? ||
    h.ContentLength? || h.TransferEncoding? || h.Upgrade?
  }

  function OnHeaderField(p: Parser, ch: Octet): Move {
    if p.state.HeaderFieldStart? then
      if ch == CR then Go(p, HeadersAlmostDone)
      else if ch == LF then Redo(p, HeadersAlmostDone, Quiet)
      else if !IsToken(ch) then Err(p, InvalidHeaderToken)
      else GoWith(p.(index := 0, hstate := FieldStart(Token(ch))), HeaderField, One(Mark(FieldSpan)))
    else if IsToken(ch) then
      if IsFieldState(p.hstate) then Stay(FieldByte(p, ch)) else Err(p, AssertionFailed)
    else if ch == ':' then GoWith(p, HeaderValueDiscardWs, One(Flush(FieldSpan)))
    else Err(p, InvalidHeaderToken)
  }

  // ----- header values -----

  function OnValueStart(p: Parser, ch: Octet): Move {
    var c := Lower(ch);
    var q := p.(state := HeaderValue, index := 0);
    var mark := One(Mark(ValueSpan));
    match p.hstate
    case Upgrade => Move(q.(flags := q.flags.(upgrade := true), hstate := General), mark, Next)
    case TransferEncoding =>
      Move(q.(hstate := if c == 'c' then MatchingTeChunked else MatchingTeToken), mark, Next)
    case MatchingTeTokenStart => Move(q, mark, Next)
    case ContentLength =>
      if !IsNum(ch) then Err(q, InvalidContentLength)
      else if p.flags.contentLength then Err(q, UnexpectedContentLength)
      else Move(q.(flags := q.flags.(contentLength := true), contentLength := Digit(ch),
                   hstate := ContentLengthNum), mark, Next)
    case ContentLengthWs => Move(q, mark, Next)
    case Connection =>
      Move(q.(hstate := if c == 'k' then MatchingConnKeepAlive else if c == 'c' then MatchingConnClose
                        else if c == 'u' then MatchingConnUpgrade else MatchingConnToken), mark, Next)
    case MatchingConnTokenStart => Move(q, mark, Next)
    case _ => Move(q.(hstate := General), mark, Next)
  }

  /** `parser->flags |= F_CONNECTION_...` / `F_CHUNKED` for a header state that has recognised a value. */
  function Recognised(f: Flags, h: HState): Flags {
    match h
    case ConnKeepAlive => f.(keepAlive := true)
    case ConnClose => f.(close := true)
    case ConnUpgrade => f.(connUpgrade := true)
    case TeChunked => f.(chunked := true)
    case _ => f
  }

  /** The header states of a `Connection` value. */
  predicate OfConnection(h: HState) {
    h.MatchingConnTokenStart? || h.MatchingConnKeepAlive? || h.MatchingConnClose? || h.MatchingConnUpgrade? ||
    h.MatchingConnToken? || h.ConnKeepAlive? || h.ConnClose? || h.ConnUpgrade?
  }

  /** What a value scan works on: `h_state`, `index`, `flags` and `content_length`. */
  datatype Scan = Scan(h: HState, index: nat, flags: Flags, length: Uint64)

  datatype Scanned = More(s: Scan) | Wrong(e: Errno)

  /** The `switch (h_state)` of the scanning loop of `s_header_value`. */
  function ScanByte(s: Scan, ch: Octet): Scanned {
    if OfConnection(s.h) then More(ConnectionByte(s, ch)) else CodingOrLengthByte(s, ch)
  }

  function ValueByte(p: Parser, ch: Octet): (m: Move)
    ensures m.acts == Quiet && (m.ctl.Next? || m.ctl.Stop?) && m.p.nread == p.nread && m.p.state == p.state
  {
    match ScanByte(Scan(p.hstate, p.index, p.flags, p.contentLength), ch)
    case More(s) => Stay(p.(hstate := s.h, index := s.index, flags := s.flags, contentLength := s.length))
    case Wrong(e) => Err(p, e)
  }

  function ConnectionByte(s: Scan, ch: Octet): Scan {
    var c := Lower(ch);
    var i := Bump(s.index);
    match s.h
    case MatchingConnTokenStart =>
      if c == 'k' then s.(h := MatchingConnKeepAlive)
      else if c == 'c' then s.(h := MatchingConnClose)
      else if c == 'u' then s.(h := MatchingConnUpgrade)
      else if IsToken(c) then s.(h := MatchingConnToken)
      else if c == ' ' || c == '\t' then s
      else s.(h := General)
    case MatchingConnKeepAlive =>
      s.(index := i, h := MatchWord(KEEP_ALIVE, i, c, s.h, ConnKeepAlive, MatchingConnToken))
    case MatchingConnClose =>
      s.(index := i, h := MatchWord(CLOSE, i, c, s.h, ConnClose, MatchingConnToken))
    case MatchingConnUpgrade =>
      s.(index := i, h := MatchWord(UPGRADE, i, c, s.h, ConnUpgrade, MatchingConnToken))
    case MatchingConnToken =>
      if ch == ',' then s.(h := MatchingConnTokenStart, index := 0) else s
    case _ =>
      if ch == ',' then s.(flags := Recognised(s.flags, s.h), h := MatchingConnTokenStart, index := 0)
      else if ch != ' ' then s.(h := MatchingConnToken)
      else s
  }

  function CodingOrLengthByte(s: Scan, ch: Octet): Scanned {
    var c := Lower(ch);
    var i := Bump(s.index);
    match s.h
    case General => More(s)
    case Connection => Wrong(AssertionFailed)
    case TransferEncoding => Wrong(AssertionFailed)
    case ContentLength => if ch == ' ' then More(s) else LengthByte(s.(h := ContentLengthNum), ch)
    case ContentLengthNum => LengthByte(s, ch)
    case ContentLengthWs => if ch == ' ' then More(s) else Wrong(InvalidContentLength)
    case MatchingTeTokenStart =>
      if c == 'c' then More(s.(h := MatchingTeChunked))
      else if IsToken(c) then More(s.(h := MatchingTeToken))
      else if c == ' ' || c == '\t' then More(s)
      else More(s.(h := General))
    case MatchingTeChunked =>
      More(s.(index := i, h := MatchWord(CHUNKED, i, c, s.h, TeChunked, MatchingTeToken)))
    case MatchingTeToken =>
      More(if ch == ',' then s.(h := MatchingTeTokenStart, index := 0) else s)
    case TeChunked => More(if ch != ' ' then s.(h := MatchingTeToken) else s)
    case _ => More(s.(h := General))
  }

  function LengthByte(s: Scan, ch: Octet): Scanned {
    if ch == ' ' then More(s.(h := ContentLengthWs))
    else if !IsNum(ch) then Wrong(InvalidContentLength)
    else if (ULLONG_MAX - 10) / 10 < s.length then Wrong(InvalidContentLength)
    else More(s.(length := s.length * 10 + Digit(ch)))
  }

  function OnHeaderValue(cfg: Config, p: Parser, ch: Octet): Move {
    match p.state
    case HeaderValueDiscardWs =>
      if ch == ' ' || ch == '\t' then Stay(p)
      else if ch == CR then Go(p, HeaderValueDiscardWsAlmostDone)
      else if ch == LF then Go(p, HeaderValueDiscardLws)
      else OnValueStart(p, ch)
    case HeaderValueStart => OnValueStart(p, ch)
    case HeaderValue =>
      if ch == CR then GoWith(p, HeaderAlmostDone, One(Flush(ValueSpan)))
      else if ch == LF then Redo(p, HeaderAlmostDone, One(Flush(ValueSpan)))
      else if !cfg.lenient && !IsHeaderChar(ch) then Err(p, InvalidHeaderToken)
      else ValueByte(p, ch)
    case HeaderAlmostDone => Expect(p, ch == LF, HeaderValueLws, LfExpected)
    case HeaderValueLws =>
      if ch == ' ' || ch == '\t' then
        Redo(p.(hstate := if p.hstate.ContentLengthNum? then ContentLengthWs else p.hstate), HeaderValueStart, Quiet)
      else Redo(p.(flags := Recognised(p.flags, p.hstate)), HeaderFieldStart, Quiet)
    case HeaderValueDiscardWsAlmostDone => Expect(p, ch == LF, HeaderValueDiscardLws, Strict)
    case _ =>
      if ch == ' ' || ch == '\t' then Go(p, HeaderValueDiscardWs)
      else if p.hstate.ContentLength? then Err(p, InvalidContentLength)
      else Redo(p.(flags := Recognised(p.flags, p.hstate)), HeaderFieldStart, Two(Mark(ValueSpan), Flush(ValueSpan)))
  }

  // ----- end of the headers, bodies and chunks -----

  function OnHeadersEnd(cfg: Config, p: Parser, ch: Octet): Move {
    if ch != LF then Err(p, Strict)
    else if p.state.HeadersAlmostDone? then
      if p.flags.trailing then Redo(p, MessageDone, One(Notify(ChunkComplete)))
      else if p.usesTe && p.flags.contentLength &&
              (if p.flags.chunked then !cfg.allowChunkedLength else !cfg.lenient) then Err(p, UnexpectedContentLength)
      else
        var q := p.(state := HeadersDone,
                    upgrade := if p.flags.upgrade && p.flags.connUpgrade then p.ptype.Request? || p.status == 101
                               else p.verb.CONNECT?);
        var a := cfg.answer(HeadOf(q));
        Move(q.(upgrade := q.upgrade || a.SkipBodyAndUpgrade?,
                flags := if a.Proceed? then q.flags else q.flags.(skipBody := true)),
             One(Notify(HeadersComplete(HeadOf(q)))), Again)
    else
      var q := p.(nread := 0);
      var hasBody := q.flags.chunked || (q.contentLength > 0 && q.contentLength != ULLONG_MAX);
      var done := One(Notify(MessageComplete));
      if q.upgrade && (q.verb.CONNECT? || q.flags.skipBody || !hasBody) then
        Move(q.(state := NewMessage(q)), done, Exit)
      else if q.flags.skipBody then GoWith(q, NewMessage(q), done)
      else if q.flags.chunked then Go(q, ChunkSizeStart)
      else if q.usesTe then
        if q.ptype.Request? && !cfg.lenient then Err(q, InvalidTransferEncoding) else Go(q, BodyIdentityEof)
      else if q.contentLength == 0 then GoWith(q, NewMessage(q), done)
      else if q.contentLength != ULLONG_MAX then Go(q, BodyIdentity)
      else if !NeedsEof(q) then GoWith(q, NewMessage(q), done)
      else Go(q, BodyIdentityEof)
  }

  function OnBody(p: Parser, ch: Octet): Move {
    match p.state
    case BodyIdentity =>
      if p.contentLength == 0 || p.contentLength == ULLONG_MAX then Err(p, AssertionFailed)
      else
        var q := p.(contentLength := p.contentLength - 1);
        if q.contentLength == 0 then Redo(q, MessageDone, Two(Mark(BodySpan), FlushIncl(BodySpan)))
        else Move(q, One(Mark(BodySpan)), Next)
    case BodyIdentityEof => Move(p, One(Mark(BodySpan)), Next)
    case _ => Move(p.(state := NewMessage(p)), One(Notify(MessageComplete)), if p.upgrade then Exit else Next)
  }

  function OnChunkSize(p: Parser, ch: Octet): Move {
    if !p.flags.chunked then Err(p, AssertionFailed)
    else match p.state
      case ChunkSizeStart =>
        if p.nread != 1 then Err(p, AssertionFailed)
        else if Unhex(ch) == -1 then Err(p, InvalidChunkSize)
        else Go(p.(contentLength := Unhex(ch)), ChunkSize)
      case ChunkSize =>
        if ch == CR then Go(p, ChunkSizeAlmostDone)
        else if Unhex(ch) == -1 then
          if ch == ';' || ch == ' ' then Go(p, ChunkParameters) else Err(p, InvalidChunkSize)
        else if (ULLONG_MAX - 16) / 16 < p.contentLength then Err(p, InvalidContentLength)
        else Stay(p.(contentLength := p.contentLength * 16 + Unhex(ch)))
      case ChunkParameters => if ch == CR then Go(p, ChunkSizeAlmostDone) else Stay(p)
      case _ =>
        if ch != LF then Err(p, Strict)
        else
          var q := p.(nread := 0);
          var note := One(Notify(ChunkHeader(q.contentLength)));
          if q.contentLength == 0 then GoWith(q.(flags := q.flags.(trailing := true)), HeaderFieldStart, note)
          else GoWith(q, ChunkData, note)
  }

  function OnChunkData(p: Parser, ch: Octet): Move {
    if !p.flags.chunked then Err(p, AssertionFailed)
    else match p.state
      case ChunkData =>
        if p.contentLength == 0 || p.contentLength == ULLONG_MAX then Err(p, AssertionFailed)
        else
          var q := p.(contentLength := p.contentLength - 1);
          GoWith(q, if q.contentLength == 0 then ChunkDataAlmostDone else ChunkData, One(Mark(BodySpan)))
      case ChunkDataAlmostDone =>
        if p.contentLength != 0 then Err(p, AssertionFailed)
        else if ch != CR then Err(p, Strict)
        else GoWith(p, ChunkDataDone, One(Flush(BodySpan)))
      case _ =>
        if ch != LF then Err(p, Strict) else GoWith(p.(nread := 0), ChunkSizeStart, One(Notify(ChunkComplete)))
  }

  // ----- dispatch -----

  datatype Group = StartG | ResVersionG | StatusLineG | MethodG | UrlG | VersionG | LineEndG
                 | FieldG | ValueG | HeadersEndG | BodyG | ChunkSizeG | ChunkDataG

  function GroupOf(s: State): Group {
    match s
    case Dead => StartG case StartReqOrRes => StartG case ResOrRespH => StartG case StartRes => StartG
    case StartReq => StartG
    case ResH => ResVersionG case ResHT => ResVersionG case ResHTT => ResVersionG case ResHTTP => ResVersionG
    case ResHttpMajor => ResVersionG case ResHttpDot => ResVersionG case ResHttpMinor => ResVersionG
    case ResHttpEnd => ResVersionG case ResFirstStatusCode => StatusLineG case ResStatusCode => StatusLineG
    case ResStatusStart => StatusLineG case ResStatus => StatusLineG case ResLineAlmostDone => StatusLineG
    case ReqMethod => MethodG
    case ReqSpacesBeforeUrl => UrlG
    case ReqSchema => UrlG case ReqSchemaSlash => UrlG case ReqSchemaSlashSlash => UrlG case ReqServerStart => UrlG
    case ReqServer => UrlG case ReqServerWithAt => UrlG case ReqPath => UrlG case ReqQueryStringStart => UrlG
    case ReqQueryString => UrlG case ReqFragmentStart => UrlG case ReqFragment => UrlG
    case ReqHttpStart => VersionG case ReqHttpH => VersionG case ReqHttpHT => VersionG case ReqHttpHTT => VersionG
    case ReqHttpHTTP => VersionG case ReqHttpI => VersionG case ReqHttpIC => VersionG case ReqHttpMajor => LineEndG
    case ReqHttpDot => LineEndG case ReqHttpMinor => LineEndG case ReqHttpEnd => LineEndG
    case ReqLineAlmostDone => LineEndG
    case HeaderFieldStart => FieldG case HeaderField => FieldG
    case HeaderValueDiscardWs => ValueG case HeaderValueDiscardWsAlmostDone => ValueG
    case HeaderValueDiscardLws => ValueG case HeaderValueStart => ValueG case HeaderValue => ValueG
    case HeaderValueLws => ValueG case HeaderAlmostDone => ValueG
    case HeadersAlmostDone => HeadersEndG case HeadersDone => HeadersEndG
    case BodyIdentity => BodyG case BodyIdentityEof => BodyG case MessageDone => BodyG
    case ChunkSizeStart => ChunkSizeG case ChunkSize => ChunkSizeG case ChunkParameters => ChunkSizeG
    case ChunkSizeAlmostDone => ChunkSizeG case ChunkData => ChunkDataG case ChunkDataAlmostDone => ChunkDataG
    case ChunkDataDone => ChunkDataG
  }

  function Transition(cfg: Config, p: Parser, ch: Octet): (m: Move)
  {
    match GroupOf(p.state)
    case StartG => OnStart(p, ch)
    case ResVersionG => OnResponseVersion(p, ch)
    case StatusLineG => OnStatusLine(p, ch)
    case MethodG => OnMethod(p, ch)
    case UrlG => OnUrl(p, ch)
    case VersionG => OnRequestVersion(p, ch)
    case LineEndG => OnRequestLineEnd(p, ch)
    case FieldG => OnHeaderField(p, ch)
    case ValueG => OnHeaderValue(cfg, p, ch)
    case HeadersEndG => OnHeadersEnd(cfg, p, ch)
    case BodyG => OnBody(p, ch)
    case ChunkSizeG => OnChunkSize(p, ch)
    case ChunkDataG => OnChunkData(p, ch)
  }

  // ----- termination of re-execution -----

  /** Every `REEXECUTE` moves to a state of smaller rank. */
  function Rank(s: State): nat {
    match s
    case StartReqOrRes => 1
    case ResStatusCode => 2
    case ResStatusStart => 1
    case HeaderValue => 1
    case HeaderValueLws => 4
    case HeaderValueDiscardLws => 4
    case HeaderFieldStart => 3
    case HeadersAlmostDone => 2
    case HeadersDone => 1
    case BodyIdentity => 1
    case _ => 0
  }

  // ----- the marks -----

  /** The span whose mark `http_parser_execute` sets on entry, by state. */
  function OpenSpan(s: State): set<Kind> {
    if GateOf(s).Open? then {GateOf(s).k} else {}
  }

  /**
   What is known of the marks at the start of a pass. `Shut`: none is set. `Open(k)`: exactly the mark of `k` is set.
   `Lag`: the body mark may be left over from an earlier byte of the same buffer.
   */
  datatype Gate = Shut | Lag | Open(k: Kind)

  function GateOf(s: State): Gate {
    if s.HeaderField? then Open(FieldSpan)
    else if s.HeaderValue? then Open(ValueSpan)
    else if s.ResStatus? then Open(StatusSpan)
    else if InUrl(s) then Open(UrlSpan)
    else if s.BodyIdentity? || s.BodyIdentityEof? || s.ChunkData? || s.ChunkDataAlmostDone? then Lag
    else Shut
  }

  /** Is `a` performed in good order when the marks are as `g` says? */
  predicate Orderly(g: Gate, a: Act) {
    match a
    case Mark(k) => g.Shut? || (g.Lag? && k.BodySpan?) || g == Open(k)
    case Flush(k) => g.Shut? || (g.Lag? && k.BodySpan?) || g == Open(k)
    case FlushIncl(k) => g == Open(k)
    case Notify(_) => g.Shut?
  }

  function After(g: Gate, a: Act): Gate {
    match a
    case Mark(k) => Open(k)
    case Notify(_) => g
    case _ => Shut
  }

  predicate AllOrderly(g: Gate, acts: Acts) {
    match acts
    case Quiet => true
    case One(a) => Orderly(g, a)
    case Two(a, b) => Orderly(g, a) && Orderly(After(g, a), b)
  }

  function AfterAll(g: Gate, acts: Acts): Gate {
    match acts
    case Quiet => g
    case One(a) => After(g, a)
    case Two(a, b) => After(After(g, a), b)
  }

  /** Where a pass may leave the marks, by the way it ends. */
  predicate Settles(g: Gate, m: Move) {
    var h := GateOf(m.p.state);
    match m.ctl
    case Next => (g == h && !g.Lag?) || (h == Lag && (g == Open(BodySpan) || g == Shut))
    case Again => g == h
    case Exit => g == Shut && h == Shut
    case Stop(_) => true
  }

  /**
   A well-behaved pass: re-execution goes down in rank, at most one mark is ever set, spans are flushed before
   anything else is reported, no byte of a span is lost, the count of header bytes is kept or reset, and an error comes
   before anything is done.
   */
  predicate Sound(p: Parser, m: Move) {
    m.p.nread <= p.nread && (m.ctl.Again? ==> Rank(m.p.state) < Rank(p.state)) && (m.ctl.Stop? ==> m.acts == Quiet) &&
    (!m.ctl.Stop? ==> AllOrderly(GateOf(p.state), m.acts) && Settles(AfterAll(GateOf(p.state), m.acts), m))
  }

  lemma StartSound(p: Parser, ch: Octet)
    requires GroupOf(p.state).StartG?
    ensures Sound(p, OnStart(p, ch))
  {
  }

  lemma ResVersionSound(p: Parser, ch: Octet)
    requires GroupOf(p.state).ResVersionG?
    ensures Sound(p, OnResponseVersion(p, ch))
  {
  }

  lemma StatusLineSound(p: Parser, ch: Octet)
    requires GroupOf(p.state).StatusLineG?
    ensures Sound(p, OnStatusLine(p, ch))
  {
  }

  lemma MethodSound(p: Parser, ch: Octet)
    requires GroupOf(p.state).MethodG?
    ensures Sound(p, OnMethod(p, ch))
  {
  }

  lemma UrlSound(p: Parser, ch: Octet)
    requires GroupOf(p.state).UrlG?
    ensures Sound(p, OnUrl(p, ch))
  {
    hide ParseUrlChar;
  }

  lemma VersionSound(p: Parser, ch: Octet)
    requires GroupOf(p.state).VersionG?
    ensures Sound(p, OnRequestVersion(p, ch))
  {
  }

  lemma LineEndSound(p: Parser, ch: Octet)
    requires GroupOf(p.state).LineEndG?
    ensures Sound(p, OnRequestLineEnd(p, ch))
  {
  }

  lemma FieldSound(p: Parser, ch: Octet)
    requires GroupOf(p.state).FieldG?
    ensures Sound(p, OnHeaderField(p, ch))
  {
  }

  lemma ValueStartSound(p: Parser, ch: Octet)
    requires GateOf(p.state).Shut?
    ensures Sound(p, OnValueStart(p, ch))
  {
  }

  lemma InValueSound(cfg: Config, p: Parser, ch: Octet)
    requires p.state.HeaderValue?
    ensures Sound(p, OnHeaderValue(cfg, p, ch))
  {
    if ch != CR && ch != LF && (cfg.lenient || IsHeaderChar(ch)) {
      hide ScanByte;
      assert ValueByte(p, ch).acts == Quiet;
    }
  }

  lemma LineSound(cfg: Config, p: Parser, ch: Octet)
    requires GroupOf(p.state).ValueG? && !p.state.HeaderValue? && !p.state.HeaderValueDiscardWs? &&
             !p.state.HeaderValueStart?
    ensures Sound(p, OnHeaderValue(cfg, p, ch))
  {
    hide ValueByte, OnValueStart, Recognised;
  }

  lemma BeginValueSound(cfg: Config, p: Parser, ch: Octet)
    requires p.state.HeaderValueDiscardWs? || p.state.HeaderValueStart?
    ensures Sound(p, OnHeaderValue(cfg, p, ch))
  {
    hide ValueByte, OnValueStart;
    ValueStartSound(p, ch);
  }

  lemma ValueSound(cfg: Config, p: Parser, ch: Octet)
    requires GroupOf(p.state).ValueG?
    ensures Sound(p, OnHeaderValue(cfg, p, ch))
  {
    hide OnHeaderValue, Sound;
    if p.state.HeaderValue? {
      InValueSound(cfg, p, ch);
    } else if p.state.HeaderValueDiscardWs? || p.state.HeaderValueStart? {
      BeginValueSound(cfg, p, ch);
    } else {
      LineSound(cfg, p, ch);
    }
  }

  lemma HeadersEndSound(cfg: Config, p: Parser, ch: Octet)
    requires GroupOf(p.state).HeadersEndG?
    ensures Sound(p, OnHeadersEnd(cfg, p, ch))
  {
    hide OnHeadersEnd, Sound;
    if p.state.HeadersDone? {
      HeadersDoneSound(cfg, p, ch);
    } else {
      HeadersAlmostDoneSound(cfg, p, ch);
    }
  }

  lemma HeadersAlmostDoneSound(cfg: Config, p: Parser, ch: Octet)
    requires p.state.HeadersAlmostDone?
    ensures Sound(p, OnHeadersEnd(cfg, p, ch))
  {
  }

  lemma HeadersDoneSound(cfg: Config, p: Parser, ch: Octet)
    requires p.state.HeadersDone?
    ensures Sound(p, OnHeadersEnd(cfg, p, ch))
  {
    hide ShouldKeepAlive;
  }

  lemma BodySound(p: Parser, ch: Octet)
    requires GroupOf(p.state).BodyG?
    ensures Sound(p, OnBody(p, ch))
  {
  }

  lemma ChunkSizeSound(p: Parser, ch: Octet)
    requires GroupOf(p.state).ChunkSizeG?
    ensures Sound(p, OnChunkSize(p, ch))
  {
  }

  lemma ChunkDataSound(p: Parser, ch: Octet)
    requires GroupOf(p.state).ChunkDataG?
    ensures Sound(p, OnChunkData(p, ch))
  {
  }

  /** Every pass of the switch is well behaved. */
  lemma TransitionSound(cfg: Config, p: Parser, ch: Octet)
    ensures Sound(p, Transition(cfg, p, ch))
  {
    hide OnStart, OnResponseVersion, OnStatusLine, OnMethod, OnUrl, OnRequestVersion, OnRequestLineEnd, OnHeaderField,
         OnHeaderValue, OnHeadersEnd, OnBody, OnChunkSize, OnChunkData;
    match GroupOf(p.state)
    case StartG => StartSound(p, ch);
    case ResVersionG => ResVersionSound(p, ch);
    case StatusLineG => StatusLineSound(p, ch);
    case MethodG => MethodSound(p, ch);
    case UrlG => UrlSound(p, ch);
    case VersionG => VersionSound(p, ch);
    case LineEndG => LineEndSound(p, ch);
    case FieldG => FieldSound(p, ch);
    case ValueG => ValueSound(cfg, p, ch);
    case HeadersEndG => HeadersEndSound(cfg, p, ch);
    case BodyG => BodySound(p, ch);
    case ChunkSizeG => ChunkSizeSound(p, ch);
    case ChunkDataG => ChunkDataSound(p, ch);
  }
}
