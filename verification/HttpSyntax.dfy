/**
 Characters, states and records of the incremental HTTP parser
 (shadowsocksr-native/depends/http-parser/http_parser.c), strict build.
 */
module HttpSyntax {

  /** One input byte. */
  type Octet = c: char | c as int < 256 witness 'a'

  const CR: Octet := '\r'
  const LF: Octet := '\n'

  /** 2^64 - 1, the "no Content-Length seen" sentinel. */
  const ULLONG_MAX: nat := 0xFFFF_FFFF_FFFF_FFFF

  const UINT32: nat := 0x1_0000_0000

  type Uint64 = x: int | 0 <= x <= ULLONG_MAX

  /** `c | 0x20`. */
  function Lower(c: Octet): (r: Octet)
  {
    if (c as int / 32) % 2 == 1 then c else (c as int + 32) as char
  }

  predicate IsAlpha(c: Octet) { 'a' <= Lower(c) <= 'z' }

  predicate IsNum(c: Octet) { '0' <= c <= '9' }

  predicate IsAlphaNum(c: Octet) { IsAlpha(c) || IsNum(c) }

  function Digit(c: Octet): (d: nat)
    requires IsNum(c)
    ensures d < 10
  {
    c as int - '0' as int
  }

  predicate IsHex(c: Octet) { IsNum(c) || 'a' <= Lower(c) <= 'f' }

  /** The `unhex` table; -1 for a byte that is no hexadecimal digit. */
  function Unhex(c: Octet): (v: int)
    ensures -1 <= v < 16
  {
    if '0' <= c <= '9' then c as int - '0' as int
    else if 'A' <= c <= 'F' then c as int - 'A' as int + 10
    else if 'a' <= c <= 'f' then c as int - 'a' as int + 10
    else -1
  }

  predicate IsMark(c: Octet) {
    c == '-' || c == '_' || c == '.' || c == '!' || c == '~' || c == '*' || c == '\'' || c == '(' || c == ')'
  }

  predicate IsUserinfoChar(c: Octet) {
    IsAlphaNum(c) || IsMark(c) || c == '%' || c == ';' || c == ':' || c == '&' || c == '=' || c == '+' ||
    c == '$' || c == ','
  }

  /** The `normal_url_char` bitmap of the strict build. */
  predicate IsUrlChar(c: Octet) { '!' <= c <= '~' && c != '#' && c != '?' }

  predicate IsHostChar(c: Octet) { IsAlphaNum(c) || c == '.' || c == '-' }

  /** Visible characters, tab, CR, LF and everything from 0x80 up. */
  predicate IsHeaderChar(c: Octet) { c == CR || c == LF || c == '\t' || (c as int > 31 && c as int != 127) }

  /** The `tokens` table of the strict build: is `c` a token character? */
  predicate IsToken(c: Octet) {
    IsAlphaNum(c) || c == '!' || c == '#' || c == '$' || c == '%' || c == '&' || c == '\'' || c == '*' ||
    c == '+' || c == '-' || c == '.' || c == '^' || c == '_' || c == '`' || c == '|' || c == '~'
  }

  /** The value the `tokens` table holds for a token character: letters in lower case, others as they are. */
  function Token(c: Octet): (r: Octet)
    requires IsToken(c)
  {
    if 'A' <= c <= 'Z' then Lower(c) else c
  }

  /** Parser states, in the order of `enum state`. */
  datatype State =
    | Dead
    | StartReqOrRes | ResOrRespH
    | StartRes | ResH | ResHT | ResHTT | ResHTTP | ResHttpMajor | ResHttpDot | ResHttpMinor | ResHttpEnd
    | ResFirstStatusCode | ResStatusCode | ResStatusStart | ResStatus | ResLineAlmostDone
    | StartReq | ReqMethod | ReqSpacesBeforeUrl
    | ReqSchema | ReqSchemaSlash | ReqSchemaSlashSlash | ReqServerStart | ReqServer | ReqServerWithAt
    | ReqPath | ReqQueryStringStart | ReqQueryString | ReqFragmentStart | ReqFragment
    | ReqHttpStart | ReqHttpH | ReqHttpHT | ReqHttpHTT | ReqHttpHTTP | ReqHttpI | ReqHttpIC
    | ReqHttpMajor | ReqHttpDot | ReqHttpMinor | ReqHttpEnd | ReqLineAlmostDone
    | HeaderFieldStart | HeaderField
    | HeaderValueDiscardWs | HeaderValueDiscardWsAlmostDone | HeaderValueDiscardLws
    | HeaderValueStart | HeaderValue | HeaderValueLws | HeaderAlmostDone
    | ChunkSizeStart | ChunkSize | ChunkParameters | ChunkSizeAlmostDone
    | HeadersAlmostDone | HeadersDone
    | ChunkData | ChunkDataAlmostDone | ChunkDataDone
    | BodyIdentity | BodyIdentityEof
    | MessageDone

  /** `PARSING_HEADER`: everything up to `s_headers_done`. */
  predicate ParsingHeader(s: State) {
    !s.ChunkData? && !s.ChunkDataAlmostDone? && !s.ChunkDataDone? && !s.BodyIdentity? && !s.BodyIdentityEof? &&
    !s.MessageDone?
  }

  /** `enum header_states`. */
  datatype HState =
    | General | C | CO | CON
    | MatchingConnection | MatchingProxyConnection | MatchingContentLength | MatchingTransferEncoding
    | MatchingUpgrade
    | Connection | ContentLength | ContentLengthNum | ContentLengthWs | TransferEncoding | Upgrade
    | MatchingTeTokenStart | MatchingTeChunked | MatchingTeToken
    | MatchingConnTokenStart | MatchingConnKeepAlive | MatchingConnClose | MatchingConnUpgrade | MatchingConnToken
    | TeChunked | ConnKeepAlive | ConnClose | ConnUpgrade

  datatype Method =
    | DELETE | GET | HEAD | POST | PUT | CONNECT | OPTIONS | TRACE | COPY | LOCK | MKCOL | MOVE | PROPFIND
    | PROPPATCH | SEARCH | UNLOCK | BIND | REBIND | UNBIND | ACL | REPORT | MKACTIVITY | CHECKOUT | MERGE
    | MSEARCH | NOTIFY | SUBSCRIBE | UNSUBSCRIBE | PATCH | PURGE | MKCALENDAR | LINK | UNLINK | SOURCE

  function MethodString(m: Method): (s: string)
  {
    match m
    case DELETE => "DELETE" case GET => "GET" case HEAD => "HEAD" case POST => "POST" case PUT => "PUT"
    case CONNECT => "CONNECT" case OPTIONS => "OPTIONS" case TRACE => "TRACE" case COPY => "COPY"
    case LOCK => "LOCK" case MKCOL => "MKCOL" case MOVE => "MOVE" case PROPFIND => "PROPFIND"
    case PROPPATCH => "PROPPATCH" case SEARCH => "SEARCH" case UNLOCK => "UNLOCK" case BIND => "BIND"
    case REBIND => "REBIND" case UNBIND => "UNBIND" case ACL => "ACL" case REPORT => "REPORT"
    case MKACTIVITY => "MKACTIVITY" case CHECKOUT => "CHECKOUT" case MERGE => "MERGE" case MSEARCH => "M-SEARCH"
    case NOTIFY => "NOTIFY" case SUBSCRIBE => "SUBSCRIBE" case UNSUBSCRIBE => "UNSUBSCRIBE" case PATCH => "PATCH"
    case PURGE => "PURGE" case MKCALENDAR => "MKCALENDAR" case LINK => "LINK" case UNLINK => "UNLINK"
    case SOURCE => "SOURCE"
  }

  datatype ParserType = Request | Response | Both

  /** The `flags` bit set. */
  datatype Flags = Flags(chunked: bool, keepAlive: bool, close: bool, connUpgrade: bool, trailing: bool,
                         upgrade: bool, skipBody: bool, contentLength: bool)

  const NO_FLAGS := Flags(false, false, false, false, false, false, false, false)

  /** The fields of `struct http_parser`, without its error number. */
  datatype Parser = Parser(ptype: ParserType, flags: Flags, state: State, hstate: HState, index: nat, usesTe: bool,
                           nread: nat, contentLength: Uint64, major: nat, minor: nat, status: nat, verb: Method,
                           upgrade: bool)

  /** What an application can read in `on_headers_complete`. */
  datatype Head = Head(ptype: ParserType, verb: Method, status: nat, major: nat, minor: nat, flags: Flags,
                       usesTe: bool, contentLength: Uint64, upgrade: bool)

  function HeadOf(p: Parser): (h: Head)
  {
    Head(p.ptype, p.verb, p.status, p.major, p.minor, p.flags, p.usesTe, p.contentLength, p.upgrade)
  }

  /** The successful results of `on_headers_complete`: 0, 1 and 2. */
  datatype Answer = Proceed | SkipBody | SkipBodyAndUpgrade

  /** The parser's settings; `answer` is the application's `on_headers_complete`. */
  datatype Config = Config(maxHeader: nat, lenient: bool, allowChunkedLength: bool, answer: Head -> Answer)

  datatype Errno =
    | HeaderOverflow | ClosedConnection | InvalidVersion | InvalidStatus | InvalidMethod | InvalidUrl
    | LfExpected | InvalidHeaderToken | InvalidContentLength | UnexpectedContentLength | InvalidChunkSize
    | InvalidConstant | InvalidTransferEncoding | Strict | InvalidEofState
      /** An `assert` of the source that does not hold. */
    | AssertionFailed

  /** The spans that are handed to data callbacks. */
  datatype Kind = FieldSpan | ValueSpan | UrlSpan | BodySpan | StatusSpan

  datatype Notice =
    | MessageBegin
    | HeadersComplete(head: Head)
    | MessageComplete
    | ChunkHeader(size: Uint64)
    | ChunkComplete

  /** One callback as the application sees it. */
  datatype Call = Data(kind: Kind, bytes: seq<Octet>) | Note(notice: Notice)
}
