/** The vocabulary of http_parser.c: states, methods, error codes, character classes. */
module HttpTypes {

  const ULLONG_MAX: nat := 0xFFFF_FFFF_FFFF_FFFF
  const TWO64: nat := 0x1_0000_0000_0000_0000
  const MAX_HEADER_SIZE: nat := 81920

  /** The unit of input: one byte, written as the character it stands for. */
  type Byte = c: char | c as int < 256

  const CR: Byte := '\r'
  const LF: Byte := '\n'

  datatype State =
    | Dead
    | StartReqOrRes | ResOrRespH | StartRes
    | ResH | ResHT | ResHTT | ResHTTP
    | ResFirstHttpMajor | ResHttpMajor | ResFirstHttpMinor | ResHttpMinor
    | ResFirstStatusCode | ResStatusCode | ResStatus | ResLineAlmostDone
    | StartReq | ReqMethod | ReqSpacesBeforeUrl
    | ReqSchema | ReqSchemaSlash | ReqSchemaSlashSlash
    | ReqServerStart | ReqServer | ReqServerWithAt
    | ReqPath | ReqQueryStringStart | ReqQueryString | ReqFragmentStart | ReqFragment
    | ReqHttpStart | ReqHttpH | ReqHttpHT | ReqHttpHTT | ReqHttpHTTP
    | ReqFirstHttpMajor | ReqHttpMajor | ReqFirstHttpMinor | ReqHttpMinor | ReqLineAlmostDone
    | HeaderFieldStart | HeaderField | HeaderValueStart | HeaderValue | HeaderValueLws | HeaderAlmostDone
    | ChunkSizeStart | ChunkSize | ChunkParameters | ChunkSizeAlmostDone
    | HeadersAlmostDone | HeadersDone
    | ChunkData | ChunkDataAlmostDone | ChunkDataDone
    | BodyIdentity | BodyIdentityEof | MessageDone

  /** The states whose bytes count towards the header limit: all up to the last header state. */
  predicate ParsingHeader(s: State) {
    !(s.ChunkData? || s.ChunkDataAlmostDone? || s.ChunkDataDone? ||
      s.BodyIdentity? || s.BodyIdentityEof? || s.MessageDone?)
  }

  datatype HeaderState =
    | General | HC | HCO | HCON
    | MatchingConnection | MatchingProxyConnection | MatchingContentLength
    | MatchingTransferEncoding | MatchingUpgrade
    | Connection | ContentLength | TransferEncoding | Upgrade
    | MatchingChunked | MatchingKeepAlive | MatchingClose
    | Chunked | KeepAlive | Close

  datatype Method =
    | DELETE | GET | HEAD | POST | PUT | CONNECT | OPTIONS | TRACE
    | COPY | LOCK | MKCOL | MOVE | PROPFIND | PROPPATCH | SEARCH | UNLOCK
    | REPORT | MKACTIVITY | CHECKOUT | MERGE | MSEARCH | NOTIFY
    | SUBSCRIBE | UNSUBSCRIBE | PATCH | PURGE

  function MethodName(m: Method): string {
    match m
    case DELETE => "DELETE"
    case GET => "GET"
    case HEAD => "HEAD"
    case POST => "POST"
    case PUT => "PUT"
    case CONNECT => "CONNECT"
    case OPTIONS => "OPTIONS"
    case TRACE => "TRACE"
    case COPY => "COPY"
    case LOCK => "LOCK"
    case MKCOL => "MKCOL"
    case MOVE => "MOVE"
    case PROPFIND => "PROPFIND"
    case PROPPATCH => "PROPPATCH"
    case SEARCH => "SEARCH"
    case UNLOCK => "UNLOCK"
    case REPORT => "REPORT"
    case MKACTIVITY => "MKACTIVITY"
    case CHECKOUT => "CHECKOUT"
    case MERGE => "MERGE"
    case MSEARCH => "M-SEARCH"
    case NOTIFY => "NOTIFY"
    case SUBSCRIBE => "SUBSCRIBE"
    case UNSUBSCRIBE => "UNSUBSCRIBE"
    case PATCH => "PATCH"
    case PURGE => "PURGE"
  }

  function NameLength(m: Method): nat {
    match m
    case GET | PUT => 3
    case HEAD | POST | COPY | LOCK | MOVE => 4
    case TRACE | MKCOL | MERGE | PATCH | PURGE => 5
    case DELETE | SEARCH | UNLOCK | REPORT | NOTIFY => 6
    case CONNECT | OPTIONS => 7
    case PROPFIND | CHECKOUT | MSEARCH => 8
    case PROPPATCH | SUBSCRIBE => 9
    case MKACTIVITY => 10
    case UNSUBSCRIBE => 11
  }

  datatype ParserType = Request | Response | Both

  datatype Errno =
    | OK | InvalidEofState | HeaderOverflow | ClosedConnection
    | InvalidVersion | InvalidStatus | InvalidMethod | InvalidUrl | LfExpected
    | InvalidHeaderToken | InvalidContentLength | InvalidChunkSize | InvalidConstant | Strict

  datatype Flags = Flags(chunked: bool, keepAlive: bool, close: bool, trailing: bool, upgrade: bool, skipBody: bool)

  const NO_FLAGS := Flags(false, false, false, false, false, false)

  // ---------- character classes ----------

  /** The byte with bit 0x20 set. */
  function Lower(c: Byte): Byte {
    if (c as int / 32) % 2 == 1 then c else (c as int + 32) as char
  }

  predicate IsAlpha(c: Byte) { 'a' <= Lower(c) <= 'z' }

  predicate IsNum(c: Byte) { '0' <= c <= '9' }

  predicate IsAlphaNum(c: Byte) { IsAlpha(c) || IsNum(c) }

  predicate IsHex(c: Byte) { IsNum(c) || 'a' <= Lower(c) <= 'f' }

  function Digit(c: Byte): nat
    requires IsNum(c)
  {
    c as int - '0' as int
  }

  /** The number that digits stand for. */
  function Number(base: nat, digits: seq<nat>): nat {
    if digits == [] then 0 else Number(base, digits[..|digits| - 1]) * base + digits[|digits| - 1]
  }

  predicate AllDigits(ds: seq<Byte>) { forall i | 0 <= i < |ds| :: IsNum(ds[i]) }

  function Decimals(ds: seq<Byte>): (r: seq<nat>)
    requires AllDigits(ds)
    ensures |r| == |ds| && forall i | 0 <= i < |r| :: r[i] == Digit(ds[i])
  {
    seq(|ds|, i requires 0 <= i < |ds| => Digit(ds[i]))
  }

  /** The value of a hexadecimal digit, -1 for any other byte. */
  function Unhex(c: Byte): (v: int)
    ensures -1 <= v < 16
  {
    if IsNum(c) then c as int - '0' as int
    else if 'a' <= c <= 'f' then c as int - 'a' as int + 10
    else if 'A' <= c <= 'F' then c as int - 'A' as int + 10
    else -1
  }

  predicate IsMark(c: Byte) {
    c == '-' || c == '_' || c == '.' || c == '!' || c == '~' || c == '*' || c == '\'' || c == '(' || c == ')'
  }

  predicate IsUserInfoChar(c: Byte) {
    IsAlphaNum(c) || IsMark(c) || c == '%' || c == ';' || c == ':' || c == '&' || c == '=' || c == '+' || c == '$'
      || c == ','
  }

  predicate IsHostChar(c: Byte) { IsAlphaNum(c) || c == '.' || c == '-' }

  predicate IsUrlChar(c: Byte) { '!' <= c <= '~' && c != '#' && c != '?' }

  /** The token table: the lower-cased token character, or NUL. */
  function Token(c: Byte): Byte {
    if 'A' <= c <= 'Z' then (c as int + 32) as char
    else if 'a' <= c <= 'z' || '0' <= c <= '9' then c
    else if c in "!#$%&'*+-.^_`|~" then c
    else '\0'
  }

  /** Tokens of RFC 2616 section 2.2: any CHAR except CTLs or separators. */
  predicate IsToken(c: Byte) {
    c as int < 128 && !IsCtl(c) && !IsSeparator(c)
  }

  predicate IsCtl(c: Byte) { c as int < 32 || c as int == 127 }

  predicate IsSeparator(c: Byte) { c in "()<>@,;:\\\"/[]?={} \t" }

  lemma TokenTable(c: Byte)
    ensures Token(c) != '\0' <==> IsToken(c)
    ensures Token(c) != '\0' ==> Token(c) == (if 'A' <= c <= 'Z' then Lower(c) else c)
  {
    var o := "!#$%&'*+-.^_`|~";
    var s := "()<>@,;:\\\"/[]?={} \t";
    var i := c as int;
    assert c in o <==> (i in {33, 35, 36, 37, 38, 39, 42, 43, 45, 46, 94, 95, 96, 124, 126});
    assert c in s <==> (i in {40, 41, 60, 62, 64, 44, 59, 58, 92, 34, 47, 91, 93, 63, 61, 123, 125, 32, 9});
  }
}
