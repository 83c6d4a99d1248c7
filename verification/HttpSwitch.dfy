/** The switch of `http_parser_execute`, one pass over one byte, as pure case analysis
    (strict mode).  A pass yields the new fields, at most one thing to do with the marks
    or the callbacks, and whether the byte is consumed, looked at again, or refused. */
module HttpSwitch {
  import opened Options
  import opened HttpTypes

  datatype Parser = Parser(
    kind: ParserType,
    flags: Flags,
    state: State,
    headerState: HeaderState,
    index: nat,
    nread: int,
    contentLength: nat,
    major: nat,
    minor: nat,
    statusCode: nat,
    verb: Method,
    errno: Errno,
    upgrade: bool)

  datatype Kind = Url | Field | Value | Body

  datatype Note = MessageBegin | StatusComplete | HeadersComplete | MessageComplete

  /** What a pass does besides changing the fields: set a mark, deliver the data from the
      mark up to the current byte, both, deliver the body up to and with the current byte,
      or run a notification. */
  datatype Act = Quiet | Mark(kind: Kind) | Flush(kind: Kind) | MarkFlush(kind: Kind) | Last | Notify(note: Note)

  datatype Outcome =
    | Next(p: Parser, act: Act)       // byte consumed
    | Again(p: Parser, act: Act)      // goto reexecute_byte
    | Stop(p: Parser, act: Act)       // return with this byte consumed
    | Fail(p: Parser, errno: Errno)   // goto error
    | Crash                           // an assertion of the source fails

  /** What on_headers_complete answers: true to skip the body. */
  type Decision = Parser -> bool

  function Init(kind: ParserType): Parser {
    Parser(kind, NO_FLAGS,
      if kind.Request? then StartReq else if kind.Response? then StartRes else StartReqOrRes,
      General, 0, 0, 0, 0, 0, 0, DELETE, OK, false)
  }

  // ---------- message framing ----------

  predicate NeedsEof(p: Parser) {
    && !p.kind.Request?
    && !(p.statusCode / 100 == 1 || p.statusCode == 204 || p.statusCode == 304 || p.flags.skipBody)
    && !(p.flags.chunked || p.contentLength != ULLONG_MAX)
  }

  predicate ShouldKeepAlive(p: Parser) {
    && (if p.major > 0 && p.minor > 0 then !p.flags.close else p.flags.keepAlive)
    && !NeedsEof(p)
  }

  function NewMessage(p: Parser): State {
    if !ShouldKeepAlive(p) then Dead
    else if p.kind.Request? then StartReq
    else StartRes
  }

  // ---------- the URL automaton ----------

  function UrlChar(s: State, ch: Byte): State {
    if ch == ' ' || ch == CR || ch == LF || ch == '\t' || ch as int == 12 then Dead
    else if s.ReqSpacesBeforeUrl? then
      if ch == '/' || ch == '*' then ReqPath else if IsAlpha(ch) then ReqSchema else Dead
    else if s.ReqSchema? then
      if IsAlpha(ch) then ReqSchema else if ch == ':' then ReqSchemaSlash else Dead
    else if s.ReqSchemaSlash? then
      if ch == '/' then ReqSchemaSlashSlash else Dead
    else if s.ReqSchemaSlashSlash? then
      if ch == '/' then ReqServerStart else Dead
    else if s.ReqServerWithAt? then
      if ch == '@' then Dead else UrlServer(ch)
    else if s.ReqServerStart? || s.ReqServer? then
      UrlServer(ch)
    else if s.ReqPath? then
      if IsUrlChar(ch) then ReqPath
      else if ch == '?' then ReqQueryStringStart
      else if ch == '#' then ReqFragmentStart
      else Dead
    else if s.ReqQueryStringStart? || s.ReqQueryString? then
      UrlQuery(ch)
    else if s.ReqFragmentStart? then
      if IsUrlChar(ch) || ch == '?' then ReqFragment else if ch == '#' then ReqFragmentStart else Dead
    else if s.ReqFragment? then
      if IsUrlChar(ch) || ch == '?' || ch == '#' then ReqFragment else Dead
    else Dead
  }

  function UrlServer(ch: Byte): State {
    if ch == '/' then ReqPath
    else if ch == '?' then ReqQueryStringStart
    else if ch == '@' then ReqServerWithAt
    else if IsUserInfoChar(ch) || ch == '[' || ch == ']' then ReqServer
    else Dead
  }

  function UrlQuery(ch: Byte): State {
    if IsUrlChar(ch) || ch == '?' then ReqQueryString
    else if ch == '#' then ReqFragmentStart
    else Dead
  }

  // ---------- the passes, by group of states ----------

  function Reset(p: Parser): Parser { p.(flags := NO_FLAGS, contentLength := ULLONG_MAX) }

  function StartMessage(p: Parser, ch: Byte): Outcome {
    if p.state.StartReqOrRes? then
      if ch == CR || ch == LF then Next(p, Quiet)
      else if ch == 'H' then Next(Reset(p).(state := ResOrRespH), Notify(MessageBegin))
      else Again(Reset(p).(kind := Request, state := StartReq), Quiet)
    else if p.state.ResOrRespH? then
      if ch == 'T' then Next(p.(kind := Response, state := ResHT), Quiet)
      else if ch != 'E' then Fail(p, InvalidConstant)
      else Next(p.(kind := Request, verb := HEAD, index := 2, state := ReqMethod), Quiet)
    else if p.state.StartRes? then
      if ch == 'H' then Next(Reset(p).(state := ResH), Notify(MessageBegin))
      else if ch == CR || ch == LF then Next(Reset(p), Notify(MessageBegin))
      else Fail(Reset(p), InvalidConstant)
    else // StartReq
      if ch == CR || ch == LF then Next(p, Quiet)
      else if !IsAlpha(ch) then Fail(Reset(p), InvalidMethod)
      else
        var q := Reset(p).(verb := FirstMethod(ch), index := 1);
        if StartsMethod(ch) then Next(q.(state := ReqMethod), Notify(MessageBegin)) else Fail(q, InvalidMethod)
  }

  predicate StartsMethod(ch: Byte) { ch in "CDGHLMNOPRSTU" }

  function FirstMethod(ch: Byte): Method {
    match ch
    case 'C' => CONNECT
    case 'G' => GET
    case 'H' => HEAD
    case 'L' => LOCK
    case 'M' => MKCOL
    case 'N' => NOTIFY
    case 'O' => OPTIONS
    case 'P' => POST
    case 'R' => REPORT
    case 'S' => SUBSCRIBE
    case 'T' => TRACE
    case 'U' => UNLOCK
    case _ => DELETE
  }

  function StatusLine(p: Parser, ch: Byte): Outcome {
    if p.state.ResH? then Expect(p, ch, 'T', ResHT)
    else if p.state.ResHT? then Expect(p, ch, 'T', ResHTT)
    else if p.state.ResHTT? then Expect(p, ch, 'P', ResHTTP)
    else if p.state.ResHTTP? then Expect(p, ch, '/', ResFirstHttpMajor)
    else if p.state.ResFirstHttpMajor? then
      if !IsNum(ch) then Fail(p, InvalidVersion) else Next(p.(major := Digit(ch), state := ResHttpMajor), Quiet)
    else if p.state.ResHttpMajor? then MajorDigit(p, ch, ResFirstHttpMinor)
    else if p.state.ResFirstHttpMinor? then
      if !IsNum(ch) then Fail(p, InvalidVersion) else Next(p.(minor := Digit(ch), state := ResHttpMinor), Quiet)
    else if p.state.ResHttpMinor? then
      if ch == ' ' then Next(p.(state := ResFirstStatusCode), Quiet) else MinorDigit(p, ch)
    else if p.state.ResFirstStatusCode? then
      if IsNum(ch) then Next(p.(statusCode := Digit(ch), state := ResStatusCode), Quiet)
      else if ch == ' ' then Next(p, Quiet)
      else Fail(p, InvalidStatus)
    else if p.state.ResStatusCode? then
      if ch == ' ' then Next(p.(state := ResStatus), Quiet)
      else if ch == CR then Next(p.(state := ResLineAlmostDone), Quiet)
      else if ch == LF then Next(p.(state := HeaderFieldStart), Quiet)
      else if !IsNum(ch) then Fail(p, InvalidStatus)
      else
        var q := p.(statusCode := p.statusCode * 10 + Digit(ch));
        if q.statusCode > 999 then Fail(q, InvalidStatus) else Next(q, Quiet)
    else if p.state.ResStatus? then
      if ch == CR then Next(p.(state := ResLineAlmostDone), Quiet)
      else if ch == LF then Next(p.(state := HeaderFieldStart), Quiet)
      else Next(p, Quiet)
    else // ResLineAlmostDone
      if ch != LF then Fail(p, Strict) else Next(p.(state := HeaderFieldStart), Notify(StatusComplete))
  }

  function Expect(p: Parser, ch: Byte, want: Byte, next: State): Outcome {
    if ch != want then Fail(p, Strict) else Next(p.(state := next), Quiet)
  }

  function MajorDigit(p: Parser, ch: Byte, dot: State): Outcome {
    if ch == '.' then Next(p.(state := dot), Quiet)
    else if !IsNum(ch) then Fail(p, InvalidVersion)
    else
      var q := p.(major := p.major * 10 + Digit(ch));
      if q.major > 999 then Fail(q, InvalidVersion) else Next(q, Quiet)
  }

  function MinorDigit(p: Parser, ch: Byte): Outcome {
    if !IsNum(ch) then Fail(p, InvalidVersion)
    else
      var q := p.(minor := p.minor * 10 + Digit(ch));
      if q.minor > 999 then Fail(q, InvalidVersion) else Next(q, Quiet)
  }

  /** The character of the method's name at `index`, NUL at its end. */
  function Matcher(m: Method, index: nat): char {
    var name := MethodName(m);
    if index < |name| then name[index] else '\0'
  }

  function InMethod(p: Parser, ch: Byte): Outcome {
    var i, m := p.index, p.verb;
    if ch == '\0' then Fail(p, InvalidMethod)
    else if ch == ' ' && Matcher(m, i) == '\0' then Next(p.(state := ReqSpacesBeforeUrl, index := i + 1), Quiet)
    else if ch == Matcher(m, i) then Next(p.(index := i + 1), Quiet)
    else
      match OtherMethod(m, i, ch)
      case Some(m') => Next(p.(verb := m', index := i + 1), Quiet)
      case None => Fail(p, InvalidMethod)
  }

  /** The method that the name read so far may still become. */
  function OtherMethod(m: Method, i: nat, ch: Byte): Option<Method> {
    if m.CONNECT? then
      if i == 1 && ch == 'H' then Some(CHECKOUT) else if i == 2 && ch == 'P' then Some(COPY) else None
    else if m.MKCOL? then
      if i == 1 && ch == 'O' then Some(MOVE)
      else if i == 1 && ch == 'E' then Some(MERGE)
      else if i == 1 && ch == '-' then Some(MSEARCH)
      else if i == 2 && ch == 'A' then Some(MKACTIVITY)
      else None
    else if m.SUBSCRIBE? then
      if i == 1 && ch == 'E' then Some(SEARCH) else None
    else if i == 1 && m.POST? then
      if ch == 'R' then Some(PROPFIND) else if ch == 'U' then Some(PUT) else if ch == 'A' then Some(PATCH) else None
    else if i == 2 then
      if m.PUT? then (if ch == 'R' then Some(PURGE) else None)
      else if m.UNLOCK? then (if ch == 'S' then Some(UNSUBSCRIBE) else None)
      else None
    else if i == 4 && m.PROPFIND? && ch == 'P' then Some(PROPPATCH)
    else None
  }

  function InUrl(p: Parser, ch: Byte): Outcome {
    if p.state.ReqSpacesBeforeUrl? then
      if ch == ' ' then Next(p, Quiet)
      else
        var s := UrlChar(if p.verb.CONNECT? then ReqServerStart else p.state, ch);
        if s.Dead? then Fail(p.(state := Dead), InvalidUrl) else Next(p.(state := s), Mark(Url))
    else
      if UrlMayEnd(p.state) && ch == ' ' then Next(p.(state := ReqHttpStart), Flush(Url))
      else if UrlMayEnd(p.state) && ch == CR then
        Next(p.(major := 0, minor := 9, state := ReqLineAlmostDone), Flush(Url))
      else if UrlMayEnd(p.state) && ch == LF then
        Next(p.(major := 0, minor := 9, state := HeaderFieldStart), Flush(Url))
      else if ch == ' ' || ch == CR || ch == LF then Fail(p, InvalidUrl)
      else
        var s := UrlChar(p.state, ch);
        if s.Dead? then Fail(p.(state := Dead), InvalidUrl) else Next(p.(state := s), Quiet)
  }

  /** Where white space may end the URL. */
  predicate UrlMayEnd(s: State) {
    s.ReqServer? || s.ReqServerWithAt? || s.ReqPath? || s.ReqQueryStringStart? ||
    s.ReqQueryString? || s.ReqFragmentStart? || s.ReqFragment?
  }

  predicate InsideUrl(s: State) {
    UrlMayEnd(s) || s.ReqSchema? || s.ReqSchemaSlash? || s.ReqSchemaSlashSlash? || s.ReqServerStart?
  }

  function RequestLineEnd(p: Parser, ch: Byte): Outcome {
    if p.state.ReqHttpStart? then
      if ch == 'H' then Next(p.(state := ReqHttpH), Quiet)
      else if ch == ' ' then Next(p, Quiet)
      else Fail(p, InvalidConstant)
    else if p.state.ReqHttpH? then Expect(p, ch, 'T', ReqHttpHT)
    else if p.state.ReqHttpHT? then Expect(p, ch, 'T', ReqHttpHTT)
    else if p.state.ReqHttpHTT? then Expect(p, ch, 'P', ReqHttpHTTP)
    else if p.state.ReqHttpHTTP? then Expect(p, ch, '/', ReqFirstHttpMajor)
    else if p.state.ReqFirstHttpMajor? then
      if !('1' <= ch <= '9') then Fail(p, InvalidVersion)
        else Next(p.(major := Digit(ch), state := ReqHttpMajor), Quiet)
    else if p.state.ReqHttpMajor? then MajorDigit(p, ch, ReqFirstHttpMinor)
    else if p.state.ReqFirstHttpMinor? then
      if !IsNum(ch) then Fail(p, InvalidVersion) else Next(p.(minor := Digit(ch), state := ReqHttpMinor), Quiet)
    else if p.state.ReqHttpMinor? then
      if ch == CR then Next(p.(state := ReqLineAlmostDone), Quiet)
      else if ch == LF then Next(p.(state := HeaderFieldStart), Quiet)
      else MinorDigit(p, ch)
    else // ReqLineAlmostDone
      if ch != LF then Fail(p, LfExpected) else Next(p.(state := HeaderFieldStart), Quiet)
  }

  const CONNECTION := "connection"
  const PROXY_CONNECTION := "proxy-connection"
  const CONTENT_LENGTH := "content-length"
  const TRANSFER_ENCODING := "transfer-encoding"
  const UPGRADE := "upgrade"
  const CHUNKED := "chunked"
  const KEEP_ALIVE := "keep-alive"
  const CLOSE := "close"

  /** One step of a matcher whose index has just been advanced to `i`. */
  function Match(word: string, i: nat, c: Byte, matching: HeaderState, matched: HeaderState): HeaderState {
    if i > |word| || c != (if i < |word| then word[i] else '\0') then General
    else if i + 1 == |word| then matched
    else matching
  }

  function FieldStart(p: Parser, ch: Byte): Outcome {
    if ch == CR then Next(p.(state := HeadersAlmostDone), Quiet)
    else if ch == LF then Again(p.(state := HeadersAlmostDone), Quiet)
    else
      var c := Token(ch);
      if c == '\0' then Fail(p, InvalidHeaderToken)
      else Next(p.(index := 0, state := HeaderField, headerState := FirstHeaderState(c)), Mark(Field))
  }

  function FirstHeaderState(c: Byte): HeaderState {
    if c == 'c' then HC
    else if c == 'p' then MatchingProxyConnection
    else if c == 't' then MatchingTransferEncoding
    else if c == 'u' then MatchingUpgrade
    else General
  }

  function InField(p: Parser, ch: Byte): Outcome {
    var c := Token(ch);
    if c != '\0' then
      match FieldChar(p.headerState, p.index, ch, c)
      case Some((h, i)) => Next(p.(headerState := h, index := i), Quiet)
      case None => Crash
    else if ch == ':' then Next(p.(state := HeaderValueStart), Flush(Field))
    else if ch == CR then Next(p.(state := HeaderAlmostDone), Flush(Field))
    else if ch == LF then Next(p.(state := HeaderFieldStart), Flush(Field))
    else Fail(p, InvalidHeaderToken)
  }

  /** The recogniser of the header names; none where the source asserts "Unknown header_state". */
  function FieldChar(h: HeaderState, index: nat, ch: Byte, c: Byte): Option<(HeaderState, nat)> {
    var i := index + 1;
    match h
    case General => Some((General, index))
    case HC => Some((if c == 'o' then HCO else General, i))
    case HCO => Some((if c == 'n' then HCON else General, i))
    case HCON =>
      Some((if c == 'n' then MatchingConnection else if c == 't' then MatchingContentLength else General, i))
    case MatchingConnection => Some((Match(CONNECTION, i, c, h, Connection), i))
    case MatchingProxyConnection => Some((Match(PROXY_CONNECTION, i, c, h, Connection), i))
    case MatchingContentLength => Some((Match(CONTENT_LENGTH, i, c, h, ContentLength), i))
    case MatchingTransferEncoding => Some((Match(TRANSFER_ENCODING, i, c, h, TransferEncoding), i))
    case MatchingUpgrade => Some((Match(UPGRADE, i, c, h, Upgrade), i))
    case Connection => Some((if ch != ' ' then General else h, index))
    case ContentLength => Some((if ch != ' ' then General else h, index))
    case TransferEncoding => Some((if ch != ' ' then General else h, index))
    case Upgrade => Some((if ch != ' ' then General else h, index))
    case _ => None
  }

  function ValueStart(p: Parser, ch: Byte): Outcome {
    if ch == ' ' || ch == '\t' then Next(p, Quiet)
    else if ch == CR then
      Next(p.(index := 0, headerState := General, state := HeaderAlmostDone), MarkFlush(Value))
    else if ch == LF then
      Next(p.(index := 0, state := HeaderFieldStart), MarkFlush(Value))
    else
      var q := p.(index := 0, state := HeaderValue);
      var c := Lower(ch);
      if p.headerState.Upgrade? then Next(q.(flags := q.flags.(upgrade := true), headerState := General), Mark(Value))
      else if p.headerState.TransferEncoding? then
        Next(q.(headerState := if c == 'c' then MatchingChunked else General), Mark(Value))
      else if p.headerState.ContentLength? then
        if !IsNum(ch) then Fail(q, InvalidContentLength) else Next(q.(contentLength := Digit(ch)), Mark(Value))
      else if p.headerState.Connection? then
        Next(q.(headerState := if c == 'k' then MatchingKeepAlive else if c == 'c' then MatchingClose else General),
             Mark(Value))
      else Next(q.(headerState := General), Mark(Value))
  }

  function InValue(p: Parser, ch: Byte): Outcome {
    if ch == CR then Next(p.(state := HeaderAlmostDone), Flush(Value))
    else if ch == LF then Again(p.(state := HeaderAlmostDone), Flush(Value))
    else
      var c, i := Lower(ch), p.index + 1;
      match p.headerState
      case General => Next(p, Quiet)
      case Connection => Crash
      case TransferEncoding => Crash
      case ContentLength =>
        if ch == ' ' then Next(p, Quiet)
        else if !IsNum(ch) then Fail(p, InvalidContentLength)
        else LengthDigit(p, 10, Digit(ch))
      case MatchingChunked =>
        Next(p.(index := i, headerState := Match(CHUNKED, i, c, MatchingChunked, Chunked)), Quiet)
      case MatchingKeepAlive =>
        Next(p.(index := i, headerState := Match(KEEP_ALIVE, i, c, MatchingKeepAlive, KeepAlive)), Quiet)
      case MatchingClose =>
        Next(p.(index := i, headerState := Match(CLOSE, i, c, MatchingClose, Close)), Quiet)
      case Chunked => Next(p.(headerState := if ch != ' ' then General else p.headerState), Quiet)
      case KeepAlive => Next(p.(headerState := if ch != ' ' then General else p.headerState), Quiet)
      case Close => Next(p.(headerState := if ch != ' ' then General else p.headerState), Quiet)
      case _ => Next(p.(headerState := General), Quiet)
  }

  /** One more digit of a 64-bit length, with the source's test for overflow. */
  function MoreDigits(base: nat, v: nat, digit: nat): Option<nat> {
    var t := (v * base + digit) % TWO64;
    if t < v || t == ULLONG_MAX then None else Some(t)
  }

  function LengthDigit(p: Parser, base: nat, digit: nat): Outcome {
    match MoreDigits(base, p.contentLength, digit)
    case None => Fail(p, InvalidContentLength)
    case Some(t) => Next(p.(contentLength := t), Quiet)
  }

  function HeaderLineEnd(p: Parser, ch: Byte): Outcome {
    if p.state.HeaderAlmostDone? then
      if ch != LF then Fail(p, Strict)
      else
        var f :=
          if p.headerState.KeepAlive? then p.flags.(keepAlive := true)
          else if p.headerState.Close? then p.flags.(close := true)
          else if p.headerState.Chunked? then p.flags.(chunked := true)
          else p.flags;
        Next(p.(state := HeaderValueLws, flags := f), Quiet)
    else // HeaderValueLws
      if ch == ' ' || ch == '\t' then Next(p.(state := HeaderValueStart), Quiet)
      else Again(p.(state := HeaderFieldStart), Quiet)
  }

  function Complete(p: Parser): Outcome { Next(p.(state := NewMessage(p)), Notify(MessageComplete)) }

  function HeadEnd(d: Decision, p: Parser, ch: Byte): Outcome {
    if p.state.HeadersAlmostDone? then
      if ch != LF then Fail(p, Strict)
      else if p.flags.trailing then Complete(p)
      else
        var q := p.(state := HeadersDone, upgrade := p.flags.upgrade || p.verb.CONNECT?);
        Again(if d(q) then q.(flags := q.flags.(skipBody := true)) else q, Notify(HeadersComplete))
    else // HeadersDone
      if ch != LF then Fail(p, Strict)
      else
        var q := p.(nread := 0);
        if q.upgrade then Stop(q.(state := NewMessage(q)), Notify(MessageComplete))
        else if q.flags.skipBody then Complete(q)
        else if q.flags.chunked then Next(q.(state := ChunkSizeStart), Quiet)
        else if q.contentLength == 0 then Complete(q)
        else if q.contentLength != ULLONG_MAX then Next(q.(state := BodyIdentity), Quiet)
        else if q.kind.Request? || !NeedsEof(q) then Complete(q)
        else Next(q.(state := BodyIdentityEof), Quiet)
  }

  function ChunkHead(p: Parser, ch: Byte): Outcome {
    if !p.flags.chunked then Crash
    else
      if p.state.ChunkSizeStart? then
        if p.nread != 1 then Crash
        else if Unhex(ch) == -1 then Fail(p, InvalidChunkSize)
        else Next(p.(contentLength := Unhex(ch), state := ChunkSize), Quiet)
      else if p.state.ChunkSize? then
        if ch == CR then Next(p.(state := ChunkSizeAlmostDone), Quiet)
        else if Unhex(ch) != -1 then LengthDigit(p, 16, Unhex(ch))
        else if ch == ';' || ch == ' ' then Next(p.(state := ChunkParameters), Quiet)
        else Fail(p, InvalidChunkSize)
      else if p.state.ChunkParameters? then
        if ch == CR then Next(p.(state := ChunkSizeAlmostDone), Quiet) else Next(p, Quiet)
      else // ChunkSizeAlmostDone
        if ch != LF then Fail(p, Strict)
        else if p.contentLength == 0 then
          Next(p.(nread := 0, flags := p.flags.(trailing := true), state := HeaderFieldStart), Quiet)
        else Next(p.(nread := 0, state := ChunkData), Quiet)
  }

  /** A body state with one byte to read. */
  function BodyByte(p: Parser, ch: Byte): Outcome {
    if p.state.BodyIdentity? then
      if p.contentLength == 0 || p.contentLength == ULLONG_MAX then Crash
      else
        var q := p.(contentLength := p.contentLength - 1);
        if q.contentLength == 0 then Again(q.(state := MessageDone), Last) else Next(q, Mark(Body))
    else if p.state.BodyIdentityEof? then Next(p, Mark(Body))
    else if p.state.MessageDone? then Complete(p)
    else if p.state.ChunkData? then
      if !p.flags.chunked || p.contentLength == 0 || p.contentLength == ULLONG_MAX then Crash
      else
        var q := p.(contentLength := p.contentLength - 1);
        Next(if q.contentLength == 0 then q.(state := ChunkDataAlmostDone) else q, Mark(Body))
    else if p.state.ChunkDataAlmostDone? then
      if !p.flags.chunked || p.contentLength != 0 then Crash
      else if ch != CR then Fail(p, Strict)
      else Next(p.(state := ChunkDataDone), Flush(Body))
    else // ChunkDataDone
      if !p.flags.chunked then Crash
      else if ch != LF then Fail(p, Strict)
      else Next(p.(nread := 0, state := ChunkSizeStart), Quiet)
  }

  datatype Group = GDead | GStart | GStatus | GMethod | GUrl | GLine | GFieldStart | GField | GValueStart | GValue
                 | GLineEnd | GHeadEnd | GChunkHead | GBody

  function GroupOf(s: State): Group {
    match s
    case Dead => GDead
    case StartReqOrRes | ResOrRespH | StartRes | StartReq => GStart
    case ResH | ResHT | ResHTT | ResHTTP | ResFirstHttpMajor | ResHttpMajor | ResFirstHttpMinor | ResHttpMinor
       | ResFirstStatusCode | ResStatusCode | ResStatus | ResLineAlmostDone => GStatus
    case ReqMethod => GMethod
    case ReqSpacesBeforeUrl | ReqSchema | ReqSchemaSlash | ReqSchemaSlashSlash | ReqServerStart | ReqServer
       | ReqServerWithAt | ReqPath | ReqQueryStringStart | ReqQueryString | ReqFragmentStart | ReqFragment => GUrl
    case ReqHttpStart | ReqHttpH | ReqHttpHT | ReqHttpHTT | ReqHttpHTTP | ReqFirstHttpMajor | ReqHttpMajor
       | ReqFirstHttpMinor | ReqHttpMinor | ReqLineAlmostDone => GLine
    case HeaderFieldStart => GFieldStart
    case HeaderField => GField
    case HeaderValueStart => GValueStart
    case HeaderValue => GValue
    case HeaderValueLws | HeaderAlmostDone => GLineEnd
    case HeadersAlmostDone | HeadersDone => GHeadEnd
    case ChunkSizeStart | ChunkSize | ChunkParameters | ChunkSizeAlmostDone => GChunkHead
    case ChunkData | ChunkDataAlmostDone | ChunkDataDone | BodyIdentity | BodyIdentityEof | MessageDone => GBody
  }

  /** One pass over the byte `ch`. */
  function Switch(d: Decision, p: Parser, ch: Byte): Outcome {
    match GroupOf(p.state)
    case GDead => if ch == CR || ch == LF then Next(p, Quiet) else Fail(p, ClosedConnection)
    case GStart => StartMessage(p, ch)
    case GStatus => StatusLine(p, ch)
    case GMethod => InMethod(p, ch)
    case GUrl => InUrl(p, ch)
    case GLine => RequestLineEnd(p, ch)
    case GFieldStart => FieldStart(p, ch)
    case GField => InField(p, ch)
    case GValueStart => ValueStart(p, ch)
    case GValue => InValue(p, ch)
    case GLineEnd => HeaderLineEnd(p, ch)
    case GHeadEnd => HeadEnd(d, p, ch)
    case GChunkHead => ChunkHead(p, ch)
    case GBody => BodyByte(p, ch)
  }

  lemma FieldPass(d: Decision, p: Parser, ch: Byte)
    requires GroupOf(p.state).GField?
    ensures Switch(d, p, ch) == InField(p, ch)
  {
  }

  lemma FieldStartPass(d: Decision, p: Parser, ch: Byte)
    requires GroupOf(p.state).GFieldStart?
    ensures Switch(d, p, ch) == FieldStart(p, ch)
  {
  }

  lemma ValueStartPass(d: Decision, p: Parser, ch: Byte)
    requires GroupOf(p.state).GValueStart?
    ensures Switch(d, p, ch) == ValueStart(p, ch)
  {
  }

  lemma ValuePass(d: Decision, p: Parser, ch: Byte)
    requires GroupOf(p.state).GValue?
    ensures Switch(d, p, ch) == InValue(p, ch)
  {
  }

  lemma LineEndPass(d: Decision, p: Parser, ch: Byte)
    requires GroupOf(p.state).GLineEnd?
    ensures Switch(d, p, ch) == HeaderLineEnd(p, ch)
  {
  }

  lemma HeadEndPass(d: Decision, p: Parser, ch: Byte)
    requires GroupOf(p.state).GHeadEnd?
    ensures Switch(d, p, ch) == HeadEnd(d, p, ch)
  {
  }

  lemma ChunkHeadPass(d: Decision, p: Parser, ch: Byte)
    requires GroupOf(p.state).GChunkHead?
    ensures Switch(d, p, ch) == ChunkHead(p, ch)
  {
  }

  lemma BodyPass(d: Decision, p: Parser, ch: Byte)
    requires GroupOf(p.state).GBody?
    ensures Switch(d, p, ch) == BodyByte(p, ch)
  {
  }

  lemma UrlPass(d: Decision, p: Parser, ch: Byte)
    requires GroupOf(p.state).GUrl?
    ensures Switch(d, p, ch) == InUrl(p, ch)
  {
  }

  lemma LinePass(d: Decision, p: Parser, ch: Byte)
    requires GroupOf(p.state).GLine?
    ensures Switch(d, p, ch) == RequestLineEnd(p, ch)
  {
  }

  lemma StatusPass(d: Decision, p: Parser, ch: Byte)
    requires GroupOf(p.state).GStatus?
    ensures Switch(d, p, ch) == StatusLine(p, ch)
  {
  }

  lemma MethodPass(d: Decision, p: Parser, ch: Byte)
    requires GroupOf(p.state).GMethod?
    ensures Switch(d, p, ch) == InMethod(p, ch)
  {
  }

  lemma StartPass(d: Decision, p: Parser, ch: Byte)
    requires GroupOf(p.state).GStart?
    ensures Switch(d, p, ch) == StartMessage(p, ch)
  {
  }
}
