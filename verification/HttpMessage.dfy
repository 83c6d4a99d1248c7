/** Whole messages: what the headers say about the length of a message, by section 4.4 of
    RFC 2616, is how the parser finds its end. */
module HttpMessage {
  import opened HttpTypes
  import opened HttpSwitch
  import opened HttpReference
  import opened HttpParser
  import C = HttpChunks
  import opened HttpNames
  import opened HttpValues
  import opened HttpLine
  import opened HttpHead

  /** What follows a head: nothing, bytes as they are, or chunks, the last chunk and a trailer. */
  datatype Content =
    | Nothing
    | Plain(bytes: seq<Byte>)
    | Coded(chunks: seq<C.Chunk>, size: seq<Byte>, ext: seq<Byte>, trailer: seq<Header>, eol: Eol)

  function ContentBytes(c: Content): seq<Byte> {
    match c
    case Nothing => []
    case Plain(bytes) => bytes
    case Coded(chunks, size, ext, trailer, eol) =>
      C.EncodedAll(chunks) + (C.LineBytes(size, ext) + C.TrailerBytes(trailer, eol))
  }

  /** The body that a content stands for. */
  function BodyOf(c: Content): seq<Byte> {
    match c
    case Nothing => []
    case Plain(bytes) => bytes
    case Coded(chunks, _, _, _, _) => C.Contents(chunks)
  }

  function TrailerOf(c: Content): seq<Header> { if c.Coded? then c.trailer else [] }

  /** What stays counted against the header limit once the content has been read. */
  function Left(c: Content): nat { if c.Coded? then |C.TrailerBytes(c.trailer, c.eol)| else 0 }

  function BodyEvents(body: seq<Byte>): seq<Event> { if body == [] then [] else [Data(Body, body)] }

  /** The content is one that the headers announce; chunks, whatever the length they announce. */
  predicate Fits(c: Content, framing: Framing, length: nat) {
    match framing
    case NoBody => c.Nothing?
    case Sized => c.Plain? && |c.bytes| == length
    case Chunks =>
      c.Coded? && (forall k <- c.chunks :: C.Proper(k)) && C.Line(c.size, c.ext, 0) && C.Trailer(c.trailer, c.eol)
    case UntilEnd => c.Plain?
    case Upgraded => c.Nothing?
  }

  // ---------- bodies ----------

  /** The callbacks of a message after its headers. */
  function BodyLog(log: seq<Event>, c: Content): seq<Event> {
    (((log + [Notice(HeadersComplete)]) + BodyEvents(BodyOf(c))) + HeaderEvents(TrailerOf(c))) +
      [Notice(MessageComplete)]
  }

  lemma NoticePut(log: seq<Event>, n: Note)
    ensures Put(log, Notice(n)) == log + [Notice(n)]
  {
  }

  lemma BodyPut(log: seq<Event>, body: seq<Byte>)
    ensures var told := log + [Notice(HeadersComplete)];
      && (body != [] ==> Put(told, Data(Body, body)) == told + BodyEvents(body))
      && told + [] == told
  {
  }

  /** The log of a content without a trailer. */
  lemma BodyLogIs(log: seq<Event>, c: Content)
    requires !c.Coded?
    ensures Put((log + [Notice(HeadersComplete)]) + BodyEvents(BodyOf(c)), Notice(MessageComplete)) == BodyLog(log, c)
  {
    var told := (log + [Notice(HeadersComplete)]) + BodyEvents(BodyOf(c));
    assert told + [] == told;
  }

  /** The parser once a message has been read whole: what becomes of the connection is told by
      the headers and by the trailer. */
  predicate Over(p: Parser, q: Parser, c: Content) {
    && q == p.(state := q.state, headerState := q.headerState, index := q.index, flags := q.flags,
               contentLength := q.contentLength, upgrade := q.upgrade, nread := Left(c))
    && SameEnd(FrameOf(q), AfterHeaders(FrameOf(p), TrailerOf(c))) && q.state == NewMessage(q)
  }

  lemma SameNext(q: Parser)
    ensures NewMessage(q.(state := NewMessage(q))) == NewMessage(q)
  {
  }

  lemma PlainRun(d: Decision, p: Parser, log: seq<Event>, used: int, c: Content)
    requires c.Plain? && p.state.BodyIdentity? && 0 < p.contentLength == |c.bytes| < ULLONG_MAX && p.nread == 0
    ensures var o := Run(d, Conf(p, log + [Notice(HeadersComplete)], used, Running), c.bytes);
      o == Conf(o.p, BodyLog(log, c), used + |c.bytes|, Running) && Over(p, o.p, c) && !NeedsEof(o.p)
  {
    hide Run, Put, NewMessage, BodyLog, BodyEvents;
    C.IdentityBody(d, p, log + [Notice(HeadersComplete)], used, c.bytes);
    BodyPut(log, c.bytes);
    BodyLogIs(log, c);
    SameNext(Finished(p));
  }

  lemma CodedRun(d: Decision, p: Parser, log: seq<Event>, used: int, c: Content)
    requires C.AtChunk(p) && Fits(c, Chunks, 0)
    ensures var o := Run(d, Conf(p, log + [Notice(HeadersComplete)], used, Running), ContentBytes(c));
      o == Conf(o.p, BodyLog(log, c), used + |ContentBytes(c)|, Running) && Over(p, o.p, c) && !NeedsEof(o.p)
  {
    hide Run, Put, NewMessage, BodyLog, BodyEvents, C.LineBytes, C.Line, C.Proper, C.EncodedAll, C.Past,
      C.TrailerBytes, C.Trailer;
    var told := log + [Notice(HeadersComplete)];
    C.ChunkedRoundTrip(d, p, told, used, c.chunks, c.size, c.ext, c.trailer, c.eol);
    ChunksDelivered(log, c);
    PastOver(p, Run(d, Conf(p, told, used, Running), ContentBytes(c)).p, c);
  }

  lemma PastOver(p: Parser, q: Parser, c: Content)
    requires c.Coded? && C.Past(p, q, c.trailer, c.eol) && p.flags.chunked
    ensures Over(p, q, c) && !NeedsEof(q)
  {
    hide NewMessage, AfterHeaders, C.TrailerBytes;
    var f := Frame(p.flags.(trailing := true), 0);
    EndFollows(f, FrameOf(p), c.trailer);
    FrameFlags(f, c.trailer);
  }

  lemma ChunksDelivered(log: seq<Event>, c: Content)
    requires c.Coded? && forall k <- c.chunks :: C.Proper(k)
    ensures Put(C.Delivered(log + [Notice(HeadersComplete)], c.chunks) + HeaderEvents(c.trailer),
                Notice(MessageComplete)) == BodyLog(log, c)
  {
    hide C.Line, HeaderEvents;
    BodyPut(log, C.Contents(c.chunks));
    var cs := c.chunks;
    if cs != [] { assert cs[|cs| - 1] in cs; }
  }

  /** The end of the headers, and the content that they announce. */
  lemma ContentRun(d: Decision, p: Parser, log: seq<Event>, used: int, skip: bool, c: Content)
    requires p.state.HeadersAlmostDone? && !p.flags.trailing && !p.flags.skipBody && p.errno.OK?
    requires var framing := FramingOf(FrameOf(p), Upgrading(p), skip, Endless(p));
      !framing.UntilEnd? && Fits(c, framing, p.contentLength)
    requires p.contentLength <= ULLONG_MAX
    ensures var o := Run(d, EndOfHead(p, skip, log, used), ContentBytes(c));
      && o == Conf(o.p, BodyLog(log, c), used + |ContentBytes(c)|, if Upgrading(p) then Stopped else Running)
      && Over(p, o.p, c)
      && (NeedsEof(o.p) <==> FramingOf(FrameOf(p), false, skip, Endless(p)).UntilEnd?)
  {
    hide Run, Put, NewMessage, BodyLog, C.LineBytes, C.Line, C.Proper, C.EncodedAll, C.Contents, C.TrailerBytes,
      C.Trailer;
    NoticePut(log, HeadersComplete);
    match FramingOf(FrameOf(p), Upgrading(p), skip, Endless(p))
    case Upgraded => NothingRun(d, p, log, used, skip, c);
    case NoBody => NothingRun(d, p, log, used, skip, c);
    case Chunks => CodedRun(d, Ended(p, skip, ChunkSizeStart), log, used, c);
    case Sized => PlainRun(d, Ended(p, skip, BodyIdentity), log, used, c);
  }

  lemma NothingRun(d: Decision, p: Parser, log: seq<Event>, used: int, skip: bool, c: Content)
    requires c.Nothing? && !p.flags.skipBody && p.contentLength <= ULLONG_MAX
    requires var framing := FramingOf(FrameOf(p), Upgrading(p), skip, Endless(p)); framing.Upgraded? || framing.NoBody?
    ensures var o := Run(d, EndOfHead(p, skip, log, used), []);
      && o == Conf(o.p, BodyLog(log, c), used, if Upgrading(p) then Stopped else Running) && Over(p, o.p, c)
      && (NeedsEof(o.p) <==> FramingOf(FrameOf(p), false, skip, Endless(p)).UntilEnd?)
  {
    hide Run, Put, NewMessage, BodyLog;
    NoticePut(log, HeadersComplete);
    BodyLogIs(log, c);
    assert (log + [Notice(HeadersComplete)]) + [] == log + [Notice(HeadersComplete)];
    SameNext(Ended(p, skip, HeadersDone));
    EmptyRun(d, EndOfHead(p, skip, log, used));
  }

  /** A body that lasts until the end of the input is never complete. */
  lemma EndlessRun(d: Decision, p: Parser, log: seq<Event>, used: int, body: seq<Byte>)
    requires p.state.BodyIdentityEof? && log != [] && log[|log| - 1].Notice?
    ensures Run(d, Conf(p, log, used, Running), body) == Conf(p, log + BodyEvents(body), used + |body|, Running)
  {
    hide Run, One;
    if body == [] {
      EmptyRun(d, Conf(p, log, used, Running));
      assert log + [] == log;
    } else {
      Skip(d, p, log, used, body, |body|);
      assert body[..|body|] == body && body[|body|..] == [];
      EmptyRun(d, Conf(p, Put(log, Data(Body, body)), used + |body|, Running));
    }
  }

  // ---------- requests ----------

  /** A request, and what the callback for the end of its headers answers. */
  datatype Message = Message(head: Head, content: Content, skip: bool)

  predicate ProperRequest(m: Message) {
    && Proper(m.head)
    && var f := HeadFrame(m.head.headers); Fits(m.content, FramingOf(f, Upgrades(m.head), m.skip, false), f.length)
  }

  function RequestBytes(m: Message): seq<Byte> { Rendered(m.head) + ContentBytes(m.content) }

  /** The callbacks of a request. */
  function RequestLog(log: seq<Event>, m: Message): seq<Event> { BodyLog(log + HeadLog(m.head), m.content) }

  /** The head with the headers of the trailer, which count as well. */
  function WithTrailer(m: Message): Head { m.head.(headers := m.head.headers + TrailerOf(m.content)) }

  lemma {:induction false} LengthBound(v: seq<Byte>)
    ensures LengthOf(v).Some? ==> LengthOf(v).value < ULLONG_MAX
  {
    if |v| > 1 { LengthBound(v[..|v| - 1]); }
  }

  lemma {:induction false} FrameLength(f: Frame, hs: seq<Header>)
    requires f.length <= ULLONG_MAX
    ensures AfterHeaders(f, hs).length <= ULLONG_MAX
  {
    hide AfterHeader;
    if hs != [] {
      FrameLength(f, hs[..|hs| - 1]);
      HeaderLength(AfterHeaders(f, hs[..|hs| - 1]), hs[|hs| - 1]);
    }
  }

  lemma HeaderLength(f: Frame, h: Header)
    requires f.length <= ULLONG_MAX
    ensures AfterHeader(f, h).length <= ULLONG_MAX
  {
    LengthBound(Told(ContentLength, h.lines));
    hide Says, LengthOf, Told, Lowered;
  }

  /** The parser where the headers of a request end. */
  lemma RequestEnd(p: Parser, q: Parser, r: Head)
    requires ProperLine(r.line) && p.kind.Request? && AtRequest(p) && HeadRead(p, q, r)
    ensures var e := Counted(q).(state := HeadersAlmostDone);
      && !e.flags.trailing && !e.flags.skipBody && e.errno.OK? && e.kind.Request? && FrameOf(e) == HeadFrame(r.headers)
      && (Upgrading(e) <==> Upgrades(r)) && !Endless(e)
      && e.verb == r.line.verb && e.major == Major(r.line.version) && e.minor == Minor(r.line.version)
  {
    hide HeadFrame, HeadStart, Major, Minor;
  }

  /** A request, whole: its headers, its body, the headers of its trailer, and the end of the
      message at its last byte. */
  lemma RequestRun(d: Decision, c: Conf, m: Message)
    requires c.status.Running? && AtRequest(c.p) && c.p.kind.Request? && ProperRequest(m)
      && c.p.nread + |Rendered(m.head)| <= MAX_HEADER_SIZE
    requires m.skip == Answer(d, c, HeadStart(m.head))
    ensures var o := Run(d, c, RequestBytes(m));
      && o == Conf(o.p, RequestLog(c.log, m), c.used + |RequestBytes(m)|, if Upgrades(m.head) then Stopped else Running)
      && AfterRequest(o.p, WithTrailer(m)) && o.p.nread == Left(m.content)
  {
    hide Run, Rendered, HeadLog, HeadStart, HeadRead, HeadFrame, Major, Minor, NewMessage, EndOfHead, BodyLog,
      ContentBytes, Fits, ProperLine, ProperHeader, AtRequest, Answer;
    WholeHead(d, c, m.head);
    var q := Run(d, c, HeadStart(m.head)).p;
    RequestEnd(c.p, q, m.head);
    FrameLength(Frame(NO_FLAGS, ULLONG_MAX), m.head.headers);
    var e := EndAt(d, c, HeadStart(m.head));
    FrameIs(m.head.headers);
    ContentRun(d, e, c.log + HeadLog(m.head), c.used + |Rendered(m.head)|, m.skip, m.content);
    RunConcat(d, c, Rendered(m.head), ContentBytes(m.content));
    var o := Run(d, c, RequestBytes(m)).p;
    EndTold(e, o, m);
    NextRequest(o, WithTrailer(m));
  }

  /** What the headers and the trailer say of the connection. */
  lemma EndTold(p: Parser, q: Parser, m: Message)
    requires FrameOf(p) == HeadFrame(m.head.headers) && Over(p, q, m.content)
    ensures SameEnd(FrameOf(q), HeadFrame(WithTrailer(m).headers))
  {
    hide AfterHeaders, NewMessage;
    AfterBoth(Frame(NO_FLAGS, ULLONG_MAX), m.head.headers, TrailerOf(m.content));
  }

  lemma FrameIs(hs: seq<Header>)
    ensures HeadFrame(hs) == AfterHeaders(Frame(NO_FLAGS, ULLONG_MAX), hs)
  {
  }

  // ---------- complete at the last byte ----------

  predicate Incomplete(c: Conf) { c.status.Running? && Notice(MessageComplete) !in c.log }

  lemma StillIncomplete(log: seq<Event>, e: Event)
    requires Notice(MessageComplete) !in log && e != Notice(MessageComplete)
    ensures Notice(MessageComplete) !in Put(log, e)
  {
  }

  lemma HeadIncomplete(log: seq<Event>, r: Head)
    requires Notice(MessageComplete) !in log
    ensures Notice(MessageComplete) !in log + HeadLog(r)
  {
    HeadersNoNotice(r.headers);
  }

  lemma PlainAlmost(d: Decision, p: Parser, log: seq<Event>, used: int, body: seq<Byte>)
    requires p.state.BodyIdentity? && 0 < p.contentLength == |body| < ULLONG_MAX && Notice(MessageComplete) !in log
    ensures Incomplete(Run(d, Conf(p, log, used, Running), body[..|body| - 1]))
  {
    hide Run, One, Put;
    var n, w := |body| - 1, body[..|body| - 1];
    if n == 0 {
      EmptyRun(d, Conf(p, log, used, Running));
    } else {
      Skip(d, p, log, used, w, n);
      assert w[..n] == w && w[n..] == [];
      EmptyRun(d, Conf(Taken(p, n), Put(log, Data(Body, w)), used + n, Running));
      StillIncomplete(log, Data(Body, w));
    }
  }

  /** The chunks, the last chunk and the trailer, but for the last line feed. */
  function CodedStart(c: Content): seq<Byte>
    requires c.Coded?
  {
    C.EncodedAll(c.chunks) + (C.LineBytes(c.size, c.ext) + C.TrailerStart(c.trailer, c.eol))
  }

  lemma CodedAlmost(d: Decision, p: Parser, log: seq<Event>, used: int, c: Content)
    requires C.AtChunk(p) && Fits(c, Chunks, 0) && Notice(MessageComplete) !in log && HeadersMayFollow(log)
    ensures ContentBytes(c) == CodedStart(c) + [LF] && Incomplete(Run(d, Conf(p, log, used, Running), CodedStart(c)))
  {
    hide Run, One, Put, C.LineBytes, C.Line, C.Proper, C.EncodedAll, C.TrailerStart, C.TrailerBytes, C.Trailer,
      HeadersMayFollow, HeaderEvents;
    var a, b, t := C.EncodedAll(c.chunks), C.LineBytes(c.size, c.ext), C.TrailerStart(c.trailer, c.eol);
    var c0 := Conf(p, log, used, Running);
    C.ChunksRun(d, p, log, used, c.chunks);
    var c1 := Run(d, c0, a);
    RunConcat(d, c0, a, b + t);
    C.LineRun(d, c1.p, c1.log, c1.used, c.size, c.ext, 0);
    var c2 := Run(d, c1, b);
    RunConcat(d, c1, b, t);
    C.DeliveredLast(log, c.chunks);
    C.TrailerStartRun(d, c2.p, c2.log, c2.used, c.trailer, c.eol);
    if c.chunks != [] { StillIncomplete(log, Data(Body, C.Contents(c.chunks))); }
    HeadersNoNotice(c.trailer);
    assert ContentBytes(c) == (a + (b + t)) + [LF];
  }

  /** Before the last byte of a content. */
  lemma ContentAlmost(d: Decision, p: Parser, log: seq<Event>, used: int, skip: bool, c: Content)
    requires p.state.HeadersAlmostDone? && p.errno.OK? && p.contentLength <= ULLONG_MAX
      && Notice(MessageComplete) !in log
    requires var framing := FramingOf(FrameOf(p), Upgrading(p), skip, Endless(p));
      !framing.UntilEnd? && ContentBytes(c) != [] && Fits(c, framing, p.contentLength)
    ensures Incomplete(Run(d, EndOfHead(p, skip, log, used), ContentBytes(c)[..|ContentBytes(c)| - 1]))
  {
    hide Run, NewMessage, ContentBytes, CodedStart;
    var told, bytes := Put(log, Notice(HeadersComplete)), ContentBytes(c);
    NoticePut(log, HeadersComplete);
    match FramingOf(FrameOf(p), Upgrading(p), skip, Endless(p))
    case NoBody => NoContent(c);
    case Upgraded => NoContent(c);
    case Chunks =>
      CodedAlmost(d, Ended(p, skip, ChunkSizeStart), told, used, c);
      assert bytes[..|bytes| - 1] == CodedStart(c);
    case Sized =>
      PlainIs(c);
      PlainAlmost(d, Ended(p, skip, BodyIdentity), told, used, bytes);
  }

  /** Before the last byte of a request. */
  lemma AlmostAll(d: Decision, c: Conf, m: Message)
    requires Incomplete(c) && AtRequest(c.p) && c.p.kind.Request? && ProperRequest(m)
      && c.p.nread + |Rendered(m.head)| <= MAX_HEADER_SIZE
    requires m.skip == Answer(d, c, HeadStart(m.head))
    ensures RequestBytes(m) != [] && Incomplete(Run(d, c, RequestBytes(m)[..|RequestBytes(m)| - 1]))
  {
    hide Run, Rendered, HeadLog, HeadStart, HeadRead, HeadFrame, EndOfHead, Major, Minor, ContentBytes, Fits,
      ProperLine, ProperHeader, AtRequest, Answer;
    var head, content, all := Rendered(m.head), ContentBytes(m.content), RequestBytes(m);
    HeadBytes(m.head);
    HeadIncomplete(c.log, m.head);
    if content == [] {
      HeadStartRun(d, c, m.head);
      assert all[..|all| - 1] == HeadStart(m.head);
    } else {
      WholeHead(d, c, m.head);
      RequestEnd(c.p, Run(d, c, HeadStart(m.head)).p, m.head);
      FrameLength(Frame(NO_FLAGS, ULLONG_MAX), m.head.headers);
      FrameIs(m.head.headers);
      ContentAlmost(d, EndAt(d, c, HeadStart(m.head)), c.log + HeadLog(m.head), c.used + |head|, m.skip, m.content);
      assert all[..|all| - 1] == head + content[..|content| - 1];
      RunConcat(d, c, head, content[..|content| - 1]);
    }
  }

  lemma NoContent(c: Content)
    ensures c.Nothing? ==> ContentBytes(c) == []
  {
  }

  /** The end of a request is announced at its last byte, not before. */
  lemma NotCompleteBefore(d: Decision, m: Message, w: seq<Byte>)
    requires ProperRequest(m) && w < RequestBytes(m) && m.skip == Answer(d, Fresh(), HeadStart(m.head))
    ensures Notice(MessageComplete) !in Run(d, Fresh(), w).log
  {
    hide Run, RequestBytes, Fits, HeadFrame, ProperHeader, ProperLine, Rendered, Answer;
    AlmostAll(d, Fresh(), m);
    var all := RequestBytes(m)[..|RequestBytes(m)| - 1];
    assert w + all[|w|..] == all;
    RunConcat(d, Fresh(), w, all[|w|..]);
    RunKeeps(d, Run(d, Fresh(), w), all[|w|..]);
  }

  // ---------- a connection ----------

  function AllBytes(ms: seq<Message>): seq<Byte> {
    if ms == [] then [] else RequestBytes(ms[0]) + AllBytes(ms[1..])
  }

  function AllLogs(log: seq<Event>, ms: seq<Message>): seq<Event>
    decreases |ms|
  {
    if ms == [] then log else AllLogs(RequestLog(log, ms[0]), ms[1..])
  }

  /** Requests that leave the connection open, each within the header limit together with the
      `n` bytes that are still counted when it begins. */
  predicate Fitting(n: int, ms: seq<Message>)
    decreases |ms|
  {
    ms == [] || (
      && ProperRequest(ms[0]) && !Upgrades(ms[0].head) && Persistent(WithTrailer(ms[0]))
      && n + |Rendered(ms[0].head)| <= MAX_HEADER_SIZE
      && Fitting(Left(ms[0].content), ms[1..]))
  }

  /** The callback answers as the requests say. */
  predicate Answered(d: Decision, c: Conf, ms: seq<Message>)
    decreases |ms|
  {
    ms == [] || (ms[0].skip == Answer(d, c, HeadStart(ms[0].head))
      && Answered(d, Run(d, c, RequestBytes(ms[0])), ms[1..]))
  }

  /** Requests one after another, as long as the connection lives on. */
  lemma {:induction false} Pipeline(d: Decision, c: Conf, ms: seq<Message>)
    requires c.status.Running? && AtRequest(c.p) && c.p.kind.Request? && Fitting(c.p.nread, ms) && Answered(d, c, ms)
    ensures var o := Run(d, c, AllBytes(ms));
      o == Conf(o.p, AllLogs(c.log, ms), c.used + |AllBytes(ms)|, Running) && AtRequest(o.p)
    decreases |ms|
  {
    hide Run, RequestBytes, RequestLog, Rendered, Persistent, ProperRequest, Answer, Left;
    if ms == [] {
      EmptyRun(d, c);
    } else {
      RequestRun(d, c, ms[0]);
      var o := Run(d, c, RequestBytes(ms[0]));
      LineProper(ms[0]);
      AfterIs(o.p, WithTrailer(ms[0]));
      RunConcat(d, c, RequestBytes(ms[0]), AllBytes(ms[1..]));
      Pipeline(d, o, ms[1..]);
    }
  }

  lemma LineProper(m: Message)
    requires ProperRequest(m)
    ensures ProperLine(WithTrailer(m).line)
  {
  }

  lemma AfterIs(p: Parser, r: Head)
    requires ProperLine(r.line) && AfterRequest(p, r) && Persistent(r)
    ensures AtRequest(p) && p.kind.Request?
  {
    hide Persistent;
  }

  // ---------- responses ----------

  datatype Reply = Reply(line: StatusLine, headers: seq<Header>, eol: Eol, content: Content)

  function ReplyHead(r: Reply): seq<Byte> { (StatusBytes(r.line) + HeadersBytes(r.headers)) + EolBytes(r.eol) }

  function ReplyBytes(r: Reply): seq<Byte> { ReplyHead(r) + ContentBytes(r.content) }

  /** A status code with which a body may be. */
  predicate Bodied(code: nat) { !(100 <= code < 200) && code != 204 && code != 304 }

  function ReplyFraming(r: Reply, skip: bool): Framing
    requires ProperStatus(r.line)
  {
    FramingOf(HeadFrame(r.headers), HeadFrame(r.headers).flags.upgrade, skip, Bodied(ValueOf(r.line.code)))
  }

  predicate ProperReply(r: Reply, skip: bool) {
    && ProperStatus(r.line) && (forall i | 0 <= i < |r.headers| :: ProperHeader(r.headers[i]))
    && |ReplyHead(r)| <= MAX_HEADER_SIZE
    && Fits(r.content, ReplyFraming(r, skip), HeadFrame(r.headers).length)
  }

  predicate AtReply(p: Parser) { p.state.StartRes? && p.kind.Response? && p.errno.OK? && !p.verb.CONNECT? }

  /** The callbacks up to the end of a response's headers. */
  function ReplyHeadLog(log: seq<Event>, r: Reply): seq<Event> {
    ((log + MessageBegins(|r.line.before| + 1)) + StatusEvents(r.line.eol)) + HeaderEvents(r.headers)
  }

  predicate ReplyRead(p: Parser, q: Parser, r: Reply)
    requires ProperStatus(r.line)
  {
    && AtEnd(q) && FrameOf(q) == HeadFrame(r.headers) && !q.flags.trailing && !q.flags.skipBody
    && q == p.(state := q.state, flags := q.flags, contentLength := q.contentLength, headerState := q.headerState,
               index := q.index,
               nread := p.nread + |ReplyHead(r)| - 1, major := ValueOf(r.line.major), minor := ValueOf(r.line.minor),
               statusCode := ValueOf(r.line.code))
  }

  function ReplyStart(r: Reply): seq<Byte> { (StatusBytes(r.line) + HeadersBytes(r.headers)) + EndStart(r.eol) }

  lemma ReplyHeadBytes(r: Reply)
    ensures ReplyHead(r) == ReplyStart(r) + [LF]
  {
    hide StatusBytes, HeadersBytes;
  }

  lemma StatusLogLast(log: seq<Event>, l: StatusLine)
    ensures HeadersMayFollow((log + MessageBegins(|l.before| + 1)) + StatusEvents(l.eol))
  {
  }

  lemma ReplyStartRun(d: Decision, c: Conf, r: Reply, skip: bool)
    requires c.status.Running? && AtReply(c.p) && ProperReply(r, skip) && c.p.nread + |ReplyHead(r)| <= MAX_HEADER_SIZE
    ensures var o := Run(d, c, ReplyStart(r));
      o == Conf(o.p, ReplyHeadLog(c.log, r), c.used + |ReplyStart(r)|, Running) && ReplyRead(c.p, o.p, r)
  {
    hide Run, One, StatusBytes, HeadersBytes, Put, ProperStatus, ProperHeader, ValueOf, HeaderEvents, Fits;
    ReplyHeadBytes(r);
    StatusLineRun(d, c, r.line);
    StatusLogLast(c.log, r.line);
    var c1 := Run(d, c, StatusBytes(r.line));
    HeadersRun(d, c1, r.headers);
    var c2 := Run(d, c1, HeadersBytes(r.headers));
    RunConcat(d, c, StatusBytes(r.line), HeadersBytes(r.headers));
    EndRun(d, c2, r.eol);
    RunConcat(d, c, StatusBytes(r.line) + HeadersBytes(r.headers), EndStart(r.eol));
    FrameFlags(Frame(NO_FLAGS, ULLONG_MAX), r.headers);
  }

  /** The parser where the headers of a response end. */
  lemma ReplyEnd(p: Parser, q: Parser, r: Reply)
    requires ProperStatus(r.line) && AtReply(p) && ReplyRead(p, q, r)
    ensures var e := Counted(q).(state := HeadersAlmostDone);
      && AtEnd(q) && q.nread == p.nread + |ReplyHead(r)| - 1
      && !e.flags.trailing && !e.flags.skipBody && e.errno.OK? && e.kind.Response? && FrameOf(e) == HeadFrame(r.headers)
      && (Upgrading(e) <==> HeadFrame(r.headers).flags.upgrade) && (Endless(e) <==> Bodied(ValueOf(r.line.code)))
      && e.major == ValueOf(r.line.major) && e.minor == ValueOf(r.line.minor) && e.statusCode == ValueOf(r.line.code)
  {
    hide HeadFrame, ReplyHead, ValueOf;
  }

  lemma WholeReply(d: Decision, c: Conf, r: Reply, skip: bool)
    requires c.status.Running? && AtReply(c.p) && ProperReply(r, skip) && c.p.nread + |ReplyHead(r)| <= MAX_HEADER_SIZE
    requires skip == Answer(d, c, ReplyStart(r))
    ensures ReplyRead(c.p, Run(d, c, ReplyStart(r)).p, r)
    ensures Run(d, c, ReplyHead(r))
      == EndOfHead(EndAt(d, c, ReplyStart(r)), skip, ReplyHeadLog(c.log, r), c.used + |ReplyHead(r)|)
  {
    hide Run, One, Passes, ReplyStart, ReplyHead, ReplyHeadLog, EndOfHead, ReplyRead, ProperStatus, ProperHeader,
      HeadFrame, Fits;
    ReplyHeadBytes(r);
    ReplyStartRun(d, c, r, skip);
    var m := Run(d, c, ReplyStart(r));
    ReplyEnd(c.p, m.p, r);
    RunPush(d, c, ReplyStart(r), LF);
    LastLf(d, m);
    HeadersEnd(d, Counted(m.p).(state := HeadersAlmostDone), m.log, m.used);
  }

  /** Whether the headers, and those of the trailer, leave the connection open. */
  predicate Lives(r: Reply)
    requires ProperStatus(r.line)
  {
    var f := HeadFrame(r.headers + TrailerOf(r.content)).flags;
    if ValueOf(r.line.major) > 0 && ValueOf(r.line.minor) > 0 then !f.close else f.keepAlive
  }

  /** Nothing tells where a body would end, but the end of the input. */
  predicate Unended(r: Reply, skip: bool)
    requires ProperStatus(r.line)
  {
    FramingOf(HeadFrame(r.headers), false, skip, Bodied(ValueOf(r.line.code))).UntilEnd?
  }

  predicate Recorded(p: Parser, l: StatusLine)
    requires ProperStatus(l)
  {
    p.major == ValueOf(l.major) && p.minor == ValueOf(l.minor) && p.statusCode == ValueOf(l.code)
  }

  /** A response, whole: version and code recorded, headers, body, trailer, and the end of the
      message where its headers say; without them, a body goes on for as long as there are bytes. */
  lemma ReplyRun(d: Decision, c: Conf, r: Reply, skip: bool)
    requires c.status.Running? && AtReply(c.p) && ProperReply(r, skip) && c.p.nread + |ReplyHead(r)| <= MAX_HEADER_SIZE
    requires skip == Answer(d, c, ReplyStart(r))
    ensures var o := Run(d, c, ReplyBytes(r));
      && o == Conf(o.p, o.log, c.used + |ReplyBytes(r)|,
                   if HeadFrame(r.headers).flags.upgrade then Stopped else Running)
      && Recorded(o.p, r.line)
      && (if ReplyFraming(r, skip).UntilEnd? then
            && o.p.state.BodyIdentityEof?
            && o.log == (ReplyHeadLog(c.log, r) + [Notice(HeadersComplete)]) + BodyEvents(BodyOf(r.content))
          else
            && o.p.state == (if Lives(r) && !Unended(r, skip) then StartRes else Dead)
            && o.log == BodyLog(ReplyHeadLog(c.log, r), r.content) && o.p.nread == Left(r.content))
  {
    hide Run, ReplyHead, ReplyHeadLog, ReplyStart, ReplyRead, HeadFrame, ValueOf, BodyLog, BodyEvents, ContentBytes,
      ProperStatus, ProperHeader, AtReply, Answer, Lives, NeedsEof;
    WholeReply(d, c, r, skip);
    ReplyEnd(c.p, Run(d, c, ReplyStart(r)).p, r);
    RunConcat(d, c, ReplyHead(r), ContentBytes(r.content));
    AfterReplyHead(d, EndAt(d, c, ReplyStart(r)), ReplyHeadLog(c.log, r), c.used + |ReplyHead(r)|, r, skip);
  }

  /** From the end of a response's headers on. */
  lemma AfterReplyHead(d: Decision, e: Parser, log: seq<Event>, used: int, r: Reply, skip: bool)
    requires e.state.HeadersAlmostDone? && !e.flags.trailing && !e.flags.skipBody && e.errno.OK? && e.kind.Response?
    requires ProperReply(r, skip) && FrameOf(e) == HeadFrame(r.headers) && Recorded(e, r.line)
    requires (Upgrading(e) <==> HeadFrame(r.headers).flags.upgrade) && (Endless(e) <==> Bodied(ValueOf(r.line.code)))
    ensures var o := Run(d, EndOfHead(e, skip, log, used), ContentBytes(r.content));
      && o == Conf(o.p, o.log, used + |ContentBytes(r.content)|, if Upgrading(e) then Stopped else Running)
      && Recorded(o.p, r.line)
      && (if ReplyFraming(r, skip).UntilEnd? then
            o.p.state.BodyIdentityEof? && o.log == (log + [Notice(HeadersComplete)]) + BodyEvents(BodyOf(r.content))
          else
            && o.p.state == (if Lives(r) && !Unended(r, skip) then StartRes else Dead)
            && o.log == BodyLog(log, r.content) && o.p.nread == Left(r.content))
  {
    hide Run, ReplyHead, HeadFrame, ValueOf, BodyLog, BodyEvents, ContentBytes, ProperStatus, ProperHeader, Lives,
      NeedsEof, NewMessage, Bodied, Endless;
    FrameLength(Frame(NO_FLAGS, ULLONG_MAX), r.headers);
    FrameIs(r.headers);
    if ReplyFraming(r, skip).UntilEnd? {
      NoticePut(log, HeadersComplete);
      EndlessRun(d, Ended(e, skip, BodyIdentityEof), log + [Notice(HeadersComplete)], used, r.content.bytes);
      PlainIs(r.content);
    } else {
      ContentRun(d, e, log, used, skip, r.content);
      NextReply(e, Run(d, EndOfHead(e, skip, log, used), ContentBytes(r.content)).p, r);
    }
  }

  lemma PlainIs(c: Content)
    ensures c.Plain? ==> ContentBytes(c) == BodyOf(c) == c.bytes
  {
  }

  lemma NextReply(e: Parser, p: Parser, r: Reply)
    requires ProperStatus(r.line) && e.kind.Response? && FrameOf(e) == HeadFrame(r.headers) && Recorded(e, r.line)
      && Over(e, p, r.content)
    ensures p.state == if Lives(r) && !NeedsEof(p) then StartRes else Dead
  {
    hide AfterHeaders, ValueOf, NeedsEof;
    AfterBoth(Frame(NO_FLAGS, ULLONG_MAX), r.headers, TrailerOf(r.content));
  }

  /** How often a log announces the beginning of a message. */
  function Beginnings(log: seq<Event>): nat { multiset(log)[Notice(MessageBegin)] }

  lemma {:induction false} NoBeginning(log: seq<Event>)
    requires Notice(MessageBegin) !in log
    ensures Beginnings(log) == 0
  {
  }

  lemma {:induction false} BeginsTimes(n: nat)
    ensures Beginnings(MessageBegins(n)) == n
  {
    if n > 0 {
      BeginsTimes(n - 1);
      assert MessageBegins(n) == MessageBegins(n - 1) + [Notice(MessageBegin)];
    } else {
      assert MessageBegins(0) == [];
    }
  }

  lemma BeginningsAdd(a: seq<Event>, b: seq<Event>)
    ensures Beginnings(a + b) == Beginnings(a) + Beginnings(b)
  {
  }

  /** How often the callbacks of a response's headers begin a message. */
  lemma HeadBeginnings(log: seq<Event>, r: Reply)
    ensures Beginnings(ReplyHeadLog(log, r)) == Beginnings(log) + |r.line.before| + 1
  {
    hide Beginnings, MessageBegins, HeaderEvents;
    var begins, status := MessageBegins(|r.line.before| + 1), StatusEvents(r.line.eol);
    var headers := HeaderEvents(r.headers);
    BeginningsAdd((log + begins) + status, headers);
    BeginningsAdd(log + begins, status);
    BeginningsAdd(log, begins);
    BeginsTimes(|r.line.before| + 1);
    HeadersNoNotice(r.headers);
    NoBeginning(headers);
    NoBeginning(status);
  }

  /** What comes after them begins none. */
  lemma BodyBeginnings(log: seq<Event>, c: Content)
    ensures Beginnings(BodyLog(log, c)) == Beginnings(log)
    ensures Beginnings((log + [Notice(HeadersComplete)]) + BodyEvents(BodyOf(c))) == Beginnings(log)
  {
    hide Beginnings, HeaderEvents, BodyOf;
    var told, body, trailer := [Notice(HeadersComplete)], BodyEvents(BodyOf(c)), HeaderEvents(TrailerOf(c));
    BeginningsAdd(((log + told) + body) + trailer, [Notice(MessageComplete)]);
    BeginningsAdd((log + told) + body, trailer);
    BeginningsAdd(log + told, body);
    BeginningsAdd(log, told);
    HeadersNoNotice(TrailerOf(c));
    NoBeginning(trailer);
    NoBeginning(body);
    NoBeginning(told);
    NoBeginning([Notice(MessageComplete)]);
  }

  /** The beginning of a response is announced once, and once more for each byte of the empty
      lines before it: exactly once if there are none. */
  lemma BegunOnce(d: Decision, c: Conf, r: Reply, skip: bool)
    requires c.status.Running? && AtReply(c.p) && ProperReply(r, skip) && c.p.nread + |ReplyHead(r)| <= MAX_HEADER_SIZE
    requires skip == Answer(d, c, ReplyStart(r))
    ensures var n := Beginnings(Run(d, c, ReplyBytes(r)).log) - Beginnings(c.log);
      n == |r.line.before| + 1 && (n == 1 <==> r.line.before == [])
  {
    hide Run, Answer, ReplyStart, ReplyHead, ReplyHeadLog, HeadFrame, ReplyBytes, Beginnings, ProperReply, BodyLog,
      BodyEvents, AtReply, Lives, Unended, ReplyFraming, Recorded;
    ReplyRun(d, c, r, skip);
    HeadBeginnings(c.log, r);
    BodyBeginnings(ReplyHeadLog(c.log, r), r.content);
  }
}
