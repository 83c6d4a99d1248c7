/** Which error a refused byte gives: the part of the message in which it stands tells. */
module HttpRefused {
  import opened HttpTypes
  import opened HttpSwitch
  import opened HttpRun
  import opened HttpMarks
  import opened HttpReference

  /** The parts of a message, as far as errors go. */
  datatype Part =
    | Closed | MethodName | Url | Protocol | VersionNumber | StatusNumber | Word | LineFeed | HeaderName | HeaderText
    | SizeOfChunk | NothingRefused

  function PartOf(s: State): Part {
    match s
    case Dead => Closed
    case StartReq | ReqMethod | StartReqOrRes => Part.MethodName
    case StartRes | ResOrRespH | ReqHttpStart => Protocol
    case ReqSpacesBeforeUrl | ReqSchema | ReqSchemaSlash | ReqSchemaSlashSlash | ReqServerStart | ReqServer
       | ReqServerWithAt | ReqPath | ReqQueryStringStart | ReqQueryString | ReqFragmentStart | ReqFragment => Part.Url
    case ResFirstHttpMajor | ResHttpMajor | ResFirstHttpMinor | ResHttpMinor
       | ReqFirstHttpMajor | ReqHttpMajor | ReqFirstHttpMinor | ReqHttpMinor => VersionNumber
    case ResFirstStatusCode | ResStatusCode => StatusNumber
    case ResH | ResHT | ResHTT | ResHTTP | ReqHttpH | ReqHttpHT | ReqHttpHTT | ReqHttpHTTP => Word
    case ResLineAlmostDone | HeaderAlmostDone | HeadersAlmostDone | HeadersDone | ChunkSizeAlmostDone
       | ChunkDataAlmostDone | ChunkDataDone => Word
    case ReqLineAlmostDone => LineFeed
    case HeaderFieldStart | HeaderField | HeaderValueLws => HeaderName
    case HeaderValueStart | HeaderValue => HeaderText
    case ChunkSizeStart | ChunkSize => SizeOfChunk
    case ResStatus | ChunkParameters | ChunkData | BodyIdentity | BodyIdentityEof | MessageDone => NothingRefused
  }

  /** The errors a part can give. */
  function ErrorsOf(part: Part): set<Errno> {
    match part
    case Closed => {ClosedConnection}
    case MethodName => {InvalidMethod}
    case Url => {InvalidUrl}
    case Protocol => {InvalidConstant}
    case VersionNumber => {InvalidVersion}
    case StatusNumber => {InvalidStatus}
    case Word => {Strict}
    case LineFeed => {LfExpected}
    case HeaderName => {InvalidHeaderToken}
    case HeaderText => {InvalidContentLength}
    case SizeOfChunk => {InvalidChunkSize, InvalidContentLength}
    case NothingRefused => {}
  }

  /** States in which only a line feed is taken, and it may be looked at again. */
  predicate FeedOnly(s: State) { s.HeaderAlmostDone? || s.HeadersAlmostDone? || s.HeadersDone? }

  /** What a pass can end in, by the part of the message. */
  predicate Refuses(s: State, b: Byte, o: Outcome) {
    match o
    case Fail(_, e) => e in ErrorsOf(PartOf(s)) && !(FeedOnly(s) && b == LF)
    case Again(q, _) =>
      || PartOf(q.state).NothingRefused?
      || (FeedOnly(q.state) && b == LF)
      || (PartOf(q.state) == PartOf(s) && !FeedOnly(s))
    case _ => true
  }

  lemma RefusesStart(d: Decision, p: Parser, b: Byte)
    requires GroupOf(p.state).GStart? || GroupOf(p.state).GDead?
    ensures Refuses(p.state, b, Switch(d, p, b))
  {
    hide FirstMethod, StartsMethod;
  }

  lemma RefusesStatus(d: Decision, p: Parser, b: Byte)
    requires GroupOf(p.state).GStatus?
    ensures Refuses(p.state, b, Switch(d, p, b))
  {
    hide InUrl;
  }

  lemma RefusesMethod(d: Decision, p: Parser, b: Byte)
    requires GroupOf(p.state).GMethod? || GroupOf(p.state).GUrl?
    ensures Refuses(p.state, b, Switch(d, p, b))
  {
    hide HttpTypes.MethodName, Matcher, OtherMethod, UrlChar;
  }

  lemma RefusesLine(d: Decision, p: Parser, b: Byte)
    requires GroupOf(p.state).GLine?
    ensures Refuses(p.state, b, Switch(d, p, b))
  {
    hide InUrl;
  }

  lemma RefusesHeader(d: Decision, p: Parser, b: Byte)
    requires GroupOf(p.state) in {GFieldStart, GField, GValueStart, GValue, GLineEnd}
    ensures Refuses(p.state, b, Switch(d, p, b))
  {
    hide Token, FieldChar, Match, MoreDigits;
  }

  lemma RefusesBody(d: Decision, p: Parser, b: Byte)
    requires GroupOf(p.state) in {GHeadEnd, GBody, GChunkHead}
    ensures Refuses(p.state, b, Switch(d, p, b))
  {
    hide NewMessage, NeedsEof, MoreDigits;
  }

  lemma SwitchRefuses(d: Decision, p: Parser, b: Byte)
    ensures Refuses(p.state, b, Switch(d, p, b))
  {
    hide Switch, Refuses;
    match GroupOf(p.state)
    case GStart | GDead => RefusesStart(d, p, b);
    case GStatus => RefusesStatus(d, p, b);
    case GMethod | GUrl => RefusesMethod(d, p, b);
    case GLine => RefusesLine(d, p, b);
    case GHeadEnd | GBody | GChunkHead => RefusesBody(d, p, b);
    case _ => RefusesHeader(d, p, b);
  }

  lemma {:induction false} PassesRefuse(d: Decision, p: Parser, log: seq<Event>, used: int, b: Byte)
    requires Passes(d, p, log, used, b).status.Failed?
    ensures Passes(d, p, log, used, b).p.errno in ErrorsOf(PartOf(p.state)) && !(FeedOnly(p.state) && b == LF)
    decreases Rank(p.state)
  {
    SwitchMarks(d, p, b);
    SwitchRefuses(d, p, b);
    hide Switch, PassLog, ByteLog, PartOf;
    match Switch(d, p, b)
    case Again(q, act) => PassesRefuse(d, q, PassLog(log, act, b), used, b);
    case _ =>
  }

  /** A byte is refused because the headers are too long, or with an error of the part in which it
      stands. */
  lemma RefusedWith(d: Decision, c: Conf, b: Byte)
    requires One(d, c, b).status.Failed?
    ensures var o := One(d, c, b);
      if ParsingHeader(c.p.state) && c.p.nread + 1 > MAX_HEADER_SIZE then o.p.errno == HeaderOverflow
      else o.p.errno in ErrorsOf(PartOf(c.p.state))
  {
    hide Passes, PartOf, ErrorsOf;
    var p := Counted(c.p);
    if !(ParsingHeader(p.state) && p.nread > MAX_HEADER_SIZE) { PassesRefuse(d, p, c.log, c.used, b); }
  }
}
