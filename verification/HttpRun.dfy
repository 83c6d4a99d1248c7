/** What holds of the parser's fields in each state: every pass keeps it, and with it no assertion
    of the switch fires. */
module HttpRun {
  import opened HttpTypes
  import opened HttpSwitch

  // ---------- no assertion fires ----------

  predicate FieldRecogniser(h: HeaderState, index: nat) {
    match h
    case General => index <= 17
    case HC => index == 0
    case HCO => index == 1
    case HCON => index == 2
    case MatchingConnection => index + 1 < 10
    case MatchingProxyConnection => index + 1 < 16
    case MatchingContentLength => index + 1 < 14
    case MatchingTransferEncoding => index + 1 < 17
    case MatchingUpgrade => index + 1 < 7
    case Connection | ContentLength | TransferEncoding | Upgrade => index <= 17
    case _ => false
  }

  predicate ValueRecogniser(h: HeaderState, index: nat) {
    match h
    case General | ContentLength | Chunked | KeepAlive | Close => index <= 10
    case MatchingChunked => index + 1 < 7
    case MatchingKeepAlive => index + 1 < 10
    case MatchingClose => index + 1 < 5
    case _ => false
  }

  /** What holds of the fields between two bytes (`seen` is 0) and inside one (`seen` is 1). */
  predicate Good(p: Parser, seen: nat) {
    && p.errno.OK?
    && p.contentLength < TWO64 && p.major <= 999 && p.minor <= 999 && p.statusCode <= 999
    && p.nread <= MAX_HEADER_SIZE
    && (p.state.ReqMethod? ==> 1 <= p.index <= NameLength(p.verb))
    && (p.state.HeaderField? ==> FieldRecogniser(p.headerState, p.index))
    && (p.state.HeaderValue? ==> ValueRecogniser(p.headerState, p.index))
    && (InChunked(p.state) ==> p.flags.chunked)
    && (p.state.ChunkSizeStart? ==> p.nread == seen)
    && (p.state.ChunkSize? || p.state.ChunkParameters? || p.state.ChunkSizeAlmostDone? ==> p.contentLength < ULLONG_MAX)
    && (p.state.ChunkData? || p.state.BodyIdentity? ==> 0 < p.contentLength < ULLONG_MAX)
    && (p.state.ChunkDataAlmostDone? ==> p.contentLength == 0)
  }

  predicate InChunked(s: State) {
    s.ChunkSizeStart? || s.ChunkSize? || s.ChunkParameters? || s.ChunkSizeAlmostDone? ||
    s.ChunkData? || s.ChunkDataAlmostDone? || s.ChunkDataDone?
  }

  predicate StaysGood(o: Outcome) {
    match o
    case Next(p, _) => Good(p, 0)
    case Again(p, _) => Good(p, 1)
    case Stop(p, _) => Good(p, 0)
    case Fail(p, _) => true
    case Crash => false
  }

  lemma MethodGood(p: Parser, ch: Byte)
    requires Good(p, 1) && p.state.ReqMethod?
    ensures StaysGood(InMethod(p, ch))
  {
    hide FieldRecogniser, ValueRecogniser;
  }

  lemma FieldGood(p: Parser, ch: Byte)
    requires Good(p, 1) && p.state.HeaderField?
    ensures StaysGood(InField(p, ch))
  {
    hide MethodName, NameLength, ValueRecogniser, Token;
  }

  lemma ValueGood(p: Parser, ch: Byte)
    requires Good(p, 1) && p.state.HeaderValue?
    ensures StaysGood(InValue(p, ch))
  {
    hide MethodName, NameLength, FieldRecogniser;
  }

  lemma HeadEndGood(d: Decision, p: Parser, ch: Byte)
    requires Good(p, 1) && (p.state.HeadersAlmostDone? || p.state.HeadersDone?)
    ensures StaysGood(HeadEnd(d, p, ch))
  {
    hide MethodName, NameLength, FieldRecogniser, ValueRecogniser, NeedsEof, ShouldKeepAlive;
  }

  lemma ChunkGood(p: Parser, ch: Byte)
    requires Good(p, 1) && GroupOf(p.state).GChunkHead?
    ensures StaysGood(ChunkHead(p, ch))
  {
    hide MethodName, NameLength, FieldRecogniser, ValueRecogniser;
  }

  lemma BodyGood(p: Parser, ch: Byte)
    requires Good(p, 1) && GroupOf(p.state).GBody?
    ensures StaysGood(BodyByte(p, ch))
  {
    hide MethodName, NameLength, FieldRecogniser, ValueRecogniser, NeedsEof, ShouldKeepAlive;
  }

  lemma UrlCharStays(s: State, ch: Byte)
    ensures UrlChar(s, ch).Dead? || InsideUrl(UrlChar(s, ch))
  {
  }

  lemma UrlGood(p: Parser, ch: Byte)
    requires Good(p, 1) && GroupOf(p.state).GUrl?
    ensures StaysGood(InUrl(p, ch))
  {
    UrlCharStays(p.state, ch);
    UrlCharStays(ReqServerStart, ch);
    hide MethodName, NameLength, FieldRecogniser, ValueRecogniser, UrlChar;
  }

  lemma RequestLineGood(p: Parser, ch: Byte)
    requires Good(p, 1) && GroupOf(p.state).GLine?
    ensures StaysGood(RequestLineEnd(p, ch))
  {
    hide MethodName, NameLength, FieldRecogniser, ValueRecogniser, RequestLineEnd, GroupOf;
    if p.state.ReqHttpStart? || p.state.ReqHttpH? || p.state.ReqHttpHT? || p.state.ReqHttpHTT? || p.state.ReqHttpHTTP? {
      WordGood(p, ch);
    } else {
      NumberGood(p, ch);
    }
  }

  lemma WordGood(p: Parser, ch: Byte)
    requires Good(p, 1)
    requires p.state.ReqHttpStart? || p.state.ReqHttpH? || p.state.ReqHttpHT? || p.state.ReqHttpHTT?
      || p.state.ReqHttpHTTP?
    ensures StaysGood(RequestLineEnd(p, ch))
  {
    hide MethodName, NameLength, FieldRecogniser, ValueRecogniser;
  }

  lemma NumberGood(p: Parser, ch: Byte)
    requires Good(p, 1) && GroupOf(p.state).GLine?
    requires !p.state.ReqHttpStart? && !p.state.ReqHttpH? && !p.state.ReqHttpHT? && !p.state.ReqHttpHTT?
      && !p.state.ReqHttpHTTP?
    ensures StaysGood(RequestLineEnd(p, ch))
  {
    hide MethodName, NameLength, FieldRecogniser, ValueRecogniser;
  }

  lemma HeaderLineGood(p: Parser, ch: Byte)
    requires Good(p, 1)
    ensures GroupOf(p.state).GLineEnd? ==> StaysGood(HeaderLineEnd(p, ch))
    ensures GroupOf(p.state).GFieldStart? ==> StaysGood(FieldStart(p, ch))
  {
    hide MethodName, NameLength, Token, ValueRecogniser;
  }

  lemma ValueStartGood(p: Parser, ch: Byte)
    requires Good(p, 1) && p.state.HeaderValueStart?
    ensures StaysGood(ValueStart(p, ch))
  {
    hide MethodName, NameLength, FieldRecogniser;
  }

  lemma DeadGood(d: Decision, p: Parser, ch: Byte)
    requires Good(p, 1) && p.state.Dead?
    ensures StaysGood(Switch(d, p, ch))
  {
    hide MethodName, NameLength, FieldRecogniser, ValueRecogniser;
  }

  /** The word of a status line, and the numbers of its version. */
  predicate InWord(s: State) { s.ResH? || s.ResHT? || s.ResHTT? || s.ResHTTP? }

  predicate InVersion(s: State) { s.ResFirstHttpMajor? || s.ResHttpMajor? || s.ResFirstHttpMinor? || s.ResHttpMinor? }

  lemma StatusGood(p: Parser, ch: Byte)
    requires Good(p, 1) && GroupOf(p.state).GStatus?
    ensures StaysGood(StatusLine(p, ch))
  {
    hide MethodName, NameLength, FieldRecogniser, ValueRecogniser, StatusLine, Good, StaysGood;
    if InWord(p.state) {
      StatusWordGood(p, ch);
    } else if InVersion(p.state) {
      StatusVersionGood(p, ch);
    } else {
      StatusCodeGood(p, ch);
    }
  }

  lemma StatusCodeGood(p: Parser, ch: Byte)
    requires Good(p, 1)
    requires p.state.ResStatusCode? || p.state.ResFirstStatusCode? || p.state.ResStatus? || p.state.ResLineAlmostDone?
    ensures StaysGood(StatusLine(p, ch))
  {
    hide MethodName, NameLength, FieldRecogniser, ValueRecogniser, MajorDigit, MinorDigit, Expect;
  }

  lemma StatusWordGood(p: Parser, ch: Byte)
    requires Good(p, 1) && InWord(p.state)
    ensures StaysGood(StatusLine(p, ch))
  {
    hide MethodName, NameLength, FieldRecogniser, ValueRecogniser, MajorDigit, MinorDigit;
  }

  lemma StatusVersionGood(p: Parser, ch: Byte)
    requires Good(p, 1) && InVersion(p.state)
    ensures StaysGood(StatusLine(p, ch))
  {
    hide MethodName, NameLength, FieldRecogniser, ValueRecogniser, Expect;
  }

  lemma StartGood(p: Parser, ch: Byte)
    requires Good(p, 1) && GroupOf(p.state).GStart?
    ensures StaysGood(StartMessage(p, ch))
  {
    hide MethodName, FieldRecogniser, ValueRecogniser, FirstMethod, StartsMethod;
  }

  /** No pass from a good state fails an assertion, and every pass leads to a good state. */
  lemma SwitchGood(d: Decision, p: Parser, ch: Byte)
    requires Good(p, 1)
    ensures StaysGood(Switch(d, p, ch))
  {
    hide MethodName, NameLength, FieldRecogniser, ValueRecogniser, StaysGood;
    match GroupOf(p.state)
    case GMethod => MethodGood(p, ch);
    case GField => FieldGood(p, ch);
    case GValue => ValueGood(p, ch);
    case GHeadEnd => HeadEndGood(d, p, ch);
    case GChunkHead => ChunkGood(p, ch);
    case GBody => BodyGood(p, ch);
    case GUrl => UrlGood(p, ch);
    case GStart => StartGood(p, ch);
    case GStatus => StatusGood(p, ch);
    case GDead => DeadGood(d, p, ch);
    case GLine => RequestLineGood(p, ch);
    case GValueStart => ValueStartGood(p, ch);
    case _ => HeaderLineGood(p, ch);
  }
}
