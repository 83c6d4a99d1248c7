/** A URL that the parser delivers can be parsed again: the scan of `http_parser_parse_url`
    does not fail on it. */
module HttpUrlDelivered {
  import opened Options
  import opened HttpTypes
  import opened HttpSwitch
  import opened HttpRun
  import opened HttpMarks
  import opened HttpReference
  import U = HttpUrl

  /** Between the beginning of a request and its URL. */
  predicate BeforeUrl(s: State) { s.ResOrRespH? || s.ReqMethod? || s.ReqSpacesBeforeUrl? }

  function UrlStart(verb: Method): State { if verb.CONNECT? then ReqServerStart else ReqSpacesBeforeUrl }

  predicate EndsWithNotice(log: seq<Event>) { log != [] && log[|log| - 1].Notice? }

  predicate EndsWithUrl(log: seq<Event>, s: State, verb: Method) {
    && log != []
    && match log[|log| - 1]
       case Data(Url, u) => U.Walk(UrlStart(verb), u) == s
       case _ => false
  }

  /** The URL read so far is the last of the callbacks, and leads the automaton to the state. */
  predicate UrlKept(p: Parser, log: seq<Event>) {
    && (BeforeUrl(p.state) ==> EndsWithNotice(log))
    && (InsideUrl(p.state) ==> EndsWithUrl(log, p.state, p.verb))
  }

  lemma PutNotice(log: seq<Event>, n: Note)
    ensures EndsWithNotice(Put(log, Notice(n)))
  {
  }

  lemma FirstUrlByte(log: seq<Event>, s: State, verb: Method, b: Byte)
    requires EndsWithNotice(log) && UrlChar(UrlStart(verb), b) == s
    ensures EndsWithUrl(Put(log, Data(Url, [b])), s, verb)
  {
    hide UrlChar;
    assert [b][..0] == [];
    assert U.Walk(UrlStart(verb), [b]) == UrlChar(U.Walk(UrlStart(verb), []), b);
  }

  lemma NextUrlByte(log: seq<Event>, s: State, t: State, verb: Method, b: Byte)
    requires EndsWithUrl(log, s, verb) && UrlChar(s, b) == t
    ensures EndsWithUrl(Put(log, Data(Url, [b])), t, verb)
  {
    hide UrlChar;
    var u := log[|log| - 1].bytes;
    assert (u + [b])[..|u|] == u;
  }

  lemma LastUrlByte(log: seq<Event>, s: State, verb: Method)
    requires EndsWithUrl(log, s, verb)
    ensures EndsWithUrl(Put(log, Data(Url, [])), s, verb)
  {
    var u := log[|log| - 1].bytes;
    assert u + [] == u;
  }

  /** No other state leads into a request or its URL. */
  predicate Away(o: Outcome) {
    match o
    case Next(q, _) => !BeforeUrl(q.state) && !InsideUrl(q.state)
    case Again(q, _) => !BeforeUrl(q.state) && !InsideUrl(q.state)
    case _ => true
  }

  lemma AwayLine(p: Parser, b: Byte)
    requires GroupOf(p.state).GLine?
    ensures Away(RequestLineEnd(p, b))
  {
  }

  lemma AwayStatus(p: Parser, b: Byte)
    requires GroupOf(p.state).GStatus?
    ensures Away(StatusLine(p, b))
  {
  }

  lemma AwayHeader(d: Decision, p: Parser, b: Byte)
    requires GroupOf(p.state) in {GFieldStart, GField, GValueStart, GValue, GLineEnd}
    ensures Away(Switch(d, p, b))
  {
    hide Token, FieldChar, Match;
  }

  lemma AwayChunk(d: Decision, p: Parser, b: Byte)
    requires GroupOf(p.state) in {GDead, GChunkHead}
    ensures Away(Switch(d, p, b))
  {
  }

  lemma AwayBody(d: Decision, p: Parser, b: Byte)
    requires GroupOf(p.state) in {GHeadEnd, GBody}
    ensures Away(Switch(d, p, b))
  {
    hide NeedsEof, ShouldKeepAlive;
  }

  lemma StartKeeps(d: Decision, p: Parser, log: seq<Event>, b: Byte)
    requires GroupOf(p.state) in {GStart, GMethod} && UrlKept(p, log)
    ensures match Switch(d, p, b)
      case Next(q, act) => UrlKept(q, ByteLog(PassLog(log, act, b), q.state, act, b))
      case Again(q, act) => UrlKept(q, PassLog(log, act, b))
      case _ => true
  {
    hide Put, Matcher, OtherMethod, FirstMethod, StartsMethod;
    PutNotice(log, MessageBegin);
  }

  lemma SpacesKeep(p: Parser, log: seq<Event>, b: Byte)
    requires p.state.ReqSpacesBeforeUrl? && UrlKept(p, log)
    ensures match InUrl(p, b)
      case Next(q, act) => UrlKept(q, ByteLog(PassLog(log, act, b), q.state, act, b))
      case Fail(_, _) => true
      case _ => false
  {
    var s := UrlChar(UrlStart(p.verb), b);
    UrlCharStays(UrlStart(p.verb), b);
    hide Put, UrlChar;
    FirstUrlByte(log, s, p.verb, b);
  }

  lemma InsideKeeps(p: Parser, log: seq<Event>, b: Byte)
    requires InsideUrl(p.state) && UrlKept(p, log)
    ensures match InUrl(p, b)
      case Next(q, act) =>
        && UrlKept(q, ByteLog(PassLog(log, act, b), q.state, act, b))
        && (act == Flush(Url) ==>
              q.verb == p.verb && UrlMayEnd(p.state)
                && EndsWithUrl(ByteLog(PassLog(log, act, b), q.state, act, b), p.state, q.verb))
      case Fail(_, _) => true
      case _ => false
  {
    UrlCharStays(p.state, b);
    hide Put, UrlChar, EndsWithUrl, EndsWithNotice;
    NextUrlByte(log, p.state, UrlChar(p.state, b), p.verb, b);
    LastUrlByte(log, p.state, p.verb);
  }

  lemma SwitchKeepsUrl(d: Decision, p: Parser, log: seq<Event>, b: Byte)
    requires UrlKept(p, log)
    ensures match Switch(d, p, b)
      case Next(q, act) => UrlKept(q, ByteLog(PassLog(log, act, b), q.state, act, b))
      case Again(q, act) => UrlKept(q, PassLog(log, act, b))
      case _ => true
  {
    hide Put, ByteLog, PassLog, EndsWithUrl, EndsWithNotice;
    match GroupOf(p.state)
    case GStart | GMethod => StartKeeps(d, p, log, b);
    case GUrl => UrlGroupKeeps(p, log, b); UrlPass(d, p, b);
    case GHeadEnd | GBody => hide Switch; AwayBody(d, p, b);
    case GDead | GChunkHead => hide Switch; AwayChunk(d, p, b);
    case GStatus => hide Switch, StatusLine; AwayStatus(p, b); StatusPass(d, p, b);
    case GLine => hide Switch, RequestLineEnd; AwayLine(p, b); LinePass(d, p, b);
    case _ => hide Switch; AwayHeader(d, p, b);
  }

  lemma UrlGroupKeeps(p: Parser, log: seq<Event>, b: Byte)
    requires GroupOf(p.state).GUrl? && UrlKept(p, log)
    ensures match InUrl(p, b)
      case Next(q, act) => UrlKept(q, ByteLog(PassLog(log, act, b), q.state, act, b))
      case Fail(_, _) => true
      case _ => false
  {
    hide InUrl, ByteLog, PassLog, UrlKept;
    if p.state.ReqSpacesBeforeUrl? { SpacesKeep(p, log, b); } else { InsideKeeps(p, log, b); }
  }

  lemma {:induction false} PassesKeepUrl(d: Decision, p: Parser, log: seq<Event>, used: int, b: Byte)
    requires UrlKept(p, log)
    ensures var c := Passes(d, p, log, used, b); c.status.Running? ==> UrlKept(c.p, c.log)
    decreases Rank(p.state)
  {
    hide Switch, UrlKept, PassLog, ByteLog;
    SwitchKeepsUrl(d, p, log, b);
    SwitchMarks(d, p, b);
    match Switch(d, p, b)
    case Again(q, act) => PassesKeepUrl(d, q, PassLog(log, act, b), used, b);
    case _ =>
  }

  lemma {:induction false} RunKeepsUrl(d: Decision, c: Conf, bytes: seq<Byte>)
    requires UrlKept(c.p, c.log)
    ensures var r := Run(d, c, bytes); r.status.Running? ==> UrlKept(r.p, r.log)
    decreases |bytes|
  {
    hide Passes, UrlKept;
    if bytes != [] && c.status.Running? {
      var o := One(d, c, bytes[0]);
      CountedKeepsUrl(c.p, c.log);
      PassesKeepUrl(d, Counted(c.p), c.log, c.used, bytes[0]);
      if o.status.Running? { RunKeepsUrl(d, o, bytes[1..]); } else { EndedRun(d, o, bytes[1..]); }
    }
  }

  lemma CountedKeepsUrl(p: Parser, log: seq<Event>)
    requires UrlKept(p, log)
    ensures UrlKept(Counted(p), log)
  {
    hide EndsWithUrl, EndsWithNotice;
  }

  /** In any run from the start: when a byte ends a URL, the URL delivered can be scanned again,
      as a CONNECT target exactly if the method is CONNECT. */
  lemma DeliveredUrlScans(d: Decision, kind: ParserType, bytes: seq<Byte>, b: Byte)
    requires var c := Run(d, Conf(Init(kind), [], 0, Running), bytes);
      && c.status.Running? && c.p.nread < MAX_HEADER_SIZE
      && Switch(d, Counted(c.p), b).Next? && Switch(d, Counted(c.p), b).act == Flush(Url)
    ensures var c := Run(d, Conf(Init(kind), [], 0, Running), bytes);
      var o := One(d, c, b);
      && o.status.Running? && o.log != []
      && match o.log[|o.log| - 1]
         case Data(Url, u) =>
           U.ScanTo(o.p.verb.CONNECT?, u, |u|).Some? && U.ParseUrl(u, o.p.verb.CONNECT?) != U.Bad(U.NotUrl)
         case _ => false
  {
    hide Run, Switch, Passes, PassLog, ByteLog, UrlKept, EndsWithUrl, UrlChar;
    var c := Run(d, Conf(Init(kind), [], 0, Running), bytes);
    InitUrl(kind);
    RunKeepsUrl(d, Conf(Init(kind), [], 0, Running), bytes);
    CountedKeepsUrl(c.p, c.log);
    var p := Counted(c.p);
    var o := One(d, c, b);
    FlushInside(d, p, b);
    InsideKeeps(p, c.log, b);
    OneStep(d, c, b);
    UrlScans(o.log, p.state, o.p.verb);
  }

  lemma InitUrl(kind: ParserType)
    ensures UrlKept(Init(kind), [])
  {
  }

  lemma FlushInside(d: Decision, p: Parser, b: Byte)
    requires Switch(d, p, b).Next? && Switch(d, p, b).act == Flush(Url)
    ensures InsideUrl(p.state) && Switch(d, p, b) == InUrl(p, b)
  {
    hide Switch;
    SwitchMarks(d, p, b);
    InUrlGroup(p.state);
    UrlPass(d, p, b);
  }

  lemma InUrlGroup(s: State)
    ensures InsideUrl(s) ==> GroupOf(s).GUrl? && !s.ReqSpacesBeforeUrl? && ParsingHeader(s)
    ensures Live(s) == Some(Url) <==> InsideUrl(s)
  {
  }

  lemma UrlScans(log: seq<Event>, s: State, verb: Method)
    requires EndsWithUrl(log, s, verb) && InsideUrl(s)
    ensures log != [] && match log[|log| - 1]
      case Data(Url, u) => U.ScanTo(verb.CONNECT?, u, |u|).Some? && U.ParseUrl(u, verb.CONNECT?) != U.Bad(U.NotUrl)
      case _ => false
  {
    hide UrlChar;
    var u := log[|log| - 1].bytes;
    U.ScanFollowsWalk(verb.CONNECT?, u, |u|);
    assert u[..|u|] == u;
    OnlyScanRefuses(u, verb.CONNECT?);
  }

  lemma OnlyScanRefuses(u: seq<Byte>, isConnect: bool)
    ensures U.ParseUrl(u, isConnect) == U.Bad(U.NotUrl) <==> U.ScanTo(isConnect, u, |u|).None?
  {
  }
}
