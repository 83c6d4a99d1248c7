/** Nothing but the head of a response is accepted as one: whatever bytes lead to the end of the
    headers are a status line, after line ends perhaps, and headers, whose lines may lack a colon. */
module HttpReplied {
  import opened Options
  import opened HttpTypes
  import opened HttpSwitch
  import opened HttpRun
  import opened HttpMarks
  import opened HttpReference
  import opened HttpBody
  import opened HttpLine
  import opened HttpHead
  import opened HttpItems
  import opened HttpAccepted
  import opened HttpEof

  datatype LooseReply = LooseReply(line: StatusLine, items: seq<Item>, eol: Eol)

  function ReplyText(r: LooseReply): seq<Byte> { (StatusBytes(r.line) + ItemsBytes(r.items)) + EolBytes(r.eol) }

  predicate ReplyFits(r: LooseReply) { ProperStatus(r.line) && ProperItems(r.items) }

  // ---------- how far a status line has been read ----------

  datatype StatusPlace =
    | Idle(before: seq<Byte>)
    | Protocol(before: seq<Byte>, i: nat)
    | Major(before: seq<Byte>, ds: seq<Byte>)
    | Minor(before: seq<Byte>, major: seq<Byte>, ds: seq<Byte>)
    | Code(v: Versioned, k: nat, ds: seq<Byte>)
    | Reason(v: Versioned, k: nat, code: seq<Byte>, text: seq<Byte>)
    | StatusCr(v: Versioned, k: nat, code: seq<Byte>, reason: Option<seq<Byte>>)

  /** A status line up to its version. */
  datatype Versioned = Versioned(before: seq<Byte>, major: seq<Byte>, minor: seq<Byte>)

  function VersionedBytes(v: Versioned): seq<Byte> { v.before + (Dotted(v.major, v.minor) + [' ']) }

  function CodeBytes(v: Versioned, k: nat, ds: seq<Byte>): seq<Byte> { VersionedBytes(v) + (Spaces(k) + ds) }

  /** What has been read there. */
  function StatusRead(a: StatusPlace): seq<Byte> {
    match a
    case Idle(before) => before
    case Protocol(before, i) => before + PROTOCOL[..if i < 5 then i else 5]
    case Major(before, ds) => before + (PROTOCOL + ds)
    case Minor(before, major, ds) => before + Dotted(major, ds)
    case Code(v, k, ds) => CodeBytes(v, k, ds)
    case Reason(v, k, code, text) => CodeBytes(v, k, code) + ([' '] + text)
    case StatusCr(v, k, code, reason) => CodeBytes(v, k, code) + (ReasonBytes(reason) + [CR])
  }

  predicate VersionFits(v: Versioned) { Ends(v.before) && Small(v.major) && Small(v.minor) }

  predicate ReasonFits(text: seq<Byte>) { CR !in text && LF !in text }

  predicate StatusAt(a: StatusPlace, p: Parser) { StatusWhere(a, p) && !p.flags.trailing }

  predicate StatusWhere(a: StatusPlace, p: Parser) {
    match a
    case Idle(before) => p.state.StartRes? && Ends(before)
    case Protocol(before, i) => Ends(before) && 1 <= i < 5 && p.state == ProtocolState(false, i)
    case Major(before, ds) =>
      Ends(before) && if ds == [] then p.state.ResFirstHttpMajor?
        else p.state.ResHttpMajor? && Small(ds) && p.major == ValueOf(ds)
    case Minor(before, major, ds) =>
      Ends(before) && Small(major)
      && if ds == [] then p.state.ResFirstHttpMinor? else p.state.ResHttpMinor? && Small(ds) && p.minor == ValueOf(ds)
    case Code(v, k, ds) =>
      VersionFits(v) && if ds == [] then p.state.ResFirstStatusCode?
        else p.state.ResStatusCode? && Small(ds) && p.statusCode == ValueOf(ds)
    case Reason(v, k, code, text) => VersionFits(v) && Small(code) && p.state.ResStatus? && ReasonFits(text)
    case StatusCr(v, k, code, reason) =>
      VersionFits(v) && Small(code) && p.state.ResLineAlmostDone? && (reason.Some? ==> ReasonFits(reason.value))
  }

  datatype ReplySpot = OnStatus(a: StatusPlace) | InHeaders(h: Place)

  function ReplyRead(s: ReplySpot): seq<Byte> { if s.OnStatus? then StatusRead(s.a) else BytesOf(s.h) }

  predicate ReplyAt(s: ReplySpot, p: Parser) {
    if s.OnStatus? then StatusAt(s.a, p) else At(s.h, p) && s.h.l.OfReply?
  }

  /** A pass that consumes the byte leads to a place one byte further on. */
  ghost predicate StatusLeads(a: StatusPlace, p: Parser, o: Outcome, b: Byte, next: ReplySpot) {
    match o
    case Next(q, act) =>
      ReplyAt(next, q) && ReplyRead(next) == StatusRead(a) + [b] && act != Notify(HeadersComplete) && q.nread == p.nread
    case Fail(_, _) => true
    case _ => false
  }

  function StatusOf(v: Versioned, k: nat, code: seq<Byte>, reason: Option<seq<Byte>>, eol: Eol): StatusLine {
    StatusLine(v.before, v.major, v.minor, k, code, reason, eol)
  }

  lemma StatusIs(v: Versioned, k: nat, code: seq<Byte>, reason: Option<seq<Byte>>, eol: Eol)
    ensures StatusBytes(StatusOf(v, k, code, reason, eol))
      == CodeBytes(v, k, code) + (ReasonBytes(reason) + EolBytes(eol))
  {
    hide Dotted, ReasonBytes, EolBytes;
    var a, b, c, e := Dotted(v.major, v.minor), Spaces(k), ReasonBytes(reason), EolBytes(eol);
    assert v.before + (a + ([' '] + (b + (code + (c + e))))) == ((v.before + (a + [' '])) + (b + code)) + (c + e);
  }

  /** Where a status line ends. */
  lemma StatusEnds(v: Versioned, k: nat, code: seq<Byte>, reason: Option<seq<Byte>>, eol: Eol, q: Parser)
    returns (next: ReplySpot)
    requires VersionFits(v) && Small(code) && (reason.Some? ==> ReasonFits(reason.value))
    requires q.state.HeaderFieldStart? && !q.flags.trailing
    ensures ReplyAt(next, q) && ReplyRead(next) == CodeBytes(v, k, code) + (ReasonBytes(reason) + EolBytes(eol))
  {
    hide Small, StatusBytes, CodeBytes, Sofar;
    var l := OfReply(StatusOf(v, k, code, reason, eol));
    next := InHeaders(AtStart(l, []));
    StatusIs(v, k, code, reason, eol);
    NoItems(l);
  }

  lemma IdleStep(p: Parser, a: StatusPlace, b: Byte) returns (next: ReplySpot)
    requires a.Idle? && StatusAt(a, p)
    ensures StatusLeads(a, p, StartMessage(p, b), b, next)
  {
    assert PROTOCOL[..1] == ['H'];
    next := OnStatus(if b == CR || b == LF then Idle(a.before + [b]) else Protocol(a.before, 1));
  }

  lemma ProtocolPass(p: Parser, i: nat, b: Byte)
    requires 1 <= i < 5 && p.state == ProtocolState(false, i)
    ensures HttpSwitch.StatusLine(p, b)
      == if b == PROTOCOL[i] then Next(p.(state := ProtocolState(false, i + 1)), Quiet) else Fail(p, Strict)
  {
    assert PROTOCOL == ['H', 'T', 'T', 'P', '/'];
  }

  lemma ProtocolStepped(p: Parser, a: StatusPlace, b: Byte) returns (next: ReplySpot)
    requires a.Protocol? && StatusAt(a, p)
    ensures StatusLeads(a, p, HttpSwitch.StatusLine(p, b), b, next)
  {
    hide HttpSwitch.StatusLine, ProtocolState;
    ProtocolPass(p, a.i, b);
    ProtocolEnd();
    next := OnStatus(if a.i == 4 then Major(a.before, []) else Protocol(a.before, a.i + 1));
    assert PROTOCOL[..a.i + 1] == PROTOCOL[..a.i] + [PROTOCOL[a.i]];
    assert PROTOCOL[..5] == PROTOCOL;
  }

  lemma ProtocolEnd()
    ensures ProtocolState(false, 5).ResFirstHttpMajor? && |PROTOCOL| == 5
  {
  }

  lemma MajorStepped(p: Parser, a: StatusPlace, b: Byte) returns (next: ReplySpot)
    requires a.Major? && StatusAt(a, p)
    ensures StatusLeads(a, p, HttpSwitch.StatusLine(p, b), b, next)
  {
    hide Small, ValueOf;
    next := OnStatus(Major(a.before, a.ds + [b]));
    if a.ds == [] {
      assert a.ds + [b] == [b];
      if IsNum(b) { SmallOne(b); }
    } else if b == '.' {
      next := OnStatus(Minor(a.before, a.ds, []));
      assert a.before + (PROTOCOL + (a.ds + (['.'] + []))) == (a.before + (PROTOCOL + a.ds)) + ['.'];
    } else if IsNum(b) && p.major * 10 + Digit(b) <= 999 {
      SmallMore(a.ds, b);
    }
  }

  lemma MinorStepped(p: Parser, a: StatusPlace, b: Byte) returns (next: ReplySpot)
    requires a.Minor? && StatusAt(a, p)
    ensures StatusLeads(a, p, HttpSwitch.StatusLine(p, b), b, next)
  {
    hide Small, ValueOf;
    next := OnStatus(Minor(a.before, a.major, a.ds + [b]));
    if a.ds == [] {
      assert a.ds + [b] == [b];
      if IsNum(b) { SmallOne(b); }
    } else if b == ' ' {
      next := OnStatus(Code(Versioned(a.before, a.major, a.ds), 0, []));
      MoreSpaces(0);
    } else if IsNum(b) && p.minor * 10 + Digit(b) <= 999 {
      SmallMore(a.ds, b);
    }
  }

  lemma FirstCode(p: Parser, a: StatusPlace, b: Byte) returns (next: ReplySpot)
    requires a.Code? && a.ds == [] && StatusAt(a, p)
    ensures StatusLeads(a, p, HttpSwitch.StatusLine(p, b), b, next)
  {
    hide Small, ValueOf, VersionedBytes, VersionFits;
    MoreSpaces(a.k);
    if b == ' ' {
      next := OnStatus(Code(a.v, a.k + 1, []));
    } else {
      next := OnStatus(Code(a.v, a.k, [b]));
      if IsNum(b) { SmallOne(b); }
    }
  }

  lemma CodeStepped(p: Parser, a: StatusPlace, b: Byte) returns (next: ReplySpot)
    requires a.Code? && a.ds != [] && StatusAt(a, p)
    ensures StatusLeads(a, p, HttpSwitch.StatusLine(p, b), b, next)
  {
    hide Small, ValueOf, VersionedBytes, VersionFits, ReplyAt;
    CodeAt(a, p, b);
    if b == ' ' {
      next := OnStatus(Reason(a.v, a.k, a.ds, []));
    } else if b == CR {
      next := OnStatus(StatusCr(a.v, a.k, a.ds, None));
    } else if b == LF {
      next := StatusEnds(a.v, a.k, a.ds, None, Lf, p.(state := HeaderFieldStart));
    } else {
      next := OnStatus(Code(a.v, a.k, a.ds + [b]));
    }
  }

  /** The parser is where those bytes of a status code lead. */
  lemma CodeAt(a: StatusPlace, p: Parser, b: Byte)
    requires a.Code? && a.ds != [] && StatusAt(a, p)
    ensures ReplyAt(OnStatus(Reason(a.v, a.k, a.ds, [])), p.(state := ResStatus))
    ensures ReplyAt(OnStatus(StatusCr(a.v, a.k, a.ds, None)), p.(state := ResLineAlmostDone))
    ensures IsNum(b) && p.statusCode * 10 + Digit(b) <= 999 ==>
      ReplyAt(OnStatus(Code(a.v, a.k, a.ds + [b])), p.(statusCode := p.statusCode * 10 + Digit(b)))
  {
    hide Small, ValueOf, VersionFits;
    if IsNum(b) && p.statusCode * 10 + Digit(b) <= 999 { SmallMore(a.ds, b); }
  }

  lemma ReasonStepped(p: Parser, a: StatusPlace, b: Byte) returns (next: ReplySpot)
    requires a.Reason? && StatusAt(a, p)
    ensures StatusLeads(a, p, HttpSwitch.StatusLine(p, b), b, next)
  {
    hide Small, CodeBytes, VersionFits, ReplyAt, ReasonBytes;
    ReasonAt(a, p, b);
    if b == CR {
      next := OnStatus(StatusCr(a.v, a.k, a.code, Some(a.text)));
    } else if b == LF {
      next := StatusEnds(a.v, a.k, a.code, Some(a.text), Lf, p.(state := HeaderFieldStart));
    } else {
      next := OnStatus(Reason(a.v, a.k, a.code, a.text + [b]));
    }
  }

  /** The parser is where those bytes of a reason lead. */
  lemma ReasonAt(a: StatusPlace, p: Parser, b: Byte)
    requires a.Reason? && StatusAt(a, p)
    ensures ReplyAt(OnStatus(StatusCr(a.v, a.k, a.code, Some(a.text))), p.(state := ResLineAlmostDone))
    ensures b != CR && b != LF ==> ReplyAt(OnStatus(Reason(a.v, a.k, a.code, a.text + [b])), p)
    ensures ReasonBytes(Some(a.text)) == [' '] + a.text && VersionFits(a.v) && Small(a.code) && ReasonFits(a.text)
  {
    hide Small, VersionFits;
  }

  lemma StatusCrStep(p: Parser, a: StatusPlace, b: Byte) returns (next: ReplySpot)
    requires a.StatusCr? && StatusAt(a, p)
    ensures StatusLeads(a, p, HttpSwitch.StatusLine(p, b), b, next)
  {
    hide Small, CodeBytes, VersionFits, ReasonBytes;
    next := StatusEnds(a.v, a.k, a.code, a.reason, CrLf, p.(state := HeaderFieldStart));
  }

  // ---------- one byte ----------

  lemma StatusGroups(a: StatusPlace, p: Parser)
    requires StatusAt(a, p)
    ensures if a.Idle? then GroupOf(p.state).GStart? else GroupOf(p.state).GStatus?
  {
    hide Small;
  }

  lemma StatusStep(d: Decision, p: Parser, a: StatusPlace, b: Byte) returns (next: ReplySpot)
    requires StatusAt(a, p)
    ensures StatusLeads(a, p, Switch(d, p, b), b, next)
  {
    hide Switch, StatusLeads, StatusRead, StatusAt;
    StatusGroups(a, p);
    if a.Idle? { StartPass(d, p, b); } else { StatusPass(d, p, b); }
    match a
    case Idle(_) => next := IdleStep(p, a, b);
    case Protocol(_, _) => next := ProtocolStepped(p, a, b);
    case Major(_, _) => next := MajorStepped(p, a, b);
    case Minor(_, _, _) => next := MinorStepped(p, a, b);
    case Code(_, _, ds) =>
      if ds == [] { next := FirstCode(p, a, b); } else { next := CodeStepped(p, a, b); }
    case Reason(_, _, _, _) => next := ReasonStepped(p, a, b);
    case StatusCr(_, _, _, _) => next := StatusCrStep(p, a, b);
  }

  lemma StillOnStatus(a: StatusPlace, p: Parser, n: int)
    requires StatusAt(a, p)
    ensures StatusAt(a, p.(nread := n)) && ParsingHeader(p.state)
  {
    hide Small, ParsingHeader, GroupOf, ProtocolState;
    StatusGroups(a, p);
    BodyGroup(p.state);
  }

  /** What a byte of the status line leads to. */
  lemma OneOfStatus(d: Decision, c: Conf, a: StatusPlace, b: Byte) returns (next: ReplySpot)
    requires c.status.Running? && StatusAt(a, c.p) && !HeadersTold(c.log)
    ensures var o := One(d, c, b);
      && !HeadersTold(o.log)
      && (o.status.Running? ==>
            ReplyAt(next, o.p) && ReplyRead(next) == StatusRead(a) + [b]
              && o.p.nread == c.p.nread + 1 <= MAX_HEADER_SIZE)
  {
    hide Switch, StatusAt, ReplyAt, StatusRead, ReplyRead, PassLog, ByteLog;
    StillOnStatus(a, c.p, c.p.nread + 1);
    var p := Counted(c.p);
    next := StatusStep(d, p, a, b);
    match Switch(d, p, b)
    case Next(q, act) => LogStays(c.log, act, q.state, b, HeadersComplete);
    case _ =>
  }

  predicate ReplyEnds(s: ReplySpot) { s.InHeaders? && MayEnd(s.h) }

  lemma OneReplied(d: Decision, c: Conf, a: ReplySpot, b: Byte) returns (next: ReplySpot)
    requires c.status.Running? && ReplyAt(a, c.p) && !HeadersTold(c.log)
    ensures var o := One(d, c, b);
      && (HeadersTold(o.log) ==> ReplyEnds(a) && b == LF && c.p.nread + 1 <= MAX_HEADER_SIZE)
      && (o.status.Running? && !HeadersTold(o.log) ==>
            ReplyAt(next, o.p) && ReplyRead(next) == ReplyRead(a) + [b]
              && o.p.nread == c.p.nread + 1 <= MAX_HEADER_SIZE)
  {
    hide One, StatusAt, At, BytesOf, StatusRead;
    if a.OnStatus? {
      next := OneOfStatus(d, c, a.a, b);
    } else {
      var h := OneHeader(d, c, a.h, b);
      next := InHeaders(h);
    }
  }

  // ---------- all bytes ----------

  /** As long as the end of the headers is not announced, the bytes read are the beginning of the
      head of a response. */
  lemma {:induction false} ReplyFollows(d: Decision, w: seq<Byte>) returns (a: ReplySpot)
    requires var c := Run(d, FreshReply(), w); c.status.Running? && !HeadersTold(c.log)
    ensures var c := Run(d, FreshReply(), w);
      ReplyAt(a, c.p) && ReplyRead(a) == w && c.p.nread == |w| <= MAX_HEADER_SIZE
    decreases |w|
  {
    hide Run, Passes, ReplyAt, ReplyRead, One;
    if w == [] {
      EmptyRun(d, FreshReply());
      a := OnStatus(Idle([]));
      ReplyStarts();
    } else {
      var init, last := w[..|w| - 1], w[|w| - 1];
      assert w == init + [last];
      RunConcat(d, FreshReply(), init, [last]);
      var m := Run(d, FreshReply(), init);
      WasRunning(d, m, [last]);
      RunKeeps(d, m, [last]);
      var before := ReplyFollows(d, init);
      RunPush(d, FreshReply(), init, last);
      a := OneReplied(d, m, before, last);
    }
  }

  lemma ReplyStarts()
    ensures ReplyAt(OnStatus(Idle([])), FreshReply().p) && ReplyRead(OnStatus(Idle([]))) == []
      && FreshReply().p.nread == 0
  {
  }

  /** The headers of a response end with the last byte of `w`. */
  predicate ReplyEndsWith(d: Decision, w: seq<Byte>) {
    w != [] && HeadersTold(Run(d, FreshReply(), w).log) && !HeadersTold(Run(d, FreshReply(), w[..|w| - 1]).log)
  }

  lemma OnlyReplies(d: Decision, w: seq<Byte>)
    requires ReplyEndsWith(d, w)
    ensures exists r :: ReplyFits(r) && ReplyText(r) == w && |w| <= MAX_HEADER_SIZE
  {
    hide Run, At, BytesOf, ReplyFits, ReplyText, One, ReplyRead;
    var init, last := w[..|w| - 1], w[|w| - 1];
    assert w == init + [last];
    RunConcat(d, FreshReply(), init, [last]);
    var m := Run(d, FreshReply(), init);
    if !m.status.Running? { EndedRun(d, m, [last]); }
    var a := ReplyFollows(d, init);
    RunPush(d, FreshReply(), init, last);
    var _ := OneReplied(d, m, a, last);
    var r := ReplyClosed(a, m.p);
    assert ReplyText(r) == w;
  }

  /** The head that ends with a line feed there. */
  lemma ReplyClosed(a: ReplySpot, p: Parser) returns (r: LooseReply)
    requires ReplyEnds(a) && ReplyAt(a, p)
    ensures ReplyFits(r) && ReplyText(r) == ReplyRead(a) + [LF]
  {
    hide At, BytesOf, StatusBytes, ItemsBytes, ProperStatus, ProperItems;
    var its, eol := Closed(a.h, p);
    r := LooseReply(a.h.l.status, its, eol);
  }

  // ---------- every such head is accepted ----------

  lemma AllReplies(d: Decision, r: LooseReply)
    requires ReplyFits(r) && |ReplyText(r)| <= MAX_HEADER_SIZE
    ensures ReplyEndsWith(d, ReplyText(r))
  {
    hide Run, One, Passes, StatusBytes, ItemsBytes, Put, ProperStatus, ProperItems, ValueOf, StatusEvents,
      MessageBegins;
    var c, w := FreshReply(), (StatusBytes(r.line) + ItemsBytes(r.items)) + EndStart(r.eol);
    assert ReplyText(r) == w + [LF];
    StatusLineRun(d, c, r.line);
    StatusUntold(r.line);
    var c1 := Run(d, c, StatusBytes(r.line));
    ItemsRun(d, c1, r.items);
    var c2 := Run(d, c1, ItemsBytes(r.items));
    RunConcat(d, c, StatusBytes(r.line), ItemsBytes(r.items));
    EndRun(d, c2, r.eol);
    RunConcat(d, c, StatusBytes(r.line) + ItemsBytes(r.items), EndStart(r.eol));
    var m := Run(d, c, w);
    RunPush(d, c, w, LF);
    LastLf(d, m);
    HeadAnnounced(d, Counted(m.p).(state := HeadersAlmostDone), m.log, m.used);
    assert ReplyText(r)[..|ReplyText(r)| - 1] == w;
  }

  lemma StatusUntold(l: StatusLine)
    ensures !HeadersTold(([] + MessageBegins(|l.before| + 1)) + StatusEvents(l.eol))
  {
  }

  /** From a fresh parser of responses, the end of the headers is announced at the last of some bytes,
      and not before, exactly if they are the head of a response of at most 80 KB. */
  lemma ExactlyReplies(d: Decision, w: seq<Byte>)
    ensures ReplyEndsWith(d, w) <==> exists r :: ReplyFits(r) && ReplyText(r) == w && |w| <= MAX_HEADER_SIZE
  {
    hide ReplyEndsWith, ReplyFits, ReplyText;
    if ReplyEndsWith(d, w) { OnlyReplies(d, w); }
    forall r | ReplyFits(r) && ReplyText(r) == w && |w| <= MAX_HEADER_SIZE ensures ReplyEndsWith(d, w) {
      AllReplies(d, r);
    }
  }

  // ---------- parsers of both kinds ----------

  function FreshBoth(): Conf { Conf(Init(Both), [], 0, Running) }

  const BEGUN: seq<Event> := [Notice(MessageBegin)]

  lemma BothH(d: Decision)
    ensures One(d, FreshBoth(), 'H') == Conf(Reset(Init(Both)).(state := ResOrRespH, nread := 1), BEGUN, 1, Running)
  {
    hide Switch, FirstMethod, StartsMethod, One;
    StartPass(d, Counted(Init(Both)), 'H');
    OneStep(d, FreshBoth(), 'H');
    assert [] + BEGUN == BEGUN;
  }

  lemma ReplyH(d: Decision)
    ensures One(d, FreshReply(), 'H') == Conf(Reset(Init(Response)).(state := ResH, nread := 1), BEGUN, 1, Running)
  {
    hide Switch, FirstMethod, StartsMethod, One;
    StartPass(d, Counted(Init(Response)), 'H');
    OneStep(d, FreshReply(), 'H');
    assert [] + BEGUN == BEGUN;
  }

  lemma BothT(d: Decision)
    ensures One(d, Conf(Reset(Init(Both)).(state := ResOrRespH, nread := 1), BEGUN, 1, Running), 'T')
      == Conf(Reset(Init(Response)).(state := ResHT, nread := 2), BEGUN, 2, Running)
  {
    hide Switch, FirstMethod, StartsMethod, One;
    var c := Conf(Reset(Init(Both)).(state := ResOrRespH, nread := 1), BEGUN, 1, Running);
    StartPass(d, Counted(c.p), 'T');
    OneStep(d, c, 'T');
  }

  lemma ReplyT(d: Decision)
    ensures One(d, Conf(Reset(Init(Response)).(state := ResH, nread := 1), BEGUN, 1, Running), 'T')
      == Conf(Reset(Init(Response)).(state := ResHT, nread := 2), BEGUN, 2, Running)
  {
    hide Switch, One;
    var c := Conf(Reset(Init(Response)).(state := ResH, nread := 1), BEGUN, 1, Running);
    StatusPass(d, Counted(c.p), 'T');
    OneStep(d, c, 'T');
  }

  lemma FirstTwo(d: Decision)
    ensures One(d, One(d, FreshBoth(), 'H'), 'T') == One(d, One(d, FreshReply(), 'H'), 'T')
    ensures One(d, FreshBoth(), 'H').status.Running? && One(d, FreshReply(), 'H').status.Running?
  {
    hide One, Reset, Init;
    BothH(d);
    ReplyH(d);
    BothT(d);
    ReplyT(d);
  }

  /** A parser of both kinds reads whatever begins with HT as a parser of responses does. */
  lemma EitherReply(d: Decision, w: seq<Byte>)
    requires |w| >= 2 && w[0] == 'H' && w[1] == 'T'
    ensures Run(d, FreshBoth(), w) == Run(d, FreshReply(), w)
  {
    hide One;
    FirstTwo(d);
    AfterTwo(d, FreshBoth(), w);
    AfterTwo(d, FreshReply(), w);
  }

  lemma AfterTwo(d: Decision, c: Conf, w: seq<Byte>)
    requires c.status.Running? && |w| >= 2 && One(d, c, w[0]).status.Running?
    ensures Run(d, c, w) == Run(d, One(d, One(d, c, w[0]), w[1]), w[2..])
  {
    hide One;
    assert w[1..][1..] == w[2..];
  }
}
