/** What a call without bytes answers: the end of the input is an error exactly within a message,
    and completes a body that lasts until it. */
module HttpEof {
  import opened Options
  import opened HttpTypes
  import opened HttpSwitch
  import opened HttpRun
  import opened HttpMarks
  import opened HttpReference
  import opened HttpDelivery
  import opened HttpParser
  import opened HttpSplit
  import opened HttpNames
  import opened HttpValues
  import opened HttpLine
  import opened HttpHead
  import opened HttpMessage
  import opened HttpEnds

  // ---------- line ends, and messages ----------

  predicate LineEnd(b: Byte) { b == CR || b == LF }

  predicate LineEnds(w: seq<Byte>) { forall i | 0 <= i < |w| :: LineEnd(w[i]) }

  /** The states before a message. */
  predicate Before(s: State) { s.Dead? || s.StartReq? || s.StartRes? || s.StartReqOrRes? }

  /** Only line ends leave the parser before a message, and only the end of one leads there. */
  predicate Parts(s: State, b: Byte, o: Outcome) {
    match o
    case Next(q, act) =>
      if Before(s) then Before(q.state) <==> LineEnd(b) else Before(q.state) ==> act == Notify(MessageComplete)
    case Again(q, act) => (Before(s) ==> !LineEnd(b)) && (Before(q.state) ==> Before(s))
    case _ => true
  }

  lemma PartsStart(d: Decision, p: Parser, b: Byte)
    requires GroupOf(p.state).GStart? || GroupOf(p.state).GDead?
    ensures Parts(p.state, b, Switch(d, p, b))
  {
    hide FirstMethod, StartsMethod;
  }

  lemma PartsUrl(d: Decision, p: Parser, b: Byte)
    requires GroupOf(p.state).GUrl?
    ensures Parts(p.state, b, Switch(d, p, b))
  {
    hide IsUrlChar, IsUserInfoChar;
  }

  lemma PartsStatus(d: Decision, p: Parser, b: Byte)
    requires GroupOf(p.state).GStatus?
    ensures Parts(p.state, b, Switch(d, p, b))
  {
    hide InUrl;
  }

  lemma PartsMethod(d: Decision, p: Parser, b: Byte)
    requires GroupOf(p.state).GMethod?
    ensures Parts(p.state, b, Switch(d, p, b))
  {
    hide MethodName, Matcher, OtherMethod, InUrl;
  }

  lemma PartsLine(d: Decision, p: Parser, b: Byte)
    requires GroupOf(p.state).GLine?
    ensures Parts(p.state, b, Switch(d, p, b))
  {
    hide InUrl;
  }

  lemma PartsHeader(d: Decision, p: Parser, b: Byte)
    requires GroupOf(p.state) in {GFieldStart, GField, GValueStart, GValue, GLineEnd, GChunkHead}
    ensures Parts(p.state, b, Switch(d, p, b))
  {
    hide Token, FieldChar, Match;
  }

  lemma PartsBody(d: Decision, p: Parser, b: Byte)
    requires GroupOf(p.state) in {GHeadEnd, GBody}
    ensures Parts(p.state, b, Switch(d, p, b))
  {
    hide NewMessage, NeedsEof;
  }

  lemma SwitchParts(d: Decision, p: Parser, b: Byte)
    ensures Parts(p.state, b, Switch(d, p, b))
  {
    hide Switch, Parts;
    match GroupOf(p.state)
    case GStart | GDead => PartsStart(d, p, b);
    case GUrl => PartsUrl(d, p, b);
    case GStatus => PartsStatus(d, p, b);
    case GMethod => PartsMethod(d, p, b);
    case GLine => PartsLine(d, p, b);
    case GHeadEnd | GBody => PartsBody(d, p, b);
    case _ => PartsHeader(d, p, b);
  }

  /** Whether the parser is before a message once it was in state `s` and took the byte. */
  predicate Stays(s: State, b: Byte, t: State) { Before(t) <==> Before(s) && LineEnd(b) }

  lemma {:induction false} PassesStay(d: Decision, p: Parser, log: seq<Event>, used: int, b: Byte)
    requires var c := Passes(d, p, log, used, b); c.status.Running? && Notice(MessageComplete) !in c.log
    ensures Stays(p.state, b, Passes(d, p, log, used, b).p.state)
    decreases Rank(p.state)
  {
    SwitchMarks(d, p, b);
    SwitchParts(d, p, b);
    hide Switch, PassLog, ByteLog, Live, NextDisciplined;
    match Switch(d, p, b)
    case Next(q, act) => CompleteLogged(log, q.state, act, b);
    case Again(q, act) => PassesStay(d, q, PassLog(log, act, b), used, b);
    case _ =>
  }

  lemma CompleteLogged(log: seq<Event>, s: State, act: Act, b: Byte)
    ensures act == Notify(MessageComplete) ==> Notice(MessageComplete) in ByteLog(PassLog(log, act, b), s, act, b)
  {
    if act == Notify(MessageComplete) {
      var l := PassLog(log, act, b);
      assert l[|log|] == Notice(MessageComplete);
      if Live(s).Some? { NoticeKept(l, Data(Live(s).value, [b]), |log|); }
    }
  }

  lemma NoticeKept(log: seq<Event>, e: Event, i: nat)
    requires i < |log| && log[i].Notice?
    ensures i < |Put(log, e)| && Put(log, e)[i] == log[i]
  {
  }

  lemma WasRunning(d: Decision, c: Conf, w: seq<Byte>)
    requires Run(d, c, w).status.Running?
    ensures c.status.Running?
  {
    hide One;
  }

  /** As long as no message is completed, the parser is before one as long as there were only line
      ends. */
  lemma {:induction false} RunStays(d: Decision, c: Conf, w: seq<Byte>)
    requires Incomplete(Run(d, c, w))
    ensures Before(Run(d, c, w).p.state) <==> Before(c.p.state) && LineEnds(w)
    decreases |w|
  {
    hide Passes;
    if w != [] {
      var o := One(d, c, w[0]);
      WasRunning(d, c, w);
      WasRunning(d, o, w[1..]);
      RunKeeps(d, o, w[1..]);
      PassesStay(d, Counted(c.p), c.log, c.used, w[0]);
      RunStays(d, o, w[1..]);
      assert LineEnds(w) <==> LineEnd(w[0]) && LineEnds(w[1..]) by { assert w == [w[0]] + w[1..]; }
    }
  }

  // ---------- requests ----------

  /** A parser of requests, not before a response and not in a body that lasts until the end. */
  predicate OfRequests(p: Parser) {
    p.kind.Request? && !p.state.StartRes? && !p.state.StartReqOrRes? && !p.state.ResOrRespH?
      && !p.state.BodyIdentityEof?
  }

  /** A parser of requests remains one; it leaves the states before a message when it announces the
      beginning of one, and comes back when it announces its end. */
  predicate Alternates(s: State, o: Outcome) {
    match o
    case Next(q, act) =>
      && OfRequests(q)
      && (if Before(s) then act == (if Before(q.state) then Quiet else Notify(MessageBegin))
          else Before(q.state) <==> act == Notify(MessageComplete))
    case Again(q, act) => OfRequests(q) && !Before(s) && !Before(q.state) && act != Notify(MessageComplete)
    case Stop(q, act) => OfRequests(q) && !Before(s) && Before(q.state) && act == Notify(MessageComplete)
    case _ => true
  }

  lemma AlternatesStart(d: Decision, p: Parser, b: Byte)
    requires OfRequests(p) && (GroupOf(p.state).GStart? || GroupOf(p.state).GDead?)
    ensures Alternates(p.state, Switch(d, p, b))
  {
    hide FirstMethod, StartsMethod;
  }

  lemma AlternatesUrl(d: Decision, p: Parser, b: Byte)
    requires OfRequests(p) && GroupOf(p.state).GUrl?
    ensures Alternates(p.state, Switch(d, p, b))
  {
    hide IsUrlChar, IsUserInfoChar;
  }

  lemma AlternatesStatus(d: Decision, p: Parser, b: Byte)
    requires OfRequests(p) && GroupOf(p.state).GStatus?
    ensures Alternates(p.state, Switch(d, p, b))
  {
    hide InUrl;
  }

  lemma AlternatesMethod(d: Decision, p: Parser, b: Byte)
    requires OfRequests(p) && GroupOf(p.state).GMethod?
    ensures Alternates(p.state, Switch(d, p, b))
  {
    hide MethodName, Matcher, OtherMethod, InUrl;
  }

  lemma AlternatesLine(d: Decision, p: Parser, b: Byte)
    requires OfRequests(p) && GroupOf(p.state).GLine?
    ensures Alternates(p.state, Switch(d, p, b))
  {
    hide InUrl;
  }

  lemma AlternatesHeader(d: Decision, p: Parser, b: Byte)
    requires OfRequests(p) && GroupOf(p.state) in {GFieldStart, GField, GValueStart, GValue, GLineEnd, GChunkHead}
    ensures Alternates(p.state, Switch(d, p, b))
  {
    hide Token, FieldChar, Match;
  }

  lemma AlternatesBody(d: Decision, p: Parser, b: Byte)
    requires OfRequests(p) && GroupOf(p.state) in {GHeadEnd, GBody}
    ensures Alternates(p.state, Switch(d, p, b))
  {
    hide ShouldKeepAlive, NeedsEof;
  }

  lemma SwitchAlternates(d: Decision, p: Parser, b: Byte)
    requires OfRequests(p)
    ensures Alternates(p.state, Switch(d, p, b))
  {
    hide Switch, Alternates;
    match GroupOf(p.state)
    case GStart | GDead => AlternatesStart(d, p, b);
    case GUrl => AlternatesUrl(d, p, b);
    case GStatus => AlternatesStatus(d, p, b);
    case GMethod => AlternatesMethod(d, p, b);
    case GLine => AlternatesLine(d, p, b);
    case GHeadEnd | GBody => AlternatesBody(d, p, b);
    case _ => AlternatesHeader(d, p, b);
  }

  /** Every message that was begun has been completed. */
  predicate AllCompleted(log: seq<Event>) { log == [] || Completed(log) }

  /** The parser is before a message exactly when every message begun has been completed. */
  predicate Balanced(c: Conf) { OfRequests(c.p) && (Before(c.p.state) <==> AllCompleted(c.log)) }

  lemma NextBalanced(p: Parser, log: seq<Event>, q: Parser, act: Act, b: Byte)
    requires Alternates(p.state, Next(q, act)) && (Before(p.state) <==> AllCompleted(log))
    requires NextDisciplined(p.state, q.state, act)
    ensures Before(q.state) <==> AllCompleted(ByteLog(PassLog(log, act, b), q.state, act, b))
  {
    hide Put, Completed, BodyHold;
    forall l: seq<Event>, e: Event ensures Completed(Put(l, e)) <==> e == Notice(MessageComplete) { PutOrderly(l, e); }
  }

  lemma PassBalanced(p: Parser, log: seq<Event>, q: Parser, act: Act, b: Byte)
    requires (Alternates(p.state, Again(q, act)) || Alternates(p.state, Stop(q, act))) && !act.Mark?
    requires Before(p.state) <==> AllCompleted(log)
    ensures Before(q.state) <==> AllCompleted(PassLog(log, act, b))
  {
    hide Put, Completed;
    forall l: seq<Event>, e: Event ensures Completed(Put(l, e)) <==> e == Notice(MessageComplete) { PutOrderly(l, e); }
  }

  lemma {:induction false} PassesBalanced(d: Decision, p: Parser, log: seq<Event>, used: int, b: Byte)
    requires OfRequests(p) && (Before(p.state) <==> AllCompleted(log))
    ensures var c := Passes(d, p, log, used, b); c.status.Running? || c.status.Stopped? ==> Balanced(c)
    decreases Rank(p.state)
  {
    SwitchMarks(d, p, b);
    SwitchAlternates(d, p, b);
    hide Switch, PassLog, ByteLog, Live, NextDisciplined, AllCompleted;
    match Switch(d, p, b)
    case Next(q, act) => NextBalanced(p, log, q, act, b);
    case Again(q, act) =>
      PassBalanced(p, log, q, act, b);
      PassesBalanced(d, q, PassLog(log, act, b), used, b);
    case Stop(q, act) => PassBalanced(p, log, q, act, b);
    case _ =>
  }

  lemma {:induction false} RunBalanced(d: Decision, c: Conf, bytes: seq<Byte>)
    requires Balanced(c)
    ensures var r := Run(d, c, bytes); r.status.Running? || r.status.Stopped? ==> Balanced(r)
    decreases |bytes|
  {
    hide Passes, Before, AllCompleted;
    if bytes != [] && c.status.Running? {
      var o := One(d, c, bytes[0]);
      PassesBalanced(d, Counted(c.p), c.log, c.used, bytes[0]);
      if o.status.Running? { RunBalanced(d, o, bytes[1..]); } else { EndedRun(d, o, bytes[1..]); }
    }
  }

  // ---------- the end of the input ----------

  /** Any bytes on a fresh parser of requests, and the end of the input: unless the bytes were
      refused, it is accepted exactly if every message begun has been completed. */
  method EndOfRequests(d: Decision, data: seq<Byte>) returns (parser: HttpParser, n: nat)
    ensures var c := Run(d, Fresh(), data);
      && (c.status.Running? || c.status.Stopped? ==>
        && Merged(parser.calls) == c.log
        && parser.p.errno == (if AllCompleted(c.log) then OK else InvalidEofState)
        && n == (if AllCompleted(c.log) then 0 else 1))
      && (c.status.Failed? ==> parser.p.errno == c.p.errno != OK && n == 0)
  {
    hide Run, Good, Merged, Dropped, AllCompleted;
    parser := new HttpParser(Request);
    InitGood(Request);
    EmptyMerged();
    NoneBegun();
    RunBalanced(d, Fresh(), data);
    RunFine(d, Fresh(), data);
    FineErrno(Run(d, Fresh(), data));
    EmptyRun(d, Fresh());
    n := parser.Execute(d, data);
    Unheard([]);
    Unheard(parser.calls);
    n := parser.Execute(d, []);
  }

  lemma Unheard(calls: seq<Event>)
    ensures calls + Listed(None) == calls
  {
  }

  lemma NoneBegun()
    ensures Balanced(Fresh())
  {
  }

  // ---------- messages cut off ----------

  /** Within a request, as long as it is not whole. */
  lemma RequestPrefix(d: Decision, m: Message, w: seq<Byte>)
    requires ProperRequest(m) && w <= RequestBytes(m) && m.skip == Answer(d, Fresh(), HeadStart(m.head))
    ensures var c := Run(d, Fresh(), w);
      && (c.status.Running? || c.status.Stopped?)
      && (AllCompleted(c.log) <==> w == RequestBytes(m) || LineEnds(w))
  {
    hide Run, RequestBytes, ProperRequest, Answer, HeadStart, RequestLog, LineEnds, Before, Persistent;
    if w == RequestBytes(m) {
      WithinLimit(m);
      RequestRun(d, Fresh(), m);
      LogCompleted([], m);
    } else {
      NotCompleteBefore(d, m, w);
      StillRuns(d, m, w);
      NoneBegun();
      RunBalanced(d, Fresh(), w);
      RunStays(d, Fresh(), w);
      BeforeFresh(Request);
    }
  }

  lemma BeforeFresh(kind: ParserType)
    ensures Before(Init(kind).state)
  {
  }

  lemma WithinLimit(m: Message)
    requires ProperRequest(m)
    ensures Fresh().p.nread + |Rendered(m.head)| <= MAX_HEADER_SIZE && AtRequest(Fresh().p) && Fresh().p.kind.Request?
  {
    hide Rendered, ProperLine, ProperHeader, Fits, HeadFrame;
  }

  lemma LogCompleted(log: seq<Event>, m: Message)
    ensures Completed(RequestLog(log, m))
  {
    hide HeadLog, HeaderEvents, BodyEvents;
  }

  lemma StillRuns(d: Decision, m: Message, w: seq<Byte>)
    requires ProperRequest(m) && w < RequestBytes(m) && m.skip == Answer(d, Fresh(), HeadStart(m.head))
    ensures Run(d, Fresh(), w).status.Running?
  {
    hide Run, RequestBytes, ProperRequest, Answer, HeadStart;
    WithinLimit(m);
    AlmostAll(d, Fresh(), m);
    var all := RequestBytes(m)[..|RequestBytes(m)| - 1];
    assert w + all[|w|..] == all;
    RunConcat(d, Fresh(), w, all[|w|..]);
    WasRunning(d, Run(d, Fresh(), w), all[|w|..]);
  }

  /** A request cut off anywhere, and the end of the input: an error, with no callback added, unless
      it is cut off before it begins or is whole. */
  method RequestCutOff(d: Decision, m: Message, w: seq<Byte>) returns (parser: HttpParser, n: nat)
    requires ProperRequest(m) && w <= RequestBytes(m) && m.skip == Answer(d, Fresh(), HeadStart(m.head))
    ensures Merged(parser.calls) == Run(d, Fresh(), w).log
    ensures w == RequestBytes(m) ==> Merged(parser.calls) == RequestLog([], m)
    ensures if LineEnds(w) || w == RequestBytes(m) then n == 0 && parser.p.errno == OK
      else n == 1 && parser.p.errno == InvalidEofState
  {
    hide Run, RequestBytes, ProperRequest, Answer, HeadStart, RequestLog, LineEnds, AllCompleted, Merged;
    RequestPrefix(d, m, w);
    if w == RequestBytes(m) {
      WithinLimit(m);
      RequestRun(d, Fresh(), m);
    }
    parser, n := EndOfRequests(d, w);
  }

  /** Where a response begins. */
  function FreshReply(): Conf { Conf(Init(Response), [], 0, Running) }

  lemma ReplyIncomplete(r: Reply)
    ensures Notice(MessageComplete) !in ReplyHeadLog([], r)
  {
    HeadersNoNotice(r.headers);
  }

  lemma ReplyHeadAlmost(d: Decision, r: Reply, skip: bool)
    requires ProperReply(r, skip) && ContentBytes(r.content) == []
    ensures ReplyBytes(r) != [] && Incomplete(Run(d, FreshReply(), ReplyBytes(r)[..|ReplyBytes(r)| - 1]))
  {
    hide Run, ReplyHead, ReplyStart, ReplyRead, ReplyHeadLog, HeadFrame, ContentBytes, Fits, ProperStatus, ProperHeader,
      ReplyFraming;
    ReplyHeadBytes(r);
    ReplyIncomplete(r);
    ReplyStartRun(d, FreshReply(), r, skip);
    assert ReplyBytes(r)[..|ReplyBytes(r)| - 1] == ReplyStart(r);
  }

  /** Before the last byte of a response that does not last until the end of the input. */
  lemma ReplyAlmost(d: Decision, r: Reply, skip: bool)
    requires ProperReply(r, skip) && skip == Answer(d, FreshReply(), ReplyStart(r)) && !ReplyFraming(r, skip).UntilEnd?
    ensures ReplyBytes(r) != [] && Incomplete(Run(d, FreshReply(), ReplyBytes(r)[..|ReplyBytes(r)| - 1]))
  {
    hide Run, ReplyHead, ReplyStart, ReplyRead, ReplyHeadLog, HeadFrame, EndOfHead, ContentBytes, Fits, ProperStatus,
      ProperHeader, Answer, ValueOf, Bodied, FramingOf, Endless, Upgrading;
    var c, head, content, all := FreshReply(), ReplyHead(r), ContentBytes(r.content), ReplyBytes(r);
    if content == [] {
      ReplyHeadAlmost(d, r, skip);
    } else {
      ReplyIncomplete(r);
      WholeReply(d, c, r, skip);
      ReplyEnd(c.p, Run(d, c, ReplyStart(r)).p, r);
      FrameLength(Frame(NO_FLAGS, ULLONG_MAX), r.headers);
      FrameIs(r.headers);
      ContentAlmost(d, EndAt(d, c, ReplyStart(r)), ReplyHeadLog(c.log, r), c.used + |head|, skip, r.content);
      assert all[..|all| - 1] == head + content[..|content| - 1];
      RunConcat(d, c, head, content[..|content| - 1]);
    }
  }

  /** A body that lasts until the end of the input goes on whatever comes. */
  lemma EndlessStays(d: Decision, c: Conf, w: seq<Byte>)
    requires c.status.Running? && c.p.state.BodyIdentityEof?
    ensures Run(d, c, w).p == c.p && (w != [] ==> Run(d, c, w).log == Put(c.log, Data(Body, w)))
  {
    hide Run, One, Put;
    if w == [] {
      EmptyRun(d, c);
    } else {
      Skip(d, c.p, c.log, c.used, w, |w|);
      assert w[..|w|] == w && w[|w|..] == [];
      EmptyRun(d, Conf(c.p, Put(c.log, Data(Body, w)), c.used + |w|, Running));
    }
  }

  /** A response whose body lasts until the end, with only a part of the body. */
  function Shorter(r: Reply, n: nat): Reply
    requires r.content.Plain? && n <= |r.content.bytes|
  {
    r.(content := Plain(r.content.bytes[..n]))
  }

  lemma ShorterProper(r: Reply, skip: bool, n: nat)
    requires ProperReply(r, skip) && ReplyFraming(r, skip).UntilEnd? && n <= |r.content.bytes|
    ensures ProperReply(Shorter(r, n), skip) && ReplyFraming(Shorter(r, n), skip).UntilEnd?
    ensures ReplyStart(Shorter(r, n)) == ReplyStart(r) && ReplyHead(Shorter(r, n)) == ReplyHead(r)
    ensures ReplyBytes(Shorter(r, n)) == ReplyBytes(r)[..|ReplyHead(r)| + n]
    ensures !HeadFrame(Shorter(r, n).headers).flags.upgrade
  {
    hide HeadFrame, ProperStatus, ProperHeader, StatusBytes, HeadersBytes, ValueOf;
  }

  lemma EndlessIncomplete(r: Reply)
    requires r.content.Plain?
    ensures Notice(MessageComplete) !in (ReplyHeadLog([], r) + [Notice(HeadersComplete)]) +
      BodyEvents(BodyOf(r.content))
  {
    ReplyIncomplete(r);
    hide ReplyHeadLog;
  }

  lemma AtFreshReply(r: Reply, skip: bool)
    requires ProperReply(r, skip)
    ensures AtReply(FreshReply().p) && FreshReply().p.nread + |ReplyHead(r)| <= MAX_HEADER_SIZE
      && FreshReply().status.Running? && FreshReply().log == []
  {
    hide ReplyHead, ProperStatus, ProperHeader, Fits, ReplyFraming;
  }

  /** With the head of a response read, its body is read until the end of the input. */
  lemma EndlessPart(d: Decision, r: Reply, skip: bool, w: seq<Byte>)
    requires ProperReply(r, skip) && ReplyFraming(r, skip).UntilEnd? && skip == Answer(d, FreshReply(), ReplyStart(r))
    requires w <= ReplyBytes(r) && |ReplyHead(r)| <= |w|
    ensures var c := Run(d, FreshReply(), w);
      && Incomplete(c) && c.p.state.BodyIdentityEof?
      && c.log == (ReplyHeadLog([], r) + [Notice(HeadersComplete)]) + BodyEvents(w[|ReplyHead(r)|..])
  {
    hide Run, ReplyHead, ReplyStart, ReplyHeadLog, ReplyBytes, ProperReply, ReplyFraming, HeadFrame, BodyEvents, Answer,
      AtReply, Recorded, Lives, Unended, BodyLog;
    PlainReply(r, skip);
    var n := |w| - |ReplyHead(r)|;
    var s := Shorter(r, n);
    ShorterProper(r, skip, n);
    AtFreshReply(s, skip);
    ReplyRun(d, FreshReply(), s, skip);
    EndlessIncomplete(s);
    SameHeadLog(r, n);
    assert w == ReplyBytes(s);
  }

  lemma SameHeadLog(r: Reply, n: nat)
    requires r.content.Plain? && n <= |r.content.bytes|
    ensures ReplyHeadLog([], Shorter(r, n)) == ReplyHeadLog([], r)
    ensures BodyOf(Shorter(r, n).content) == ReplyBytes(Shorter(r, n))[|ReplyHead(r)|..]
  {
    hide HeaderEvents, StatusBytes, HeadersBytes;
  }

  lemma PlainReply(r: Reply, skip: bool)
    requires ProperReply(r, skip) && ReplyFraming(r, skip).UntilEnd?
    ensures r.content.Plain? && ReplyBytes(r) == ReplyHead(r) + r.content.bytes
  {
    hide HeadFrame, ProperStatus, ProperHeader, StatusBytes, HeadersBytes, ReplyHead, ReplyFraming;
  }

  /** Within the head of a response. */
  lemma EndlessHead(d: Decision, r: Reply, skip: bool, w: seq<Byte>)
    requires ProperReply(r, skip) && ReplyFraming(r, skip).UntilEnd? && skip == Answer(d, FreshReply(), ReplyStart(r))
    requires w < ReplyHead(r)
    ensures Incomplete(Run(d, FreshReply(), w)) && !Run(d, FreshReply(), w).p.state.BodyIdentityEof?
  {
    hide Run, ReplyHead, ReplyStart, ReplyHeadLog, ReplyBytes, ProperReply, ReplyFraming, Answer, Put;
    PlainReply(r, skip);
    var head := ReplyHead(r);
    assert ReplyBytes(r)[..|head|] == head && head <= ReplyBytes(r);
    EndlessPart(d, r, skip, head);
    var c := Run(d, FreshReply(), w);
    var rest := head[|w|..];
    assert head == w + rest && rest != [];
    RunConcat(d, FreshReply(), w, rest);
    WasRunning(d, c, rest);
    RunKeeps(d, c, rest);
    if c.p.state.BodyIdentityEof? {
      EndlessStays(d, c, rest);
      LastPut(c.log, Data(Body, rest));
      assert head[|head|..] == [];
      LastNotice(ReplyHeadLog([], r));
    }
  }

  lemma LastPut(log: seq<Event>, e: Event)
    requires e.Data?
    ensures var p := Put(log, e); p[|p| - 1].Data?
  {
  }

  lemma LastNotice(log: seq<Event>)
    ensures var p := (log + [Notice(HeadersComplete)]) + BodyEvents([]); p != [] && p[|p| - 1].Notice?
  {
  }

  /** Within a response that has an end. */
  lemma EndedPart(d: Decision, r: Reply, skip: bool, w: seq<Byte>)
    requires ProperReply(r, skip) && !ReplyFraming(r, skip).UntilEnd? && skip == Answer(d, FreshReply(), ReplyStart(r))
    requires w < ReplyBytes(r)
    ensures Incomplete(Run(d, FreshReply(), w)) && !Run(d, FreshReply(), w).p.state.BodyIdentityEof?
  {
    hide Run, ReplyHead, ReplyStart, ReplyHeadLog, ReplyBytes, ProperReply, ReplyFraming, Answer, AtReply, HeadFrame,
      Recorded, Lives, Unended, BodyLog, BodyEvents, Put;
    var all := ReplyBytes(r);
    var c := Run(d, FreshReply(), w);
    ReplyAlmost(d, r, skip);
    var most := all[..|all| - 1];
    assert most == w + most[|w|..];
    RunConcat(d, FreshReply(), w, most[|w|..]);
    WasRunning(d, c, most[|w|..]);
    RunKeeps(d, c, most[|w|..]);
    if c.p.state.BodyIdentityEof? {
      assert all == w + all[|w|..];
      RunConcat(d, FreshReply(), w, all[|w|..]);
      EndlessStays(d, c, all[|w|..]);
      AtFreshReply(r, skip);
      ReplyRun(d, FreshReply(), r, skip);
    }
  }

  lemma ReplyParts(r: Reply, skip: bool)
    requires ProperReply(r, skip)
    ensures ProperStatus(r.line) && |ReplyHead(r)| <= |ReplyBytes(r)|
  {
    hide ProperStatus, ReplyHead, ReplyFraming, ContentBytes, Fits, ProperHeader;
  }

  /** Where the parser is within a response. */
  lemma ReplyPrefix(d: Decision, r: Reply, skip: bool, w: seq<Byte>)
    requires ProperReply(r, skip) && w <= ReplyBytes(r) && skip == Answer(d, FreshReply(), ReplyStart(r))
    ensures var c, endless := Run(d, FreshReply(), w), ReplyFraming(r, skip).UntilEnd?;
      && (c.status.Running? || c.status.Stopped?)
      && (Before(c.p.state) <==> LineEnds(w) || (w == ReplyBytes(r) && !endless))
      && (c.p.state.BodyIdentityEof? <==> endless && |ReplyHead(r)| <= |w|) && |ReplyHead(r)| <= |ReplyBytes(r)|
  {
    hide Run, ReplyHead, ReplyStart, ReplyHeadLog, ReplyBytes, ProperReply, ReplyFraming, Answer, AtReply, HeadFrame,
      Recorded, Lives, Unended, BodyLog, BodyEvents, LineEnds;
    BeforeFresh(Response);
    ReplyParts(r, skip);
    if ReplyFraming(r, skip).UntilEnd? {
      if |ReplyHead(r)| <= |w| {
        EndlessPart(d, r, skip, w);
      } else {
        PlainReply(r, skip);
        EndlessHead(d, r, skip, w);
      }
      RunStays(d, FreshReply(), w);
    } else if w == ReplyBytes(r) {
      AtFreshReply(r, skip);
      ReplyRun(d, FreshReply(), r, skip);
    } else {
      EndedPart(d, r, skip, w);
      RunStays(d, FreshReply(), w);
    }
  }

  /** A response cut off anywhere, and the end of the input: a body that lasts until the end is
      completed there, once; elsewhere it is an error, with no callback added, unless the response is
      cut off before it begins or is whole. */
  method ReplyCutOff(d: Decision, r: Reply, skip: bool, w: seq<Byte>) returns (parser: HttpParser, n: nat)
    requires ProperReply(r, skip) && w <= ReplyBytes(r) && skip == Answer(d, FreshReply(), ReplyStart(r))
    ensures var endless, log := ReplyFraming(r, skip).UntilEnd?, Run(d, FreshReply(), w).log;
      if endless && |ReplyHead(r)| <= |w| then
        n == 0 && parser.p.errno == OK && Merged(parser.calls) == log + [Notice(MessageComplete)]
      else if LineEnds(w) || w == ReplyBytes(r) then
        n == 0 && parser.p.errno == OK && Merged(parser.calls) == log
      else
        n == 1 && parser.p.errno == InvalidEofState && Merged(parser.calls) == log
  {
    hide Run, ReplyHead, ReplyStart, ReplyBytes, ProperReply, ReplyFraming, Answer, LineEnds, Merged, Dropped, Good;
    ReplyPrefix(d, r, skip, w);
    parser := new HttpParser(Response);
    InitGood(Response);
    EmptyMerged();
    RunFine(d, FreshReply(), w);
    FineErrno(Run(d, FreshReply(), w));
    EmptyRun(d, FreshReply());
    Unheard([]);
    n := parser.Execute(d, w);
    Unheard(parser.calls);
    MergedPush(parser.calls, Notice(MessageComplete));
    NoticePut(Merged(parser.calls), MessageComplete);
    n := parser.Execute(d, []);
  }
}
