/** `http_request_parse`: the loop that reads until a head is complete or refused, whatever the
    bytes and however they are cut into reads. */
module HttpReads {
  import opened Options
  import opened HttpTypes
  import opened HttpSwitch
  import opened HttpRun
  import opened HttpMarks
  import opened HttpReference
  import opened HttpParser
  import opened HttpSplit
  import opened HttpLine
  import opened HttpHead
  import opened HttpUrlDelivered
  import opened HttpRequest
  import opened HttpSecond

  /** on_headers_complete answers 1: the message has no body to read. */
  function NoBody(p: Parser): bool { true }

  // ---------- the context in every state of the parser ----------

  /** Where in a head the parser is: before its URL, or between two requests; in its first line
      from the URL on; where a header or the end may come; within a header; at the end. */
  datatype Phase = Awaiting | OnLine | AtStart | OnHeader | AtEnd | Elsewhere

  function PhaseOf(s: State): Phase {
    if s.Dead? || s.StartReq? || s.ReqMethod? || s.ReqSpacesBeforeUrl? then Awaiting
    else if InsideUrl(s) || OnVersion(s) then OnLine
    else if s.HeaderFieldStart? || s.HeadersAlmostDone? then AtStart
    else if s.HeaderField? || s.HeaderValueStart? || s.HeaderValue? || s.HeaderAlmostDone? || s.HeaderValueLws? then
      OnHeader
    else if s.HeadersDone? then AtEnd
    else Elsewhere
  }

  predicate OnVersion(s: State) {
    s.ReqHttpStart? || s.ReqHttpH? || s.ReqHttpHT? || s.ReqHttpHTT? || s.ReqHttpHTTP? || s.ReqFirstHttpMajor? ||
    s.ReqHttpMajor? || s.ReqFirstHttpMinor? || s.ReqHttpMinor? || s.ReqLineAlmostDone?
  }

  /** The URL is being collected. */
  predicate UrlBegun(c: Ctx) { c.stage.InUrl? && c.buffer.Some? && c.header.None? }

  predicate NameBegun(c: Ctx) { c.stage.InName? && c.url.Some? && c.header.Some? }

  /** What the callbacks have made of the context in a phase: there is a URL wherever the end of
      the headers may come. */
  predicate Known(ph: Phase, c: Ctx) {
    && (c.headersDone ==> c.url.Some?) && (c.header.None? && c.lastWasValue ==> c.headersDone)
    && match ph
       case Awaiting => c.header.None?
       case OnLine => UrlBegun(c)
       case AtStart => UrlBegun(c) || NameBegun(c)
       case OnHeader => NameBegun(c)
       case AtEnd => c.headersDone && c.header.None?
       case Elsewhere => false
  }

  /** A parser of requests that reads no bodies. */
  predicate NoBodies(p: Parser) {
    && p.kind.Request? && !p.flags.trailing && !PhaseOf(p.state).Elsewhere?
    && (p.state.HeadersDone? ==> p.flags.skipBody || p.upgrade)
  }

  /** Until the headers are done, no null pointer is met. */
  predicate KnownAll(ph: Phase, log: seq<Event>) {
    match HandleAll(log)
    case None => Notice(HeadersComplete) in log
    case Some(c) => Known(ph, c)
  }

  // ---------- one pass ----------

  /** What a pass adds to the callbacks, in the states of a head. */
  function EventOf(act: Act, t: State, b: Byte): Option<Event> {
    match act
    case Notify(n) => Some(Notice(n))
    case Flush(k) => Some(Data(k, []))
    case MarkFlush(k) => Some(Data(k, []))
    case _ => if Live(t).Some? then Some(Data(Live(t).value, [b])) else None
  }

  /** The parser may go from one phase to another with the event. */
  predicate Leads(s: Phase, e: Option<Event>, t: Phase) {
    match e
    case None => s == t || (s.OnLine? && t.AtStart?) || (s.OnHeader? && t.AtStart?)
    case Some(Data(Url, _)) => (s.Awaiting? || s.OnLine?) && (t.OnLine? || t.AtStart?)
    case Some(Data(Field, _)) => (s.AtStart? || s.OnHeader?) && (t.OnHeader? || t.AtStart?)
    case Some(Data(Value, _)) => s.OnHeader? && (t.OnHeader? || t.AtStart?)
    case Some(Notice(MessageBegin)) => s.Awaiting? && t.Awaiting?
    case Some(Notice(HeadersComplete)) => s.AtStart? && t.AtEnd?
    case Some(Notice(MessageComplete)) => s.AtEnd? && t.Awaiting?
    case _ => false
  }

  /** The context moves on with the phase; a null pointer is met only after a first head. */
  lemma LeadsKnown(s: Phase, e: Event, t: Phase, c: Ctx)
    requires Known(s, c) && Leads(s, Some(e), t)
    ensures match Handle(c, e) case None => c.headersDone case Some(m) => Known(t, m)
  {
    hide Upto;
  }

  lemma QuietKnown(s: Phase, t: Phase, c: Ctx)
    requires Known(s, c) && Leads(s, None, t)
    ensures Known(t, c)
  {
  }

  /** A pass of a parser that reads no bodies. */
  predicate Moves(p: Parser, o: Outcome, b: Byte) {
    match o
    case Next(q, act) => Goes(p, q, act, b) && !q.state.HeadersDone?
    case Again(q, act) => Goes(p, q, act, b) && act.Quiet? == EventOf(act, q.state, b).None?
    case Stop(q, act) =>
      NoBodies(q) && p.state.HeadersDone? && act == Notify(MessageComplete) && PhaseOf(q.state).Awaiting?
    case _ => true
  }

  predicate Goes(p: Parser, q: Parser, act: Act, b: Byte) {
    NoBodies(q) && Leads(PhaseOf(p.state), EventOf(act, q.state, b), PhaseOf(q.state)) && !act.Last?
      && act != Mark(Body)
  }

  lemma StartMoves(d: Decision, p: Parser, b: Byte)
    requires NoBodies(p) && (p.state.Dead? || p.state.StartReq? || p.state.ReqMethod?)
    ensures Moves(p, Switch(d, p, b), b)
  {
    hide MethodName, Matcher, OtherMethod, FirstMethod, StartsMethod;
  }

  lemma PhaseIs(s: State)
    ensures s.ReqSpacesBeforeUrl? ==> PhaseOf(s).Awaiting? && Live(s).None?
    ensures InsideUrl(s) ==> PhaseOf(s).OnLine? && Live(s) == Some(Url)
    ensures OnVersion(s) ==> PhaseOf(s).OnLine? && Live(s).None?
  {
  }

  lemma HeaderPhase(s: State)
    ensures s.HeaderFieldStart? || s.HeadersAlmostDone? ==> PhaseOf(s).AtStart? && Live(s).None?
    ensures s.HeaderField? ==> PhaseOf(s).OnHeader? && Live(s) == Some(Field)
    ensures s.HeaderValue? ==> PhaseOf(s).OnHeader? && Live(s) == Some(Value)
    ensures s.HeaderValueStart? || s.HeaderAlmostDone? || s.HeaderValueLws? ==> PhaseOf(s).OnHeader? && Live(s).None?
  {
  }

  lemma UrlMoves(p: Parser, b: Byte)
    requires NoBodies(p) && GroupOf(p.state).GUrl?
    ensures Moves(p, HttpSwitch.InUrl(p, b), b)
  {
    hide UrlChar, InsideUrl, PhaseOf, Live;
    UrlCharStays(p.state, b);
    UrlCharStays(ReqServerStart, b);
    UrlStates(p.state);
    PhaseIs(p.state);
    var o := HttpSwitch.InUrl(p, b);
    if o.Next? { PhaseIs(o.p.state); HeaderPhase(o.p.state); UrlStates(o.p.state); }
  }

  lemma UrlStates(s: State)
    ensures InsideUrl(s) ==> !s.HeadersDone? && !s.Dead?
    ensures GroupOf(s).GUrl? && !s.ReqSpacesBeforeUrl? ==> InsideUrl(s)
  {
  }

  lemma LineMoves(p: Parser, b: Byte)
    requires NoBodies(p) && GroupOf(p.state).GLine?
    ensures Moves(p, RequestLineEnd(p, b), b)
  {
    hide PhaseOf, Live, InsideUrl, RequestLineEnd, GroupOf;
    VersionGroup(p.state);
    PhaseIs(p.state);
    var o := RequestLineEnd(p, b);
    LineStays(p, b);
    if o.Next? { PhaseIs(o.p.state); HeaderPhase(o.p.state); }
  }

  lemma VersionGroup(s: State)
    ensures OnVersion(s) <==> GroupOf(s).GLine?
  {
  }

  lemma LineStays(p: Parser, b: Byte)
    requires OnVersion(p.state)
    ensures match RequestLineEnd(p, b)
      case Next(q, act) =>
        act.Quiet? && (OnVersion(q.state) || q.state.HeaderFieldStart?) && !q.state.HeadersDone?
          && q == p.(state := q.state, major := q.major, minor := q.minor)
      case Fail(_, _) => true
      case _ => false
  {
  }

  lemma FieldMoves(p: Parser, b: Byte)
    requires NoBodies(p) && (p.state.HeaderFieldStart? || p.state.HeaderField?)
    ensures Moves(p, if p.state.HeaderField? then InField(p, b) else FieldStart(p, b), b)
  {
    hide Token, FieldChar, FirstHeaderState, PhaseOf, Live;
    HeaderPhase(p.state);
    var o := if p.state.HeaderField? then InField(p, b) else FieldStart(p, b);
    if o.Next? || o.Again? { HeaderPhase(o.p.state); }
  }

  lemma LineEndMoves(p: Parser, b: Byte)
    requires NoBodies(p) && GroupOf(p.state).GLineEnd?
    ensures Moves(p, HeaderLineEnd(p, b), b)
  {
    hide PhaseOf, Live;
    HeaderPhase(p.state);
    var o := HeaderLineEnd(p, b);
    if o.Next? || o.Again? { HeaderPhase(o.p.state); }
  }

  lemma ValueMoves(p: Parser, b: Byte)
    requires NoBodies(p) && (p.state.HeaderValueStart? || p.state.HeaderValue?)
    ensures Moves(p, if p.state.HeaderValue? then HttpSwitch.InValue(p, b) else ValueStart(p, b), b)
  {
    hide Match, PhaseOf, Live;
    HeaderPhase(p.state);
    var o := if p.state.HeaderValue? then HttpSwitch.InValue(p, b) else ValueStart(p, b);
    if o.Next? || o.Again? { HeaderPhase(o.p.state); }
  }

  lemma EndMoves(p: Parser, b: Byte)
    requires NoBodies(p) && GroupOf(p.state).GHeadEnd?
    ensures Moves(p, HeadEnd(NoBody, p, b), b)
  {
    hide NeedsEof, ShouldKeepAlive;
  }

  lemma SwitchMoves(p: Parser, b: Byte)
    requires NoBodies(p)
    ensures Moves(p, Switch(NoBody, p, b), b)
  {
    hide Moves, NoBodies, Switch;
    StatesNoBody(p);
    match GroupOf(p.state)
    case GDead | GStart | GMethod => StartMoves(NoBody, p, b);
    case GUrl => UrlMoves(p, b); UrlPass(NoBody, p, b);
    case GLine => LineMoves(p, b); LinePass(NoBody, p, b);
    case GFieldStart => FieldMoves(p, b); FieldStartPass(NoBody, p, b);
    case GField => FieldMoves(p, b); FieldPass(NoBody, p, b);
    case GLineEnd => LineEndMoves(p, b); LineEndPass(NoBody, p, b);
    case GValueStart => ValueMoves(p, b); ValueStartPass(NoBody, p, b);
    case GValue => ValueMoves(p, b); ValuePass(NoBody, p, b);
    case GHeadEnd => EndMoves(p, b); HeadEndPass(NoBody, p, b);
  }

  lemma StatesNoBody(p: Parser)
    requires NoBodies(p)
    ensures GroupOf(p.state) !in {GStatus, GChunkHead, GBody}
    ensures GroupOf(p.state) in {GDead, GStart, GMethod} ==> p.state.Dead? || p.state.StartReq? || p.state.ReqMethod?
  {
  }

  // ---------- all passes, all bytes ----------

  lemma {:induction false} PrefixHandled(es: seq<Event>, n: nat)
    requires n <= |es| && HandleAll(es).Some?
    ensures HandleAll(es[..n]).Some?
    decreases |es|
  {
    hide Handle;
    if n < |es| {
      PrefixHandled(es[..|es| - 1], n);
      assert es[..|es| - 1][..n] == es[..n];
    } else {
      assert es[..n] == es;
    }
  }

  lemma {:induction false} DoneOnce(es: seq<Event>)
    requires HandleAll(es).Some?
    ensures HandleAll(es).value.headersDone <==> Notice(HeadersComplete) in es
  {
    if es != [] {
      PrefixHandled(es, |es| - 1);
      DoneOnce(es[..|es| - 1]);
      assert es == es[..|es| - 1] + [es[|es| - 1]];
    }
  }

  lemma PutKnown(s: Phase, log: seq<Event>, e: Event, t: Phase)
    requires KnownAll(s, log) && Leads(s, Some(e), t)
    ensures KnownAll(t, Put(log, e))
  {
    hide HandleAll, Handle, Known, Leads, Put;
    HandlePut(log, e);
    HandlePush(log, e);
    PutKeeps(log, e);
    if HandleAll(log).Some? {
      LeadsKnown(s, e, t, HandleAll(log).value);
      DoneOnce(log);
    }
  }

  lemma LogKnown(s: Phase, log: seq<Event>, act: Act, t: State, b: Byte)
    requires KnownAll(s, log) && Leads(s, EventOf(act, t, b), PhaseOf(t)) && !act.Last? && act != Mark(Body)
    requires act.Quiet? || act.Mark? || Live(t).None?
    ensures KnownAll(PhaseOf(t), ByteLog(PassLog(log, act, b), t, act, b))
  {
    hide HandleAll, Known, Leads, Put, PhaseOf, Live;
    match EventOf(act, t, b)
    case Some(e) => PutKnown(s, log, e, PhaseOf(t)); NotBodyEvent(s, e, PhaseOf(t));
    case None => if HandleAll(log).Some? { QuietKnown(s, PhaseOf(t), HandleAll(log).value); }
  }

  lemma NotBodyEvent(s: Phase, e: Event, t: Phase)
    requires Leads(s, Some(e), t)
    ensures e.Data? ==> !e.kind.Body?
  {
  }

  lemma NextFits(s: State, t: State, act: Act)
    requires NextDisciplined(s, t, act) && !act.Last?
    ensures act.Quiet? || act.Mark? || Live(t).None?
  {
  }

  lemma AgainLog(log: seq<Event>, p: Parser, act: Act, q: Parser, b: Byte)
    requires Disciplined(p, Again(q, act)) && act.Quiet? == EventOf(act, q.state, b).None?
    ensures Live(q.state).None? && !act.Last? && act != Mark(Body)
    ensures ByteLog(PassLog(log, act, b), q.state, act, b) == PassLog(log, act, b)
  {
  }

  lemma StopKnown(p: Parser, log: seq<Event>, q: Parser, b: Byte)
    requires p.state.HeadersDone? && PhaseOf(q.state).Awaiting? && KnownAll(PhaseOf(p.state), log)
    ensures var l := PassLog(log, Notify(MessageComplete), b);
      KnownAll(PhaseOf(q.state), l) && Notice(HeadersComplete) in l
  {
    hide HandleAll, Put;
    PutKnown(AtEnd, log, Notice(MessageComplete), Awaiting);
    PutKeeps(log, Notice(MessageComplete));
    if HandleAll(log).Some? { DoneOnce(log); }
  }

  lemma {:induction false} PassesKnown(p: Parser, log: seq<Event>, used: int, b: Byte)
    requires NoBodies(p) && KnownAll(PhaseOf(p.state), log)
    ensures var c := Passes(NoBody, p, log, used, b);
      && (c.status.Running? || c.status.Stopped? ==> NoBodies(c.p) && KnownAll(PhaseOf(c.p.state), c.log))
      && (c.status.Running? ==> !c.p.state.HeadersDone?) && (c.status.Stopped? ==> Notice(HeadersComplete) in c.log)
    decreases Rank(p.state)
  {
    hide Switch, NoBodies, KnownAll, PassLog, ByteLog, Leads, Known, PhaseOf;
    SwitchMoves(p, b);
    SwitchMarks(NoBody, p, b);
    match Switch(NoBody, p, b)
    case Next(q, act) => NextFits(p.state, q.state, act); LogKnown(PhaseOf(p.state), log, act, q.state, b);
    case Again(q, act) =>
      AgainLog(log, p, act, q, b);
      LogKnown(PhaseOf(p.state), log, act, q.state, b);
      PassesKnown(q, PassLog(log, act, b), used, b);
    case Stop(q, act) => StopKnown(p, log, q, b);
    case _ =>
  }

  lemma {:induction false} RunKnown(c: Conf, bytes: seq<Byte>)
    requires NoBodies(c.p) && KnownAll(PhaseOf(c.p.state), c.log) && c.status.Running? && !c.p.state.HeadersDone?
    ensures var r := Run(NoBody, c, bytes);
      && (r.status.Running? || r.status.Stopped? ==> NoBodies(r.p) && KnownAll(PhaseOf(r.p.state), r.log))
      && (r.status.Stopped? ==> Notice(HeadersComplete) in r.log)
    decreases |bytes|
  {
    hide Passes, NoBodies, KnownAll;
    if bytes != [] {
      var o := One(NoBody, c, bytes[0]);
      CountedNoBodies(c.p);
      PassesKnown(Counted(c.p), c.log, c.used, bytes[0]);
      if o.status.Running? { RunKnown(o, bytes[1..]); } else { EndedRun(NoBody, o, bytes[1..]); }
    }
  }

  lemma CountedNoBodies(p: Parser)
    requires NoBodies(p)
    ensures NoBodies(Counted(p)) && Counted(p).state == p.state
  {
  }

  /** Any bytes, from the start: when the headers are done there is a URL, no null pointer is met
      before, and the parser does not stop before. */
  lemma UrlWhenDone(bytes: seq<Byte>)
    ensures var c := Run(NoBody, Fresh(), bytes);
      && (c.status.Stopped? ==> Notice(HeadersComplete) in c.log)
      && (!c.status.Failed? && !c.status.Crashed? ==>
            match HandleAll(c.log)
            case None => Notice(HeadersComplete) in c.log
            case Some(x) => Notice(HeadersComplete) in c.log ==> x.url.Some?)
  {
    hide Run, HandleAll;
    StartKnown();
    RunKnown(Fresh(), bytes);
    var c := Run(NoBody, Fresh(), bytes);
    if HandleAll(c.log).Some? { DoneOnce(c.log); }
  }

  lemma StartKnown()
    ensures NoBodies(Init(Request)) && KnownAll(PhaseOf(StartReq), []) && Init(Request).state.StartReq?
  {
  }

  // ---------- the reads ----------

  /** The parser after the first `k` reads. */
  function Reached(received: seq<seq<Byte>>, k: nat): Conf
    requires k <= |received|
  {
    Run(NoBody, Fresh(), Joined(received[..k]))
  }

  /** Reading ends: a byte is refused, or the end of the headers has been announced. */
  predicate Settled(c: Conf) { c.status.Failed? || Notice(HeadersComplete) in c.log }

  lemma {:induction false} JoinedPush(pieces: seq<seq<Byte>>, k: nat)
    requires k < |pieces|
    ensures Joined(pieces[..k + 1]) == Joined(pieces[..k]) + pieces[k]
    decreases k
  {
    if k > 0 {
      JoinedPush(pieces[1..], k - 1);
      assert pieces[..k + 1][1..] == pieces[1..][..k] && pieces[..k][1..] == pieces[1..][..k - 1];
      assert (pieces[0] + Joined(pieces[1..][..k - 1])) + pieces[k]
        == pieces[0] + (Joined(pieces[1..][..k - 1]) + pieces[k]);
    } else {
      assert pieces[..1] == [pieces[0]] && pieces[..0] == [];
      assert Joined([pieces[0]]) == pieces[0] + [] == pieces[0];
    }
  }

  /** The parser and the context after reads that have not settled anything. */
  ghost predicate Reading(p: Parser, calls: seq<Event>, c: Ctx, reached: Conf, n: nat) {
    && reached == Conf(p, Merged(calls), n, Running) && Good(p, 0)
    && HandleAll(calls) == Some(c) && !c.headersDone
  }

  lemma ReadingStarts(received: seq<seq<Byte>>)
    ensures Reading(Init(Request), [], EMPTY, Reached(received, 0), |Joined(received[..0])|)
      && !Settled(Reached(received, 0))
  {
    hide Good, One;
    InitGood(Request);
    assert received[..0] == [];
  }

  lemma ReadingFacts(p: Parser, calls: seq<Event>, c: Ctx, reached: Conf, n: nat)
    requires Reading(p, calls, c, reached, n)
    ensures Good(p, 0) && p.errno.OK? && HandleAll(calls) == Some(c)
  {
    hide HandleAll, MethodName;
  }

  /** One more read goes on where the one before has ended. */
  lemma NextReached(received: seq<seq<Byte>>, k: nat, p: Parser, calls: seq<Event>, c: Ctx)
    requires k < |received| && received[k] != [] && Reading(p, calls, c, Reached(received, k), |Joined(received[..k])|)
    ensures var o := Call(NoBody, p, Merged(calls), received[k]);
      && Reached(received, k + 1) == o.(used := |Joined(received[..k])| + o.used) && o.used <= |received[k]|
      && (o.status.Running? ==> o.used == |received[k]| && Good(o.p, 0))
      && (o.status.Failed? <==> !o.p.errno.OK?)
  {
    hide Run, Good, HandleAll, Merged;
    var w := Joined(received[..k]);
    JoinedPush(received, k);
    Cut(NoBody, Init(Request), [], w, received[k]);
    RunUse(NoBody, Conf(p, Merged(calls), 0, Running), received[k]);
    RunFine(NoBody, Conf(p, Merged(calls), 0, Running), received[k]);
    FineErrno(Call(NoBody, p, Merged(calls), received[k]));
  }

  /** What the callbacks of a read tell. */
  lemma ReadTold(received: seq<seq<Byte>>, k: nat, calls: seq<Event>)
    requires k <= |received|
    requires var c := Reached(received, k);
      if c.status.Failed? then Dropped(c.log, Merged(calls)) else Merged(calls) == c.log
    ensures var c := Reached(received, k);
      && (HandleAll(calls).None? ==> HandleAll(c.log).None?)
      && (!c.status.Failed? ==> HandleAll(calls) == HandleAll(c.log))
      && (!c.status.Failed? && HandleAll(calls).Some? ==>
            (HandleAll(calls).value.headersDone <==> Notice(HeadersComplete) in c.log))
      && (!c.status.Failed? && HandleAll(calls).None? ==> Notice(HeadersComplete) in c.log)
      && (!c.status.Failed? && HandleAll(calls).Some? && HandleAll(calls).value.headersDone ==>
            HandleAll(calls).value.url.Some?)
      && (c.status.Stopped? ==> Notice(HeadersComplete) in c.log)
  {
    hide Run, HandleAll, Merged, Put;
    HandleMerged(calls);
    var c := Reached(received, k);
    UrlWhenDone(Joined(received[..k]));
    RunFine(NoBody, Fresh(), Joined(received[..k]));
    InitGood(Request);
    if c.status.Failed? {
      if c.log != Merged(calls) {
        var k: Kind, bytes: seq<Byte> :| c.log == Put(Merged(calls), Data(k, bytes));
        PutAbove(Merged(calls), Data(k, bytes));
      }
    } else if HandleAll(calls).Some? {
      DoneOnce(c.log);
    }
  }

  /** Nothing handled later mends a null pointer. */
  lemma PutAbove(log: seq<Event>, e: Event)
    ensures HandleAll(log).None? ==> HandleAll(Put(log, e)).None?
  {
    hide Handle, Put;
    HandlePut(log, e);
    HandlePush(log, e);
  }

  datatype Result = NotReadable | Refused(errno: Errno) | NullPointer | Complete

  /** What the reads `w` have come to, which lead the parser to `c`: a null pointer is met exactly
      where header data goes astray, unless the data is dropped by an error. */
  ghost predicate Outcome(c: Conf, w: seq<Byte>, result: Result, p: Parser, x: Ctx, unread: seq<Byte>) {
    && p == c.p
    && match result
       case NotReadable => !Settled(c) && HandleAll(c.log) == Some(x)
       case Refused(e) => c.status.Failed? && e == c.p.errno
       case NullPointer => Settled(c) && HandleAll(c.log).None?
       case Complete =>
         && !c.status.Failed? && Notice(HeadersComplete) in c.log && HandleAll(c.log) == Some(x) && x.url.Some?
         && 0 <= c.used <= |w| && unread == w[c.used..]
  }

  /** One more read. */
  lemma OneRead(received: seq<seq<Byte>>, k: nat, p: Parser, calls: seq<Event>, x: Ctx, p': Parser, calls': seq<Event>,
                n: nat)
    requires k < |received| && received[k] != [] && Reading(p, calls, x, Reached(received, k), |Joined(received[..k])|)
    requires var o := Call(NoBody, p, Merged(calls), received[k]);
      p' == o.p && n == o.used && if o.status.Failed? then Dropped(o.log, Merged(calls')) else Merged(calls') == o.log
    ensures n <= |received[k]|
    ensures var c, w, h := Reached(received, k + 1), Joined(received[..k + 1]), HandleAll(calls');
      && (h.None? ==> forall x', u :: Outcome(c, w, NullPointer, p', x', u))
      && (h.Some? && p'.errno != OK ==> Outcome(c, w, Refused(p'.errno), p', h.value, []))
      && (h.Some? && p'.errno.OK? && h.value.headersDone ==> Outcome(c, w, Complete, p', h.value, received[k][n..]))
      && (h.Some? && p'.errno.OK? && !h.value.headersDone ==> !Settled(c) && Reading(p', calls', h.value, c, |w|))
  {
    hide Run, HandleAll, Merged, Good, Dropped, Reached;
    NextReached(received, k, p, calls, x);
    JoinedPush(received, k);
    ReadTold(received, k + 1, calls');
    NeverCrashed(received, k + 1);
    var c, o := Reached(received, k + 1), Call(NoBody, p, Merged(calls), received[k]);
    assert c == o.(used := |Joined(received[..k])| + o.used);
    if HandleAll(calls').Some? && !c.status.Failed? && !HandleAll(calls').value.headersDone {
      assert o.status.Running?;
      assert c == Conf(p', Merged(calls'), |Joined(received[..k + 1])|, Running);
    }
  }

  lemma NeverCrashed(received: seq<seq<Byte>>, k: nat)
    requires k <= |received|
    ensures !Reached(received, k).status.Crashed?
  {
    hide Run, Good;
    InitGood(Request);
    RunFine(NoBody, Fresh(), Joined(received[..k]));
  }

  /** The loop of `http_request_parse`, whatever the bytes and the reads, after which nothing more
      can be read: it ends with the first read that settles something. */
  method ReadHead(received: seq<seq<Byte>>)
    returns (context: Context, p: Parser, result: Result, taken: nat, unread: seq<Byte>)
    requires Pieces(received)
    ensures context.Valid() && fresh(context) && fresh(context.buffer)
    ensures taken <= |received| && forall k | 0 <= k < taken :: !Settled(Reached(received, k))
    ensures result.NotReadable? ==> taken == |received|
    ensures Outcome(Reached(received, taken), Joined(received[..taken]), result, p, context.View(), unread)
  {
    hide Run, HandleAll, Reading, Merged, Joined, Good, Reached, Outcome, Settled;
    var parser := new HttpParser(Request);
    context := new Context();
    taken, unread, result := 0, [], NotReadable;
    ReadingStarts(received);
    while taken < |received|
      invariant context.Valid() && fresh(context) && fresh(context.buffer) && fresh(parser)
      invariant context.buffer.data != null ==> fresh(context.buffer.data)
      invariant taken <= |received| && forall k | 0 <= k <= taken :: !Settled(Reached(received, k))
      invariant Reading(parser.p, parser.calls, context.View(), Reached(received, taken), |Joined(received[..taken])|)
      decreases |received| - taken
    {
      ReadingFacts(parser.p, parser.calls, context.View(), Reached(received, taken), |Joined(received[..taken])|);
      ghost var before, view := parser.p, context.View();
      var heard := parser.calls;
      var n := parser.Execute(NoBody, received[taken]);
      OneRead(received, taken, before, heard, view, parser.p, parser.calls, n);
      assert parser.calls[..|heard|] == heard;
      var ok := context.Follow(parser.calls, |heard|);
      p, taken := parser.p, taken + 1;
      if !ok {
        result := NullPointer;
        return;
      }
      if p.errno != OK {
        result := Refused(p.errno);
        return;
      }
      if context.headersDone {
        result, unread := Complete, received[taken - 1][n..];
        return;
      }
    }
    p := parser.p;
    StillReading(p, parser.calls, context.View(), received);
  }

  lemma StillReading(p: Parser, calls: seq<Event>, x: Ctx, received: seq<seq<Byte>>)
    requires Reading(p, calls, x, Reached(received, |received|), |Joined(received[..|received|])|)
      && !Settled(Reached(received, |received|))
    ensures Outcome(Reached(received, |received|), Joined(received[..|received|]), NotReadable, p, x, [])
  {
    hide Run, HandleAll, Merged, Good, Joined;
    HandleMerged(calls);
  }

  /** `http_request_parse`: the loop, and the second look at the URL. */
  method ParseRequest(received: seq<seq<Byte>>)
    returns (context: Context, p: Parser, result: Result, taken: nat, unread: seq<Byte>, url: U.Url, failed: bool)
    requires Pieces(received)
    ensures taken <= |received| && forall k | 0 <= k < taken :: !Settled(Reached(received, k))
    ensures result.NotReadable? ==> taken == |received|
    ensures Outcome(Reached(received, taken), Joined(received[..taken]), result, p, context.View(), unread)
    ensures result.Complete? ==>
      match U.ParseUrl(context.url.value, p.verb.CONNECT?)
      case Bad(_) => failed
      case Good(u, port) => !failed && url.View() == u && url.port == port
  {
    hide Run, HandleAll, Joined, Reached, Settled;
    context, p, result, taken, unread := ReadHead(received);
    url := new U.Url();
    failed := true;
    if result.Complete? { failed := url.Parse(context.url.value, p.verb.CONNECT?); }
  }

  // ---------- a well-formed head, and what is read with it ----------

  /** Reading ends with the read that completes the head. */
  lemma HeadTaken(received: seq<seq<Byte>>, r: Head, more: seq<Byte>, taken: nat)
    requires Proper(r) && Pieces(received) && Joined(received) == Rendered(r) + more && taken <= |received|
    requires (forall k | 0 <= k < taken :: !Settled(Reached(received, k)))
      && (taken == |received| || Settled(Reached(received, taken)))
    ensures taken > 0 && |Joined(received[..taken - 1])| < |Rendered(r)| <= |Joined(received[..taken])|
    ensures Joined(received[..taken]) == Rendered(r) + Joined(received[..taken])[|Rendered(r)|..]
  {
    hide Run, Rendered, Proper, Joined, Settled;
    var w := Joined(received[..taken]);
    JoinedParts(received, taken);
    assert received[..|received|] == received;
    HeadNotEmpty(r);
    if |w| < |Rendered(r)| {
      assert w == (Rendered(r) + more)[..|w|] == Rendered(r)[..|w|];
      BeforeHead(received, r, taken);
    }
    Prefix(Rendered(r), more, w, Joined(received[taken..]));
    NoneJoined(received);
    if taken > 0 {
      var v := Joined(received[..taken - 1]);
      JoinedParts(received, taken - 1);
      if |v| >= |Rendered(r)| {
        Prefix(Rendered(r), more, v, Joined(received[taken - 1..]));
        FromHead(received, r, taken - 1);
      }
    }
  }

  lemma HeadNotEmpty(r: Head)
    ensures |Rendered(r)| > 0
  {
    hide LineBytes, HeadersBytes;
    assert |EolBytes(r.eol)| > 0;
  }

  lemma Prefix(a: seq<Byte>, b: seq<Byte>, w: seq<Byte>, rest: seq<Byte>)
    requires a + b == w + rest && |a| <= |w|
    ensures w == a + w[|a|..] && a <= w
  {
    assert a == (a + b)[..|a|] == (w + rest)[..|a|] == w[..|a|];
  }

  lemma NoneJoined(pieces: seq<seq<Byte>>)
    ensures Joined(pieces[..0]) == []
  {
  }

  lemma {:induction false} JoinedParts(pieces: seq<seq<Byte>>, k: nat)
    requires k <= |pieces|
    ensures Joined(pieces) == Joined(pieces[..k]) + Joined(pieces[k..])
    decreases |pieces| - k
  {
    if k == |pieces| {
      assert pieces[..k] == pieces && Joined(pieces[k..]) == [];
      assert Joined(pieces) + [] == Joined(pieces);
    } else {
      JoinedParts(pieces, k + 1);
      JoinedPush(pieces, k);
      assert pieces[k..][1..] == pieces[k + 1..];
      assert (Joined(pieces[..k]) + pieces[k]) + Joined(pieces[k + 1..])
        == Joined(pieces[..k]) + (pieces[k] + Joined(pieces[k + 1..]));
    }
  }

  lemma BeforeHead(received: seq<seq<Byte>>, r: Head, k: nat)
    requires Proper(r) && k <= |received| && Joined(received[..k]) < Rendered(r)
    ensures !Settled(Reached(received, k))
  {
    hide Run, Rendered, Proper, Joined;
    NotBefore(NoBody, r, Joined(received[..k]));
  }

  lemma FromHead(received: seq<seq<Byte>>, r: Head, k: nat)
    requires Proper(r) && k <= |received| && Rendered(r) <= Joined(received[..k])
    ensures Settled(Reached(received, k))
  {
    hide Run, Rendered, Proper, Joined, HeadLog;
    var w := Joined(received[..k]);
    FreshHeadRun(NoBody, r);
    var c := Run(NoBody, Fresh(), Rendered(r));
    assert c.log[|HeadLog(r)|] == Notice(HeadersComplete);
    RunKeeps(NoBody, c, w[|Rendered(r)|..]);
    RunConcat(NoBody, Fresh(), Rendered(r), w[|Rendered(r)|..]);
    assert w == Rendered(r) + w[|Rendered(r)|..];
  }

  /** A complete request, with whatever was read with its end: it is refused if the first byte
      after it, and line ends, is; if no more than that byte has been read, it is refused only
      then, and otherwise the result is the request of the head. */
  lemma HeadParsed(received: seq<seq<Byte>>, r: Head, more: seq<Byte>, taken: nat, result: Result, p: Parser, x: Ctx,
                   unread: seq<Byte>)
    requires Proper(r) && Pieces(received) && Joined(received) == Rendered(r) + more && taken <= |received|
    requires (forall k | 0 <= k < taken :: !Settled(Reached(received, k)))
      && (result.NotReadable? ==> taken == |received|)
    requires Outcome(Reached(received, taken), Joined(received[..taken]), result, p, x, unread)
    ensures taken > 0 && |Joined(received[..taken - 1])| < |Rendered(r)| <= |Joined(received[..taken])|
    ensures var over := Joined(received[..taken])[|Rendered(r)|..];
      && (Spurned(r, over) ==> result.Refused?)
      && (Upgrades(r) || |over| <= LineEnds(over) + 1 ==>
            && (result.Refused? <==> Spurned(r, over))
            && (!result.Refused? ==>
                  result.Complete? && Stands(x, r) && LineAfter(p, r, over) && unread == if Upgrades(r) then over
                    else []))
  {
    hide Run, Rendered, Proper, Joined, HandleAll, Stands, Spurned, LineEnds, LineAfter, Upgrades;
    HeadSize(r);
    HeadTaken(received, r, more, taken);
    var w := Joined(received[..taken]);
    var over := w[|Rendered(r)|..];
    if Spurned(r, over) { RestRefused(NoBody, r, over); }
    if Upgrades(r) || |over| <= LineEnds(over) + 1 {
      ToFirstByte(NoBody, r, over);
      FromHead(received, r, taken);
    }
  }

  /** The URL of a well-formed head is one that the scan takes. */
  lemma StandsUrl(c: Ctx, r: Head)
    requires Stands(c, r) && Proper(r)
    ensures c.url == Some(r.line.url) && U.ParseUrl(r.line.url, r.line.verb.CONNECT?) != U.Bad(U.NotUrl)
  {
    var s := U.Walk(UrlStart(r.line.verb), r.line.url);
    U.ScanFollowsWalk(r.line.verb.CONNECT?, r.line.url, |r.line.url|);
    assert r.line.url[..|r.line.url|] == r.line.url;
    OnlyScanRefuses(r.line.url, r.line.verb.CONNECT?);
  }
}
