/** Where a message ends, both ways: exactly where section 4.4 of RFC 2616 says. */
module HttpExact {
  import opened HttpTypes
  import opened HttpSwitch
  import opened HttpReference
  import opened HttpParser
  import opened HttpChunks
  import opened HttpNames
  import opened HttpValues
  import opened HttpLine
  import opened HttpHead
  import opened HttpMessage
  import opened HttpEof
  import opened HttpCoded

  /** The bytes after a head are all of the content that the framing calls for. */
  ghost predicate Continues(framing: Framing, length: nat, x: seq<Byte>) {
    match framing
    case NoBody => x == []
    case Upgraded => x == []
    case Sized => |x| == length
    case Chunks => exists b :: BodyFits(b) && BodyText(b) == x
    case UntilEnd => false
  }

  /** A body of known length. */
  lemma SizedFinishes(d: Decision, c: Conf, x: seq<Byte>)
    requires c.status.Running? && c.p.state.BodyIdentity? && 0 < c.p.contentLength < ULLONG_MAX && !Completed(c.log)
    ensures Finishes(d, c, x) <==> |x| == c.p.contentLength
  {
    hide Run, One, Put, NewMessage;
    var n := c.p.contentLength;
    if |x| >= n {
      var whole := x[..n];
      IdentityBody(d, c.p, c.log, c.used, whole);
      CompletedLast(Put(c.log, Data(Body, whole)));
      PlainAlmost(d, c.p, c.log, c.used, whole);
      if |x| > n {
        var init := x[..|x| - 1];
        assert init == whole + init[n..];
        RunConcat(d, c, whole, init[n..]);
        RunKeeps(d, Run(d, c, whole), init[n..]);
      } else {
        assert x == whole;
      }
    } else if x != [] {
      Skip(d, c.p, c.log, c.used, x, |x|);
      assert x[..|x|] == x && x[|x|..] == [];
      EmptyRun(d, Conf(Taken(c.p, |x|), Put(c.log, Data(Body, x)), c.used + |x|, Running));
      PutBody(c.log, x);
    }
  }

  lemma CompletedLast(log: seq<Event>)
    ensures Completed(Put(log, Notice(MessageComplete)))
  {
  }

  /** Once a message is complete, no later byte is the one that completes it. */
  lemma NoMore(d: Decision, c: Conf, x: seq<Byte>)
    requires Completed(c.log)
    ensures !Finishes(d, c, x)
  {
    hide Run;
    if x != [] { RunKeeps(d, c, x[..|x| - 1]); }
  }

  /** A body that lasts until the end of the input is completed by no byte. */
  lemma EndlessNever(d: Decision, c: Conf, x: seq<Byte>)
    requires c.status.Running? && c.p.state.BodyIdentityEof? && !Completed(c.log)
    ensures !Finishes(d, c, x)
  {
    hide Run, Put;
    if x != [] {
      EndlessStays(d, c, x);
      PutBody(c.log, x);
    }
  }

  /** From the end of a head on. */
  lemma ContentExactly(d: Decision, e: Parser, log: seq<Event>, used: int, skip: bool, x: seq<Byte>)
    requires e.state.HeadersAlmostDone? && !e.flags.trailing && e.errno.OK? && e.contentLength <= ULLONG_MAX
      && !Completed(log)
    ensures var o, framing := EndOfHead(e, skip, log, used), FramingOf(FrameOf(e), Upgrading(e), skip, Endless(e));
      if x == [] then Completed(o.log) <==> Continues(framing, e.contentLength, x)
      else Finishes(d, o, x) <==> Continues(framing, e.contentLength, x)
  {
    hide Run, Put, Finishes, NewMessage, BodyFits, BodyText;
    var o := EndOfHead(e, skip, log, used);
    NoticePut(log, HeadersComplete);
    CompletedLast(Put(log, Notice(HeadersComplete)));
    match FramingOf(FrameOf(e), Upgrading(e), skip, Endless(e))
    case NoBody => NoMore(d, o, x);
    case Upgraded => NoMore(d, o, x);
    case Sized => SizedFinishes(d, o, x);
    case Chunks =>
      ExactlyCoded(d, o, x);
      NoneEmptyBody();
    case UntilEnd => EndlessNever(d, o, x);
  }

  lemma NoneEmptyBody()
    ensures forall b :: BodyFits(b) ==> BodyText(b) != []
  {
    forall b | BodyFits(b) ensures BodyText(b) != [] { BodyLast(b); }
  }

  /** What comes after some bytes finishes the message exactly if it does so from there on, or if it is
      nothing and they do. */
  lemma FinishesAfter(d: Decision, c: Conf, w: seq<Byte>, x: seq<Byte>)
    requires x != []
    ensures Finishes(d, c, w + x) <==> Finishes(d, Run(d, c, w), x)
  {
    hide Run;
    assert (w + x)[..|w + x| - 1] == w + x[..|x| - 1];
    RunConcat(d, c, w, x);
    RunConcat(d, c, w, x[..|x| - 1]);
  }

  /** From the start of a request, for a head and whatever follows it: message_complete is announced at
      the last byte, and not before, exactly if the bytes after the head are the content that its headers,
      its method and the callback's answer call for. */
  lemma ExactlyRequests(d: Decision, r: Head, x: seq<Byte>)
    requires HttpHead.Proper(r)
    ensures var f, skip := HeadFrame(r.headers), Answer(d, Fresh(), HeadStart(r));
      Finishes(d, Fresh(), Rendered(r) + x) <==> Continues(FramingOf(f, Upgrades(r), skip, false), f.length, x)
  {
    hide Run, Rendered, HeadStart, HeadLog, HeadRead, HeadFrame, EndOfHead, Continues, Answer, ProperLine, ProperHeader,
      Completed, AtRequest, FramingOf;
    var skip := Answer(d, Fresh(), HeadStart(r));
    var e := EndAt(d, Fresh(), HeadStart(r));
    AtFresh(r);
    WholeHead(d, Fresh(), r);
    RequestEnd(Fresh().p, Run(d, Fresh(), HeadStart(r)).p, r);
    FrameLength(Frame(NO_FLAGS, ULLONG_MAX), r.headers);
    FrameIs(r.headers);
    HeadUncompleted(d, r);
    ContentExactly(d, e, [] + HeadLog(r), 0 + |Rendered(r)|, skip, x);
    if x == [] {
      assert Rendered(r) + x == Rendered(r);
    } else {
      FinishesAfter(d, Fresh(), Rendered(r), x);
    }
  }

  lemma AtFresh(r: Head)
    requires HttpHead.Proper(r)
    ensures var c := Fresh();
      c.status.Running? && AtRequest(c.p) && c.p.kind.Request? && c.log == [] && c.used == 0
        && c.p.nread + |Rendered(r)| <= MAX_HEADER_SIZE && ProperLine(r.line)
  {
    hide Rendered, ProperLine, ProperHeader;
  }

  /** No message is complete before the last byte of its head. */
  lemma HeadUncompleted(d: Decision, r: Head)
    requires HttpHead.Proper(r)
    ensures !Completed([] + HeadLog(r)) && Rendered(r) != []
    ensures !Completed(Run(d, Fresh(), Rendered(r)[..|Rendered(r)| - 1]).log)
  {
    hide Run, Rendered, HeadStart, HeadLog, HeadRead, ProperLine, ProperHeader, AtRequest;
    AtFresh(r);
    HeadBytes(r);
    HeadStartRun(d, Fresh(), r);
    HeadIncomplete([], r);
    assert Rendered(r)[..|Rendered(r)| - 1] == HeadStart(r);
  }

  // ---------- responses ----------

  /** A status line and headers that fit, whatever the content. */
  predicate HeadFits(r: Reply) {
    && ProperStatus(r.line) && (forall i | 0 <= i < |r.headers| :: ProperHeader(r.headers[i]))
    && |ReplyHead(r)| <= MAX_HEADER_SIZE
  }

  /** Some content that fits. */
  function Filler(framing: Framing, length: nat): Content {
    match framing
    case NoBody => Nothing
    case Upgraded => Nothing
    case Sized => Plain(seq(length, _ => 'x'))
    case Chunks => Coded([], ['0'], [], [], Lf)
    case UntilEnd => Plain([])
  }

  lemma FillerFits(framing: Framing, length: nat)
    ensures Fits(Filler(framing, length), framing, length)
  {
    assert HeadersBytes([]) == [];
    assert Hexes(['0']) == [0] && [0][..0] == [];
  }

  /** The same head, with a content that fits. */
  lemma Filled(r: Reply, skip: bool) returns (s: Reply)
    requires HeadFits(r)
    ensures ProperReply(s, skip) && ReplyHead(s) == ReplyHead(r) && ReplyStart(s) == ReplyStart(r)
    ensures ReplyHeadLog([], s) == ReplyHeadLog([], r) && s.headers == r.headers && s.line == r.line
  {
    hide HeadFrame, ProperStatus, ProperHeader, StatusBytes, HeadersBytes, ValueOf, Fits, Filler, FramingOf;
    FillerFits(ReplyFraming(r, skip), HeadFrame(r.headers).length);
    s := r.(content := Filler(ReplyFraming(r, skip), HeadFrame(r.headers).length));
  }

  /** The same from the start of a response; whether a body may last until the end of the input is told
      by its status code as well, and no byte completes one that does. */
  lemma ExactlyResponses(d: Decision, r: Reply, x: seq<Byte>)
    requires HeadFits(r)
    ensures var f, skip := HeadFrame(r.headers), Answer(d, FreshReply(), ReplyStart(r));
      Finishes(d, FreshReply(), ReplyHead(r) + x) <==> Continues(ReplyFraming(r, skip), f.length, x)
  {
    hide Run, ReplyHead, ReplyStart, ReplyHeadLog, ReplyRead, HeadFrame, EndOfHead, Continues, Answer, ProperStatus,
      ProperHeader, Completed, AtReply, FramingOf, ValueOf, Bodied, ProperReply;
    var c, skip := FreshReply(), Answer(d, FreshReply(), ReplyStart(r));
    var e := EndAt(d, c, ReplyStart(r));
    var s := Filled(r, skip);
    AtFreshReply(s, skip);
    WholeReply(d, c, s, skip);
    ReplyEnd(c.p, Run(d, c, ReplyStart(r)).p, s);
    FrameLength(Frame(NO_FLAGS, ULLONG_MAX), r.headers);
    FrameIs(r.headers);
    ReplyUncompleted(d, s, skip);
    ContentExactly(d, e, ReplyHeadLog([], r), 0 + |ReplyHead(r)|, skip, x);
    if x == [] {
      assert ReplyHead(r) + x == ReplyHead(r);
    } else {
      FinishesAfter(d, c, ReplyHead(r), x);
    }
  }

  lemma ReplyUncompleted(d: Decision, r: Reply, skip: bool)
    requires ProperReply(r, skip)
    ensures !Completed(ReplyHeadLog([], r)) && ReplyHead(r) != []
    ensures !Completed(Run(d, FreshReply(), ReplyHead(r)[..|ReplyHead(r)| - 1]).log)
  {
    hide Run, ReplyHead, ReplyStart, ReplyHeadLog, ReplyRead, ProperReply, AtReply;
    AtFreshReply(r, skip);
    ReplyHeadBytes(r);
    ReplyStartRun(d, FreshReply(), r, skip);
    ReplyIncomplete(r);
    assert ReplyHead(r)[..|ReplyHead(r)| - 1] == ReplyStart(r);
  }
}
