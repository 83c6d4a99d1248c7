/** The callbacks of http_parse.c after the first head: the parser goes on with the bytes that
    follow, and the context is not made ready for another message. */
module HttpSecond {
  import opened Options
  import opened HttpTypes
  import opened HttpSwitch
  import opened HttpReference
  import opened HttpSplit
  import opened HttpNames
  import opened HttpLine
  import opened HttpHead
  import opened HttpRequest

  // ---------- when a null pointer is written through ----------

  /** A header has been begun since the last end of headers. */
  predicate Begun(es: seq<Event>) {
    es != [] &&
      match es[|es| - 1]
      case Data(Field, _) => true
      case Notice(HeadersComplete) => false
      case _ => Begun(es[..|es| - 1])
  }

  /** Of the header data, a value came last. */
  predicate ValueLast(es: seq<Event>) {
    es != [] &&
      match es[|es| - 1]
      case Data(Field, _) => false
      case Data(Value, _) => true
      case _ => ValueLast(es[..|es| - 1])
  }

  /** Header data that meets no header: a name after headers that ended with a value, or a value
      without a name. */
  predicate Astray(before: seq<Event>, e: Event) {
    match e
    case Data(Field, _) => !Begun(before) && ValueLast(before)
    case Data(Value, _) => !Begun(before) && !ValueLast(before)
    case _ => false
  }

  lemma {:induction false} ContextTells(es: seq<Event>)
    requires HandleAll(es).Some?
    ensures var c := HandleAll(es).value; (c.header.Some? <==> Begun(es)) && (c.lastWasValue <==> ValueLast(es))
  {
    if es != [] { ContextTells(es[..|es| - 1]); }
    hide Upto;
  }

  /** The callbacks write through a null pointer exactly when header data has gone astray. */
  lemma {:induction false} NullPointer(es: seq<Event>)
    ensures HandleAll(es).None? <==> exists i | 0 <= i < |es| :: Astray(es[..i], es[i])
  {
    if es != [] {
      var init, last := es[..|es| - 1], es[|es| - 1];
      NullPointer(init);
      forall i | 0 <= i < |init| ensures es[..i] == init[..i] && es[i] == init[i] { }
      if HandleAll(init).Some? {
        LastAstray(init, last);
        assert es[..|es| - 1] == init;
      } else {
        var i :| 0 <= i < |init| && Astray(init[..i], init[i]);
        assert Astray(es[..i], es[i]);
      }
    }
  }

  lemma LastAstray(es: seq<Event>, e: Event)
    requires HandleAll(es).Some?
    ensures Handle(HandleAll(es).value, e).None? <==> Astray(es, e)
  {
    ContextTells(es);
    hide HandleAll, Begun, ValueLast, Upto;
  }

  // ---------- two heads in one call ----------

  lemma FirstDone(r: Head)
    requires Proper(r)
    ensures match HandleAll(HeadLog(r) + [Notice(HeadersComplete), Notice(MessageComplete)])
      case None => false
      case Some(c) => c.header.None? && (c.lastWasValue <==> r.headers != [])
  {
    HeadTexts(r);
    hide Proper, IsName, Upto;
    HeadersHandled(r.line.url, r.headers);
    EndHandled(HeadLog(r));
  }

  /** The headers of a further head go astray if those of the head before ended with a value. */
  lemma {:induction false} MoreHeaders(es: seq<Event>, u: seq<Byte>, hs: seq<Header>)
    requires HandleAll(es).Some? && HandleAll(es).value.header.None?
    ensures var r := HandleAll((es + [Notice(MessageBegin), Data(Url, u)]) + HeaderEvents(hs));
      && (r.None? <==> HandleAll(es).value.lastWasValue && hs != [])
      && (r.Some? ==>
            if hs == [] then r.value.header.None? && r.value.lastWasValue == HandleAll(es).value.lastWasValue
              else r.value.header.Some?)
    decreases |hs|
  {
    hide HandleAll, Upto;
    var start := es + [Notice(MessageBegin), Data(Url, u)];
    if hs == [] {
      HandlePush(es, Notice(MessageBegin));
      HandlePush(es + [Notice(MessageBegin)], Data(Url, u));
      assert start == (es + [Notice(MessageBegin)]) + [Data(Url, u)];
      assert start + HeaderEvents(hs) == start;
    } else {
      var init, last := hs[..|hs| - 1], hs[|hs| - 1];
      MoreHeaders(es, u, init);
      var l := start + HeaderEvents(init);
      HandlePush(l, Data(Field, last.name));
      HandlePush(l + [Data(Field, last.name)], Data(Value, Text(last.lines)));
      assert start + HeaderEvents(hs) == (l + [Data(Field, last.name)]) + [Data(Value, Text(last.lines))];
    }
  }

  predicate IsLineEnd(b: Byte) { b == CR || b == LF }

  /** Nothing more is announced once the connection is to be closed, and only line ends are taken. */
  lemma {:induction false} DeadRun(d: Decision, c: Conf, bytes: seq<Byte>)
    requires c.p.state.Dead? && c.status.Running?
    ensures var o := Run(d, c, bytes);
      && o.log == c.log && (o.status.Failed? || (o.status.Running? && forall b <- bytes :: IsLineEnd(b)))
    decreases |bytes|
  {
    hide One;
    if bytes != [] {
      DeadByte(d, c, bytes[0]);
      if One(d, c, bytes[0]).status.Running? {
        DeadRun(d, One(d, c, bytes[0]), bytes[1..]);
      } else {
        EndedRun(d, One(d, c, bytes[0]), bytes[1..]);
      }
    }
  }

  lemma DeadByte(d: Decision, c: Conf, b: Byte)
    requires c.p.state.Dead? && c.status.Running?
    ensures var o := One(d, c, b);
      o.log == c.log && (o.status.Failed? || (o.status.Running? && o.p.state.Dead? && IsLineEnd(b)))
  {
    hide Switch;
    DeadPass(d, Counted(c.p), b);
  }

  lemma DeadPass(d: Decision, p: Parser, b: Byte)
    requires p.state.Dead?
    ensures Switch(d, p, b) == if b == CR || b == LF then Next(p, Quiet) else Fail(p, ClosedConnection)
  {
  }

  lemma SecondDone(es: seq<Event>, s: Head)
    requires HandleAll(es).Some? && HandleAll(es).value.header.None?
    ensures HandleAll((es + HeadLog(s)) + [Notice(HeadersComplete), Notice(MessageComplete)]).None? <==>
      HandleAll(es).value.lastWasValue && s.headers != []
  {
    hide HandleAll;
    MoreHeaders(es, s.line.url, s.headers);
    var l := es + HeadLog(s);
    assert l == (es + [Notice(MessageBegin), Data(Url, s.line.url)]) + HeaderEvents(s.headers);
    EndHandled(l);
  }

  /** What comes after the first head, unless the connection is upgraded: the parser goes on, from
      the beginning of a request or, if the connection is to be closed, from its end. */
  lemma AfterFirst(d: Decision, r: Head, more: seq<Byte>)
    requires Proper(r) && forall p :: d(p)
    ensures var c := Run(d, Fresh(), Rendered(r));
      && c == Conf(c.p, HeadLog(r) + [Notice(HeadersComplete), Notice(MessageComplete)], |Rendered(r)|,
                   if Upgrades(r) then Stopped else Running)
      && AfterRequest(c.p, r) && c.p.nread == 0
      && Run(d, Fresh(), Rendered(r) + more) == if Upgrades(r) then c else Run(d, c, more)
  {
    hide Run, Rendered, HeadLog, Upgrades, ProperHeader, AfterRequest, ProperLine, HeadStart;
    HeadSize(r);
    HeadRun(d, Fresh(), r);
    assert [] + HeadLog(r) == HeadLog(r);
    RunConcat(d, Fresh(), Rendered(r), more);
    if Upgrades(r) { EndedRun(d, Run(d, Fresh(), Rendered(r)), more); }
  }

  /** A second head in the same read as the first: its callbacks write through a null pointer
      exactly when both heads have headers and the connection lives on after the first. */
  lemma SecondHead(d: Decision, r: Head, s: Head)
    requires Proper(r) && Proper(s) && forall p :: d(p)
    ensures HandleAll(Run(d, Fresh(), Rendered(r) + Rendered(s)).log).None? <==>
      !Upgrades(r) && Persistent(r) && r.headers != [] && s.headers != []
  {
    hide Run, HandleAll, Rendered, HeadLog, Upgrades, Persistent, ProperLine, ProperHeader, AfterRequest, HeadStart;
    HeadSize(s);
    HeadSize(r);
    AfterFirst(d, r, Rendered(s));
    FirstDone(r);
    var c := Run(d, Fresh(), Rendered(r));
    if !Upgrades(r) {
      AfterRequestFacts(c.p, r);
      if Persistent(r) {
        HeadRun(d, c, s);
        SecondDone(c.log, s);
      } else {
        DeadRun(d, c, Rendered(s));
      }
    }
  }

  lemma HeadSize(r: Head)
    requires Proper(r)
    ensures ProperLine(r.line) && |Rendered(r)| <= MAX_HEADER_SIZE
  {
  }

  lemma AfterRequestFacts(p: Parser, r: Head)
    requires ProperLine(r.line) && AfterRequest(p, r)
    ensures p.kind.Request? && (if Persistent(r) then AtRequest(p) else p.state.Dead?) && LineKept(p, r)
  {
    hide Persistent;
  }

  // ---------- the mixed request ----------

  /** The context after a second head whose headers have not gone astray. */
  lemma {:induction false} MixedHeaders(es: seq<Event>, c: Ctx, u: seq<Byte>, hs: seq<Header>)
    requires HandleAll(es) == Some(c) && c.header.None? && c.buffer.None? && (c.lastWasValue ==> hs == [])
    requires NUL !in u && forall i | 0 <= i < |hs| :: IsName(hs[i].name)
    ensures HandleAll((es + [Notice(MessageBegin), Data(Url, u)]) + HeaderEvents(hs)) == Some(Further(c, u, hs))
    decreases |hs|
  {
    hide HandleAll, Upto, IsName, Text;
    var start := es + [Notice(MessageBegin), Data(Url, u)];
    if hs == [] {
      HandlePush(es, Notice(MessageBegin));
      HandlePush(es + [Notice(MessageBegin)], Data(Url, u));
      assert start == (es + [Notice(MessageBegin)]) + [Data(Url, u)];
      assert start + HeaderEvents(hs) == start;
      assert [] + u == u;
    } else {
      var init, last := hs[..|hs| - 1], hs[|hs| - 1];
      MixedHeaders(es, c, u, init);
      var l := start + HeaderEvents(init);
      MixedHeader(c, u, init, last);
      assert init + [last] == hs;
      HandlePush(l, Data(Field, last.name));
      HandlePush(l + [Data(Field, last.name)], Data(Value, Text(last.lines)));
      assert start + HeaderEvents(hs) == (l + [Data(Field, last.name)]) + [Data(Value, Text(last.lines))];
    }
  }

  /** The context `c` after a further URL and its headers: they are put before those of `c`. */
  function Further(c: Ctx, u: seq<Byte>, hs: seq<Header>): Ctx {
    var b := Building(u, hs);
    if hs == [] then c.(stage := InUrl, buffer := Some(u))
    else b.(headersDone := c.headersDone, headers := b.headers + c.headers)
  }

  lemma MixedHeader(c: Ctx, u: seq<Byte>, hs: seq<Header>, h: Header)
    requires c.header.None? && c.buffer.None? && !c.lastWasValue && NUL !in u && IsName(h.name)
    ensures match Handle(Further(c, u, hs), Data(Field, h.name))
      case None => false
      case Some(m) => Handle(m, Data(Value, Text(h.lines))) == Some(Further(c, u, hs + [h]))
  {
    WholeText(u);
    NameText(h.name);
    assert (hs + [h])[..|hs|] == hs;
    assert [] + h.name == h.name && [] + Text(h.lines) == Text(h.lines);
    ListedBefore(hs, c.headers);
    hide Upto, IsName, Text, Listed;
  }

  /** The last of some headers is the first of the list. */
  lemma ListedBefore(hs: seq<Header>, before: seq<(Option<seq<Byte>>, Option<seq<Byte>>)>)
    ensures Listed([]) + before == before
    ensures hs != [] ==> var h := hs[|hs| - 1];
      Listed(hs) + before == [(Some(h.name), Some(Upto(Text(h.lines))))] + (Listed(hs[..|hs| - 1]) + before)
  {
    hide Upto, Text;
    assert [] + before == before;
    if hs != [] {
      var x := [(Some(hs[|hs| - 1].name), Some(Upto(Text(hs[|hs| - 1].lines))))];
      assert (x + Listed(hs[..|hs| - 1])) + before == x + (Listed(hs[..|hs| - 1]) + before);
    }
  }

  /** The context of a first head, whole. */
  lemma FirstStands(r: Head)
    requires Proper(r)
    ensures match HandleAll(HeadLog(r) + [Notice(HeadersComplete), Notice(MessageComplete)])
      case None => false
      case Some(c) => Stands(c, r) && c.header.None? && c.buffer.None? && (c.lastWasValue <==> r.headers != [])
  {
    hide HandleAll, HeadLog, Proper, Listed;
    HeadHandled(r);
    FirstDone(r);
  }

  /** The second head is put into the context of the first. */
  lemma SecondBuilt(es: seq<Event>, c: Ctx, s: Head)
    requires NUL !in s.line.url && (forall i | 0 <= i < |s.headers| :: IsName(s.headers[i].name))
    requires HandleAll(es) == Some(c) && c.header.None? && c.buffer.None? && (c.lastWasValue ==> s.headers == [])
    ensures HandleAll((es + HeadLog(s)) + [Notice(HeadersComplete), Notice(MessageComplete)])
      == Some(OnHeadersComplete(Further(c, s.line.url, s.headers)))
  {
    hide HandleAll, Further, IsName, OnHeadersComplete;
    MixedHeaders(es, c, s.line.url, s.headers);
    EndHandled(es + HeadLog(s));
    assert es + HeadLog(s) == (es + [Notice(MessageBegin), Data(Url, s.line.url)]) + HeaderEvents(s.headers);
  }

  lemma FurtherDone(c: Ctx, u: seq<Byte>, hs: seq<Header>)
    requires c.header.None? && c.buffer.None? && NUL !in u
    ensures var m := OnHeadersComplete(Further(c, u, hs));
      m.url == Some(u) && m.headers == Listed(hs) + c.headers && m.headersDone && m.header.None? && m.buffer.None?
  {
    WholeText(u);
    ListedBefore(hs, c.headers);
    hide Upto, Text, Listed;
  }

  lemma NotLineEnds(s: Head)
    ensures |s.line.before| < |Rendered(s)| && !IsLineEnd(Rendered(s)[|s.line.before|])
  {
    hide MethodName, VersionBytes, EolBytes, HeadersBytes;
    FirstLetter(s.line.verb);
    var name, i := NameBytes(s.line.verb), |s.line.before|;
    assert LineBytes(s.line)[i] == name[0];
    assert Rendered(s)[i] == LineBytes(s.line)[i];
  }

  lemma FirstLetter(m: Method)
    ensures NameBytes(m) != [] && !IsLineEnd(NameBytes(m)[0])
  {
  }

  /** The line of the head is the one that the parser has recorded. */
  predicate LineKept(p: Parser, r: Head)
    requires ProperLine(r.line)
  {
    p.verb == r.line.verb && p.major == Major(r.line.version) && p.minor == Minor(r.line.version)
  }

  /** Two whole heads in one read, when no null pointer is met: the result is the request of the
      first head only if the connection is upgraded or closed after it; otherwise it has the URL
      of the second head, and the headers of both. */
  lemma MixedRequest(d: Decision, r: Head, s: Head)
    requires Proper(r) && Proper(s) && forall p :: d(p)
    requires HandleAll(Run(d, Fresh(), Rendered(r) + Rendered(s)).log).Some?
    ensures var o := Run(d, Fresh(), Rendered(r) + Rendered(s));
      var c := HandleAll(o.log).value;
      && (o.status.Failed? <==> !Upgrades(r) && !Persistent(r))
      && (if Upgrades(r) || !Persistent(r) then Stands(c, r) && (Upgrades(r) ==> LineKept(o.p, r))
          else c.url == Some(s.line.url) && c.headers == Listed(s.headers) + Listed(r.headers) && LineKept(o.p, s))
      && (Stands(c, r) <==> Upgrades(r) || !Persistent(r) || (s.headers == [] && s.line.url == r.line.url))
  {
    hide Run, HandleAll, Rendered, HeadLog, Upgrades, Persistent, ProperLine, ProperHeader, AfterRequest, HeadStart,
      Listed, Major, Minor, Further, OnHeadersComplete, IsName;
    HeadSize(s);
    HeadSize(r);
    AfterFirst(d, r, Rendered(s));
    FirstStands(r);
    var c := Run(d, Fresh(), Rendered(r));
    AfterRequestFacts(c.p, r);
    if !Upgrades(r) {
      if Persistent(r) {
        HeadRun(d, c, s);
        SecondDone(c.log, s);
        HeadTexts(s);
        SecondBuilt(c.log, HandleAll(c.log).value, s);
        FurtherDone(HandleAll(c.log).value, s.line.url, s.headers);
        AfterRequestFacts(Run(d, c, Rendered(s)).p, s);
        NoneAdded(s.headers, r.headers);
      } else {
        DeadRun(d, c, Rendered(s));
        NotLineEnds(s);
      }
    }
  }

  lemma NoneAdded(hs: seq<Header>, before: seq<Header>)
    ensures Listed(hs) + Listed(before) == Listed(before) <==> hs == []
  {
    if hs == [] { assert [] + Listed(before) == Listed(before); } else { assert |Listed(hs)| > 0; }
  }

  // ---------- the first byte after a head ----------

  /** How many line ends the bytes begin with. */
  function LineEnds(bytes: seq<Byte>): (n: nat)
    ensures n <= |bytes| && (forall i | 0 <= i < n :: IsLineEnd(bytes[i])) && (n < |bytes| ==> !IsLineEnd(bytes[n]))
  {
    if bytes == [] || !IsLineEnd(bytes[0]) then 0
    else
      var n := LineEnds(bytes[1..]);
      assert forall i | 0 < i < n + 1 :: bytes[i] == bytes[1..][i - 1];
      n + 1
  }

  /** What follows a head is refused, at its first byte that is no line end: the connection is to
      be closed, or no method begins with the byte, or there is no end of line ends. */
  predicate Spurned(r: Head, more: seq<Byte>)
    requires ProperLine(r.line)
  {
    !Upgrades(r) &&
      var n := LineEnds(more);
      if n < |more| then !Persistent(r) || !StartsMethod(more[n]) || n + 1 > MAX_HEADER_SIZE
      else n > MAX_HEADER_SIZE
  }

  /** The method and the version recorded: those of the head, unless a letter after it has already
      begun the method of another request. */
  predicate LineAfter(p: Parser, r: Head, more: seq<Byte>)
    requires ProperLine(r.line)
  {
    var n := LineEnds(more);
    if Upgrades(r) || n == |more| then LineKept(p, r) else p.verb == FirstMethod(more[n])
  }

  predicate AtRest(p: Parser) { p.state.Dead? || p.state.StartReq? }

  /** Between requests, a byte that is no line end begins one or is refused. */
  lemma FirstByte(d: Decision, c: Conf, b: Byte)
    requires c.status.Running? && AtRest(c.p) && !IsLineEnd(b)
    ensures var o := One(d, c, b);
      && (o.status.Failed? <==> c.p.nread + 1 > MAX_HEADER_SIZE || c.p.state.Dead? || !StartsMethod(b))
      && (if o.status.Failed? then o.log == c.log
          else o.status.Running? && o.log == Put(c.log, Notice(MessageBegin)) && o.p.verb == FirstMethod(b))
  {
    hide Put, FirstMethod, MethodName, Switch, Passes;
    if c.p.nread + 1 <= MAX_HEADER_SIZE {
      if c.p.state.Dead? { DeadPass(d, Counted(c.p), b); } else { StartPass(d, Counted(c.p), b); }
      OneFails(d, Counted(c.p), c.log, c.used, b);
      OneStep(d, c, b);
    }
  }

  /** A pass that refuses the byte leaves the log as it is. */
  lemma OneFails(d: Decision, p: Parser, log: seq<Event>, used: int, b: Byte)
    ensures Switch(d, p, b).Fail? ==> Passes(d, p, log, used, b).status.Failed? && Passes(d, p, log, used, b).log == log
  {
    hide Switch;
  }

  lemma EndsRun(d: Decision, c: Conf, ends: seq<Byte>)
    requires c.status.Running? && AtRest(c.p) && c.p.nread == 0 && |ends| <= MAX_HEADER_SIZE
      && forall b <- ends :: IsLineEnd(b)
    ensures Run(d, c, ends) == Conf(c.p.(nread := |ends|), c.log, c.used + |ends|, Running)
  {
    hide Run, Idle, IsLineEnd;
    IdleEnds(c.p.state, ends);
    IdleRun(d, c, ends);
  }

  lemma IdleEnds(s: State, ends: seq<Byte>)
    requires (s.Dead? || s.StartReq?) && forall b <- ends :: IsLineEnd(b)
    ensures ParsingHeader(s) && forall i | 0 <= i < |ends| :: Idle(s, ends[i])
  {
    forall i | 0 <= i < |ends| ensures Idle(s, ends[i]) { assert ends[i] in ends; }
  }

  /** An empty line has its limit as well. */
  lemma TooManyEnds(d: Decision, c: Conf, ends: seq<Byte>)
    requires c.status.Running? && AtRest(c.p) && c.p.nread == 0 && |ends| > MAX_HEADER_SIZE
      && forall b <- ends :: IsLineEnd(b)
    ensures Run(d, c, ends).status.Failed? && Run(d, c, ends).log == c.log
  {
    hide Run, One, IsLineEnd;
    var n := MAX_HEADER_SIZE;
    var first := ends[..n];
    EndsRun(d, c, first);
    var m := Run(d, c, first);
    RunPush(d, c, first, ends[n]);
    TooMany(d, m, ends[n]);
    RunConcat(d, c, first + [ends[n]], ends[n + 1..]);
    assert ends == (first + [ends[n]]) + ends[n + 1..];
    EndedRun(d, One(d, m, ends[n]), ends[n + 1..]);
  }

  lemma TooMany(d: Decision, c: Conf, b: Byte)
    requires AtRest(c.p) && c.p.nread + 1 > MAX_HEADER_SIZE
    ensures One(d, c, b).status.Failed? && One(d, c, b).log == c.log
  {
    hide Passes;
  }

  /** From between two requests up to the first byte that is no line end. */
  lemma FromRest(d: Decision, c: Conf, more: seq<Byte>)
    requires c.status.Running? && AtRest(c.p) && c.p.nread == 0 && |more| <= LineEnds(more) + 1
    ensures var o, n := Run(d, c, more), LineEnds(more);
      && (o.status.Failed? <==>
            if n < |more| then n + 1 > MAX_HEADER_SIZE || c.p.state.Dead? || !StartsMethod(more[n])
              else n > MAX_HEADER_SIZE)
      && (o.log == c.log || o.log == Put(c.log, Notice(MessageBegin)))
      && (!o.status.Failed? ==> o.status.Running? && o.used == c.used + |more|)
      && (!o.status.Failed? ==> if n == |more| then o.p == c.p.(nread := n) else o.p.verb == FirstMethod(more[n]))
  {
    hide Run, One, Put, IsLineEnd, LineEnds, StartsMethod, FirstMethod;
    RunUse(d, c, more);
    var n := LineEnds(more);
    var ends := more[..n];
    assert forall b <- ends :: IsLineEnd(b);
    RunConcat(d, c, ends, more[n..]);
    assert more == ends + more[n..];
    var m := Run(d, c, ends);
    if n > MAX_HEADER_SIZE {
      TooManyEnds(d, c, ends);
      EndedRun(d, m, more[n..]);
    } else {
      EndsRun(d, c, ends);
      if n == |more| {
        EmptyRun(d, m);
      } else {
        assert more[n..] == [more[n]];
        RunPush(d, c, ends, more[n]);
        FirstByte(d, m, more[n]);
      }
    }
  }

  /** Up to the first byte after a head and line ends: it is refused or not, and of the request
      nothing changes. */
  lemma ToFirstByte(d: Decision, r: Head, more: seq<Byte>)
    requires Proper(r) && (forall p :: d(p)) && (Upgrades(r) || |more| <= LineEnds(more) + 1)
    ensures var o := Run(d, Fresh(), Rendered(r) + more);
      && (o.status.Failed? <==> Spurned(r, more)) && HandleAll(o.log).Some? && Stands(HandleAll(o.log).value, r)
      && (!o.status.Failed? ==> o.used == |Rendered(r)| + if Upgrades(r) then 0 else |more|)
      && (!o.status.Failed? ==> LineAfter(o.p, r, more))
  {
    hide Run, Rendered, HeadLog, Upgrades, Persistent, ProperLine, ProperHeader, AfterRequest, HandleAll, Stands,
      HeadStart, Major, Minor, LineEnds, Put, StartsMethod, FirstMethod;
    HeadSize(r);
    AfterFirst(d, r, more);
    HeadHandled(r);
    var c := Run(d, Fresh(), Rendered(r));
    AfterRequestFacts(c.p, r);
    if !Upgrades(r) {
      FromRest(d, c, more);
      BeginHandled(c.log);
    }
  }

  lemma BeginHandled(log: seq<Event>)
    ensures HandleAll(Put(log, Notice(MessageBegin))) == HandleAll(log)
  {
    hide HandleAll;
    HandlePush(log, Notice(MessageBegin));
  }

  /** Whatever follows then, a refusal stays. */
  lemma RestRefused(d: Decision, r: Head, more: seq<Byte>)
    requires Proper(r) && (forall p :: d(p)) && Spurned(r, more)
    ensures var o := Run(d, Fresh(), Rendered(r) + more);
      o.status.Failed? && HandleAll(o.log).Some? && Stands(HandleAll(o.log).value, r)
  {
    hide Run, Rendered, ProperHeader, Upgrades, Persistent, HandleAll, Stands, LineAfter;
    HeadSize(r);
    var n := LineEnds(more);
    var k := if n < |more| then n + 1 else n;
    var some := more[..k];
    SameEnds(more, k);
    ToFirstByte(d, r, some);
    RunConcat(d, Fresh(), Rendered(r) + some, more[k..]);
    assert (Rendered(r) + some) + more[k..] == Rendered(r) + more;
    EndedRun(d, Run(d, Fresh(), Rendered(r) + some), more[k..]);
  }

  lemma {:induction false} SameEnds(more: seq<Byte>, k: nat)
    requires LineEnds(more) <= k <= |more|
    ensures LineEnds(more[..k]) == LineEnds(more)
    decreases |more|
  {
    if k > 0 && IsLineEnd(more[0]) {
      SameEnds(more[1..], k - 1);
      assert more[..k][1..] == more[1..][..k - 1];
    }
  }

  /** End to end: however a well-formed head, and what was read with it up to the first byte that
      is no line end, are cut into reads, the calls on the parser lead to the request that the
      head stands for; they fail exactly when that byte is refused. */
  lemma RequestFromAnyCut(d: Decision, r: Head, more: seq<Byte>, pieces: seq<seq<Byte>>)
    requires Proper(r) && (forall p :: d(p)) && (Upgrades(r) || |more| <= LineEnds(more) + 1)
    requires Pieces(pieces) && Joined(pieces) == Rendered(r) + more
    ensures var c := Calls(d, Init(Request), [], pieces);
      && (c.status.Failed? <==> Spurned(r, more)) && HandleAll(c.log).Some? && Stands(HandleAll(c.log).value, r)
      && (!c.status.Failed? ==> c.used == |Rendered(r)| + if Upgrades(r) then 0 else |more|)
      && (!c.status.Failed? ==> LineAfter(c.p, r, more))
  {
    hide Run, Rendered, Proper, Stands, HandleAll, Spurned, Upgrades, LineEnds, LineAfter;
    CutAnywhere(d, Init(Request), [], pieces);
    ToFirstByte(d, r, more);
  }
}
