/** The end of the input, which is a call without bytes: where messages come to their end, and
    where they come to it again. */
module HttpEnds {
  import opened Options
  import opened HttpTypes
  import opened HttpSwitch
  import opened HttpRun
  import opened HttpMarks
  import opened HttpReference
  import opened HttpDelivery
  import opened HttpParser
  import opened HttpSplit
  import opened HttpLine
  import opened HttpHead
  import opened HttpMessage

  // ---------- calls of every kind ----------

  /** What one call on `http_parser_execute` comes to: the fields, and the callbacks merged. */
  function Turn(d: Decision, p: Parser, log: seq<Event>, data: seq<Byte>): (Parser, seq<Event>) {
    if !p.errno.OK? then (p, log)
    else if data == [] then
      (AtEof(p).0, match AtEof(p).1 case None => log case Some(e) => Put(log, e))
    else
      var c := Run(d, Conf(p, log, 0, Running), data);
      (c.p, c.log)
  }

  /** Any calls, one after another. */
  function Session(d: Decision, p: Parser, log: seq<Event>, calls: seq<seq<Byte>>): (Parser, seq<Event>)
    decreases |calls|
  {
    if calls == [] then (p, log)
    else
      var t := Turn(d, p, log, calls[0]);
      Session(d, t.0, t.1, calls[1..])
  }

  lemma TurnGood(d: Decision, p: Parser, log: seq<Event>, data: seq<Byte>)
    requires p.errno.OK? ==> Good(p, 0)
    ensures var q := Turn(d, p, log, data).0; q.errno.OK? ==> Good(q, 0) && p.errno.OK?
  {
    hide Run, Good;
    if p.errno.OK? && data != [] {
      var c := Conf(p, log, 0, Running);
      RunFine(d, c, data);
      FineErrno(Run(d, c, data));
    }
  }

  /** The calls, made on a parser. */
  method Serve(d: Decision, kind: ParserType, calls: seq<seq<Byte>>) returns (parser: HttpParser)
    ensures var (p, log) := Session(d, Init(kind), [], calls);
      parser.p == p && if p.errno.OK? then Merged(parser.calls) == log else Dropped(log, Merged(parser.calls))
  {
    hide Run, Good, Merged, Turn, Dropped;
    parser := new HttpParser(kind);
    InitGood(kind);
    EmptyMerged();
    ghost var log: seq<Event> := [];
    for i := 0 to |calls|
      invariant fresh(parser) && if parser.p.errno.OK? then Good(parser.p, 0) && Merged(parser.calls) == log
        else Dropped(log, Merged(parser.calls))
      invariant Session(d, parser.p, log, calls[i..]) == Session(d, Init(kind), [], calls)
    {
      ghost var before, heard := parser.p, parser.calls;
      TurnGood(d, before, log, calls[i]);
      var n := parser.Execute(d, calls[i]);
      assert calls[i..][0] == calls[i] && calls[i..][1..] == calls[i + 1..];
      TurnIs(d, before, heard, log, calls[i], parser.p, parser.calls);
      log := Turn(d, before, log, calls[i]).1;
    }
  }

  lemma EmptyMerged()
    ensures Merged([]) == []
  {
  }

  /** The contract of a call, in terms of `Turn`. */
  lemma TurnIs(d: Decision, p: Parser, calls: seq<Event>, log: seq<Event>, data: seq<Byte>, q: Parser,
               calls': seq<Event>)
    requires if p.errno.OK? then Good(p, 0) && Merged(calls) == log else Dropped(log, Merged(calls))
    requires p.errno != OK ==> q == p && calls' == calls
    requires p.errno == OK && data == [] ==> q == AtEof(p).0 && calls' == calls + Listed(AtEof(p).1)
    requires p.errno == OK && data != [] ==>
      var c := Run(d, Conf(p, Merged(calls), 0, Running), data);
      q == c.p && if c.status.Failed? then Dropped(c.log, Merged(calls')) else Merged(calls') == c.log
    ensures var t := Turn(d, p, log, data);
      q == t.0 && if q.errno.OK? then Merged(calls') == t.1 else Dropped(t.1, Merged(calls'))
  {
    hide Run, Good, Merged, Dropped;
    if p.errno.OK? {
      if data == [] {
        MergedListed(calls, AtEof(p).1);
        NoneDropped(Merged(calls'));
      } else {
        var c := Conf(p, log, 0, Running);
        RunFine(d, c, data);
        FineErrno(Run(d, c, data));
        NoneDropped(Merged(calls'));
      }
    }
  }

  lemma NoneDropped(log: seq<Event>)
    ensures Dropped(log, log)
  {
  }

  // ---------- completed once ----------

  /** After message_complete, nothing comes but the beginning of another message. */
  predicate Orderly(log: seq<Event>) {
    forall i | 0 <= i < |log| - 1 && log[i] == Notice(MessageComplete) :: log[i + 1] == Notice(MessageBegin)
  }

  predicate Completed(log: seq<Event>) { log != [] && log[|log| - 1] == Notice(MessageComplete) }

  lemma PutOrderly(log: seq<Event>, e: Event)
    ensures Orderly(Put(log, e)) <==> Orderly(log) && (Completed(log) ==> e == Notice(MessageBegin))
    ensures Completed(Put(log, e)) <==> e == Notice(MessageComplete)
  {
    var r := Put(log, e);
    if r == log + [e] {
      if Orderly(r) {
        forall i | 0 <= i < |log| - 1 && log[i] == Notice(MessageComplete) ensures log[i + 1] == Notice(MessageBegin) {
          assert r[i] == log[i] && r[i + 1] == log[i + 1];
        }
        if Completed(log) { assert r[|log| - 1] == Notice(MessageComplete) && r[|log| - 1 + 1] == e; }
      }
    } else {
      forall i | 0 <= i < |log| - 1 ensures r[i] == log[i] { }
      if Orderly(r) {
        forall i | 0 <= i < |log| - 1 && log[i] == Notice(MessageComplete) ensures log[i + 1] == Notice(MessageBegin) {
          assert r[i] == log[i] && r[i + 1] == Notice(MessageBegin);
        }
      }
    }
  }

  /** The states between messages. */
  predicate Resting(s: State) { s.Dead? || s.StartReq? || s.StartRes? }

  /** Between messages, a pass announces nothing but a new one; a message is completed only on
      the way to such a state. */
  predicate Settles(s: State, o: Outcome) {
    match o
    case Next(q, act) =>
      && (Resting(s) ==> (act == Quiet && Resting(q.state)) || act == Notify(MessageBegin))
      && (act == Notify(MessageComplete) ==> Resting(q.state))
    case Again(q, act) => !Resting(s) && act != Notify(MessageComplete)
    case Stop(q, act) => !Resting(s) && act == Notify(MessageComplete) && Resting(q.state)
    case _ => true
  }

  lemma SettlesStart(d: Decision, p: Parser, b: Byte)
    requires GroupOf(p.state).GStart? || GroupOf(p.state).GDead?
    ensures Settles(p.state, Switch(d, p, b))
  {
    hide FirstMethod, StartsMethod;
  }

  lemma SettlesLine(d: Decision, p: Parser, b: Byte)
    requires GroupOf(p.state) in {GStatus, GMethod, GUrl, GLine}
    ensures Settles(p.state, Switch(d, p, b))
  {
    hide MethodName, UrlChar, Matcher, OtherMethod;
  }

  lemma SettlesHeader(d: Decision, p: Parser, b: Byte)
    requires GroupOf(p.state) in {GFieldStart, GField, GValueStart, GValue, GLineEnd, GChunkHead}
    ensures Settles(p.state, Switch(d, p, b))
  {
    hide Token, FieldChar, Match;
  }

  lemma SettlesBody(d: Decision, p: Parser, b: Byte)
    requires GroupOf(p.state) in {GHeadEnd, GBody}
    ensures Settles(p.state, Switch(d, p, b))
  {
    NewMessageState(p);
    NewMessageState(p.(nread := 0));
    hide NewMessage, NeedsEof;
  }

  lemma SwitchSettles(d: Decision, p: Parser, b: Byte)
    ensures Settles(p.state, Switch(d, p, b))
  {
    hide Switch, Settles;
    match GroupOf(p.state)
    case GStart | GDead => SettlesStart(d, p, b);
    case GStatus | GMethod | GUrl | GLine => SettlesLine(d, p, b);
    case GHeadEnd | GBody => SettlesBody(d, p, b);
    case _ => SettlesHeader(d, p, b);
  }

  /** The callbacks are in order, and a completed message has left the parser between messages. */
  predicate Settled(s: State, log: seq<Event>) { Orderly(log) && (Completed(log) ==> Resting(s)) }

  lemma NextSettled(s: State, log: seq<Event>, q: Parser, act: Act, b: Byte)
    requires Settled(s, log) && Settles(s, Next(q, act)) && NextDisciplined(s, q.state, act)
    ensures Settled(q.state, ByteLog(PassLog(log, act, b), q.state, act, b))
  {
    hide Put, Orderly, Completed, BodyHold;
    forall l: seq<Event>, e: Event
      ensures (Orderly(Put(l, e)) <==> Orderly(l) && (Completed(l) ==> e == Notice(MessageBegin)))
        && (Completed(Put(l, e)) <==> e == Notice(MessageComplete)) {
      PutOrderly(l, e);
    }
  }

  lemma PassSettled(s: State, log: seq<Event>, q: Parser, act: Act, b: Byte)
    requires Settled(s, log) && (Settles(s, Again(q, act)) || Settles(s, Stop(q, act))) && !act.Mark?
    ensures Settled(q.state, PassLog(log, act, b))
  {
    hide Put, Orderly, Completed;
    forall l: seq<Event>, e: Event
      ensures (Orderly(Put(l, e)) <==> Orderly(l) && (Completed(l) ==> e == Notice(MessageBegin)))
        && (Completed(Put(l, e)) <==> e == Notice(MessageComplete)) {
      PutOrderly(l, e);
    }
  }

  lemma {:induction false} PassesSettled(d: Decision, p: Parser, log: seq<Event>, used: int, b: Byte)
    requires Settled(p.state, log)
    ensures var c := Passes(d, p, log, used, b);
      Orderly(c.log) && (c.status.Running? || c.status.Stopped? ==> Settled(c.p.state, c.log))
    decreases Rank(p.state)
  {
    SwitchMarks(d, p, b);
    hide Switch, PassLog, ByteLog, Put, Completed, Settles, NextDisciplined, Live, Resting, Orderly;
    SwitchSettles(d, p, b);
    match Switch(d, p, b)
    case Next(q, act) => NextSettled(p.state, log, q, act, b);
    case Again(q, act) =>
      PassSettled(p.state, log, q, act, b);
      PassesSettled(d, q, PassLog(log, act, b), used, b);
    case Stop(q, act) => PassSettled(p.state, log, q, act, b);
    case _ =>
  }

  lemma {:induction false} RunSettled(d: Decision, c: Conf, bytes: seq<Byte>)
    requires Settled(c.p.state, c.log)
    ensures var r := Run(d, c, bytes);
      Orderly(r.log) && (r.status.Running? || r.status.Stopped? ==> Settled(r.p.state, r.log))
    decreases |bytes|
  {
    hide Passes, Orderly, Completed, Resting;
    if bytes != [] && c.status.Running? {
      var o := One(d, c, bytes[0]);
      PassesSettled(d, Counted(c.p), c.log, c.used, bytes[0]);
      if o.status.Running? { RunSettled(d, o, bytes[1..]); } else { EndedRun(d, o, bytes[1..]); }
    }
  }

  // ---------- completed again ----------

  lemma {:induction false} PassesDisorder(d: Decision, p: Parser, log: seq<Event>, used: int, b: Byte)
    requires !Orderly(log)
    ensures !Orderly(Passes(d, p, log, used, b).log)
    decreases Rank(p.state)
  {
    SwitchMarks(d, p, b);
    hide Switch, Put, Live, Orderly;
    forall l: seq<Event>, e: Event ensures Orderly(Put(l, e)) ==> Orderly(l) { PutOrderly(l, e); }
    match Switch(d, p, b)
    case Again(q, act) => PassesDisorder(d, q, PassLog(log, act, b), used, b);
    case _ =>
  }

  lemma {:induction false} RunDisorder(d: Decision, c: Conf, bytes: seq<Byte>)
    requires !Orderly(c.log)
    ensures !Orderly(Run(d, c, bytes).log)
    decreases |bytes|
  {
    hide Passes, Orderly;
    if bytes != [] && c.status.Running? {
      PassesDisorder(d, Counted(c.p), c.log, c.used, bytes[0]);
      RunDisorder(d, One(d, c, bytes[0]), bytes[1..]);
    }
  }

  lemma {:induction false} SessionDisorder(d: Decision, p: Parser, log: seq<Event>, calls: seq<seq<Byte>>)
    requires !Orderly(log)
    ensures !Orderly(Session(d, p, log, calls).1)
    decreases |calls|
  {
    hide Run, Orderly, Put;
    if calls != [] {
      var t := Turn(d, p, log, calls[0]);
      if p.errno.OK? {
        if calls[0] == [] {
          if AtEof(p).1.Some? { PutOrderly(log, AtEof(p).1.value); }
        } else {
          RunDisorder(d, Conf(p, log, 0, Running), calls[0]);
        }
      }
      SessionDisorder(d, t.0, t.1, calls[1..]);
    }
  }

  /** A body that lasts until the end of the input goes on after it, and ends again. */
  lemma AfterEnd(d: Decision, p: Parser, log: seq<Event>, data: seq<Byte>)
    requires p.errno.OK? && p.state.BodyIdentityEof?
    ensures Turn(d, p, log, data) == (p, Put(log, if data == [] then Notice(MessageComplete) else Data(Body, data)))
  {
    hide Run, One, Put;
    if data != [] {
      Skip(d, p, log, 0, data, |data|);
      assert data[..|data|] == data && data[|data|..] == [];
      EmptyRun(d, Conf(p, Put(log, Data(Body, data)), |data|, Running));
    }
  }

  /** The end of the input is met in a body that lasts until it, and more calls are made. */
  predicate EndMet(d: Decision, p: Parser, log: seq<Event>, calls: seq<seq<Byte>>)
    decreases |calls|
  {
    |calls| > 1 &&
      var t := Turn(d, p, log, calls[0]);
      (p.errno.OK? && p.state.BodyIdentityEof? && calls[0] == []) || EndMet(d, t.0, t.1, calls[1..])
  }

  lemma TurnSettled(d: Decision, p: Parser, log: seq<Event>, data: seq<Byte>)
    requires Orderly(log) && (p.errno.OK? ==> Good(p, 0) && Settled(p.state, log))
    requires !(p.errno.OK? && p.state.BodyIdentityEof? && data == [])
    ensures var t := Turn(d, p, log, data); Orderly(t.1) && (t.0.errno.OK? ==> Good(t.0, 0) && Settled(t.0.state, t.1))
  {
    hide Run, Good, Orderly, Completed, Resting;
    TurnGood(d, p, log, data);
    if p.errno.OK? && data != [] {
      var c := Conf(p, log, 0, Running);
      RunSettled(d, c, data);
      RunFine(d, c, data);
      FineErrno(Run(d, c, data));
    }
  }

  /** Over any calls, body bytes after message_complete, or another message_complete for the same
      message, come exactly when the end of the input was met in a body that lasts until it and
      another call was made. */
  lemma {:induction false} OnlyAfterEnd(d: Decision, p: Parser, log: seq<Event>, calls: seq<seq<Byte>>)
    requires Orderly(log) && (p.errno.OK? ==> Good(p, 0) && Settled(p.state, log))
    ensures Orderly(Session(d, p, log, calls).1) <==> !EndMet(d, p, log, calls)
    decreases |calls|
  {
    hide Turn, Good, Orderly, Put, Resting;
    if calls != [] {
      var t := Turn(d, p, log, calls[0]);
      if p.errno.OK? && p.state.BodyIdentityEof? && calls[0] == [] {
        AfterEnd(d, p, log, []);
        PutOrderly(log, Notice(MessageComplete));
        InBodyNotResting(p.state);
        if |calls| > 1 {
          AfterEnd(d, p, t.1, calls[1]);
          PutOrderly(t.1, if calls[1] == [] then Notice(MessageComplete) else Data(Body, calls[1]));
          assert calls[1..][0] == calls[1];
          SessionDisorder(d, Turn(d, p, t.1, calls[1]).0, Turn(d, p, t.1, calls[1]).1, calls[1..][1..]);
        }
      } else {
        TurnSettled(d, p, log, calls[0]);
        OnlyAfterEnd(d, t.0, t.1, calls[1..]);
      }
    }
  }

  lemma InBodyNotResting(s: State)
    ensures s.BodyIdentityEof? ==> !Resting(s)
  {
  }

  /** The same from a fresh parser. */
  lemma CompletedOnce(d: Decision, kind: ParserType, calls: seq<seq<Byte>>)
    ensures Orderly(Session(d, Init(kind), [], calls).1) <==> !EndMet(d, Init(kind), [], calls)
  {
    hide Session, EndMet, Good;
    InitGood(kind);
    OnlyAfterEnd(d, Init(kind), [], calls);
  }

  /** Such a run: a response whose body lasts until the end of the input, that end, more bytes,
      and the end again. */
  method EndsTwice(r: Reply, more: seq<Byte>) returns (parser: HttpParser)
    requires ProperReply(r, false) && ReplyFraming(r, false).UntilEnd? && more != []
    ensures parser.p.state.BodyIdentityEof? && parser.p.errno.OK?
    ensures Merged(parser.calls) == ((ReplyHeadLog([], r) + [Notice(HeadersComplete)]) + BodyEvents(BodyOf(r.content)))
      + [Notice(MessageComplete), Data(Body, more), Notice(MessageComplete)]
  {
    hide Run, Good, Merged, ReplyHeadLog, BodyEvents, ProperReply, ReplyFraming, ReplyBytes, Put, AtEof;
    parser := new HttpParser(Response);
    InitGood(Response);
    EmptyMerged();
    EndlessReply(r);
    var n := parser.Execute(Wanted, ReplyBytes(r));
    ghost var p, log := parser.p, Merged(parser.calls);
    ghost var heard := parser.calls;
    AfterEnd(Wanted, p, log, []);
    n := parser.Execute(Wanted, []);
    TurnIs(Wanted, p, heard, log, [], parser.p, parser.calls);
    heard := parser.calls;
    AfterEnd(Wanted, p, Merged(heard), more);
    n := parser.Execute(Wanted, more);
    TurnIs(Wanted, p, heard, Merged(heard), more, parser.p, parser.calls);
    heard := parser.calls;
    AfterEnd(Wanted, p, Merged(heard), []);
    n := parser.Execute(Wanted, []);
    TurnIs(Wanted, p, heard, Merged(heard), [], parser.p, parser.calls);
    ThreeMore(log, more);
  }

  /** on_headers_complete answers 0: a body is read. */
  function Wanted(p: Parser): bool { false }

  lemma ThreeMore(log: seq<Event>, more: seq<Byte>)
    ensures Put(Put(Put(log, Notice(MessageComplete)), Data(Body, more)), Notice(MessageComplete))
      == log + [Notice(MessageComplete), Data(Body, more), Notice(MessageComplete)]
  {
  }

  lemma EndlessReply(r: Reply)
    requires ProperReply(r, false) && ReplyFraming(r, false).UntilEnd?
    ensures var o := Run(Wanted, Conf(Init(Response), [], 0, Running), ReplyBytes(r));
      && ReplyBytes(r) != [] && o.status.Running? && o.p.state.BodyIdentityEof? && Good(o.p, 0) && o.p.errno.OK?
      && o.log == (ReplyHeadLog([], r) + [Notice(HeadersComplete)]) + BodyEvents(BodyOf(r.content))
  {
    hide Run, Good, ReplyHeadLog, BodyEvents, HeadFrame, ProperStatus, ProperHeader, ReplyStart, ContentBytes;
    var c := Conf(Init(Response), [], 0, Running);
    ReplyHeadBytes(r);
    InitGood(Response);
    ReplyRun(Wanted, c, r, false);
    RunFine(Wanted, c, ReplyBytes(r));
    FineErrno(Run(Wanted, c, ReplyBytes(r)));
  }

  // ---------- such a response ----------

  /** A status line and nothing else. */
  function Bare(): Reply {
    Reply(StatusLine([], ['1'], ['1'], 0, ['2', '0', '0'], None, CrLf), [], CrLf, Plain([]))
  }

  lemma TwoHundred()
    ensures Small(['1']) && ValueOf(['1']) == 1 && Small(['2', '0', '0']) && ValueOf(['2', '0', '0']) == 200
  {
    SmallOne('1');
    var d := Decimals(['2', '0', '0']);
    assert d == [2, 0, 0] && d[..2] == [2, 0] && [2, 0][..1] == [2] && [2][..0] == [];
    assert Number(10, [2, 0]) == Number(10, [2]) * 10 + 0;
  }

  /** It is one whose body lasts until the end of the input. */
  lemma BareEndless()
    ensures ReplyBytes(Bare()) == "HTTP/1.1 200\r\n\r\n"
    ensures ProperReply(Bare(), false) && ReplyFraming(Bare(), false).UntilEnd?
  {
    TwoHundred();
    hide Small, ValueOf;
    assert Spaces(0) == [];
    assert StatusBytes(Bare().line) == "HTTP/1.1 200\r\n";
  }
}
