/** `http_parser_execute` itself: marks, bulk skipping of bodies, early returns. */
module HttpParser {
  import opened Options
  import opened HttpTypes
  import opened HttpSwitch
  import opened HttpRun
  import opened HttpMarks
  import opened HttpReference
  import opened HttpDelivery

  // ---------- bodies skipped in one step ----------

  /** A body state after `n` of its bytes, but for the last of a fixed-length body. */
  function Taken(p: Parser, n: nat): Parser
    requires Skips(p, n)
  {
    if p.state.BodyIdentityEof? then p
    else
      var q := p.(contentLength := p.contentLength - n);
      if p.state.ChunkData? && q.contentLength == 0 then q.(state := ChunkDataAlmostDone) else q
  }

  predicate Skips(p: Parser, n: nat) {
    || p.state.BodyIdentityEof?
    || (p.state.BodyIdentity? && n < p.contentLength < ULLONG_MAX)
    || (p.state.ChunkData? && n <= p.contentLength < ULLONG_MAX && p.flags.chunked)
  }

  lemma OneOutsideHeader(d: Decision, p: Parser, log: seq<Event>, used: int, b: Byte)
    requires !ParsingHeader(p.state)
    ensures One(d, Conf(p, log, used, Running), b) == Passes(d, p, log, used, b)
  {
    hide Passes;
  }

  lemma SwitchInBody(d: Decision, p: Parser, b: Byte)
    requires Skips(p, 1) && (p.state.ChunkData? ==> p.contentLength > 0)
    ensures Switch(d, p, b) == Next(Taken(p, 1), Mark(Body)) && Live(Taken(p, 1).state).None?
  {
    hide NeedsEof, ShouldKeepAlive;
  }

  lemma OneBodyByte(d: Decision, p: Parser, log: seq<Event>, used: int, b: Byte)
    requires Skips(p, 1) && (p.state.ChunkData? ==> p.contentLength > 0)
    ensures One(d, Conf(p, log, used, Running), b)
      == Conf(Taken(p, 1), Put(log, Data(Body, [b])), used + 1, Running)
  {
    hide Put, Switch, Live, Taken, One;
    OneOutsideHeader(d, p, log, used, b);
    SwitchInBody(d, p, b);
  }

  /** Taking `n` bytes of a body at once is taking them one by one. */
  lemma {:induction false} Skip(d: Decision, p: Parser, log: seq<Event>, used: int, bytes: seq<Byte>, n: nat)
    requires 0 < n <= |bytes| && Skips(p, n)
    ensures Run(d, Conf(p, log, used, Running), bytes)
      == Run(d, Conf(Taken(p, n), Put(log, Data(Body, bytes[..n])), used + n, Running), bytes[n..])
    decreases n
  {
    hide Put, One;
    OneBodyByte(d, p, log, used, bytes[0]);
    var log1 := Put(log, Data(Body, [bytes[0]]));
    if n == 1 {
      assert bytes[..1] == [bytes[0]];
    } else {
      var rest := bytes[1..];
      Skip(d, Taken(p, 1), log1, used + 1, rest, n - 1);
      PutTwice(log, Body, [bytes[0]], rest[..n - 1]);
      assert [bytes[0]] + rest[..n - 1] == bytes[..n];
      assert rest[n - 1..] == bytes[n..];
    }
  }

  function Finished(p: Parser): Parser { p.(contentLength := 0, state := MessageDone) }

  lemma SwitchAtEnd(d: Decision, p: Parser, b: Byte)
    requires p.state.BodyIdentity? && p.contentLength == 1
    ensures Switch(d, p, b) == Again(Finished(p), Last)
  {
    hide NeedsEof, ShouldKeepAlive;
  }

  lemma LastBodyByte(d: Decision, p: Parser, log: seq<Event>, used: int, b: Byte)
    requires p.state.BodyIdentity? && p.contentLength == 1
    ensures One(d, Conf(p, log, used, Running), b) == Passes(d, Finished(p), Put(log, Data(Body, [b])), used, b)
  {
    hide Put, Switch, Finished, One;
    OneOutsideHeader(d, p, log, used, b);
    SwitchAtEnd(d, p, b);
    SwitchMarks(d, p, b);
  }

  /** The whole rest of a fixed-length body at once: its last byte is then looked at again. */
  lemma SkipToEnd(d: Decision, p: Parser, log: seq<Event>, used: int, bytes: seq<Byte>, n: nat)
    requires p.state.BodyIdentity? && n == p.contentLength && 0 < n < ULLONG_MAX && n <= |bytes|
    ensures Run(d, Conf(p, log, used, Running), bytes)
      == Run(d, Passes(d, Finished(p), Put(log, Data(Body, bytes[..n])), used + n - 1, bytes[n - 1]), bytes[n..])
  {
    hide Put, One, Passes, Run;
    var b := bytes[n - 1];
    if n == 1 {
      RunFirst(d, p, log, used, bytes);
      LastBodyByte(d, p, log, used, b);
      assert bytes[..1] == [b];
    } else {
      var log1 := Put(log, Data(Body, bytes[..n - 1]));
      Skip(d, p, log, used, bytes, n - 1);
      RunFirst(d, Taken(p, n - 1), log1, used + n - 1, bytes[n - 1..]);
      LastBodyByte(d, Taken(p, n - 1), log1, used + n - 1, b);
      PutTwice(log, Body, bytes[..n - 1], [b]);
      assert bytes[..n - 1] + [b] == bytes[..n];
      assert bytes[n - 1..][1..] == bytes[n..];
    }
  }

  lemma RunFirst(d: Decision, p: Parser, log: seq<Event>, used: int, bytes: seq<Byte>)
    requires bytes != []
    ensures Run(d, Conf(p, log, used, Running), bytes)
      == Run(d, One(d, Conf(p, log, used, Running), bytes[0]), bytes[1..])
  {
    hide One;
  }

  // ---------- what is still to come ----------

  /** Before byte `i`: going on from here byte by byte gives `goal`. */
  ghost predicate Ahead(d: Decision, goal: Conf, data: seq<Byte>, p: Parser, m: Marks, calls: seq<Event>, i: nat) {
    && i <= |data| && MarksFit(m, p.state, i) && Good(p, 0)
    && goal == Run(d, Conf(p, Pending(Merged(calls), m, data, i), i, Running), data[i..])
  }

  /** Looking at byte `i`: the passes still to be made over it, and then the rest, give `goal`. */
  ghost predicate Inside(d: Decision, goal: Conf, data: seq<Byte>, p: Parser, m: Marks, calls: seq<Event>, i: nat) {
    && i < |data| && MarksFit(m, p.state, i) && Good(p, 1)
    && goal == Run(d, Passes(d, p, Pending(Merged(calls), m, data, i), i, data[i]), data[i + 1..])
  }

  /** The callbacks of a call that fails: all of them, or all but the data collected last. */
  ghost predicate Dropped(full: seq<Event>, made: seq<Event>) {
    full == made || exists k: Kind, bytes: seq<Byte> :: full == Put(made, Data(k, bytes))
  }

  lemma PendingDropped(log: seq<Event>, m: Marks, data: seq<Byte>, i: nat)
    requires i <= |data|
    ensures Dropped(Pending(log, m, data, i), log)
  {
    hide Put;
  }

  lemma Overflows(d: Decision, goal: Conf, data: seq<Byte>, p: Parser, m: Marks, calls: seq<Event>, i: nat)
    requires Ahead(d, goal, data, p, m, calls, i) && i < |data|
    requires ParsingHeader(p.state) && p.nread + 1 > MAX_HEADER_SIZE
    ensures goal.p == Counted(p).(errno := HeaderOverflow) && goal.used == i && goal.status.Failed?
      && Dropped(goal.log, Merged(calls))
  {
    hide MarksFit, Good, Pending, Merged, Passes, Dropped;
    PendingDropped(Merged(calls), m, data, i);
    RunFirst(d, p, Pending(Merged(calls), m, data, i), i, data[i..]);
  }

  lemma Enters(d: Decision, goal: Conf, data: seq<Byte>, p: Parser, m: Marks, calls: seq<Event>, i: nat)
    requires Ahead(d, goal, data, p, m, calls, i) && i < |data|
    requires !(ParsingHeader(p.state) && p.nread + 1 > MAX_HEADER_SIZE)
    ensures Inside(d, goal, data, Counted(p), m, calls, i)
  {
    hide MarksFit, Good, Pending, Merged, Passes;
    GoodCount(p);
    CountedGood(p);
    assert data[i..][0] == data[i] && data[i..][1..] == data[i + 1..];
  }

  lemma Advances(d: Decision, goal: Conf, data: seq<Byte>, p: Parser, m: Marks, calls: seq<Event>, i: nat)
    requires Inside(d, goal, data, p, m, calls, i) && Switch(d, p, data[i]).Next?
    ensures var o := Switch(d, p, data[i]);
      MarksBound(m, i) && Ahead(d, goal, data, o.p, Performed(o.act, m, i), calls + Listed(Emitted(o.act, m, data, i)),
                                i + 1)
  {
    hide Switch, MarksFit, Good, Pending, Merged, NextDisciplined, Put, MarksBound, Emitted, Performed, ByteLog,
      PassLog;
    var o := Switch(d, p, data[i]);
    SwitchMarks(d, p, data[i]);
    SwitchGood(d, p, data[i]);
    NextKeeps(Merged(calls), m, data, i, p.state, o.p.state, o.act);
    MarksKeep(m, i, p.state, o.p.state, o.act);
    MergedListed(calls, Emitted(o.act, m, data, i));
  }

  lemma Repeats(d: Decision, goal: Conf, data: seq<Byte>, p: Parser, m: Marks, calls: seq<Event>, i: nat)
    requires Inside(d, goal, data, p, m, calls, i) && Switch(d, p, data[i]).Again? && !p.state.BodyIdentity?
    ensures var o := Switch(d, p, data[i]);
      && MarksBound(m, i) && Rank(o.p.state) < Rank(p.state)
      && Inside(d, goal, data, o.p, Performed(o.act, m, i), calls + Listed(Emitted(o.act, m, data, i)), i)
  {
    hide Switch, MarksFit, Good, Pending, Merged, NextDisciplined, Put, MarksBound, Emitted, Performed, ByteLog,
      PassLog;
    var o := Switch(d, p, data[i]);
    SwitchMarks(d, p, data[i]);
    SwitchGood(d, p, data[i]);
    AgainKeeps(Merged(calls), m, data, i, p, o.p, o.act);
    MergedListed(calls, Emitted(o.act, m, data, i));
    NoMarksFit(o.p.state, i);
    NothingPending(Merged(calls + Listed(Emitted(o.act, m, data, i))), data, i);
  }

  lemma NothingPending(log: seq<Event>, data: seq<Byte>, i: nat)
    requires i <= |data|
    ensures Pending(log, NO_MARKS, data, i) == log
  {
  }

  lemma Stops(d: Decision, goal: Conf, data: seq<Byte>, p: Parser, m: Marks, calls: seq<Event>, i: nat)
    requires Inside(d, goal, data, p, m, calls, i) && Switch(d, p, data[i]).Stop?
    ensures var o := Switch(d, p, data[i]);
      && MarksBound(m, i)
      && goal == Conf(o.p, Merged(calls + Listed(Emitted(o.act, m, data, i))), i + 1, Stopped)
  {
    hide Switch, MarksFit, Good, Pending, Merged, NextDisciplined, Put, MarksBound, Emitted, Performed, ByteLog,
      PassLog;
    var o := Switch(d, p, data[i]);
    SwitchMarks(d, p, data[i]);
    AgainKeeps(Merged(calls), m, data, i, p, o.p, o.act);
    MergedListed(calls, Emitted(o.act, m, data, i));
  }

  lemma Fails(d: Decision, goal: Conf, data: seq<Byte>, p: Parser, m: Marks, calls: seq<Event>, i: nat)
    requires Inside(d, goal, data, p, m, calls, i) && Switch(d, p, data[i]).Fail?
    ensures var o := Switch(d, p, data[i]);
      goal.p == o.p.(errno := o.errno) && goal.used == i && goal.status.Failed? && Dropped(goal.log, Merged(calls))
  {
    hide Switch, MarksFit, Good, Pending, Merged, Dropped;
    PendingDropped(Merged(calls), m, data, i);
  }

  lemma NeverCrashes(d: Decision, goal: Conf, data: seq<Byte>, p: Parser, m: Marks, calls: seq<Event>, i: nat)
    requires Inside(d, goal, data, p, m, calls, i)
    ensures !Switch(d, p, data[i]).Crash?
  {
    hide Switch, MarksFit, Good, Pending, Merged;
    SwitchGood(d, p, data[i]);
  }

  // ---------- bodies ----------

  predicate InBody(s: State) { s.BodyIdentity? || s.BodyIdentityEof? || s.ChunkData? }

  lemma GoodInBody(p: Parser)
    requires Good(p, 1) && InBody(p.state)
    ensures p.state.BodyIdentityEof? || 0 < p.contentLength < ULLONG_MAX
    ensures p.state.ChunkData? ==> p.flags.chunked
    ensures !ParsingHeader(p.state) && BodyHold(p.state) && Live(p.state).None?
  {
    hide MethodName, NameLength, FieldRecogniser, ValueRecogniser;
  }

  lemma GoodTaken(p: Parser, n: nat)
    requires Good(p, 1) && Skips(p, n)
    ensures Good(Taken(p, n), 0) && BodyHold(Taken(p, n).state) && Live(Taken(p, n).state).None?
  {
    hide MethodName, NameLength, FieldRecogniser, ValueRecogniser;
  }

  lemma GoodFinished(p: Parser)
    requires Good(p, 1) && p.state.BodyIdentity?
    ensures Good(Finished(p), 1) && Live(Finished(p).state).None? && Rank(Finished(p).state) < Rank(p.state)
  {
    hide MethodName, NameLength, FieldRecogniser, ValueRecogniser;
  }

  /** In a body, the byte has not been looked at: the rest of the call starts from it. */
  lemma FromBody(d: Decision, goal: Conf, data: seq<Byte>, p: Parser, m: Marks, calls: seq<Event>, i: nat)
    requires Inside(d, goal, data, p, m, calls, i) && !ParsingHeader(p.state)
    ensures goal == Run(d, Conf(p, Pending(Merged(calls), m, data, i), i, Running), data[i..])
  {
    hide MarksFit, Good, Pending, Merged, Run, One, Passes;
    var log := Pending(Merged(calls), m, data, i);
    OneOutsideHeader(d, p, log, i, data[i]);
    RunFirst(d, p, log, i, data[i..]);
    assert data[i..][0] == data[i] && data[i..][1..] == data[i + 1..];
  }

  lemma MarkedBodyFits(m: Marks, s: State, j: nat, i: nat)
    requires m == WithMark(NO_MARKS, Body, Some(j)) && j < i && BodyHold(s) && Live(s).None?
    ensures MarksFit(m, s, i)
  {
    hide BodyHold, Live;
  }

  lemma MarkedBodyPending(log: seq<Event>, m: Marks, data: seq<Byte>, j: nat, i: nat)
    requires m == WithMark(NO_MARKS, Body, Some(j)) && j < i <= |data|
    ensures Pending(log, m, data, i) == Put(log, Data(Body, data[j..i]))
  {
    hide Put;
  }

  lemma Skipped(d: Decision, goal: Conf, data: seq<Byte>, p: Parser, m: Marks, calls: seq<Event>, i: nat, n: nat)
    requires Inside(d, goal, data, p, m, calls, i) && InBody(p.state)
    requires 0 < n <= |data| - i && Skips(p, n)
    ensures Ahead(d, goal, data, Taken(p, n), Performed(Mark(Body), m, i), calls, i + n)
  {
    hide MarksFit, Good, Pending, Merged, Run, Taken, Put, Passes, Performed, BodyHold, Live, Skips;
    var log := Merged(calls);
    GoodInBody(p);
    GoodTaken(p, n);
    FromBody(d, goal, data, p, m, calls, i);
    Skip(d, p, Pending(log, m, data, i), i, data[i..], n);
    SkipPending(log, m, p.state, data, i, n);
    var m' := Performed(Mark(Body), m, i);
    MarkedBodyFits(m', Taken(p, n).state, m'.body.value, i + n);
    MarkedBodyPending(log, m', data, m'.body.value, i + n);
    assert data[i..][..n] == data[i..i + n] && data[i..][n..] == data[i + n..];
  }

  lemma SkippedToEnd(d: Decision, goal: Conf, data: seq<Byte>, p: Parser, m: Marks, calls: seq<Event>, i: nat, n: nat)
    requires Inside(d, goal, data, p, m, calls, i) && p.state.BodyIdentity?
    requires n == p.contentLength && 0 < n <= |data| - i
    ensures var m' := Performed(Mark(Body), m, i);
      && m'.body.Some? && m'.body.value <= i && WithMark(m', Body, None) == NO_MARKS
      && Inside(d, goal, data, Finished(p), NO_MARKS, calls + [Data(Body, data[m'.body.value..i + n])], i + n - 1)
  {
    hide MarksFit, Good, Pending, Merged, Run, Finished, Put, Passes, Performed, BodyHold, Live;
    var log := Merged(calls);
    GoodInBody(p);
    GoodFinished(p);
    FromBody(d, goal, data, p, m, calls, i);
    SkipToEnd(d, p, Pending(log, m, data, i), i, data[i..], n);
    SkipPending(log, m, p.state, data, i, n);
    var j := Performed(Mark(Body), m, i).body.value;
    MergedPush(calls, Data(Body, data[j..i + n]));
    NothingPending(Merged(calls + [Data(Body, data[j..i + n])]), data, i + n - 1);
    NoMarksFit(Finished(p).state, i + n - 1);
    assert data[i..][..n] == data[i..i + n] && data[i..][n..] == data[i + n..];
  }

  // ---------- the parser ----------

  /** What a call without bytes does: the end of the input. */
  function AtEof(p: Parser): (Parser, Option<Event>, nat) {
    if p.state.BodyIdentityEof? then (p, Some(Notice(MessageComplete)), 0)
    else if p.state.Dead? || p.state.StartReqOrRes? || p.state.StartRes? || p.state.StartReq? then (p, None, 0)
    else (p.(errno := InvalidEofState), None, 1)
  }

  class HttpParser {
    var p: Parser
    var calls: seq<Event>  // the callbacks made so far, with their arguments

    constructor (kind: ParserType)
      ensures p == Init(kind) && calls == []
    {
      p, calls := Init(kind), [];
    }

    /** CALLBACK_DATA: delivers the data from the mark, if it is set, up to `end`. */
    method Deliver(k: Kind, m: Marks, data: seq<Byte>, end: nat) returns (m': Marks)
      requires end <= |data| && (MarkOf(m, k).Some? ==> MarkOf(m, k).value <= end)
      modifies this`calls
      ensures m' == WithMark(m, k, None)
      ensures calls == if MarkOf(m, k).Some? then old(calls) + [Data(k, data[MarkOf(m, k).value..end])] else old(calls)
    {
      if MarkOf(m, k).Some? {
        calls := calls + [Data(k, data[MarkOf(m, k).value..end])];
      }
      m' := WithMark(m, k, None);
    }

    /** The act of a pass that looks at byte `i`. */
    method Perform(act: Act, m: Marks, data: seq<Byte>, i: nat) returns (m': Marks)
      requires i < |data| && MarksBound(m, i)
      modifies this`calls
      ensures m' == Performed(act, m, i)
      ensures calls == old(calls) + Listed(Emitted(act, m, data, i))
    {
      m' := m;
      match act
      case Quiet =>
      case Last =>
      case Notify(n) =>
        calls := calls + [Notice(n)];
      case Mark(k) =>
        if MarkOf(m', k).None? { m' := WithMark(m', k, Some(i)); }
      case MarkFlush(k) =>
        if MarkOf(m', k).None? { m' := WithMark(m', k, Some(i)); }
        m' := Deliver(k, m', data, i);
      case Flush(k) =>
        m' := Deliver(k, m', data, i);
    }

    /** The callbacks for marks left when the bytes have run out; at most one is. */
    method DeliverRest(m: Marks, data: seq<Byte>)
      requires MarksBound(m, |data|)
      modifies this`calls
      ensures calls == old(calls) + Listed(Leftover(m, data))
    {
      assert Count(m) <= 1;
      var m' := Deliver(Field, m, data, |data|);
      m' := Deliver(Value, m', data, |data|);
      m' := Deliver(Url, m', data, |data|);
      m' := Deliver(Body, m', data, |data|);
    }

    /** Takes all the bytes of a body that are there; `again` when its last one is to be
        looked at again. */
    method TakeBody(d: Decision, m: Marks, data: seq<Byte>, i: nat, ghost goal: Conf)
      returns (m': Marks, i': nat, again: bool)
      requires Inside(d, goal, data, p, m, calls, i) && InBody(p.state)
      modifies this
      ensures old(calls) <= calls && i <= i'
      ensures again ==> Inside(d, goal, data, p, m', calls, i') && Rank(p.state) < Rank(old(p.state))
      ensures !again ==> i < i' && Ahead(d, goal, data, p, m', calls, i')
    {
      hide Inside, Ahead, Performed, Taken, Finished, Good;
      InsideFacts(d, goal, data, p, m, calls, i);
      GoodInBody(p);
      var n := |data| - i;
      if !p.state.BodyIdentityEof? && p.contentLength < n { n := p.contentLength; }
      m' := Performed(Mark(Body), m, i);
      if p.state.BodyIdentity? && n == p.contentLength {
        SkippedToEnd(d, goal, data, p, m, calls, i, n);
        GoodFinished(p);
        calls := calls + [Data(Body, data[m'.body.value..i + n])];
        p, m', i', again := Finished(p), NO_MARKS, i + n - 1, true;
      } else {
        Skipped(d, goal, data, p, m, calls, i, n);
        p, i', again := Taken(p, n), i + n, false;
      }
    }

    /** Looks at byte `i` until it is consumed or the call ends. */
    method Look(d: Decision, m: Marks, data: seq<Byte>, i: nat, ghost goal: Conf)
      returns (m': Marks, i': nat, status: Status)
      requires Inside(d, goal, data, p, m, calls, i)
      modifies this
      ensures old(calls) <= calls
      ensures match status
        case Running => i < i' && Ahead(d, goal, data, p, m', calls, i')
        case Stopped => goal == Conf(p, Merged(calls), i', Stopped)
        case Failed => goal.p == p && goal.used == i' && goal.status.Failed? && Dropped(goal.log, Merged(calls))
        case Crashed => false
    {
      hide Inside, Ahead, Performed, Emitted, Switch, Good, Merged, MarksBound, Dropped;
      m', i' := m, i;
      while true
        invariant Inside(d, goal, data, p, m', calls, i')
        invariant i <= i' && old(calls) <= calls
        decreases Rank(p.state)
      {
        InsideFacts(d, goal, data, p, m', calls, i');
        if InBody(p.state) {
          var again;
          m', i', again := TakeBody(d, m', data, i', goal);
          if !again { return m', i', Running; }
        } else {
          NeverCrashes(d, goal, data, p, m', calls, i');
          match Switch(d, p, data[i'])
          case Next(q, act) =>
            Advances(d, goal, data, p, m', calls, i');
            m' := Perform(act, m', data, i');
            p := q;
            return m', i' + 1, Running;
          case Again(q, act) =>
            Repeats(d, goal, data, p, m', calls, i');
            m' := Perform(act, m', data, i');
            p := q;
          case Stop(q, act) =>
            Stops(d, goal, data, p, m', calls, i');
            m' := Perform(act, m', data, i');
            p := q;
            return m', i' + 1, Stopped;
          case Fail(q, e) =>
            Fails(d, goal, data, p, m', calls, i');
            p := q.(errno := e);
            return m', i', Failed;
        }
      }
    }

    /** One call.  The new fields, the number of bytes taken and, unless there is an error,
        the callbacks are those of the byte-at-a-time parser. */
    method Execute(d: Decision, data: seq<Byte>) returns (n: nat)
      requires p.errno.OK? ==> Good(p, 0)
      modifies this
      ensures old(calls) <= calls
      ensures old(p.errno) != OK ==> n == 0 && p == old(p) && calls == old(calls)
      ensures old(p.errno) == OK && data == [] ==>
        (p, n) == (AtEof(old(p)).0, AtEof(old(p)).2) && calls == old(calls) + Listed(AtEof(old(p)).1)
      ensures old(p.errno) == OK && data != [] ==>
        var c := Run(d, Conf(old(p), Merged(old(calls)), 0, Running), data);
        p == c.p && n == c.used && !c.status.Crashed? && if c.status.Failed? then Dropped(c.log, Merged(calls))
          else Merged(calls) == c.log
    {
      hide Inside, Ahead, Good, Merged, Passes, Run, Dropped;
      if p.errno != OK { return 0; }
      if data == [] {
        var (q, e, r) := AtEof(p);
        p, calls := q, calls + Listed(e);
        return r;
      }
      ghost var goal := Run(d, Conf(p, Merged(calls), 0, Running), data);
      var m := Resume(p.state);
      Begins(d, data, p, calls);
      var i := 0;
      while i < |data|
        invariant i <= |data| && old(calls) <= calls
        invariant Ahead(d, goal, data, p, m, calls, i)
        decreases |data| - i
      {
        if ParsingHeader(p.state) && p.nread + 1 > MAX_HEADER_SIZE {
          Overflows(d, goal, data, p, m, calls, i);
          p := Counted(p).(errno := HeaderOverflow);
          return i;
        }
        Enters(d, goal, data, p, m, calls, i);
        p := Counted(p);
        var status;
        m, i, status := Look(d, m, data, i, goal);
        if status != Running { return i; }
        AheadBound(d, goal, data, p, m, calls, i);
      }
      Ends(d, goal, data, p, m, calls);
      DeliverRest(m, data);
      return |data|;
    }
  }

  lemma InsideFacts(d: Decision, goal: Conf, data: seq<Byte>, p: Parser, m: Marks, calls: seq<Event>, i: nat)
    requires Inside(d, goal, data, p, m, calls, i)
    ensures i < |data| && Good(p, 1) && MarksBound(m, i)
  {
    hide Good, Run, Pending, Passes, One;
  }

  lemma AheadBound(d: Decision, goal: Conf, data: seq<Byte>, p: Parser, m: Marks, calls: seq<Event>, i: nat)
    requires Ahead(d, goal, data, p, m, calls, i)
    ensures i <= |data|
  {
    hide Good, Run, Pending, Passes, One;
  }

  lemma Begins(d: Decision, data: seq<Byte>, p: Parser, calls: seq<Event>)
    requires Good(p, 0)
    ensures Ahead(d, Run(d, Conf(p, Merged(calls), 0, Running), data), data, p, Resume(p.state), calls, 0)
  {
    hide Good, Run, Pending, MarksFit, Resume, Merged;
    ResumeFits(p.state, Merged(calls), data);
    assert data[0..] == data;
  }

  lemma Ends(d: Decision, goal: Conf, data: seq<Byte>, p: Parser, m: Marks, calls: seq<Event>)
    requires data != [] && Ahead(d, goal, data, p, m, calls, |data|)
    ensures MarksBound(m, |data|)
    ensures goal == Conf(p, Merged(calls + Listed(Leftover(m, data))), |data|, Running)
  {
    hide One, Good, Pending, MarksFit, Merged, MarksBound, Leftover, Put;
    LeftoverIsPending(Merged(calls), m, p.state, data);
    MergedListed(calls, Leftover(m, data));
  }
}
