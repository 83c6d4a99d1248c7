/** The reference for `http_parser_execute`: the same switch, fed one byte at a time, with
    the data deliveries merged where one follows another of its kind. */
module HttpReference {
  import opened HttpTypes
  import opened HttpSwitch
  import opened HttpRun
  import opened HttpMarks

  datatype Event = Notice(note: Note) | Data(kind: Kind, bytes: seq<Byte>)

  /** Appends a callback, merging data with data of the same kind before it. */
  function Put(log: seq<Event>, e: Event): (r: seq<Event>)
    ensures r != []
  {
    if e.Data? && log != [] && log[|log| - 1].Data? && log[|log| - 1].kind == e.kind then
      log[..|log| - 1] + [Data(e.kind, log[|log| - 1].bytes + e.bytes)]
    else log + [e]
  }

  /** A list of callbacks, merged. */
  function Merged(calls: seq<Event>): seq<Event> {
    if calls == [] then [] else Put(Merged(calls[..|calls| - 1]), calls[|calls| - 1])
  }

  lemma PutTwice(log: seq<Event>, k: Kind, a: seq<Byte>, b: seq<Byte>)
    ensures Put(Put(log, Data(k, a)), Data(k, b)) == Put(log, Data(k, a + b))
  {
    var one := Put(log, Data(k, a));
    var two := Put(log, Data(k, a + b));
    if log != [] && log[|log| - 1].Data? && log[|log| - 1].kind == k {
      var last := log[|log| - 1].bytes;
      assert one[..|one| - 1] == log[..|log| - 1];
      assert (last + a) + b == last + (a + b);
    } else {
      assert one[..|one| - 1] == log;
    }
  }

  lemma MergedPush(calls: seq<Event>, e: Event)
    ensures Merged(calls + [e]) == Put(Merged(calls), e)
  {
    assert (calls + [e])[..|calls|] == calls;
  }

  datatype Status = Running | Stopped | Failed | Crashed

  datatype Conf = Conf(p: Parser, log: seq<Event>, used: int, status: Status)

  /** What the act of a pass adds to the log. */
  function PassLog(log: seq<Event>, act: Act, b: Byte): seq<Event> {
    match act
    case Notify(n) => Put(log, Notice(n))
    case Flush(k) => if k.Body? then log else Put(log, Data(k, []))
    case MarkFlush(k) => Put(log, Data(k, []))
    case Last => Put(log, Data(Body, [b]))
    case _ => log
  }

  /** The byte itself, when it has become part of some data. */
  function ByteLog(log: seq<Event>, s: State, act: Act, b: Byte): seq<Event> {
    match Live(s)
    case Some(k) => Put(log, Data(k, [b]))
    case None => if act == Mark(Body) then Put(log, Data(Body, [b])) else log
  }

  /** All passes over one byte. */
  function Passes(d: Decision, p: Parser, log: seq<Event>, used: int, b: Byte): Conf
    decreases Rank(p.state)
  {
    match Switch(d, p, b)
    case Next(q, act) => Conf(q, ByteLog(PassLog(log, act, b), q.state, act, b), used + 1, Running)
    case Again(q, act) => SwitchMarks(d, p, b); Passes(d, q, PassLog(log, act, b), used, b)
    case Stop(q, act) => Conf(q, PassLog(log, act, b), used + 1, Stopped)
    case Fail(q, e) => Conf(q.(errno := e), log, used, Failed)
    case Crash => Conf(p, log, used, Crashed)
  }

  function Counted(p: Parser): Parser {
    if ParsingHeader(p.state) then p.(nread := p.nread + 1) else p
  }

  /** One byte. */
  function One(d: Decision, c: Conf, b: Byte): Conf {
    var p := Counted(c.p);
    if ParsingHeader(p.state) && p.nread > MAX_HEADER_SIZE then Conf(p.(errno := HeaderOverflow), c.log, c.used, Failed)
    else Passes(d, p, c.log, c.used, b)
  }

  /** As many bytes as are taken. */
  function Run(d: Decision, c: Conf, bytes: seq<Byte>): Conf
    decreases |bytes|
  {
    if bytes == [] || !c.status.Running? then c
    else Run(d, One(d, c, bytes[0]), bytes[1..])
  }

  /** What a byte comes to, by its first pass. */
  lemma OneStep(d: Decision, c: Conf, b: Byte)
    requires c.status.Running? && !(ParsingHeader(c.p.state) && c.p.nread + 1 > MAX_HEADER_SIZE)
    ensures match Switch(d, Counted(c.p), b)
      case Next(q, act) =>
        One(d, c, b) == Conf(q, ByteLog(PassLog(c.log, act, b), q.state, act, b), c.used + 1, Running)
      case Fail(_, _) => One(d, c, b).status.Failed?
      case _ => true
  {
    hide Switch, PassLog, ByteLog;
  }

  lemma EmptyRun(d: Decision, c: Conf)
    ensures Run(d, c, []) == c
  {
    hide One;
  }

  lemma EndedRun(d: Decision, c: Conf, bytes: seq<Byte>)
    requires !c.status.Running?
    ensures Run(d, c, bytes) == c
  {
    hide One;
  }

  lemma {:induction false} RunConcat(d: Decision, c: Conf, a: seq<Byte>, b: seq<Byte>)
    ensures Run(d, c, a + b) == Run(d, Run(d, c, a), b)
    decreases |a|
  {
    hide One;
    if a == [] {
      assert a + b == b;
    } else if c.status.Running? {
      assert (a + b)[0] == a[0] && (a + b)[1..] == a[1..] + b;
      RunConcat(d, One(d, c, a[0]), a[1..], b);
    }
  }

  lemma RunPush(d: Decision, c: Conf, a: seq<Byte>, b: Byte)
    requires Run(d, c, a).status.Running?
    ensures Run(d, c, a + [b]) == One(d, Run(d, c, a), b)
  {
    hide One;
    RunConcat(d, c, a, [b]);
    var m := Run(d, c, a);
    assert Run(d, m, [b]) == Run(d, One(d, m, b), []);
  }

  // ---------- no run crashes ----------

  predicate Fine(c: Conf) {
    match c.status
    case Running => Good(c.p, 0)
    case Stopped => Good(c.p, 0)
    case Failed => !c.p.errno.OK?
    case Crashed => false
  }

  lemma {:induction false} PassesFine(d: Decision, p: Parser, log: seq<Event>, used: int, b: Byte)
    requires Good(p, 1)
    ensures Fine(Passes(d, p, log, used, b))
    decreases Rank(p.state)
  {
    hide Good, Switch, PassLog, ByteLog;
    SwitchGood(d, p, b);
    SwitchMarks(d, p, b);
    match Switch(d, p, b)
    case Again(q, act) => PassesFine(d, q, PassLog(log, act, b), used, b);
    case _ =>
  }

  lemma CountedGood(p: Parser)
    requires Good(p, 0) && Counted(p).nread <= MAX_HEADER_SIZE
    ensures Good(Counted(p), 1)
  {
    hide MethodName, FieldRecogniser, ValueRecogniser;
  }

  lemma GoodCount(p: Parser)
    requires Good(p, 0) && !(ParsingHeader(p.state) && p.nread + 1 > MAX_HEADER_SIZE)
    ensures Counted(p).nread <= MAX_HEADER_SIZE
  {
    hide MethodName, NameLength, FieldRecogniser, ValueRecogniser;
  }

  lemma OneFine(d: Decision, c: Conf, b: Byte)
    requires Good(c.p, 0)
    ensures Fine(One(d, c, b))
  {
    hide Good, Passes;
    var p := Counted(c.p);
    if !(ParsingHeader(p.state) && p.nread > MAX_HEADER_SIZE) {
      GoodCount(c.p);
      CountedGood(c.p);
      PassesFine(d, p, c.log, c.used, b);
    }
  }

  /** Whatever the bytes, no assertion of the parser fires. */
  lemma {:induction false} RunFine(d: Decision, c: Conf, bytes: seq<Byte>)
    requires Fine(c)
    ensures Fine(Run(d, c, bytes))
    decreases |bytes|
  {
    hide One, Good;
    if bytes != [] && c.status.Running? {
      OneFine(d, c, bytes[0]);
      RunFine(d, One(d, c, bytes[0]), bytes[1..]);
    }
  }
}
