/** Input may be cut anywhere: a list of calls does what one call on all the bytes does. */
module HttpSplit {
  import opened HttpTypes
  import opened HttpSwitch
  import opened HttpRun
  import opened HttpMarks
  import opened HttpReference

  /** One call with bytes, by the contract of `HttpParser.Execute`: a count that starts at 0. */
  function Call(d: Decision, p: Parser, log: seq<Event>, data: seq<Byte>): Conf {
    Run(d, Conf(p, log, 0, Running), data)
  }

  /** Pieces of the input as they may be read; a call without bytes is the end of the input. */
  predicate Pieces(pieces: seq<seq<Byte>>) { forall i | 0 <= i < |pieces| :: pieces[i] != [] }

  /** Calls one after another, as long as they take all their bytes; `used` is the total. */
  function Calls(d: Decision, p: Parser, log: seq<Event>, pieces: seq<seq<Byte>>): Conf
    decreases |pieces|
  {
    if pieces == [] then Conf(p, log, 0, Running)
    else
      var c := Call(d, p, log, pieces[0]);
      if !c.status.Running? then c
      else
        var r := Calls(d, c.p, c.log, pieces[1..]);
        r.(used := c.used + r.used)
  }

  function Joined(pieces: seq<seq<Byte>>): seq<Byte> {
    if pieces == [] then [] else pieces[0] + Joined(pieces[1..])
  }

  lemma {:induction false} PassesShift(d: Decision, p: Parser, log: seq<Event>, used: int, k: nat, b: Byte)
    ensures Passes(d, p, log, used + k, b) == var c := Passes(d, p, log, used, b); c.(used := c.used + k)
    decreases Rank(p.state)
  {
    SwitchMarks(d, p, b);
    hide Switch, PassLog, ByteLog;
    match Switch(d, p, b)
    case Again(q, act) => PassesShift(d, q, PassLog(log, act, b), used, k, b);
    case _ =>
  }

  /** The count does not influence the run. */
  lemma {:induction false} RunShift(d: Decision, c: Conf, k: nat, bytes: seq<Byte>)
    ensures Run(d, c.(used := c.used + k), bytes) == var r := Run(d, c, bytes); r.(used := r.used + k)
    decreases |bytes|
  {
    hide Passes;
    if bytes != [] && c.status.Running? {
      PassesShift(d, Counted(c.p), c.log, c.used, k, bytes[0]);
      RunShift(d, One(d, c, bytes[0]), k, bytes[1..]);
    }
  }

  /** As long as it runs, every byte is taken. */
  lemma {:induction false} PassesUse(d: Decision, p: Parser, log: seq<Event>, used: int, b: Byte)
    ensures var c := Passes(d, p, log, used, b);
      used <= c.used <= used + 1 && (c.status.Running? ==> c.used == used + 1)
    decreases Rank(p.state)
  {
    SwitchMarks(d, p, b);
    hide Switch, PassLog, ByteLog;
    match Switch(d, p, b)
    case Again(q, act) => PassesUse(d, q, PassLog(log, act, b), used, b);
    case _ =>
  }

  lemma {:induction false} RunUse(d: Decision, c: Conf, bytes: seq<Byte>)
    ensures var r := Run(d, c, bytes);
      c.used <= r.used <= c.used + |bytes| && (r.status.Running? ==> r.used == c.used + |bytes|)
    decreases |bytes|
  {
    hide Passes;
    if bytes != [] && c.status.Running? {
      PassesUse(d, Counted(c.p), c.log, c.used, bytes[0]);
      RunUse(d, One(d, c, bytes[0]), bytes[1..]);
    }
  }

  /** One cut: when the first call does not end early, the two calls together are one. */
  lemma Cut(d: Decision, p: Parser, log: seq<Event>, a: seq<Byte>, b: seq<Byte>)
    ensures var first := Call(d, p, log, a);
      if !first.status.Running? then Call(d, p, log, a + b) == first
      else
        var second := Call(d, first.p, first.log, b);
        first.used == |a| && Call(d, p, log, a + b) == second.(used := |a| + second.used)
  {
    hide Run;
    var first := Call(d, p, log, a);
    RunConcat(d, Conf(p, log, 0, Running), a, b);
    if first.status.Running? {
      RunUse(d, Conf(p, log, 0, Running), a);
      RunShift(d, Conf(first.p, first.log, 0, Running), |a|, b);
    } else {
      EndedRun(d, first, b);
    }
  }

  /** Split invariance: however the bytes are cut, the fields, the error, the number of
      bytes taken and the merged callbacks are those of one call on all of them. */
  lemma {:induction false} CutAnywhere(d: Decision, p: Parser, log: seq<Event>, pieces: seq<seq<Byte>>)
    requires Pieces(pieces)
    ensures Calls(d, p, log, pieces) == Call(d, p, log, Joined(pieces))
    decreases |pieces|
  {
    hide Run;
    if pieces == [] {
      EmptyRun(d, Conf(p, log, 0, Running));
    } else {
      var c := Call(d, p, log, pieces[0]);
      Cut(d, p, log, pieces[0], Joined(pieces[1..]));
      if c.status.Running? { CutAnywhere(d, c.p, c.log, pieces[1..]); }
    }
  }

  /** Two ways of cutting the same bytes cannot be told apart. */
  lemma SameBytesSameCalls(d: Decision, p: Parser, log: seq<Event>, x: seq<seq<Byte>>, y: seq<seq<Byte>>)
    requires Pieces(x) && Pieces(y) && Joined(x) == Joined(y)
    ensures Calls(d, p, log, x) == Calls(d, p, log, y)
  {
    hide Calls, Call;
    CutAnywhere(d, p, log, x);
    CutAnywhere(d, p, log, y);
  }

  /** From a fresh parser, whatever the bytes and the cuts, no assertion fires, the parser
      is left in a good state unless it reports an error, and no call takes more than it got. */
  lemma CallsSafe(d: Decision, kind: ParserType, pieces: seq<seq<Byte>>)
    requires Pieces(pieces)
    ensures var c := Calls(d, Init(kind), [], pieces);
      && Fine(c) && (c.p.errno.OK? <==> !c.status.Failed?)
      && c.used <= |Joined(pieces)| && (c.status.Running? ==> c.used == |Joined(pieces)|)
  {
    hide Run, Calls, Good;
    CutAnywhere(d, Init(kind), [], pieces);
    InitGood(kind);
    RunFine(d, Conf(Init(kind), [], 0, Running), Joined(pieces));
    RunUse(d, Conf(Init(kind), [], 0, Running), Joined(pieces));
    FineErrno(Calls(d, Init(kind), [], pieces));
  }

  lemma InitGood(kind: ParserType)
    ensures Good(Init(kind), 0)
  {
  }

  lemma FineErrno(c: Conf)
    requires Fine(c)
    ensures c.p.errno.OK? <==> !c.status.Failed?
  {
    hide MethodName, NameLength, FieldRecogniser, ValueRecogniser;
  }
}
