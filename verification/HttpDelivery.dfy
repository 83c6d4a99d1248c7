/** The marks of `http_parser_execute`, and why collecting data between a mark and the
    current byte delivers what the byte-at-a-time reference delivers. */
module HttpDelivery {
  import opened Options
  import opened HttpTypes
  import opened HttpSwitch
  import opened HttpMarks
  import opened HttpReference

  /** Where the data being collected began, for each kind of data. */
  datatype Marks = Marks(field: Option<nat>, value: Option<nat>, url: Option<nat>, body: Option<nat>)

  const NO_MARKS := Marks(None, None, None, None)

  function MarkOf(m: Marks, k: Kind): Option<nat> {
    match k
    case Field => m.field
    case Value => m.value
    case Url => m.url
    case Body => m.body
  }

  function WithMark(m: Marks, k: Kind, at: Option<nat>): Marks {
    match k
    case Field => m.(field := at)
    case Value => m.(value := at)
    case Url => m.(url := at)
    case Body => m.(body := at)
  }

  /** The marks that a call sets before its first byte. */
  function Resume(s: State): Marks {
    if Live(s).Some? then WithMark(NO_MARKS, Live(s).value, Some(0)) else NO_MARKS
  }

  /** How many of the marks are set. */
  function Count(m: Marks): nat {
    (if m.field.Some? then 1 else 0) + (if m.value.Some? then 1 else 0) +
    (if m.url.Some? then 1 else 0) + (if m.body.Some? then 1 else 0)
  }

  function Sole(m: Marks): Option<(Kind, nat)> {
    if m.field.Some? then Some((Field, m.field.value))
    else if m.value.Some? then Some((Value, m.value.value))
    else if m.url.Some? then Some((Url, m.url.value))
    else if m.body.Some? then Some((Body, m.body.value))
    else None
  }

  /** The marks between two bytes: the data of the state's kind, or a body. */
  predicate MarksFit(m: Marks, s: State, i: nat) {
    && MarksBound(m, i)
    && (m.field.Some? <==> Live(s) == Some(Field))
    && (m.value.Some? <==> Live(s) == Some(Value))
    && (m.url.Some? <==> Live(s) == Some(Url))
    && (m.body.Some? ==> BodyHold(s) && m.body.value < i)
    && (Sole(m).Some? ==> Sole(m).value.1 < i || i == 0)
  }

  /** At most one mark is set, and not beyond byte `i`. */
  predicate MarksBound(m: Marks, i: nat) {
    Count(m) <= 1 && (Sole(m).Some? ==> Sole(m).value.1 <= i)
  }

  /** The log once the data from the mark up to byte `i` is delivered, too. */
  function Pending(log: seq<Event>, m: Marks, data: seq<Byte>, i: nat): seq<Event>
    requires i <= |data|
  {
    match Sole(m)
    case None => log
    case Some((k, j)) => if j >= i then log else Put(log, Data(k, data[j..i]))
  }

  function Performed(act: Act, m: Marks, i: nat): Marks {
    match act
    case Mark(k) => if MarkOf(m, k).None? then WithMark(m, k, Some(i)) else m
    case MarkFlush(k) => WithMark(m, k, None)
    case Flush(k) => WithMark(m, k, None)
    case _ => m
  }

  /** The callback made by a pass. */
  function Emitted(act: Act, m: Marks, data: seq<Byte>, i: nat): Option<Event>
    requires i < |data| && MarksBound(m, i)
  {
    match act
    case Notify(n) => Some(Notice(n))
    case MarkFlush(k) => Some(Data(k, data[(if MarkOf(m, k).None? then i else MarkOf(m, k).value)..i]))
    case Flush(k) => if MarkOf(m, k).Some? then Some(Data(k, data[MarkOf(m, k).value..i])) else None
    case _ => None
  }

  function Listed(e: Option<Event>): seq<Event> {
    if e.Some? then [e.value] else []
  }

  lemma Collect(log: seq<Event>, m: Marks, data: seq<Byte>, i: nat, k: Kind, j: nat)
    requires j <= i < |data| && Sole(m) == Some((k, j))
    ensures Put(Pending(log, m, data, i), Data(k, [data[i]])) == Put(log, Data(k, data[j..i + 1]))
    ensures Put(Pending(log, m, data, i), Data(k, [])) == Put(log, Data(k, data[j..i]))
  {
    if j < i {
      PutTwice(log, k, data[j..i], [data[i]]);
      PutTwice(log, k, data[j..i], []);
      assert data[j..i] + [data[i]] == data[j..i + 1];
      assert data[j..i] + [] == data[j..i];
    } else {
      assert data[j..i] == [] && data[j..i + 1] == [data[i]];
    }
  }

  /** No mark, or one. */
  lemma OneMark(k: Kind, j: nat)
    ensures Sole(NO_MARKS) == None && MarkOf(NO_MARKS, k) == None && WithMark(NO_MARKS, k, None) == NO_MARKS
    ensures var m := WithMark(NO_MARKS, k, Some(j));
      Sole(m) == Some((k, j)) && MarkOf(m, k) == Some(j) && WithMark(m, k, None) == NO_MARKS && Count(m) == 1
  {
  }

  /** Which marks are set follows from the state, but for the body's. */
  lemma MarksKnown(m: Marks, s: State, i: nat)
    requires MarksFit(m, s, i)
    ensures match Sole(m)
      case None => m == NO_MARKS && Live(s).None?
      case Some((k, j)) =>
        && m == WithMark(NO_MARKS, k, Some(j)) && j <= i
        && (if k.Body? then BodyHold(s) && j < i && Live(s).None? else Live(s) == Some(k))
  {
    hide BodyHold;
  }

  function PutIf(log: seq<Event>, e: Option<Event>): seq<Event> {
    if e.Some? then Put(log, e.value) else log
  }

  lemma MergedListed(calls: seq<Event>, e: Option<Event>)
    ensures Merged(calls + Listed(e)) == PutIf(Merged(calls), e)
  {
    hide Put;
    if e.None? {
      assert calls + [] == calls;
    } else {
      MergedPush(calls, e.value);
    }
  }

  lemma MarksKeep(m: Marks, i: nat, s: State, t: State, act: Act)
    requires MarksFit(m, s, i) && NextDisciplined(s, t, act)
    ensures MarksFit(Performed(act, m, i), t, i + 1)
  {
    hide Live, BodyHold, MarksFit;
    MarksKnown(m, s, i);
    match Sole(m)
    case None => KeepsNone(i, s, t, act);
    case Some((k, j)) => KeepsOne(k, j, i, s, t, act);
  }

  lemma KeepsNone(i: nat, s: State, t: State, act: Act)
    requires MarksFit(NO_MARKS, s, i) && NextDisciplined(s, t, act)
    ensures MarksFit(Performed(act, NO_MARKS, i), t, i + 1)
  {
    hide Live, BodyHold;
  }

  lemma KeepsOne(k: Kind, j: nat, i: nat, s: State, t: State, act: Act)
    requires MarksFit(WithMark(NO_MARKS, k, Some(j)), s, i) && NextDisciplined(s, t, act)
    ensures MarksFit(Performed(act, WithMark(NO_MARKS, k, Some(j)), i), t, i + 1)
  {
    hide Live, BodyHold;
  }

  /** A pass that consumes its byte keeps the callbacks in step with the reference. */
  ghost predicate InStep(log: seq<Event>, m: Marks, data: seq<Byte>, i: nat, t: State, act: Act)
    requires i < |data| && MarksBound(m, i)
  {
    Pending(PutIf(log, Emitted(act, m, data, i)), Performed(act, m, i), data, i + 1)
    == ByteLog(PassLog(Pending(log, m, data, i), act, data[i]), t, act, data[i])
  }

  lemma FitBound(m: Marks, s: State, i: nat)
    requires MarksFit(m, s, i)
    ensures MarksBound(m, i)
  {
  }

  lemma FirstMarkStep(log: seq<Event>, m: Marks, data: seq<Byte>, i: nat, s: State, t: State, k: Kind)
    requires i < |data| && MarksFit(m, s, i) && MarksBound(m, i) && NextDisciplined(s, t, Mark(k)) && Sole(m).None?
    ensures InStep(log, m, data, i, t, Mark(k))
  {
    hide Put, Live, BodyHold, MarkOf, WithMark, Sole, Count, MarksFit, MarksBound;
    MarksKnown(m, s, i);
    OneMark(k, i);
    assert data[i..i + 1] == [data[i]];
  }

  lemma EmptyStep(log: seq<Event>, m: Marks, data: seq<Byte>, i: nat, s: State, t: State, k: Kind)
    requires i < |data| && MarksFit(m, s, i) && MarksBound(m, i) && NextDisciplined(s, t, MarkFlush(k))
    ensures InStep(log, m, data, i, t, MarkFlush(k))
  {
    hide Put, Live, BodyHold, MarkOf, WithMark, Sole, Count, MarksFit, MarksBound;
    MarksKnown(m, s, i);
    OneMark(k, i);
    assert data[i..i] == [];
  }

  lemma UnmarkedStep(log: seq<Event>, m: Marks, data: seq<Byte>, i: nat, s: State, t: State, act: Act)
    requires i < |data| && MarksFit(m, s, i) && MarksBound(m, i) && NextDisciplined(s, t, act) && Sole(m).None?
    requires act.Quiet? || act.Notify? || act.Flush?
    ensures InStep(log, m, data, i, t, act)
  {
    hide Put, Live, BodyHold, MarkOf, WithMark, Sole, Count, MarksFit, MarksBound;
    MarksKnown(m, s, i);
    OneMark(if act.Flush? then act.kind else Body, i);
  }

  lemma MarkedStep(log: seq<Event>, m: Marks, data: seq<Byte>, i: nat, s: State, t: State, act: Act)
    requires i < |data| && MarksFit(m, s, i) && MarksBound(m, i) && NextDisciplined(s, t, act) && Sole(m).Some?
    requires act != Flush(Body)
    ensures InStep(log, m, data, i, t, act)
  {
    hide Put, Live, BodyHold, MarkOf, WithMark, Sole, Count, MarksFit, MarksBound;
    MarksKnown(m, s, i);
    var (k, j) := Sole(m).value;
    OneMark(k, j);
    Collect(log, m, data, i, k, j);
  }

  lemma BodyFlushStep(log: seq<Event>, m: Marks, data: seq<Byte>, i: nat, s: State, t: State)
    requires i < |data| && MarksFit(m, s, i) && MarksBound(m, i) && NextDisciplined(s, t, Flush(Body)) && Sole(m).Some?
    ensures InStep(log, m, data, i, t, Flush(Body))
  {
    hide Put, Live, BodyHold, MarkOf, WithMark, Sole, Count, MarksFit, MarksBound;
    MarksKnown(m, s, i);
    OneMark(Body, Sole(m).value.1);
  }

  lemma NextKeeps(log: seq<Event>, m: Marks, data: seq<Byte>, i: nat, s: State, t: State, act: Act)
    requires i < |data| && MarksFit(m, s, i) && NextDisciplined(s, t, act)
    ensures MarksBound(m, i) && InStep(log, m, data, i, t, act)
  {
    hide InStep, MarksFit, NextDisciplined, MarksBound;
    FitBound(m, s, i);
    if act.MarkFlush? {
      EmptyStep(log, m, data, i, s, t, act.kind);
    } else if Sole(m).None? && act.Mark? {
      FirstMarkStep(log, m, data, i, s, t, act.kind);
    } else if Sole(m).None? {
      NoLast(s, t);
      UnmarkedStep(log, m, data, i, s, t, act);
    } else if act == Flush(Body) {
      BodyFlushStep(log, m, data, i, s, t);
    } else {
      MarkedStep(log, m, data, i, s, t, act);
    }
  }

  lemma NoLast(s: State, t: State)
    ensures !NextDisciplined(s, t, Last)
  {
  }

  /** A pass that looks at its byte again, or ends the call, leaves no mark. */
  lemma AgainKeeps(log: seq<Event>, m: Marks, data: seq<Byte>, i: nat, p: Parser, q: Parser, act: Act)
    requires i < |data| && MarksFit(m, p.state, i) && act != Last
    requires Disciplined(p, Again(q, act)) || Disciplined(p, Stop(q, act))
    ensures MarksBound(m, i) && Performed(act, m, i) == NO_MARKS
    ensures PutIf(log, Emitted(act, m, data, i)) == PassLog(Pending(log, m, data, i), act, data[i])
  {
    hide Put, Live, BodyHold, MarkOf, WithMark, Sole, Count, MarksFit, MarksBound, Rank;
    FitBound(m, p.state, i);
    MarksKnown(m, p.state, i);
    if Sole(m).Some? {
      var (k, j) := Sole(m).value;
      OneMark(k, j);
      Collect(log, m, data, i, k, j);
    }
  }

  lemma NoMarksFit(s: State, i: nat)
    requires Live(s).None?
    ensures MarksFit(NO_MARKS, s, i)
  {
  }

  /** The marks set before the first byte. */
  lemma ResumeFits(s: State, log: seq<Event>, data: seq<Byte>)
    ensures MarksFit(Resume(s), s, 0) && Pending(log, Resume(s), data, 0) == log
  {
    hide Put, InsideUrl;
  }

  /** A body mark, set at `i` unless it was set before, collects the bytes skipped. */
  lemma SkipPending(log: seq<Event>, m: Marks, s: State, data: seq<Byte>, i: nat, n: nat)
    requires MarksFit(m, s, i) && BodyHold(s) && Live(s).None? && 0 < n && i + n <= |data|
    ensures var m' := Performed(Mark(Body), m, i);
      && m' == WithMark(NO_MARKS, Body, m'.body) && m'.body.Some? && m'.body.value <= i
      && Put(log, Data(Body, data[m'.body.value..i + n])) == Put(Pending(log, m, data, i), Data(Body, data[i..i + n]))
  {
    hide Put, MarksFit, BodyHold;
    MarksKnown(m, s, i);
    if Sole(m).Some? {
      var j := Sole(m).value.1;
      PutTwice(log, Body, data[j..i], data[i..i + n]);
      assert data[j..i] + data[i..i + n] == data[j..i + n];
    }
  }

  /** What is delivered when the bytes of a call have run out. */
  function Leftover(m: Marks, data: seq<Byte>): Option<Event>
    requires MarksBound(m, |data|)
  {
    match Sole(m)
    case None => None
    case Some((k, j)) => Some(Data(k, data[j..|data|]))
  }

  lemma LeftoverIsPending(log: seq<Event>, m: Marks, s: State, data: seq<Byte>)
    requires data != [] && MarksFit(m, s, |data|)
    ensures MarksBound(m, |data|) && Pending(log, m, data, |data|) == PutIf(log, Leftover(m, data))
  {
    hide Put, BodyHold, Live;
  }
}
