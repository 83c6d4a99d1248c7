/** api_stream_common.c: a reader task and a writer task share a list of buffers and two
    wake-up counters.  Tasks switch only where they sleep; a step is what runs in between. */
module Transfer {
  import opened Options

  type Byte = b: nat | b < 256

  datatype Reader = Reading | Finished

  /** The writer sleeps for a wake-up, or is inside a write of a buffer, or has returned. */
  datatype Writer = Sleeping | Writing(buffer: seq<Byte>) | Returned

  /** `posted` are the wake-ups posted to the loop and not delivered yet.  History: `source` and
      `written` are the bytes read and written so far; `missed` tells that a wake-up came while
      the writer was inside a write; `skipped` are the bytes of buffers after which the same round
      found another one, `again` the bytes of old writes that rounds without a buffer have added to
      the total, and `late` counts the wake-ups delivered to a writer that does not sleep. */
  datatype State = State(
    buffers: seq<seq<Byte>>, readDone: bool, writeDone: bool, req: nat, done: nat,
    reader: Reader, writer: Writer, failed: bool, wrote: nat, total: nat, posted: nat,
    source: seq<Byte>, written: seq<Byte>, missed: bool, skipped: nat, again: nat, late: nat)

  /** A read returns some bytes, or none; a wake-up is delivered; a write returns with the first
      `count` bytes of its buffer written. */
  datatype Step = Read(bytes: seq<Byte>) | Deliver | Wrote(count: nat)

  function Init(): State {
    State([], false, false, 0, 0, Reading, Sleeping, false, 0, 0, 0, [], [], false, 0, 0, 0)
  }

  /** The reader asks for a wake-up unless one is under way. */
  function Ask(s: State): State {
    if s.done == s.req then s.(posted := s.posted + 1, req := s.req + 1) else s
  }

  /** The writer takes the next buffer, or ends its round; `wroteOne` when it has written in it. */
  function Continue(s: State, wroteOne: bool): State {
    if s.buffers != [] then
      s.(writer := Writing(s.buffers[0]), buffers := s.buffers[1..],
         skipped := s.skipped + if wroteOne then s.wrote else 0)
    else
      s.(writer := if s.readDone then Returned else Sleeping, total := s.total + s.wrote,
         again := s.again + if wroteOne then 0 else s.wrote)
  }

  function Next(s: State, step: Step): Option<State> {
    match step
    case Read(bytes) =>
      if s.reader.Finished? then None
      else if bytes == [] then Some(Ask(s.(readDone := true, reader := Finished)))
      else
        var t := s.(buffers := s.buffers + [bytes], source := s.source + bytes);
        if t.writeDone then Some(Ask(t.(reader := Finished))) else Some(Ask(t))
    case Deliver =>
      if s.posted == 0 then None
      else
        var t := s.(posted := s.posted - 1);
        (match s.writer
         case Sleeping => Some(Continue(t.(done := s.done + 1), false))
         case Writing(_) => Some(t.(missed := true, late := t.late + 1))
         case Returned => Some(t.(late := t.late + 1)))
    case Wrote(count) =>
      if !s.writer.Writing? || count > |s.writer.buffer| then None
      else
        var t := s.(written := s.written + s.writer.buffer[..count], wrote := count);
        if count == |s.writer.buffer| then Some(Continue(t, true))
        else Some(t.(failed := true, writeDone := true, buffers := [], writer := Returned))
  }

  function Run(steps: seq<Step>): Option<State> {
    if steps == [] then Some(Init())
    else
      match Run(steps[..|steps| - 1])
      case None => None
      case Some(s) => Next(s, steps[|steps| - 1])
  }

  function Joined(bs: seq<seq<Byte>>): seq<Byte> {
    if bs == [] then [] else bs[0] + Joined(bs[1..])
  }

  function InHand(w: Writer): seq<Byte> { if w.Writing? then w.buffer else [] }

  lemma {:induction false} JoinedPush(bs: seq<seq<Byte>>, b: seq<Byte>)
    ensures Joined(bs + [b]) == Joined(bs) + b
    decreases |bs|
  {
    if bs == [] {
      assert [b][1..] == [] && b + [] == b;
    } else {
      assert (bs + [b])[1..] == bs[1..] + [b];
      JoinedPush(bs[1..], b);
      assert bs[0] + (Joined(bs[1..]) + b) == Joined(bs) + b;
    }
  }

  // ---------- the bytes ----------

  /** Unless a write fails, the bytes read are the bytes written, then the buffer in hand, then
      the buffers waiting; after a failure, the bytes written still come first. */
  predicate Bytes(s: State) {
    && (s.failed ==> s.writer.Returned? && s.writeDone && s.written <= s.source)
    && (s.failed ==> s.buffers == [] || (|s.buffers| == 1 && s.reader.Finished?))
    && (!s.failed ==> s.source == s.written + InHand(s.writer) + Joined(s.buffers))
    && (!s.failed && s.writer.Returned? ==> s.readDone && s.buffers == [])
    && (s.readDone ==> s.reader.Finished?) && (!s.failed ==> !s.writeDone && (s.reader.Finished? ==> s.readDone))
  }

  lemma ReadBytes(s: State, bytes: seq<Byte>)
    requires Bytes(s) && Next(s, Read(bytes)).Some?
    ensures Bytes(Next(s, Read(bytes)).value)
  {
    hide Joined, InHand;
    if !s.failed { MoreBytes(s.source, s.written + InHand(s.writer), s.buffers, bytes); }
  }

  lemma MoreBytes(source: seq<Byte>, before: seq<Byte>, bs: seq<seq<Byte>>, b: seq<Byte>)
    requires source == before + Joined(bs)
    ensures source + b == before + Joined(bs + [b])
  {
    JoinedPush(bs, b);
    assert (before + Joined(bs)) + b == before + (Joined(bs) + b);
  }

  lemma ContinueBytes(s: State, wroteOne: bool)
    requires !s.failed && s.source == s.written + Joined(s.buffers) && (s.readDone <==> s.reader.Finished?)
      && !s.writeDone
    ensures Bytes(Continue(s, wroteOne))
  {
    if s.buffers != [] {
      assert s.written + (s.buffers[0] + Joined(s.buffers[1..])) == (s.written + s.buffers[0]) + Joined(s.buffers[1..]);
    } else {
      assert s.written + [] + [] == s.written + Joined(s.buffers);
    }
  }

  lemma DeliverBytes(s: State)
    requires Bytes(s) && Next(s, Deliver).Some?
    ensures Bytes(Next(s, Deliver).value)
  {
    if s.writer.Sleeping? {
      assert s.written + [] == s.written;
      ContinueBytes(s.(posted := s.posted - 1, done := s.done + 1), false);
    }
    hide Continue, Joined;
  }

  lemma WroteBytes(s: State, count: nat)
    requires Bytes(s) && Next(s, Wrote(count)).Some?
    ensures Bytes(Next(s, Wrote(count)).value)
  {
    var b := s.writer.buffer;
    assert b == b[..count] + b[count..];
    assert s.source == (s.written + b[..count]) + (b[count..] + Joined(s.buffers));
    if count == |b| {
      assert b[..count] == b && b[count..] == [];
      assert [] + Joined(s.buffers) == Joined(s.buffers);
      ContinueBytes(s.(written := s.written + b[..count], wrote := count), true);
    }
    hide Continue, Joined;
  }

  // ---------- the counters ----------

  /** A wake-up asked for is posted, or was consumed inside a write, or has been counted. */
  predicate Counters(s: State) {
    && s.done <= s.req <= s.done + 1 && s.req == s.done + s.posted + s.late
    && (!s.missed && !s.writer.Returned? ==> s.posted == s.req - s.done)
    && (s.missed && !s.writer.Returned? ==> s.posted == 0 && s.req == s.done + 1)
  }

  /** A sleeping writer with something to do has been sent a wake-up, if none was missed. */
  predicate Woken(s: State) {
    s.writer.Sleeping? && !s.missed && (s.buffers != [] || s.reader.Finished?) ==> s.req == s.done + 1
  }

  lemma StepCounters(s: State, step: Step)
    requires Counters(s) && Woken(s) && Bytes(s) && Next(s, step).Some?
    ensures var t := Next(s, step).value; Counters(t) && Woken(t)
  {
    hide Joined;
  }

  // ---------- the total ----------

  /** The total lacks the bytes skipped and has those added again; after a failed write it lacks
      those of that write as well. */
  predicate Totals(s: State) {
    s.total + s.skipped + (if s.failed then s.wrote else 0) == |s.written| + s.again
  }

  lemma StepTotals(s: State, step: Step)
    requires Totals(s) && Bytes(s) && Next(s, step).Some?
    ensures Totals(Next(s, step).value)
  {
    hide Continue, Joined, InHand;
    match step
    case Read(bytes) =>
    case Deliver => if s.writer.Sleeping? { ContinueTotals(s.(posted := s.posted - 1, done := s.done + 1), false); }
    case Wrote(count) =>
      var t := s.(written := s.written + s.writer.buffer[..count], wrote := count);
      assert |t.written| == |s.written| + t.wrote;
      if count == |s.writer.buffer| { ContinueTotals(t, true); }
  }

  lemma ContinueTotals(s: State, wroteOne: bool)
    requires !s.failed && s.total + s.skipped + (if wroteOne then s.wrote else 0) == |s.written| + s.again
    ensures Totals(Continue(s, wroteOne))
  {
  }

  // ---------- runs ----------

  predicate Inv(s: State) { Bytes(s) && Counters(s) && Woken(s) && Totals(s) }

  lemma StepInv(s: State, step: Step)
    requires Inv(s) && Next(s, step).Some?
    ensures Inv(Next(s, step).value)
  {
    hide Next, Bytes, Counters, Woken, Totals;
    StepCounters(s, step);
    StepTotals(s, step);
    match step
    case Read(bytes) => ReadBytes(s, bytes);
    case Deliver => DeliverBytes(s);
    case Wrote(count) => WroteBytes(s, count);
  }

  lemma {:induction false} RunInv(steps: seq<Step>)
    requires Run(steps).Some?
    ensures Inv(Run(steps).value)
    decreases |steps|
  {
    hide Inv, Next;
    if steps == [] {
      InitInv();
    } else {
      RunInv(steps[..|steps| - 1]);
      StepInv(Run(steps[..|steps| - 1]).value, steps[|steps| - 1]);
    }
  }

  lemma InitInv()
    ensures Inv(Init())
  {
  }

  /** In every run, what has been written is what was read first; a transfer that returns without
      a failed write has written everything, and everything has been read. */
  lemma WrittenIsRead(steps: seq<Step>)
    requires Run(steps).Some?
    ensures var s := Run(steps).value;
      && s.written <= s.source
      && (s.writer.Returned? && !s.failed ==> s.written == s.source && s.readDone && s.reader.Finished?)
  {
    hide Run, Counters, Woken, Totals;
    RunInv(steps);
    var s := Run(steps).value;
    if !s.failed { assert s.source == s.written + (InHand(s.writer) + Joined(s.buffers)); }
    if s.writer.Returned? && !s.failed { assert s.written + [] + [] == s.written; }
  }

  /** The counters differ by one at most, and every wake-up asked for has been counted by the writer,
      is under way, or came to a writer that did not sleep; that happens once at most. */
  lemma CountersInStep(steps: seq<Step>)
    requires Run(steps).Some?
    ensures var s := Run(steps).value;
      s.done <= s.req <= s.done + 1 && s.req == s.done + s.posted + s.late && s.posted <= 1 && s.late <= 1
  {
    hide Run, Bytes, Woken, Totals;
    RunInv(steps);
  }

  /** The writer that sleeps with bytes waiting, or with the reader finished, has a wake-up on its
      way exactly when none was consumed inside a write. */
  lemma WakeupArrives(steps: seq<Step>)
    requires Run(steps).Some?
    ensures var s := Run(steps).value;
      s.writer.Sleeping? && (s.buffers != [] || s.reader.Finished?) ==> (s.posted > 0 <==> !s.missed)
  {
    hide Run, Bytes, Totals;
    RunInv(steps);
  }

  /** Once the writer sleeps after a wake-up was consumed inside a write, no step wakes it up. */
  lemma SleepsForever(s: State, step: Step)
    requires Counters(s) && s.missed && s.writer.Sleeping? && Next(s, step).Some?
    ensures var t := Next(s, step).value; Counters(t) && t.missed && t.writer.Sleeping? && t.written == s.written
  {
  }

  function Seq3(a: Option<State>, x: Step, y: Step, z: Step): Option<State> { Then(Then(Then(a, x), y), z) }

  function Then(a: Option<State>, x: Step): Option<State> {
    match a
    case None => None
    case Some(s) => Next(s, x)
  }

  /** Such a run: the second wake-up comes while the first buffer is being written. */
  lemma MissedWakeup()
    ensures var s := Seq3(Seq3(Seq3(Some(Init()), Read([1]), Deliver, Read([2])), Deliver, Wrote(1), Wrote(1)),
                          Read([3]), Read([4]), Read([]));
      s.Some? && s.value.writer.Sleeping? && s.value.posted == 0 && s.value.buffers == [[3], [4]] && s.value.readDone
  {
    var a := Seq3(Some(Init()), Read([1]), Deliver, Read([2]));
    assert a.value.buffers == [[2]];
    var b := Seq3(a, Deliver, Wrote(1), Wrote(1));
    assert b.Some? && b.value.buffers == [] && b.value.writer.Sleeping?;
  }

  /** The total reported is the number of bytes exactly when the bytes skipped in rounds that
      found several buffers are as many as those added again by rounds that found none. */
  lemma TotalIsBytes(steps: seq<Step>)
    requires Run(steps).Some?
    ensures var s := Run(steps).value;
      s.writer.Returned? && !s.failed ==> (s.total == |s.source| <==> s.skipped == s.again)
  {
    hide Run, Counters, Woken;
    RunInv(steps);
    WrittenIsRead(steps);
  }

  /** After a failed write the total reported is the number of bytes written exactly when those of
      the failed write and those skipped are as many as those added again. */
  lemma FailedTotal(steps: seq<Step>)
    requires Run(steps).Some? && Run(steps).value.failed
    ensures var s := Run(steps).value;
      && s.writer.Returned? && s.total + s.skipped + s.wrote == |s.written| + s.again
      && (s.total == |s.written| <==> s.skipped + s.wrote == s.again)
  {
    hide Run, Counters, Woken;
    RunInv(steps);
  }

  /** After a failed write nothing more is written, and the total stays; the reader stops when its
      read returns. */
  lemma AfterFailure(s: State, step: Step)
    requires Bytes(s) && s.failed && Next(s, step).Some?
    ensures var t := Next(s, step).value;
      && t.failed && t.writer.Returned? && t.written == s.written && t.total == s.total
      && (step.Read? ==> t.reader.Finished?)
  {
    hide Joined, InHand;
  }

  /** A transfer that returns leaves no buffer behind, but for one that is read after a failed
      write. */
  lemma BuffersFreed(steps: seq<Step>)
    requires Run(steps).Some?
    ensures var s := Run(steps).value;
      s.writer.Returned? ==> s.buffers == [] || (s.failed && s.reader.Finished? && |s.buffers| == 1)
  {
    hide Run, Counters, Woken, Totals;
    RunInv(steps);
  }

  /** One byte has been read and written. */
  function AfterOne(): State {
    Init().(source := [1], req := 1, done := 1, wrote := 1, written := [1], total := 1)
  }

  lemma FirstByte()
    ensures Seq3(Some(Init()), Read([1]), Deliver, Wrote(1)) == Some(AfterOne())
  {
    var a := Init().(buffers := [[1]], source := [1], req := 1, posted := 1);
    var b := a.(buffers := [], posted := 0, done := 1, writer := Writing([1]));
    assert Next(Init(), Read([1])) == Some(a) by { assert [] + [[1]] == [[1]] && [] + [1] == [1]; }
    assert Next(a, Deliver) == Some(b) by { assert [[1]][1..] == []; }
    assert Next(b, Wrote(1)) == Some(AfterOne()) by { assert [] + [1][..1] == [1]; }
  }

  /** One byte is written and then none of another: one byte is reported. */
  lemma FailsAtOnce()
    ensures var r := Seq3(Seq3(Some(Init()), Read([1]), Deliver, Wrote(1)), Read([2]), Deliver, Wrote(0));
      r.Some? && r.value.failed && r.value.total == 1 && r.value.written == [1]
  {
    FirstByte();
    var c := AfterOne();
    var e := c.(buffers := [[2]], source := [1, 2], req := 2, posted := 1);
    var f := e.(buffers := [], posted := 0, done := 2, writer := Writing([2]));
    assert Next(c, Read([2])) == Some(e) by { assert [] + [[2]] == [[2]] && [1] + [2] == [1, 2]; }
    assert Next(e, Deliver) == Some(f) by { assert [[2]][1..] == []; }
    assert [1] + [2][..0] == [1];
  }

  /** One byte of two is written: none is reported. */
  lemma PartNotReported()
    ensures var r := Seq3(Some(Init()), Read([1, 2]), Deliver, Wrote(1));
      r.Some? && r.value.failed && r.value.total == 0 && r.value.written == [1]
  {
    var a := Then(Then(Some(Init()), Read([1, 2])), Deliver);
    assert a.Some? && a.value.writer == Writing([1, 2]) && a.value.written == [];
    assert [] + [1, 2][..1] == [1];
  }

  /** The most ordinary transfer: a byte is read and written, and then the source is at its end.
      Two bytes are reported. */
  lemma OneByteIsTwo()
    ensures var r := Then(Then(Seq3(Some(Init()), Read([1]), Deliver, Wrote(1)), Read([])), Deliver);
      r.Some? && r.value.writer.Returned? && !r.value.failed && r.value.total == 2
        && r.value.written == r.value.source == [1]
  {
    FirstByte();
    assert Next(AfterOne(), Read([])) == Some(AfterOne().(readDone := true, reader := Finished, req := 2, posted := 1));
  }

  /** Two buffers at one wake-up, and then the end: of three bytes, two are reported. */
  lemma ThreeBytesAreTwo()
    ensures var r := Then(Seq3(Seq3(Some(Init()), Read([1, 2]), Read([3]), Deliver), Wrote(2), Wrote(1), Read([])),
                          Deliver);
      r.Some? && r.value.writer.Returned? && !r.value.failed && r.value.total == 2 && r.value.written == [1, 2, 3]
  {
    var a := Seq3(Some(Init()), Read([1, 2]), Read([3]), Deliver);
    assert a.value.buffers == [[3]] && a.value.writer == Writing([1, 2]) && a.value.written == [];
    var b := Then(a, Wrote(2));
    assert b.Some? && b.value.written == [1, 2] && b.value.buffers == [] && b.value.writer == Writing([3]);
    var c := Then(b, Wrote(1));
    assert c.Some? && c.value.written == [1, 2, 3];
  }
}
