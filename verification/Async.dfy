/** api_async.c: the queue of a loop and the eventfd that wakes the loop up.  A producer pushes
    and then adds to the counter; the loop reads the counter, which clears it, and then pops
    until a pop returns nothing. */
module Async {
  import M = Mpscq
  import opened Options

  /** `owing` are the producers between the exchange of their push and their eventfd_write;
      `draining` holds from the loop's eventfd_read to the pop that returns nothing. */
  datatype State = State(queue: M.State, counter: nat, owing: set<nat>, draining: bool)

  datatype Step = Produce(step: M.Step) | Signal(p: nat) | Wake | Drain

  function Init(): State { State(M.Init(), 0, {}, false) }

  function Next(a: State, step: Step): Option<State> {
    match step
    case Produce(s) =>
      if s.Pop? || (s.Clear? && s.p in a.owing) then None
      else
        (match M.PushStep(a.queue, s)
         case None => None
         case Some(q) => Some(a.(queue := q, owing := if s.Exchange? then a.owing + {s.p} else a.owing)))
    case Signal(p) =>
      if p in a.owing && M.PusherOf(a.queue, p).Ready? then Some(a.(counter := a.counter + 1, owing := a.owing - {p}))
      else None
    case Wake => if a.draining then None else Some(a.(counter := 0, draining := true))
    case Drain =>
      if !a.draining then None
      else
        var q := M.PopStep(a.queue);
        Some(a.(queue := q, draining := q.popper != M.Returned(None)))
  }

  function Run(steps: seq<Step>): Option<State> {
    if steps == [] then Some(Init())
    else
      match Run(steps[..|steps| - 1])
      case None => None
      case Some(a) => Next(a, steps[|steps| - 1])
  }

  /** The loop will be woken: the counter is up, or a producer is about to raise it. */
  predicate Promised(a: State) { a.counter > 0 || a.owing != {} }

  predicate Last(q: M.State) { q.taken + 1 == |q.log| }

  /** Where a pop is about to return nothing, nothing is left behind unpromised. */
  predicate DrainFits(a: State) {
    match a.queue.popper
    case StubNext(None) => Last(a.queue) || Promised(a)
    case GotNext(_, None) => Last(a.queue) || Promised(a)
    case GotHead(t, h) => t == h || Promised(a)
    case LastNext(_, None) => Promised(a)
    case _ => true
  }

  predicate Owed(a: State) {
    forall p <- a.queue.pushers :: a.queue.pushers[p].Exchanged? ==> p in a.owing
  }

  predicate Inv(a: State) {
    && M.Inv(a.queue) && Owed(a)
    && (if a.draining then DrainFits(a) else a.queue.popper.Returned? && (M.Empty(a.queue) || Promised(a)))
  }

  lemma ProduceInv(a: State, s: M.Step)
    requires Inv(a) && Next(a, Produce(s)).Some?
    ensures Inv(Next(a, Produce(s)).value)
  {
    hide M.Chain, M.Pushers, M.PopperFits, M.NonStub, M.Free, M.InWindow;
    var b := Next(a, Produce(s)).value;
    M.StepInv(a.queue, s);
    if !s.Exchange? { assert M.Live(b.queue) == M.Live(a.queue); }
    if s.Exchange? { assert s.p in b.owing; }
  }

  lemma SignalInv(a: State, p: nat)
    requires Inv(a) && Next(a, Signal(p)).Some?
    ensures Inv(Next(a, Signal(p)).value)
  {
    hide M.Inv, M.NonStub, M.Empty;
  }

  lemma WakeInv(a: State)
    requires Inv(a) && Next(a, Wake).Some?
    ensures Inv(Next(a, Wake).value)
  {
    hide M.Inv, M.NonStub, M.Empty;
  }

  /** The tail has no next: it is the last, or a producer will link it. */
  lemma NoNext(a: State)
    requires M.Chain(a.queue) && Owed(a) && !a.queue.popper.StubExchanged? && M.NextOf(a.queue, a.queue.tail).None?
    ensures Last(a.queue) || Promised(a)
  {
    assert !Last(a.queue) ==> M.Linked(a.queue, a.queue.taken);
  }

  lemma OnlyStub(q: M.State)
    requires M.Chain(q) && Last(q) && q.tail == M.STUB
    ensures M.Empty(q)
  {
    assert M.Live(q) == [q.tail];
    assert [q.tail][..0] == [];
  }

  /** What the drain loop is about to do, after its next step. */
  predicate Drains(a: State) {
    if a.draining then DrainFits(a) else a.queue.popper.Returned? && (M.Empty(a.queue) || Promised(a))
  }

  lemma DrainInv(a: State)
    requires Inv(a) && a.draining
    ensures Inv(Next(a, Drain).value)
  {
    hide M.Inv, M.PopStep, M.Empty, DrainFits;
    var q := a.queue;
    M.StepInv(q, M.Pop);
    if q.popper.GotTail? || q.popper.Skipped? || q.popper.StubLinked? { ReadDrains(a); }
    else if q.popper.StubNext? || q.popper.GotNext? { TailDrains(a); }
    else { OtherDrains(a); }
    DrainOwed(a);
    hide Owed;
  }

  lemma DrainOwed(a: State)
    requires Owed(a) && a.draining
    ensures Owed(Next(a, Drain).value)
  {
    hide M.InWindow, M.Empty, M.NextOf;
  }

  lemma ReadDrains(a: State)
    requires Inv(a) && a.draining && (a.queue.popper.GotTail? || a.queue.popper.Skipped? || a.queue.popper.StubLinked?)
    ensures Drains(Next(a, Drain).value)
  {
    hide M.Chain, M.Pushers, M.NonStub, M.InWindow, M.Empty, M.Live;
    if M.NextOf(a.queue, a.queue.tail).None? { NoNext(a); }
  }

  lemma TailDrains(a: State)
    requires Inv(a) && a.draining && (a.queue.popper.StubNext? || a.queue.popper.GotNext?)
    ensures Drains(Next(a, Drain).value)
  {
    hide M.Chain, M.Pushers, M.NonStub, M.InWindow, M.Empty, M.Live;
    var q := a.queue;
    HeadIsLast(q);
    if q.popper.StubNext? && q.popper.n.None? && Last(q) {
      OnlyStub(q);
      SameEmpty(q, M.PopStep(q));
    }
  }

  lemma OtherDrains(a: State)
    requires Inv(a) && a.draining
    requires a.queue.popper.Returned? || a.queue.popper.GotHead? || a.queue.popper.StubCleared?
      || a.queue.popper.StubExchanged? || a.queue.popper.LastNext?
    ensures Drains(Next(a, Drain).value)
  {
    hide M.Inv, M.NonStub, M.InWindow, M.Empty, M.Live;
  }

  lemma SameEmpty(q: M.State, r: M.State)
    requires q.log == r.log && q.taken == r.taken
    ensures M.Empty(q) == M.Empty(r)
  {
  }

  lemma HeadIsLast(q: M.State)
    requires M.Inv(q)
    ensures Last(q) ==> q.head == q.tail
  {
    hide M.Pushers, M.PopperFits, M.NonStub, M.Linked;
  }

  lemma StepInv(a: State, step: Step)
    requires Inv(a) && Next(a, step).Some?
    ensures Inv(Next(a, step).value)
  {
    hide Inv;
    match step
    case Produce(s) => ProduceInv(a, s);
    case Signal(p) => SignalInv(a, p);
    case Wake => WakeInv(a);
    case Drain => DrainInv(a);
  }

  lemma {:induction false} RunInv(steps: seq<Step>)
    requires Run(steps).Some?
    ensures Inv(Run(steps).value)
    decreases |steps|
  {
    hide Inv, Next;
    if steps == [] {
      InitInv();
    } else {
      RunInv(steps[..|steps| - 1]);
      StepInv(Run(steps[..|steps| - 1]).value, steps[|steps| - 1]);
    }
  }

  lemma InitInv()
    ensures Inv(Init())
  {
    M.InitInv();
    hide M.Inv;
    OnlyStub(M.Init());
  }

  /** No wake-up is lost: while the queue holds a node, the counter is up, or the loop is still
      draining, or some producer is between its exchange and its eventfd_write. */
  lemma NoLostWakeup(steps: seq<Step>)
    requires Run(steps).Some? && !M.Empty(Run(steps).value.queue)
    ensures var a := Run(steps).value; a.counter > 0 || a.draining || a.owing != {}
  {
    hide M.Inv, M.Empty;
    RunInv(steps);
  }

  /** The steps of the queue alone. */
  function OfQueue(steps: seq<Step>): seq<M.Step> {
    if steps == [] then []
    else
      OfQueue(steps[..|steps| - 1]) +
      (match steps[|steps| - 1]
       case Produce(s) => [s]
       case Drain => [M.Pop]
       case _ => [])
  }

  lemma RunMore(steps: seq<M.Step>, s: M.Step)
    ensures M.Run(steps + [s]) == match M.Run(steps) case None => None case Some(q) => M.Next(q, s)
  {
    hide M.Next;
    assert (steps + [s])[..|steps|] == steps;
  }

  /** A step of the loop or of a producer is one of the queue, or leaves it as it is. */
  lemma QueueNext(a: State, step: Step)
    requires Next(a, step).Some?
    ensures var q := Next(a, step).value.queue;
      match step
      case Produce(s) => M.Next(a.queue, s) == Some(q)
      case Drain => M.Next(a.queue, M.Pop) == Some(q)
      case _ => q == a.queue
  {
    hide M.PushStep, M.PopStep;
  }

  lemma {:induction false} QueueRuns(steps: seq<Step>)
    requires Run(steps).Some?
    ensures M.Run(OfQueue(steps)) == Some(Run(steps).value.queue)
    decreases |steps|
  {
    hide M.Next, M.Run, Next;
    if steps == [] {
      NoneRun();
    } else {
      QueueRuns(steps[..|steps| - 1]);
      var before := OfQueue(steps[..|steps| - 1]);
      QueueNext(Run(steps[..|steps| - 1]).value, steps[|steps| - 1]);
      match steps[|steps| - 1]
      case Produce(s) => RunMore(before, s);
      case Drain => RunMore(before, M.Pop);
      case _ => assert before + [] == before;
    }
  }

  lemma NoneRun()
    ensures M.Run([]) == Some(M.Init())
  {
  }

  /** When the loop is at rest, unsignalled, and no producer is under way, every node posted has
      been handed to its handler, in order. */
  lemma AllHandled(steps: seq<Step>)
    requires Run(steps).Some?
    ensures var a := Run(steps).value;
      a.counter == 0 && !a.draining && a.owing == {} ==> M.Popped(OfQueue(steps)) == M.Pushed(OfQueue(steps))
  {
    hide M.Inv, M.Run, M.Popped, M.Pushed;
    RunInv(steps);
    QueueRuns(steps);
    M.FirstInFirstOut(OfQueue(steps));
  }

  /** How often the loop has been signalled since it last woke up. */
  function Signalled(steps: seq<Step>): nat {
    if steps == [] then 0
    else
      var n := Signalled(steps[..|steps| - 1]);
      match steps[|steps| - 1]
      case Signal(_) => n + 1
      case Wake => 0
      case _ => n
  }

  lemma {:induction false} CounterIs(steps: seq<Step>)
    requires Run(steps).Some?
    ensures Run(steps).value.counter == Signalled(steps)
    decreases |steps|
  {
    hide M.PushStep, M.PopStep;
    if steps != [] { CounterIs(steps[..|steps| - 1]); }
  }

  // ---------- the loop comes to its end ----------

  /** Some steps of the drain loop alone. */
  function Drained(a: State, n: nat): Option<State>
    decreases n
  {
    if n == 0 then Some(a)
    else
      match Next(a, Drain)
      case None => None
      case Some(b) => Drained(b, n - 1)
  }

  /** The loop has handled what the queue held, and waits for the counter again. */
  predicate Handled(a: State, b: State) {
    && !b.draining && b.counter == a.counter && b.owing == a.owing
    && M.Queued(b.queue) == [] && b.queue.returned == a.queue.returned + M.Queued(a.queue)
  }

  lemma DrainStep(a: State)
    requires a.draining
    ensures var q := M.PopStep(a.queue);
      Next(a, Drain) == Some(a.(queue := q, draining := q.popper != M.Returned(None)))
  {
    hide M.PopStep;
  }

  /** From within a pop, while no push is under way. */
  lemma {:induction false} DrainsOn(a0: State, a: State) returns (k: nat)
    requires M.Inv(a0.queue) && a.draining && M.Quiet(a0.queue, a.queue) && M.Alone(a0.queue)
    requires a.counter == a0.counter && a.owing == a0.owing
    ensures Drained(a, k).Some? && Handled(a0, Drained(a, k).value)
    decreases |M.Queued(a0.queue)|, 1, M.Rank(a.queue.popper)
  {
    hide M.PopStep, M.Quiet, M.Inv, M.Alone, M.Rank, M.Queued, Handled, Next;
    M.Busy(a0.queue, a.queue);
    M.PopRank(a.queue);
    M.QuietStep(a0.queue, a.queue);
    DrainStep(a);
    var b := Next(a, Drain).value;
    var m;
    if !b.queue.popper.Returned? {
      m := DrainsOn(a0, b);
    } else if M.Queued(a0.queue) == [] {
      m := 0;
      NoneLeft(a0, b);
    } else {
      M.AloneSame(a0.queue, b.queue);
      m := DrainsFrom(b);
      MoreHandled(a0, b, Drained(b, m).value);
    }
    k := m + 1;
    assert Drained(a, k) == Drained(b, m);
  }

  lemma NoneLeft(a: State, b: State)
    requires M.Given(a.queue, b.queue) && M.Queued(a.queue) == [] && !b.draining && b.counter == a.counter
      && b.owing == a.owing
    ensures Handled(a, b)
  {
    hide M.Queued, M.Inv;
    assert a.queue.returned + [] == a.queue.returned;
  }

  lemma MoreHandled(a: State, b: State, c: State)
    requires M.Given(a.queue, b.queue) && M.Queued(a.queue) != [] && Handled(b, c)
    requires b.counter == a.counter && b.owing == a.owing
    ensures Handled(a, c)
  {
    hide M.Queued, M.Inv;
    var ns := M.Queued(a.queue);
    assert ns == ns[..1] + ns[1..];
    assert (a.queue.returned + ns[..1]) + ns[1..] == a.queue.returned + ns;
  }

  lemma {:induction false} DrainsFrom(a: State) returns (k: nat)
    requires M.Inv(a.queue) && a.draining && a.queue.popper.Returned? && M.Alone(a.queue)
    ensures Drained(a, k).Some? && Handled(a, Drained(a, k).value)
    decreases |M.Queued(a.queue)|, 2
  {
    hide M.PopStep, M.Quiet, M.Inv, M.Alone, M.Queued, Handled, Next;
    M.QuietStarts(a.queue);
    M.Busy(a.queue, M.PopStep(a.queue));
    DrainStep(a);
    var b := Next(a, Drain).value;
    k := DrainsOn(a, b);
    k := k + 1;
  }

  /** Woken up while no push is between its exchange and its link, the loop alone handles all that
      the queue holds, in order, and comes to rest with the counter cleared. */
  lemma LoopDrains(steps: seq<Step>)
    requires Run(steps).Some? && !Run(steps).value.draining && !M.InWindow(Run(steps).value.queue)
    ensures var a := Run(steps).value;
      && Next(a, Wake).Some?
      && exists k: nat :: var b := Drained(Next(a, Wake).value, k);
           && b.Some? && !b.value.draining && b.value.counter == 0
           && M.Queued(b.value.queue) == [] && b.value.queue.returned == a.queue.returned + M.Queued(a.queue)
  {
    hide M.Inv, M.Queued, M.Alone, M.InWindow;
    RunInv(steps);
    var a := Run(steps).value;
    M.AloneIs(a.queue);
    var k := DrainsFrom(a.(counter := 0, draining := true));
  }
}
