/** api_mpscq.h: many producers push, one consumer pops; every read and write of shared memory
    is one step, and the steps interleave in any way. */
module Mpscq {
  import opened Options

  type Node = nat

  const STUB: Node := 0

  /** A push: `next` is cleared, then the head exchanged, then the node before linked.  `at` is
      the place of that node in the history. */
  datatype Pusher = Ready | Cleared(n: Node) | Exchanged(n: Node, prev: Node, at: nat)

  /** A pop, by what its last step has read or written. */
  datatype Popper =
    | Returned(r: Option<Node>)
    | GotTail(t: Node)
    | StubNext(n: Option<Node>)           // the tail is the stub, and this is its next
    | Skipped(t: Node)                    // the tail moved from the stub to t
    | GotNext(t: Node, n: Option<Node>)
    | GotHead(t: Node, h: Node)
    | StubCleared(t: Node)
    | StubExchanged(t: Node, prev: Node, at: nat)
    | StubLinked(t: Node)
    | LastNext(t: Node, n: Option<Node>)

  /** Shared memory, the processes, and history variables: `log` holds the nodes in the order
      in which they became head, `taken` is the place of the tail in it, `returned` is what the
      pops have returned.  Of the current pop: whether some push was between its exchange and its
      link, and whether the queue was empty, at some moment. */
  datatype State = State(
    head: Node, tail: Node, next: map<Node, Option<Node>>,
    pushers: map<nat, Pusher>, popper: Popper,
    log: seq<Node>, taken: nat, returned: seq<Node>,
    overlapped: bool, wasEmpty: bool)

  datatype Step = Clear(p: nat, n: Node) | Exchange(p: nat) | Link(p: nat) | Pop

  function Init(): State {
    State(STUB, STUB, map[STUB := None], map[], Returned(None), [STUB], 0, [], false, false)
  }

  function NextOf(s: State, n: Node): Option<Node> { if n in s.next then s.next[n] else None }

  function PusherOf(s: State, p: nat): Pusher { if p in s.pushers then s.pushers[p] else Ready }

  /** The nodes in the queue, with the stub if it is among them. */
  function Live(s: State): seq<Node> { if s.taken <= |s.log| then s.log[s.taken..] else [] }

  function NonStub(ns: seq<Node>): seq<Node> {
    if ns == [] then [] else NonStub(ns[..|ns| - 1]) + (if ns[|ns| - 1] == STUB then [] else [ns[|ns| - 1]])
  }

  predicate Absent(s: State, n: Node) { forall i: nat | s.taken <= i < |s.log| :: s.log[i] != n }

  predicate Empty(s: State) { NonStub(Live(s)) == [] }

  predicate InWindow(s: State) { exists p <- s.pushers :: s.pushers[p].Exchanged? }

  // ---------- the steps ----------

  /** A node that is neither in the queue nor about to be pushed. */
  predicate Free(s: State, n: Node) {
    n != STUB && Absent(s, n) && forall p <- s.pushers :: s.pushers[p] != Cleared(n)
  }

  function Push(s: State, n: Node): State { s.(head := n, log := s.log + [n]) }

  function PushStep(s: State, step: Step): Option<State>
    requires !step.Pop?
  {
    match step
    case Clear(p, n) =>
      if PusherOf(s, p).Ready? && Free(s, n) then
        Some(s.(next := s.next[n := None], pushers := s.pushers[p := Cleared(n)])) else None
    case Exchange(p) =>
      (match PusherOf(s, p)
       case Cleared(n) =>
         Some(Push(s, n).(pushers := s.pushers[p := Exchanged(n, s.head, if |s.log| == 0 then 0 else |s.log| - 1)],
                          overlapped := s.overlapped || !s.popper.Returned?))
       case _ => None)
    case Link(p) =>
      (match PusherOf(s, p)
       case Exchanged(n, prev, _) => Some(s.(next := s.next[prev := Some(n)], pushers := s.pushers[p := Ready]))
       case _ => None)
  }

  function Take(s: State, t: Node, n: Node): State {
    s.(tail := n, popper := Returned(Some(t)), taken := s.taken + 1, returned := s.returned + [t])
  }

  function PopStep(s: State): State {
    match s.popper
    case Returned(_) => s.(popper := GotTail(s.tail), overlapped := InWindow(s), wasEmpty := Empty(s))
    case GotTail(t) => s.(popper := if t == STUB then StubNext(NextOf(s, t)) else GotNext(t, NextOf(s, t)),
                          wasEmpty := s.wasEmpty || Empty(s))
    case StubNext(None) => s.(popper := Returned(None))
    case StubNext(Some(n)) => s.(tail := n, taken := s.taken + 1, popper := Skipped(n))
    case Skipped(t) => s.(popper := GotNext(t, NextOf(s, t)))
    case GotNext(t, Some(n)) => Take(s, t, n)
    case GotNext(t, None) => s.(popper := GotHead(t, s.head))
    case GotHead(t, h) =>
      if t != h then s.(popper := Returned(None)) else s.(next := s.next[STUB := None], popper := StubCleared(t))
    case StubCleared(t) => Push(s, STUB).(popper := StubExchanged(t, s.head, if |s.log| == 0 then 0 else |s.log| - 1))
    case StubExchanged(t, prev, _) => s.(next := s.next[prev := Some(STUB)], popper := StubLinked(t))
    case StubLinked(t) => s.(popper := LastNext(t, NextOf(s, t)))
    case LastNext(t, Some(n)) => Take(s, t, n)
    case LastNext(_, None) => s.(popper := Returned(None))
  }

  function Next(s: State, step: Step): Option<State> {
    if step.Pop? then Some(PopStep(s)) else PushStep(s, step)
  }

  /** A run; none if some step is not possible. */
  function Run(steps: seq<Step>): Option<State> {
    if steps == [] then Some(Init())
    else
      match Run(steps[..|steps| - 1])
      case None => None
      case Some(s) => Next(s, steps[|steps| - 1])
  }

  // ---------- what every step keeps ----------

  /** Some process will link the node at `i` to the one after it. */
  predicate Pending(s: State, i: nat) {
    || (exists p <- s.pushers :: s.pushers[p].Exchanged? && s.pushers[p].at == i)
    || (s.popper.StubExchanged? && s.popper.at == i)
  }

  predicate Linked(s: State, i: nat)
    requires i + 1 < |s.log|
  {
    NextOf(s, s.log[i]) == Some(s.log[i + 1]) || (NextOf(s, s.log[i]) == None && Pending(s, i))
  }

  predicate Chain(s: State) {
    && s.taken < |s.log| && s.tail == s.log[s.taken] && s.head == s.log[|s.log| - 1]
    && (forall i: nat, j: nat | s.taken <= i < j < |s.log| :: s.log[i] != s.log[j])
    && (forall i: nat | s.taken <= i && i + 1 < |s.log| :: Linked(s, i))
    && NextOf(s, s.head) == None
    && s.returned == NonStub(s.log[..s.taken])
  }

  /** A link to be made: between two neighbours in the queue, and not made yet. */
  predicate ToLink(s: State, n: Node, prev: Node, at: nat) {
    s.taken <= at && at + 1 < |s.log| && s.log[at] == prev && s.log[at + 1] == n && NextOf(s, prev) == None
  }

  predicate PusherFits(s: State, p: nat)
    requires p in s.pushers
  {
    match s.pushers[p]
    case Ready => true
    case Cleared(n) => n != STUB && Absent(s, n) && NextOf(s, n) == None
    case Exchanged(n, prev, at) => n != STUB && ToLink(s, n, prev, at)
  }

  predicate Pushers(s: State) {
    && (forall p <- s.pushers :: PusherFits(s, p))
    && (forall p <- s.pushers, q <- s.pushers | p != q ::
          && (s.pushers[p].Cleared? && s.pushers[q].Cleared? ==> s.pushers[p].n != s.pushers[q].n)
          && (s.pushers[p].Exchanged? && s.pushers[q].Exchanged? ==> s.pushers[p].at != s.pushers[q].at))
    && (s.popper.StubExchanged? ==> forall p <- s.pushers | s.pushers[p].Exchanged? :: s.pushers[p].at != s.popper.at)
  }

  /** A next read earlier is still the next, if there was one. */
  predicate Follows(s: State, n: Option<Node>) {
    n.Some? ==> s.taken + 1 < |s.log| && NextOf(s, s.tail) == n && n.value == s.log[s.taken + 1]
  }

  predicate PopperFits(s: State) {
    match s.popper
    case Returned(_) => true
    case GotTail(t) => t == s.tail
    case StubNext(n) => s.tail == STUB && Follows(s, n)
    case Skipped(t) => t == s.tail != STUB
    case GotNext(t, n) => t == s.tail != STUB && Follows(s, n)
    case GotHead(t, h) => t == s.tail != STUB && (t == h ==> Absent(s, STUB))
    case StubCleared(t) => t == s.tail != STUB && Absent(s, STUB) && NextOf(s, STUB) == None
    case StubExchanged(t, prev, at) => t == s.tail != STUB && ToLink(s, STUB, prev, at)
    case StubLinked(t) => t == s.tail != STUB && s.taken + 1 < |s.log|
    case LastNext(t, n) => t == s.tail != STUB && s.taken + 1 < |s.log| && Follows(s, n)
  }

  predicate Inv(s: State) { Chain(s) && Pushers(s) && PopperFits(s) }

  lemma InitInv()
    ensures Inv(Init())
  {
    assert NonStub([]) == [];
  }

  /** A link that stays to be made, or made, in a step that does neither. */
  lemma LinkKept(s: State, t: State, i: nat)
    requires Linked0(s, i) && s.log <= t.log && NextOf(t, s.log[i]) == NextOf(s, s.log[i])
    requires forall q <- s.pushers | s.pushers[q].Exchanged? && s.pushers[q].at == i ::
      q in t.pushers && t.pushers[q] == s.pushers[q]
    requires s.popper.StubExchanged? && s.popper.at == i ==> t.popper == s.popper
    ensures Linked0(t, i)
  {
    if Pending(s, i) && !(s.popper.StubExchanged? && s.popper.at == i) {
      var q :| q in s.pushers && s.pushers[q].Exchanged? && s.pushers[q].at == i;
      assert t.pushers[q].Exchanged? && t.pushers[q].at == i;
    }
  }

  predicate Linked0(s: State, i: nat) { i + 1 < |s.log| && Linked(s, i) }

  lemma ClearInv(s: State, p: nat, n: Node)
    requires Inv(s) && PushStep(s, Clear(p, n)).Some?
    ensures Inv(PushStep(s, Clear(p, n)).value)
  {
    hide Chain, Pushers, PopperFits, PushStep, PopStep;
    ClearChain(s, p, n);
    ClearPushers(s, p, n);
    ClearPopper(s, p, n);
  }

  lemma ClearChain(s: State, p: nat, n: Node)
    requires Inv(s) && PushStep(s, Clear(p, n)).Some?
    ensures Chain(PushStep(s, Clear(p, n)).value)
  {
    hide NonStub;
    var t := PushStep(s, Clear(p, n)).value;
    forall i: nat | t.taken <= i && i + 1 < |t.log| ensures Linked(t, i) {
      assert Linked(s, i);
      LinkKept(s, t, i);
    }
  }

  lemma ClearPushers(s: State, p: nat, n: Node)
    requires Inv(s) && PushStep(s, Clear(p, n)).Some?
    ensures Pushers(PushStep(s, Clear(p, n)).value)
  {
    hide NonStub, Pending, Linked, InWindow, Empty;
  }

  lemma ClearPopper(s: State, p: nat, n: Node)
    requires Inv(s) && PushStep(s, Clear(p, n)).Some?
    ensures PopperFits(PushStep(s, Clear(p, n)).value)
  {
    hide NonStub, Pending, Linked, InWindow, Empty;
  }

  lemma ExchangeInv(s: State, p: nat)
    requires Inv(s) && PushStep(s, Exchange(p)).Some?
    ensures Inv(PushStep(s, Exchange(p)).value)
  {
    hide Chain, Pushers, PopperFits, PushStep, PopStep;
    ExchangeChain(s, p);
    ExchangePushers(s, p);
    ExchangePopper(s, p);
  }

  lemma ExchangeChain(s: State, p: nat)
    requires Inv(s) && PushStep(s, Exchange(p)).Some?
    ensures Chain(PushStep(s, Exchange(p)).value)
  {
    hide NonStub;
    var t := PushStep(s, Exchange(p)).value;
    forall i: nat | t.taken <= i && i + 1 < |t.log| ensures Linked(t, i) {
      if i + 1 < |s.log| {
        assert Linked(s, i);
        LinkKept(s, t, i);
      } else {
        assert t.pushers[p].Exchanged? && t.pushers[p].at == i;
      }
    }
    assert t.log[..t.taken] == s.log[..s.taken];
  }

  lemma ExchangePushers(s: State, p: nat)
    requires Inv(s) && PushStep(s, Exchange(p)).Some?
    ensures Pushers(PushStep(s, Exchange(p)).value)
  {
    hide NonStub, Pending, Linked, InWindow, Empty;
  }

  lemma ExchangePopper(s: State, p: nat)
    requires Inv(s) && PushStep(s, Exchange(p)).Some?
    ensures PopperFits(PushStep(s, Exchange(p)).value)
  {
    hide NonStub, Pending, Linked, InWindow, Empty;
  }

  lemma LinkInv(s: State, p: nat)
    requires Inv(s) && PushStep(s, Link(p)).Some?
    ensures Inv(PushStep(s, Link(p)).value)
  {
    hide Chain, Pushers, PopperFits, PushStep, PopStep;
    LinkChain(s, p);
    LinkPushers(s, p);
    LinkPopper(s, p);
  }

  lemma LinkChain(s: State, p: nat)
    requires Inv(s) && PushStep(s, Link(p)).Some?
    ensures Chain(PushStep(s, Link(p)).value)
  {
    hide NonStub;
    var t := PushStep(s, Link(p)).value;
    var at := s.pushers[p].at;
    forall i: nat | t.taken <= i && i + 1 < |t.log| ensures Linked(t, i) {
      assert Linked(s, i);
      if i != at { LinkKept(s, t, i); }
    }
  }

  lemma LinkPushers(s: State, p: nat)
    requires Inv(s) && PushStep(s, Link(p)).Some?
    ensures Pushers(PushStep(s, Link(p)).value)
  {
    hide NonStub, Pending, Linked, InWindow, Empty;
  }

  lemma LinkPopper(s: State, p: nat)
    requires Inv(s) && PushStep(s, Link(p)).Some?
    ensures PopperFits(PushStep(s, Link(p)).value)
  {
    hide NonStub, Pending, Linked, InWindow, Empty;
  }

  /** A step of the pop that only reads, or returns nothing. */
  predicate Looks(c: Popper) {
    || c.Returned? || c.GotTail? || c.Skipped? || c.StubLinked?
    || (c.StubNext? && c.n.None?) || (c.GotNext? && c.n.None?) || (c.LastNext? && c.n.None?)
      || (c.GotHead? && c.t != c.h)
  }

  lemma LookInv(s: State)
    requires Inv(s) && Looks(s.popper)
    ensures Inv(PopStep(s))
  {
    hide Chain, Pushers, PopperFits, PopStep;
    LookChanges(s);
    LookRest(s, PopStep(s));
    LookFits(s);
  }

  /** All but the popper and the history of its pop. */
  predicate SameQueue(s: State, t: State) {
    t == s.(popper := t.popper, overlapped := t.overlapped, wasEmpty := t.wasEmpty) && !s.popper.StubExchanged?
      && !t.popper.StubExchanged?
  }

  lemma LookChanges(s: State)
    requires Looks(s.popper)
    ensures SameQueue(s, PopStep(s))
  {
    hide InWindow, Empty;
  }

  lemma LookRest(s: State, t: State)
    requires Chain(s) && Pushers(s) && SameQueue(s, t)
    ensures Chain(t) && Pushers(t)
  {
    assert forall i: nat | t.taken <= i && i + 1 < |t.log| :: Linked(t, i) by {
      forall i: nat | t.taken <= i && i + 1 < |t.log| ensures Linked(t, i) {
        assert Linked(s, i);
        LinkKept(s, t, i);
      }
    }
    hide NonStub, Pending, Linked;
  }

  lemma LookFits(s: State)
    requires Inv(s) && Looks(s.popper)
    ensures PopperFits(PopStep(s))
  {
    hide NonStub, Pending, Linked, InWindow, Empty, Pushers;
    NextIs(s);
  }

  /** The next of the tail, when it has one, is the node after it in the history. */
  lemma NextIs(s: State)
    requires Chain(s)
    ensures Follows(s, NextOf(s, s.tail))
  {
    if s.taken + 1 < |s.log| { assert Linked(s, s.taken); }
  }

  lemma TakeInv(s: State)
    requires Inv(s) && ((s.popper.StubNext? || s.popper.GotNext? || s.popper.LastNext?) && s.popper.n.Some?)
    ensures Inv(PopStep(s))
  {
    hide Chain, Pushers, PopperFits, PushStep, PopStep;
    TakeChain(s);
    TakePushers(s);
    TakePopper(s);
  }

  lemma TakeChain(s: State)
    requires Inv(s) && ((s.popper.StubNext? || s.popper.GotNext? || s.popper.LastNext?) && s.popper.n.Some?)
    ensures Chain(PopStep(s))
  {
    hide NonStub, InWindow, Empty;
    var t := PopStep(s);
    forall i: nat | t.taken <= i && i + 1 < |t.log| ensures Linked(t, i) {
      assert Linked(s, i);
      LinkKept(s, t, i);
    }
    TakenOne(s);
  }

  lemma TakePushers(s: State)
    requires Inv(s) && ((s.popper.StubNext? || s.popper.GotNext? || s.popper.LastNext?) && s.popper.n.Some?)
    ensures Pushers(PopStep(s))
  {
    hide NonStub, Pending, Linked, InWindow, Empty;
  }

  lemma TakePopper(s: State)
    requires Inv(s) && ((s.popper.StubNext? || s.popper.GotNext? || s.popper.LastNext?) && s.popper.n.Some?)
    ensures PopperFits(PopStep(s))
  {
    hide NonStub, Pending, Linked, InWindow, Empty;
  }

  lemma TakenOne(s: State)
    requires s.taken < |s.log|
    ensures NonStub(s.log[..s.taken + 1])
      == NonStub(s.log[..s.taken]) + (if s.log[s.taken] == STUB then [] else [s.log[s.taken]])
  {
    assert s.log[..s.taken + 1][..s.taken] == s.log[..s.taken];
  }

  lemma StubClearInv(s: State)
    requires Inv(s) && s.popper.GotHead? && s.popper.t == s.popper.h
    ensures Inv(PopStep(s))
  {
    var t := PopStep(s);
    assert forall i: nat | t.taken <= i && i + 1 < |t.log| :: Linked(t, i) by {
      forall i: nat | t.taken <= i && i + 1 < |t.log| ensures Linked(t, i) {
        assert Linked(s, i);
        LinkKept(s, t, i);
      }
    }
    hide NonStub, Pending, Linked, InWindow, Empty;
  }

  lemma StubExchangeInv(s: State)
    requires Inv(s) && s.popper.StubCleared?
    ensures Inv(PopStep(s))
  {
    var t := PopStep(s);
    assert forall i: nat | t.taken <= i && i + 1 < |t.log| :: Linked(t, i) by {
      forall i: nat | t.taken <= i && i + 1 < |t.log| ensures Linked(t, i) {
        if i + 1 < |s.log| {
          assert Linked(s, i);
          LinkKept(s, t, i);
        }
      }
    }
    assert t.log[..t.taken] == s.log[..s.taken];
    hide NonStub, Pending, Linked, InWindow, Empty;
  }

  lemma StubLinkInv(s: State)
    requires Inv(s) && s.popper.StubExchanged?
    ensures Inv(PopStep(s))
  {
    var t := PopStep(s);
    var at := s.popper.at;
    assert forall i: nat | t.taken <= i && i + 1 < |t.log| :: Linked(t, i) by {
      forall i: nat | t.taken <= i && i + 1 < |t.log| ensures Linked(t, i) {
        assert Linked(s, i);
        if i != at { LinkKept(s, t, i); }
      }
    }
    hide NonStub, Pending, Linked, InWindow, Empty;
  }

  /** No step of any process breaks the queue. */
  lemma StepInv(s: State, step: Step)
    requires Inv(s) && Next(s, step).Some?
    ensures Inv(Next(s, step).value)
  {
    hide Inv, PopStep, PushStep;
    match step
    case Clear(p, n) => ClearInv(s, p, n);
    case Exchange(p) => ExchangeInv(s, p);
    case Link(p) => LinkInv(s, p);
    case Pop =>
      if Looks(s.popper) { LookInv(s); }
      else {
        match s.popper
        case GotHead(_, _) => StubClearInv(s);
        case StubCleared(_) => StubExchangeInv(s);
        case StubExchanged(_, _, _) => StubLinkInv(s);
        case _ => TakeInv(s);
      }
  }

  lemma {:induction false} RunInv(steps: seq<Step>)
    requires Run(steps).Some?
    ensures Inv(Run(steps).value)
    decreases |steps|
  {
    hide Inv, Next;
    if steps == [] {
      InitInv();
    } else {
      RunInv(steps[..|steps| - 1]);
      StepInv(Run(steps[..|steps| - 1]).value, steps[|steps| - 1]);
    }
  }

  // ---------- order: none lost, none twice ----------

  /** The nodes pushed, in the order in which they were exchanged into the head. */
  function Pushed(steps: seq<Step>): seq<Node> {
    if steps == [] then []
    else
      var before := steps[..|steps| - 1];
      match steps[|steps| - 1]
      case Exchange(p) =>
        (match Run(before)
         case Some(s) => Pushed(before) + (match PusherOf(s, p) case Cleared(n) => [n] case _ => [])
         case None => [])
      case _ => Pushed(before)
  }

  /** The nodes that pops have returned, in order. */
  function Popped(steps: seq<Step>): seq<Node> {
    if steps == [] then []
    else
      Popped(steps[..|steps| - 1]) +
      (match Run(steps)
       case Some(t) =>
         if steps[|steps| - 1].Pop? && t.popper.Returned? && t.popper.r.Some? then [t.popper.r.value] else []
       case None => [])
  }

  lemma {:induction false} NonStubJoin(a: seq<Node>, b: seq<Node>)
    ensures NonStub(a + b) == NonStub(a) + NonStub(b)
    decreases |b|
  {
    if b == [] {
      assert a + b == a;
    } else {
      var last := b[|b| - 1];
      assert (a + b)[..|a + b| - 1] == a + b[..|b| - 1];
      NonStubJoin(a, b[..|b| - 1]);
      assert NonStub(a + b) == NonStub(a) + (NonStub(b[..|b| - 1]) + (if last == STUB then [] else [last]));
    }
  }

  /** How a step changes what was exchanged and what was returned. */
  lemma StepOrder(s: State, step: Step)
    requires Inv(s) && Next(s, step).Some?
    ensures var t := Next(s, step).value;
      && NonStub(t.log)
           == NonStub(s.log) + (if step.Exchange? && PusherOf(s, step.p).Cleared? then [PusherOf(s, step.p).n] else [])
      && t.returned
           == s.returned + (if step.Pop? && t.popper.Returned? && t.popper.r.Some? then [t.popper.r.value] else [])
  {
    hide InWindow, Empty, Pending, Linked, Absent, Chain, PopperFits, NonStub;
    match step
    case Exchange(p) => NonStubOne(s.log, PusherOf(s, p).n);
    case Pop => if s.popper.StubCleared? { NonStubOne(s.log, STUB); }
    case _ =>
  }

  lemma NonStubOne(ns: seq<Node>, n: Node)
    ensures NonStub(ns + [n]) == NonStub(ns) + (if n == STUB then [] else [n])
  {
    assert (ns + [n])[..|ns|] == ns;
  }

  lemma {:induction false} RunOrder(steps: seq<Step>)
    requires Run(steps).Some?
    ensures var s := Run(steps).value; NonStub(s.log) == Pushed(steps) && s.returned == Popped(steps)
    decreases |steps|
  {
    hide Inv, Next, NonStub;
    if steps == [] {
      InitOrder();
    } else {
      var before := steps[..|steps| - 1];
      RunOrder(before);
      RunInv(before);
      var s := Run(before).value;
      StepOrder(s, steps[|steps| - 1]);
      OnlyCleared(s, steps[|steps| - 1]);
    }
  }

  lemma InitOrder()
    ensures NonStub([STUB]) == []
  {
    assert [STUB][..0] == [];
  }

  lemma OnlyCleared(s: State, step: Step)
    requires Next(s, step).Some?
    ensures step.Exchange? ==> PusherOf(s, step.p).Cleared?
  {
  }

  /** In every interleaving, pops return nodes in the order of the exchanges; what was pushed
      and not returned is still in the queue, and no node, not even the stub, is there twice. */
  lemma FirstInFirstOut(steps: seq<Step>)
    requires Run(steps).Some?
    ensures var s := Run(steps).value;
      && Pushed(steps) == Popped(steps) + NonStub(Live(s))
      && forall i, j | 0 <= i < j < |Live(s)| :: Live(s)[i] != Live(s)[j]
  {
    hide NonStub, Pending, Linked, Pushers, PopperFits;
    var s := Run(steps).value;
    RunInv(steps);
    RunOrder(steps);
    assert s.log == s.log[..s.taken] + s.log[s.taken..];
    NonStubJoin(s.log[..s.taken], s.log[s.taken..]);
  }

  // ---------- pops that return nothing ----------

  predicate Alone(s: State) { forall p <- s.pushers :: !s.pushers[p].Exchanged? }

  predicate CalmPopper(s: State) {
    match s.popper
    case StubNext(None) => s.wasEmpty
    case GotNext(_, None) => s.taken + 1 == |s.log|
    case GotHead(_, _) => s.taken + 1 == |s.log| && s.popper.t == s.popper.h
    case StubCleared(_) => s.taken + 1 == |s.log|
    case StubExchanged(_, _, at) => s.taken + 2 == |s.log| && at == s.taken
    case StubLinked(_) => NextOf(s, s.tail).Some?
    case LastNext(_, n) => n.Some?
    case _ => true
  }

  /** While no push was seen between its exchange and its link, a pop has the queue to itself. */
  predicate Calm(s: State) { !s.popper.Returned? && !s.overlapped ==> Alone(s) && CalmPopper(s) }

  lemma PushCalm(s: State, step: Step)
    requires Inv(s) && Calm(s) && !step.Pop? && PushStep(s, step).Some?
    ensures Calm(PushStep(s, step).value)
  {
    hide NonStub, Pending, Linked, InWindow, Empty;
  }

  /** With no link to be made, the tail has no next only when it is the last. */
  lemma LastOfChain(s: State)
    requires Chain(s) && NextOf(s, s.tail).None? && Alone(s) && !s.popper.StubExchanged?
    ensures s.taken + 1 == |s.log| && (s.tail == STUB ==> Empty(s))
  {
    assert s.taken + 1 < |s.log| ==> Linked(s, s.taken);
    assert Live(s) == [s.tail];
    assert [s.tail][..0] == [];
  }

  lemma PopCalm(s: State)
    requires Inv(s) && Calm(s)
    ensures Calm(PopStep(s))
  {
    hide PopStep, Inv, Calm;
    if s.popper.GotTail? || s.popper.Skipped? { ReadCalm(s); }
    else if s.popper.StubExchanged? { StubCalm(s); }
    else if s.popper.Returned? { StartCalm(s); }
    else if s.popper.GotNext? || s.popper.GotHead? || s.popper.StubCleared? { HeadCalm(s); }
    else { OtherCalm(s); }
  }

  lemma ReadCalm(s: State)
    requires Inv(s) && Calm(s) && (s.popper.GotTail? || s.popper.Skipped?)
    ensures Calm(PopStep(s))
  {
    hide NonStub, Pending, Linked, Empty, Alone, InWindow, Pushers;
    AloneSame(s, PopStep(s));
    if Alone(s) && NextOf(s, s.tail).None? { LastOfChain(s); }
  }

  lemma StubCalm(s: State)
    requires Inv(s) && Calm(s) && s.popper.StubExchanged?
    ensures Calm(PopStep(s))
  {
    hide NonStub, Pending, Linked, Empty, Alone, InWindow, Pushers;
    AloneSame(s, PopStep(s));
  }

  lemma StartCalm(s: State)
    requires s.popper.Returned?
    ensures Calm(PopStep(s))
  {
    hide Empty, Alone, InWindow;
    AloneIs(s);
    AloneSame(s, PopStep(s));
  }

  lemma HeadCalm(s: State)
    requires Inv(s) && Calm(s) && (s.popper.GotNext? || s.popper.GotHead? || s.popper.StubCleared?)
    ensures Calm(PopStep(s))
  {
    hide NonStub, Pending, Linked, Empty, Alone, InWindow, Pushers;
    AloneSame(s, PopStep(s));
  }

  lemma OtherCalm(s: State)
    requires Inv(s) && Calm(s) && (s.popper.StubNext? || s.popper.StubLinked? || s.popper.LastNext?)
    ensures Calm(PopStep(s))
  {
    hide NonStub, Pending, Linked, Empty, Alone, InWindow, Pushers, Chain;
    AloneSame(s, PopStep(s));
  }

  lemma AloneIs(s: State)
    ensures Alone(s) <==> !InWindow(s)
  {
  }

  lemma AloneSame(s: State, t: State)
    requires s.pushers == t.pushers
    ensures Alone(s) == Alone(t)
  {
  }

  lemma {:induction false} RunCalm(steps: seq<Step>)
    requires Run(steps).Some?
    ensures Calm(Run(steps).value)
    decreases |steps|
  {
    hide Inv, Calm, PopStep, PushStep;
    if steps == [] {
      InitCalm();
    } else {
      var before := steps[..|steps| - 1];
      var step := steps[|steps| - 1];
      RunCalm(before);
      RunInv(before);
      if step.Pop? { PopCalm(Run(before).value); } else { PushCalm(Run(before).value, step); }
    }
  }

  lemma InitCalm()
    ensures Calm(Init())
  {
  }

  /** A pop returns nothing only if the queue was empty at some moment of the call, or some
      push was between its exchange and its link at some moment of it. */
  lemma NullPop(steps: seq<Step>)
    requires Run(steps).Some? && !Run(steps).value.popper.Returned?
      && PopStep(Run(steps).value).popper == Returned(None)
    ensures Run(steps).value.wasEmpty || Run(steps).value.overlapped
  {
    hide Inv, Empty, InWindow;
    RunCalm(steps);
    RunInv(steps);
  }

  // ---------- pops come to their end ----------

  /** How many steps a pop may still take. */
  function Rank(c: Popper): nat {
    match c
    case Returned(_) => 0
    case GotTail(_) => 9
    case StubNext(_) => 8
    case Skipped(_) => 7
    case GotNext(_, _) => 6
    case GotHead(_, _) => 5
    case StubCleared(_) => 4
    case StubExchanged(_, _, _) => 3
    case StubLinked(_) => 2
    case LastNext(_, _) => 1
  }

  lemma PopRank(s: State)
    ensures Rank(PopStep(s).popper) < if s.popper.Returned? then 10 else Rank(s.popper)
  {
    hide InWindow, Empty;
  }

  lemma PushRank(s: State, step: Step)
    requires !step.Pop? && PushStep(s, step).Some?
    ensures PushStep(s, step).value.popper == s.popper
  {
    hide Free;
  }

  /** A run from any state. */
  function RunFrom(s: State, steps: seq<Step>): Option<State>
    decreases |steps|
  {
    if steps == [] then Some(s)
    else
      match Next(s, steps[0])
      case None => None
      case Some(t) => RunFrom(t, steps[1..])
  }

  /** The producer whose step it is. */
  function By(step: Step): Option<nat> { if step.Pop? then None else Some(step.p) }

  predicate NoneBy(steps: seq<Step>, p: nat) { forall i | 0 <= i < |steps| :: By(steps[i]) != Some(p) }

  lemma {:induction false} OthersKeep(s: State, steps: seq<Step>, p: nat)
    requires RunFrom(s, steps).Some? && NoneBy(steps, p)
    ensures PusherOf(RunFrom(s, steps).value, p) == PusherOf(s, p)
    decreases |steps|
  {
    if steps != [] {
      assert By(steps[0]) != Some(p);
      OneKeeps(s, steps[0], p);
      hide Next;
      OthersKeep(Next(s, steps[0]).value, steps[1..], p);
    }
  }

  lemma OneKeeps(s: State, step: Step, p: nat)
    requires Next(s, step).Some? && By(step) != Some(p)
    ensures PusherOf(Next(s, step).value, p) == PusherOf(s, p)
  {
  }

  /** A push takes its three steps, whatever the others do in between; its node is the last of the
      queue from the second on. */
  lemma PushEnds(s: State, p: nat, n: Node, a: seq<Step>, b: seq<Step>)
    requires PusherOf(s, p).Ready? && Free(s, n) && NoneBy(a, p) && NoneBy(b, p)
    ensures Next(s, Clear(p, n)).Some?
    ensures var cleared := RunFrom(Next(s, Clear(p, n)).value, a);
      cleared.Some? ==>
        var t := Next(cleared.value, Exchange(p));
        && t.Some? && t.value.log == cleared.value.log + [n] && t.value.head == n
        && var pushed := RunFrom(t.value, b);
           pushed.Some? ==>
             Next(pushed.value, Link(p)).Some? && PusherOf(Next(pushed.value, Link(p)).value, p).Ready?
  {
    hide RunFrom, PopStep, Free;
    var s0 := Next(s, Clear(p, n)).value;
    var cleared := RunFrom(s0, a);
    if cleared.Some? {
      OthersKeep(s0, a, p);
      var t := Next(cleared.value, Exchange(p)).value;
      if RunFrom(t, b).Some? { OthersKeep(t, b, p); }
    }
  }

  function Pops(steps: seq<Step>): nat {
    if steps == [] then 0 else (if steps[0].Pop? then 1 else 0) + Pops(steps[1..])
  }

  /** The steps from some state end with one of the pop, after which the pop has returned. */
  predicate PopOver(s: State, steps: seq<Step>) {
    && steps != [] && steps[|steps| - 1].Pop?
    && RunFrom(s, steps).Some? && RunFrom(s, steps).value.popper.Returned?
  }

  lemma {:induction false} PopEndsIn(s: State, steps: seq<Step>, n: nat) returns (k: nat)
    requires RunFrom(s, steps).Some? && Pops(steps) >= n
    requires n == if s.popper.Returned? then 10 else Rank(s.popper)
    ensures k <= |steps| && PopOver(s, steps[..k]) && Pops(steps[..k]) <= n
    decreases |steps|
  {
    hide PopStep, PushStep, Rank;
    NotOver(s.popper);
    var t, rest := Next(s, steps[0]).value, steps[1..];
    if steps[0].Pop? {
      PopRank(s);
      if t.popper.Returned? {
        k := 1;
        assert steps[..1] == [steps[0]] && steps[..1][1..] == [];
        assert RunFrom(t, []) == Some(t);
      } else {
        NotOver(t.popper);
        var m := Rank(t.popper);
        k := PopEndsIn(t, rest, m);
        k := k + 1;
        FirstStep(steps, k);
      }
    } else {
      PushRank(s, steps[0]);
      k := PopEndsIn(t, rest, n);
      k := k + 1;
      FirstStep(steps, k);
    }
  }

  lemma NotOver(c: Popper)
    ensures c.Returned? <==> Rank(c) == 0
  {
  }

  lemma FirstStep(steps: seq<Step>, k: nat)
    requires 0 < k <= |steps|
    ensures steps[..k][0] == steps[0] && steps[..k][1..] == steps[1..][..k - 1]
    ensures k > 1 ==> steps[..k][|steps[..k]| - 1] == steps[1..][..k - 1][|steps[1..][..k - 1]| - 1]
  {
  }

  /** Whatever push steps come between, a pop has returned after at most ten of its steps. */
  lemma PopEnds(s: State, steps: seq<Step>)
    requires RunFrom(s, steps).Some? && Pops(steps) >= 10
    ensures exists k: nat | k <= |steps| :: PopOver(s, steps[..k]) && Pops(steps[..k]) <= 10
  {
    hide RunFrom, PopOver;
    RankBound(s.popper);
    var k := PopEndsIn(s, steps, if s.popper.Returned? then 10 else Rank(s.popper));
  }

  lemma RankBound(c: Popper)
    ensures Rank(c) <= 9
  {
  }

  /** Some steps of the pop alone. */
  function PopSteps(s: State, n: nat): State
    decreases n
  {
    if n == 0 then s else PopSteps(PopStep(s), n - 1)
  }

  /** What the queue holds, in order. */
  function Queued(s: State): seq<Node> { NonStub(Live(s)) }

  function First(ns: seq<Node>): Option<Node> { if ns == [] then None else Some(ns[0]) }

  function Rest(ns: seq<Node>): seq<Node> { if ns == [] then [] else ns[1..] }

  /** A pop under way, without any push, since `s0`. */
  predicate Quiet(s0: State, s: State) {
    && Inv(s) && Calm(s) && !s.popper.Returned? && !s.overlapped && (s.wasEmpty ==> Queued(s0) == [])
    && s.pushers == s0.pushers && s.returned == s0.returned && NonStub(s.log) == NonStub(s0.log)
  }

  /** The pop has returned the first node, if there was one, and taken it out of the queue. */
  predicate Given(s0: State, t: State) {
    && t.popper == Returned(First(Queued(s0))) && Queued(t) == Rest(Queued(s0))
    && Inv(t) && t.pushers == s0.pushers
    && t.returned == s0.returned + (Queued(s0)[..if Queued(s0) == [] then 0 else 1])
  }

  lemma InOrder(s: State)
    requires Chain(s)
    ensures NonStub(s.log) == s.returned + Queued(s)
  {
    hide NonStub, Linked;
    assert s.log == s.log[..s.taken] + s.log[s.taken..];
    NonStubJoin(s.log[..s.taken], s.log[s.taken..]);
  }

  lemma QuietStarts(s: State)
    requires Inv(s) && s.popper.Returned? && Alone(s)
    ensures Quiet(s, PopStep(s))
  {
    hide Inv, Calm, NonStub, Live;
    StepInv(s, Pop);
    StepOrder(s, Pop);
    StartCalm(s);
    AloneIs(s);
  }

  /** What one step of such a pop does to the history. */
  lemma QuietChange(s: State)
    requires !s.popper.Returned?
    ensures var t := PopStep(s);
      && t.pushers == s.pushers && t.overlapped == s.overlapped
      && (t.wasEmpty ==> s.wasEmpty || Empty(s))
  {
    hide InWindow, Empty;
  }

  /** A calm pop returns nothing only when the queue was empty. */
  lemma CalmNone(s: State)
    requires Calm(s) && !s.overlapped && !s.popper.Returned? && PopStep(s).popper == Returned(None)
    ensures s.wasEmpty
  {
    hide InWindow, Empty, Alone;
  }

  lemma QuietStep(s0: State, s: State)
    requires Inv(s0) && Quiet(s0, s)
    ensures var t := PopStep(s); if t.popper.Returned? then Given(s0, t) else Quiet(s0, t)
  {
    hide Inv, Calm, NonStub, Live, PopStep;
    var t := PopStep(s);
    StepInv(s, Pop);
    StepOrder(s, Pop);
    PopCalm(s);
    QuietChange(s);
    ChainOf(s0);
    ChainOf(s);
    ChainOf(t);
    InOrder(s0);
    InOrder(s);
    InOrder(t);
    assert Queued(s) == Queued(s0) by {
      assert NonStub(s.log)[|s.returned|..] == Queued(s) && NonStub(s0.log)[|s0.returned|..] == Queued(s0);
    }
    if t.popper.Returned? {
      QuietEnd(s0, s);
    }
  }

  lemma ChainOf(s: State)
    requires Inv(s)
    ensures Chain(s)
  {
  }

  lemma QuietEnd(s0: State, s: State)
    requires Quiet(s0, s) && PopStep(s).popper.Returned? && Inv(PopStep(s)) && PopStep(s).pushers == s0.pushers
    requires var t := PopStep(s);
      && NonStub(s0.log) == s0.returned + Queued(s0) && NonStub(s0.log) == t.returned + Queued(t)
      && t.returned == s.returned + (if t.popper.r.Some? then [t.popper.r.value] else [])
    ensures Given(s0, PopStep(s))
  {
    hide Inv, Calm, NonStub, Live, PopStep;
    var t := PopStep(s);
    var all := NonStub(s0.log);
    if t.popper.r.None? {
      CalmNone(s);
      assert t.returned == s0.returned;
      assert all[|s0.returned|..] == Queued(s0) == Queued(t);
      assert s0.returned + [] == s0.returned;
    } else {
      var n := t.popper.r.value;
      assert all == s0.returned + ([n] + Queued(t));
      assert all[|s0.returned|..] == Queued(s0) == [n] + Queued(t);
      assert ([n] + Queued(t))[..1] == [n] && ([n] + Queued(t))[1..] == Queued(t);
    }
  }

  lemma {:induction false} QuietEnds(s0: State, s: State) returns (k: nat)
    requires Inv(s0) && Quiet(s0, s)
    ensures k <= Rank(s.popper) && Given(s0, PopSteps(s, k))
    decreases Rank(s.popper)
  {
    hide PopStep, Quiet, Given, Rank, Inv;
    assert !s.popper.Returned? by { Busy(s0, s); }
    PopRank(s);
    QuietStep(s0, s);
    var t := PopStep(s);
    if t.popper.Returned? {
      k := 1;
      assert PopSteps(t, 0) == t;
    } else {
      var m := QuietEnds(s0, t);
      k := m + 1;
    }
  }

  lemma Busy(s0: State, s: State)
    requires Quiet(s0, s)
    ensures !s.popper.Returned?
  {
  }

  /** While no push is between its exchange and its link, a pop alone returns the first node of the
      queue, or nothing from an empty one, and takes exactly that node out. */
  lemma QuietPop(s: State)
    requires Inv(s) && s.popper.Returned? && Alone(s)
    ensures exists k: nat | k <= 10 :: Given(s, PopSteps(s, k))
  {
    hide PopStep, Quiet, Given, Rank, Inv, Alone;
    QuietStarts(s);
    RankBound(PopStep(s).popper);
    var m := QuietEnds(s, PopStep(s));
    assert PopSteps(s, m + 1) == PopSteps(PopStep(s), m);
  }

  /** The same after any run. */
  lemma FirstReturned(steps: seq<Step>)
    requires Run(steps).Some? && Run(steps).value.popper.Returned? && !InWindow(Run(steps).value)
    ensures var s := Run(steps).value;
      exists k: nat | k <= 10 :: var t := PopSteps(s, k);
        t.popper == Returned(First(Queued(s))) && Queued(t) == Rest(Queued(s)) && t.pushers == s.pushers
  {
    hide PopStep, Inv, PopSteps, Queued;
    RunInv(steps);
    var s := Run(steps).value;
    AloneIs(s);
    QuietPop(s);
    var k: nat :| k <= 10 && Given(s, PopSteps(s, k));
  }
}
