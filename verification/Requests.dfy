/** What the tasks woken by timers ask for, and what becomes of it: a timer that is not set is set as
    the first request for it says, and one that is set stays as it is. */
module Requests {
  import opened Options
  import opened RbShape

  datatype Kind = Sleep | Idle | Timeout

  /** A timer; `list` is the list it is in, known by its node in the tree. */
  class Timer {
    var list: RbNode?
    var issued: nat
    var version: nat
    var elapsed: bool
  }

  method NewTimer() returns (timer: Timer)
    ensures fresh(timer) && timer.list == null && !timer.elapsed
  {
    timer := new Timer;
    timer.list, timer.elapsed := null, false;
  }

  datatype Request = Request(timer: Timer, kind: Kind, value: nat, now: nat)

  /** What a timer shows: the period of its list, if it is set, and what it was given when it was
      last set. */
  datatype Shown = Shown(period: Option<int>, issued: nat, version: nat)

  /** The timers as values. */
  datatype State = State(timers: map<Timer, Shown>, version: nat, pool: set<Timer>)

  ghost function ShownOf(t: Timer): Shown
    reads t
  {
    Shown(if t.list == null then None else Some(t.list.key), t.issued, t.version)
  }

  ghost function StateOf(all: set<Timer>, version: nat, pool: set<Timer>): State
    reads all
  {
    State(map t | t in all :: ShownOf(t), version, pool)
  }

  ghost predicate Shows(s: State, all: set<Timer>, version: nat, pool: set<Timer>)
    reads all
  {
    s.timers.Keys == all && s.version == version && s.pool == pool && forall t <- all :: ShownOf(t) == s.timers[t]
  }

  /** A request sets a timer that is not set. */
  ghost function Ask(s: State, r: Request): State {
    if r.timer in s.timers && s.timers[r.timer].period == None && r.value > 0 then
      var issued := if r.kind.Idle? then s.timers[r.timer].issued else r.now;
      State(s.timers[r.timer := Shown(Some(r.value), issued, s.version + 1)], s.version + 1, s.pool + {r.timer})
    else s
  }

  ghost function AskAll(s: State, requests: seq<Request>): State {
    if requests == [] then s else Ask(AskAll(s, requests[..|requests| - 1]), requests[|requests| - 1])
  }

  ghost function FireOne(s: State, t: Timer): State {
    if t in s.timers then s.(timers := s.timers[t := s.timers[t].(period := None)]) else s
  }

  function Nth(script: seq<seq<Request>>, k: nat): seq<Request> { if k < |script| then script[k] else [] }

  /** Timers fire one after another; the task woken by the `k`th makes the requests `script[k]`. */
  ghost function FireAll(s: State, order: seq<Timer>, script: seq<seq<Request>>): State {
    if order == [] then s else
      var k := |order| - 1;
      AskAll(FireOne(FireAll(s, order[..k], script), order[k]), Nth(script, k))
  }

  lemma AskedOne(s: State, requests: seq<Request>, i: nat)
    requires i < |requests|
    ensures AskAll(s, requests[..i + 1]) == Ask(AskAll(s, requests[..i]), requests[i])
  {
    assert requests[..i + 1][..i] == requests[..i];
  }

  lemma AskedNone(s: State)
    ensures AskAll(s, []) == s
  {
  }

  lemma FiredLast(s: State, order: seq<Timer>, t: Timer, script: seq<seq<Request>>)
    ensures FireAll(s, order + [t], script) == AskAll(FireOne(FireAll(s, order, script), t), Nth(script, |order|))
  {
    assert (order + [t])[..|order|] == order;
  }

  lemma {:induction false} SameTimers(s: State, requests: seq<Request>)
    ensures AskAll(s, requests).timers.Keys == s.timers.Keys
  {
    if requests != [] { SameTimers(s, requests[..|requests| - 1]); }
  }

  lemma {:induction false} SameTimersFired(s: State, order: seq<Timer>, script: seq<seq<Request>>)
    ensures FireAll(s, order, script).timers.Keys == s.timers.Keys
  {
    if order != [] {
      var k := |order| - 1;
      SameTimersFired(s, order[..k], script);
      SameTimers(FireOne(FireAll(s, order[..k], script), order[k]), Nth(script, k));
    }
  }

  ghost function Asked(requests: seq<Request>): set<Timer> { set r | r in requests :: r.timer }

  ghost function AllAsked(script: seq<seq<Request>>): set<Timer> { set rs, r | rs in script && r in rs :: r.timer }

  lemma AskedIn(script: seq<seq<Request>>, k: nat)
    ensures Asked(Nth(script, k)) <= AllAsked(script)
  {
  }

  // ---------- what becomes of the requests ----------

  /** The requests of the tasks woken by the timers from the `a`th to before the `b`th. */
  function Asks(script: seq<seq<Request>>, a: nat, b: nat): seq<Request>
    decreases b - a
  {
    if a >= b then [] else Nth(script, a) + Asks(script, a + 1, b)
  }

  /** Timers that are asked for. */
  ghost function Wanted(requests: seq<Request>): set<Timer> { set r | r in requests && r.value > 0 :: r.timer }

  /** The first request for a timer. */
  ghost predicate FirstFor(requests: seq<Request>, t: Timer, i: nat) {
    && i < |requests| && requests[i].timer == t && requests[i].value > 0
    && forall j: nat | j < i :: requests[j].timer == t ==> requests[j].value == 0
  }

  /** What requests make of a timer, from `x` to `y`, when the version was `v`: one that is set, or not
      asked for, stays as it is, and one that is not set is set as the first request for it says. */
  ghost predicate Answered(x: Shown, y: Shown, requests: seq<Request>, t: Timer, v: nat) {
    && (x.period.Some? || t !in Wanted(requests) ==> y == x)
    && forall i: nat | FirstFor(requests, t, i) && x.period == None ::
        && y.period == Some(requests[i].value) && v < y.version
        && y.issued == if requests[i].kind.Idle? then x.issued else requests[i].now
  }

  lemma FirstWanted(requests: seq<Request>, t: Timer)
    ensures t in Wanted(requests) <==> exists i: nat :: FirstFor(requests, t, i)
  {
    if t in Wanted(requests) {
      var n: nat :| n < |requests| && requests[n].timer == t && requests[n].value > 0;
      FirstUpTo(requests, t, n);
    }
    if i: nat :| FirstFor(requests, t, i) { assert requests[i] in requests; }
  }

  lemma {:induction false} FirstUpTo(requests: seq<Request>, t: Timer, n: nat)
    requires n < |requests| && requests[n].timer == t && requests[n].value > 0
    ensures exists i: nat :: FirstFor(requests, t, i)
  {
    if j: nat :| j < n && requests[j].timer == t && requests[j].value > 0 {
      FirstUpTo(requests, t, j);
    } else {
      assert FirstFor(requests, t, n);
    }
  }

  lemma NoneAnswered(x: Shown, t: Timer, v: nat)
    ensures Answered(x, x, [], t, v)
  {
  }

  lemma AnsweredOn(x: Shown, y: Shown, z: Shown, a: seq<Request>, b: seq<Request>, t: Timer, v: nat)
    requires Answered(x, y, a, t, v) && Answered(y, z, b, t, v)
    ensures Answered(x, z, a + b, t, v)
  {
    hide Wanted;
    FirstWanted(a, t);
    WantedBoth(a, b);
    forall i: nat | FirstFor(a + b, t, i) && x.period == None
      ensures z.period == Some((a + b)[i].value) && v < z.version
        && z.issued == if (a + b)[i].kind.Idle? then x.issued else (a + b)[i].now
    {
      FirstOfBoth(a, b, t, i);
    }
  }

  lemma WantedBoth(a: seq<Request>, b: seq<Request>)
    ensures Wanted(a + b) == Wanted(a) + Wanted(b)
  {
  }

  lemma FirstOfBoth(a: seq<Request>, b: seq<Request>, t: Timer, i: nat)
    requires FirstFor(a + b, t, i)
    ensures if i < |a| then FirstFor(a, t, i) else t !in Wanted(a) && FirstFor(b, t, i - |a|)
  {
    if i < |a| {
      forall j: nat | j < i ensures a[j].timer == t ==> a[j].value == 0 { assert (a + b)[j] == a[j]; }
    } else {
      forall j: nat | j < |a| ensures a[j].timer == t ==> a[j].value == 0 { assert (a + b)[j] == a[j]; }
      forall j: nat | j < i - |a| ensures b[j].timer == t ==> b[j].value == 0 { assert (a + b)[|a| + j] == b[j]; }
    }
  }

  /** Timers only join those ever set when they are asked for, and do so when they are set. */
  ghost predicate Grown(s: State, f: State, requests: seq<Request>) {
    && f.timers.Keys == s.timers.Keys && s.version <= f.version && s.pool <= f.pool <= s.pool + Wanted(requests)
    && forall t <- s.timers | s.timers[t].period == None && f.timers[t].period != None :: t in f.pool
  }

  lemma GrownOn(s: State, m: State, f: State, a: seq<Request>, b: seq<Request>)
    requires Grown(s, m, a) && Grown(m, f, b)
    ensures Grown(s, f, a + b)
  {
    WantedBoth(a, b);
  }

  lemma AskAnswers(s: State, r: Request, t: Timer, v: nat)
    requires t in s.timers && v <= s.version
    ensures Grown(s, Ask(s, r), [r]) && Answered(s.timers[t], Ask(s, r).timers[t], [r], t, v)
  {
    assert [r][0] in [r];
    assert forall i: nat | FirstFor([r], t, i) :: [r][i] == r;
  }

  lemma AskGrows(s: State, r: Request)
    ensures Grown(s, Ask(s, r), [r])
  {
    assert [r][0] in [r];
  }

  lemma {:induction false} AllGrow(s: State, requests: seq<Request>)
    ensures Grown(s, AskAll(s, requests), requests)
  {
    hide Grown, Ask;
    if requests == [] {
      NoneGrown(s);
    } else {
      var rest, r := requests[..|requests| - 1], requests[|requests| - 1];
      AllGrow(s, rest);
      AskGrows(AskAll(s, rest), r);
      GrownOn(s, AskAll(s, rest), AskAll(s, requests), rest, [r]);
      assert requests == rest + [r];
    }
  }

  lemma NoneGrown(s: State)
    ensures Grown(s, s, [])
  {
  }

  lemma {:induction false} AllAnswer(s: State, requests: seq<Request>, t: Timer, v: nat)
    requires t in s.timers && v <= s.version
    ensures AskAll(s, requests).timers.Keys == s.timers.Keys
    ensures Answered(s.timers[t], AskAll(s, requests).timers[t], requests, t, v)
  {
    hide Answered, Wanted, Ask;
    AllGrow(s, requests);
    if requests == [] {
      NoneAnswered(s.timers[t], t, v);
    } else {
      var rest, r := requests[..|requests| - 1], requests[|requests| - 1];
      var m := AskAll(s, rest);
      AllGrow(s, rest);
      AllAnswer(s, rest, t, v);
      AskAnswers(m, r, t, v);
      AnsweredOn(s.timers[t], m.timers[t], Ask(m, r).timers[t], rest, [r], t, v);
      assert requests == rest + [r];
    }
  }

  lemma {:induction false} AsksNext(script: seq<seq<Request>>, a: nat, b: nat)
    requires a <= b
    ensures Asks(script, a, b + 1) == Asks(script, a, b) + Nth(script, b)
    decreases b - a
  {
    if a < b { AsksNext(script, a + 1, b); }
  }

  /** What joins those ever set is asked for by a task that was woken. */
  lemma {:induction false} FiringGrows(s: State, order: seq<Timer>, script: seq<seq<Request>>)
    ensures Grown(s, FireAll(s, order, script), Asks(script, 0, |order|))
  {
    hide Grown;
    if order == [] {
      NoneGrown(s);
    } else {
      var k := |order| - 1;
      var m := FireAll(s, order[..k], script);
      FiringGrows(s, order[..k], script);
      FiredGrown(s, m, order[k], Asks(script, 0, k));
      AllGrow(FireOne(m, order[k]), Nth(script, k));
      GrownOn(s, FireOne(m, order[k]), FireAll(s, order, script), Asks(script, 0, k), Nth(script, k));
      AsksNext(script, 0, k);
    }
  }

  lemma FiredGrown(s: State, m: State, t: Timer, requests: seq<Request>)
    requires Grown(s, m, requests)
    ensures Grown(s, FireOne(m, t), requests)
  {
  }

  /** A timer that does not fire from the `j`th on is as the requests from then on make it. */
  lemma {:induction false} FiringAnswers(s: State, order: seq<Timer>, script: seq<seq<Request>>, t: Timer, j: nat)
    requires t in s.timers && j <= |order| && t !in order[j..]
    ensures t in FireAll(s, order[..j], script).timers && t in FireAll(s, order, script).timers
    ensures Answered(FireAll(s, order[..j], script).timers[t], FireAll(s, order, script).timers[t],
                     Asks(script, j, |order|), t, s.version)
    decreases |order|
  {
    hide Answered, Wanted;
    var b := FireAll(s, order[..j], script);
    FiringGrows(s, order[..j], script);
    if j == |order| {
      assert order[..j] == order;
      NoneAnswered(b.timers[t], t, s.version);
    } else {
      var k := |order| - 1;
      var rest, rs := order[..k], Nth(script, k);
      assert rest[..j] == order[..j] && order[j..] == rest[j..] + [order[k]];
      FiringAnswers(s, rest, script, t, j);
      FiringGrows(s, rest, script);
      var m := FireOne(FireAll(s, rest, script), order[k]);
      AllAnswer(m, rs, t, s.version);
      AsksNext(script, j, k);
      AnsweredOn(b.timers[t], m.timers[t], FireAll(s, order, script).timers[t], Asks(script, j, k), rs, t, s.version);
    }
  }

  /** A timer that does not fire is set as the first request for it says, if it was not set. */
  lemma UnfiredAnswers(s: State, order: seq<Timer>, script: seq<seq<Request>>, t: Timer)
    requires t in s.timers && t !in order
    ensures t in FireAll(s, order, script).timers
    ensures Answered(s.timers[t], FireAll(s, order, script).timers[t], Asks(script, 0, |order|), t, s.version)
  {
    hide Answered;
    FiringAnswers(s, order, script, t, 0);
  }

  /** A timer that fires is set as the first request for it says that a task makes from then on. */
  lemma FiredAnswers(s: State, order: seq<Timer>, script: seq<seq<Request>>, j: nat)
    requires j < |order| && order[j] in s.timers && order[j] !in order[..j] && order[j] !in order[j + 1..]
    requires s.timers[order[j]].period.Some?
    ensures var t := order[j];
      && t in FireAll(s, order, script).timers
      && Answered(s.timers[t].(period := None), FireAll(s, order, script).timers[t], Asks(script, j, |order|), t,
                  s.version)
  {
    hide Wanted;
    var t := order[j];
    var b := FireAll(s, order[..j], script);
    FiringGrows(s, order[..j], script);
    UnfiredAnswers(s, order[..j], script, t);
    AllAnswer(FireOne(b, t), Nth(script, j), t, s.version);
    assert order[..j + 1][..j] == order[..j];
    FiringAnswers(s, order, script, t, j + 1);
    AnsweredOn(s.timers[t].(period := None), FireAll(s, order[..j + 1], script).timers[t],
               FireAll(s, order, script).timers[t], Nth(script, j), Asks(script, j + 1, |order|), t, s.version);
  }

  /** Every timer is as the requests make it that are made while it waits to be set; nothing else
      joins those ever set. */
  ghost predicate Replied(s: State, f: State, order: seq<Timer>, script: seq<seq<Request>>) {
    && Grown(s, f, Asks(script, 0, |order|))
    && (forall t <- s.timers | t !in order ::
        Answered(s.timers[t], f.timers[t], Asks(script, 0, |order|), t, s.version))
    && (forall j: nat | j < |order| :: (
        var t := order[j];
        t in s.timers && Answered(s.timers[t].(period := None), f.timers[t], Asks(script, j, |order|), t, s.version)))
  }

  lemma AllReplied(s: State, order: seq<Timer>, script: seq<seq<Request>>)
    requires forall t <- order :: t in s.timers && s.timers[t].period.Some?
    requires forall i, j | 0 <= i < j < |order| :: order[i] != order[j]
    ensures Replied(s, FireAll(s, order, script), order, script)
  {
    hide Answered, Grown, FireAll, Wanted;
    FiringGrows(s, order, script);
    FireKeeps(s, order, script);
    forall t <- s.timers | t !in order
      ensures Answered(s.timers[t], FireAll(s, order, script).timers[t], Asks(script, 0, |order|), t, s.version)
    {
      UnfiredAnswers(s, order, script, t);
    }
    forall j: nat | j < |order|
      ensures order[j] in s.timers
        && Answered(s.timers[order[j]].(period := None), FireAll(s, order, script).timers[order[j]],
                    Asks(script, j, |order|), order[j], s.version)
    {
      assert order[j] in order;
      FiredAnswers(s, order, script, j);
    }
  }

  lemma FireKeeps(s: State, order: seq<Timer>, script: seq<seq<Request>>)
    ensures FireAll(s, order, script).timers.Keys == s.timers.Keys
  {
    FiringGrows(s, order, script);
  }

  /** A timer that was not set and is asked for is set. */
  lemma AskedIsSet(s: State, f: State, order: seq<Timer>, script: seq<seq<Request>>, t: Timer, i: nat)
    requires Replied(s, f, order, script) && t in s.timers && s.timers[t].period == None && t !in order
    requires FirstFor(Asks(script, 0, |order|), t, i)
    ensures t in f.timers && f.timers[t].period == Some(Asks(script, 0, |order|)[i].value)
    ensures s.version < f.timers[t].version && t in f.pool
  {
  }
}
