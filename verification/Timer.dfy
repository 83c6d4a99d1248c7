/** api_timer.c: timers kept in one list per period, the lists in a red-black tree ordered by
    period. */
module Timer {
  import opened Options
  import opened RbShape
  import opened Requests
  import W = RbWalk
  import T = RbTree

  const TWO64: int := 0x1_0000_0000_0000_0000

  /** The lists by their nodes in the tree, each from head to tail. */
  type Lists = map<RbNode, seq<Timer>>

  function Removed(ts: seq<Timer>, t: Timer): seq<Timer> {
    if ts == [] then [] else (if ts[0] == t then [] else [ts[0]]) + Removed(ts[1..], t)
  }

  /** The timer runs with this period. */
  ghost predicate Runs(ls: Lists, t: Timer, period: int) {
    exists l <- ls :: t in ls[l] && l.key == period
  }

  ghost function Members(ls: Lists): set<Timer> { set l, t | l in ls && t in ls[l] :: t }

  /** The timers of a list know it, and were set in the order in which they stand. */
  ghost predicate ListFits(l: RbNode, ts: seq<Timer>, v: nat)
    reads ts
  {
    && (forall i | 0 <= i < |ts| :: ts[i].list == l && ts[i].version <= v)
    && (forall i, j | 0 <= i < j < |ts| :: ts[i].version < ts[j].version)
  }

  ghost predicate InPool(ls: Lists, pool: set<Timer>) { forall l <- ls, t <- ls[l] :: t in pool }

  ghost predicate AllFit(ls: Lists, v: nat, pool: set<Timer>)
    requires InPool(ls, pool)
    reads pool
  {
    forall l <- ls :: ListFits(l, ls[l], v)
  }

  ghost predicate Fitting(ls: Lists, v: nat, pool: set<Timer>)
    reads pool
  {
    InPool(ls, pool) && AllFit(ls, v, pool)
  }

  /** One list for each period, and none for 0. */
  ghost predicate Periods(ls: Lists) {
    && (forall l <- ls :: 0 < l.key)
    && (forall l <- ls, m <- ls :: l.key == m.key ==> l == m)
  }

  ghost predicate NoneEmpty(ls: Lists) { forall l <- ls :: ls[l] != [] }

  // ---------- lists as values ----------

  lemma {:induction false} RemovedFacts(ts: seq<Timer>, t: Timer)
    ensures forall x {:trigger x in Removed(ts, t)} :: x in Removed(ts, t) <==> x in ts && x != t
  {
    if ts != [] { RemovedFacts(ts[1..], t); }
  }

  lemma {:induction false} RemovedFits(l: RbNode, ts: seq<Timer>, t: Timer, v: nat)
    requires ListFits(l, ts, v)
    ensures ListFits(l, Removed(ts, t), v)
  {
    hide Removed, ListFits;
    RemovedFirst(ts, t);
    if ts != [] {
      var rest := ts[1..];
      RestFits(l, ts, v);
      RemovedFits(l, rest, t, v);
      forall i | 0 <= i < |Removed(rest, t)| ensures ts[0].version < Removed(rest, t)[i].version {
        RemovedLater(rest, t, i, ts[0].version);
      }
      FirstFits(l, ts[0], Removed(rest, t), v);
    }
  }

  lemma RemovedFirst(ts: seq<Timer>, t: Timer)
    ensures Removed(ts, t)
      == if ts == [] then [] else if ts[0] == t then Removed(ts[1..], t) else [ts[0]] + Removed(ts[1..], t)
  {
    hide ListFits;
    if ts != [] { assert [] + Removed(ts[1..], t) == Removed(ts[1..], t); }
  }

  lemma RestFits(l: RbNode, ts: seq<Timer>, v: nat)
    requires ListFits(l, ts, v) && ts != []
    ensures ListFits(l, ts[1..], v) && ts[0].list == l && ts[0].version <= v
    ensures forall i | 0 <= i < |ts[1..]| :: ts[0].version < ts[1..][i].version
  {
  }

  lemma FirstFits(l: RbNode, t: Timer, ts: seq<Timer>, v: nat)
    requires ListFits(l, ts, v) && t.list == l && t.version <= v
    requires forall i | 0 <= i < |ts| :: t.version < ts[i].version
    ensures ListFits(l, [t] + ts, v)
  {
  }

  lemma {:induction false} RemovedLater(ts: seq<Timer>, t: Timer, i: nat, v: nat)
    requires i < |Removed(ts, t)| && forall k | 0 <= k < |ts| :: v < ts[k].version
    ensures v < Removed(ts, t)[i].version
  {
    if ts[0] == t {
      RemovedLater(ts[1..], t, i, v);
    } else if i > 0 {
      RemovedLater(ts[1..], t, i - 1, v);
    }
  }

  /** At the place of the timer, the list falls into what comes before and after it. */
  lemma {:induction false} RemovedAt(ts: seq<Timer>, i: nat)
    requires i < |ts| && forall j, k | 0 <= j < k < |ts| :: ts[j] != ts[k]
    ensures Removed(ts, ts[i]) == ts[..i] + ts[i + 1..]
  {
    if i == 0 {
      RemovedNone(ts[1..], ts[0]);
    } else {
      RemovedAt(ts[1..], i - 1);
      assert ts[..i] + ts[i + 1..] == [ts[0]] + (ts[1..][..i - 1] + ts[1..][i..]);
    }
  }

  lemma {:induction false} RemovedNone(ts: seq<Timer>, t: Timer)
    requires t !in ts
    ensures Removed(ts, t) == ts
  {
    if ts != [] { RemovedNone(ts[1..], t); }
  }

  /** Issue times do not decrease along a list, and none is after `clock`. */
  ghost predicate ListAged(ts: seq<Timer>, clock: nat)
    reads ts
  {
    && (forall i | 0 <= i < |ts| :: ts[i].issued <= clock)
    && (forall i, j | 0 <= i < j < |ts| :: ts[i].issued <= ts[j].issued)
  }

  ghost predicate Aged(ls: Lists, clock: nat, pool: set<Timer>)
    reads pool
  {
    InPool(ls, pool) && forall l <- ls :: ListAged(ls[l], clock)
  }

  /** A timer that says it is in a list is in it. */
  ghost predicate Known(ls: Lists, pool: set<Timer>)
    reads pool
  {
    forall t <- pool | t.list != null :: t.list in ls && t in ls[t.list]
  }

  ghost predicate Nowhere(ls: Lists, t: Timer) { forall l <- ls :: t !in ls[l] }

  lemma {:induction false} RemovedAged(ts: seq<Timer>, t: Timer, clock: nat)
    requires ListAged(ts, clock)
    ensures ListAged(Removed(ts, t), clock)
  {
    if ts != [] {
      RemovedAged(ts[1..], t, clock);
      forall i | 0 <= i < |Removed(ts[1..], t)| ensures ts[0].issued <= Removed(ts[1..], t)[i].issued {
        RemovedNotBefore(ts[1..], t, i, ts[0].issued);
      }
    }
  }

  lemma {:induction false} RemovedNotBefore(ts: seq<Timer>, t: Timer, i: nat, v: nat)
    requires i < |Removed(ts, t)| && forall k | 0 <= k < |ts| :: v <= ts[k].issued
    ensures v <= Removed(ts, t)[i].issued
  {
    if ts[0] == t {
      RemovedNotBefore(ts[1..], t, i, v);
    } else if i > 0 {
      RemovedNotBefore(ts[1..], t, i - 1, v);
    }
  }

  ghost predicate KnownBut(ls: Lists, pool: set<Timer>, but: Timer)
    reads pool
  {
    forall t <- pool | t != but && t.list != null :: t.list in ls && t in ls[t.list]
  }

  /** The lists once a timer has left the list it was in; an emptied list may be kept. */
  ghost function Parted(ls: Lists, l: RbNode?, t: Timer, keep: bool): Lists {
    if l == null || l !in ls then ls
    else if Removed(ls[l], t) == [] && !keep then ls - {l}
    else ls[l := Removed(ls[l], t)]
  }

  ghost function Joined(ls: Lists, l: RbNode, t: Timer): Lists {
    ls[l := (if l in ls then ls[l] else []) + [t]]
  }

  lemma PartedRuns(ls: Lists, l: RbNode?, t: Timer, keep: bool)
    requires forall m <- ls :: t in ls[m] ==> m == l
    ensures var r := Parted(ls, l, t, keep);
      && Nowhere(r, t) && (forall x, p :: Runs(r, x, p) <==> x != t && Runs(ls, x, p))
      && (l == null ==> r == ls)
      && (Periods(ls) ==> Periods(r))
      && (NoneEmpty(ls) && !keep ==> NoneEmpty(r))
  {
    var r := Parted(ls, l, t, keep);
    if l != null && l in ls { RemovedFacts(ls[l], t); }
    forall x, p ensures Runs(r, x, p) <==> x != t && Runs(ls, x, p) {
      if Runs(r, x, p) {
        var m :| m in r && x in r[m] && m.key == p;
        assert x in ls[m];
      }
      if x != t && Runs(ls, x, p) {
        var m :| m in ls && x in ls[m] && m.key == p;
        if m == l { assert x in Removed(ls[l], t); }
        assert x in r[m];
      }
    }
  }

  lemma JoinedRuns(ls: Lists, l: RbNode, t: Timer)
    ensures var r := Joined(ls, l, t);
      && (forall x, p :: Runs(r, x, p) <==> Runs(ls, x, p) || (x == t && p == l.key))
      && ((forall m <- ls | m != l :: ls[m] != []) ==> NoneEmpty(r))
  {
    var r := Joined(ls, l, t);
    forall x, p ensures Runs(r, x, p) <==> Runs(ls, x, p) || (x == t && p == l.key) {
      if Runs(r, x, p) {
        var m :| m in r && x in r[m] && m.key == p;
        if m in ls && x in ls[m] { assert Runs(ls, x, p); }
      }
      if Runs(ls, x, p) {
        var m :| m in ls && x in ls[m] && m.key == p;
        assert x in r[m];
      }
      if x == t && p == l.key { assert t in r[l]; }
    }
  }

  lemma NoneEmptyBut(ls: Lists, l: RbNode)
    ensures NoneEmpty(ls) ==> forall m <- ls | m != l :: ls[m] != []
  {
  }

  lemma JoinedNew(ls: Lists, l: RbNode, t: Timer)
    requires l !in ls
    ensures Joined(ls[l := []], l, t) == Joined(ls, l, t)
  {
    assert ls[l := []][l := [t]] == ls[l := [t]];
  }

  lemma ResetRuns(ls: Lists, l: RbNode, t: Timer)
    requires l in ls && forall m <- ls :: t in ls[m] ==> m == l
    ensures var r := Joined(Parted(ls, l, t, true), l, t);
      && (forall x, p :: Runs(r, x, p) <==> if x == t then p == l.key else Runs(ls, x, p))
      && (NoneEmpty(ls) ==> NoneEmpty(r))
  {
    PartedRuns(ls, l, t, true);
    JoinedRuns(Parted(ls, l, t, true), l, t);
    hide Runs, Removed, Nowhere, Joined;
  }

  lemma Extended(ts: seq<Timer>, rest: seq<Timer>, t: Timer, v: nat)
    requires Extends(ts, rest, v) && v < t.version
    ensures Extends(ts + [t], rest, v)
  {
  }

  lemma Cut(before: Lists, after: Lists, l: RbNode, was: Lists, cut: map<RbNode, nat>, v: nat, pool: set<Timer>)
    requires Since(was, cut, before, v, pool) && l in was && l in before && cut[l] < |was[l]| && before[l] != []
    requires after == before[l := before[l][1..]]
    ensures Since(was, cut[l := cut[l] + 1], after, v, pool)
  {
    hide Extends;
    var next := cut[l := cut[l] + 1];
    forall m <- after ensures Extends(after[m], if m in was then was[m][next[m]..] else [], v) {
      assert Extends(before[m], if m in was then was[m][cut[m]..] else [], v);
      if m == l { ExtendsRest(before[l], was[l][cut[l]..], v); }
    }
  }

  lemma ExtendsRest(ts: seq<Timer>, rest: seq<Timer>, v: nat)
    requires Extends(ts, rest, v) && rest != []
    ensures ts != [] && Extends(ts[1..], rest[1..], v)
  {
  }

  /** A list when processing begins. */
  lemma WholeList(l: RbNode, ts: seq<Timer>, v: nat)
    requires ListFits(l, ts, v)
    ensures Extends(ts, ts[0..], v) && (forall t <- ts :: t.list == l)
      && forall i, j | 0 <= i < j < |ts| :: ts[i] != ts[j]
  {
    assert ts[0..] == ts;
  }

  lemma SinceJoined(ls: Lists, l: RbNode, t: Timer, was: Lists, cut: map<RbNode, nat>, v: nat, pool: set<Timer>)
    requires InPool(ls, pool) && cut.Keys == was.Keys && t in pool && v < t.version
    requires forall m <- was :: cut[m] <= |was[m]| && (m !in ls ==> cut[m] == |was[m]|)
    requires forall m <- ls :: Extends(ls[m], if m in was then was[m][cut[m]..] else [], v)
    ensures Since(was, cut, Joined(ls, l, t), v, pool)
  {
    hide Extends;
    var r := Joined(ls, l, t);
    forall m <- r ensures Extends(r[m], if m in was then was[m][cut[m]..] else [], v) {
      if m in ls {
        if m == l { Extended(ls[m], if m in was then was[m][cut[m]..] else [], t, v); }
      } else {
        assert m in was ==> was[m][cut[m]..] == [];
        NewExtends(t, v);
      }
    }
  }

  lemma NewExtends(t: Timer, v: nat)
    requires v < t.version
    ensures Extends([] + [t], [], v)
  {
  }

  lemma FitsLater(l: RbNode, ts: seq<Timer>, v: nat)
    requires ListFits(l, ts, v)
    ensures ListFits(l, ts, v + 1) && forall i | 0 <= i < |ts| :: ts[i].version < v + 1
  {
  }

  lemma AddedFits(l: RbNode, ts: seq<Timer>, t: Timer, v: nat)
    requires ListFits(l, ts, v) && (forall i | 0 <= i < |ts| :: ts[i].version < v) && t.list == l && t.version == v
    ensures ListFits(l, ts + [t], v)
  {
  }

  lemma AddedAged(ts: seq<Timer>, t: Timer, now: nat)
    requires ListAged(ts, now) && t.issued == now
    ensures ListAged(ts + [t], now)
  {
  }

  /** `n` timers of the list `l` are gone, too. */
  function CutTo(cut: map<RbNode, nat>, l: RbNode, n: nat): map<RbNode, nat> {
    if l in cut then cut[l := n] else cut
  }

  lemma CutToNone(cut: map<RbNode, nat>, l: RbNode)
    requires l in cut ==> cut[l] == 0
    ensures CutTo(cut, l, 0) == cut
    ensures forall n :: CutTo(cut, l, n).Keys == cut.Keys && (l in cut ==> CutTo(cut, l, n)[l] == n)
  {
  }

  lemma DueNext(was: Lists, cut: map<RbNode, nat>, before: map<Timer, Before>, kind: Kind, value: nat, l: RbNode,
                n: nat)
    requires Due(was, CutTo(cut, l, n), before, kind, value) && l in was && l in cut && n < |was[l]|
    requires was[l][n] in before && Elapsed(kind, value, before[was[l][n]].issued, l.key)
    ensures Due(was, CutTo(cut, l, n + 1), before, kind, value)
  {
    hide Elapsed;
    var a, b := CutTo(cut, l, n), CutTo(cut, l, n + 1);
    forall m <- was, i: nat | i < b[m] && i < |was[m]|
      ensures was[m][i] in before && Elapsed(kind, value, before[was[m][i]].issued, m.key)
    {
      if !(m == l && i == n) { assert i < a[m]; }
    }
  }

  lemma CutToNext(cut: map<RbNode, nat>, l: RbNode, n: nat)
    requires l in cut
    ensures var at := CutTo(cut, l, n);
      at.Keys == cut.Keys && at[l] == n && at[l := at[l] + 1] == CutTo(cut, l, n + 1)
  {
  }

  /** The first `n` timers of a list. */
  ghost function Taken(was: Lists, l: RbNode, n: nat): seq<Timer> {
    if l in was && n <= |was[l]| then was[l][..n] else []
  }

  lemma NoneTaken(was: Lists, l: RbNode, order: seq<Timer>)
    ensures order + Taken(was, l, 0) == order
  {
  }

  lemma TakenNext(was: Lists, l: RbNode, n: nat, order: seq<Timer>)
    requires l in was && n < |was[l]|
    ensures order + Taken(was, l, n + 1) == order + Taken(was, l, n) + [was[l][n]]
  {
  }

  /** The timers that have fired, one after another: list by list, as the walk goes. */
  ghost function InTurn(was: Lists, cut: map<RbNode, nat>, walk: seq<RbNode>): seq<Timer> {
    if walk == [] then [] else
      var l := walk[|walk| - 1];
      InTurn(was, cut, walk[..|walk| - 1]) + Taken(was, l, if l in cut then cut[l] else 0)
  }

  /** What one more timer of a list adds to those that have fired. */
  lemma NextOne(l: RbNode, n: nat, timer: Timer, kind: Kind, value: nat, script: seq<seq<Request>>, was: Lists,
                cut: map<RbNode, nat>, before: map<Timer, Before>, s: State, order: seq<Timer>)
    returns (more: nat)
    requires l in was && l in cut && n < |was[l]| && timer == was[l][n]
    requires timer in before && Elapsed(kind, value, before[timer].issued, l.key)
    requires Due(was, CutTo(cut, l, n), before, kind, value)
    ensures more == n + 1 && Due(was, CutTo(cut, l, more), before, kind, value)
    ensures var at, gone := CutTo(cut, l, n), order + Taken(was, l, n);
      && at.Keys == cut.Keys && at[l] == n && at[l := at[l] + 1] == CutTo(cut, l, more)
      && FireAll(s, order + Taken(was, l, more), script)
        == AskAll(FireOne(FireAll(s, gone, script), timer), Nth(script, |gone|))
      && |gone| == |order| + n
  {
    hide Due, Elapsed, FireAll, AskAll, FireOne;
    more := n + 1;
    CutToNext(cut, l, n);
    FiredLast(s, order + Taken(was, l, n), timer, script);
    DueNext(was, cut, before, kind, value, l, n);
    TakenNext(was, l, n, order);
  }

  lemma {:induction false} InTurnSame(was: Lists, cut: map<RbNode, nat>, walk: seq<RbNode>, l: RbNode, n: nat)
    requires l !in walk
    ensures InTurn(was, CutTo(cut, l, n), walk) == InTurn(was, cut, walk)
  {
    if walk != [] { InTurnSame(was, cut, walk[..|walk| - 1], l, n); }
  }

  lemma {:induction false} InTurnOf(was: Lists, cut: map<RbNode, nat>, walk: seq<RbNode>, t: Timer)
    requires t in InTurn(was, cut, walk)
    ensures exists l :: l in walk && l in was && t in was[l]
  {
    var k := |walk| - 1;
    if t in InTurn(was, cut, walk[..k]) {
      InTurnOf(was, cut, walk[..k], t);
      var l :| l in walk[..k] && l in was && t in was[l];
      assert l in walk;
    } else {
      assert t in Taken(was, walk[k], if walk[k] in cut then cut[walk[k]] else 0);
    }
  }

  lemma {:induction false} InTurnOnce(was: Lists, cut: map<RbNode, nat>, walk: seq<RbNode>)
    requires NoTwice(was) && Apart(was) && Climbing(walk)
    ensures forall i, j | 0 <= i < j < |InTurn(was, cut, walk)| ::
      InTurn(was, cut, walk)[i] != InTurn(was, cut, walk)[j]
  {
    if walk != [] {
      var k := |walk| - 1;
      var a, b := InTurn(was, cut, walk[..k]), Taken(was, walk[k], if walk[k] in cut then cut[walk[k]] else 0);
      InTurnOnce(was, cut, walk[..k]);
      assert InTurn(was, cut, walk) == a + b;
      forall i, j | 0 <= i < |a| && 0 <= j < |b| ensures a[i] != b[j] {
        InTurnOf(was, cut, walk[..k], a[i]);
        var l :| l in walk[..k] && l in was && a[i] in was[l];
        assert b[j] in was[walk[k]];
      }
    }
  }

  lemma InTurnSet(was: Lists, cut: map<RbNode, nat>, walk: seq<RbNode>, s: State)
    requires forall l <- was, t <- was[l] :: t in s.timers && s.timers[t].period == Some(l.key)
    ensures forall t <- InTurn(was, cut, walk) :: t in s.timers && s.timers[t].period.Some?
  {
    forall t <- InTurn(was, cut, walk) ensures t in s.timers && s.timers[t].period.Some? {
      InTurnOf(was, cut, walk, t);
      var l :| l in walk && l in was && t in was[l];
    }
  }

  lemma InTurnNext(was: Lists, cut: map<RbNode, nat>, walk: seq<RbNode>, l: RbNode, n: nat)
    requires l !in walk && cut.Keys == was.Keys
    ensures InTurn(was, CutTo(cut, l, n), walk + [l]) == InTurn(was, cut, walk) + Taken(was, l, n)
  {
    InTurnSame(was, cut, walk, l, n);
    assert (walk + [l])[..|walk|] == walk;
  }

  /** The timers that have fired. */
  ghost function Fired(was: Lists, cut: map<RbNode, nat>): set<Timer> {
    set l, i: nat | l in was && l in cut && i < cut[l] && i < |was[l]| :: was[l][i]
  }

  lemma FiredGrows(was: Lists, cut: map<RbNode, nat>, l: RbNode)
    requires l in was && l in cut && cut[l] < |was[l]|
    ensures Fired(was, cut) <= Fired(was, cut[l := cut[l] + 1]) && was[l][cut[l]] in Fired(was, cut[l := cut[l] + 1])
  {
    var next := cut[l := cut[l] + 1];
    forall t <- Fired(was, cut) ensures t in Fired(was, next) {
      var m, i: nat :| m in was && m in cut && i < cut[m] && i < |was[m]| && was[m][i] == t;
      assert i < next[m];
    }
  }

  /** Lists that were not visited have lost no timer; in a list that was, the first timer left,
      if there is one, has not elapsed. */
  ghost predicate GoneThrough(was: Lists, cut: map<RbNode, nat>, before: map<Timer, Before>, kind: Kind, value: nat,
                              visited: set<RbNode>) {
    && cut.Keys == was.Keys
    && forall l <- was :: if l in visited then
        cut[l] < |was[l]| ==> was[l][cut[l]] in before && !Elapsed(kind, value, before[was[l][cut[l]]].issued, l.key)
      else cut[l] == 0
  }

  /** From its `i`th list the walk goes on, by the shape that the tree had then. */
  ghost predicate GoesOn(walk: seq<RbNode>, shapes: seq<Tree>, next: RbNode?, i: nat)
    requires i < |walk| == |shapes|
  {
    walk[i] in Nodes(shapes[i]) && Onward(shapes[i], walk[i]) == (if i + 1 < |walk| then walk[i + 1] else next)
  }

  /** The lists visited, one after another; where the walk goes on is looked up before a list is
      gone through. */
  ghost predicate Walked(first: RbNode?, walk: seq<RbNode>, shapes: seq<Tree>, next: RbNode?) {
    && |walk| == |shapes| && (if walk == [] then next else walk[0]) == first
    && forall i: nat | i < |walk| :: GoesOn(walk, shapes, next, i)
  }

  lemma WalkedOn(first: RbNode?, walk: seq<RbNode>, shapes: seq<Tree>, l: RbNode, shape: Tree)
    requires Walked(first, walk, shapes, l) && l in Nodes(shape)
    ensures Walked(first, walk + [l], shapes + [shape], Onward(shape, l))
  {
    hide Nodes, Onward;
    var w, s, next := walk + [l], shapes + [shape], Onward(shape, l);
    forall i: nat | i < |w| ensures GoesOn(w, s, next, i) {
      assert i < |walk| ==> GoesOn(walk, shapes, l, i);
    }
  }

  /** While the tree stays as it is, the lists visited are those of its walk. */
  lemma SameShapes(t: Tree, walk: seq<RbNode>, shapes: seq<Tree>)
    requires RbShape.Distinct(t) && Ghosts(t) == {}
    requires Walked(Head(t), walk, shapes, null) && forall i | 0 <= i < |shapes| :: shapes[i] == t
    ensures walk == W.WalkOf(t)
  {
    hide Onward, Head, Nodes, RbShape.Distinct;
    forall i: nat | i < |walk| ensures W.GoesOn(t, walk, null, i) { assert GoesOn(walk, shapes, null, i); }
    W.WalkUnique(t, walk);
  }

  /** The lists are visited by their periods. */
  ghost predicate Climbing(walk: seq<RbNode>) { forall i, j | 0 <= i < j < |walk| :: walk[i].key < walk[j].key }

  ghost function Visited(walk: seq<RbNode>): set<RbNode> { set l | l in walk }

  lemma NotVisited(walk: seq<RbNode>, l: RbNode)
    requires forall m <- Visited(walk) :: m.key < l.key
    ensures l !in walk
  {
    assert l in walk ==> l in Visited(walk);
  }

  lemma VisitedOne(walk: seq<RbNode>, l: RbNode)
    ensures Visited(walk + [l]) == Visited(walk) + {l}
    ensures Climbing(walk) && (forall m <- Visited(walk) :: m.key < l.key) ==> Climbing(walk + [l])
    ensures Climbing([])
  {
  }

  /** In the lists visited, no timer that has elapsed is left from before. */
  ghost predicate NoneLeftBehind(was: Lists, cut: map<RbNode, nat>, before: map<Timer, Before>, kind: Kind, value: nat,
                                 visited: set<RbNode>) {
    cut.Keys == was.Keys && forall l <- was, i: nat | l in visited && cut[l] <= i < |was[l]| ::
      was[l][i] in before && !Elapsed(kind, value, before[was[l][i]].issued, l.key)
  }

  /** The lists from `l` on, by their periods. */
  ghost function Ahead(ls: Lists, l: RbNode?): set<RbNode> {
    if l == null then {} else set o | o in ls && o.key >= l.key
  }

  ghost predicate Apart(was: Lists) { forall l <- was, m <- was, t | t in was[l] && t in was[m] :: l == m }

  /** Whether a timer has elapsed, by the source's unsigned arithmetic: `value` is the time for
      sleeping timers, and how long the loop was idle for the others. */
  predicate Elapsed(kind: Kind, value: nat, issued: nat, period: int) {
    if kind.Sleep? then (value - issued) % TWO64 >= period else value >= period
  }

  /** What that arithmetic means: a sleeping timer has elapsed when its period has gone by since it
      was set; if the clock has run back by `d` since then, when the period is 2^64 - d at most. */
  lemma ElapsedExactly(value: nat, issued: nat, period: int)
    requires value < TWO64 && issued < TWO64
    ensures Elapsed(Sleep, value, issued, period)
      <==> if issued <= value then issued + period <= value else period <= TWO64 - (issued - value)
    ensures forall kind: Kind | !kind.Sleep? :: Elapsed(kind, value, issued, period) <==> period <= value
  {
    if issued <= value {
      assert (value - issued) % TWO64 == value - issued;
    } else {
      assert (value - issued) % TWO64 == value - issued + TWO64;
    }
  }

  /** The lists `ls` come from `was`: from each list the first `cut` timers are gone, and timers
      of later versions than `v` may have been added; a list that is gone had no timer left. */
  ghost predicate Since(was: Lists, cut: map<RbNode, nat>, ls: Lists, v: nat, pool: set<Timer>)
    reads pool
  {
    && InPool(ls, pool) && cut.Keys == was.Keys
    && (forall l <- was :: cut[l] <= |was[l]| && (l !in ls ==> cut[l] == |was[l]|))
    && (forall l <- ls :: Extends(ls[l], if l in was then was[l][cut[l]..] else [], v))
  }

  /** What a timer was when processing began. */
  datatype Before = Before(issued: nat, elapsed: bool)

  ghost predicate NoTwice(was: Lists) { forall l <- was, i, j | 0 <= i < j < |was[l]| :: was[l][i] != was[l][j] }

  /** The timers that have not fired are as they were. */
  ghost predicate Standing(was: Lists, cut: map<RbNode, nat>, before: map<Timer, Before>, pool: set<Timer>)
    reads pool
  {
    cut.Keys == was.Keys && forall l <- was, i: nat | cut[l] <= i < |was[l]| :: var t := was[l][i];
      t in pool && t.list == l && t in before && t.issued == before[t].issued
  }

  /** The timers that have fired are marked, and no others. */
  ghost predicate Flagged(was: Lists, cut: map<RbNode, nat>, before: map<Timer, Before>, pool: set<Timer>)
    reads pool
  {
    && cut.Keys == was.Keys
    && (forall l <- was, i: nat | i < cut[l] && i < |was[l]| :: was[l][i] in pool && was[l][i].elapsed)
    && (forall t <- before | t !in Fired(was, cut) :: t in pool && t.elapsed == before[t].elapsed)
  }

  /** The timers that have fired had elapsed. */
  ghost predicate Due(was: Lists, cut: map<RbNode, nat>, before: map<Timer, Before>, kind: Kind, value: nat) {
    cut.Keys == was.Keys && forall l <- was, i: nat | i < cut[l] && i < |was[l]| ::
      was[l][i] in before && Elapsed(kind, value, before[was[l][i]].issued, l.key)
  }

  ghost predicate Extends(ts: seq<Timer>, rest: seq<Timer>, v: nat)
    reads ts
  {
    && rest <= ts && (forall i | 0 <= i < |rest| :: ts[i].version <= v)
    && (forall i | |rest| <= i < |ts| :: v < ts[i].version)
  }

  class Timers {
    const tree: T.RbTree
    var version: nat
    var processing: bool
    var lists: Lists
    ghost var pool: set<Timer>  // the timers ever set

    /** The tree holds one list for each period. */
    ghost predicate TreeOk()
      reads this, tree, Nodes(tree.shape)
    {
      tree.Valid() && lists.Keys == Nodes(tree.shape) && Periods(lists)
    }

    /** What holds also while timers are processed, when lists may be empty. */
    ghost predicate Ok()
      reads this, tree, Nodes(tree.shape), pool
    {
      TreeOk() && Fitting(lists, version, pool) && Known(lists, pool)
    }

    ghost predicate Valid()
      reads this, tree, Nodes(tree.shape), pool
    {
      Ok() && !processing && NoneEmpty(lists)
    }

    constructor ()
      ensures Valid() && lists == map[] && pool == {} && fresh(tree)
    {
      tree := new T.RbTree();
      version, processing, lists, pool := 0, false, map[], {};
      new;
      InOrderNodes(tree.shape);
      assert Nodes(tree.shape) == {};
    }

    /** api_timer_add: to the tail of the list, with the next version. */
    method Add(l: RbNode, timer: Timer, kind: Kind, now: nat)
      requires l in lists && timer in pool && Nowhere(lists, timer) && Fitting(lists, version, pool)
      modifies this`version, this`lists, timer
      ensures version == old(version) + 1 && timer.version == version && timer.list == l
        && timer.elapsed == old(timer.elapsed)
      ensures timer.issued == if kind.Idle? then old(timer.issued) else now
      ensures lists == old(lists)[l := old(lists[l]) + [timer]]
      ensures Fitting(lists, version, pool)
      ensures old(Aged(lists, now, pool)) && !kind.Idle? ==> Aged(lists, now, pool)
    {
      hide ListFits, ListAged;
      ghost var was := lists;
      timer.list := l;
      if kind.Sleep? || kind.Timeout? { timer.issued := now; }
      version := version + 1;
      timer.version := version;
      lists := lists[l := lists[l] + [timer]];
      forall m <- lists ensures ListFits(m, lists[m], version) {
        assert old(ListFits(m, was[m], version));
        assert ListFits(m, was[m], version - 1);
        FitsLater(m, was[m], version - 1);
        if m == l { AddedFits(l, was[l], timer, version); }
      }
      if old(Aged(was, now, pool)) && !kind.Idle? {
        forall m <- lists ensures ListAged(lists[m], now) {
          assert old(ListAged(was[m], now));
          if m == l { AddedAged(was[l], timer, now); }
        }
      }
    }

    /** The timer leaves its list, but still points to it. */
    method Drop(timer: Timer)
      requires Ok() && timer in pool && timer.list != null
      modifies this`lists
      ensures timer.list in old(lists) && lists == old(lists)[timer.list := Removed(old(lists)[timer.list], timer)]
      ensures Loose(timer)
      ensures forall now: nat :: old(Aged(lists, now, pool)) ==> Aged(lists, now, pool)
    {
      hide ListFits, ListAged, InOrder, Nodes, Holds, RedBlack, Sorted, Ghosts;
      ghost var was := lists;
      var l := timer.list;
      lists := lists[l := Removed(lists[l], timer)];
      RemovedFacts(was[l], timer);
      assert ListFits(l, was[l], version);
      RemovedFits(l, was[l], timer, version);
      InOneList(was, timer, version, pool);
      forall now: nat | old(Aged(was, now, pool)) ensures Aged(lists, now, pool) {
        assert ListAged(was[l], now);
        RemovedAged(was[l], timer, now);
      }
    }

    /** An empty list leaves the tree. */
    method DropList(l: RbNode)
      requires TreeOk() && l in lists
      modifies this`lists, tree, Nodes(tree.shape)
      ensures TreeOk() && lists == old(lists) - {l} && Nodes(tree.shape) <= old(Nodes(tree.shape))
    {
      hide InOrder, Nodes, Holds, RedBlack, Sorted, Ghosts, T.Without;
      tree.Remove(l);
      lists := lists - {l};
    }

    /** The list of a period, created when there is none. */
    method FindList(value: nat) returns (l: RbNode)
      requires TreeOk() && value > 0
      modifies this`lists, tree, Nodes(tree.shape)
      ensures TreeOk() && l in lists && l.key == value
      ensures if l in old(lists) then lists == old(lists) else fresh(l) && lists == old(lists)[l := []]
    {
      hide InOrder, Nodes, Holds, RedBlack, Sorted, Ghosts;
      var probe := new RbNode(value);
      var found, steps := tree.Search(probe);
      InOrderNodes(tree.shape);
      if found != null { return found; }
      l := new RbNode(value);
      ghost var before, after := tree.Insert(l);
      lists := lists[l := []];
    }

    /** The timer is in no list, though it may still point to one; all else is in order. */
    ghost predicate Loose(timer: Timer)
      reads this, tree, Nodes(tree.shape), pool
    {
      TreeOk() && Fitting(lists, version, pool) && KnownBut(lists, pool, timer) && Nowhere(lists, timer)
    }

    /** The timer leaves its list, and the list, if it is empty then, leaves the tree. */
    method Leave(timer: Timer)
      requires Loose(timer) && timer.list != null && timer.list in lists
      modifies this`lists, tree, Nodes(tree.shape), timer
      ensures Nodes(tree.shape) <= old(Nodes(tree.shape))
      ensures Loose(timer) && timer.list == null && timer.issued == old(timer.issued)
        && timer.version == old(timer.version) && timer.elapsed == old(timer.elapsed)
      ensures lists == if old(lists)[old(timer.list)] == [] && !processing then old(lists) - {old(timer.list)}
        else old(lists)
      ensures forall now: nat :: old(Aged(lists, now, pool)) ==> Aged(lists, now, pool)
    {
      hide ListAged, ListFits, InOrder, Nodes, Holds, RedBlack, Sorted, Ghosts;
      var l := timer.list;
      ghost var was := lists;
      if lists[l] == [] && !processing {
        DropList(l);
        assert Fitting(was, version, pool) && KnownBut(was, pool, timer);
        EmptyGone(was, l, version, pool, timer);
      }
      timer.list := null;
      assert old(Fitting(lists, version, pool));
    }

    /** The list of a period, for a timer that is in none. */
    method ListFor(timer: Timer, value: nat, ghost now: nat) returns (l: RbNode)
      requires Loose(timer) && value > 0
      modifies this`lists, tree, Nodes(tree.shape)
      ensures Loose(timer) && l in lists && l.key == value
      ensures if l in old(lists) then lists == old(lists) else fresh(l) && lists == old(lists)[l := []]
      ensures old(Aged(lists, now, pool)) ==> Aged(lists, now, pool)
    {
      hide ListFits, ListAged, InOrder, Nodes, Holds, RedBlack, Sorted, Ghosts;
      ghost var was := lists;
      l := FindList(value);
      assert Fitting(was, version, pool) && KnownBut(was, pool, timer);
      assert old(Aged(lists, now, pool)) ==> Aged(was, now, pool);
      if l !in was {
        EmptyAdded(was, l, version, pool, timer);
        if Aged(was, now, pool) { EmptyAged(was, l, now, pool); }
      }
    }

    /** To the tail of a list, for a timer that is in none. */
    method Append(l: RbNode, timer: Timer, kind: Kind, now: nat)
      requires Loose(timer) && l in lists && timer in pool
      modifies this`version, this`lists, timer
      ensures Ok() && lists == Joined(old(lists), l, timer)
      ensures version == old(version) + 1 && timer.version == version && timer.list == l
        && timer.elapsed == old(timer.elapsed)
      ensures timer.issued == if kind.Idle? then old(timer.issued) else now
      ensures old(Aged(lists, now, pool)) && !kind.Idle? ==> Aged(lists, now, pool)
    {
      hide ListFits, ListAged, InOrder, Nodes, Holds, RedBlack, Sorted, Ghosts;
      Add(l, timer, kind, now);
    }

    ghost method Enrol(timer: Timer)
      requires Ok() && (timer in pool || timer.list == null)
      modifies this`pool
      ensures Ok() && pool == old(pool) + {timer}
      ensures timer.list == null ==> Loose(timer)
      ensures (timer.list != null ==> timer.list in lists) && forall m <- lists :: 0 < m.key
      ensures forall m <- lists :: timer in lists[m] ==> m == timer.list
      ensures forall now: nat :: old(Aged(lists, now, pool)) ==> Aged(lists, now, pool)
    {
      hide ListFits, ListAged, InOrder, Nodes, Holds, RedBlack, Sorted, Ghosts;
      InOneList(lists, timer, version, pool);
      pool := pool + {timer};
    }

    /** A timer that is set again with its period: from its place to the tail of its list. */
    method Reset(timer: Timer, kind: Kind, now: nat)
      requires Ok() && timer in pool && timer.list != null
      modifies this`lists, this`version, timer
      ensures Ok() && timer.list == old(timer.list) && timer.list in old(lists) && timer.elapsed == old(timer.elapsed)
      ensures lists == Joined(Parted(old(lists), timer.list, timer, true), timer.list, timer)
      ensures version == old(version) + 1 && timer.version == version
      ensures timer.issued == if kind.Idle? then old(timer.issued) else now
      ensures old(Aged(lists, now, pool)) && !kind.Idle? ==> Aged(lists, now, pool)
    {
      hide Fitting, KnownBut, Known, ListFits, ListAged, Aged, Periods, InOrder, Nodes, Holds, RedBlack, Sorted, Ghosts;
      Drop(timer);
      Append(timer.list, timer, kind, now);
    }

    /** A timer that is removed, or set with another period. */
    method Detach(timer: Timer)
      requires Ok() && timer in pool && timer.list != null
      modifies this`lists, tree, Nodes(tree.shape), timer
      ensures Loose(timer) && Ok() && timer.list == null && old(timer.list) in old(lists)
        && Nodes(tree.shape) <= old(Nodes(tree.shape))
      ensures lists == Parted(old(lists), old(timer.list), timer, processing)
      ensures timer.elapsed == old(timer.elapsed) && timer.issued == old(timer.issued)
      ensures forall now: nat :: old(Aged(lists, now, pool)) ==> Aged(lists, now, pool)
    {
      hide Fitting, ListFits, ListAged, Aged, Periods, InOrder, Nodes, Holds, RedBlack, Sorted, Ghosts;
      Drop(timer);
      Leave(timer);
    }

    /** api_timer_set: `now` is the clock's reading. */
    method Set(timer: Timer, kind: Kind, value: nat, now: nat) returns (ghost l: RbNode?)
      requires Ok() && (timer in pool || timer.list == null)
      modifies this`lists, this`version, this`pool, tree, Nodes(tree.shape), timer
      ensures Ok() && pool == old(pool) + {timer}
      ensures !processing && old(NoneEmpty(lists)) ==> NoneEmpty(lists)
      ensures forall x, p :: Runs(lists, x, p) <==>
        if x == timer then value != 0 && p == value else Runs(old(lists), x, p)
      ensures timer.elapsed == old(timer.elapsed)
      ensures value == 0 ==> version == old(version) && timer.list == null
      ensures value != 0 ==> version == old(version) + 1 && timer.version == version && timer.list != null
      ensures timer.list != null ==> timer.list.key == value
      ensures timer.issued == if value == 0 || kind.Idle? then old(timer.issued) else now
      ensures old(Aged(lists, now, pool)) && !kind.Idle? ==> Aged(lists, now, pool)
      ensures value != 0 && old(timer.list) == null ==>
        l != null && l.key == value && lists == Joined(old(lists), l, timer) && (l in old(lists) || fresh(l))
    {
      hide Fitting, Known, KnownBut, Loose, Ok, Parted, Joined, Runs, NoneEmpty, Nowhere, ListFits, ListAged, Aged,
        Periods, InOrder, Nodes, Holds, RedBlack, Sorted, Ghosts;
      Enrol(timer);
      ghost var was, from := lists, timer.list;
      l := null;
      if timer.list != null {
        if timer.list.key == value {
          l := timer.list;
          Reset(timer, kind, now);
          ResetRuns(was, from, timer);
          return;
        }
        Detach(timer);
      }
      PartedRuns(was, from, timer, processing);
      if value == 0 { return null; }
      ghost var left := lists;
      var list := ListFor(timer, value, now);
      Append(list, timer, kind, now);
      l := list;
      if list !in left { JoinedNew(left, list, timer); }
      PartedRuns(was, from, timer, processing);
      JoinedRuns(left, list, timer);
      NoneEmptyBut(left, list);
    }

    /** In the middle of api_timer_process: of the timers `was` that were set when it began, which were
        as in `before`, the first `cut` of each list have fired. */
    ghost predicate Mid(was: Lists, cut: map<RbNode, nat>, before: map<Timer, Before>, v: nat)
      reads this, tree, Nodes(tree.shape), pool
    {
      && Ok() && processing && v <= version && NoTwice(was)
      && Since(was, cut, lists, v, pool) && Standing(was, cut, before, pool) && Flagged(was, cut, before, pool)
    }

    lemma Unlisted(timer: Timer)
      requires Ok() && timer.list == null
      ensures forall m <- lists :: timer !in lists[m]
    {
      hide ListFits, Known, Periods, InOrder, Nodes, Holds, RedBlack, Sorted, Ghosts;
      InOneList(lists, timer, version, pool);
    }

    /** A timer that is not set is set, after those left from before. */
    method SetLater(r: Request, ghost was: Lists, ghost cut: map<RbNode, nat>, ghost v: nat)
      requires Ok() && processing && v <= version && r.timer.list == null && r.value > 0
        && Since(was, cut, lists, v, pool)
      modifies this`lists, this`version, this`pool, tree, Nodes(tree.shape), r.timer
      ensures Ok() && v <= version && pool == old(pool) + {r.timer} && Since(was, cut, lists, v, pool)
      ensures r.timer.elapsed == old(r.timer.elapsed) && version == old(version) + 1
      ensures ShownOf(r.timer)
        == Shown(Some(r.value), if r.kind.Idle? then old(r.timer.issued) else r.now, version)
      ensures forall m <- old(lists) :: m in lists && old(lists)[m] <= lists[m]
      ensures forall m <- lists | lists[m] == [] :: m in old(lists) && old(lists)[m] == []
      ensures forall m <- lists :: m in old(lists) || fresh(m)
    {
      hide Ok, Fitting, Runs, Nowhere, NoneEmpty, ListFits, ListAged, Known, Periods, Aged, Extends, InOrder, Nodes,
        Holds, RedBlack, Sorted, Ghosts;
      Unlisted(r.timer);
      ghost var ls := lists;
      ghost var l := Set(r.timer, r.kind, r.value, r.now);
      forall m <- ls ensures Extends(ls[m], if m in was then was[m][cut[m]..] else [], v) {
        assert old(Extends(ls[m], if m in was then was[m][cut[m]..] else [], v));
      }
      SinceJoined(ls, l, r.timer, was, cut, v, pool);
    }

    /** One timer that is not set is set. */
    method Register(r: Request, ghost was: Lists, ghost cut: map<RbNode, nat>, ghost before: map<Timer, Before>,
                    ghost v: nat)
      requires Mid(was, cut, before, v) && r.timer.list == null && r.value > 0
      modifies this`lists, this`version, this`pool, tree, Nodes(tree.shape), r.timer
      ensures Mid(was, cut, before, v) && pool == old(pool) + {r.timer} && version == old(version) + 1
      ensures ShownOf(r.timer)
        == Shown(Some(r.value), if r.kind.Idle? then old(r.timer.issued) else r.now, version)
      ensures forall o <- Nodes(tree.shape) :: o in old(Nodes(tree.shape)) || fresh(o)
      ensures forall m <- old(lists) :: m in lists && old(lists)[m] <= lists[m]
      ensures forall m <- lists | lists[m] == [] :: m in old(lists) && old(lists)[m] == []
    {
      hide Fired, Fitting, Known, Periods, Since, NoTwice, InOrder, Nodes, Holds, RedBlack, Sorted, Ghosts;
      SetLater(r, was, cut, v);
    }

    /** A task asks for a timer, which is set if it is not set yet. */
    method Grant(r: Request, ghost was: Lists, ghost cut: map<RbNode, nat>, ghost before: map<Timer, Before>,
                 ghost v: nat, ghost s: State, ghost all: set<Timer>)
      requires Mid(was, cut, before, v) && Shows(s, all, version, pool) && r.timer in all
      modifies this`lists, this`version, this`pool, tree, Nodes(tree.shape), r.timer
      ensures Mid(was, cut, before, v) && old(pool) <= pool <= old(pool) + {r.timer}
      ensures Shows(Ask(s, r), all, version, pool)
      ensures forall o <- Nodes(tree.shape) :: o in old(Nodes(tree.shape)) || fresh(o)
      ensures forall m <- old(lists) :: m in lists && old(lists)[m] <= lists[m]
      ensures forall m <- lists | lists[m] == [] :: m in old(lists) && old(lists)[m] == []
    {
      hide Mid, Ok, InOrder, Nodes, Holds, RedBlack, Sorted, Ghosts;
      if r.timer.list == null && r.value > 0 { Register(r, was, cut, before, v); }
    }

    /** A woken task: it sets timers that are not set. */
    method WakeUp(requests: seq<Request>, ghost was: Lists, ghost cut: map<RbNode, nat>,
                  ghost before: map<Timer, Before>, ghost v: nat, ghost s: State)
      requires Mid(was, cut, before, v) && Shows(s, s.timers.Keys, version, pool) && Asked(requests) <= s.timers.Keys
      modifies this`lists, this`version, this`pool, tree, Nodes(tree.shape), Asked(requests)
      ensures Mid(was, cut, before, v) && old(pool) <= pool <= old(pool) + Asked(requests)
      ensures Shows(AskAll(s, requests), s.timers.Keys, version, pool)
      ensures forall o <- Nodes(tree.shape) :: o in old(Nodes(tree.shape)) || fresh(o)
      ensures forall m <- old(lists) :: m in lists && old(lists)[m] <= lists[m]
      ensures forall m <- lists | lists[m] == [] :: m in old(lists) && old(lists)[m] == []
    {
      hide Mid, Ok, Shows, Ask, AskAll, InOrder, Nodes, Holds, RedBlack, Sorted, Ghosts;
      var i := 0;
      AskedNone(s);
      while i < |requests|
        invariant i <= |requests| && Mid(was, cut, before, v) && old(pool) <= pool <= old(pool) + Asked(requests)
        invariant Shows(AskAll(s, requests[..i]), s.timers.Keys, version, pool)
        invariant forall o <- Nodes(tree.shape) :: o in old(Nodes(tree.shape)) || fresh(o)
        invariant forall m <- old(lists) :: m in lists && old(lists)[m] <= lists[m]
        invariant forall m <- lists | lists[m] == [] :: m in old(lists) && old(lists)[m] == []
      {
        var r := requests[i];
        AskedOne(s, requests, i);
        Grant(r, was, cut, before, v, AskAll(s, requests[..i]), s.timers.Keys);
        i := i + 1;
      }
      assert requests[..i] == requests;
    }

    /** A timer that fires leaves its list, which may be empty then, and is marked. */
    method Release(timer: Timer)
      requires Ok() && timer in pool && timer.list != null
      modifies this`lists, timer
      ensures Ok() && timer.list == null && timer.elapsed && timer.issued == old(timer.issued)
        && timer.version == old(timer.version)
      ensures old(timer.list) in old(lists)
        && lists == old(lists)[old(timer.list) := Removed(old(lists)[old(timer.list)], timer)]
      ensures Nowhere(lists, timer)
    {
      hide ListAged, ListFits, InOrder, Nodes, Holds, RedBlack, Sorted, Ghosts;
      Drop(timer);
      timer.list := null;
      timer.elapsed := true;
      assert old(Fitting(lists, version, pool));
    }

    /** Where the timers of a list stand: first those left from before, then later ones. */
    lemma InList(l: RbNode, was: Lists, cut: map<RbNode, nat>, before: map<Timer, Before>, v: nat)
      requires Mid(was, cut, before, v) && l in lists
      ensures cut.Keys == was.Keys && InPool(lists, pool) && (l in was ==> cut[l] <= |was[l]|)
      ensures forall t <- lists[l] :: t in pool && t.list == l
      ensures forall i | 0 <= i < |lists[l]| :: lists[l][i].version <= v <==> l in was && cut[l] + i < |was[l]|
      ensures l in was && cut[l] < |was[l]| ==> lists[l] != [] && lists[l][0] == was[l][cut[l]]
      ensures l in was && cut[l] + 1 < |was[l]| ==> |lists[l]| > 1
    {
      hide Fired, Known, Periods, Aged, Standing, Flagged, NoTwice, InOrder, Nodes, Holds, RedBlack, Sorted, Ghosts;
      assert Extends(lists[l], if l in was then was[l][cut[l]..] else [], v);
      assert ListFits(l, lists[l], version);
    }

    /** The first of the timers left of a list is at its head, and nowhere else. */
    lemma FirstOf(l: RbNode, timer: Timer, was: Lists, cut: map<RbNode, nat>, before: map<Timer, Before>, v: nat)
      requires Mid(was, cut, before, v)
      requires l in was && l in lists && l in cut && cut[l] < |was[l]| && timer == was[l][cut[l]]
      ensures lists[l] != [] && lists[l][0] == timer && timer in pool && timer.list == l && timer in before
        && timer.issued == before[timer].issued
      ensures Removed(lists[l], timer) == lists[l][1..]
    {
      hide Fired, Known, Periods, Aged, Flagged, NoTwice, InOrder, Nodes, Holds, RedBlack, Sorted, Ghosts;
      assert Extends(lists[l], was[l][cut[l]..], v);
      assert was[l][cut[l]..][0] == timer;
      assert ListFits(l, lists[l], version);
      RemovedAt(lists[l], 0);
    }

    /** The first of the timers left of a list leaves it. */
    method ReleaseFirst(l: RbNode, timer: Timer, ghost was: Lists, ghost cut: map<RbNode, nat>,
                        ghost before: map<Timer, Before>, ghost v: nat)
      requires Mid(was, cut, before, v)
      requires l in was && l in lists && l in cut && cut[l] < |was[l]| && timer == was[l][cut[l]]
      modifies this`lists, timer
      ensures Mid(was, cut[l := cut[l] + 1], before, v)
      ensures lists == old(lists)[l := old(lists)[l][1..]]
      ensures ShownOf(timer) == old(ShownOf(timer)).(period := None)
    {
      hide Fired, ListFits, ListAged, Fitting, Known, Periods, Aged, Extends, InOrder, Nodes, Holds, RedBlack, Sorted,
        Ghosts;
      FirstOf(l, timer, was, cut, before, v);
      FiredGrows(was, cut, l);
      ghost var next := cut[l := cut[l] + 1];
      ghost var after := lists[l := lists[l][1..]];
      Cut(lists, after, l, was, cut, v, pool);
      Release(timer);
      forall m <- lists ensures Extends(lists[m], if m in was then was[m][next[m]..] else [], v) {
        assert old(Extends(after[m], if m in was then was[m][next[m]..] else [], v));
      }
    }

    method ReleaseShown(l: RbNode, timer: Timer, ghost was: Lists, ghost cut: map<RbNode, nat>,
                        ghost before: map<Timer, Before>, ghost v: nat, ghost s: State, ghost all: set<Timer>)
      requires Mid(was, cut, before, v) && Shows(s, all, version, pool) && timer in all
      requires l in was && l in lists && l in cut && cut[l] < |was[l]| && timer == was[l][cut[l]]
      modifies this`lists, timer
      ensures Mid(was, cut[l := cut[l] + 1], before, v) && Shows(FireOne(s, timer), all, version, pool)
      ensures lists == old(lists)[l := old(lists)[l][1..]]
    {
      hide Mid, Ok, InOrder, Nodes, Holds, RedBlack, Sorted, Ghosts;
      ReleaseFirst(l, timer, was, cut, before, v);
    }

    /** The first timer of a list fires. */
    method Fire(l: RbNode, timer: Timer, requests: seq<Request>, ghost was: Lists, ghost cut: map<RbNode, nat>,
                ghost before: map<Timer, Before>, ghost v: nat, ghost s: State)
      requires Mid(was, cut, before, v) && Shows(s, s.timers.Keys, version, pool)
        && Asked(requests) + {timer} <= s.timers.Keys
      requires l in was && l in lists && l in cut && cut[l] < |was[l]| && timer == was[l][cut[l]]
      modifies this`lists, this`version, this`pool, tree, Nodes(tree.shape), timer, Asked(requests)
      ensures Mid(was, cut[l := cut[l] + 1], before, v) && old(pool) <= pool <= old(pool) + Asked(requests)
      ensures Shows(AskAll(FireOne(s, timer), requests), s.timers.Keys, version, pool)
      ensures forall o <- Nodes(tree.shape) :: o in old(Nodes(tree.shape)) || fresh(o)
      ensures l in old(lists) && old(lists)[l] != []
      ensures forall m <- old(lists) :: m in lists && (if m == l then old(lists)[m][1..] else old(lists)[m]) <= lists[m]
      ensures forall m <- lists | m != l && lists[m] == [] :: m in old(lists) && old(lists)[m] == []
    {
      hide Mid, Ok, AskAll, Shows, InOrder, Nodes, Holds, RedBlack, Sorted, Ghosts;
      FirstOf(l, timer, was, cut, before, v);
      ReleaseShown(l, timer, was, cut, before, v, s, s.timers.Keys);
      assert FireOne(s, timer).timers.Keys == s.timers.Keys;
      WakeUp(requests, was, cut[l := cut[l] + 1], before, v, FireOne(s, timer));
    }

    /** In the middle of api_timer_process, as `Mid` says: the timers of `gone` have fired one after
        another, and all of them had elapsed. */
    ghost predicate Inside(was: Lists, cut: map<RbNode, nat>, before: map<Timer, Before>, kind: Kind, value: nat,
                           v: nat, script: seq<seq<Request>>, s: State, gone: seq<Timer>)
      reads this, tree, Nodes(tree.shape), pool, s.timers.Keys
    {
      && Mid(was, cut, before, v) && Due(was, cut, before, kind, value)
      && Shows(FireAll(s, gone, script), s.timers.Keys, version, pool) && pool + AllAsked(script) <= s.timers.Keys
    }

    /** In the list `l`: its first `n` timers have fired, after those of `order`. */
    ghost predicate AtNth(l: RbNode, n: nat, was: Lists, cut: map<RbNode, nat>, before: map<Timer, Before>, kind: Kind,
                           value: nat, v: nat, script: seq<seq<Request>>, s: State, order: seq<Timer>)
      reads this, tree, Nodes(tree.shape), pool, s.timers.Keys
    {
      Inside(was, CutTo(cut, l, n), before, kind, value, v, script, s, order + Taken(was, l, n))
    }

    method FireNth(l: RbNode, ghost n: nat, timer: Timer, kind: Kind, value: nat, script: seq<seq<Request>>, k: nat,
                   ghost was: Lists, ghost cut: map<RbNode, nat>, ghost before: map<Timer, Before>, ghost v: nat,
                   ghost s: State, ghost order: seq<Timer>)
      returns (ghost more: nat)
      requires AtNth(l, n, was, cut, before, kind, value, v, script, s, order)
      requires l in was && l in lists && l in cut && n < |was[l]| && timer == was[l][n] && timer in pool
      requires timer in before && Elapsed(kind, value, before[timer].issued, l.key) && k == |order| + n
      modifies this`lists, this`version, this`pool, tree, Nodes(tree.shape), timer, AllAsked(script)
      ensures more == n + 1 && AtNth(l, more, was, cut, before, kind, value, v, script, s, order)
      ensures old(pool) <= pool <= old(pool) + AllAsked(script)
      ensures forall o <- Nodes(tree.shape) :: o in old(Nodes(tree.shape)) || fresh(o)
      ensures l in old(lists) && old(lists)[l] != []
      ensures forall m <- old(lists) :: m in lists && (if m == l then old(lists)[m][1..] else old(lists)[m]) <= lists[m]
      ensures forall m <- lists | m != l && lists[m] == [] :: m in old(lists) && old(lists)[m] == []
    {
      hide Mid, Ok, CutTo, Due, Elapsed, FireAll, AskAll, FireOne, Shows, InOrder, Nodes, Holds, RedBlack, Sorted,
        Ghosts;
      ghost var gone := order + Taken(was, l, n);
      AskedIn(script, k);
      SameTimersFired(s, gone, script);
      more := NextOne(l, n, timer, kind, value, script, was, cut, before, s, order);
      Fire(l, timer, Nth(script, k), was, CutTo(cut, l, n), before, v, FireAll(s, gone, script));
    }

    /** Where the timers of a list stand, and which is the first of those left from before. */
    lemma Place(l: RbNode, n: nat, was: Lists, cut: map<RbNode, nat>, before: map<Timer, Before>, kind: Kind,
                value: nat,
                v: nat, script: seq<seq<Request>>, s: State, order: seq<Timer>)
      requires AtNth(l, n, was, cut, before, kind, value, v, script, s, order) && l in lists
        && (l in was ==> n <= |was[l]|) && cut.Keys == was.Keys
      ensures forall t <- lists[l] :: t in pool && t.list == l
      ensures forall i | 0 <= i < |lists[l]| :: lists[l][i].version <= v <==> l in was && n + i < |was[l]|
      ensures l in was && n < |was[l]| ==>
        && lists[l] != [] && lists[l][0] == was[l][n] && was[l][n] in before
        && was[l][n].issued == before[was[l][n]].issued
      ensures l in was && n + 1 < |was[l]| ==> |lists[l]| > 1
    {
      hide Mid, Due, Shows, FireAll, Ok, InOrder, Nodes, Holds, RedBlack, Sorted, Ghosts;
      InList(l, was, CutTo(cut, l, n), before, v);
      if l in was && n < |was[l]| { FirstOf(l, was[l][n], was, CutTo(cut, l, n), before, v); }
    }

    /** The inner loop of api_timer_process, over the timers of one list, of which the first `n`
        fire.  `k` counts the timers fired in the whole call, and the task woken by the `k`th makes
        the requests `script[k]`. */
    method ProcessList(l: RbNode, kind: Kind, value: nat, v: nat, script: seq<seq<Request>>, k0: nat,
                       ghost was: Lists, ghost cut: map<RbNode, nat>, ghost before: map<Timer, Before>,
                       ghost s: State, ghost order: seq<Timer>)
      returns (k: nat, ghost n: nat)
      requires AtNth(l, 0, was, cut, before, kind, value, v, script, s, order) && cut.Keys == was.Keys
      requires l in lists && k0 == |order|
      modifies this`lists, this`version, this`pool, tree, Nodes(tree.shape), pool, AllAsked(script)
      ensures AtNth(l, n, was, cut, before, kind, value, v, script, s, order)
      ensures k == k0 + n && n <= if l in was then |was[l]| else 0
      ensures l in was && n < |was[l]| ==> was[l][n] in before && !Elapsed(kind, value, before[was[l][n]].issued, l.key)
      ensures old(pool) <= pool <= old(pool) + AllAsked(script)
      ensures forall o <- Nodes(tree.shape) :: o in old(Nodes(tree.shape)) || fresh(o)
      ensures l in lists && forall m <- old(lists) :: m in lists
      ensures forall m <- lists | m != l && lists[m] == [] :: m in old(lists) && old(lists)[m] == []
      ensures n == 0 ==> lists == old(lists) && tree.shape == old(tree.shape)
    {
      hide AtNth, Inside, Mid, Ok, CutTo, Due, Elapsed, FireAll, Shows, Taken, InOrder, Nodes, Holds, RedBlack, Sorted,
        Ghosts;
      k, n := k0, 0;
      Place(l, n, was, cut, before, kind, value, v, script, s, order);
      var i := 0;
      var timer: Timer? := if lists[l] == [] then null else lists[l][0];
      while timer != null
        invariant AtNth(l, n, was, cut, before, kind, value, v, script, s, order) && l in lists
        invariant k == k0 + n && n <= if l in was then |was[l]| else 0
        invariant old(pool) <= pool <= old(pool) + AllAsked(script)
        invariant forall o <- Nodes(tree.shape) :: o in old(Nodes(tree.shape)) || fresh(o)
        invariant forall m <- old(lists) :: m in lists
        invariant forall m <- lists | m != l && lists[m] == [] :: m in old(lists) && old(lists)[m] == []
        invariant n == 0 ==> unchanged(`lists) && tree.shape == old(tree.shape)
        invariant timer == null ==> (l in was ==> n == |was[l]|)
        invariant timer != null ==> i < |lists[l]| && timer == lists[l][i] && (i > 0 ==> l in was ==> n == |was[l]|)
        decreases if l in was then |was[l]| - n else 0, if timer != null then |lists[l]| - i else 0
      {
        Place(l, n, was, cut, before, kind, value, v, script, s, order);
        if timer.version > v {
          i := i + 1;
          timer := if i < |lists[l]| then lists[l][i] else null;
        } else {
          assert timer in lists[l] && timer in pool;
          if !Elapsed(kind, value, timer.issued, l.key) { return; }
          var next := if i + 1 < |lists[l]| then lists[l][i + 1] else null;
          n := FireNth(l, n, timer, kind, value, script, k, was, cut, before, v, s, order);
          k := k + 1;
          i, timer := 0, next;
        }
      }
    }

    /** One turn of the outer loop: a list is gone through, and leaves the tree if it is empty. */
    method VisitList(l: RbNode, kind: Kind, value: nat, v: nat, script: seq<seq<Request>>, k0: nat,
                     ghost was: Lists, ghost cut: map<RbNode, nat>, ghost before: map<Timer, Before>,
                     ghost s: State, ghost order: seq<Timer>)
      returns (k: nat, ghost n: nat)
      requires Inside(was, cut, before, kind, value, v, script, s, order) && cut.Keys == was.Keys
      requires l in lists && (l in cut ==> cut[l] == 0) && k0 == |order| && NoneEmpty(lists)
      modifies this`lists, this`version, this`pool, tree, Nodes(tree.shape), pool, AllAsked(script)
      ensures Inside(was, CutTo(cut, l, n), before, kind, value, v, script, s, order + Taken(was, l, n))
      ensures k == k0 + n && n <= if l in was then |was[l]| else 0
      ensures l in was && n < |was[l]| ==> was[l][n] in before && !Elapsed(kind, value, before[was[l][n]].issued, l.key)
      ensures old(pool) <= pool <= old(pool) + AllAsked(script)
      ensures forall o <- Nodes(tree.shape) :: o in old(Nodes(tree.shape)) || fresh(o)
      ensures forall m <- old(lists) | m != l :: m in lists
      ensures NoneEmpty(lists) && (n == 0 ==> lists == old(lists) && tree.shape == old(tree.shape))
    {
      hide Inside, Mid, Ok, CutTo, Due, Elapsed, FireAll, Taken, Shows, InOrder, Nodes, Holds, RedBlack, Sorted, Ghosts;
      NoneTaken(was, l, order);
      CutToNone(cut, l);
      k, n := ProcessList(l, kind, value, v, script, k0, was, cut, before, s, order);
      if lists[l] == [] {
        DropGone(l, was, CutTo(cut, l, n), before, kind, value, v, script, s, order + Taken(was, l, n));
      }
    }

    method DropGone(l: RbNode, ghost was: Lists, ghost cut: map<RbNode, nat>, ghost before: map<Timer, Before>,
                    kind: Kind, value: nat, ghost v: nat, script: seq<seq<Request>>, ghost s: State,
                    ghost gone: seq<Timer>)
      requires Inside(was, cut, before, kind, value, v, script, s, gone) && l in lists && lists[l] == []
      modifies this`lists, tree, Nodes(tree.shape)
      ensures Inside(was, cut, before, kind, value, v, script, s, gone)
      ensures lists == old(lists) - {l} && Nodes(tree.shape) <= old(Nodes(tree.shape))
    {
      hide Mid, Ok, Due, Elapsed, FireAll, Shows, InOrder, Nodes, Holds, RedBlack, Sorted, Ghosts;
      DropEmpty(l, was, cut, before, v);
    }

    method DropEmpty(l: RbNode, ghost was: Lists, ghost cut: map<RbNode, nat>, ghost before: map<Timer, Before>,
                     ghost v: nat)
      requires Mid(was, cut, before, v) && l in lists && lists[l] == []
      modifies this`lists, tree, Nodes(tree.shape)
      ensures Mid(was, cut, before, v) && lists == old(lists) - {l} && Nodes(tree.shape) <= old(Nodes(tree.shape))
    {
      hide Fired, ListFits, Periods, Extends, NoTwice, InOrder, Nodes, Holds, RedBlack, Sorted, Ghosts;
      InList(l, was, cut, before, v);
      ghost var ls := lists;
      DropList(l);
      forall m <- lists ensures Extends(lists[m], if m in was then was[m][cut[m]..] else [], v) {
        assert Extends(ls[m], if m in was then was[m][cut[m]..] else [], v);
      }
    }

    /** The walk over the tree goes over the lists, by their periods. */
    lemma Walk()
      requires Ok()
      ensures RbShape.Distinct(tree.shape) && Ghosts(tree.shape) == {}
      ensures Sorted(InOrder(tree.shape)) && forall m <- lists :: m in InOrder(tree.shape)
      ensures forall i | 0 <= i < |InOrder(tree.shape)| :: InOrder(tree.shape)[i] in lists
      ensures forall i, j | 0 <= i < j < |InOrder(tree.shape)| :: InOrder(tree.shape)[i] != InOrder(tree.shape)[j]
    {
      hide InOrder, Nodes, RedBlack, Sorted, Ghosts, Fitting, Known;
      InOrderNodes(tree.shape);
      InOrderApart(tree.shape);
      forall i | 0 <= i < |InOrder(tree.shape)| ensures InOrder(tree.shape)[i] in lists {
        InTree(tree.shape, InOrder(tree.shape)[i]);
      }
    }

    lemma Ready()
      requires Valid()
      ensures Ok()
    {
      hide Ok;
    }

    lemma Ruled()
      requires Ok()
      ensures RedBlack(tree.shape) && Nodes(tree.shape) == lists.Keys
    {
      hide RedBlack, Nodes, Fitting, Known;
    }

    /** The next list of the walk has a longer period. */
    method NextList(l: RbNode, kind: Kind, value: nat, v: nat, script: seq<seq<Request>>, count: nat,
                    ghost was: Lists, ghost cut: map<RbNode, nat>, ghost before: map<Timer, Before>, ghost s: State,
                    ghost walk: seq<RbNode>)
      returns (next: RbNode?)
      requires Between(was, cut, before, kind, value, v, script, s, walk, count) && l in lists
      ensures Between(was, cut, before, kind, value, v, script, s, walk, count)
      ensures next != null ==> next in lists && next != l && l.key < next.key
      ensures l in Nodes(tree.shape) && next == Onward(tree.shape, l)
    {
      hide Onward, Fitting, Known, Since, Standing, Flagged, NoTwice, Due, Elapsed, NoneEmpty, GoneThrough, FireAll,
        InTurn, Shows, Fired, AllAsked, InOrder, Nodes, Holds, RedBlack, Sorted, Ghosts;
      Walk();
      ghost var all := InOrder(tree.shape);
      ghost var left, right;
      next, left, right := tree.Next(l);
      if next != null {
        LaterKey(left, l, right, next);
        assert all == left + [l] + right && next in all;
        ghost var i :| 0 <= i < |all| && all[i] == next;
      }
    }

    method FirstList(ghost before: map<Timer, Before>) returns (first: RbNode?)
      requires Valid() && before == map t | t in pool :: Before(t.issued, t.elapsed)
      ensures Valid() && before == map t | t in pool :: Before(t.issued, t.elapsed)
      ensures if first == null then lists == map[] else first in lists && forall m <- lists :: first.key <= m.key
      ensures first == Head(tree.shape) && RbShape.Distinct(tree.shape) && Ghosts(tree.shape) == {}
    {
      hide Fitting, Known, NoneEmpty, InOrder, Nodes, Holds, RedBlack, Sorted, Ghosts;
      Walk();
      ghost var s := InOrder(tree.shape);
      first := tree.First();
      if s != [] {
        FirstKey(s);
        assert s[0] in s;
      }
      assert forall m <- lists :: m in s;
    }

    method Begin(kind: Kind, value: nat, script: seq<seq<Request>>, ghost before: map<Timer, Before>, ghost s: State)
      returns (ghost cut: map<RbNode, nat>)
      requires Valid() && before == map t | t in pool :: Before(t.issued, t.elapsed)
      requires Shows(s, s.timers.Keys, version, pool) && pool + AllAsked(script) <= s.timers.Keys
      modifies this`processing
      ensures Between(lists, cut, before, kind, value, version, script, s, [], 0) && Apart(lists)
      ensures forall l <- lists, t <- lists[l] :: t in before
    {
      hide Mid, Valid, Ok, Due, Elapsed, GoneThrough, Visited, Fired, NoneEmpty, FireAll, InTurn, Apart, AllAsked,
        InOrder, Nodes, Holds, RedBlack, Sorted, Ghosts;
      NoneFired(lists);
      NoneInTurn(s, lists, map l | l in lists :: 0, script);
      NoneGone(lists, map l | l in lists :: 0, before, kind, value);
      cut := Start(before);
    }

    /** Processing begins: no timer has fired. */
    method Start(ghost before: map<Timer, Before>) returns (ghost cut: map<RbNode, nat>)
      requires Valid() && before == map t | t in pool :: Before(t.issued, t.elapsed)
      modifies this`processing
      ensures cut == map l | l in lists :: 0
      ensures Mid(lists, cut, before, version) && Apart(lists) && NoneEmpty(lists)
        && forall kind, value :: Due(lists, cut, before, kind, value)
      ensures forall l <- lists, t <- lists[l] :: t in before
    {
      hide Fired, Known, Periods, Aged, ListFits, Extends, InOrder, Nodes, Holds, RedBlack, Sorted, Ghosts;
      cut := map l | l in lists :: 0;
      NoneFired(lists);
      processing := true;
      forall l <- lists
        ensures Extends(lists[l], lists[l][0..], version)
        ensures forall t <- lists[l] :: t.list == l
        ensures forall i, j | 0 <= i < j < |lists[l]| :: lists[l][i] != lists[l][j]
      {
        WholeList(l, lists[l], version);
      }
    }

    lemma MidOk(was: Lists, cut: map<RbNode, nat>, before: map<Timer, Before>, v: nat)
      requires Mid(was, cut, before, v)
      ensures Ok() && NoTwice(was) && cut.Keys == was.Keys
    {
      hide Ok;
    }

    /** Between two turns of the outer loop: `count` timers have fired, those of the lists of `walk`
        that had elapsed, and the tasks woken have asked for what `script` says. */
    ghost predicate Between(was: Lists, cut: map<RbNode, nat>, before: map<Timer, Before>, kind: Kind, value: nat,
                            v: nat, script: seq<seq<Request>>, s: State, walk: seq<RbNode>, count: nat)
      reads this, tree, Nodes(tree.shape), pool, s.timers.Keys
    {
      && Inside(was, cut, before, kind, value, v, script, s, InTurn(was, cut, walk)) && NoneEmpty(lists)
      && GoneThrough(was, cut, before, kind, value, Visited(walk))
      && count == |Fired(was, cut)| == |InTurn(was, cut, walk)|
    }

    /** One turn of the outer loop, and what it adds to the timers fired and the lists visited. */
    method Turn(l: RbNode, kind: Kind, value: nat, v: nat, script: seq<seq<Request>>, count: nat,
                ghost was: Lists, ghost cut: map<RbNode, nat>, ghost before: map<Timer, Before>, ghost s: State,
                ghost walk: seq<RbNode>)
      returns (count': nat, ghost cut': map<RbNode, nat>)
      requires Between(was, cut, before, kind, value, v, script, s, walk, count) && Apart(was)
      requires l in lists && forall m <- Visited(walk) :: m.key < l.key
      modifies this`lists, this`version, this`pool, tree, Nodes(tree.shape), pool, AllAsked(script)
      ensures Between(was, cut', before, kind, value, v, script, s, walk + [l], count')
      ensures count <= count' <= |Members(was)|
      ensures count == count' ==> lists == old(lists) && tree.shape == old(tree.shape)
      ensures old(pool) <= pool <= old(pool) + AllAsked(script)
      ensures forall o <- Nodes(tree.shape) :: o in old(Nodes(tree.shape)) || fresh(o)
      ensures forall m <- old(lists) | m != l :: m in lists
    {
      hide Mid, Ok, CutTo, Due, Elapsed, GoneThrough, Fired, NoneEmpty, Members, NoTwice, Apart, FireAll, Shows, InTurn,
        Visited, InOrder, Nodes, Holds, RedBlack, Sorted, Ghosts;
      MidOk(was, cut, before, v);
      NotVisited(walk, l);
      VisitedOne(walk, l);
      NotYetCut(was, cut, before, kind, value, Visited(walk), l);
      ghost var n;
      count', n := VisitList(l, kind, value, v, script, count, was, cut, before, s, InTurn(was, cut, walk));
      InTurnNext(was, cut, walk, l, n);
      FiredMore(was, cut, l, n);
      GoneOn(was, cut, before, kind, value, Visited(walk), l, n);
      cut' := CutTo(cut, l, n);
    }

    /** The outer loop of api_timer_process. */
    method VisitAll(first: RbNode?, kind: Kind, value: nat, v: nat, script: seq<seq<Request>>, ghost was: Lists,
                    ghost start: map<RbNode, nat>, ghost before: map<Timer, Before>, ghost s: State)
      returns (count: nat, ghost cut: map<RbNode, nat>, ghost walk: seq<RbNode>, ghost shapes: seq<Tree>)
      requires Between(was, start, before, kind, value, v, script, s, [], 0) && Apart(was)
      requires first != null ==> first in lists
      modifies this`lists, this`version, this`pool, tree, Nodes(tree.shape), pool, AllAsked(script)
      ensures Between(was, cut, before, kind, value, v, script, s, walk, count)
      ensures old(pool) <= pool <= old(pool) + AllAsked(script)
      ensures Walked(first, walk, shapes, null) && |walk| == |shapes| && (walk != [] ==> shapes[0] == old(tree.shape))
      ensures Climbing(walk)
      ensures count == 0 ==> forall i | 0 <= i < |shapes| :: shapes[i] == old(tree.shape)
    {
      hide Between, Mid, Ok, Walked, Visited, Onward, Members, Apart, Ahead, AllAsked, Climbing, InOrder, Nodes, Holds,
        RedBlack, Sorted, Ghosts;
      var list := first;
      walk, shapes, cut, count := [], [], start, 0;
      NothingVisited(first);
      while list != null
        invariant Between(was, cut, before, kind, value, v, script, s, walk, count)
        invariant old(pool) <= pool <= old(pool) + AllAsked(script)
        invariant forall o <- Nodes(tree.shape) :: o in old(Nodes(tree.shape)) || fresh(o)
        invariant list != null ==> list in lists && forall m <- Visited(walk) :: m.key < list.key
        invariant Climbing(walk) && Walked(first, walk, shapes, list) && |walk| == |shapes|
        invariant if walk == [] then tree.shape == old(tree.shape) else shapes[0] == old(tree.shape)
        invariant count == 0 ==>
          tree.shape == old(tree.shape) && forall i | 0 <= i < |shapes| :: shapes[i] == old(tree.shape)
        decreases |Members(was)| - count, Ahead(lists, list)
      {
        var next := NextList(list, kind, value, v, script, count, was, cut, before, s, walk);
        AheadLess(lists, list, next);
        WalkedOn(first, walk, shapes, list, tree.shape);
        VisitedOne(walk, list);
        shapes := shapes + [tree.shape];
        count, cut := Turn(list, kind, value, v, script, count, was, cut, before, s, walk);
        walk := walk + [list];
        list := next;
      }
    }

    /** The timers that are or were set, or are asked for. */
    ghost function Everyone(script: seq<seq<Request>>): set<Timer>
      reads this`pool
    {
      pool + AllAsked(script)
    }

    /** What the timers show when processing begins. */
    lemma Beginning(script: seq<seq<Request>>)
      requires Valid()
      ensures var s := StateOf(Everyone(script), version, pool);
        && s.timers.Keys == Everyone(script) && s.version == version && Shows(s, s.timers.Keys, version, pool)
        && (forall l <- lists, t <- lists[l] :: t in s.timers && s.timers[t].period == Some(l.key))
        && forall t <- AllAsked(script) | t.list == null :: t in s.timers && s.timers[t].period == None
    {
      hide Known, InOrder, Nodes, Holds, RedBlack, Sorted, Ghosts;
      forall l <- lists ensures ListFits(l, lists[l], version) {}
    }

    /** The requests that took effect. */
    lemma Outcome(was: Lists, cut: map<RbNode, nat>, before: map<Timer, Before>, kind: Kind, value: nat, v: nat,
                  script: seq<seq<Request>>, s: State, walk: seq<RbNode>, count: nat)
      requires Between(was, cut, before, kind, value, v, script, s, walk, count) && Climbing(walk) && Apart(was)
      requires forall l <- was, t <- was[l] :: t in s.timers && s.timers[t].period == Some(l.key)
      ensures var all, order := s.timers.Keys, InTurn(was, cut, walk);
        && StateOf(all, version, pool) == FireAll(s, order, script)
        && Replied(s, StateOf(all, version, pool), order, script)
        && forall t <- all, i: nat | FirstFor(Asks(script, 0, count), t, i) && s.timers[t].period == None ::
          Runs(lists, t, Asks(script, 0, count)[i].value) && s.version < t.version
    {
      hide Mid, Due, GoneThrough, Fired, Climbing, Apart, InTurn, FireAll, Replied, Asks, NoneEmpty;
      var all, order := s.timers.Keys, InTurn(was, cut, walk);
      MidOk(was, cut, before, v);
      InTurnOnce(was, cut, walk);
      InTurnSet(was, cut, walk, s);
      assert StateOf(all, version, pool) == FireAll(s, order, script);
      AllReplied(s, order, script);
      forall t <- all, i: nat | FirstFor(Asks(script, 0, count), t, i) && s.timers[t].period == None
        ensures Runs(lists, t, Asks(script, 0, count)[i].value) && s.version < t.version
      {
        AskedIsSet(s, StateOf(all, version, pool), order, script, t, i);
        SetRuns(t);
      }
    }

    lemma SetRuns(t: Timer)
      requires Ok() && t in pool && t.list != null
      ensures Runs(lists, t, t.list.key)
    {
      hide InOrder, Nodes, Holds, RedBlack, Sorted, Ghosts, ListFits;
    }

    method Finish(ghost was: Lists, ghost cut: map<RbNode, nat>, ghost before: map<Timer, Before>, kind: Kind,
                  value: nat, v: nat, script: seq<seq<Request>>, ghost s: State, ghost walk: seq<RbNode>, count: nat)
      requires Between(was, cut, before, kind, value, v, script, s, walk, count)
      modifies this`processing
      ensures Valid() && Since(was, cut, lists, v, pool) && Flagged(was, cut, before, pool)
      ensures Due(was, cut, before, kind, value) && GoneThrough(was, cut, before, kind, value, Visited(walk))
      ensures count == |Fired(was, cut)| == |InTurn(was, cut, walk)|
    {
      hide Known, Periods, Aged, Extends, ListFits, Standing, NoTwice, Due, GoneThrough, Visited, Fired, InTurn,
        FireAll, Shows, InOrder, Nodes, Holds, RedBlack, Sorted, Ghosts;
      processing := false;
    }

    /** api_timer_process.  Of each list the first `cut` timers fire; the lists of `walk` are gone
        through, one after another. */
    method Process(kind: Kind, value: nat, script: seq<seq<Request>>)
      returns (count: nat, ghost cut: map<RbNode, nat>, ghost walk: seq<RbNode>, ghost shapes: seq<Tree>)
      requires Valid()
      modifies this`lists, this`version, this`processing, this`pool, tree, Nodes(tree.shape), pool, AllAsked(script)
      ensures Valid()
      ensures Since(old(lists), cut, lists, old(version), pool)
      ensures Flagged(old(lists), cut, old(map t | t in pool :: Before(t.issued, t.elapsed)), pool)
      ensures Due(old(lists), cut, old(map t | t in pool :: Before(t.issued, t.elapsed)), kind, value)
      ensures count == |Fired(old(lists), cut)|
      ensures GoneThrough(old(lists), cut, old(map t | t in pool :: Before(t.issued, t.elapsed)), kind, value,
                          Visited(walk))
      ensures old(kind.Sleep? ==> value < TWO64 && Aged(lists, value, pool)) ==>
        NoneLeftBehind(old(lists), cut, old(map t | t in pool :: Before(t.issued, t.elapsed)), kind, value,
                       Visited(walk))
      ensures count == |InTurn(old(lists), cut, walk)|
      ensures StateOf(old(Everyone(script)), version, pool)
        == FireAll(old(StateOf(Everyone(script), version, pool)), InTurn(old(lists), cut, walk), script)
      ensures Replied(old(StateOf(Everyone(script), version, pool)), StateOf(old(Everyone(script)), version, pool),
                      InTurn(old(lists), cut, walk), script)
      ensures forall t <- AllAsked(script), i: nat | FirstFor(Asks(script, 0, count), t, i) && old(t.list) == null ::
          Runs(lists, t, Asks(script, 0, count)[i].value) && old(version) < t.version
      ensures Walked(old(Head(tree.shape)), walk, shapes, null)
        && (walk != [] ==> |shapes| > 0 && shapes[0] == old(tree.shape))
      ensures Climbing(walk)
      ensures count == 0 ==> walk == W.WalkOf(old(tree.shape))
    {
      hide Mid, Ok, CutTo, Due, Elapsed, Since, Flagged, Periods, GoneThrough, NoneLeftBehind, Walked, Climbing,
        Visited, Onward, Head, Fired, NoneEmpty, Members, NoTwice, Apart, Aged, AgedBefore, FireAll, InTurn, Between,
        Replied, Runs, Asks, StateOf, Shows, AllAsked, InOrder, Nodes, Holds, RedBlack, Sorted, Ghosts;
      ghost var was, before, shape := lists, map t | t in pool :: Before(t.issued, t.elapsed), tree.shape;
      ghost var s := StateOf(Everyone(script), version, pool);
      Beginning(script);
      ghost var ordered := kind.Sleep? ==> value < TWO64 && Aged(lists, value, pool);
      if kind.Sleep? && ordered { AgedIsBefore(was, value, pool); }
      var first := FirstList(before);
      var v := version;
      ghost var start := Begin(kind, value, script, before, s);
      count, cut, walk, shapes := VisitAll(first, kind, value, v, script, was, start, before, s);
      Outcome(was, cut, before, kind, value, v, script, s, walk, count);
      Finish(was, cut, before, kind, value, v, script, s, walk, count);
      if ordered { EarlyBreak(was, cut, before, kind, value, Visited(walk)); }
      if count == 0 { SameShapes(shape, walk, shapes); }
    }
  }

  /** A timer stands in the list it points to, and in no other. */
  lemma InOneList(ls: Lists, t: Timer, v: nat, pool: set<Timer>)
    requires InPool(ls, pool) && AllFit(ls, v, pool)
    ensures forall l <- ls :: t in ls[l] ==> t.list == l
  {
    forall l <- ls | t in ls[l] ensures t.list == l {
      assert ListFits(l, ls[l], v);
    }
  }

  lemma EmptyGone(ls: Lists, l: RbNode, v: nat, pool: set<Timer>, but: Timer)
    requires l in ls && ls[l] == [] && Fitting(ls, v, pool) && KnownBut(ls, pool, but)
    ensures Fitting(ls - {l}, v, pool) && KnownBut(ls - {l}, pool, but)
  {
    hide ListFits;
  }

  lemma EmptyAdded(ls: Lists, l: RbNode, v: nat, pool: set<Timer>, but: Timer)
    requires l !in ls && Fitting(ls, v, pool) && KnownBut(ls, pool, but)
    ensures Fitting(ls[l := []], v, pool) && KnownBut(ls[l := []], pool, but)
  {
    assert ListFits(l, [], v);
  }

  lemma EmptyAged(ls: Lists, l: RbNode, now: nat, pool: set<Timer>)
    requires l !in ls && Aged(ls, now, pool)
    ensures Aged(ls[l := []], now, pool)
  {
    assert ListAged([], now);
  }

  lemma {:induction false} InOrderApart(t: Tree)
    requires RbShape.Distinct(t) && Ghosts(t) == {}
    ensures forall i, j | 0 <= i < j < |InOrder(t)| :: InOrder(t)[i] != InOrder(t)[j]
  {
    if t.Node? {
      InOrderApart(t.left);
      InOrderApart(t.right);
      InOrderNodes(t.left);
      InOrderNodes(t.right);
      var a, b := InOrder(t.left), InOrder(t.right);
      forall i, j | 0 <= i < j < |InOrder(t)| ensures InOrder(t)[i] != InOrder(t)[j] {
        assert InOrder(t) == a + [t.node] + b;
        if i < |a| { InTree(t.left, a[i]); }
        if j > |a| { InTree(t.right, b[j - |a| - 1]); }
      }
    }
  }

  lemma InTree(t: Tree, x: RbNode)
    requires Ghosts(t) == {} && x in InOrder(t)
    ensures x in Nodes(t)
  {
    InOrderNodes(t);
  }

  lemma LaterKey(before: seq<RbNode>, l: RbNode, after: seq<RbNode>, next: RbNode)
    requires var s := before + [l] + after;
      Sorted(s) && (forall i, j | 0 <= i < j < |s| :: s[i] != s[j]) && next in after
    ensures next != l && l.key <= next.key
  {
    var s := before + [l] + after;
    var j :| 0 <= j < |after| && after[j] == next;
    assert s[|before|] == l && s[|before| + 1 + j] == next;
  }

  lemma NoneFired(was: Lists)
    ensures Fired(was, map l | l in was :: 0) == {}
  {
  }

  lemma NoneInTurn(s: State, was: Lists, cut: map<RbNode, nat>, script: seq<seq<Request>>)
    ensures InTurn(was, cut, []) == [] && FireAll(s, [], script) == s
  {
  }

  lemma NoneGone(was: Lists, cut: map<RbNode, nat>, before: map<Timer, Before>, kind: Kind, value: nat)
    requires cut == map l | l in was :: 0
    ensures GoneThrough(was, cut, before, kind, value, Visited([]))
  {
  }

  lemma NothingVisited(first: RbNode?)
    ensures Visited([]) == {} && Walked(first, [], [], first) && Climbing([])
  {
  }

  lemma FirstKey(s: seq<RbNode>)
    requires s != [] && Sorted(s)
    ensures forall x <- s :: s[0].key <= x.key
  {
  }

  /** The list the walk has come to has lost no timer yet. */
  lemma NotYetCut(was: Lists, cut: map<RbNode, nat>, before: map<Timer, Before>, kind: Kind, value: nat,
                  visited: set<RbNode>, l: RbNode)
    requires GoneThrough(was, cut, before, kind, value, visited) && forall m <- visited :: m.key < l.key
    ensures l in cut ==> cut[l] == 0
  {
    hide Elapsed;
  }

  lemma GoneOn(was: Lists, cut: map<RbNode, nat>, before: map<Timer, Before>, kind: Kind, value: nat,
               visited: set<RbNode>, l: RbNode, n: nat)
    requires GoneThrough(was, cut, before, kind, value, visited)
    requires l in was && n < |was[l]| ==> was[l][n] in before && !Elapsed(kind, value, before[was[l][n]].issued, l.key)
    ensures GoneThrough(was, CutTo(cut, l, n), before, kind, value, visited + {l})
  {
    hide Elapsed;
  }

  lemma AheadLess(ls: Lists, l: RbNode, next: RbNode?)
    requires l in ls && (next != null ==> l.key < next.key)
    ensures Ahead(ls, next) < Ahead(ls, l)
  {
    assert l in Ahead(ls, l) && l !in Ahead(ls, next);
  }

  /** As many timers fire as are cut off. */
  lemma {:induction false} FiredMore(was: Lists, cut: map<RbNode, nat>, l: RbNode, n: nat)
    requires cut.Keys == was.Keys && (l in cut ==> cut[l] == 0) && n <= (if l in was then |was[l]| else 0)
    requires NoTwice(was) && Apart(was)
    ensures |Fired(was, CutTo(cut, l, n))| == |Fired(was, cut)| + n <= |Members(was)|
    decreases n
  {
    hide Fired, CutTo, NoTwice, Apart, Members;
    if n == 0 {
      CutToNone(cut, l);
    } else {
      FiredMore(was, cut, l, n - 1);
      FiredOne(was, cut, l, n - 1);
    }
    FiredBound(was, CutTo(cut, l, n));
  }

  lemma FiredOne(was: Lists, cut: map<RbNode, nat>, l: RbNode, n: nat)
    requires cut.Keys == was.Keys && l in was && n < |was[l]| && NoTwice(was) && Apart(was)
    ensures Fired(was, CutTo(cut, l, n + 1)) == Fired(was, CutTo(cut, l, n)) + {was[l][n]}
    ensures was[l][n] !in Fired(was, CutTo(cut, l, n))
  {
    var a, b := CutTo(cut, l, n), CutTo(cut, l, n + 1);
    forall t ensures t in Fired(was, b) <==> t in Fired(was, a) || t == was[l][n] {
      if t in Fired(was, a) {
        var m, i: nat :| m in was && i < a[m] && i < |was[m]| && was[m][i] == t;
        assert i < b[m];
      }
    }
    forall m, i: nat | m in was && i < a[m] && i < |was[m]| ensures was[m][i] != was[l][n] {
      assert was[l][n] in was[l] && was[m][i] in was[m];
    }
  }

  lemma FiredBound(was: Lists, cut: map<RbNode, nat>)
    ensures |Fired(was, cut)| <= |Members(was)|
  {
    forall t <- Fired(was, cut) ensures t in Members(was) {
      var l, i: nat :| l in was && i < |was[l]| && was[l][i] == t;
      assert t in was[l];
    }
    SubsetSize(Fired(was, cut), Members(was));
  }

  lemma {:induction false} SubsetSize(a: set<Timer>, b: set<Timer>)
    requires a <= b
    ensures |a| <= |b|
    decreases a
  {
    if a != {} {
      var x :| x in a;
      SubsetSize(a - {x}, b - {x});
    }
  }

  /** Issue times as `Aged` says, told from what the timers were. */
  ghost predicate AgedBefore(was: Lists, before: map<Timer, Before>, clock: nat) {
    && (forall l <- was, t <- was[l] :: t in before && before[t].issued <= clock)
    && (forall l <- was, i, j | 0 <= i < j < |was[l]| :: before[was[l][i]].issued <= before[was[l][j]].issued)
  }

  lemma AgedIsBefore(was: Lists, clock: nat, pool: set<Timer>)
    requires Aged(was, clock, pool)
    ensures AgedBefore(was, map t | t in pool :: Before(t.issued, t.elapsed), clock)
  {
    forall l <- was ensures ListAged(was[l], clock) { }
  }

  /** Leaving a list at the first timer that has not elapsed leaves none behind that has: for the
      time of idling always, and for sleeping timers when the clock does not run backwards. */
  lemma EarlyBreak(was: Lists, cut: map<RbNode, nat>, before: map<Timer, Before>, kind: Kind, value: nat,
                   visited: set<RbNode>)
    requires GoneThrough(was, cut, before, kind, value, visited) && forall l <- was, t <- was[l] :: t in before
    requires kind.Sleep? ==> value < TWO64 && AgedBefore(was, before, value)
    ensures NoneLeftBehind(was, cut, before, kind, value, visited)
  {
    forall l <- was, i: nat | l in visited && cut[l] <= i < |was[l]|
      ensures !Elapsed(kind, value, before[was[l][i]].issued, l.key) {
      var first, t := was[l][cut[l]], was[l][i];
      assert first in was[l] && t in was[l];
      if kind.Sleep? {
        var a, b := before[first].issued, before[t].issued;
        assert a <= b <= value < TWO64;
        assert (value - a) % TWO64 == value - a && (value - b) % TWO64 == value - b;
      }
    }
  }

  // ---------- three lists ----------

  ghost predicate NoneTwice(s: seq<RbNode>) { forall i, j | 0 <= i < j < |s| :: s[i] != s[j] }

  /** In a sorted sequence the node of the smallest key comes first. */
  lemma SmallestFirst(s: seq<RbNode>, a: RbNode, rest: set<RbNode>)
    requires Sorted(s) && NoneTwice(s) && a !in rest && forall x <- rest :: a.key < x.key
    requires forall x :: x in s <==> x == a || x in rest
    ensures s != [] && s[0] == a && Sorted(s[1..]) && NoneTwice(s[1..]) && forall x :: x in s[1..] <==> x in rest
    ensures |s| > 1 ==> s[1] in rest
  {
    assert a in s && s[0] in s;
    assert s == [s[0]] + s[1..];
    assert |s| > 1 ==> s[1] in s[1..];
  }

  lemma ThreeInOrder(s: seq<RbNode>, a: RbNode, b: RbNode, c: RbNode)
    requires Sorted(s) && NoneTwice(s) && (forall x :: x in s <==> x in {a, b, c}) && a.key < b.key < c.key
    ensures s == [a, b, c]
  {
    SmallestFirst(s, a, {b, c});
    SmallestFirst(s[1..], b, {c});
    SmallestFirst(s[2..], c, {});
    assert s[1..][1..] == s[2..];
  }

  /** A timer with a period longer than all others. */
  method SetLonger(timers: Timers, timer: Timer, value: nat, now: nat) returns (ghost l: RbNode)
    requires timers.Valid() && timer !in timers.pool && timer.list == null && value > 0
      && forall m <- timers.lists :: m.key < value
    modifies timers, timers.tree, Nodes(timers.tree.shape), timer
    ensures timers.Valid() && timers.pool == old(timers.pool) + {timer}
    ensures fresh(l) && l.key == value && l !in old(timers.lists) && timers.lists == old(timers.lists)[l := [timer]]
    ensures timer.elapsed == old(timer.elapsed)
    ensures forall o <- Nodes(timers.tree.shape) :: o in old(Nodes(timers.tree.shape)) || fresh(o)
  {
    hide Fitting, Known, Runs, Nodes, Aged, Parted;
    ghost var at := timers.Set(timer, Idle, value, now);
    l := at;
    timers.Ruled();
    assert [] + [timer] == [timer];
  }

  /** The walk over three lists. */
  lemma ThreeLists(timers: Timers, l1: RbNode, l2: RbNode, l3: RbNode)
    requires timers.Ok() && timers.lists.Keys == {l1, l2, l3} && l1.key < l2.key < l3.key
    ensures Head(timers.tree.shape) == l1 && l1 in Nodes(timers.tree.shape) && Onward(timers.tree.shape, l1) == l3
  {
    var t := timers.tree.shape;
    timers.Walk();
    timers.Ruled();
    hide Timers.Ok, Nodes, Onward, Head, RedBlack;
    ThreeInOrder(InOrder(t), l1, l2, l3);
    W.FirstAndThird(t);
    W.WalkIs(t);
    assert W.GoesOn(t, W.WalkOf(t), null, 0);
  }

  /** What the walk leaves of three lists, when all has elapsed. */
  lemma MiddleLeft(was: Lists, cut: map<RbNode, nat>, before: map<Timer, Before>, walk: seq<RbNode>, l1: RbNode,
                   l2: RbNode, l3: RbNode,
                   t1: Timer, t2: Timer, t3: Timer)
    requires was == map[l1 := [t1], l2 := [t2], l3 := [t3]] && l1.key == 1 && l2.key == 2 && l3.key == 3
    requires cut.Keys == was.Keys && forall l <- was :: cut[l] <= |was[l]|
    requires Climbing(walk) && |walk| > 1 && walk[0] == l1 && walk[1] == l3
    requires GoneThrough(was, cut, before, Idle, 3, Visited(walk))
      && NoneLeftBehind(was, cut, before, Idle, 3, Visited(walk))
    requires t1 != t2 && t2 != t3 && t1 != t3
    ensures cut[l1] == 1 && cut[l2] == 0 && cut[l3] == 1
    ensures Fired(was, cut) == {t1, t3}
  {
    forall i | 0 <= i < |walk| ensures walk[i] != l2 {
      assert i < 2 || walk[1].key < walk[i].key;
    }
    assert walk[0] in Visited(walk) && walk[1] in Visited(walk);
    assert was[l1][0] == t1 && was[l2][0] == t2 && was[l3][0] == t3;
    forall t ensures t in Fired(was, cut) <==> t == t1 || t == t3 {
      if t == t1 { assert 0 < cut[l1]; }
      if t == t3 { assert 0 < cut[l3]; }
    }
  }

  /** Three timers of periods 1, 2 and 3. */
  method SetThree(now: nat)
    returns (timers: Timers, t1: Timer, t2: Timer, t3: Timer, ghost l1: RbNode, ghost l2: RbNode, ghost l3: RbNode)
    ensures timers.Valid() && timers.lists == map[l1 := [t1], l2 := [t2], l3 := [t3]] && timers.pool == {t1, t2, t3}
    ensures l1.key == 1 && l2.key == 2 && l3.key == 3 && t1 != t2 && t2 != t3 && t1 != t3
    ensures !t1.elapsed && !t2.elapsed && !t3.elapsed
    ensures fresh(timers) && fresh(timers.tree) && fresh(l1) && fresh(l2) && fresh(l3) && fresh(t1) && fresh(t2)
      && fresh(t3)
  {
    hide Timers.Ok, Nodes, NoneEmpty, Timers.Valid;
    timers := new Timers();
    timers.Ready();
    timers.Ruled();
    t1 := NewTimer();
    t2 := NewTimer();
    t3 := NewTimer();
    l1 := SetLonger(timers, t1, 1, now);
    assert timers.lists == map[l1 := [t1]] && timers.pool == {t1};
    l2 := SetLonger(timers, t2, 2, now);
    assert timers.lists == map[l1 := [t1], l2 := [t2]] && timers.pool == {t1, t2};
    l3 := SetLonger(timers, t3, 3, now);
  }

  /** All three have elapsed: the first and the third fire, and the second does not. */
  method MiddlePassedOver(now: nat) returns (timers: Timers, t1: Timer, t2: Timer, t3: Timer, count: nat)
    ensures t1.elapsed && !t2.elapsed && t3.elapsed && count == 2
    ensures timers.Valid() && Runs(timers.lists, t2, 2) && Elapsed(Idle, 3, t2.issued, 2)
  {
    hide Timers.Ok, Nodes, Onward, Head, Due, NoneEmpty, GoneThrough, NoneLeftBehind, Visited, Climbing, Fired, Extends;
    ghost var l1, l2, l3, cut, walk, shapes;
    timers, t1, t2, t3, l1, l2, l3 := SetThree(now);
    ThreeLists(timers, l1, l2, l3);
    timers.Ruled();
    assert |{t1, t3}| == 2;
    ghost var was, before, v := timers.lists, map t | t in timers.pool :: Before(t.issued, t.elapsed), timers.version;
    count, cut, walk, shapes := timers.Process(Idle, 3, []);
    assert GoesOn(walk, shapes, null, 0);
    MiddleLeft(was, cut, before, walk, l1, l2, l3, t1, t2, t3);
    MiddleStays(was, cut, before, timers.lists, v, timers.pool, l1, l2, l3, t1, t2, t3);
  }

  lemma MiddleStays(was: Lists, cut: map<RbNode, nat>, before: map<Timer, Before>, ls: Lists, v: nat, pool: set<Timer>,
                    l1: RbNode, l2: RbNode, l3: RbNode, t1: Timer, t2: Timer, t3: Timer)
    requires was == map[l1 := [t1], l2 := [t2], l3 := [t3]] && l1.key < l2.key < l3.key
    requires Since(was, cut, ls, v, pool) && Flagged(was, cut, before, pool)
    requires cut[l1] == 1 && cut[l2] == 0 && cut[l3] == 1 && Fired(was, cut) == {t1, t3} && t2 != t1 && t2 != t3
    requires t2 in before && !before[t2].elapsed
    ensures t1.elapsed && !t2.elapsed && t3.elapsed && Runs(ls, t2, l2.key)
  {
    assert was[l1][0] == t1 && was[l3][0] == t3;
    assert Extends(ls[l2], was[l2][cut[l2]..], v);
    assert was[l2][cut[l2]..] == [t2] && ls[l2][0] == t2;
  }
}
