/** Bodies: how many bytes are delivered, which lengths are read exactly, and that chunked
    coding is undone. */
module HttpBody {
  import opened Options
  import opened HttpTypes
  import opened HttpSwitch
  import opened HttpRun
  import opened HttpMarks
  import opened HttpReference

  // ---------- conservation ----------

  function BodyTotal(log: seq<Event>): nat {
    if log == [] then 0 else BodyTotal(log[..|log| - 1]) + BodySize(log[|log| - 1])
  }

  function BodySize(e: Event): nat {
    match e
    case Data(Body, bytes) => |bytes|
    case _ => 0
  }

  lemma TotalPut(log: seq<Event>, e: Event)
    ensures BodyTotal(Put(log, e)) == BodyTotal(log) + BodySize(e)
  {
    var r := Put(log, e);
    if r == log + [e] {
      assert r[..|r| - 1] == log;
    } else {
      assert r[..|r| - 1] == log[..|log| - 1];
    }
  }

  /** The bytes of the current body, or chunk, still to come. */
  function Owed(p: Parser): nat {
    if p.state.BodyIdentity? || p.state.ChunkData? then p.contentLength else 0
  }

  /** What a pass adds to the length announced: the content length at the end of the head,
      the size at the end of a chunk's first line, and each byte of a body that ends with
      the input. */
  function Announced(p: Parser, q: Parser): nat {
    if p.state.HeadersDone? || p.state.ChunkSizeAlmostDone? then Owed(q)
    else if p.state.BodyIdentityEof? then 1
    else 0
  }

  function AnnouncedByByte(d: Decision, p: Parser, b: Byte): nat
    decreases Rank(p.state)
  {
    match Switch(d, p, b)
    case Next(q, _) => Announced(p, q)
    case Again(q, _) => SwitchMarks(d, p, b); Announced(p, q) + AnnouncedByByte(d, q, b)
    case _ => 0
  }

  /** All that is announced in a run. */
  function AnnouncedBy(d: Decision, c: Conf, bytes: seq<Byte>): nat
    decreases |bytes|
  {
    if bytes == [] || !c.status.Running? then 0
    else
      var here := if One(d, c, bytes[0]).status.Failed? then 0 else AnnouncedByByte(d, Counted(c.p), bytes[0]);
      here + AnnouncedBy(d, One(d, c, bytes[0]), bytes[1..])
  }

  /** The body bytes that a pass delivers. */
  function Gain(act: Act): nat { if act == Mark(Body) || act == Last then 1 else 0 }

  predicate Balanced(p: Parser, o: Outcome) {
    match o
    case Next(q, act) => Owed(q) + Gain(act) == Owed(p) + Announced(p, q)
    case Again(q, act) => Owed(q) + Gain(act) == Owed(p) + Announced(p, q)
    case Stop(q, act) => Owed(q) == 0 == Owed(p)
    case _ => true
  }

  predicate Headed(s: State) { !GroupOf(s).GBody? && !GroupOf(s).GChunkHead? && !GroupOf(s).GHeadEnd? }

  /** Before the end of the head, no pass enters a body. */
  predicate Bodiless(o: Outcome) {
    match o
    case Next(q, act) => Owed(q) == 0 && Gain(act) == 0 && !q.state.BodyIdentityEof?
    case Again(q, act) => Owed(q) == 0 && Gain(act) == 0 && !q.state.BodyIdentityEof?
    case _ => !o.Stop?
  }

  lemma BodilessStart(d: Decision, p: Parser, b: Byte)
    requires Headed(p.state) && (GroupOf(p.state).GStart? || GroupOf(p.state).GMethod? || GroupOf(p.state).GUrl?
      || GroupOf(p.state).GDead?)
    ensures Bodiless(Switch(d, p, b))
  {
    UrlCharStays(p.state, b);
    UrlCharStays(ReqServerStart, b);
    hide MethodName, UrlChar, Matcher, OtherMethod, FirstMethod, StartsMethod;
  }

  lemma BodilessLine(d: Decision, p: Parser, b: Byte)
    requires GroupOf(p.state).GStatus? || GroupOf(p.state).GLine?
    ensures Bodiless(Switch(d, p, b))
  {
  }

  lemma BodilessHeader(d: Decision, p: Parser, b: Byte)
    requires GroupOf(p.state) in {GFieldStart, GField, GValueStart, GValue, GLineEnd}
    ensures Bodiless(Switch(d, p, b))
  {
    hide Token, FieldChar, Match;
  }

  lemma BalancedBody(d: Decision, p: Parser, b: Byte)
    requires Good(p, 1) && !Headed(p.state)
    ensures Balanced(p, Switch(d, p, b))
  {
    NewMessageState(p);
    hide MethodName, NameLength, FieldRecogniser, ValueRecogniser, NeedsEof, ShouldKeepAlive;
  }

  lemma SwitchBalanced(d: Decision, p: Parser, b: Byte)
    requires Good(p, 1)
    ensures Balanced(p, Switch(d, p, b))
  {
    hide Switch, Good;
    match GroupOf(p.state)
    case GStart | GMethod | GUrl | GDead => BodilessStart(d, p, b);
    case GStatus | GLine => BodilessLine(d, p, b);
    case GFieldStart | GField | GValueStart | GValue | GLineEnd => BodilessHeader(d, p, b);
    case _ => BalancedBody(d, p, b);
  }

  lemma TotalPass(log: seq<Event>, p: Parser, q: Parser, act: Act, b: Byte)
    requires Disciplined(p, Next(q, act))
    ensures BodyTotal(ByteLog(PassLog(log, act, b), q.state, act, b)) == BodyTotal(log) + Gain(act)
  {
    hide Put, BodyTotal, BodyHold;
    forall e: Event ensures BodyTotal(Put(log, e)) == BodyTotal(log) + BodySize(e) { TotalPut(log, e); }
  }

  lemma TotalOther(log: seq<Event>, act: Act, b: Byte)
    requires !act.Mark?
    ensures BodyTotal(PassLog(log, act, b)) == BodyTotal(log) + Gain(act)
  {
    hide Put, BodyTotal;
    forall e: Event ensures BodyTotal(Put(log, e)) == BodyTotal(log) + BodySize(e) { TotalPut(log, e); }
  }

  lemma {:induction false} PassesBalanced(d: Decision, p: Parser, log: seq<Event>, used: int, b: Byte)
    requires Good(p, 1)
    ensures var c := Passes(d, p, log, used, b);
      c.status.Failed? || BodyTotal(c.log) + Owed(c.p) == BodyTotal(log) + Owed(p) + AnnouncedByByte(d, p, b)
    decreases Rank(p.state)
  {
    hide Switch, Good, Owed, BodyTotal, PassLog, ByteLog, Announced;
    SwitchGood(d, p, b);
    SwitchMarks(d, p, b);
    SwitchBalanced(d, p, b);
    match Switch(d, p, b)
    case Next(q, act) => TotalPass(log, p, q, act, b);
    case Again(q, act) =>
      TotalOther(log, act, b);
      PassesBalanced(d, q, PassLog(log, act, b), used, b);
    case Stop(_, act) => TotalOther(log, act, b);
    case Fail(_, _) =>
  }

  lemma OneBalanced(d: Decision, c: Conf, b: Byte)
    requires Good(c.p, 0) && c.status.Running?
    ensures var o := One(d, c, b);
      o.status.Failed?
        || BodyTotal(o.log) + Owed(o.p) == BodyTotal(c.log) + Owed(c.p) + AnnouncedByByte(d, Counted(c.p), b)
  {
    hide Good, BodyTotal, AnnouncedByByte, Passes;
    var p := Counted(c.p);
    if !(ParsingHeader(p.state) && p.nread > MAX_HEADER_SIZE) {
      GoodCount(c.p);
      CountedGood(c.p);
      PassesBalanced(d, p, c.log, c.used, b);
    }
  }

  /** Over any run, of any number of messages: the body bytes delivered and those still to
      come are those announced by content lengths and chunk sizes. */
  lemma {:induction false} BodyConservation(d: Decision, c: Conf, bytes: seq<Byte>)
    requires Good(c.p, 0) && c.status.Running?
    ensures var r := Run(d, c, bytes);
      r.status.Failed? || BodyTotal(r.log) + Owed(r.p) == BodyTotal(c.log) + Owed(c.p) + AnnouncedBy(d, c, bytes)
    decreases |bytes|
  {
    hide Good, BodyTotal, One, Owed;
    if bytes != [] {
      var o := One(d, c, bytes[0]);
      OneFine(d, c, bytes[0]);
      OneBalanced(d, c, bytes[0]);
      if o.status.Running? {
        BodyConservation(d, o, bytes[1..]);
      } else {
        EndedRun(d, o, bytes[1..]);
      }
    }
  }

  /** A message is complete only when nothing of its body is to come. */
  lemma CompleteOwesNothing(d: Decision, p: Parser, b: Byte)
    requires Good(p, 1)
    ensures match Switch(d, p, b)
      case Next(q, act) => act == Notify(MessageComplete) ==> Owed(p) == Owed(q) == 0
      case Stop(q, act) => Owed(p) == Owed(q) == 0
      case _ => true
  {
    hide Switch, Good;
    SwitchBalanced(d, p, b);
    SwitchMarks(d, p, b);
  }

  // ---------- the announced lengths ----------

  /** The digits of a length read one after another, with the source's test for overflow. */
  function Stored(base: nat, digits: seq<nat>): Option<nat> {
    if digits == [] then None
    else if |digits| == 1 then Some(digits[0])
    else
      match Stored(base, digits[..|digits| - 1])
      case None => None
      case Some(v) => MoreDigits(base, v, digits[|digits| - 1])
  }

  predicate Digits(base: nat, digits: seq<nat>) {
    digits != [] && 2 <= base <= 16 && forall i | 0 <= i < |digits| :: digits[i] < base
  }

  lemma {:induction false} StoredBound(base: nat, digits: seq<nat>)
    requires Digits(base, digits)
    ensures Stored(base, digits).Some? ==> Stored(base, digits).value < ULLONG_MAX
  {
    if |digits| > 1 { StoredBound(base, digits[..|digits| - 1]); }
  }

  lemma DigitExact(base: nat, v: nat, digit: nat)
    requires 2 <= base <= 16 && v < ULLONG_MAX
    ensures MoreDigits(base, v, digit) == Some(v * base + digit) <==> v * base + digit < ULLONG_MAX
    ensures MoreDigits(base, v, digit).Some? ==> MoreDigits(base, v, digit).value < ULLONG_MAX
  {
    var t := v * base + digit;
    assert v * base - v == v * (base - 1) >= 0;
    if t < TWO64 { assert t % TWO64 == t; }
  }

  /** One more digit, after the digits of `n`. */
  lemma NextDigitExact(base: nat, stored: Option<nat>, n: nat, digit: nat)
    requires 2 <= base <= 16 && (stored == Some(n) <==> n < ULLONG_MAX) && (stored.Some? ==> stored.value < ULLONG_MAX)
    ensures (stored.Some? && MoreDigits(base, stored.value, digit) == Some(n * base + digit)) <==>
      n * base + digit < ULLONG_MAX
  {
    hide MoreDigits;
    if stored.Some? { DigitExact(base, stored.value, digit); }
    if n >= ULLONG_MAX { assert n * base >= n; }
  }

  /** Digits are stored as the number they stand for exactly when it is below 2^64 - 1. */
  lemma {:induction false} StoredExactly(base: nat, digits: seq<nat>)
    requires Digits(base, digits)
    ensures Stored(base, digits) == Some(Number(base, digits)) <==> Number(base, digits) < ULLONG_MAX
  {
    hide MoreDigits;
    var init, last := digits[..|digits| - 1], digits[|digits| - 1];
    if |digits| == 1 {
      assert init == [] && Number(base, init) == 0;
    } else {
      StoredExactly(base, init);
      StoredBound(base, init);
      NextDigitExact(base, Stored(base, init), Number(base, init), last);
    }
  }

  function TwentyOne(zeros: nat): seq<nat> { [2, 1] + seq(zeros, i => 0) }

  function Ten(n: nat): nat { if n == 0 then 1 else 10 * Ten(n - 1) }

  lemma {:induction false} TwentyOneNumber(zeros: nat)
    ensures Number(10, TwentyOne(zeros)) == 21 * Ten(zeros) && Digits(10, TwentyOne(zeros))
  {
    var s := TwentyOne(zeros);
    if zeros == 0 {
      assert s == [2, 1] && s[..1] == [2] && [2][..0] == [];
      assert Number(10, [2]) == 2;
    } else {
      TwentyOneNumber(zeros - 1);
      assert s[..|s| - 1] == TwentyOne(zeros - 1);
    }
  }

  /** The test misses some wraps: 21 followed by 18 zeros is accepted, and stored as another
      number. */
  lemma WrapMissed()
    ensures Number(10, TwentyOne(18)) == 21_000_000_000_000_000_000
    ensures Stored(10, TwentyOne(18)) == Some(2_553_255_926_290_448_384)
  {
    var digits := TwentyOne(18);
    assert Ten(6) == 1_000_000 && Ten(12) == 1_000_000_000_000;
    assert Ten(17) == 100_000_000_000_000_000;
    TwentyOneNumber(17);
    TwentyOneNumber(18);
    assert digits[..|digits| - 1] == TwentyOne(17);
    StoredExactly(10, TwentyOne(17));
  }

  // ---------- reading the lengths ----------

  predicate AllDecimal(ds: seq<Byte>) { ds != [] && AllDigits(ds) }

  /** A parser at the first byte of the value of a Content-Length header. */
  predicate AtLength(p: Parser) { p.state.HeaderValueStart? && p.headerState.ContentLength? && p.errno.OK? }

  function LengthRead(p: Parser, count: nat, v: nat): Parser {
    p.(state := HeaderValue, index := 0, nread := p.nread + count, contentLength := v)
  }

  lemma FirstLengthDigit(d: Decision, p: Parser, log: seq<Event>, used: int, b: Byte)
    requires AtLength(p) && IsNum(b) && p.nread + 1 <= MAX_HEADER_SIZE
    ensures One(d, Conf(p, log, used, Running), b)
      == Conf(LengthRead(p, 1, Digit(b)), Put(log, Data(Value, [b])), used + 1, Running)
  {
    hide Switch, Put;
    ValueStartPass(d, Counted(p), b);
    OneStep(d, Conf(p, log, used, Running), b);
  }

  lemma NextLengthDigit(d: Decision, p: Parser, log: seq<Event>, used: int, b: Byte)
    requires p.state.HeaderValue? && p.headerState.ContentLength? && IsNum(b) && p.nread + 1 <= MAX_HEADER_SIZE
    ensures var o := One(d, Conf(p, log, used, Running), b);
      match MoreDigits(10, p.contentLength, Digit(b))
      case None => o.status.Failed?
      case Some(v) =>
        o == Conf(p.(nread := p.nread + 1, contentLength := v), Put(log, Data(Value, [b])), used + 1, Running)
  {
    hide Switch, Put, MoreDigits;
    ValuePass(d, Counted(p), b);
    OneStep(d, Conf(p, log, used, Running), b);
  }

  /** The digits of a Content-Length value, as the parser reads them. */
  lemma {:induction false} LengthRun(d: Decision, p: Parser, log: seq<Event>, used: int, ds: seq<Byte>)
    requires AtLength(p) && AllDecimal(ds) && p.nread + |ds| <= MAX_HEADER_SIZE
    ensures var r := Run(d, Conf(p, log, used, Running), ds);
      match Stored(10, Decimals(ds))
      case None => !r.status.Running?
      case Some(v) => r == Conf(LengthRead(p, |ds|, v), Put(log, Data(Value, ds)), used + |ds|, Running)
    decreases |ds|
  {
    hide One, Put, MoreDigits, Run;
    var init, last := ds[..|ds| - 1], ds[|ds| - 1];
    var c := Conf(p, log, used, Running);
    assert ds == init + [last];
    if init == [] {
      FirstLengthDigit(d, p, log, used, last);
      RunPush1(d, c, last);
    } else {
      LengthRun(d, p, log, used, init);
      assert Decimals(ds)[..|ds| - 1] == Decimals(init);
      var m := Run(d, c, init);
      if m.status.Running? {
        RunPush(d, c, init, last);
        NextLengthDigit(d, m.p, m.log, m.used, last);
        PutTwice(log, Value, init, [last]);
      } else {
        RunConcat(d, c, init, [last]);
        EndedRun(d, m, [last]);
      }
    }
  }

  lemma RunPush1(d: Decision, c: Conf, b: Byte)
    requires c.status.Running?
    ensures Run(d, c, [b]) == One(d, c, b)
  {
    hide One;
    assert [b][1..] == [];
  }

  /** A Content-Length value is accepted and stored as the number it stands for exactly when
      that number is below 2^64 - 1. */
  lemma ContentLengthExact(d: Decision, p: Parser, log: seq<Event>, used: int, ds: seq<Byte>)
    requires AtLength(p) && AllDecimal(ds) && p.nread + |ds| <= MAX_HEADER_SIZE
    ensures var r := Run(d, Conf(p, log, used, Running), ds);
      r.status.Running? && r.p.contentLength == Number(10, Decimals(ds)) <==> Number(10, Decimals(ds)) < ULLONG_MAX
  {
    hide Put, Stored, Run;
    LengthRun(d, p, log, used, ds);
    StoredExactly(10, Decimals(ds));
  }

  const TWENTY_ONE: seq<Byte> := ['2', '1'] + seq(18, i => '0')

  /** The parser, too: with these twenty bytes it goes on, with another length. */
  lemma WrapAccepted(d: Decision, p: Parser, log: seq<Event>, used: int)
    requires AtLength(p) && p.nread + 20 <= MAX_HEADER_SIZE
    ensures |TWENTY_ONE| == 20 && AllDecimal(TWENTY_ONE)
      && Number(10, Decimals(TWENTY_ONE)) == 21_000_000_000_000_000_000
    ensures var r := Run(d, Conf(p, log, used, Running), TWENTY_ONE);
      r.status.Running? && r.p.state.HeaderValue? && r.p.contentLength == 2_553_255_926_290_448_384
  {
    hide Run, Stored, Number;
    WrapMissed();
    assert Decimals(TWENTY_ONE) == TwentyOne(18);
    LengthRun(d, p, log, used, TWENTY_ONE);
  }
}
