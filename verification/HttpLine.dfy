/** The first line of a message, as a client or a server may write it. */
module HttpLine {
  import opened Options
  import opened HttpTypes
  import opened HttpSwitch
  import opened HttpRun
  import opened HttpMarks
  import opened HttpReference
  import opened HttpBody
  import opened HttpNames
  import opened HttpUrlDelivered

  /** The parser takes both ends of a line. */
  datatype Eol = Lf | CrLf

  function EolBytes(e: Eol): seq<Byte> { if e.Lf? then [LF] else [CR, LF] }

  function Spaces(n: nat): (r: seq<Byte>)
    ensures |r| == n && forall i | 0 <= i < n :: r[i] == ' '
  {
    seq(n, i => ' ')
  }

  /** A number of a first line: digits, for at most 999. */
  predicate Small(ds: seq<Byte>) { ds != [] && AllDigits(ds) && Number(10, Decimals(ds)) <= 999 }

  function ValueOf(ds: seq<Byte>): nat
    requires Small(ds)
  {
    Number(10, Decimals(ds))
  }

  const PROTOCOL: seq<Byte> := ['H', 'T', 'T', 'P', '/']

  /** The version of a request; without one, it is 0.9. */
  datatype Version = Implied | Written(spaces: nat, major: seq<Byte>, minor: seq<Byte>)

  predicate ProperVersion(v: Version) { v.Written? ==> Small(v.major) && v.major[0] != '0' && Small(v.minor) }

  function Major(v: Version): nat
    requires ProperVersion(v)
  {
    if v.Implied? then 0 else ValueOf(v.major)
  }

  function Minor(v: Version): nat
    requires ProperVersion(v)
  {
    if v.Implied? then 9 else ValueOf(v.minor)
  }

  /** Empty lines, a method, spaces, a URL, the version, the end of the line. */
  datatype RequestLine = RequestLine(before: seq<Byte>, verb: Method, spaces: nat, url: seq<Byte>, version: Version,
                                     eol: Eol)

  predicate ProperLine(l: RequestLine) {
    && (forall i | 0 <= i < |l.before| :: l.before[i] == CR || l.before[i] == LF)
    && UrlMayEnd(U.Walk(UrlStart(l.verb), l.url)) && ProperVersion(l.version)
  }

  function Dotted(major: seq<Byte>, minor: seq<Byte>): seq<Byte> { PROTOCOL + (major + (['.'] + minor)) }

  function VersionBytes(v: Version): seq<Byte> {
    if v.Implied? then [] else [' '] + (Spaces(v.spaces) + Dotted(v.major, v.minor))
  }

  function LineBytes(l: RequestLine): seq<Byte> {
    l.before + ((NameBytes(l.verb) + [' ']) +
      (Spaces(l.spaces) + (l.url + (VersionBytes(l.version) + EolBytes(l.eol)))))
  }

  /** Empty lines, a version, spaces, a status code, a reason, the end of the line. */
  datatype StatusLine =
    StatusLine(before: seq<Byte>, major: seq<Byte>, minor: seq<Byte>, spaces: nat, code: seq<Byte>,
               reason: Option<seq<Byte>>, eol: Eol)

  predicate ProperStatus(l: StatusLine) {
    && (forall i | 0 <= i < |l.before| :: l.before[i] == CR || l.before[i] == LF)
    && Small(l.major) && Small(l.minor) && Small(l.code)
    && (l.reason.Some? ==> CR !in l.reason.value && LF !in l.reason.value)
  }

  function ReasonBytes(reason: Option<seq<Byte>>): seq<Byte> { if reason.None? then [] else [' '] + reason.value }

  function StatusBytes(l: StatusLine): seq<Byte> {
    l.before + (Dotted(l.major, l.minor) +
      ([' '] + (Spaces(l.spaces) + (l.code + (ReasonBytes(l.reason) + EolBytes(l.eol))))))
  }

  // ---------- bytes that change nothing ----------

  predicate IsBlank(b: Byte) { b == ' ' || b == '\t' }

  /** The byte is passed over in the state. */
  predicate Idle(s: State, b: Byte) {
    match s
    case Dead | StartReq => b == CR || b == LF
    case ReqSpacesBeforeUrl | ReqHttpStart | ResFirstStatusCode => b == ' '
    case ResStatus => b != CR && b != LF
    case HeaderValueStart => IsBlank(b)
    case _ => false
  }

  lemma IdleSwitch(d: Decision, p: Parser, b: Byte)
    requires Idle(p.state, b)
    ensures Switch(d, p, b) == Next(p, Quiet) && Live(p.state).None?
  {
    hide MethodName, UrlChar, Token, NeedsEof;
  }

  /** A byte that moves the parser on and does nothing else. */
  lemma QuietByte(d: Decision, c: Conf, b: Byte, q: Parser)
    requires c.status.Running? && c.p.nread + 1 <= MAX_HEADER_SIZE
    requires Switch(d, Counted(c.p), b) == Next(q, Quiet) && Live(q.state).None?
    ensures One(d, c, b) == Conf(q, c.log, c.used + 1, Running)
  {
    hide Switch, Live, One, Passes;
    OneStep(d, c, b);
  }

  lemma {:induction false} IdleRun(d: Decision, c: Conf, bytes: seq<Byte>)
    requires c.status.Running? && c.p.nread + |bytes| <= MAX_HEADER_SIZE && ParsingHeader(c.p.state)
    requires forall i | 0 <= i < |bytes| :: Idle(c.p.state, bytes[i])
    ensures Run(d, c, bytes) == Conf(c.p.(nread := c.p.nread + |bytes|), c.log, c.used + |bytes|, Running)
    decreases |bytes|
  {
    hide One, Switch, Live, Idle;
    if bytes != [] {
      IdleSwitch(d, Counted(c.p), bytes[0]);
      QuietByte(d, c, bytes[0], Counted(c.p));
      IdleRun(d, One(d, c, bytes[0]), bytes[1..]);
    }
  }

  // ---------- the words and numbers of a first line ----------

  predicate OnLine(s: State) { GroupOf(s).GLine? || GroupOf(s).GStatus? }

  function LineSwitch(p: Parser, b: Byte): Outcome
    requires OnLine(p.state)
  {
    if GroupOf(p.state).GLine? then RequestLineEnd(p, b) else HttpSwitch.StatusLine(p, b)
  }

  lemma LineByte(d: Decision, c: Conf, b: Byte, q: Parser)
    requires c.status.Running? && OnLine(c.p.state) && c.p.nread + 1 <= MAX_HEADER_SIZE
    requires LineSwitch(Counted(c.p), b) == Next(q, Quiet) && Live(q.state).None?
    ensures One(d, c, b) == Conf(q, c.log, c.used + 1, Running)
  {
    hide Switch, RequestLineEnd, HttpSwitch.StatusLine, Live;
    if GroupOf(c.p.state).GLine? { LinePass(d, Counted(c.p), b); } else { StatusPass(d, Counted(c.p), b); }
    QuietByte(d, c, b, q);
  }

  /** The states on the way from `H` to the first digit, in a request and in a response. */
  function ProtocolState(request: bool, i: nat): State {
    match i
    case 0 => if request then ReqHttpStart else StartRes
    case 1 => if request then ReqHttpH else ResH
    case 2 => if request then ReqHttpHT else ResHT
    case 3 => if request then ReqHttpHTT else ResHTT
    case 4 => if request then ReqHttpHTTP else ResHTTP
    case _ => if request then ReqFirstHttpMajor else ResFirstHttpMajor
  }

  lemma ProtocolStep(p: Parser, request: bool, i: nat)
    requires 1 <= i < 5 && p.state == ProtocolState(request, i)
    ensures OnLine(p.state) && Live(ProtocolState(request, i + 1)).None?
    ensures LineSwitch(p, PROTOCOL[i]) == Next(p.(state := ProtocolState(request, i + 1)), Quiet)
  {
    assert PROTOCOL == ['H', 'T', 'T', 'P', '/'];
  }

  lemma {:induction false} ProtocolRun(d: Decision, c: Conf, request: bool, i: nat)
    requires c.status.Running? && 1 <= i <= 5 && c.p.state == ProtocolState(request, 1)
      && c.p.nread + i - 1 <= MAX_HEADER_SIZE
    ensures Run(d, c, PROTOCOL[1..i])
      == Conf(c.p.(state := ProtocolState(request, i), nread := c.p.nread + i - 1), c.log, c.used + i - 1, Running)
    decreases i
  {
    hide One, Run, LineSwitch, Live, OnLine;
    if i == 1 {
      EmptyRun(d, c);
    } else {
      ProtocolRun(d, c, request, i - 1);
      var m := Run(d, c, PROTOCOL[1..i - 1]);
      var q := Counted(m.p);
      ProtocolStep(q, request, i - 1);
      assert PROTOCOL[1..i] == PROTOCOL[1..i - 1] + [PROTOCOL[i - 1]];
      RunPush(d, c, PROTOCOL[1..i - 1], PROTOCOL[i - 1]);
      LineByte(d, m, PROTOCOL[i - 1], q.(state := ProtocolState(request, i)));
    }
  }

  /** The numbers of first lines. */
  datatype Slot = MajorSlot | MinorSlot | CodeSlot

  function FirstDigitState(request: bool, slot: Slot): State {
    match slot
    case MajorSlot => if request then ReqFirstHttpMajor else ResFirstHttpMajor
    case MinorSlot => if request then ReqFirstHttpMinor else ResFirstHttpMinor
    case CodeSlot => ResFirstStatusCode
  }

  function DigitState(request: bool, slot: Slot): State {
    match slot
    case MajorSlot => if request then ReqHttpMajor else ResHttpMajor
    case MinorSlot => if request then ReqHttpMinor else ResHttpMinor
    case CodeSlot => ResStatusCode
  }

  /** The parser after `n` bytes of a number. */
  function WithNumber(p: Parser, request: bool, slot: Slot, v: nat, n: nat): Parser {
    var q := p.(state := DigitState(request, slot), nread := p.nread + n);
    match slot
    case MajorSlot => q.(major := v)
    case MinorSlot => q.(minor := v)
    case CodeSlot => q.(statusCode := v)
  }

  lemma FirstDigit(d: Decision, c: Conf, request: bool, slot: Slot, b: Byte)
    requires c.status.Running? && c.p.state == FirstDigitState(request, slot) && c.p.nread + 1 <= MAX_HEADER_SIZE
    requires IsNum(b) && (request && slot.MajorSlot? ==> b != '0')
    ensures One(d, c, b) == Conf(WithNumber(c.p, request, slot, Digit(b), 1), c.log, c.used + 1, Running)
  {
    hide One, Passes, Switch;
    LineByte(d, c, b, WithNumber(c.p, request, slot, Digit(b), 1));
  }

  lemma NextDigit(d: Decision, c: Conf, p: Parser, request: bool, slot: Slot, v: nat, n: nat, b: Byte)
    requires c.status.Running? && c.p == WithNumber(p, request, slot, v, n) && c.p.nread + 1 <= MAX_HEADER_SIZE
    requires IsNum(b) && v * 10 + Digit(b) <= 999
    ensures One(d, c, b) == Conf(WithNumber(p, request, slot, v * 10 + Digit(b), n + 1), c.log, c.used + 1, Running)
  {
    hide One, Passes, Switch, LineSwitch;
    DigitSwitch(Counted(c.p), request, slot, v, b);
    LineByte(d, c, b, WithNumber(p, request, slot, v * 10 + Digit(b), n + 1));
  }

  lemma DigitSwitch(p: Parser, request: bool, slot: Slot, v: nat, b: Byte)
    requires p == WithNumber(p, request, slot, v, 0) && IsNum(b) && v * 10 + Digit(b) <= 999
    ensures Live(p.state).None? && OnLine(p.state)
      && LineSwitch(p, b) == Next(WithNumber(p, request, slot, v * 10 + Digit(b), 0), Quiet)
  {
    match slot
    case MajorSlot => assert LineSwitch(p, b) == MajorDigit(p, b, FirstDigitState(request, MinorSlot));
    case MinorSlot => assert LineSwitch(p, b) == MinorDigit(p, b);
    case CodeSlot =>
  }

  lemma SmallInit(ds: seq<Byte>)
    requires Small(ds) && |ds| > 1
    ensures var init := ds[..|ds| - 1];
      Small(init) && ValueOf(ds) == ValueOf(init) * 10 + Digit(ds[|ds| - 1]) && init[0] == ds[0]
  {
    assert Decimals(ds)[..|ds| - 1] == Decimals(ds[..|ds| - 1]);
  }

  lemma SmallOne(b: Byte)
    requires IsNum(b)
    ensures Small([b]) && ValueOf([b]) == Digit(b)
  {
    assert Decimals([b]) == [Digit(b)] && [Digit(b)][..0] == [];
  }

  /** A number, of any number of digits. */
  lemma {:induction false} NumberRun(d: Decision, c: Conf, request: bool, slot: Slot, ds: seq<Byte>)
    requires c.status.Running? && c.p.state == FirstDigitState(request, slot) && Small(ds)
    requires (request && slot.MajorSlot? ==> ds[0] != '0') && c.p.nread + |ds| <= MAX_HEADER_SIZE
    ensures Run(d, c, ds) == Conf(WithNumber(c.p, request, slot, ValueOf(ds), |ds|), c.log, c.used + |ds|, Running)
    decreases |ds|
  {
    hide One, Run, WithNumber, Small, ValueOf;
    SmallDigits(ds);
    var init, last := ds[..|ds| - 1], ds[|ds| - 1];
    assert ds == init + [last];
    if init == [] {
      SmallOne(last);
      FirstDigit(d, c, request, slot, last);
      RunPush1(d, c, last);
    } else {
      SmallInit(ds);
      NumberRun(d, c, request, slot, init);
      var m := Run(d, c, init);
      WithNumberState(c.p, request, slot, ValueOf(init), |init|);
      RunPush(d, c, init, last);
      NextDigit(d, m, c.p, request, slot, ValueOf(init), |init|, last);
    }
  }

  lemma SmallDigits(ds: seq<Byte>)
    requires Small(ds)
    ensures ds != [] && AllDigits(ds) && ValueOf(ds) <= 999
  {
  }

  lemma WithNumberState(p: Parser, request: bool, slot: Slot, v: nat, n: nat)
    ensures var q := WithNumber(p, request, slot, v, n); q.state == DigitState(request, slot) && q.nread == p.nread + n
  {
  }

  lemma Dot(d: Decision, c: Conf, request: bool)
    requires c.status.Running? && c.p.state == DigitState(request, MajorSlot) && c.p.nread + 1 <= MAX_HEADER_SIZE
    ensures One(d, c, '.')
      == Conf(c.p.(state := FirstDigitState(request, MinorSlot), nread := c.p.nread + 1), c.log, c.used + 1, Running)
  {
    hide One, Passes, Switch;
    LineByte(d, c, '.', c.p.(state := FirstDigitState(request, MinorSlot), nread := c.p.nread + 1));
  }

  lemma {:induction false} DotNumber(d: Decision, c: Conf, request: bool, minor: seq<Byte>)
    requires c.status.Running? && c.p.state == DigitState(request, MajorSlot) && Small(minor)
      && c.p.nread + 1 + |minor| <= MAX_HEADER_SIZE
    ensures Run(d, c, ['.'] + minor)
      == Conf(c.p.(state := DigitState(request, MinorSlot), minor := ValueOf(minor), nread := c.p.nread + 1 + |minor|),
              c.log, c.used + 1 + |minor|, Running)
  {
    hide One, Run, Small, ValueOf;
    Dot(d, c, request);
    RunPush1(d, c, '.');
    NumberRun(d, Run(d, c, ['.']), request, MinorSlot, minor);
    RunConcat(d, c, ['.'], minor);
  }

  /** A version after its `H`. */
  lemma VersionRun(d: Decision, c: Conf, request: bool, major: seq<Byte>, minor: seq<Byte>)
    requires c.status.Running? && c.p.state == ProtocolState(request, 1) && Small(major) && Small(minor)
      && (request ==> major[0] != '0')
    requires c.p.nread + |Dotted(major, minor)| - 1 <= MAX_HEADER_SIZE
    ensures Run(d, c, Dotted(major, minor)[1..])
      == Conf(c.p.(state := DigitState(request, MinorSlot), major := ValueOf(major), minor := ValueOf(minor),
                   nread := c.p.nread + |Dotted(major, minor)| - 1),
              c.log, c.used + |Dotted(major, minor)| - 1, Running)
  {
    hide One, Run, Small, ValueOf, Dotted;
    var a := PROTOCOL[1..5];
    DottedRest(major, minor);
    ProtocolRun(d, c, request, 5);
    NumberRun(d, Run(d, c, a), request, MajorSlot, major);
    DotNumber(d, Run(d, Run(d, c, a), major), request, minor);
    RunConcat(d, Run(d, c, a), major, ['.'] + minor);
    RunConcat(d, c, a, major + (['.'] + minor));
  }

  lemma DottedRest(major: seq<Byte>, minor: seq<Byte>)
    ensures |PROTOCOL| == 5 && |Dotted(major, minor)| == 6 + |major| + |minor|
    ensures Dotted(major, minor)[1..] == PROTOCOL[1..5] + (major + (['.'] + minor))
  {
    assert |PROTOCOL| == 5;
  }

  lemma DottedFirst(major: seq<Byte>, minor: seq<Byte>)
    ensures var word := Dotted(major, minor); word != [] && word == ['H'] + word[1..]
  {
    assert |PROTOCOL| == 5 && PROTOCOL[0] == 'H';
  }

  // ---------- the request line ----------

  lemma UrlFirst(d: Decision, c: Conf, b: Byte)
    requires c.status.Running? && c.p.state.ReqSpacesBeforeUrl? && c.p.nread + 1 <= MAX_HEADER_SIZE
    requires InsideUrl(UrlChar(UrlStart(c.p.verb), b))
    ensures One(d, c, b) == Conf(c.p.(state := UrlChar(UrlStart(c.p.verb), b), nread := c.p.nread + 1),
                                 Put(c.log, Data(Url, [b])), c.used + 1, Running)
  {
    hide One, Passes, Switch;
    UrlPass(d, Counted(c.p), b);
    OneStep(d, c, b);
    NoUrlBlank(UrlStart(c.p.verb), b);
    hide Put, UrlChar;
  }

  lemma NoUrlBlank(s: State, b: Byte)
    ensures !UrlChar(s, b).Dead? ==> b != ' ' && b != CR && b != LF
  {
  }

  lemma UrlByte(d: Decision, c: Conf, b: Byte)
    requires c.status.Running? && InsideUrl(c.p.state) && c.p.nread + 1 <= MAX_HEADER_SIZE
      && InsideUrl(UrlChar(c.p.state, b))
    ensures One(d, c, b) == Conf(c.p.(state := UrlChar(c.p.state, b), nread := c.p.nread + 1),
                                 Put(c.log, Data(Url, [b])), c.used + 1, Running)
  {
    hide Put, UrlChar, UrlMayEnd, Switch;
    NoUrlBlank(c.p.state, b);
    InUrlGroup(c.p.state);
    InUrlGroup(UrlChar(c.p.state, b));
    UrlPass(d, Counted(c.p), b);
  }

  lemma WalkInside(s: State, u: seq<Byte>)
    requires u != [] && !U.Walk(s, u).Dead?
    ensures InsideUrl(U.Walk(s, u)) && (|u| > 1 ==> !U.Walk(s, u[..|u| - 1]).Dead?)
  {
    UrlCharStays(U.Walk(s, u[..|u| - 1]), u[|u| - 1]);
    U.DeadStays(u[|u| - 1]);
    hide UrlChar;
  }

  /** A URL that the automaton accepts. */
  lemma {:induction false} UrlRun(d: Decision, c: Conf, u: seq<Byte>)
    requires c.status.Running? && c.p.state.ReqSpacesBeforeUrl? && c.p.nread + |u| <= MAX_HEADER_SIZE
    requires u != [] && !U.Walk(UrlStart(c.p.verb), u).Dead?
    ensures Run(d, c, u) == Conf(c.p.(state := U.Walk(UrlStart(c.p.verb), u), nread := c.p.nread + |u|),
                                 Put(c.log, Data(Url, u)), c.used + |u|, Running)
    decreases |u|
  {
    hide One, Run, Put, UrlChar;
    var s0 := UrlStart(c.p.verb);
    var init, last := u[..|u| - 1], u[|u| - 1];
    assert u == init + [last];
    WalkInside(s0, u);
    if init == [] {
      assert U.Walk(s0, init) == s0;
      UrlFirst(d, c, last);
      RunPush1(d, c, last);
    } else {
      UrlRun(d, c, init);
      WalkInside(s0, init);
      RunPush(d, c, init, last);
      UrlByte(d, Run(d, c, init), last);
      PutTwice(c.log, Url, init, [last]);
    }
  }

  lemma UrlNotEmpty(verb: Method, url: seq<Byte>)
    requires UrlMayEnd(U.Walk(UrlStart(verb), url))
    ensures url != [] && !U.Walk(UrlStart(verb), url).Dead?
  {
  }

  /** White space after the URL ends it; a line without a version is of version 0.9. */
  lemma UrlEnd(d: Decision, c: Conf, b: Byte)
    requires c.status.Running? && UrlMayEnd(c.p.state) && (b == ' ' || b == CR || b == LF)
      && c.p.nread + 1 <= MAX_HEADER_SIZE
    ensures var p := c.p.(nread := c.p.nread + 1);
      One(d, c, b) == Conf(if b == ' ' then p.(state := ReqHttpStart)
                           else
                             p.(state := if b == CR then ReqLineAlmostDone else HeaderFieldStart, major := 0,
                                minor := 9),
                           Put(c.log, Data(Url, [])), c.used + 1, Running)
  {
    hide Put, UrlChar, Switch, One, Passes;
    InUrlGroup(c.p.state);
    UrlPass(d, Counted(c.p), b);
    OneStep(d, c, b);
  }

  /** A step on a first line. */
  lemma Onto(d: Decision, c: Conf, b: Byte, s: State)
    requires c.status.Running? && OnLine(c.p.state) && c.p.nread + 1 <= MAX_HEADER_SIZE && Live(s).None?
    requires LineSwitch(Counted(c.p), b) == Next(Counted(c.p).(state := s), Quiet)
    ensures One(d, c, b) == Conf(c.p.(state := s, nread := c.p.nread + 1), c.log, c.used + 1, Running)
  {
    hide One, Passes, Switch, LineSwitch, Live;
    LineByte(d, c, b, Counted(c.p).(state := s));
  }

  lemma RequestEnds(p: Parser)
    requires p.state.ReqHttpMinor? || p.state.ReqLineAlmostDone? || p.state.ReqHttpStart?
    ensures OnLine(p.state) && Live(HeaderFieldStart).None? && Live(ReqLineAlmostDone).None? && Live(ReqHttpH).None?
    ensures p.state.ReqHttpMinor? ==> LineSwitch(p, CR) == Next(p.(state := ReqLineAlmostDone), Quiet)
    ensures !p.state.ReqHttpStart? ==> LineSwitch(p, LF) == Next(p.(state := HeaderFieldStart), Quiet)
    ensures p.state.ReqHttpStart? ==> LineSwitch(p, 'H') == Next(p.(state := ReqHttpH), Quiet)
  {
  }

  lemma RequestEol(d: Decision, c: Conf, eol: Eol)
    requires c.status.Running? && c.p.state.ReqHttpMinor? && c.p.nread + |EolBytes(eol)| <= MAX_HEADER_SIZE
    ensures Run(d, c, EolBytes(eol))
      == Conf(c.p.(state := HeaderFieldStart, nread := c.p.nread + |EolBytes(eol)|), c.log, c.used + |EolBytes(eol)|,
              Running)
  {
    hide One, Run, LineSwitch, Live, OnLine;
    RequestEnds(Counted(c.p));
    if eol.Lf? {
      Onto(d, c, LF, HeaderFieldStart);
      RunPush1(d, c, LF);
    } else {
      Onto(d, c, CR, ReqLineAlmostDone);
      RunPush1(d, c, CR);
      var m := One(d, c, CR);
      RequestEnds(Counted(m.p));
      Onto(d, m, LF, HeaderFieldStart);
      RunPush(d, c, [CR], LF);
      assert [CR] + [LF] == [CR, LF];
    }
  }

  lemma WordRun(d: Decision, c: Conf, v: Version)
    requires c.status.Running? && c.p.state.ReqHttpStart? && v.Written? && ProperVersion(v)
    requires c.p.nread + |Dotted(v.major, v.minor)| <= MAX_HEADER_SIZE
    ensures var n := |Dotted(v.major, v.minor)|;
      Run(d, c, Dotted(v.major, v.minor))
      == Conf(c.p.(state := ReqHttpMinor, major := Major(v), minor := Minor(v), nread := c.p.nread + n), c.log,
              c.used + n, Running)
  {
    hide One, Run, Small, ValueOf, LineSwitch, Live, OnLine, Dotted, UrlMayEnd;
    DottedFirst(v.major, v.minor);
    var rest := Dotted(v.major, v.minor)[1..];
    RequestEnds(Counted(c.p));
    Onto(d, c, 'H', ReqHttpH);
    RunPush1(d, c, 'H');
    VersionRun(d, Run(d, c, ['H']), true, v.major, v.minor);
    RunConcat(d, c, ['H'], rest);
  }

  lemma WrittenRun(d: Decision, c: Conf, v: Version)
    requires c.status.Running? && c.p.state.ReqHttpStart? && v.Written? && ProperVersion(v)
    requires c.p.nread + v.spaces + |Dotted(v.major, v.minor)| <= MAX_HEADER_SIZE
    ensures var n := v.spaces + |Dotted(v.major, v.minor)|;
      Run(d, c, Spaces(v.spaces) + Dotted(v.major, v.minor))
      == Conf(c.p.(state := ReqHttpMinor, major := Major(v), minor := Minor(v), nread := c.p.nread + n), c.log,
              c.used + n, Running)
  {
    hide One, Run, ProperVersion, Major, Minor, Dotted;
    IdleRun(d, c, Spaces(v.spaces));
    WordRun(d, Run(d, c, Spaces(v.spaces)), v);
    RunConcat(d, c, Spaces(v.spaces), Dotted(v.major, v.minor));
  }

  lemma ImpliedRun(d: Decision, c: Conf, eol: Eol)
    requires c.status.Running? && UrlMayEnd(c.p.state) && c.p.nread + |EolBytes(eol)| <= MAX_HEADER_SIZE
    ensures var n := |EolBytes(eol)|;
      Run(d, c, EolBytes(eol))
      == Conf(c.p.(state := HeaderFieldStart, major := 0, minor := 9, nread := c.p.nread + n),
              Put(c.log, Data(Url, [])), c.used + n, Running)
  {
    hide One, Run, Put, UrlMayEnd, LineSwitch, Live, OnLine;
    if eol.Lf? {
      UrlEnd(d, c, LF);
      RunPush1(d, c, LF);
    } else {
      UrlEnd(d, c, CR);
      RunPush1(d, c, CR);
      var m := One(d, c, CR);
      RequestEnds(Counted(m.p));
      Onto(d, m, LF, HeaderFieldStart);
      RunPush(d, c, [CR], LF);
      assert [CR] + [LF] == [CR, LF];
    }
  }

  /** What follows the URL. */
  lemma TailRun(d: Decision, c: Conf, v: Version, eol: Eol)
    requires c.status.Running? && UrlMayEnd(c.p.state) && ProperVersion(v)
      && c.p.nread + |VersionBytes(v)| + |EolBytes(eol)| <= MAX_HEADER_SIZE
    ensures var n := |VersionBytes(v)| + |EolBytes(eol)|;
      Run(d, c, VersionBytes(v) + EolBytes(eol))
      == Conf(c.p.(state := HeaderFieldStart, major := Major(v), minor := Minor(v), nread := c.p.nread + n),
              Put(c.log, Data(Url, [])), c.used + n, Running)
  {
    hide One, Run, Put, UrlMayEnd, ProperVersion, Dotted, EolBytes, Small, ValueOf;
    if v.Implied? {
      assert VersionBytes(v) + EolBytes(eol) == EolBytes(eol);
      ImpliedRun(d, c, eol);
    } else {
      var rest := Spaces(v.spaces) + Dotted(v.major, v.minor);
      UrlEnd(d, c, ' ');
      RunPush1(d, c, ' ');
      WrittenRun(d, One(d, c, ' '), v);
      RunConcat(d, c, [' '], rest);
      RunConcat(d, c, VersionBytes(v), EolBytes(eol));
      RequestEol(d, Run(d, c, VersionBytes(v)), eol);
    }
  }

  lemma SpacesIdle(n: nat)
    ensures forall i | 0 <= i < n :: Idle(ReqSpacesBeforeUrl, Spaces(n)[i])
    ensures Idle(StartReq, CR) && Idle(StartReq, LF)
  {
  }

  lemma MethodPart(d: Decision, c: Conf, before: seq<Byte>, m: Method, spaces: nat)
    requires c.status.Running? && AtRequest(c.p) && forall i | 0 <= i < |before| :: before[i] == CR || before[i] == LF
    requires c.p.nread + |before| + |NameBytes(m)| + 1 + spaces <= MAX_HEADER_SIZE
    ensures var n := |before| + |NameBytes(m)| + 1 + spaces;
      Run(d, c, before + ((NameBytes(m) + [' ']) + Spaces(spaces)))
      == Conf(MethodRead(c.p, m, |NameBytes(m)| + 1, n), Put(c.log, Notice(MessageBegin)), c.used + n, Running)
  {
    hide Run, One, Put, NameBytes, MethodName, Idle;
    SpacesIdle(spaces);
    var name := NameBytes(m) + [' '];
    IdleRun(d, c, before);
    var c1 := Run(d, c, before);
    MethodRun1(d, c1, m);
    var c2 := Run(d, c1, name);
    IdleRun(d, c2, Spaces(spaces));
    RunConcat(d, c1, name, Spaces(spaces));
    RunConcat(d, c, before, name + Spaces(spaces));
  }

  lemma UrlPart(d: Decision, c: Conf, url: seq<Byte>, v: Version, eol: Eol)
    requires c.status.Running? && c.p.state.ReqSpacesBeforeUrl? && UrlMayEnd(U.Walk(UrlStart(c.p.verb), url))
      && ProperVersion(v)
    requires c.p.nread + |url| + |VersionBytes(v)| + |EolBytes(eol)| <= MAX_HEADER_SIZE
    ensures var n := |url| + |VersionBytes(v)| + |EolBytes(eol)|;
      Run(d, c, url + (VersionBytes(v) + EolBytes(eol)))
      == Conf(c.p.(state := HeaderFieldStart, major := Major(v), minor := Minor(v), nread := c.p.nread + n),
              Put(c.log, Data(Url, url)), c.used + n, Running)
  {
    hide Run, One, Put, UrlMayEnd, UrlStart, ProperVersion, VersionBytes, EolBytes, Major, Minor;
    UrlNotEmpty(c.p.verb, url);
    UrlRun(d, c, url);
    TailRun(d, Run(d, c, url), v, eol);
    PutTwice(c.log, Url, url, []);
    assert url + [] == url;
    RunConcat(d, c, url, VersionBytes(v) + EolBytes(eol));
  }

  /** A request line is taken, and announced with its URL. */
  lemma RequestLineRun(d: Decision, c: Conf, l: RequestLine)
    requires c.status.Running? && AtRequest(c.p) && ProperLine(l) && c.p.nread + |LineBytes(l)| <= MAX_HEADER_SIZE
    ensures Run(d, c, LineBytes(l))
      == Conf(MethodRead(c.p, l.verb, |NameBytes(l.verb)| + 1, |LineBytes(l)|).(state := HeaderFieldStart,
                                                                                major := Major(l.version),
                                                                                minor := Minor(l.version)),
              Put(Put(c.log, Notice(MessageBegin)), Data(Url, l.url)), c.used + |LineBytes(l)|, Running)
  {
    hide Run, One, Put, UrlMayEnd, UrlStart, NameBytes, VersionBytes, EolBytes, ProperVersion, Major, Minor;
    var start, rest := l.before + ((NameBytes(l.verb) + [' ']) + Spaces(l.spaces)),
      l.url + (VersionBytes(l.version) + EolBytes(l.eol));
    assert LineBytes(l) == start + rest;
    MethodPart(d, c, l.before, l.verb, l.spaces);
    UrlPart(d, Run(d, c, start), l.url, l.version, l.eol);
    RunConcat(d, c, start, rest);
  }

  // ---------- the status line ----------

  lemma StatusFirst(d: Decision, c: Conf)
    requires c.status.Running? && c.p.state.StartRes? && c.p.nread + 1 <= MAX_HEADER_SIZE
    ensures One(d, c, 'H')
      == Conf(c.p.(state := ResH, flags := NO_FLAGS, contentLength := ULLONG_MAX, nread := c.p.nread + 1),
                                   Put(c.log, Notice(MessageBegin)), c.used + 1, Running)
  {
    hide Put, Switch, One, Passes;
    StartPass(d, Counted(c.p), 'H');
    OneStep(d, c, 'H');
  }

  lemma StatusSteps(p: Parser)
    requires p.state.ResHttpMinor? || p.state.ResStatusCode? || p.state.ResStatus?
    ensures OnLine(p.state) && Live(HeaderFieldStart).None? && Live(ResLineAlmostDone).None?
      && Live(ResFirstStatusCode).None? && Live(ResStatus).None?
    ensures p.state.ResHttpMinor? ==> LineSwitch(p, ' ') == Next(p.(state := ResFirstStatusCode), Quiet)
    ensures p.state.ResStatusCode? ==> LineSwitch(p, ' ') == Next(p.(state := ResStatus), Quiet)
    ensures !p.state.ResHttpMinor? ==> LineSwitch(p, CR) == Next(p.(state := ResLineAlmostDone), Quiet)
    ensures !p.state.ResHttpMinor? ==> LineSwitch(p, LF) == Next(p.(state := HeaderFieldStart), Quiet)
  {
  }

  lemma StatusLf(d: Decision, c: Conf)
    requires c.status.Running? && c.p.state.ResLineAlmostDone? && c.p.nread + 1 <= MAX_HEADER_SIZE
    ensures One(d, c, LF)
      == Conf(c.p.(state := HeaderFieldStart, nread := c.p.nread + 1), Put(c.log, Notice(StatusComplete)), c.used + 1,
              Running)
  {
    hide Put, Switch, One, Passes;
    StatusPass(d, Counted(c.p), LF);
    OneStep(d, c, LF);
  }

  /** The end of a status line is announced if it is CR LF, not if it is LF alone. */
  function StatusEvents(eol: Eol): seq<Event> { if eol.Lf? then [] else [Notice(StatusComplete)] }

  lemma StatusEol(d: Decision, c: Conf, eol: Eol)
    requires c.status.Running? && (c.p.state.ResStatusCode? || c.p.state.ResStatus?)
      && c.p.nread + |EolBytes(eol)| <= MAX_HEADER_SIZE
    ensures Run(d, c, EolBytes(eol))
      == Conf(c.p.(state := HeaderFieldStart, nread := c.p.nread + |EolBytes(eol)|), c.log + StatusEvents(eol),
              c.used + |EolBytes(eol)|, Running)
  {
    hide One, Run, LineSwitch, Live, OnLine;
    StatusSteps(Counted(c.p));
    if eol.Lf? {
      Onto(d, c, LF, HeaderFieldStart);
      RunPush1(d, c, LF);
      assert c.log + [] == c.log;
    } else {
      Onto(d, c, CR, ResLineAlmostDone);
      RunPush1(d, c, CR);
      StatusLf(d, One(d, c, CR));
      RunPush(d, c, [CR], LF);
      assert [CR] + [LF] == [CR, LF];
    }
  }

  lemma ReasonRun(d: Decision, c: Conf, reason: Option<seq<Byte>>, eol: Eol)
    requires c.status.Running? && c.p.state.ResStatusCode?
      && (reason.Some? ==> CR !in reason.value && LF !in reason.value)
    requires c.p.nread + |ReasonBytes(reason)| + |EolBytes(eol)| <= MAX_HEADER_SIZE
    ensures var n := |ReasonBytes(reason)| + |EolBytes(eol)|;
      Run(d, c, ReasonBytes(reason) + EolBytes(eol))
      == Conf(c.p.(state := HeaderFieldStart, nread := c.p.nread + n), c.log + StatusEvents(eol), c.used + n, Running)
  {
    hide One, Run, EolBytes, StatusEvents, LineSwitch, Live, OnLine;
    if reason.None? {
      assert ReasonBytes(reason) + EolBytes(eol) == EolBytes(eol);
      StatusEol(d, c, eol);
    } else {
      StatusSteps(Counted(c.p));
      Onto(d, c, ' ', ResStatus);
      RunPush1(d, c, ' ');
      var m := One(d, c, ' ');
      IdleRun(d, m, reason.value);
      RunConcat(d, c, [' '], reason.value);
      RunConcat(d, c, ReasonBytes(reason), EolBytes(eol));
      StatusEol(d, Run(d, m, reason.value), eol);
    }
  }

  lemma CodeRun(d: Decision, c: Conf, spaces: nat, code: seq<Byte>)
    requires c.status.Running? && c.p.state.ResHttpMinor? && Small(code)
      && c.p.nread + 1 + spaces + |code| <= MAX_HEADER_SIZE
    ensures var n := 1 + spaces + |code|;
      Run(d, c, [' '] + (Spaces(spaces) + code))
      == Conf(c.p.(state := ResStatusCode, statusCode := ValueOf(code), nread := c.p.nread + n), c.log, c.used + n,
              Running)
  {
    hide One, Run, Small, ValueOf, LineSwitch, Live, OnLine;
    StatusSteps(Counted(c.p));
    Onto(d, c, ' ', ResFirstStatusCode);
    RunPush1(d, c, ' ');
    var m := One(d, c, ' ');
    IdleRun(d, m, Spaces(spaces));
    NumberRun(d, Run(d, m, Spaces(spaces)), false, CodeSlot, code);
    RunConcat(d, m, Spaces(spaces), code);
    RunConcat(d, c, [' '], Spaces(spaces) + code);
  }

  // ---------- line ends before a status line ----------

  /** The beginning of a message, announced `n` times. */
  function MessageBegins(n: nat): (r: seq<Event>)
    ensures |r| == n && forall i | 0 <= i < n :: r[i] == Notice(MessageBegin)
  {
    seq(n, i => Notice(MessageBegin))
  }

  lemma OneMore(log: seq<Event>, n: nat)
    ensures Put(log + MessageBegins(n), Notice(MessageBegin)) == log + MessageBegins(n + 1)
  {
  }

  lemma BeginAgain(d: Decision, c: Conf, b: Byte)
    requires c.status.Running? && c.p.state.StartRes? && (b == CR || b == LF) && c.p.nread + 1 <= MAX_HEADER_SIZE
    ensures One(d, c, b)
      == Conf(Reset(c.p).(nread := c.p.nread + 1), Put(c.log, Notice(MessageBegin)), c.used + 1, Running)
  {
    hide Put, Switch, One, Passes;
    StartPass(d, Counted(c.p), b);
    OneStep(d, c, b);
  }

  /** Where a response is awaited, each byte of an empty line announces a message. */
  lemma {:induction false} BeginsRun(d: Decision, c: Conf, bytes: seq<Byte>)
    requires c.status.Running? && c.p.state.StartRes? && c.p.nread + |bytes| <= MAX_HEADER_SIZE
    requires forall i | 0 <= i < |bytes| :: bytes[i] == CR || bytes[i] == LF
    ensures var r := Run(d, c, bytes);
      && r == Conf(r.p, c.log + MessageBegins(|bytes|), c.used + |bytes|, Running)
      && r.p == c.p.(flags := r.p.flags, contentLength := r.p.contentLength, nread := c.p.nread + |bytes|)
    decreases |bytes|
  {
    hide One, Run, Put;
    if bytes == [] {
      EmptyRun(d, c);
      assert c.log + MessageBegins(0) == c.log;
    } else {
      var init, last := bytes[..|bytes| - 1], bytes[|bytes| - 1];
      assert bytes == init + [last];
      BeginsRun(d, c, init);
      RunPush(d, c, init, last);
      BeginAgain(d, Run(d, c, init), last);
      OneMore(c.log, |init|);
    }
  }

  /** A status line is taken, and its version and code are recorded. */
  lemma StatusLineRun(d: Decision, c: Conf, l: StatusLine)
    requires c.status.Running? && c.p.state.StartRes? && ProperStatus(l)
      && c.p.nread + |StatusBytes(l)| <= MAX_HEADER_SIZE
    ensures Run(d, c, StatusBytes(l))
      == Conf(c.p.(state := HeaderFieldStart, flags := NO_FLAGS, contentLength := ULLONG_MAX,
                   nread := c.p.nread + |StatusBytes(l)|,
                   major := ValueOf(l.major), minor := ValueOf(l.minor), statusCode := ValueOf(l.code)),
              (c.log + MessageBegins(|l.before| + 1)) + StatusEvents(l.eol), c.used + |StatusBytes(l)|, Running)
  {
    hide One, Run, Put, Small, ValueOf, EolBytes, ReasonBytes, StatusEvents, Dotted;
    BeginsRun(d, c, l.before);
    var c0 := Run(d, c, l.before);
    RunConcat(d, c, l.before, StatusBytes(l)[|l.before|..]);
    assert StatusBytes(l) == l.before + StatusBytes(l)[|l.before|..];
    WordsRun(d, c0, l);
    OneMore(c.log, |l.before|);
  }

  lemma WordsRun(d: Decision, c: Conf, l: StatusLine)
    requires c.status.Running? && c.p.state.StartRes? && ProperStatus(l)
      && c.p.nread + |StatusBytes(l)| - |l.before| <= MAX_HEADER_SIZE
    ensures var bytes := StatusBytes(l)[|l.before|..];
      Run(d, c, bytes)
      == Conf(c.p.(state := HeaderFieldStart, flags := NO_FLAGS, contentLength := ULLONG_MAX,
                   nread := c.p.nread + |bytes|,
                   major := ValueOf(l.major), minor := ValueOf(l.minor), statusCode := ValueOf(l.code)),
              Put(c.log, Notice(MessageBegin)) + StatusEvents(l.eol), c.used + |bytes|, Running)
  {
    hide One, Run, Put, Small, ValueOf, EolBytes, ReasonBytes, StatusEvents;
    var word := Dotted(l.major, l.minor);
    var code, rest := [' '] + (Spaces(l.spaces) + l.code), ReasonBytes(l.reason) + EolBytes(l.eol);
    DottedFirst(l.major, l.minor);
    hide Dotted;
    assert StatusBytes(l)[|l.before|..] == ['H'] + (word[1..] + (code + rest));
    StatusFirst(d, c);
    RunPush1(d, c, 'H');
    var c1 := One(d, c, 'H');
    VersionRun(d, c1, false, l.major, l.minor);
    var c2 := Run(d, c1, word[1..]);
    CodeRun(d, c2, l.spaces, l.code);
    ReasonRun(d, Run(d, c2, code), l.reason, l.eol);
    RunConcat(d, c2, code, rest);
    RunConcat(d, c1, word[1..], code + rest);
    RunConcat(d, c, ['H'], word[1..] + (code + rest));
  }
}
