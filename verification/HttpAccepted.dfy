/** Nothing but a head is accepted: whatever bytes lead to the end of the headers are the rendering
    of one, whose header lines may lack a colon. */
module HttpAccepted {
  import opened Options
  import opened HttpTypes
  import opened HttpSwitch
  import opened HttpRun
  import opened HttpMarks
  import opened HttpReference
  import opened HttpBody
  import opened HttpNames
  import opened HttpValues
  import opened HttpLine
  import opened HttpHead
  import opened HttpItems
  import opened HttpUrlDelivered

  datatype LooseHead = LooseHead(line: RequestLine, items: seq<Item>, eol: Eol)

  function LooseBytes(r: LooseHead): seq<Byte> { (LineBytes(r.line) + ItemsBytes(r.items)) + EolBytes(r.eol) }

  predicate ProperLoose(r: LooseHead) { ProperLine(r.line) && ProperItems(r.items) }

  // ---------- how far a head has been read ----------

  /** A request line up to the end of its URL. */
  datatype Target = Target(before: seq<Byte>, verb: Method, spaces: nat, url: seq<Byte>)

  predicate Ends(before: seq<Byte>) { forall i | 0 <= i < |before| :: before[i] == CR || before[i] == LF }

  function TargetBytes(t: Target): seq<Byte> {
    t.before + ((NameBytes(t.verb) + [' ']) + (Spaces(t.spaces) + t.url))
  }

  predicate TargetRead(t: Target) { Ends(t.before) && UrlMayEnd(U.Walk(UrlStart(t.verb), t.url)) }

  function LineOf(t: Target, v: Version, eol: Eol): RequestLine {
    RequestLine(t.before, t.verb, t.spaces, t.url, v, eol)
  }

  datatype LinePlace =
    | Empty(before: seq<Byte>)
    | Naming(before: seq<Byte>, read: seq<Byte>)
    | InTarget(t: Target)
    | InWord(t: Target, k: nat, i: nat)
    | InMajor(t: Target, k: nat, ds: seq<Byte>)
    | InMinor(t: Target, k: nat, major: seq<Byte>, ds: seq<Byte>)
    | LineCr(t: Target, v: Version)

  datatype Spot = OnLine(a: LinePlace) | OnHeaders(h: Place)

  function WordBytes(k: nat, i: nat): seq<Byte> { [' '] + (Spaces(k) + PROTOCOL[..if i < 5 then i else 5]) }

  /** What has been read there. */
  function LineBytesOf(a: LinePlace): seq<Byte> {
    match a
    case Empty(before) => before
    case Naming(before, read) => before + read
    case InTarget(t) => TargetBytes(t)
    case InWord(t, k, i) => TargetBytes(t) + WordBytes(k, i)
    case InMajor(t, k, ds) => TargetBytes(t) + (WordBytes(k, 5) + ds)
    case InMinor(t, k, major, ds) => TargetBytes(t) + (WordBytes(k, 5) + (major + (['.'] + ds)))
    case LineCr(t, v) => TargetBytes(t) + (VersionBytes(v) + [CR])
  }

  /** The parser is there. */
  predicate LineAt(a: LinePlace, p: Parser) { LineWhere(a, p) && !p.flags.trailing }

  predicate LineWhere(a: LinePlace, p: Parser) {
    match a
    case Empty(before) => p.state.StartReq? && Ends(before)
    case Naming(before, read) => p.state.ReqMethod? && Ends(before) && read != [] && Spells(p, read)
    case InTarget(t) =>
      Ends(t.before) && p.verb == t.verb
        && U.Walk(UrlStart(t.verb), t.url) == (if t.url == [] then UrlStart(t.verb) else p.state)
      && (if t.url == [] then p.state.ReqSpacesBeforeUrl? else InsideUrl(p.state))
    case InWord(t, k, i) => TargetRead(t) && i < 5 && p.state == ProtocolState(true, i)
    case InMajor(t, k, ds) =>
      TargetRead(t) && if ds == [] then p.state.ReqFirstHttpMajor?
        else p.state.ReqHttpMajor? && Small(ds) && ds[0] != '0' && p.major == ValueOf(ds)
    case InMinor(t, k, major, ds) =>
      TargetRead(t) && Small(major) && major[0] != '0'
      && if ds == [] then p.state.ReqFirstHttpMinor? else p.state.ReqHttpMinor? && Small(ds) && p.minor == ValueOf(ds)
    case LineCr(t, v) => TargetRead(t) && ProperVersion(v) && p.state.ReqLineAlmostDone?
  }

  function SpotBytes(s: Spot): seq<Byte> { if s.OnLine? then LineBytesOf(s.a) else BytesOf(s.h) }

  predicate SpotAt(s: Spot, p: Parser) { if s.OnLine? then LineAt(s.a, p) else At(s.h, p) && s.h.l.OfRequest? }

  /** A pass that consumes the byte leads to a place one byte further on, without the end of the headers. */
  ghost predicate LineLeads(a: LinePlace, p: Parser, o: Outcome, b: Byte, next: Spot) {
    match o
    case Next(q, act) =>
      SpotAt(next, q) && SpotBytes(next) == LineBytesOf(a) + [b] && act != Notify(HeadersComplete) && q.nread == p.nread
    case Fail(_, _) => true
    case Crash => true
    case _ => false
  }

  /** No item has been read. */
  lemma NoItems(l: First)
    ensures Sofar(l, []) == FirstBytes(l) && ProperItems([])
  {
    hide FirstBytes;
    assert FirstBytes(l) + [] == FirstBytes(l);
  }

  // ---------- the first line ----------

  lemma EmptyStep(p: Parser, a: LinePlace, b: Byte) returns (next: Spot)
    requires a.Empty? && LineAt(a, p)
    ensures LineLeads(a, p, StartMessage(p, b), b, next)
  {
    hide MethodName, FirstMethod;
    if b == CR || b == LF {
      next := OnLine(Empty(a.before + [b]));
    } else {
      next := OnLine(Naming(a.before, [b]));
      if StartsMethod(b) { FirstLetter(Reset(p).(verb := FirstMethod(b), index := 1), b); }
    }
  }

  lemma NamingStep(p: Parser, a: LinePlace, b: Byte) returns (next: Spot)
    requires a.Naming? && LineAt(a, p)
    ensures LineLeads(a, p, HttpSwitch.InMethod(p, b), b, next)
  {
    hide MethodName, InMethod, Spells;
    MethodStep(p, a.read, b);
    if b == ' ' {
      next := OnLine(InTarget(Target(a.before, p.verb, 0, [])));
      assert Spaces(0) == [];
      if InMethod(p, b).Next? {
        next := OnLine(InTarget(Target(a.before, InMethod(p, b).p.verb, 0, [])));
        assert SpotBytes(next) == a.before + ((a.read + [' ']) + ([] + []));
      }
    } else {
      next := OnLine(Naming(a.before, a.read + [b]));
    }
  }

  lemma LineIs(t: Target, v: Version, eol: Eol)
    ensures LineBytes(LineOf(t, v, eol)) == TargetBytes(t) + (VersionBytes(v) + EolBytes(eol))
  {
    hide NameBytes, VersionBytes, EolBytes;
  }

  lemma MoreSpaces(n: nat)
    ensures Spaces(n + 1) == Spaces(n) + [' '] && Spaces(0) == []
  {
  }

  lemma SpaceStep(p: Parser, a: LinePlace, b: Byte) returns (next: Spot)
    requires a.InTarget? && a.t.url == [] && LineAt(a, p)
    ensures LineLeads(a, p, HttpSwitch.InUrl(p, b), b, next)
  {
    hide NameBytes, UrlChar;
    var t := a.t;
    if b == ' ' {
      next := OnLine(InTarget(t.(spaces := t.spaces + 1)));
      MoreSpaces(t.spaces);
    } else {
      next := OnLine(InTarget(t.(url := [b])));
      UrlCharStays(UrlStart(t.verb), b);
      assert [b][..0] == [];
      assert U.Walk(UrlStart(t.verb), [b]) == UrlChar(U.Walk(UrlStart(t.verb), []), b);
    }
  }

  lemma TargetStep(p: Parser, a: LinePlace, b: Byte) returns (next: Spot)
    requires a.InTarget? && a.t.url != [] && LineAt(a, p) && b != ' ' && b != CR && b != LF
    ensures LineLeads(a, p, HttpSwitch.InUrl(p, b), b, next)
  {
    hide NameBytes, UrlChar, LineBytes, UrlMayEnd;
    var t := a.t;
    MayEndInside(p.state);
    next := OnLine(InTarget(t.(url := t.url + [b])));
    UrlCharStays(p.state, b);
    assert (t.url + [b])[..|t.url|] == t.url;
  }

  lemma TargetEnds(p: Parser, a: LinePlace, b: Byte) returns (next: Spot)
    requires a.InTarget? && a.t.url != [] && LineAt(a, p) && (b == ' ' || b == CR || b == LF)
    ensures LineLeads(a, p, HttpSwitch.InUrl(p, b), b, next)
  {
    hide NameBytes, UrlChar, LineBytes, UrlMayEnd, TargetBytes;
    var t := a.t;
    MayEndInside(p.state);
    if b == ' ' {
      next := OnLine(InWord(t, 0, 0));
      MoreSpaces(0);
    } else if b == CR {
      next := OnLine(LineCr(t, Implied));
    } else {
      next := OnHeaders(AtStart(OfRequest(LineOf(t, Implied, Lf)), []));
      LineIs(t, Implied, Lf);
      NoItems(OfRequest(LineOf(t, Implied, Lf)));
    }
  }

  lemma MayEndInside(s: State)
    ensures InsideUrl(s) ==> !s.ReqSpacesBeforeUrl?
    ensures InsideUrl(s) || s.ReqSpacesBeforeUrl? <==> GroupOf(s).GUrl?
  {
  }

  lemma WordStart(p: Parser, a: LinePlace, b: Byte) returns (next: Spot)
    requires a.InWord? && a.i == 0 && LineAt(a, p)
    ensures LineLeads(a, p, RequestLineEnd(p, b), b, next)
  {
    hide TargetBytes, UrlMayEnd, UrlStart;
    assert PROTOCOL == ['H', 'T', 'T', 'P', '/'];
    next := if b == ' ' then OnLine(InWord(a.t, a.k + 1, 0)) else OnLine(InWord(a.t, a.k, 1));
    MoreSpaces(a.k);
    assert PROTOCOL[..0] == [] && PROTOCOL[..1] == ['H'];
  }

  /** The passes over the word, one letter after the other. */
  lemma WordPass(p: Parser, i: nat, b: Byte)
    requires 1 <= i < 5 && p.state == ProtocolState(true, i)
    ensures RequestLineEnd(p, b)
      == if b == PROTOCOL[i] then Next(p.(state := ProtocolState(true, i + 1)), Quiet) else Fail(p, Strict)
  {
    assert PROTOCOL == ['H', 'T', 'T', 'P', '/'];
  }

  lemma WordStep(p: Parser, a: LinePlace, b: Byte) returns (next: Spot)
    requires a.InWord? && a.i > 0 && LineAt(a, p)
    ensures LineLeads(a, p, RequestLineEnd(p, b), b, next)
  {
    hide TargetBytes, UrlMayEnd, UrlStart, RequestLineEnd, ProtocolState;
    WordPass(p, a.i, b);
    WordEnd();
    next := if a.i == 4 then OnLine(InMajor(a.t, a.k, [])) else OnLine(InWord(a.t, a.k, a.i + 1));
    assert PROTOCOL[..a.i + 1] == PROTOCOL[..a.i] + [PROTOCOL[a.i]];
  }

  lemma WordEnd()
    ensures ProtocolState(true, 5).ReqFirstHttpMajor? && |PROTOCOL| == 5
  {
  }

  lemma SmallMore(ds: seq<Byte>, b: Byte)
    requires Small(ds) && IsNum(b) && ValueOf(ds) * 10 + Digit(b) <= 999
    ensures Small(ds + [b]) && ValueOf(ds + [b]) == ValueOf(ds) * 10 + Digit(b)
  {
    var all := ds + [b];
    assert AllDigits(all);
    assert Decimals(all)[..|ds|] == Decimals(ds);
  }

  lemma MajorStep(p: Parser, a: LinePlace, b: Byte) returns (next: Spot)
    requires a.InMajor? && LineAt(a, p)
    ensures LineLeads(a, p, RequestLineEnd(p, b), b, next)
  {
    hide TargetBytes, UrlMayEnd, UrlStart, Small, ValueOf, WordBytes;
    next := OnLine(InMajor(a.t, a.k, a.ds + [b]));
    if a.ds == [] {
      assert a.ds + [b] == [b];
      if IsNum(b) { SmallOne(b); }
    } else if b == '.' {
      next := OnLine(InMinor(a.t, a.k, a.ds, []));
    } else if IsNum(b) && p.major * 10 + Digit(b) <= 999 {
      SmallMore(a.ds, b);
    }
  }

  lemma MinorStep(p: Parser, a: LinePlace, b: Byte) returns (next: Spot)
    requires a.InMinor? && LineAt(a, p) && (a.ds == [] || (b != CR && b != LF))
    ensures LineLeads(a, p, RequestLineEnd(p, b), b, next)
  {
    hide TargetBytes, UrlMayEnd, UrlStart, Small, ValueOf, LineBytes, WordBytes;
    next := OnLine(InMinor(a.t, a.k, a.major, a.ds + [b]));
    if a.ds == [] {
      assert a.ds + [b] == [b];
      if IsNum(b) { SmallOne(b); }
    } else if IsNum(b) && p.minor * 10 + Digit(b) <= 999 {
      SmallMore(a.ds, b);
    }
  }

  lemma MinorEnds(p: Parser, a: LinePlace, b: Byte) returns (next: Spot)
    requires a.InMinor? && a.ds != [] && LineAt(a, p) && (b == CR || b == LF)
    ensures LineLeads(a, p, RequestLineEnd(p, b), b, next)
  {
    hide TargetBytes, UrlMayEnd, UrlStart, Small, ValueOf, LineBytes, WordBytes, VersionBytes;
    var v := Written(a.k, a.major, a.ds);
    WrittenIs(a.k, a.major, a.ds);
    if b == CR {
      next := OnLine(LineCr(a.t, v));
    } else {
      next := OnHeaders(AtStart(OfRequest(LineOf(a.t, v, Lf)), []));
      LineIs(a.t, v, Lf);
      NoItems(OfRequest(LineOf(a.t, v, Lf)));
    }
  }

  lemma WrittenIs(k: nat, major: seq<Byte>, minor: seq<Byte>)
    ensures VersionBytes(Written(k, major, minor)) == WordBytes(k, 5) + (major + (['.'] + minor))
  {
    assert PROTOCOL[..5] == PROTOCOL;
  }

  lemma LineCrStep(p: Parser, a: LinePlace, b: Byte) returns (next: Spot)
    requires a.LineCr? && LineAt(a, p)
    ensures LineLeads(a, p, RequestLineEnd(p, b), b, next)
  {
    hide TargetBytes, UrlMayEnd, UrlStart, LineBytes, VersionBytes, ProperVersion;
    next := OnHeaders(AtStart(OfRequest(LineOf(a.t, a.v, CrLf)), []));
    LineIs(a.t, a.v, CrLf);
    NoItems(OfRequest(LineOf(a.t, a.v, CrLf)));
  }

  // ---------- one byte ----------

  lemma LineStep(d: Decision, p: Parser, a: LinePlace, b: Byte) returns (next: Spot)
    requires LineAt(a, p)
    ensures LineLeads(a, p, Switch(d, p, b), b, next)
  {
    hide Switch, LineLeads, LineBytesOf;
    Groups(a, p);
    match a
    case Empty(_) => next := EmptyStep(p, a, b); StartPass(d, p, b);
    case Naming(_, _) => next := NamingStep(p, a, b); MethodPass(d, p, b);
    case InTarget(t) =>
      if t.url == [] {
        next := SpaceStep(p, a, b);
      } else if b == ' ' || b == CR || b == LF {
        next := TargetEnds(p, a, b);
      } else {
        next := TargetStep(p, a, b);
      }
      UrlPass(d, p, b);
    case InWord(_, _, i) =>
      if i == 0 { next := WordStart(p, a, b); } else { next := WordStep(p, a, b); }
      LinePass(d, p, b);
    case InMajor(_, _, _) => next := MajorStep(p, a, b); LinePass(d, p, b);
    case InMinor(_, _, _, ds) =>
      if ds != [] && (b == CR || b == LF) { next := MinorEnds(p, a, b); } else { next := MinorStep(p, a, b); }
      LinePass(d, p, b);
    case LineCr(_, _) => next := LineCrStep(p, a, b); LinePass(d, p, b);
  }

  lemma Groups(a: LinePlace, p: Parser)
    requires LineAt(a, p)
    ensures a.Empty? ==> GroupOf(p.state).GStart?
    ensures a.Naming? ==> GroupOf(p.state).GMethod?
    ensures a.InTarget? ==> GroupOf(p.state).GUrl?
    ensures a.InWord? || a.InMajor? || a.InMinor? || a.LineCr? ==> GroupOf(p.state).GLine?
  {
    hide U.Walk, Small, UrlMayEnd;
    MayEndInside(p.state);
  }

  /** What a byte of the first line leads to. */
  lemma OneOfLine(d: Decision, c: Conf, a: LinePlace, b: Byte) returns (next: Spot)
    requires c.status.Running? && LineAt(a, c.p) && !HeadersTold(c.log)
    ensures var o := One(d, c, b);
      && !HeadersTold(o.log)
      && (o.status.Running? ==>
            SpotAt(next, o.p) && SpotBytes(next) == LineBytesOf(a) + [b]
              && o.p.nread == c.p.nread + 1 <= MAX_HEADER_SIZE)
  {
    hide Switch, LineAt, SpotAt, LineBytesOf, SpotBytes, PassLog, ByteLog;
    StillOnLine(a, c.p, c.p.nread + 1);
    var p := Counted(c.p);
    next := LineStep(d, p, a, b);
    match Switch(d, p, b)
    case Next(q, act) => LogStays(c.log, act, q.state, b, HeadersComplete);
    case _ =>
  }

  lemma StillOnLine(a: LinePlace, p: Parser, n: int)
    requires LineAt(a, p)
    ensures LineAt(a, p.(nread := n)) && ParsingHeader(p.state)
  {
    hide U.Walk, Small, UrlMayEnd, ParsingHeader, GroupOf, InsideUrl, ProtocolState;
    Groups(a, p);
    BodyGroup(p.state);
  }

  // ---------- all bytes ----------

  predicate HeadersTold(log: seq<Event>) { Notice(HeadersComplete) in log }

  /** As long as the end of the headers is not announced, the bytes read are the beginning of a head. */
  lemma {:induction false} RunFollows(d: Decision, w: seq<Byte>) returns (a: Spot)
    requires var c := Run(d, Fresh(), w); c.status.Running? && !HeadersTold(c.log)
    ensures var c := Run(d, Fresh(), w); SpotAt(a, c.p) && SpotBytes(a) == w && c.p.nread == |w| <= MAX_HEADER_SIZE
    decreases |w|
  {
    hide Run, Passes, SpotAt, SpotBytes;
    if w == [] {
      EmptyRun(d, Fresh());
      a := OnLine(Empty([]));
      StartsEmpty();
    } else {
      var init, last := w[..|w| - 1], w[|w| - 1];
      assert w == init + [last];
      RunConcat(d, Fresh(), init, [last]);
      var m := Run(d, Fresh(), init);
      if !m.status.Running? { EndedRun(d, m, [last]); }
      RunKeeps(d, m, [last]);
      var before := RunFollows(d, init);
      RunPush(d, Fresh(), init, last);
      a := OneFollows(d, m, before, last);
    }
  }

  lemma StartsEmpty()
    ensures SpotAt(OnLine(Empty([])), Fresh().p) && SpotBytes(OnLine(Empty([]))) == [] && Fresh().p.nread == 0
  {
  }

  predicate SpotEnd(s: Spot) { s.OnHeaders? && MayEnd(s.h) }

  lemma OneFollows(d: Decision, c: Conf, a: Spot, b: Byte) returns (next: Spot)
    requires c.status.Running? && SpotAt(a, c.p) && !HeadersTold(c.log)
    ensures var o := One(d, c, b);
      && (HeadersTold(o.log) ==> SpotEnd(a) && b == LF && c.p.nread + 1 <= MAX_HEADER_SIZE)
      && (o.status.Running? && !HeadersTold(o.log) ==>
            SpotAt(next, o.p) && SpotBytes(next) == SpotBytes(a) + [b] && o.p.nread == c.p.nread + 1 <= MAX_HEADER_SIZE)
  {
    hide One, LineAt, At, BytesOf, LineBytesOf;
    if a.OnLine? {
      next := OneOfLine(d, c, a.a, b);
    } else {
      var h := OneHeader(d, c, a.h, b);
      next := OnHeaders(h);
    }
  }

  /** The headers end with the last byte of `w`. */
  predicate EndsWith(d: Decision, w: seq<Byte>) {
    w != [] && HeadersTold(Run(d, Fresh(), w).log) && !HeadersTold(Run(d, Fresh(), w[..|w| - 1]).log)
  }

  lemma OnlyHeads(d: Decision, w: seq<Byte>)
    requires EndsWith(d, w)
    ensures exists r :: ProperLoose(r) && LooseBytes(r) == w && |w| <= MAX_HEADER_SIZE
  {
    hide Run, At, BytesOf, ProperLoose, LooseBytes, One;
    var init, last := w[..|w| - 1], w[|w| - 1];
    assert w == init + [last];
    RunConcat(d, Fresh(), init, [last]);
    var m := Run(d, Fresh(), init);
    if !m.status.Running? { EndedRun(d, m, [last]); }
    var a := RunFollows(d, init);
    RunPush(d, Fresh(), init, last);
    var _ := OneFollows(d, m, a, last);
    var r := HeadClosed(a.h, m.p);
    assert LooseBytes(r) == w;
  }

  /** The head that ends with a line feed there. */
  lemma HeadClosed(a: Place, p: Parser) returns (r: LooseHead)
    requires MayEnd(a) && At(a, p) && a.l.OfRequest?
    ensures ProperLoose(r) && LooseBytes(r) == BytesOf(a) + [LF]
  {
    hide At, BytesOf, LineBytes, ItemsBytes, ProperLine, ProperItems;
    var its, eol := Closed(a, p);
    r := LooseHead(a.l.line, its, eol);
  }

  // ---------- every head is accepted ----------

  /** Every head is accepted, with its last byte. */
  lemma AllHeads(d: Decision, r: LooseHead)
    requires ProperLoose(r) && |LooseBytes(r)| <= MAX_HEADER_SIZE
    ensures EndsWith(d, LooseBytes(r))
  {
    hide Run, One, Passes, LineBytes, ItemsBytes, Put, ProperLine, ProperItems, Major, Minor;
    var c, w := Fresh(), (LineBytes(r.line) + ItemsBytes(r.items)) + EndStart(r.eol);
    assert LooseBytes(r) == w + [LF];
    RequestLineRun(d, c, r.line);
    FirstLog(c.log, r.line.url);
    var c1 := Run(d, c, LineBytes(r.line));
    ItemsRun(d, c1, r.items);
    var c2 := Run(d, c1, ItemsBytes(r.items));
    RunConcat(d, c, LineBytes(r.line), ItemsBytes(r.items));
    EndRun(d, c2, r.eol);
    RunConcat(d, c, LineBytes(r.line) + ItemsBytes(r.items), EndStart(r.eol));
    var m := Run(d, c, w);
    RunPush(d, c, w, LF);
    LastLf(d, m);
    HeadAnnounced(d, Counted(m.p).(state := HeadersAlmostDone), m.log, m.used);
    assert LooseBytes(r)[..|LooseBytes(r)| - 1] == w;
  }

  /** The parser announces the end of the headers at the last of some bytes, and not before, exactly
      if they are a head of at most 80 KB. */
  lemma ExactlyHeads(d: Decision, w: seq<Byte>)
    ensures EndsWith(d, w) <==> exists r :: ProperLoose(r) && LooseBytes(r) == w && |w| <= MAX_HEADER_SIZE
  {
    hide EndsWith, ProperLoose, LooseBytes;
    if EndsWith(d, w) { OnlyHeads(d, w); }
    forall r | ProperLoose(r) && LooseBytes(r) == w && |w| <= MAX_HEADER_SIZE ensures EndsWith(d, w) { AllHeads(d, r); }
  }

  // ---------- heads in which every line has a colon ----------

  function HeaderOf(it: Item): Header { Header(it.name, it.lines) }

  function HeadersOf(its: seq<Item>): (hs: seq<Header>)
    ensures |hs| == |its| && forall i | 0 <= i < |its| :: hs[i] == HeaderOf(its[i])
  {
    seq(|its|, i requires 0 <= i < |its| => HeaderOf(its[i]))
  }

  lemma {:induction false} ColonBytes(its: seq<Item>)
    requires forall it <- its :: it.colon
    ensures HeadersBytes(HeadersOf(its)) == ItemsBytes(its)
  {
    hide FoldsBytes;
    if its != [] {
      var init := its[..|its| - 1];
      ColonBytes(init);
      assert its[|its| - 1] in its;
      assert HeadersOf(its)[..|its| - 1] == HeadersOf(init);
    }
  }

  /** Those are the heads of `HttpHead`. */
  lemma ColonHead(r: LooseHead)
    requires ProperLoose(r) && |LooseBytes(r)| <= MAX_HEADER_SIZE && forall it <- r.items :: it.colon
    ensures var h := Head(r.line, HeadersOf(r.items), r.eol); Proper(h) && Rendered(h) == LooseBytes(r)
  {
    hide ProperLine, LineBytes, HeadersBytes, ItemsBytes, IsName, Folds, Lengths, Lowered;
    ColonBytes(r.items);
    forall i | 0 <= i < |r.items| ensures ProperHeader(HeaderOf(r.items[i])) {
      assert ProperItem(r.items[i]) && r.items[i] in r.items;
    }
  }
}
