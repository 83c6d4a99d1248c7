/** A whole request head, as a client may write it, and the callbacks it leads to. */
module HttpHead {
  import opened Options
  import opened HttpTypes
  import opened HttpSwitch
  import opened HttpMarks
  import opened HttpReference
  import opened HttpBody
  import opened HttpNames
  import opened HttpValues
  import opened HttpLine

  /** A line of a header's value: blanks, and text that begins with none. */
  datatype Fold = Fold(pad: seq<Byte>, text: seq<Byte>, eol: Eol)

  /** A header with a colon.  Its value may go on in lines that begin with blanks. */
  datatype Header = Header(name: seq<Byte>, lines: seq<Fold>)

  datatype Head = Head(line: RequestLine, headers: seq<Header>, eol: Eol)

  predicate ProperFold(f: Fold) {
    && (forall i | 0 <= i < |f.pad| :: IsBlank(f.pad[i]))
    && CR !in f.text && LF !in f.text && (f.text != [] ==> !IsBlank(f.text[0]))
  }

  /** After an empty line that ends in LF alone, the parser expects no more of the value. */
  predicate Folds(ls: seq<Fold>) {
    && (forall i | 0 <= i < |ls| :: ProperFold(ls[i]))
    && (forall i | 0 < i < |ls| :: ls[i].pad != [])
    && (ls != [] ==> GoOn(ls[..|ls| - 1]))
  }

  /** None of the lines is empty and ended by LF alone. */
  predicate GoOn(ls: seq<Fold>) { forall i | 0 <= i < |ls| :: ls[i].text != [] || ls[i].eol.CrLf? }

  predicate NoneBlank(ls: seq<Fold>) { forall i | 0 <= i < |ls| :: ls[i].text != [] }

  /** Every line of a content length, up to the first empty one, is one that the parser accepts. */
  predicate Lengths(ls: seq<Fold>) {
    forall i | 0 <= i < |ls| && NoneBlank(ls[..i + 1]) :: LengthOf(ls[i].text).Some?
  }

  predicate ProperHeader(h: Header) {
    IsName(h.name) && h.lines != [] && Folds(h.lines) && (Lowered(h.name) == CONTENT_LENGTH ==> Lengths(h.lines))
  }

  predicate Proper(r: Head) {
    && ProperLine(r.line)
    && (forall i | 0 <= i < |r.headers| :: ProperHeader(r.headers[i]))
    && |Rendered(r)| <= MAX_HEADER_SIZE
  }

  function FoldBytes(f: Fold): seq<Byte> { f.pad + (f.text + EolBytes(f.eol)) }

  function FoldsBytes(ls: seq<Fold>): seq<Byte> {
    if ls == [] then [] else FoldsBytes(ls[..|ls| - 1]) + FoldBytes(ls[|ls| - 1])
  }

  function HeaderBytes(h: Header): seq<Byte> { (h.name + [':']) + FoldsBytes(h.lines) }

  function HeadersBytes(hs: seq<Header>): seq<Byte> {
    if hs == [] then [] else HeadersBytes(hs[..|hs| - 1]) + HeaderBytes(hs[|hs| - 1])
  }

  function Rendered(r: Head): seq<Byte> { (LineBytes(r.line) + HeadersBytes(r.headers)) + EolBytes(r.eol) }

  /** The text of a value: that of its lines, joined. */
  function Text(ls: seq<Fold>): seq<Byte> {
    if ls == [] then [] else Text(ls[..|ls| - 1]) + ls[|ls| - 1].text
  }

  /** The callbacks for the headers. */
  function HeaderEvents(hs: seq<Header>): seq<Event> {
    if hs == [] then []
    else HeaderEvents(hs[..|hs| - 1]) + [Data(Field, hs[|hs| - 1].name), Data(Value, Text(hs[|hs| - 1].lines))]
  }

  // ---------- a line of a value ----------

  /** `q` is `p` some bytes further on in the head. */
  predicate Along(p: Parser, q: Parser, n: nat) {
    && q == p.(state := q.state, headerState := q.headerState, index := q.index, contentLength := q.contentLength,
               flags := q.flags, nread := p.nread + n)
    && q.flags.trailing == p.flags.trailing
  }

  lemma ValueFirst(d: Decision, c: Conf, b: Byte)
    requires c.status.Running? && c.p.state.HeaderValueStart? && b != CR && b != LF && !IsBlank(b)
      && c.p.nread + 1 <= MAX_HEADER_SIZE
    requires c.p.headerState.ContentLength? ==> IsNum(b)
    ensures var o := One(d, c, b);
      && o == Conf(o.p, Put(c.log, Data(Value, [b])), c.used + 1, Running)
      && o.p.state.HeaderValue? && Along(c.p, o.p, 1) && o.p.index == 0
      && o.p.headerState == ValueState(c.p.headerState, [b])
      && FrameOf(o.p) == WithinValue(FrameOf(c.p), c.p.headerState, [b])
  {
    hide One, Passes, Switch, Put, ValueState;
    FirstValueState(c.p.headerState, b);
    ValueStartPass(d, Counted(c.p), b);
    OneStep(d, c, b);
  }

  lemma ValueByte(d: Decision, c: Conf, h: HeaderState, v: seq<Byte>, b: Byte)
    requires c.status.Running? && c.p.state.HeaderValue? && b != CR && b != LF && c.p.nread + 1 <= MAX_HEADER_SIZE
    requires v != [] && !h.ContentLength? && c.p.headerState == ValueState(h, v)
      && IndexAt(c.p.headerState, c.p.index, |v|)
    ensures var o := One(d, c, b);
      && o == Conf(o.p, Put(c.log, Data(Value, [b])), c.used + 1, Running)
      && o.p == c.p.(headerState := ValueState(h, v + [b]), index := o.p.index, nread := c.p.nread + 1)
      && IndexAt(o.p.headerState, o.p.index, |v| + 1)
  {
    hide One, Passes, Switch, Put, ValueState, InValue;
    NextValueState(Counted(c.p), h, v, b);
    ValuePass(d, Counted(c.p), b);
    OneStep(d, c, b);
  }

  lemma LengthByte(d: Decision, c: Conf, b: Byte, v: nat)
    requires c.status.Running? && c.p.state.HeaderValue? && c.p.headerState.ContentLength?
      && c.p.nread + 1 <= MAX_HEADER_SIZE
    requires if b == ' ' then v == c.p.contentLength
      else IsNum(b) && MoreDigits(10, c.p.contentLength, Digit(b)) == Some(v)
    ensures One(d, c, b)
      == Conf(c.p.(contentLength := v, nread := c.p.nread + 1), Put(c.log, Data(Value, [b])), c.used + 1, Running)
  {
    hide One, Passes, Switch, Put, MoreDigits;
    ValuePass(d, Counted(c.p), b);
    OneStep(d, c, b);
  }

  /** The parser within a value. */
  predicate InsideValue(p: Parser, q: Parser, v: seq<Byte>) {
    && q.state.HeaderValue? && Along(p, q, |v|)
    && q.headerState == ValueState(p.headerState, v) && IndexAt(q.headerState, q.index, |v|)
    && FrameOf(q) == WithinValue(FrameOf(p), p.headerState, v)
  }

  lemma ValueNext(d: Decision, p: Parser, c: Conf, v: seq<Byte>, b: Byte)
    requires c.status.Running? && v != [] && InsideValue(p, c.p, v) && b != CR && b != LF
      && c.p.nread + 1 <= MAX_HEADER_SIZE
    requires p.headerState.ContentLength? ==> LengthOf(v + [b]).Some?
    ensures var o := One(d, c, b);
      o == Conf(o.p, Put(c.log, Data(Value, [b])), c.used + 1, Running) && InsideValue(p, o.p, v + [b])
  {
    hide One, Put, MoreDigits, Says, Begun;
    var r := v + [b];
    assert r[..|r| - 1] == v;
    if p.headerState.ContentLength? {
      LengthByte(d, c, b, LengthOf(r).value);
    } else {
      ValueByte(d, c, p.headerState, v, b);
    }
  }

  /** A value, up to the end of its line: it is delivered, and recognised. */
  lemma {:induction false} ValueRun(d: Decision, c: Conf, v: seq<Byte>)
    requires c.status.Running? && c.p.state.HeaderValueStart? && v != [] && !IsBlank(v[0])
    requires CR !in v && LF !in v && c.p.nread + |v| <= MAX_HEADER_SIZE
    requires c.p.headerState.ContentLength? ==> LengthOf(v).Some?
    ensures var r := Run(d, c, v);
      r == Conf(r.p, Put(c.log, Data(Value, v)), c.used + |v|, Running) && InsideValue(c.p, r.p, v)
    decreases |v|
  {
    hide One, Run, Put, MoreDigits, ValueState;
    var init, last := v[..|v| - 1], v[|v| - 1];
    assert v == init + [last];
    if init == [] {
      ValueFirst(d, c, last);
      RunPush1(d, c, last);
    } else {
      ValueRun(d, c, init);
      RunPush(d, c, init, last);
      ValueNext(d, c.p, Run(d, c, init), init, last);
      PutTwice(c.log, Value, init, [last]);
    }
  }

  /** The state of the recogniser after a line. */
  function StateAfter(h: HeaderState, f: Fold): HeaderState {
    if f.text != [] then ValueState(h, f.text) else if f.eol.CrLf? then General else h
  }

  /** The parser at the end of a line of a value. */
  predicate LineRead(p: Parser, q: Parser, f: Fold, n: nat) {
    && (if f.text == [] && f.eol.Lf? then q.state.HeaderFieldStart? else q.state.HeaderValueLws?)
    && Along(p, q, n) && q.headerState == StateAfter(p.headerState, f)
    && FrameOf(q) == AfterValue(FrameOf(p), p.headerState, f.text)
  }

  lemma ValueCr(d: Decision, c: Conf)
    requires c.status.Running? && (c.p.state.HeaderValue? || c.p.state.HeaderValueStart?)
      && c.p.nread + 1 <= MAX_HEADER_SIZE
    ensures var o := One(d, c, CR);
      && o == Conf(o.p, Put(c.log, Data(Value, [])), c.used + 1, Running)
      && o.p == c.p.(state := HeaderAlmostDone, index := o.p.index, nread := c.p.nread + 1,
                     headerState := if c.p.state.HeaderValue? then c.p.headerState else General)
  {
    hide One, Passes, Switch, Put;
    if c.p.state.HeaderValue? { ValuePass(d, Counted(c.p), CR); } else { ValueStartPass(d, Counted(c.p), CR); }
    OneStep(d, c, CR);
  }

  lemma LineLf(d: Decision, c: Conf)
    requires c.status.Running? && c.p.state.HeaderAlmostDone? && c.p.nread + 1 <= MAX_HEADER_SIZE
    ensures One(d, c, LF)
      == Conf(c.p.(state := HeaderValueLws, nread := c.p.nread + 1,
                   flags := AtLineEnd(FrameOf(c.p), c.p.headerState).flags),
                                  c.log, c.used + 1, Running)
  {
    hide One, Passes, Switch, Put;
    LineEndPass(d, Counted(c.p), LF);
    OneStep(d, c, LF);
  }

  /** A line feed ends an empty line at once, and is looked at again after a text. */
  lemma ValueLf(d: Decision, c: Conf)
    requires c.status.Running? && (c.p.state.HeaderValue? || c.p.state.HeaderValueStart?)
      && c.p.nread + 1 <= MAX_HEADER_SIZE
    ensures var o := One(d, c, LF);
      && o == Conf(o.p, Put(c.log, Data(Value, [])), c.used + 1, Running)
      && o.p == c.p.(state := if c.p.state.HeaderValue? then HeaderValueLws else HeaderFieldStart, index := o.p.index,
                     nread := c.p.nread + 1,
                     flags := if c.p.state.HeaderValue? then AtLineEnd(FrameOf(c.p), c.p.headerState).flags
                       else c.p.flags)
  {
    hide One, Passes, Switch, Put, AtLineEnd;
    if c.p.state.HeaderValue? {
      LfTwice(d, Counted(c.p), c.log, c.used);
      OneInHead(d, c, LF);
    } else {
      ValueStartPass(d, Counted(c.p), LF);
      OneStep(d, c, LF);
    }
  }

  lemma OneInHead(d: Decision, c: Conf, b: Byte)
    requires ParsingHeader(c.p.state) && c.p.nread + 1 <= MAX_HEADER_SIZE
    ensures One(d, c, b) == Passes(d, Counted(c.p), c.log, c.used, b)
  {
    hide Passes;
  }

  lemma LfTwice(d: Decision, p: Parser, log: seq<Event>, used: int)
    requires p.state.HeaderValue?
    ensures Passes(d, p, log, used, LF)
      == Conf(p.(state := HeaderValueLws, flags := AtLineEnd(FrameOf(p), p.headerState).flags),
              Put(log, Data(Value, [])), used + 1, Running)
  {
    hide Switch, Put;
    ValuePass(d, p, LF);
    LineEndPass(d, p.(state := HeaderAlmostDone), LF);
  }

  /** The end of a line of a value. */
  lemma ValueEol(d: Decision, c: Conf, eol: Eol)
    requires c.status.Running? && (c.p.state.HeaderValue? || c.p.state.HeaderValueStart?)
      && c.p.nread + |EolBytes(eol)| <= MAX_HEADER_SIZE
    ensures var r, h := Run(d, c, EolBytes(eol)), if c.p.state.HeaderValue? then c.p.headerState else General;
      && r == Conf(r.p, Put(c.log, Data(Value, [])), c.used + |EolBytes(eol)|, Running)
      && Along(c.p, r.p, |EolBytes(eol)|) && FrameOf(r.p) == AtLineEnd(FrameOf(c.p), h)
      && (if eol.Lf? && c.p.state.HeaderValueStart? then
            r.p.state.HeaderFieldStart? && r.p.headerState == c.p.headerState
          else r.p.state.HeaderValueLws? && r.p.headerState == h)
  {
    hide One, Run, Put;
    if eol.Lf? {
      ValueLf(d, c);
      RunPush1(d, c, LF);
    } else {
      ValueCr(d, c);
      LineLf(d, One(d, c, CR));
      RunPush1(d, c, CR);
      RunPush(d, c, [CR], LF);
      assert [CR] + [LF] == [CR, LF];
    }
  }

  /** One line of a value: it is delivered without the blanks before it, and recognised. */
  lemma TextRun(d: Decision, c: Conf, f: Fold)
    requires c.status.Running? && c.p.state.HeaderValueStart? && ProperFold(f)
      && c.p.nread + |FoldBytes(f)| <= MAX_HEADER_SIZE
    requires c.p.headerState.ContentLength? && f.text != [] ==> LengthOf(f.text).Some?
    ensures var r := Run(d, c, FoldBytes(f));
      r == Conf(r.p, Put(c.log, Data(Value, f.text)), c.used + |FoldBytes(f)|, Running)
        && LineRead(c.p, r.p, f, |FoldBytes(f)|)
  {
    hide One, Run, Put, ValueState, WithinValue, LengthOf, EolBytes, AtLineEnd;
    IdleRun(d, c, f.pad);
    var c1 := Run(d, c, f.pad);
    RunConcat(d, c, f.pad, f.text + EolBytes(f.eol));
    if f.text == [] {
      assert f.text + EolBytes(f.eol) == EolBytes(f.eol);
      ValueEol(d, c1, f.eol);
      GeneralEnd(FrameOf(c.p));
    } else {
      LineEndFrame(FrameOf(c.p), c.p.headerState, f.text);
      ValueRun(d, c1, f.text);
      RunConcat(d, c1, f.text, EolBytes(f.eol));
      ValueEol(d, Run(d, c1, f.text), f.eol);
      PutTwice(c.log, Value, f.text, []);
      assert f.text + [] == f.text;
    }
  }

  lemma GeneralEnd(f: Frame)
    ensures AtLineEnd(f, General) == f
  {
  }

  // ---------- values of several lines ----------

  /** The recogniser, and the frame, after the lines of a value. */
  function StateAfterAll(h: HeaderState, ls: seq<Fold>): HeaderState {
    if ls == [] then h else StateAfter(StateAfterAll(h, ls[..|ls| - 1]), ls[|ls| - 1])
  }

  function FrameAfterAll(f: Frame, h: HeaderState, ls: seq<Fold>): Frame {
    if ls == [] then f
    else AfterValue(FrameAfterAll(f, h, ls[..|ls| - 1]), StateAfterAll(h, ls[..|ls| - 1]), ls[|ls| - 1].text)
  }

  /** A line that begins with blanks goes on with the value. */
  lemma GoesOn(d: Decision, c: Conf, b: Byte)
    requires c.status.Running? && c.p.state.HeaderValueLws? && IsBlank(b) && c.p.nread + 1 <= MAX_HEADER_SIZE
    ensures One(d, c, b) == Conf(c.p.(state := HeaderValueStart, nread := c.p.nread + 1), c.log, c.used + 1, Running)
  {
    hide One, Passes, Switch;
    LineEndPass(d, Counted(c.p), b);
    OneStep(d, c, b);
  }

  lemma NextLine(d: Decision, c: Conf, f: Fold)
    requires c.status.Running? && c.p.state.HeaderValueLws? && ProperFold(f) && f.pad != []
      && c.p.nread + |FoldBytes(f)| <= MAX_HEADER_SIZE
    requires c.p.headerState.ContentLength? && f.text != [] ==> LengthOf(f.text).Some?
    ensures var r := Run(d, c, FoldBytes(f));
      r == Conf(r.p, Put(c.log, Data(Value, f.text)), c.used + |FoldBytes(f)|, Running)
        && LineRead(c.p, r.p, f, |FoldBytes(f)|)
  {
    hide One, Run, Put, LengthOf, EolBytes, StateAfter, AfterValue;
    var g := f.(pad := f.pad[1..]);
    assert FoldBytes(f) == [f.pad[0]] + FoldBytes(g);
    GoesOn(d, c, f.pad[0]);
    RunPush1(d, c, f.pad[0]);
    RunConcat(d, c, [f.pad[0]], FoldBytes(g));
    TextRun(d, One(d, c, f.pad[0]), g);
    SameLine(f, g);
  }

  lemma SameLine(f: Fold, g: Fold)
    requires g == f.(pad := g.pad)
    ensures forall h :: StateAfter(h, f) == StateAfter(h, g)
  {
  }

  lemma FoldsInit(ls: seq<Fold>)
    requires Folds(ls) && ls != []
    ensures var init, last := ls[..|ls| - 1], ls[|ls| - 1];
      && Folds(init) && ProperFold(last) && (Lengths(ls) ==> Lengths(init))
      && (init != [] ==> last.pad != [] && (init[|init| - 1].text != [] || init[|init| - 1].eol.CrLf?))
  {
    var init := ls[..|ls| - 1];
    forall i | 0 <= i < |init| && NoneBlank(init[..i + 1]) && Lengths(ls) ensures LengthOf(init[i].text).Some? {
      assert ls[..i + 1] == init[..i + 1];
    }
  }

  /** The states in which a value can still tell something. */
  predicate Telling(h: HeaderState) { h.Connection? || h.ContentLength? || h.TransferEncoding? || h.Upgrade? }

  lemma OneTells(h: HeaderState, f: Fold)
    requires f.text != [] || f.eol.CrLf?
    ensures Telling(StateAfter(h, f)) <==> h.ContentLength? && f.text != []
    ensures Telling(StateAfter(h, f)) ==> StateAfter(h, f).ContentLength?
  {
  }

  lemma LastLine(ls: seq<Fold>)
    requires ls != []
    ensures var init, last := ls[..|ls| - 1], ls[|ls| - 1];
      && ls == init + [last] && (NoneBlank(ls) <==> NoneBlank(init) && last.text != [])
      && (GoOn(ls) <==> GoOn(init) && (last.text != [] || last.eol.CrLf?)) && NoneBlank([])
  {
    var init, last := ls[..|ls| - 1], ls[|ls| - 1];
    assert forall i | 0 <= i < |init| :: init[i] == ls[i];
  }

  /** After some lines, only a length can be told any more, and only if none of them was empty. */
  lemma {:induction false} StateTells(h: HeaderState, ls: seq<Fold>)
    requires ls != [] && GoOn(ls)
    ensures Telling(StateAfterAll(h, ls)) <==> h.ContentLength? && NoneBlank(ls)
    ensures Telling(StateAfterAll(h, ls)) ==> StateAfterAll(h, ls).ContentLength?
  {
    hide StateAfter, Telling, Folds, Lengths, NoneBlank, GoOn;
    var init, last := ls[..|ls| - 1], ls[|ls| - 1];
    LastLine(ls);
    OneTells(StateAfterAll(h, init), last);
    if init == [] {
      assert StateAfterAll(h, []) == h;
    } else {
      StateTells(h, init);
      CountsAsTelling(StateAfterAll(h, init));
    }
  }

  lemma CountsAsTelling(h: HeaderState)
    ensures h.ContentLength? ==> Telling(h)
  {
  }

  /** The lines of a value: they are delivered as one text. */
  lemma {:induction false} FoldsRun(d: Decision, c: Conf, ls: seq<Fold>)
    requires c.status.Running? && c.p.state.HeaderValueStart? && ls != [] && Folds(ls)
      && c.p.nread + |FoldsBytes(ls)| <= MAX_HEADER_SIZE
    requires c.p.headerState.ContentLength? ==> Lengths(ls)
    ensures var r, last := Run(d, c, FoldsBytes(ls)), ls[|ls| - 1];
      && r == Conf(r.p, Put(c.log, Data(Value, Text(ls))), c.used + |FoldsBytes(ls)|, Running)
      && (if last.text == [] && last.eol.Lf? then r.p.state.HeaderFieldStart? else r.p.state.HeaderValueLws?)
      && Along(c.p, r.p, |FoldsBytes(ls)|) && r.p.headerState == StateAfterAll(c.p.headerState, ls)
      && FrameOf(r.p) == FrameAfterAll(FrameOf(c.p), c.p.headerState, ls)
    decreases |ls|
  {
    hide One, Run, Put, FoldBytes, StateAfter, AfterValue, Folds, ProperFold;
    var init, last := ls[..|ls| - 1], ls[|ls| - 1];
    FoldsInit(ls);
    LengthNeeded(c.p.headerState, ls);
    if init == [] {
      assert FoldsBytes(ls) == [] + FoldBytes(last) == FoldBytes(last);
      assert Text(ls) == [] + last.text == last.text;
      TextRun(d, c, last);
    } else {
      FoldsRun(d, c, init);
      RunConcat(d, c, FoldsBytes(init), FoldBytes(last));
      NextLine(d, Run(d, c, FoldsBytes(init)), last);
      PutTwice(c.log, Value, Text(init), last.text);
    }
  }

  lemma LengthNeeded(h: HeaderState, ls: seq<Fold>)
    requires Folds(ls) && ls != [] && (h.ContentLength? ==> Lengths(ls))
    ensures StateAfterAll(h, ls[..|ls| - 1]).ContentLength? && ls[|ls| - 1].text != [] ==>
      LengthOf(ls[|ls| - 1].text).Some?
  {
    var init := ls[..|ls| - 1];
    if StateAfterAll(h, init).ContentLength? && ls[|ls| - 1].text != [] {
      if init != [] { StateTells(h, init); }
      assert ls == init + [ls[|ls| - 1]] && ls[..|init| + 1] == ls;
    }
  }

  /** What the lines of a value say: nothing after the first, but for a content length, where the
      last one before an empty line stays. */
  function Told(h: HeaderState, ls: seq<Fold>): seq<Byte> {
    if ls == [] then []
    else if h.ContentLength? then (if NoneBlank(ls) then ls[|ls| - 1].text else Told(h, ls[..|ls| - 1]))
    else ls[0].text
  }

  lemma TwoLengths(f: Frame, v: seq<Byte>, w: seq<Byte>)
    requires w != [] && LengthOf(w).Some?
    ensures AfterValue(AfterValue(f, ContentLength, v), ContentLength, w) == AfterValue(f, ContentLength, w)
  {
  }

  lemma NothingTold(f: Frame, h: HeaderState, v: seq<Byte>)
    requires v == [] || !Telling(h)
    ensures AfterValue(f, h, v) == f
  {
  }

  /** What one more line adds. */
  lemma ToldMore(f: Frame, h: HeaderState, init: seq<Fold>, last: Fold)
    ensures var ls := init + [last];
      && FrameAfterAll(f, h, ls) == AfterValue(FrameAfterAll(f, h, init), StateAfterAll(h, init), last.text)
      && Told(h, ls) ==
        (if init == [] || (h.ContentLength? && NoneBlank(init) && last.text != []) then last.text else Told(h, init))
      && (init == [] ==> FrameAfterAll(f, h, init) == f && StateAfterAll(h, init) == h)
  {
    hide AfterValue, StateAfter, NoneBlank, GoOn;
    var ls := init + [last];
    assert ls[..|ls| - 1] == init && ls[|ls| - 1] == last;
    LastLine(ls);
  }

  lemma {:induction false} AfterTold(f: Frame, h: HeaderState, ls: seq<Fold>)
    requires Folds(ls) && (h.ContentLength? ==> Lengths(ls))
    ensures FrameAfterAll(f, h, ls) == AfterValue(f, h, Told(h, ls))
  {
    hide AfterValue, Folds, Lengths, LengthOf, StateAfter, StateAfterAll, FrameAfterAll, Told, NoneBlank, Telling;
    if ls == [] {
      NoLines(f, h);
      NothingTold(f, h, []);
    } else {
      var init, last := ls[..|ls| - 1], ls[|ls| - 1];
      assert ls == init + [last];
      ToldMore(f, h, init, last);
      if init != [] {
        FoldsInit(ls);
        StillFolds(ls);
        AfterTold(f, h, init);
        LengthNeeded(h, ls);
        var state := StateAfterAll(h, init);
        StateTells(h, init);
        if last.text != [] && Telling(state) {
          TwoLengths(f, Told(h, init), last.text);
        } else {
          NothingTold(FrameAfterAll(f, h, init), state, last.text);
        }
      }
    }
  }

  lemma StillFolds(ls: seq<Fold>)
    requires Folds(ls) && ls != []
    ensures GoOn(ls[..|ls| - 1])
  {
  }

  lemma NoLines(f: Frame, h: HeaderState)
    ensures FrameAfterAll(f, h, []) == f && Told(h, []) == []
  {
  }

  // ---------- a header ----------

  /** Where a header may begin. */
  predicate AtHeader(p: Parser) { p.state.HeaderFieldStart? || p.state.HeaderValueLws? }

  lemma AfterLine(d: Decision, c: Conf, b: Byte)
    requires c.status.Running? && c.p.state.HeaderValueLws? && !IsBlank(b) && c.p.nread + 1 <= MAX_HEADER_SIZE
    ensures One(d, c, b) == One(d, c.(p := c.p.(state := HeaderFieldStart)), b)
  {
    hide Passes, Rank;
    LwsPass(d, Counted(c.p), c.log, c.used, b);
  }

  lemma LwsPass(d: Decision, p: Parser, log: seq<Event>, used: int, b: Byte)
    requires p.state.HeaderValueLws? && !IsBlank(b)
    ensures Passes(d, p, log, used, b) == Passes(d, p.(state := HeaderFieldStart), log, used, b)
  {
    hide Switch;
    LineEndPass(d, p, b);
    SwitchMarks(d, p, b);
  }

  /** What comes after a header line starts as at the beginning of the headers. */
  lemma FromFieldStart(d: Decision, c: Conf, bytes: seq<Byte>)
    requires c.status.Running? && AtHeader(c.p) && bytes != [] && !IsBlank(bytes[0]) && c.p.nread + 1 <= MAX_HEADER_SIZE
    ensures Run(d, c, bytes) == Run(d, c.(p := c.p.(state := HeaderFieldStart)), bytes)
  {
    hide One;
    if c.p.state.HeaderValueLws? {
      AfterLine(d, c, bytes[0]);
    } else {
      assert c.(p := c.p.(state := HeaderFieldStart)) == c;
    }
  }

  lemma NameNotBlank(name: seq<Byte>)
    requires IsName(name)
    ensures name != [] && !IsBlank(name[0]) && name[0] != CR && name[0] != LF
  {
  }

  /** What a header says about the message, by its name in lower case. */
  function AfterHeader(f: Frame, h: Header): Frame {
    var l := Lowered(h.name);
    if l == CONNECTION || l == PROXY_CONNECTION then AfterValue(f, Connection, Told(Connection, h.lines))
    else if l == CONTENT_LENGTH then AfterValue(f, ContentLength, Told(ContentLength, h.lines))
    else if l == TRANSFER_ENCODING then AfterValue(f, TransferEncoding, Told(TransferEncoding, h.lines))
    else if l == UPGRADE then AfterValue(f, Upgrade, Told(Upgrade, h.lines))
    else f
  }

  function AfterHeaders(f: Frame, hs: seq<Header>): Frame {
    if hs == [] then f else AfterHeader(AfterHeaders(f, hs[..|hs| - 1]), hs[|hs| - 1])
  }

  /** At the colon, the state of the recogniser tells what the header says. */
  lemma NameColon(d: Decision, c: Conf, h: Header)
    requires c.status.Running? && c.p.state.HeaderFieldStart? && IsName(h.name)
      && c.p.nread + |h.name| + 1 <= MAX_HEADER_SIZE
    ensures var r := Run(d, c, h.name + [':']);
      && r == Conf(r.p, Put(c.log, Data(Field, h.name)), c.used + |h.name| + 1, Running)
      && r.p.state.HeaderValueStart? && Along(c.p, r.p, |h.name| + 1) && FrameOf(r.p) == FrameOf(c.p)
      && (r.p.headerState.ContentLength? <==> Lowered(h.name) == CONTENT_LENGTH)
      && AfterValue(FrameOf(c.p), r.p.headerState, Told(r.p.headerState, h.lines)) == AfterHeader(FrameOf(c.p), h)
  {
    hide Run, Put, Lowered, LengthOf, Says, Told;
    HeaderNameRecognised(d, c, h.name);
    WordsDiffer();
  }

  lemma HeaderRun(d: Decision, c: Conf, h: Header)
    requires c.status.Running? && AtHeader(c.p) && ProperHeader(h) && c.p.nread + |HeaderBytes(h)| <= MAX_HEADER_SIZE
    ensures var r := Run(d, c, HeaderBytes(h));
      && r == Conf(r.p, Put(Put(c.log, Data(Field, h.name)), Data(Value, Text(h.lines))), c.used + |HeaderBytes(h)|,
                   Running)
      && AtHeader(r.p) && Along(c.p, r.p, |HeaderBytes(h)|) && FrameOf(r.p) == AfterHeader(FrameOf(c.p), h)
  {
    hide One, Run, Put, IsName, Lowered, Lengths, Folds, Told, FoldsBytes, StateAfterAll, FrameAfterAll, AfterHeader,
      AfterValue;
    var c0 := c.(p := c.p.(state := HeaderFieldStart));
    NameNotBlank(h.name);
    assert HeaderBytes(h)[0] == h.name[0];
    FromFieldStart(d, c, HeaderBytes(h));
    NameColon(d, c0, h);
    var c1 := Run(d, c0, h.name + [':']);
    FoldsRun(d, c1, h.lines);
    AfterTold(FrameOf(c.p), c1.p.headerState, h.lines);
    RunConcat(d, c0, h.name + [':'], FoldsBytes(h.lines));
  }

  /** The headers: each is delivered, and together they frame the message. */
  lemma {:induction false} HeadersRun(d: Decision, c: Conf, hs: seq<Header>)
    requires c.status.Running? && AtHeader(c.p) && c.p.nread + |HeadersBytes(hs)| <= MAX_HEADER_SIZE
    requires (forall i | 0 <= i < |hs| :: ProperHeader(hs[i])) && (hs == [] || HeadersMayFollow(c.log))
    ensures var r := Run(d, c, HeadersBytes(hs));
      && r == Conf(r.p, c.log + HeaderEvents(hs), c.used + |HeadersBytes(hs)|, Running)
      && AtHeader(r.p) && Along(c.p, r.p, |HeadersBytes(hs)|) && FrameOf(r.p) == AfterHeaders(FrameOf(c.p), hs)
    decreases |hs|
  {
    hide One, Run, Put, HeaderBytes, ProperHeader, AfterHeader;
    if hs == [] {
      EmptyRun(d, c);
      assert c.log + [] == c.log;
    } else {
      var init, last := hs[..|hs| - 1], hs[|hs| - 1];
      HeadersRun(d, c, init);
      var m := Run(d, c, HeadersBytes(init));
      RunConcat(d, c, HeadersBytes(init), HeaderBytes(last));
      HeaderRun(d, m, last);
      PutHeader(c.log, init, last);
    }
  }

  /** The header data that comes next is not merged with what was delivered. */
  predicate HeadersMayFollow(log: seq<Event>) {
    log == [] || match log[|log| - 1] case Data(Field, _) => false case _ => true
  }

  lemma PutHeader(log: seq<Event>, hs: seq<Header>, h: Header)
    requires HeadersMayFollow(log)
    ensures Put(Put(log + HeaderEvents(hs), Data(Field, h.name)), Data(Value, Text(h.lines)))
      == log + HeaderEvents(hs + [h])
  {
    hide Text;
    assert (hs + [h])[..|hs|] == hs;
    assert log + HeaderEvents(hs + [h]) == (log + HeaderEvents(hs)) + [Data(Field, h.name), Data(Value, Text(h.lines))];
    var l := log + HeaderEvents(hs);
    if hs == [] { assert l == log; } else { assert l[|l| - 1] == HeaderEvents(hs)[|HeaderEvents(hs)| - 1]; }
    assert Put(l, Data(Field, h.name)) == l + [Data(Field, h.name)];
  }

  // ---------- the end of the headers ----------

  /** Before the last line feed of the headers. */
  predicate AtEnd(p: Parser) { AtHeader(p) || p.state.HeadersAlmostDone? }

  /** The end of the headers, but for its line feed. */
  function EndStart(eol: Eol): seq<Byte> { if eol.Lf? then [] else [CR] }

  lemma EndRun(d: Decision, c: Conf, eol: Eol)
    requires c.status.Running? && AtHeader(c.p) && c.p.nread + 1 <= MAX_HEADER_SIZE
    ensures var r := Run(d, c, EndStart(eol));
      && r == Conf(r.p, c.log, c.used + |EndStart(eol)|, Running) && AtEnd(r.p)
      && r.p == c.p.(state := r.p.state, nread := c.p.nread + |EndStart(eol)|)
  {
    hide One, Run;
    if eol.Lf? {
      EmptyRun(d, c);
    } else {
      var c0 := c.(p := c.p.(state := HeaderFieldStart));
      FromFieldStart(d, c, [CR]);
      RunPush1(d, c0, CR);
      HeadCr(d, c0);
    }
  }

  lemma HeadCr(d: Decision, c: Conf)
    requires c.status.Running? && c.p.state.HeaderFieldStart? && c.p.nread + 1 <= MAX_HEADER_SIZE
    ensures One(d, c, CR) == Conf(c.p.(state := HeadersAlmostDone, nread := c.p.nread + 1), c.log, c.used + 1, Running)
  {
    hide One, Passes, Switch, Put, Token;
    FieldStartPass(d, Counted(c.p), CR);
    OneStep(d, c, CR);
  }

  /** From wherever the last line feed comes, it is looked at as the end of the headers. */
  lemma LastLf(d: Decision, c: Conf)
    requires c.status.Running? && AtEnd(c.p) && c.p.nread + 1 <= MAX_HEADER_SIZE
    ensures One(d, c, LF) == Passes(d, Counted(c.p).(state := HeadersAlmostDone), c.log, c.used, LF)
  {
    hide One, Passes;
    OneInHead(d, c, LF);
    if !c.p.state.HeadersAlmostDone? {
      if c.p.state.HeaderValueLws? { LwsPass(d, Counted(c.p), c.log, c.used, LF); }
      LfPass(d, Counted(c.p).(state := HeaderFieldStart), c.log, c.used);
    }
  }

  lemma LfPass(d: Decision, p: Parser, log: seq<Event>, used: int)
    requires p.state.HeaderFieldStart?
    ensures Passes(d, p, log, used, LF) == Passes(d, p.(state := HeadersAlmostDone), log, used, LF)
  {
    hide Switch;
    FieldStartPass(d, p, LF);
    SwitchMarks(d, p, LF);
  }

  /** How the end of a message is found, by section 4.4 of RFC 2616: `skip` when the callback
      says that there is no body, `endless` when a body may last until the end of the input. */
  datatype Framing = Upgraded | NoBody | Chunks | Sized | UntilEnd

  function FramingOf(f: Frame, upgrade: bool, skip: bool, endless: bool): Framing {
    if upgrade then Upgraded
    else if skip then NoBody
    else if f.flags.chunked then Chunks
    else if f.length == 0 then NoBody
    else if f.length != ULLONG_MAX then Sized
    else if endless then UntilEnd
    else NoBody
  }

  /** A response that may have a body, whatever its headers say. */
  predicate Endless(p: Parser) {
    !p.kind.Request? && !(100 <= p.statusCode < 200) && p.statusCode != 204 && p.statusCode != 304
  }

  predicate Upgrading(p: Parser) { p.flags.upgrade || p.verb.CONNECT? }

  /** The parser that the callback for the end of the headers is asked with. */
  function Met(p: Parser): Parser { p.(state := HeadersDone, upgrade := Upgrading(p)) }

  /** The parser after the headers. */
  function Ended(p: Parser, skip: bool, state: State): Parser {
    p.(state := state, upgrade := Upgrading(p), nread := 0, flags := p.flags.(skipBody := p.flags.skipBody || skip))
  }

  /** What the end of the headers comes to. */
  function EndOfHead(p: Parser, skip: bool, log: seq<Event>, used: int): Conf {
    var told := Put(log, Notice(HeadersComplete));
    var done, over := Put(told, Notice(MessageComplete)), Ended(p, skip, NewMessage(Ended(p, skip, HeadersDone)));
    match FramingOf(FrameOf(p), Upgrading(p), skip, Endless(p))
    case Upgraded => Conf(over, done, used, Stopped)
    case NoBody => Conf(over, done, used, Running)
    case Chunks => Conf(Ended(p, skip, ChunkSizeStart), told, used, Running)
    case Sized => Conf(Ended(p, skip, BodyIdentity), told, used, Running)
    case UntilEnd => Conf(Ended(p, skip, BodyIdentityEof), told, used, Running)
  }

  /** The end of the headers: the callback decides once, about the parser it is asked with. */
  lemma HeadersEnd(d: Decision, p: Parser, log: seq<Event>, used: int)
    requires p.state.HeadersAlmostDone? && !p.flags.trailing && !p.flags.skipBody
    ensures Passes(d, p, log, used, LF) == EndOfHead(p, d(Met(p)), log, used + 1)
  {
    hide Switch, HeadEnd, Put, EndOfHead;
    HeadEndPass(d, p, LF);
    AlmostDone(d, p);
    SwitchMarks(d, p, LF);
    DonePasses(d, p, log, used, d(Met(p)));
  }

  lemma DonePasses(d: Decision, p: Parser, log: seq<Event>, used: int, skip: bool)
    requires p.state.HeadersAlmostDone? && !p.flags.skipBody
    ensures var q := Met(p).(flags := p.flags.(skipBody := skip));
      Passes(d, q, Put(log, Notice(HeadersComplete)), used, LF) == EndOfHead(p, skip, log, used + 1)
  {
    hide Switch, HeadEnd, Put, NewMessage, FramingOf;
    HeadEndPass(d, Met(p).(flags := p.flags.(skipBody := skip)), LF);
    DoneEnd(d, p, skip);
    NewMessageState(Ended(p, skip, HeadersDone));
  }

  lemma AlmostDone(d: Decision, p: Parser)
    requires p.state.HeadersAlmostDone? && !p.flags.trailing && !p.flags.skipBody
    ensures HeadEnd(d, p, LF) == Again(Met(p).(flags := p.flags.(skipBody := d(Met(p)))), Notify(HeadersComplete))
  {
    hide NewMessage, NeedsEof;
  }

  lemma DoneEnd(d: Decision, p: Parser, skip: bool)
    requires p.state.HeadersAlmostDone? && !p.flags.skipBody
    ensures var q, over := Met(p).(flags := p.flags.(skipBody := skip)),
      Ended(p, skip, NewMessage(Ended(p, skip, HeadersDone)));
      HeadEnd(d, q, LF) == match FramingOf(FrameOf(p), Upgrading(p), skip, Endless(p))
        case Upgraded => Stop(over, Notify(MessageComplete))
        case NoBody => Next(over, Notify(MessageComplete))
        case Chunks => Next(Ended(p, skip, ChunkSizeStart), Quiet)
        case Sized => Next(Ended(p, skip, BodyIdentity), Quiet)
        case UntilEnd => Next(Ended(p, skip, BodyIdentityEof), Quiet)
  {
    hide NewMessage;
  }

  // ---------- the whole head ----------

  /** The callbacks up to the end of the headers. */
  function HeadLog(r: Head): seq<Event> { [Notice(MessageBegin), Data(Url, r.line.url)] + HeaderEvents(r.headers) }

  /** What the headers say about the message. */
  function HeadFrame(hs: seq<Header>): Frame { AfterHeaders(Frame(NO_FLAGS, ULLONG_MAX), hs) }

  /** The head without its last line feed. */
  function HeadStart(r: Head): seq<Byte> { (LineBytes(r.line) + HeadersBytes(r.headers)) + EndStart(r.eol) }

  lemma HeadBytes(r: Head)
    ensures Rendered(r) == HeadStart(r) + [LF]
  {
    hide LineBytes, HeadersBytes;
  }

  /** The parser before the last line feed of a head. */
  predicate HeadRead(p: Parser, q: Parser, r: Head)
    requires ProperLine(r.line)
  {
    && AtEnd(q) && FrameOf(q) == HeadFrame(r.headers) && !q.flags.trailing && !q.flags.skipBody
    && q == p.(state := q.state, flags := q.flags, contentLength := q.contentLength, headerState := q.headerState,
               index := q.index,
               nread := p.nread + |HeadStart(r)|, verb := r.line.verb, major := Major(r.line.version),
               minor := Minor(r.line.version))
  }

  lemma HeadReadFacts(p: Parser, q: Parser, r: Head)
    requires ProperLine(r.line) && HeadRead(p, q, r)
    ensures AtEnd(q) && !q.flags.trailing && !q.flags.skipBody && q.nread == p.nread + |HeadStart(r)|
  {
    hide HeadFrame, HeadStart, Major, Minor;
  }

  lemma {:induction false} FrameFlags(f: Frame, hs: seq<Header>)
    ensures var r := AfterHeaders(f, hs);
      r.flags.trailing == f.flags.trailing && r.flags.skipBody == f.flags.skipBody
        && (f.flags.chunked ==> r.flags.chunked)
  {
    hide AfterHeader;
    if hs != [] {
      FrameFlags(f, hs[..|hs| - 1]);
      HeaderFlags(AfterHeaders(f, hs[..|hs| - 1]), hs[|hs| - 1]);
    }
  }

  lemma HeaderFlags(f: Frame, h: Header)
    ensures var r := AfterHeader(f, h);
      r.flags.trailing == f.flags.trailing && r.flags.skipBody == f.flags.skipBody
        && (f.flags.chunked ==> r.flags.chunked)
  {
    hide Told, Lowered, AfterValue;
    ValueFlags(f, Connection, Told(Connection, h.lines));
    ValueFlags(f, ContentLength, Told(ContentLength, h.lines));
    ValueFlags(f, TransferEncoding, Told(TransferEncoding, h.lines));
    ValueFlags(f, Upgrade, Told(Upgrade, h.lines));
  }

  lemma ValueFlags(f: Frame, h: HeaderState, v: seq<Byte>)
    ensures var r := AfterValue(f, h, v);
      r.flags.trailing == f.flags.trailing && r.flags.skipBody == f.flags.skipBody
        && (f.flags.chunked ==> r.flags.chunked)
  {
    hide Says, LengthOf;
  }

  /** Headers after headers: they count together. */
  lemma {:induction false} AfterBoth(f: Frame, a: seq<Header>, b: seq<Header>)
    ensures AfterHeaders(AfterHeaders(f, a), b) == AfterHeaders(f, a + b)
    decreases |b|
  {
    hide AfterHeader;
    if b == [] {
      assert a + b == a;
    } else {
      AfterBoth(f, a, b[..|b| - 1]);
      assert (a + b)[..|a + b| - 1] == a + b[..|b| - 1];
    }
  }

  /** The frames agree on what becomes of the connection. */
  predicate SameEnd(f: Frame, g: Frame) { f.flags.close == g.flags.close && f.flags.keepAlive == g.flags.keepAlive }

  lemma {:induction false} EndFollows(f: Frame, g: Frame, hs: seq<Header>)
    requires SameEnd(f, g)
    ensures SameEnd(AfterHeaders(f, hs), AfterHeaders(g, hs))
  {
    hide AfterHeader, SameEnd;
    if hs != [] {
      EndFollows(f, g, hs[..|hs| - 1]);
      HeaderFollows(AfterHeaders(f, hs[..|hs| - 1]), AfterHeaders(g, hs[..|hs| - 1]), hs[|hs| - 1]);
    }
  }

  lemma HeaderFollows(f: Frame, g: Frame, h: Header)
    requires SameEnd(f, g)
    ensures SameEnd(AfterHeader(f, h), AfterHeader(g, h))
  {
    hide Told, Lowered, AfterValue, SameEnd;
    ValueFollows(f, g, Connection, Told(Connection, h.lines));
    ValueFollows(f, g, ContentLength, Told(ContentLength, h.lines));
    ValueFollows(f, g, TransferEncoding, Told(TransferEncoding, h.lines));
    ValueFollows(f, g, Upgrade, Told(Upgrade, h.lines));
  }

  lemma ValueFollows(f: Frame, g: Frame, h: HeaderState, v: seq<Byte>)
    requires SameEnd(f, g)
    ensures SameEnd(AfterValue(f, h, v), AfterValue(g, h, v))
  {
    hide Says, LengthOf;
  }

  lemma FirstLog(log: seq<Event>, u: seq<Byte>)
    ensures Put(Put(log, Notice(MessageBegin)), Data(Url, u)) == log + [Notice(MessageBegin), Data(Url, u)]
  {
  }

  /** Up to the last line feed of the head. */
  lemma HeadStartRun(d: Decision, c: Conf, r: Head)
    requires c.status.Running? && AtRequest(c.p) && Proper(r) && c.p.nread + |Rendered(r)| <= MAX_HEADER_SIZE
    ensures var o := Run(d, c, HeadStart(r));
      o == Conf(o.p, c.log + HeadLog(r), c.used + |HeadStart(r)|, Running) && HeadRead(c.p, o.p, r)
  {
    hide Run, One, LineBytes, HeadersBytes, Put, ProperLine, ProperHeader, Major, Minor, HeaderEvents;
    HeadBytes(r);
    RequestLineRun(d, c, r.line);
    FirstLog(c.log, r.line.url);
    var c1 := Run(d, c, LineBytes(r.line));
    HeadersRun(d, c1, r.headers);
    var c2 := Run(d, c1, HeadersBytes(r.headers));
    RunConcat(d, c, LineBytes(r.line), HeadersBytes(r.headers));
    EndRun(d, c2, r.eol);
    RunConcat(d, c, LineBytes(r.line) + HeadersBytes(r.headers), EndStart(r.eol));
    FrameFlags(Frame(NO_FLAGS, ULLONG_MAX), r.headers);
    assert c.log + HeadLog(r) == (c.log + [Notice(MessageBegin), Data(Url, r.line.url)]) + HeaderEvents(r.headers);
  }

  predicate Upgrades(r: Head) { HeadFrame(r.headers).flags.upgrade || r.line.verb.CONNECT? }

  /** Whether the connection lives on after the message: from version 1.1 on unless it is to be
      closed, before only if it is to be kept alive. */
  predicate Persistent(r: Head)
    requires ProperLine(r.line)
  {
    var f := HeadFrame(r.headers).flags;
    if Major(r.line.version) > 0 && Minor(r.line.version) > 0 then !f.close else f.keepAlive
  }

  /** The parser at the last line feed of a head, of which `w` is what comes before. */
  function EndAt(d: Decision, c: Conf, w: seq<Byte>): Parser { Counted(Run(d, c, w).p).(state := HeadersAlmostDone) }

  /** What the callback answers there. */
  predicate Answer(d: Decision, c: Conf, w: seq<Byte>) { d(Met(EndAt(d, c, w))) }

  /** A head, whole: how its message ends is told by its headers. */
  lemma WholeHead(d: Decision, c: Conf, r: Head)
    requires c.status.Running? && AtRequest(c.p) && Proper(r) && c.p.nread + |Rendered(r)| <= MAX_HEADER_SIZE
    ensures HeadRead(c.p, Run(d, c, HeadStart(r)).p, r)
    ensures Run(d, c, Rendered(r))
      == EndOfHead(EndAt(d, c, HeadStart(r)), Answer(d, c, HeadStart(r)), c.log + HeadLog(r), c.used + |Rendered(r)|)
  {
    hide Run, One, Passes, HeadStart, Rendered, HeadLog, EndOfHead, HeadRead, ProperLine, ProperHeader, HeadFrame;
    HeadBytes(r);
    HeadStartRun(d, c, r);
    var m := Run(d, c, HeadStart(r));
    HeadReadFacts(c.p, m.p, r);
    RunPush(d, c, HeadStart(r), LF);
    LastLf(d, m);
    HeadersEnd(d, Counted(m.p).(state := HeadersAlmostDone), m.log, m.used);
  }

  /** The parser after a request whose headers have been read. */
  predicate AfterRequest(p: Parser, r: Head)
    requires ProperLine(r.line)
  {
    && p.state == (if Persistent(r) then StartReq else Dead) && p.kind.Request? && p.errno.OK?
    && p.verb == r.line.verb && p.major == Major(r.line.version) && p.minor == Minor(r.line.version)
  }

  lemma NextRequest(p: Parser, r: Head)
    requires ProperLine(r.line) && p.kind.Request? && p.major == Major(r.line.version)
      && p.minor == Minor(r.line.version)
    requires p.flags.close == HeadFrame(r.headers).flags.close
      && p.flags.keepAlive == HeadFrame(r.headers).flags.keepAlive
    ensures NewMessage(p) == if Persistent(r) then StartReq else Dead
  {
    hide HeadFrame, Major, Minor;
  }

  /** A well-formed head leads to the callbacks for its URL and its headers, in order, and, when
      no body is wanted or the connection is upgraded, to the end of the message at its last byte. */
  lemma HeadRun(d: Decision, c: Conf, r: Head)
    requires c.status.Running? && AtRequest(c.p) && c.p.kind.Request? && Proper(r)
      && c.p.nread + |Rendered(r)| <= MAX_HEADER_SIZE
    requires Answer(d, c, HeadStart(r)) || Upgrades(r)
    ensures var o := Run(d, c, Rendered(r));
      && o == Conf(o.p, (c.log + HeadLog(r)) + [Notice(HeadersComplete), Notice(MessageComplete)],
                   c.used + |Rendered(r)|,
                   if Upgrades(r) then Stopped else Running)
      && AfterRequest(o.p, r) && o.p.nread == 0
  {
    hide Run, Rendered, HeadLog, HeadStart, HeadFrame, Major, Minor, NewMessage, Answer;
    WholeHead(d, c, r);
    var p := EndAt(d, c, HeadStart(r));
    NextRequest(Ended(p, Answer(d, c, HeadStart(r)), HeadersDone), r);
    TwoNotices(c.log + HeadLog(r));
  }

  lemma TwoNotices(log: seq<Event>)
    ensures Put(Put(log, Notice(HeadersComplete)), Notice(MessageComplete))
      == log + [Notice(HeadersComplete), Notice(MessageComplete)]
  {
  }

  function Fresh(): Conf { Conf(Init(Request), [], 0, Running) }

  lemma FreshHeadRun(d: Decision, r: Head)
    requires Proper(r) && forall p :: d(p)
    ensures var o := Run(d, Fresh(), Rendered(r));
      && o.log == HeadLog(r) + [Notice(HeadersComplete), Notice(MessageComplete)] && o.used == |Rendered(r)|
      && !o.status.Failed? && o.p.errno.OK? && o.p.verb == r.line.verb
      && o.p.major == Major(r.line.version) && o.p.minor == Minor(r.line.version)
  {
    hide Run, HeadLog, Rendered, Upgrades, HeadFrame, Major, Minor, ProperLine, ProperHeader;
    HeadRun(d, Fresh(), r);
    assert [] + HeadLog(r) == HeadLog(r);
  }

  // ---------- notices are never taken back ----------

  predicate KeepsNotices(a: seq<Event>, b: seq<Event>) { forall e <- a :: e.Notice? ==> e in b }

  lemma PutKeeps(log: seq<Event>, e: Event)
    ensures KeepsNotices(log, Put(log, e))
  {
    var r := Put(log, e);
    forall x <- log | x.Notice? ensures x in r {
      var i :| 0 <= i < |log| && log[i] == x;
      assert r[i] == x;
    }
  }

  lemma {:induction false} PassesKeep(d: Decision, p: Parser, log: seq<Event>, used: int, b: Byte)
    ensures KeepsNotices(log, Passes(d, p, log, used, b).log)
    decreases Rank(p.state)
  {
    SwitchMarks(d, p, b);
    hide Switch, Put, Live;
    forall l: seq<Event>, e: Event ensures KeepsNotices(l, Put(l, e)) { PutKeeps(l, e); }
    match Switch(d, p, b)
    case Again(q, act) => PassesKeep(d, q, PassLog(log, act, b), used, b);
    case _ =>
  }

  lemma {:induction false} RunKeeps(d: Decision, c: Conf, bytes: seq<Byte>)
    ensures KeepsNotices(c.log, Run(d, c, bytes).log)
    decreases |bytes|
  {
    hide Passes;
    if bytes != [] && c.status.Running? {
      PassesKeep(d, Counted(c.p), c.log, c.used, bytes[0]);
      RunKeeps(d, One(d, c, bytes[0]), bytes[1..]);
    }
  }

  /** The end of the headers is announced at the last byte of the head, not before. */
  lemma NotBefore(d: Decision, r: Head, w: seq<Byte>)
    requires Proper(r) && w < Rendered(r)
    ensures Notice(HeadersComplete) !in Run(d, Fresh(), w).log && Run(d, Fresh(), w).status.Running?
  {
    hide Run, HeadStart, HeadLog, Rendered, HeadRead, ProperLine;
    var all := HeadStart(r);
    HeadBytes(r);
    assert w + all[|w|..] == all;
    HeadStartRun(d, Fresh(), r);
    assert [] + HeadLog(r) == HeadLog(r);
    RunConcat(d, Fresh(), w, all[|w|..]);
    RunKeeps(d, Run(d, Fresh(), w), all[|w|..]);
    if !Run(d, Fresh(), w).status.Running? { EndedRun(d, Run(d, Fresh(), w), all[|w|..]); }
    NoCompletion(r);
  }

  lemma NoCompletion(r: Head)
    ensures Notice(HeadersComplete) !in HeadLog(r)
  {
    HeadersNoNotice(r.headers);
  }

  lemma {:induction false} HeadersNoNotice(hs: seq<Header>)
    ensures forall e <- HeaderEvents(hs) :: e.Data?
  {
    if hs != [] { HeadersNoNotice(hs[..|hs| - 1]); }
  }
}
