/** Header lines as the parser takes them: with a colon, or without one.  They come after the first
    line of a message, and after the last chunk of a body. */
module HttpItems {
  import opened Options
  import opened HttpTypes
  import opened HttpSwitch
  import opened HttpRun
  import opened HttpMarks
  import opened HttpReference
  import opened HttpBody
  import opened HttpNames
  import opened HttpValues
  import opened HttpLine
  import opened HttpHead

  /** A header line, or one without a colon, which ends as a line does; other lines may follow. */
  datatype Item = Item(name: seq<Byte>, colon: bool, eol: Eol, lines: seq<Fold>)

  /** The lines read so far are those of an item. */
  predicate Open(it: Item) {
    && IsName(it.name) && Folds(it.lines) && (Lowered(it.name) == CONTENT_LENGTH ==> Lengths(it.lines))
    && (!it.colon && it.lines != [] ==> it.eol.CrLf? && it.lines[0].pad != [])
  }

  predicate ProperItem(it: Item) { Open(it) && (it.colon ==> it.lines != []) }

  predicate ProperItems(its: seq<Item>) { forall i | 0 <= i < |its| :: ProperItem(its[i]) }

  function ItemStart(it: Item): seq<Byte> { it.name + (if it.colon then [':'] else EolBytes(it.eol)) }

  function ItemBytes(it: Item): seq<Byte> { ItemStart(it) + FoldsBytes(it.lines) }

  function ItemsBytes(its: seq<Item>): seq<Byte> {
    if its == [] then [] else ItemsBytes(its[..|its| - 1]) + ItemBytes(its[|its| - 1])
  }

  // ---------- how far the headers have been read ----------

  /** What comes before the headers: the first line of a message, or, for a trailer, some bytes. */
  datatype First = OfRequest(line: RequestLine) | OfReply(status: StatusLine) | OfBody(bytes: seq<Byte>)

  function FirstBytes(l: First): seq<Byte> {
    match l
    case OfRequest(line) => LineBytes(line)
    case OfReply(status) => StatusBytes(status)
    case OfBody(bytes) => bytes
  }

  predicate FirstFits(l: First) {
    match l
    case OfRequest(line) => ProperLine(line)
    case OfReply(status) => ProperStatus(status)
    case OfBody(_) => true
  }

  /** What is announced where the headers end. */
  function Goal(l: First): Event { Notice(if l.OfBody? then MessageComplete else HeadersComplete) }

  datatype Place =
    | AtStart(l: First, its: seq<Item>)
    | InName(l: First, its: seq<Item>, name: seq<Byte>)
    | NameCr(l: First, its: seq<Item>, name: seq<Byte>)
    | InPad(l: First, its: seq<Item>, it: Item, pad: seq<Byte>)
    | InText(l: First, its: seq<Item>, it: Item, pad: seq<Byte>, text: seq<Byte>)
    | TextCr(l: First, its: seq<Item>, it: Item, pad: seq<Byte>, text: seq<Byte>)
    | LineEnd(l: First, its: seq<Item>, it: Item)
    | LastCr(l: First, its: seq<Item>)

  function Sofar(l: First, its: seq<Item>): seq<Byte> { FirstBytes(l) + ItemsBytes(its) }

  /** What has been read there. */
  function BytesOf(a: Place): seq<Byte> {
    match a
    case AtStart(l, its) => Sofar(l, its)
    case InName(l, its, name) => Sofar(l, its) + name
    case NameCr(l, its, name) => Sofar(l, its) + (name + [CR])
    case InPad(l, its, it, pad) => (Sofar(l, its) + ItemBytes(it)) + pad
    case InText(l, its, it, pad, text) => (Sofar(l, its) + ItemBytes(it)) + (pad + text)
    case TextCr(l, its, it, pad, text) => (Sofar(l, its) + ItemBytes(it)) + (pad + (text + [CR]))
    case LineEnd(l, its, it) => Sofar(l, its) + ItemBytes(it)
    case LastCr(l, its) => Sofar(l, its) + [CR]
  }

  /** The lines of the item must still be lengths. */
  predicate LengthDue(it: Item) { Lowered(it.name) == CONTENT_LENGTH && NoneBlank(it.lines) }

  predicate Blanks(pad: seq<Byte>) { forall i | 0 <= i < |pad| :: IsBlank(pad[i]) }

  predicate IsText(text: seq<Byte>) { CR !in text && LF !in text && (text != [] ==> !IsBlank(text[0])) }

  /** Another line of the item may begin with the blanks. */
  predicate Padded(it: Item, pad: seq<Byte>) {
    Open(it) && GoOn(it.lines) && Blanks(pad) && ((it.colon && it.lines == []) || pad != [])
      && (!it.colon ==> it.eol.CrLf?)
  }

  /** The first line and the items have been read. */
  predicate Done(l: First, its: seq<Item>) { FirstFits(l) && ProperItems(its) }

  /** The parser is there. */
  predicate At(a: Place, p: Parser) { Where(a, p) && (p.flags.trailing <==> a.l.OfBody?) }

  predicate Where(a: Place, p: Parser) {
    match a
    case AtStart(l, its) => Done(l, its) && p.state.HeaderFieldStart?
    case InName(l, its, name) =>
      Done(l, its) && p.state.HeaderField? && IsName(name) && p.headerState == NameState(Lowered(name))
        && IndexFits(p.headerState, p.index, |name|)
    case NameCr(l, its, name) =>
      Done(l, its) && p.state.HeaderAlmostDone? && IsName(name) && p.headerState == NameState(Lowered(name))
    case InPad(l, its, it, pad) =>
      Done(l, its) && p.state.HeaderValueStart? && Padded(it, pad) && (LengthDue(it) ==> p.headerState.ContentLength?)
    case InText(l, its, it, pad, text) =>
      && Done(l, its) && p.state.HeaderValue? && Padded(it, pad) && text != [] && IsText(text)
      && (LengthDue(it) ==> p.headerState.ContentLength? && LengthOf(text) == Some(p.contentLength))
    case TextCr(l, its, it, pad, text) =>
      && Done(l, its) && p.state.HeaderAlmostDone? && Padded(it, pad) && IsText(text)
      && (LengthDue(it) && text != [] ==> p.headerState.ContentLength? && LengthOf(text).Some?)
    case LineEnd(l, its, it) =>
      && Done(l, its) && p.state.HeaderValueLws? && ProperItem(it) && GoOn(it.lines) && (!it.colon ==> it.eol.CrLf?)
      && (LengthDue(it) ==> p.headerState.ContentLength?)
    case LastCr(l, its) => Done(l, its) && p.state.HeadersAlmostDone?
  }

  /** A pass that consumes the byte leads to a place one byte further on, without the end of the headers. */
  ghost predicate Leads(a: Place, p: Parser, o: Outcome, b: Byte, next: Place) {
    match o
    case Next(q, act) =>
      && At(next, q) && next.l == a.l && BytesOf(next) == BytesOf(a) + [b]
      && act != Notify(HeadersComplete) && act != Notify(MessageComplete) && q.nread == p.nread
    case Fail(_, _) => true
    case Crash => true
    case _ => false
  }

  // ---------- items ----------

  lemma ItemsMore(its: seq<Item>, it: Item)
    ensures ItemsBytes(its + [it]) == ItemsBytes(its) + ItemBytes(it)
    ensures ProperItems(its) && ProperItem(it) ==> ProperItems(its + [it])
  {
    hide ItemBytes, ProperItem;
    assert (its + [it])[..|its|] == its;
  }

  lemma SofarMore(l: First, its: seq<Item>, it: Item)
    ensures Sofar(l, its + [it]) == Sofar(l, its) + ItemBytes(it)
    ensures ProperItems(its) && ProperItem(it) ==> ProperItems(its + [it])
  {
    hide ItemBytes, ProperItem, FirstBytes;
    ItemsMore(its, it);
  }

  /** One more line. */
  function With(it: Item, f: Fold): Item { it.(lines := it.lines + [f]) }

  lemma WithBytes(it: Item, f: Fold)
    ensures ItemBytes(With(it, f)) == ItemBytes(it) + FoldBytes(f)
  {
    hide FoldBytes, EolBytes;
    assert (it.lines + [f])[..|it.lines|] == it.lines;
    assert (ItemStart(it) + FoldsBytes(it.lines)) + FoldBytes(f)
      == ItemStart(it) + (FoldsBytes(it.lines) + FoldBytes(f));
  }

  lemma WithOpen(it: Item, f: Fold)
    requires Padded(it, f.pad) && ProperFold(f) && (LengthDue(it) && f.text != [] ==> LengthOf(f.text).Some?)
    ensures ProperItem(With(it, f)) && (GoOn(With(it, f).lines) <==> f.text != [] || f.eol.CrLf?)
    ensures NoneBlank(With(it, f).lines) <==> NoneBlank(it.lines) && f.text != []
  {
    hide LengthOf, IsName, Lowered;
    var ls := it.lines + [f];
    assert ls[..|ls| - 1] == it.lines;
    LastLine(ls);
    if Lowered(it.name) == CONTENT_LENGTH { LengthsMore(it.lines, f); }
  }

  lemma LengthsMore(ls: seq<Fold>, f: Fold)
    requires Lengths(ls) && (NoneBlank(ls) && f.text != [] ==> LengthOf(f.text).Some?)
    ensures Lengths(ls + [f])
  {
    hide LengthOf;
    var all := ls + [f];
    forall i | 0 <= i < |all| && NoneBlank(all[..i + 1]) ensures LengthOf(all[i].text).Some? {
      if i < |ls| {
        assert all[..i + 1] == ls[..i + 1];
      } else {
        assert all[..i + 1] == all;
        LastLine(all);
        assert all[..|all| - 1] == ls;
      }
    }
  }

  // ---------- header lines ----------

  lemma NameFirst(p: Parser, a: Place, b: Byte) returns (next: Place)
    requires a.AtStart? && At(a, p) && b != LF
    ensures Leads(a, p, FieldStart(p, b), b, next)
  {
    hide Token, Sofar, FirstFits, ProperItems, FirstHeaderState, NameState;
    if b == CR {
      next := LastCr(a.l, a.its);
    } else {
      next := InName(a.l, a.its, [b]);
      if Token(b) != '\0' { FirstName(b); }
    }
  }

  lemma FirstName(b: Byte)
    requires Token(b) != '\0'
    ensures IsName([b]) && Lowered([b]) == [Token(b)] && FirstHeaderState(Token(b)) == NameState(Lowered([b]))
    ensures forall i: nat :: i == 0 ==> IndexFits(FirstHeaderState(Token(b)), i, 1)
  {
    FirstNameState(Token(b));
    assert Lowered([b]) == [Token(b)];
    hide NameState, FirstHeaderState;
  }

  lemma NameNext(p: Parser, a: Place, b: Byte) returns (next: Place)
    requires a.InName? && At(a, p) && Token(b) != '\0'
    ensures Leads(a, p, InField(p, b), b, next)
  {
    hide Token, Sofar, FirstFits, ProperItems, NameState, IndexFits, IsName, FieldChar;
    next := InName(a.l, a.its, a.name + [b]);
    NameMore(p, a.name, b);
  }

  lemma NameEnds(p: Parser, a: Place, b: Byte) returns (next: Place)
    requires a.InName? && At(a, p) && Token(b) == '\0'
    ensures Leads(a, p, InField(p, b), b, next)
  {
    hide Token, Sofar, FirstFits, ProperItems, NameState, IndexFits, IsName, FieldChar;
    if b == ':' {
      var it := Item(a.name, true, Lf, []);
      next := InPad(a.l, a.its, it, []);
      NamedItem(it);
    } else if b == CR {
      next := NameCr(a.l, a.its, a.name);
    } else {
      var it := Item(a.name, false, Lf, []);
      next := AtStart(a.l, a.its + [it]);
      NamedItem(it);
      SofarMore(a.l, a.its, it);
    }
  }

  lemma NameMore(p: Parser, name: seq<Byte>, b: Byte)
    requires IsName(name) && p.headerState == NameState(Lowered(name)) && IndexFits(p.headerState, p.index, |name|)
    requires Token(b) != '\0'
    ensures match FieldChar(p.headerState, p.index, b, Token(b))
      case Some((h, i)) => IsName(name + [b]) && h == NameState(Lowered(name + [b])) && IndexFits(h, i, |name| + 1)
      case None => false
  {
    hide Token, NameState, IndexFits, FieldChar;
    TokenNotLine(b);
    assert Lowered(name + [b]) == Lowered(name) + [Token(b)];
    NameStep(Lowered(name), p.index, b, Token(b));
  }

  /** An item without lines yet. */
  lemma NamedItem(it: Item)
    requires IsName(it.name) && it.lines == []
    ensures Open(it) && GoOn(it.lines) && NoneBlank(it.lines) && ItemBytes(it) == ItemStart(it)
    ensures Lowered(it.name) == CONTENT_LENGTH ==> NameState(Lowered(it.name)).ContentLength?
  {
    hide IsName, Lowered;
    assert FoldsBytes([]) == [];
    assert ItemStart(it) + [] == ItemStart(it);
    WordsDiffer();
  }

  lemma NameCrStep(p: Parser, a: Place, b: Byte) returns (next: Place)
    requires a.NameCr? && At(a, p)
    ensures Leads(a, p, HeaderLineEnd(p, b), b, next)
  {
    hide Sofar, FirstFits, ProperItems, NameState, IsName;
    var it := Item(a.name, false, CrLf, []);
    next := LineEnd(a.l, a.its, it);
    NamedItem(it);
  }

  lemma PadStep(p: Parser, a: Place, b: Byte) returns (next: Place)
    requires a.InPad? && At(a, p)
    ensures Leads(a, p, ValueStart(p, b), b, next)
  {
    hide Sofar, ItemBytes, FirstFits, ProperItems, Open, GoOn, LengthDue;
    if IsBlank(b) {
      next := InPad(a.l, a.its, a.it, a.pad + [b]);
    } else if b == CR {
      next := TextCr(a.l, a.its, a.it, a.pad, []);
    } else if b == LF {
      next := PadEnd(a);
    } else {
      next := InText(a.l, a.its, a.it, a.pad, [b]);
      FirstDigit(b);
    }
  }

  lemma FirstDigit(b: Byte)
    ensures IsNum(b) ==> LengthOf([b]) == Some(Digit(b))
  {
  }

  /** An empty line that ends in LF alone ends the item. */
  lemma PadEnd(a: Place) returns (next: Place)
    requires a.InPad? && Done(a.l, a.its) && Padded(a.it, a.pad)
    ensures next.AtStart? && next.l == a.l && Done(next.l, next.its) && BytesOf(next) == BytesOf(a) + [LF]
  {
    hide Sofar, ItemBytes, FirstFits, ProperItems, ProperItem;
    var f := Fold(a.pad, [], Lf);
    var it := With(a.it, f);
    next := AtStart(a.l, a.its + [it]);
    PadItem(a.it, f);
    WithBytes(a.it, f);
    SofarMore(a.l, a.its, it);
    assert FoldBytes(f) == a.pad + [LF];
  }

  lemma PadItem(it: Item, f: Fold)
    requires Padded(it, f.pad) && f.text == []
    ensures ProperItem(With(it, f))
  {
    WithOpen(it, f);
  }

  lemma TextStep(p: Parser, a: Place, b: Byte) returns (next: Place)
    requires a.InText? && At(a, p) && b != LF
    ensures Leads(a, p, HttpSwitch.InValue(p, b), b, next)
  {
    hide Sofar, ItemBytes, FirstFits, ProperItems, Open, GoOn, LengthDue, MoreDigits, Match, LengthOf;
    if b == CR {
      next := TextCr(a.l, a.its, a.it, a.pad, a.text);
    } else {
      next := InText(a.l, a.its, a.it, a.pad, a.text + [b]);
      NextLength(a.text, b);
    }
  }

  lemma NextLength(v: seq<Byte>, b: Byte)
    requires v != []
    ensures LengthOf(v + [b]) == match LengthOf(v)
      case None => None
      case Some(t) => if b == ' ' then Some(t) else if IsNum(b) then MoreDigits(10, t, Digit(b)) else None
  {
    hide MoreDigits;
    var r := v + [b];
    assert r[..|r| - 1] == v && r[|r| - 1] == b && r[0] == v[0];
  }

  lemma TextCrStep(p: Parser, a: Place, b: Byte) returns (next: Place)
    requires a.TextCr? && At(a, p)
    ensures Leads(a, p, HeaderLineEnd(p, b), b, next)
  {
    hide Sofar, ItemBytes, FirstFits, ProperItems, Open, GoOn, NoneBlank, LengthOf, ProperItem,
      ProperFold;
    var f := Fold(a.pad, a.text, CrLf);
    next := LineEnd(a.l, a.its, With(a.it, f));
    TextFold(f);
    WithOpen(a.it, f);
    WithBytes(a.it, f);
    assert FoldBytes(f) == (a.pad + (a.text + [CR])) + [LF];
  }

  lemma TextFold(f: Fold)
    requires Blanks(f.pad) && IsText(f.text)
    ensures ProperFold(f)
  {
  }

  /** A line feed after a text ends the line at once. */
  lemma TextLf(p: Parser, a: Place, q: Parser) returns (next: Place)
    requires a.InText? && At(a, p)
      && q == p.(state := HeaderValueLws, flags := AtLineEnd(FrameOf(p), p.headerState).flags)
    ensures At(next, q) && next.l == a.l && BytesOf(next) == BytesOf(a) + [LF]
  {
    hide Sofar, ItemBytes, FirstFits, ProperItems, Open, GoOn, NoneBlank, LengthOf, ProperItem,
      ProperFold;
    var f := Fold(a.pad, a.text, Lf);
    next := LineEnd(a.l, a.its, With(a.it, f));
    TextFold(f);
    WithOpen(a.it, f);
    WithBytes(a.it, f);
    assert FoldBytes(f) == (a.pad + a.text) + [LF];
  }

  /** A line that begins with a blank goes on with the item. */
  lemma LineEndStep(p: Parser, a: Place, b: Byte) returns (next: Place)
    requires a.LineEnd? && At(a, p) && IsBlank(b)
    ensures Leads(a, p, HeaderLineEnd(p, b), b, next)
  {
    hide Sofar, ItemBytes, FirstFits, ProperItems, Open, GoOn, LengthDue;
    next := InPad(a.l, a.its, a.it, [b]);
  }

  /** Any other byte is looked at as at the beginning of an item. */
  lemma ItemEnds(p: Parser, a: Place) returns (next: Place)
    requires a.LineEnd? && At(a, p)
    ensures next.AtStart? && next.l == a.l && At(next, p.(state := HeaderFieldStart)) && BytesOf(next) == BytesOf(a)
  {
    hide Sofar, ItemBytes, FirstFits, ProperItems, ProperItem, GoOn, LengthDue;
    next := AtStart(a.l, a.its + [a.it]);
    SofarMore(a.l, a.its, a.it);
  }

  // ---------- one byte ----------

  /** Where the head may end. */
  predicate MayEnd(a: Place) { a.AtStart? || a.LineEnd? || a.LastCr? }

  /** What a byte leads to: a place one byte further on, or the end of the headers, or neither. */
  ghost predicate Follows(a: Place, p: Parser, log: seq<Event>, o: Conf, b: Byte, next: Place) {
    && (Goal(a.l) in o.log && Goal(a.l) !in log ==> MayEnd(a) && b == LF)
    && (o.status.Running? && Goal(a.l) !in o.log ==>
          At(next, o.p) && next.l == a.l && BytesOf(next) == BytesOf(a) + [b] && o.p.nread == p.nread)
  }

  lemma LogStays(log: seq<Event>, act: Act, t: State, b: Byte, n: Note)
    requires act != Notify(n)
    ensures Notice(n) in ByteLog(PassLog(log, act, b), t, act, b) ==> Notice(n) in log
  {
    hide Live, Put;
    forall l: seq<Event>, e: Event | e != Notice(n) && Notice(n) in Put(l, e) ensures Notice(n) in l {
      PutNoMore(l, e, n);
    }
  }

  lemma PutNoMore(log: seq<Event>, e: Event, n: Note)
    requires e != Notice(n) && Notice(n) in Put(log, e)
    ensures Notice(n) in log
  {
  }

  /** A pass that consumes its byte. */
  lemma PassFollows(d: Decision, p: Parser, log: seq<Event>, used: int, a: Place, b: Byte, next: Place)
    requires Leads(a, p, Switch(d, p, b), b, next)
    ensures Follows(a, p, log, Passes(d, p, log, used, b), b, next)
  {
    hide Switch, At, BytesOf, PassLog, ByteLog;
    match Switch(d, p, b)
    case Next(q, act) => LogStays(log, act, q.state, b, Goal(a.l).note);
    case _ =>
  }

  lemma HeaderStep(d: Decision, p: Parser, a: Place, b: Byte) returns (next: Place)
    requires At(a, p) && (a.InName? || a.NameCr? || a.InPad? || a.TextCr? || (a.InText? && b != LF))
    ensures Leads(a, p, Switch(d, p, b), b, next)
  {
    hide Switch, Leads, BytesOf;
    HeaderGroups(a, p);
    match a
    case InName(_, _, _) =>
      if Token(b) != '\0' { next := NameNext(p, a, b); } else { next := NameEnds(p, a, b); }
      FieldPass(d, p, b);
    case NameCr(_, _, _) => next := NameCrStep(p, a, b); LineEndPass(d, p, b);
    case InPad(_, _, _, _) => next := PadStep(p, a, b); ValueStartPass(d, p, b);
    case InText(_, _, _, _, _) => next := TextStep(p, a, b); ValuePass(d, p, b);
    case TextCr(_, _, _, _, _) => next := TextCrStep(p, a, b); LineEndPass(d, p, b);
  }

  lemma HeaderGroups(a: Place, p: Parser)
    requires At(a, p)
    ensures a.InName? ==> GroupOf(p.state).GField?
    ensures a.InPad? ==> GroupOf(p.state).GValueStart?
    ensures a.InText? ==> GroupOf(p.state).GValue?
    ensures a.NameCr? || a.TextCr? || a.LineEnd? ==> GroupOf(p.state).GLineEnd?
    ensures a.AtStart? ==> GroupOf(p.state).GFieldStart?
    ensures a.LastCr? ==> GroupOf(p.state).GHeadEnd?
  {
    hide FirstFits, ProperItems, ProperItem, LengthOf, Padded;
  }

  lemma EndAnnounced(d: Decision, p: Parser, log: seq<Event>, used: int, l: First)
    requires p.state.HeadersAlmostDone? && (p.flags.trailing <==> l.OfBody?)
    ensures Goal(l) in Passes(d, p, log, used, LF).log
  {
    hide Switch, NeedsEof, NewMessage, Put, Passes;
    if l.OfBody? {
      TrailerEnds(d, p, log, used);
      TellsLast(log, MessageComplete);
    } else {
      HeadAnnounced(d, p, log, used);
    }
  }

  lemma TrailerEnds(d: Decision, p: Parser, log: seq<Event>, used: int)
    requires p.state.HeadersAlmostDone? && p.flags.trailing
    ensures Passes(d, p, log, used, LF)
      == Conf(p.(state := NewMessage(p)), Put(log, Notice(MessageComplete)), used + 1, Running)
  {
    hide Switch, Put, NewMessage;
    HeadEndPass(d, p, LF);
    NewMessageState(p);
  }

  lemma HeadAnnounced(d: Decision, p: Parser, log: seq<Event>, used: int)
    requires p.state.HeadersAlmostDone? && !p.flags.trailing
    ensures Notice(HeadersComplete) in Passes(d, p, log, used, LF).log
  {
    hide Switch, NeedsEof, NewMessage, Put;
    HeadEndPass(d, p, LF);
    SwitchMarks(d, p, LF);
    var told := Put(log, Notice(HeadersComplete));
    PassesKeep(d, Switch(d, p, LF).p, told, used, LF);
    TellsLast(log, HeadersComplete);
  }

  lemma TellsLast(log: seq<Event>, n: Note)
    ensures Notice(n) in Put(log, Notice(n))
  {
  }

  lemma StartFollows(d: Decision, p: Parser, log: seq<Event>, used: int, a: Place, b: Byte) returns (next: Place)
    requires a.AtStart? && At(a, p)
    ensures Follows(a, p, log, Passes(d, p, log, used, b), b, next)
  {
    hide Switch, Passes, BytesOf, Leads;
    HeaderGroups(a, p);
    next := a;
    if b == LF {
      LfPass(d, p, log, used);
      EndAnnounced(d, p.(state := HeadersAlmostDone), log, used, a.l);
    } else {
      next := NameFirst(p, a, b);
      FieldStartPass(d, p, b);
      PassFollows(d, p, log, used, a, b, next);
    }
  }

  lemma LineEndFollows(d: Decision, p: Parser, log: seq<Event>, used: int, a: Place, b: Byte) returns (next: Place)
    requires a.LineEnd? && At(a, p)
    ensures Follows(a, p, log, Passes(d, p, log, used, b), b, next)
  {
    hide Switch, Passes, BytesOf, Leads, ProperItem, ProperItems, FirstFits, Open;
    HeaderGroups(a, p);
    if IsBlank(b) {
      next := LineEndStep(p, a, b);
      LineEndPass(d, p, b);
      PassFollows(d, p, log, used, a, b, next);
    } else {
      var m := ItemEnds(p, a);
      LwsPass(d, p, log, used, b);
      next := StartFollows(d, p.(state := HeaderFieldStart), log, used, m, b);
    }
  }

  lemma TextLfFollows(d: Decision, p: Parser, log: seq<Event>, used: int, a: Place) returns (next: Place)
    requires a.InText? && At(a, p)
    ensures Follows(a, p, log, Passes(d, p, log, used, LF), LF, next)
  {
    hide Passes, BytesOf, Put;
    LfTwice(d, p, log, used);
    next := TextLf(p, a, p.(state := HeaderValueLws, flags := AtLineEnd(FrameOf(p), p.headerState).flags));
    var e := Data(Value, []);
    if Goal(a.l) in Put(log, e) { PutNoMore(log, e, Goal(a.l).note); }
  }

  lemma LastCrFollows(d: Decision, p: Parser, log: seq<Event>, used: int, a: Place, b: Byte)
    requires a.LastCr? && At(a, p)
    ensures Follows(a, p, log, Passes(d, p, log, used, b), b, a)
  {
    hide Switch, BytesOf, NeedsEof, NewMessage;
    HeaderGroups(a, p);
    if b == LF {
      EndAnnounced(d, p, log, used, a.l);
    } else {
      HeadEndPass(d, p, b);
    }
  }

  lemma PassesFollow(d: Decision, p: Parser, log: seq<Event>, used: int, a: Place, b: Byte) returns (next: Place)
    requires At(a, p)
    ensures Follows(a, p, log, Passes(d, p, log, used, b), b, next)
  {
    hide At, Switch, Passes, BytesOf, Leads, Follows;
    if a.AtStart? {
      next := StartFollows(d, p, log, used, a, b);
    } else if a.LineEnd? {
      next := LineEndFollows(d, p, log, used, a, b);
    } else if a.LastCr? {
      next := a;
      LastCrFollows(d, p, log, used, a, b);
    } else if a.InText? && b == LF {
      next := TextLfFollows(d, p, log, used, a);
    } else {
      next := HeaderStep(d, p, a, b);
      PassFollows(d, p, log, used, a, b, next);
    }
  }

  lemma StillAt(a: Place, p: Parser, n: int)
    requires At(a, p)
    ensures At(a, p.(nread := n)) && ParsingHeader(p.state)
  {
    hide ProperItems, FirstFits, ProperItem, LengthOf, Padded, ParsingHeader, GroupOf;
    HeaderGroups(a, p);
    BodyGroup(p.state);
  }

  lemma BodyGroup(s: State)
    ensures !ParsingHeader(s) ==> GroupOf(s).GBody?
  {
  }

  /** One byte of the headers. */
  lemma OneHeader(d: Decision, c: Conf, a: Place, b: Byte) returns (next: Place)
    requires c.status.Running? && At(a, c.p) && Goal(a.l) !in c.log
    ensures var o := One(d, c, b);
      && (Goal(a.l) in o.log ==> MayEnd(a) && b == LF && c.p.nread + 1 <= MAX_HEADER_SIZE)
      && (o.status.Running? && Goal(a.l) !in o.log ==>
            At(next, o.p) && next.l == a.l && BytesOf(next) == BytesOf(a) + [b]
            && o.p.nread == c.p.nread + 1 <= MAX_HEADER_SIZE)
  {
    hide Passes, At, BytesOf;
    StillAt(a, c.p, c.p.nread + 1);
    next := PassesFollow(d, Counted(c.p), c.log, c.used, a, b);
  }

  /** The items and the end of the line that are read when a line feed comes there. */
  lemma Closed(a: Place, p: Parser) returns (its: seq<Item>, eol: Eol)
    requires MayEnd(a) && At(a, p)
    ensures Done(a.l, its) && Sofar(a.l, its) + EolBytes(eol) == BytesOf(a) + [LF]
  {
    hide Sofar, ItemBytes, FirstFits, ProperItem, ProperItems;
    match a
    case AtStart(l, its0) => its, eol := its0, Lf;
    case LineEnd(l, its0, it) =>
      its, eol := its0 + [it], Lf;
      SofarMore(l, its0, it);
    case LastCr(l, its0) => its, eol := its0, CrLf;
  }

  // ---------- every item is taken ----------

  /** The log tells the end of the headers and of the message no more than another. */
  predicate SameTold(a: seq<Event>, b: seq<Event>) {
    && (Notice(HeadersComplete) in a <==> Notice(HeadersComplete) in b)
    && (Notice(MessageComplete) in a <==> Notice(MessageComplete) in b)
  }

  lemma PutData(log: seq<Event>, k: Kind, bytes: seq<Byte>)
    ensures SameTold(log, Put(log, Data(k, bytes)))
  {
    var e := Data(k, bytes);
    PutKeeps(log, e);
    if Notice(HeadersComplete) in Put(log, e) { PutNoMore(log, e, HeadersComplete); }
    if Notice(MessageComplete) in Put(log, e) { PutNoMore(log, e, MessageComplete); }
  }

  /** After some bytes of the headers, where another item or the end may come. */
  predicate Further(c: Conf, r: Conf, n: nat) {
    r.status.Running? && AtHeader(r.p) && Along(c.p, r.p, n) && SameTold(c.log, r.log)
  }

  lemma BareLf(d: Decision, c: Conf)
    requires c.status.Running? && c.p.state.HeaderField? && c.p.nread + 1 <= MAX_HEADER_SIZE
    ensures One(d, c, LF)
      == Conf(c.p.(state := HeaderFieldStart, nread := c.p.nread + 1), Put(c.log, Data(Field, [])), c.used + 1, Running)
  {
    hide Switch, Put, FieldChar, One, Passes;
    FieldPass(d, Counted(c.p), LF);
    OneStep(d, c, LF);
  }

  lemma BareCr(d: Decision, c: Conf)
    requires c.status.Running? && c.p.state.HeaderField? && c.p.nread + 1 <= MAX_HEADER_SIZE
    ensures One(d, c, CR)
      == Conf(c.p.(state := HeaderAlmostDone, nread := c.p.nread + 1), Put(c.log, Data(Field, [])), c.used + 1, Running)
  {
    hide Switch, Put, FieldChar, One, Passes;
    FieldPass(d, Counted(c.p), CR);
    OneStep(d, c, CR);
  }

  /** The end of a line without a colon. */
  lemma BareEol(d: Decision, c: Conf, eol: Eol)
    requires c.status.Running? && c.p.state.HeaderField? && c.p.nread + |EolBytes(eol)| <= MAX_HEADER_SIZE
    ensures var r := Run(d, c, EolBytes(eol));
      && Further(c, r, |EolBytes(eol)|)
      && (eol.CrLf? ==> r.p.state.HeaderValueLws? && r.p.headerState == c.p.headerState)
  {
    hide Run, One, Put, AtLineEnd;
    PutData(c.log, Field, []);
    if eol.Lf? {
      BareLf(d, c);
      RunPush1(d, c, LF);
    } else {
      BareCr(d, c);
      RunPush1(d, c, CR);
      LineLf(d, One(d, c, CR));
      RunPush(d, c, [CR], LF);
      assert [CR] + [LF] == [CR, LF];
      LineEndTrailing(FrameOf(c.p), c.p.headerState);
    }
  }

  lemma LineEndTrailing(f: Frame, h: HeaderState)
    ensures AtLineEnd(f, h).flags.trailing == f.flags.trailing
  {
  }

  lemma FurtherOn(c: Conf, m: Conf, r: Conf, i: nat, j: nat)
    requires Further(c, m, i) && Further(m, r, j)
    ensures Further(c, r, i + j)
  {
  }

  lemma LaterOne(d: Decision, c: Conf, f: Fold)
    requires c.status.Running? && c.p.state.HeaderValueLws? && ProperFold(f) && f.pad != []
    requires c.p.nread + |FoldBytes(f)| <= MAX_HEADER_SIZE
    requires c.p.headerState.ContentLength? && f.text != [] ==> LengthOf(f.text).Some?
    ensures var r := Run(d, c, FoldBytes(f));
      && Further(c, r, |FoldBytes(f)|) && r.p.headerState == StateAfter(c.p.headerState, f)
      && (f.text != [] || f.eol.CrLf? ==> r.p.state.HeaderValueLws?)
  {
    hide Run, Put, FoldBytes, StateAfter, AfterValue, ProperFold, LengthOf;
    NextLine(d, c, f);
    PutData(c.log, Value, f.text);
  }

  lemma {:induction false} LaterRun(d: Decision, c: Conf, ls: seq<Fold>)
    requires c.status.Running? && c.p.state.HeaderValueLws? && Folds(ls) && (ls != [] ==> ls[0].pad != [])
    requires (c.p.headerState.ContentLength? ==> Lengths(ls)) && c.p.nread + |FoldsBytes(ls)| <= MAX_HEADER_SIZE
    ensures var r := Run(d, c, FoldsBytes(ls));
      && Further(c, r, |FoldsBytes(ls)|) && r.p.headerState == StateAfterAll(c.p.headerState, ls)
      && (GoOn(ls) ==> r.p.state.HeaderValueLws?)
    decreases |ls|
  {
    hide One, Run, Put, FoldBytes, StateAfter, Folds, ProperFold, Lengths, LengthOf, GoOn, Further, Along;
    if ls == [] {
      EmptyRun(d, c);
      NoneFurther(c);
    } else {
      var init, last := ls[..|ls| - 1], ls[|ls| - 1];
      FoldsInit(ls);
      StillFolds(ls);
      LengthNeeded(c.p.headerState, ls);
      LaterRun(d, c, init);
      var m := Run(d, c, FoldsBytes(init));
      RunConcat(d, c, FoldsBytes(init), FoldBytes(last));
      FurtherFacts(c, m, |FoldsBytes(init)|);
      LaterOne(d, m, last);
      FurtherOn(c, m, Run(d, m, FoldBytes(last)), |FoldsBytes(init)|, |FoldBytes(last)|);
      LastLine(ls);
    }
  }

  lemma NoneFurther(c: Conf)
    requires c.status.Running? && AtHeader(c.p)
    ensures Further(c, c, 0)
  {
  }

  lemma FurtherFacts(c: Conf, r: Conf, n: nat)
    requires Further(c, r, n)
    ensures r.status.Running? && r.p.nread == c.p.nread + n
  {
  }

  /** An item, in either form. */
  lemma ItemRun(d: Decision, c: Conf, it: Item)
    requires c.status.Running? && AtHeader(c.p) && ProperItem(it) && c.p.nread + |ItemBytes(it)| <= MAX_HEADER_SIZE
    ensures Further(c, Run(d, c, ItemBytes(it)), |ItemBytes(it)|)
  {
    hide Run, One, Put, Folds, Lengths, IsName, Lowered, FoldsBytes;
    if it.colon {
      var h := Header(it.name, it.lines);
      HeaderRun(d, c, h);
      PutData(c.log, Field, h.name);
      PutData(Put(c.log, Data(Field, h.name)), Value, Text(h.lines));
    } else {
      BareRun(d, c, it);
    }
  }

  lemma BareRun(d: Decision, c: Conf, it: Item)
    requires c.status.Running? && AtHeader(c.p) && ProperItem(it) && !it.colon
      && c.p.nread + |ItemBytes(it)| <= MAX_HEADER_SIZE
    ensures Further(c, Run(d, c, ItemBytes(it)), |ItemBytes(it)|)
  {
    hide Run, One, Put, Folds, Lengths, IsName, Lowered, FoldsBytes, NameState, IndexFits, EolBytes;
    var c0 := c.(p := c.p.(state := HeaderFieldStart));
    NameNotBlank(it.name);
    assert ItemBytes(it) == (it.name + EolBytes(it.eol)) + FoldsBytes(it.lines);
    assert ItemBytes(it)[0] == it.name[0];
    FromFieldStart(d, c, ItemBytes(it));
    NameRun(d, c0, it.name);
    PutData(c.log, Field, it.name);
    var c1 := Run(d, c0, it.name);
    BareEol(d, c1, it.eol);
    var c2 := Run(d, c1, EolBytes(it.eol));
    RunConcat(d, c0, it.name, EolBytes(it.eol));
    RunConcat(d, c0, it.name + EolBytes(it.eol), FoldsBytes(it.lines));
    if it.lines == [] {
      NoFolds();
      EmptyRun(d, c2);
    } else {
      OnlyLength(Lowered(it.name));
      LaterRun(d, c2, it.lines);
    }
  }

  lemma NoFolds()
    ensures FoldsBytes([]) == []
  {
  }

  lemma OnlyLength(l: seq<Byte>)
    ensures NameState(l).ContentLength? ==> l == CONTENT_LENGTH
  {
    WordsDiffer();
  }

  lemma {:induction false} ItemsRun(d: Decision, c: Conf, its: seq<Item>)
    requires c.status.Running? && AtHeader(c.p) && ProperItems(its) && c.p.nread + |ItemsBytes(its)| <= MAX_HEADER_SIZE
    ensures Further(c, Run(d, c, ItemsBytes(its)), |ItemsBytes(its)|)
    decreases |its|
  {
    hide One, Run, ItemBytes, ProperItem;
    if its == [] {
      EmptyRun(d, c);
    } else {
      var init, last := its[..|its| - 1], its[|its| - 1];
      ItemsRun(d, c, init);
      RunConcat(d, c, ItemsBytes(init), ItemBytes(last));
      ItemRun(d, Run(d, c, ItemsBytes(init)), last);
    }
  }
}
