/** How the passes of the switch treat the marks: which data is being collected in which
    state, and what the act of a pass does to it. */
module HttpMarks {
  import opened Options
  import opened HttpTypes
  import opened HttpSwitch
  import opened HttpRun

  /** The data, other than a body, that is being collected in a state; the marks that a
      call sets at its first byte are these. */
  function Live(s: State): Option<Kind> {
    if s.HeaderField? then Some(Field)
    else if s.HeaderValue? then Some(Value)
    else if InsideUrl(s) then Some(Url)
    else None
  }

  /** The states in which the body mark may be set. */
  predicate BodyHold(s: State) {
    s.BodyIdentity? || s.BodyIdentityEof? || s.ChunkData? || s.ChunkDataAlmostDone?
  }

  /** How often a byte can still be looked at again. */
  function Rank(s: State): nat {
    if s.HeaderValueLws? then 4
    else if s.HeaderFieldStart? then 3
    else if s.HeadersAlmostDone? then 2
    else if s.StartReqOrRes? || s.HeaderValue? || s.BodyIdentity? then 1
    else if s.HeadersDone? then 1
    else 0
  }

  predicate Disciplined(p: Parser, o: Outcome) {
    match o
    case Next(q, act) => NextDisciplined(p.state, q.state, act)
    case Again(q, act) =>
      && Rank(q.state) < Rank(p.state) && !BodyHold(q.state) && Live(q.state).None?
      && (match act
          case Quiet => Live(p.state).None? && !BodyHold(p.state)
          case Notify(_) => Live(p.state).None? && !BodyHold(p.state)
          case Flush(k) => Live(p.state) == Some(k) && !k.Body?
          case Last => p.state.BodyIdentity?
          case _ => false)
    case Stop(q, act) =>
      act.Notify? && Live(p.state).None? && Live(q.state).None? && !BodyHold(p.state) && !BodyHold(q.state)
    case Fail(_, e) => !e.OK?
    case Crash => true
  }

  predicate NextDisciplined(s: State, t: State, act: Act) {
    match act
    case Quiet => Live(t) == Live(s) && !BodyHold(s)
    case Mark(k) =>
      if k.Body? then BodyHold(s) && BodyHold(t) && Live(s).None? && Live(t).None?
      else Live(s).None? && Live(t) == Some(k) && !BodyHold(s)
    case Flush(k) =>
      if k.Body? then Live(s).None? && Live(t).None? && !BodyHold(t)
      else Live(s) == Some(k) && Live(t).None? && !BodyHold(t)
    case MarkFlush(k) => !k.Body? && Live(s).None? && Live(t).None? && !BodyHold(s) && !BodyHold(t)
    case Notify(_) => Live(s).None? && Live(t).None? && !BodyHold(s) && !BodyHold(t)
    case Last => false
  }

  lemma StartMarks(p: Parser, ch: Byte)
    ensures GroupOf(p.state).GStart? ==> Disciplined(p, StartMessage(p, ch))
    ensures p.state.ReqMethod? ==> Disciplined(p, InMethod(p, ch))
  {
    hide MethodName, Matcher, OtherMethod, FirstMethod, StartsMethod;
  }

  lemma StatusMarks(p: Parser, ch: Byte)
    requires GroupOf(p.state).GStatus?
    ensures Disciplined(p, StatusLine(p, ch))
  {
  }

  lemma UrlMarks(p: Parser, ch: Byte)
    requires GroupOf(p.state).GUrl?
    ensures Disciplined(p, InUrl(p, ch))
  {
    UrlCharStays(p.state, ch);
    UrlCharStays(ReqServerStart, ch);
    hide UrlChar;
  }

  lemma RequestLineMarks(p: Parser, ch: Byte)
    requires GroupOf(p.state).GLine?
    ensures Disciplined(p, RequestLineEnd(p, ch))
  {
  }

  lemma HeaderMarks(p: Parser, ch: Byte)
    ensures p.state.HeaderFieldStart? ==> Disciplined(p, FieldStart(p, ch))
    ensures p.state.HeaderField? ==> Disciplined(p, InField(p, ch))
    ensures GroupOf(p.state).GLineEnd? ==> Disciplined(p, HeaderLineEnd(p, ch))
  {
    hide Token, FieldChar, FirstHeaderState;
  }

  lemma ValueMarks(p: Parser, ch: Byte)
    ensures p.state.HeaderValueStart? ==> Disciplined(p, ValueStart(p, ch))
    ensures p.state.HeaderValue? ==> Disciplined(p, InValue(p, ch))
  {
    hide Match;
  }

  lemma NewMessageState(p: Parser)
    ensures var s := NewMessage(p); s.Dead? || s.StartReq? || s.StartRes?
  {
  }

  lemma HeadEndMarks(d: Decision, p: Parser, ch: Byte)
    requires GroupOf(p.state).GHeadEnd?
    ensures Disciplined(p, HeadEnd(d, p, ch))
  {
    hide NeedsEof, ShouldKeepAlive;
  }

  lemma BodyMarks(p: Parser, ch: Byte)
    ensures GroupOf(p.state).GChunkHead? ==> Disciplined(p, ChunkHead(p, ch))
    ensures GroupOf(p.state).GBody? ==> Disciplined(p, BodyByte(p, ch))
  {
    hide NeedsEof, ShouldKeepAlive;
  }

  lemma SwitchMarks(d: Decision, p: Parser, ch: Byte)
    ensures Disciplined(p, Switch(d, p, ch))
  {
    hide Disciplined;
    match GroupOf(p.state)
    case GDead => DeadMarks(d, p, ch);
    case GStart => StartMarks(p, ch);
    case GMethod => StartMarks(p, ch);
    case GStatus => StatusMarks(p, ch);
    case GUrl => UrlMarks(p, ch);
    case GLine => RequestLineMarks(p, ch);
    case GFieldStart => HeaderMarks(p, ch);
    case GField => HeaderMarks(p, ch);
    case GLineEnd => HeaderMarks(p, ch);
    case GValueStart => ValueMarks(p, ch);
    case GValue => ValueMarks(p, ch);
    case GHeadEnd => HeadEndMarks(d, p, ch);
    case GChunkHead => BodyMarks(p, ch);
    case GBody => BodyMarks(p, ch);
  }

  lemma DeadMarks(d: Decision, p: Parser, ch: Byte)
    requires p.state.Dead?
    ensures Disciplined(p, Switch(d, p, ch))
  {
  }
}
