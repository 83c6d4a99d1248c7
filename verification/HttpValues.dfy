/** The values that matter for framing: what the recognisers of `chunked`, `keep-alive`, `close`
    and of lengths make of them. */
module HttpValues {
  import opened HttpTypes
  import opened HttpSwitch
  import opened Options

  function Lowers(v: seq<Byte>): (r: seq<Byte>)
    ensures |r| == |v|
  {
    seq(|v|, i requires 0 <= i < |v| => Lower(v[i]))
  }

  /** The word, in any case, and nothing but spaces after it. */
  predicate Says(w: string, v: seq<Byte>) {
    |w| <= |v| && Lowers(v[..|w|]) == w && forall i | |w| <= i < |v| :: v[i] == ' '
  }

  /** A proper beginning of the word. */
  predicate Begun(w: string, v: seq<Byte>) { 0 < |v| < |w| && Lowers(v) <= w }

  lemma LongerValue(w: string, v: seq<Byte>, b: Byte)
    requires v != [] && |w| > 1
    ensures Says(w, v + [b]) <==> (Says(w, v) && b == ' ') || (Begun(w, v) && |v| + 1 == |w| && w[|v|] == Lower(b))
    ensures Begun(w, v + [b]) <==> Begun(w, v) && |v| + 1 < |w| && w[|v|] == Lower(b)
  {
    var r := v + [b];
    assert Lowers(r) == Lowers(v) + [Lower(b)];
    assert r[|v|] == b && forall i | 0 <= i < |v| :: r[i] == v[i];
    if |w| <= |v| {
      assert r[..|w|] == v[..|w|];
    } else if |w| == |r| {
      assert r[..|w|] == r;
    }
  }

  /** What the recogniser of values is in after a value, or part of one. */
  function ValueState(h: HeaderState, v: seq<Byte>): HeaderState {
    match h
    case ContentLength => ContentLength
    case TransferEncoding =>
      if Says(CHUNKED, v) then Chunked else if Begun(CHUNKED, v) then MatchingChunked else General
    case Connection =>
      if Says(KEEP_ALIVE, v) then KeepAlive
      else if Says(CLOSE, v) then Close
      else if Begun(KEEP_ALIVE, v) then MatchingKeepAlive
      else if Begun(CLOSE, v) then MatchingClose
      else General
    case _ => General
  }

  predicate IndexAt(h: HeaderState, index: nat, n: nat) {
    h.MatchingChunked? || h.MatchingKeepAlive? || h.MatchingClose? ==> index + 1 == n
  }

  lemma FirstValueState(h: HeaderState, b: Byte)
    ensures ValueState(h, [b]) == match h
      case ContentLength => ContentLength
      case TransferEncoding => if Lower(b) == 'c' then MatchingChunked else General
      case Connection =>
        if Lower(b) == 'k' then MatchingKeepAlive else if Lower(b) == 'c' then MatchingClose else General
      case _ => General
  {
    var a, k, c := CHUNKED, KEEP_ALIVE, CLOSE;
    assert |a| == 7 && a[0] == 'c' && |k| == 10 && k[0] == 'k' && |c| == 5 && c[0] == 'c';
    assert Lowers([b]) == [Lower(b)];
  }

  /** The words for a connection do not begin alike. */
  lemma WordsApart(v: seq<Byte>)
    requires v != []
    ensures Says(KEEP_ALIVE, v) || Begun(KEEP_ALIVE, v) ==> !Says(CLOSE, v) && !Begun(CLOSE, v)
    ensures Says(KEEP_ALIVE, v) ==> !Begun(KEEP_ALIVE, v)
    ensures Says(CLOSE, v) ==> !Begun(CLOSE, v)
    ensures Says(CHUNKED, v) ==> !Begun(CHUNKED, v)
    ensures |KEEP_ALIVE| == 10 && |CLOSE| == 5 && |CHUNKED| == 7
  {
    var k, c := KEEP_ALIVE, CLOSE;
    assert k[0] == 'k' && c[0] == 'c';
    if Says(k, v) || Begun(k, v) {
      assert Lower(v[0]) == 'k' by {
        if Says(k, v) { assert Lowers(v[..|k|])[0] == Lower(v[0]); } else { assert Lowers(v)[0] == Lower(v[0]); }
      }
    }
    if Says(c, v) || Begun(c, v) {
      assert Lower(v[0]) == 'c' by {
        if Says(c, v) { assert Lowers(v[..|c|])[0] == Lower(v[0]); } else { assert Lowers(v)[0] == Lower(v[0]); }
      }
    }
  }

  /** One more byte of a value that is no length. */
  lemma NextValueState(p: Parser, h: HeaderState, v: seq<Byte>, b: Byte)
    requires v != [] && b != CR && b != LF && !h.ContentLength?
    requires p.headerState == ValueState(h, v) && IndexAt(p.headerState, p.index, |v|)
    ensures match InValue(p, b)
      case Next(q, Quiet) =>
        && q == p.(headerState := q.headerState, index := q.index)
        && q.headerState == ValueState(h, v + [b]) && IndexAt(q.headerState, q.index, |v| + 1)
      case _ => false
  {
    hide Says, Begun;
    LongerValue(CHUNKED, v, b);
    LongerValue(KEEP_ALIVE, v, b);
    LongerValue(CLOSE, v, b);
    WordsApart(v);
    WordsApart(v + [b]);
  }

  // ---------- what a header says about the message ----------

  /** The flags and the length that frame a message. */
  datatype Frame = Frame(flags: Flags, length: nat)

  function FrameOf(p: Parser): Frame { Frame(p.flags, p.contentLength) }

  /** What a Content-Length value is read as: digits, and spaces that are skipped. */
  function LengthOf(v: seq<Byte>): Option<nat> {
    if v == [] || !IsNum(v[0]) then None
    else if |v| == 1 then Some(Digit(v[0]))
    else
      match LengthOf(v[..|v| - 1])
      case None => None
      case Some(t) =>
        var b := v[|v| - 1];
        if b == ' ' then Some(t) else if IsNum(b) then MoreDigits(10, t, Digit(b)) else None
  }

  /** The frame after a header line, by the state its name has led to. */
  function AfterValue(f: Frame, h: HeaderState, v: seq<Byte>): Frame {
    if v == [] then f
    else
      match h
      case Upgrade => f.(flags := f.flags.(upgrade := true))
      case ContentLength => if LengthOf(v).Some? then f.(length := LengthOf(v).value) else f
      case TransferEncoding => if Says(CHUNKED, v) then f.(flags := f.flags.(chunked := true)) else f
      case Connection =>
        if Says(KEEP_ALIVE, v) then f.(flags := f.flags.(keepAlive := true))
        else if Says(CLOSE, v) then f.(flags := f.flags.(close := true))
        else f
      case _ => f
  }

  /** The frame while the value is read. */
  function WithinValue(f: Frame, h: HeaderState, v: seq<Byte>): Frame {
    match h
    case Upgrade => f.(flags := f.flags.(upgrade := true))
    case ContentLength => if LengthOf(v).Some? then f.(length := LengthOf(v).value) else f
    case _ => f
  }

  /** The frame at the end of a header line, by the state of the recogniser of values. */
  function AtLineEnd(f: Frame, h: HeaderState): Frame {
    match h
    case KeepAlive => f.(flags := f.flags.(keepAlive := true))
    case Close => f.(flags := f.flags.(close := true))
    case Chunked => f.(flags := f.flags.(chunked := true))
    case _ => f
  }

  lemma LineEndFrame(f: Frame, h: HeaderState, v: seq<Byte>)
    requires v != []
    ensures AtLineEnd(WithinValue(f, h, v), ValueState(h, v)) == AfterValue(f, h, v)
  {
    hide Says, Begun, LengthOf;
  }
}
