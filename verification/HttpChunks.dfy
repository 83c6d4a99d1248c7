/** The chunked coding of RFC 2616 section 3.6.1: what an encoder writes, the parser
    delivers, whatever the spelling of the sizes and the extensions. */
module HttpChunks {
  import opened Options
  import opened HttpTypes
  import opened HttpSwitch
  import opened HttpMarks
  import opened HttpReference
  import opened HttpParser
  import opened HttpBody
  import opened HttpValues
  import H = HttpHead
  import L = HttpLine

  predicate AllHex(ds: seq<Byte>) { ds != [] && forall i | 0 <= i < |ds| :: Unhex(ds[i]) >= 0 }

  function Hexes(ds: seq<Byte>): (r: seq<nat>)
    requires AllHex(ds)
    ensures |r| == |ds| && Digits(16, r)
  {
    var r := seq(|ds|, i requires 0 <= i < |ds| => Unhex(ds[i]));
    assert forall i | 0 <= i < |r| :: r[i] == Unhex(ds[i]);
    r
  }

  /** The part of a chunk's first line between the size and CR LF. */
  predicate Extension(ext: seq<Byte>) {
    ext == [] || ((ext[0] == ';' || ext[0] == ' ') && CR !in ext)
  }

  /** A chunk as an encoder may write it. */
  datatype Chunk = Chunk(size: seq<Byte>, ext: seq<Byte>, data: seq<Byte>)

  predicate Line(size: seq<Byte>, ext: seq<Byte>, length: nat) {
    && AllHex(size) && Extension(ext) && Number(16, Hexes(size)) == length < ULLONG_MAX
    && |size| + |ext| + 2 <= MAX_HEADER_SIZE
  }

  predicate Proper(c: Chunk) { c.data != [] && Line(c.size, c.ext, |c.data|) }

  function LineBytes(size: seq<Byte>, ext: seq<Byte>): seq<Byte> { size + (ext + [CR]) + [LF] }

  function Encoded(c: Chunk): seq<Byte> { LineBytes(c.size, c.ext) + (c.data + [CR, LF]) }

  function EncodedAll(cs: seq<Chunk>): seq<Byte> {
    if cs == [] then [] else EncodedAll(cs[..|cs| - 1]) + Encoded(cs[|cs| - 1])
  }

  function Contents(cs: seq<Chunk>): seq<Byte> {
    if cs == [] then [] else Contents(cs[..|cs| - 1]) + cs[|cs| - 1].data
  }

  // ---------- the first line of a chunk ----------

  predicate AtChunk(p: Parser) { p.state.ChunkSizeStart? && p.flags.chunked && p.nread == 0 && p.errno.OK? }

  lemma FirstSizeDigit(d: Decision, p: Parser, log: seq<Event>, used: int, b: Byte)
    requires AtChunk(p) && Unhex(b) >= 0
    ensures One(d, Conf(p, log, used, Running), b)
      == Conf(p.(state := ChunkSize, nread := 1, contentLength := Unhex(b)), log, used + 1, Running)
  {
    hide Switch;
    ChunkHeadPass(d, Counted(p), b);
    OneStep(d, Conf(p, log, used, Running), b);
  }

  lemma NextSizeDigit(d: Decision, p: Parser, log: seq<Event>, used: int, b: Byte)
    requires p.state.ChunkSize? && p.flags.chunked && Unhex(b) >= 0 && p.nread + 1 <= MAX_HEADER_SIZE
    ensures var o := One(d, Conf(p, log, used, Running), b);
      match MoreDigits(16, p.contentLength, Unhex(b))
      case None => o.status.Failed?
      case Some(v) => o == Conf(p.(nread := p.nread + 1, contentLength := v), log, used + 1, Running)
  {
    hide Switch, MoreDigits;
    ChunkHeadPass(d, Counted(p), b);
    OneStep(d, Conf(p, log, used, Running), b);
  }

  /** The digits of a chunk size, as the parser reads them. */
  lemma {:induction false} SizeRun(d: Decision, p: Parser, log: seq<Event>, used: int, ds: seq<Byte>)
    requires AtChunk(p) && AllHex(ds) && |ds| <= MAX_HEADER_SIZE
    ensures var r := Run(d, Conf(p, log, used, Running), ds);
      match Stored(16, Hexes(ds))
      case None => !r.status.Running?
      case Some(v) => r == Conf(p.(state := ChunkSize, nread := |ds|, contentLength := v), log, used + |ds|, Running)
    decreases |ds|
  {
    hide One, MoreDigits, Run;
    var init, last := ds[..|ds| - 1], ds[|ds| - 1];
    var c := Conf(p, log, used, Running);
    assert ds == init + [last];
    if init == [] {
      FirstSizeDigit(d, p, log, used, last);
      RunPush1(d, c, last);
    } else {
      SizeRun(d, p, log, used, init);
      assert Hexes(ds)[..|ds| - 1] == Hexes(init);
      var m := Run(d, c, init);
      if m.status.Running? {
        RunPush(d, c, init, last);
        NextSizeDigit(d, m.p, m.log, m.used, last);
      } else {
        RunConcat(d, c, init, [last]);
        EndedRun(d, m, [last]);
      }
    }
  }

  /** A chunk size is accepted and stored as the number it stands for exactly when that
      number is below 2^64 - 1. */
  lemma ChunkSizeExact(d: Decision, p: Parser, log: seq<Event>, used: int, ds: seq<Byte>)
    requires AtChunk(p) && AllHex(ds) && |ds| <= MAX_HEADER_SIZE
    ensures var r := Run(d, Conf(p, log, used, Running), ds);
      r.status.Running? && r.p.contentLength == Number(16, Hexes(ds)) <==> Number(16, Hexes(ds)) < ULLONG_MAX
  {
    hide Stored, Run;
    SizeRun(d, p, log, used, ds);
    StoredExactly(16, Hexes(ds));
  }

  /** CR ends the size, or the extension. */
  lemma SizeEnds(d: Decision, p: Parser, log: seq<Event>, used: int)
    requires (p.state.ChunkSize? || p.state.ChunkParameters?) && p.flags.chunked && p.nread + 1 <= MAX_HEADER_SIZE
    ensures One(d, Conf(p, log, used, Running), CR)
      == Conf(p.(state := ChunkSizeAlmostDone, nread := p.nread + 1), log, used + 1, Running)
  {
    hide Switch;
    ChunkHeadPass(d, Counted(p), CR);
    OneStep(d, Conf(p, log, used, Running), CR);
  }

  lemma ParameterByte(d: Decision, p: Parser, log: seq<Event>, used: int, b: Byte)
    requires p.flags.chunked && p.nread + 1 <= MAX_HEADER_SIZE && b != CR
    requires p.state.ChunkParameters? || (p.state.ChunkSize? && (b == ';' || b == ' '))
    ensures One(d, Conf(p, log, used, Running), b)
      == Conf(p.(state := ChunkParameters, nread := p.nread + 1), log, used + 1, Running)
  {
    hide Switch;
    ChunkHeadPass(d, Counted(p), b);
    OneStep(d, Conf(p, log, used, Running), b);
  }

  lemma {:induction false} ExtensionRun(d: Decision, p: Parser, log: seq<Event>, used: int, ext: seq<Byte>)
    requires p.flags.chunked && p.nread + |ext| + 1 <= MAX_HEADER_SIZE && CR !in ext
    requires p.state.ChunkParameters? || (p.state.ChunkSize? && Extension(ext))
    ensures Run(d, Conf(p, log, used, Running), ext + [CR])
      == Conf(p.(state := ChunkSizeAlmostDone, nread := p.nread + |ext| + 1), log, used + |ext| + 1, Running)
    decreases |ext|
  {
    hide One, Run;
    var c := Conf(p, log, used, Running);
    if ext == [] {
      assert ext + [CR] == [CR];
      SizeEnds(d, p, log, used);
      RunPush1(d, c, CR);
    } else {
      ParameterByte(d, p, log, used, ext[0]);
      assert (ext + [CR])[0] == ext[0] && (ext + [CR])[1..] == ext[1..] + [CR];
      RunFirst(d, p, log, used, ext + [CR]);
      ExtensionRun(d, p.(state := ChunkParameters, nread := p.nread + 1), log, used + 1, ext[1..]);
    }
  }

  lemma LineEnds(d: Decision, p: Parser, log: seq<Event>, used: int)
    requires p.state.ChunkSizeAlmostDone? && p.flags.chunked && p.nread + 1 <= MAX_HEADER_SIZE
    ensures One(d, Conf(p, log, used, Running), LF) == Conf(LineRead(p, p.contentLength), log, used + 1, Running)
  {
    hide Switch;
    ChunkHeadPass(d, Counted(p), LF);
    OneStep(d, Conf(p, log, used, Running), LF);
  }

  /** After the first line of a chunk of `n` bytes; a chunk of none begins the trailer. */
  function LineRead(p: Parser, n: nat): Parser {
    if n == 0 then p.(state := HeaderFieldStart, nread := 0, contentLength := 0, flags := p.flags.(trailing := true))
    else p.(state := ChunkData, nread := 0, contentLength := n)
  }

  /** The first line of a chunk of `n` bytes, as the parser stores its size. */
  predicate SizeLine(size: seq<Byte>, ext: seq<Byte>, n: nat) {
    && AllHex(size) && Extension(ext) && Stored(16, Hexes(size)) == Some(n) && |size| + |ext| + 2 <= MAX_HEADER_SIZE
  }

  lemma SizeLineRun(d: Decision, p: Parser, log: seq<Event>, used: int, size: seq<Byte>, ext: seq<Byte>, n: nat)
    requires AtChunk(p) && SizeLine(size, ext, n)
    ensures Run(d, Conf(p, log, used, Running), LineBytes(size, ext))
      == Conf(LineRead(p, n), log, used + |LineBytes(size, ext)|, Running)
  {
    hide One, Run, Stored;
    var c := Conf(p, log, used, Running);
    SizeRun(d, p, log, used, size);
    var c1 := Run(d, c, size);
    RunConcat(d, c, size, ext + [CR]);
    ExtensionRun(d, c1.p, log, c1.used, ext);
    var c2 := Run(d, c, size + (ext + [CR]));
    RunPush(d, c, size + (ext + [CR]), LF);
    LineEnds(d, c2.p, log, c2.used);
  }

  /** Sizes below 2^64 - 1 are stored as the numbers they stand for. */
  lemma LineStored(size: seq<Byte>, ext: seq<Byte>, n: nat)
    requires AllHex(size) && Number(16, Hexes(size)) < ULLONG_MAX
    ensures SizeLine(size, ext, n) <==> Line(size, ext, n)
  {
    hide Stored, Number;
    StoredExactly(16, Hexes(size));
  }

  lemma LineRun(d: Decision, p: Parser, log: seq<Event>, used: int, size: seq<Byte>, ext: seq<Byte>, n: nat)
    requires AtChunk(p) && Line(size, ext, n)
    ensures Run(d, Conf(p, log, used, Running), LineBytes(size, ext))
      == Conf(LineRead(p, n), log, used + |LineBytes(size, ext)|, Running)
  {
    hide One, Run, Stored, Number;
    LineStored(size, ext, n);
    SizeLineRun(d, p, log, used, size, ext, n);
  }

  // ---------- whole chunks ----------

  lemma DataCr(d: Decision, p: Parser, log: seq<Event>, used: int)
    requires p.state.ChunkDataAlmostDone? && p.flags.chunked && p.contentLength == 0
    ensures One(d, Conf(p, log, used, Running), CR) == Conf(p.(state := ChunkDataDone), log, used + 1, Running)
  {
    hide Switch, NeedsEof, ShouldKeepAlive;
    BodyPass(d, Counted(p), CR);
    OneStep(d, Conf(p, log, used, Running), CR);
  }

  lemma DataLf(d: Decision, p: Parser, log: seq<Event>, used: int)
    requires p.state.ChunkDataDone? && p.flags.chunked
    ensures One(d, Conf(p, log, used, Running), LF)
      == Conf(p.(state := ChunkSizeStart, nread := 0), log, used + 1, Running)
  {
    hide Switch, NeedsEof, ShouldKeepAlive;
    BodyPass(d, Counted(p), LF);
    OneStep(d, Conf(p, log, used, Running), LF);
  }

  lemma DataEnds(d: Decision, p: Parser, log: seq<Event>, used: int)
    requires p.state.ChunkDataAlmostDone? && p.flags.chunked && p.contentLength == 0
    ensures Run(d, Conf(p, log, used, Running), [CR, LF])
      == Conf(p.(state := ChunkSizeStart, nread := 0), log, used + 2, Running)
  {
    hide Run, One;
    var c := Conf(p, log, used, Running);
    DataCr(d, p, log, used);
    DataLf(d, p.(state := ChunkDataDone), log, used + 1);
    RunPush1(d, c, CR);
    RunPush(d, c, [CR], LF);
    assert [CR] + [LF] == [CR, LF];
  }

  lemma DataRun(d: Decision, p: Parser, log: seq<Event>, used: int, data: seq<Byte>)
    requires p.state.ChunkData? && p.flags.chunked && 0 < p.contentLength == |data| < ULLONG_MAX
    ensures Run(d, Conf(p, log, used, Running), data + [CR, LF])
      == Conf(p.(state := ChunkSizeStart, nread := 0, contentLength := 0), Put(log, Data(Body, data)),
              used + |data| + 2, Running)
  {
    hide One, Run, Put;
    Skip(d, p, log, used, data + [CR, LF], |data|);
    assert (data + [CR, LF])[..|data|] == data && (data + [CR, LF])[|data|..] == [CR, LF];
    DataEnds(d, Taken(p, |data|), Put(log, Data(Body, data)), used + |data|);
  }

  lemma ChunkRun(d: Decision, p: Parser, log: seq<Event>, used: int, k: Chunk)
    requires AtChunk(p) && Proper(k)
    ensures Run(d, Conf(p, log, used, Running), Encoded(k))
      == Conf(p.(contentLength := 0), Put(log, Data(Body, k.data)), used + |Encoded(k)|, Running)
  {
    hide One, Run, Put, Line, LineBytes;
    var n := |k.data|;
    var c := Conf(p, log, used, Running);
    LineRun(d, p, log, used, k.size, k.ext, n);
    RunConcat(d, c, LineBytes(k.size, k.ext), k.data + [CR, LF]);
    ProperSize(k);
    DataRun(d, LineRead(p, n), log, used + |LineBytes(k.size, k.ext)|, k.data);
  }

  lemma ProperSize(k: Chunk)
    requires Proper(k)
    ensures 0 < |k.data| < ULLONG_MAX
  {
  }

  /** The log once the chunks' data is delivered. */
  function Delivered(log: seq<Event>, cs: seq<Chunk>): seq<Event> {
    if cs == [] then log else Put(log, Data(Body, Contents(cs)))
  }

  lemma {:induction false} ChunksRun(d: Decision, p: Parser, log: seq<Event>, used: int, cs: seq<Chunk>)
    requires AtChunk(p) && forall k <- cs :: Proper(k)
    ensures Run(d, Conf(p, log, used, Running), EncodedAll(cs))
      == Conf(if cs == [] then p else p.(contentLength := 0), Delivered(log, cs), used + |EncodedAll(cs)|, Running)
    decreases |cs|
  {
    hide One, Run, Put, Encoded, Proper;
    var c := Conf(p, log, used, Running);
    if cs == [] {
      EmptyRun(d, c);
    } else {
      var init, last := cs[..|cs| - 1], cs[|cs| - 1];
      ChunksRun(d, p, log, used, init);
      RunConcat(d, c, EncodedAll(init), Encoded(last));
      ChunkRun(d, if init == [] then p else p.(contentLength := 0), Delivered(log, init), used + |EncodedAll(init)|,
               last);
      if init == [] {
        assert Contents(cs) == [] + last.data == last.data;
      } else {
        PutTwice(log, Body, Contents(init), last.data);
      }
    }
  }

  // ---------- the trailer ----------

  function TrailerBytes(hs: seq<H.Header>, eol: L.Eol): seq<Byte> { H.HeadersBytes(hs) + L.EolBytes(eol) }

  /** The headers after the last chunk, and the line that ends them. */
  predicate Trailer(hs: seq<H.Header>, eol: L.Eol) {
    (forall i | 0 <= i < |hs| :: H.ProperHeader(hs[i])) && |TrailerBytes(hs, eol)| <= MAX_HEADER_SIZE
  }

  /** The trailer without its last line feed. */
  function TrailerStart(hs: seq<H.Header>, eol: L.Eol): seq<Byte> { H.HeadersBytes(hs) + H.EndStart(eol) }

  /** Up to the last line feed: the headers are delivered like those of a head. */
  lemma TrailerStartRun(d: Decision, p: Parser, log: seq<Event>, used: int, hs: seq<H.Header>, eol: L.Eol)
    requires p.state.HeaderFieldStart? && p.nread == 0 && Trailer(hs, eol) && (hs == [] || H.HeadersMayFollow(log))
    ensures TrailerBytes(hs, eol) == TrailerStart(hs, eol) + [LF]
    ensures var r := Run(d, Conf(p, log, used, Running), TrailerStart(hs, eol));
      && r == Conf(r.p, log + H.HeaderEvents(hs), used + |TrailerStart(hs, eol)|, Running)
      && H.AtEnd(r.p) && H.Along(p, r.p, |TrailerStart(hs, eol)|) && FrameOf(r.p) == H.AfterHeaders(FrameOf(p), hs)
  {
    hide Run, H.HeadersBytes, H.HeaderEvents, H.ProperHeader, H.AfterHeaders, H.HeadersMayFollow;
    var c := Conf(p, log, used, Running);
    H.HeadersRun(d, c, hs);
    var m := Run(d, c, H.HeadersBytes(hs));
    H.EndRun(d, m, eol);
    RunConcat(d, c, H.HeadersBytes(hs), H.EndStart(eol));
  }

  lemma SameNewMessage(p: Parser, q: Parser)
    requires p.kind == q.kind && p.flags == q.flags && p.contentLength == q.contentLength
      && p.statusCode == q.statusCode
    requires p.major == q.major && p.minor == q.minor
    ensures NewMessage(p) == NewMessage(q)
  {
  }

  /** The parser once the trailer of a chunked body is read: its headers have added to what those
      of the head say, and the bytes of the trailer stay counted. */
  predicate Past(p: Parser, q: Parser, hs: seq<H.Header>, eol: L.Eol) {
    && FrameOf(q) == H.AfterHeaders(Frame(p.flags.(trailing := true), 0), hs) && q.state == NewMessage(q)
    && q == p.(state := q.state, headerState := q.headerState, index := q.index, flags := q.flags,
               contentLength := q.contentLength, nread := |TrailerBytes(hs, eol)|)
  }

  lemma TrailerRun(d: Decision, p: Parser, log: seq<Event>, used: int, hs: seq<H.Header>, eol: L.Eol)
    requires p.state.HeaderFieldStart? && p.flags.trailing && p.contentLength == 0 && p.nread == 0
    requires Trailer(hs, eol) && (hs == [] || H.HeadersMayFollow(log))
    ensures var o := Run(d, Conf(p, log, used, Running), TrailerBytes(hs, eol));
      && o == Conf(o.p, Put(log + H.HeaderEvents(hs), Notice(MessageComplete)), used + |TrailerBytes(hs, eol)|, Running)
      && Past(p, o.p, hs, eol)
  {
    hide Run, One, Passes, Put, NewMessage, H.HeaderEvents, H.AfterHeaders, TrailerStart, TrailerBytes;
    var c := Conf(p, log, used, Running);
    TrailerStartRun(d, p, log, used, hs, eol);
    var m := Run(d, c, TrailerStart(hs, eol));
    RunPush(d, c, TrailerStart(hs, eol), LF);
    H.LastLf(d, m);
    var q := Counted(m.p).(state := HeadersAlmostDone);
    TrailerLf(d, q, m.log, m.used);
    SameNewMessage(q, q.(state := NewMessage(q)));
    assert p.flags.(trailing := true) == p.flags;
  }

  lemma TrailerLf(d: Decision, p: Parser, log: seq<Event>, used: int)
    requires p.state.HeadersAlmostDone? && p.flags.trailing
    ensures Passes(d, p, log, used, LF)
      == Conf(p.(state := NewMessage(p)), Put(log, Notice(MessageComplete)), used + 1, Running)
  {
    hide Switch, Put, NewMessage;
    HeadEndPass(d, p, LF);
    NewMessageState(p);
  }

  /** The log that a chunked body leaves. */
  lemma DeliveredLast(log: seq<Event>, cs: seq<Chunk>)
    requires cs == [] ==> H.HeadersMayFollow(log)
    ensures H.HeadersMayFollow(Delivered(log, cs))
  {
  }

  /** Decoding undoes encoding: a chunked body is delivered as the bytes it encodes, then the
      headers of its trailer, and the message is complete. */
  lemma ChunkedRoundTrip(d: Decision, p: Parser, log: seq<Event>, used: int, cs: seq<Chunk>, size: seq<Byte>,
                         ext: seq<Byte>,
                         hs: seq<H.Header>, eol: L.Eol)
    requires AtChunk(p) && (forall k <- cs :: Proper(k)) && Line(size, ext, 0) && Trailer(hs, eol)
    requires cs == [] && hs != [] ==> H.HeadersMayFollow(log)
    ensures var bytes := EncodedAll(cs) + (LineBytes(size, ext) + TrailerBytes(hs, eol));
      var o := Run(d, Conf(p, log, used, Running), bytes);
      && o == Conf(o.p, Put(Delivered(log, cs) + H.HeaderEvents(hs), Notice(MessageComplete)), used + |bytes|, Running)
      && Past(p, o.p, hs, eol)
  {
    hide One, Run, Put, LineBytes, NewMessage, Line, Proper, TrailerBytes, Trailer, Past, Delivered, H.HeaderEvents,
      H.HeadersMayFollow;
    var c := Conf(p, log, used, Running);
    ChunksRun(d, p, log, used, cs);
    var c1 := Run(d, c, EncodedAll(cs));
    RunConcat(d, c, EncodedAll(cs), LineBytes(size, ext) + TrailerBytes(hs, eol));
    LineRun(d, c1.p, c1.log, c1.used, size, ext, 0);
    RunConcat(d, c1, LineBytes(size, ext), TrailerBytes(hs, eol));
    var c2 := Run(d, c1, LineBytes(size, ext));
    if hs != [] { DeliveredLast(log, cs); }
    TrailerRun(d, c2.p, c2.log, c2.used, hs, eol);
    PastToo(p, c2.p, Run(d, c2, TrailerBytes(hs, eol)).p, hs, eol);
  }

  lemma PastToo(p: Parser, m: Parser, q: Parser, hs: seq<H.Header>, eol: L.Eol)
    requires Past(m, q, hs, eol)
      && m == p.(state := m.state, nread := 0, contentLength := 0, flags := p.flags.(trailing := true))
    ensures Past(p, q, hs, eol)
  {
    hide H.AfterHeaders, TrailerBytes, NewMessage;
  }

  // ---------- a body of known length ----------

  /** A body of known length is delivered as it is, and the message complete at its last byte. */
  lemma IdentityBody(d: Decision, p: Parser, log: seq<Event>, used: int, body: seq<Byte>)
    requires p.state.BodyIdentity? && 0 < p.contentLength == |body| < ULLONG_MAX
    ensures Run(d, Conf(p, log, used, Running), body)
      == Conf(Finished(p).(state := NewMessage(Finished(p))), Put(Put(log, Data(Body, body)), Notice(MessageComplete)),
              used + |body|, Running)
  {
    hide One, Run, Put, Passes, NewMessage;
    SkipToEnd(d, p, log, used, body, |body|);
    assert body[..|body|] == body && body[|body|..] == [];
    DonePass(d, Finished(p), Put(log, Data(Body, body)), used + |body| - 1, body[|body| - 1]);
    EmptyRun(d, Passes(d, Finished(p), Put(log, Data(Body, body)), used + |body| - 1, body[|body| - 1]));
  }

  lemma DonePass(d: Decision, p: Parser, log: seq<Event>, used: int, b: Byte)
    requires p.state.MessageDone?
    ensures Passes(d, p, log, used, b)
      == Conf(p.(state := NewMessage(p)), Put(log, Notice(MessageComplete)), used + 1, Running)
  {
    hide Put, NewMessage;
    NewMessageState(p);
  }
}
