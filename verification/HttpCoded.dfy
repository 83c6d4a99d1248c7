/** Nothing but the chunked coding is taken for a chunked body: chunks, the last chunk, and a trailer,
    whose lines may lack a colon. */
module HttpCoded {
  import opened Options
  import opened HttpTypes
  import opened HttpSwitch
  import opened HttpRun
  import opened HttpMarks
  import opened HttpReference
  import opened HttpParser
  import opened HttpBody
  import opened HttpChunks
  import opened HttpLine
  import opened HttpHead
  import opened HttpItems
  import opened HttpAccepted
  import opened HttpEof

  // ---------- chunked bodies, as loosely as they are taken ----------

  predicate Stored16(k: Chunk) { k.data != [] && SizeLine(k.size, k.ext, |k.data|) }

  predicate AllStored(cs: seq<Chunk>) { forall k <- cs :: Stored16(k) }

  datatype LooseBody = LooseBody(chunks: seq<Chunk>, size: seq<Byte>, ext: seq<Byte>, items: seq<Item>, eol: Eol)

  /** Up to the trailer. */
  function Leader(cs: seq<Chunk>, size: seq<Byte>, ext: seq<Byte>): seq<Byte> {
    EncodedAll(cs) + HttpChunks.LineBytes(size, ext)
  }

  function TrailerText(b: LooseBody): seq<Byte> { ItemsBytes(b.items) + EolBytes(b.eol) }

  function BodyText(b: LooseBody): seq<Byte> { Leader(b.chunks, b.size, b.ext) + TrailerText(b) }

  predicate BodyFits(b: LooseBody) {
    && AllStored(b.chunks) && SizeLine(b.size, b.ext, 0) && ProperItems(b.items) && |TrailerText(b)| <= MAX_HEADER_SIZE
  }

  // ---------- how far a body has been read ----------

  datatype BodyPlace =
    | InSize(cs: seq<Chunk>, size: seq<Byte>)
    | InExt(cs: seq<Chunk>, size: seq<Byte>, ext: seq<Byte>)
    | SizeCr(cs: seq<Chunk>, size: seq<Byte>, ext: seq<Byte>)
    | InData(cs: seq<Chunk>, size: seq<Byte>, ext: seq<Byte>, data: seq<Byte>)
    | AfterData(cs: seq<Chunk>, k: Chunk)
    | DataCr(cs: seq<Chunk>, k: Chunk)

  /** What has been read there. */
  function BodyRead(a: BodyPlace): seq<Byte> {
    match a
    case InSize(cs, size) => EncodedAll(cs) + size
    case InExt(cs, size, ext) => EncodedAll(cs) + (size + ext)
    case SizeCr(cs, size, ext) => EncodedAll(cs) + (size + (ext + [CR]))
    case InData(cs, size, ext, data) => Leader(cs, size, ext) + data
    case AfterData(cs, k) => Leader(cs, k.size, k.ext) + k.data
    case DataCr(cs, k) => Leader(cs, k.size, k.ext) + (k.data + [CR])
  }

  predicate Sized(size: seq<Byte>, n: nat) { AllHex(size) && Stored(16, Hexes(size)) == Some(n) }

  predicate BodyAt(a: BodyPlace, p: Parser) {
    && p.flags.chunked && !p.flags.trailing && AllStored(a.cs)
    && match a
       case InSize(cs, size) =>
         if size == [] then p.state.ChunkSizeStart? && p.nread == 0
         else p.state.ChunkSize? && Sized(size, p.contentLength) && p.nread == |size|
       case InExt(cs, size, ext) =>
         && p.state.ChunkParameters? && Sized(size, p.contentLength) && ext != [] && Extension(ext)
         && p.nread == |size| + |ext|
       case SizeCr(cs, size, ext) =>
         && p.state.ChunkSizeAlmostDone? && Sized(size, p.contentLength) && Extension(ext)
         && p.nread == |size| + |ext| + 1
       case InData(cs, size, ext, data) =>
         p.state.ChunkData? && 0 < p.contentLength < ULLONG_MAX && SizeLine(size, ext, |data| + p.contentLength)
           && p.nread == 0
       case AfterData(cs, k) => p.state.ChunkDataAlmostDone? && Stored16(k) && p.contentLength == 0 && p.nread == 0
       case DataCr(cs, k) => p.state.ChunkDataDone? && Stored16(k) && p.nread == 0
  }

  datatype BodySpot =
    | OnBody(a: BodyPlace)
    | InTrailer(h: Place, cs: seq<Chunk>, size: seq<Byte>, ext: seq<Byte>)

  function SpotRead(s: BodySpot): seq<Byte> { if s.OnBody? then BodyRead(s.a) else BytesOf(s.h) }

  predicate InBodyAt(s: BodySpot, p: Parser) {
    if s.OnBody? then BodyAt(s.a, p)
    else
      && At(s.h, p) && s.h.l == OfBody(Leader(s.cs, s.size, s.ext)) && p.nread == |BytesOf(s.h)| - |s.h.l.bytes|
      && AllStored(s.cs) && SizeLine(s.size, s.ext, 0)
  }

  predicate Completed(log: seq<Event>) { Notice(MessageComplete) in log }

  /** What a byte of the chunks leads to. */
  ghost predicate BodyLeads(a: BodyPlace, log: seq<Event>, o: Conf, b: Byte, next: BodySpot) {
    && (Completed(o.log) ==> Completed(log))
    && (o.status.Running? ==> InBodyAt(next, o.p) && SpotRead(next) == BodyRead(a) + [b])
  }

  /** A byte that one pass takes or refuses. */
  lemma OnePass(d: Decision, c: Conf, b: Byte)
    requires c.status.Running? && !(ParsingHeader(c.p.state) && c.p.nread + 1 > MAX_HEADER_SIZE)
    requires var o := Switch(d, Counted(c.p), b); o.Fail? || (o.Next? && o.act != Notify(MessageComplete))
    ensures var o, r := Switch(d, Counted(c.p), b), One(d, c, b);
      && (Completed(r.log) ==> Completed(c.log))
      && (r.status.Running? ==> o.Next? && r.p == o.p)
  {
    hide Switch, PassLog, ByteLog;
    match Switch(d, Counted(c.p), b)
    case Next(q, act) => LogStays(c.log, act, q.state, b, MessageComplete);
    case _ =>
  }

  lemma TooLong(d: Decision, c: Conf, b: Byte)
    requires ParsingHeader(c.p.state) && c.p.nread + 1 > MAX_HEADER_SIZE
    ensures One(d, c, b).status.Failed? && One(d, c, b).log == c.log
  {
    hide Passes;
  }

  lemma HexMore(ds: seq<Byte>, b: Byte)
    requires Unhex(b) >= 0 && (ds == [] || AllHex(ds))
    ensures AllHex(ds + [b])
    ensures Stored(16, Hexes(ds + [b])) == if ds == [] then Some(Unhex(b)) else
      match Stored(16, Hexes(ds)) case None => None case Some(v) => MoreDigits(16, v, Unhex(b))
  {
    hide MoreDigits;
    var all := ds + [b];
    assert AllHex(all);
    if ds == [] {
      assert all == [b];
    } else {
      assert Hexes(all)[..|ds|] == Hexes(ds);
    }
  }

  lemma SizeStep(d: Decision, c: Conf, a: BodyPlace, b: Byte) returns (next: BodySpot)
    requires c.status.Running? && a.InSize? && BodyAt(a, c.p)
    ensures BodyLeads(a, c.log, One(d, c, b), b, next)
  {
    hide Switch, Stored, MoreDigits, One, AllStored, EncodedAll, AllHex;
    next := OnBody(InSize(a.cs, a.size + [b]));
    if ParsingHeader(c.p.state) && c.p.nread + 1 > MAX_HEADER_SIZE {
      TooLong(d, c, b);
    } else {
      ChunkHeadPass(d, Counted(c.p), b);
      OnePass(d, c, b);
      if Unhex(b) >= 0 {
        HexMore(a.size, b);
      } else if b == CR {
        next := OnBody(SizeCr(a.cs, a.size, []));
        assert EncodedAll(a.cs) + (a.size + ([] + [CR])) == (EncodedAll(a.cs) + a.size) + [CR];
      } else {
        next := OnBody(InExt(a.cs, a.size, [b]));
      }
    }
  }

  lemma ExtStep(d: Decision, c: Conf, a: BodyPlace, b: Byte) returns (next: BodySpot)
    requires c.status.Running? && a.InExt? && BodyAt(a, c.p)
    ensures BodyLeads(a, c.log, One(d, c, b), b, next)
  {
    hide Switch, Stored, One, AllStored, EncodedAll, AllHex;
    next := OnBody(if b == CR then SizeCr(a.cs, a.size, a.ext) else InExt(a.cs, a.size, a.ext + [b]));
    if ParsingHeader(c.p.state) && c.p.nread + 1 > MAX_HEADER_SIZE {
      TooLong(d, c, b);
    } else {
      ChunkHeadPass(d, Counted(c.p), b);
      OnePass(d, c, b);
    }
  }

  lemma SizeCrStep(d: Decision, c: Conf, a: BodyPlace, b: Byte) returns (next: BodySpot)
    requires c.status.Running? && a.SizeCr? && BodyAt(a, c.p)
    ensures BodyLeads(a, c.log, One(d, c, b), b, next)
  {
    hide Switch, Stored, One, AllStored, AllHex, Sofar, EncodedAll;
    if ParsingHeader(c.p.state) && c.p.nread + 1 > MAX_HEADER_SIZE {
      TooLong(d, c, b);
      next := OnBody(a);
    } else {
      ChunkHeadPass(d, Counted(c.p), b);
      OnePass(d, c, b);
      LeaderIs(a.cs, a.size, a.ext);
      if c.p.contentLength == 0 {
        var l := OfBody(Leader(a.cs, a.size, a.ext));
        next := InTrailer(AtStart(l, []), a.cs, a.size, a.ext);
        NoItems(l);
      } else {
        next := OnBody(InData(a.cs, a.size, a.ext, []));
        StoredBelow(a.size);
      }
    }
  }

  lemma LeaderIs(cs: seq<Chunk>, size: seq<Byte>, ext: seq<Byte>)
    ensures Leader(cs, size, ext) == (EncodedAll(cs) + (size + (ext + [CR]))) + [LF]
  {
    hide EncodedAll;
  }

  /** A stored size is below 2^64 - 1. */
  lemma StoredBelow(size: seq<Byte>)
    requires AllHex(size) && Stored(16, Hexes(size)).Some?
    ensures Stored(16, Hexes(size)).value < ULLONG_MAX
  {
    var ds := Hexes(size);
    if |ds| > 1 { var _ := Stored(16, ds[..|ds| - 1]); }
  }

  lemma DataStep(d: Decision, c: Conf, a: BodyPlace, b: Byte) returns (next: BodySpot)
    requires c.status.Running? && a.InData? && BodyAt(a, c.p)
    ensures BodyLeads(a, c.log, One(d, c, b), b, next)
  {
    hide Switch, Stored, One, AllStored, AllHex, Leader, NeedsEof, ShouldKeepAlive;
    BodyPass(d, Counted(c.p), b);
    OnePass(d, c, b);
    var data := a.data + [b];
    next := OnBody(if c.p.contentLength == 1 then AfterData(a.cs, Chunk(a.size, a.ext, data))
      else InData(a.cs, a.size, a.ext, data));
  }

  lemma AfterDataStep(d: Decision, c: Conf, a: BodyPlace, b: Byte) returns (next: BodySpot)
    requires c.status.Running? && a.AfterData? && BodyAt(a, c.p)
    ensures BodyLeads(a, c.log, One(d, c, b), b, next)
  {
    hide Switch, One, AllStored, Stored16, Leader, NeedsEof, ShouldKeepAlive;
    BodyPass(d, Counted(c.p), b);
    OnePass(d, c, b);
    next := OnBody(DataCr(a.cs, a.k));
  }

  lemma DataCrStep(d: Decision, c: Conf, a: BodyPlace, b: Byte) returns (next: BodySpot)
    requires c.status.Running? && a.DataCr? && BodyAt(a, c.p)
    ensures BodyLeads(a, c.log, One(d, c, b), b, next)
  {
    hide Switch, One, Stored16, NeedsEof, ShouldKeepAlive;
    BodyPass(d, Counted(c.p), b);
    OnePass(d, c, b);
    next := OnBody(InSize(a.cs + [a.k], []));
    ChunkDone(a.cs, a.k);
  }

  /** With its two last bytes a chunk is read whole. */
  lemma ChunkDone(cs: seq<Chunk>, k: Chunk)
    ensures EncodedAll(cs + [k]) == (Leader(cs, k.size, k.ext) + (k.data + [CR])) + [LF]
  {
    assert (cs + [k])[..|cs|] == cs;
    var a, b := EncodedAll(cs), HttpChunks.LineBytes(k.size, k.ext);
    assert a + (b + (k.data + [CR, LF])) == ((a + b) + (k.data + [CR])) + [LF];
  }

  /** One byte of the chunks. */
  lemma BodyStep(d: Decision, c: Conf, a: BodyPlace, b: Byte) returns (next: BodySpot)
    requires c.status.Running? && BodyAt(a, c.p)
    ensures BodyLeads(a, c.log, One(d, c, b), b, next)
  {
    hide BodyAt, BodyLeads, One;
    match a
    case InSize(_, _) => next := SizeStep(d, c, a, b);
    case InExt(_, _, _) => next := ExtStep(d, c, a, b);
    case SizeCr(_, _, _) => next := SizeCrStep(d, c, a, b);
    case InData(_, _, _, _) => next := DataStep(d, c, a, b);
    case AfterData(_, _) => next := AfterDataStep(d, c, a, b);
    case DataCr(_, _) => next := DataCrStep(d, c, a, b);
  }

  predicate BodyEnds(s: BodySpot) {
    s.InTrailer? && MayEnd(s.h) && s.h.l.OfBody? && |BytesOf(s.h)| - |s.h.l.bytes| + 1 <= MAX_HEADER_SIZE
  }

  lemma OneCoded(d: Decision, c: Conf, a: BodySpot, b: Byte) returns (next: BodySpot)
    requires c.status.Running? && InBodyAt(a, c.p) && !Completed(c.log)
    ensures var o := One(d, c, b);
      && (Completed(o.log) ==> BodyEnds(a) && b == LF)
      && (o.status.Running? && !Completed(o.log) ==> InBodyAt(next, o.p) && SpotRead(next) == SpotRead(a) + [b])
  {
    hide One, BodyAt, At, BytesOf, BodyRead, SizeLine, AllStored, Leader;
    if a.OnBody? {
      next := BodyStep(d, c, a.a, b);
    } else {
      var h := OneHeader(d, c, a.h, b);
      next := a.(h := h);
    }
  }

  // ---------- all bytes ----------

  /** Where a chunked body begins. */
  predicate BodyBegins(c: Conf) {
    c.status.Running? && AtChunk(c.p) && !c.p.flags.trailing && !Completed(c.log)
  }

  /** As long as the end of the message is not announced, the bytes read are the beginning of a
      chunked body. */
  lemma {:induction false} CodedFollows(d: Decision, c: Conf, w: seq<Byte>) returns (a: BodySpot)
    requires BodyBegins(c) && var r := Run(d, c, w); r.status.Running? && !Completed(r.log)
    ensures InBodyAt(a, Run(d, c, w).p) && SpotRead(a) == w
    decreases |w|
  {
    hide Run, Passes, InBodyAt, SpotRead, One, AtChunk;
    if w == [] {
      EmptyRun(d, c);
      a := OnBody(InSize([], []));
      CodedStarts(c.p);
    } else {
      var init, last := w[..|w| - 1], w[|w| - 1];
      assert w == init + [last];
      RunConcat(d, c, init, [last]);
      var m := Run(d, c, init);
      WasRunning(d, m, [last]);
      RunKeeps(d, m, [last]);
      var before := CodedFollows(d, c, init);
      RunPush(d, c, init, last);
      a := OneCoded(d, m, before, last);
    }
  }

  lemma CodedStarts(p: Parser)
    requires AtChunk(p) && !p.flags.trailing
    ensures InBodyAt(OnBody(InSize([], [])), p) && SpotRead(OnBody(InSize([], []))) == []
  {
  }

  /** The message ends with the last byte of `w`. */
  predicate Finishes(d: Decision, c: Conf, w: seq<Byte>) {
    w != [] && Completed(Run(d, c, w).log) && !Completed(Run(d, c, w[..|w| - 1]).log)
  }

  lemma OnlyCoded(d: Decision, c: Conf, w: seq<Byte>)
    requires BodyBegins(c) && Finishes(d, c, w)
    ensures exists b :: BodyFits(b) && BodyText(b) == w
  {
    hide Run, At, BytesOf, BodyFits, BodyText, One, SpotRead, AtChunk, SizeLine, AllStored, Leader;
    var init, last := w[..|w| - 1], w[|w| - 1];
    assert w == init + [last];
    RunConcat(d, c, init, [last]);
    var m := Run(d, c, init);
    if !m.status.Running? { EndedRun(d, m, [last]); }
    var a := CodedFollows(d, c, init);
    RunPush(d, c, init, last);
    var _ := OneCoded(d, m, a, last);
    var b := BodyClosed(a, m.p);
    assert BodyText(b) == w;
  }

  /** The body that ends with a line feed there. */
  lemma BodyClosed(a: BodySpot, p: Parser) returns (b: LooseBody)
    requires BodyEnds(a) && InBodyAt(a, p)
    ensures BodyFits(b) && BodyText(b) == SpotRead(a) + [LF]
  {
    hide At, BytesOf, ItemsBytes, ProperItems, SizeLine, AllStored, Leader;
    var its, eol := Closed(a.h, p);
    b := LooseBody(a.cs, a.size, a.ext, its, eol);
    assert (Leader(a.cs, a.size, a.ext) + ItemsBytes(its)) + EolBytes(eol) == BytesOf(a.h) + [LF];
  }

  // ---------- every such body is taken ----------

  /** After chunks, where another may come. */
  predicate NextChunk(c: Conf, r: Conf) {
    r.status.Running? && AtChunk(r.p) && r.p.flags == c.p.flags && (Completed(r.log) <==> Completed(c.log))
  }

  lemma PutBody(log: seq<Event>, data: seq<Byte>)
    ensures Completed(Put(log, Data(Body, data))) <==> Completed(log)
  {
    PutData(log, Body, data);
  }

  lemma StoredRun(d: Decision, c: Conf, k: Chunk)
    requires c.status.Running? && AtChunk(c.p) && Stored16(k)
    ensures NextChunk(c, Run(d, c, Encoded(k)))
  {
    hide One, Run, Put, SizeLine, HttpChunks.LineBytes;
    SizeLineRun(d, c.p, c.log, c.used, k.size, k.ext, |k.data|);
    RunConcat(d, c, HttpChunks.LineBytes(k.size, k.ext), k.data + [CR, LF]);
    StoredLength(k);
    DataRun(d, HttpChunks.LineRead(c.p, |k.data|), c.log, c.used + |HttpChunks.LineBytes(k.size, k.ext)|, k.data);
    PutBody(c.log, k.data);
  }

  lemma StoredLength(k: Chunk)
    requires Stored16(k)
    ensures 0 < |k.data| < ULLONG_MAX
  {
    hide Stored;
    StoredBelow(k.size);
  }

  lemma {:induction false} AllStoredRun(d: Decision, c: Conf, cs: seq<Chunk>)
    requires c.status.Running? && AtChunk(c.p) && AllStored(cs)
    ensures NextChunk(c, Run(d, c, EncodedAll(cs)))
    decreases |cs|
  {
    hide One, Run, Encoded, Stored16, AtChunk;
    if cs == [] {
      EmptyRun(d, c);
    } else {
      var init, last := cs[..|cs| - 1], cs[|cs| - 1];
      assert last in cs && AllStored(init);
      AllStoredRun(d, c, init);
      RunConcat(d, c, EncodedAll(init), Encoded(last));
      StoredRun(d, Run(d, c, EncodedAll(init)), last);
    }
  }

  /** The body without its last line feed. */
  function BodyStart(b: LooseBody): seq<Byte> {
    Leader(b.chunks, b.size, b.ext) + (ItemsBytes(b.items) + EndStart(b.eol))
  }

  lemma BodyLast(b: LooseBody)
    ensures BodyText(b) == BodyStart(b) + [LF]
  {
    hide Leader, ItemsBytes;
    assert EolBytes(b.eol) == EndStart(b.eol) + [LF];
  }

  lemma AllCoded(d: Decision, c: Conf, b: LooseBody)
    requires BodyBegins(c) && BodyFits(b)
    ensures Finishes(d, c, BodyText(b))
  {
    hide Run, One, Passes, Put, EncodedAll, SizeLine, HttpChunks.LineBytes, ItemsBytes, ProperItems, AllStored, Leader,
      BodyText, BodyStart;
    BodyLast(b);
    var w := BodyStart(b);
    LeaderRun(d, c, b);
    var c1 := Run(d, c, Leader(b.chunks, b.size, b.ext));
    TrailerPart(d, c1, b);
    var t := ItemsBytes(b.items) + EndStart(b.eol);
    RunConcat(d, c, Leader(b.chunks, b.size, b.ext), t);
    assert w == Leader(b.chunks, b.size, b.ext) + t by { StartIs(b); }
    var m := Run(d, c, w);
    RunPush(d, c, w, LF);
    LastLf(d, m);
    TrailerEnds(d, Counted(m.p).(state := HeadersAlmostDone), m.log, m.used);
    TellsLast(m.log, MessageComplete);
    assert BodyText(b)[..|BodyText(b)| - 1] == w;
  }

  lemma StartIs(b: LooseBody)
    ensures BodyStart(b) == Leader(b.chunks, b.size, b.ext) + (ItemsBytes(b.items) + EndStart(b.eol))
  {
    hide Leader, ItemsBytes;
  }

  /** Where the trailer begins. */
  predicate AtTrailer(c: Conf) {
    c.status.Running? && c.p.state.HeaderFieldStart? && c.p.flags.trailing && c.p.nread == 0 && !Completed(c.log)
  }

  lemma LeaderRun(d: Decision, c: Conf, b: LooseBody)
    requires BodyBegins(c) && BodyFits(b)
    ensures AtTrailer(Run(d, c, Leader(b.chunks, b.size, b.ext)))
  {
    hide Run, One, EncodedAll, SizeLine, HttpChunks.LineBytes, ItemsBytes, ProperItems, AllStored;
    AllStoredRun(d, c, b.chunks);
    var c0 := Run(d, c, EncodedAll(b.chunks));
    RunConcat(d, c, EncodedAll(b.chunks), HttpChunks.LineBytes(b.size, b.ext));
    SizeLineRun(d, c0.p, c0.log, c0.used, b.size, b.ext, 0);
  }

  lemma TrailerPart(d: Decision, c: Conf, b: LooseBody)
    requires AtTrailer(c) && ProperItems(b.items) && |TrailerText(b)| <= MAX_HEADER_SIZE
    ensures var r := Run(d, c, ItemsBytes(b.items) + EndStart(b.eol));
      r.status.Running? && AtEnd(r.p) && r.p.flags.trailing && !Completed(r.log) && r.p.nread + 1 <= MAX_HEADER_SIZE
  {
    hide Run, One, ItemsBytes, ProperItems;
    ItemsRun(d, c, b.items);
    var m := Run(d, c, ItemsBytes(b.items));
    EndRun(d, m, b.eol);
    RunConcat(d, c, ItemsBytes(b.items), EndStart(b.eol));
  }

  /** Where a chunked body begins, the end of the message is announced at the last of some bytes, and
      not before, exactly if they are a chunked body, with at most 80 KB in its trailer and in the
      first line of each chunk. */
  lemma ExactlyCoded(d: Decision, c: Conf, w: seq<Byte>)
    requires BodyBegins(c)
    ensures Finishes(d, c, w) <==> exists b :: BodyFits(b) && BodyText(b) == w
  {
    hide Finishes, BodyFits, BodyText, BodyBegins;
    if Finishes(d, c, w) { OnlyCoded(d, c, w); }
    forall b | BodyFits(b) && BodyText(b) == w ensures Finishes(d, c, w) { AllCoded(d, c, b); }
  }
}
