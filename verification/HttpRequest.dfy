/** http_parse.c: a request built from the parser's callbacks. */
module HttpRequest {
  import opened Options
  import opened HttpTypes
  import opened HttpSwitch
  import opened HttpReference
  import opened HttpSplit
  import opened HttpNames
  import opened HttpHead
  import opened HttpUrlDelivered

  // ---------- C strings ----------

  const NUL := '\0'

  /** The bytes before the first NUL. */
  function Upto(s: seq<Byte>): seq<Byte> {
    if s == [] || s[0] == NUL then [] else [s[0]] + Upto(s[1..])
  }

  lemma {:induction false} UptoIs(s: seq<Byte>, n: nat)
    requires n <= |s| && NUL !in s[..n] && (n == |s| || s[n] == NUL)
    ensures Upto(s) == s[..n]
  {
    if n > 0 {
      assert s[..n][0] == s[0];
      assert s[1..][..n - 1] == s[..n][1..];
      UptoIs(s[1..], n - 1);
      assert s[..n] == [s[0]] + s[1..][..n - 1];
    }
  }

  lemma {:induction false} UptoFacts(s: seq<Byte>)
    ensures var n := |Upto(s)|;
      n <= |s| && Upto(s) == s[..n] && NUL !in Upto(s) && (n < |s| ==> s[n] == NUL)
  {
    if s != [] && s[0] != NUL { UptoFacts(s[1..]); }
  }

  lemma UptoWhole(a: seq<Byte>)
    requires |Upto(a)| == |a|
    ensures Upto(a) == a
  {
    UptoFacts(a);
  }

  /** Two texts after each other, of which the first is known only up to its first NUL. */
  lemma UptoJoin(a: seq<Byte>, a': seq<Byte>, b: seq<Byte>, b': seq<Byte>)
    requires |a| == |a'| && Upto(a) == Upto(a') && Upto(b) == Upto(b')
    ensures Upto(a + b) == Upto(a' + b')
  {
    hide Upto;
    UptoSum(a, b);
    UptoSum(a', b');
    if |Upto(a)| == |a| {
      UptoWhole(a);
      UptoWhole(a');
    }
  }

  lemma {:induction false} UptoSum(a: seq<Byte>, b: seq<Byte>)
    ensures Upto(a + b) == if |Upto(a)| == |a| then a + Upto(b) else Upto(a)
  {
    UptoFacts(a);
    if a == [] {
      assert a + b == b;
    } else if a[0] != NUL {
      assert (a + b)[1..] == a[1..] + b;
      UptoSum(a[1..], b);
      UptoFacts(a[1..]);
      if |Upto(a[1..])| == |a[1..]| { assert a + Upto(b) == [a[0]] + (a[1..] + Upto(b)); }
    }
  }

  // ---------- the growing buffer ----------

  class Buffer {
    var data: array?<Byte>
    var used: nat
    var alloc: nat
    ghost var given: seq<Byte>  // all the bytes appended

    /** There is always room for the NUL, and the text is what was appended, as a C string. */
    ghost predicate Valid()
      reads this, data
    {
      if data == null then used == 0 == alloc && given == []
      else
        data.Length == alloc && used + 1 <= alloc && data[used] == NUL && |given| == used
          && Upto(data[..used]) == Upto(given)
    }

    constructor ()
      ensures Valid() && data == null
    {
      data, used, alloc, given := null, 0, 0, [];
    }

    /** The text as a C string; none for a null pointer. */
    method Text() returns (s: Option<seq<Byte>>)
      requires Valid()
      ensures s == if data == null then None else Some(Upto(given))
    {
      if data == null { return None; }
      return Some(Upto(data[..used]));
    }

    /** `data` handed over to the request: the buffer is empty again. */
    method Release()
      modifies this
      ensures Valid() && data == null
    {
      data, used, alloc, given := null, 0, 0, [];
    }

    /** `concat`. */
    method Concat(at: seq<Byte>)
      requires Valid()
      modifies this, data
      ensures Valid() && data != null && (data == old(data) || fresh(data))
      ensures given == old(given) + at
      ensures used + 1 <= alloc
    {
      var length := |at|;
      ghost var before := if data == null then [] else data[..used];
      ghost var copied := before;
      if data == null {
        alloc := length + 1;
        data := new Byte[alloc];
        used := length;
        Strncpy(data, 0, at);
      } else if alloc - used - 1 >= length {
        Strncpy(data, used, at);
        used := used + length;
      } else {
        alloc := used + 2 * length;
        var buf := new Byte[alloc];
        Strcpy(buf, data, used);
        copied := buf[..used];
        Strncpy(buf, used, at);
        data := buf;
        used := used + length;
      }
      data[used] := NUL;
      given := given + at;
      assert data[..used] == copied + Padded(at);
      PaddedText(at);
      UptoJoin(copied, old(given), Padded(at), at);
    }
  }

  /** What strncpy writes: the text, and NULs up to the length. */
  function Padded(at: seq<Byte>): (r: seq<Byte>)
    ensures |r| == |at|
  {
    UptoFacts(at);
    Upto(at) + seq(|at| - |Upto(at)|, i => NUL)
  }

  lemma PaddedText(at: seq<Byte>)
    ensures Upto(Padded(at)) == Upto(at)
  {
    UptoFacts(at);
    assert Padded(at)[..|Upto(at)|] == Upto(at);
    UptoIs(Padded(at), |Upto(at)|);
  }

  /** `was` with the beginning of a text written over it from `off` on. */
  function Over(was: seq<Byte>, off: nat, text: seq<Byte>): (r: seq<Byte>)
    requires off + |text| <= |was|
    ensures |r| == |was|
  {
    was[..off] + text + was[off + |text|..]
  }

  method Strncpy(dst: array<Byte>, off: nat, at: seq<Byte>)
    requires off + |at| <= dst.Length
    modifies dst
    ensures dst[..] == Over(old(dst[..]), off, Padded(at))
  {
    hide Upto, Over, Padded;
    ghost var was := dst[..];
    NothingOver(was, off);
    PaddedFacts(at);
    var i := 0;
    while i < |at|
      invariant i <= |at| && dst[..] == Over(was, off, Padded(at)[..i])
    {
      OneOver(was, off, Padded(at), i);
      dst[off + i] := if i < |Upto(at)| then at[i] else NUL;
      i := i + 1;
    }
    assert Padded(at)[..i] == Padded(at);
  }

  lemma PaddedFacts(at: seq<Byte>)
    ensures |Upto(at)| <= |at| && forall i | 0 <= i < |at| :: Padded(at)[i] == if i < |Upto(at)| then at[i] else NUL
  {
    UptoFacts(at);
  }

  lemma NothingOver(was: seq<Byte>, off: nat)
    requires off <= |was|
    ensures forall text: seq<Byte> | text == [] :: Over(was, off, text) == was
  {
  }

  /** One more byte of a text at its place. */
  lemma OneOver(was: seq<Byte>, off: nat, text: seq<Byte>, i: nat)
    requires i < |text| && off + |text| <= |was|
    ensures Over(was, off, text[..i])[off + i := text[i]] == Over(was, off, text[..i + 1])
  {
  }

  /** strcpy of a text that ends within `n` bytes. */
  method Strcpy(dst: array<Byte>, src: array<Byte>, n: nat)
    requires dst != src && n < dst.Length && n < src.Length && src[n] == NUL
    modifies dst
    ensures Upto(dst[..n]) == Upto(src[..n])
  {
    ghost var text := Upto(src[..n]);
    UptoFacts(src[..n]);
    var i := 0;
    while src[i] != NUL
      invariant i <= |text|
      invariant forall k | 0 <= k < i :: dst[k] == src[k]
      decreases n - i
    {
      dst[i] := src[i];
      i := i + 1;
    }
    dst[i] := NUL;
    assert dst[..n][..i] == text;
    UptoIs(dst[..n], i);
  }

  // ---------- the callbacks ----------

  datatype Stage = InUrl | InName | InValue

  /** The context of the callbacks.  A string is none while its pointer is null, and `header`
      is the header being built, with its name. */
  datatype Ctx = Ctx(
    stage: Stage,
    lastWasValue: bool,
    headersDone: bool,
    header: Option<Option<seq<Byte>>>,
    buffer: Option<seq<Byte>>,
    url: Option<seq<Byte>>,
    headers: seq<(Option<seq<Byte>>, Option<seq<Byte>>)>)

  const EMPTY := Ctx(InUrl, false, false, None, None, None, [])

  function Str(buffer: Option<seq<Byte>>): Option<seq<Byte>> {
    match buffer
    case None => None
    case Some(s) => Some(Upto(s))
  }

  function Added(c: Ctx, at: seq<Byte>): Ctx {
    c.(buffer := Some((if c.buffer.Some? then c.buffer.value else []) + at))
  }

  function OnUrl(c: Ctx, at: seq<Byte>): Ctx { Added(c.(stage := InUrl), at) }

  /** None where the source writes through a null pointer. */
  function OnField(c: Ctx, at: seq<Byte>): Option<Ctx> {
    var c := if c.stage.InUrl? then c.(url := Str(c.buffer), buffer := None) else c;
    var c := c.(stage := InName);
    if c.lastWasValue && c.header.None? then None
    else
      var c := if c.lastWasValue then
          c.(headers := [(c.header.value, Str(c.buffer))] + c.headers, buffer := None, header := None,
             lastWasValue := false)
        else c;
      var c := if c.header.None? then c.(header := Some(None)) else c;
      Some(Added(c, at))
  }

  function OnValue(c: Ctx, at: seq<Byte>): Option<Ctx> {
    if c.lastWasValue then Some(Added(c, at))
    else if c.header.None? then None
    else Some(Added(c.(header := Some(Str(c.buffer)), buffer := None, lastWasValue := true), at))
  }

  function OnHeadersComplete(c: Ctx): Ctx {
    var c := if c.header.Some? then c.(headers := [(c.header.value, Str(c.buffer))] + c.headers, header := None)
             else c.(url := Str(c.buffer));
    c.(buffer := None, headersDone := true)
  }

  function Handle(c: Ctx, e: Event): Option<Ctx> {
    match e
    case Data(Url, at) => Some(OnUrl(c, at))
    case Data(Field, at) => OnField(c, at)
    case Data(Value, at) => OnValue(c, at)
    case Data(Body, _) => Some(c)
    case Notice(HeadersComplete) => Some(OnHeadersComplete(c))
    case Notice(_) => Some(c)
  }

  function HandleAll(es: seq<Event>): Option<Ctx> {
    if es == [] then Some(EMPTY)
    else
      match HandleAll(es[..|es| - 1])
      case None => None
      case Some(c) => Handle(c, es[|es| - 1])
  }

  /** Data in two pieces is handled as in one. */
  lemma HandleTwice(c: Ctx, k: Kind, a: seq<Byte>, b: seq<Byte>)
    ensures match Handle(c, Data(k, a))
      case None => Handle(c, Data(k, a + b)).None?
      case Some(m) => Handle(m, Data(k, b)) == Handle(c, Data(k, a + b))
  {
    if c.buffer.Some? { assert (c.buffer.value + a) + b == c.buffer.value + (a + b); }
    assert ([] + a) + b == [] + (a + b);
  }

  lemma HandlePush(es: seq<Event>, e: Event)
    ensures HandleAll(es + [e]) == match HandleAll(es) case None => None case Some(c) => Handle(c, e)
  {
    assert (es + [e])[..|es|] == es;
  }

  lemma HandlePut(log: seq<Event>, e: Event)
    ensures HandleAll(Put(log, e)) == HandleAll(log + [e])
  {
    hide Handle;
    HandlePush(log, e);
    if Put(log, e) != log + [e] {
      var last := log[|log| - 1];
      HandlePush(log[..|log| - 1], Data(e.kind, last.bytes + e.bytes));
      if HandleAll(log[..|log| - 1]).Some? {
        HandleTwice(HandleAll(log[..|log| - 1]).value, e.kind, last.bytes, e.bytes);
      }
    }
  }

  /** The request built does not depend on how the data was cut into callbacks. */
  lemma {:induction false} HandleMerged(calls: seq<Event>)
    ensures HandleAll(Merged(calls)) == HandleAll(calls)
    decreases |calls|
  {
    hide Handle, Put;
    if calls != [] {
      var init, e := calls[..|calls| - 1], calls[|calls| - 1];
      assert calls == init + [e];
      HandleMerged(init);
      HandlePush(init, e);
      HandlePut(Merged(init), e);
      HandlePush(Merged(init), e);
    }
  }

  class Context {
    var stage: Stage
    var lastWasValue: bool
    var headersDone: bool
    var header: Option<Option<seq<Byte>>>
    var url: Option<seq<Byte>>
    var headers: seq<(Option<seq<Byte>>, Option<seq<Byte>>)>
    const buffer: Buffer

    ghost predicate Valid()
      reads this, buffer, buffer.data
    {
      buffer.Valid()
    }

    ghost function View(): Ctx
      reads this, buffer
    {
      Ctx(stage, lastWasValue, headersDone, header, if buffer.data == null then None else Some(buffer.given), url,
          headers)
    }

    constructor ()
      ensures Valid() && View() == EMPTY && fresh(buffer) && buffer.data == null
    {
      stage, lastWasValue, headersDone, header, url, headers := InUrl, false, false, None, None, [];
      buffer := new Buffer();
    }

    method AddUrl(at: seq<Byte>)
      requires Valid()
      modifies this, buffer, buffer.data
      ensures Valid() && View() == OnUrl(old(View()), at) && (buffer.data == old(buffer.data) || fresh(buffer.data))
    {
      stage := InUrl;
      buffer.Concat(at);
    }

    method AddField(at: seq<Byte>)
      requires Valid() && OnField(View(), at).Some?
      modifies this, buffer, buffer.data
      ensures Valid() && Some(View()) == OnField(old(View()), at)
        && (buffer.data == old(buffer.data) || fresh(buffer.data))
    {
      if stage.InUrl? {
        url := buffer.Text();
        buffer.Release();
      }
      stage := InName;
      if lastWasValue {
        var value := buffer.Text();
        buffer.Release();
        headers := [(header.value, value)] + headers;
        header := None;
        lastWasValue := false;
      }
      if header.None? { header := Some(None); }
      buffer.Concat(at);
    }

    method AddValue(at: seq<Byte>)
      requires Valid() && OnValue(View(), at).Some?
      modifies this, buffer, buffer.data
      ensures Valid() && Some(View()) == OnValue(old(View()), at)
        && (buffer.data == old(buffer.data) || fresh(buffer.data))
    {
      if !lastWasValue {
        var name := buffer.Text();
        header := Some(name);
        buffer.Release();
      }
      lastWasValue := true;
      buffer.Concat(at);
    }

    method CompleteHeaders()
      requires Valid()
      modifies this, buffer
      ensures Valid() && View() == OnHeadersComplete(old(View())) && buffer.data == null
    {
      if header.Some? {
        var value := buffer.Text();
        headers := [(header.value, value)] + headers;
        header := None;
      } else {
        url := buffer.Text();
      }
      buffer.Release();
      headersDone := true;
    }

    /** The callback for an event, unless it would write through a null pointer. */
    method Take(e: Event) returns (ok: bool)
      requires Valid()
      modifies this, buffer, buffer.data
      ensures Valid() && (buffer.data == null || buffer.data == old(buffer.data) || fresh(buffer.data))
      ensures ok <==> Handle(old(View()), e).Some?
      ensures if ok then Some(View()) == Handle(old(View()), e) else View() == old(View())
    {
      ok := true;
      match e
      case Data(Url, at) => AddUrl(at);
      case Data(Field, at) =>
        if lastWasValue && header.None? { return false; }
        AddField(at);
      case Data(Value, at) =>
        if !lastWasValue && header.None? { return false; }
        AddValue(at);
      case Notice(HeadersComplete) => CompleteHeaders();
      case _ =>
    }

    /** The callbacks from the `n`th on. */
    method Follow(calls: seq<Event>, n: nat) returns (ok: bool)
      requires Valid() && n <= |calls| && HandleAll(calls[..n]) == Some(View())
      modifies this, buffer, buffer.data
      ensures Valid() && (buffer.data == null || buffer.data == old(buffer.data) || fresh(buffer.data))
      ensures ok <==> HandleAll(calls).Some?
      ensures ok ==> HandleAll(calls) == Some(View())
    {
      hide HandleAll, Handle;
      var i := n;
      while i < |calls|
        invariant n <= i <= |calls| && Valid() && HandleAll(calls[..i]) == Some(View())
        invariant buffer.data == null || buffer.data == old(buffer.data) || fresh(buffer.data)
      {
        assert calls[..i + 1] == calls[..i] + [calls[i]];
        HandlePush(calls[..i], calls[i]);
        ok := Take(calls[i]);
        if !ok {
          NoneStays(calls, i + 1);
          return;
        }
        i := i + 1;
      }
      assert calls[..i] == calls;
      ok := true;
    }
  }

  /** Nothing handled later mends a null pointer. */
  lemma {:induction false} NoneStays(es: seq<Event>, n: nat)
    requires n <= |es| && HandleAll(es[..n]).None?
    ensures HandleAll(es).None?
    decreases |es|
  {
    hide Handle;
    if n < |es| {
      assert es[..|es| - 1][..n] == es[..n];
      NoneStays(es[..|es| - 1], n);
    } else {
      assert es[..n] == es;
    }
  }

  // ---------- the request that a head builds ----------

  /** The list of headers: the last one first. */
  function Listed(hs: seq<Header>): seq<(Option<seq<Byte>>, Option<seq<Byte>>)> {
    if hs == [] then [] else [(Some(hs[|hs| - 1].name), Some(Upto(Text(hs[|hs| - 1].lines))))] + Listed(hs[..|hs| - 1])
  }

  /** The context after the callbacks of a URL and some headers. */
  function Building(u: seq<Byte>, hs: seq<Header>): Ctx {
    if hs == [] then Ctx(InUrl, false, false, None, Some(u), None, [])
    else
      var last := hs[|hs| - 1];
      Ctx(InName, true, false, Some(Some(last.name)), Some(Text(last.lines)), Some(u), Listed(hs[..|hs| - 1]))
  }

  lemma WholeText(s: seq<Byte>)
    requires NUL !in s
    ensures Upto(s) == s
  {
    assert s[..|s|] == s;
    UptoIs(s, |s|);
  }

  lemma NameText(name: seq<Byte>)
    requires IsName(name)
    ensures Upto(name) == name
  {
    assert Token(NUL) == NUL;
    WholeText(name);
  }

  /** One more header: the one before it goes to the front of the list. */
  lemma HeaderHandled(u: seq<Byte>, hs: seq<Header>, h: Header)
    requires NUL !in u && IsName(h.name)
    ensures match Handle(Building(u, hs), Data(Field, h.name))
      case None => false
      case Some(c) => Handle(c, Data(Value, Text(h.lines))) == Some(Building(u, hs + [h]))
  {
    WholeText(u);
    NameText(h.name);
    assert (hs + [h])[..|hs|] == hs;
    assert [] + h.name == h.name && [] + Text(h.lines) == Text(h.lines);
    hide Upto, IsName, Text;
  }

  lemma {:induction false} HeadersHandled(u: seq<Byte>, hs: seq<Header>)
    requires NUL !in u && forall i | 0 <= i < |hs| :: IsName(hs[i].name)
    ensures HandleAll([Notice(MessageBegin), Data(Url, u)] + HeaderEvents(hs)) == Some(Building(u, hs))
    decreases |hs|
  {
    hide Handle, Building, IsName;
    var start := [Notice(MessageBegin), Data(Url, u)];
    if hs == [] {
      UrlHandled(u);
      assert start + [] == start;
    } else {
      var init, last := hs[..|hs| - 1], hs[|hs| - 1];
      HeadersHandled(u, init);
      var l := start + HeaderEvents(init);
      HeaderHandled(u, init, last);
      assert init + [last] == hs;
      HandlePush(l, Data(Field, last.name));
      HandlePush(l + [Data(Field, last.name)], Data(Value, Text(last.lines)));
      assert start + HeaderEvents(hs) == (l + [Data(Field, last.name)]) + [Data(Value, Text(last.lines))];
    }
  }

  lemma UrlHandled(u: seq<Byte>)
    ensures HandleAll([Notice(MessageBegin), Data(Url, u)]) == Some(Building(u, []))
  {
    HandlePush([], Notice(MessageBegin));
    HandlePush([Notice(MessageBegin)], Data(Url, u));
    assert [] + [Notice(MessageBegin)] == [Notice(MessageBegin)];
    assert [Notice(MessageBegin)] + [Data(Url, u)] == [Notice(MessageBegin), Data(Url, u)];
    assert [] + u == u;
  }

  /** The request a head stands for: its URL, and its headers, the last one first. */
  predicate Stands(c: Ctx, r: Head) {
    c.url == Some(r.line.url) && c.headers == Listed(r.headers) && c.headersDone && c.header.None? && c.buffer.None?
  }

  lemma {:induction false} WalkNoNul(s: State, u: seq<Byte>)
    requires !U.Walk(s, u).Dead?
    ensures NUL !in u
  {
    if u != [] {
      var init, last := u[..|u| - 1], u[|u| - 1];
      LiveStep(U.Walk(s, init), last);
      WalkNoNul(s, init);
      assert u == init + [last];
    }
  }

  lemma LiveStep(s: State, b: Byte)
    requires !UrlChar(s, b).Dead?
    ensures b != NUL && !s.Dead?
  {
  }

  lemma HeadTexts(r: Head)
    requires Proper(r)
    ensures NUL !in r.line.url && forall i | 0 <= i < |r.headers| :: IsName(r.headers[i].name)
  {
    WalkNoNul(UrlStart(r.line.verb), r.line.url);
  }

  lemma BuiltStands(r: Head)
    requires NUL !in r.line.url
    ensures Stands(OnHeadersComplete(Building(r.line.url, r.headers)), r)
  {
    WholeText(r.line.url);
    hide Upto;
  }

  /** The end of the headers, and of the message. */
  lemma EndHandled(l: seq<Event>)
    ensures HandleAll(l + [Notice(HeadersComplete), Notice(MessageComplete)])
      == match HandleAll(l) case None => None case Some(c) => Some(OnHeadersComplete(c))
  {
    hide HandleAll, OnHeadersComplete;
    HandlePush(l, Notice(HeadersComplete));
    HandlePush(l + [Notice(HeadersComplete)], Notice(MessageComplete));
    assert l + [Notice(HeadersComplete), Notice(MessageComplete)]
      == (l + [Notice(HeadersComplete)]) + [Notice(MessageComplete)];
  }

  lemma HeadHandled(r: Head)
    requires Proper(r)
    ensures match HandleAll(HeadLog(r) + [Notice(HeadersComplete), Notice(MessageComplete)])
      case None => false
      case Some(c) => Stands(c, r)
  {
    HeadTexts(r);
    hide Proper, Building, IsName, OnHeadersComplete, Stands;
    HeadersHandled(r.line.url, r.headers);
    EndHandled(HeadLog(r));
    BuiltStands(r);
  }

  /** Whatever the bytes: two ways of reading them lead to callbacks that build the same request,
      or that both write through a null pointer. */
  lemma SameRequest(d: Decision, x: seq<seq<Byte>>, y: seq<seq<Byte>>, xs: seq<Event>, ys: seq<Event>)
    requires Pieces(x) && Pieces(y) && Joined(x) == Joined(y)
    requires Merged(xs) == Calls(d, Init(Request), [], x).log && Merged(ys) == Calls(d, Init(Request), [], y).log
    ensures HandleAll(xs) == HandleAll(ys)
  {
    hide Calls, Merged, HandleAll;
    SameBytesSameCalls(d, Init(Request), [], x, y);
    HandleMerged(xs);
    HandleMerged(ys);
  }
}
