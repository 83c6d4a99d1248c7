/** Requests byte for byte, each read together with what follows it. */
module HttpExamples {
  import opened Options
  import opened HttpTypes
  import opened HttpSwitch
  import opened HttpReference
  import opened HttpNames
  import opened HttpValues
  import opened HttpLine
  import opened HttpHead
  import opened HttpUrlDelivered
  import opened HttpRequest
  import opened HttpSecond

  function Plain(verb: Method, url: seq<Byte>, hs: seq<Header>): Head {
    Head(RequestLine([], verb, 0, url, Written(0, ['1'], ['1']), CrLf), hs, CrLf)
  }

  lemma PlainLine(verb: Method, url: seq<Byte>, hs: seq<Header>)
    requires (url == ['/'] || url == ['/', 'x']) && !verb.CONNECT?
    ensures var l := Plain(verb, url, hs).line;
      ProperLine(l) && Major(l.version) == 1 && Minor(l.version) == 1
  {
    hide MethodName, Small, ValueOf;
    SmallOne('1');
    UrlWalks(url);
  }

  lemma PlainBytes(verb: Method, url: seq<Byte>, hs: seq<Header>)
    ensures LineBytes(Plain(verb, url, hs).line) == MethodName(verb) + " " + url + " HTTP/1.1\r\n"
  {
    hide MethodName, VersionBytes;
    VersionOne();
    assert Spaces(0) == [];
    OneLine(NameBytes(verb), url, " HTTP/1.1", [CR, LF]);
    assert " HTTP/1.1" + [CR, LF] == " HTTP/1.1\r\n";
  }

  lemma VersionOne()
    ensures VersionBytes(Written(0, ['1'], ['1'])) == " HTTP/1.1"
  {
    assert Spaces(0) == [];
  }

  lemma OneLine(name: seq<Byte>, url: seq<Byte>, version: seq<Byte>, eol: seq<Byte>)
    ensures [] + ((name + [' ']) + ([] + (url + (version + eol)))) == name + [' '] + url + (version + eol)
  {
  }

  lemma UrlWalks(url: seq<Byte>)
    requires url == ['/'] || url == ['/', 'x']
    ensures U.Walk(ReqSpacesBeforeUrl, url) == ReqPath
  {
    assert ['/'][..0] == [] && ['/', 'x'][..1] == ['/'];
    assert U.Walk(ReqSpacesBeforeUrl, []) == ReqSpacesBeforeUrl;
    assert U.Walk(ReqSpacesBeforeUrl, ['/']) == ReqPath;
  }

  /** A head whose headers say nothing about the connection. */
  lemma PlainProper(verb: Method, url: seq<Byte>, hs: seq<Header>)
    requires (url == ['/'] || url == ['/', 'x']) && !verb.CONNECT? && |hs| <= 1 && |HeadersBytes(hs)| <= 100
    requires forall h <- hs :: ProperHeader(h)
    ensures Proper(Plain(verb, url, hs))
    ensures Rendered(Plain(verb, url, hs))
      == ((MethodName(verb) + " " + url + " HTTP/1.1\r\n") + HeadersBytes(hs)) + "\r\n"
  {
    hide MethodName, ProperHeader, HeadersBytes, LineBytes, ProperLine;
    PlainLine(verb, url, hs);
    PlainBytes(verb, url, hs);
    NameShort(verb);
  }

  lemma NameShort(verb: Method)
    ensures |MethodName(verb)| <= 11
  {
  }

  lemma PlainKept(verb: Method, url: seq<Byte>, hs: seq<Header>)
    requires (url == ['/'] || url == ['/', 'x']) && !verb.CONNECT?
    requires HeadFrame(hs).flags == NO_FLAGS
    ensures !Upgrades(Plain(verb, url, hs)) && ProperLine(Plain(verb, url, hs).line) && Persistent(Plain(verb, url, hs))
  {
    hide MethodName, LineBytes, ProperLine, HeadFrame;
    PlainLine(verb, url, hs);
  }

  /** `a:b` */
  function Short(): Header { Header(['a'], [Fold([], ['b'], CrLf)]) }

  lemma ShortProper()
    ensures ProperHeader(Short()) && HeadersBytes([Short()]) == "a:b\r\n" && HeadFrame([Short()]).flags == NO_FLAGS
  {
  }

  lemma GetShort()
    ensures var r := Plain(GET, ['/'], [Short()]);
      && Proper(r) && ProperLine(r.line) && !Upgrades(r) && Persistent(r)
      && Rendered(r) == "GET / HTTP/1.1\r\na:b\r\n\r\n"
  {
    hide Rendered, Upgrades, Persistent, Proper, ProperLine, ProperHeader, HeadersBytes, HeadFrame;
    ShortProper();
    PlainProper(GET, ['/'], [Short()]);
    PlainKept(GET, ['/'], [Short()]);
  }

  lemma GetOther()
    ensures var r := Plain(GET, ['/', 'x'], []);
      Proper(r) && ProperLine(r.line) && Rendered(r) == "GET /x HTTP/1.1\r\n\r\n"
  {
    hide Rendered, Proper, ProperLine, ProperHeader, HeadersBytes, HeadFrame;
    NoHeaders();
    PlainProper(GET, ['/', 'x'], []);
    PlainKept(GET, ['/', 'x'], []);
  }

  /** Two requests in one read, each with a header: a null pointer is written through. */
  lemma TwoInOneRead(d: Decision)
    requires forall p :: d(p)
    ensures var bytes := "GET / HTTP/1.1\r\na:b\r\n\r\n"; HandleAll(Run(d, Fresh(), bytes + bytes).log).None?
  {
    hide Run, HandleAll, Rendered, Upgrades, Persistent, Proper, ProperLine;
    GetShort();
    var r := Plain(GET, ['/'], [Short()]);
    SecondHead(d, r, r);
  }

  lemma NoHeaders()
    ensures HeadersBytes([]) == [] && HeadFrame([]).flags == NO_FLAGS
  {
  }

  /** Two requests in one read, the second without headers: the result has its URL, with the header
      of the first. */
  lemma MixedInOneRead(d: Decision)
    requires forall p :: d(p)
    ensures var o := Run(d, Fresh(), "GET / HTTP/1.1\r\na:b\r\n\r\n" + "GET /x HTTP/1.1\r\n\r\n");
      && !o.status.Failed? && HandleAll(o.log).Some?
      && HandleAll(o.log).value.url == Some(['/', 'x'])
      && HandleAll(o.log).value.headers == [(Some(['a']), Some(['b']))]
  {
    hide Run, HandleAll, Rendered, Upgrades, Persistent, Proper, ProperLine, Listed, Stands, LineKept;
    GetShort();
    GetOther();
    var r, s := Plain(GET, ['/'], [Short()]), Plain(GET, ['/', 'x'], []);
    SecondHead(d, r, s);
    MixedRequest(d, r, s);
    ShortListed();
  }

  lemma ShortListed()
    ensures Listed([]) + Listed([Short()]) == [(Some(['a']), Some(['b']))]
  {
    assert Text(Short().lines) == ['b'];
    assert Upto(['b']) == ['b'];
  }

  /** The length of a body of one byte. */
  function LengthOne(): Header { Header("content-length", [Fold([], ['1'], CrLf)]) }

  lemma LengthProper()
    ensures ProperHeader(LengthOne()) && HeadersBytes([LengthOne()]) == "content-length:1\r\n"
      && HeadFrame([LengthOne()]).flags == NO_FLAGS
  {
    LengthName();
    hide IsName, Lowered;
    assert LengthOf(['1']) == Some(1);
  }

  lemma LengthName()
    ensures IsName("content-length") && Lowered("content-length") == CONTENT_LENGTH
  {
  }

  lemma PostBytes()
    ensures ((MethodName(POST) + " " + ['/'] + " HTTP/1.1\r\n") + "content-length:1\r\n") + "\r\n"
      == "POST / HTTP/1.1\r\ncontent-length:1\r\n\r\n"
  {
  }

  lemma PostOne()
    ensures var r := Plain(POST, ['/'], [LengthOne()]);
      && Proper(r) && ProperLine(r.line) && !Upgrades(r) && Persistent(r)
      && Rendered(r) == "POST / HTTP/1.1\r\ncontent-length:1\r\n\r\n"
  {
    hide Rendered, Upgrades, Persistent, Proper, ProperLine, ProperHeader, HeadersBytes, HeadFrame, MethodName;
    LengthProper();
    PostBytes();
    PlainProper(POST, ['/'], [LengthOne()]);
    PlainKept(POST, ['/'], [LengthOne()]);
  }

  /** A request whose body comes in the read that ends its head: it is refused. */
  lemma BodyRefused(d: Decision)
    requires forall p :: d(p)
    ensures Run(d, Fresh(), "POST / HTTP/1.1\r\ncontent-length:1\r\n\r\n" + "1").status.Failed?
  {
    hide Run, HandleAll, Rendered, Upgrades, Persistent, Proper, ProperLine, Stands;
    PostOne();
    RestRefused(d, Plain(POST, ['/'], [LengthOne()]), ['1']);
  }
}
