/** When a parse of a URL succeeds, and with which fields and which port: exactly for the URLs of
    the grammar. */
module HttpUrlExact {
  import opened Options
  import opened HttpTypes
  import opened HttpSwitch
  import opened HttpUrl
  import opened HttpUrlGrammar
  import opened HttpHostGrammar
  import L = HttpLine

  // ---------- the fields but those inside the server ----------

  function SchemaField(t: Target): Parts { With(NOTHING, SCHEMA, 0, |t.schema|) }

  function ServerField(t: Target): Parts { With(SchemaField(t), HOST, |Lead(t)|, |t.server|) }

  function PathField(t: Target): Parts { With(ServerField(t), PATH, |ToServer(t)|, |t.path|) }

  function QueryField(t: Target): Parts {
    if t.query.None? then PathField(t) else With(PathField(t), QUERY, |ToPath(t)| + 1, |t.query.value|)
  }

  /** Each field where its bytes are, if it has any. */
  function FieldsOf(t: Target): Parts { With(QueryField(t), FRAGMENT, |ToHashes(t)|, |t.fragment|) }

  function LastField(t: Target): Option<Field> {
    if t.fragment != [] then Some(FRAGMENT)
    else if t.query.Some? && t.query.value != [] then Some(QUERY)
    else if t.path != [] then Some(PATH)
    else if t.server != [] then Some(HOST)
    else if t.schema != [] then Some(SCHEMA)
    else None
  }

  function ScanOf(t: Target, isConnect: bool): Scan {
    Scan(StateOf(t, isConnect), LastField(t), '@' in t.server, FieldsOf(t))
  }

  /** What the last byte adds. */
  predicate Adds(t: Target, isConnect: bool)
    requires t != EMPTY
  {
    ScanByte(ScanOf(Less(t), isConnect), End(t), |Text(Less(t))|) == Some(ScanOf(t, isConnect))
  }

  lemma StepAdds(t: Target, isConnect: bool)
    requires Fits(t, isConnect) && t != EMPTY && |Text(t)| <= 0xffff
    ensures Adds(t, isConnect)
  {
    hide Adds, Fits, UrlChar, Text;
    LessStep(t, isConnect);
    LessText(t, isConnect);
    if t.fragment != [] {
      FragmentAdds(t, isConnect);
    } else if t.hashes > 0 {
      HashAdds(t, isConnect);
    } else if t.query.Some? {
      QueryAdds(t, isConnect);
    } else if t.path != [] {
      PathAdds(t, isConnect);
    } else if t.server != [] {
      ServerAdds(t, isConnect);
    } else {
      LeadAdds(t, isConnect);
    }
  }

  lemma FragmentAdds(t: Target, isConnect: bool)
    requires t.fragment != [] && Takes(t, isConnect) && |Text(t)| <= 0xffff && |Text(t)| == |Text(Less(t))| + 1
    ensures Adds(t, isConnect)
  {
    hide UrlChar, ToHashes, With, QueryField;
    SameHashes(t, Less(t));
    SameQueryField(t, Less(t));
    Grows(QueryField(t), FRAGMENT, |ToHashes(t)|, |Less(t).fragment|);
  }

  lemma Grows(u: Parts, f: Field, off: nat, n: nat)
    requires off + n + 1 <= 0xffff
    ensures With(u, f, off, n + 1) == if n == 0 then With(u, f, off, n).Open(f, off) else With(u, f, off, n).Grow(f)
  {
    if n == 0 { WithOne(u, f, off); } else { WithMore(u, f, off, n); }
  }

  lemma SameQueryField(t: Target, u: Target)
    requires u == t.(fragment := u.fragment, hashes := u.hashes)
    ensures QueryField(u) == QueryField(t)
  {
  }

  lemma HashAdds(t: Target, isConnect: bool)
    requires t.fragment == [] && t.hashes > 0 && Takes(t, isConnect)
    ensures Adds(t, isConnect)
  {
    hide UrlChar, ToHashes, QueryField;
    SameQueryField(t, Less(t));
  }

  lemma QueryAdds(t: Target, isConnect: bool)
    requires t.fragment == [] && t.hashes == 0 && t.query.Some? && Takes(t, isConnect)
      && |Text(t)| <= 0xffff && |Text(t)| == |Text(Less(t))| + 1
    ensures Adds(t, isConnect)
  {
    hide UrlChar, ToPath, With, PathField, Text;
    NoHashes(t);
    NoHashes(Less(t));
    SamePath(t, Less(t));
    SamePathField(t, Less(t));
    Bare(QueryField(t), FRAGMENT, |ToHashes(t)|);
    Bare(QueryField(Less(t)), FRAGMENT, |ToHashes(Less(t))|);
    if t.query.value == [] {
      Bare(PathField(t), QUERY, |ToPath(t)| + 1);
    } else {
      Grows(PathField(t), QUERY, |ToPath(t)| + 1, |t.query.value| - 1);
    }
  }

  lemma Bare(u: Parts, f: Field, off: nat)
    ensures With(u, f, off, 0) == u
  {
  }

  lemma SamePathField(t: Target, u: Target)
    requires u == t.(query := u.query)
    ensures PathField(u) == PathField(t)
  {
  }

  lemma PathAdds(t: Target, isConnect: bool)
    requires t.fragment == [] && t.hashes == 0 && t.query == None && t.path != [] && Takes(t, isConnect)
      && |Text(t)| <= 0xffff && |Text(t)| == |Text(Less(t))| + 1
    ensures Adds(t, isConnect)
  {
    hide UrlChar, ToServer, With, ServerField, Text;
    NoQuery(t);
    NoQuery(Less(t));
    SameServer(t, Less(t));
    SameServerField(t, Less(t));
    Bare(PathField(t), FRAGMENT, |ToHashes(t)|);
    Bare(PathField(Less(t)), FRAGMENT, |ToHashes(Less(t))|);
    Grows(ServerField(t), PATH, |ToServer(t)|, |t.path| - 1);
  }

  lemma SameServerField(t: Target, u: Target)
    requires u == t.(path := u.path)
    ensures ServerField(u) == ServerField(t)
  {
  }

  lemma ServerAdds(t: Target, isConnect: bool)
    requires t.fragment == [] && t.hashes == 0 && t.query == None && t.path == [] && t.server != []
      && Takes(t, isConnect) && |Text(t)| <= 0xffff && |Text(t)| == |Text(Less(t))| + 1
    ensures Adds(t, isConnect)
  {
    hide UrlChar, Lead, With, SchemaField, Text, StateOf;
    NoPath(t);
    NoPath(Less(t));
    InServer(t.server);
    ServerState(t, isConnect);
    SameLead(t, Less(t));
    Bare(ServerField(t), PATH, |ToServer(t)|);
    Bare(ServerField(Less(t)), PATH, |ToServer(Less(t))|);
    Bare(ServerField(t), FRAGMENT, |ToHashes(t)|);
    Bare(ServerField(Less(t)), FRAGMENT, |ToHashes(Less(t))|);
    Grows(SchemaField(t), HOST, |Lead(t)|, |t.server| - 1);
  }

  lemma InServer(s: seq<Byte>)
    requires s != []
    ensures '@' in s <==> '@' in Front(s) || LastOf(s) == '@'
  {
    FrontLast(s);
  }

  lemma ServerState(t: Target, isConnect: bool)
    requires t.fragment == [] && t.hashes == 0 && t.query == None && t.path == [] && t.server != []
    ensures StateOf(t, isConnect) == if LastOf(t.server) == '@' then ReqServerWithAt else ReqServer
  {
  }

  lemma SameLead(t: Target, u: Target)
    requires u == t.(server := u.server)
    ensures Lead(u) == Lead(t) && SchemaField(u) == SchemaField(t)
  {
  }

  lemma LeadAdds(t: Target, isConnect: bool)
    requires t.fragment == [] && t.hashes == 0 && t.query == None && t.path == [] && t.server == [] && t != EMPTY
    requires Fits(t, isConnect) && Takes(t, isConnect) && |Text(t)| <= 0xffff && |Text(t)| == |Text(Less(t))| + 1
    ensures Adds(t, isConnect)
  {
    hide UrlChar, With, Text;
    NoPath(t);
    NoPath(Less(t));
    LeadFields(t);
    LeadFields(Less(t));
    Bare(NOTHING, SCHEMA, 0);
    if t.marks == 0 { Grows(NOTHING, SCHEMA, 0, |t.schema| - 1); }
  }

  lemma LeadFields(t: Target)
    requires t.fragment == [] && t.query == None && t.path == [] && t.server == []
    ensures FieldsOf(t) == SchemaField(t)
  {
  }

  lemma {:induction false} ScanReached(isConnect: bool, buf: seq<Byte>, t: Target)
    requires Fits(t, isConnect) && |buf| <= 0xffff && Text(t) <= buf
    ensures ScanTo(isConnect, buf, |Text(t)|) == Some(ScanOf(t, isConnect))
    decreases |Text(t)|
  {
    hide Fits, Text, ScanOf, ScanByte;
    if t == EMPTY {
      AtEmpty(isConnect);
      ScanEmpty(isConnect);
    } else {
      LessFits(t, isConnect);
      LessText(t, isConnect);
      StepAdds(t, isConnect);
      ScanReached(isConnect, buf, Less(t));
    }
  }

  lemma ScanEmpty(isConnect: bool)
    ensures ScanOf(EMPTY, isConnect) == Start(isConnect)
  {
    assert HashText(0) == [];
  }

  // ---------- the whole ----------

  /** What is left when the path, the query and the fragment are empty. */
  predicate OnlyServer(t: Target) { t.path == [] && (t.query.Some? ==> t.query.value == []) && t.fragment == [] }

  function PortValue(a: Server): nat
    requires forall c <- a.port :: DigitByte(c)
  {
    Digits(a.port);
    Number(10, Decimals(a.port))
  }

  lemma Digits(ds: seq<Byte>)
    requires forall c <- ds :: DigitByte(c)
    ensures AllDigits(ds)
  {
    forall i | 0 <= i < |ds| ensures IsNum(ds[i]) { assert ds[i] in ds; }
  }

  /** A URL that is accepted: a path with what follows it, or nothing; or a server that is whole, with
      a port of 16 bits, after a schema.  For CONNECT it is a host and a port alone, but for an `@`, a
      `?` and `#`s that stand for nothing. */
  predicate Accepted(t: Target, a: Server, isConnect: bool) {
    && Fits(t, isConnect) && HostFits(a, a.at) && HostText(a) == t.server
    && if t.server == [] then t.schema == [] && !isConnect
       else HostWhole(a) && PortValue(a) <= 0xffff && (isConnect ==> a.user == [] && a.port != [] && OnlyServer(t))
  }

  function ResultFields(t: Target, a: Server): Parts {
    if t.server == [] then FieldsOf(t) else HostFields(FieldsOf(t), |Lead(t)|, a)
  }

  lemma SetOf(t: Target)
    ensures var u := FieldsOf(t);
      && (SCHEMA in u.fieldSet <==> t.schema != []) && (HOST in u.fieldSet <==> t.server != [])
      && (PATH in u.fieldSet <==> t.path != []) && (FRAGMENT in u.fieldSet <==> t.fragment != [])
      && (QUERY in u.fieldSet <==> t.query.Some? && t.query.value != [])
      && PORT !in u.fieldSet && USERINFO !in u.fieldSet
      && u.At(HOST) == (if t.server == [] then Span(0, 0) else Span(|Lead(t)|, |t.server|))
      && u.At(PORT) == Span(0, 0)
  {
    hide Lead, ToServer, ToPath, ToHashes;
  }

  lemma SplitSet(u: Parts, h: nat, a: Server)
    requires PORT !in u.fieldSet && USERINFO !in u.fieldSet
    ensures var v := HostFields(u, h, a);
      && (PORT in v.fieldSet <==> a.port != []) && (USERINFO in v.fieldSet <==> a.user != [])
      && (forall f <- {SCHEMA, HOST, PATH, QUERY, FRAGMENT} :: f in v.fieldSet <==> f in u.fieldSet)
      && (a.port != [] ==> v.At(PORT) == Span(h + |ToPort(a)|, |a.port|))
  {
    hide ToPort, ToName;
  }

  lemma HostAndPort(s: set<Field>)
    ensures s == {HOST, PORT} <==> HOST in s && PORT in s && s !! {SCHEMA, USERINFO, PATH, QUERY, FRAGMENT}
  {
    if HOST in s && PORT in s && s !! {SCHEMA, USERINFO, PATH, QUERY, FRAGMENT} {
      forall f: Field ensures f in s <==> f in {HOST, PORT} {
        match f
        case SCHEMA => assert f !in s;
        case HOST =>
        case PORT =>
        case PATH => assert f !in s;
        case QUERY => assert f !in s;
        case FRAGMENT => assert f !in s;
        case USERINFO => assert f !in s;
      }
    }
  }

  lemma TextParts(t: Target)
    ensures ToServer(t) <= Text(t) && Lead(t) + t.server == ToServer(t)
    ensures |ToServer(t)| < |Text(t)| && t.query == None && t.path == [] ==> t.hashes > 0 || t.fragment != []
    ensures t.path != [] ==> |ToServer(t)| < |Text(t)| && Text(t)[|ToServer(t)|] == t.path[0]
    ensures t.path == [] && t.query.Some? ==> |ToServer(t)| < |Text(t)| && Text(t)[|ToServer(t)|] == '?'
  {
    hide Lead;
  }

  /** What follows a server begins with no digit. */
  lemma AfterServer(t: Target, isConnect: bool)
    requires Fits(t, isConnect) && t.server != [] && |ToServer(t)| < |Text(t)|
    ensures !IsNum(Text(t)[|ToServer(t)|])
  {
    hide Text, ToServer, PathByte, QueryByte, ServerByte;
    TextParts(t);
    if t.path != [] { SlashOrStar(t, isConnect); }
  }

  lemma SlashOrStar(t: Target, isConnect: bool)
    requires PathFits(t, isConnect) && t.path != []
    ensures t.path[0] == '/' || t.path[0] == '*'
  {
    hide PathByte;
    Classes(t.path[0]);
  }

  lemma {:induction false} DigitsTo(buf: seq<Byte>, i: nat, e: nat)
    requires i <= e <= |buf| && (forall k | i <= k < e :: IsNum(buf[k])) && (e < |buf| ==> !IsNum(buf[e]))
    ensures DigitsEnd(buf, i) == e
    decreases e - i
  {
    if i < e { DigitsTo(buf, i + 1, e); }
  }

  lemma PortDigits(a: Server)
    requires forall c <- a.port :: DigitByte(c)
    ensures AllDigits(a.port) && HostText(a) == ToPort(a) + a.port
  {
    Digits(a.port);
  }

  /** The digits of the port are read to their end. */
  lemma PortRead(t: Target, a: Server, isConnect: bool)
    requires Fits(t, isConnect) && t.server != [] && HostText(a) == t.server && a.port != []
    requires forall c <- a.port :: DigitByte(c)
    ensures var p := |Lead(t)| + |ToPort(a)|;
      p <= |Text(t)| && Strtoul(Text(t), p) == if PortValue(a) > ULLONG_MAX then ULLONG_MAX else PortValue(a)
  {
    hide Text, ToServer, Lead, ToPort, Fits, HostText;
    TextParts(t);
    PortDigits(a);
    var buf, p, e := Text(t), |Lead(t)| + |ToPort(a)|, |ToServer(t)|;
    assert ToServer(t) == (Lead(t) + ToPort(a)) + a.port;
    assert buf[p..e] == a.port by { assert buf[..e] == ToServer(t); }
    forall k | p <= k < e ensures IsNum(buf[k]) { assert buf[k] == buf[p..e][k - p]; }
    if e < |buf| { AfterServer(t, isConnect); }
    DigitsTo(buf, p, e);
  }

  /** The last tests, on a server that has been split. */
  lemma FinishedOn(t: Target, a: Server, isConnect: bool)
    requires Fits(t, isConnect) && t.server != [] && HostText(a) == t.server && forall c <- a.port :: DigitByte(c)
    ensures var v := HostFields(FieldsOf(t), |Lead(t)|, a);
      && v.At(PORT).off <= |Text(t)|
      && Finished(v, Text(t), isConnect) ==
        if isConnect && !(a.user == [] && a.port != [] && OnlyServer(t)) then Bad(BadConnect)
        else if PortValue(a) > 0xffff then Bad(BadPort) else Good(v, PortValue(a))
  {
    hide Text, Lead, ToPort, HostText, HostFields, FieldsOf, ServerByte, PathByte, QueryByte, Strtoul;
    SetOf(t);
    SplitSet(FieldsOf(t), |Lead(t)|, a);
    var v := HostFields(FieldsOf(t), |Lead(t)|, a);
    HostAndPort(v.fieldSet);
    if a.port == [] {
      NoPort(t, a);
    } else {
      PortRead(t, a, isConnect);
    }
  }

  lemma NoPort(t: Target, a: Server)
    requires a.port == []
    ensures HostFields(FieldsOf(t), |Lead(t)|, a).At(PORT) == Span(0, 0) && PortValue(a) == 0
  {
    hide Lead, ToName, ToPort, FieldsOf;
    SetOf(t);
    assert Decimals([]) == [];
  }

  /** The parse of the bytes of a URL, up to the split of its server. */
  lemma Scanned(t: Target, isConnect: bool)
    requires Fits(t, isConnect) && |Text(t)| <= 0xffff
    ensures var u := FieldsOf(t);
      && u.End(HOST) <= |Text(t)| && u.At(PORT).off <= |Text(t)|
      && ParseUrl(Text(t), isConnect) == (
        if t.server == [] then
          if t.schema != [] then Bad(BadHost) else if isConnect then Bad(BadConnect) else Good(u, 0)
        else
          match HostParsed(u, '@' in t.server, Text(t))
          case None => Bad(BadHost)
          case Some(v) => if v.At(PORT).off <= |Text(t)| then Finished(v, Text(t), isConnect) else Bad(BadPort))
  {
    hide Fits, Text, FieldsOf, StateOf, LastField, ScanTo, HostTo, Strtoul;
    var buf := Text(t);
    ScanReached(isConnect, buf, t);
    ScanWithin(isConnect, buf, |buf|);
    SetOf(t);
    assert FieldsOf(t).End(HOST) <= |buf|;
    PortInside(FieldsOf(t), '@' in t.server, buf);
    if t.server == [] {
      if t.schema != [] { NoServer(t, buf); }
      HostAndPort(FieldsOf(t).fieldSet);
    }
  }

  /** A schema without a server is refused. */
  lemma NoServer(t: Target, buf: seq<Byte>)
    requires t.server == [] && FieldsOf(t).At(HOST) == Span(0, 0)
    ensures HostParsed(FieldsOf(t), '@' in t.server, buf).None?
  {
    hide FieldsOf;
  }

  /** The `@` of a server is found in it. */
  lemma AtFound(a: Server, foundAt: bool)
    requires HostFits(a, foundAt) && HostWhole(a)
    ensures a.at == foundAt && ('@' in HostText(a) <==> a.at)
  {
    hide UserByte, NameByte, AddressByte;
    forall c | c in a.user || c in a.name || c in a.port ensures c != '@' {
      NotDelimiter(c);
      HostClasses(c);
    }
    assert a.at ==> HostText(a)[|a.user|] == '@';
  }

  lemma ServerAt(t: Target, buf: seq<Byte>)
    requires buf == Text(t) && t.server != [] && |buf| <= 0xffff
    ensures var u := FieldsOf(t);
      u.At(HOST) == Span(|Lead(t)|, |t.server|) && u.End(HOST) <= |buf|
        && buf[u.At(HOST).off..u.End(HOST)] == t.server
  {
    hide Text, FieldsOf, Lead, ToServer;
    SetOf(t);
    TextParts(t);
    assert buf[..|ToServer(t)|] == ToServer(t);
  }

  /** A URL of the grammar is parsed into its fields. */
  lemma ParseAccepts(t: Target, a: Server, isConnect: bool)
    requires Accepted(t, a, isConnect) && |Text(t)| <= 0xffff
    ensures ParseUrl(Text(t), isConnect) == Good(ResultFields(t, a), PortValue(a))
  {
    hide Fits, HostFits, HostWhole, HostText, Text, FieldsOf, HostFields, Lead, ToPort, ParseUrl, Finished, HostParsed;
    Scanned(t, isConnect);
    FitsDigits(a, a.at);
    if t.server == [] {
      EmptyServer(a);
    } else {
      AtFound(a, a.at);
      ServerAt(t, Text(t));
      SplitExactly(FieldsOf(t), a.at, Text(t), ResultFields(t, a));
      FinishedOn(t, a, isConnect);
    }
  }

  lemma FitsDigits(a: Server, foundAt: bool)
    requires HostFits(a, foundAt)
    ensures forall c <- a.port :: DigitByte(c)
  {
  }

  lemma EmptyServer(a: Server)
    requires HostText(a) == [] && HostFits(a, a.at)
    ensures PortValue(a) == 0
  {
    assert Decimals([]) == [];
  }

  /** What is parsed is a URL of the grammar. */
  lemma ParseAccepted(buf: seq<Byte>, isConnect: bool) returns (t: Target, a: Server)
    requires |buf| <= 0xffff && ParseUrl(buf, isConnect).Good?
    ensures Accepted(t, a, isConnect) && Text(t) == buf
      && ParseUrl(buf, isConnect) == Good(ResultFields(t, a), PortValue(a))
  {
    hide Fits, HostFits, HostWhole, HostText, Text, FieldsOf, HostFields, Lead, ToPort, Finished, HostParsed, Walk,
      ScanTo;
    ScanFollowsWalk(isConnect, buf, |buf|);
    assert buf[..|buf|] == buf;
    t := Read(buf, isConnect);
    hide ParseUrl;
    Scanned(t, isConnect);
    if t.server == [] {
      a := NO_SERVER;
      AtNoServer(FieldsOf(t), false);
      EmptyServer(a);
    } else {
      ServerAt(t, buf);
      var foundAt := '@' in t.server;
      var v := HostParsed(FieldsOf(t), foundAt, buf).value;
      SplitExactly(FieldsOf(t), foundAt, buf, v);
      a :| HostFits(a, foundAt) && HostWhole(a) && HostText(a) == t.server
        && v == HostFields(FieldsOf(t), |Lead(t)|, a);
      AtFound(a, foundAt);
      FitsDigits(a, a.at);
      FinishedOn(t, a, isConnect);
    }
  }

  /** At most 65535 bytes are parsed exactly if they are a URL of the grammar, into its fields and its
      port. */
  lemma ParsedExactly(buf: seq<Byte>, isConnect: bool, u: Parts, port: nat)
    requires |buf| <= 0xffff
    ensures ParseUrl(buf, isConnect) == Good(u, port) <==>
      exists t, a :: Accepted(t, a, isConnect) && Text(t) == buf && u == ResultFields(t, a) && port == PortValue(a)
  {
    hide Fits, HostWhole, HostText, Text, ResultFields, ParseUrl, OnlyServer;
    if t, a :| Accepted(t, a, isConnect) && Text(t) == buf && u == ResultFields(t, a) && port == PortValue(a) {
      ParseAccepts(t, a, isConnect);
    }
    if ParseUrl(buf, isConnect) == Good(u, port) {
      var t, a := ParseAccepted(buf, isConnect);
    }
  }

  /** The URLs that a request line may have. */
  lemma LineExactly(l: L.RequestLine)
    ensures L.ProperLine(l) <==>
      && (forall i | 0 <= i < |l.before| :: l.before[i] == CR || l.before[i] == LF) && L.ProperVersion(l.version)
      && exists t :: Fits(t, l.verb.CONNECT?) && Text(t) == l.url && MayEnd(t)
  {
    hide Fits, Text, Walk, L.ProperVersion;
    TakenExactly(l.url, l.verb.CONNECT?);
  }

  // ---------- some URLs ----------

  const STAR := EMPTY.(path := ['*'])

  lemma StarFits()
    ensures Fits(STAR, false) && MayEnd(STAR) && Text(STAR) == "*"
    ensures ResultFields(STAR, NO_SERVER) == Parts({PATH}, map[PATH := Span(0, 1)])
  {
    assert HashText(0) == [];
    Classes('*');
  }

  /** The target of a request to the server as a whole. */
  lemma Star()
    ensures ParseUrl("*", false) == Good(Parts({PATH}, map[PATH := Span(0, 1)]), 0)
    ensures L.ProperLine(L.RequestLine([], OPTIONS, 0, "*", L.Implied, L.CrLf))
  {
    hide ParseUrl, Fits, Text, L.ProperLine, ResultFields, HostFits;
    StarFits();
    AtNoServer(NOTHING, false);
    EmptyServer(NO_SERVER);
    ParseAccepts(STAR, NO_SERVER, false);
    LineExactly(L.RequestLine([], OPTIONS, 0, "*", L.Implied, L.CrLf));
  }

  const NAMED := EMPTY.(server := "example.com:443")
  const EXAMPLE := NO_SERVER.(name := "example.com", colon := true, port := "443")

  lemma Number443()
    ensures AllDigits("443") && Number(10, Decimals("443")) == 443
  {
    var d := Decimals("443");
    assert d == [4, 4, 3] && d[..2] == [4, 4] && [4, 4][..1] == [4] && [4][..0] == [];
    assert Number(10, [4, 4]) == 44;
  }

  /** The target of a CONNECT. */
  lemma NameAndPort()
    ensures ParseUrl("example.com:443", true)
      == Good(Parts({HOST, PORT}, map[HOST := Span(0, 11), PORT := Span(12, 3)]), 443)
    ensures L.ProperLine(L.RequestLine([], CONNECT, 0, "example.com:443", L.Implied, L.CrLf))
  {
    hide ParseUrl, Fits, HostFits, Text, HostText, L.ProperLine, ResultFields;
    NamedTarget();
    NamedServer();
    NamedFields();
    Number443();
    ParseAccepts(NAMED, EXAMPLE, true);
    LineExactly(L.RequestLine([], CONNECT, 0, "example.com:443", L.Implied, L.CrLf));
  }

  lemma NamedTarget()
    ensures Fits(NAMED, true) && Text(NAMED) == "example.com:443"
  {
    NamedBytes();
    hide ServerByte;
    assert HashText(0) == [];
  }

  lemma NamedBytes()
    ensures forall c <- NAMED.server :: ServerByte(c) && c != '@'
  {
    hide UserByte, HashText;
    forall c <- NAMED.server ensures ServerByte(c) && c != '@' {
      assert NameByte(c) || c == ':';
      ColonIsUser();
      NameIsUser(c);
    }
  }

  lemma ColonIsUser()
    ensures UserByte(':')
  {
    assert "-_.!~*'()%;:&=+$,"[11] == ':';
  }

  lemma NamedServer()
    ensures HostFits(EXAMPLE, false) && HostText(EXAMPLE) == "example.com:443" && HostWhole(EXAMPLE)
  {
  }

  lemma NamedFields()
    ensures ResultFields(NAMED, EXAMPLE) == Parts({HOST, PORT}, map[HOST := Span(0, 11), PORT := Span(12, 3)])
  {
  }
}
