/** The servers that `http_parse_host` takes, as a grammar: user information and `@`, a name or an
    address in brackets, a colon and the digits of a port. */
module HttpHostGrammar {
  import opened Options
  import opened HttpTypes
  import opened HttpUrl
  import opened HttpUrlGrammar

  predicate NameByte(c: Byte) { Letter(c) || DigitByte(c) || c == '.' || c == '-' }

  predicate HexByte(c: Byte) { DigitByte(c) || 'a' <= c <= 'f' || 'A' <= c <= 'F' }

  predicate AddressByte(c: Byte) { HexByte(c) || c == ':' || c == '.' }

  lemma HostClasses(c: Byte)
    ensures IsHostChar(c) <==> NameByte(c)
    ensures IsHex(c) <==> HexByte(c)
    ensures IsNum(c) <==> DigitByte(c)
    ensures IsUserInfoChar(c) <==> UserByte(c)
    ensures UserByte(c) || AddressByte(c) || NameByte(c) ==> c !in "@[]"
    ensures NameByte(c) || DigitByte(c) ==> UserByte(c)
  {
    hide UserByte;
    Classes(c);
    assert c in "@[]" <==> c == '@' || c == '[' || c == ']';
    assert c in "/?#@[]" <==> c == '@' || c == '[' || c == ']' || c == '/' || c == '?' || c == '#';
    NameIsUser(c);
  }

  lemma NameIsUser(c: Byte)
    ensures NameByte(c) || DigitByte(c) ==> UserByte(c)
  {
    var s := "-_.!~*'()%;:&=+$,";
    assert s[0] == '-' && s[2] == '.';
  }

  /** The beginning of a server, or a whole one: whether the `@` has been read, a bracket was opened
      and closed, and the colon has been read. */
  datatype Server =
    Server(user: seq<Byte>, at: bool, open: bool, name: seq<Byte>, closed: bool, colon: bool, port: seq<Byte>)

  const NO_SERVER := Server([], false, false, [], false, false, [])

  function If(b: bool, c: Byte): seq<Byte> { if b then [c] else [] }

  function UserText(a: Server): seq<Byte> { a.user + If(a.at, '@') }

  function ToName(a: Server): seq<Byte> { UserText(a) + If(a.open, '[') }

  function NameText(a: Server): seq<Byte> { ToName(a) + a.name }

  function ToPort(a: Server): seq<Byte> { (NameText(a) + If(a.closed, ']')) + If(a.colon, ':') }

  function HostText(a: Server): seq<Byte> { ToPort(a) + a.port }

  /** The host proper is expected. */
  predicate Named(a: Server, foundAt: bool) { !foundAt || a.at }

  predicate HostFits(a: Server, foundAt: bool) {
    && (forall c <- a.user :: UserByte(c)) && (!foundAt ==> a.user == [] && !a.at)
    && (a.open || a.name != [] ==> Named(a, foundAt))
    && (forall c <- a.name :: if a.open then AddressByte(c) else NameByte(c))
    && (a.closed ==> a.open && a.name != [])
    && (a.colon ==> a.name != [] && (a.open ==> a.closed))
    && (a.port != [] ==> a.colon) && forall c <- a.port :: DigitByte(c)
  }

  /** The server is whole. */
  predicate HostWhole(a: Server) { a.name != [] && (a.open ==> a.closed) && (a.colon ==> a.port != []) }

  function HostStateOf(a: Server, foundAt: bool): HostState {
    if a.port != [] then InPort
    else if a.colon then PortStart
    else if a.closed then V6End
    else if a.name != [] then if a.open then V6 else PlainHost
    else if a.open then V6Start
    else if Named(a, foundAt) then HostStart
    else if a.user != [] then UserInfo
    else UserInfoStart
  }

  lemma WholeStates(a: Server, foundAt: bool)
    requires HostFits(a, foundAt)
    ensures HostStateOf(a, foundAt) != HDead && (HostMayEnd(HostStateOf(a, foundAt)) <==> HostWhole(a))
  {
  }

  // ---------- the last byte ----------

  function HostLess(a: Server): Server
    requires a != NO_SERVER
  {
    if a.port != [] then a.(port := Front(a.port))
    else if a.colon then a.(colon := false)
    else if a.closed then a.(closed := false)
    else if a.name != [] then a.(name := Front(a.name))
    else if a.open then a.(open := false)
    else if a.at then a.(at := false)
    else if a.user != [] then a.(user := Front(a.user))
    else a
  }

  function HostEnd(a: Server): Byte
    requires a != NO_SERVER
  {
    if a.port != [] then LastOf(a.port)
    else if a.colon then ':'
    else if a.closed then ']'
    else if a.name != [] then LastOf(a.name)
    else if a.open then '['
    else if a.at then '@'
    else if a.user != [] then LastOf(a.user)
    else '@'
  }

  lemma HostLessFits(a: Server, foundAt: bool)
    requires HostFits(a, foundAt) && a != NO_SERVER
    ensures HostFits(HostLess(a), foundAt)
  {
    hide UserByte, AddressByte, NameByte;
  }

  lemma HostLessText(a: Server, foundAt: bool)
    requires HostFits(a, foundAt) && a != NO_SERVER
    ensures HostText(a) == HostText(HostLess(a)) + [HostEnd(a)]
  {
    hide HostText, ToPort, NameText, ToName, UserText;
    if a.port != [] {
      LessPort(a);
    } else if a.colon || a.closed {
      LessMarks(a);
    } else if a.name != [] {
      LessName(a);
    } else {
      LessUser(a, foundAt);
    }
  }

  lemma LessPort(a: Server)
    requires a.port != []
    ensures HostText(a) == HostText(HostLess(a)) + [HostEnd(a)]
  {
    hide ToPort;
    FrontLast(a.port);
    Joined(ToPort(a), Front(a.port), LastOf(a.port));
    SameToPort(a, HostLess(a));
  }

  lemma SameToPort(a: Server, b: Server)
    requires b == a.(port := b.port)
    ensures ToPort(b) == ToPort(a)
  {
  }

  lemma LessMarks(a: Server)
    requires a.port == [] && (a.colon || a.closed)
    ensures HostText(a) == HostText(HostLess(a)) + [HostEnd(a)]
  {
    hide NameText;
    SameNameText(a, HostLess(a));
    Nothing(ToPort(a));
    Nothing(ToPort(HostLess(a)));
    Nothing(NameText(a) + If(a.closed, ']'));
    Nothing(NameText(a));
  }

  lemma SameNameText(a: Server, b: Server)
    requires b == a.(colon := b.colon, closed := b.closed)
    ensures NameText(b) == NameText(a)
  {
  }

  lemma NoMarks(a: Server)
    requires a.port == [] && !a.colon && !a.closed
    ensures HostText(a) == NameText(a)
  {
    hide NameText;
    Nothing(NameText(a));
    Nothing(NameText(a) + []);
    Nothing(ToPort(a));
  }

  lemma LessName(a: Server)
    requires a.port == [] && !a.colon && !a.closed && a.name != []
    ensures HostText(a) == HostText(HostLess(a)) + [HostEnd(a)]
  {
    hide HostText, ToName;
    NoMarks(a);
    NoMarks(HostLess(a));
    FrontLast(a.name);
    Joined(ToName(a), Front(a.name), LastOf(a.name));
    SameToName(a, HostLess(a));
  }

  lemma SameToName(a: Server, b: Server)
    requires b == a.(name := b.name)
    ensures ToName(b) == ToName(a)
  {
  }

  lemma LessUser(a: Server, foundAt: bool)
    requires HostFits(a, foundAt) && a != NO_SERVER && a.port == [] && !a.colon && !a.closed && a.name == []
    ensures HostText(a) == HostText(HostLess(a)) + [HostEnd(a)]
  {
    hide HostText, UserByte;
    NoMarks(a);
    NoMarks(HostLess(a));
    FrontLast(a.user);
    Nothing(ToName(a));
    Nothing(ToName(HostLess(a)));
    Nothing(UserText(a));
    Nothing(a.user);
  }

  // ---------- the automaton, by the classes of the grammar ----------

  lemma HostSteps(s: HostState, ch: Byte)
    ensures s.UserInfo? || s.UserInfoStart? ==>
      HostChar(s, ch) == if ch == '@' then HostStart else if UserByte(ch) then UserInfo else HDead
    ensures s.HostStart? ==>
      HostChar(s, ch) == if ch == '[' then V6Start else if NameByte(ch) then PlainHost else HDead
    ensures s.PlainHost? ==>
      HostChar(s, ch) == if NameByte(ch) then PlainHost else if ch == ':' then PortStart else HDead
    ensures s.V6End? ==> HostChar(s, ch) == if ch == ':' then PortStart else HDead
    ensures s.V6? ==> HostChar(s, ch) == if ch == ']' then V6End else if AddressByte(ch) then V6 else HDead
    ensures s.V6Start? ==> HostChar(s, ch) == if AddressByte(ch) then V6 else HDead
    ensures s.InPort? || s.PortStart? ==> HostChar(s, ch) == if DigitByte(ch) then InPort else HDead
  {
    hide IsHostChar, IsHex, IsNum, IsUserInfoChar, UserByte, NameByte, HexByte;
    HostClasses(ch);
  }

  lemma HostLessStep(a: Server, foundAt: bool)
    requires HostFits(a, foundAt) && a != NO_SERVER
    ensures HostChar(HostStateOf(HostLess(a), foundAt), HostEnd(a)) == HostStateOf(a, foundAt)
  {
    hide HostChar, UserByte, NameByte, AddressByte;
    FrontLast(a.port);
    FrontLast(a.name);
    FrontLast(a.user);
    NotDelimiter(HostEnd(a));
    HostSteps(HostStateOf(HostLess(a), foundAt), HostEnd(a));
  }

  lemma NotDelimiter(c: Byte)
    ensures UserByte(c) || AddressByte(c) || NameByte(c) ==> c != '@' && c != '[' && c != ']'
    ensures NameByte(c) ==> c != ':'
  {
    hide UserByte;
    HostClasses(c);
    assert c in "@[]" <==> c == '@' || c == '[' || c == ']';
  }

  /** One more byte that the automaton takes. */
  lemma HostMore(a: Server, foundAt: bool, ch: Byte) returns (b: Server)
    requires HostFits(a, foundAt) && HostChar(HostStateOf(a, foundAt), ch) != HDead
    ensures HostFits(b, foundAt) && b != NO_SERVER && HostLess(b) == a && HostEnd(b) == ch
  {
    hide HostChar, HostFits;
    if a.port != [] || a.colon {
      b := MorePort(a, foundAt, ch);
    } else if a.name != [] {
      b := MoreName(a, foundAt, ch);
    } else if a.open {
      b := FirstName(a, foundAt, ch);
    } else if Named(a, foundAt) {
      b := MoreStart(a, foundAt, ch);
    } else {
      b := MoreUser(a, foundAt, ch);
    }
  }

  lemma MorePort(a: Server, foundAt: bool, ch: Byte) returns (b: Server)
    requires HostFits(a, foundAt) && HostChar(HostStateOf(a, foundAt), ch) != HDead && (a.port != [] || a.colon)
    ensures HostFits(b, foundAt) && b != NO_SERVER && HostLess(b) == a && HostEnd(b) == ch
  {
    hide HostChar, UserByte, NameByte, AddressByte;
    HostSteps(HostStateOf(a, foundAt), ch);
    Pushed(a.port, ch);
    b := a.(port := a.port + [ch]);
  }

  lemma MoreName(a: Server, foundAt: bool, ch: Byte) returns (b: Server)
    requires HostFits(a, foundAt) && HostChar(HostStateOf(a, foundAt), ch) != HDead
      && a.port == [] && !a.colon && a.name != []
    ensures HostFits(b, foundAt) && b != NO_SERVER && HostLess(b) == a && HostEnd(b) == ch
  {
    hide HostChar, UserByte, NameByte, AddressByte;
    HostSteps(HostStateOf(a, foundAt), ch);
    NotDelimiter(ch);
    Pushed(a.name, ch);
    b := if a.closed || (!a.open && ch == ':') then a.(colon := true)
      else if ch == ']' then a.(closed := true) else a.(name := a.name + [ch]);
  }

  lemma FirstName(a: Server, foundAt: bool, ch: Byte) returns (b: Server)
    requires HostFits(a, foundAt) && HostChar(HostStateOf(a, foundAt), ch) != HDead
      && a.port == [] && !a.colon && a.name == [] && a.open
    ensures HostFits(b, foundAt) && b != NO_SERVER && HostLess(b) == a && HostEnd(b) == ch
  {
    hide HostChar, UserByte, NameByte, AddressByte;
    HostSteps(HostStateOf(a, foundAt), ch);
    b := a.(name := [ch]);
    assert Front([ch]) == [];
  }

  lemma MoreStart(a: Server, foundAt: bool, ch: Byte) returns (b: Server)
    requires HostFits(a, foundAt) && HostChar(HostStateOf(a, foundAt), ch) != HDead
      && a.port == [] && !a.colon && a.name == [] && !a.open && Named(a, foundAt)
    ensures HostFits(b, foundAt) && b != NO_SERVER && HostLess(b) == a && HostEnd(b) == ch
  {
    hide HostChar, UserByte, NameByte, AddressByte;
    HostSteps(HostStateOf(a, foundAt), ch);
    assert Front([ch]) == [];
    b := if ch == '[' then a.(open := true) else a.(name := [ch]);
  }

  lemma MoreUser(a: Server, foundAt: bool, ch: Byte) returns (b: Server)
    requires HostFits(a, foundAt) && HostChar(HostStateOf(a, foundAt), ch) != HDead
      && a.port == [] && !a.colon && a.name == [] && !a.open && !Named(a, foundAt)
    ensures HostFits(b, foundAt) && b != NO_SERVER && HostLess(b) == a && HostEnd(b) == ch
  {
    hide HostChar, UserByte, NameByte, AddressByte;
    HostSteps(HostStateOf(a, foundAt), ch);
    NotDelimiter(ch);
    Pushed(a.user, ch);
    b := if ch == '@' then a.(at := true) else a.(user := a.user + [ch]);
  }

  // ---------- exactly these servers ----------

  /** A field of `len` bytes at `off`, if it has any. */
  function With(u: Parts, f: Field, off: nat, len: nat): Parts {
    if len == 0 then u else Parts(u.fieldSet + {f}, u.fieldData[f := Span(off, len)])
  }

  lemma WithOne(u: Parts, f: Field, off: nat)
    requires off <= 0xffff
    ensures With(u, f, off, 1) == u.Open(f, off)
  {
  }

  lemma WithMore(u: Parts, f: Field, off: nat, len: nat)
    requires 0 < len < 0xffff
    ensures With(u, f, off, len + 1) == With(u, f, off, len).Grow(f)
  {
    assert u.fieldSet + {f} + {f} == u.fieldSet + {f};
    assert u.fieldData[f := Span(off, len)][f := Span(off, len + 1)] == u.fieldData[f := Span(off, len + 1)];
  }

  /** The place of the host proper, which is set already, once its first byte is read. */
  function NameAt(u: Parts, off: nat, len: nat): Parts {
    Parts(u.fieldSet, u.fieldData[HOST := Span(off, len)])
  }

  /** The fields of a server that begins at `h`. */
  function HostFields(u: Parts, h: nat, a: Server): Parts {
    var name := if a.name == [] then NameAt(u, h, 0) else NameAt(u, h + |ToName(a)|, |a.name|);
    With(With(name, USERINFO, h, |a.user|), PORT, h + |ToPort(a)|, |a.port|)
  }

  function Reached(u: Parts, h: nat, a: Server, foundAt: bool): HostScan {
    HostScan(HostStateOf(a, foundAt), HostFields(u, h, a))
  }

  /** The fields set change with the last byte as the source has it. */
  lemma FieldStep(u: Parts, h: nat, a: Server, foundAt: bool)
    requires HostFits(a, foundAt) && a != NO_SERVER && h + |HostText(a)| <= 0xffff
    ensures HostByte(Reached(u, h, HostLess(a), foundAt), HostEnd(a), h + |HostText(HostLess(a))|)
      == Some(Reached(u, h, a, foundAt))
  {
    hide HostChar, HostFits;
    HostLessStep(a, foundAt);
    HostLessText(a, foundAt);
    if a.port != [] {
      PortFields(u, h, a, foundAt);
    } else if a.colon || a.closed {
      SameFieldsAfter(u, h, a, foundAt);
    } else if a.name != [] {
      NameFields(u, h, a, foundAt);
    } else {
      UserFields(u, h, a, foundAt);
    }
  }

  lemma PortFields(u: Parts, h: nat, a: Server, foundAt: bool)
    requires HostFits(a, foundAt) && a.port != [] && h + |HostText(a)| <= 0xffff
    requires HostChar(HostStateOf(HostLess(a), foundAt), HostEnd(a)) == HostStateOf(a, foundAt)
    ensures HostByte(Reached(u, h, HostLess(a), foundAt), HostEnd(a), h + |HostText(HostLess(a))|)
      == Some(Reached(u, h, a, foundAt))
  {
    hide HostChar, HostFits, ToPort, ToName, With;
    var b := HostLess(a);
    SameToPort(a, b);
    SamePrefix(a, b);
    var name := if a.name == [] then NameAt(u, h, 0) else NameAt(u, h + |ToName(a)|, |a.name|);
    var v, off, n := With(name, USERINFO, h, |a.user|), h + |ToPort(a)|, |b.port|;
    assert HostFields(u, h, a) == With(v, PORT, off, n + 1) && HostFields(u, h, b) == With(v, PORT, off, n);
    if n == 0 {
      WithOne(v, PORT, off);
      WithNone(v, PORT, off);
    } else {
      WithMore(v, PORT, off, n);
    }
  }

  lemma WithNone(u: Parts, f: Field, off: nat)
    ensures With(u, f, off, 0) == u
  {
  }

  lemma SamePrefix(a: Server, b: Server)
    requires b == a.(port := b.port, colon := b.colon, closed := b.closed)
    ensures ToName(b) == ToName(a)
  {
  }

  lemma SameFieldsAfter(u: Parts, h: nat, a: Server, foundAt: bool)
    requires HostFits(a, foundAt) && a.port == [] && (a.colon || a.closed)
    requires HostChar(HostStateOf(HostLess(a), foundAt), HostEnd(a)) == HostStateOf(a, foundAt)
    ensures HostByte(Reached(u, h, HostLess(a), foundAt), HostEnd(a), h + |HostText(HostLess(a))|)
      == Some(Reached(u, h, a, foundAt))
  {
    hide HostChar, UserByte, AddressByte, NameByte, ToPort, ToName;
    SamePrefix(a, HostLess(a));
  }

  lemma NameFields(u: Parts, h: nat, a: Server, foundAt: bool)
    requires HostFits(a, foundAt) && a.port == [] && !a.colon && !a.closed && a.name != []
      && h + |HostText(a)| <= 0xffff
    requires HostChar(HostStateOf(HostLess(a), foundAt), HostEnd(a)) == HostStateOf(a, foundAt)
    ensures HostByte(Reached(u, h, HostLess(a), foundAt), HostEnd(a), h + |HostText(HostLess(a))|)
      == Some(Reached(u, h, a, foundAt))
  {
    hide HostChar, UserByte, AddressByte, NameByte, ToName, HostText;
    var b := HostLess(a);
    NoMarks(a);
    NoMarks(b);
    SameToName(a, b);
    var off := h + |ToName(a)|;
    Renamed(u, h, |a.user|, if b.name == [] then h else off, |b.name|, off, |a.name|);
    Renamed(u, h, |a.user|, h, 0, off, 0);
    Renamed(u, h, |a.user|, off, 0, off, 1);
  }

  lemma Renamed(u: Parts, h: nat, n: nat, off: nat, len: nat, off': nat, len': nat)
    ensures var v := With(NameAt(u, off, len), USERINFO, h, n);
      && v.At(HOST) == Span(off, len) && HOST in v.fieldData
      && Parts(v.fieldSet, v.fieldData[HOST := Span(off', len')]) == With(NameAt(u, off', len'), USERINFO, h, n)
  {
    var d := u.fieldData;
    assert d[HOST := Span(off, len)][HOST := Span(off', len')] == d[HOST := Span(off', len')];
    assert d[HOST := Span(off, len)][USERINFO := Span(h, n)][HOST := Span(off', len')]
      == d[HOST := Span(off', len')][USERINFO := Span(h, n)];
  }

  lemma UserFields(u: Parts, h: nat, a: Server, foundAt: bool)
    requires HostFits(a, foundAt) && a != NO_SERVER && a.port == [] && !a.colon && !a.closed && a.name == []
      && h + |HostText(a)| <= 0xffff
    requires HostChar(HostStateOf(HostLess(a), foundAt), HostEnd(a)) == HostStateOf(a, foundAt)
    ensures HostByte(Reached(u, h, HostLess(a), foundAt), HostEnd(a), h + |HostText(HostLess(a))|)
      == Some(Reached(u, h, a, foundAt))
  {
    hide HostChar, UserByte, AddressByte, NameByte, HostText;
    NoMarks(a);
    NoMarks(HostLess(a));
    var v := NameAt(u, h, 0);
    WithOne(v, USERINFO, h);
    WithNone(v, USERINFO, h);
    if |a.user| > 1 { WithMore(v, USERINFO, h, |a.user| - 1); }
  }

  lemma AtNoServer(u: Parts, foundAt: bool)
    ensures HostText(NO_SERVER) == [] && HostFits(NO_SERVER, foundAt)
    ensures HostStartOf(u, foundAt) == Reached(u, u.At(HOST).off, NO_SERVER, foundAt)
  {
  }

  lemma {:induction false} HostReached(u: Parts, foundAt: bool, buf: seq<Byte>, a: Server)
    requires HostFits(a, foundAt) && |buf| <= 0xffff
    requires var h := u.At(HOST).off; h + |HostText(a)| <= |buf| && buf[h..h + |HostText(a)|] == HostText(a)
    ensures var h := u.At(HOST).off;
      HostTo(u, foundAt, buf, h + |HostText(a)|) == Some(Reached(u, h, a, foundAt))
    decreases |HostText(a)|
  {
    hide HostFits, HostText, Reached, HostByte;
    var h := u.At(HOST).off;
    if a == NO_SERVER {
      AtNoServer(u, foundAt);
    } else {
      HostLessFits(a, foundAt);
      HostLessText(a, foundAt);
      FieldStep(u, h, a, foundAt);
      var n, e := |HostText(HostLess(a))|, h + |HostText(a)|;
      assert e == h + n + 1 && HostText(a)[n] == HostEnd(a) && HostText(a)[..n] == HostText(HostLess(a));
      assert buf[h..h + n] == buf[h..e][..n] && buf[h + n] == buf[h..e][n];
      HostReached(u, foundAt, buf, HostLess(a));
      HostNext(u, foundAt, buf, h + n, Reached(u, h, HostLess(a), foundAt));
    }
  }

  lemma HostNext(u: Parts, foundAt: bool, buf: seq<Byte>, i: nat, c: HostScan)
    requires u.At(HOST).off <= i < |buf| && HostTo(u, foundAt, buf, i) == Some(c)
    ensures HostTo(u, foundAt, buf, i + 1) == HostByte(c, buf[i], i)
  {
    hide HostByte;
  }

  lemma {:induction false} HostRead(u: Parts, foundAt: bool, buf: seq<Byte>, i: nat) returns (a: Server)
    requires u.At(HOST).off <= i <= |buf| <= 0xffff && HostTo(u, foundAt, buf, i).Some?
    ensures HostFits(a, foundAt) && HostText(a) == buf[u.At(HOST).off..i]
    decreases i
  {
    hide HostFits, HostText, HostStateOf, HostFields, HostChar, HostLess;
    var h := u.At(HOST).off;
    if i == h {
      AtNoServer(u, foundAt);
      a := NO_SERVER;
    } else {
      var b := HostRead(u, foundAt, buf, i - 1);
      HostReached(u, foundAt, buf, b);
      a := HostMore(b, foundAt, buf[i - 1]);
      HostLessText(a, foundAt);
      assert buf[h..i] == buf[h..i - 1] + [buf[i - 1]];
    }
  }

  /** The host is split exactly if the bytes are a server, and into its fields. */
  lemma SplitExactly(u: Parts, foundAt: bool, buf: seq<Byte>, v: Parts)
    requires u.End(HOST) <= |buf| <= 0xffff
    ensures HostParsed(u, foundAt, buf) == Some(v) <==>
      exists a :: HostFits(a, foundAt) && HostWhole(a) && HostText(a) == buf[u.At(HOST).off..u.End(HOST)]
        && v == HostFields(u, u.At(HOST).off, a)
  {
    hide HostFits, HostText, HostFields, HostWhole, HostStateOf, HostTo;
    var h, e := u.At(HOST).off, u.End(HOST);
    if a :| HostFits(a, foundAt) && HostWhole(a) && HostText(a) == buf[h..e] && v == HostFields(u, h, a) {
      HostReached(u, foundAt, buf, a);
      WholeStates(a, foundAt);
    }
    if HostParsed(u, foundAt, buf) == Some(v) {
      var a := HostRead(u, foundAt, buf, e);
      HostReached(u, foundAt, buf, a);
      WholeStates(a, foundAt);
    }
  }
}
