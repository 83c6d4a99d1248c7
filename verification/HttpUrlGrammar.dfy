/** The URLs that the automaton of `http_parser.c` takes, as a grammar: a path, or a schema, `://`
    and a server, then a query and a fragment. */
module HttpUrlGrammar {
  import opened Options
  import opened HttpTypes
  import opened HttpSwitch
  import opened HttpUrl

  // ---------- the bytes ----------

  predicate Letter(c: Byte) { 'a' <= c <= 'z' || 'A' <= c <= 'Z' }

  predicate DigitByte(c: Byte) { '0' <= c <= '9' }

  predicate UserByte(c: Byte) { Letter(c) || DigitByte(c) || c in "-_.!~*'()%;:&=+$," }

  predicate ServerByte(c: Byte) { UserByte(c) || c in "[]@" }

  predicate Visible(c: Byte) { '!' <= c <= '~' }

  predicate PathByte(c: Byte) { Visible(c) && c !in "?#" }

  predicate QueryByte(c: Byte) { Visible(c) && c != '#' }

  /** The classes of the automaton are these. */
  lemma Classes(c: Byte)
    ensures IsAlpha(c) <==> Letter(c)
    ensures IsUserInfoChar(c) <==> UserByte(c)
    ensures IsUrlChar(c) <==> PathByte(c)
    ensures ServerByte(c) <==> UserByte(c) || c == '[' || c == ']' || c == '@'
    ensures UserByte(c) ==> Visible(c) && c !in "/?#@[]"
    ensures c in "/*" <==> c == '/' || c == '*'
    ensures c in "?#" <==> c == '?' || c == '#'
  {
    var i := c as int;
    var s := "-_.!~*'()%;:&=+$,";
    assert c in s <==> i in {45, 95, 46, 33, 126, 42, 39, 40, 41, 37, 59, 58, 38, 61, 43, 36, 44};
    assert c in "?#" <==> c == '?' || c == '#';
    assert c in "/?#@[]" <==> i in {47, 63, 35, 64, 91, 93};
  }

  // ---------- URLs ----------

  /** The beginning of a URL, or a whole one: of the three bytes `://` after the schema, `marks` are
      there. */
  datatype Target =
    Target(schema: seq<Byte>, marks: nat, server: seq<Byte>, path: seq<Byte>, query: Option<seq<Byte>>, hashes: nat,
           fragment: seq<Byte>)

  const EMPTY := Target([], 0, [], [], None, 0, [])

  function QueryText(q: Option<seq<Byte>>): seq<Byte> { if q.None? then [] else ['?'] + q.value }

  function HashText(n: nat): seq<Byte> { seq(n, _ => '#') }

  /** The bytes up to the server, up to the path, and so on. */
  function Lead(t: Target): seq<Byte> { t.schema + (if t.marks <= 3 then "://"[..t.marks] else []) }

  function ToServer(t: Target): seq<Byte> { Lead(t) + t.server }

  function ToPath(t: Target): seq<Byte> { ToServer(t) + t.path }

  function ToQuery(t: Target): seq<Byte> { ToPath(t) + QueryText(t.query) }

  function ToHashes(t: Target): seq<Byte> { ToQuery(t) + HashText(t.hashes) }

  function Text(t: Target): seq<Byte> { ToHashes(t) + t.fragment }

  /** A server is expected: after the schema, or for CONNECT from the beginning. */
  predicate Served(t: Target, isConnect: bool) { isConnect || t.marks == 3 }

  predicate ServerFits(t: Target, isConnect: bool) {
    && (forall c <- t.schema :: Letter(c)) && t.marks <= 3 && (t.schema == [] ==> t.marks == 0)
    && (isConnect ==> t.schema == [])
    && (t.server != [] ==> Served(t, isConnect)) && (forall c <- t.server :: ServerByte(c))
    && forall i | 0 < i < |t.server| :: !(t.server[i - 1] == '@' && t.server[i] == '@')
  }

  predicate PathFits(t: Target, isConnect: bool) {
    && (forall c <- t.path :: PathByte(c))
    && (t.path != [] ==> if Served(t, isConnect) then t.path[0] == '/' else t.schema == [] && t.path[0] in "/*")
  }

  predicate QueryFits(t: Target, isConnect: bool) {
    t.query.Some? ==> (Served(t, isConnect) || t.path != []) && forall c <- t.query.value :: QueryByte(c)
  }

  /** Any number of `#` may stand before the fragment, but none right after the server. */
  predicate FragmentFits(t: Target) {
    && (t.hashes > 0 ==> t.path != [] || t.query.Some?)
    && (t.fragment != [] ==> t.hashes > 0 && t.fragment[0] != '#') && forall c <- t.fragment :: Visible(c)
  }

  predicate Fits(t: Target, isConnect: bool) {
    ServerFits(t, isConnect) && PathFits(t, isConnect) && QueryFits(t, isConnect) && FragmentFits(t)
  }

  /** White space may follow. */
  predicate MayEnd(t: Target) { t.server != [] || t.path != [] || t.query.Some? }

  /** The state of the automaton at the end of the bytes. */
  function StateOf(t: Target, isConnect: bool): State {
    if t.fragment != [] then ReqFragment
    else if t.hashes > 0 then ReqFragmentStart
    else if t.query.Some? then if t.query.value == [] then ReqQueryStringStart else ReqQueryString
    else if t.path != [] then ReqPath
    else if t.server != [] then if t.server[|t.server| - 1] == '@' then ReqServerWithAt else ReqServer
    else if Served(t, isConnect) then ReqServerStart
    else if t.marks == 2 then ReqSchemaSlashSlash
    else if t.marks == 1 then ReqSchemaSlash
    else if t.schema != [] then ReqSchema
    else ReqSpacesBeforeUrl
  }

  // ---------- the last byte ----------

  function Front(s: seq<Byte>): seq<Byte>
    requires s != []
  {
    s[..|s| - 1]
  }

  function LastOf(s: seq<Byte>): Byte
    requires s != []
  {
    s[|s| - 1]
  }

  /** Without the last byte. */
  function Less(t: Target): Target
    requires t != EMPTY
  {
    if t.fragment != [] then t.(fragment := Front(t.fragment))
    else if t.hashes > 0 then t.(hashes := t.hashes - 1)
    else if t.query.Some? then t.(query := if t.query.value == [] then None else Some(Front(t.query.value)))
    else if t.path != [] then t.(path := Front(t.path))
    else if t.server != [] then t.(server := Front(t.server))
    else if t.marks > 0 then t.(marks := t.marks - 1)
    else if t.schema != [] then t.(schema := Front(t.schema))
    else t
  }

  function End(t: Target): Byte
    requires t != EMPTY
  {
    if t.fragment != [] then LastOf(t.fragment)
    else if t.hashes > 0 then '#'
    else if t.query.Some? then if t.query.value == [] then '?' else LastOf(t.query.value)
    else if t.path != [] then LastOf(t.path)
    else if t.server != [] then LastOf(t.server)
    else if t.marks == 1 then ':'
    else if t.marks > 1 then '/'
    else if t.schema != [] then LastOf(t.schema)
    else '/'
  }

  lemma LessFits(t: Target, isConnect: bool)
    requires Fits(t, isConnect) && t != EMPTY
    ensures Fits(Less(t), isConnect)
  {
  }

  lemma FrontLast(s: seq<Byte>)
    ensures s != [] ==> s == Front(s) + [LastOf(s)] && LastOf(s) in s
  {
  }

  lemma Joined(a: seq<Byte>, b: seq<Byte>, c: Byte)
    ensures a + (b + [c]) == (a + b) + [c]
  {
    assert a + (b + [c]) == (a + b) + [c];
  }

  lemma HashMore(n: nat)
    ensures HashText(0) == [] && HashText(n + 1) == HashText(n) + ['#']
  {
  }

  lemma MarksMore(n: nat)
    requires n < 3
    ensures "://"[..n + 1] == "://"[..n] + [if n == 0 then ':' else '/']
  {
  }

  lemma Nothing(a: seq<Byte>)
    ensures a + [] == a
  {
  }

  lemma LessText(t: Target, isConnect: bool)
    requires Fits(t, isConnect) && t != EMPTY
    ensures Text(t) == Text(Less(t)) + [End(t)]
  {
    hide PathFits, QueryFits, FragmentFits, Text, ToHashes, ToQuery, ToPath, ToServer, Lead;
    if t.fragment != [] {
      LessFragment(t);
    } else if t.hashes > 0 {
      LessHashes(t);
    } else if t.query.Some? {
      LessQuery(t);
    } else if t.path != [] {
      LessPath(t);
    } else {
      LessServer(t, isConnect);
    }
  }

  lemma LessFragment(t: Target)
    requires t.fragment != []
    ensures Text(t) == Text(Less(t)) + [End(t)]
  {
    hide ToHashes;
    FrontLast(t.fragment);
    assert ToHashes(Less(t)) == ToHashes(t) by { SameHashes(t, Less(t)); }
    Joined(ToHashes(t), Front(t.fragment), LastOf(t.fragment));
  }

  lemma SameHashes(t: Target, u: Target)
    requires u == t.(fragment := u.fragment)
    ensures ToHashes(u) == ToHashes(t)
  {
  }

  lemma LessHashes(t: Target)
    requires t.fragment == [] && t.hashes > 0
    ensures Text(t) == Text(Less(t)) + [End(t)]
  {
    HashMore(t.hashes - 1);
    hide HashText, ToQuery;
    assert ToQuery(Less(t)) == ToQuery(t) by { SameQuery(t, Less(t)); }
    Joined(ToQuery(t), HashText(t.hashes - 1), '#');
    Nothing(ToHashes(t));
    Nothing(ToHashes(Less(t)));
  }

  lemma SameQuery(t: Target, u: Target)
    requires u == t.(hashes := u.hashes)
    ensures ToQuery(u) == ToQuery(t)
  {
  }

  lemma NoHashes(t: Target)
    requires t.fragment == [] && t.hashes == 0
    ensures Text(t) == ToQuery(t)
  {
    hide ToQuery;
    HashMore(0);
    Nothing(ToQuery(t));
  }

  lemma LessQuery(t: Target)
    requires t.fragment == [] && t.hashes == 0 && t.query.Some?
    ensures Text(t) == Text(Less(t)) + [End(t)]
  {
    hide ToPath, Text;
    NoHashes(t);
    NoHashes(Less(t));
    assert ToPath(Less(t)) == ToPath(t) by { SamePath(t, Less(t)); }
    var q := t.query.value;
    if q != [] {
      FrontLast(q);
      Joined(['?'], Front(q), LastOf(q));
      Joined(ToPath(t), ['?'] + Front(q), LastOf(q));
    } else {
      Nothing(ToPath(t));
      Nothing(['?']);
    }
  }

  lemma SamePath(t: Target, u: Target)
    requires u == t.(query := u.query)
    ensures ToPath(u) == ToPath(t)
  {
  }

  lemma NoQuery(t: Target)
    requires t.fragment == [] && t.hashes == 0 && t.query == None
    ensures Text(t) == ToPath(t)
  {
    hide ToPath, Text;
    NoHashes(t);
    Nothing(ToPath(t));
  }

  lemma LessPath(t: Target)
    requires t.fragment == [] && t.hashes == 0 && t.query == None && t.path != []
    ensures Text(t) == Text(Less(t)) + [End(t)]
  {
    hide ToServer, Text;
    NoQuery(t);
    NoQuery(Less(t));
    assert ToServer(Less(t)) == ToServer(t) by { SameServer(t, Less(t)); }
    FrontLast(t.path);
    Joined(ToServer(t), Front(t.path), LastOf(t.path));
  }

  lemma SameServer(t: Target, u: Target)
    requires u == t.(path := u.path)
    ensures ToServer(u) == ToServer(t)
  {
  }

  lemma NoPath(t: Target)
    requires t.fragment == [] && t.hashes == 0 && t.query == None && t.path == []
    ensures Text(t) == ToServer(t)
  {
    hide ToServer, Text;
    NoQuery(t);
    Nothing(ToServer(t));
  }

  lemma LessServer(t: Target, isConnect: bool)
    requires ServerFits(t, isConnect) && t != EMPTY
    requires t.fragment == [] && t.hashes == 0 && t.query == None && t.path == []
    ensures Text(t) == Text(Less(t)) + [End(t)]
  {
    hide Text;
    NoPath(t);
    NoPath(Less(t));
    if t.server != [] {
      FrontLast(t.server);
      Joined(Lead(t), Front(t.server), LastOf(t.server));
    } else {
      Nothing(Lead(t));
      Nothing(Lead(Less(t)));
      if t.marks > 0 {
        MarksMore(t.marks - 1);
        Joined(t.schema, "://"[..t.marks - 1], End(t));
      } else {
        FrontLast(t.schema);
        Nothing(t.schema);
        Nothing(Front(t.schema));
      }
    }
  }

  // ---------- the automaton, by the classes of the grammar ----------

  function ServerStep(ch: Byte): State {
    if ch == '/' then ReqPath
    else if ch == '?' then ReqQueryStringStart
    else if ch == '@' then ReqServerWithAt
    else if ServerByte(ch) then ReqServer
    else Dead
  }

  function QueryStep(ch: Byte): State {
    if ch == '#' then ReqFragmentStart else if Visible(ch) then ReqQueryString else Dead
  }

  lemma LateSteps(s: State, ch: Byte)
    ensures s.ReqFragment? ==> UrlChar(s, ch) == if Visible(ch) then ReqFragment else Dead
    ensures s.ReqFragmentStart? ==>
      UrlChar(s, ch) == if ch == '#' then ReqFragmentStart else if Visible(ch) then ReqFragment else Dead
    ensures s.ReqQueryString? || s.ReqQueryStringStart? ==> UrlChar(s, ch) == QueryStep(ch)
    ensures s.ReqPath? ==>
      UrlChar(s, ch) == if ch == '?' then ReqQueryStringStart else if ch == '#' then ReqFragmentStart
        else if Visible(ch) then ReqPath else Dead
  {
    Classes(ch);
    hide IsAlpha, IsUserInfoChar, UserByte;
  }

  lemma EarlySteps(s: State, ch: Byte)
    ensures s.ReqServer? || s.ReqServerStart? ==> UrlChar(s, ch) == ServerStep(ch)
    ensures s.ReqServerWithAt? ==> UrlChar(s, ch) == if ch == '@' then Dead else ServerStep(ch)
    ensures s.ReqSchemaSlashSlash? ==> UrlChar(s, ch) == if ch == '/' then ReqServerStart else Dead
    ensures s.ReqSchemaSlash? ==> UrlChar(s, ch) == if ch == '/' then ReqSchemaSlashSlash else Dead
    ensures s.ReqSchema? ==>
      UrlChar(s, ch) == if ch == ':' then ReqSchemaSlash else if Letter(ch) then ReqSchema else Dead
    ensures s.ReqSpacesBeforeUrl? ==>
      UrlChar(s, ch) == if ch == '/' || ch == '*' then ReqPath else if Letter(ch) then ReqSchema else Dead
  {
    Classes(ch);
    hide IsAlpha, IsUserInfoChar, IsUrlChar;
  }

  predicate Takes(t: Target, isConnect: bool)
    requires t != EMPTY
  {
    UrlChar(StateOf(Less(t), isConnect), End(t)) == StateOf(t, isConnect) && !StateOf(t, isConnect).Dead?
  }

  /** The automaton takes the last byte. */
  lemma LessStep(t: Target, isConnect: bool)
    requires Fits(t, isConnect) && t != EMPTY
    ensures Takes(t, isConnect)
  {
    hide Takes, Fits;
    if t.fragment != [] || t.hashes > 0 {
      FragmentStep(t, isConnect);
    } else if t.query.Some? {
      QueryStepped(t, isConnect);
    } else if t.path != [] {
      PathStepped(t, isConnect);
    } else if t.server != [] {
      ServerStepped(t, isConnect);
    } else {
      LeadStepped(t, isConnect);
    }
  }

  lemma FragmentStep(t: Target, isConnect: bool)
    requires Fits(t, isConnect) && (t.fragment != [] || t.hashes > 0)
    ensures Takes(t, isConnect)
  {
    hide UrlChar, ServerFits, PathFits;
    FrontLast(t.fragment);
    LateSteps(StateOf(Less(t), isConnect), End(t));
  }

  lemma QueryStepped(t: Target, isConnect: bool)
    requires Fits(t, isConnect) && t.fragment == [] && t.hashes == 0 && t.query.Some?
    ensures Takes(t, isConnect)
  {
    hide UrlChar, PathFits, FragmentFits;
    FrontLast(t.query.value);
    LateSteps(StateOf(Less(t), isConnect), End(t));
    EarlySteps(StateOf(Less(t), isConnect), End(t));
  }

  lemma PathStepped(t: Target, isConnect: bool)
    requires Fits(t, isConnect) && t.fragment == [] && t.hashes == 0 && t.query == None && t.path != []
    ensures Takes(t, isConnect)
  {
    hide UrlChar, FragmentFits, QueryFits, UserByte;
    FrontLast(t.path);
    Classes(t.path[0]);
    Classes(End(t));
    LateSteps(StateOf(Less(t), isConnect), End(t));
    EarlySteps(StateOf(Less(t), isConnect), End(t));
  }

  lemma ServerStepped(t: Target, isConnect: bool)
    requires Fits(t, isConnect) && t.fragment == [] && t.hashes == 0 && t.query == None && t.path == []
      && t.server != []
    ensures Takes(t, isConnect)
  {
    hide UrlChar, PathFits, FragmentFits, QueryFits, UserByte;
    FrontLast(t.server);
    Classes(End(t));
    EarlySteps(StateOf(Less(t), isConnect), End(t));
  }

  lemma LeadStepped(t: Target, isConnect: bool)
    requires Fits(t, isConnect) && t.fragment == [] && t.hashes == 0 && t.query == None && t.path == []
      && t.server == []
    requires t != EMPTY
    ensures Takes(t, isConnect)
  {
    hide UrlChar, PathFits, FragmentFits, QueryFits, UserByte;
    FrontLast(t.schema);
    EarlySteps(StateOf(Less(t), isConnect), End(t));
  }

  // ---------- exactly these URLs ----------

  lemma AtEmpty(isConnect: bool)
    ensures Text(EMPTY) == [] && Fits(EMPTY, isConnect) && StateOf(EMPTY, isConnect) == Start(isConnect).s
  {
    assert HashText(0) == [];
  }

  lemma {:induction false} WalkIs(t: Target, isConnect: bool)
    requires Fits(t, isConnect)
    ensures Walk(Start(isConnect).s, Text(t)) == StateOf(t, isConnect)
    decreases |Text(t)|
  {
    hide UrlChar, Fits, Text;
    if t == EMPTY {
      AtEmpty(isConnect);
    } else {
      LessFits(t, isConnect);
      LessText(t, isConnect);
      LessStep(t, isConnect);
      WalkIs(Less(t), isConnect);
      assert Text(t)[..|Text(t)| - 1] == Text(Less(t));
    }
  }

  /** One more byte that the automaton takes. */
  lemma More(t: Target, isConnect: bool, ch: Byte) returns (u: Target)
    requires Fits(t, isConnect) && !UrlChar(StateOf(t, isConnect), ch).Dead?
    ensures Fits(u, isConnect) && u != EMPTY && Less(u) == t && End(u) == ch
  {
    hide Fits, UrlChar;
    if t.fragment != [] || t.hashes > 0 {
      u := MoreFragment(t, isConnect, ch);
    } else if t.query.Some? {
      u := MoreQuery(t, isConnect, ch);
    } else if t.path != [] {
      u := MorePath(t, isConnect, ch);
    } else if Served(t, isConnect) {
      u := MoreServer(t, isConnect, ch);
    } else {
      u := MoreLead(t, isConnect, ch);
    }
  }

  lemma Pushed(s: seq<Byte>, c: Byte)
    ensures s + [c] != [] && Front(s + [c]) == s && LastOf(s + [c]) == c && forall x :: x in s + [c] <==>
      x in s || x == c
  {
  }

  lemma SameParts(t: Target, u: Target, isConnect: bool)
    requires u.schema == t.schema && u.marks == t.marks && u.server == t.server
    ensures (ServerFits(t, isConnect) <==> ServerFits(u, isConnect)) && (Served(t, isConnect) <==> Served(u, isConnect))
    ensures u.path == t.path ==> (PathFits(t, isConnect) <==> PathFits(u, isConnect))
  {
  }

  lemma MoreFragment(t: Target, isConnect: bool, ch: Byte) returns (u: Target)
    requires Fits(t, isConnect) && (t.fragment != [] || t.hashes > 0) && !UrlChar(StateOf(t, isConnect), ch).Dead?
    ensures Fits(u, isConnect) && u != EMPTY && Less(u) == t && End(u) == ch
  {
    hide UrlChar, ServerFits, PathFits;
    LateSteps(StateOf(t, isConnect), ch);
    Pushed(t.fragment, ch);
    u := if t.fragment == [] && ch == '#' then t.(hashes := t.hashes + 1) else t.(fragment := t.fragment + [ch]);
    SameParts(t, u, isConnect);
  }

  lemma MoreQuery(t: Target, isConnect: bool, ch: Byte) returns (u: Target)
    requires Fits(t, isConnect) && t.fragment == [] && t.hashes == 0 && t.query.Some?
      && !UrlChar(StateOf(t, isConnect), ch).Dead?
    ensures Fits(u, isConnect) && u != EMPTY && Less(u) == t && End(u) == ch
  {
    hide UrlChar, ServerFits, PathFits;
    LateSteps(StateOf(t, isConnect), ch);
    Pushed(t.query.value, ch);
    u := if ch == '#' then t.(hashes := 1) else t.(query := Some(t.query.value + [ch]));
    SameParts(t, u, isConnect);
  }

  lemma MorePath(t: Target, isConnect: bool, ch: Byte) returns (u: Target)
    requires Fits(t, isConnect) && t.fragment == [] && t.hashes == 0 && t.query == None && t.path != []
      && !UrlChar(StateOf(t, isConnect), ch).Dead?
    ensures Fits(u, isConnect) && u != EMPTY && Less(u) == t && End(u) == ch
  {
    hide UrlChar, ServerFits;
    LateSteps(StateOf(t, isConnect), ch);
    Classes(ch);
    Pushed(t.path, ch);
    u := if ch == '#' then t.(hashes := 1) else if ch == '?' then t.(query := Some([])) else t.(path := t.path + [ch]);
    SameParts(t, u, isConnect);
  }

  lemma MoreServer(t: Target, isConnect: bool, ch: Byte) returns (u: Target)
    requires Fits(t, isConnect) && t.fragment == [] && t.hashes == 0 && t.query == None && t.path == []
      && Served(t, isConnect) && !UrlChar(StateOf(t, isConnect), ch).Dead?
    ensures Fits(u, isConnect) && u != EMPTY && Less(u) == t && End(u) == ch
  {
    hide UrlChar, UserByte, ServerByte, ServerFits;
    EarlySteps(StateOf(t, isConnect), ch);
    Classes(ch);
    if ch == '/' {
      u := t.(path := [ch]);
    } else if ch == '?' {
      u := t.(query := Some([]));
    } else {
      u := t.(server := t.server + [ch]);
      Pushed(t.server, ch);
      ServerMore(t, isConnect, ch);
    }
    if ch == '/' || ch == '?' { SameParts(t, u, isConnect); }
  }

  lemma ServerMore(t: Target, isConnect: bool, ch: Byte)
    requires ServerFits(t, isConnect) && Served(t, isConnect) && ServerByte(ch)
    requires t.server != [] && t.server[|t.server| - 1] == '@' ==> ch != '@'
    ensures ServerFits(t.(server := t.server + [ch]), isConnect)
  {
    hide ServerByte;
  }

  lemma MoreLead(t: Target, isConnect: bool, ch: Byte) returns (u: Target)
    requires Fits(t, isConnect) && t.fragment == [] && t.hashes == 0 && t.query == None && t.path == []
      && !Served(t, isConnect) && !UrlChar(StateOf(t, isConnect), ch).Dead?
    ensures Fits(u, isConnect) && u != EMPTY && Less(u) == t && End(u) == ch
  {
    hide UrlChar, UserByte, ServerByte, PathByte;
    EarlySteps(StateOf(t, isConnect), ch);
    if t.schema == [] {
      u := FirstByte(t, isConnect, ch);
    } else if t.marks > 0 || ch == ':' {
      u := t.(marks := t.marks + 1);
    } else {
      Pushed(t.schema, ch);
      u := t.(schema := t.schema + [ch]);
    }
  }

  lemma FirstByte(t: Target, isConnect: bool, ch: Byte) returns (u: Target)
    requires Fits(t, isConnect) && !isConnect && t == EMPTY && (ch == '/' || ch == '*' || Letter(ch))
    ensures Fits(u, isConnect) && u != EMPTY && Less(u) == t && End(u) == ch
  {
    hide UserByte, ServerByte;
    Classes(ch);
    Pushed([], ch);
    assert Front([ch]) == [];
    u := if Letter(ch) then t.(schema := [ch]) else t.(path := [ch]);
  }

  lemma {:induction false} Read(buf: seq<Byte>, isConnect: bool) returns (t: Target)
    requires !Walk(Start(isConnect).s, buf).Dead?
    ensures Fits(t, isConnect) && Text(t) == buf
  {
    hide UrlChar, Fits, Text, StateOf, Less;
    if buf == [] {
      AtEmpty(isConnect);
      t := EMPTY;
    } else {
      var init, ch := buf[..|buf| - 1], buf[|buf| - 1];
      DeadStays(ch);
      var b := Read(init, isConnect);
      WalkIs(b, isConnect);
      t := More(b, isConnect, ch);
      LessText(t, isConnect);
      assert buf == init + [ch];
    }
  }

  lemma EndStates(t: Target, isConnect: bool)
    requires Fits(t, isConnect)
    ensures !StateOf(t, isConnect).Dead? && (UrlMayEnd(StateOf(t, isConnect)) <==> MayEnd(t))
  {
    hide UserByte, PathByte;
  }

  /** The automaton takes exactly the beginnings of URLs, and white space may follow exactly where a
      URL is whole. */
  lemma TakenExactly(buf: seq<Byte>, isConnect: bool)
    ensures !Walk(Start(isConnect).s, buf).Dead? <==> exists t :: Fits(t, isConnect) && Text(t) == buf
    ensures UrlMayEnd(Walk(Start(isConnect).s, buf)) <==> exists t :: Fits(t, isConnect) && Text(t) == buf && MayEnd(t)
  {
    hide UrlChar, Fits, Text, MayEnd, Walk, StateOf;
    var s := Walk(Start(isConnect).s, buf);
    if t :| Fits(t, isConnect) && Text(t) == buf {
      WalkIs(t, isConnect);
      EndStates(t, isConnect);
    }
    if t :| Fits(t, isConnect) && Text(t) == buf && MayEnd(t) {
      WalkIs(t, isConnect);
      EndStates(t, isConnect);
    }
    if !s.Dead? {
      var t := Read(buf, isConnect);
      WalkIs(t, isConnect);
      EndStates(t, isConnect);
    }
  }
}
