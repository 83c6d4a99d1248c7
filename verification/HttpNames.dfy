/** The recognisers: which bytes lead to which method, and which names set which header state. */
module HttpNames {
  import opened Options
  import opened HttpTypes
  import opened HttpSwitch
  import opened HttpMarks
  import opened HttpReference
  import opened HttpBody

  // ---------- methods ----------

  /** The bytes read in the request method are the first ones of the recorded method's name. */
  predicate Spells(p: Parser, read: seq<Byte>) {
    p.index == |read| && read <= MethodName(p.verb)
  }

  /** The method recorded after the first `i` bytes of the name of `m`. */
  function VerbAt(m: Method, i: nat): Method {
    match m
    case CHECKOUT => if i < 2 then CONNECT else m
    case COPY => if i < 3 then CONNECT else m
    case MOVE | MERGE | MSEARCH => if i < 2 then MKCOL else m
    case MKACTIVITY => if i < 3 then MKCOL else m
    case SEARCH => if i < 2 then SUBSCRIBE else m
    case PROPFIND | PUT | PATCH => if i < 2 then POST else m
    case PROPPATCH => if i < 2 then POST else if i < 5 then PROPFIND else m
    case PURGE => if i < 2 then POST else if i < 3 then PUT else m
    case UNSUBSCRIBE => if i < 3 then UNLOCK else m
    case _ => m
  }

  lemma FirstLetter(p: Parser, ch: Byte)
    requires StartsMethod(ch) && p.verb == FirstMethod(ch) && p.index == 1
    ensures Spells(p, [ch])
  {
  }

  /** Where the source changes its mind about the method, both names agree so far. */
  lemma OtherMethodSpells(m: Method, i: nat, ch: Byte)
    requires 1 <= i <= |MethodName(m)| && OtherMethod(m, i, ch).Some?
    ensures var n := OtherMethod(m, i, ch).value;
      i < |MethodName(n)| && MethodName(n)[..i] == MethodName(m)[..i] && MethodName(n)[i] == ch
  {
  }

  /** Each name is followed: by the recorded method's next byte, or by changing the method. */
  lemma Follows(m: Method, i: nat)
    requires 1 <= i < |MethodName(m)| && MethodName(m)[i] as int < 256
    ensures var v, ch := VerbAt(m, i), MethodName(m)[i];
      if Matcher(v, i) == ch then VerbAt(m, i + 1) == v else OtherMethod(v, i, ch) == Some(VerbAt(m, i + 1))
  {
  }

  lemma MethodStep(p: Parser, read: seq<Byte>, ch: Byte)
    requires p.state.ReqMethod? && Spells(p, read) && 1 <= |read|
    ensures match InMethod(p, ch)
      case Next(q, act) =>
        if ch == ' ' then
          q == p.(state := ReqSpacesBeforeUrl, index := q.index) && act == Quiet && read == MethodName(p.verb)
        else q == p.(verb := q.verb, index := q.index) && act == Quiet && Spells(q, read + [ch])
      case Fail(_, _) => true
      case _ => false
    ensures ch == ' ' && read == MethodName(p.verb) ==> InMethod(p, ch).Next?
  {
    hide MethodName, OtherMethod;
    NoBlank(p.verb);
    if OtherMethod(p.verb, p.index, ch).Some? {
      OtherMethodSpells(p.verb, p.index, ch);
      NoBlank(OtherMethod(p.verb, p.index, ch).value);
    }
  }

  lemma NoBlank(m: Method)
    ensures forall k | 0 <= k < |MethodName(m)| :: '!' <= MethodName(m)[k] <= '~'
  {
  }

  function NameBytes(m: Method): (r: seq<Byte>)
    ensures r == MethodName(m)
  {
    NoBlank(m);
    MethodName(m)
  }

  /** A parser at the first byte of a request. */
  predicate AtRequest(p: Parser) { p.state.StartReq? && p.errno.OK? }

  /** The parser after the first `n` bytes of a request method. */
  function InMethodOf(p: Parser, verb: Method, n: nat): Parser {
    p.(state := ReqMethod, flags := NO_FLAGS, contentLength := ULLONG_MAX, nread := p.nread + n, verb := verb,
       index := n)
  }

  lemma FirstMethodByte(d: Decision, p: Parser, log: seq<Event>, used: int, b: Byte)
    requires AtRequest(p) && b != CR && b != LF && p.nread + 1 <= MAX_HEADER_SIZE
    ensures var o := One(d, Conf(p, log, used, Running), b);
      if StartsMethod(b) then
        o == Conf(InMethodOf(p, FirstMethod(b), 1), Put(log, Notice(MessageBegin)), used + 1, Running)
      else o.status.Failed?
  {
    hide Switch, Put, FirstMethod, MethodName;
    StartPass(d, Counted(p), b);
    OneStep(d, Conf(p, log, used, Running), b);
  }

  lemma NextMethodByte(d: Decision, c: Conf, read: seq<Byte>, b: Byte)
    requires c.status.Running? && c.p.state.ReqMethod? && Spells(c.p, read) && 1 <= |read|
      && c.p.nread + 1 <= MAX_HEADER_SIZE
    ensures var o := One(d, c, b);
      && !o.status.Stopped?
      && (o.status.Running? ==>
            if b == ' ' then o.p.state.ReqSpacesBeforeUrl? && read == MethodName(o.p.verb) && o.p.nread == c.p.nread + 1
            else o.p.state.ReqMethod? && Spells(o.p, read + [b]) && o.p.nread == c.p.nread + 1)
      && (b == ' ' && read == MethodName(c.p.verb) ==> o.status.Running?)
  {
    hide Switch, Put, InMethod, MethodName, ByteLog, PassLog;
    MethodPass(d, Counted(c.p), b);
    OneStep(d, c, b);
    MethodStep(Counted(c.p), read, b);
  }

  /** While the method is read, the bytes read are the first of the recorded method's name. */
  lemma {:induction false} MethodMore(d: Decision, c: Conf, read: seq<Byte>, w: seq<Byte>)
    requires c.status.Running? && c.p.state.ReqMethod? && Spells(c.p, read) && read != [] && ' ' !in w
      && c.p.nread + |w| <= MAX_HEADER_SIZE
    ensures var r := Run(d, c, w);
      r.status.Running? ==> r.p.state.ReqMethod? && Spells(r.p, read + w) && r.p.nread == c.p.nread + |w|
    decreases |w|
  {
    hide Run, One, MethodName;
    if w == [] {
      EmptyRun(d, c);
      assert read + w == read;
    } else {
      var init, last := w[..|w| - 1], w[|w| - 1];
      assert w == init + [last] && read + w == (read + init) + [last];
      MethodMore(d, c, read, init);
      var m := Run(d, c, init);
      if m.status.Running? {
        RunPush(d, c, init, last);
        NextMethodByte(d, m, read + init, last);
      } else {
        RunConcat(d, c, init, [last]);
        EndedRun(d, m, [last]);
      }
    }
  }

  /** The rest of a method, and the space after it. */
  lemma MethodEnds(d: Decision, c: Conf, read: seq<Byte>, w: seq<Byte>)
    requires c.status.Running? && c.p.state.ReqMethod? && Spells(c.p, read) && read != [] && ' ' !in w
      && c.p.nread + |w| + 1 <= MAX_HEADER_SIZE
    ensures var r, m := Run(d, c, w + [' ']), Run(d, c, w);
      && (r.status.Running? ==> r.p.state.ReqSpacesBeforeUrl? && MethodName(r.p.verb) == read + w)
      && (m.status.Running? && MethodName(m.p.verb) == read + w ==> r.status.Running?)
  {
    hide Run, One, MethodName, Spells;
    MethodMore(d, c, read, w);
    var m := Run(d, c, w);
    if m.status.Running? {
      RunPush(d, c, w, ' ');
      NextMethodByte(d, m, read + w, ' ');
    } else {
      RunConcat(d, c, w, [' ']);
      EndedRun(d, m, [' ']);
    }
  }

  /** Every method's name leads to that method. */
  lemma {:induction false} MethodAccepted(d: Decision, c: Conf, m: Method, i: nat)
    requires c.status.Running? && AtRequest(c.p) && 1 <= i <= |MethodName(m)| && c.p.nread + i <= MAX_HEADER_SIZE
    ensures var r := Run(d, c, NameBytes(m)[..i]);
      r == Conf(InMethodOf(c.p, VerbAt(m, i), i), Put(c.log, Notice(MessageBegin)), c.used + i, Running)
    decreases i
  {
    hide Run, One, MethodName, FirstMethod, VerbAt;
    var w := NameBytes(m)[..i];
    var b := NameBytes(m)[i - 1];
    assert w == NameBytes(m)[..i - 1] + [b];
    if i == 1 {
      FirstVerb(m);
      FirstMethodByte(d, c.p, c.log, c.used, b);
      assert w == [b];
      RunPush1(d, c, b);
    } else {
      MethodAccepted(d, c, m, i - 1);
      RunPush(d, c, NameBytes(m)[..i - 1], b);
      NameByte(d, Run(d, c, NameBytes(m)[..i - 1]), m, i - 1);
    }
  }

  lemma FirstVerb(m: Method)
    ensures MethodName(m) != [] && var b := NameBytes(m)[0];
      StartsMethod(b) && FirstMethod(b) == VerbAt(m, 1) && b != CR && b != LF
  {
    FirstLetters(m);
    hide MethodName;
    NoBlank(m);
  }

  lemma FirstLetters(m: Method)
    ensures MethodName(m) != [] && MethodName(m)[0] == match m
      case DELETE => 'D'
      case GET => 'G'
      case HEAD => 'H'
      case POST | PUT | PROPFIND | PROPPATCH | PATCH | PURGE => 'P'
      case CONNECT | COPY | CHECKOUT => 'C'
      case OPTIONS => 'O'
      case TRACE => 'T'
      case LOCK => 'L'
      case MKCOL | MOVE | MKACTIVITY | MERGE | MSEARCH => 'M'
      case SEARCH | SUBSCRIBE => 'S'
      case UNLOCK | UNSUBSCRIBE => 'U'
      case REPORT => 'R'
      case NOTIFY => 'N'
  {
  }

  lemma NameByte(d: Decision, c: Conf, m: Method, i: nat)
    requires c.status.Running? && c.p.state.ReqMethod? && 1 <= i < |MethodName(m)| && c.p.verb == VerbAt(m, i)
      && c.p.index == i
    requires c.p.nread + 1 <= MAX_HEADER_SIZE
    ensures var o := One(d, c, NameBytes(m)[i]);
      o == Conf(c.p.(verb := VerbAt(m, i + 1), index := i + 1, nread := c.p.nread + 1), c.log, c.used + 1, Running)
  {
    hide Switch, MethodName, VerbAt, Matcher, OtherMethod, Put;
    MethodPass(d, Counted(c.p), NameBytes(m)[i]);
    OneStep(d, c, NameBytes(m)[i]);
    NoBlank(m);
    Follows(m, i);
  }

  lemma LastVerb(m: Method)
    ensures VerbAt(m, |MethodName(m)|) == m && MethodName(m) != []
  {
  }

  /** The parser after a method and the spaces around it. */
  function MethodRead(p: Parser, verb: Method, index: nat, n: nat): Parser {
    p.(state := ReqSpacesBeforeUrl, flags := NO_FLAGS, contentLength := ULLONG_MAX, verb := verb, index := index,
       nread := p.nread + n)
  }

  lemma MethodRun1(d: Decision, c: Conf, m: Method)
    requires c.status.Running? && AtRequest(c.p) && c.p.nread + |NameBytes(m)| + 1 <= MAX_HEADER_SIZE
    ensures var n := |NameBytes(m)| + 1;
      Run(d, c, NameBytes(m) + [' '])
        == Conf(MethodRead(c.p, m, n, n), Put(c.log, Notice(MessageBegin)), c.used + n, Running)
  {
    hide Run, One, MethodName, Put, VerbAt;
    var n := |NameBytes(m)|;
    LastVerb(m);
    MethodAccepted(d, c, m, n);
    assert NameBytes(m)[..n] == NameBytes(m);
    RunPush(d, c, NameBytes(m), ' ');
    MethodBlank(d, Run(d, c, NameBytes(m)), m);
  }

  lemma MethodBlank(d: Decision, c: Conf, m: Method)
    requires c.status.Running? && c.p.state.ReqMethod? && c.p.verb == m && c.p.index == |NameBytes(m)|
      && c.p.nread + 1 <= MAX_HEADER_SIZE
    ensures One(d, c, ' ')
      == Conf(c.p.(state := ReqSpacesBeforeUrl, index := c.p.index + 1, nread := c.p.nread + 1), c.log, c.used + 1,
              Running)
  {
    hide One, Passes, Switch, MethodName, OtherMethod, Put;
    MethodPass(d, Counted(c.p), ' ');
    OneStep(d, c, ' ');
  }

  /** A request method is taken, at the space after it, exactly when the bytes before the
      space are the name of one of the methods, and that one is then recorded. */
  lemma MethodRecognised(d: Decision, c: Conf, w: seq<Byte>)
    requires c.status.Running? && AtRequest(c.p) && w != [] && w[0] != CR && w[0] != LF && ' ' !in w
    requires c.p.nread + |w| + 1 <= MAX_HEADER_SIZE
    ensures var r := Run(d, c, w + [' ']);
      && (r.status.Running? <==> exists m :: MethodName(m) == w)
      && (r.status.Running? ==> r.p.state.ReqSpacesBeforeUrl? && MethodName(r.p.verb) == w)
  {
    hide Run, One, MethodName, Spells, FirstMethod;
    var first, rest := w[0], w[1..];
    assert w == [first] + rest && w + [' '] == [first] + (rest + [' ']);
    FirstMethodByte(d, c.p, c.log, c.used, first);
    RunConcat(d, c, [first], rest);
    RunConcat(d, c, [first], rest + [' ']);
    RunPush1(d, c, first);
    if StartsMethod(first) {
      FirstLetter(One(d, c, first).p, first);
      MethodEnds(d, One(d, c, first), [first], rest);
    } else {
      EndedRun(d, One(d, c, first), rest + [' ']);
    }
    if m :| MethodName(m) == w { MethodRun1(d, c, m); }
  }

  // ---------- a parser of both kinds ----------

  /** At the first byte, a parser of both kinds is one of requests, but for the letter H. */
  lemma EitherFirst(d: Decision, c: Conf, b: Byte)
    requires c.status.Running? && c.p.state.StartReqOrRes? && b != CR && b != LF && c.p.nread + 1 <= MAX_HEADER_SIZE
    ensures One(d, c, b) ==
      if b == 'H' then
        Conf(c.p.(state := ResOrRespH, flags := NO_FLAGS, contentLength := ULLONG_MAX, nread := c.p.nread + 1),
             Put(c.log, Notice(MessageBegin)), c.used + 1, Running)
      else One(d, c.(p := c.p.(kind := Request, state := StartReq, flags := NO_FLAGS, contentLength := ULLONG_MAX)), b)
  {
    hide Switch, Put;
    StartPass(d, Counted(c.p), b);
    SwitchMarks(d, Counted(c.p), b);
  }

  lemma EitherSecond(d: Decision, c: Conf, b: Byte)
    requires c.status.Running? && c.p.state.ResOrRespH? && c.p.nread + 1 <= MAX_HEADER_SIZE
    ensures var o, p := One(d, c, b), c.p.(nread := c.p.nread + 1);
      if b == 'E' then
        o == Conf(p.(kind := Request, verb := HEAD, index := 2, state := ReqMethod), c.log, c.used + 1, Running)
      else if b == 'T' then o == Conf(p.(kind := Response, state := ResHT), c.log, c.used + 1, Running)
      else o.status.Failed?
  {
    hide One, Passes, Switch, Put;
    StartPass(d, Counted(c.p), b);
    OneStep(d, c, b);
  }

  /** The states of a status line before its first space. */
  predicate BeforeStatus(s: State) {
    s.ResHT? || s.ResHTT? || s.ResHTTP? || s.ResFirstHttpMajor? || s.ResHttpMajor? || s.ResFirstHttpMinor?
      || s.ResHttpMinor?
  }

  lemma StatusByte(d: Decision, c: Conf, b: Byte)
    requires c.status.Running? && BeforeStatus(c.p.state) && c.p.nread + 1 <= MAX_HEADER_SIZE
    ensures var o := One(d, c, b);
      o.status.Running? ==>
        o.p.nread == c.p.nread + 1 && if b == ' ' then !o.p.state.ReqSpacesBeforeUrl? else BeforeStatus(o.p.state)
  {
    hide One, Passes, Switch, Put;
    StatusPass(d, Counted(c.p), b);
    OneStep(d, c, b);
    StatusStep(Counted(c.p), b);
  }

  lemma StatusStep(p: Parser, b: Byte)
    requires BeforeStatus(p.state)
    ensures GroupOf(p.state).GStatus? && match StatusLine(p, b)
      case Next(q, act) =>
        q.nread == p.nread && if b == ' ' then !q.state.ReqSpacesBeforeUrl? else BeforeStatus(q.state)
      case Fail(_, _) => true
      case _ => false
  {
  }

  /** No status line is taken for a request. */
  lemma {:induction false} NoRequest(d: Decision, c: Conf, w: seq<Byte>)
    requires c.status.Running? && BeforeStatus(c.p.state) && ' ' !in w && c.p.nread + |w| + 1 <= MAX_HEADER_SIZE
    ensures var r := Run(d, c, w + [' ']); !(r.status.Running? && r.p.state.ReqSpacesBeforeUrl?)
    decreases |w|
  {
    hide One, Run;
    var b := if w == [] then ' ' else w[0];
    assert (w + [' '])[0] == b && w + [' '] == [b] + (w + [' '])[1..];
    StatusByte(d, c, b);
    RunPush1(d, c, b);
    RunConcat(d, c, [b], (w + [' '])[1..]);
    if w == [] {
      EmptyRun(d, One(d, c, b));
    } else if One(d, c, b).status.Running? {
      assert (w + [' '])[1..] == w[1..] + [' '];
      NoRequest(d, One(d, c, b), w[1..]);
    } else {
      EndedRun(d, One(d, c, b), (w + [' '])[1..]);
    }
  }

  lemma AfterHe(d: Decision, c: Conf, w: seq<Byte>)
    requires c.status.Running? && c.p.state.ReqMethod? && c.p.verb.HEAD? && c.p.index == 2 && ' ' !in w
      && c.p.nread + |w| + 1 <= MAX_HEADER_SIZE
    ensures var r := Run(d, c, w + [' ']);
      && (r.status.Running? <==> ['H', 'E'] + w == MethodName(HEAD))
      && (r.status.Running? ==> r.p.state.ReqSpacesBeforeUrl? && r.p.verb.HEAD?)
  {
    hide One, Run, Spells, MethodName;
    HeadSpells(c.p);
    MethodEnds(d, c, ['H', 'E'], w);
    HeadFirst(Run(d, c, w + [' ']).p.verb);
    HeadName();
    if ['H', 'E'] + w == MethodName(HEAD) {
      assert |['H', 'E'] + w| == 4;
      HeadTail(d, c, w);
    }
  }

  /** After the letter H, a second byte, and what it is on the way to. */
  lemma SecondByte(d: Decision, c: Conf, b: Byte, w: seq<Byte>)
    requires c.status.Running? && c.p.state.ResOrRespH? && b != ' ' && ' ' !in w
      && c.p.nread + |w| + 2 <= MAX_HEADER_SIZE
    ensures var r := Run(d, One(d, c, b), w + [' ']);
      && (r.status.Running? && r.p.state.ReqSpacesBeforeUrl? <==> b == 'E' && ['H', 'E'] + w == MethodName(HEAD))
      && (r.status.Running? && r.p.state.ReqSpacesBeforeUrl? ==> r.p.verb.HEAD?)
  {
    hide One, Run, MethodName, BeforeStatus;
    EitherSecond(d, c, b);
    IsBeforeStatus(ResHT);
    if b == 'E' {
      AfterHe(d, One(d, c, b), w);
    } else if b == 'T' {
      NoRequest(d, One(d, c, b), w);
    } else {
      EndedRun(d, One(d, c, b), w + [' ']);
    }
  }

  /** After the letter H, too, exactly the name of a method, HEAD, is taken. */
  lemma HeadRecognised(d: Decision, c: Conf, w: seq<Byte>)
    requires c.status.Running? && c.p.state.ResOrRespH? && ' ' !in w && c.p.nread + |w| + 1 <= MAX_HEADER_SIZE
    ensures var r := Run(d, c, w + [' ']);
      && (r.status.Running? && r.p.state.ReqSpacesBeforeUrl? <==> ['H'] + w == MethodName(HEAD))
      && (r.status.Running? && r.p.state.ReqSpacesBeforeUrl? ==> r.p.verb.HEAD?)
  {
    hide One, Run, MethodName;
    HeadName();
    if w == [] {
      assert w + [' '] == [' '] && ['H'] + w == ['H'];
      EitherSecond(d, c, ' ');
      RunPush1(d, c, ' ');
    } else {
      var b, rest := w[0], w[1..];
      assert w == [b] + rest && w + [' '] == [b] + (rest + [' ']);
      assert ['H'] + w == ['H', b] + rest && (['H', b] + rest)[1] == b;
      SecondByte(d, c, b, rest);
      RunPush1(d, c, b);
      RunConcat(d, c, [b], rest + [' ']);
    }
  }

  lemma IsBeforeStatus(s: State)
    ensures s.ResHT? ==> BeforeStatus(s)
  {
  }

  lemma HeadName()
    ensures MethodName(HEAD) == ['H', 'E', 'A', 'D'] && VerbAt(HEAD, 2) == VerbAt(HEAD, 3) == VerbAt(HEAD, 4) == HEAD
  {
  }

  lemma HeadSpells(p: Parser)
    requires p.verb.HEAD? && p.index == 2
    ensures Spells(p, ['H', 'E'])
  {
  }

  lemma HeadTail(d: Decision, c: Conf, w: seq<Byte>)
    requires c.status.Running? && c.p.state.ReqMethod? && c.p.verb.HEAD? && c.p.index == 2
      && c.p.nread + 2 <= MAX_HEADER_SIZE
    requires ['H', 'E'] + w == MethodName(HEAD)
    ensures Run(d, c, w).status.Running? && Run(d, c, w).p.verb.HEAD?
  {
    hide One, Run, MethodName, VerbAt, NameBytes;
    HeadName();
    assert w == (['H', 'E'] + w)[2..] == ['A'] + ['D'];
    NameByte(d, c, HEAD, 2);
    NameByte(d, One(d, c, 'A'), HEAD, 3);
    RunPush1(d, c, 'A');
    RunPush(d, c, ['A'], 'D');
  }

  /** A parser of both kinds takes the same methods. */
  lemma EitherMethod(d: Decision, c: Conf, w: seq<Byte>)
    requires c.status.Running? && c.p.state.StartReqOrRes? && c.p.errno.OK? && w != [] && w[0] != CR && w[0] != LF
      && ' ' !in w
    requires c.p.nread + |w| + 1 <= MAX_HEADER_SIZE
    ensures var r := Run(d, c, w + [' ']);
      && (r.status.Running? && r.p.state.ReqSpacesBeforeUrl? <==> exists m :: MethodName(m) == w)
      && (r.status.Running? && r.p.state.ReqSpacesBeforeUrl? ==> MethodName(r.p.verb) == w)
  {
    hide One, Run, MethodName;
    var all, b := w + [' '], w[0];
    assert all == [b] + all[1..] && all[1..] == w[1..] + [' '];
    EitherFirst(d, c, b);
    RunPush1(d, c, b);
    RunConcat(d, c, [b], all[1..]);
    if b == 'H' {
      assert ['H'] + w[1..] == w;
      HeadRecognised(d, One(d, c, b), w[1..]);
      forall m | MethodName(m) == w ensures m.HEAD? { HeadFirst(m); }
    } else {
      var request := c.(p := c.p.(kind := Request, state := StartReq, flags := NO_FLAGS, contentLength := ULLONG_MAX));
      MethodRecognised(d, request, w);
      RunPush1(d, request, b);
      RunConcat(d, request, [b], all[1..]);
    }
  }

  lemma HeadFirst(m: Method)
    ensures MethodName(m) != [] && (MethodName(m)[0] == 'H' ==> m.HEAD?)
  {
    FirstLetters(m);
    hide MethodName;
  }

  // ---------- header names ----------

  /** A proper beginning of a word. */
  predicate Starts(l: seq<Byte>, w: string) { 0 < |l| < |w| && l <= w }

  /** What the recogniser is in after a lower-cased name, or part of one. */
  function NameState(l: seq<Byte>): HeaderState {
    if l == CONNECTION || l == PROXY_CONNECTION then Connection
    else if l == CONTENT_LENGTH then ContentLength
    else if l == TRANSFER_ENCODING then TransferEncoding
    else if l == UPGRADE then Upgrade
    else if l == "c" then HC
    else if l == "co" then HCO
    else if l == "con" then HCON
    else if Starts(l, CONNECTION) then MatchingConnection
    else if Starts(l, CONTENT_LENGTH) then MatchingContentLength
    else if Starts(l, PROXY_CONNECTION) then MatchingProxyConnection
    else if Starts(l, TRANSFER_ENCODING) then MatchingTransferEncoding
    else if Starts(l, UPGRADE) then MatchingUpgrade
    else General
  }

  /** The index is the place of the last byte read, while a word is being matched. */
  predicate IndexFits(h: HeaderState, index: nat, n: nat) {
    h.General? || h.Connection? || h.ContentLength? || h.TransferEncoding? || h.Upgrade? || index + 1 == n
  }

  lemma Longer(l: seq<Byte>, c: Byte, w: string)
    requires l != []
    ensures Starts(l + [c], w) <==> Starts(l, w) && |l| + 1 < |w| && w[|l|] == c
    ensures l + [c] == w <==> Starts(l, w) && |l| + 1 == |w| && w[|l|] == c
  {
  }

  /** Only `connection` and `content-length` begin alike, in three letters. */
  lemma Apart(l: seq<Byte>)
    requires l != []
    ensures (Starts(l, CONNECTION) || l == CONNECTION) && (Starts(l, CONTENT_LENGTH) || l == CONTENT_LENGTH) ==>
      |l| <= 3
    ensures Starts(l, CONNECTION) || l == CONNECTION || Starts(l, CONTENT_LENGTH) || l == CONTENT_LENGTH ==> l[0] == 'c'
    ensures Starts(l, PROXY_CONNECTION) || l == PROXY_CONNECTION ==> l[0] == 'p'
    ensures Starts(l, TRANSFER_ENCODING) || l == TRANSFER_ENCODING ==> l[0] == 't'
    ensures Starts(l, UPGRADE) || l == UPGRADE ==> l[0] == 'u'
    ensures Starts(l, CONNECTION) || Starts(l, CONTENT_LENGTH) ==>
      (|l| == 1 ==> l == "c") && (|l| == 2 ==> l == "co") && (|l| == 3 ==> l == "con")
    ensures l == "c" || l == "co" || l == "con" ==> Starts(l, CONNECTION) && Starts(l, CONTENT_LENGTH)
  {
    var a, b := CONNECTION, CONTENT_LENGTH;
    assert a[0] == b[0] == 'c' && a[1] == b[1] == 'o' && a[2] == b[2] == 'n' && a[3] == 'n' && b[3] == 't';
    assert PROXY_CONNECTION[0] == 'p' && TRANSFER_ENCODING[0] == 't' && UPGRADE[0] == 'u';
  }

  lemma ShortNames(l: seq<Byte>, c: Byte)
    requires l != []
    ensures l + [c] != "c" && (l + [c] == "co" <==> l == "c" && c == 'o')
      && (l + [c] == "con" <==> l == "co" && c == 'n')
  {
    var r := l + [c];
    assert r[..|l|] == l && r[|l|] == c;
    assert "co"[..1] == "c" && "con"[..2] == "co";
  }

  lemma NameStep(l: seq<Byte>, index: nat, ch: Byte, c: Byte)
    requires l != [] && c != '\0' && ch != ' ' && IndexFits(NameState(l), index, |l|)
    ensures match FieldChar(NameState(l), index, ch, c)
      case Some((h, i)) => h == NameState(l + [c]) && IndexFits(h, i, |l| + 1)
      case None => false
  {
    hide Starts;
    Longer(l, c, CONNECTION);
    Longer(l, c, CONTENT_LENGTH);
    Longer(l, c, PROXY_CONNECTION);
    Longer(l, c, TRANSFER_ENCODING);
    Longer(l, c, UPGRADE);
    Apart(l);
    ShortNames(l, c);
  }

  predicate IsName(name: seq<Byte>) { name != [] && forall i | 0 <= i < |name| :: Token(name[i]) != '\0' }

  function Lowered(name: seq<Byte>): (r: seq<Byte>)
    ensures |r| == |name|
  {
    seq(|name|, i requires 0 <= i < |name| => Token(name[i]))
  }

  lemma NameStart(d: Decision, p: Parser, log: seq<Event>, used: int, b: Byte)
    requires p.state.HeaderFieldStart? && p.nread + 1 <= MAX_HEADER_SIZE && Token(b) != '\0'
    ensures One(d, Conf(p, log, used, Running), b)
      == Conf(p.(state := HeaderField, index := 0, headerState := FirstHeaderState(Token(b)), nread := p.nread + 1),
              Put(log, Data(Field, [b])), used + 1, Running)
  {
    hide Switch;
    FieldStartPass(d, Counted(p), b);
    OneStep(d, Conf(p, log, used, Running), b);
    TokenNotLine(b);
    hide Put, Token, FirstHeaderState;
  }

  lemma TokenNotLine(b: Byte)
    ensures Token(b) != '\0' ==> b != CR && b != LF && b != ' '
  {
  }

  lemma FirstNameState(c: Byte)
    ensures FirstHeaderState(c) == NameState([c])
  {
    var a, b, p, t, u := CONNECTION, CONTENT_LENGTH, PROXY_CONNECTION, TRANSFER_ENCODING, UPGRADE;
    assert a[..1] == "c" && b[..1] == "c" && p[..1] == "p" && t[..1] == "t" && u[..1] == "u";
    Apart([c]);
  }

  lemma NameByteRead(d: Decision, p: Parser, log: seq<Event>, used: int, b: Byte, h: HeaderState, i: nat)
    requires p.state.HeaderField? && p.nread + 1 <= MAX_HEADER_SIZE && Token(b) != '\0'
    requires FieldChar(p.headerState, p.index, b, Token(b)) == Some((h, i))
    ensures One(d, Conf(p, log, used, Running), b)
      == Conf(p.(headerState := h, index := i, nread := p.nread + 1), Put(log, Data(Field, [b])), used + 1, Running)
  {
    hide Switch, Put, Token, FieldChar;
    FieldPass(d, Counted(p), b);
    OneStep(d, Conf(p, log, used, Running), b);
  }

  /** A header name, of any length, and what the recogniser makes of it. */
  lemma {:induction false} NameRun(d: Decision, c: Conf, name: seq<Byte>)
    requires c.status.Running? && c.p.state.HeaderFieldStart? && IsName(name) && c.p.nread + |name| <= MAX_HEADER_SIZE
    ensures var r := Run(d, c, name);
      && r == Conf(c.p.(state := HeaderField, headerState := NameState(Lowered(name)), index := r.p.index,
                        nread := c.p.nread + |name|),
                   Put(c.log, Data(Field, name)), c.used + |name|, Running)
      && IndexFits(NameState(Lowered(name)), r.p.index, |name|)
    decreases |name|
  {
    hide Run, One, Put, Token, FieldChar, NameState;
    var init, last := name[..|name| - 1], name[|name| - 1];
    assert name == init + [last];
    if init == [] {
      NameStart(d, c.p, c.log, c.used, last);
      RunPush1(d, c, last);
      FirstNameState(Token(last));
      assert Lowered(name) == [Token(last)];
    } else {
      NameRun(d, c, init);
      var m := Run(d, c, init);
      RunPush(d, c, init, last);
      assert Lowered(name) == Lowered(init) + [Token(last)];
      TokenNotLine(last);
      NameStep(Lowered(init), m.p.index, last, Token(last));
      var next := FieldChar(m.p.headerState, m.p.index, last, Token(last)).value;
      NameByteRead(d, m.p, m.log, m.used, last, next.0, next.1);
      PutTwice(c.log, Field, init, [last]);
    }
  }

  lemma ColonRead(d: Decision, p: Parser, log: seq<Event>, used: int)
    requires p.state.HeaderField? && p.nread + 1 <= MAX_HEADER_SIZE
    ensures One(d, Conf(p, log, used, Running), ':')
      == Conf(p.(state := HeaderValueStart, nread := p.nread + 1), Put(log, Data(Field, [])), used + 1, Running)
  {
    hide Switch, Put, FieldChar;
    FieldPass(d, Counted(p), ':');
    OneStep(d, Conf(p, log, used, Running), ':');
  }

  /** At the colon the header state is special exactly for the five names, in any case. */
  lemma HeaderNameRecognised(d: Decision, c: Conf, name: seq<Byte>)
    requires c.status.Running? && c.p.state.HeaderFieldStart? && IsName(name)
      && c.p.nread + |name| + 1 <= MAX_HEADER_SIZE
    ensures var r, l := Run(d, c, name + [':']), Lowered(name);
      && r == Conf(c.p.(state := HeaderValueStart, headerState := r.p.headerState, index := r.p.index,
                        nread := c.p.nread + |name| + 1),
                   Put(c.log, Data(Field, name)), c.used + |name| + 1, Running)
      && (r.p.headerState.Connection? <==> l == CONNECTION || l == PROXY_CONNECTION)
      && (r.p.headerState.ContentLength? <==> l == CONTENT_LENGTH)
      && (r.p.headerState.TransferEncoding? <==> l == TRANSFER_ENCODING)
      && (r.p.headerState.Upgrade? <==> l == UPGRADE)
  {
    hide Run, One, Put, Token, Starts, IndexFits;
    NameRun(d, c, name);
    var m := Run(d, c, name);
    RunPush(d, c, name, ':');
    ColonRead(d, m.p, m.log, m.used);
    PutTwice(c.log, Field, name, []);
    assert name + [] == name;
    WordsDiffer();
  }

  lemma WordsDiffer()
    ensures |CONNECTION| == 10 && |PROXY_CONNECTION| == 16 && |CONTENT_LENGTH| == 14 && |TRANSFER_ENCODING| == 17
      && |UPGRADE| == 7
  {
  }
}
