/** What a parsed URL looks like: its fields lie in order and apart, and only delimiters lie
    between them. */
module HttpUrlLayout {
  import opened Options
  import opened HttpTypes
  import opened HttpSwitch
  import opened HttpUrl

  // ---------- the fields found by the first scan ----------

  /** The schema and what follows it end at `x`. */
  predicate SchemaTo(u: Parts, buf: seq<Byte>, x: nat) {
    && x <= |buf|
    && if SCHEMA in u.fieldSet then
         var n := u.At(SCHEMA).len;
         u.At(SCHEMA).off == 0 && 1 <= n && x == n + 3 && buf[n] == ':' && buf[n + 1] == '/' && buf[n + 2] == '/'
       else x == 0
  }

  predicate HostUpTo(u: Parts, buf: seq<Byte>, x: nat) {
    && x <= |buf|
    && if HOST in u.fieldSet then 1 <= u.At(HOST).len && x == u.End(HOST) && SchemaTo(u, buf, u.At(HOST).off)
       else SchemaTo(u, buf, x)
  }

  predicate PathTo(u: Parts, buf: seq<Byte>, x: nat) {
    && x <= |buf|
    && if PATH in u.fieldSet then
         && 1 <= u.At(PATH).len && x == u.End(PATH) && HostUpTo(u, buf, u.At(PATH).off)
         && (HOST in u.fieldSet ==> buf[u.At(PATH).off] == '/')
       else HostUpTo(u, buf, x)
  }

  predicate MarkTo(u: Parts, buf: seq<Byte>, x: nat) { 1 <= x <= |buf| && buf[x - 1] == '?' && PathTo(u, buf, x - 1) }

  predicate QueryTo(u: Parts, buf: seq<Byte>, x: nat) {
    && x <= |buf|
    && if QUERY in u.fieldSet then 1 <= u.At(QUERY).len && x == u.End(QUERY) && MarkTo(u, buf, u.At(QUERY).off)
       else PathTo(u, buf, x) || MarkTo(u, buf, x)
  }

  /** A run of `#` between `x` and `y`. */
  predicate Hashes(buf: seq<Byte>, x: nat, y: nat) { x < y <= |buf| && forall k | x <= k < y :: buf[k] == '#' }

  ghost predicate HashTo(u: Parts, buf: seq<Byte>, y: nat) { exists x: nat :: QueryTo(u, buf, x) && Hashes(buf, x, y) }

  predicate Unset(u: Parts, fs: set<Field>) { fs !! u.fieldSet }

  const AFTER_SCHEMA := {HOST, PATH, QUERY, FRAGMENT}
  const AFTER_HOST := {PATH, QUERY, FRAGMENT}
  const AFTER_PATH := {QUERY, FRAGMENT}

  /** What has been recorded when the automaton is in a state. */
  ghost predicate Recorded(s: State, u: Parts, buf: seq<Byte>, i: nat) {
    && i <= |buf| && Unset(u, {PORT, USERINFO})
    && match s
       case ReqSpacesBeforeUrl => i == 0 && u.fieldSet == {}
       case ReqSchema => u.fieldSet == {SCHEMA} && u.At(SCHEMA) == Span(0, i) && 1 <= i
       case ReqSchemaSlash =>
         u.fieldSet == {SCHEMA} && i >= 2 && u.At(SCHEMA) == Span(0, i - 1) && buf[i - 1] == ':'
       case ReqSchemaSlashSlash =>
         u.fieldSet == {SCHEMA} && i >= 3 && u.At(SCHEMA) == Span(0, i - 2) && buf[i - 2] == ':' && buf[i - 1] == '/'
       case ReqServerStart => Unset(u, AFTER_SCHEMA) && SchemaTo(u, buf, i)
       case ReqServer | ReqServerWithAt => HOST in u.fieldSet && Unset(u, AFTER_HOST) && HostUpTo(u, buf, i)
       case ReqPath => PATH in u.fieldSet && Unset(u, AFTER_PATH) && PathTo(u, buf, i)
       case ReqQueryStringStart => Unset(u, AFTER_PATH) && MarkTo(u, buf, i)
       case ReqQueryString => QUERY in u.fieldSet && Unset(u, {FRAGMENT}) && QueryTo(u, buf, i)
       case ReqFragmentStart => Unset(u, {FRAGMENT}) && HashTo(u, buf, i)
       case ReqFragment =>
         FRAGMENT in u.fieldSet && 1 <= u.At(FRAGMENT).len && i == u.End(FRAGMENT) && HashTo(u, buf, u.At(FRAGMENT).off)
       case _ => false
  }

  /** The field recorded last is in the set, and is the one of the state, if it has one. */
  predicate LastFits(c: Scan) {
    (c.last.Some? ==> c.last.value in c.u.fieldSet) && (FieldOf(c.s).Some? ==> c.last == FieldOf(c.s))
  }

  /** The moves of the URL automaton, without its character classes. */
  lemma Moves(s: State, ch: Byte)
    ensures match UrlChar(s, ch)
      case ReqSchema => s.ReqSpacesBeforeUrl? || s.ReqSchema?
      case ReqSchemaSlash => s.ReqSchema? && ch == ':'
      case ReqSchemaSlashSlash => s.ReqSchemaSlash? && ch == '/'
      case ReqServerStart => s.ReqSchemaSlashSlash? && ch == '/'
      case ReqServer | ReqServerWithAt => s.ReqServerStart? || s.ReqServer? || s.ReqServerWithAt?
      case ReqPath =>
        s.ReqPath? || s.ReqSpacesBeforeUrl? || ((s.ReqServerStart? || s.ReqServer? || s.ReqServerWithAt?) && ch == '/')
      case ReqQueryStringStart => ch == '?' && (s.ReqServerStart? || s.ReqServer? || s.ReqServerWithAt? || s.ReqPath?)
      case ReqQueryString => s.ReqQueryStringStart? || s.ReqQueryString?
      case ReqFragmentStart =>
        ch == '#' && (s.ReqPath? || s.ReqQueryStringStart? || s.ReqQueryString? || s.ReqFragmentStart?)
      case ReqFragment => s.ReqFragmentStart? || s.ReqFragment?
      case t => t.Dead?
  {
  }

  // ---------- nothing recorded changes when another field is ----------

  predicate SameFields(u: Parts, v: Parts, fs: set<Field>) {
    forall f <- fs :: (f in u.fieldSet <==> f in v.fieldSet) && u.At(f) == v.At(f)
  }

  lemma SchemaSame(u: Parts, v: Parts, buf: seq<Byte>, x: nat)
    requires SchemaTo(u, buf, x) && SameFields(u, v, {SCHEMA})
    ensures SchemaTo(v, buf, x)
  {
  }

  lemma PathSame(u: Parts, v: Parts, buf: seq<Byte>, x: nat)
    requires PathTo(u, buf, x) && SameFields(u, v, {SCHEMA, HOST, PATH})
    ensures PathTo(v, buf, x)
  {
  }

  lemma MarkSame(u: Parts, v: Parts, buf: seq<Byte>, x: nat)
    requires MarkTo(u, buf, x) && SameFields(u, v, {SCHEMA, HOST, PATH})
    ensures MarkTo(v, buf, x)
  {
    hide PathTo;
    PathSame(u, v, buf, x - 1);
  }

  lemma QuerySame(u: Parts, v: Parts, buf: seq<Byte>, x: nat)
    requires QueryTo(u, buf, x) && SameFields(u, v, {SCHEMA, HOST, PATH, QUERY})
    ensures QueryTo(v, buf, x)
  {
    hide PathTo, MarkTo;
    if QUERY in u.fieldSet {
      MarkSame(u, v, buf, u.At(QUERY).off);
    } else if PathTo(u, buf, x) {
      PathSame(u, v, buf, x);
    } else {
      MarkSame(u, v, buf, x);
    }
  }

  lemma HashSame(u: Parts, v: Parts, buf: seq<Byte>, y: nat)
    requires HashTo(u, buf, y) && SameFields(u, v, {SCHEMA, HOST, PATH, QUERY})
    ensures HashTo(v, buf, y)
  {
    var x: nat :| QueryTo(u, buf, x) && Hashes(buf, x, y);
    QuerySame(u, v, buf, x);
  }

  // ---------- one byte ----------

  predicate Short(buf: seq<Byte>) { |buf| <= 0xffff }

  /** A byte of a delimiter. */
  lemma DelimiterStep(c: Scan, buf: seq<Byte>, i: nat)
    requires i < |buf| && Recorded(c.s, c.u, buf, i) && LastFits(c) && Delimiting(UrlChar(c.s, buf[i]))
    ensures Recorded(UrlChar(c.s, buf[i]), c.u, buf, i + 1)
  {
    Moves(c.s, buf[i]);
    hide UrlChar;
    if UrlChar(c.s, buf[i]).ReqFragmentStart? {
      if c.s.ReqFragmentStart? {
        var x: nat :| QueryTo(c.u, buf, x) && Hashes(buf, x, i);
        assert Hashes(buf, x, i + 1);
      } else {
        assert QueryTo(c.u, buf, i);
        assert Hashes(buf, i, i + 1);
      }
    }
  }

  /** One more byte of the field of the state. */
  lemma GrowStep(c: Scan, buf: seq<Byte>, i: nat, f: Field)
    requires i < |buf| && Short(buf) && Recorded(c.s, c.u, buf, i) && LastFits(c) && c.last == Some(f)
    requires FieldOf(UrlChar(c.s, buf[i])) == Some(f)
    ensures Recorded(UrlChar(c.s, buf[i]), c.u.Grow(f), buf, i + 1)
  {
    Moves(c.s, buf[i]);
    var v := c.u.Grow(f);
    match f
    case SCHEMA => hide UrlChar;
    case HOST => hide UrlChar, PathTo, MarkTo, QueryTo;
    case PATH => hide UrlChar, MarkTo, QueryTo, SchemaTo;
    case QUERY =>
      hide UrlChar, PathTo, MarkTo;
      MarkSame(c.u, v, buf, c.u.At(QUERY).off);
    case _ =>
      hide UrlChar, PathTo, MarkTo, QueryTo;
      HashSame(c.u, v, buf, c.u.At(FRAGMENT).off);
  }

  /** The first byte of a field. */
  lemma OpenStep(c: Scan, buf: seq<Byte>, i: nat, f: Field)
    requires i < |buf| && Short(buf) && Recorded(c.s, c.u, buf, i) && LastFits(c) && c.last != Some(f)
    requires FieldOf(UrlChar(c.s, buf[i])) == Some(f)
    ensures Recorded(UrlChar(c.s, buf[i]), c.u.Open(f, i), buf, i + 1)
  {
    Moves(c.s, buf[i]);
    hide UrlChar, HashTo, QueryTo, MarkTo, PathTo;
    var v := c.u.Open(f, i);
    match f
    case PATH => OpenPath(c, buf, i);
    case QUERY => OpenQuery(c, buf, i);
    case FRAGMENT => HashSame(c.u, v, buf, i);
    case _ =>
  }

  lemma OpenPath(c: Scan, buf: seq<Byte>, i: nat)
    requires i < |buf| && Short(buf) && Recorded(c.s, c.u, buf, i)
    requires c.s.ReqSpacesBeforeUrl?
      || ((c.s.ReqServerStart? || c.s.ReqServer? || c.s.ReqServerWithAt?) && buf[i] == '/')
    ensures PathTo(c.u.Open(PATH, i), buf, i + 1)
  {
    hide HashTo, QueryTo, MarkTo;
  }

  lemma OpenQuery(c: Scan, buf: seq<Byte>, i: nat)
    requires i < |buf| && Short(buf) && MarkTo(c.u, buf, i)
    ensures QueryTo(c.u.Open(QUERY, i), buf, i + 1)
  {
    hide PathTo;
    MarkSame(c.u, c.u.Open(QUERY, i), buf, i);
  }

  lemma {:induction false} ScanRecorded(isConnect: bool, buf: seq<Byte>, i: nat)
    requires i <= |buf| && Short(buf)
    ensures match ScanTo(isConnect, buf, i)
      case None => true
      case Some(c) => Recorded(c.s, c.u, buf, i) && LastFits(c)
  {
    hide UrlChar, Recorded;
    if i == 0 {
      StartRecorded(isConnect, buf);
    } else {
      ScanRecorded(isConnect, buf, i - 1);
      if ScanTo(isConnect, buf, i).Some? {
        var c := ScanTo(isConnect, buf, i - 1).value;
        var s := UrlChar(c.s, buf[i - 1]);
        if Delimiting(s) {
          DelimiterStep(c, buf, i - 1);
        } else if c.last == FieldOf(s) {
          GrowStep(c, buf, i - 1, FieldOf(s).value);
        } else {
          OpenStep(c, buf, i - 1, FieldOf(s).value);
        }
      }
    }
  }

  /** A field that is not recorded is still zero. */
  lemma {:induction false} ScanKeys(isConnect: bool, buf: seq<Byte>, i: nat)
    requires i <= |buf|
    ensures match ScanTo(isConnect, buf, i)
      case None => true
      case Some(c) => c.u.fieldData.Keys == c.u.fieldSet && (c.last.Some? ==> c.last.value in c.u.fieldSet)
  {
    hide UrlChar;
    if i > 0 { ScanKeys(isConnect, buf, i - 1); }
  }

  lemma StartRecorded(isConnect: bool, buf: seq<Byte>)
    ensures Recorded(Start(isConnect).s, NOTHING, buf, 0)
  {
  }

  // ---------- the fields inside the host ----------

  /** What comes before the host proper: user information and `@`, where the scan found one. */
  predicate UserTo(u: Parts, buf: seq<Byte>, foundAt: bool, h: nat, x: nat) {
    && h <= x <= |buf|
    && if foundAt then
         && h < x && buf[x - 1] == '@'
         && (if USERINFO in u.fieldSet then h < x - 1 && u.At(USERINFO) == Span(h, x - 1 - h) else x - 1 == h)
       else x == h && USERINFO !in u.fieldSet
  }

  predicate PlainTo(u: Parts, buf: seq<Byte>, foundAt: bool, h: nat, x: nat) {
    1 <= u.At(HOST).len && x == u.End(HOST) <= |buf| && UserTo(u, buf, foundAt, h, u.At(HOST).off)
  }

  /** An address in brackets, the closing one not yet read. */
  predicate BracketTo(u: Parts, buf: seq<Byte>, foundAt: bool, h: nat, x: nat) {
    && 1 <= u.At(HOST).len && x == u.End(HOST) <= |buf| && 1 <= u.At(HOST).off && buf[u.At(HOST).off - 1] == '['
    && UserTo(u, buf, foundAt, h, u.At(HOST).off - 1)
  }

  predicate NameTo(u: Parts, buf: seq<Byte>, foundAt: bool, h: nat, x: nat) {
    || PlainTo(u, buf, foundAt, h, x)
    || (1 <= x <= |buf| && buf[x - 1] == ']' && BracketTo(u, buf, foundAt, h, x - 1))
  }

  predicate PortTo(u: Parts, buf: seq<Byte>, foundAt: bool, h: nat, x: nat) {
    var p := u.At(PORT).off;
    && 1 <= u.At(PORT).len && x == u.End(PORT) <= |buf| && 1 <= p && buf[p - 1] == ':'
    && NameTo(u, buf, foundAt, h, p - 1)
    && forall k | p <= k < x :: IsNum(buf[k])
  }

  predicate HostRecorded(c: HostScan, buf: seq<Byte>, foundAt: bool, h: nat, j: nat) {
    && h <= j <= |buf| && HOST in c.u.fieldSet
    && (PORT in c.u.fieldSet <==> c.s.InPort?)
    && match c.s
       case UserInfoStart => foundAt && j == h && USERINFO !in c.u.fieldSet && c.u.At(HOST) == Span(h, 0)
       case UserInfo =>
         foundAt && h < j && USERINFO in c.u.fieldSet && c.u.At(USERINFO) == Span(h, j - h)
           && c.u.At(HOST) == Span(h, 0)
       case HostStart => UserTo(c.u, buf, foundAt, h, j) && c.u.At(HOST) == Span(h, 0)
       case V6Start => h < j && buf[j - 1] == '[' && UserTo(c.u, buf, foundAt, h, j - 1) && c.u.At(HOST) == Span(h, 0)
       case PlainHost => PlainTo(c.u, buf, foundAt, h, j)
       case V6 => BracketTo(c.u, buf, foundAt, h, j)
       case V6End => 1 <= j && buf[j - 1] == ']' && BracketTo(c.u, buf, foundAt, h, j - 1)
       case PortStart => 1 <= j && buf[j - 1] == ':' && NameTo(c.u, buf, foundAt, h, j - 1)
       case InPort => PortTo(c.u, buf, foundAt, h, j)
       case HDead => false
  }

  lemma HostMoves(s: HostState, ch: Byte)
    ensures match HostChar(s, ch)
      case UserInfoStart => false
      case UserInfo => s.UserInfo? || s.UserInfoStart?
      case HostStart => ch == '@' && (s.UserInfo? || s.UserInfoStart?)
      case V6Start => ch == '[' && s.HostStart?
      case PlainHost => s.PlainHost? || s.HostStart?
      case V6 => s.V6? || s.V6Start?
      case V6End => ch == ']' && s.V6?
      case PortStart => ch == ':' && (s.PlainHost? || s.V6End?)
      case InPort => IsNum(ch) && (s.InPort? || s.PortStart?)
      case HDead => true
  {
  }

  predicate Naming(s: HostState) { s.PlainHost? || s.V6? }

  lemma UserSame(u: Parts, v: Parts, buf: seq<Byte>, foundAt: bool, h: nat, x: nat)
    requires UserTo(u, buf, foundAt, h, x) && SameFields(u, v, {USERINFO})
    ensures UserTo(v, buf, foundAt, h, x)
  {
  }

  lemma NameSame(u: Parts, v: Parts, buf: seq<Byte>, foundAt: bool, h: nat, x: nat)
    requires NameTo(u, buf, foundAt, h, x) && SameFields(u, v, {USERINFO, HOST})
    ensures NameTo(v, buf, foundAt, h, x)
  {
  }

  lemma HostNameStep(c: HostScan, buf: seq<Byte>, foundAt: bool, h: nat, j: nat)
    requires j < |buf| && Short(buf) && HostRecorded(c, buf, foundAt, h, j) && Naming(HostChar(c.s, buf[j]))
    ensures HostRecorded(HostByte(c, buf[j], j).value, buf, foundAt, h, j + 1)
  {
    HostMoves(c.s, buf[j]);
    hide HostChar, UserTo, NameTo, PortTo;
    var v := HostByte(c, buf[j], j).value.u;
    var x := if c.s.HostStart? then j else if c.s.V6Start? then j - 1 else if c.s.PlainHost? then c.u.At(HOST).off
      else c.u.At(HOST).off - 1;
    UserSame(c.u, v, buf, foundAt, h, x);
  }

  lemma HostUserStep(c: HostScan, buf: seq<Byte>, foundAt: bool, h: nat, j: nat)
    requires j < |buf| && Short(buf) && HostRecorded(c, buf, foundAt, h, j) && HostChar(c.s, buf[j]).UserInfo?
    ensures HostRecorded(HostByte(c, buf[j], j).value, buf, foundAt, h, j + 1)
  {
    HostMoves(c.s, buf[j]);
    hide HostChar, UserTo, NameTo, PortTo;
  }

  lemma HostPortStep(c: HostScan, buf: seq<Byte>, foundAt: bool, h: nat, j: nat)
    requires j < |buf| && Short(buf) && HostRecorded(c, buf, foundAt, h, j) && HostChar(c.s, buf[j]).InPort?
    ensures HostRecorded(HostByte(c, buf[j], j).value, buf, foundAt, h, j + 1)
  {
    HostMoves(c.s, buf[j]);
    hide HostChar, UserTo, NameTo;
    var v := HostByte(c, buf[j], j).value.u;
    NameSame(c.u, v, buf, foundAt, h, if c.s.InPort? then c.u.At(PORT).off - 1 else j - 1);
  }

  lemma HostGapStep(c: HostScan, buf: seq<Byte>, foundAt: bool, h: nat, j: nat)
    requires j < |buf| && Short(buf) && HostRecorded(c, buf, foundAt, h, j)
    requires HostChar(c.s, buf[j]) in {HostStart, V6Start, V6End, PortStart}
    ensures HostRecorded(HostByte(c, buf[j], j).value, buf, foundAt, h, j + 1)
  {
    HostMoves(c.s, buf[j]);
    hide HostChar;
  }

  lemma {:induction false} HostAllRecorded(u: Parts, foundAt: bool, buf: seq<Byte>, j: nat)
    requires u.At(HOST).off <= j <= |buf| && Short(buf) && HOST in u.fieldSet && PORT !in u.fieldSet
      && USERINFO !in u.fieldSet
    ensures match HostTo(u, foundAt, buf, j)
      case None => true
      case Some(c) =>
        HostRecorded(c, buf, foundAt, u.At(HOST).off, j) && SameFields(u, c.u, {SCHEMA, PATH, QUERY, FRAGMENT})
    decreases j
  {
    hide HostChar, HostRecorded;
    var h := u.At(HOST).off;
    if j == h {
      HostStartRecorded(u, foundAt, buf);
    } else {
      HostAllRecorded(u, foundAt, buf, j - 1);
      if HostTo(u, foundAt, buf, j).Some? {
        var c := HostTo(u, foundAt, buf, j - 1).value;
        var s := HostChar(c.s, buf[j - 1]);
        HostMoves(c.s, buf[j - 1]);
        if Naming(s) {
          HostNameStep(c, buf, foundAt, h, j - 1);
        } else if s.UserInfo? {
          HostUserStep(c, buf, foundAt, h, j - 1);
        } else if s.InPort? {
          HostPortStep(c, buf, foundAt, h, j - 1);
        } else {
          HostGapStep(c, buf, foundAt, h, j - 1);
        }
      }
    }
  }

  lemma HostStartRecorded(u: Parts, foundAt: bool, buf: seq<Byte>)
    requires u.At(HOST).off <= |buf| && HOST in u.fieldSet && PORT !in u.fieldSet && USERINFO !in u.fieldSet
    ensures HostRecorded(HostStartOf(u, foundAt), buf, foundAt, u.At(HOST).off, u.At(HOST).off)
  {
  }

  // ---------- the layout ----------

  /** The order of the fields in a URL. */
  function Place(f: Field): nat {
    match f
    case SCHEMA => 0
    case USERINFO => 1
    case HOST => 2
    case PORT => 3
    case PATH => 4
    case QUERY => 5
    case FRAGMENT => 6
  }

  predicate IsDelimiter(ch: Byte) { ch in ":/?#@[]" }

  predicate InField(u: Parts, f: Field, k: nat) { u.At(f).off <= k < u.End(f) }

  ghost predicate Covered(u: Parts, k: nat) { exists f <- u.fieldSet :: InField(u, f, k) }

  /** Up to `x`, the fields set are not empty, they lie in order and apart, and every other
      byte is a delimiter. */
  ghost predicate Laid(u: Parts, buf: seq<Byte>, x: nat) {
    && x <= |buf|
    && (forall f <- u.fieldSet :: 1 <= u.At(f).len && u.End(f) <= x)
    && (forall f <- u.fieldSet, g <- u.fieldSet :: Place(f) < Place(g) ==> u.End(f) <= u.At(g).off)
    && (forall k: nat | k < x :: IsDelimiter(buf[k]) || Covered(u, k))
  }

  /** The parts with only some of the fields. */
  function Only(u: Parts, fs: set<Field>): Parts { u.(fieldSet := u.fieldSet * fs) }

  predicate Next(u: Parts, f: Field, x: nat, y: nat) {
    if f in u.fieldSet then u.At(f).off == x && 1 <= u.At(f).len && u.End(f) == y else y == x
  }

  lemma StillCovered(u: Parts, fs: set<Field>, buf: seq<Byte>, x: nat, f: Field, y: nat, k: nat)
    requires Laid(Only(u, fs), buf, x) && y <= |buf| && Next(u, f, x, y) && k < y
    ensures IsDelimiter(buf[k]) || Covered(Only(u, fs + {f}), k)
  {
    var v, w := Only(u, fs), Only(u, fs + {f});
    if k < x {
      if !IsDelimiter(buf[k]) {
        var g :| g in v.fieldSet && InField(v, g, k);
        assert InField(w, g, k);
      }
    } else {
      assert InField(w, f, k);
    }
  }

  /** One more field, right where the others end; or none. */
  lemma Append(u: Parts, fs: set<Field>, buf: seq<Byte>, x: nat, f: Field, y: nat)
    requires Laid(Only(u, fs), buf, x) && (forall g <- fs :: Place(g) < Place(f)) && y <= |buf| && Next(u, f, x, y)
    ensures Laid(Only(u, fs + {f}), buf, y)
  {
    hide Covered, IsDelimiter, Place;
    var v, w := Only(u, fs), Only(u, fs + {f});
    forall g <- w.fieldSet ensures g == f || g in v.fieldSet { }
    forall g <- w.fieldSet, k <- w.fieldSet | Place(g) < Place(k) ensures w.End(g) <= w.At(k).off {
      assert g in v.fieldSet;
    }
    forall k: nat | k < y ensures IsDelimiter(buf[k]) || Covered(Only(u, fs + {f}), k) {
      StillCovered(u, fs, buf, x, f, y, k);
    }
  }

  /** Delimiters. */
  lemma Gap(u: Parts, buf: seq<Byte>, x: nat, y: nat)
    requires Laid(u, buf, x) && x <= y <= |buf| && forall k: nat | x <= k < y :: IsDelimiter(buf[k])
    ensures Laid(u, buf, y)
  {
    forall k: nat | k < y ensures IsDelimiter(buf[k]) || Covered(u, k) { }
  }

  const UP_TO_HOST := {SCHEMA, USERINFO, HOST}
  const UP_TO_PORT := {SCHEMA, USERINFO, HOST, PORT}
  const UP_TO_PATH := {SCHEMA, USERINFO, HOST, PORT, PATH}
  const UP_TO_QUERY := {SCHEMA, USERINFO, HOST, PORT, PATH, QUERY}
  const ALL_FIELDS := {SCHEMA, USERINFO, HOST, PORT, PATH, QUERY, FRAGMENT}

  lemma LaidSchema(u: Parts, buf: seq<Byte>, x: nat)
    requires SchemaTo(u, buf, x)
    ensures Laid(Only(u, {SCHEMA}), buf, x)
  {
    assert Laid(Only(u, {}), buf, 0);
    assert {} + {SCHEMA} == {SCHEMA};
    if SCHEMA in u.fieldSet {
      var n := u.At(SCHEMA).len;
      Append(u, {}, buf, 0, SCHEMA, n);
      Gap(Only(u, {SCHEMA}), buf, n, x);
    } else {
      Append(u, {}, buf, 0, SCHEMA, 0);
    }
  }

  lemma LaidUser(u: Parts, buf: seq<Byte>, foundAt: bool, h: nat, x: nat)
    requires Laid(Only(u, {SCHEMA}), buf, h) && UserTo(u, buf, foundAt, h, x)
    ensures Laid(Only(u, {SCHEMA, USERINFO}), buf, x)
  {
    hide Laid;
    assert {SCHEMA} + {USERINFO} == {SCHEMA, USERINFO};
    var y := if foundAt then x - 1 else x;
    Append(u, {SCHEMA}, buf, h, USERINFO, y);
    Gap(Only(u, {SCHEMA, USERINFO}), buf, y, x);
  }

  lemma LaidName(u: Parts, buf: seq<Byte>, foundAt: bool, h: nat, x: nat)
    requires HOST in u.fieldSet && Laid(Only(u, {SCHEMA}), buf, h) && NameTo(u, buf, foundAt, h, x)
    ensures Laid(Only(u, UP_TO_HOST), buf, x)
  {
    hide Laid, UserTo;
    assert {SCHEMA, USERINFO} + {HOST} == UP_TO_HOST;
    var a := u.At(HOST).off;
    if PlainTo(u, buf, foundAt, h, x) {
      LaidUser(u, buf, foundAt, h, a);
      Append(u, {SCHEMA, USERINFO}, buf, a, HOST, x);
    } else {
      LaidUser(u, buf, foundAt, h, a - 1);
      Gap(Only(u, {SCHEMA, USERINFO}), buf, a - 1, a);
      Append(u, {SCHEMA, USERINFO}, buf, a, HOST, x - 1);
      Gap(Only(u, UP_TO_HOST), buf, x - 1, x);
    }
  }

  lemma LaidPort(c: HostScan, buf: seq<Byte>, foundAt: bool, h: nat, x: nat)
    requires Laid(Only(c.u, {SCHEMA}), buf, h) && HostRecorded(c, buf, foundAt, h, x) && HostMayEnd(c.s)
    ensures Laid(Only(c.u, UP_TO_PORT), buf, x)
  {
    hide Laid, UserTo, PlainTo, BracketTo;
    assert UP_TO_HOST + {PORT} == UP_TO_PORT;
    if c.s.InPort? {
      var p := c.u.At(PORT).off;
      LaidName(c.u, buf, foundAt, h, p - 1);
      Gap(Only(c.u, UP_TO_HOST), buf, p - 1, p);
      Append(c.u, UP_TO_HOST, buf, p, PORT, x);
    } else {
      LaidName(c.u, buf, foundAt, h, x);
      Append(c.u, UP_TO_HOST, buf, x, PORT, x);
    }
  }

  /** What the second step leaves: the part up to the host's end is laid out. */
  ghost predicate HostLaid(u: Parts, v: Parts, buf: seq<Byte>) {
    && SameFields(u, v, {SCHEMA, PATH, QUERY, FRAGMENT})
    && forall x: nat :: HostUpTo(u, buf, x) ==> Laid(Only(v, UP_TO_PORT), buf, x)
  }

  lemma LaidPath(u: Parts, v: Parts, buf: seq<Byte>, x: nat)
    requires HostLaid(u, v, buf) && PathTo(u, buf, x)
    ensures Laid(Only(v, UP_TO_PATH), buf, x)
  {
    hide Laid, HostUpTo;
    assert UP_TO_PORT + {PATH} == UP_TO_PATH;
    Append(v, UP_TO_PORT, buf, if PATH in u.fieldSet then u.At(PATH).off else x, PATH, x);
  }

  lemma LaidQuery(u: Parts, v: Parts, buf: seq<Byte>, x: nat)
    requires HostLaid(u, v, buf) && QueryTo(u, buf, x)
    ensures Laid(Only(v, UP_TO_QUERY), buf, x)
  {
    hide Laid, HostUpTo, PathTo;
    assert UP_TO_PATH + {QUERY} == UP_TO_QUERY;
    if QUERY in u.fieldSet || !PathTo(u, buf, x) {
      var y := if QUERY in u.fieldSet then u.At(QUERY).off else x;
      LaidPath(u, v, buf, y - 1);
      Gap(Only(v, UP_TO_PATH), buf, y - 1, y);
      Append(v, UP_TO_PATH, buf, y, QUERY, x);
    } else {
      LaidPath(u, v, buf, x);
      Append(v, UP_TO_PATH, buf, x, QUERY, x);
    }
  }

  lemma LaidHash(u: Parts, v: Parts, buf: seq<Byte>, y: nat)
    requires HostLaid(u, v, buf) && HashTo(u, buf, y)
    ensures Laid(Only(v, UP_TO_QUERY), buf, y)
  {
    hide Laid, QueryTo;
    var x: nat :| QueryTo(u, buf, x) && Hashes(buf, x, y);
    LaidQuery(u, v, buf, x);
    Gap(Only(v, UP_TO_QUERY), buf, x, y);
  }

  /** What the first scan records at the end of the bytes is laid out, once the host is. */
  lemma LaidAll(s: State, u: Parts, v: Parts, buf: seq<Byte>)
    requires HostLaid(u, v, buf) && Recorded(s, u, buf, |buf|) && (HOST in u.fieldSet || SCHEMA !in u.fieldSet)
    ensures Laid(Only(v, ALL_FIELDS), buf, |buf|)
  {
    hide Laid, HostLaid, HashTo, HostUpTo;
    assert UP_TO_QUERY + {FRAGMENT} == ALL_FIELDS;
    var n := |buf|;
    assert HostLaid(u, v, buf);
    SameSet(u, v, buf);
    if s.ReqFragment? {
      LaidHash(u, v, buf, u.At(FRAGMENT).off);
      Append(v, UP_TO_QUERY, buf, u.At(FRAGMENT).off, FRAGMENT, n);
    } else if s.ReqFragmentStart? {
      LaidHash(u, v, buf, n);
      Append(v, UP_TO_QUERY, buf, n, FRAGMENT, n);
    } else {
      Ends(s, u, buf);
      LaidQuery(u, v, buf, n);
      Append(v, UP_TO_QUERY, buf, n, FRAGMENT, n);
    }
  }

  lemma SameSet(u: Parts, v: Parts, buf: seq<Byte>)
    requires HostLaid(u, v, buf)
    ensures SameFields(u, v, {FRAGMENT})
  {
  }

  lemma Ends(s: State, u: Parts, buf: seq<Byte>)
    requires Recorded(s, u, buf, |buf|) && (HOST in u.fieldSet || SCHEMA !in u.fieldSet)
    requires !s.ReqFragment? && !s.ReqFragmentStart?
    ensures QueryTo(u, buf, |buf|) && FRAGMENT !in u.fieldSet
  {
    hide HashTo;
  }

  lemma HostEndUnique(u: Parts, buf: seq<Byte>, x: nat)
    requires HostUpTo(u, buf, x) && HOST in u.fieldSet
    ensures x == u.End(HOST) && SchemaTo(u, buf, u.At(HOST).off)
  {
  }

  /** Everything but the host is where the first scan recorded it; without a host there is nothing
      to split. */
  lemma NoHostLaid(u: Parts, buf: seq<Byte>)
    requires u.fieldSet !! {SCHEMA, HOST, PORT, USERINFO}
    ensures HostLaid(u, u, buf)
  {
    assert Only(u, UP_TO_PORT).fieldSet == {};
    forall x: nat | HostUpTo(u, buf, x) ensures Laid(Only(u, UP_TO_PORT), buf, x) { assert x == 0; }
  }

  lemma SplitHostLaid(u: Parts, c: HostScan, foundAt: bool, buf: seq<Byte>)
    requires HOST in u.fieldSet && SameFields(u, c.u, {SCHEMA, PATH, QUERY, FRAGMENT}) && HostMayEnd(c.s)
    requires HostRecorded(c, buf, foundAt, u.At(HOST).off, u.End(HOST))
    ensures HostLaid(u, c.u, buf)
  {
    hide HostRecorded, Laid, HostUpTo, SchemaTo;
    forall x: nat | HostUpTo(u, buf, x) ensures Laid(Only(c.u, UP_TO_PORT), buf, x) {
      HostEndUnique(u, buf, x);
      var h := u.At(HOST).off;
      SchemaSame(u, c.u, buf, h);
      LaidSchema(c.u, buf, h);
      LaidPort(c, buf, foundAt, h, x);
    }
  }

  /** The byte after the host's bytes, if there is one, is no digit. */
  lemma AfterHost(s: State, u: Parts, buf: seq<Byte>)
    requires Recorded(s, u, buf, |buf|) && HOST in u.fieldSet
    ensures u.End(HOST) <= |buf| && (u.End(HOST) < |buf| ==> !IsNum(buf[u.End(HOST)]))
  {
    hide SchemaTo;
  }

  lemma {:induction false} DigitsEndAt(buf: seq<Byte>, i: nat, e: nat)
    requires i <= e <= |buf| && (forall k | i <= k < e :: IsNum(buf[k])) && (e < |buf| ==> !IsNum(buf[e]))
    ensures DigitsEnd(buf, i) == e
    decreases e - i
  {
    if i < e { DigitsEndAt(buf, i + 1, e); }
  }

  /** The parts that a successful parse of at most 65535 bytes returns. */
  lemma ParseLaysOut(buf: seq<Byte>, isConnect: bool)
    requires Short(buf) && ParseUrl(buf, isConnect).Good?
    ensures var r := ParseUrl(buf, isConnect);
      && Laid(r.u, buf, |buf|)
      && (SCHEMA in r.u.fieldSet ==> HOST in r.u.fieldSet)
      && r.port <= 0xffff
      && (if PORT in r.u.fieldSet then
            var p := r.u.At(PORT);
            p.off + p.len <= |buf| && AllDigits(buf[p.off..p.off + p.len])
              && r.port == Number(10, Decimals(buf[p.off..p.off + p.len]))
          else r.port == 0)
      && (isConnect ==> r.u.fieldSet == {HOST, PORT})
  {
    hide Laid, Recorded, HostRecorded, HostLaid, ScanTo, HostTo;
    ScanWithin(isConnect, buf, |buf|);
    ScanRecorded(isConnect, buf, |buf|);
    ScanKeys(isConnect, buf, |buf|);
    var c := ScanTo(isConnect, buf, |buf|).value;
    assert c.u.End(HOST) <= |buf|;
    if SCHEMA !in c.u.fieldSet && HOST !in c.u.fieldSet {
      Unsplit(c, buf);
    } else {
      Split(c, buf);
    }
  }

  lemma Unsplit(c: Scan, buf: seq<Byte>)
    requires Recorded(c.s, c.u, buf, |buf|) && SCHEMA !in c.u.fieldSet && HOST !in c.u.fieldSet
    ensures Laid(c.u, buf, |buf|) && PORT !in c.u.fieldSet
  {
    hide Laid, HostLaid, HashTo, QueryTo, MarkTo, PathTo, HostUpTo;
    NoHostLaid(c.u, buf);
    LaidAll(c.s, c.u, c.u, buf);
    AllFields(c.u);
  }

  lemma AllFields(u: Parts)
    ensures Only(u, ALL_FIELDS) == u
  {
    forall f: Field ensures f in ALL_FIELDS {
      match f
      case SCHEMA =>
      case HOST =>
      case PORT =>
      case PATH =>
      case QUERY =>
      case FRAGMENT =>
      case USERINFO =>
    }
    assert u.fieldSet * ALL_FIELDS == u.fieldSet;
  }

  /** A host is split, or refused; no schema is accepted without one. */
  lemma Split(c: Scan, buf: seq<Byte>)
    requires Short(buf) && Recorded(c.s, c.u, buf, |buf|) && (SCHEMA in c.u.fieldSet || HOST in c.u.fieldSet)
      && c.u.End(HOST) <= |buf|
    requires c.u.fieldData.Keys == c.u.fieldSet
    ensures match HostParsed(c.u, c.foundAt, buf)
      case None => true
      case Some(v) =>
        && HOST in v.fieldSet && Laid(v, buf, |buf|)
        && (PORT in v.fieldSet ==>
              && v.End(PORT) <= |buf| && AllDigits(buf[v.At(PORT).off..v.End(PORT)])
              && DigitsEnd(buf, v.At(PORT).off) == v.End(PORT))
  {
    hide Laid, HostLaid, Recorded, HostRecorded, HostTo;
    if HOST in c.u.fieldSet {
      SplitNamed(c, buf);
    } else {
      NoHostBytes(c, buf);
    }
  }

  lemma SplitNamed(c: Scan, buf: seq<Byte>)
    requires Short(buf) && Recorded(c.s, c.u, buf, |buf|) && HOST in c.u.fieldSet && c.u.End(HOST) <= |buf|
    ensures match HostParsed(c.u, c.foundAt, buf)
      case None => true
      case Some(v) =>
        && HOST in v.fieldSet && Laid(v, buf, |buf|)
        && (PORT in v.fieldSet ==>
              && v.End(PORT) <= |buf| && AllDigits(buf[v.At(PORT).off..v.End(PORT)])
              && DigitsEnd(buf, v.At(PORT).off) == v.End(PORT))
  {
    hide Laid, HostLaid, Recorded, HostRecorded, HostTo;
    NoneInside(c.s, c.u, buf);
    HostAllRecorded(c.u, c.foundAt, buf, c.u.End(HOST));
    if HostParsed(c.u, c.foundAt, buf).Some? {
      var r := HostTo(c.u, c.foundAt, buf, c.u.End(HOST)).value;
      SplitHostLaid(c.u, r, c.foundAt, buf);
      LaidAll(c.s, c.u, r.u, buf);
      AllFields(r.u);
      PortRecorded(r, buf, c.foundAt, c.u.At(HOST).off, c.u.End(HOST));
      if PORT in r.u.fieldSet {
        AfterHost(c.s, c.u, buf);
        DigitsEndAt(buf, r.u.At(PORT).off, r.u.End(PORT));
      }
    }
  }

  lemma NoneInside(s: State, u: Parts, buf: seq<Byte>)
    requires Recorded(s, u, buf, |buf|)
    ensures PORT !in u.fieldSet && USERINFO !in u.fieldSet
  {
    hide HashTo, QueryTo, MarkTo, PathTo, HostUpTo;
  }

  lemma PortRecorded(c: HostScan, buf: seq<Byte>, foundAt: bool, h: nat, x: nat)
    requires HostRecorded(c, buf, foundAt, h, x)
    ensures HOST in c.u.fieldSet
    ensures PORT in c.u.fieldSet ==>
      x == c.u.End(PORT) <= |buf| && forall k | c.u.At(PORT).off <= k < x :: IsNum(buf[k])
  {
    hide NameTo, PlainTo, BracketTo, UserTo;
  }

  /** A schema without a host has nothing to split, and is refused. */
  lemma NoHostBytes(c: Scan, buf: seq<Byte>)
    requires Recorded(c.s, c.u, buf, |buf|) && HOST !in c.u.fieldSet && c.u.End(HOST) <= |buf|
    requires c.u.fieldData.Keys == c.u.fieldSet
    ensures HostParsed(c.u, c.foundAt, buf).None?
  {
    hide Recorded;
  }
}
