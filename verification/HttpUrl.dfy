/** `http_parser_parse_url` and `http_parse_host`: a URL cut into its fields. */
module HttpUrl {
  import opened Options
  import opened HttpTypes
  import opened HttpSwitch
  import opened HttpRun

  datatype Field = SCHEMA | HOST | PORT | PATH | QUERY | FRAGMENT | USERINFO

  datatype Span = Span(off: nat, len: nat)

  /** The fields found so far; offsets and lengths are 16 bits wide. */
  datatype Parts = Parts(fieldSet: set<Field>, fieldData: map<Field, Span>) {
    function At(f: Field): Span { if f in fieldData then fieldData[f] else Span(0, 0) }

    function End(f: Field): nat { At(f).off + At(f).len }

    function Open(f: Field, i: nat): Parts { Parts(fieldSet + {f}, fieldData[f := Span(U16(i), 1)]) }

    function Grow(f: Field): Parts { Parts(fieldSet, fieldData[f := Span(At(f).off, U16(At(f).len + 1))]) }
  }

  function U16(n: nat): nat { n % 0x1_0000 }

  const NOTHING := Parts({}, map[])

  // ---------- the fields but those inside the host ----------

  datatype Scan = Scan(s: State, last: Option<Field>, foundAt: bool, u: Parts)

  function Start(isConnect: bool): Scan {
    Scan(if isConnect then ReqServerStart else ReqSpacesBeforeUrl, None, false, NOTHING)
  }

  /** The field that a state belongs to; none in the states of delimiters. */
  function FieldOf(s: State): Option<Field> {
    match s
    case ReqSchema => Some(SCHEMA)
    case ReqServerWithAt | ReqServer => Some(HOST)
    case ReqPath => Some(PATH)
    case ReqQueryString => Some(QUERY)
    case ReqFragment => Some(FRAGMENT)
    case _ => None
  }

  predicate Delimiting(s: State) {
    s.ReqSchemaSlash? || s.ReqSchemaSlashSlash? || s.ReqServerStart? || s.ReqQueryStringStart? || s.ReqFragmentStart?
  }

  /** One byte; none where the source returns an error. */
  function ScanByte(c: Scan, ch: Byte, i: nat): Option<Scan> {
    var s := UrlChar(c.s, ch);
    if Delimiting(s) then Some(c.(s := s))
    else
      match FieldOf(s)
      case None => None
      case Some(f) =>
        var at := c.foundAt || s.ReqServerWithAt?;
        Some(Scan(s, Some(f), at, if c.last == Some(f) then c.u.Grow(f) else c.u.Open(f, i)))
  }

  function ScanTo(isConnect: bool, buf: seq<Byte>, i: nat): Option<Scan>
    requires i <= |buf|
  {
    if i == 0 then Some(Start(isConnect))
    else
      match ScanTo(isConnect, buf, i - 1)
      case None => None
      case Some(c) => ScanByte(c, buf[i - 1], i - 1)
  }

  /** The URL automaton run over some bytes. */
  function Walk(s: State, bytes: seq<Byte>): State {
    if bytes == [] then s else UrlChar(Walk(s, bytes[..|bytes| - 1]), bytes[|bytes| - 1])
  }

  /** The scan fails only where the automaton dies: its state is always one that is expected. */
  lemma {:induction false} ScanFollowsWalk(isConnect: bool, buf: seq<Byte>, i: nat)
    requires i <= |buf|
    ensures var w := Walk(Start(isConnect).s, buf[..i]);
      match ScanTo(isConnect, buf, i)
      case None => w.Dead?
      case Some(c) => c.s == w && !w.Dead?
  {
    hide UrlChar;
    if i > 0 {
      ScanFollowsWalk(isConnect, buf, i - 1);
      assert buf[..i][..i - 1] == buf[..i - 1];
      UrlCharStays(Walk(Start(isConnect).s, buf[..i - 1]), buf[i - 1]);
      DeadStays(buf[i - 1]);
    }
  }

  lemma DeadStays(ch: Byte)
    ensures UrlChar(Dead, ch).Dead?
  {
  }

  // ---------- the fields inside the host ----------

  datatype HostState =
    HDead | UserInfoStart | UserInfo | HostStart | V6Start | PlainHost | V6 | V6End | PortStart | InPort

  function HostChar(s: HostState, ch: Byte): HostState {
    match s
    case UserInfo | UserInfoStart =>
      if ch == '@' then HostStart else if IsUserInfoChar(ch) then UserInfo else HDead
    case HostStart => if ch == '[' then V6Start else if IsHostChar(ch) then PlainHost else HDead
    case PlainHost => if IsHostChar(ch) then PlainHost else if ch == ':' then PortStart else HDead
    case V6End => if ch == ':' then PortStart else HDead
    case V6 => if ch == ']' then V6End else if IsHex(ch) || ch == ':' || ch == '.' then V6 else HDead
    case V6Start => if IsHex(ch) || ch == ':' || ch == '.' then V6 else HDead
    case InPort | PortStart => if IsNum(ch) then InPort else HDead
    case HDead => HDead
  }

  datatype HostScan = HostScan(s: HostState, u: Parts)

  function HostByte(c: HostScan, ch: Byte, i: nat): Option<HostScan> {
    var s := HostChar(c.s, ch);
    match s
    case HDead => None
    case PlainHost | V6 => Some(HostScan(s, (if s != c.s then Moved(c.u, i) else c.u).Grow(HOST)))
    case InPort => Some(HostScan(s, if s != c.s then c.u.Open(PORT, i) else c.u.Grow(PORT)))
    case UserInfo => Some(HostScan(s, if s != c.s then c.u.Open(USERINFO, i) else c.u.Grow(USERINFO)))
    case _ => Some(HostScan(s, c.u))
  }

  function Moved(u: Parts, i: nat): Parts { u.(fieldData := u.fieldData[HOST := Span(U16(i), u.At(HOST).len)]) }

  function HostStartOf(u: Parts, foundAt: bool): HostScan {
    HostScan(if foundAt then UserInfoStart else HostStart,
             u.(fieldData := u.fieldData[HOST := Span(u.At(HOST).off, 0)]))
  }

  function HostTo(u: Parts, foundAt: bool, buf: seq<Byte>, i: nat): Option<HostScan>
    requires u.At(HOST).off <= i <= |buf|
    decreases i
  {
    if i == u.At(HOST).off then Some(HostStartOf(u, foundAt))
    else
      match HostTo(u, foundAt, buf, i - 1)
      case None => None
      case Some(c) => HostByte(c, buf[i - 1], i - 1)
  }

  predicate HostMayEnd(s: HostState) { s.PlainHost? || s.V6End? || s.InPort? }

  // ---------- the whole ----------

  /** The value of the digits from `i` on, as `strtoul` computes it. */
  function DigitsEnd(buf: seq<Byte>, i: nat): (e: nat)
    requires i <= |buf|
    ensures i <= e <= |buf| && (forall k | i <= k < e :: IsNum(buf[k])) && (e < |buf| ==> !IsNum(buf[e]))
    decreases |buf| - i
  {
    if i < |buf| && IsNum(buf[i]) then DigitsEnd(buf, i + 1) else i
  }

  function Strtoul(buf: seq<Byte>, i: nat): nat
    requires i <= |buf|
  {
    var v := Number(10, Decimals(buf[i..DigitsEnd(buf, i)]));
    if v > ULLONG_MAX then ULLONG_MAX else v
  }

  datatype Reason = NotUrl | BadHost | BadConnect | BadPort

  datatype Parsed = Good(u: Parts, port: nat) | Bad(reason: Reason)

  /** Every span stays inside the bytes read. */
  predicate Within(u: Parts, i: nat) { forall f: Field :: u.End(f) <= i }

  lemma WithinSteps(u: Parts, f: Field, i: nat)
    requires Within(u, i)
    ensures Within(u.Open(f, i), i + 1) && Within(u.Grow(f), i + 1)
  {
    forall g: Field ensures u.Open(f, i).End(g) <= i + 1 && u.Grow(f).End(g) <= i + 1 { assert u.End(g) <= i; }
  }

  lemma {:induction false} ScanWithin(isConnect: bool, buf: seq<Byte>, i: nat)
    requires i <= |buf|
    ensures ScanTo(isConnect, buf, i).Some? ==> Within(ScanTo(isConnect, buf, i).value.u, i)
  {
    hide UrlChar;
    if i > 0 {
      ScanWithin(isConnect, buf, i - 1);
      if ScanTo(isConnect, buf, i).Some? {
        var c := ScanTo(isConnect, buf, i - 1).value;
        var s := UrlChar(c.s, buf[i - 1]);
        if FieldOf(s).Some? { WithinSteps(c.u, FieldOf(s).value, i - 1); }
      }
    }
  }

  lemma {:induction false} PortOffset(u: Parts, foundAt: bool, buf: seq<Byte>, i: nat)
    requires u.At(HOST).off <= i <= |buf| && u.At(PORT).off <= |buf|
    ensures HostTo(u, foundAt, buf, i).Some? ==> HostTo(u, foundAt, buf, i).value.u.At(PORT).off <= |buf|
    decreases i
  {
    if i > u.At(HOST).off { PortOffset(u, foundAt, buf, i - 1); }
  }

  /** The host split, when it may end where the bytes of the host end. */
  function HostParsed(u: Parts, foundAt: bool, buf: seq<Byte>): Option<Parts>
    requires u.End(HOST) <= |buf|
  {
    match HostTo(u, foundAt, buf, u.End(HOST))
    case None => None
    case Some(c) => if HostMayEnd(c.s) then Some(c.u) else None
  }

  lemma PortInside(u: Parts, foundAt: bool, buf: seq<Byte>)
    requires u.End(HOST) <= |buf| && u.At(PORT).off <= |buf|
    ensures HostParsed(u, foundAt, buf).Some? ==> HostParsed(u, foundAt, buf).value.At(PORT).off <= |buf|
  {
    PortOffset(u, foundAt, buf, u.End(HOST));
  }

  function ParseUrl(buf: seq<Byte>, isConnect: bool): Parsed {
    ScanWithin(isConnect, buf, |buf|);
    match ScanTo(isConnect, buf, |buf|)
    case None => Bad(NotUrl)
    case Some(c) =>
      assert c.u.End(HOST) <= |buf| && c.u.End(PORT) <= |buf|;
      PortInside(c.u, c.foundAt, buf);
      if SCHEMA !in c.u.fieldSet && HOST !in c.u.fieldSet then Finished(c.u, buf, isConnect)
      else
        match HostParsed(c.u, c.foundAt, buf)
        case None => Bad(BadHost)
        case Some(u) => Finished(u, buf, isConnect)
  }

  function Finished(u: Parts, buf: seq<Byte>, isConnect: bool): Parsed
    requires u.At(PORT).off <= |buf|
  {
    if isConnect && u.fieldSet != {HOST, PORT} then Bad(BadConnect)
    else if PORT !in u.fieldSet then Good(u, 0)
    else
      var v := Strtoul(buf, u.At(PORT).off);
      if v > 0xffff then Bad(BadPort) else Good(u, v)
  }

  class Url {
    var fieldSet: set<Field>
    var fieldData: map<Field, Span>  // a span of no length at 0 where there is none
    var port: nat

    /** All zero, as the callers' memset leaves it. */
    constructor ()
      ensures View() == NOTHING && port == 0
    {
      fieldSet, fieldData, port := {}, map[], 0;
    }

    function View(): Parts reads this { Parts(fieldSet, fieldData) }

    /** `http_parse_host`. */
    method ParseHost(buf: seq<Byte>, foundAt: bool) returns (failed: bool)
      requires View().End(HOST) <= |buf|
      modifies this`fieldSet, this`fieldData
      ensures match HostParsed(old(View()), foundAt, buf)
        case None => failed
        case Some(u) => !failed && View() == u
    {
      hide HostChar;
      ghost var u0 := View();
      var i := View().At(HOST).off;
      var end := View().End(HOST);
      fieldData := fieldData[HOST := Span(i, 0)];
      var s := if foundAt then UserInfoStart else HostStart;
      while i < end
        invariant u0.At(HOST).off <= i <= end
        invariant HostTo(u0, foundAt, buf, i) == Some(HostScan(s, View()))
      {
        ghost var before := View();
        var t := HostChar(s, buf[i]);
        if t == HDead {
          HostFails(u0, foundAt, buf, i + 1, end);
          return true;
        }
        match t {
          case PlainHost | V6 =>
            if t != s { fieldData := fieldData[HOST := Span(U16(i), View().At(HOST).len)]; }
            fieldData := View().Grow(HOST).fieldData;
          case InPort =>
            if t != s {
              fieldSet, fieldData := fieldSet + {PORT}, fieldData[PORT := Span(U16(i), 1)];
            } else {
              fieldData := View().Grow(PORT).fieldData;
            }
          case UserInfo =>
            if t != s {
              fieldSet, fieldData := fieldSet + {USERINFO}, fieldData[USERINFO := Span(U16(i), 1)];
            } else {
              fieldData := View().Grow(USERINFO).fieldData;
            }
          case _ =>
        }
        assert HostByte(HostScan(s, before), buf[i], i) == Some(HostScan(t, View()));
        s, i := t, i + 1;
      }
      failed := !HostMayEnd(s);
    }

    /** `http_parser_parse_url`, on a zeroed record. */
    method Parse(buf: seq<Byte>, isConnect: bool) returns (failed: bool)
      requires fieldData == map[]
      modifies this
      ensures match ParseUrl(buf, isConnect)
        case Bad(_) => failed
        case Good(u, v) => !failed && View() == u && port == v
    {
      hide UrlChar, HostParsed, Strtoul;
      fieldSet, port := {}, 0;
      var s := if isConnect then ReqServerStart else ReqSpacesBeforeUrl;
      var last: Option<Field> := None;
      var foundAt := false;
      var i := 0;
      while i < |buf|
        invariant i <= |buf| && port == 0
        invariant ScanTo(isConnect, buf, i) == Some(Scan(s, last, foundAt, View()))
      {
        ghost var c := Scan(s, last, foundAt, View());
        s := UrlChar(s, buf[i]);
        if !Delimiting(s) {
          if s.ReqServerWithAt? { foundAt := true; }
          if FieldOf(s).None? {
            ScanFails(isConnect, buf, i + 1);
            return true;
          }
          var f := FieldOf(s).value;
          if last == Some(f) {
            fieldData := View().Grow(f).fieldData;
          } else {
            fieldSet, fieldData := fieldSet + {f}, fieldData[f := Span(U16(i), 1)];
            last := Some(f);
          }
        }
        assert ScanByte(c, buf[i], i) == Some(Scan(s, last, foundAt, View()));
        i := i + 1;
      }
      ScanWithin(isConnect, buf, |buf|);
      assert View().End(HOST) <= |buf| && View().End(PORT) <= |buf|;
      PortInside(View(), foundAt, buf);
      if SCHEMA in fieldSet || HOST in fieldSet {
        var bad := ParseHost(buf, foundAt);
        if bad { return true; }
      }
      if isConnect && fieldSet != {HOST, PORT} { return true; }
      if PORT in fieldSet {
        var v := Strtoul(buf, View().At(PORT).off);
        if v > 0xffff { return true; }
        port := v;
      }
      return false;
    }
  }

  lemma {:induction false} ScanFails(isConnect: bool, buf: seq<Byte>, i: nat)
    requires i <= |buf| && ScanTo(isConnect, buf, i).None?
    ensures ScanTo(isConnect, buf, |buf|).None?
    decreases |buf| - i
  {
    if i < |buf| { ScanFails(isConnect, buf, i + 1); }
  }

  lemma {:induction false} HostFails(u: Parts, foundAt: bool, buf: seq<Byte>, i: nat, end: nat)
    requires u.At(HOST).off <= i <= end <= |buf| && HostTo(u, foundAt, buf, i).None?
    ensures HostTo(u, foundAt, buf, end).None?
    decreases end - i
  {
    if i < end { HostFails(u, foundAt, buf, i + 1, end); }
  }
}
