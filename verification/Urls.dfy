/** `sn_http_parser_parse_url`: cutting a URL into its components. */
module Urls {
  import opened Bytes
  import opened ParserState
  import opened UrlAutomaton
  import opened Numbers

  datatype UrlField = SCHEMA | HOST | PORT | PATH | QUERY | FRAGMENT | USERINFO

  datatype Slice = Slice(off: nat, len: nat)

  /** `struct http_parser_url`: `parts.Keys` is `field_set`. */
  datatype Url = Url(parts: map<UrlField, Slice>, port: nat)

  datatype Option<T> = None | Some(value: T)

  // ---- the states by position

  /** The URL automaton after byte `i`. */
  function StateAt(entry: UrlState, buf: seq<byte>, i: nat): UrlState
    requires i < |buf|
  {
    UrlRun(entry, buf[..i + 1])
  }

  /** The component a state belongs to, if any. */
  function FieldOf(s: UrlState): Option<UrlField> {
    match s
    case Schema => Some(SCHEMA)
    case Server => Some(HOST)
    case ServerWithAt => Some(HOST)
    case Path => Some(PATH)
    case Query => Some(QUERY)
    case Fragment => Some(FRAGMENT)
    case _ => None
  }

  /** The order in which a URL passes through the states. */
  function Order(s: UrlState): nat {
    match s
    case UrlStart => 0
    case Schema => 1
    case SchemaSlash => 2
    case SchemaSlashSlash => 3
    case ServerStart => 4
    case Server => 5
    case ServerWithAt => 5
    case Path => 6
    case QueryStart => 7
    case Query => 8
    case FragmentStart => 9
    case Fragment => 10
    case UrlDead => 11
  }

  function OrderOf(f: UrlField): nat {
    match f
    case SCHEMA => 1
    case HOST => 5
    case PATH => 6
    case QUERY => 8
    case FRAGMENT => 10
    case _ => 12
  }

  /** The states of `sn_http_parse_host_char`. */
  datatype HostState =
    | HostDead | UserinfoStart | Userinfo | HostStart | V6Start | Host | V6 | V6End | ZoneStart | Zone
    | PortStart | Port

  predicate IsZoneChar(ch: byte) {
    IsAlphaNum(ch) || ch == '%' || ch == '.' || ch == '-' || ch == '_' || ch == '~'
  }

  /** `sn_http_parse_host_char` */
  function ParseHostChar(s: HostState, ch: byte): HostState {
    match s
    case UserinfoStart => UserinfoChar(ch)
    case Userinfo => UserinfoChar(ch)
    case HostStart => if ch == '[' then V6Start else if IsHostChar(ch) then Host else HostDead
    case Host => if IsHostChar(ch) then Host else if ch == ':' then PortStart else HostDead
    case V6End => if ch == ':' then PortStart else HostDead
    case V6 =>
      if ch == ']' then V6End
      else if IsHex(ch) || ch == ':' || ch == '.' then V6
      else if ch == '%' then ZoneStart
      else HostDead
    case V6Start => if IsHex(ch) || ch == ':' || ch == '.' then V6 else HostDead
    case Zone => if ch == ']' then V6End else if IsZoneChar(ch) then Zone else HostDead
    case ZoneStart => if IsZoneChar(ch) then Zone else HostDead
    case Port => if IsNum(ch) then Port else HostDead
    case PortStart => if IsNum(ch) then Port else HostDead
    case HostDead => HostDead
  }

  function UserinfoChar(ch: byte): HostState {
    if ch == '@' then HostStart else if IsUserinfoChar(ch) then Userinfo else HostDead
  }

  function HostRun(s: HostState, h: seq<byte>): HostState {
    if h == [] then s else ParseHostChar(HostRun(s, h[..|h| - 1]), h[|h| - 1])
  }

  function HostFieldOf(s: HostState): Option<UrlField> {
    match s
    case Userinfo => Some(USERINFO)
    case Host => Some(HOST)
    case V6 => Some(HOST)
    case ZoneStart => Some(HOST)
    case Zone => Some(HOST)
    case Port => Some(PORT)
    case _ => None
  }

  /** An authority may end here. */
  predicate HostEnds(s: HostState) { s.Host? || s.V6End? || s.Port? }

  // ---- what a correct result is

  /** `f` is set to exactly the positions `lo <= i < hi` for which `at(i)` is `f`, and not set if there are none. */
  ghost predicate Located(parts: map<UrlField, Slice>, f: UrlField, lo: nat, hi: nat, at: nat -> Option<UrlField>) {
    if f in parts then
      var s := parts[f];
      0 < s.len && lo <= s.off && s.off + s.len <= hi &&
      forall i: nat :: lo <= i < hi ==> (at(i) == Some(f) <==> s.off <= i < s.off + s.len)
    else
      forall i: nat :: lo <= i < hi ==> at(i) != Some(f)
  }

  function FieldAt(entry: UrlState, buf: seq<byte>): nat -> Option<UrlField> {
    (i: nat) => if i < |buf| then FieldOf(StateAt(entry, buf, i)) else None
  }

  predicate IsPiece(f: UrlField) { f.SCHEMA? || f.HOST? || f.PATH? || f.QUERY? || f.FRAGMENT? }

  /** The URL never goes back. */
  lemma OrderGrows(s: UrlState, ch: byte)
    ensures Order(s) <= Order(ParseUrlChar(s, ch))
  {}

  lemma FieldOrder(s: UrlState)
    ensures match FieldOf(s) case Some(f) => IsPiece(f) && OrderOf(f) == Order(s) case None => true
  {}

  lemma SameOrder(f: UrlField, g: UrlField)
    requires IsPiece(f) && IsPiece(g) && OrderOf(f) == OrderOf(g)
    ensures f == g
  {}

  /** Every component found lies in its place. */
  ghost predicate AllLocated(parts: map<UrlField, Slice>, n: nat, at: nat -> Option<UrlField>) {
    forall f :: IsPiece(f) ==> Located(parts, f, 0, n, at)
  }

  /** The components found come before the state `s` and up to `last`, which reaches position `n` as long
      as the state is its own. */
  ghost predicate Rising(parts: map<UrlField, Slice>, last: Option<UrlField>, s: UrlState, n: nat) {
    && (forall f :: f in parts ==> IsPiece(f) && OrderOf(f) <= Order(s) && last.Some? && OrderOf(f) <= OrderOf(last.value))
    && (last.Some? ==>
          last.value in parts &&
          (Order(s) == OrderOf(last.value) ==> parts[last.value].off + parts[last.value].len == n))
  }

  /** The pieces of the first `n` bytes; `last` is `old_uf`. */
  ghost predicate Cut(entry: UrlState, buf: seq<byte>, n: nat, parts: map<UrlField, Slice>, last: Option<UrlField>)
    requires n <= |buf|
  {
    AllLocated(parts, n, FieldAt(entry, buf)) && Rising(parts, last, UrlRun(entry, buf[..n]), n)
  }

  /** A byte that belongs to component `f`. */
  function Extend(parts: map<UrlField, Slice>, last: Option<UrlField>, f: UrlField, n: nat): map<UrlField, Slice>
    requires last == Some(f) ==> f in parts
  {
    parts[f := if last == Some(f) then parts[f].(len := parts[f].len + 1) else Slice(n, 1)]
  }

  lemma RisingStep(parts: map<UrlField, Slice>, last: Option<UrlField>, s: UrlState, s1: UrlState, n: nat)
    requires Rising(parts, last, s, n) && Order(s) <= Order(s1)
    ensures match FieldOf(s1)
            case None => Rising(parts, last, s1, n + 1)
            case Some(f) =>
              if last == Some(f)
              then f in parts && parts[f].off + parts[f].len == n && Rising(Extend(parts, last, f, n), last, s1, n + 1)
              else f !in parts && Rising(Extend(parts, last, f, n), Some(f), s1, n + 1)
  {
    hide Order, OrderOf, FieldOf, IsPiece;
    FieldOrder(s1);
    match FieldOf(s1)
    case None =>
      if last.Some? && Order(s1) == OrderOf(last.value) { OrderNames(s1, last.value); }
    case Some(f) =>
      if last != Some(f) && f in parts { SameOrder(f, last.value); }
  }

  lemma AllLocatedStep(parts: map<UrlField, Slice>, last: Option<UrlField>, n: nat, at: nat -> Option<UrlField>)
    requires AllLocated(parts, n, at)
    ensures at(n) == None ==> AllLocated(parts, n + 1, at)
    ensures match at(n)
            case None => true
            case Some(f) =>
              (if last == Some(f) then f in parts && parts[f].off + parts[f].len == n else f !in parts) ==>
                AllLocated(Extend(parts, last, f, n), n + 1, at)
  {
    hide Located, IsPiece;
    match at(n)
    case None => forall f | IsPiece(f) ensures Located(parts, f, 0, n + 1, at) { LocatedSkip(parts, f, n, at); }
    case Some(f) =>
      if if last == Some(f) then f in parts && parts[f].off + parts[f].len == n else f !in parts {
        forall g | IsPiece(g) ensures Located(Extend(parts, last, f, n), g, 0, n + 1, at) {
          LocatedMore(parts, last, f, g, n, at);
        }
      }
  }

  lemma CutStep(entry: UrlState, buf: seq<byte>, n: nat, parts: map<UrlField, Slice>, last: Option<UrlField>)
    requires n < |buf| && Cut(entry, buf, n, parts, last)
    ensures match FieldOf(StateAt(entry, buf, n))
            case None => Cut(entry, buf, n + 1, parts, last)
            case Some(f) => (last == Some(f) ==> f in parts) && Cut(entry, buf, n + 1, Extend(parts, last, f, n), Some(f))
  {
    hide ParseUrlChar, UrlRun, AllLocated, Rising, Order;
    var s, s1 := UrlRun(entry, buf[..n]), StateAt(entry, buf, n);
    assert buf[..n + 1] == buf[..n] + [buf[n]];
    UrlRunSnoc(entry, buf[..n], buf[n]);
    OrderGrows(s, buf[n]);
    assert FieldAt(entry, buf)(n) == FieldOf(s1);
    RisingStep(parts, last, s, s1, n);
    AllLocatedStep(parts, last, n, FieldAt(entry, buf));
  }

  /** A state of a component's order belongs to that component. */
  lemma OrderNames(s: UrlState, f: UrlField)
    requires IsPiece(f) && Order(s) == OrderOf(f)
    ensures FieldOf(s) == Some(f)
  {}

  lemma LocatedSkip(parts: map<UrlField, Slice>, f: UrlField, n: nat, at: nat -> Option<UrlField>)
    requires Located(parts, f, 0, n, at) && at(n) != Some(f)
    ensures Located(parts, f, 0, n + 1, at)
  {}

  lemma LocatedMore(parts: map<UrlField, Slice>, last: Option<UrlField>, f: UrlField, g: UrlField, n: nat,
                    at: nat -> Option<UrlField>)
    requires Located(parts, g, 0, n, at) && at(n) == Some(f)
    requires last == Some(f) ==> f in parts && parts[f].off + parts[f].len == n
    requires last != Some(f) ==> f !in parts
    ensures Located(Extend(parts, last, f, n), g, 0, n + 1, at)
  {}

  /** The first loop of `sn_http_parser_parse_url`. */
  method CutUrl(buf: seq<byte>, entry: UrlState) returns (ok: bool, parts: map<UrlField, Slice>, foundAt: bool)
    requires entry != UrlDead
    ensures ok <==> UrlRun(entry, buf) != UrlDead
    ensures ok ==> exists last :: Cut(entry, buf, |buf|, parts, last)
    ensures ok ==> (foundAt <==> exists i: nat :: i < |buf| && StateAt(entry, buf, i) == ServerWithAt)
  {
    hide ParseUrlChar, UrlRun, Cut;
    var s, last, p := entry, None, 0;
    parts, foundAt := map[], false;
    CutNothing(entry, buf);
    while p < |buf|
      invariant p <= |buf| && s == UrlRun(entry, buf[..p]) != UrlDead
      invariant Cut(entry, buf, p, parts, last)
      invariant foundAt <==> exists i: nat :: i < p && StateAt(entry, buf, i) == ServerWithAt
    {
      assert buf[..p + 1] == buf[..p] + [buf[p]];
      UrlRunSnoc(entry, buf[..p], buf[p]);
      CutStep(entry, buf, p, parts, last);
      CutLast(entry, buf, p, parts, last);
      s := ParseUrlChar(s, buf[p]);
      assert s == StateAt(entry, buf, p);
      if s == UrlDead {
        assert buf == buf[..p + 1] + buf[p + 1..];
        UrlRunAppend(entry, buf[..p + 1], buf[p + 1..]);
        DeadStaysDead(buf[p + 1..]);
        return false, map[], false;
      }
      if s == ServerWithAt { foundAt := true; }
      match FieldOf(s) {
        case None =>
        case Some(f) =>
          parts := Extend(parts, last, f, p);
          last := Some(f);
      }
      p := p + 1;
    }
    assert buf[..p] == buf;
    ok := true;
  }

  lemma CutNothing(entry: UrlState, buf: seq<byte>)
    ensures Cut(entry, buf, 0, map[], None)
    ensures UrlRun(entry, buf[..0]) == entry
  {}

  lemma CutLast(entry: UrlState, buf: seq<byte>, n: nat, parts: map<UrlField, Slice>, last: Option<UrlField>)
    requires n <= |buf| && Cut(entry, buf, n, parts, last)
    ensures last.Some? ==> last.value in parts
  {}

  // ---- the authority

  /** The authority automaton after byte `i`, started at `lo`. */
  function HostStateAt(start: HostState, buf: seq<byte>, lo: nat, i: nat): HostState
    requires lo <= i < |buf|
  {
    HostRun(start, buf[lo..i + 1])
  }

  function HostFieldAt(start: HostState, buf: seq<byte>, lo: nat, hi: nat): nat -> Option<UrlField>
    requires hi <= |buf|
  {
    (i: nat) => if lo <= i < hi then HostFieldOf(HostStateAt(start, buf, lo, i)) else None
  }

  predicate IsAuthorityField(f: UrlField) { f.USERINFO? || f.HOST? || f.PORT? }

  /** The order in which an authority passes through the states. */
  function HostOrder(s: HostState): nat {
    match s
    case UserinfoStart => 0
    case Userinfo => 1
    case HostStart => 2
    case V6Start => 3
    case Host => 4
    case V6 => 4
    case ZoneStart => 4
    case Zone => 4
    case V6End => 5
    case PortStart => 6
    case Port => 7
    case HostDead => 8
  }

  lemma HostOrderGrows(s: HostState, ch: byte)
    ensures HostOrder(s) <= HostOrder(ParseHostChar(s, ch))
  {}

  lemma HostDeadStays(s: HostState, a: seq<byte>, b: seq<byte>)
    requires HostRun(s, a) == HostDead
    ensures HostRun(s, a + b) == HostDead
    decreases |b|
  {
    if b == [] {
      assert a + b == a;
    } else {
      assert (a + b)[..|a + b| - 1] == a + b[..|b| - 1];
      HostDeadStays(s, a, b[..|b| - 1]);
    }
  }

  /** The components seen so far: the source keeps an empty HOST until the host begins. */
  function Seen(parts: map<UrlField, Slice>): map<UrlField, Slice>
    requires HOST in parts
  {
    if parts[HOST].len == 0 then parts - {HOST} else parts
  }

  ghost predicate AllSeen(parts: map<UrlField, Slice>, lo: nat, p: nat, at: nat -> Option<UrlField>) {
    HOST in parts && forall f :: IsAuthorityField(f) ==> Located(Seen(parts), f, lo, p, at)
  }

  /** How far the state says the authority has come. */
  predicate HostRising(parts: map<UrlField, Slice>, s: HostState, p: nat) {
    var k := HostOrder(s);
    && HOST in parts
    && (k == 0 ==> USERINFO !in parts)
    && (k == 1 ==> USERINFO in parts && parts[USERINFO].off + parts[USERINFO].len == p)
    && (k <= 3 <==> parts[HOST].len == 0)
    && (k == 4 ==> parts[HOST].off + parts[HOST].len == p)
    && (k <= 6 ==> PORT !in parts)
    && (k == 7 ==> PORT in parts && parts[PORT].off + parts[PORT].len == p)
  }

  /** The `switch` on the new state `s1` in `sn_http_parse_host`. */
  function ExtendHost(parts: map<UrlField, Slice>, s: HostState, s1: HostState, p: nat): map<UrlField, Slice>
    requires HostRising(parts, s, p)
  {
    match s1
    case Host => parts[HOST := Slice(if s != Host then p else parts[HOST].off, parts[HOST].len + 1)]
    case V6 => parts[HOST := Slice(if s != V6 then p else parts[HOST].off, parts[HOST].len + 1)]
    case ZoneStart => parts[HOST := Slice(parts[HOST].off, parts[HOST].len + 1)]
    case Zone => parts[HOST := Slice(parts[HOST].off, parts[HOST].len + 1)]
    case Port => parts[PORT := if s != Port then Slice(p, 1) else Slice(parts[PORT].off, parts[PORT].len + 1)]
    case Userinfo =>
      parts[USERINFO := if s != Userinfo then Slice(p, 1) else Slice(parts[USERINFO].off, parts[USERINFO].len + 1)]
    case _ => parts
  }

  lemma HostRisingStep(parts: map<UrlField, Slice>, s: HostState, ch: byte, p: nat)
    requires HostRising(parts, s, p) && ParseHostChar(s, ch) != HostDead
    ensures HostRising(ExtendHost(parts, s, ParseHostChar(s, ch), p), ParseHostChar(s, ch), p + 1)
  {}

  /** What a step does to the components, seen by field. */
  lemma ExtendHostEffect(parts: map<UrlField, Slice>, s: HostState, ch: byte, p: nat, g: UrlField)
    requires HostRising(parts, s, p) && ParseHostChar(s, ch) != HostDead && IsAuthorityField(g)
    ensures var s1 := ParseHostChar(s, ch);
            var before, after := Seen(parts), Seen(ExtendHost(parts, s, s1, p));
            if HostFieldOf(s1) != Some(g) then g in before <==> g in after && (g in before ==> after[g] == before[g])
            else g in after &&
                 if g in before then before[g].off + before[g].len == p && after[g] == Slice(before[g].off, before[g].len + 1)
                 else after[g] == Slice(p, 1)
  {}

  lemma AllSeenStep(parts: map<UrlField, Slice>, s: HostState, ch: byte, lo: nat, p: nat, at: nat -> Option<UrlField>)
    requires HostRising(parts, s, p) && ParseHostChar(s, ch) != HostDead && lo <= p
    requires AllSeen(parts, lo, p, at) && at(p) == HostFieldOf(ParseHostChar(s, ch))
    ensures AllSeen(ExtendHost(parts, s, ParseHostChar(s, ch), p), lo, p + 1, at)
  {
    hide HostRising, HostFieldOf, ParseHostChar, Seen, ExtendHost;
    var s1 := ParseHostChar(s, ch);
    HostStaysIn(parts, s, s1, p);
    forall g | IsAuthorityField(g) ensures Located(Seen(ExtendHost(parts, s, s1, p)), g, lo, p + 1, at) {
      ExtendHostEffect(parts, s, ch, p, g);
      assert Located(Seen(parts), g, lo, p, at);
    }
  }

  lemma HostStaysIn(parts: map<UrlField, Slice>, s: HostState, s1: HostState, p: nat)
    requires HostRising(parts, s, p)
    ensures HOST in ExtendHost(parts, s, s1, p)
  {}

  /** Where the authority automaton starts. */
  function HostEntry(foundAt: bool): HostState { if foundAt then UserinfoStart else HostStart }

  /** `sn_http_parse_host`: cuts the authority in `parts[HOST]` into user info, host and port. */
  method CutHost(buf: seq<byte>, parts0: map<UrlField, Slice>, foundAt: bool)
    returns (ok: bool, parts: map<UrlField, Slice>)
    requires HOST in parts0 && 0 < parts0[HOST].len && parts0[HOST].off + parts0[HOST].len <= |buf|
    requires PORT !in parts0 && USERINFO !in parts0
    ensures var lo, hi := parts0[HOST].off, parts0[HOST].off + parts0[HOST].len;
            (ok <==> HostEnds(HostRun(HostEntry(foundAt), buf[lo..hi]))) &&
            (ok ==>
               HOST in parts &&
               (forall f :: IsAuthorityField(f) ==> Located(parts, f, lo, hi, HostFieldAt(HostEntry(foundAt), buf, lo, hi))) &&
               (PORT in parts <==> HostRun(HostEntry(foundAt), buf[lo..hi]) == Port) &&
               (PORT in parts ==> parts[PORT].off + parts[PORT].len == hi) &&
               parts - {USERINFO, HOST, PORT} == parts0 - {HOST})
  {
    hide HostRun, ParseHostChar, AllSeen, HostRising, HostFieldOf, ExtendHost;
    var lo, hi := parts0[HOST].off, parts0[HOST].off + parts0[HOST].len;
    parts := parts0[HOST := Slice(lo, 0)];
    var s, p := HostEntry(foundAt), lo;
    ghost var at := HostFieldAt(s, buf, lo, hi);
    HostStarts(parts, s, lo, at);
    assert buf[lo..lo] == [];
    HostRunNothing(s);
    while p < hi
      invariant lo <= p <= hi && s == HostRun(HostEntry(foundAt), buf[lo..p]) != HostDead
      invariant AllSeen(parts, lo, p, at) && HostRising(parts, s, p)
      invariant parts - {USERINFO, HOST, PORT} == parts0 - {HOST}
    {
      assert buf[lo..p + 1] == buf[lo..p] + [buf[p]];
      HostRunSnoc(HostEntry(foundAt), buf[lo..p], buf[p]);
      var s1 := ParseHostChar(s, buf[p]);
      if s1 == HostDead {
        assert buf[lo..hi] == buf[lo..p + 1] + buf[p + 1..hi];
        HostDeadStays(HostEntry(foundAt), buf[lo..p + 1], buf[p + 1..hi]);
        return false, parts;
      }
      assert at(p) == HostFieldOf(s1);
      AllSeenStep(parts, s, buf[p], lo, p, at);
      HostRisingStep(parts, s, buf[p], p);
      OthersStay(parts, s, s1, p);
      parts := ExtendHost(parts, s, s1, p);
      s := s1;
      p := p + 1;
    }
    ok := HostEnds(s);
    if ok { HostSeen(parts, s, lo, hi, at); }
  }

  lemma HostRunNothing(s: HostState)
    ensures HostRun(s, []) == s
  {}

  lemma HostRunSnoc(s: HostState, h: seq<byte>, ch: byte)
    ensures HostRun(s, h + [ch]) == ParseHostChar(HostRun(s, h), ch)
  {
    assert (h + [ch])[..|h|] == h;
  }

  lemma HostStarts(parts: map<UrlField, Slice>, s: HostState, lo: nat, at: nat -> Option<UrlField>)
    requires HOST in parts && parts[HOST].len == 0 && PORT !in parts && USERINFO !in parts
    requires s == UserinfoStart || s == HostStart
    ensures AllSeen(parts, lo, lo, at) && HostRising(parts, s, lo)
  {}

  lemma OthersStay(parts: map<UrlField, Slice>, s: HostState, s1: HostState, p: nat)
    requires HostRising(parts, s, p)
    ensures ExtendHost(parts, s, s1, p) - {USERINFO, HOST, PORT} == parts - {USERINFO, HOST, PORT}
  {}

  lemma HostSeen(parts: map<UrlField, Slice>, s: HostState, lo: nat, hi: nat, at: nat -> Option<UrlField>)
    requires AllSeen(parts, lo, hi, at) && HostRising(parts, s, hi) && HostEnds(s)
    ensures HOST in parts && forall f :: IsAuthorityField(f) ==> Located(parts, f, lo, hi, at)
    ensures PORT in parts <==> s == Port
    ensures PORT in parts ==> parts[PORT].off + parts[PORT].len == hi
  {}

  // ---- the port

  /** The digits of the port at the end of an authority. */
  function PortDigits(start: HostState, h: seq<byte>): seq<byte> {
    if h != [] && HostRun(start, h) == Port then PortDigits(start, h[..|h| - 1]) + [h[|h| - 1]] else []
  }

  lemma {:induction false} PortDigitsAreDigits(start: HostState, h: seq<byte>)
    ensures AllDigits(PortDigits(start, h))
    decreases |h|
  {
    if h != [] && HostRun(start, h) == Port { PortDigitsAreDigits(start, h[..|h| - 1]); }
  }

  /** The port loop of `sn_http_parser_parse_url`: stops once the number is too large. */
  method ReadPort(digits: seq<byte>) returns (ok: bool, v: nat)
    requires AllDigits(digits)
    ensures ok <==> Decimal(0, digits) <= 0xffff
    ensures ok ==> v == Decimal(0, digits)
  {
    v := 0;
    var p := 0;
    assert digits[0..] == digits;
    while p < |digits|
      invariant p <= |digits| && v <= 0xffff && Decimal(0, digits) == Decimal(v, digits[p..])
    {
      v := v * 10 + Digit(digits[p]);
      assert digits[p..][1..] == digits[p + 1..];
      if v > 0xffff {
        DecimalGrows(v, digits[p + 1..]);
        return false, 0;
      }
      p := p + 1;
    }
    ok := true;
  }

  // ---- the whole URL

  function Entry(isConnect: bool): UrlState { if isConnect then ServerStart else UrlStart }

  ghost predicate Occurs(f: UrlField, n: nat, at: nat -> Option<UrlField>) {
    exists i: nat :: i < n && at(i) == Some(f)
  }

  /** The positions of `f` below `n` are exactly `lo <= i < hi`. */
  ghost predicate Spans(f: UrlField, n: nat, at: nat -> Option<UrlField>, lo: nat, hi: nat) {
    lo < hi <= n && forall i: nat :: i < n ==> (at(i) == Some(f) <==> lo <= i < hi)
  }

  /** The URL automaton has seen an at sign. */
  ghost predicate HasAt(entry: UrlState, buf: seq<byte>) {
    exists i: nat :: i < |buf| && StateAt(entry, buf, i) == ServerWithAt
  }

  /** An authority that is accepted: it ends well, its port is at most 65535, and for CONNECT it is nothing
      but host and port. */
  predicate AuthorityOk(start: HostState, h: seq<byte>, isConnect: bool) {
    PortDigitsAreDigits(start, h);
    HostEnds(HostRun(start, h)) && Decimal(0, PortDigits(start, h)) <= 0xffff &&
    (isConnect ==>
       HostRun(start, h) == Port && forall k :: 0 <= k <= |h| ==> HostRun(start, h[..k]) != Userinfo)
  }

  /** When the call returns 0. */
  ghost predicate Accepts(buf: seq<byte>, isConnect: bool) {
    var entry := Entry(isConnect);
    var at := FieldAt(entry, buf);
    && buf != [] && UrlRun(entry, buf) != UrlDead
    && (Occurs(SCHEMA, |buf|, at) ==> Occurs(HOST, |buf|, at))
    && (isConnect ==>
          Occurs(HOST, |buf|, at) && forall f :: IsPiece(f) && f != HOST ==> !Occurs(f, |buf|, at))
    && (forall lo: nat, hi: nat :: Spans(HOST, |buf|, at, lo, hi) ==>
          AuthorityOk(HostEntry(HasAt(entry, buf)), buf[lo..hi], isConnect))
  }

  /** The authority is `buf[lo..hi]`, and its components lie where the authority automaton puts them. */
  ghost predicate AuthorityAt(buf: seq<byte>, entry: UrlState, parts: map<UrlField, Slice>, lo: nat, hi: nat) {
    && Spans(HOST, |buf|, FieldAt(entry, buf), lo, hi) && HOST in parts
    && forall f :: IsAuthorityField(f) ==>
         Located(parts, f, lo, hi, HostFieldAt(HostEntry(HasAt(entry, buf)), buf, lo, hi))
  }

  /** What a result of 0 means: the components lie where the automata put them, and the port is read. */
  ghost predicate Describes(buf: seq<byte>, isConnect: bool, u: Url) {
    var entry := Entry(isConnect);
    var at := FieldAt(entry, buf);
    && (forall f :: IsPiece(f) && f != HOST ==> Located(u.parts, f, 0, |buf|, at))
    && (if Occurs(HOST, |buf|, at) then
          exists lo: nat, hi: nat :: AuthorityAt(buf, entry, u.parts, lo, hi)
        else HOST !in u.parts && PORT !in u.parts && USERINFO !in u.parts)
    && (if PORT in u.parts then
          var s := u.parts[PORT];
          s.off + s.len <= |buf| && AllDigits(buf[s.off..s.off + s.len]) &&
          u.port == Decimal(0, buf[s.off..s.off + s.len]) <= 0xffff
        else u.port == 0)
  }

  lemma LocatedOccurs(parts: map<UrlField, Slice>, f: UrlField, n: nat, at: nat -> Option<UrlField>)
    requires Located(parts, f, 0, n, at)
    ensures f in parts <==> Occurs(f, n, at)
    ensures f in parts ==> Spans(f, n, at, parts[f].off, parts[f].off + parts[f].len)
  {
    if f in parts { assert at(parts[f].off) == Some(f); }
  }

  lemma SpansOnce(f: UrlField, n: nat, at: nat -> Option<UrlField>, lo: nat, hi: nat, lo': nat, hi': nat)
    requires Spans(f, n, at, lo, hi) && Spans(f, n, at, lo', hi')
    ensures lo == lo' && hi == hi'
  {
    assert at(lo) == Some(f) && at(hi - 1) == Some(f) && at(lo') == Some(f) && at(hi' - 1) == Some(f);
  }

  /** The port's slice holds the digits of the authority's port. */
  lemma {:induction false} PortSlice(start: HostState, buf: seq<byte>, lo: nat, off: nat, hi: nat)
    requires lo <= off <= hi <= |buf|
    requires forall i :: off <= i < hi ==> HostStateAt(start, buf, lo, i) == Port
    requires off > lo ==> HostRun(start, buf[lo..off]) != Port
    ensures PortDigits(start, buf[lo..hi]) == buf[off..hi]
    decreases hi
  {
    var h := buf[lo..hi];
    if off < hi {
      assert HostStateAt(start, buf, lo, hi - 1) == Port;
      assert h[..|h| - 1] == buf[lo..hi - 1];
      assert buf[off..hi] == buf[off..hi - 1] + [buf[hi - 1]];
      PortSlice(start, buf, lo, off, hi - 1);
    } else if off > lo {
      assert h == buf[lo..off];
    }
  }

  /** Port and user info of an authority, as the located components show them. */
  lemma AuthorityPort(start: HostState, buf: seq<byte>, lo: nat, hi: nat, parts: map<UrlField, Slice>)
    requires lo < hi <= |buf| && start != Port
    requires Located(parts, PORT, lo, hi, HostFieldAt(start, buf, lo, hi))
    requires PORT in parts <==> HostRun(start, buf[lo..hi]) == Port
    requires PORT in parts ==> parts[PORT].off + parts[PORT].len == hi
    ensures PORT in parts ==> PortDigits(start, buf[lo..hi]) == buf[parts[PORT].off..hi]
    ensures PORT !in parts ==> PortDigits(start, buf[lo..hi]) == []
  {
    hide ParseHostChar, HostRun;
    var at := HostFieldAt(start, buf, lo, hi);
    if PORT in parts {
      var off := parts[PORT].off;
      forall i | off <= i < hi ensures HostStateAt(start, buf, lo, i) == Port { assert at(i) == Some(PORT); }
      if off > lo { assert at(off - 1) != Some(PORT); }
      PortSlice(start, buf, lo, off, hi);
    }
  }

  lemma AuthorityUser(start: HostState, buf: seq<byte>, lo: nat, hi: nat, parts: map<UrlField, Slice>)
    requires lo < hi <= |buf| && start != Userinfo
    requires Located(parts, USERINFO, lo, hi, HostFieldAt(start, buf, lo, hi))
    ensures USERINFO !in parts <==> forall k :: 0 <= k <= hi - lo ==> HostRun(start, buf[lo..hi][..k]) != Userinfo
  {
    hide ParseHostChar, HostRun;
    var at := HostFieldAt(start, buf, lo, hi);
    HostRunNothing(start);
    if USERINFO in parts {
      var i := parts[USERINFO].off;
      assert at(i) == Some(USERINFO);
      assert buf[lo..hi][..i + 1 - lo] == buf[lo..i + 1];
    } else {
      forall k | 0 <= k <= hi - lo ensures HostRun(start, buf[lo..hi][..k]) != Userinfo {
        assert buf[lo..hi][..k] == buf[lo..lo + k];
        if k > 0 { assert at(lo + k - 1) != Some(USERINFO); }
      }
    }
  }

  lemma PiecesOccur(entry: UrlState, buf: seq<byte>, parts: map<UrlField, Slice>)
    requires exists last :: Cut(entry, buf, |buf|, parts, last)
    ensures var at := FieldAt(entry, buf);
            && (forall f :: IsPiece(f) ==> Located(parts, f, 0, |buf|, at) && (f in parts <==> Occurs(f, |buf|, at)))
            && (HOST in parts ==> Spans(HOST, |buf|, at, parts[HOST].off, parts[HOST].off + parts[HOST].len))
            && PORT !in parts && USERINFO !in parts
  {
    hide UrlRun, Located, Occurs, Spans, FieldAt;
    var at := FieldAt(entry, buf);
    forall f | IsPiece(f) ensures Located(parts, f, 0, |buf|, at) && (f in parts <==> Occurs(f, |buf|, at)) {
      LocatedOccurs(parts, f, |buf|, at);
    }
    LocatedOccurs(parts, HOST, |buf|, at);
  }

  lemma AtSign(entry: UrlState, buf: seq<byte>)
    ensures HasAt(entry, buf) <==> exists i: nat :: i < |buf| && StateAt(entry, buf, i) == ServerWithAt
  {}

  lemma SpanInside(f: UrlField, n: nat, at: nat -> Option<UrlField>, lo: nat, hi: nat)
    requires Spans(f, n, at, lo, hi)
    ensures lo < hi <= n
  {}

  /** What the first loop found. */
  ghost predicate PiecesFound(buf: seq<byte>, isConnect: bool, pieces: map<UrlField, Slice>) {
    var at := FieldAt(Entry(isConnect), buf);
    && buf != [] && UrlRun(Entry(isConnect), buf) != UrlDead
    && (forall f :: IsPiece(f) ==> Located(pieces, f, 0, |buf|, at) && (f in pieces <==> Occurs(f, |buf|, at)))
    && PORT !in pieces && USERINFO !in pieces
  }

  lemma WithoutHost(buf: seq<byte>, isConnect: bool, pieces: map<UrlField, Slice>)
    requires PiecesFound(buf, isConnect, pieces) && HOST !in pieces
    ensures Accepts(buf, isConnect) <==> SCHEMA !in pieces && !isConnect
    ensures Describes(buf, isConnect, Url(pieces, 0))
  {
    hide UrlRun, Located, FieldAt, AuthorityOk;
    NoSpan(HOST, |buf|, FieldAt(Entry(isConnect), buf));
  }

  lemma NoSpan(f: UrlField, n: nat, at: nat -> Option<UrlField>)
    requires !Occurs(f, n, at)
    ensures forall lo: nat, hi: nat :: !Spans(f, n, at, lo, hi)
  {
    forall lo: nat, hi: nat ensures !Spans(f, n, at, lo, hi) {
      if lo < n { assert at(lo) != Some(f); }
    }
  }

  lemma SpansOccurs(f: UrlField, n: nat, at: nat -> Option<UrlField>, lo: nat, hi: nat)
    requires Spans(f, n, at, lo, hi)
    ensures Occurs(f, n, at)
  {
    assert at(lo) == Some(f);
  }

  lemma BadAuthority(buf: seq<byte>, isConnect: bool, lo: nat, hi: nat)
    requires Spans(HOST, |buf|, FieldAt(Entry(isConnect), buf), lo, hi)
    requires !AuthorityOk(HostEntry(HasAt(Entry(isConnect), buf)), buf[lo..hi], isConnect)
    ensures !Accepts(buf, isConnect)
  {
    hide UrlRun, FieldAt, AuthorityOk, HasAt;
  }

  /** What the authority's loop found. */
  ghost predicate AuthorityFound(start: HostState, buf: seq<byte>, lo: nat, hi: nat, parts: map<UrlField, Slice>) {
    && lo < hi <= |buf| && HOST in parts && HostEnds(HostRun(start, buf[lo..hi]))
    && (forall f :: IsAuthorityField(f) ==> Located(parts, f, lo, hi, HostFieldAt(start, buf, lo, hi)))
    && (PORT in parts <==> HostRun(start, buf[lo..hi]) == Port)
    && (PORT in parts ==> parts[PORT].off + parts[PORT].len == hi)
  }

  /** The last checks, on the components found. */
  lemma AuthorityVerdict(start: HostState, buf: seq<byte>, lo: nat, hi: nat, parts: map<UrlField, Slice>, isConnect: bool)
    requires AuthorityFound(start, buf, lo, hi, parts) && start != Port && start != Userinfo
    ensures PORT in parts ==>
              var s := parts[PORT];
              s.off + s.len <= |buf| && AllDigits(buf[s.off..s.off + s.len])
    ensures AuthorityOk(start, buf[lo..hi], isConnect) <==>
              (PORT in parts ==> Decimal(0, buf[parts[PORT].off..parts[PORT].off + parts[PORT].len]) <= 0xffff) &&
              (isConnect ==> PORT in parts && USERINFO !in parts)
  {
    hide HostRun, Located;
    AuthorityPort(start, buf, lo, hi, parts);
    AuthorityUser(start, buf, lo, hi, parts);
    PortDigitsAreDigits(start, buf[lo..hi]);
  }

  lemma WithHost(buf: seq<byte>, isConnect: bool, pieces: map<UrlField, Slice>, parts: map<UrlField, Slice>)
    requires PiecesFound(buf, isConnect, pieces) && HOST in pieces
    requires var s := pieces[HOST];
             AuthorityFound(HostEntry(HasAt(Entry(isConnect), buf)), buf, s.off, s.off + s.len, parts)
    requires parts - {USERINFO, HOST, PORT} == pieces - {HOST}
    ensures PORT in parts ==>
              var s := parts[PORT];
              s.off + s.len <= |buf| && AllDigits(buf[s.off..s.off + s.len])
    ensures Accepts(buf, isConnect) <==>
              (PORT in parts ==> Decimal(0, buf[parts[PORT].off..parts[PORT].off + parts[PORT].len]) <= 0xffff) &&
              (isConnect ==> parts.Keys == {HOST, PORT})
    ensures Describes(buf, isConnect,
                      Url(parts, if PORT in parts then Decimal(0, buf[parts[PORT].off..parts[PORT].off + parts[PORT].len]) else 0))
            || (PORT in parts && Decimal(0, buf[parts[PORT].off..parts[PORT].off + parts[PORT].len]) > 0xffff)
  {
    hide UrlRun, Located, FieldAt, AuthorityOk, HasAt, Occurs, AuthorityFound, Spans;
    var at := FieldAt(Entry(isConnect), buf);
    var lo, hi := pieces[HOST].off, pieces[HOST].off + pieces[HOST].len;
    var start := HostEntry(HasAt(Entry(isConnect), buf));
    LocatedOccurs(pieces, HOST, |buf|, at);
    AuthorityVerdict(start, buf, lo, hi, parts, isConnect);
    forall lo': nat, hi': nat | Spans(HOST, |buf|, at, lo', hi') ensures lo' == lo && hi' == hi {
      SpansOnce(HOST, |buf|, at, lo, hi, lo', hi');
    }
    SamePieces(pieces, parts, |buf|, at);
    FoundHost(start, buf, lo, hi, parts);
    assert AuthorityAt(buf, Entry(isConnect), parts, lo, hi);
  }

  lemma FoundHost(start: HostState, buf: seq<byte>, lo: nat, hi: nat, parts: map<UrlField, Slice>)
    requires AuthorityFound(start, buf, lo, hi, parts)
    ensures HOST in parts && lo < hi <= |buf|
    ensures forall f :: IsAuthorityField(f) ==> Located(parts, f, lo, hi, HostFieldAt(start, buf, lo, hi))
  {}

  /** The other components are untouched. */
  lemma SamePieces(pieces: map<UrlField, Slice>, parts: map<UrlField, Slice>, n: nat, at: nat -> Option<UrlField>)
    requires parts - {USERINFO, HOST, PORT} == pieces - {HOST}
    ensures forall f :: IsPiece(f) && f != HOST ==> (f in parts <==> f in pieces) && (f in parts ==> parts[f] == pieces[f])
    ensures forall f :: IsPiece(f) && f != HOST && Located(pieces, f, 0, n, at) ==> Located(parts, f, 0, n, at)
  {
    forall f | IsPiece(f) && f != HOST ensures (f in parts <==> f in pieces) && (f in parts ==> parts[f] == pieces[f]) {
      assert f in parts <==> f in parts - {USERINFO, HOST, PORT};
      assert f in pieces <==> f in pieces - {HOST};
      if f in parts {
        assert (parts - {USERINFO, HOST, PORT})[f] == parts[f] && (pieces - {HOST})[f] == pieces[f];
      }
    }
  }

  /** `sn_http_parser_parse_url`: `ok` is a result of 0. */
  method ParseUrl(buf: seq<byte>, isConnect: bool) returns (ok: bool, u: Url)
    requires |buf| <= 0xffff
    ensures ok <==> Accepts(buf, isConnect)
    ensures ok ==> Describes(buf, isConnect, u)
  {
    hide UrlRun, HostRun, Located, Occurs, Spans, FieldOf, HasAt, Rising, AllLocated, AuthorityFound, AuthorityOk, Describes;
    u := Url(map[], 0);
    if buf == [] { return false, u; }
    var parts, foundAt;
    ok, parts, foundAt := CutUrl(buf, Entry(isConnect));
    if !ok { return; }
    ghost var pieces := parts;
    PiecesOccur(Entry(isConnect), buf, parts);
    AtSign(Entry(isConnect), buf);
    if HOST !in parts { WithoutHost(buf, isConnect, parts); }
    if SCHEMA in parts && HOST !in parts { return false, u; }
    if HOST in parts {
      ghost var lo, hi := parts[HOST].off, parts[HOST].off + parts[HOST].len;
      SpanInside(HOST, |buf|, FieldAt(Entry(isConnect), buf), lo, hi);
      ok, parts := CutHost(buf, parts, foundAt);
      if !ok {
        NoAuthority(HostEntry(foundAt), buf[lo..hi], isConnect);
        BadAuthority(buf, isConnect, lo, hi);
        return;
      }
      Found(HostEntry(foundAt), buf, lo, hi, parts);
      WithHost(buf, isConnect, pieces, parts);
    }
    if isConnect && parts.Keys != {HOST, PORT} { return false, u; }
    var port := 0;
    if PORT in parts {
      var s := parts[PORT];
      ok, port := ReadPort(buf[s.off..s.off + s.len]);
      if !ok { return; }
    }
    u := Url(parts, port);
    ok := true;
  }

  lemma NoAuthority(start: HostState, h: seq<byte>, isConnect: bool)
    requires !HostEnds(HostRun(start, h))
    ensures !AuthorityOk(start, h, isConnect)
  {}

  lemma Found(start: HostState, buf: seq<byte>, lo: nat, hi: nat, parts: map<UrlField, Slice>)
    requires lo < hi <= |buf| && HOST in parts && HostEnds(HostRun(start, buf[lo..hi]))
    requires forall f :: IsAuthorityField(f) ==> Located(parts, f, lo, hi, HostFieldAt(start, buf, lo, hi))
    requires PORT in parts <==> HostRun(start, buf[lo..hi]) == Port
    requires PORT in parts ==> parts[PORT].off + parts[PORT].len == hi
    ensures AuthorityFound(start, buf, lo, hi, parts)
  {}
}
