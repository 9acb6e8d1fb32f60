/** What the components of an accepted URL are. */
module UrlTheorems {
  import opened Bytes
  import opened ParserState
  import opened UrlAutomaton
  import opened Urls
  import opened Trace
  import opened Transitions
  import opened ByteMachine
  import opened Skips
  import opened RequestLines
  import opened UrlLanguage

  // ---- order

  /** The order of the components in a URL. */
  function Place(f: UrlField): nat {
    match f
    case SCHEMA => 0
    case USERINFO => 1
    case HOST => 2
    case PORT => 3
    case PATH => 4
    case QUERY => 5
    case FRAGMENT => 6
  }

  lemma {:induction false} OrderAlong(entry: UrlState, buf: seq<byte>, i: nat, j: nat)
    requires i <= j < |buf|
    ensures Order(StateAt(entry, buf, i)) <= Order(StateAt(entry, buf, j))
    decreases j
  {
    hide ParseUrlChar, UrlRun;
    if i < j {
      OrderAlong(entry, buf, i, j - 1);
      assert buf[..j + 1] == buf[..j] + [buf[j]];
      UrlRunSnoc(entry, buf[..j], buf[j]);
      OrderGrows(UrlRun(entry, buf[..j]), buf[j]);
    }
  }

  lemma {:induction false} HostOrderAlong(start: HostState, buf: seq<byte>, lo: nat, i: nat, j: nat)
    requires lo <= i <= j < |buf|
    ensures HostOrder(HostStateAt(start, buf, lo, i)) <= HostOrder(HostStateAt(start, buf, lo, j))
    decreases j
  {
    hide ParseHostChar, HostRun;
    if i < j {
      HostOrderAlong(start, buf, lo, i, j - 1);
      assert buf[lo..j + 1] == buf[lo..j] + [buf[j]];
      HostRunSnoc(start, buf[lo..j], buf[j]);
      HostOrderGrows(HostRun(start, buf[lo..j]), buf[j]);
    }
  }

  /** Pieces lie in the order of their states. */
  lemma PiecesInOrder(entry: UrlState, buf: seq<byte>, f: UrlField, g: UrlField, i: nat, j: nat)
    requires IsPiece(f) && IsPiece(g) && Place(f) < Place(g) && i < |buf| && j < |buf|
    requires FieldAt(entry, buf)(i) == Some(f) && FieldAt(entry, buf)(j) == Some(g)
    ensures i < j
  {
    hide UrlRun;
    FieldOrder(StateAt(entry, buf, i));
    FieldOrder(StateAt(entry, buf, j));
    if j <= i { OrderAlong(entry, buf, j, i); }
  }

  lemma AuthorityInOrder(start: HostState, buf: seq<byte>, lo: nat, hi: nat, f: UrlField, g: UrlField, i: nat, j: nat)
    requires IsAuthorityField(f) && IsAuthorityField(g) && Place(f) < Place(g) && lo <= i < hi <= |buf| && lo <= j < hi
    requires HostFieldAt(start, buf, lo, hi)(i) == Some(f) && HostFieldAt(start, buf, lo, hi)(j) == Some(g)
    ensures i < j
  {
    hide HostRun;
    if j <= i { HostOrderAlong(start, buf, lo, j, i); }
  }

  /** `f` ends before `g` begins. */
  predicate Before(u: Url, f: UrlField, g: UrlField) {
    f in u.parts && g in u.parts ==> u.parts[f].off + u.parts[f].len <= u.parts[g].off
  }

  /** Every component of an accepted URL is a slice of it, not empty, and the components follow one another
      in the order scheme, user info, host, port, path, query, fragment, so no two overlap. */
  lemma ComponentsInOrder(buf: seq<byte>, isConnect: bool, u: Url)
    requires Describes(buf, isConnect, u)
    ensures forall f :: f in u.parts ==> 0 < u.parts[f].len && u.parts[f].off + u.parts[f].len <= |buf|
    ensures forall f, g :: Place(f) < Place(g) ==> Before(u, f, g)
  {
    hide Occurs, Spans, FieldAt, HostFieldAt, HasAt;
    var entry := Entry(isConnect);
    var at := FieldAt(entry, buf);
    var lo: nat, hi: nat := 0, 0;
    if Occurs(HOST, |buf|, at) {
      var a: nat, b: nat :| AuthorityAt(buf, entry, u.parts, a, b);
      SpanInside(HOST, |buf|, at, a, b);
      lo, hi := a, b;
    }
    forall f | f in u.parts ensures 0 < u.parts[f].len && u.parts[f].off + u.parts[f].len <= |buf| {
      assert IsAuthorityField(f) || (IsPiece(f) && f != HOST);
    }
    forall f, g | Place(f) < Place(g) ensures Before(u, f, g) {
      if f in u.parts && g in u.parts {
        TwoInOrder(buf, entry, HostEntry(HasAt(entry, buf)), lo, hi, u, f, g);
      }
    }
  }

  lemma TwoInOrder(buf: seq<byte>, entry: UrlState, start: HostState, lo: nat, hi: nat, u: Url, f: UrlField, g: UrlField)
    requires lo <= hi <= |buf| && f in u.parts && g in u.parts && Place(f) < Place(g)
    requires forall f :: IsPiece(f) && f != HOST ==> Located(u.parts, f, 0, |buf|, FieldAt(entry, buf))
    requires IsAuthorityField(f) || IsAuthorityField(g) ==>
               Spans(HOST, |buf|, FieldAt(entry, buf), lo, hi) &&
               forall f :: IsAuthorityField(f) ==> Located(u.parts, f, lo, hi, HostFieldAt(start, buf, lo, hi))
    ensures Before(u, f, g)
  {
    hide FieldAt, HostFieldAt;
    var at, inner := FieldAt(entry, buf), HostFieldAt(start, buf, lo, hi);
    var a, b := u.parts[f], u.parts[g];
    if IsAuthorityField(f) && IsAuthorityField(g) {
      assert Located(u.parts, f, lo, hi, inner) && Located(u.parts, g, lo, hi, inner);
      assert inner(a.off + a.len - 1) == Some(f) && inner(b.off) == Some(g);
      AuthorityInOrder(start, buf, lo, hi, f, g, a.off + a.len - 1, b.off);
    } else if IsAuthorityField(f) {
      assert Located(u.parts, f, lo, hi, inner) && Located(u.parts, g, 0, |buf|, at);
      assert at(a.off + a.len - 1) == Some(HOST) && at(b.off) == Some(g);
      PiecesInOrder(entry, buf, HOST, g, a.off + a.len - 1, b.off);
    } else if IsAuthorityField(g) {
      assert Located(u.parts, f, 0, |buf|, at) && Located(u.parts, g, lo, hi, inner);
      assert at(a.off + a.len - 1) == Some(f) && at(b.off) == Some(HOST);
      PiecesInOrder(entry, buf, f, HOST, a.off + a.len - 1, b.off);
    } else {
      assert Located(u.parts, f, 0, |buf|, at) && Located(u.parts, g, 0, |buf|, at);
      assert at(a.off + a.len - 1) == Some(f) && at(b.off) == Some(g);
      PiecesInOrder(entry, buf, f, g, a.off + a.len - 1, b.off);
    }
  }

  // ---- the two users of the automaton

  /** A target ends at the first space, CR or LF. */
  predicate NoSeparator(u: seq<byte>) { forall i :: 0 <= i < |u| ==> u[i] != ' ' && u[i] != CR && u[i] != LF }

  lemma BadUrlByte(cfg: Config, f: Fields, log: seq<Event>, rest: seq<byte>)
    requires rest != [] && f.state.Target? && f.nread + 1 <= cfg.maxHeader
    requires (ParseUrlChar(f.state.url, rest[0]) == UrlDead && NoSeparator([rest[0]])) ||
             (rest[0] == ' ' && EarlyUrl(f.state.url))
    ensures Run(cfg, Machine(f, log), rest) == Failed(InvalidUrl, |rest|, log)
  {
    hide Run, ParseUrlChar, EarlyUrl;
    assert [rest[0]][0] == rest[0];
    Separators(f.state.url, rest[0]);
    var g := f.(nread := f.nread + 1);
    FailStep(cfg, Machine(f, log), rest, InvalidUrl);
  }

  /** A target that the automaton does not take. */
  lemma {:induction false} BadTarget(cfg: Config, f: Fields, log: seq<Event>, u: seq<byte>)
    requires f.state.Target? && f.state.url != UrlDead && EndsIn(log, DataKind.Url) && NoSeparator(u)
    requires f.nread + |u| + 1 <= cfg.maxHeader
    requires var s := UrlRun(f.state.url, u); s == UrlDead || EarlyUrl(s)
    ensures var r := Run(cfg, Machine(f, log), u + [' ']); r.Failed? && r.errno == InvalidUrl
    decreases |u|
  {
    hide Run, Push, ParseUrlChar, EarlyUrl;
    var t := u + [' '];
    if u == [] {
      BadUrlByte(cfg, f, log, t);
    } else {
      var s := ParseUrlChar(f.state.url, u[0]);
      assert [u[0]][0] == u[0];
      if s == UrlDead {
        BadUrlByte(cfg, f, log, t);
      } else {
        Separators(f.state.url, u[0]);
        var g := f.(state := Target(s), nread := f.nread + 1);
        QuietStep(cfg, Machine(f, log), t, g);
        assert t[1..] == u[1..] + [' '];
        BadTarget(cfg, g, Push(log, Data(DataKind.Url, [u[0]])), u[1..]);
      }
    }
  }

  lemma BadFirst(cfg: Config, f: Fields, log: seq<Event>, rest: seq<byte>)
    requires f.state == MethodWord(ReqSpacesBeforeUrl) && rest != [] && f.nread + 1 <= cfg.maxHeader
    requires ParseUrlChar(UrlEntry(f), rest[0]) == UrlDead && NoSeparator([rest[0]])
    ensures Run(cfg, Machine(f, log), rest) == Failed(InvalidUrl, |rest|, log)
  {
    hide Run, ParseUrlChar, UrlEntry;
    assert [rest[0]][0] == rest[0];
    var g := f.(nread := f.nread + 1);
    assert UrlEntry(g) == UrlEntry(f) by { EntryCount(f, f.nread + 1); }
    FailStep(cfg, Machine(f, log), rest, InvalidUrl);
  }

  lemma EntryCount(f: Fields, n: nat)
    ensures UrlEntry(f.(nread := n)) == UrlEntry(f)
  {}

  /** A target and the space after it: accepted if and only if the automaton takes every byte and does not
      end inside the scheme or before the authority; then it is reported whole. */
  lemma TargetExact(cfg: Config, f: Fields, log: seq<Event>, u: seq<byte>)
    requires f.state == MethodWord(ReqSpacesBeforeUrl) && u != [] && f.nread + |u| + 1 <= cfg.maxHeader
    requires NoSeparator(u)
    ensures var s := UrlRun(UrlEntry(f), u);
            match Run(cfg, Machine(f, log), u + [' '])
            case Ran(m) => s != UrlDead && !EarlyUrl(s) &&
              m == Machine(f.(state := Version(ReqHttpStart), nread := f.nread + |u| + 1), Push(log, Data(DataKind.Url, u)))
            case Stopped(_, _) => false
            case Failed(e, _, _) => (s == UrlDead || EarlyUrl(s)) && e == InvalidUrl
  {
    hide Run, Push, ParseUrlChar, EarlyUrl, UrlEntry;
    var s := UrlRun(UrlEntry(f), u);
    if s != UrlDead && !EarlyUrl(s) {
      TargetRead(cfg, f, log, u);
    } else {
      assert [u[0]][0] == u[0];
      var t := u + [' '];
      var s1 := ParseUrlChar(UrlEntry(f), u[0]);
      if s1 == UrlDead {
        BadFirst(cfg, f, log, t);
      } else {
        var g := f.(state := Target(s1), nread := f.nread + 1);
        TargetStarts(cfg, f, log, t, s1);
        assert t[1..] == u[1..] + [' '];
        BadTarget(cfg, g, Push(log, Data(DataKind.Url, [u[0]])), u[1..]);
      }
    }
  }

  /** The same by the text of the target alone. */
  lemma TargetByText(cfg: Config, f: Fields, log: seq<Event>, u: seq<byte>)
    requires f.state == MethodWord(ReqSpacesBeforeUrl) && u != [] && f.nread + |u| + 1 <= cfg.maxHeader
    requires NoSeparator(u)
    ensures var legal := if f.verb == CONNECT then ServerText(u) else UrlText(u);
            match Run(cfg, Machine(f, log), u + [' '])
            case Ran(m) => legal &&
              m == Machine(f.(state := Version(ReqHttpStart), nread := f.nread + |u| + 1), Push(log, Data(DataKind.Url, u)))
            case Stopped(_, _) => false
            case Failed(e, _, _) => !legal && e == InvalidUrl
  {
    hide Run, Push, ParseUrlChar, UrlRun, ServerText, UrlText;
    TargetExact(cfg, f, log, u);
    UrlExact(u);
    AuthorityExact(u);
    NeverStart(UrlEntry(f), u);
  }

  /** The automaton leaves its start for good. */
  lemma NeverStart(s: UrlState, u: seq<byte>)
    requires u != []
    ensures UrlRun(s, u) != UrlStart
  {
    hide ParseUrlChar;
    UrlRunSnoc(s, u[..|u| - 1], u[|u| - 1]);
    assert u == u[..|u| - 1] + [u[|u| - 1]];
    NotStart(UrlRun(s, u[..|u| - 1]), u[|u| - 1]);
  }

  lemma NotStart(s: UrlState, ch: byte)
    ensures ParseUrlChar(s, ch) != UrlStart
  {}

  lemma FirstState(isConnect: bool, ch: byte)
    ensures var s := ParseUrlChar(Entry(isConnect), ch); s == Schema || Order(s) >= 5
    ensures isConnect ==> ParseUrlChar(Entry(isConnect), ch) != Schema
  {}

  lemma EarlyOrder(s: UrlState)
    ensures EarlyUrl(s) ==> Order(s) <= 4
  {}

  lemma {:induction false} LiveBytes(entry: UrlState, u: seq<byte>)
    requires UrlRun(entry, u) != UrlDead
    ensures NoSeparator(u)
    decreases |u|
  {
    if u != [] {
      var v, ch := u[..|u| - 1], u[|u| - 1];
      assert u == v + [ch];
      UrlRunSnoc(entry, v, ch);
      Separators(UrlRun(entry, v), ch);
      LiveBytes(entry, v);
    }
  }

  /** An accepted URL does not end early. */
  lemma AcceptedEnds(u: seq<byte>, isConnect: bool)
    requires Accepts(u, isConnect)
    ensures !EarlyUrl(UrlRun(Entry(isConnect), u)) && NoSeparator(u)
  {
    hide ParseUrlChar, UrlRun, EarlyUrl, AuthorityOk, Spans, HasAt;
    var entry := Entry(isConnect);
    LiveBytes(entry, u);
    var last := |u| - 1;
    assert u[..last + 1] == u;
    if EarlyUrl(UrlRun(entry, u)) {
      EarlyOrder(StateAt(entry, u, last));
      assert u[..1] == [] + [u[0]];
      UrlRunSnoc(entry, [], u[0]);
      UrlRunNothing(entry);
      FirstState(isConnect, u[0]);
      OrderAlong(entry, u, 0, last);
      assert FieldAt(entry, u)(0) == Some(SCHEMA);
      var i: nat :| i < |u| && FieldAt(entry, u)(i) == Some(HOST);
      OrderAlong(entry, u, i, last);
      FieldOrder(StateAt(entry, u, i));
      assert false;
    }
  }

  lemma UrlRunNothing(s: UrlState)
    ensures UrlRun(s, []) == s
  {}

  /** What `sn_http_parser_parse_url` accepts, the request parser accepts as a target, and reports it whole. */
  lemma AcceptedAsTarget(cfg: Config, f: Fields, log: seq<Event>, u: seq<byte>)
    requires f.state == MethodWord(ReqSpacesBeforeUrl) && f.nread + |u| + 1 <= cfg.maxHeader
    requires Accepts(u, f.verb == CONNECT)
    ensures Run(cfg, Machine(f, log), u + [' ']) ==
            Ran(Machine(f.(state := Version(ReqHttpStart), nread := f.nread + |u| + 1), Push(log, Data(DataKind.Url, u))))
  {
    hide Run, Push, EarlyUrl, UrlRun, AuthorityOk, Occurs, Spans;
    AcceptedEnds(u, f.verb == CONNECT);
    TargetRead(cfg, f, log, u);
  }
}
