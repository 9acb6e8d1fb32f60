/** A URL put together from its components is taken apart into the same components. */
module UrlRoundTrip {
  import opened Bytes
  import opened Alphabets
  import opened ParserState
  import opened UrlAutomaton
  import opened Numbers
  import opened Urls
  import opened Segments

  /** A registered name, or an address literal with its zone, which is empty if there is none. */
  datatype Host = Name(text: seq<byte>) | Literal(address: seq<byte>, zone: seq<byte>)

  /** `userinfo` and `port` are empty if there is none. */
  datatype Authority = Authority(userinfo: seq<byte>, host: Host, port: seq<byte>)

  /** A component that is empty is not there. */
  datatype Parts = Parts(scheme: seq<byte>, authority: Option<Authority>, path: seq<byte>, query: seq<byte>, fragment: seq<byte>)

  // ---- which components are legal

  predicate IsAddressChar(ch: byte) { HexDigit(ch) || ch == ':' || ch == '.' }

  predicate LegalHost(h: Host) {
    match h
    case Name(text) => text != [] && forall i :: 0 <= i < |text| ==> InName(text[i])
    case Literal(address, zone) =>
      address != [] && (forall i :: 0 <= i < |address| ==> IsAddressChar(address[i])) &&
      forall i :: 0 <= i < |zone| ==> InZone(zone[i])
  }

  predicate LegalAuthority(a: Authority) {
    && (forall i :: 0 <= i < |a.userinfo| ==> InUserinfo(a.userinfo[i]))
    && LegalHost(a.host)
    && AllDigits(a.port) && Decimal(0, a.port) <= 0xffff
  }

  /** A path begins with a slash; without an authority it may begin with an asterisk too. */
  predicate LegalPath(path: seq<byte>, rooted: bool) {
    && (path != [] ==> path[0] == '/' || (path[0] == '*' && !rooted))
    && (forall i :: 0 <= i < |path| ==> VisiblePath(path[i]))
  }

  predicate LegalTail(c: Parts) {
    && (forall i :: 0 <= i < |c.query| ==> VisiblePath(c.query[i]) || c.query[i] == '?')
    && (forall i :: 0 <= i < |c.fragment| ==> VisiblePath(c.fragment[i]) || c.fragment[i] == '?' || c.fragment[i] == '#')
    && (c.fragment != [] ==> c.fragment[0] != '#' && (c.path != [] || c.query != []))
  }

  /** For CONNECT, host and port and nothing else; else a scheme with an authority, or neither of them and a
      path. */
  predicate Legal(c: Parts, isConnect: bool) {
    && (forall i :: 0 <= i < |c.scheme| ==> Letter(c.scheme[i]))
    && (c.authority.Some? ==> LegalAuthority(c.authority.value))
    && LegalPath(c.path, c.authority.Some?) && LegalTail(c)
    && (if isConnect then
          c.scheme == [] && c.path == [] && c.query == [] && c.fragment == [] &&
          c.authority.Some? && c.authority.value.userinfo == [] && c.authority.value.port != []
        else
          (c.scheme != [] <==> c.authority.Some?) && (c.authority.None? ==> c.path != []))
  }

  // ---- putting a URL together

  function Sign(mark: seq<byte>, there: bool): seq<byte> { if there then mark else [] }

  function Zoned(zone: seq<byte>): seq<byte> { if zone == [] then [] else ['%'] + zone }

  /** A host without the brackets of a literal. */
  function HostText(h: Host): seq<byte> {
    match h
    case Name(text) => text
    case Literal(address, zone) => address + Zoned(zone)
  }

  function UserinfoSegments(userinfo: seq<byte>): seq<Segment> {
    [Segment(Some(USERINFO), userinfo), Segment(None, Sign(['@'], userinfo != []))]
  }

  function HostSegments(h: Host): seq<Segment> {
    [Segment(None, Sign(['['], h.Literal?)), Segment(Some(HOST), HostText(h)), Segment(None, Sign([']'], h.Literal?))]
  }

  function PortSegments(port: seq<byte>): seq<Segment> {
    [Segment(None, Sign([':'], port != [])), Segment(Some(PORT), port)]
  }

  function AuthoritySegments(a: Authority): seq<Segment> {
    UserinfoSegments(a.userinfo) + HostSegments(a.host) + PortSegments(a.port)
  }

  function AuthorityText(c: Parts): seq<byte> {
    if c.authority.None? then [] else Text(AuthoritySegments(c.authority.value))
  }

  function SchemeSegments(scheme: seq<byte>): seq<Segment> {
    [Segment(Some(SCHEMA), scheme), Segment(None, Sign([':', '/', '/'], scheme != []))]
  }

  function QuerySegments(query: seq<byte>): seq<Segment> {
    [Segment(None, Sign(['?'], query != [])), Segment(Some(QUERY), query)]
  }

  function FragmentSegments(fragment: seq<byte>): seq<Segment> {
    [Segment(None, Sign(['#'], fragment != [])), Segment(Some(FRAGMENT), fragment)]
  }

  function UrlSegments(c: Parts): seq<Segment> {
    SchemeSegments(c.scheme) + [Segment(Some(HOST), AuthorityText(c)), Segment(Some(PATH), c.path)]
    + QuerySegments(c.query) + FragmentSegments(c.fragment)
  }

  function UrlText(c: Parts): seq<byte> { Text(UrlSegments(c)) }

  /** Component `f` of `c`. */
  function Component(c: Parts, f: UrlField): seq<byte> {
    match f
    case SCHEMA => c.scheme
    case USERINFO => if c.authority.Some? then c.authority.value.userinfo else []
    case HOST => if c.authority.Some? then HostText(c.authority.value.host) else []
    case PORT => if c.authority.Some? then c.authority.value.port else []
    case PATH => c.path
    case QUERY => c.query
    case FRAGMENT => c.fragment
  }

  // ---- the automata follow the segments

  lemma UserinfoFollows(u: seq<byte>)
    requires forall i :: 0 <= i < |u| ==> InUserinfo(u[i])
    ensures var s := HostEntry(u != []);
            Follows(ParseHostChar, HostFieldOf, s, UserinfoSegments(u)) &&
            Go(ParseHostChar, s, Text(UserinfoSegments(u))) == HostStart
  {
    hide Shows, Go, Text, Follows;
    var s, at := HostEntry(u != []), Sign(['@'], u != []);
    assert forall i :: 0 <= i < |u| ==> u[i] != '@';
    Stays(ParseHostChar, HostFieldOf, s, u, Userinfo);
    Stays(ParseHostChar, HostFieldOf, Go(ParseHostChar, s, u), at, HostStart);
    FollowsTwo(ParseHostChar, HostFieldOf, s, Segment(Some(USERINFO), u), Segment(None, at));
  }

  lemma HostFollows(h: Host)
    requires LegalHost(h)
    ensures Follows(ParseHostChar, HostFieldOf, HostStart, HostSegments(h)) &&
            Go(ParseHostChar, HostStart, Text(HostSegments(h))) == if h.Name? then HostState.Host else V6End
  {
    hide Shows, Go, Text, Follows;
    var open, close := Sign(['['], h.Literal?), Sign([']'], h.Literal?);
    Stays(ParseHostChar, HostFieldOf, HostStart, open, V6Start);
    var s := Go(ParseHostChar, HostStart, open);
    match h {
      case Name(text) => Stays(ParseHostChar, HostFieldOf, s, text, HostState.Host);
      case Literal(address, zone) =>
        Stays(ParseHostChar, HostFieldOf, s, address, V6);
        ShowsAppend(ParseHostChar, HostFieldOf, s, address, Zoned(zone), Some(HOST));
        GoAppend(ParseHostChar, s, address, Zoned(zone));
        ZoneFollows(zone);
    }
    var t := Go(ParseHostChar, s, HostText(h));
    Stays(ParseHostChar, HostFieldOf, t, close, V6End);
    FollowsTwo(ParseHostChar, HostFieldOf, HostStart, Segment(None, open), Segment(Some(HOST), HostText(h)));
    FollowsOne(ParseHostChar, HostFieldOf, t, Segment(None, close));
    var two := [Segment(None, open), Segment(Some(HOST), HostText(h))];
    FollowsAppend(ParseHostChar, HostFieldOf, HostStart, two, [Segment(None, close)]);
    assert HostSegments(h) == two + [Segment(None, close)];
  }

  lemma ZoneFollows(zone: seq<byte>)
    requires forall i :: 0 <= i < |zone| ==> InZone(zone[i])
    ensures Shows(ParseHostChar, HostFieldOf, V6, Zoned(zone), Some(HOST))
    ensures Go(ParseHostChar, V6, Zoned(zone)) == if zone == [] then V6 else Zone
  {
    hide Shows, Go;
    if zone == [] {
      Stays(ParseHostChar, HostFieldOf, V6, [], Zone);
    } else {
      Stays(ParseHostChar, HostFieldOf, V6, ['%'], ZoneStart);
      Stays(ParseHostChar, HostFieldOf, ZoneStart, zone, Zone);
      ShowsAppend(ParseHostChar, HostFieldOf, V6, ['%'], zone, Some(HOST));
      GoAppend(ParseHostChar, V6, ['%'], zone);
    }
  }

  lemma PortFollows(s: HostState, port: seq<byte>)
    requires AllDigits(port) && (s.Host? || s.V6End?)
    ensures Follows(ParseHostChar, HostFieldOf, s, PortSegments(port)) &&
            Go(ParseHostChar, s, Text(PortSegments(port))) == if port == [] then s else Port
  {
    hide Shows, Go, Text, Follows;
    var colon := Sign([':'], port != []);
    Stays(ParseHostChar, HostFieldOf, s, colon, PortStart);
    Stays(ParseHostChar, HostFieldOf, Go(ParseHostChar, s, colon), port, Port);
    FollowsTwo(ParseHostChar, HostFieldOf, s, Segment(None, colon), Segment(Some(PORT), port));
  }

  lemma AuthorityFollows(a: Authority)
    requires LegalAuthority(a)
    ensures var s := HostEntry(a.userinfo != []);
            var t := Go(ParseHostChar, s, Text(AuthoritySegments(a)));
            Follows(ParseHostChar, HostFieldOf, s, AuthoritySegments(a)) &&
            HostEnds(t) && (t == Port <==> a.port != [])
  {
    hide Shows, Go, Text, Follows, UserinfoSegments, HostSegments, PortSegments, ParseHostChar, HostFieldOf;
    var s := HostEntry(a.userinfo != []);
    UserinfoFollows(a.userinfo);
    HostFollows(a.host);
    PortFollows(if a.host.Name? then HostState.Host else V6End, a.port);
    FollowsAppend(ParseHostChar, HostFieldOf, s, UserinfoSegments(a.userinfo), HostSegments(a.host));
    FollowsAppend(ParseHostChar, HostFieldOf, s, UserinfoSegments(a.userinfo) + HostSegments(a.host), PortSegments(a.port));
  }

  // ---- the URL automaton

  /** A byte of an authority that is no at sign. */
  predicate InServer(ch: byte) { InUserinfo(ch) || ch == '[' || ch == ']' }

  lemma HostChars(h: Host)
    requires LegalHost(h)
    ensures HostText(h) != [] && forall i :: 0 <= i < |HostText(h)| ==> InServer(HostText(h)[i])
  {
    match h
    case Name(text) =>
    case Literal(address, zone) =>
      forall i | 0 <= i < |Zoned(zone)| ensures InServer(Zoned(zone)[i]) {
        if i > 0 { assert Zoned(zone)[i] == zone[i - 1]; }
      }
  }

  /** Host and port. */
  function ServerText(a: Authority): seq<byte> {
    Sign(['['], a.host.Literal?) + HostText(a.host) + Sign([']'], a.host.Literal?) + Sign([':'], a.port != []) + a.port
  }

  lemma ServerChars(a: Authority)
    requires LegalAuthority(a)
    ensures ServerText(a) != [] && forall i :: 0 <= i < |ServerText(a)| ==> InServer(ServerText(a)[i])
  {
    HostChars(a.host);
  }

  /** The whole authority spelled out. */
  lemma AuthoritySpelled(a: Authority)
    ensures Text(AuthoritySegments(a)) == a.userinfo + Sign(['@'], a.userinfo != []) + ServerText(a)
  {
    hide HostText, Sign, Text;
    var at := Segment(None, Sign(['@'], a.userinfo != []));
    var open, close := Segment(None, Sign(['['], a.host.Literal?)), Segment(None, Sign([']'], a.host.Literal?));
    TextTwo(Segment(Some(USERINFO), a.userinfo), at);
    TextThree(open, Segment(Some(HOST), HostText(a.host)), close);
    TextTwo(Segment(None, Sign([':'], a.port != [])), Segment(Some(PORT), a.port));
    Joined(UserinfoSegments(a.userinfo) + HostSegments(a.host), PortSegments(a.port));
    Joined(UserinfoSegments(a.userinfo), HostSegments(a.host));
  }

  lemma SchemeFollows(scheme: seq<byte>)
    requires forall i :: 0 <= i < |scheme| ==> Letter(scheme[i])
    ensures Follows(ParseUrlChar, FieldOf, UrlStart, SchemeSegments(scheme)) &&
            Go(ParseUrlChar, UrlStart, Text(SchemeSegments(scheme))) == if scheme == [] then UrlStart else ServerStart
  {
    hide Shows, Go, Text, Follows;
    var marks := Sign([':', '/', '/'], scheme != []);
    Stays(ParseUrlChar, FieldOf, UrlStart, scheme, Schema);
    var s := Go(ParseUrlChar, UrlStart, scheme);
    if scheme != [] {
      Stays(ParseUrlChar, FieldOf, s, [':'], SchemaSlash);
      Stays(ParseUrlChar, FieldOf, SchemaSlash, ['/'], SchemaSlashSlash);
      Stays(ParseUrlChar, FieldOf, SchemaSlashSlash, ['/'], ServerStart);
      ShowsAppend(ParseUrlChar, FieldOf, SchemaSlash, ['/'], ['/'], None);
      GoAppend(ParseUrlChar, SchemaSlash, ['/'], ['/']);
      ShowsAppend(ParseUrlChar, FieldOf, s, [':'], ['/'] + ['/'], None);
      GoAppend(ParseUrlChar, s, [':'], ['/'] + ['/']);
      assert marks == [':'] + (['/'] + ['/']);
    } else {
      Stays(ParseUrlChar, FieldOf, s, marks, ServerStart);
    }
    FollowsTwo(ParseUrlChar, FieldOf, UrlStart, Segment(Some(SCHEMA), scheme), Segment(None, marks));
  }

  /** The bytes of an authority keep the automaton in it. */
  lemma ServerStays(ch: byte)
    ensures InServer(ch) ==> ParseUrlChar(ServerStart, ch) == ParseUrlChar(Server, ch) == ParseUrlChar(ServerWithAt, ch) == Server
    ensures InUserinfo(ch) ==> InServer(ch)
  {}

  /** User info and the at sign. */
  lemma AtFollows(u: seq<byte>)
    requires forall i :: 0 <= i < |u| ==> InUserinfo(u[i])
    ensures var t := u + Sign(['@'], u != []);
            Shows(ParseUrlChar, FieldOf, ServerStart, t, Some(HOST)) &&
            Go(ParseUrlChar, ServerStart, t) == if u == [] then ServerStart else ServerWithAt
  {
    hide Shows, Go, InUserinfo, InServer;
    var at := Sign(['@'], u != []);
    forall i | 0 <= i < |u| ensures ParseUrlChar(ServerStart, u[i]) == ParseUrlChar(Server, u[i]) == Server {
      ServerStays(u[i]);
    }
    Stays(ParseUrlChar, FieldOf, ServerStart, u, Server);
    var s := Go(ParseUrlChar, ServerStart, u);
    Stays(ParseUrlChar, FieldOf, s, at, ServerWithAt);
    ShowsAppend(ParseUrlChar, FieldOf, ServerStart, u, at, Some(HOST));
    GoAppend(ParseUrlChar, ServerStart, u, at);
  }

  lemma ServerFollows(a: Authority)
    requires LegalAuthority(a)
    ensures var t := Text(AuthoritySegments(a));
            t != [] && Shows(ParseUrlChar, FieldOf, ServerStart, t, Some(HOST)) && Go(ParseUrlChar, ServerStart, t) == Server
    ensures a.userinfo != [] ==>
              a.userinfo + ['@'] <= Text(AuthoritySegments(a)) &&
              Go(ParseUrlChar, ServerStart, a.userinfo + ['@']) == ServerWithAt
    ensures a.userinfo == [] ==> '@' !in Text(AuthoritySegments(a))
  {
    hide Shows, Go, Text, AuthoritySegments, ServerText, LegalHost, InUserinfo, InServer;
    var front := a.userinfo + Sign(['@'], a.userinfo != []);
    AtFollows(a.userinfo);
    ServerChars(a);
    var t := ServerText(a);
    forall i | 0 <= i < |t|
      ensures ParseUrlChar(ServerStart, t[i]) == ParseUrlChar(Server, t[i]) == ParseUrlChar(ServerWithAt, t[i]) == Server
    {
      ServerStays(t[i]);
    }
    Stays(ParseUrlChar, FieldOf, Go(ParseUrlChar, ServerStart, front), ServerText(a), Server);
    ShowsAppend(ParseUrlChar, FieldOf, ServerStart, front, ServerText(a), Some(HOST));
    GoAppend(ParseUrlChar, ServerStart, front, ServerText(a));
    AuthoritySpelled(a);
  }

  lemma PathFollows(s: UrlState, path: seq<byte>)
    requires s == UrlStart || s == Server
    requires LegalPath(path, s == Server)
    ensures Shows(ParseUrlChar, FieldOf, s, path, Some(PATH))
    ensures Go(ParseUrlChar, s, path) == if path == [] then s else Path
  {
    hide Shows, Go;
    Stays(ParseUrlChar, FieldOf, s, path, Path);
  }

  lemma QueryFollows(s: UrlState, query: seq<byte>)
    requires s == Server || s == Path || query == []
    requires forall i :: 0 <= i < |query| ==> VisiblePath(query[i]) || query[i] == '?'
    ensures Follows(ParseUrlChar, FieldOf, s, QuerySegments(query)) &&
            Go(ParseUrlChar, s, Text(QuerySegments(query))) == if query == [] then s else Query
  {
    hide Shows, Go, Text, Follows;
    var mark := Sign(['?'], query != []);
    Stays(ParseUrlChar, FieldOf, s, mark, QueryStart);
    Stays(ParseUrlChar, FieldOf, Go(ParseUrlChar, s, mark), query, Query);
    FollowsTwo(ParseUrlChar, FieldOf, s, Segment(None, mark), Segment(Some(QUERY), query));
  }

  lemma FragmentFollows(s: UrlState, fragment: seq<byte>)
    requires s == Path || s == Query || fragment == []
    requires forall i :: 0 <= i < |fragment| ==> VisiblePath(fragment[i]) || fragment[i] == '?' || fragment[i] == '#'
    requires fragment != [] ==> fragment[0] != '#'
    ensures Follows(ParseUrlChar, FieldOf, s, FragmentSegments(fragment)) &&
            Go(ParseUrlChar, s, Text(FragmentSegments(fragment))) == if fragment == [] then s else Fragment
  {
    hide Shows, Go, Text, Follows;
    var mark := Sign(['#'], fragment != []);
    Stays(ParseUrlChar, FieldOf, s, mark, FragmentStart);
    Stays(ParseUrlChar, FieldOf, Go(ParseUrlChar, s, mark), fragment, Fragment);
    FollowsTwo(ParseUrlChar, FieldOf, s, Segment(None, mark), Segment(Some(FRAGMENT), fragment));
  }

  /** Scheme and authority. */
  lemma FrontFollows(c: Parts, isConnect: bool)
    requires Legal(c, isConnect)
    ensures Follows(ParseUrlChar, FieldOf, Entry(isConnect), SchemeSegments(c.scheme))
    ensures var s := Go(ParseUrlChar, Entry(isConnect), Text(SchemeSegments(c.scheme)));
            Shows(ParseUrlChar, FieldOf, s, AuthorityText(c), Some(HOST)) &&
            Go(ParseUrlChar, s, AuthorityText(c)) == if c.authority.Some? then Server else UrlStart
  {
    hide ParseUrlChar, FieldOf, AuthoritySegments, LegalAuthority;
    if isConnect {
      TextTwo(Segment(Some(SCHEMA), []), Segment(None, []));
      FollowsTwo(ParseUrlChar, FieldOf, ServerStart, Segment(Some(SCHEMA), []), Segment(None, []));
    } else {
      SchemeFollows(c.scheme);
    }
    if c.authority.Some? { ServerFollows(c.authority.value); }
  }

  lemma UrlFollows(c: Parts, isConnect: bool)
    requires Legal(c, isConnect)
    ensures Follows(ParseUrlChar, FieldOf, Entry(isConnect), UrlSegments(c)) && UrlText(c) != []
    ensures !Go(ParseUrlChar, Entry(isConnect), UrlText(c)).UrlDead?
  {
    hide ParseUrlChar, FieldOf, Shows, Go, Text, Follows, SchemeSegments, QuerySegments, FragmentSegments, AuthorityText,
      LegalAuthority;
    var entry := Entry(isConnect);
    FrontFollows(c, isConnect);
    var s := Go(ParseUrlChar, entry, Text(SchemeSegments(c.scheme)));
    var t: UrlState := if c.authority.Some? then Server else UrlStart;
    PathFollows(t, c.path);
    var middle := [Segment(Some(HOST), AuthorityText(c)), Segment(Some(PATH), c.path)];
    FollowsTwo(ParseUrlChar, FieldOf, s, middle[0], middle[1]);
    var v := Go(ParseUrlChar, s, Text(middle));
    QueryFollows(v, c.query);
    var w := Go(ParseUrlChar, v, Text(QuerySegments(c.query)));
    FragmentFollows(w, c.fragment);
    FollowsAppend(ParseUrlChar, FieldOf, entry, SchemeSegments(c.scheme), middle);
    FollowsAppend(ParseUrlChar, FieldOf, entry, SchemeSegments(c.scheme) + middle, QuerySegments(c.query));
    FollowsAppend(ParseUrlChar, FieldOf, entry, SchemeSegments(c.scheme) + middle + QuerySegments(c.query),
                  FragmentSegments(c.fragment));
    Spelled(c);
    if c.authority.Some? { AuthorityNotEmpty(c); }
  }

  lemma AuthorityNotEmpty(c: Parts)
    requires c.authority.Some? && LegalAuthority(c.authority.value)
    ensures AuthorityText(c) != []
  {
    hide AuthoritySegments, LegalAuthority;
    ServerFollows(c.authority.value);
  }

  /** The whole URL spelled out. */
  lemma Spelled(c: Parts)
    ensures UrlText(c) == Text(SchemeSegments(c.scheme)) + AuthorityText(c) + c.path + Text(QuerySegments(c.query))
                          + Text(FragmentSegments(c.fragment))
  {
    hide SchemeSegments, QuerySegments, FragmentSegments, AuthorityText, Text;
    var middle := [Segment(Some(HOST), AuthorityText(c)), Segment(Some(PATH), c.path)];
    TextTwo(middle[0], middle[1]);
    Joined(SchemeSegments(c.scheme) + middle + QuerySegments(c.query), FragmentSegments(c.fragment));
    Joined(SchemeSegments(c.scheme) + middle, QuerySegments(c.query));
    Joined(SchemeSegments(c.scheme), middle);
  }

  // ---- the result

  lemma {:induction false} UrlRunGo(s: UrlState, u: seq<byte>)
    ensures UrlRun(s, u) == Go(ParseUrlChar, s, u)
    decreases |u|
  {
    hide ParseUrlChar;
    if u != [] { UrlRunGo(ParseUrlChar(s, u[0]), u[1..]); }
  }

  lemma {:induction false} HostRunGo(s: HostState, h: seq<byte>)
    ensures HostRun(s, h) == Go(ParseHostChar, s, h)
    decreases |h|
  {
    hide ParseHostChar;
    if h != [] {
      HostRunGo(s, h[..|h| - 1]);
      assert h == h[..|h| - 1] + [h[|h| - 1]];
      GoAppend(ParseHostChar, s, h[..|h| - 1], [h[|h| - 1]]);
      var t := Go(ParseHostChar, s, h[..|h| - 1]);
      assert [h[|h| - 1]][1..] == [];
      assert Go(ParseHostChar, t, [h[|h| - 1]]) == ParseHostChar(t, h[|h| - 1]);
    }
  }

  /** `at` shows `marks` from position `base` on. */
  ghost predicate Mirrors(at: nat -> Tag, base: nat, marks: seq<Tag>) {
    forall i :: 0 <= i < |marks| ==> at(base + i) == marks[i]
  }

  /** Component `f` is `bytes`; it is not there if that is empty. */
  predicate Shown(parts: map<UrlField, Slice>, buf: seq<byte>, f: UrlField, bytes: seq<byte>) {
    if bytes == [] then f !in parts
    else f in parts && var s := parts[f]; s.off + s.len <= |buf| && buf[s.off..s.off + s.len] == bytes
  }

  lemma SliceIs(parts: map<UrlField, Slice>, f: UrlField, base: nat, at: nat -> Tag, marks: seq<Tag>, lo: nat, hi: nat)
    requires Located(parts, f, base, base + |marks|, at) && Mirrors(at, base, marks) && Only(marks, Some(f), lo, hi)
    ensures if lo == hi then f !in parts else f in parts && parts[f] == Slice(base + lo, hi - lo)
  {
    if lo < hi { assert at(base + lo) == marks[lo]; }
    if f in parts {
      var s := parts[f];
      assert at(s.off) == Some(f) && at(s.off + s.len - 1) == Some(f);
      assert at(base + (s.off - base)) == marks[s.off - base];
      assert at(base + (s.off + s.len - 1 - base)) == marks[s.off + s.len - 1 - base];
      assert at(base + lo) == marks[lo] && at(base + (hi - 1)) == marks[hi - 1];
    }
  }

  /** A component found where its segment is. */
  lemma ShownSegment(parts: map<UrlField, Slice>, f: UrlField, buf: seq<byte>, base: nat, at: nat -> Tag,
                     segs: seq<Segment>, k: nat)
    requires k < |segs| && Single(segs, k) && segs[k].tag == Some(f)
    requires base + |Text(segs)| <= |buf| && buf[base..base + |Text(segs)|] == Text(segs)
    requires Located(parts, f, base, base + |Text(segs)|, at) && Mirrors(at, base, Marks(segs))
    ensures Shown(parts, buf, f, segs[k].text)
  {
    hide Located, Mirrors, Single, Text, Marks, Only;
    SegmentAt(segs, k);
    var lo, hi := Start(segs, k), Start(segs, k) + |segs[k].text|;
    OnlyInside(Marks(segs), Some(f), lo, hi);
    SliceIs(parts, f, base, at, Marks(segs), lo, hi);
    SliceOfSlice(buf, base, |Text(segs)|, lo, hi);
    assert buf[base + lo..base + hi] == segs[k].text;
  }

  lemma SliceOfSlice(buf: seq<byte>, base: nat, n: nat, lo: nat, hi: nat)
    requires base + n <= |buf| && lo <= hi <= n
    ensures buf[base + lo..base + hi] == buf[base..base + n][lo..hi]
  {
    var a, b := buf[base + lo..base + hi], buf[base..base + n][lo..hi];
    assert |a| == |b| && forall i :: 0 <= i < |a| ==> a[i] == buf[base + lo + i] == b[i];
    assert a == b;
  }

  lemma OnlyInside(marks: seq<Tag>, l: Tag, lo: nat, hi: nat)
    requires Only(marks, l, lo, hi)
    ensures lo <= hi <= |marks|
  {}

  lemma UrlMirrors(c: Parts, isConnect: bool)
    requires Legal(c, isConnect)
    ensures Mirrors(FieldAt(Entry(isConnect), UrlText(c)), 0, Marks(UrlSegments(c)))
    ensures |Marks(UrlSegments(c))| == |UrlText(c)|
  {
    hide ParseUrlChar, FieldOf, UrlSegments, Legal, Follows, Go, UrlRun, Text, Marks;
    var entry, segs := Entry(isConnect), UrlSegments(c);
    UrlFollows(c, isConnect);
    MarksLength(segs);
    forall i: nat | i < |Marks(segs)| ensures FieldAt(entry, UrlText(c))(0 + i) == Marks(segs)[i] {
      TagAt(ParseUrlChar, FieldOf, entry, segs, i);
      UrlRunGo(entry, UrlText(c)[..i + 1]);
    }
  }

  lemma AuthorityMirrors(a: Authority, buf: seq<byte>, lo: nat, hi: nat)
    requires LegalAuthority(a) && lo <= hi <= |buf| && buf[lo..hi] == Text(AuthoritySegments(a))
    ensures Mirrors(HostFieldAt(HostEntry(a.userinfo != []), buf, lo, hi), lo, Marks(AuthoritySegments(a)))
    ensures |Marks(AuthoritySegments(a))| == hi - lo
  {
    hide ParseHostChar, HostFieldOf, AuthoritySegments, LegalAuthority, Follows, Go, HostRun, Text, Marks;
    var entry, segs := HostEntry(a.userinfo != []), AuthoritySegments(a);
    AuthorityFollows(a);
    MarksLength(segs);
    forall i: nat | i < |Marks(segs)| ensures HostFieldAt(entry, buf, lo, hi)(lo + i) == Marks(segs)[i] {
      TagAt(ParseHostChar, HostFieldOf, entry, segs, i);
      assert buf[lo..lo + i + 1] == Text(segs)[..i + 1];
      HostRunGo(entry, buf[lo..lo + i + 1]);
    }
  }

  lemma UrlIndices(c: Parts)
    ensures var segs := UrlSegments(c);
            |segs| == 8 &&
            segs[0] == Segment(Some(SCHEMA), c.scheme) && segs[2] == Segment(Some(HOST), AuthorityText(c)) &&
            segs[3] == Segment(Some(PATH), c.path) && segs[5] == Segment(Some(QUERY), c.query) &&
            segs[7] == Segment(Some(FRAGMENT), c.fragment) &&
            Single(segs, 0) && Single(segs, 2) && Single(segs, 3) && Single(segs, 5) && Single(segs, 7)
  {
    hide AuthorityText;
  }

  lemma AuthorityIndices(a: Authority)
    ensures var segs := AuthoritySegments(a);
            |segs| == 7 &&
            segs[0] == Segment(Some(USERINFO), a.userinfo) && segs[3] == Segment(Some(HOST), HostText(a.host)) &&
            segs[6] == Segment(Some(PORT), a.port) &&
            Single(segs, 0) && Single(segs, 3) && Single(segs, 6)
  {
    hide HostText;
  }

  /** Where the authority is. */
  function AuthorityStart(c: Parts): nat { UrlIndices(c); Start(UrlSegments(c), 2) }

  lemma AuthorityPlace(c: Parts, isConnect: bool)
    requires Legal(c, isConnect)
    ensures var buf, lo := UrlText(c), AuthorityStart(c);
            var hi := lo + |AuthorityText(c)|;
            hi <= |buf| && buf[lo..hi] == AuthorityText(c) && (c.authority.Some? <==> lo < hi) &&
            (lo < hi ==> Spans(HOST, |buf|, FieldAt(Entry(isConnect), buf), lo, hi)) &&
            (lo == hi ==> !Occurs(HOST, |buf|, FieldAt(Entry(isConnect), buf)))
  {
    hide UrlSegments, Start, Text, Marks, AuthorityText, LegalAuthority, FieldAt, LegalPath, LegalTail;
    UrlIndices(c);
    SegmentAt(UrlSegments(c), 2);
    UrlMirrors(c, isConnect);
    if c.authority.Some? { AuthorityNotEmpty(c); } else { NoAuthorityText(c); }
    var marks, at := Marks(UrlSegments(c)), FieldAt(Entry(isConnect), UrlText(c));
    assert forall i: nat :: i < |marks| ==> at(0 + i) == marks[i];
    forall i: nat | i < |marks| ensures at(i) == marks[i] { assert at(0 + i) == marks[i]; }
  }

  lemma NoAuthorityText(c: Parts)
    requires c.authority.None?
    ensures AuthorityText(c) == []
  {}

  /** The at sign is the one after the user info. */
  lemma AtIsUserinfo(c: Parts, isConnect: bool)
    requires Legal(c, isConnect)
    ensures HasAt(Entry(isConnect), UrlText(c)) <==> c.authority.Some? && c.authority.value.userinfo != []
  {
    hide ParseUrlChar, UrlSegments, Text, AuthorityText, LegalAuthority, UrlRun, Go, LegalPath, LegalTail, Start, FieldOf;
    var buf, lo, entry := UrlText(c), AuthorityStart(c), Entry(isConnect);
    var hi := lo + |AuthorityText(c)|;
    AuthorityPlace(c, isConnect);
    forall i: nat | i < |buf| && StateAt(entry, buf, i) == ServerWithAt
      ensures c.authority.Some? && c.authority.value.userinfo != []
    {
      assert FieldAt(entry, buf)(i) == FieldOf(ServerWithAt);
      AtSignField();
      assert lo <= i < hi && c.authority.Some?;
      assert buf[..i + 1] == buf[..i] + [buf[i]];
      UrlRunSnoc(entry, buf[..i], buf[i]);
      OnlyAtSign(UrlRun(entry, buf[..i]), buf[i]);
      assert buf[lo..hi][i - lo] == '@';
      ServerAt(c);
    }
    if c.authority.Some? && c.authority.value.userinfo != [] {
      var a := c.authority.value;
      ServerAt(c);
      var i := lo + |a.userinfo|;
      FrontAt(c, isConnect);
      var front := a.userinfo + ['@'];
      assert buf[lo..hi][..|front|] == front;
      assert buf[..i + 1] == buf[..lo] + front;
      UrlRunAppend(entry, buf[..lo], front);
      UrlRunGo(ServerStart, front);
      assert StateAt(entry, buf, i) == ServerWithAt;
    }
  }

  lemma AtSignField()
    ensures FieldOf(ServerWithAt) == Some(HOST)
  {}

  lemma OnlyAtSign(s: UrlState, ch: byte)
    requires ParseUrlChar(s, ch) == ServerWithAt
    ensures ch == '@'
  {}

  lemma ServerAt(c: Parts)
    requires c.authority.Some? && LegalAuthority(c.authority.value)
    ensures var a, t := c.authority.value, AuthorityText(c);
            if a.userinfo == [] then '@' !in t
            else a.userinfo + ['@'] <= t && Go(ParseUrlChar, ServerStart, a.userinfo + ['@']) == ServerWithAt
  {
    hide AuthoritySegments, LegalAuthority, Go, ParseUrlChar;
    ServerFollows(c.authority.value);
  }

  /** The automaton is at the start of the authority when it gets there. */
  lemma FrontAt(c: Parts, isConnect: bool)
    requires Legal(c, isConnect) && c.authority.Some?
    ensures AuthorityStart(c) <= |UrlText(c)| &&
            UrlRun(Entry(isConnect), UrlText(c)[..AuthorityStart(c)]) == ServerStart
  {
    hide ParseUrlChar, Text, Go, AuthorityText, UrlRun, LegalAuthority, LegalPath, LegalTail, SchemeSegments,
      QuerySegments, FragmentSegments;
    UrlIndices(c);
    FrontTwo(c);
    Spelled(c);
    var front := Text(SchemeSegments(c.scheme));
    assert UrlText(c)[..|front|] == front;
    UrlRunGo(Entry(isConnect), front);
    SchemeEnds(c, isConnect);
  }

  lemma FrontTwo(c: Parts)
    ensures UrlSegments(c)[..2] == SchemeSegments(c.scheme)
  {
    hide AuthorityText;
  }

  lemma SchemeEnds(c: Parts, isConnect: bool)
    requires Legal(c, isConnect) && c.authority.Some?
    ensures Go(ParseUrlChar, Entry(isConnect), Text(SchemeSegments(c.scheme))) == ServerStart
  {
    hide ParseUrlChar, LegalAuthority, LegalPath, LegalTail;
    if isConnect {
      TextTwo(Segment(Some(SCHEMA), []), Segment(None, []));
    } else {
      SchemeFollows(c.scheme);
    }
  }

  /** The last segment of an authority is its port. */
  lemma PortLast(a: Authority)
    ensures |AuthoritySegments(a)| == 7 && Start(AuthoritySegments(a), 6) + |a.port| == |Text(AuthoritySegments(a))|
  {
    hide Text, Sign, HostText;
    AuthorityIndices(a);
    var segs := AuthoritySegments(a);
    assert segs == segs[..6] + [segs[6]];
    Joined(segs[..6], [segs[6]]);
    LastText(segs[6]);
  }

  lemma LastText(g: Segment)
    ensures Text([g]) == g.text
  {
    assert [g][1..] == [];
  }

  lemma PortRead(a: Authority)
    requires LegalAuthority(a)
    ensures PortDigits(HostEntry(a.userinfo != []), Text(AuthoritySegments(a))) == a.port
  {
    hide Text, Marks, AuthoritySegments, Start, HostRun, LegalAuthority, Single;
    var start, segs := HostEntry(a.userinfo != []), AuthoritySegments(a);
    var h := Text(segs);
    AuthorityIndices(a);
    PortLast(a);
    SegmentAt(segs, 6);
    assert h[0..|h|] == h;
    AuthorityMirrors(a, h, 0, |h|);
    var off, at := Start(segs, 6), HostFieldAt(start, h, 0, |h|);
    forall i: nat | i < |h| ensures at(i) == Marks(segs)[i] { assert at(0 + i) == Marks(segs)[i]; }
    forall i: nat | off <= i < |h| ensures HostStateAt(start, h, 0, i) == Port { assert at(i) == Some(PORT); }
    if off > 0 { assert at(off - 1) != Some(PORT); }
    PortSlice(start, h, 0, off, |h|);
    assert h[off..|h|] == a.port;
  }

  lemma NoUserinfo(a: Authority, k: nat)
    requires LegalAuthority(a) && a.userinfo == [] && k <= |Text(AuthoritySegments(a))|
    ensures HostRun(HostStart, Text(AuthoritySegments(a))[..k]) != Userinfo
  {
    hide Text, Marks, AuthoritySegments, Start, LegalAuthority, Single, ParseHostChar;
    var segs := AuthoritySegments(a);
    var h := Text(segs);
    AuthorityIndices(a);
    SegmentAt(segs, 0);
    assert h[0..|h|] == h;
    AuthorityMirrors(a, h, 0, |h|);
    if k > 0 {
      assert HostFieldAt(HostStart, h, 0, |h|)(0 + (k - 1)) == Marks(segs)[k - 1] != Some(USERINFO);
      assert h[..k] == h[0..k - 1 + 1];
    }
  }

  lemma AuthorityAccepted(a: Authority, isConnect: bool)
    requires LegalAuthority(a) && (isConnect ==> a.userinfo == [] && a.port != [])
    ensures AuthorityOk(HostEntry(a.userinfo != []), Text(AuthoritySegments(a)), isConnect)
  {
    hide Text, AuthoritySegments, HostRun, ParseHostChar, LegalHost;
    AuthorityFollows(a);
    PortRead(a);
    HostRunGo(HostEntry(a.userinfo != []), Text(AuthoritySegments(a)));
    if isConnect {
      forall k | 0 <= k <= |Text(AuthoritySegments(a))|
        ensures HostRun(HostStart, Text(AuthoritySegments(a))[..k]) != Userinfo
      {
        NoUserinfo(a, k);
      }
    }
  }

  /** What the outer pieces come to. */
  lemma PiecesShown(c: Parts, isConnect: bool, u: Url)
    requires Legal(c, isConnect) && Describes(UrlText(c), isConnect, u)
    ensures forall f :: IsPiece(f) && f != HOST ==> Shown(u.parts, UrlText(c), f, Component(c, f))
  {
    hide UrlSegments, Text, Marks, Single, Located, FieldAt, LegalAuthority, LegalPath, LegalTail, AuthorityText, Shown,
      Occurs, AuthorityAt;
    var buf, segs, at := UrlText(c), UrlSegments(c), FieldAt(Entry(isConnect), UrlText(c));
    UrlIndices(c);
    UrlMirrors(c, isConnect);
    assert buf[0..0 + |buf|] == buf;
    ShownSegment(u.parts, SCHEMA, buf, 0, at, segs, 0);
    ShownSegment(u.parts, PATH, buf, 0, at, segs, 3);
    ShownSegment(u.parts, QUERY, buf, 0, at, segs, 5);
    ShownSegment(u.parts, FRAGMENT, buf, 0, at, segs, 7);
  }

  lemma AuthorityShown(a: Authority, buf: seq<byte>, lo: nat, hi: nat, parts: map<UrlField, Slice>)
    requires LegalAuthority(a) && lo <= hi <= |buf| && buf[lo..hi] == Text(AuthoritySegments(a))
    requires forall f :: IsAuthorityField(f) ==> Located(parts, f, lo, hi, HostFieldAt(HostEntry(a.userinfo != []), buf, lo, hi))
    ensures Shown(parts, buf, USERINFO, a.userinfo) && Shown(parts, buf, HOST, HostText(a.host)) &&
            Shown(parts, buf, PORT, a.port)
  {
    hide AuthoritySegments, Text, Marks, Single, Located, HostFieldAt, LegalAuthority, Shown, HostText;
    var at, segs := HostFieldAt(HostEntry(a.userinfo != []), buf, lo, hi), AuthoritySegments(a);
    AuthorityIndices(a);
    AuthorityMirrors(a, buf, lo, hi);
    MarksLength(segs);
    assert IsAuthorityField(USERINFO) && IsAuthorityField(HOST) && IsAuthorityField(PORT) && hi == lo + |Text(segs)|;
    ShownSegment(parts, USERINFO, buf, lo, at, segs, 0);
    ShownSegment(parts, HOST, buf, lo, at, segs, 3);
    ShownSegment(parts, PORT, buf, lo, at, segs, 6);
  }

  lemma AllAuthorityShown(c: Parts, isConnect: bool, u: Url)
    requires Legal(c, isConnect) && Describes(UrlText(c), isConnect, u)
    ensures forall f :: IsAuthorityField(f) ==> Shown(u.parts, UrlText(c), f, Component(c, f))
  {
    hide UrlText, Text, Located, FieldAt, HostFieldAt, LegalAuthority, LegalPath, LegalTail, Shown, Spans, Occurs,
      HasAt, AuthoritySegments;
    AuthorityPlace(c, isConnect);
    AtIsUserinfo(c, isConnect);
    var buf, entry, lo := UrlText(c), Entry(isConnect), AuthorityStart(c);
    var hi := lo + |AuthorityText(c)|;
    if c.authority.Some? {
      SpansOccurs(HOST, |buf|, FieldAt(entry, buf), lo, hi);
      var a: nat, b: nat :| AuthorityAt(buf, entry, u.parts, a, b);
      SpansOnce(HOST, |buf|, FieldAt(entry, buf), lo, hi, a, b);
      AuthorityShown(c.authority.value, buf, lo, hi, u.parts);
    } else {
      NoneShown(u.parts, buf);
    }
  }

  lemma NoneShown(parts: map<UrlField, Slice>, buf: seq<byte>)
    ensures forall f :: f !in parts ==> Shown(parts, buf, f, [])
  {}

  lemma LegalAccepted(c: Parts, isConnect: bool)
    requires Legal(c, isConnect)
    ensures Accepts(UrlText(c), isConnect)
  {
    hide UrlText, Text, FieldAt, LegalPath, LegalTail, LegalAuthority, Occurs, Spans, HasAt, UrlRun, Go, AuthorityOk,
      AuthoritySegments;
    var buf, entry, lo := UrlText(c), Entry(isConnect), AuthorityStart(c);
    var hi, at := lo + |AuthorityText(c)|, FieldAt(entry, buf);
    UrlFollows(c, isConnect);
    UrlRunGo(entry, buf);
    AuthorityPlace(c, isConnect);
    AtIsUserinfo(c, isConnect);
    if c.authority.Some? {
      SpansOccurs(HOST, |buf|, at, lo, hi);
      AuthorityAccepted(c.authority.value, isConnect);
      forall lo': nat, hi': nat | Spans(HOST, |buf|, at, lo', hi') ensures lo' == lo && hi' == hi {
        SpansOnce(HOST, |buf|, at, lo, hi, lo', hi');
      }
    } else {
      NoSpan(HOST, |buf|, at);
    }
    if isConnect || c.authority.None? { MissingPieces(c, isConnect); }
  }

  /** A component that is empty has no position. */
  lemma MissingPieces(c: Parts, isConnect: bool)
    requires Legal(c, isConnect)
    ensures forall f :: IsPiece(f) && f != HOST && Component(c, f) == [] ==> !Occurs(f, |UrlText(c)|, FieldAt(Entry(isConnect), UrlText(c)))
  {
    hide UrlSegments, Text, Marks, Single, FieldAt, LegalAuthority, LegalPath, LegalTail, AuthorityText;
    var segs, at := UrlSegments(c), FieldAt(Entry(isConnect), UrlText(c));
    UrlIndices(c);
    UrlMirrors(c, isConnect);
    SegmentAt(segs, 0);
    SegmentAt(segs, 3);
    SegmentAt(segs, 5);
    SegmentAt(segs, 7);
    forall f, i: nat | IsPiece(f) && f != HOST && Component(c, f) == [] && i < |UrlText(c)| ensures at(i) != Some(f) {
      assert at(0 + i) == Marks(segs)[i];
    }
  }

  /** A URL of legal components is accepted, and every result that is correct for it holds exactly those
      components and the value of the port. */
  lemma UrlRoundTrip(c: Parts, isConnect: bool)
    requires Legal(c, isConnect)
    ensures Accepts(UrlText(c), isConnect)
    ensures forall u :: Describes(UrlText(c), isConnect, u) ==>
              (forall f :: Shown(u.parts, UrlText(c), f, Component(c, f))) &&
              u.port == if c.authority.Some? then Decimal(0, c.authority.value.port) else 0
  {
    hide UrlText, Accepts, Describes, LegalPath, LegalTail, LegalHost, Shown;
    LegalAccepted(c, isConnect);
    forall u | Describes(UrlText(c), isConnect, u)
      ensures (forall f :: Shown(u.parts, UrlText(c), f, Component(c, f))) &&
              u.port == if c.authority.Some? then Decimal(0, c.authority.value.port) else 0
    {
      PiecesShown(c, isConnect, u);
      AllAuthorityShown(c, isConnect, u);
      forall f ensures Shown(u.parts, UrlText(c), f, Component(c, f)) { assert IsPiece(f) || IsAuthorityField(f); }
      assert Shown(u.parts, UrlText(c), PORT, Component(c, PORT));
      PortShown(UrlText(c), isConnect, u, Component(c, PORT));
    }
  }

  lemma PortShown(buf: seq<byte>, isConnect: bool, u: Url, port: seq<byte>)
    requires Describes(buf, isConnect, u) && Shown(u.parts, buf, PORT, port) && AllDigits(port)
    ensures u.port == Decimal(0, port)
  {
    hide FieldAt, Occurs, Located, AuthorityAt;
  }
}
