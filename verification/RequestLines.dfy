/** Request lines as text: any method, any target the URL automaton takes, any version or none. */
module RequestLines {
  import opened Bytes
  import opened Trace
  import opened ParserState
  import opened UrlAutomaton
  import opened Transitions
  import opened ByteMachine
  import opened Skips
  import opened MethodWords
  import opened Values

  /** What follows the target: nothing, which is version 0.9, or `more` spaces and one, the protocol and its version. */
  datatype Protocol = Unversioned | Versioned(more: nat, ice: bool, major: byte, minor: byte)

  /** A request line as text: `gap` spaces and one after the method. */
  datatype LineText = LineText(verb: Method, gap: nat, target: seq<byte>, protocol: Protocol, crlf: bool)

  // ---- before a message

  predicate BlankLines(s: seq<byte>) { forall i :: 0 <= i < |s| ==> s[i] == CR || s[i] == LF }

  /** Line ends before a message are skipped, whatever the parser waits for. */
  lemma {:induction false} BlankLinesSkipped(cfg: Config, f: Fields, log: seq<Event>, s: seq<byte>)
    requires f.state.Between? && BlankLines(s) && f.nread + |s| <= cfg.maxHeader
    ensures Run(cfg, Machine(f, log), s) == Ran(Machine(f.(nread := f.nread + |s|), log))
    decreases |s|
  {
    hide Run;
    if s == [] {
      RunNothing(cfg, Machine(f, log));
      assert f.(nread := f.nread) == f;
    } else {
      var g := f.(nread := f.nread + 1);
      QuietStep(cfg, Machine(f, log), s, g);
      BlankLinesSkipped(cfg, g, log, s[1..]);
      assert g.(nread := g.nread + |s[1..]|) == f.(nread := f.nread + |s|);
    }
  }

  // ---- targets

  /** More bytes of a target. */
  lemma {:induction false} MoreTarget(cfg: Config, f: Fields, log: seq<Event>, u: seq<byte>)
    requires f.state.Target? && EndsIn(log, Url) && UrlRun(f.state.url, u) != UrlDead && f.nread + |u| <= cfg.maxHeader
    ensures Run(cfg, Machine(f, log), u) ==
            Ran(Machine(f.(state := Target(UrlRun(f.state.url, u)), nread := f.nread + |u|), Push(log, Data(Url, u))))
    decreases |u|
  {
    hide Run, Push, ParseUrlChar;
    if u == [] {
      RunNothing(cfg, Machine(f, log));
      PushNothing(log, Url);
      assert f.(state := Target(f.state.url), nread := f.nread) == f;
    } else {
      var s := ParseUrlChar(f.state.url, u[0]);
      if s == UrlDead { DeadStaysDead(u[1..]); }
      Separators(f.state.url, u[0]);
      var g := f.(state := Target(s), nread := f.nread + 1);
      QuietStep(cfg, Machine(f, log), u, g);
      MoreTarget(cfg, g, Push(log, Data(Url, [u[0]])), u[1..]);
      PushTwice(log, Url, [u[0]], u[1..]);
      assert [u[0]] + u[1..] == u;
      assert g.(state := Target(UrlRun(s, u[1..])), nread := g.nread + |u[1..]|) ==
             f.(state := Target(UrlRun(f.state.url, u)), nread := f.nread + |u|);
    }
  }

  /** Space, CR and LF are no part of a URL. */
  lemma Separators(s: UrlState, ch: byte)
    ensures ch == ' ' || ch == CR || ch == LF ==> ParseUrlChar(s, ch) == UrlDead
  {}

  lemma TargetEnds(cfg: Config, f: Fields, log: seq<Event>)
    requires f.state.Target? && !EarlyUrl(f.state.url) && f.nread + 1 <= cfg.maxHeader
    ensures Run(cfg, Machine(f, log), [' ']) == Ran(Machine(f.(state := Version(ReqHttpStart), nread := f.nread + 1), log))
  {
    hide Run;
    FlushByte(cfg, Machine(f, log), ' ', f.(state := Version(ReqHttpStart), nread := f.nread + 1), Url);
  }

  lemma TargetStarts(cfg: Config, f: Fields, log: seq<Event>, u: seq<byte>, s: UrlState)
    requires f.state == MethodWord(ReqSpacesBeforeUrl) && u != [] && f.nread + 1 <= cfg.maxHeader
    requires s == ParseUrlChar(UrlEntry(f), u[0]) && s != UrlDead
    ensures Run(cfg, Machine(f, log), u) ==
            Run(cfg, Machine(f.(state := Target(s), nread := f.nread + 1), Push(log, Data(Url, [u[0]]))), u[1..])
  {
    hide Run, Push, ParseUrlChar;
    Separators(UrlEntry(f), u[0]);
    MarkStep(cfg, Machine(f, log), u, f.(state := Target(s), nread := f.nread + 1), Url);
  }

  /** Any target that the URL automaton takes. */
  lemma TargetBytes(cfg: Config, f: Fields, log: seq<Event>, u: seq<byte>)
    requires f.state == MethodWord(ReqSpacesBeforeUrl) && u != [] && f.nread + |u| <= cfg.maxHeader
    requires UrlRun(UrlEntry(f), u) != UrlDead
    ensures Run(cfg, Machine(f, log), u) ==
            Ran(Machine(f.(state := Target(UrlRun(UrlEntry(f), u)), nread := f.nread + |u|), Push(log, Data(Url, u))))
  {
    hide Run, Push, ParseUrlChar, UrlEntry;
    var s := ParseUrlChar(UrlEntry(f), u[0]);
    if s == UrlDead { DeadStaysDead(u[1..]); }
    var g := f.(state := Target(s), nread := f.nread + 1);
    TargetStarts(cfg, f, log, u, s);
    MoreTarget(cfg, g, Push(log, Data(Url, [u[0]])), u[1..]);
    PushTwice(log, Url, [u[0]], u[1..]);
    assert [u[0]] + u[1..] == u;
  }

  /** Any target that the URL automaton takes, and the space after it. */
  lemma TargetRead(cfg: Config, f: Fields, log: seq<Event>, u: seq<byte>)
    requires f.state == MethodWord(ReqSpacesBeforeUrl) && u != [] && f.nread + |u| + 1 <= cfg.maxHeader
    requires var s := UrlRun(UrlEntry(f), u); s != UrlDead && !EarlyUrl(s)
    ensures Run(cfg, Machine(f, log), u + [' ']) ==
            Ran(Machine(f.(state := Version(ReqHttpStart), nread := f.nread + |u| + 1), Push(log, Data(Url, u))))
  {
    hide Run, Push, ParseUrlChar, EarlyUrl, UrlEntry, UrlRun;
    TargetBytes(cfg, f, log, u);
    var h := f.(state := Target(UrlRun(UrlEntry(f), u)), nread := f.nread + |u|);
    RunAppend(cfg, Machine(f, log), u, [' ']);
    TargetEnds(cfg, h, Push(log, Data(Url, u)));
  }

  function Spaces(n: nat): seq<byte> { seq(n, _ => ' ') }

  lemma {:induction false} SpacesBeforeTarget(cfg: Config, f: Fields, log: seq<Event>, n: nat)
    requires f.state == MethodWord(ReqSpacesBeforeUrl) && f.nread + n <= cfg.maxHeader
    ensures Run(cfg, Machine(f, log), Spaces(n)) == Ran(Machine(f.(nread := f.nread + n), log))
    decreases n
  {
    hide Run;
    if n == 0 {
      RunNothing(cfg, Machine(f, log));
      assert Spaces(0) == [] && f.(nread := f.nread) == f;
    } else {
      QuietStep(cfg, Machine(f, log), Spaces(n), f.(nread := f.nread + 1));
      assert Spaces(n)[1..] == Spaces(n - 1);
      SpacesBeforeTarget(cfg, f.(nread := f.nread + 1), log, n - 1);
    }
  }

  lemma {:induction false} SpacesBeforeProtocol(cfg: Config, f: Fields, log: seq<Event>, n: nat)
    requires f.state == Version(ReqHttpStart) && f.nread + n <= cfg.maxHeader
    ensures Run(cfg, Machine(f, log), Spaces(n)) == Ran(Machine(f.(nread := f.nread + n), log))
    decreases n
  {
    hide Run;
    if n == 0 {
      RunNothing(cfg, Machine(f, log));
      assert Spaces(0) == [] && f.(nread := f.nread) == f;
    } else {
      QuietStep(cfg, Machine(f, log), Spaces(n), f.(nread := f.nread + 1));
      assert Spaces(n)[1..] == Spaces(n - 1);
      SpacesBeforeProtocol(cfg, f.(nread := f.nread + 1), log, n - 1);
    }
  }

  lemma HttpName(cfg: Config, f: Fields, log: seq<Event>)
    requires f.state == Version(ReqHttpStart) && f.nread + 5 <= cfg.maxHeader
    ensures Run(cfg, Machine(f, log), "HTTP/") == Ran(Machine(f.(state := Version(ReqHttpMajor), nread := f.nread + 5), log))
  {
    hide Run;
    var s: seq<byte> := "HTTP/";
    var n := f.nread;
    var f1 := f.(state := Version(ReqHttpH), nread := n + 1);
    var f2 := f.(state := Version(ReqHttpHT), nread := n + 2);
    var f3 := f.(state := Version(ReqHttpHTT), nread := n + 3);
    var f4 := f.(state := Version(ReqHttpHTTP), nread := n + 4);
    var f5 := f.(state := Version(ReqHttpMajor), nread := n + 5);
    QuietStep(cfg, Machine(f, log), s, f1);
    QuietStep(cfg, Machine(f1, log), s[1..], f2);
    QuietStep(cfg, Machine(f2, log), s[1..][1..], f3);
    QuietStep(cfg, Machine(f3, log), s[1..][1..][1..], f4);
    QuietStep(cfg, Machine(f4, log), s[1..][1..][1..][1..], f5);
    assert s[1..][1..][1..][1..][1..] == [];
    RunNothing(cfg, Machine(f5, log));
  }

  lemma IceName(cfg: Config, f: Fields, log: seq<Event>)
    requires f.state == Version(ReqHttpStart) && f.verb == SOURCE && f.nread + 4 <= cfg.maxHeader
    ensures Run(cfg, Machine(f, log), "ICE/") == Ran(Machine(f.(state := Version(ReqHttpMajor), nread := f.nread + 4), log))
  {
    hide Run;
    var s: seq<byte> := "ICE/";
    var n := f.nread;
    var f1 := f.(state := Version(ReqHttpI), nread := n + 1);
    var f2 := f.(state := Version(ReqHttpIC), nread := n + 2);
    var f3 := f.(state := Version(ReqHttpHTTP), nread := n + 3);
    var f4 := f.(state := Version(ReqHttpMajor), nread := n + 4);
    QuietStep(cfg, Machine(f, log), s, f1);
    QuietStep(cfg, Machine(f1, log), s[1..], f2);
    QuietStep(cfg, Machine(f2, log), s[1..][1..], f3);
    QuietStep(cfg, Machine(f3, log), s[1..][1..][1..], f4);
    assert s[1..][1..][1..][1..] == [];
    RunNothing(cfg, Machine(f4, log));
  }

  lemma VersionNumber(cfg: Config, f: Fields, log: seq<Event>, major: byte, minor: byte)
    requires f.state == Version(ReqHttpMajor) && IsNum(major) && IsNum(minor) && f.nread + 3 <= cfg.maxHeader
    ensures Run(cfg, Machine(f, log), [major, '.', minor]) ==
            Ran(Machine(f.(state := Version(ReqHttpEnd), major := Digit(major), minor := Digit(minor), nread := f.nread + 3), log))
  {
    hide Run;
    var s, n := [major, '.', minor], f.nread;
    var f1 := f.(state := Version(ReqHttpDot), major := Digit(major), nread := n + 1);
    var f2 := f.(state := Version(ReqHttpMinor), major := Digit(major), nread := n + 2);
    var f3 := f.(state := Version(ReqHttpEnd), major := Digit(major), minor := Digit(minor), nread := n + 3);
    QuietStep(cfg, Machine(f, log), s, f1);
    QuietStep(cfg, Machine(f1, log), s[1..], f2);
    QuietStep(cfg, Machine(f2, log), s[1..][1..], f3);
    assert s[1..][1..][1..] == [];
    RunNothing(cfg, Machine(f3, log));
  }

  lemma RequestLineEnd(cfg: Config, f: Fields, log: seq<Event>, crlf: bool)
    requires f.state == Version(ReqHttpEnd) && f.nread + |LineEnd(crlf)| <= cfg.maxHeader
    ensures Run(cfg, Machine(f, log), LineEnd(crlf)) ==
            Ran(Machine(f.(state := HeaderName(HeaderFieldStart), nread := f.nread + |LineEnd(crlf)|), log))
  {
    hide Run;
    if crlf {
      var g := f.(state := Version(ReqLineAlmostDone), nread := f.nread + 1);
      QuietByte(cfg, Machine(f, log), CR, g);
      QuietByte(cfg, Machine(g, log), LF, f.(state := HeaderName(HeaderFieldStart), nread := f.nread + 2));
      RunAppend(cfg, Machine(f, log), [CR], [LF]);
    } else {
      QuietByte(cfg, Machine(f, log), LF, f.(state := HeaderName(HeaderFieldStart), nread := f.nread + 1));
    }
  }

  /** A line end right after the target: no version is given. */
  lemma UnversionedEnd(cfg: Config, f: Fields, log: seq<Event>, crlf: bool)
    requires f.state.Target? && !EarlyUrl(f.state.url) && f.nread + |LineEnd(crlf)| <= cfg.maxHeader
    ensures Run(cfg, Machine(f, log), LineEnd(crlf)) ==
            Ran(Machine(f.(state := HeaderName(HeaderFieldStart), major := 0, minor := 9, nread := f.nread + |LineEnd(crlf)|),
                        log))
  {
    hide Run;
    if crlf {
      var g := f.(state := Version(ReqLineAlmostDone), major := 0, minor := 9, nread := f.nread + 1);
      FlushByte(cfg, Machine(f, log), CR, g, Url);
      QuietByte(cfg, Machine(g, log), LF, g.(state := HeaderName(HeaderFieldStart), nread := f.nread + 2));
      RunAppend(cfg, Machine(f, log), [CR], [LF]);
    } else {
      FlushByte(cfg, Machine(f, log), LF,
                f.(state := HeaderName(HeaderFieldStart), major := 0, minor := 9, nread := f.nread + 1), Url);
    }
  }

  // ---- whole lines

  function Word(m: Method): seq<byte> {
    NameLetters(m);
    MethodName(m)
  }

  /** The method and the target. */
  function FrontText(l: LineText): seq<byte> { Word(l.verb) + [' '] + Spaces(l.gap) + l.target }

  function ProtocolName(ice: bool): seq<byte> { if ice then "ICE/" else "HTTP/" }

  /** The rest of the line. */
  function EndText(l: LineText): seq<byte> {
    match l.protocol
    case Unversioned => LineEnd(l.crlf)
    case Versioned(more, ice, major, minor) =>
      [' '] + (Spaces(more) + ProtocolName(ice) + [major, '.', minor] + LineEnd(l.crlf))
  }

  function RequestLine(l: LineText): seq<byte> { FrontText(l) + EndText(l) }

  function TargetEntry(verb: Method): UrlState { if verb == CONNECT then ServerStart else UrlStart }

  /** The target takes the URL automaton to a state where it may end; only SOURCE may ask for ICE. */
  predicate LegalLine(l: LineText) {
    var s := UrlRun(TargetEntry(l.verb), l.target);
    && l.target != [] && s != UrlDead && !EarlyUrl(s)
    && (l.protocol.Versioned? ==>
          IsNum(l.protocol.major) && IsNum(l.protocol.minor) && (l.protocol.ice ==> l.verb == SOURCE))
  }

  function Major(p: Protocol): nat { if p.Versioned? && IsNum(p.major) then Digit(p.major) else 0 }

  function Minor(p: Protocol): nat { if p.Versioned? && IsNum(p.minor) then Digit(p.minor) else 9 }

  /** The fields after the method and the target. */
  function AfterTarget(f: Fields, l: LineText): Fields {
    f.(flags := {}, contentLength := ULLONG_MAX, state := Target(UrlRun(TargetEntry(l.verb), l.target)), verb := l.verb,
       index := |MethodName(l.verb)| + 1, nread := f.nread + |FrontText(l)|)
  }

  lemma FrontRead(cfg: Config, f: Fields, log: seq<Event>, l: LineText)
    requires f.state == Between(StartReq) && LegalLine(l) && f.nread + |FrontText(l)| <= cfg.maxHeader
    ensures Run(cfg, Machine(f, log), FrontText(l)) ==
            Ran(Machine(AfterTarget(f, l), Push(Push(log, MessageBegin), Data(Url, l.target))))
  {
    hide Run, Push, MethodName, UrlRun, EarlyUrl;
    NameLetters(l.verb);
    var word, m := Word(l.verb), Machine(f, log);
    MethodExact(cfg, f, log, word);
    match Run(cfg, m, word + [' '])
    case Ran(m1) =>
      SameName(l.verb, m1.f.verb);
      SpacesBeforeTarget(cfg, m1.f, m1.log, l.gap);
      TargetBytes(cfg, m1.f.(nread := m1.f.nread + l.gap), m1.log, l.target);
      RunAppend(cfg, m, word + [' '], Spaces(l.gap));
      RunAppend(cfg, m, word + [' '] + Spaces(l.gap), l.target);
  }

  /** The protocol and the end of the line. */
  lemma ProtocolRead(cfg: Config, f: Fields, log: seq<Event>, p: Protocol, crlf: bool)
    requires f.state == Version(ReqHttpStart) && p.Versioned? && IsNum(p.major) && IsNum(p.minor)
    requires p.ice ==> f.verb == SOURCE
    requires var text := Spaces(p.more) + ProtocolName(p.ice) + [p.major, '.', p.minor] + LineEnd(crlf);
             f.nread + |text| <= cfg.maxHeader
    ensures var text := Spaces(p.more) + ProtocolName(p.ice) + [p.major, '.', p.minor] + LineEnd(crlf);
            Run(cfg, Machine(f, log), text) ==
            Ran(Machine(f.(state := HeaderName(HeaderFieldStart), major := Digit(p.major), minor := Digit(p.minor),
                           nread := f.nread + |text|), log))
  {
    hide Run, LineEnd;
    var m, n, number := Machine(f, log), f.nread + p.more, [p.major, '.', p.minor];
    var name := ProtocolName(p.ice);
    SpacesBeforeProtocol(cfg, f, log, p.more);
    if p.ice { IceName(cfg, f.(nread := n), log); } else { HttpName(cfg, f.(nread := n), log); }
    n := n + |name|;
    VersionNumber(cfg, f.(state := Version(ReqHttpMajor), nread := n), log, p.major, p.minor);
    RequestLineEnd(cfg, f.(state := Version(ReqHttpEnd), major := Digit(p.major), minor := Digit(p.minor), nread := n + 3),
                   log, crlf);
    RunAppend(cfg, m, Spaces(p.more), name);
    RunAppend(cfg, m, Spaces(p.more) + name, number);
    RunAppend(cfg, m, Spaces(p.more) + name + number, LineEnd(crlf));
  }

  /** The fields at the first header. */
  function AtHeaders(f: Fields, l: LineText): Fields {
    f.(flags := {}, contentLength := ULLONG_MAX, state := HeaderName(HeaderFieldStart), verb := l.verb,
       index := |MethodName(l.verb)| + 1, major := Major(l.protocol), minor := Minor(l.protocol),
       nread := f.nread + |RequestLine(l)|)
  }

  /** A request line sets method and version and reports the target whole. */
  lemma RequestLineRead(cfg: Config, f: Fields, log: seq<Event>, l: LineText)
    requires f.state == Between(StartReq) && LegalLine(l) && f.nread + |RequestLine(l)| <= cfg.maxHeader
    ensures Run(cfg, Machine(f, log), RequestLine(l)) ==
            Ran(Machine(AtHeaders(f, l), Push(Push(log, MessageBegin), Data(Url, l.target))))
  {
    hide Run, Push, MethodName, EarlyUrl, UrlRun, FrontText, LineEnd;
    var log1, g := Push(Push(log, MessageBegin), Data(Url, l.target)), AfterTarget(f, l);
    FrontRead(cfg, f, log, l);
    RunAppend(cfg, Machine(f, log), FrontText(l), EndText(l));
    match l.protocol
    case Unversioned => UnversionedEnd(cfg, g, log1, l.crlf);
    case Versioned(more, ice, major, minor) =>
      var text := Spaces(more) + ProtocolName(ice) + [major, '.', minor] + LineEnd(l.crlf);
      TargetEnds(cfg, g, log1);
      ProtocolRead(cfg, g.(state := Version(ReqHttpStart), nread := g.nread + 1), log1, l.protocol, l.crlf);
      RunAppend(cfg, Machine(g, log1), [' '], text);
  }
}
