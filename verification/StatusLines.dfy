/** Status lines as text: any version, any code that is accepted, any reason or none; and how a parser for both kinds of
    message tells them apart. */
module StatusLines {
  import opened Bytes
  import opened Trace
  import opened ParserState
  import opened Transitions
  import opened ByteMachine
  import opened Skips
  import opened Numbers
  import opened Values
  import opened RequestLines
  import opened Refusals

  // ---- status codes

  lemma CodeByte(cfg: Config, f: Fields, log: seq<Event>, s: seq<byte>)
    requires f.state == StatusLine(ResStatusCode) && s != [] && IsNum(s[0]) && f.nread + 1 <= cfg.maxHeader
    ensures Run(cfg, Machine(f, log), s) ==
            if f.status * 10 + Digit(s[0]) > 999 then Failed(InvalidStatus, |s|, log)
            else Run(cfg, Machine(f.(status := f.status * 10 + Digit(s[0]), nread := f.nread + 1), log), s[1..])
  {
    hide Run;
    if f.status * 10 + Digit(s[0]) > 999 {
      FailStep(cfg, Machine(f, log), s, InvalidStatus);
    } else {
      QuietStep(cfg, Machine(f, log), s, f.(status := f.status * 10 + Digit(s[0]), nread := f.nread + 1));
    }
  }

  lemma {:induction false} MoreCode(cfg: Config, f: Fields, log: seq<Event>, s: seq<byte>)
    requires f.state == StatusLine(ResStatusCode) && AllDigits(s) && f.nread + |s| <= cfg.maxHeader && f.status <= 999
    ensures var v := Decimal(f.status, s);
            match Run(cfg, Machine(f, log), s)
            case Ran(m) => v <= 999 && m == Machine(f.(status := v, nread := f.nread + |s|), log)
            case Stopped(_, _) => false
            case Failed(e, _, _) => v > 999 && e == InvalidStatus
    decreases |s|
  {
    hide Run;
    if s == [] {
      RunNothing(cfg, Machine(f, log));
      assert f.(status := f.status, nread := f.nread) == f;
    } else {
      CodeByte(cfg, f, log, s);
      var v := f.status * 10 + Digit(s[0]);
      DecimalGrows(v, s[1..]);
      if v <= 999 {
        var g := f.(status := v, nread := f.nread + 1);
        MoreCode(cfg, g, log, s[1..]);
        assert g.(status := Decimal(v, s[1..]), nread := g.nread + |s[1..]|) ==
               f.(status := Decimal(v, s[1..]), nread := f.nread + |s|);
      }
    }
  }

  /** A status code of digits `s` is taken if and only if its value is at most 999, however many digits there are, and is
      then stored exactly. */
  lemma StatusCodeExact(cfg: Config, f: Fields, log: seq<Event>, s: seq<byte>)
    requires f.state == StatusLine(ResFirstStatusCode) && s != [] && AllDigits(s) && f.nread + |s| <= cfg.maxHeader
    ensures var v := Decimal(0, s);
            match Run(cfg, Machine(f, log), s)
            case Ran(m) => v <= 999 && m == Machine(f.(state := StatusLine(ResStatusCode), status := v, nread := f.nread + |s|), log)
            case Stopped(_, _) => false
            case Failed(e, _, _) => v > 999 && e == InvalidStatus
  {
    hide Run;
    var g := f.(state := StatusLine(ResStatusCode), status := Digit(s[0]), nread := f.nread + 1);
    QuietStep(cfg, Machine(f, log), s, g);
    MoreCode(cfg, g, log, s[1..]);
    var v := Decimal(0, s);
    assert g.(status := v, nread := g.nread + |s[1..]|) ==
           f.(state := StatusLine(ResStatusCode), status := v, nread := f.nread + |s|);
  }

  /** Only spaces before the code, and only a space or the end of the line after it. */
  lemma CodeRefused(cfg: Config, f: Fields, log: seq<Event>, s: seq<byte>)
    requires s != [] && !IsNum(s[0]) && s[0] != ' ' && f.nread + 1 <= cfg.maxHeader
    requires f.state == StatusLine(ResFirstStatusCode) || (f.state == StatusLine(ResStatusCode) && s[0] != CR && s[0] != LF)
    ensures Run(cfg, Machine(f, log), s) == Failed(InvalidStatus, |s|, log)
  {
    hide Run;
    FailStep(cfg, Machine(f, log), s, InvalidStatus);
  }

  // ---- reasons

  /** What stands between the code and the end of the line. */
  datatype Reason = Bare | Spaced(text: seq<byte>)

  function ReasonText(r: Reason): seq<byte> { if r.Bare? then [] else [' '] + r.text }

  /** A reason as it is reported. */
  function ReasonTold(r: Reason): seq<byte> { if r.Bare? then [] else r.text }

  predicate LegalReason(r: Reason) { r.Spaced? ==> CR !in r.text && LF !in r.text }

  lemma {:induction false} MoreReason(cfg: Config, f: Fields, log: seq<Event>, s: seq<byte>)
    requires f.state == StatusLine(ResStatus) && EndsIn(log, Status) && CR !in s && LF !in s && f.nread + |s| <= cfg.maxHeader
    ensures Run(cfg, Machine(f, log), s) == Ran(Machine(f.(nread := f.nread + |s|), Push(log, Data(Status, s))))
    decreases |s|
  {
    hide Run, Push;
    if s == [] {
      RunNothing(cfg, Machine(f, log));
      PushNothing(log, Status);
      assert f.(nread := f.nread) == f;
    } else {
      var g := f.(nread := f.nread + 1);
      assert s[0] in s;
      QuietStep(cfg, Machine(f, log), s, g);
      MoreReason(cfg, g, Push(log, Data(Status, [s[0]])), s[1..]);
      PushTwice(log, Status, [s[0]], s[1..]);
      assert [s[0]] + s[1..] == s;
      assert g.(nread := g.nread + |s[1..]|) == f.(nread := f.nread + |s|);
    }
  }

  lemma LineDone(cfg: Config, f: Fields, log: seq<Event>)
    requires f.state == StatusLine(ResLineAlmostDone) && f.nread + 1 <= cfg.maxHeader
    ensures Run(cfg, Machine(f, log), [LF]) == Ran(Machine(f.(state := HeaderName(HeaderFieldStart), nread := f.nread + 1), log))
  {
    hide Run;
    QuietByte(cfg, Machine(f, log), LF, f.(state := HeaderName(HeaderFieldStart), nread := f.nread + 1));
  }

  lemma ReasonEnds(cfg: Config, f: Fields, log: seq<Event>, crlf: bool)
    requires f.state == StatusLine(ResStatus) && f.nread + |LineEnd(crlf)| <= cfg.maxHeader
    ensures Run(cfg, Machine(f, log), LineEnd(crlf)) ==
            Ran(Machine(f.(state := HeaderName(HeaderFieldStart), nread := f.nread + |LineEnd(crlf)|), log))
  {
    hide Run;
    if crlf {
      var g := f.(state := StatusLine(ResLineAlmostDone), nread := f.nread + 1);
      FlushByte(cfg, Machine(f, log), CR, g, Status);
      LineDone(cfg, g, log);
      RunAppend(cfg, Machine(f, log), [CR], [LF]);
    } else {
      FlushByte(cfg, Machine(f, log), LF, f.(state := HeaderName(HeaderFieldStart), nread := f.nread + 1), Status);
    }
  }

  /** The line ends where a reason might begin: an empty one is reported. */
  lemma NoReason(cfg: Config, f: Fields, log: seq<Event>, crlf: bool)
    requires f.state in {StatusLine(ResStatusCode), StatusLine(ResStatusStart)}
    requires f.nread + |LineEnd(crlf)| <= cfg.maxHeader
    ensures Run(cfg, Machine(f, log), LineEnd(crlf)) ==
            Ran(Machine(f.(state := HeaderName(HeaderFieldStart), index := 0, nread := f.nread + |LineEnd(crlf)|),
                        Push(log, Data(Status, []))))
  {
    hide Run, Dispatch, Push, Transition;
    var end, g := LineEnd(crlf), f.(nread := f.nread + 1);
    var log1 := Push(log, Data(Status, []));
    CountedStep(cfg, Machine(f, log), end);
    NoReasonByte(cfg, g, log, end[0]);
    if crlf {
      assert end[1..] == [LF];
      LineDone(cfg, g.(state := StatusLine(ResLineAlmostDone), index := 0), log1);
    } else {
      assert end[1..] == [];
      RunNothing(cfg, Machine(g.(state := HeaderName(HeaderFieldStart), index := 0), log1));
    }
  }

  lemma NoReasonByte(cfg: Config, g: Fields, log: seq<Event>, ch: byte)
    requires g.state in {StatusLine(ResStatusCode), StatusLine(ResStatusStart)} && (ch == CR || ch == LF)
    ensures Dispatch(cfg, g, Slot(log, NoMark), ch) ==
            Stepped(Machine(g.(index := 0, state := if ch == CR then StatusLine(ResLineAlmostDone) else HeaderName(HeaderFieldStart)),
                            Push(log, Data(Status, []))))
  {
    hide Dispatch, Push, Transition;
    var slot, log1 := Slot(log, NoMark), Push(log, Data(Status, []));
    var f1, f2 := g.(state := StatusLine(ResStatusStart)), g.(state := StatusLine(ResStatus), index := 0);
    var f3 := f2.(state := if ch == CR then StatusLine(ResLineAlmostDone) else HeaderName(HeaderFieldStart));
    NoReasonMoves(g, ch, cfg.answers(g.answered));
    if g.state == StatusLine(ResStatusCode) {
      assert g.(state := StatusLine(ResStatusCode)) == g;
      Again(cfg, g, slot, ch, Move(f1, [], Reexecute));
      assert ApplyAll(slot, [], ch) == slot;
    }
    Again(cfg, f1, slot, ch, Move(f2, [Mark(Status)], Reexecute));
    assert ApplyAll(slot, [Mark(Status)], ch) == Apply(slot, Mark(Status), ch);
    AdvanceOnce(cfg, f2, Slot(log1, Marked(Status)), ch, Move(f3, [Flush(Status)], Advance));
    assert ApplyAll(Slot(log1, Marked(Status)), [Flush(Status)], ch) == Apply(Slot(log1, Marked(Status)), Flush(Status), ch);
  }

  /** The passes of the switch at that line end. */
  lemma NoReasonMoves(g: Fields, ch: byte, answer: Answer)
    requires ch == CR || ch == LF
    ensures var f1, f2 := g.(state := StatusLine(ResStatusStart)), g.(state := StatusLine(ResStatus), index := 0);
            && Transition(g.(state := StatusLine(ResStatusCode)), ch, answer) == Move(f1, [], Reexecute)
            && Transition(f1, ch, answer) == Move(f2, [Mark(Status)], Reexecute)
            && Transition(f2, ch, answer) ==
               Move(f2.(state := if ch == CR then StatusLine(ResLineAlmostDone) else HeaderName(HeaderFieldStart)),
                    [Flush(Status)], Advance)
  {}

  /** From the end of the code to the end of the line. */
  lemma ReasonRead(cfg: Config, f: Fields, log: seq<Event>, r: Reason, crlf: bool)
    requires f.state == StatusLine(ResStatusCode) && LegalReason(r)
    requires f.nread + |ReasonText(r) + LineEnd(crlf)| <= cfg.maxHeader
    ensures Run(cfg, Machine(f, log), ReasonText(r) + LineEnd(crlf)) ==
            Ran(Machine(f.(state := HeaderName(HeaderFieldStart), index := 0, nread := f.nread + |ReasonText(r) + LineEnd(crlf)|),
                        Push(log, Data(Status, ReasonTold(r)))))
  {
    hide Run, Push, LineEnd;
    var end := LineEnd(crlf);
    if r.Bare? {
      assert [] + end == end;
      NoReason(cfg, f, log, crlf);
    } else {
      var g := f.(state := StatusLine(ResStatusStart), nread := f.nread + 1);
      QuietByte(cfg, Machine(f, log), ' ', g);
      RunAppend(cfg, Machine(f, log), [' '], r.text + end);
      assert [' '] + r.text + end == [' '] + (r.text + end);
      if r.text == [] {
        assert r.text + end == end;
        NoReason(cfg, g, log, crlf);
      } else {
        SomeReason(cfg, g, log, r.text, crlf);
      }
    }
  }

  lemma ReasonBytes(cfg: Config, f: Fields, log: seq<Event>, s: seq<byte>)
    requires f.state == StatusLine(ResStatusStart) && s != [] && CR !in s && LF !in s && f.nread + |s| <= cfg.maxHeader
    ensures Run(cfg, Machine(f, log), s) ==
            Ran(Machine(f.(state := StatusLine(ResStatus), index := 0, nread := f.nread + |s|), Push(log, Data(Status, s))))
  {
    hide Run, Push;
    assert s[0] in s;
    var g, log1 := f.(state := StatusLine(ResStatus), index := 0, nread := f.nread + 1), Push(log, Data(Status, [s[0]]));
    MarkStep(cfg, Machine(f, log), s, g, Status);
    MoreReason(cfg, g, log1, s[1..]);
    PushTwice(log, Status, [s[0]], s[1..]);
    assert [s[0]] + s[1..] == s;
    assert g.(nread := g.nread + |s[1..]|) == f.(state := StatusLine(ResStatus), index := 0, nread := f.nread + |s|);
  }

  lemma SomeReason(cfg: Config, f: Fields, log: seq<Event>, s: seq<byte>, crlf: bool)
    requires f.state == StatusLine(ResStatusStart) && s != [] && CR !in s && LF !in s
    requires f.nread + |s + LineEnd(crlf)| <= cfg.maxHeader
    ensures Run(cfg, Machine(f, log), s + LineEnd(crlf)) ==
            Ran(Machine(f.(state := HeaderName(HeaderFieldStart), index := 0, nread := f.nread + |s + LineEnd(crlf)|),
                        Push(log, Data(Status, s))))
  {
    hide Run, Push, LineEnd;
    ReasonBytes(cfg, f, log, s);
    RunAppend(cfg, Machine(f, log), s, LineEnd(crlf));
    ReasonEnds(cfg, f.(state := StatusLine(ResStatus), index := 0, nread := f.nread + |s|), Push(log, Data(Status, s)), crlf);
  }

  // ---- whole lines

  /** A status line as text: `gap` spaces and one before the code. */
  datatype StatusText = StatusText(major: byte, minor: byte, gap: nat, code: seq<byte>, reason: Reason, crlf: bool)

  function ProtocolText(l: StatusText): seq<byte> { "HTTP/" + [l.major, '.', l.minor, ' '] }

  function StatusLineText(l: StatusText): seq<byte> {
    ProtocolText(l) + Spaces(l.gap) + l.code + (ReasonText(l.reason) + LineEnd(l.crlf))
  }

  predicate LegalStatus(l: StatusText) {
    && IsNum(l.major) && IsNum(l.minor) && LegalReason(l.reason)
    && l.code != [] && AllDigits(l.code) && Decimal(0, l.code) <= 999
  }

  /** The fields at the first header of a response. */
  function AtResponseHeaders(f: Fields, l: StatusText): Fields
    requires LegalStatus(l)
  {
    f.(flags := {}, contentLength := ULLONG_MAX, state := HeaderName(HeaderFieldStart), index := 0,
       major := Digit(l.major), minor := Digit(l.minor), status := Decimal(0, l.code), nread := f.nread + |StatusLineText(l)|)
  }

  lemma {:induction false} SpacesBeforeCode(cfg: Config, f: Fields, log: seq<Event>, n: nat)
    requires f.state == StatusLine(ResFirstStatusCode) && f.nread + n <= cfg.maxHeader
    ensures Run(cfg, Machine(f, log), Spaces(n)) == Ran(Machine(f.(nread := f.nread + n), log))
    decreases n
  {
    hide Run;
    if n == 0 {
      RunNothing(cfg, Machine(f, log));
      assert Spaces(0) == [] && f.(nread := f.nread) == f;
    } else {
      QuietStep(cfg, Machine(f, log), Spaces(n), f.(nread := f.nread + 1));
      assert Spaces(n)[1..] == Spaces(n - 1);
      SpacesBeforeCode(cfg, f.(nread := f.nread + 1), log, n - 1);
    }
  }

  lemma ProtocolHeard(cfg: Config, f: Fields, log: seq<Event>, l: StatusText)
    requires f.state == StatusLine(ResH) && IsNum(l.major) && IsNum(l.minor) && f.nread + 8 <= cfg.maxHeader
    ensures Run(cfg, Machine(f, log), ProtocolText(l)[1..]) ==
            Ran(Machine(f.(state := StatusLine(ResFirstStatusCode), major := Digit(l.major), minor := Digit(l.minor),
                           nread := f.nread + 8), log))
  {
    hide Run;
    var t: seq<byte> := ['T', 'T', 'P', '/', l.major, '.', l.minor, ' '];
    assert ProtocolText(l)[1..] == t;
    forall i | 0 <= i < 8 ensures ProtocolFits(1 + i, t[i]) {}
    NoMisfit(1, t);
    ProtocolExact(cfg, true, f, log, 1, t);
  }

  /** A status line sets version and status and reports the reason whole. */
  lemma StatusLineRead(cfg: Config, f: Fields, log: seq<Event>, l: StatusText)
    requires f.state == Between(StartRes) && LegalStatus(l) && f.nread + |StatusLineText(l)| <= cfg.maxHeader
    ensures Run(cfg, Machine(f, log), StatusLineText(l)) ==
            Ran(Machine(AtResponseHeaders(f, l), Push(Push(log, MessageBegin), Data(Status, ReasonTold(l.reason)))))
  {
    hide Run, Push, ReasonText, LineEnd, AllDigits, LegalReason;
    var m, text, n := Machine(f, log), ProtocolText(l), f.nread;
    var log1 := Push(log, MessageBegin);
    var f1 := f.(flags := {}, contentLength := ULLONG_MAX, state := StatusLine(ResH), nread := n + 1);
    var f2 := f1.(state := StatusLine(ResFirstStatusCode), major := Digit(l.major), minor := Digit(l.minor), nread := n + 9);
    var f3 := f2.(nread := f2.nread + l.gap);
    NotifyStep(cfg, m, text, f1, MessageBegin);
    ProtocolHeard(cfg, f1, log1, l);
    RunAppend(cfg, m, text, Spaces(l.gap));
    SpacesBeforeCode(cfg, f2, log1, l.gap);
    RunAppend(cfg, m, text + Spaces(l.gap), l.code);
    StatusCodeExact(cfg, f3, log1, l.code);
    var f4 := f3.(state := StatusLine(ResStatusCode), status := Decimal(0, l.code), nread := f3.nread + |l.code|);
    RunAppend(cfg, m, text + Spaces(l.gap) + l.code, ReasonText(l.reason) + LineEnd(l.crlf));
    ReasonRead(cfg, f4, log1, l.reason, l.crlf);
  }

  // ---- parsers for both kinds

  function As(f: Fields, kind: Kind): Fields {
    f.(kind := kind, state := Between(if kind == Response then StartRes else StartReq))
  }

  /** Any first byte but 'H' is one of a request. */
  lemma NoH(cfg: Config, f: Fields, log: seq<Event>, s: seq<byte>)
    requires f.state == Between(StartReqOrRes) && f.nread + 1 <= cfg.maxHeader
    requires s != [] && s[0] != CR && s[0] != LF && s[0] != 'H'
    ensures Run(cfg, Machine(f, log), s) == Run(cfg, Machine(As(f, Request), log), s)
  {
    hide Run, Dispatch, Push, FirstGuess;
    var ch, n, slot := s[0], f.nread + 1, Slot(log, NoMark);
    var g := Fresh(f, Between(StartReq)).(kind := Request, nread := n);
    CountedStep(cfg, Machine(f, log), s);
    Again(cfg, f.(nread := n), slot, ch, Move(g, [], Reexecute));
    assert ApplyAll(slot, [], ch) == slot;
    CountedStep(cfg, Machine(As(f, Request), log), s);
    SameGuess(cfg, g, As(f, Request).(nread := n), slot, ch);
  }

  /** What the last message left in the flags does not matter. */
  lemma SameGuess(cfg: Config, f: Fields, g: Fields, slot: Slot, ch: byte)
    requires f.state == Between(StartReq) && ch != CR && ch != LF && f == g.(flags := f.flags, contentLength := f.contentLength)
    ensures Dispatch(cfg, f, slot, ch) == Dispatch(cfg, g, slot, ch)
  {
    hide Push, FirstGuess, ApplyAll;
  }

  /** 'H' begins "HEAD" or "HTTP", and the second byte tells which. */
  lemma AfterH(cfg: Config, f: Fields, log: seq<Event>, s: seq<byte>)
    requires f.state == Between(StartReqOrRes) && f.nread + 2 <= cfg.maxHeader && |s| >= 2 && s[0] == 'H'
    ensures Run(cfg, Machine(f, log), s) ==
            if s[1] == 'T' then Run(cfg, Machine(As(f, Response), log), s)
            else if s[1] == 'E' then Run(cfg, Machine(As(f, Request), log), s)
            else Failed(InvalidConstant, |s| - 1, Push(log, MessageBegin))
  {
    hide Run, Push;
    var f1, t, log1 := Fresh(f, StatusLine(ResOrRespH)).(nread := f.nread + 1), s[1..], Push(log, MessageBegin);
    NotifyStep(cfg, Machine(f, log), s, f1, MessageBegin);
    if s[1] == 'T' {
      var g := Fresh(As(f, Response), StatusLine(ResH)).(nread := f.nread + 1);
      NotifyStep(cfg, Machine(As(f, Response), log), s, g, MessageBegin);
      QuietStep(cfg, Machine(g, log1), t, g.(state := StatusLine(ResHT), nread := f.nread + 2));
      QuietStep(cfg, Machine(f1, log1), t, f1.(kind := Response, state := StatusLine(ResHT), nread := f.nread + 2));
    } else if s[1] == 'E' {
      var g := Fresh(As(f, Request), MethodWord(ReqMethod)).(verb := HEAD, index := 1, nread := f.nread + 1);
      NotifyStep(cfg, Machine(As(f, Request), log), s, g, MessageBegin);
      QuietStep(cfg, Machine(g, log1), t, g.(index := 2, nread := f.nread + 2));
      QuietStep(cfg, Machine(f1, log1), t,
                f1.(kind := Request, verb := HEAD, index := 2, state := MethodWord(ReqMethod), nread := f.nread + 2));
    } else {
      FailStep(cfg, Machine(f1, log1), t, InvalidConstant);
    }
  }

  /** A parser for both kinds of message reads any text as the parser for one of them: for responses if the text begins
      with "HT", for requests if it begins with "HE" or any other letter, and no text that begins otherwise. */
  lemma BothExact(cfg: Config, s: seq<byte>)
    requires |s| >= 2 && s[0] != CR && s[0] != LF && cfg.maxHeader >= 2
    ensures Run(cfg, Machine(Initial(Both), []), s) ==
            if s[0] != 'H' || s[1] == 'E' then Run(cfg, Machine(Initial(Request), []), s)
            else if s[1] == 'T' then Run(cfg, Machine(Initial(Response), []), s)
            else Failed(InvalidConstant, |s| - 1, [MessageBegin])
  {
    hide Run;
    if s[0] == 'H' { AfterH(cfg, Initial(Both), [], s); } else { NoH(cfg, Initial(Both), [], s); }
    assert As(Initial(Both), Request) == Initial(Request) && As(Initial(Both), Response) == Initial(Response);
  }
}
