/** Content-Length headers: which ones are refused, and that a message that goes on has named at most one. */
module Lengths {
  import opened Bytes
  import opened Alphabets
  import opened Trace
  import opened ParserState
  import opened UrlAutomaton
  import opened Transitions
  import opened ByteMachine
  import opened Invariants
  import opened Skips
  import opened Numbers
  import opened HeaderNames
  import opened Lists
  import opened Values
  import opened Headers
  import opened Announcements

  // ---- one header

  predicate Refused(r: RunResult, e: Errno, rest: seq<byte>) { r.Failed? && r.errno == e && r.left >= |rest| }

  /** A Content-Length that already stands fast: the first byte of the value is refused. */
  lemma FirstByteRefused(cfg: Config, f: Fields, log: seq<Event>, s: seq<byte>)
    requires f.state == HeaderName(HeaderValueDiscardWs) && f.headerState == Named(ContentLength) && f.nread + 1 <= cfg.maxHeader
    requires s != [] && s[0] != ' ' && s[0] != '\t' && s[0] != CR && s[0] != LF
    requires !IsNum(s[0]) || F_CONTENTLENGTH in f.flags
    ensures Run(cfg, Machine(f, log), s) ==
            Failed(if IsNum(s[0]) then UnexpectedContentLength else InvalidContentLength, |s|, log)
  {
    hide Run;
    FailStep(cfg, Machine(f, log), s, if IsNum(s[0]) then UnexpectedContentLength else InvalidContentLength);
  }

  lemma EmptyRefused(cfg: Config, f: Fields, log: seq<Event>, crlf: bool, rest: seq<byte>)
    requires f.state == HeaderName(HeaderValueDiscardWs) && f.headerState == Named(ContentLength)
    requires NoFold(rest) && f.nread + |LineEnd(crlf)| + 1 <= cfg.maxHeader
    ensures Run(cfg, Machine(f, log), LineEnd(crlf) + rest) == Failed(InvalidContentLength, |rest|, log)
  {
    hide Run;
    EmptyLine(cfg, f, log, crlf, rest);
    FailStep(cfg, Machine(f.(state := HeaderName(HeaderValueDiscardLws), nread := f.nread + |LineEnd(crlf)|), log), rest,
             InvalidContentLength);
  }

  /** After the digits anything but spaces and folds is refused. */
  lemma {:induction false} TailRefused(cfg: Config, f: Fields, log: seq<Event>, tail: seq<Cell>, rest: seq<byte>)
    requires f.state == HeaderBody(HeaderValue) && f.headerState.Length? && EndsIn(log, Value)
    requires (forall i :: 0 <= i < |tail| ==> LegalCell(tail[i])) && !LegalTail(tail)
    requires f.headerState == Length(ContentLengthNum) ==> tail[0].Folded? || !IsNum(tail[0].ch)
    requires f.nread + |CellsText(tail)| <= cfg.maxHeader
    ensures Refused(Run(cfg, Machine(f, log), CellsText(tail) + rest), InvalidContentLength, rest)
    decreases |tail|
  {
    hide Run, Push, FieldChar, LineEnd;
    var c, more := tail[0], CellsText(tail[1..]) + rest;
    var text := CellsText(tail) + rest;
    assert text == CellText(c) + more;
    if c.Folded? || c.ch == ' ' {
      CellRun(cfg, f, log, c, more);
      assert !LegalTail(tail[1..]);
      TailRefused(cfg, CellFields(f, c).(nread := f.nread + |CellText(c)|), Push(log, Data(Value, [c.ch])), tail[1..], rest);
    } else {
      assert text[0] == c.ch;
      PlainCell(c);
      BadValueStep(cfg, f, log, text, InvalidContentLength);
    }
  }

  lemma PlainCell(c: Cell)
    requires LegalCell(c) && c.Plain?
    ensures IsHeaderChar(c.ch) && c.ch != CR && c.ch != LF
  {}

  predicate LengthHeader(h: Header) {
    h.name != [] && AllTokens(h.name) && IsLength(h) && LegalLead(h.lead) && LegalValue(h.value)
  }

  lemma {:induction false} DigitsEnd(v: seq<Cell>)
    ensures var n := |Digits(v)|; n < |v| ==> v[n].Folded? || !IsNum(v[n].ch)
    decreases |v|
  {
    if Digits(v) != [] {
      DigitCell(v);
      DigitsEnd(v[1..]);
    }
  }

  /** The value of a first Content-Length. */
  lemma LengthRefused(cfg: Config, f: Fields, log: seq<Event>, v: seq<Cell>, crlf: bool, rest: seq<byte>)
    requires f.state == HeaderName(HeaderValueDiscardWs) && f.headerState == Named(ContentLength)
    requires F_CONTENTLENGTH !in f.flags && LegalValue(v) && !LegalLength(v) && NoFold(rest)
    requires f.nread + |CellsText(v)| + |LineEnd(crlf)| + 1 <= cfg.maxHeader
    ensures Refused(Run(cfg, Machine(f, log), CellsText(v) + LineEnd(crlf) + rest), InvalidContentLength, rest)
  {
    hide Run, Push, CellsText, LineEnd, LegalTail, Digits, LegalCell, FieldChar;
    var s, end, text := Digits(v), LineEnd(crlf) + rest, CellsText(v) + LineEnd(crlf) + rest;
    var cells := v[|s|..];
    assert text == CellsText(v) + end;
    if v == [] {
      NoText();
      assert text == end;
      EmptyRefused(cfg, f, log, crlf, rest);
    } else if s == [] {
      FirstCell(v);
      DigitsEnd(v);
      assert text[0] == v[0].ch;
      FieldNoEnd(v[0].ch);
      FirstByteRefused(cfg, f, log, text);
    } else {
      DigitsFirst(v);
      DigitsEnd(v);
      ContentLengthExact(cfg, f, log, s);
      RunAppend(cfg, Machine(f, log), s, CellsText(cells) + end);
      assert s + (CellsText(cells) + end) == text;
      match Run(cfg, Machine(f, log), s)
      case Ran(m) =>
        NoTail();
        TailRefused(cfg, m.f, m.log, cells, end);
      case Failed(_, _, _) =>
    }
  }

  lemma NoTail()
    ensures LegalTail([])
  {}

  lemma FieldNoEnd(ch: byte)
    requires FieldChar(ch)
    ensures ch != CR && ch != LF
  {}

  /** A Content-Length is taken if and only if it is the first one of its message and its value is a number of at most
      18446744073709551609, with nothing but spaces and folds after it. */
  lemma LengthExact(cfg: Config, f: Fields, log: seq<Event>, h: Header, rest: seq<byte>) returns (g: Fields)
    requires f.state == HeaderName(HeaderFieldStart) && LengthHeader(h) && NoFold(rest)
    requires f.nread + |HeaderLine(h)| + 1 <= cfg.maxHeader
    ensures var r, first := Run(cfg, Machine(f, log), HeaderLine(h) + rest), F_CONTENTLENGTH !in f.flags;
            && (Digits(h.value) == [] ==> Refused(r, InvalidContentLength, rest))
            && (Digits(h.value) != [] && !first ==>
                  r == Failed(UnexpectedContentLength, |CellsText(h.value) + LineEnd(h.crlf) + rest|,
                              Push(log, Data(Field, h.name))))
            && (first && !LegalLength(h.value) ==> Refused(r, InvalidContentLength, rest))
            && (first && LegalLength(h.value) ==>
                  r == Run(cfg, Machine(g, Push(Push(log, Data(Field, h.name)), Data(Value, Reported(h.value)))), rest) &&
                  g == f.(headerState := g.headerState, index := g.index, flags := f.flags + {F_CONTENTLENGTH},
                          contentLength := Decimal(0, Digits(h.value)), nread := f.nread + |HeaderLine(h)|))
  {
    hide Run, Push, Class, Lowered, LegalLead, LegalValue, LegalLength, Digits, CellsText, LineEnd, LegalCell, FieldChar;
    var text := CellsText(h.value) + LineEnd(h.crlf) + rest;
    var f1, log1 := AtLength(cfg, f, log, h, text);
    assert h.name + [':'] + CellsText(h.lead) + text == HeaderLine(h) + rest;
    g := f1;
    if F_CONTENTLENGTH in f.flags {
      if h.value == [] {
        NoText();
        assert text == LineEnd(h.crlf) + rest;
        EmptyRefused(cfg, f1, log1, h.crlf, rest);
        NoDigits();
      } else {
        FirstCell(h.value);
        DigitsStart(h.value);
        assert text[0] == h.value[0].ch;
        FieldNoEnd(text[0]);
        FirstByteRefused(cfg, f1, log1, text);
      }
    } else if LegalLength(h.value) {
      g := LengthRead(cfg, f1, log1, h.value, h.crlf, rest);
      SomeDigits(h.value);
    } else {
      LengthRefused(cfg, f1, log1, h.value, h.crlf, rest);
      if Digits(h.value) == [] { assert !LegalLength(h.value); }
    }
  }

  lemma NoDigits()
    ensures Digits([]) == []
  {}

  lemma DigitsStart(v: seq<Cell>)
    requires v != [] && v[0].Plain?
    ensures Digits(v) != [] <==> IsNum(v[0].ch)
  {}

  lemma SomeDigits(v: seq<Cell>)
    requires LegalLength(v)
    ensures Digits(v) != []
  {}

  /** The name and the white space before the value. */
  lemma AtLength(cfg: Config, f: Fields, log: seq<Event>, h: Header, text: seq<byte>) returns (g: Fields, log1: seq<Event>)
    requires f.state == HeaderName(HeaderFieldStart) && LengthHeader(h)
    requires f.nread + |h.name| + |CellsText(h.lead)| + 1 <= cfg.maxHeader
    ensures Run(cfg, Machine(f, log), h.name + [':'] + CellsText(h.lead) + text) == Run(cfg, Machine(g, log1), text)
    ensures log1 == Push(log, Data(Field, h.name))
    ensures g == f.(state := HeaderName(HeaderValueDiscardWs), headerState := Named(ContentLength), index := g.index,
                    nread := f.nread + |h.name| + |CellsText(h.lead)| + 1)
  {
    hide Run, Push, Class, Lowered, LegalLead, CellsText;
    var name, lead := h.name + [':'], CellsText(h.lead);
    NameAndColon(cfg, f, log, h.name);
    ClassMeaning(Lowered(h.name));
    NotCoding(f.flags);
    log1 := Push(log, Data(Field, h.name));
    match Run(cfg, Machine(f, log), name)
    case Ran(m) =>
      RunAppend(cfg, Machine(f, log), name, lead + text);
      assert name + (lead + text) == name + lead + text;
      LeadRun(cfg, m.f, m.log, h.lead, text);
      g := m.f.(nread := m.f.nread + |lead|);
  }

  lemma NotCoding(flags: set<Flag>)
    ensures Flagged(flags, "content-length") == flags
  {}

  // ---- over whole runs

  /** A Content-Length among the callbacks. */
  predicate NamesLength(name: Event, value: Event) {
    name.Data? && name.kind == Field && Lowered(name.bytes) == "content-length" && value.Data? && value.kind == Value
  }

  /** How many there are since the last message began. */
  function Lengths(log: seq<Event>): nat {
    var n := |log| - 1;
    if n < 0 || log[n] == MessageBegin then 0
    else Lengths(log[..n]) + if n >= 1 && NamesLength(log[n - 1], log[n]) then 1 else 0
  }

  lemma LengthsMore(log: seq<Event>, e: Event)
    ensures Lengths(log + [e]) ==
            if e == MessageBegin then 0
            else Lengths(log) + if log != [] && NamesLength(log[|log| - 1], e) then 1 else 0
  {
    hide NamesLength;
    var more := log + [e];
    assert more[..|log|] == log && more[|log|] == e;
    if log != [] { assert more[|log| - 1] == log[|log| - 1]; }
  }

  lemma Glued(name: Event, last: Event, e: Event)
    requires last.Data? && e.Data? && last.kind == e.kind
    ensures NamesLength(name, Data(e.kind, last.bytes + e.bytes)) <==> NamesLength(name, last)
    ensures !NamesLength(last, e)
  {
    hide Lowered;
  }

  /** Only a value after the name "content-length" counts. */
  lemma LengthsPush(log: seq<Event>, e: Event)
    ensures Lengths(Push(log, e)) ==
            if e == MessageBegin then 0
            else Lengths(log) + if log != [] && NamesLength(log[|log| - 1], e) then 1 else 0
  {
    hide Lengths, NamesLength, Push;
    PushCases(log, e);
    if e.Data? && EndsIn(log, e.kind) { LengthsGlued(log[..|log| - 1], log[|log| - 1], e); } else { LengthsMore(log, e); }
  }

  lemma PushCases(log: seq<Event>, e: Event)
    ensures if e.Data? && EndsIn(log, e.kind) then
              var n := |log| - 1;
              log == log[..n] + [log[n]] && Push(log, e) == log[..n] + [Data(e.kind, log[n].bytes + e.bytes)]
            else Push(log, e) == log + [e]
  {}

  lemma LengthsGlued(init: seq<Event>, last: Event, e: Event)
    requires last.Data? && e.Data? && last.kind == e.kind
    ensures Lengths(init + [Data(e.kind, last.bytes + e.bytes)]) == Lengths(init + [last]) && !NamesLength(last, e)
  {
    hide Lengths, NamesLength;
    Glued(if init == [] then e else init[|init| - 1], last, e);
    LengthsMore(init, last);
    LengthsMore(init, Data(e.kind, last.bytes + e.bytes));
  }

  /** The flag stands for exactly one header. */
  predicate Counted(f: Fields, log: seq<Event>) {
    && Lengths(log) == (if F_CONTENTLENGTH in f.flags then 1 else 0)
    && (f.state == Between(StartReqOrRes) ==> Lengths(log) == 0)
  }

  predicate CountsOn(f: Fields, log: seq<Event>, m: Move, ch: byte) { m.control.Fail? || Counted(m.f, After(f, log, m, ch)) }

  /** A pass that neither begins a message nor a value. */
  predicate Aside(f: Fields, m: Move) {
    && (F_CONTENTLENGTH in m.f.flags <==> F_CONTENTLENGTH in f.flags) && m.f.state != Between(StartReqOrRes)
    && ResumeMark(f.state) != Marked(Value)
    && var es, at := m.effects, ResumeMark(f.state);
       || es == []
       || (|es| == 1 && es[0].Mark? && es[0].kind != Value && at == NoMark)
       || (|es| == 1 && es[0].Flush? && (at == Marked(es[0].kind) || at == NoMark))
       || (|es| == 1 && es[0].Notify? && !es[0].event.Data? && es[0].event != MessageBegin && at == NoMark)
       || (|es| == 2 && es[0].Mark? && es[1] == FlushThrough(es[0].kind) && es[0].kind != Value && at == NoMark)
  }

  lemma AsideCounts(f: Fields, log: seq<Event>, m: Move, ch: byte)
    requires Counted(f, log) && Aside(f, m)
    ensures CountsOn(f, log, m, ch)
  {
    hide Lengths, Push, After, NamesLength;
    var es := m.effects;
    if es == [] {
      AfterNothing(f, log, m, ch);
      match ResumeMark(f.state) case Marked(k) => NoValue(log, Data(k, [ch])); case NoMark =>
    } else if |es| == 2 {
      AfterTwo(f, log, m, ch, es[0].kind);
      NoValue(log, Data(es[0].kind, [ch]));
    } else {
      assert es == [es[0]];
      match es[0]
      case Mark(k) =>
        AfterMark(f, log, m, ch, k);
        NoValue(log, Data(k, if m.control == Advance then [ch] else []));
      case Flush(k) => AfterFlush(f, log, m, ch, k);
      case Notify(e) =>
        AfterNotify(f, log, m, ch, e);
        NoValue(log, e);
    }
  }

  lemma NoValue(log: seq<Event>, e: Event)
    requires e != MessageBegin && (e.Data? ==> e.kind != Value)
    ensures Lengths(Push(log, e)) == Lengths(log)
  {
    hide Lengths, Push;
    LengthsPush(log, e);
  }

  /** A value begins or goes on. */
  lemma ValueCounts(log: seq<Event>, bytes: seq<byte>)
    ensures EndsIn(log, Field) ==>
              Lengths(Push(log, Data(Value, bytes))) ==
              Lengths(log) + if Lowered(log[|log| - 1].bytes) == "content-length" then 1 else 0
    ensures EndsIn(log, Value) ==> Lengths(Push(log, Data(Value, bytes))) == Lengths(log)
  {
    hide Lengths, Push, Lowered;
    LengthsPush(log, Data(Value, bytes));
  }

  // The passes of the switch, group by group.

  lemma BetweenCounts(f: Fields, log: seq<Event>, ch: byte)
    requires Counted(f, log) && f.state.Between?
    ensures CountsOn(f, log, OnBetween(f, f.state.between, ch), ch)
  {
    hide FirstGuess, Lengths, After;
    var m := OnBetween(f, f.state.between, ch);
    if m.effects == [] {
      AfterNothing(f, log, m, ch);
    } else if !m.control.Fail? {
      AfterNotify(f, log, m, ch, MessageBegin);
      LengthsPush(log, MessageBegin);
    }
  }

  lemma LinesAside(f: Fields, ch: byte)
    ensures f.state.StatusLine? ==> var m := OnStatusLine(f, f.state.res, ch); m.control.Fail? || Aside(f, m)
    ensures f.state == MethodWord(ReqMethod) ==> var m := OnMethod(f, ch); m.control.Fail? || Aside(f, m)
    ensures f.state == MethodWord(ReqSpacesBeforeUrl) ==> var m := OnSpacesBeforeUrl(f, ch); m.control.Fail? || Aside(f, m)
    ensures f.state.Target? ==> var m := OnTarget(f, f.state.url, ch); m.control.Fail? || Aside(f, m)
    ensures f.state.Version? ==> var m := OnVersion(f, f.state.version, ch); m.control.Fail? || Aside(f, m)
  {
    hide MethodName, BetterGuess, ParseUrlChar;
  }

  lemma BodiesAside(f: Fields, ch: byte, answer: Answer)
    ensures f.state == HeadEnd(HeadersAlmostDone) ==> var m := OnHeadersAlmostDone(f, ch, answer); m.control.Fail? || Aside(f, m)
    ensures f.state == HeadEnd(HeadersDone) ==> var m := OnHeadersDone(f, ch); m.control.Fail? || Aside(f, m)
    ensures f.state.Chunk? ==> var m := OnChunk(f, f.state.chunk, ch); m.control.Fail? || Aside(f, m)
    ensures f.state.Payload? ==> var m := OnPayload(f, f.state.payload); m.control.Fail? || Aside(f, m)
  {
    hide NeedsEof, Unhex;
  }

  lemma NamesAside(f: Fields, ch: byte)
    ensures f.state == HeaderName(HeaderFieldStart) ==> var m := OnHeaderFieldStart(f, ch); m.control.Fail? || Aside(f, m)
    ensures f.state == HeaderName(HeaderField) ==> var m := OnHeaderField(f, ch); m.control.Fail? || Aside(f, m)
  {
    hide FieldByte, IsToken, Token, FirstHeaderState;
    FieldByteStays(f, ch);
    FieldFlags(f, ch);
  }

  lemma FieldFlags(f: Fields, ch: byte)
    ensures F_CONTENTLENGTH in FieldByte(f, ch).flags <==> F_CONTENTLENGTH in f.flags
  {
    hide Matched, Token;
  }

  lemma ValueLengthFlag(f: Fields, ch: byte)
    ensures ValueByte(f, ch).ValueOk? ==> (F_CONTENTLENGTH in ValueByte(f, ch).f.flags <==> F_CONTENTLENGTH in f.flags)
  {
    hide Lower, Token, Matched;
  }

  lemma EndFlag(flags: set<Flag>, h: HeaderState)
    ensures F_CONTENTLENGTH in EndOfHeader(flags, h) <==> F_CONTENTLENGTH in flags
  {}

  /** A value begins right after its name, or again after a fold. */
  lemma StartCounts(f: Fields, log: seq<Event>, ch: byte)
    requires Counted(f, log) && Reading(f, log) && Folds(f, ch)
    requires f.state == HeaderName(HeaderValueDiscardWs) || f.state == HeaderBody(HeaderValueStart)
    ensures CountsOn(f, log, OnValueStart(f, ch), ch)
  {
    hide After, Class, Lowered, Scans, LastElement, FirstValueState, Lower, Lengths, Push, HeaderNames.Counts;
    var m := OnValueStart(f, ch);
    if !m.control.Fail? {
      AfterMark(f, log, m, ch, Value);
      ValueCounts(log, [ch]);
      if f.state.HeaderName? { ClassMeaning(Lowered(log[|log| - 1].bytes)); }
    }
  }

  lemma NameCounts(f: Fields, log: seq<Event>, ch: byte)
    requires Counted(f, log) && Reading(f, log) && f.state.HeaderName?
    ensures CountsOn(f, log, OnHeaderName(f, f.state.name, ch), ch)
  {
    hide After, Class, Lowered, OnValueStart, Lengths, Push, OnHeaderFieldStart, OnHeaderField, Aside, EndOfHeader,
      HeaderNames.Counts;
    var m := OnHeaderName(f, f.state.name, ch);
    NamesAside(f, ch);
    match f.state.name
    case HeaderFieldStart => if !m.control.Fail? { AsideCounts(f, log, m, ch); }
    case HeaderField => if !m.control.Fail? { AsideCounts(f, log, m, ch); }
    case HeaderValueDiscardWs =>
      if ch != ' ' && ch != '\t' && ch != CR && ch != LF { StartCounts(f, log, ch); } else { AfterNothing(f, log, m, ch); }
    case HeaderValueDiscardWsAlmostDone => AfterNothing(f, log, m, ch);
    case HeaderValueDiscardLws =>
      EndFlag(f.flags, f.headerState);
      if m.effects == [] {
        AfterNothing(f, log, m, ch);
      } else {
        AfterTwo(f, log, m, ch, Value);
        ValueCounts(log, []);
        ClassMeaning(Lowered(log[|log| - 1].bytes));
      }
  }

  lemma BodyCounts(f: Fields, log: seq<Event>, ch: byte)
    requires Counted(f, log) && Reading(f, log) && Folds(f, ch) && f.state.HeaderBody?
    ensures CountsOn(f, log, OnHeaderBody(f, f.state.value, ch), ch)
  {
    hide After, Scans, LastElement, OnValueStart, Lengths, Push, EndOfHeader, Lowered, ValueByte, IsHeaderChar;
    var m := OnHeaderBody(f, f.state.value, ch);
    match f.state.value
    case HeaderValueStart => StartCounts(f, log, ch);
    case HeaderValue =>
      if ch == CR || ch == LF {
        AfterFlush(f, log, m, ch, Value);
      } else if !m.control.Fail? {
        AfterNothing(f, log, m, ch);
        ValueCounts(log, [ch]);
        ValueByteStays(f, ch);
        ValueLengthFlag(f, ch);
      }
    case HeaderAlmostDone => AfterNothing(f, log, m, ch);
    case HeaderValueLws =>
      AfterNothing(f, log, m, ch);
      EndFlag(f.flags, f.headerState);
  }

  lemma TransitionCounts(f: Fields, log: seq<Event>, ch: byte, answer: Answer)
    requires Counted(f, log) && Reading(f, log) && Folds(f, ch)
    ensures CountsOn(f, log, Transition(f, ch, answer), ch)
  {
    hide Counted, CountsOn, Aside, Reading, Folds, OnBetween, OnStatusLine, OnMethod, OnSpacesBeforeUrl, OnTarget, OnVersion,
      OnHeaderName, OnHeaderBody, OnHeadersAlmostDone, OnHeadersDone, OnChunk, OnPayload;
    var m := Transition(f, ch, answer);
    LinesAside(f, ch);
    BodiesAside(f, ch, answer);
    match f.state
    case Between(_) => BetweenCounts(f, log, ch);
    case HeaderName(_) => NameCounts(f, log, ch);
    case HeaderBody(_) => BodyCounts(f, log, ch);
    case _ => if m.control.Fail? { FailCounts(f, log, m, ch); } else { AsideCounts(f, log, m, ch); }
  }

  lemma FailCounts(f: Fields, log: seq<Event>, m: Move, ch: byte)
    requires m.control.Fail?
    ensures CountsOn(f, log, m, ch)
  {}

  predicate StepCounted(r: StepResult) {
    match r
    case Stepped(m) => Counted(m.f, m.log)
    case Exited(m) => Counted(m.f, m.log)
    case Broken(_, _) => true
  }

  lemma {:induction false} DispatchCounts(cfg: Config, f: Fields, s: Slot, ch: byte)
    requires Counted(f, s.log) && Kept(f, s.log) && Consistent(f) && s.mark == ResumeMark(f.state) && Resumable(s.log, s.mark)
    requires Folds(f, ch)
    ensures StepCounted(Dispatch(cfg, f, s, ch))
    decreases Rank(f.state)
  {
    hide Transition, Consistent, Orderly, ResumeMark, Rank, Passing, Counted, EndOfBuffer, ApplyAll, Resumable, Folds, Reading,
      Announced;
    var answer := cfg.answers(f.answered);
    var m := Transition(f, ch, answer);
    TransitionCounts(f, s.log, ch, answer);
    TransitionKept(f, s.log, ch, answer);
    TransitionKeeps(f, ch, answer);
    TransitionOrderly(f, ch, answer);
    RankFalls(f, ch, answer);
    if !m.control.Fail? {
      ApplyOrderly(f.state, s, m, ch);
      if m.control == Reexecute { DispatchCounts(cfg, m.f, ApplyAll(s, m.effects, ch), ch); }
    }
  }

  lemma ByteStepCounts(cfg: Config, m: Machine, ch: byte)
    requires Counted(m.f, m.log) && Kept(m.f, m.log) && Inv(cfg, m)
    ensures StepCounted(ByteStep(cfg, m, ch))
  {
    hide Dispatch, ParsingHeader, Consistent, ResumeMark, Resumable, Announced, Lengths, Kept;
    var g := if ParsingHeader(m.f.state) then m.f.(nread := m.f.nread + 1) else m.f;
    CountKeeps(m.f, m.f.nread + 1);
    CountKept(m.f, m.log, m.f.nread + 1);
    DispatchCounts(cfg, g, Slot(m.log, ResumeMark(m.f.state)), ch);
  }

  predicate EndCounted(r: RunResult) {
    match r
    case Ran(m) => Counted(m.f, m.log)
    case Stopped(m, _) => Counted(m.f, m.log)
    case Failed(_, _, _) => true
  }

  lemma {:induction false} RunCounts(cfg: Config, m: Machine, stream: seq<byte>)
    requires Counted(m.f, m.log) && Kept(m.f, m.log) && Inv(cfg, m)
    ensures EndCounted(Run(cfg, m, stream))
    decreases |stream|
  {
    hide ByteStep, Inv, Kept, Counted;
    if stream != [] {
      ByteStepCounts(cfg, m, stream[0]);
      ByteStepKept(cfg, m, stream[0]);
      ByteStepInv(cfg, m, stream[0]);
      match ByteStep(cfg, m, stream[0])
      case Stepped(n) => RunCounts(cfg, n, stream[1..]);
      case Exited(_) =>
      case Broken(_, _) =>
    }
  }

  /** In every state a new parser can reach, the callbacks since the last message began name at most one
      Content-Length, and one if and only if F_CONTENTLENGTH is set. */
  lemma LengthsNamed(cfg: Config, kind: Kind, stream: seq<byte>)
    ensures match Run(cfg, Machine(Initial(kind), []), stream)
            case Ran(m) => Lengths(m.log) == if F_CONTENTLENGTH in m.f.flags then 1 else 0
            case Stopped(m, _) => Lengths(m.log) == if F_CONTENTLENGTH in m.f.flags then 1 else 0
            case Failed(_, _, _) => true
  {
    hide Run, Kept;
    NewKept(kind);
    RunCounts(cfg, Machine(Initial(kind), []), stream);
  }
}
