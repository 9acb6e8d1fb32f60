/** Header values as texts: white space before them, folded lines, line ends, and how the byte machine reads them. */
module Values {
  import opened Bytes
  import opened Alphabets
  import opened Trace
  import opened ParserState
  import opened Transitions
  import opened ByteMachine
  import opened Skips
  import opened Lists

  // ---- texts

  predicate LegalCell(c: Cell) { if c.Plain? then FieldChar(c.ch) else c.ch == ' ' || c.ch == '\t' }

  function LineEnd(crlf: bool): seq<byte> { if crlf then [CR] + [LF] else [LF] }

  function CellText(c: Cell): seq<byte> { if c.Plain? then [c.ch] else LineEnd(c.crlf) + [c.ch] }

  function CellsText(v: seq<Cell>): seq<byte> { if v == [] then [] else CellText(v[0]) + CellsText(v[1..]) }

  /** The value as it is reported: without the line ends. */
  function Reported(v: seq<Cell>): seq<byte> { seq(|v|, i requires 0 <= i < |v| => v[i].ch) }

  /** A value begins with a byte that is no white space; it may be empty. */
  predicate LegalValue(v: seq<Cell>) {
    (v != [] ==> !Blank(v[0])) && forall i :: 0 <= i < |v| ==> LegalCell(v[i])
  }

  /** White space before a value: spaces, tabs and folds. */
  predicate LegalLead(lead: seq<Cell>) { forall i :: 0 <= i < |lead| ==> LegalCell(lead[i]) && Blank(lead[i]) }

  /** A text that cannot be taken for a folded line. */
  predicate NoFold(s: seq<byte>) { s != [] && s[0] != ' ' && s[0] != '\t' }

  // ---- inside a value

  /** A fold ends the digits of a Content-Length. */
  function FoldState(h: HeaderState): HeaderState {
    if h == Length(ContentLengthNum) then Length(ContentLengthWs) else h
  }

  /** The fields after a cell of a value. */
  function CellFields(f: Fields, c: Cell): Fields {
    if c.Folded? then f.(index := 0, headerState := FirstValueState(FoldState(f.headerState), Lower(c.ch)))
    else match ValueByte(f, c.ch)
      case ValueOk(g) => g
      case ValueErr(_) => f
  }

  /** The value may go on with this cell. */
  predicate Takes(f: Fields, c: Cell) {
    LegalCell(c) && if c.Plain? then ValueByte(f, c.ch).ValueOk? else !f.headerState.Named?
  }

  lemma CellFieldsCount(f: Fields, c: Cell, n: nat)
    ensures CellFields(f.(nread := n), c) == CellFields(f, c).(nread := n)
    ensures Takes(f.(nread := n), c) <==> Takes(f, c)
  {
    hide ValueByte, FirstValueState;
    ValueByteCount(f, c.ch, n);
  }

  lemma CellFieldsState(f: Fields, c: Cell)
    ensures CellFields(f, c).state == f.state && CellFields(f, c).nread == f.nread
  {
    hide FirstValueState;
    ValueByteStays(f, c.ch);
  }

  /** A bare LF, or CR LF, after a value. */
  lemma LineEnds(cfg: Config, f: Fields, log: seq<Event>, crlf: bool)
    requires f.state == HeaderBody(HeaderValue) && f.nread + |LineEnd(crlf)| <= cfg.maxHeader
    ensures Run(cfg, Machine(f, log), LineEnd(crlf)) ==
            Ran(Machine(f.(state := HeaderBody(HeaderValueLws), nread := f.nread + |LineEnd(crlf)|), log))
  {
    hide Run;
    if crlf {
      var g := f.(state := HeaderBody(HeaderAlmostDone), nread := f.nread + 1);
      FlushByte(cfg, Machine(f, log), CR, g, Value);
      QuietByte(cfg, Machine(g, log), LF, g.(state := HeaderBody(HeaderValueLws), nread := g.nread + 1));
      RunAppend(cfg, Machine(f, log), [CR], [LF]);
    } else {
      LfEnds(cfg, f, log);
    }
  }

  lemma LfEnds(cfg: Config, f: Fields, log: seq<Event>)
    requires f.state == HeaderBody(HeaderValue) && f.nread + 1 <= cfg.maxHeader
    ensures Run(cfg, Machine(f, log), [LF]) == Ran(Machine(f.(state := HeaderBody(HeaderValueLws), nread := f.nread + 1), log))
  {
    hide Run, Dispatch, Push;
    var g := f.(nread := f.nread + 1);
    var s, h, done := Slot(log, Marked(Value)), g.(state := HeaderBody(HeaderAlmostDone)), g.(state := HeaderBody(HeaderValueLws));
    CountedStep(cfg, Machine(f, log), [LF]);
    Again(cfg, g, s, LF, Move(h, [Flush(Value)], Reexecute));
    assert ApplyAll(s, [Flush(Value)], LF) == Apply(s, Flush(Value), LF) == Slot(log, NoMark);
    AdvanceOnce(cfg, h, Slot(log, NoMark), LF, Stay(done));
    assert ApplyAll(Slot(log, NoMark), [], LF) == Slot(log, NoMark);
    assert [LF][1..] == [];
    RunNothing(cfg, Machine(done, log));
  }

  /** The two passes of the switch over it. */
  lemma FoldMoves(g: Fields, ch: byte, answer: Answer)
    requires g.state == HeaderBody(HeaderValueLws) && (ch == ' ' || ch == '\t') && !g.headerState.Named?
    ensures var h := g.(state := HeaderBody(HeaderValueStart), headerState := FoldState(g.headerState));
            && Transition(g, ch, answer) == Move(h, [], Reexecute)
            && Transition(h, ch, answer) ==
               Move(g.(state := HeaderBody(HeaderValue), index := 0,
                       headerState := FirstValueState(FoldState(g.headerState), Lower(ch))), [Mark(Value)], Advance)
  {
    hide FirstValueState, Lower;
  }

  /** The white space that folds a value. */
  lemma FoldStep(cfg: Config, f: Fields, log: seq<Event>, rest: seq<byte>)
    requires f.state == HeaderBody(HeaderValueLws) && rest != [] && (rest[0] == ' ' || rest[0] == '\t')
    requires !f.headerState.Named? && f.nread + 1 <= cfg.maxHeader
    ensures Run(cfg, Machine(f, log), rest) ==
            Run(cfg, Machine(f.(state := HeaderBody(HeaderValue), index := 0, nread := f.nread + 1,
                                headerState := FirstValueState(FoldState(f.headerState), Lower(rest[0]))),
                             Push(log, Data(Value, [rest[0]]))), rest[1..])
  {
    hide Run, Dispatch, Push, FirstValueState, Lower, Transition, FoldState;
    var ch, g := rest[0], f.(nread := f.nread + 1);
    var s, h := Slot(log, NoMark), g.(state := HeaderBody(HeaderValueStart), headerState := FoldState(f.headerState));
    var done := g.(state := HeaderBody(HeaderValue), index := 0,
                   headerState := FirstValueState(FoldState(f.headerState), Lower(ch)));
    FoldMoves(g, ch, cfg.answers(g.answered));
    CountedStep(cfg, Machine(f, log), rest);
    Again(cfg, g, s, ch, Move(h, [], Reexecute));
    assert ApplyAll(s, [], ch) == s;
    AdvanceOnce(cfg, h, s, ch, Move(done, [Mark(Value)], Advance));
    assert ApplyAll(s, [Mark(Value)], ch) == Apply(s, Mark(Value), ch);
    PushTwice(log, Value, [], [ch]);
    assert [] + [ch] == [ch];
  }

  lemma CellRun(cfg: Config, f: Fields, log: seq<Event>, c: Cell, rest: seq<byte>)
    requires f.state == HeaderBody(HeaderValue) && EndsIn(log, Value) && Takes(f, c)
    requires f.nread + |CellText(c)| <= cfg.maxHeader
    ensures Run(cfg, Machine(f, log), CellText(c) + rest) ==
            Run(cfg, Machine(CellFields(f, c).(nread := f.nread + |CellText(c)|), Push(log, Data(Value, [c.ch]))), rest)
  {
    hide Run, Push, ValueByte, FirstValueState, IsHeaderChar;
    var t := CellText(c) + rest;
    if c.Plain? {
      FieldCharsAre(c.ch);
      ValueStep(cfg, f, log, t);
      assert t[1..] == rest;
    } else {
      var end, m := LineEnd(c.crlf), Machine(f, log);
      var g := f.(state := HeaderBody(HeaderValueLws), nread := f.nread + |end|);
      LineEnds(cfg, f, log, c.crlf);
      assert t == end + ([c.ch] + rest);
      RunAppend(cfg, m, end, [c.ch] + rest);
      assert ([c.ch] + rest)[1..] == rest;
      FoldStep(cfg, g, log, [c.ch] + rest);
    }
  }

  /** All cells are taken, one after the other. */
  predicate TakesAll(f: Fields, v: seq<Cell>)
    decreases |v|
  {
    v == [] || (Takes(f, v[0]) && TakesAll(CellFields(f, v[0]), v[1..]))
  }

  function AllFields(f: Fields, v: seq<Cell>): Fields
    decreases |v|
  {
    if v == [] then f else AllFields(CellFields(f, v[0]), v[1..])
  }

  lemma {:induction false} AllFieldsCount(f: Fields, v: seq<Cell>, n: nat)
    ensures AllFields(f.(nread := n), v) == AllFields(f, v).(nread := n)
    ensures TakesAll(f.(nread := n), v) <==> TakesAll(f, v)
    decreases |v|
  {
    hide CellFields, Takes;
    if v != [] {
      CellFieldsCount(f, v[0], n);
      AllFieldsCount(CellFields(f, v[0]), v[1..], n);
    }
  }

  /** Values of one cell more. */
  lemma {:induction false} CellsRun(cfg: Config, f: Fields, log: seq<Event>, v: seq<Cell>, rest: seq<byte>)
    requires f.state == HeaderBody(HeaderValue) && EndsIn(log, Value) && TakesAll(f, v)
    requires f.nread + |CellsText(v)| <= cfg.maxHeader
    ensures Run(cfg, Machine(f, log), CellsText(v) + rest) ==
            Run(cfg, Machine(AllFields(f, v).(nread := f.nread + |CellsText(v)|), Push(log, Data(Value, Reported(v)))), rest)
    ensures AllFields(f, v).state == f.state
    decreases |v|
  {
    hide Run, Push, CellFields, Takes, CellText;
    if v == [] {
      assert CellsText(v) + rest == rest && Reported(v) == [];
      PushNothing(log, Value);
      assert f.(nread := f.nread) == f;
    } else {
      var n := |CellText(v[0])|;
      var g := CellFields(f, v[0]);
      var more := CellsText(v[1..]) + rest;
      assert CellsText(v) + rest == CellText(v[0]) + more;
      CellRun(cfg, f, log, v[0], more);
      CellFieldsState(f, v[0]);
      AllFieldsCount(g, v[1..], f.nread + n);
      CellsRun(cfg, g.(nread := f.nread + n), Push(log, Data(Value, [v[0].ch])), v[1..], rest);
      PushTwice(log, Value, [v[0].ch], Reported(v[1..]));
      assert [v[0].ch] + Reported(v[1..]) == Reported(v);
    }
  }

  // ---- from the colon to the next header

  /** White space before a value is passed over, folds too. */
  lemma GapRun(cfg: Config, f: Fields, log: seq<Event>, c: Cell, rest: seq<byte>)
    requires f.state == HeaderName(HeaderValueDiscardWs) && LegalCell(c) && Blank(c)
    requires f.nread + |CellText(c)| <= cfg.maxHeader
    ensures Run(cfg, Machine(f, log), CellText(c) + rest) == Run(cfg, Machine(f.(nread := f.nread + |CellText(c)|), log), rest)
  {
    hide Run;
    var t := CellText(c) + rest;
    if c.Plain? {
      QuietStep(cfg, Machine(f, log), t, f.(nread := f.nread + 1));
      assert t[1..] == rest;
    } else {
      var n, end := f.nread, LineEnd(c.crlf);
      var g := f.(state := HeaderName(HeaderValueDiscardLws), nread := n + |end|);
      EmptyLine(cfg, f, log, c.crlf, [c.ch] + rest);
      assert t == end + ([c.ch] + rest) && ([c.ch] + rest)[1..] == rest;
      QuietStep(cfg, Machine(g, log), [c.ch] + rest, f.(nread := n + |end| + 1));
    }
  }

  lemma EmptyLine(cfg: Config, f: Fields, log: seq<Event>, crlf: bool, rest: seq<byte>)
    requires f.state == HeaderName(HeaderValueDiscardWs) && f.nread + |LineEnd(crlf)| <= cfg.maxHeader
    ensures Run(cfg, Machine(f, log), LineEnd(crlf) + rest) ==
            Run(cfg, Machine(f.(state := HeaderName(HeaderValueDiscardLws), nread := f.nread + |LineEnd(crlf)|), log), rest)
  {
    hide Run;
    var t, n := LineEnd(crlf) + rest, f.nread;
    if crlf {
      var g := f.(state := HeaderName(HeaderValueDiscardWsAlmostDone), nread := n + 1);
      QuietStep(cfg, Machine(f, log), t, g);
      assert t[1..] == [LF] + rest && t[1..][1..] == rest;
      QuietStep(cfg, Machine(g, log), t[1..], f.(state := HeaderName(HeaderValueDiscardLws), nread := n + 2));
    } else {
      QuietStep(cfg, Machine(f, log), t, f.(state := HeaderName(HeaderValueDiscardLws), nread := n + 1));
      assert t[1..] == rest;
    }
  }

  lemma {:induction false} LeadRun(cfg: Config, f: Fields, log: seq<Event>, lead: seq<Cell>, rest: seq<byte>)
    requires f.state == HeaderName(HeaderValueDiscardWs) && LegalLead(lead) && f.nread + |CellsText(lead)| <= cfg.maxHeader
    ensures Run(cfg, Machine(f, log), CellsText(lead) + rest) ==
            Run(cfg, Machine(f.(nread := f.nread + |CellsText(lead)|), log), rest)
    decreases |lead|
  {
    hide Run, CellText;
    if lead == [] {
      assert CellsText(lead) + rest == rest;
      assert f.(nread := f.nread) == f;
    } else {
      var more := CellsText(lead[1..]) + rest;
      assert CellsText(lead) + rest == CellText(lead[0]) + more;
      GapRun(cfg, f, log, lead[0], more);
      LeadRun(cfg, f.(nread := f.nread + |CellText(lead[0])|), log, lead[1..], rest);
    }
  }

  /** The fields after the first byte of a value that is no Content-Length. */
  function FirstFields(f: Fields, ch: byte): Fields {
    var g := f.(state := HeaderBody(HeaderValue), index := 0);
    if f.headerState == Named(Upgrade) then g.(flags := f.flags + {F_UPGRADE}, headerState := General)
    else g.(headerState := FirstValueState(f.headerState, Lower(ch)))
  }

  lemma FirstRun(cfg: Config, f: Fields, log: seq<Event>, rest: seq<byte>)
    requires f.state == HeaderName(HeaderValueDiscardWs) && f.headerState != Named(ContentLength)
    requires rest != [] && FieldChar(rest[0]) && rest[0] != ' ' && rest[0] != '\t' && f.nread + 1 <= cfg.maxHeader
    ensures Run(cfg, Machine(f, log), rest) ==
            Run(cfg, Machine(FirstFields(f, rest[0]).(nread := f.nread + 1), Push(log, Data(Value, [rest[0]]))), rest[1..])
  {
    hide Run, Push, IsHeaderChar, Lower, FirstValueState;
    MarkStep(cfg, Machine(f, log), rest, FirstFields(f, rest[0]).(nread := f.nread + 1), Value);
  }

  /** The fields after a whole value, once the next header begins. */
  function AfterValue(f: Fields, v: seq<Cell>): Fields {
    var g := if v == [] then f else AllFields(FirstFields(f, v[0].ch), v[1..]);
    g.(flags := EndOfHeader(g.flags, g.headerState), state := HeaderName(HeaderFieldStart))
  }

  predicate TakesValue(f: Fields, v: seq<Cell>) {
    v != [] ==> TakesAll(FirstFields(f, v[0].ch), v[1..])
  }

  /** Between headers the parser may still wait for a folded line; any other byte starts a header. */
  lemma FoldOver(cfg: Config, f: Fields, log: seq<Event>, s: seq<byte>)
    requires f.state == HeaderBody(HeaderValueLws) && NoFold(s)
    ensures Run(cfg, Machine(f, log), s) ==
            Run(cfg, Machine(f.(flags := EndOfHeader(f.flags, f.headerState), state := HeaderName(HeaderFieldStart)), log), s)
  {
    hide EndOfHeader, OnHeaderFieldStart;
    assert ApplyAll(Slot(log, NoMark), [], s[0]) == Slot(log, NoMark);
    var g := f.(flags := EndOfHeader(f.flags, f.headerState), state := HeaderName(HeaderFieldStart));
    var n := f.nread + 1;
    assert f.(nread := n).(flags := EndOfHeader(f.flags, f.headerState), state := HeaderName(HeaderFieldStart)) == g.(nread := n);
  }

  /** An empty value is reported when the next header begins. */
  lemma EmptyOver(cfg: Config, f: Fields, log: seq<Event>, s: seq<byte>)
    requires f.state == HeaderName(HeaderValueDiscardLws) && f.headerState != Named(ContentLength) && NoFold(s)
    requires f.nread + 1 <= cfg.maxHeader
    ensures Run(cfg, Machine(f, log), s) ==
            Run(cfg, Machine(f.(flags := EndOfHeader(f.flags, f.headerState), state := HeaderName(HeaderFieldStart)),
                             Push(log, Data(Value, []))), s)
  {
    hide Run, Dispatch, Push, EndOfHeader;
    var ch, g, slot := s[0], f.(nread := f.nread + 1), Slot(log, NoMark);
    var h := g.(flags := EndOfHeader(f.flags, f.headerState), state := HeaderName(HeaderFieldStart));
    var log1 := Push(log, Data(Value, []));
    CountedStep(cfg, Machine(f, log), s);
    Again(cfg, g, slot, ch, Move(h, [Mark(Value), Flush(Value)], Reexecute));
    assert [Mark(Value), Flush(Value)][1..] == [Flush(Value)];
    assert ApplyAll(slot, [Mark(Value), Flush(Value)], ch) == ApplyAll(Slot(log1, Marked(Value)), [Flush(Value)], ch);
    assert ApplyAll(Slot(log1, Marked(Value)), [Flush(Value)], ch) == Slot(log1, NoMark);
    CountedStep(cfg, Machine(f.(flags := EndOfHeader(f.flags, f.headerState), state := HeaderName(HeaderFieldStart)), log1), s);
  }

  function ValueText(lead: seq<Cell>, v: seq<Cell>, crlf: bool): seq<byte> {
    CellsText(lead) + CellsText(v) + LineEnd(crlf)
  }

  /** Any value, with any white space before it, folded or not, is reported without its line ends. */
  lemma ValueRead(cfg: Config, f: Fields, log: seq<Event>, lead: seq<Cell>, v: seq<Cell>, crlf: bool, rest: seq<byte>)
    requires f.state == HeaderName(HeaderValueDiscardWs) && f.headerState != Named(ContentLength)
    requires LegalLead(lead) && LegalValue(v) && TakesValue(f, v) && NoFold(rest)
    requires f.nread + |ValueText(lead, v, crlf)| + 1 <= cfg.maxHeader
    ensures Run(cfg, Machine(f, log), ValueText(lead, v, crlf) + rest) ==
            Run(cfg, Machine(AfterValue(f, v).(nread := f.nread + |ValueText(lead, v, crlf)|),
                             Push(log, Data(Value, Reported(v)))), rest)
  {
    hide Run, Push, AllFields, TakesAll, FirstFields, EndOfHeader, CellsText, LegalCell, Blank, LineEnd;
    var k := |CellsText(lead)|;
    var f1, more := f.(nread := f.nread + k), CellsText(v) + LineEnd(crlf) + rest;
    assert ValueText(lead, v, crlf) + rest == CellsText(lead) + more;
    LeadRun(cfg, f, log, lead, more);
    if v == [] {
      NoText();
      assert CellsText(v) + LineEnd(crlf) + rest == LineEnd(crlf) + rest;
      EmptyLine(cfg, f1, log, crlf, rest);
      EmptyOver(cfg, f1.(state := HeaderName(HeaderValueDiscardLws), nread := f1.nread + |LineEnd(crlf)|), log, rest);
      assert Reported(v) == [];
    } else {
      AfterValueCount(f, v, f1.nread);
      NonEmptyRead(cfg, f1, log, v, crlf, rest);
    }
  }

  lemma NoText()
    ensures CellsText([]) == []
  {}

  lemma AfterValueCount(f: Fields, v: seq<Cell>, n: nat)
    requires v != []
    ensures FirstFields(f.(nread := n), v[0].ch) == FirstFields(f, v[0].ch).(nread := n)
    ensures AfterValue(f.(nread := n), v) == AfterValue(f, v).(nread := n)
    ensures TakesValue(f.(nread := n), v) <==> TakesValue(f, v)
  {
    hide FirstValueState, AllFields, TakesAll, EndOfHeader;
    AllFieldsCount(FirstFields(f, v[0].ch), v[1..], n);
  }

  lemma FirstCell(v: seq<Cell>)
    requires LegalValue(v) && v != []
    ensures v[0].Plain? && FieldChar(v[0].ch) && v[0].ch != ' ' && v[0].ch != '\t'
    ensures CellsText(v) == [v[0].ch] + CellsText(v[1..])
  {
    hide FieldChar;
  }

  lemma NonEmptyBytes(cfg: Config, f: Fields, log: seq<Event>, v: seq<Cell>, rest: seq<byte>)
    requires f.state == HeaderName(HeaderValueDiscardWs) && f.headerState != Named(ContentLength) && v != []
    requires LegalValue(v) && TakesValue(f, v) && f.nread + |CellsText(v)| <= cfg.maxHeader
    ensures Run(cfg, Machine(f, log), CellsText(v) + rest) ==
            Run(cfg, Machine(AllFields(FirstFields(f, v[0].ch), v[1..]).(nread := f.nread + |CellsText(v)|),
                             Push(log, Data(Value, Reported(v)))), rest)
    ensures AllFields(FirstFields(f, v[0].ch), v[1..]).state == HeaderBody(HeaderValue)
  {
    hide Run, Push, AllFields, TakesAll, FirstFields, LegalValue, FieldChar, CellsText, EndsIn;
    var t, n := CellsText(v[1..]), f.nread + 1;
    var g := FirstFields(f, v[0].ch);
    FirstCell(v);
    var text := CellsText(v) + rest;
    assert text[0] == v[0].ch && text[1..] == t + rest;
    FirstRun(cfg, f, log, text);
    FirstState(f, v[0].ch);
    AllFieldsCount(g, v[1..], n);
    CellsRun(cfg, g.(nread := n), Push(log, Data(Value, [v[0].ch])), v[1..], rest);
    PushTwice(log, Value, [v[0].ch], Reported(v[1..]));
    assert [v[0].ch] + Reported(v[1..]) == Reported(v);
  }

  lemma NonEmptyRead(cfg: Config, f: Fields, log: seq<Event>, v: seq<Cell>, crlf: bool, rest: seq<byte>)
    requires f.state == HeaderName(HeaderValueDiscardWs) && f.headerState != Named(ContentLength) && v != []
    requires LegalValue(v) && TakesValue(f, v) && NoFold(rest) && f.nread + |CellsText(v)| + |LineEnd(crlf)| <= cfg.maxHeader
    ensures Run(cfg, Machine(f, log), CellsText(v) + LineEnd(crlf) + rest) ==
            Run(cfg, Machine(AfterValue(f, v).(nread := f.nread + |CellsText(v)| + |LineEnd(crlf)|),
                             Push(log, Data(Value, Reported(v)))), rest)
  {
    hide Run, Push, AllFields, TakesAll, FirstFields, EndOfHeader, LineEnd, CellsText;
    var n, end := f.nread + |CellsText(v)|, LineEnd(crlf);
    var all, log2 := AllFields(FirstFields(f, v[0].ch), v[1..]), Push(log, Data(Value, Reported(v)));
    assert CellsText(v) + end + rest == CellsText(v) + (end + rest);
    NonEmptyBytes(cfg, f, log, v, end + rest);
    LineEnds(cfg, all.(nread := n), log2, crlf);
    RunAppend(cfg, Machine(all.(nread := n), log2), end, rest);
    FoldOver(cfg, all.(state := HeaderBody(HeaderValueLws), nread := n + |end|), log2, rest);
  }

  lemma FirstState(f: Fields, ch: byte)
    ensures FirstFields(f, ch).state == HeaderBody(HeaderValue) && FirstFields(f, ch).nread == f.nread
  {
    hide FirstValueState;
  }
}
