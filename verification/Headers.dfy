/** Header fields as text, whatever they mean: a list of them is reported whole and leaves exactly the framing it
    spells. */
module Headers {
  import opened Bytes
  import opened Trace
  import opened ParserState
  import opened ByteMachine
  import opened Invariants
  import opened Numbers
  import opened HeaderNames
  import opened Lists
  import opened Values
  import opened ListHeaders

  /** A header as text: its name, the white space after the colon, its value, folded or not, and its line end. */
  datatype Header = Header(name: seq<byte>, lead: seq<Cell>, value: seq<Cell>, crlf: bool)

  function HeaderLine(h: Header): seq<byte> { h.name + [':'] + ValueText(h.lead, h.value, h.crlf) }

  // ---- what a header means

  predicate IsLength(h: Header) { Lowered(h.name) == "content-length" }

  predicate IsOptions(h: Header) { Lowered(h.name) == "connection" || Lowered(h.name) == "proxy-connection" }

  /** The digits a value begins with. */
  function Digits(v: seq<Cell>): (s: seq<byte>)
    ensures AllDigits(s) && |s| <= |v|
    decreases |v|
  {
    if v == [] || v[0].Folded? || !IsNum(v[0].ch) then [] else [v[0].ch] + Digits(v[1..])
  }

  /** Spaces and folds, which may follow the digits; tabs may not. */
  predicate LegalTail(tail: seq<Cell>) {
    forall i :: 0 <= i < |tail| ==> LegalCell(tail[i]) && (tail[i].Folded? || tail[i].ch == ' ')
  }

  /** The value of a Content-Length. */
  predicate LegalLength(v: seq<Cell>) {
    Digits(v) != [] && LegalTail(v[|Digits(v)|..]) && Decimal(0, Digits(v)) <= LENGTH_LIMIT
  }

  predicate LegalHeader(h: Header) {
    && h.name != [] && AllTokens(h.name) && LegalLead(h.lead) && LegalValue(h.value)
    && (IsLength(h) ==> LegalLength(h.value))
  }

  /** The flags of the options of a Connection value. */
  ghost function OptionFlags(v: seq<Cell>): set<Flag> {
    (if HasOption(v, "keep-alive") then {F_CONNECTION_KEEP_ALIVE} else {}) +
    (if HasOption(v, "close") then {F_CONNECTION_CLOSE} else {}) +
    (if HasOption(v, "upgrade") then {F_CONNECTION_UPGRADE} else {})
  }

  /** The flags a header sets by its value. */
  ghost function ValueFlags(h: Header): set<Flag> {
    if IsOptions(h) then OptionFlags(h.value)
    else if Lowered(h.name) == "transfer-encoding" && Chunks(h.value) then {F_CHUNKED}
    else if Lowered(h.name) == "upgrade" && h.value != [] then {F_UPGRADE}
    else if IsLength(h) then {F_CONTENTLENGTH}
    else {}
  }

  /** `flags` and `content_length` as the headers so far leave them. */
  datatype Framing = Framing(flags: set<Flag>, length: nat)

  /** A header more. Any name that begins with "transfer-encoding" counts as one. */
  ghost function With(s: Framing, h: Header): Framing {
    Framing(Flagged(s.flags, Lowered(h.name)) + ValueFlags(h),
            if IsLength(h) then Decimal(0, Digits(h.value)) else s.length)
  }

  ghost function WithAll(s: Framing, hs: seq<Header>): Framing
    decreases |hs|
  {
    if hs == [] then s else WithAll(With(s, hs[0]), hs[1..])
  }

  /** The flags a header sets. */
  ghost function Own(h: Header): set<Flag> { Flagged({}, Lowered(h.name)) + ValueFlags(h) }

  /** A flag is set if and only if it was before or some header sets it. */
  lemma {:induction false} FlagsSpelled(s: Framing, hs: seq<Header>, x: Flag)
    ensures x in WithAll(s, hs).flags <==> x in s.flags || exists h :: h in hs && x in Own(h)
    decreases |hs|
  {
    hide ValueFlags, Lowered, Digits;
    if hs != [] {
      FlagsSpelled(With(s, hs[0]), hs[1..], x);
      assert x in With(s, hs[0]).flags <==> x in s.flags || x in Own(hs[0]);
      assert forall h :: h in hs <==> h == hs[0] || h in hs[1..];
    }
  }

  /** The length is that of the Content-Length, if there is one. */
  lemma {:induction false} LengthSpelled(s: Framing, hs: seq<Header>, before: bool)
    requires LegalHeaders(hs, before)
    ensures (forall h :: h in hs ==> !IsLength(h)) ==> WithAll(s, hs).length == s.length
    ensures forall h :: h in hs && IsLength(h) ==> WithAll(s, hs).length == Decimal(0, Digits(h.value))
    ensures before ==> forall h :: h in hs ==> !IsLength(h)
    decreases |hs|
  {
    hide ValueFlags, Lowered, Digits, LegalHeader, Flagged;
    if hs != [] {
      LengthSpelled(With(s, hs[0]), hs[1..], before || IsLength(hs[0]));
      assert forall h :: h in hs <==> h == hs[0] || h in hs[1..];
    }
  }

  ghost function Under(f: Fields, s: Framing): Fields { f.(flags := s.flags, contentLength := s.length) }

  ghost function FramingOf(f: Fields): Framing { Framing(f.flags, f.contentLength) }

  // ---- values without a meaning, and Upgrade

  /** A class whose value is read without a meaning. */
  predicate Meaningless(h: HeaderState) {
    h == General || (h.Named? && h != Named(Connection) && h != Named(ContentLength) && h != Named(TransferEncoding))
  }

  lemma {:induction false} GeneralCells(f: Fields, v: seq<Cell>)
    requires f.headerState == General && forall i :: 0 <= i < |v| ==> LegalCell(v[i])
    ensures TakesAll(f, v) && AllFields(f, v) == f.(index := AllFields(f, v).index)
    decreases |v|
  {
    hide LegalCell;
    if v != [] {
      assert CellFields(f, v[0]) == f.(index := CellFields(f, v[0]).index);
      GeneralCells(CellFields(f, v[0]), v[1..]);
    }
  }

  lemma PlainFirst(f: Fields, ch: byte)
    requires Meaningless(f.headerState)
    ensures var g := FirstFields(f, ch);
            g == f.(state := HeaderBody(HeaderValue), index := 0, headerState := General,
                    flags := if f.headerState == Named(Upgrade) then f.flags + {F_UPGRADE} else f.flags)
  {
    hide Lower;
  }

  lemma PlainAfter(f: Fields, v: seq<Cell>)
    requires Meaningless(f.headerState) && LegalValue(v)
    ensures TakesValue(f, v)
    ensures var g := AfterValue(f, v);
            g == f.(state := HeaderName(HeaderFieldStart), headerState := g.headerState, index := g.index,
                    flags := if f.headerState == Named(Upgrade) && v != [] then f.flags + {F_UPGRADE} else f.flags)
  {
    hide LegalCell, FirstFields;
    if v != [] {
      PlainFirst(f, v[0].ch);
      GeneralCells(FirstFields(f, v[0].ch), v[1..]);
    }
  }

  // ---- Content-Length

  lemma {:induction false} TailCells(f: Fields, tail: seq<Cell>)
    requires f.headerState.Length? && LegalTail(tail)
    ensures TakesAll(f, tail)
    ensures var g := AllFields(f, tail);
            g == f.(headerState := g.headerState, index := g.index) && g.headerState.Length?
    decreases |tail|
  {
    if tail != [] {
      var g := CellFields(f, tail[0]);
      assert g == f.(headerState := g.headerState, index := g.index) && g.headerState.Length?;
      TailCells(g, tail[1..]);
    }
  }

  lemma DigitCell(v: seq<Cell>)
    requires Digits(v) != []
    ensures v != [] && Digits(v) == [v[0].ch] + Digits(v[1..])
    ensures CellsText(v) == [v[0].ch] + CellsText(v[1..]) && Reported(v) == [v[0].ch] + Reported(v[1..])
  {}

  /** A value is its digits and its tail. */
  lemma {:induction false} DigitsFirst(v: seq<Cell>)
    ensures var s := Digits(v);
            CellsText(v) == s + CellsText(v[|s|..]) && Reported(v) == s + Reported(v[|s|..])
    decreases |v|
  {
    hide Digits, CellsText, Reported;
    var s := Digits(v);
    if s == [] {
      assert v[0..] == v;
    } else {
      DigitCell(v);
      DigitsFirst(v[1..]);
      var more := Digits(v[1..]);
      assert v[1..][|more|..] == v[|s|..];
      assert [v[0].ch] + (more + CellsText(v[|s|..])) == s + CellsText(v[|s|..]);
    }
  }

  /** The digits, what follows them, and the end of the line. */
  lemma LengthRead(cfg: Config, f: Fields, log: seq<Event>, v: seq<Cell>, crlf: bool, rest: seq<byte>) returns (g: Fields)
    requires f.state == HeaderName(HeaderValueDiscardWs) && f.headerState == Named(ContentLength)
    requires F_CONTENTLENGTH !in f.flags && LegalLength(v) && NoFold(rest)
    requires f.nread + |CellsText(v)| + |LineEnd(crlf)| <= cfg.maxHeader
    ensures Run(cfg, Machine(f, log), CellsText(v) + LineEnd(crlf) + rest) ==
            Run(cfg, Machine(g, Push(log, Data(Value, Reported(v)))), rest)
    ensures g == f.(state := HeaderName(HeaderFieldStart), headerState := g.headerState, index := g.index,
                    flags := f.flags + {F_CONTENTLENGTH}, contentLength := Decimal(0, Digits(v)),
                    nread := f.nread + |CellsText(v)| + |LineEnd(crlf)|)
  {
    hide Run, Push, CellsText, LineEnd, AllFields, TakesAll, LegalTail, Digits;
    var s, end := Digits(v), LineEnd(crlf);
    var cells := v[|s|..];
    var m, tail := Machine(f, log), CellsText(cells);
    DigitsFirst(v);
    ContentLengthExact(cfg, f, log, s);
    RunAppend(cfg, m, s, tail + end + rest);
    assert s + (tail + end + rest) == CellsText(v) + end + rest;
    match Run(cfg, m, s)
    case Ran(m1) =>
      TailCells(m1.f, cells);
      assert tail + end + rest == tail + (end + rest);
      CellsRun(cfg, m1.f, m1.log, cells, end + rest);
      PushTwice(log, Value, s, Reported(cells));
      var log2, h := Push(log, Data(Value, Reported(v))), AllFields(m1.f, cells);
      var h1 := h.(nread := m1.f.nread + |tail|);
      LineEnds(cfg, h1, log2, crlf);
      RunAppend(cfg, Machine(h1, log2), end, rest);
      g := h.(state := HeaderName(HeaderFieldStart), nread := h1.nread + |end|);
      FoldOver(cfg, h.(state := HeaderBody(HeaderValueLws), nread := h1.nread + |end|), log2, rest);
  }

  // ---- any header

  /** The fields after the value of a header of class `f.headerState`. */
  ghost predicate Meant(f: Fields, h: Header, g: Fields) {
    g == f.(state := HeaderName(HeaderFieldStart), headerState := g.headerState, index := g.index,
            flags := f.flags + ValueFlags(h),
            contentLength := if IsLength(h) then Decimal(0, Digits(h.value)) else f.contentLength,
            nread := f.nread + |ValueText(h.lead, h.value, h.crlf)|)
  }

  predicate BeforeValue(cfg: Config, f: Fields, h: Header, rest: seq<byte>) {
    && f.state == HeaderName(HeaderValueDiscardWs) && f.headerState == Class(Lowered(h.name))
    && LegalHeader(h) && NoFold(rest) && f.nread + |ValueText(h.lead, h.value, h.crlf)| + 1 <= cfg.maxHeader
  }

  lemma PlainValueRead(cfg: Config, f: Fields, log: seq<Event>, h: Header, rest: seq<byte>) returns (g: Fields)
    requires BeforeValue(cfg, f, h, rest) && Meaningless(f.headerState)
    ensures Run(cfg, Machine(f, log), ValueText(h.lead, h.value, h.crlf) + rest) ==
            Run(cfg, Machine(g, Push(log, Data(Value, Reported(h.value)))), rest)
    ensures Meant(f, h, g)
  {
    hide Run, Push, Class, Lowered, LegalLead, LegalValue, LegalLength, AfterValue, TakesValue, ValueText, Digits,
      OptionFlags, Chunks, AllTokens;
    ClassMeaning(Lowered(h.name));
    PlainAfter(f, h.value);
    ValueRead(cfg, f, log, h.lead, h.value, h.crlf, rest);
    g := AfterValue(f, h.value).(nread := f.nread + |ValueText(h.lead, h.value, h.crlf)|);
  }

  lemma CodingsRead(cfg: Config, f: Fields, log: seq<Event>, h: Header, rest: seq<byte>) returns (g: Fields)
    requires BeforeValue(cfg, f, h, rest) && f.headerState == Named(TransferEncoding)
    ensures Run(cfg, Machine(f, log), ValueText(h.lead, h.value, h.crlf) + rest) ==
            Run(cfg, Machine(g, Push(log, Data(Value, Reported(h.value)))), rest)
    ensures Meant(f, h, g)
  {
    hide Run, Push, Class, Lowered, LegalLead, LegalValue, LegalLength, ValueText, Digits, OptionFlags,
      LastIsChunked, LastIsHeard, AllTokens;
    ClassMeaning(Lowered(h.name));
    g := ChunkedExact(cfg, f, log, h.lead, h.value, h.crlf, rest);
  }

  lemma OptionsRead(cfg: Config, f: Fields, log: seq<Event>, h: Header, rest: seq<byte>) returns (g: Fields)
    requires BeforeValue(cfg, f, h, rest) && f.headerState == Named(Connection)
    ensures Run(cfg, Machine(f, log), ValueText(h.lead, h.value, h.crlf) + rest) ==
            Run(cfg, Machine(g, Push(log, Data(Value, Reported(h.value)))), rest)
    ensures Meant(f, h, g)
  {
    hide Run, Push, Class, Lowered, LegalLead, LegalValue, LegalLength, ValueText, Digits, HasOption, Chunks, AllTokens;
    ClassMeaning(Lowered(h.name));
    g := ConnectionExact(cfg, f, log, h.lead, h.value, h.crlf, rest);
  }

  lemma LengthValueRead(cfg: Config, f: Fields, log: seq<Event>, h: Header, rest: seq<byte>) returns (g: Fields)
    requires BeforeValue(cfg, f, h, rest) && f.headerState == Named(ContentLength) && F_CONTENTLENGTH !in f.flags
    ensures Run(cfg, Machine(f, log), ValueText(h.lead, h.value, h.crlf) + rest) ==
            Run(cfg, Machine(g, Push(log, Data(Value, Reported(h.value)))), rest)
    ensures Meant(f, h, g)
  {
    hide Run, Push, Class, Lowered, LegalLead, LegalValue, LegalLength, CellsText, LineEnd, Digits, OptionFlags, Chunks,
      AllTokens;
    ClassMeaning(Lowered(h.name));
    var k, more := |CellsText(h.lead)|, CellsText(h.value) + LineEnd(h.crlf) + rest;
    assert ValueText(h.lead, h.value, h.crlf) + rest == CellsText(h.lead) + more;
    LeadRun(cfg, f, log, h.lead, more);
    g := LengthRead(cfg, f.(nread := f.nread + k), log, h.value, h.crlf, rest);
  }

  /** A header is reported as its name and its value without line ends, and its meaning is kept. */
  lemma HeaderRead(cfg: Config, f: Fields, log: seq<Event>, h: Header, rest: seq<byte>) returns (g: Fields)
    requires f.state == HeaderName(HeaderFieldStart) && LegalHeader(h) && NoFold(rest)
    requires IsLength(h) ==> F_CONTENTLENGTH !in f.flags
    requires f.nread + |HeaderLine(h)| + 1 <= cfg.maxHeader
    ensures Run(cfg, Machine(f, log), HeaderLine(h) + rest) ==
            Run(cfg, Machine(g, Push(Push(log, Data(Field, h.name)), Data(Value, Reported(h.value)))), rest)
    ensures g == Under(f, With(FramingOf(f), h)).(headerState := g.headerState, index := g.index,
                                                  nread := f.nread + |HeaderLine(h)|)
  {
    hide Run, Push, Class, Lowered, LegalLead, LegalValue, LegalLength, ValueText, Digits, ValueFlags;
    var m, text := Machine(f, log), ValueText(h.lead, h.value, h.crlf);
    NameAndColon(cfg, f, log, h.name);
    ClassMeaning(Lowered(h.name));
    match Run(cfg, m, h.name + [':'])
    case Ran(m1) =>
      assert Flagged(f.flags, Lowered(h.name)) <= f.flags + {F_TRANSFER_ENCODING};
      RunAppend(cfg, m, h.name + [':'], text + rest);
      assert h.name + [':'] + (text + rest) == HeaderLine(h) + rest;
      if m1.f.headerState == Named(TransferEncoding) { g := CodingsRead(cfg, m1.f, m1.log, h, rest); }
      else if m1.f.headerState == Named(Connection) { g := OptionsRead(cfg, m1.f, m1.log, h, rest); }
      else if m1.f.headerState == Named(ContentLength) { g := LengthValueRead(cfg, m1.f, m1.log, h, rest); }
      else { g := PlainValueRead(cfg, m1.f, m1.log, h, rest); }
  }

  // ---- lists of headers

  function HeadersText(hs: seq<Header>): seq<byte> {
    if hs == [] then [] else HeaderLine(hs[0]) + HeadersText(hs[1..])
  }

  function HeadersTold(log: seq<Event>, hs: seq<Header>): seq<Event>
    decreases |hs|
  {
    if hs == [] then log
    else HeadersTold(Push(Push(log, Data(Field, hs[0].name)), Data(Value, Reported(hs[0].value))), hs[1..])
  }

  /** Legal headers, with at most one Content-Length, and none if there was one before. */
  predicate LegalHeaders(hs: seq<Header>, before: bool)
    decreases |hs|
  {
    hs == [] ||
    (LegalHeader(hs[0]) && !(before && IsLength(hs[0])) && LegalHeaders(hs[1..], before || IsLength(hs[0])))
  }

  lemma HeaderNoFold(h: Header, text: seq<byte>)
    requires LegalHeader(h)
    ensures NoFold(HeaderLine(h) + text)
  {
    hide LegalLead, LegalValue, LegalLength, ValueText, Lowered;
    assert (HeaderLine(h) + text)[0] == h.name[0];
  }

  lemma MoreNoFold(hs: seq<Header>, before: bool, rest: seq<byte>)
    requires NoFold(rest) && LegalHeaders(hs, before)
    ensures NoFold(HeadersText(hs) + rest)
  {
    hide LegalHeader, HeaderLine, NoFold, IsLength;
    if hs != [] {
      HeaderNoFold(hs[0], HeadersText(hs[1..]) + rest);
      assert HeaderLine(hs[0]) + (HeadersText(hs[1..]) + rest) == HeadersText(hs) + rest;
    } else {
      assert HeadersText(hs) + rest == rest;
    }
  }

  lemma LengthFlag(s: Framing, h: Header)
    ensures F_CONTENTLENGTH in With(s, h).flags <==> F_CONTENTLENGTH in s.flags || IsLength(h)
  {
    hide Chunks, HasOption, Digits, Lowered;
  }

  /** Any list of headers, whatever they mean and in whatever order, is reported one by one, and its framing is the
      one it spells. */
  lemma {:induction false} HeadersRead(cfg: Config, f: Fields, log: seq<Event>, hs: seq<Header>, rest: seq<byte>)
    returns (g: Fields)
    requires f.state == HeaderName(HeaderFieldStart) && NoFold(rest)
    requires LegalHeaders(hs, F_CONTENTLENGTH in f.flags)
    requires f.nread + |HeadersText(hs)| + 1 <= cfg.maxHeader
    ensures Run(cfg, Machine(f, log), HeadersText(hs) + rest) == Run(cfg, Machine(g, HeadersTold(log, hs)), rest)
    ensures g == Under(f, WithAll(FramingOf(f), hs)).(headerState := g.headerState, index := g.index,
                                                      nread := f.nread + |HeadersText(hs)|)
    decreases |hs|
  {
    hide Run, Push, HeaderLine, LegalHeader, With, IsLength, NoFold;
    g := f;
    if hs == [] {
      assert HeadersText(hs) + rest == rest;
      assert f.(nread := f.nread, flags := f.flags, contentLength := f.contentLength) == f;
    } else {
      var before := F_CONTENTLENGTH in f.flags;
      var line, more := HeaderLine(hs[0]), HeadersText(hs[1..]) + rest;
      assert HeadersText(hs) + rest == line + more;
      LengthFlag(FramingOf(f), hs[0]);
      MoreNoFold(hs[1..], before || IsLength(hs[0]), rest);
      g := HeaderRead(cfg, f, log, hs[0], more);
      g := HeadersRead(cfg, g, Push(Push(log, Data(Field, hs[0].name)), Data(Value, Reported(hs[0].value))), hs[1..], rest);
    }
  }
}
