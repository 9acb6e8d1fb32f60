/** Whoever frames a message as chunked has been told so: in every reachable state F_CHUNKED stands for a
    Transfer-Encoding header of the message among the callbacks. */
module Announcements {
  import opened Bytes
  import opened Alphabets
  import opened Trace
  import opened ParserState
  import opened UrlAutomaton
  import opened Transitions
  import opened ByteMachine
  import opened Invariants
  import opened HeaderNames
  import opened Lists
  import opened ListHeaders

  // ---- among the callbacks

  /** Header name and value, as reported: a Transfer-Encoding whose last coding is "chunked", without regard to case and
      to white space around it. */
  predicate IsChunkedHeader(name: Event, value: Event) {
    && name.Data? && name.kind == Field && Lowered(name.bytes) == "transfer-encoding"
    && value.Data? && value.kind == Value && LastIsChunked(Cells(value.bytes))
  }

  /** Such a header since the last message began. */
  predicate Announced(log: seq<Event>) {
    var n := |log| - 1;
    n >= 1 && log[n] != MessageBegin && (IsChunkedHeader(log[n - 1], log[n]) || Announced(log[..n]))
  }

  lemma AnnouncedMore(log: seq<Event>, e: Event)
    requires Announced(log) && e != MessageBegin
    ensures Announced(log + [e])
  {
    assert (log + [e])[..|log|] == log;
  }

  /** A callback that neither begins a message nor extends a value. */
  lemma AnnouncedPush(log: seq<Event>, e: Event)
    requires Announced(log) && e != MessageBegin && (e.Data? && e.kind == Value ==> !EndsIn(log, Value))
    ensures Announced(Push(log, e))
  {
    hide IsChunkedHeader;
    if e.Data? && EndsIn(log, e.kind) {
      var n := |log| - 1;
      assert Push(log, e)[..n] == log[..n];
      NotValue(log[n - 1], log[n]);
    } else {
      AnnouncedMore(log, e);
    }
  }

  lemma NotValue(name: Event, e: Event)
    ensures IsChunkedHeader(name, e) ==> e.Data? && e.kind == Value
  {}

  // ---- inside a value

  /** What stands after the last comma. */
  function LastElement(v: seq<byte>): seq<Cell> { Split(Cells(v))[|Split(Cells(v))| - 1] }

  lemma {:induction false} SplitMore(v: seq<Cell>, c: Cell)
    ensures var es, n := Split(v), |Split(v)| - 1;
            Split(v + [c]) == if c == COMMA then es + [[]] else es[..n] + [es[n] + [c]]
    decreases |v|
  {
    if v == [] {
      assert [c][1..] == [] && v + [c] == [c];
      assert [c] + [] == [c] && [] + [c] == [c];
    } else {
      assert (v + [c])[1..] == v[1..] + [c] && (v + [c])[0] == v[0];
      SplitMore(v[1..], c);
      MoreFirst(Split(v[1..]), v[0], c);
    }
  }

  /** A cell before the elements, and one after them. */
  lemma MoreFirst(ds: seq<seq<Cell>>, b: Cell, c: Cell)
    requires ds != []
    ensures var m := |ds| - 1;
            var more := if c == COMMA then ds + [[]] else ds[..m] + [ds[m] + [c]];
            var es := if b == COMMA then [[]] + ds else [[b] + ds[0]] + ds[1..];
            (if b == COMMA then [[]] + more else [[b] + more[0]] + more[1..]) ==
            (if c == COMMA then es + [[]] else es[..|es| - 1] + [es[|es| - 1] + [c]])
  {
    if |ds| == 1 { assert [b] + (ds[0] + [c]) == ([b] + ds[0]) + [c]; }
  }

  lemma LastMore(v: seq<byte>, ch: byte)
    ensures LastElement(v + [ch]) == if ch == ',' then [] else LastElement(v) + [Plain(ch)]
  {
    CellsAppend(v, [ch]);
    assert Cells([ch]) == [Plain(ch)];
    SplitMore(Cells(v), Plain(ch));
  }

  /** `header_state` and `index` while a list of codings is read, `e` being what is read of the last one. */
  predicate Scans(h: HeaderState, index: nat, e: seq<Cell>) {
    match h
    case Encoding(EncodingTokenStart) => index == 0 && forall i :: 0 <= i < |e| ==> Blank(e[i])
    case Encoding(MatchingChunked) =>
      index < 6 && LoweredCells(TrimLeft(e)) == "chunked"[..index + 1] && !HasFold(TrimLeft(e))
    case Encoding(EncodingChunked) => WordAndSpaces(TrimLeft(e), "chunked") && !HasFold(TrimLeft(e))
    case _ => true
  }

  lemma {:induction false} TrimBlank(e: seq<Cell>, c: Cell)
    requires (forall i :: 0 <= i < |e| ==> Blank(e[i])) && !Blank(c)
    ensures TrimLeft(e + [c]) == [c]
    decreases |e|
  {
    if e == [] {
      assert e + [c] == [c];
    } else {
      assert (e + [c])[1..] == e[1..] + [c];
      TrimBlank(e[1..], c);
    }
  }

  lemma {:induction false} TrimMore(e: seq<Cell>, c: Cell)
    requires TrimLeft(e) != []
    ensures TrimLeft(e + [c]) == TrimLeft(e) + [c]
    decreases |e|
  {
    if Blank(e[0]) {
      assert (e + [c])[1..] == e[1..] + [c];
      TrimMore(e[1..], c);
    }
  }

  lemma LoweredMoreCells(e: seq<Cell>, c: Cell)
    ensures LoweredCells(e + [c]) == LoweredCells(e) + [Lower(c.ch)]
  {}

  lemma StartScans(f: Fields, e: seq<Cell>, ch: byte)
    requires f.headerState == Encoding(EncodingTokenStart) && Scans(f.headerState, f.index, e) && FieldChar(ch)
    ensures var g := EncodingByte(f, EncodingTokenStart, ch); ch != ',' ==> Scans(g.headerState, g.index, e + [Plain(ch)])
    ensures var g := EncodingByte(f, EncodingTokenStart, ch); ch == ',' ==> g.headerState == General
  {
    hide Token, IsToken;
    var c := Plain(ch);
    if ch == ',' { CommaLost(); }
    if Lower(ch) == 'c' {
      TrimBlank(e, c);
      assert LoweredCells([c]) == "c" == "chunked"[..1];
    }
  }

  lemma CommaLost()
    ensures Lower(',') == ',' && !IsToken(',')
  {}

  lemma MatchingScans(f: Fields, e: seq<Cell>, ch: byte)
    requires f.headerState == Encoding(MatchingChunked) && Scans(f.headerState, f.index, e)
    ensures var g := EncodingByte(f, MatchingChunked, ch);
            (ch != ',' ==> Scans(g.headerState, g.index, e + [Plain(ch)])) &&
            (ch == ',' ==> g.headerState == Encoding(EncodingToken))
  {
    var k, word := f.index + 1, "chunked";
    assert Keyword(f.headerState) == word && |word| == 7;
    if Lower(ch) == word[k] {
      TrimMore(e, Plain(ch));
      LoweredMoreCells(TrimLeft(e), Plain(ch));
      assert word[..k + 1] == word[..k] + [word[k]];
      assert |TrimLeft(e)| == k by { assert |LoweredCells(TrimLeft(e))| == k; }
      if k == 6 {
        var t := TrimLeft(e + [Plain(ch)]);
        assert t[..7] == t && word[..7] == word;
      }
    }
  }

  lemma WholeScans(f: Fields, e: seq<Cell>, ch: byte)
    requires f.headerState == Encoding(EncodingChunked) && Scans(f.headerState, f.index, e)
    ensures var g := EncodingByte(f, EncodingChunked, ch);
            (ch != ',' ==> Scans(g.headerState, g.index, e + [Plain(ch)])) &&
            (ch == ',' ==> g.headerState == Encoding(EncodingToken))
  {
    if ch == ' ' {
      var t := TrimLeft(e);
      TrimMore(e, Plain(ch));
      assert (t + [Plain(ch)])[..7] == t[..7];
    }
  }

  /** A byte more of a list of codings. */
  lemma EncodingScans(f: Fields, v: seq<byte>, ch: byte)
    requires f.headerState.Encoding? && Scans(f.headerState, f.index, LastElement(v)) && FieldChar(ch)
    ensures var g := EncodingByte(f, f.headerState.e, ch); Scans(g.headerState, g.index, LastElement(v + [ch]))
  {
    hide LastElement, EncodingByte;
    LastMore(v, ch);
    var e := LastElement(v);
    match f.headerState.e
    case EncodingTokenStart => StartScans(f, e, ch);
    case MatchingChunked => MatchingScans(f, e, ch);
    case EncodingChunked => WholeScans(f, e, ch);
    case EncodingToken => TokenScans(f, ch);
  }

  lemma TokenScans(f: Fields, ch: byte)
    requires f.headerState == Encoding(EncodingToken)
    ensures var g := EncodingByte(f, EncodingToken, ch);
            if ch == ',' then g.headerState == Encoding(EncodingTokenStart) && g.index == 0 else g.headerState == f.headerState
  {}

  /** The first byte of a value. */
  lemma FirstScans(ch: byte)
    requires ch != ' ' && ch != '\t'
    ensures Scans(FirstValueState(Named(TransferEncoding), Lower(ch)), 0, LastElement([ch]))
  {
    var none: seq<byte> := [];
    assert none + [ch] == [ch];
    LastMore(none, ch);
    assert Cells(none) == [];
    assert LastElement(none) == [];
    if Lower(ch) == 'c' {
      NotComma(ch);
      TrimBlank([], Plain(ch));
      assert [] + [Plain(ch)] == [Plain(ch)];
      assert LoweredCells([Plain(ch)]) == "c" == "chunked"[..1];
    }
  }

  lemma NotComma(ch: byte)
    requires Lower(ch) == 'c'
    ensures ch != ',' && ch != ' ' && ch != '\t'
  {}

  /** A fold inside the list. */
  lemma FoldScans(h: HeaderState, index: nat, v: seq<byte>, ch: byte)
    requires Scans(h, index, LastElement(v)) && (ch == ' ' || ch == '\t') && !h.Named?
    ensures Scans(FirstValueState(h, Lower(ch)), 0, LastElement(v + [ch]))
  {
    LastMore(v, ch);
  }

  /** At the end of a value that is heard as chunked. */
  lemma WholeIsChunked(v: seq<byte>, index: nat)
    requires Scans(Encoding(EncodingChunked), index, LastElement(v))
    ensures LastIsChunked(Cells(v))
  {
    SpacedWord(TrimLeft(LastElement(v)), "chunked");
  }

  // ---- at any byte

  /** The last header name or value reported, where the parser is reading or has just read it. */
  predicate Reading(f: Fields, log: seq<Event>) {
    match f.state
    case HeaderName(s) =>
      if s == HeaderFieldStart then !EndsIn(log, Field)
      else
        EndsIn(log, Field) &&
        var low := Lowered(log[|log| - 1].bytes);
        low != [] && f.headerState == Class(low) && (s == HeaderField ==> HeaderNames.Counts(f, low))
    case HeaderBody(_) =>
      EndsIn(log, Value) &&
      (f.headerState.Encoding? ==>
         |log| >= 2 && CodingName(log[|log| - 2]) && Scans(f.headerState, f.index, LastElement(log[|log| - 1].bytes)))
    case Version(_) => !EndsIn(log, Field)
    case StatusLine(s) => s == ResLineAlmostDone ==> !EndsIn(log, Field)
    case _ => true
  }

  predicate CodingName(e: Event) { e.Data? && e.kind == Field && Lowered(e.bytes) == "transfer-encoding" }

  /** F_CHUNKED stands for a header that is complete: not for the value being read. */
  predicate Kept(f: Fields, log: seq<Event>) {
    Reading(f, log) &&
    (F_CHUNKED in f.flags ==> if f.state.HeaderBody? then Announced(log[..|log| - 1]) else Announced(log))
  }

  /** The callbacks after a pass of the switch. */
  function After(f: Fields, log: seq<Event>, m: Move, ch: byte): seq<Event> {
    var t := ApplyAll(Slot(log, ResumeMark(f.state)), m.effects, ch);
    if m.control == Advance then EndOfBuffer(t, ch) else t.log
  }

  predicate KeepsOn(f: Fields, log: seq<Event>, m: Move, ch: byte) { m.control.Fail? || Kept(m.f, After(f, log, m, ch)) }

  // The lists of effects that there are.

  lemma AfterNothing(f: Fields, log: seq<Event>, m: Move, ch: byte)
    requires m.effects == []
    ensures After(f, log, m, ch) ==
            match ResumeMark(f.state)
            case NoMark => log
            case Marked(k) => if m.control == Advance then Push(log, Data(k, [ch])) else log
  {
    hide Push;
  }

  lemma AfterMark(f: Fields, log: seq<Event>, m: Move, ch: byte, k: DataKind)
    requires m.effects == [Mark(k)] && ResumeMark(f.state) == NoMark
    ensures After(f, log, m, ch) == Push(log, Data(k, if m.control == Advance then [ch] else []))
  {
    hide Push;
    assert m.effects[1..] == [];
    var slot := Slot(log, ResumeMark(f.state));
    assert ApplyAll(slot, m.effects, ch) == Apply(slot, m.effects[0], ch);
    PushTwice(log, k, [], [ch]);
    assert [] + [ch] == [ch];
  }

  lemma AfterFlush(f: Fields, log: seq<Event>, m: Move, ch: byte, k: DataKind)
    requires m.effects == [Flush(k)] && (ResumeMark(f.state) == Marked(k) || ResumeMark(f.state) == NoMark)
    ensures After(f, log, m, ch) == log
  {
    assert m.effects[1..] == [];
    var slot := Slot(log, ResumeMark(f.state));
    assert ApplyAll(slot, m.effects, ch) == Apply(slot, m.effects[0], ch);
  }

  lemma AfterNotify(f: Fields, log: seq<Event>, m: Move, ch: byte, e: Event)
    requires m.effects == [Notify(e)] && ResumeMark(f.state) == NoMark
    ensures After(f, log, m, ch) == Push(log, e)
  {
    hide Push;
    assert m.effects[1..] == [];
    var slot := Slot(log, ResumeMark(f.state));
    assert ApplyAll(slot, m.effects, ch) == Apply(slot, m.effects[0], ch);
  }

  lemma AfterTwo(f: Fields, log: seq<Event>, m: Move, ch: byte, k: DataKind)
    requires ResumeMark(f.state) == NoMark
    ensures m.effects == [Mark(k), Flush(k)] ==> After(f, log, m, ch) == Push(log, Data(k, []))
    ensures m.effects == [Mark(k), FlushThrough(k)] ==> After(f, log, m, ch) == Push(log, Data(k, [ch]))
  {
    hide Push;
    PushTwice(log, k, [], [ch]);
    assert [] + [ch] == [ch];
    if m.effects == [Mark(k), Flush(k)] || m.effects == [Mark(k), FlushThrough(k)] {
      var s := Apply(Slot(log, NoMark), m.effects[0], ch);
      assert m.effects[1..] == [m.effects[1]] && m.effects[1..][1..] == [];
      assert ApplyAll(s, m.effects[1..], ch) == Apply(s, m.effects[1], ch);
    }
  }

  // ---- outside headers

  lemma BetweenKept(f: Fields, log: seq<Event>, ch: byte)
    requires Kept(f, log) && f.state.Between?
    ensures KeepsOn(f, log, OnBetween(f, f.state.between, ch), ch)
  {
    hide Announced, FirstGuess;
    var m := OnBetween(f, f.state.between, ch);
    if m.effects == [] { AfterNothing(f, log, m, ch); }
  }

  /** Callbacks of the lines and bodies keep what is announced. */
  lemma OtherData(log: seq<Event>, k: DataKind, bytes: seq<byte>)
    requires k != Value
    ensures Announced(log) ==> Announced(Push(log, Data(k, bytes)))
    ensures !EndsIn(log, Field) && k != Field ==> !EndsIn(Push(log, Data(k, bytes)), Field)
  {
    hide Announced, Push;
    if Announced(log) { AnnouncedPush(log, Data(k, bytes)); }
  }

  lemma Notified(log: seq<Event>, e: Event)
    requires !e.Data? && e != MessageBegin
    ensures Announced(log) ==> Announced(Push(log, e))
    ensures !EndsIn(Push(log, e), Field)
  {
    hide Announced;
    if Announced(log) { AnnouncedPush(log, e); }
  }

  lemma StatusKept(f: Fields, log: seq<Event>, ch: byte)
    requires Kept(f, log) && f.state.StatusLine? && Resumable(log, ResumeMark(f.state))
    ensures KeepsOn(f, log, OnStatusLine(f, f.state.res, ch), ch)
  {
    hide Announced, Push, After;
    var m := OnStatusLine(f, f.state.res, ch);
    OtherData(log, Status, [ch]);
    OtherData(log, Status, []);
    if m.effects == [] { AfterNothing(f, log, m, ch); }
    else if m.effects == [Mark(Status)] { AfterMark(f, log, m, ch, Status); }
    else if m.effects == [Flush(Status)] { AfterFlush(f, log, m, ch, Status); }
  }

  lemma RequestKept(f: Fields, log: seq<Event>, ch: byte)
    requires Kept(f, log) && (f.state.MethodWord? || f.state.Target?) && Resumable(log, ResumeMark(f.state))
    ensures f.state == MethodWord(ReqMethod) ==> KeepsOn(f, log, OnMethod(f, ch), ch)
    ensures f.state == MethodWord(ReqSpacesBeforeUrl) ==> KeepsOn(f, log, OnSpacesBeforeUrl(f, ch), ch)
    ensures f.state.Target? ==> KeepsOn(f, log, OnTarget(f, f.state.url, ch), ch)
  {
    hide Announced, Push, After, MethodName, BetterGuess, ParseUrlChar;
    var m := if f.state.Target? then OnTarget(f, f.state.url, ch)
             else if f.state == MethodWord(ReqMethod) then OnMethod(f, ch)
             else OnSpacesBeforeUrl(f, ch);
    OtherData(log, Url, [ch]);
    if m.effects == [] { AfterNothing(f, log, m, ch); }
    else if m.effects == [Mark(Url)] { AfterMark(f, log, m, ch, Url); }
    else if m.effects == [Flush(Url)] { AfterFlush(f, log, m, ch, Url); }
  }

  lemma VersionKept(f: Fields, log: seq<Event>, ch: byte)
    requires Kept(f, log) && f.state.Version?
    ensures KeepsOn(f, log, OnVersion(f, f.state.version, ch), ch)
  {
    hide Announced, After;
    AfterNothing(f, log, OnVersion(f, f.state.version, ch), ch);
  }

  lemma HeadEndKept(f: Fields, log: seq<Event>, ch: byte, answer: Answer)
    requires Kept(f, log) && f.state.HeadEnd?
    ensures f.state == HeadEnd(HeadersAlmostDone) ==> KeepsOn(f, log, OnHeadersAlmostDone(f, ch, answer), ch)
    ensures f.state == HeadEnd(HeadersDone) ==> KeepsOn(f, log, OnHeadersDone(f, ch), ch)
  {
    hide Announced, Push, After, NeedsEof, NewMessage;
    var m := if f.state == HeadEnd(HeadersAlmostDone) then OnHeadersAlmostDone(f, ch, answer) else OnHeadersDone(f, ch);
    if m.effects == [] {
      AfterNothing(f, log, m, ch);
    } else {
      var e := m.effects[0].event;
      assert m.effects == [Notify(e)];
      AfterNotify(f, log, m, ch, e);
      Notified(log, e);
    }
    StartsAnew(f.(nread := 0));
  }

  lemma StartsAnew(f: Fields)
    ensures NewMessage(f).Between?
  {
    hide NeedsEof;
  }

  lemma ChunkKept(f: Fields, log: seq<Event>, ch: byte)
    requires Kept(f, log) && f.state.Chunk?
    ensures KeepsOn(f, log, OnChunk(f, f.state.chunk, ch), ch)
  {
    hide Announced, Push, After, Unhex;
    var m := OnChunk(f, f.state.chunk, ch);
    OtherData(log, Body, [ch]);
    if m.effects == [] { AfterNothing(f, log, m, ch); }
    else if m.effects == [Mark(Body)] { AfterMark(f, log, m, ch, Body); }
    else if m.effects == [Flush(Body)] { AfterFlush(f, log, m, ch, Body); }
    else {
      var e := m.effects[0].event;
      assert m.effects == [Notify(e)];
      AfterNotify(f, log, m, ch, e);
      Notified(log, e);
    }
  }

  lemma PayloadKept(f: Fields, log: seq<Event>, ch: byte)
    requires Kept(f, log) && f.state.Payload?
    ensures KeepsOn(f, log, OnPayload(f, f.state.payload), ch)
  {
    hide Announced, Push, After, NewMessage;
    var m := OnPayload(f, f.state.payload);
    OtherData(log, Body, [ch]);
    Notified(log, MessageComplete);
    StartsAnew(f);
    if m.effects == [Mark(Body)] { AfterMark(f, log, m, ch, Body); }
    else if m.effects == [Mark(Body), FlushThrough(Body)] { AfterTwo(f, log, m, ch, Body); }
    else { AfterNotify(f, log, m, ch, MessageComplete); }
  }

  // ---- in header names

  /** A new name. */
  lemma NameBegins(f: Fields, log: seq<Event>, ch: byte)
    requires Kept(f, log) && f.state == HeaderName(HeaderFieldStart)
    ensures KeepsOn(f, log, OnHeaderFieldStart(f, ch), ch)
  {
    hide Announced, After, Token, FirstHeaderState, Class, Lowered, HeaderNames.Counts;
    var m := OnHeaderFieldStart(f, ch);
    if m.effects == [] {
      AfterNothing(f, log, m, ch);
    } else {
      AfterMark(f, log, m, ch, Field);
      OtherData(log, Field, [ch]);
      FirstClass(m.f, ch, {});
      LoweredLength([ch]);
    }
  }

  /** Another byte of a name, or its colon. */
  lemma NameGoesOn(f: Fields, log: seq<Event>, ch: byte)
    requires Kept(f, log) && f.state == HeaderName(HeaderField)
    ensures KeepsOn(f, log, OnHeaderField(f, ch), ch)
  {
    hide Announced, After, Token, Class, Lowered, HeaderNames.Counts, FieldByte, IsToken;
    var m := OnHeaderField(f, ch);
    var w := log[|log| - 1].bytes;
    FieldByteStays(f, ch);
    if IsToken(ch) {
      AfterNothing(f, log, m, ch);
      OtherData(log, Field, [ch]);
      LoweredMore(w, ch);
      NameSteps(f, Lowered(w), ch);
      LoweredLength(w + [ch]);
      NameFlags(f, ch);
    } else if ch == ':' {
      AfterFlush(f, log, m, ch, Field);
    }
  }

  lemma NameSteps(f: Fields, low: seq<byte>, ch: byte)
    requires low != [] && IsToken(ch) && f.headerState == Class(low) && HeaderNames.Counts(f, low)
    ensures var g := FieldByte(f, ch); g.headerState == Class(low + [Token(ch)]) && HeaderNames.Counts(g, low + [Token(ch)])
  {
    hide Class, HeaderNames.Counts, Token, NameByte;
    ClassSteps(f, low, Token(ch));
  }

  lemma NameFlags(f: Fields, ch: byte)
    ensures F_CHUNKED in FieldByte(f, ch).flags ==> F_CHUNKED in f.flags
  {
    hide Matched, Token;
  }

  /** A value begins: it is reported after its name. */
  lemma ValueBegins(f: Fields, log: seq<Event>, ch: byte)
    requires Kept(f, log) && f.state == HeaderName(HeaderValueDiscardWs) && ch != ' ' && ch != '\t'
    ensures KeepsOn(f, log, OnValueStart(f, ch), ch)
  {
    hide Announced, After, Class, Lowered, Scans, LastElement, FirstValueState, Lower;
    var m, w := OnValueStart(f, ch), log[|log| - 1].bytes;
    if !m.control.Fail? {
      AfterMark(f, log, m, ch, Value);
      var log1 := log + [Data(Value, [ch])];
      assert Push(log, Data(Value, [ch])) == log1 && log1[..|log|] == log;
      FirstScans(ch);
      FlagClass(Lowered(w));
      ClassMeaning(Lowered(w));
      FirstClasses(f.headerState, Lower(ch));
    }
  }

  /** Only a Transfer-Encoding begins a list of codings, and after a fold only one that had begun. */
  lemma FirstClasses(h: HeaderState, c: byte)
    ensures h.Named? && h != Named(TransferEncoding) ==> !FirstValueState(h, c).Encoding?
    ensures h == General ==> FirstValueState(h, c) == General
  {}

  /** An empty value. */
  lemma ValueEmpty(f: Fields, log: seq<Event>, ch: byte)
    requires Kept(f, log) && f.state == HeaderName(HeaderValueDiscardLws)
    ensures KeepsOn(f, log, OnDiscardLws(f, ch), ch)
  {
    hide Announced, After, Class, Lowered, IsChunkedHeader;
    var m, low := OnDiscardLws(f, ch), Lowered(log[|log| - 1].bytes);
    ClassMeaning(low);
    if m.effects == [] {
      AfterNothing(f, log, m, ch);
    } else {
      AfterTwo(f, log, m, ch, Value);
      if Announced(log) { AnnouncedPush(log, Data(Value, [])); }
    }
  }

  lemma NamesKept(f: Fields, log: seq<Event>, ch: byte)
    requires Kept(f, log) && f.state.HeaderName?
    ensures KeepsOn(f, log, OnHeaderName(f, f.state.name, ch), ch)
  {
    hide Announced, After, Class, Lowered, OnHeaderFieldStart, OnHeaderField, OnDiscardLws, OnValueStart;
    match f.state.name
    case HeaderFieldStart => NameBegins(f, log, ch);
    case HeaderField => NameGoesOn(f, log, ch);
    case HeaderValueDiscardLws => ValueEmpty(f, log, ch);
    case HeaderValueDiscardWs =>
      if ch != ' ' && ch != '\t' && ch != CR && ch != LF { ValueBegins(f, log, ch); }
      else { AfterNothing(f, log, OnHeaderName(f, f.state.name, ch), ch); }
    case HeaderValueDiscardWsAlmostDone => AfterNothing(f, log, OnHeaderName(f, f.state.name, ch), ch);
  }

  // ---- in header values

  /** The value reported last grows by a byte. */
  lemma ValueGrows(log: seq<Event>, bytes: seq<byte>)
    requires EndsIn(log, Value)
    ensures var n, grown := |log| - 1, Push(log, Data(Value, bytes));
            |grown| == |log| && grown[..n] == log[..n] && grown[n] == Data(Value, log[n].bytes + bytes) && EndsIn(grown, Value)
    ensures Announced(log[..|log| - 1]) ==> Announced(log)
  {
    hide IsChunkedHeader;
    var n := |log| - 1;
    if Announced(log[..n]) {
      assert log == log[..n] + [log[n]];
      AnnouncedMore(log[..n], log[n]);
    }
  }

  /** A byte inside a value. */
  lemma ValueGoesOn(f: Fields, log: seq<Event>, ch: byte)
    requires Kept(f, log) && f.state == HeaderBody(HeaderValue)
    ensures KeepsOn(f, log, OnHeaderValue(f, ch), ch)
  {
    hide Announced, After, Scans, LastElement, ValueByte, Push, IsHeaderChar, Lowered;
    var m := OnHeaderValue(f, ch);
    if ch == CR || ch == LF {
      AfterFlush(f, log, m, ch, Value);
    } else if !m.control.Fail? {
      AfterNothing(f, log, m, ch);
      ValueByteStays(f, ch);
      ValueGrows(log, [ch]);
      ValueScans(f, log[|log| - 1].bytes, ch);
      ValueFlagsKept(f, ch);
    }
  }

  lemma ValueScans(f: Fields, v: seq<byte>, ch: byte)
    requires f.headerState.Encoding? ==> Scans(f.headerState, f.index, LastElement(v))
    requires IsHeaderChar(ch) && ch != CR && ch != LF && ValueByte(f, ch).ValueOk?
    ensures var g := ValueByte(f, ch).f;
            g.headerState.Encoding? ==> f.headerState.Encoding? && Scans(g.headerState, g.index, LastElement(v + [ch]))
  {
    hide Scans, LastElement, EncodingByte, IsHeaderChar;
    FieldCharsAre(ch);
    if f.headerState.Encoding? { EncodingScans(f, v, ch); }
    if f.headerState.Connecting? { StillConnecting(f, f.headerState.c, ch); }
  }

  lemma StillConnecting(f: Fields, c: ConnectionClass, ch: byte)
    requires f.headerState == Connecting(c)
    ensures !ConnectionByte(f, c, ch).headerState.Encoding?
  {
    hide Lower, Token;
  }

  lemma ValueFlagsKept(f: Fields, ch: byte)
    ensures ValueByte(f, ch).ValueOk? && F_CHUNKED in ValueByte(f, ch).f.flags ==> F_CHUNKED in f.flags
  {
    hide Lower, Token, Matched;
  }

  /** A fold: the white space goes to the value. */
  lemma ValueFolds(f: Fields, log: seq<Event>, ch: byte)
    requires Kept(f, log) && Consistent(f) && f.state == HeaderBody(HeaderValueStart) && (ch == ' ' || ch == '\t')
    ensures KeepsOn(f, log, OnValueStart(f, ch), ch)
  {
    hide Announced, After, Scans, LastElement, Push, Lowered, Lower, FirstValueState;
    var m := OnValueStart(f, ch);
    if !m.control.Fail? {
      AfterMark(f, log, m, ch, Value);
      ValueGrows(log, [ch]);
      FoldClasses(f.headerState, Lower(ch));
      if f.headerState.Encoding? { FoldScans(f.headerState, f.index, log[|log| - 1].bytes, ch); }
    }
  }

  lemma FoldClasses(h: HeaderState, c: byte)
    ensures FirstValueState(h, c).Encoding? ==> h.Encoding? || h == Named(TransferEncoding)
  {}

  /** The end of a value, or a fold. */
  lemma ValueEnds(f: Fields, log: seq<Event>, ch: byte)
    requires Kept(f, log) && f.state == HeaderBody(HeaderValueLws)
    ensures KeepsOn(f, log, OnValueLws(f, ch), ch)
  {
    hide After, Scans, LastElement, Lowered, LastIsChunked, Announced;
    var m, n := OnValueLws(f, ch), |log| - 1;
    AfterNothing(f, log, m, ch);
    ValueGrows(log, []);
    EndOfHeaderFits(f.flags, f.headerState);
    if f.headerState == Encoding(EncodingChunked) {
      WholeIsChunked(log[n].bytes, f.index);
      PairAnnounced(log);
    }
  }

  lemma PairAnnounced(log: seq<Event>)
    requires |log| >= 2 && IsChunkedHeader(log[|log| - 2], log[|log| - 1])
    ensures Announced(log)
  {
    hide Lowered, LastIsChunked;
  }

  lemma ValuesKept(f: Fields, log: seq<Event>, ch: byte)
    requires Kept(f, log) && Consistent(f) && f.state.HeaderBody?
    requires f.state == HeaderBody(HeaderValueStart) ==> ch == ' ' || ch == '\t'
    ensures KeepsOn(f, log, OnHeaderBody(f, f.state.value, ch), ch)
  {
    hide Announced, After, Scans, LastElement, OnValueStart, OnHeaderValue, OnValueLws, Lowered, Consistent;
    match f.state.value
    case HeaderValueStart => ValueFolds(f, log, ch);
    case HeaderValue => ValueGoesOn(f, log, ch);
    case HeaderAlmostDone => AfterNothing(f, log, OnHeaderBody(f, f.state.value, ch), ch);
    case HeaderValueLws => ValueEnds(f, log, ch);
  }

  // ---- whole runs

  /** Only white space is read again at the start of a folded line. */
  predicate Folds(f: Fields, ch: byte) { f.state == HeaderBody(HeaderValueStart) ==> ch == ' ' || ch == '\t' }

  lemma TransitionKept(f: Fields, log: seq<Event>, ch: byte, answer: Answer)
    requires Kept(f, log) && Consistent(f) && Resumable(log, ResumeMark(f.state)) && Folds(f, ch)
    ensures KeepsOn(f, log, Transition(f, ch, answer), ch)
    ensures Transition(f, ch, answer).control == Reexecute ==> Folds(Transition(f, ch, answer).f, ch)
  {
    hide Kept, KeepsOn, Consistent, ResumeMark, Resumable, OnMethod, OnSpacesBeforeUrl, OnTarget, OnVersion,
      OnHeadersAlmostDone, OnHeadersDone;
    FoldsAgain(f, ch, answer);
    match f.state
    case Between(_) => BetweenKept(f, log, ch);
    case StatusLine(_) => StatusKept(f, log, ch);
    case MethodWord(_) => RequestKept(f, log, ch);
    case Target(_) => RequestKept(f, log, ch);
    case Version(_) => VersionKept(f, log, ch);
    case HeaderName(_) => NamesKept(f, log, ch);
    case HeaderBody(_) => ValuesKept(f, log, ch);
    case HeadEnd(_) => HeadEndKept(f, log, ch, answer);
    case Chunk(_) => ChunkKept(f, log, ch);
    case Payload(_) => PayloadKept(f, log, ch);
  }

  predicate FoldsOn(m: Move, ch: byte) { m.control == Reexecute ==> Folds(m.f, ch) }

  lemma LinesFold(f: Fields, ch: byte)
    ensures f.state.Between? ==> FoldsOn(OnBetween(f, f.state.between, ch), ch)
    ensures f.state.StatusLine? ==> FoldsOn(OnStatusLine(f, f.state.res, ch), ch)
    ensures f.state.Version? ==> FoldsOn(OnVersion(f, f.state.version, ch), ch)
    ensures FoldsOn(OnMethod(f, ch), ch) && FoldsOn(OnSpacesBeforeUrl(f, ch), ch)
    ensures f.state.Target? ==> FoldsOn(OnTarget(f, f.state.url, ch), ch)
  {
    hide FirstGuess, MethodName, BetterGuess, ParseUrlChar;
  }

  lemma HeadersFold(f: Fields, ch: byte)
    ensures f.state.HeaderName? ==> FoldsOn(OnHeaderName(f, f.state.name, ch), ch)
    ensures f.state.HeaderBody? ==> FoldsOn(OnHeaderBody(f, f.state.value, ch), ch)
  {
    hide FieldByte, ValueByte, FirstValueState, FirstHeaderState, EndOfHeader;
    FieldByteStays(f, ch);
    ValueByteStays(f, ch);
  }

  lemma BodiesFold(f: Fields, ch: byte, answer: Answer)
    ensures f.state.HeadEnd? ==> FoldsOn(OnHeadersAlmostDone(f, ch, answer), ch) && FoldsOn(OnHeadersDone(f, ch), ch)
    ensures f.state.Chunk? ==> FoldsOn(OnChunk(f, f.state.chunk, ch), ch)
    ensures f.state.Payload? ==> FoldsOn(OnPayload(f, f.state.payload), ch)
  {
    hide NewMessage, Unhex;
    StartsAnew(f);
    StartsAnew(f.(nread := 0));
  }

  lemma FoldsAgain(f: Fields, ch: byte, answer: Answer)
    ensures FoldsOn(Transition(f, ch, answer), ch)
  {
    hide FoldsOn, OnBetween, OnStatusLine, OnMethod, OnSpacesBeforeUrl, OnTarget, OnVersion,
      OnHeaderName, OnHeaderBody, OnHeadersAlmostDone, OnHeadersDone, OnChunk, OnPayload;
    LinesFold(f, ch);
    HeadersFold(f, ch);
    BodiesFold(f, ch, answer);
  }

  predicate StepKept(r: StepResult) {
    match r
    case Stepped(m) => Kept(m.f, m.log)
    case Exited(m) => Kept(m.f, m.log)
    case Broken(_, _) => true
  }

  lemma {:induction false} DispatchKept(cfg: Config, f: Fields, s: Slot, ch: byte)
    requires Kept(f, s.log) && Consistent(f) && s.mark == ResumeMark(f.state) && Resumable(s.log, s.mark) && Folds(f, ch)
    ensures StepKept(Dispatch(cfg, f, s, ch))
    decreases Rank(f.state)
  {
    hide Transition, Consistent, Orderly, ResumeMark, Rank, Passing, Kept, EndOfBuffer, ApplyAll, Resumable, Folds;
    var answer := cfg.answers(f.answered);
    var m := Transition(f, ch, answer);
    TransitionKept(f, s.log, ch, answer);
    TransitionKeeps(f, ch, answer);
    TransitionOrderly(f, ch, answer);
    RankFalls(f, ch, answer);
    if !m.control.Fail? {
      ApplyOrderly(f.state, s, m, ch);
      if m.control == Reexecute { DispatchKept(cfg, m.f, ApplyAll(s, m.effects, ch), ch); }
    }
  }

  lemma ByteStepKept(cfg: Config, m: Machine, ch: byte)
    requires Kept(m.f, m.log) && Inv(cfg, m)
    ensures StepKept(ByteStep(cfg, m, ch))
  {
    hide Dispatch, ParsingHeader, Consistent, ResumeMark, Resumable, Announced;
    var g := if ParsingHeader(m.f.state) then m.f.(nread := m.f.nread + 1) else m.f;
    CountKeeps(m.f, m.f.nread + 1);
    CountKept(m.f, m.log, m.f.nread + 1);
    DispatchKept(cfg, g, Slot(m.log, ResumeMark(m.f.state)), ch);
  }

  lemma CountKept(f: Fields, log: seq<Event>, n: nat)
    requires Kept(f, log)
    ensures Kept(f.(nread := n), log)
  {
    hide Announced, Class, Lowered, Scans, LastElement;
    if f.state == HeaderName(HeaderField) { CountsAlone(f, f.(nread := n), Lowered(log[|log| - 1].bytes)); }
  }

  lemma {:induction false} RunKept(cfg: Config, m: Machine, stream: seq<byte>)
    requires Kept(m.f, m.log) && Inv(cfg, m)
    ensures match Run(cfg, m, stream)
            case Ran(end) => Kept(end.f, end.log)
            case Stopped(end, _) => Kept(end.f, end.log)
            case Failed(_, _, _) => true
    decreases |stream|
  {
    hide ByteStep, Inv, Kept;
    if stream != [] {
      ByteStepKept(cfg, m, stream[0]);
      ByteStepInv(cfg, m, stream[0]);
      match ByteStep(cfg, m, stream[0])
      case Stepped(n) => RunKept(cfg, n, stream[1..]);
      case Exited(_) =>
      case Broken(_, _) =>
    }
  }

  lemma KeptAnnounces(f: Fields, log: seq<Event>)
    requires Kept(f, log) && F_CHUNKED in f.flags
    ensures Announced(log)
  {
    hide Announced, Class, Lowered, Scans, LastElement;
    if f.state.HeaderBody? { ValueGrows(log, []); }
  }

  /** In every state a new parser can reach with F_CHUNKED set, a Transfer-Encoding header of the message has been
      reported whose last coding is "chunked". */
  lemma ChunkedAnnounced(cfg: Config, kind: Kind, stream: seq<byte>)
    ensures match Run(cfg, Machine(Initial(kind), []), stream)
            case Ran(m) => F_CHUNKED in m.f.flags ==> Announced(m.log)
            case Stopped(m, _) => F_CHUNKED in m.f.flags ==> Announced(m.log)
            case Failed(_, _, _) => true
  {
    hide Run, Kept, Announced;
    var m := Machine(Initial(kind), []);
    NewKept(kind);
    RunKept(cfg, m, stream);
    match Run(cfg, m, stream)
    case Ran(n) => if F_CHUNKED in n.f.flags { KeptAnnounces(n.f, n.log); }
    case Stopped(n, _) => if F_CHUNKED in n.f.flags { KeptAnnounces(n.f, n.log); }
    case Failed(_, _, _) =>
  }

  lemma NewKept(kind: Kind)
    ensures Kept(Initial(kind), [])
  {}
}
