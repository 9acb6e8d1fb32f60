/** What the byte machine does over the bytes that the slice loops pass over at once. */
module Skips {
  import opened Bytes
  import opened Trace
  import opened ParserState
  import opened Transitions
  import opened ByteMachine
  import opened Invariants

  /** A byte of a header, counted and dispatched. */
  lemma CountedStep(cfg: Config, m: Machine, rest: seq<byte>)
    requires rest != [] && ParsingHeader(m.f.state) && m.f.nread + 1 <= cfg.maxHeader
    ensures Run(cfg, m, rest) ==
            Onward(cfg, Dispatch(cfg, m.f.(nread := m.f.nread + 1), Slot(m.log, ResumeMark(m.f.state)), rest[0]), rest[1..])
  {
    hide Dispatch, ResumeMark, ParsingHeader;
  }

  /** A byte that is not counted. */
  lemma NotCounted(cfg: Config, m: Machine, rest: seq<byte>)
    requires rest != [] && !ParsingHeader(m.f.state)
    ensures Run(cfg, m, rest) ==
            Onward(cfg, Dispatch(cfg, m.f, Slot(m.log, ResumeMark(m.f.state)), rest[0]), rest[1..])
  {
    hide Dispatch, ResumeMark, ParsingHeader;
  }

  /** One byte too many. */
  lemma OverflowStep(cfg: Config, m: Machine, rest: seq<byte>)
    requires rest != [] && ParsingHeader(m.f.state) && m.f.nread + 1 > cfg.maxHeader
    ensures Run(cfg, m, rest) == Failed(HeaderOverflow, |rest|, m.log)
  {
    hide Dispatch, ParsingHeader;
  }

  /** A pass of the switch that ends the byte. */
  lemma AdvanceOnce(cfg: Config, f: Fields, s: Slot, ch: byte, m: Move)
    requires Transition(f, ch, cfg.answers(f.answered)) == m && m.control == Advance
    ensures Dispatch(cfg, f, s, ch) == Stepped(Machine(m.f, EndOfBuffer(ApplyAll(s, m.effects, ch), ch)))
  {
    hide Transition, EndOfBuffer, ApplyAll;
  }

  /** A pass of the switch that re-executes. */
  lemma Again(cfg: Config, f: Fields, s: Slot, ch: byte, m: Move)
    requires Transition(f, ch, cfg.answers(f.answered)) == m && m.control == Reexecute
    ensures Dispatch(cfg, f, s, ch) == Dispatch(cfg, m.f, ApplyAll(s, m.effects, ch), ch)
  {
    hide Transition, EndOfBuffer, ApplyAll, Rank;
  }

  /** A byte of a header on which the switch ends with `g` and the effects `es`. */
  lemma HeaderStep(cfg: Config, m: Machine, rest: seq<byte>, g: Fields, es: seq<Effect>)
    requires rest != [] && ParsingHeader(m.f.state)
    requires Transition(m.f.(nread := m.f.nread + 1), rest[0], cfg.answers(m.f.answered)) == Move(g, es, Advance)
    ensures Run(cfg, m, rest) ==
            if m.f.nread + 1 > cfg.maxHeader then Failed(HeaderOverflow, |rest|, m.log)
            else Run(cfg, Machine(g, EndOfBuffer(ApplyAll(Slot(m.log, ResumeMark(m.f.state)), es, rest[0]), rest[0])), rest[1..])
  {
    hide Run, Transition, ResumeMark, ParsingHeader, EndOfBuffer, ApplyAll, Dispatch;
    if m.f.nread + 1 > cfg.maxHeader {
      OverflowStep(cfg, m, rest);
    } else {
      CountedStep(cfg, m, rest);
      AdvanceOnce(cfg, m.f.(nread := m.f.nread + 1), Slot(m.log, ResumeMark(m.f.state)), rest[0], Move(g, es, Advance));
    }
  }

  /** A byte on which the switch only changes the fields. */
  lemma QuietStep(cfg: Config, m: Machine, rest: seq<byte>, g: Fields)
    requires rest != [] && ParsingHeader(m.f.state)
    requires Transition(m.f.(nread := m.f.nread + 1), rest[0], cfg.answers(m.f.answered)) == Stay(g)
    ensures Run(cfg, m, rest) ==
            if m.f.nread + 1 > cfg.maxHeader then Failed(HeaderOverflow, |rest|, m.log)
            else Run(cfg, Machine(g, EndOfBuffer(Slot(m.log, ResumeMark(m.f.state)), rest[0])), rest[1..])
  {
    hide Run, Transition, ResumeMark, ParsingHeader, EndOfBuffer;
    HeaderStep(cfg, m, rest, g, []);
    assert ApplyAll(Slot(m.log, ResumeMark(m.f.state)), [], rest[0]) == Slot(m.log, ResumeMark(m.f.state));
  }

  /** A byte that starts a token: the mark is set and reports the byte at once. */
  lemma MarkStep(cfg: Config, m: Machine, rest: seq<byte>, g: Fields, k: DataKind)
    requires rest != [] && ParsingHeader(m.f.state) && ResumeMark(m.f.state) == NoMark
    requires Transition(m.f.(nread := m.f.nread + 1), rest[0], cfg.answers(m.f.answered)) == Move(g, [Mark(k)], Advance)
    ensures Run(cfg, m, rest) ==
            if m.f.nread + 1 > cfg.maxHeader then Failed(HeaderOverflow, |rest|, m.log)
            else Run(cfg, Machine(g, Push(m.log, Data(k, [rest[0]]))), rest[1..])
  {
    hide Run, Transition, ResumeMark, ParsingHeader, Push;
    HeaderStep(cfg, m, rest, g, [Mark(k)]);
    var slot := Slot(m.log, NoMark);
    assert ApplyAll(slot, [Mark(k)], rest[0]) == Apply(slot, Mark(k), rest[0]);
    PushTwice(m.log, k, [], [rest[0]]);
    assert [] + [rest[0]] == [rest[0]];
  }

  /** A byte that ends a token: its slice is reported already. */
  lemma FlushStep(cfg: Config, m: Machine, rest: seq<byte>, g: Fields, k: DataKind)
    requires rest != [] && ParsingHeader(m.f.state) && ResumeMark(m.f.state) == Marked(k)
    requires Transition(m.f.(nread := m.f.nread + 1), rest[0], cfg.answers(m.f.answered)) == Move(g, [Flush(k)], Advance)
    ensures Run(cfg, m, rest) ==
            if m.f.nread + 1 > cfg.maxHeader then Failed(HeaderOverflow, |rest|, m.log)
            else Run(cfg, Machine(g, m.log), rest[1..])
  {
    hide Run, Transition, ResumeMark, ParsingHeader;
    HeaderStep(cfg, m, rest, g, [Flush(k)]);
    var slot := Slot(m.log, Marked(k));
    assert ApplyAll(slot, [Flush(k)], rest[0]) == Apply(slot, Flush(k), rest[0]);
  }

  /** A byte that makes the parser call the application. */
  lemma NotifyStep(cfg: Config, m: Machine, rest: seq<byte>, g: Fields, e: Event)
    requires rest != [] && ParsingHeader(m.f.state) && ResumeMark(m.f.state) == NoMark
    requires Transition(m.f.(nread := m.f.nread + 1), rest[0], cfg.answers(m.f.answered)) == Move(g, [Notify(e)], Advance)
    ensures Run(cfg, m, rest) ==
            if m.f.nread + 1 > cfg.maxHeader then Failed(HeaderOverflow, |rest|, m.log)
            else Run(cfg, Machine(g, Push(m.log, e)), rest[1..])
  {
    hide Run, Transition, ResumeMark, ParsingHeader, Push;
    HeaderStep(cfg, m, rest, g, [Notify(e)]);
    var slot := Slot(m.log, NoMark);
    assert ApplyAll(slot, [Notify(e)], rest[0]) == Apply(slot, Notify(e), rest[0]);
  }

  // The same for a stream of one byte.

  lemma QuietByte(cfg: Config, m: Machine, ch: byte, g: Fields)
    requires ParsingHeader(m.f.state) && ResumeMark(m.f.state) == NoMark && m.f.nread + 1 <= cfg.maxHeader
    requires Transition(m.f.(nread := m.f.nread + 1), ch, cfg.answers(m.f.answered)) == Stay(g)
    ensures Run(cfg, m, [ch]) == Ran(Machine(g, m.log))
  {
    hide Transition, ResumeMark, ParsingHeader, Run;
    QuietStep(cfg, m, [ch], g);
    assert [ch][1..] == [];
    RunNothing(cfg, Machine(g, m.log));
  }

  lemma NotifyByte(cfg: Config, m: Machine, ch: byte, g: Fields, e: Event)
    requires ParsingHeader(m.f.state) && ResumeMark(m.f.state) == NoMark && m.f.nread + 1 <= cfg.maxHeader
    requires Transition(m.f.(nread := m.f.nread + 1), ch, cfg.answers(m.f.answered)) == Move(g, [Notify(e)], Advance)
    ensures Run(cfg, m, [ch]) == Ran(Machine(g, Push(m.log, e)))
  {
    hide Transition, ResumeMark, ParsingHeader, Run, Push;
    NotifyStep(cfg, m, [ch], g, e);
    assert [ch][1..] == [];
    RunNothing(cfg, Machine(g, Push(m.log, e)));
  }

  lemma FlushByte(cfg: Config, m: Machine, ch: byte, g: Fields, k: DataKind)
    requires ParsingHeader(m.f.state) && ResumeMark(m.f.state) == Marked(k) && m.f.nread + 1 <= cfg.maxHeader
    requires Transition(m.f.(nread := m.f.nread + 1), ch, cfg.answers(m.f.answered)) == Move(g, [Flush(k)], Advance)
    ensures Run(cfg, m, [ch]) == Ran(Machine(g, m.log))
  {
    hide Transition, ResumeMark, ParsingHeader, Run;
    FlushStep(cfg, m, [ch], g, k);
    assert [ch][1..] == [];
    RunNothing(cfg, Machine(g, m.log));
  }

  lemma FieldByteCount(f: Fields, ch: byte, n: nat)
    ensures FieldByte(f.(nread := n), ch) == FieldByte(f, ch).(nread := n)
  {
    hide Matched, Token;
  }

  lemma ClassByteCount(f: Fields, e: EncodingClass, c: ConnectionClass, ch: byte, n: nat)
    ensures EncodingByte(f.(nread := n), e, ch) == EncodingByte(f, e, ch).(nread := n)
    ensures ConnectionByte(f.(nread := n), c, ch) == ConnectionByte(f, c, ch).(nread := n)
  {
    hide Matched, Lower, Token, ConnectionFlag;
  }

  lemma ValueByteCount(f: Fields, ch: byte, n: nat)
    ensures ValueByte(f.(nread := n), ch) ==
            match ValueByte(f, ch) case ValueOk(g) => ValueOk(g.(nread := n)) case ValueErr(e) => ValueErr(e)
  {
    hide EncodingByte, ConnectionByte;
    match f.headerState
    case Encoding(e) => ClassByteCount(f, e, ConnectionToken, ch, n);
    case Connecting(c) => ClassByteCount(f, EncodingToken, c, ch, n);
    case _ =>
  }

  /** The byte machine inside a header name. */
  lemma FieldStep(cfg: Config, f: Fields, log: seq<Event>, rest: seq<byte>)
    requires f.state == HeaderName(HeaderField) && rest != [] && IsToken(rest[0])
    ensures Run(cfg, Machine(f, log), rest) ==
            if f.nread + 1 > cfg.maxHeader then Failed(HeaderOverflow, |rest|, log)
            else Run(cfg, Machine(FieldByte(f, rest[0]).(nread := f.nread + 1),
                                  Push(log, Data(Field, [rest[0]]))), rest[1..])
  {
    hide Run, FieldByte, Token, Push;
    FieldByteCount(f, rest[0], f.nread + 1);
    QuietStep(cfg, Machine(f, log), rest, FieldByte(f, rest[0]).(nread := f.nread + 1));
  }

  /** The byte machine inside a header value. */
  lemma ValueStep(cfg: Config, f: Fields, log: seq<Event>, rest: seq<byte>)
    requires f.state == HeaderBody(HeaderValue) && rest != []
    requires rest[0] != CR && rest[0] != LF && IsHeaderChar(rest[0]) && ValueByte(f, rest[0]).ValueOk?
    ensures Run(cfg, Machine(f, log), rest) ==
            if f.nread + 1 > cfg.maxHeader then Failed(HeaderOverflow, |rest|, log)
            else Run(cfg, Machine(ValueByte(f, rest[0]).f.(nread := f.nread + 1),
                                  Push(log, Data(Value, [rest[0]]))), rest[1..])
  {
    hide Run, ValueByte, IsHeaderChar, Push;
    ValueByteCount(f, rest[0], f.nread + 1);
    QuietStep(cfg, Machine(f, log), rest, ValueByte(f, rest[0]).f.(nread := f.nread + 1));
  }

  /** A byte that ends the run with error `e`, unless the size check comes first. */
  lemma FailStep(cfg: Config, m: Machine, rest: seq<byte>, e: Errno)
    requires rest != [] && ParsingHeader(m.f.state)
    requires Transition(m.f.(nread := m.f.nread + 1), rest[0], cfg.answers(m.f.answered)).control == Fail(e)
    ensures Run(cfg, m, rest) ==
            Failed(if m.f.nread + 1 > cfg.maxHeader then HeaderOverflow else e, |rest|, m.log)
  {
    hide Transition, ResumeMark, ParsingHeader, ApplyAll;
  }

  /** A bad byte inside a header value. */
  lemma BadValueStep(cfg: Config, f: Fields, log: seq<Event>, rest: seq<byte>, e: Errno)
    requires f.state == HeaderBody(HeaderValue) && rest != [] && rest[0] != CR && rest[0] != LF
    requires if IsHeaderChar(rest[0]) then ValueByte(f, rest[0]) == ValueErr(e) else e == InvalidHeaderToken
    ensures Run(cfg, Machine(f, log), rest) ==
            Failed(if f.nread + 1 > cfg.maxHeader then HeaderOverflow else e, |rest|, log)
  {
    hide Run, ValueByte, IsHeaderChar;
    ValueByteCount(f, rest[0], f.nread + 1);
    FailStep(cfg, Machine(f, log), rest, e);
  }

  /** The fields after `k` more bytes of a body. */
  function AfterBody(f: Fields, k: nat): Fields
    requires f.state != Payload(BodyIdentityEof) ==> k < f.contentLength
  {
    if f.state == Payload(BodyIdentityEof) then f else f.(contentLength := f.contentLength - k)
  }

  /** `k` bytes of a body that goes on are reported as one slice. */
  lemma {:induction false} BodySkip(cfg: Config, f: Fields, log: seq<Event>, rest: seq<byte>, k: nat)
    requires TakesBody(f.state) && 0 < k <= |rest|
    requires f.state != Payload(BodyIdentityEof) ==> k < f.contentLength
    ensures Run(cfg, Machine(f, log), rest) ==
            Run(cfg, Machine(AfterBody(f, k), Push(log, Data(Body, rest[..k]))), rest[k..])
    decreases k
  {
    hide Run, Push;
    BodyByte(cfg, f, log, rest);
    if k == 1 {
      assert rest[..1] == [rest[0]];
    } else {
      var g, log1 := AfterBody(f, 1), Push(log, Data(Body, [rest[0]]));
      BodySkip(cfg, g, log1, rest[1..], k - 1);
      PushTwice(log, Body, [rest[0]], rest[1..][..k - 1]);
      assert [rest[0]] + rest[1..][..k - 1] == rest[..k];
      assert rest[1..][k - 1..] == rest[k..];
    }
  }

  lemma BodyByte(cfg: Config, f: Fields, log: seq<Event>, rest: seq<byte>)
    requires TakesBody(f.state) && rest != []
    requires f.state != Payload(BodyIdentityEof) ==> 1 < f.contentLength
    ensures Run(cfg, Machine(f, log), rest) ==
            Run(cfg, Machine(AfterBody(f, 1), Push(log, Data(Body, [rest[0]]))), rest[1..])
  {
    hide Push;
    MarkAndReport(log, rest[0]);
    var slot := Slot(log, NoMark);
    assert ApplyAll(slot, [Mark(Body)], rest[0]) == Apply(slot, Mark(Body), rest[0]);
  }

  /** Marking a byte and reporting it at the end of the buffer reports one byte. */
  lemma MarkAndReport(log: seq<Event>, ch: byte)
    ensures Push(Push(log, Data(Body, [])), Data(Body, [ch])) == Push(log, Data(Body, [ch]))
  {
    PushTwice(log, Body, [], [ch]);
    assert [] + [ch] == [ch];
  }

  /** The last byte of an identity body is reported and then seen again in `s_message_done`. */
  lemma LastIdentityByte(cfg: Config, f: Fields, log: seq<Event>, rest: seq<byte>)
    requires f.state == Payload(BodyIdentity) && f.contentLength == 1 && rest != []
    ensures Run(cfg, Machine(f, log), rest) ==
            Onward(cfg, Dispatch(cfg, f.(contentLength := 0, state := Payload(MessageDone)),
                                 Slot(Push(log, Data(Body, [rest[0]])), NoMark), rest[0]), rest[1..])
  {
    hide Push, Complete, NewMessage;
    MarkAndReport(log, rest[0]);
    var effects := [Mark(Body), FlushThrough(Body)];
    var slot := Apply(Slot(log, NoMark), effects[0], rest[0]);
    assert effects[1..] == [FlushThrough(Body)];
    assert ApplyAll(slot, effects[1..], rest[0]) == Apply(slot, FlushThrough(Body), rest[0]);
  }

  /** The last byte of a chunk. */
  lemma LastChunkByte(cfg: Config, f: Fields, log: seq<Event>, rest: seq<byte>)
    requires f.state == Chunk(ChunkData) && f.contentLength == 1 && rest != []
    ensures Run(cfg, Machine(f, log), rest) ==
            Run(cfg, Machine(f.(contentLength := 0, state := Chunk(ChunkDataAlmostDone)),
                             Push(log, Data(Body, [rest[0]]))), rest[1..])
  {
    hide Push;
    MarkAndReport(log, rest[0]);
    assert ApplyAll(Slot(log, NoMark), [Mark(Body)], rest[0]) == Apply(Slot(log, NoMark), Mark(Body), rest[0]);
  }
}
