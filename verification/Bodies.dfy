/** Bodies: what is sent is what is delivered. */
module Bodies {
  import opened Bytes
  import opened Trace
  import opened ParserState
  import opened Transitions
  import opened ByteMachine
  import opened Invariants
  import opened Skips
  import opened Numbers

  /** All body data among the callbacks. */
  function BodyOf(log: seq<Event>): seq<byte> {
    if log == [] then []
    else
      var e := log[|log| - 1];
      BodyOf(log[..|log| - 1]) + (if e.Data? && e.kind == Body then e.bytes else [])
  }

  lemma BodyOfPush(log: seq<Event>, e: Event)
    ensures BodyOf(Push(log, e)) == BodyOf(log) + if e.Data? && e.kind == Body then e.bytes else []
  {
    if e.Data? && EndsIn(log, e.kind) {
      var init, last := log[..|log| - 1], log[|log| - 1];
      var glued := init + [Data(e.kind, last.bytes + e.bytes)];
      assert glued[..|glued| - 1] == init;
      assert BodyOf(log) == BodyOf(init) + if e.kind == Body then last.bytes else [];
    } else {
      assert (log + [e])[..|log|] == log;
    }
  }

  /** The run that ends with a complete message: the next message's state, or a stop for an upgrade. */
  function Finished(f: Fields, log: seq<Event>): RunResult {
    var m := Machine(f.(state := NewMessage(f)), Push(log, MessageComplete));
    if f.upgrade then Stopped(m, 0) else Ran(m)
  }

  lemma MessageDoneDispatch(cfg: Config, f: Fields, log: seq<Event>, ch: byte)
    requires f.state == Payload(MessageDone)
    ensures Onward(cfg, Dispatch(cfg, f, Slot(log, NoMark), ch), []) == Finished(f, log)
  {
    hide NewMessage, Push;
    var slot := Slot(log, NoMark);
    assert ApplyAll(slot, [Notify(MessageComplete)], ch) == Apply(slot, Notify(MessageComplete), ch);
    RunNothing(cfg, Machine(f.(state := NewMessage(f)), Push(log, MessageComplete)));
  }

  /** A body with Content-Length is delivered exactly, whatever its bytes, and then the message is complete. */
  lemma IdentityDelivered(cfg: Config, f: Fields, log: seq<Event>, body: seq<byte>)
    requires f.state == Payload(BodyIdentity) && |body| == f.contentLength > 0
    ensures Run(cfg, Machine(f, log), body) ==
            Finished(f.(contentLength := 0, state := Payload(MessageDone)), Push(log, Data(Body, body)))
  {
    hide Run, Push, Dispatch, Finished;
    var n := |body| - 1;
    var g := f.(contentLength := 1);
    var log1 := if n == 0 then log else Push(log, Data(Body, body[..n]));
    if n > 0 {
      BodySkip(cfg, f, log, body, n);
      PushTwice(log, Body, body[..n], [body[n]]);
      assert body[..n] + [body[n]] == body;
    } else {
      assert g == f && body == [body[0]];
    }
    assert body[n..] == [body[n]] && body[n..][1..] == [];
    LastIdentityByte(cfg, g, log1, body[n..]);
    MessageDoneDispatch(cfg, g.(contentLength := 0, state := Payload(MessageDone)),
                        Push(log1, Data(Body, [body[n]])), body[n]);
    assert g.(contentLength := 0, state := Payload(MessageDone)) == f.(contentLength := 0, state := Payload(MessageDone));
  }

  // ---- chunked encoding (section 4.1 of RFC 7230)

  /** One chunk as it is sent: any digits worth its length, an extension, the data. */
  datatype ChunkText = ChunkText(size: seq<byte>, extension: seq<byte>, data: seq<byte>)

  predicate LegalSizeLine(c: ChunkText, maxHeader: nat) {
    && c.size != [] && AllHex(c.size) && Hexadecimal(0, c.size) == |c.data| <= CHUNK_LIMIT
    && (c.extension != [] ==> c.extension[0] == ';' || c.extension[0] == ' ')
    && CR !in c.extension
    && |c.size| + |c.extension| + 2 <= maxHeader
  }

  function SizeLine(c: ChunkText): seq<byte> { c.size + c.extension + [CR] + [LF] }

  function Encode(c: ChunkText): seq<byte> { SizeLine(c) + c.data + [CR] + [LF] }

  /** The rest of a chunk extension is skipped. */
  lemma {:induction false} SkipExtension(cfg: Config, f: Fields, log: seq<Event>, x: seq<byte>)
    requires f.state == Chunk(ChunkParameters) && CR !in x && f.nread + |x| <= cfg.maxHeader
    ensures Run(cfg, Machine(f, log), x) == Ran(Machine(f.(nread := f.nread + |x|), log))
    decreases |x|
  {
    hide Run;
    if x == [] {
      RunNothing(cfg, Machine(f, log));
      assert f.(nread := f.nread) == f;
    } else {
      var g := f.(nread := f.nread + 1);
      QuietStep(cfg, Machine(f, log), x, g);
      SkipExtension(cfg, g, log, x[1..]);
      assert g.(nread := g.nread + |x[1..]|) == f.(nread := f.nread + |x|);
    }
  }

  /** The fields after a chunk's size line. */
  function AfterSizeLine(f: Fields, n: nat): Fields {
    if n == 0
    then f.(contentLength := 0, nread := 0, flags := f.flags + {F_TRAILING}, state := HeaderName(HeaderFieldStart))
    else f.(contentLength := n, nread := 0, state := Chunk(ChunkData))
  }

  lemma Extension(cfg: Config, f: Fields, log: seq<Event>, x: seq<byte>)
    requires f.state == Chunk(ChunkSize) && CR !in x && f.nread + |x| + 1 <= cfg.maxHeader
    requires x != [] ==> x[0] == ';' || x[0] == ' '
    ensures Run(cfg, Machine(f, log), x + [CR]) ==
            Ran(Machine(f.(state := Chunk(ChunkSizeAlmostDone), nread := f.nread + |x| + 1), log))
  {
    hide Run;
    var m := Machine(f, log);
    if x == [] {
      assert x + [CR] == [CR];
      QuietByte(cfg, m, CR, f.(state := Chunk(ChunkSizeAlmostDone), nread := f.nread + 1));
    } else {
      var g := f.(state := Chunk(ChunkParameters), nread := f.nread + 1);
      QuietStep(cfg, m, x, g);
      SkipExtension(cfg, g, log, x[1..]);
      var h := g.(nread := g.nread + |x[1..]|);
      RunAppend(cfg, m, x, [CR]);
      QuietByte(cfg, Machine(h, log), CR, h.(state := Chunk(ChunkSizeAlmostDone), nread := h.nread + 1));
    }
  }

  /** `on_chunk_header` sees exactly the chunk's length. */
  lemma SizeLineRead(cfg: Config, f: Fields, log: seq<Event>, c: ChunkText)
    requires f.state == Chunk(ChunkSizeStart) && f.nread == 0 && LegalSizeLine(c, cfg.maxHeader)
    ensures Run(cfg, Machine(f, log), SizeLine(c)) ==
            Ran(Machine(AfterSizeLine(f, |c.data|), Push(log, ChunkHeader(|c.data|))))
  {
    hide Run, Push;
    var m, n := Machine(f, log), |c.data|;
    ChunkSizeExact(cfg, f, log, c.size);
    var m1 := Machine(f.(state := Chunk(ChunkSize), contentLength := n, nread := |c.size|), log);
    Extension(cfg, m1.f, log, c.extension);
    var g := m1.f.(state := Chunk(ChunkSizeAlmostDone), nread := |c.size| + |c.extension| + 1);
    RunAppend(cfg, m, c.size, c.extension + [CR]);
    assert c.size + (c.extension + [CR]) == c.size + c.extension + [CR];
    RunAppend(cfg, m, c.size + c.extension + [CR], [LF]);
    NotifyByte(cfg, Machine(g, log), LF, AfterSizeLine(f, n), ChunkHeader(n));
  }

  lemma ChunkDataRead(cfg: Config, f: Fields, log: seq<Event>, data: seq<byte>)
    requires f.state == Chunk(ChunkData) && |data| == f.contentLength > 0
    ensures Run(cfg, Machine(f, log), data) ==
            Ran(Machine(f.(contentLength := 0, state := Chunk(ChunkDataAlmostDone)), Push(log, Data(Body, data))))
  {
    hide Run, Push;
    var n := |data| - 1;
    var g := f.(contentLength := 1);
    var log1 := if n == 0 then log else Push(log, Data(Body, data[..n]));
    if n > 0 {
      BodySkip(cfg, f, log, data, n);
      PushTwice(log, Body, data[..n], [data[n]]);
      assert data[..n] + [data[n]] == data;
    } else {
      assert g == f && data == [data[0]];
    }
    assert data[n..] == [data[n]] && data[n..][1..] == [];
    LastChunkByte(cfg, g, log1, data[n..]);
    var h := g.(contentLength := 0, state := Chunk(ChunkDataAlmostDone));
    assert h == f.(contentLength := 0, state := Chunk(ChunkDataAlmostDone));
    RunNothing(cfg, Machine(h, Push(log1, Data(Body, [data[n]]))));
  }

  /** The line end after a chunk's data. */
  lemma ChunkTailRead(cfg: Config, f: Fields, log: seq<Event>)
    requires f.state == Chunk(ChunkDataAlmostDone)
    ensures Run(cfg, Machine(f, log), [CR] + [LF]) ==
            Ran(Machine(f.(state := Chunk(ChunkSizeStart), nread := 0), Push(log, ChunkComplete)))
  {
    var cr: seq<byte>, lf: seq<byte> := [CR], [LF];
    var g := f.(state := Chunk(ChunkDataDone));
    var h := f.(state := Chunk(ChunkSizeStart), nread := 0);
    assert cr[1..] == [] && lf[1..] == [];
    assert Run(cfg, Machine(f, log), cr) == Ran(Machine(g, log)) by {
      assert ApplyAll(Slot(log, NoMark), [Flush(Body)], CR) == Apply(Slot(log, NoMark), Flush(Body), CR);
    }
    assert Run(cfg, Machine(g, log), lf) == Ran(Machine(h, Push(log, ChunkComplete))) by {
      assert ApplyAll(Slot(log, NoMark), [Notify(ChunkComplete)], LF) == Apply(Slot(log, NoMark), Notify(ChunkComplete), LF);
    }
    hide Run;
    RunAppend(cfg, Machine(f, log), cr, lf);
  }

  /** What one chunk makes the application see. */
  function Delivered(log: seq<Event>, data: seq<byte>): seq<Event> {
    Push(Push(Push(log, ChunkHeader(|data|)), Data(Body, data)), ChunkComplete)
  }

  lemma ChunkRead(cfg: Config, f: Fields, log: seq<Event>, c: ChunkText)
    requires f.state == Chunk(ChunkSizeStart) && f.nread == 0 && LegalSizeLine(c, cfg.maxHeader) && c.data != []
    ensures Run(cfg, Machine(f, log), Encode(c)) ==
            Ran(Machine(f.(contentLength := 0), Delivered(log, c.data)))
  {
    hide Run, Push, LegalSizeLine;
    var m := Machine(f, log);
    SizeLineRead(cfg, f, log, c);
    var g, log1 := AfterSizeLine(f, |c.data|), Push(log, ChunkHeader(|c.data|));
    ChunkDataRead(cfg, g, log1, c.data);
    var h, log2 := g.(contentLength := 0, state := Chunk(ChunkDataAlmostDone)), Push(log1, Data(Body, c.data));
    ChunkTailRead(cfg, h, log2);
    RunAppend(cfg, m, SizeLine(c), c.data);
    RunAppend(cfg, m, SizeLine(c) + c.data, [CR] + [LF]);
    assert Encode(c) == SizeLine(c) + c.data + ([CR] + [LF]);
    assert h.(state := Chunk(ChunkSizeStart), nread := 0) == f.(contentLength := 0);
  }

  function EncodeAll(cs: seq<ChunkText>): seq<byte> {
    if cs == [] then [] else Encode(cs[0]) + EncodeAll(cs[1..])
  }

  function DeliveredAll(log: seq<Event>, cs: seq<ChunkText>): seq<Event>
    decreases |cs|
  {
    if cs == [] then log else DeliveredAll(Delivered(log, cs[0].data), cs[1..])
  }

  function Joined(cs: seq<ChunkText>): seq<byte> {
    if cs == [] then [] else cs[0].data + Joined(cs[1..])
  }

  predicate LegalChunks(cs: seq<ChunkText>, maxHeader: nat) {
    forall i :: 0 <= i < |cs| ==> LegalSizeLine(cs[i], maxHeader) && cs[i].data != []
  }

  /** Every chunk is announced with its own size, delivered and completed, one after the other. */
  lemma {:induction false} ChunksRead(cfg: Config, f: Fields, log: seq<Event>, cs: seq<ChunkText>)
    requires f.state == Chunk(ChunkSizeStart) && f.nread == 0 && LegalChunks(cs, cfg.maxHeader)
    ensures Run(cfg, Machine(f, log), EncodeAll(cs)) ==
            Ran(Machine(if cs == [] then f else f.(contentLength := 0), DeliveredAll(log, cs)))
    decreases |cs|
  {
    hide Run, Delivered, Encode, LegalSizeLine;
    if cs == [] {
      RunNothing(cfg, Machine(f, log));
    } else {
      var g := f.(contentLength := 0);
      ChunkRead(cfg, f, log, cs[0]);
      ChunksRead(cfg, g, Delivered(log, cs[0].data), cs[1..]);
      RunAppend(cfg, Machine(f, log), Encode(cs[0]), EncodeAll(cs[1..]));
      assert g.(contentLength := 0) == g;
    }
  }

  /** The data delivered is the concatenation of the chunks. */
  lemma {:induction false} DeliveredBody(log: seq<Event>, cs: seq<ChunkText>)
    ensures BodyOf(DeliveredAll(log, cs)) == BodyOf(log) + Joined(cs)
    decreases |cs|
  {
    hide Push, BodyOf;
    if cs != [] {
      var data := cs[0].data;
      var log1 := Push(log, ChunkHeader(|data|));
      var log2 := Push(log1, Data(Body, data));
      BodyOfPush(log, ChunkHeader(|data|));
      BodyOfPush(log1, Data(Body, data));
      BodyOfPush(log2, ChunkComplete);
      DeliveredBody(Delivered(log, data), cs[1..]);
    }
  }

  /** The passes of the switch at an empty line. */
  lemma EmptyLineMoves(f: Fields, answer: Answer)
    requires f.state == HeaderName(HeaderFieldStart)
    ensures var g := f.(state := HeadEnd(HeadersAlmostDone));
            Transition(f, CR, answer) == Stay(g) && Transition(f, LF, answer) == Move(g, [], Reexecute)
  {}

  lemma TrailerMoves(f: Fields, answer: Answer)
    requires f.state == HeadEnd(HeadersAlmostDone) && F_TRAILING in f.flags
    ensures Transition(f, LF, answer) == Move(f.(state := Payload(MessageDone)), [Notify(ChunkComplete)], Reexecute)
  {}

  /** The line end after the last chunk ends the message. */
  lemma LastLineEnd(cfg: Config, f: Fields, log: seq<Event>)
    requires f.state == HeaderName(HeaderFieldStart) && F_TRAILING in f.flags && f.nread + 2 <= cfg.maxHeader
    ensures Run(cfg, Machine(f, log), [CR] + [LF]) ==
            Finished(f.(state := Payload(MessageDone), nread := f.nread + 2), Push(log, ChunkComplete))
  {
    hide Run, Finished, Push, Transition, Dispatch;
    var cr: seq<byte>, lf: seq<byte> := [CR], [LF];
    var g := f.(state := HeadEnd(HeadersAlmostDone), nread := f.nread + 1);
    var h, slot := f.(state := Payload(MessageDone), nread := f.nread + 2), Slot(log, NoMark);
    EmptyLineMoves(f.(nread := f.nread + 1), cfg.answers(f.answered));
    TrailerMoves(g.(nread := f.nread + 2), cfg.answers(f.answered));
    QuietByte(cfg, Machine(f, log), CR, g);
    RunAppend(cfg, Machine(f, log), cr, lf);
    assert lf[1..] == [];
    CountedStep(cfg, Machine(g, log), lf);
    Again(cfg, g.(nread := f.nread + 2), slot, LF, Move(h, [Notify(ChunkComplete)], Reexecute));
    assert ApplyAll(slot, [Notify(ChunkComplete)], LF) == Apply(slot, Notify(ChunkComplete), LF);
    MessageDoneDispatch(cfg, h, Push(log, ChunkComplete), LF);
  }

  /** The chunked encoding of any list of chunks that are not empty, with any extensions, closed by a last
      chunk and no trailer, delivers exactly their concatenation and completes the message. */
  lemma ChunkedDelivered(cfg: Config, f: Fields, log: seq<Event>, cs: seq<ChunkText>, last: ChunkText)
    requires f.state == Chunk(ChunkSizeStart) && f.nread == 0 && LegalChunks(cs, cfg.maxHeader)
    requires LegalSizeLine(last, cfg.maxHeader) && last.data == [] && cfg.maxHeader >= 2
    ensures var log1 := Push(Push(DeliveredAll(log, cs), ChunkHeader(0)), ChunkComplete);
            Run(cfg, Machine(f, log), EncodeAll(cs) + SizeLine(last) + [CR] + [LF]) ==
              Finished(f.(contentLength := 0, nread := 2, flags := f.flags + {F_TRAILING}, state := Payload(MessageDone)),
                       log1) &&
            BodyOf(log1) == BodyOf(log) + Joined(cs)
  {
    hide Run, Push, BodyOf, LegalSizeLine, LegalChunks, Finished;
    var m := Machine(f, log);
    ChunksRead(cfg, f, log, cs);
    var f1, log1 := if cs == [] then f else f.(contentLength := 0), DeliveredAll(log, cs);
    SizeLineRead(cfg, f1, log1, last);
    var f2, log2 := AfterSizeLine(f1, 0), Push(log1, ChunkHeader(0));
    LastLineEnd(cfg, f2, log2);
    RunAppend(cfg, m, EncodeAll(cs), SizeLine(last));
    RunAppend(cfg, m, EncodeAll(cs) + SizeLine(last), [CR] + [LF]);
    assert EncodeAll(cs) + SizeLine(last) + ([CR] + [LF]) == EncodeAll(cs) + SizeLine(last) + [CR] + [LF];
    assert f2.(state := Payload(MessageDone), nread := f2.nread + 2) ==
           f.(contentLength := 0, nread := 2, flags := f.flags + {F_TRAILING}, state := Payload(MessageDone));
    DeliveredBody(log, cs);
    BodyOfPush(log1, ChunkHeader(0));
    BodyOfPush(log2, ChunkComplete);
  }
}
