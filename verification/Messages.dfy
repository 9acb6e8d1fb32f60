/** Heads and bodies of messages of either kind: how a message goes on after its headers, and what its body delivers. */
module Messages {
  import opened Bytes
  import opened Trace
  import opened ParserState
  import opened Transitions
  import opened ByteMachine
  import opened Skips
  import opened Bodies
  import opened Values
  import opened HeaderNames
  import opened ListHeaders
  import opened Headers

  /** A body as text: none, bytes as they are, or chunks with a last chunk and trailer fields. */
  datatype BodyText =
    | Absent
    | Sized(bytes: seq<byte>)
    | Chunked(chunks: seq<ChunkText>, last: ChunkText, trailers: seq<Header>, crlf: bool)

  /** Transfer-Encoding excludes Content-Length. */
  predicate BothFramings(flags: set<Flag>) { F_TRANSFER_ENCODING in flags && F_CONTENTLENGTH in flags }

  /** What comes after a head; a request may be left without any framing. */
  datatype After = NoBody | ChunkedBody | SizedBody | UntilEnd | NoFraming

  /** 1xx, 204 and 304. */
  predicate NoContent(status: nat) { status / 100 == 1 || status == 204 || status == 304 }

  /** How the message goes on, from the fields after its headers and what the application knows of them: section 3.3.3 of
      RFC 7230, but that a status without content counts only where nothing else gives a length. */
  function Goes(kind: Kind, flags: set<Flag>, status: nat, h: Head): After {
    if Bodiless(h) then NoBody
    else if h.chunked then ChunkedBody
    else if h.length != 0 && h.length != ULLONG_MAX then SizedBody
    else if h.length == 0 || h.upgrade then NoBody
    else if kind == Request then (if F_TRANSFER_ENCODING in flags then NoFraming else NoBody)
    else if F_TRANSFER_ENCODING !in flags && NoContent(status) then NoBody
    else UntilEnd
  }

  function Way(f: Fields, h: Head): After { Goes(f.kind, f.flags, f.status, h) }

  /** The end of a head, from the fields after its headers. */
  function HeadTo(f: Fields, answer: Answer, log: seq<Event>): RunResult {
    var g := Headed(f, answer).(nread := 0);
    var h := HeadOf(g, answer != Proceed);
    var log1 := Push(log, HeadersComplete(h));
    if BothFramings(f.flags) then Failed(UnexpectedContentLength, 1, log)
    else
      match Way(f, h)
      case NoBody => Finished(g, log1)
      case ChunkedBody => Ran(Machine(g.(state := Chunk(ChunkSizeStart)), log1))
      case SizedBody => Ran(Machine(g.(state := Payload(BodyIdentity)), log1))
      case UntilEnd => Ran(Machine(g.(state := Payload(BodyIdentityEof)), log1))
      case NoFraming => Failed(InvalidTransferEncoding, 1, log1)
  }

  /** The framing of a message when its head ends; `content_length` is set by Content-Length only. */
  predicate Framed(f: Fields) {
    && f.kind != Both && F_TRAILING !in f.flags && F_SKIPBODY !in f.flags
    && (F_CHUNKED in f.flags ==> F_TRANSFER_ENCODING in f.flags)
    && (F_CONTENTLENGTH !in f.flags ==> f.contentLength == ULLONG_MAX)
  }

  /** The two passes of the switch at the last LF. */
  lemma AlmostDoneMoves(f: Fields, answer: Answer)
    requires f.state == HeadEnd(HeadersAlmostDone) && Framed(f)
    ensures var g := Headed(f, answer);
            Transition(f, LF, answer) ==
            if BothFramings(f.flags) then Err(f, UnexpectedContentLength)
            else Move(g, [Notify(HeadersComplete(HeadOf(g, answer != Proceed)))], Reexecute)
  {}

  lemma DoneMoves(f: Fields, g: Fields, answer: Answer, next: Answer)
    requires Framed(f) && !BothFramings(f.flags) && g == Headed(f, answer)
    ensures var h, z := HeadOf(g, answer != Proceed), g.(nread := 0);
            Transition(g, LF, next) ==
            match Way(f, h)
            case NoBody => Move(z.(state := NewMessage(z)), [Notify(MessageComplete)], if g.upgrade then Exit else Advance)
            case ChunkedBody => Go(z, Chunk(ChunkSizeStart))
            case SizedBody => Go(z, Payload(BodyIdentity))
            case UntilEnd => Go(z, Payload(BodyIdentityEof))
            case NoFraming => Err(z, InvalidTransferEncoding)
  {
    hide NewMessage;
  }

  lemma LastLf(cfg: Config, f: Fields, log: seq<Event>)
    requires f.state == HeadEnd(HeadersAlmostDone) && Framed(f)
    ensures Onward(cfg, Dispatch(cfg, f, Slot(log, NoMark), LF), []) == HeadTo(f, cfg.answers(f.answered), log)
  {
    hide Push, Transition, NewMessage, HeadOf, Headed, BothFramings, Way, Framed, Run;
    var answer := cfg.answers(f.answered);
    var g := Headed(f, answer);
    AlmostDoneMoves(f, answer);
    if !BothFramings(f.flags) {
      DoneMoves(f, g, answer, cfg.answers(g.answered));
      HeadedFields(f, answer);
      var h := HeadOf(g, answer != Proceed);
      var e, slot := HeadersComplete(h), Slot(log, NoMark);
      assert ApplyAll(slot, [Notify(e)], LF) == Apply(slot, Notify(e), LF);
      var slot1 := Slot(Push(log, e), NoMark);
      assert ApplyAll(slot1, [Notify(MessageComplete)], LF) == Apply(slot1, Notify(MessageComplete), LF);
      assert ApplyAll(slot1, [], LF) == slot1;
      var z := g.(nread := 0);
      match Way(f, h)
      case NoBody => RunNothing(cfg, Machine(z.(state := NewMessage(z)), Push(Push(log, e), MessageComplete)));
      case ChunkedBody => RunNothing(cfg, Machine(z.(state := Chunk(ChunkSizeStart)), Push(log, e)));
      case SizedBody => RunNothing(cfg, Machine(z.(state := Payload(BodyIdentity)), Push(log, e)));
      case UntilEnd => RunNothing(cfg, Machine(z.(state := Payload(BodyIdentityEof)), Push(log, e)));
      case NoFraming =>
    }
  }

  lemma HeadedFields(f: Fields, answer: Answer)
    ensures var g := Headed(f, answer);
            HeadOf(g.(nread := 0), answer != Proceed) == HeadOf(g, answer != Proceed) && g.state == HeadEnd(HeadersDone)
  {}

  lemma ToCount(f: Fields, answer: Answer, log: seq<Event>, n: nat, s: State)
    ensures HeadTo(f.(nread := n, state := s), answer, log) == HeadTo(f, answer, log)
  {
    hide Push, NewMessage, Finished;
  }

  /** The empty line after the headers. */
  lemma HeadEnds(cfg: Config, f: Fields, log: seq<Event>, crlf: bool)
    requires f.state == HeaderName(HeaderFieldStart) && Framed(f) && f.nread + |LineEnd(crlf)| <= cfg.maxHeader
    ensures Run(cfg, Machine(f, log), LineEnd(crlf)) == HeadTo(f, cfg.answers(f.answered), log)
  {
    hide Run, Dispatch, Transition, HeadTo;
    var lf: seq<byte>, cr: seq<byte> := [LF], [CR];
    assert lf[1..] == [];
    var n, g := f.nread + 1, f.(nread := f.nread + 1, state := HeadEnd(HeadersAlmostDone));
    EmptyLineMoves(f.(nread := n), cfg.answers(f.answered));
    if crlf {
      QuietByte(cfg, Machine(f, log), CR, g);
      RunAppend(cfg, Machine(f, log), cr, lf);
      CountedStep(cfg, Machine(g, log), lf);
      LastLf(cfg, g.(nread := n + 1), log);
      ToCount(f, cfg.answers(f.answered), log, n + 1, g.state);
    } else {
      CountedStep(cfg, Machine(f, log), lf);
      Again(cfg, f.(nread := n), Slot(log, NoMark), LF, Move(g, [], Reexecute));
      assert ApplyAll(Slot(log, NoMark), [], LF) == Slot(log, NoMark);
      LastLf(cfg, g, log);
      ToCount(f, cfg.answers(f.answered), log, n, g.state);
    }
  }

  /** Flags that no header sets, and the two that go together. */
  ghost predicate Tame(s: Framing) {
    && F_TRAILING !in s.flags && F_SKIPBODY !in s.flags
    && (F_CHUNKED in s.flags ==> F_TRANSFER_ENCODING in s.flags)
    && (F_CONTENTLENGTH !in s.flags ==> s.length == ULLONG_MAX)
  }

  lemma TameWith(s: Framing, h: Header)
    requires Tame(s)
    ensures Tame(With(s, h))
  {
    hide Chunks, HasOption, Digits, Lowered;
  }

  lemma {:induction false} TameAll(s: Framing, hs: seq<Header>)
    requires Tame(s)
    ensures Tame(WithAll(s, hs))
    decreases |hs|
  {
    hide Tame, With;
    if hs != [] {
      TameWith(s, hs[0]);
      TameAll(With(s, hs[0]), hs[1..]);
    }
  }

  lemma OwnFraming(h: Header)
    ensures F_TRANSFER_ENCODING in Own(h) <==> "transfer-encoding" <= Lowered(h.name)
    ensures F_CONTENTLENGTH in Own(h) <==> IsLength(h)
  {
    hide Chunks, HasOption, Lowered;
  }

  lemma EndNoFold(crlf: bool)
    ensures NoFold(LineEnd(crlf)) && 1 <= |LineEnd(crlf)| <= 2
  {}

  function TrailerText(b: BodyText): seq<byte>
    requires b.Chunked?
  {
    HeadersText(b.trailers) + LineEnd(b.crlf)
  }

  function TextOfBody(b: BodyText): seq<byte> {
    match b
    case Absent => []
    case Sized(bytes) => bytes
    case Chunked(cs, last, _, _) => EncodeAll(cs) + (SizeLine(last) + TrailerText(b))
  }

  // ---- the last chunk and its trailer

  lemma BareTrailerEnd(cfg: Config, f: Fields, log: seq<Event>)
    requires f.state == HeaderName(HeaderFieldStart) && F_TRAILING in f.flags && f.nread + 1 <= cfg.maxHeader
    ensures Run(cfg, Machine(f, log), [LF]) ==
            Finished(f.(state := Payload(MessageDone), nread := f.nread + 1), Push(log, ChunkComplete))
  {
    hide Run, Push, Finished, Dispatch, Transition;
    EmptyLineMoves(f.(nread := f.nread + 1), cfg.answers(f.answered));
    TrailerMoves(f.(nread := f.nread + 1, state := HeadEnd(HeadersAlmostDone)), cfg.answers(f.answered));
    var lf: seq<byte>, n := [LF], f.(nread := f.nread + 1);
    var g, h := n.(state := HeadEnd(HeadersAlmostDone)), n.(state := Payload(MessageDone));
    assert lf[1..] == [];
    var slot := Slot(log, NoMark);
    CountedStep(cfg, Machine(f, log), lf);
    Again(cfg, n, slot, LF, Move(g, [], Reexecute));
    assert ApplyAll(slot, [], LF) == slot;
    Again(cfg, g, slot, LF, Move(h, [Notify(ChunkComplete)], Reexecute));
    assert ApplyAll(slot, [Notify(ChunkComplete)], LF) == Apply(slot, Notify(ChunkComplete), LF);
    MessageDoneDispatch(cfg, h, Push(log, ChunkComplete), LF);
  }

  /** The empty line after a trailer. */
  lemma TrailerEnds(cfg: Config, f: Fields, log: seq<Event>, crlf: bool)
    requires f.state == HeaderName(HeaderFieldStart) && F_TRAILING in f.flags
    requires f.nread + |LineEnd(crlf)| <= cfg.maxHeader
    ensures Run(cfg, Machine(f, log), LineEnd(crlf)) ==
            Finished(f.(state := Payload(MessageDone), nread := f.nread + |LineEnd(crlf)|), Push(log, ChunkComplete))
  {
    hide Run, Push, Finished;
    if crlf { LastLineEnd(cfg, f, log); } else { BareTrailerEnd(cfg, f, log); }
  }

  /** The fields when a message with chunks is complete, but for those that only the header scan uses. */
  ghost predicate AfterTrailer(f: Fields, b: BodyText, g: Fields)
    requires b.Chunked?
  {
    g == Under(f, WithAll(Framing(f.flags + {F_TRAILING}, 0), b.trailers))
         .(state := Payload(MessageDone), headerState := g.headerState, index := g.index, nread := |TrailerText(b)|)
  }

  lemma {:induction false} StillTrailing(s: Framing, hs: seq<Header>)
    ensures s.flags <= WithAll(s, hs).flags
    decreases |hs|
  {
    hide ValueFlags, Digits, Lowered;
    if hs != [] { StillTrailing(With(s, hs[0]), hs[1..]); }
  }

  /** A last chunk with a legal size line, and trailer fields. */
  predicate LegalTrailer(maxHeader: nat, b: BodyText, before: bool) {
    b.Chunked? && LegalSizeLine(b.last, maxHeader) && b.last.data == [] && LegalHeaders(b.trailers, before) &&
    |TrailerText(b)| <= maxHeader
  }

  /** What the last chunk and its trailer make the application see. */
  function TrailerTold(log: seq<Event>, b: BodyText): seq<Event>
    requires b.Chunked?
  {
    Push(HeadersTold(Push(log, ChunkHeader(0)), b.trailers), ChunkComplete)
  }

  /** The last chunk, any trailer fields, and the empty line: they are reported like headers, and the message is
      complete. */
  lemma TrailersRead(cfg: Config, f: Fields, log: seq<Event>, b: BodyText) returns (g: Fields)
    requires f.state == Chunk(ChunkSizeStart) && f.nread == 0 && LegalTrailer(cfg.maxHeader, b, F_CONTENTLENGTH in f.flags)
    ensures Run(cfg, Machine(f, log), SizeLine(b.last) + TrailerText(b)) == Finished(g, TrailerTold(log, b))
    ensures AfterTrailer(f, b, g)
  {
    hide Run, Push, LegalSizeLine, LegalHeaders, Finished, HeadersText, HeadersTold, WithAll, LineEnd;
    SizeLineRead(cfg, f, log, b.last);
    var f1, log1 := AfterSizeLine(f, 0), Push(log, ChunkHeader(0));
    RunAppend(cfg, Machine(f, log), SizeLine(b.last), TrailerText(b));
    EndNoFold(b.crlf);
    var h := HeadersRead(cfg, f1, log1, b.trailers, LineEnd(b.crlf));
    StillTrailing(FramingOf(f1), b.trailers);
    TrailerEnds(cfg, h, HeadersTold(log1, b.trailers), b.crlf);
    g := h.(state := Payload(MessageDone), nread := |TrailerText(b)|);
  }

  lemma {:induction false} BodyOfHeaders(log: seq<Event>, hs: seq<Header>)
    ensures BodyOf(HeadersTold(log, hs)) == BodyOf(log)
    decreases |hs|
  {
    hide BodyOf, Push;
    if hs != [] {
      var log1 := Push(log, Data(Field, hs[0].name));
      BodyOfPush(log, Data(Field, hs[0].name));
      BodyOfPush(log1, Data(Value, Reported(hs[0].value)));
      BodyOfHeaders(Push(log1, Data(Value, Reported(hs[0].value))), hs[1..]);
    }
  }

  /** The chunked encoding of any list of chunks that are not empty, with any extensions and any trailer fields,
      delivers exactly the concatenation of the chunks, reports the trailers, and completes the message. */
  lemma TrailersDelivered(cfg: Config, f: Fields, log: seq<Event>, b: BodyText) returns (g: Fields)
    requires f.state == Chunk(ChunkSizeStart) && f.nread == 0 && LegalTrailer(cfg.maxHeader, b, F_CONTENTLENGTH in f.flags)
    requires LegalChunks(b.chunks, cfg.maxHeader)
    ensures var log1 := TrailerTold(DeliveredAll(log, b.chunks), b);
            Run(cfg, Machine(f, log), TextOfBody(b)) == Finished(g, log1) &&
            BodyOf(log1) == BodyOf(log) + Bodies.Joined(b.chunks)
    ensures AfterTrailer(f, b, g)
  {
    hide Run, Push, BodyOf, LegalSizeLine, LegalChunks, LegalHeaders, Finished, HeadersTold, HeadersText, SizeLine, WithAll;
    ChunksRead(cfg, f, log, b.chunks);
    var f1, log1 := if b.chunks == [] then f else f.(contentLength := 0), DeliveredAll(log, b.chunks);
    RunAppend(cfg, Machine(f, log), EncodeAll(b.chunks), SizeLine(b.last) + TrailerText(b));
    g := TrailersRead(cfg, f1, log1, b);
    assert Under(f1, WithAll(Framing(f1.flags + {F_TRAILING}, 0), b.trailers)) ==
           Under(f, WithAll(Framing(f.flags + {F_TRAILING}, 0), b.trailers));
    DeliveredBody(log, b.chunks);
    BodyOfPush(log1, ChunkHeader(0));
    BodyOfHeaders(Push(log1, ChunkHeader(0)), b.trailers);
    BodyOfPush(HeadersTold(Push(log1, ChunkHeader(0)), b.trailers), ChunkComplete);
  }

  // ---- bodies of any message

  /** The body goes with the head. */
  predicate LegalBody(maxHeader: nat, b: BodyText, a: After, length: nat) {
    match b
    case Absent => a.NoBody? || a.UntilEnd?
    case Sized(bytes) => (a.UntilEnd? && bytes != []) || (a.SizedBody? && |bytes| == length)
    case Chunked(cs, _, _, _) => a.ChunkedBody? && LegalChunks(cs, maxHeader) && LegalTrailer(maxHeader, b, false)
  }

  function BodyTold(log: seq<Event>, b: BodyText): seq<Event> {
    match b
    case Absent => log
    case Sized(bytes) => Push(log, Data(Body, bytes))
    case Chunked(cs, _, _, _) => TrailerTold(DeliveredAll(log, cs), b)
  }

  /** The flags when the message is complete; a trailer may still add some. */
  ghost function FlagsAfter(flags: set<Flag>, b: BodyText): set<Flag> {
    if b.Chunked? then WithAll(Framing(flags + {F_TRAILING}, 0), b.trailers).flags else flags
  }

  /** The header bytes still counted when the next message begins: those of a trailer. */
  function StillCounted(b: BodyText): nat { if b.Chunked? then |TrailerText(b)| else 0 }

  /** The fields when a message is complete, but for those that only the header scan uses. */
  ghost predicate Completed(b: BodyText, z: Fields, end: Fields) {
    && end == z.(state := end.state, headerState := end.headerState, index := end.index, flags := FlagsAfter(z.flags, b),
                 contentLength := end.contentLength, nread := StillCounted(b))
    && (b.Absent? ==> end.contentLength == z.contentLength) && (b.Sized? ==> end.contentLength == 0)
  }

  /** The body of a message after its head: delivered as it is framed, and complete unless it goes on to the end of the
      stream. */
  lemma BodyRead(cfg: Config, g: Fields, log: seq<Event>, b: BodyText, answer: Answer) returns (end: Fields)
    requires Framed(g) && !BothFramings(g.flags)
    requires var h := HeadOf(Headed(g, answer), answer != Proceed);
             LegalBody(cfg.maxHeader, b, Way(g, h), h.length)
    ensures var z, h := Headed(g, answer).(nread := 0), HeadOf(Headed(g, answer), answer != Proceed);
            var told := BodyTold(Push(log, HeadersComplete(h)), b);
            if Way(g, h).UntilEnd? then
              end == z.(state := Payload(BodyIdentityEof)) &&
              Then(cfg, HeadTo(g, answer, log), TextOfBody(b)) == Ran(Machine(end, told))
            else Then(cfg, HeadTo(g, answer, log), TextOfBody(b)) == Finished(end, told) && Completed(b, z, end)
  {
    hide Run, Push, NewMessage, LegalTrailer, LegalChunks, Bodiless, TrailerText, TrailerTold, WithAll, Way, Finished;
    var z, h := Headed(g, answer).(nread := 0), HeadOf(Headed(g, answer), answer != Proceed);
    var log1 := Push(log, HeadersComplete(h));
    HeadedFields(g, answer);
    match b {
      case Absent =>
        end := if Way(g, h).UntilEnd? then z.(state := Payload(BodyIdentityEof)) else z;
        FinishedMore(cfg, z, log1);
        RunNothing(cfg, Machine(end, log1));
      case Sized(bytes) =>
        if Way(g, h).UntilEnd? {
          end := z.(state := Payload(BodyIdentityEof));
          EndlessRead(cfg, end, log1, bytes);
        } else {
          SizedLength(g, h);
          IdentityDelivered(cfg, z.(state := Payload(BodyIdentity)), log1, bytes);
          end := z.(contentLength := 0, state := Payload(MessageDone));
        }
      case Chunked(cs, _, _, _) =>
        NoLengthFlag(g, answer);
        end := TrailersDelivered(cfg, z.(state := Chunk(ChunkSizeStart)), log1, b);
    }
  }

  lemma SizedLength(g: Fields, h: Head)
    ensures Way(g, h).SizedBody? ==> h.length > 0
  {}

  /** Chunks go with no Content-Length. */
  lemma NoLengthFlag(g: Fields, answer: Answer)
    requires Framed(g) && !BothFramings(g.flags)
    ensures Way(g, HeadOf(Headed(g, answer), answer != Proceed)).ChunkedBody? ==> F_CONTENTLENGTH !in Headed(g, answer).flags
  {}

  lemma FinishedMore(cfg: Config, f: Fields, log: seq<Event>)
    ensures Then(cfg, Finished(f, log), []) == Finished(f, log)
  {
    hide NewMessage, Push;
    RunNothing(cfg, Machine(f.(state := NewMessage(f)), Push(log, MessageComplete)));
  }

  /** A body up to the end of the stream: every byte is delivered. */
  lemma EndlessRead(cfg: Config, f: Fields, log: seq<Event>, bytes: seq<byte>)
    requires f.state == Payload(BodyIdentityEof) && bytes != []
    ensures Run(cfg, Machine(f, log), bytes) == Ran(Machine(f, Push(log, Data(Body, bytes))))
  {
    hide Run, Push;
    BodySkip(cfg, f, log, bytes, |bytes|);
    assert bytes[..|bytes|] == bytes && bytes[|bytes|..] == [];
    RunNothing(cfg, Machine(f, Push(log, Data(Body, bytes))));
  }

  /** The connection goes on: by default from version 1.1 on, else if asked for. */
  predicate Persists(major: nat, minor: nat, flags: set<Flag>) {
    if major > 0 && minor > 0 then F_CONNECTION_CLOSE !in flags else F_CONNECTION_KEEP_ALIVE in flags
  }

  /** The run over a message: it ends with the message, or leaves for another protocol. */
  function EndsAs(leaves: bool, m: Machine): RunResult { if leaves then Stopped(m, 0) else Ran(m) }

  lemma FinishedAs(f: Fields, log: seq<Event>)
    requires !NeedsEof(f)
    ensures Finished(f, log) ==
            EndsAs(f.upgrade, Machine(f.(state := if Persists(f.major, f.minor, f.flags) then StartState(f) else Between(Dead)),
                                      Push(log, MessageComplete)))
  {}
}
