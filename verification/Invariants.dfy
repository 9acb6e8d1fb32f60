/** What holds in every reachable state of the parser. */
module Invariants {
  import opened Bytes
  import opened Trace
  import opened ParserState
  import opened UrlAutomaton
  import opened Transitions
  import opened ByteMachine

  /** Largest Content-Length and largest chunk size the overflow tests let through. */
  const LENGTH_LIMIT: nat := 18446744073709551609
  const CHUNK_LIMIT: nat := 18446744073709551599

  /** States that only a `goto reexecute` enters: no buffer ends there. */
  predicate Passing(s: State) {
    match s
    case HeaderBody(v) => v == HeaderValueStart
    case HeadEnd(e) => e == HeadersDone
    case Payload(p) => p == MessageDone
    case Target(u) => u == UrlDead || u == UrlStart  // states of the URL automaton only
    case _ => false
  }

  /** A start line is read with fresh framing data. */
  predicate StartLineFits(f: Fields) {
    F_CONTENTLENGTH !in f.flags && F_TRAILING !in f.flags && f.contentLength == ULLONG_MAX
  }

  /** Content-Length as the headers so far leave it; in a trailer it starts from the last chunk's 0. */
  predicate LengthFits(f: Fields) {
    && f.kind != Both
    && if F_CONTENTLENGTH in f.flags then f.contentLength <= LENGTH_LIMIT
       else f.contentLength == if F_TRAILING in f.flags then 0 else ULLONG_MAX
  }

  /** `header_state` while a name is read: a name class, so the scan's last branch is dead. */
  predicate NameFits(f: Fields) {
    match f.headerState
    case General => true
    case Named(n) => n == TransferEncoding ==> F_TRANSFER_ENCODING in f.flags
    case _ => false
  }

  /** `header_state` while a value is read: no name class, so both "Shouldn't get here" branches are dead. */
  predicate ValueFits(f: Fields) {
    match f.headerState
    case General => true
    case Named(_) => false
    case Length(_) => F_CONTENTLENGTH in f.flags
    case Encoding(_) => F_TRANSFER_ENCODING in f.flags
    case Connecting(_) => true
  }

  predicate ChunkFits(f: Fields, s: ChunkState) {
    && f.kind != Both && F_CHUNKED in f.flags && F_CONTENTLENGTH !in f.flags && F_TRAILING !in f.flags
    && match s
       case ChunkSizeStart => true
       case ChunkData => 0 < f.contentLength <= CHUNK_LIMIT
       case ChunkDataAlmostDone => f.contentLength == 0
       case ChunkDataDone => f.contentLength == 0
       case _ => f.contentLength <= CHUNK_LIMIT
  }

  predicate PayloadFits(f: Fields, s: PayloadState) {
    match s
    case BodyIdentity =>
      0 < f.contentLength <= LENGTH_LIMIT && F_CONTENTLENGTH in f.flags &&
      F_CHUNKED !in f.flags && F_TRANSFER_ENCODING !in f.flags && f.kind != Both
    case BodyIdentityEof => f.kind == Response && F_CHUNKED !in f.flags
    case MessageDone => f.kind != Both
  }

  predicate PartFits(f: Fields) {
    match f.state
    case Between(s) =>
      (match s
       case Dead => f.kind != Both
       case StartReqOrRes => f.kind == Both
       case StartReq => f.kind == Request
       case StartRes => f.kind == Response)
    case StatusLine(s) => StartLineFits(f) && f.kind == if s == ResOrRespH then Both else Response
    case MethodWord(_) => StartLineFits(f) && f.kind == Request
    case Target(_) => StartLineFits(f) && f.kind == Request
    case Version(_) => StartLineFits(f) && f.kind == Request
    case HeaderName(s) => LengthFits(f) && (s == HeaderFieldStart || NameFits(f))
    case HeaderBody(_) => LengthFits(f) && ValueFits(f)
    case HeadEnd(s) =>
      LengthFits(f) &&
      (s == HeadersDone ==> F_TRAILING !in f.flags && !(F_TRANSFER_ENCODING in f.flags && F_CONTENTLENGTH in f.flags))
    case Chunk(s) => ChunkFits(f, s)
    case Payload(s) => PayloadFits(f, s)
  }

  /** The invariant of the fields. */
  predicate Consistent(f: Fields) {
    && f.contentLength <= ULLONG_MAX && f.status <= 999 && f.major <= 9 && f.minor <= 9
    && (F_CHUNKED in f.flags ==> F_TRANSFER_ENCODING in f.flags)
    && (F_TRAILING in f.flags ==> F_CHUNKED in f.flags)
    && PartFits(f)
  }

  /** What one pass through the switch leaves behind: consistent fields, no buffer ending in a passing
      state, a fresh count before each chunk size. */
  predicate Keeps(f: Fields, m: Move) {
    !m.control.Fail? ==>
      && Consistent(m.f)
      && (!m.control.Reexecute? ==> !Passing(m.f.state))
      && m.f.nread <= f.nread
      && (m.f.state == Chunk(ChunkSizeStart) ==> m.f.nread == 0)
  }

  lemma BetweenKeeps(f: Fields, s: BetweenState, ch: byte)
    requires Consistent(f) && f.state == Between(s)
    ensures Keeps(f, OnBetween(f, s, ch))
  {}

  lemma StatusLineKeeps(f: Fields, s: ResState, ch: byte)
    requires Consistent(f) && f.state == StatusLine(s)
    ensures Keeps(f, OnStatusLine(f, s, ch))
  {}

  lemma MethodWordKeeps(f: Fields, s: WordState, ch: byte)
    requires Consistent(f) && f.state == MethodWord(s)
    ensures Keeps(f, OnMethod(f, ch)) && Keeps(f, OnSpacesBeforeUrl(f, ch))
  {
    hide MethodName, BetterGuess;
  }

  lemma TargetKeeps(f: Fields, s: UrlState, ch: byte)
    requires Consistent(f) && f.state == Target(s)
    ensures Keeps(f, OnTarget(f, s, ch))
  {}

  lemma VersionKeeps(f: Fields, s: VersionState, ch: byte)
    requires Consistent(f) && f.state == Version(s)
    ensures Keeps(f, OnVersion(f, s, ch))
  {}

  lemma MatchedRange(h: HeaderState, i: nat, c: byte, hit: HeaderState, miss: HeaderState)
    ensures var r := Matched(h, i, c, hit, miss); r == h || r == hit || r == miss
  {
    hide Keyword;
  }

  /** The flags that decide the framing, `F_TRANSFER_ENCODING` aside. */
  predicate SameFraming(a: set<Flag>, b: set<Flag>) {
    (F_CHUNKED in a <==> F_CHUNKED in b) && (F_TRAILING in a <==> F_TRAILING in b) &&
    (F_CONTENTLENGTH in a <==> F_CONTENTLENGTH in b) && (F_SKIPBODY in a <==> F_SKIPBODY in b)
  }

  /** Matching a name changes `index`, `header_state` and, for Transfer-Encoding, its flag. */
  lemma NameByteFits(f: Fields, n: NameClass, c: byte)
    requires f.headerState == Named(n) && NameFits(f)
    ensures var g := NameByte(f, n, c);
            NameFits(g) && (F_TRANSFER_ENCODING in f.flags ==> F_TRANSFER_ENCODING in g.flags) &&
            g == f.(index := g.index, headerState := g.headerState,
                    flags := g.flags) && SameFraming(f.flags, g.flags)
  {
    hide Matched;
    var h, i := f.headerState, f.index + 1;
    MatchedRange(h, i, c, Named(Connection), General);
    MatchedRange(h, i, c, Named(ContentLength), General);
    MatchedRange(h, i, c, Named(TransferEncoding), General);
    MatchedRange(h, i, c, Named(Upgrade), General);
  }

  lemma FieldByteKeeps(f: Fields, ch: byte)
    requires Consistent(f) && f.state == HeaderName(HeaderField)
    ensures Consistent(FieldByte(f, ch)) && FieldByte(f, ch).state == f.state && FieldByte(f, ch).nread == f.nread
  {
    hide NameByte, Token;
    if f.headerState.Named? { NameByteFits(f, f.headerState.n, Token(ch)); }
  }

  lemma ValueStartKeeps(f: Fields, ch: byte)
    requires Consistent(f)
    requires f.state == HeaderBody(HeaderValueStart) || f.state == HeaderName(HeaderValueDiscardWs)
    ensures Keeps(f, OnValueStart(f, ch))
  {}

  lemma HeaderNameKeeps(f: Fields, s: NameState, ch: byte)
    requires Consistent(f) && f.state == HeaderName(s)
    ensures Keeps(f, OnHeaderName(f, s, ch))
  {
    hide FieldByte, OnValueStart;
    if s == HeaderField { FieldByteKeeps(f, ch); }
    if s == HeaderValueDiscardWs { ValueStartKeeps(f, ch); }
  }

  /** Matching a value changes `index`, `header_state` and the Connection flags, inside its own class. */
  predicate SameClass(f: Fields, g: Fields) {
    && g == f.(index := g.index, headerState := g.headerState, flags := g.flags)
    && SameFraming(f.flags, g.flags) && (F_TRANSFER_ENCODING in f.flags ==> F_TRANSFER_ENCODING in g.flags)
    && (g.headerState == General ||
        (f.headerState.Encoding? && g.headerState.Encoding?) ||
        (f.headerState.Connecting? && g.headerState.Connecting?))
  }

  lemma EncodingByteFits(f: Fields, e: EncodingClass, ch: byte)
    requires f.headerState == Encoding(e)
    ensures SameClass(f, EncodingByte(f, e, ch))
  {
    hide Matched, Lower, Token;
    MatchedRange(f.headerState, f.index + 1, Lower(ch), Encoding(EncodingChunked), Encoding(EncodingToken));
  }

  lemma ConnectionByteFits(f: Fields, s: ConnectionClass, ch: byte)
    requires f.headerState == Connecting(s)
    ensures SameClass(f, ConnectionByte(f, s, ch))
  {
    hide Matched, Lower, Token;
    var h, i, c := f.headerState, f.index + 1, Lower(ch);
    MatchedRange(h, i, c, Connecting(ConnectionKeepAlive), Connecting(ConnectionToken));
    MatchedRange(h, i, c, Connecting(ConnectionClose), Connecting(ConnectionToken));
    MatchedRange(h, i, c, Connecting(ConnectionUpgrade), Connecting(ConnectionToken));
  }

  lemma ValueByteKeeps(f: Fields, ch: byte)
    requires Consistent(f) && f.state == HeaderBody(HeaderValue)
    ensures match ValueByte(f, ch)
            case ValueOk(g) => Consistent(g) && g.state == f.state && g.nread == f.nread
            case ValueErr(_) => true
  {
    hide EncodingByte, ConnectionByte;
    match f.headerState
    case Encoding(e) => EncodingByteFits(f, e, ch);
    case Connecting(c) => ConnectionByteFits(f, c, ch);
    case _ =>
  }

  lemma HeaderValueKeeps(f: Fields, ch: byte)
    requires Consistent(f) && f.state == HeaderBody(HeaderValue)
    ensures Keeps(f, OnHeaderValue(f, ch))
  {
    hide ValueByte, IsHeaderChar;
    ValueByteKeeps(f, ch);
  }

  /** Only a Transfer-Encoding ending in "chunked" sets `F_CHUNKED`; framing flags stay otherwise. */
  lemma EndOfHeaderFits(flags: set<Flag>, h: HeaderState)
    ensures var g := EndOfHeader(flags, h);
            (F_CHUNKED in g <==> F_CHUNKED in flags || h == Encoding(EncodingChunked)) &&
            SameFraming(flags + {F_CHUNKED}, g + {F_CHUNKED}) &&
            (F_TRANSFER_ENCODING in g <==> F_TRANSFER_ENCODING in flags)
  {}

  lemma AlmostDoneKeeps(f: Fields, ch: byte)
    requires Consistent(f) && f.state == HeaderBody(HeaderAlmostDone)
    ensures Keeps(f, Expect(f, ch, LF, HeaderBody(HeaderValueLws), LfExpected))
  {}

  lemma ValueLwsKeeps(f: Fields, ch: byte)
    requires Consistent(f) && f.state == HeaderBody(HeaderValueLws)
    ensures Keeps(f, OnValueLws(f, ch))
  {
    hide EndOfHeader;
    EndOfHeaderFits(f.flags, f.headerState);
  }

  lemma HeaderBodyKeeps(f: Fields, s: ValueState, ch: byte)
    requires Consistent(f) && f.state == HeaderBody(s)
    ensures Keeps(f, OnHeaderBody(f, s, ch))
  {
    hide Consistent, Keeps, Expect, OnHeaderValue, OnValueStart, OnValueLws;
    match s
    case HeaderValueStart => ValueStartKeeps(f, ch);
    case HeaderValue => HeaderValueKeeps(f, ch);
    case HeaderAlmostDone => AlmostDoneKeeps(f, ch);
    case HeaderValueLws => ValueLwsKeeps(f, ch);
  }

  lemma HeadEndKeeps(f: Fields, s: EndState, ch: byte, answer: Answer)
    requires Consistent(f) && f.state == HeadEnd(s)
    ensures s == HeadersAlmostDone ==> Keeps(f, OnHeadersAlmostDone(f, ch, answer))
    ensures s == HeadersDone ==> Keeps(f, OnHeadersDone(f, ch))
  {}

  lemma ChunkKeeps(f: Fields, s: ChunkState, ch: byte)
    requires Consistent(f) && f.state == Chunk(s)
    ensures Keeps(f, OnChunk(f, s, ch))
  {}

  lemma PayloadKeeps(f: Fields, s: PayloadState)
    requires Consistent(f) && f.state == Payload(s)
    ensures Keeps(f, OnPayload(f, s))
  {}

  lemma TransitionKeeps(f: Fields, ch: byte, answer: Answer)
    requires Consistent(f)
    ensures Keeps(f, Transition(f, ch, answer))
  {
    hide Consistent, Keeps, OnBetween, OnStatusLine, OnMethod, OnSpacesBeforeUrl, OnTarget, OnVersion,
      OnHeaderName, OnHeaderBody, OnHeadersAlmostDone, OnHeadersDone, OnChunk, OnPayload;
    match f.state
    case Between(s) => BetweenKeeps(f, s, ch);
    case StatusLine(s) => StatusLineKeeps(f, s, ch);
    case MethodWord(s) => MethodWordKeeps(f, s, ch);
    case Target(s) => TargetKeeps(f, s, ch);
    case Version(s) => VersionKeeps(f, s, ch);
    case HeaderName(s) => HeaderNameKeeps(f, s, ch);
    case HeaderBody(s) => HeaderBodyKeeps(f, s, ch);
    case HeadEnd(s) => HeadEndKeeps(f, s, ch, answer);
    case Chunk(s) => ChunkKeeps(f, s, ch);
    case Payload(s) => PayloadKeeps(f, s);
  }

  // ---- marks

  /** States that consume a slice of the buffer at a time. */
  predicate TakesBody(s: State) {
    s == Chunk(ChunkData) || s == Payload(BodyIdentity) || s == Payload(BodyIdentityEof)
  }

  predicate TakesSlices(s: State) {
    TakesBody(s) || s == HeaderName(HeaderField) || s == HeaderBody(HeaderValue)
  }

  /** Marks come and go in order: at most one is live, it belongs to the state, and nothing else is
      reported while it is live. Only a body mark may outlive its state, until the CR after the chunk. */
  predicate Orderly(s: State, m: Move) {
    var before, after := ResumeMark(s), ResumeMark(m.f.state);
    m.control.Fail? ||
    ((m.control == Reexecute ==> !TakesSlices(m.f.state)) &&
     (s == Chunk(ChunkDataAlmostDone) ==> m.effects == [Flush(Body)]) &&
     ((|m.effects| == 0 && after == before && (m.control == Advance || before == NoMark)) ||
      (|m.effects| == 1 &&
       match m.effects[0]
       case Mark(k) =>
         before == NoMark && m.control != Exit &&
         (after == Marked(k) || (k == Body && m.control == Advance && after == NoMark && TakesBody(s)))
       case Flush(k) =>
         after == NoMark && (before == Marked(k) || (before == NoMark && k == Body && s == Chunk(ChunkDataAlmostDone)))
       case Notify(event) => before == NoMark && after == NoMark && !event.Data?
       case FlushThrough(_) => false) ||
      (|m.effects| == 2 && before == NoMark && after == NoMark && m.effects[0].Mark? &&
       (m.effects[1] == Flush(m.effects[0].kind) || m.effects[1] == FlushThrough(m.effects[0].kind)))))
  }

  lemma NamesOrderly(f: Fields, ch: byte)
    ensures f.state.HeaderName? ==> Orderly(f.state, OnHeaderName(f, f.state.name, ch))
    ensures f.state.HeaderBody? ==> Orderly(f.state, OnHeaderBody(f, f.state.value, ch))
  {
    hide FieldByte, ValueByte, FirstHeaderState, FirstValueState, EndOfHeader, Token, IsHeaderChar;
    FieldByteStays(f, ch);
    ValueByteStays(f, ch);
  }

  lemma LinesOrderly(f: Fields, ch: byte)
    ensures f.state.Between? ==> Orderly(f.state, OnBetween(f, f.state.between, ch))
    ensures f.state.StatusLine? ==> Orderly(f.state, OnStatusLine(f, f.state.res, ch))
    ensures f.state.Version? ==> Orderly(f.state, OnVersion(f, f.state.version, ch))
  {
    hide FirstGuess;
  }

  lemma RequestsOrderly(f: Fields, ch: byte)
    ensures f.state == MethodWord(ReqMethod) ==> Orderly(f.state, OnMethod(f, ch))
    ensures f.state == MethodWord(ReqSpacesBeforeUrl) ==> Orderly(f.state, OnSpacesBeforeUrl(f, ch))
    ensures f.state.Target? ==> Orderly(f.state, OnTarget(f, f.state.url, ch))
  {
    hide MethodName, BetterGuess, ParseUrlChar;
  }

  lemma HeadEndOrderly(f: Fields, ch: byte, answer: Answer)
    ensures f.state == HeadEnd(HeadersAlmostDone) ==> Orderly(f.state, OnHeadersAlmostDone(f, ch, answer))
    ensures f.state == HeadEnd(HeadersDone) ==> Orderly(f.state, OnHeadersDone(f, ch))
  {
    hide NeedsEof;
  }

  lemma BodiesOrderly(f: Fields, ch: byte)
    ensures f.state.Chunk? ==> Orderly(f.state, OnChunk(f, f.state.chunk, ch))
    ensures f.state.Payload? ==> Orderly(f.state, OnPayload(f, f.state.payload))
  {
    hide Unhex;
  }

  lemma TransitionOrderly(f: Fields, ch: byte, answer: Answer)
    ensures Orderly(f.state, Transition(f, ch, answer))
  {
    hide Orderly, OnBetween, OnStatusLine, OnMethod, OnSpacesBeforeUrl, OnTarget, OnVersion,
      OnHeaderName, OnHeaderBody, OnHeadersAlmostDone, OnHeadersDone, OnChunk, OnPayload;
    NamesOrderly(f, ch);
    LinesOrderly(f, ch);
    RequestsOrderly(f, ch);
    HeadEndOrderly(f, ch, answer);
    BodiesOrderly(f, ch);
  }

  // ---- machines

  /** The invariant of the parser between two bytes. */
  predicate Inv(cfg: Config, m: Machine) {
    && Consistent(m.f) && !Passing(m.f.state) && m.f.nread <= cfg.maxHeader
    && (m.f.state == Chunk(ChunkSizeStart) ==> m.f.nread == 0)
    && Resumable(m.log, ResumeMark(m.f.state))
  }

  /** Inside a token, part of it has been reported already. */
  predicate Resumable(log: seq<Event>, mark: Pending) {
    match mark
    case NoMark => true
    case Marked(k) => EndsIn(log, k)
  }

  predicate StepInv(cfg: Config, r: StepResult) {
    match r
    case Stepped(m) => Inv(cfg, m)
    case Exited(m) => Inv(cfg, m)
    case Broken(_, _) => true
  }

  /** Effects in order leave the mark of the new state. */
  lemma ApplyOrderly(s: State, slot: Slot, m: Move, ch: byte)
    requires Orderly(s, m) && !m.control.Fail?
    requires slot.mark == ResumeMark(s) && Resumable(slot.log, slot.mark)
    ensures var t := ApplyAll(slot, m.effects, ch);
            && Resumable(t.log, t.mark)
            && (t.mark == ResumeMark(m.f.state) ||
                (t.mark == Marked(Body) && m.control == Advance && ResumeMark(m.f.state) == NoMark))
  {
    hide ResumeMark;
    if |m.effects| == 0 {
      assert m.effects == [];
    } else if |m.effects| == 1 {
      assert m.effects == [m.effects[0]];
      assert m.effects[1..] == [];
      assert ApplyAll(slot, m.effects, ch) == Apply(slot, m.effects[0], ch);
    } else {
      var t := Apply(slot, m.effects[0], ch);
      assert m.effects[1..] == [m.effects[1]];
      assert m.effects[1..][1..] == [];
      assert ApplyAll(t, m.effects[1..], ch) == Apply(t, m.effects[1], ch);
    }
  }

  lemma {:induction false} DispatchInv(cfg: Config, f: Fields, s: Slot, ch: byte)
    requires Consistent(f) && f.nread <= cfg.maxHeader
    requires s.mark == ResumeMark(f.state) && Resumable(s.log, s.mark)
    ensures StepInv(cfg, Dispatch(cfg, f, s, ch))
    decreases Rank(f.state)
  {
    hide Transition, Consistent, Orderly, ResumeMark, Rank, Passing;
    var answer := cfg.answers(f.answered);
    var m := Transition(f, ch, answer);
    TransitionKeeps(f, ch, answer);
    TransitionOrderly(f, ch, answer);
    RankFalls(f, ch, answer);
    if !m.control.Fail? {
      ApplyOrderly(f.state, s, m, ch);
      if m.control == Reexecute {
        DispatchInv(cfg, m.f, ApplyAll(s, m.effects, ch), ch);
      }
    }
  }

  /** Counting a byte leaves the fields consistent. */
  lemma CountKeeps(f: Fields, n: nat)
    requires Consistent(f)
    ensures Consistent(f.(nread := n))
  {}

  /** Every reachable state satisfies the invariant: one byte keeps it. */
  lemma ByteStepInv(cfg: Config, m: Machine, ch: byte)
    requires Inv(cfg, m)
    ensures StepInv(cfg, ByteStep(cfg, m, ch))
  {
    hide Dispatch, Consistent, ResumeMark, Passing, ParsingHeader;
    var slot := Slot(m.log, ResumeMark(m.f.state));
    if !ParsingHeader(m.f.state) {
      DispatchInv(cfg, m.f, slot, ch);
    } else if m.f.nread + 1 <= cfg.maxHeader {
      CountKeeps(m.f, m.f.nread + 1);
      DispatchInv(cfg, m.f.(nread := m.f.nread + 1), slot, ch);
    }
  }
}
