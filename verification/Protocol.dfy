/** The order of the callbacks and the amount of body they deliver, as a grammar that does not know the
    parser, and the proof that every run follows it. */
module Protocol {
  import opened Bytes
  import opened Trace
  import opened ParserState
  import opened Transitions
  import opened ByteMachine
  import opened Invariants
  import opened HttpParsers
  import opened RequestLines
  import opened Upgrades
  import Execute

  /** Where an application stands in the sequence of callbacks. Counts are bytes still to come. */
  datatype Phase =
    | Idle
    | Begun
    | InLine(kind: DataKind)            // the target or the status reported
    | InName(trailer: bool)
    | InValue(trailer: bool)
    | AfterHead(head: Head)
    | InBody(toCome: nat)
    | InBodyToEof
    | InChunk(toCome: nat)
    | AfterChunk
    | InTrailer                         // the last chunk's header reported
    | AfterTrailer
    | Wrong

  /** The grammar:
        message = begin (url | status) (field value)* headers_complete [body | chunks] complete
        chunks  = (chunk_header(n) body-of-n-bytes chunk_complete)* chunk_header(0) (field value)* chunk_complete
      where the head decides: there is nothing after it if the application skips the body or switches with
      CONNECT; there are chunks if and only if F_CHUNKED is set; a body with Content-Length has exactly that
      many bytes; without any length it may go on to the end of the stream. Any data may come in slices. */
  function Next(ph: Phase, e: Event): Phase {
    match ph
    case Idle => if e == MessageBegin then Begun else Wrong
    case Begun => if e.Data? && (e.kind == Url || e.kind == Status) then InLine(e.kind) else Wrong
    case InLine(k) =>
      if e.Data? && e.kind == k then ph
      else if e.Data? && e.kind == Field then InName(false)
      else if e.HeadersComplete? then AfterHead(e.head)
      else Wrong
    case InName(trailer) =>
      if e.Data? && e.kind == Field then ph
      else if e.Data? && e.kind == Value then InValue(trailer)
      else Wrong
    case InValue(trailer) =>
      if e.Data? && e.kind == Value then ph
      else if e.Data? && e.kind == Field then InName(trailer)
      else if e.HeadersComplete? && !trailer then AfterHead(e.head)
      else if e.ChunkComplete? && trailer then AfterTrailer
      else Wrong
    case AfterHead(h) =>
      if e.MessageComplete? then
        if EndsAtHead(h) then Idle else Wrong
      else if Bodiless(h) then Wrong
      else if h.chunked then (if e.ChunkHeader? then OpenChunk(e.size) else Wrong)
      else if e.Data? && e.kind == Body then
        if h.length == ULLONG_MAX then InBodyToEof else Take(h.length, |e.bytes|, true)
      else Wrong
    case InBody(n) =>
      if e.Data? && e.kind == Body then Take(n, |e.bytes|, true)
      else if e.MessageComplete? && n == 0 then Idle
      else Wrong
    case InBodyToEof =>
      if e.Data? && e.kind == Body then ph else if e.MessageComplete? then Idle else Wrong
    case InChunk(n) =>
      if e.Data? && e.kind == Body then Take(n, |e.bytes|, false)
      else if e.ChunkComplete? && n == 0 then AfterChunk
      else Wrong
    case AfterChunk => if e.ChunkHeader? then OpenChunk(e.size) else Wrong
    case InTrailer =>
      if e.Data? && e.kind == Field then InName(true)
      else if e.ChunkComplete? then AfterTrailer
      else Wrong
    case AfterTrailer => if e.MessageComplete? then Idle else Wrong
    case Wrong => Wrong
  }

  function OpenChunk(size: nat): Phase { if size == 0 then InTrailer else InChunk(size) }

  function Take(n: nat, k: nat, identity: bool): Phase {
    if k > n then Wrong else if identity then InBody(n - k) else InChunk(n - k)
  }

  function Walk(events: seq<Event>): Phase {
    if events == [] then Idle else Next(Walk(events[..|events| - 1]), events[|events| - 1])
  }

  /** The grammar does not see how data is cut into slices. */
  lemma NextTwice(ph: Phase, k: DataKind, x: seq<byte>, y: seq<byte>)
    ensures Next(Next(ph, Data(k, x)), Data(k, y)) == Next(ph, Data(k, x + y))
  {}

  lemma WalkPush(log: seq<Event>, e: Event)
    ensures Walk(Push(log, e)) == Next(Walk(log), e)
  {
    if e.Data? && EndsIn(log, e.kind) {
      var init, last := log[..|log| - 1], log[|log| - 1];
      var glued := Data(e.kind, last.bytes + e.bytes);
      assert (init + [glued])[..|init|] == init;
      NextTwice(Walk(init), e.kind, last.bytes, e.bytes);
    } else {
      assert (log + [e])[..|log|] == log;
    }
  }

  /** So the raw callbacks and their merged form are read alike. */
  lemma {:induction false} WalkMerge(events: seq<Event>)
    ensures Walk(Merge(events)) == Walk(events)
  {
    if events != [] {
      WalkMerge(events[..|events| - 1]);
      WalkPush(Merge(events[..|events| - 1]), events[|events| - 1]);
    }
  }

  /** A prefix of a correct sequence is correct. */
  lemma {:induction false} WalkPrefix(events: seq<Event>, more: seq<Event>)
    requires Walk(events + more) != Wrong
    ensures Walk(events) != Wrong
    decreases |more|
  {
    if more == [] {
      assert events + more == events;
    } else {
      var all := events + more;
      assert all[..|all| - 1] == events + more[..|more| - 1];
      WalkPrefix(events, more[..|more| - 1]);
    }
  }

  // ---- the parser follows the grammar

  /** The phases a parser state stands for. */
  predicate Fits(f: Fields, ph: Phase) {
    (F_SKIPBODY in f.flags ==> f.state.Between? || f.state == HeadEnd(HeadersDone)) &&
    match f.state
    case Between(_) => ph == Idle
    case StatusLine(s) => ph == if s == ResStatus || s == ResLineAlmostDone then InLine(Status) else Begun
    case MethodWord(_) => ph == Begun
    case Target(_) => ph == InLine(Url)
    case Version(_) => ph == InLine(Url)
    case HeaderName(s) => if s == HeaderFieldStart then BetweenHeaders(f, ph) else ph == InName(F_TRAILING in f.flags)
    case HeaderBody(_) => ph == InValue(F_TRAILING in f.flags)
    case HeadEnd(s) =>
      if s == HeadersAlmostDone then BetweenHeaders(f, ph)
      else ph == AfterHead(HeadOf(f, F_SKIPBODY in f.flags))
    case Chunk(s) =>
      (match s
       case ChunkData => ph == InChunk(f.contentLength)
       case ChunkDataAlmostDone => ph == InChunk(0)
       case ChunkDataDone => ph == InChunk(0)
       case _ => ph == AfterChunk || (ph.AfterHead? && ph.head.chunked && !Bodiless(ph.head)))
    case Payload(s) =>
      (match s
       case BodyIdentity => ph == InBody(f.contentLength) || BeforeBody(ph, f.contentLength)
       case BodyIdentityEof => ph == InBodyToEof || BeforeBody(ph, ULLONG_MAX)
       case MessageDone => ph == InBody(0) || ph == AfterTrailer)
  }

  predicate BeforeBody(ph: Phase, length: nat) {
    ph.AfterHead? && !Bodiless(ph.head) && !ph.head.chunked && ph.head.length == length
  }

  predicate BetweenHeaders(f: Fields, ph: Phase) {
    if F_TRAILING in f.flags then ph == InTrailer || ph == InValue(true)
    else ph == InLine(Url) || ph == InLine(Status) || ph == InValue(false)
  }

  /** A phase and the live mark, followed through the effects of one pass of the switch. */
  datatype Place = Place(phase: Phase, mark: Pending)

  function Tread(w: Place, e: Effect, ch: byte): Place {
    match e
    case Mark(k) => if w.mark == NoMark then Place(Next(w.phase, Data(k, [])), Marked(k)) else w
    case Flush(k) => if w.mark == Marked(k) then w.(mark := NoMark) else w
    case FlushThrough(k) => if w.mark == Marked(k) then Place(Next(w.phase, Data(k, [ch])), NoMark) else w
    case Notify(event) => w.(phase := Next(w.phase, event))
  }

  function TreadAll(w: Place, effects: seq<Effect>, ch: byte): Place {
    if |effects| == 0 then w
    else if |effects| == 1 then Tread(w, effects[0], ch)
    else Tread(Tread(w, effects[0], ch), effects[1], ch)
  }

  /** The phase at the end of the byte. */
  function Arrive(w: Place, ch: byte): Phase {
    match w.mark
    case NoMark => w.phase
    case Marked(k) => Next(w.phase, Data(k, [ch]))
  }

  predicate Follows(f: Fields, ph: Phase, m: Move, ch: byte) {
    var w := TreadAll(Place(ph, ResumeMark(f.state)), m.effects, ch);
    m.control.Fail? || Fits(m.f, if m.control == Advance then Arrive(w, ch) else w.phase)
  }

  lemma LinesFollow(f: Fields, ph: Phase, ch: byte)
    requires Consistent(f) && Fits(f, ph)
    ensures f.state.Between? ==> Follows(f, ph, OnBetween(f, f.state.between, ch), ch)
    ensures f.state.Version? ==> Follows(f, ph, OnVersion(f, f.state.version, ch), ch)
  {
    hide FirstGuess;
  }

  lemma StatusFollows(f: Fields, ph: Phase, ch: byte)
    requires Consistent(f) && Fits(f, ph)
    ensures f.state.StatusLine? ==> Follows(f, ph, OnStatusLine(f, f.state.res, ch), ch)
  {}

  lemma RequestsFollow(f: Fields, ph: Phase, ch: byte)
    requires Consistent(f) && Fits(f, ph)
    ensures f.state == MethodWord(ReqMethod) ==> Follows(f, ph, OnMethod(f, ch), ch)
    ensures f.state == MethodWord(ReqSpacesBeforeUrl) ==> Follows(f, ph, OnSpacesBeforeUrl(f, ch), ch)
    ensures f.state.Target? ==> Follows(f, ph, OnTarget(f, f.state.url, ch), ch)
  {
    hide MethodName, BetterGuess;
  }

  lemma NameStartFollows(f: Fields, ph: Phase, ch: byte)
    requires Consistent(f) && Fits(f, ph) && f.state == HeaderName(HeaderFieldStart)
    ensures Follows(f, ph, OnHeaderFieldStart(f, ch), ch)
  {
    hide FirstHeaderState, Token;
  }

  lemma EmptyValueFollows(f: Fields, ph: Phase, ch: byte)
    requires Consistent(f) && Fits(f, ph) && f.state == HeaderName(HeaderValueDiscardLws)
    ensures Follows(f, ph, OnDiscardLws(f, ch), ch)
  {
    hide EndOfHeader;
    EndOfHeaderFits(f.flags, f.headerState);
  }

  lemma InsideNameFollows(f: Fields, ph: Phase, ch: byte)
    requires Consistent(f) && Fits(f, ph) && f.state == HeaderName(HeaderField)
    ensures Follows(f, ph, OnHeaderField(f, ch), ch)
  {
    hide NameByte, Token;
    if f.headerState.Named? { NameByteFits(f, f.headerState.n, Token(ch)); }
  }

  lemma ValueStartFollows(f: Fields, ph: Phase, ch: byte)
    requires Consistent(f) && Fits(f, ph)
    requires f.state == HeaderName(HeaderValueDiscardWs) || f.state == HeaderBody(HeaderValueStart)
    ensures Follows(f, ph, OnValueStart(f, ch), ch)
  {
    hide FirstValueState;
  }

  lemma NamesFollow(f: Fields, ph: Phase, ch: byte)
    requires Consistent(f) && Fits(f, ph) && f.state.HeaderName?
    ensures Follows(f, ph, OnHeaderName(f, f.state.name, ch), ch)
  {
    hide OnValueStart, OnHeaderFieldStart, OnDiscardLws, OnHeaderField;
    if f.state == HeaderName(HeaderValueDiscardWs) { ValueStartFollows(f, ph, ch); }
    if f.state == HeaderName(HeaderFieldStart) { NameStartFollows(f, ph, ch); }
    if f.state == HeaderName(HeaderValueDiscardLws) { EmptyValueFollows(f, ph, ch); }
    if f.state == HeaderName(HeaderField) { InsideNameFollows(f, ph, ch); }
  }

  lemma InsideValueFollows(f: Fields, ph: Phase, ch: byte)
    requires Consistent(f) && Fits(f, ph) && f.state == HeaderBody(HeaderValue)
    ensures Follows(f, ph, OnHeaderValue(f, ch), ch)
  {
    hide EncodingByte, ConnectionByte, IsHeaderChar;
    match f.headerState
    case Encoding(e) => EncodingByteFits(f, e, ch);
    case Connecting(c) => ConnectionByteFits(f, c, ch);
    case _ =>
  }

  lemma ValuesFollow(f: Fields, ph: Phase, ch: byte)
    requires Consistent(f) && Fits(f, ph) && f.state.HeaderBody?
    ensures Follows(f, ph, OnHeaderBody(f, f.state.value, ch), ch)
  {
    hide OnValueStart, EndOfHeader, OnHeaderValue;
    if f.state == HeaderBody(HeaderValueStart) { ValueStartFollows(f, ph, ch); }
    EndOfHeaderFits(f.flags, f.headerState);
    if f.state == HeaderBody(HeaderValue) { InsideValueFollows(f, ph, ch); }
  }

  lemma HeadEndFollows(f: Fields, ph: Phase, ch: byte, answer: Answer)
    requires Consistent(f) && Fits(f, ph)
    ensures f.state == HeadEnd(HeadersAlmostDone) ==> Follows(f, ph, OnHeadersAlmostDone(f, ch, answer), ch)
    ensures f.state == HeadEnd(HeadersDone) ==> Follows(f, ph, OnHeadersDone(f, ch), ch)
  {}

  lemma ChunksFollow(f: Fields, ph: Phase, ch: byte)
    requires Consistent(f) && Fits(f, ph)
    ensures f.state.Chunk? ==> Follows(f, ph, OnChunk(f, f.state.chunk, ch), ch)
  {
    hide Unhex;
  }

  lemma PayloadFollows(f: Fields, ph: Phase, ch: byte)
    requires Consistent(f) && Fits(f, ph)
    ensures f.state.Payload? ==> Follows(f, ph, OnPayload(f, f.state.payload), ch)
  {
    hide NeedsEof;
  }

  lemma TransitionFollows(f: Fields, ph: Phase, ch: byte, answer: Answer)
    requires Consistent(f) && Fits(f, ph)
    ensures Follows(f, ph, Transition(f, ch, answer), ch)
  {
    hide Consistent, Fits, Follows, OnBetween, OnStatusLine, OnMethod, OnSpacesBeforeUrl, OnTarget, OnVersion,
      OnHeaderName, OnHeaderBody, OnHeadersAlmostDone, OnHeadersDone, OnChunk, OnPayload;
    LinesFollow(f, ph, ch);
    StatusFollows(f, ph, ch);
    RequestsFollow(f, ph, ch);
    HeadEndFollows(f, ph, ch, answer);
    ChunksFollow(f, ph, ch);
    PayloadFollows(f, ph, ch);
    if f.state.HeaderName? { NamesFollow(f, ph, ch); }
    if f.state.HeaderBody? { ValuesFollow(f, ph, ch); }
  }

  // ---- whole runs

  /** The parser keeps its invariant and its callbacks fit its state. */
  predicate Lawful(cfg: Config, m: Machine) {
    Inv(cfg, m) && Fits(m.f, Walk(m.log))
  }

  predicate LawfulStep(cfg: Config, r: StepResult) {
    match r
    case Stepped(m) => Lawful(cfg, m)
    case Exited(m) => Lawful(cfg, m)
    case Broken(_, log) => Walk(log) != Wrong
  }

  lemma WalkApply(s: Slot, e: Effect, ch: byte)
    ensures var t := Apply(s, e, ch);
            Place(Walk(t.log), t.mark) == Tread(Place(Walk(s.log), s.mark), e, ch)
  {
    hide Push, Next, Walk;
    match e
    case Mark(k) => WalkPush(s.log, Data(k, []));
    case Flush(_) =>
    case FlushThrough(k) => WalkPush(s.log, Data(k, [ch]));
    case Notify(event) => WalkPush(s.log, event);
  }

  lemma WalkApplyAll(s: Slot, effects: seq<Effect>, ch: byte)
    requires |effects| <= 2
    ensures var t := ApplyAll(s, effects, ch);
            Place(Walk(t.log), t.mark) == TreadAll(Place(Walk(s.log), s.mark), effects, ch)
  {
    hide Walk, Tread, Apply;
    if |effects| == 0 {
      assert effects == [];
    } else {
      var t := Apply(s, effects[0], ch);
      WalkApply(s, effects[0], ch);
      if |effects| == 1 {
        assert effects[1..] == [];
        assert ApplyAll(t, effects[1..], ch) == t;
      } else {
        assert effects[1..] == [effects[1]] && effects[1..][1..] == [];
        WalkApply(t, effects[1], ch);
        assert ApplyAll(t, effects[1..], ch) == Apply(t, effects[1], ch);
      }
    }
  }

  lemma WalkEnd(s: Slot, ch: byte)
    ensures Walk(EndOfBuffer(s, ch)) == Arrive(Place(Walk(s.log), s.mark), ch)
  {
    hide Push, Next, Walk;
    match s.mark
    case NoMark =>
    case Marked(k) => WalkPush(s.log, Data(k, [ch]));
  }

  lemma {:induction false} DispatchLawful(cfg: Config, f: Fields, s: Slot, ch: byte)
    requires Consistent(f) && f.nread <= cfg.maxHeader
    requires s.mark == ResumeMark(f.state) && Resumable(s.log, s.mark) && Fits(f, Walk(s.log))
    ensures LawfulStep(cfg, Dispatch(cfg, f, s, ch))
    decreases Rank(f.state)
  {
    hide Transition, Consistent, Orderly, ResumeMark, Rank, Passing, Fits, Walk, EndOfBuffer, ApplyAll;
    DispatchInv(cfg, f, s, ch);
    var answer := cfg.answers(f.answered);
    var m := Transition(f, ch, answer);
    TransitionKeeps(f, ch, answer);
    TransitionOrderly(f, ch, answer);
    RankFalls(f, ch, answer);
    TransitionFollows(f, Walk(s.log), ch, answer);
    NeverWrong(f, Walk(s.log));
    if !m.control.Fail? {
      ApplyOrderly(f.state, s, m, ch);
      FewEffects(f.state, m);
      WalkApplyAll(s, m.effects, ch);
      WalkEnd(ApplyAll(s, m.effects, ch), ch);
      if m.control == Reexecute {
        DispatchLawful(cfg, m.f, ApplyAll(s, m.effects, ch), ch);
      }
    }
  }

  lemma FewEffects(s: State, m: Move)
    requires Orderly(s, m) && !m.control.Fail?
    ensures |m.effects| <= 2
  {}

  lemma CountFits(f: Fields, ph: Phase, n: nat)
    requires Fits(f, ph)
    ensures Fits(f.(nread := n), ph)
  {}

  lemma ByteStepLawful(cfg: Config, m: Machine, ch: byte)
    requires Lawful(cfg, m)
    ensures LawfulStep(cfg, ByteStep(cfg, m, ch))
  {
    hide Dispatch, Consistent, ResumeMark, Passing, ParsingHeader, Fits, Walk;
    var slot := Slot(m.log, ResumeMark(m.f.state));
    NeverWrong(m.f, Walk(m.log));
    if !ParsingHeader(m.f.state) {
      DispatchLawful(cfg, m.f, slot, ch);
    } else if m.f.nread + 1 <= cfg.maxHeader {
      CountKeeps(m.f, m.f.nread + 1);
      CountFits(m.f, Walk(m.log), m.f.nread + 1);
      DispatchLawful(cfg, m.f.(nread := m.f.nread + 1), slot, ch);
    }
  }

  /** The callback protocol holds in every reachable state, and of the callbacks before an error. */
  lemma {:induction false} RunLawful(cfg: Config, m: Machine, stream: seq<byte>)
    requires Lawful(cfg, m)
    ensures match Run(cfg, m, stream)
            case Ran(end) => Lawful(cfg, end)
            case Stopped(end, _) => Lawful(cfg, end)
            case Failed(_, _, log) => Walk(log) != Wrong
    decreases |stream|
  {
    hide ByteStep, Lawful, Walk;
    if stream != [] {
      ByteStepLawful(cfg, m, stream[0]);
      match ByteStep(cfg, m, stream[0])
      case Stepped(m') => RunLawful(cfg, m', stream[1..]);
      case Exited(_) =>
      case Broken(_, _) =>
    }
  }

  lemma InitialLawful(cfg: Config, kind: Kind)
    ensures Lawful(cfg, Machine(Initial(kind), []))
  {}

  lemma NeverWrong(f: Fields, ph: Phase)
    requires Fits(f, ph)
    ensures ph != Wrong
  {}

  /** What a failing call has told the application is lawful too: a slice less, or more of a header value. */
  lemma FailureLawful(target: RunResult, e: Errno, left: nat, told: seq<Event>)
    requires Execute.FailsAs(target, e, left, told) && Walk(target.log) != Wrong
    ensures Walk(told) != Wrong
  {
    hide Push, Walk;
    var log := target.log;
    if log != told {
      if Reports(log, told) {
        var k: DataKind, bytes: seq<byte> :| log == Push(told, Data(k, bytes));
        WalkPush(told, Data(k, bytes));
      } else {
        var more: seq<byte> :| told == Push(log, Data(Value, more));
        WalkPush(log, Data(Value, more));
        InsideValue(log);
      }
    }
  }

  lemma InsideValue(log: seq<Event>)
    requires EndsIn(log, Value) && Walk(log) != Wrong
    ensures Walk(log).InValue?
  {}

  /** The callbacks of a parser so far are lawful, and while there is no error they stand where it stands. */
  ghost predicate Following(parser: HttpParser)
    reads parser
  {
    parser.Valid() && Walk(parser.events) != Wrong &&
    (parser.errno == OK ==> Fits(parser.Snapshot(), Walk(parser.events)))
  }

  /** Any call keeps the callbacks lawful, also one that fails for whatever reason and one after the parser
      has left for another protocol. The end of the stream is accepted exactly where the grammar lets a
      message end, and then no message is cut short. */
  method ExecuteLawful(parser: HttpParser, data: seq<byte>) returns (n: nat)
    requires Following(parser) && |data| < Execute.SIZE_LIMIT && parser.cfg.maxHeader < Execute.SIZE_LIMIT
    modifies parser
    ensures parser.Valid() && Walk(parser.events) != Wrong
    ensures data != [] ==> Following(parser)
    ensures old(parser.errno) != OK ==> parser.errno == old(parser.errno)
    ensures data == [] && old(parser.errno) == OK ==>
              var ph := old(Walk(parser.events));
              (parser.errno == OK <==> ph == Idle || Next(ph, MessageComplete) == Idle) &&
              (parser.errno == OK ==> Walk(parser.events) == Idle)
  {
    hide Run, Inv, Merge, Walk, Reports, Overreports, Next, Fits;
    WalkMerge(parser.events);
    ghost var m, was, e := parser.Abstract(), parser.events, parser.errno;
    if parser.errno == OK {
      if data == [] {
        EndOfStream(parser.cfg, m, Walk(was));
        WalkSnoc(was, MessageComplete);
        assert was + [] == was;
      } else {
        RunLawful(parser.cfg, m, data);
      }
    }
    n := parser.Execute(data);
    WalkMerge(parser.events);
    if e == OK && data != [] {
      match Run(parser.cfg, m, data) {
        case Ran(_) => NeverWrong(parser.Snapshot(), Walk(parser.events));
        case Stopped(_, _) => NeverWrong(parser.Snapshot(), Walk(parser.events));
        case Failed(_, _, _) => FailureLawful(Run(parser.cfg, m, data), parser.errno, |data| - n, Merge(parser.events));
      }
    }
  }

  lemma WalkSnoc(events: seq<Event>, e: Event)
    ensures Walk(events + [e]) == Next(Walk(events), e)
  {
    assert (events + [e])[..|events|] == events;
  }

  /** Where the parser lets the stream end. */
  lemma EndOfStream(cfg: Config, m: Machine, ph: Phase)
    requires Inv(cfg, m) && Fits(m.f, ph)
    ensures m.f.state.Between? <==> ph == Idle
    ensures m.f.state == Payload(BodyIdentityEof) <==> ph != Idle && Next(ph, MessageComplete) == Idle
  {}

  /** A new parser, fed any stream in any buffers that are not empty and then its end: the callbacks follow
      the grammar, and if no error is left every message begun is complete. */
  method ExecuteByProtocol(kind: Kind, cfg: Config, slices: seq<seq<byte>>) returns (parser: HttpParser)
    requires cfg.maxHeader < Execute.SIZE_LIMIT
    requires forall i :: 0 <= i < |slices| ==> 0 < |slices[i]| < Execute.SIZE_LIMIT
    ensures Walk(parser.events) != Wrong
    ensures parser.errno == OK ==> Walk(parser.events) == Idle
  {
    hide Inv, Merge, Walk, Fits;
    parser := new HttpParser(kind, cfg);
    InitialLawful(cfg, kind);
    WalkMerge(parser.events);
    NeverWrong(parser.Snapshot(), Walk(parser.events));
    var i := 0;
    while i < |slices|
      invariant i <= |slices| && Following(parser) && parser.cfg == cfg
    {
      var _ := ExecuteLawful(parser, slices[i]);
      i := i + 1;
    }
    var _ := ExecuteLawful(parser, []);
  }

  // ---- `upgrade` in the middle of a message

  /** A body or its trailer is being read. */
  predicate ReadsBody(f: Fields) {
    f.state.Chunk? || f.state.Payload? || f.state == HeadEnd(HeadersDone) ||
    (F_TRAILING in f.flags && (f.state.HeaderName? || f.state.HeaderBody? || f.state.HeadEnd?))
  }

  predicate AfterItsHead(ph: Phase) {
    ph.AfterHead? || ph.InBody? || ph.InBodyToEof? || ph.InChunk? || ph.AfterChunk? || ph.InTrailer? ||
    ph.AfterTrailer? || (ph.InName? && ph.trailer) || (ph.InValue? && ph.trailer)
  }

  lemma {:induction false} AskedPhase(log: seq<Event>)
    requires Walk(log) != Wrong && Asked(log)
    ensures AfterItsHead(Walk(log))
    decreases |log|
  {
    if AskedAfter(false, log[|log| - 1]) {
    } else {
      AskedPhase(log[..|log| - 1]);
    }
  }

  /** Where `upgrade` says too early that the parser has left: while the body of the message is read. */
  lemma UpgradeMidBody(cfg: Config, kind: Kind, stream: seq<byte>)
    ensures match Run(cfg, Machine(Initial(kind), []), stream)
            case Ran(m) => (m.f.upgrade <==> Asked(m.log)) && (m.f.upgrade ==> ReadsBody(m.f))
            case Stopped(m, _) => m.f.upgrade && m.f.state.Between?
            case Failed(_, _, _) => true
  {
    hide Run, Walk, Asked, Fits, Inv;
    var m := Machine(Initial(kind), []);
    InitialLawful(cfg, kind);
    InitialAsks(kind);
    RunLawful(cfg, m, stream);
    UpgradeExact(cfg, m, stream);
    UpgradeShows(cfg, m, stream);
    match Run(cfg, m, stream)
    case Ran(n) => if Asked(n.log) { AskedFits(n); }
    case _ =>
  }

  lemma AskedFits(m: Machine)
    requires Fits(m.f, Walk(m.log)) && Asked(m.log)
    ensures ReadsBody(m.f)
  {
    hide Walk, Asked;
    NeverWrong(m.f, Walk(m.log));
    AskedPhase(m.log);
  }

  // ---- after the last message

  /** Once dead, the parser reports nothing any more: it skips line ends and fails on anything else. */
  lemma {:induction false} DeadIsSilent(cfg: Config, m: Machine, stream: seq<byte>)
    requires m.f.state == Between(Dead)
    ensures match Run(cfg, m, stream)
            case Ran(end) => BlankLines(stream) && end.log == m.log && end.f.state == Between(Dead)
            case Stopped(_, _) => false
            case Failed(e, _, log) =>
              log == m.log && if e == ClosedConnection then !BlankLines(stream)
                              else e == HeaderOverflow && m.f.nread + |stream| > cfg.maxHeader
    decreases |stream|
  {
    if stream != [] {
      DeadStep(cfg, m, stream[0]);
      hide ByteStep;
      match ByteStep(cfg, m, stream[0])
      case Stepped(m') => DeadIsSilent(cfg, m', stream[1..]);
      case Exited(_) =>
      case Broken(_, _) =>
    }
  }

  lemma DeadStep(cfg: Config, m: Machine, ch: byte)
    requires m.f.state == Between(Dead)
    ensures match ByteStep(cfg, m, ch)
            case Stepped(n) =>
              n.log == m.log && n.f.state == Between(Dead) && n.f.nread == m.f.nread + 1 && (ch == CR || ch == LF)
            case Exited(_) => false
            case Broken(e, log) =>
              log == m.log && if e == ClosedConnection then ch != CR && ch != LF
                              else e == HeaderOverflow && m.f.nread + 1 > cfg.maxHeader
  {}
}
