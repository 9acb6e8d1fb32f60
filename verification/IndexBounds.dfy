/** `index`, a field of five bits, over all runs: it counts the letters matched, and no word is that long. */
module IndexBounds {
  import opened Bytes
  import opened ParserState
  import opened UrlAutomaton
  import opened Transitions
  import opened ByteMachine
  import MethodWords

  /** How far a word is matched: the letter at `index` has been seen and it was not the last. */
  predicate Progress(h: HeaderState, index: nat) {
    match h
    case Named(C) => index == 0
    case Named(CO) => index == 1
    case Named(CON) => index == 2
    case Encoding(EncodingTokenStart) => index == 0
    case Connecting(ConnectionTokenStart) => index == 0
    case _ => Keyword(h) != "" ==> index + 2 <= |Keyword(h)|
  }

  predicate IndexFits(f: Fields) {
    && f.index <= 16
    && (f.state == MethodWord(ReqMethod) ==> f.index <= MethodWords.NameLength(f.verb))
    && (f.state == HeaderName(HeaderField) || f.state == HeaderBody(HeaderValue) ==> Progress(f.headerState, f.index))
  }

  predicate KeepsIndex(m: Move) { m.control.Fail? || IndexFits(m.f) }

  lemma NameProgress(f: Fields, n: NameClass, c: byte)
    requires f.headerState == Named(n) && Progress(f.headerState, f.index) && f.index <= 16
    ensures var g := NameByte(f, n, c); Progress(g.headerState, g.index) && g.index <= 16
  {}

  lemma FieldProgress(f: Fields, ch: byte)
    requires Progress(f.headerState, f.index) && f.index <= 16
    ensures var g := FieldByte(f, ch); Progress(g.headerState, g.index) && g.index <= 16
  {
    hide NameByte, Token, Progress;
    if f.headerState.Named? { NameProgress(f, f.headerState.n, Token(ch)); }
  }

  lemma ValueProgress(f: Fields, ch: byte)
    requires Progress(f.headerState, f.index) && f.index <= 16
    ensures ValueByte(f, ch).ValueOk? ==>
              var g := ValueByte(f, ch).f; Progress(g.headerState, g.index) && g.index <= 16
  {
    hide Lower, Token;
  }

  lemma LinesKeepIndex(f: Fields, ch: byte)
    requires IndexFits(f)
    ensures f.state.Between? ==> KeepsIndex(OnBetween(f, f.state.between, ch))
    ensures f.state.StatusLine? ==> KeepsIndex(OnStatusLine(f, f.state.res, ch))
  {}

  lemma TargetsKeepIndex(f: Fields, ch: byte)
    requires IndexFits(f)
    ensures f.state.Version? ==> KeepsIndex(OnVersion(f, f.state.version, ch))
    ensures f.state == MethodWord(ReqSpacesBeforeUrl) ==> KeepsIndex(OnSpacesBeforeUrl(f, ch))
    ensures f.state.Target? ==> KeepsIndex(OnTarget(f, f.state.url, ch))
  {
    hide ParseUrlChar;
  }

  lemma MethodKeepsIndex(f: Fields, ch: byte)
    requires IndexFits(f) && f.state == MethodWord(ReqMethod)
    ensures KeepsIndex(OnMethod(f, ch))
  {
    hide MethodName;
    MethodWords.NameLengths(f.verb);
  }

  lemma HeadersKeepIndex(f: Fields, ch: byte)
    requires IndexFits(f)
    ensures f.state.HeaderName? ==> KeepsIndex(OnHeaderName(f, f.state.name, ch))
    ensures f.state.HeaderBody? ==> KeepsIndex(OnHeaderBody(f, f.state.value, ch))
  {
    hide FieldByte, ValueByte, EndOfHeader, Token, IsHeaderChar;
    FieldByteStays(f, ch);
    ValueByteStays(f, ch);
    if f.state == HeaderName(HeaderField) { FieldProgress(f, ch); }
    if f.state == HeaderBody(HeaderValue) { ValueProgress(f, ch); }
  }

  lemma BodiesKeepIndex(f: Fields, ch: byte, answer: Answer)
    requires IndexFits(f)
    ensures f.state == HeadEnd(HeadersAlmostDone) ==> KeepsIndex(OnHeadersAlmostDone(f, ch, answer))
    ensures f.state == HeadEnd(HeadersDone) ==> KeepsIndex(OnHeadersDone(f, ch))
    ensures f.state.Chunk? ==> KeepsIndex(OnChunk(f, f.state.chunk, ch))
    ensures f.state.Payload? ==> KeepsIndex(OnPayload(f, f.state.payload))
  {
    hide NeedsEof, Unhex;
  }

  lemma TransitionKeepsIndex(f: Fields, ch: byte, answer: Answer)
    requires IndexFits(f)
    ensures KeepsIndex(Transition(f, ch, answer))
  {
    hide IndexFits, KeepsIndex, OnBetween, OnStatusLine, OnMethod, OnSpacesBeforeUrl, OnTarget, OnVersion,
      OnHeaderName, OnHeaderBody, OnHeadersAlmostDone, OnHeadersDone, OnChunk, OnPayload;
    LinesKeepIndex(f, ch);
    TargetsKeepIndex(f, ch);
    if f.state == MethodWord(ReqMethod) { MethodKeepsIndex(f, ch); }
    HeadersKeepIndex(f, ch);
    BodiesKeepIndex(f, ch, answer);
  }

  predicate StepKeepsIndex(r: StepResult) {
    match r
    case Stepped(m) => IndexFits(m.f)
    case Exited(m) => IndexFits(m.f)
    case Broken(_, _) => true
  }

  lemma {:induction false} DispatchKeepsIndex(cfg: Config, f: Fields, s: Slot, ch: byte)
    requires IndexFits(f)
    ensures StepKeepsIndex(Dispatch(cfg, f, s, ch))
    decreases Rank(f.state)
  {
    hide Transition, Rank, ApplyAll, IndexFits;
    var answer := cfg.answers(f.answered);
    var m := Transition(f, ch, answer);
    TransitionKeepsIndex(f, ch, answer);
    RankFalls(f, ch, answer);
    if m.control == Reexecute { DispatchKeepsIndex(cfg, m.f, ApplyAll(s, m.effects, ch), ch); }
  }

  lemma ByteStepKeepsIndex(cfg: Config, m: Machine, ch: byte)
    requires IndexFits(m.f)
    ensures StepKeepsIndex(ByteStep(cfg, m, ch))
  {
    hide Dispatch, ParsingHeader, ResumeMark;
    var slot := Slot(m.log, ResumeMark(m.f.state));
    DispatchKeepsIndex(cfg, if ParsingHeader(m.f.state) then m.f.(nread := m.f.nread + 1) else m.f, slot, ch);
  }

  lemma {:induction false} RunKeepsIndex(cfg: Config, m: Machine, stream: seq<byte>)
    requires IndexFits(m.f)
    ensures match Run(cfg, m, stream)
            case Ran(end) => IndexFits(end.f)
            case Stopped(end, _) => IndexFits(end.f)
            case Failed(_, _, _) => true
    decreases |stream|
  {
    hide ByteStep, IndexFits;
    if stream != [] {
      ByteStepKeepsIndex(cfg, m, stream[0]);
      match ByteStep(cfg, m, stream[0])
      case Stepped(m') => RunKeepsIndex(cfg, m', stream[1..]);
      case Exited(_) =>
      case Broken(_, _) =>
    }
  }

  /** In every state a new parser can reach `index` needs no more than its five bits. */
  lemma ReachableIndex(cfg: Config, kind: Kind, stream: seq<byte>)
    ensures match Run(cfg, Machine(Initial(kind), []), stream)
            case Ran(m) => m.f.index <= 16
            case Stopped(m, _) => m.f.index <= 16
            case Failed(_, _, _) => true
  {
    hide Run;
    RunKeepsIndex(cfg, Machine(Initial(kind), []), stream);
  }
}
