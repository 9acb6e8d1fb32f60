/** What `nread` counts: the bytes read in header states since the last headers_complete or chunk_header. */
module HeaderCounts {
  import opened Bytes
  import opened Trace
  import opened ParserState
  import opened Transitions
  import opened ByteMachine
  import opened Invariants

  /** The callbacks at which counting starts anew. */
  predicate Restarts(e: Event) { e.HeadersComplete? || e.ChunkHeader? }

  function Restarted(log: seq<Event>): nat {
    if log == [] then 0 else Restarted(log[..|log| - 1]) + if Restarts(log[|log| - 1]) then 1 else 0
  }

  /** Header bytes of the stream since the last restart, `count` of them before it. */
  function Tally(cfg: Config, m: Machine, stream: seq<byte>, count: nat): nat
    decreases |stream|
  {
    hide ByteStep;
    if stream == [] then count
    else match ByteStep(cfg, m, stream[0])
      case Stepped(n) =>
        Tally(cfg, n, stream[1..],
              if Restarted(n.log) > Restarted(m.log) then 0
              else if ParsingHeader(m.f.state) then count + 1
              else count)
      case Exited(n) =>
        if Restarted(n.log) > Restarted(m.log) then 0 else if ParsingHeader(m.f.state) then count + 1 else count
      case Broken(_, _) => count
  }

  lemma RestartedPush(log: seq<Event>, e: Event)
    ensures Restarted(Push(log, e)) == Restarted(log) + if Restarts(e) then 1 else 0
  {
    if e.Data? && EndsIn(log, e.kind) {
      assert Push(log, e)[..|log| - 1] == log[..|log| - 1];
    } else {
      assert (log + [e])[..|log|] == log;
    }
  }

  function EffectRestarts(e: Effect): nat { if e.Notify? && Restarts(e.event) then 1 else 0 }

  function AllRestarts(effects: seq<Effect>): nat
    decreases |effects|
  {
    if effects == [] then 0 else EffectRestarts(effects[0]) + AllRestarts(effects[1..])
  }

  lemma ApplyRestarts(s: Slot, e: Effect, ch: byte)
    ensures Restarted(Apply(s, e, ch).log) == Restarted(s.log) + EffectRestarts(e)
  {
    hide Push;
    match e
    case Mark(k) => RestartedPush(s.log, Data(k, []));
    case Flush(_) =>
    case FlushThrough(k) => RestartedPush(s.log, Data(k, [ch]));
    case Notify(event) => RestartedPush(s.log, event);
  }

  lemma {:induction false} ApplyAllRestarts(s: Slot, effects: seq<Effect>, ch: byte)
    ensures Restarted(ApplyAll(s, effects, ch).log) == Restarted(s.log) + AllRestarts(effects)
    decreases |effects|
  {
    hide Apply;
    if effects != [] {
      ApplyRestarts(s, effects[0], ch);
      ApplyAllRestarts(Apply(s, effects[0], ch), effects[1..], ch);
    }
  }

  lemma EndRestarts(s: Slot, ch: byte)
    ensures Restarted(EndOfBuffer(s, ch)) == Restarted(s.log)
  {
    hide Push;
    match s.mark
    case NoMark =>
    case Marked(k) => RestartedPush(s.log, Data(k, [ch]));
  }

  predicate InChunkData(s: State) {
    s.Chunk? && (s.chunk.ChunkData? || s.chunk.ChunkDataAlmostDone? || s.chunk.ChunkDataDone?)
  }

  /** Nothing is counted between a chunk's header and its end. */
  predicate Settled(f: Fields) { InChunkData(f.state) ==> f.nread == 0 }

  /** What one pass through the switch does to the count. */
  predicate Counts(f: Fields, m: Move) {
    var done := HeadEnd(HeadersDone);
    !m.control.Fail? && Settled(f) ==>
      && Settled(m.f)
      && (m.f.state == done ==> m.control == Reexecute && f.state != done && AllRestarts(m.effects) > 0)
      && (f.state == done ==> m.f.nread == 0 && AllRestarts(m.effects) == 0)
      && (f.state != done && m.f.state != done ==> m.f.nread == if AllRestarts(m.effects) > 0 then 0 else f.nread)
  }

  lemma NoEffects()
    ensures AllRestarts([]) == 0
  {}

  lemma OneEffect(e: Effect)
    ensures AllRestarts([e]) == EffectRestarts(e)
  {
    assert [e][1..] == [];
  }

  lemma EarlyCount(f: Fields, ch: byte)
    ensures f.state.Between? ==> Counts(f, OnBetween(f, f.state.between, ch))
    ensures f.state.StatusLine? ==> Counts(f, OnStatusLine(f, f.state.res, ch))
  {
    hide AllRestarts, FirstGuess;
    NoEffects();
    OneEffect(Notify(MessageBegin));
    OneEffect(Mark(Status));
    OneEffect(Flush(Status));
  }

  lemma RequestCount(f: Fields, ch: byte)
    ensures f.state == MethodWord(ReqMethod) ==> Counts(f, OnMethod(f, ch))
    ensures f.state == MethodWord(ReqSpacesBeforeUrl) ==> Counts(f, OnSpacesBeforeUrl(f, ch))
    ensures f.state.Target? ==> Counts(f, OnTarget(f, f.state.url, ch))
    ensures f.state.Version? ==> Counts(f, OnVersion(f, f.state.version, ch))
  {
    hide AllRestarts, MethodName, BetterGuess;
    NoEffects();
    OneEffect(Mark(Url));
    OneEffect(Flush(Url));
  }

  lemma HeaderTextCount(f: Fields, ch: byte)
    ensures f.state.HeaderName? ==> Counts(f, OnHeaderName(f, f.state.name, ch))
    ensures f.state.HeaderBody? ==> Counts(f, OnHeaderBody(f, f.state.value, ch))
  {
    hide AllRestarts, FieldByte, ValueByte, FirstValueState, EndOfHeader, Token;
    NoEffects();
    OneEffect(Mark(Field));
    OneEffect(Flush(Field));
    OneEffect(Mark(Value));
    OneEffect(Flush(Value));
    TwoEffects(Mark(Value), Flush(Value));
    FieldByteStays(f, ch);
    ValueByteStays(f, ch);
  }

  lemma TwoEffects(d: Effect, e: Effect)
    ensures AllRestarts([d, e]) == EffectRestarts(d) + EffectRestarts(e)
  {
    OneEffect(e);
    assert [d, e][1..] == [e];
  }

  lemma LateCount(f: Fields, ch: byte, answer: Answer)
    ensures f.state == HeadEnd(HeadersAlmostDone) ==> Counts(f, OnHeadersAlmostDone(f, ch, answer))
    ensures f.state == HeadEnd(HeadersDone) ==> Counts(f, OnHeadersDone(f, ch))
    ensures f.state.Chunk? ==> Counts(f, OnChunk(f, f.state.chunk, ch))
    ensures f.state.Payload? ==> Counts(f, OnPayload(f, f.state.payload))
  {
    hide AllRestarts, NeedsEof, Unhex;
    NoEffects();
    OneEffect(Notify(ChunkComplete));
    OneEffect(Notify(MessageComplete));
    if Transition(f, ch, answer).effects != [] { OneEffect(Transition(f, ch, answer).effects[0]); }
    OneEffect(Notify(ChunkHeader(f.contentLength)));
    OneEffect(Mark(Body));
    OneEffect(Flush(Body));
    TwoEffects(Mark(Body), FlushThrough(Body));
  }

  lemma TransitionCounts(f: Fields, ch: byte, answer: Answer)
    ensures Counts(f, Transition(f, ch, answer))
  {
    hide Counts, OnBetween, OnStatusLine, OnMethod, OnSpacesBeforeUrl, OnTarget, OnVersion,
      OnHeaderName, OnHeaderBody, OnHeadersAlmostDone, OnHeadersDone, OnChunk, OnPayload;
    EarlyCount(f, ch);
    RequestCount(f, ch);
    HeaderTextCount(f, ch);
    LateCount(f, ch, answer);
  }

  /** The count and the log after a byte. */
  predicate Counted(was: nat, log: seq<Event>, done: bool, r: StepResult) {
    match r
    case Stepped(n) =>
      Settled(n.f) && Restarted(n.log) >= Restarted(log) &&
      n.f.nread == (if done || Restarted(n.log) > Restarted(log) then 0 else was)
    case Exited(n) =>
      Settled(n.f) && Restarted(n.log) >= Restarted(log) &&
      n.f.nread == (if done || Restarted(n.log) > Restarted(log) then 0 else was)
    case Broken(_, _) => true
  }

  lemma {:induction false} DispatchCounts(cfg: Config, f: Fields, s: Slot, ch: byte)
    requires Settled(f)
    ensures Counted(f.nread, s.log, f.state == HeadEnd(HeadersDone), Dispatch(cfg, f, s, ch))
    decreases Rank(f.state)
  {
    hide Transition, Rank, Settled, Restarted, ApplyAll, EndOfBuffer, AllRestarts;
    var answer := cfg.answers(f.answered);
    var m := Transition(f, ch, answer);
    TransitionCounts(f, ch, answer);
    RankFalls(f, ch, answer);
    if !m.control.Fail? {
      ApplyAllRestarts(s, m.effects, ch);
      var t := ApplyAll(s, m.effects, ch);
      EndRestarts(t, ch);
      if m.control == Reexecute { DispatchCounts(cfg, m.f, t, ch); }
    }
  }

  lemma ByteStepCounts(cfg: Config, m: Machine, ch: byte)
    requires Settled(m.f) && m.f.state != HeadEnd(HeadersDone)
    ensures Counted(m.f.nread + if ParsingHeader(m.f.state) then 1 else 0, m.log, false, ByteStep(cfg, m, ch))
  {
    hide Dispatch, Restarted;
    var slot := Slot(m.log, ResumeMark(m.f.state));
    DispatchCounts(cfg, m.f, slot, ch);
    if ParsingHeader(m.f.state) { DispatchCounts(cfg, m.f.(nread := m.f.nread + 1), slot, ch); }
  }

  /** After any run that does not fail `nread` is that tally; and by `Inv` it is at most `max_header_size`. */
  lemma {:induction false} NreadTallies(cfg: Config, m: Machine, stream: seq<byte>)
    requires Inv(cfg, m) && Settled(m.f)
    ensures match Run(cfg, m, stream)
            case Ran(n) => n.f.nread == Tally(cfg, m, stream, m.f.nread) <= cfg.maxHeader && Settled(n.f)
            case Stopped(n, _) => n.f.nread == Tally(cfg, m, stream, m.f.nread) <= cfg.maxHeader
            case Failed(_, _, _) => true
    decreases |stream|
  {
    hide ByteStep, Settled, Consistent, Restarted, Resumable;
    if stream != [] {
      ByteStepInv(cfg, m, stream[0]);
      ByteStepCounts(cfg, m, stream[0]);
      match ByteStep(cfg, m, stream[0])
      case Stepped(n) => NreadTallies(cfg, n, stream[1..]);
      case Exited(_) =>
      case Broken(_, _) =>
    }
  }
}
