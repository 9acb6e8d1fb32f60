/** The field `upgrade`: what it tells an application between calls. */
module Upgrades {
  import opened Bytes
  import opened Trace
  import opened ParserState
  import opened UrlAutomaton
  import opened Transitions
  import opened ByteMachine
  import opened Invariants

  // ---- between messages

  /** Between messages with `upgrade` set. */
  predicate Switched(f: Fields) { f.state.Between? && f.upgrade }

  /** A pass that leaves ends a message; one that does not may only skip line ends there. */
  predicate ShowsExit(f: Fields, m: Move) {
    !m.control.Fail? ==>
      if m.control == Exit then Switched(m.f) && m.effects == [Notify(MessageComplete)]
      else Switched(m.f) ==> Switched(f) && m.effects == []
  }

  lemma LinesShow(f: Fields, ch: byte)
    ensures f.state.Between? ==> ShowsExit(f, OnBetween(f, f.state.between, ch))
    ensures f.state.StatusLine? ==> ShowsExit(f, OnStatusLine(f, f.state.res, ch))
    ensures f.state.Version? ==> ShowsExit(f, OnVersion(f, f.state.version, ch))
    ensures f.state == MethodWord(ReqMethod) ==> ShowsExit(f, OnMethod(f, ch))
    ensures f.state == MethodWord(ReqSpacesBeforeUrl) ==> ShowsExit(f, OnSpacesBeforeUrl(f, ch))
    ensures f.state.Target? ==> ShowsExit(f, OnTarget(f, f.state.url, ch))
  {
    hide FirstGuess, MethodName, BetterGuess, ParseUrlChar;
  }

  lemma NamesShow(f: Fields, ch: byte)
    ensures f.state.HeaderName? ==> ShowsExit(f, OnHeaderName(f, f.state.name, ch))
    ensures f.state.HeaderBody? ==> ShowsExit(f, OnHeaderBody(f, f.state.value, ch))
  {
    hide FieldByte, ValueByte, FirstValueState, FirstHeaderState, EndOfHeader, Token, IsHeaderChar;
    FieldByteStays(f, ch);
    ValueByteStays(f, ch);
  }

  lemma BodiesShow(f: Fields, ch: byte, answer: Answer)
    ensures f.state == HeadEnd(HeadersAlmostDone) ==> ShowsExit(f, OnHeadersAlmostDone(f, ch, answer))
    ensures f.state == HeadEnd(HeadersDone) ==> ShowsExit(f, OnHeadersDone(f, ch))
    ensures f.state.Chunk? ==> ShowsExit(f, OnChunk(f, f.state.chunk, ch))
    ensures f.state.Payload? ==> ShowsExit(f, OnPayload(f, f.state.payload))
  {
    hide NeedsEof, Unhex;
  }

  lemma TransitionShows(f: Fields, ch: byte, answer: Answer)
    ensures ShowsExit(f, Transition(f, ch, answer))
  {
    hide ShowsExit, OnBetween, OnStatusLine, OnMethod, OnSpacesBeforeUrl, OnTarget, OnVersion,
      OnHeaderName, OnHeaderBody, OnHeadersAlmostDone, OnHeadersDone, OnChunk, OnPayload;
    LinesShow(f, ch);
    NamesShow(f, ch);
    BodiesShow(f, ch, answer);
  }

  /** The messages complete so far. */
  function Completed(log: seq<Event>): nat {
    if log == [] then 0 else Completed(log[..|log| - 1]) + if log[|log| - 1] == MessageComplete then 1 else 0
  }

  lemma CompletedPush(log: seq<Event>, e: Event)
    ensures Completed(Push(log, e)) == Completed(log) + if e == MessageComplete then 1 else 0
  {
    if e.Data? && EndsIn(log, e.kind) {
      assert Push(log, e)[..|log| - 1] == log[..|log| - 1];
    } else {
      assert (log + [e])[..|log|] == log;
    }
  }

  lemma {:induction false} CompletedMerge(events: seq<Event>)
    ensures Completed(Merge(events)) == Completed(events)
  {
    if events != [] {
      CompletedMerge(events[..|events| - 1]);
      CompletedPush(Merge(events[..|events| - 1]), events[|events| - 1]);
    }
  }

  lemma ApplyCompletes(s: Slot, e: Effect, ch: byte)
    ensures Completed(Apply(s, e, ch).log) == Completed(s.log) + if e == Notify(MessageComplete) then 1 else 0
  {
    hide Push, Completed;
    match e
    case Mark(k) => CompletedPush(s.log, Data(k, []));
    case Flush(_) =>
    case FlushThrough(k) => CompletedPush(s.log, Data(k, [ch]));
    case Notify(event) => CompletedPush(s.log, event);
  }

  lemma {:induction false} ApplyAllCompletes(s: Slot, effects: seq<Effect>, ch: byte)
    ensures Completed(ApplyAll(s, effects, ch).log) >= Completed(s.log)
    ensures effects == [Notify(MessageComplete)] ==> Completed(ApplyAll(s, effects, ch).log) == Completed(s.log) + 1
    ensures effects == [] ==> ApplyAll(s, effects, ch) == s
    decreases |effects|
  {
    hide Apply, Completed;
    if effects != [] {
      ApplyCompletes(s, effects[0], ch);
      ApplyAllCompletes(Apply(s, effects[0], ch), effects[1..], ch);
      if |effects| == 1 { assert effects[1..] == []; }
    }
  }

  lemma EndCompletes(s: Slot, ch: byte)
    ensures Completed(EndOfBuffer(s, ch)) == Completed(s.log)
  {
    hide Push, Completed;
    match s.mark
    case NoMark =>
    case Marked(k) => CompletedPush(s.log, Data(k, [ch]));
  }

  predicate StepShows(before: Machine, r: StepResult) {
    match r
    case Stepped(m) =>
      (Switched(m.f) ==> Switched(before.f) && m.log == before.log) && Completed(m.log) >= Completed(before.log)
    case Exited(m) => Switched(m.f) && Completed(m.log) > Completed(before.log)
    case Broken(_, _) => true
  }

  lemma {:induction false} DispatchShows(cfg: Config, f: Fields, s: Slot, ch: byte)
    requires Switched(f) ==> s.mark == NoMark
    ensures StepShows(Machine(f, s.log), Dispatch(cfg, f, s, ch))
    decreases Rank(f.state)
  {
    hide Transition, Rank, ApplyAll, Switched, Completed;
    var answer := cfg.answers(f.answered);
    var m := Transition(f, ch, answer);
    TransitionShows(f, ch, answer);
    RankFalls(f, ch, answer);
    ApplyAllCompletes(s, m.effects, ch);
    var t := ApplyAll(s, m.effects, ch);
    EndCompletes(t, ch);
    if m.control == Reexecute { DispatchShows(cfg, m.f, t, ch); }
  }

  lemma ByteStepShows(cfg: Config, m: Machine, ch: byte)
    ensures StepShows(m, ByteStep(cfg, m, ch))
  {
    hide Dispatch, ParsingHeader, Completed;
    var slot := Slot(m.log, ResumeMark(m.f.state));
    DispatchShows(cfg, if ParsingHeader(m.f.state) then m.f.(nread := m.f.nread + 1) else m.f, slot, ch);
  }

  /** What shows an application that counts on_message_complete that the parser has left during a call. */
  predicate Left(before: Machine, after: Machine) {
    Switched(after.f) && (!Switched(before.f) || Completed(after.log) > Completed(before.log))
  }

  /** Between messages `upgrade` tells whether the parser has left for another protocol; and if it had been set there
      before, the number of messages complete tells. */
  lemma {:induction false} UpgradeShows(cfg: Config, m: Machine, stream: seq<byte>)
    ensures match Run(cfg, m, stream)
            case Ran(end) => !Left(m, end) && (Switched(end.f) ==> end.log == m.log) && Completed(end.log) >= Completed(m.log)
            case Stopped(end, _) => Left(m, end) && Completed(end.log) > Completed(m.log)
            case Failed(_, _, _) => true
    decreases |stream|
  {
    hide ByteStep, Switched, Completed;
    if stream != [] {
      ByteStepShows(cfg, m, stream[0]);
      match ByteStep(cfg, m, stream[0])
      case Stepped(m') => UpgradeShows(cfg, m', stream[1..]);
      case Exited(_) =>
      case Broken(_, _) =>
    }
  }

  // ---- at any time

  /** The last head reported announces an upgrade, and its message is not complete. */
  predicate Asked(log: seq<Event>) { log != [] && AskedAfter(Asked(log[..|log| - 1]), log[|log| - 1]) }

  predicate AskedAfter(before: bool, e: Event) {
    match e
    case HeadersComplete(head) => head.upgrade
    case MessageComplete => false
    case _ => before
  }

  lemma AskedPush(log: seq<Event>, e: Event)
    ensures Asked(Push(log, e)) == AskedAfter(Asked(log), e)
  {
    if e.Data? && EndsIn(log, e.kind) {
      assert Push(log, e)[..|log| - 1] == log[..|log| - 1];
    } else {
      assert (log + [e])[..|log|] == log;
    }
  }

  predicate AskedByAll(before: bool, effects: seq<Effect>)
    decreases |effects|
  {
    if effects == [] then before
    else AskedByAll(if effects[0].Notify? then AskedAfter(before, effects[0].event) else before, effects[1..])
  }

  lemma ApplyAsks(s: Slot, e: Effect, ch: byte)
    ensures Asked(Apply(s, e, ch).log) == if e.Notify? then AskedAfter(Asked(s.log), e.event) else Asked(s.log)
  {
    hide Push, Asked;
    match e
    case Mark(k) => AskedPush(s.log, Data(k, []));
    case Flush(_) =>
    case FlushThrough(k) => AskedPush(s.log, Data(k, [ch]));
    case Notify(event) => AskedPush(s.log, event);
  }

  lemma {:induction false} ApplyAllAsks(s: Slot, effects: seq<Effect>, ch: byte)
    ensures Asked(ApplyAll(s, effects, ch).log) == AskedByAll(Asked(s.log), effects)
    decreases |effects|
  {
    hide Apply, Asked;
    if effects != [] {
      ApplyAsks(s, effects[0], ch);
      ApplyAllAsks(Apply(s, effects[0], ch), effects[1..], ch);
    }
  }

  lemma EndAsks(s: Slot, ch: byte)
    ensures Asked(EndOfBuffer(s, ch)) == Asked(s.log)
  {
    hide Push, Asked;
    match s.mark
    case NoMark =>
    case Marked(k) => AskedPush(s.log, Data(k, [ch]));
  }

  /** A pass of the switch keeps `upgrade` in step with the callbacks, but for the one that leaves. */
  predicate Tracks(f: Fields, m: Move) {
    var asked := AskedByAll(f.upgrade, m.effects);
    !m.control.Fail? ==> if m.control == Exit then m.f.upgrade && !asked else m.f.upgrade == asked
  }

  lemma NoEffects(before: bool)
    ensures AskedByAll(before, []) == before
  {}

  lemma OneEffect(before: bool, e: Effect)
    ensures AskedByAll(before, [e]) == if e.Notify? then AskedAfter(before, e.event) else before
  {
    assert [e][1..] == [];
  }

  lemma TwoEffects(before: bool, d: Effect, e: Effect)
    requires !d.Notify? && !e.Notify?
    ensures AskedByAll(before, [d, e]) == before
  {
    OneEffect(before, e);
    assert [d, e][1..] == [e];
  }

  lemma LinesTrack(f: Fields, ch: byte)
    ensures f.state.Between? ==> Tracks(f, OnBetween(f, f.state.between, ch))
    ensures f.state.StatusLine? ==> Tracks(f, OnStatusLine(f, f.state.res, ch))
    ensures f.state == MethodWord(ReqMethod) ==> Tracks(f, OnMethod(f, ch))
  {
    hide AskedByAll, FirstGuess, MethodName, BetterGuess;
    NoEffects(f.upgrade);
    OneEffect(f.upgrade, Notify(MessageBegin));
    OneEffect(f.upgrade, Mark(Status));
    OneEffect(f.upgrade, Flush(Status));
  }

  lemma TargetsTrack(f: Fields, ch: byte)
    ensures f.state == MethodWord(ReqSpacesBeforeUrl) ==> Tracks(f, OnSpacesBeforeUrl(f, ch))
    ensures f.state.Target? ==> Tracks(f, OnTarget(f, f.state.url, ch))
    ensures f.state.Version? ==> Tracks(f, OnVersion(f, f.state.version, ch))
  {
    hide AskedByAll, ParseUrlChar;
    NoEffects(f.upgrade);
    OneEffect(f.upgrade, Mark(Url));
    OneEffect(f.upgrade, Flush(Url));
  }

  lemma HeadersTrack(f: Fields, ch: byte)
    ensures f.state.HeaderName? ==> Tracks(f, OnHeaderName(f, f.state.name, ch))
    ensures f.state.HeaderBody? ==> Tracks(f, OnHeaderBody(f, f.state.value, ch))
  {
    hide AskedByAll, FieldByte, ValueByte, FirstValueState, FirstHeaderState, EndOfHeader, Token, IsHeaderChar;
    FieldByteStays(f, ch);
    ValueByteStays(f, ch);
    NoEffects(f.upgrade);
    OneEffect(f.upgrade, Mark(Field));
    OneEffect(f.upgrade, Flush(Field));
    OneEffect(f.upgrade, Mark(Value));
    OneEffect(f.upgrade, Flush(Value));
    TwoEffects(f.upgrade, Mark(Value), Flush(Value));
  }

  lemma BodiesTrack(f: Fields, ch: byte, answer: Answer)
    ensures f.state == HeadEnd(HeadersAlmostDone) ==> Tracks(f, OnHeadersAlmostDone(f, ch, answer))
    ensures f.state == HeadEnd(HeadersDone) ==> Tracks(f, OnHeadersDone(f, ch))
    ensures f.state.Chunk? ==> Tracks(f, OnChunk(f, f.state.chunk, ch))
    ensures f.state.Payload? ==> Tracks(f, OnPayload(f, f.state.payload))
  {
    hide AskedByAll, NeedsEof, Unhex, NewMessage;
    NoEffects(f.upgrade);
    OneEffect(f.upgrade, Notify(ChunkComplete));
    OneEffect(f.upgrade, Notify(MessageComplete));
    OneEffect(f.upgrade, Notify(ChunkHeader(f.contentLength)));
    OneEffect(f.upgrade, Mark(Body));
    OneEffect(f.upgrade, Flush(Body));
    TwoEffects(f.upgrade, Mark(Body), FlushThrough(Body));
    if OnHeadersAlmostDone(f, ch, answer).effects != [] {
      OneEffect(f.upgrade, OnHeadersAlmostDone(f, ch, answer).effects[0]);
    }
  }

  lemma TransitionTracks(f: Fields, ch: byte, answer: Answer)
    ensures Tracks(f, Transition(f, ch, answer))
  {
    hide Tracks, OnBetween, OnStatusLine, OnMethod, OnSpacesBeforeUrl, OnTarget, OnVersion,
      OnHeaderName, OnHeaderBody, OnHeadersAlmostDone, OnHeadersDone, OnChunk, OnPayload;
    LinesTrack(f, ch);
    TargetsTrack(f, ch);
    HeadersTrack(f, ch);
    BodiesTrack(f, ch, answer);
  }

  /** Has the parser left, and if not, does `upgrade` say what the callbacks say. */
  predicate StepTracks(r: StepResult) {
    match r
    case Stepped(m) => m.f.upgrade == Asked(m.log)
    case Exited(m) => m.f.upgrade && !Asked(m.log)
    case Broken(_, _) => true
  }

  lemma {:induction false} DispatchTracks(cfg: Config, f: Fields, s: Slot, ch: byte)
    requires f.upgrade == Asked(s.log)
    ensures StepTracks(Dispatch(cfg, f, s, ch))
    decreases Rank(f.state)
  {
    hide Transition, Rank, Asked, ApplyAll, EndOfBuffer, AskedByAll;
    var answer := cfg.answers(f.answered);
    var m := Transition(f, ch, answer);
    TransitionTracks(f, ch, answer);
    RankFalls(f, ch, answer);
    if !m.control.Fail? {
      ApplyAllAsks(s, m.effects, ch);
      var t := ApplyAll(s, m.effects, ch);
      EndAsks(t, ch);
      if m.control == Reexecute { DispatchTracks(cfg, m.f, t, ch); }
    }
  }

  lemma ByteStepTracks(cfg: Config, m: Machine, ch: byte)
    requires m.f.upgrade == Asked(m.log)
    ensures StepTracks(ByteStep(cfg, m, ch))
  {
    hide Dispatch, ParsingHeader, ResumeMark, Asked;
    var slot := Slot(m.log, ResumeMark(m.f.state));
    DispatchTracks(cfg, if ParsingHeader(m.f.state) then m.f.(nread := m.f.nread + 1) else m.f, slot, ch);
  }

  /** Exactly when `upgrade` is truthful. Over any run from a new parser it is set if the parser has left; and as
      long as it has not, it is set if and only if the last head reported announces an upgrade and its message is
      not complete: there, and nowhere else, it says too early that the parser has left. */
  lemma {:induction false} UpgradeExact(cfg: Config, m: Machine, stream: seq<byte>)
    requires m.f.upgrade == Asked(m.log)
    ensures match Run(cfg, m, stream)
            case Ran(end) => end.f.upgrade == Asked(end.log)
            case Stopped(end, _) => end.f.upgrade && !Asked(end.log)
            case Failed(_, _, _) => true
    decreases |stream|
  {
    hide ByteStep, Asked;
    if stream != [] {
      ByteStepTracks(cfg, m, stream[0]);
      match ByteStep(cfg, m, stream[0])
      case Stepped(m') => UpgradeExact(cfg, m', stream[1..]);
      case Exited(_) =>
      case Broken(_, _) =>
    }
  }

  lemma InitialAsks(kind: Kind)
    ensures Initial(kind).upgrade == Asked([])
  {}

  /** The head decides: the parser leaves at its last byte if and only if the head announces an upgrade and its
      message ends there. */
  lemma HeadExits(cfg: Config, f: Fields, log: seq<Event>)
    requires f.state == HeadEnd(HeadersAlmostDone) && F_TRAILING !in f.flags && F_SKIPBODY !in f.flags
    requires Consistent(f) && !(F_TRANSFER_ENCODING in f.flags && F_CONTENTLENGTH in f.flags)
    ensures var answer := cfg.answers(f.answered);
            var head := HeadOf(Headed(f, answer), answer != Proceed);
            && Transition(f, LF, answer) == Move(Headed(f, answer), [Notify(HeadersComplete(head))], Reexecute)
            && (Dispatch(cfg, f, Slot(log, NoMark), LF).Exited? <==> head.upgrade && EndsAtHead(head))
  {
    hide Push, NeedsEof, NewMessage;
    var answer := cfg.answers(f.answered);
    var g := Headed(f, answer);
    var e := Notify(HeadersComplete(HeadOf(g, answer != Proceed)));
    assert ApplyAll(Slot(log, NoMark), [e], LF) == Apply(Slot(log, NoMark), e, LF);
    var m := Transition(g, LF, cfg.answers(g.answered));
    assert m.control == Exit <==> g.upgrade && EndsAtHead(HeadOf(g, answer != Proceed));
  }
}
