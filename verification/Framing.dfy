/** Framing: which of Content-Length, chunked encoding and end of stream can govern a body, over all runs. */
module Framing {
  import opened Bytes
  import opened ParserState
  import opened Transitions
  import opened ByteMachine
  import opened Invariants

  lemma {:induction false} RunInv(cfg: Config, m: Machine, stream: seq<byte>)
    requires Inv(cfg, m)
    ensures match Run(cfg, m, stream)
            case Ran(end) => Inv(cfg, end)
            case Stopped(end, _) => Inv(cfg, end)
            case Failed(_, _, _) => true
    decreases |stream|
  {
    hide ByteStep, Inv;
    if stream != [] {
      ByteStepInv(cfg, m, stream[0]);
      match ByteStep(cfg, m, stream[0])
      case Stepped(m') => RunInv(cfg, m', stream[1..]);
      case Exited(_) =>
      case Broken(_, _) =>
    }
  }

  /** The type, once known, stays. */
  lemma KindStays(f: Fields, ch: byte, answer: Answer)
    requires f.kind != Both && Consistent(f)
    ensures Transition(f, ch, answer).f.kind == f.kind
  {
    hide FirstGuess, MethodName, BetterGuess, FirstHeaderState, FirstValueState, EndOfHeader, NeedsEof, Unhex,
      IsHeaderChar, FieldByte, ValueByte;
    if f.state == HeaderName(HeaderField) { FieldByteStays(f, ch); }
    if f.state == HeaderBody(HeaderValue) { ValueByteStays(f, ch); }
  }

  lemma {:induction false} DispatchKind(cfg: Config, f: Fields, s: Slot, ch: byte)
    requires f.kind != Both && Consistent(f)
    ensures match Dispatch(cfg, f, s, ch)
            case Stepped(m) => m.f.kind == f.kind
            case Exited(m) => m.f.kind == f.kind
            case Broken(_, _) => true
    decreases Rank(f.state)
  {
    hide Transition, Consistent, Rank, ApplyAll;
    var answer := cfg.answers(f.answered);
    var m := Transition(f, ch, answer);
    KindStays(f, ch, answer);
    TransitionKeeps(f, ch, answer);
    RankFalls(f, ch, answer);
    if m.control == Reexecute { DispatchKind(cfg, m.f, ApplyAll(s, m.effects, ch), ch); }
  }

  lemma ByteStepKind(cfg: Config, m: Machine, ch: byte)
    requires Inv(cfg, m) && m.f.kind != Both
    ensures match ByteStep(cfg, m, ch)
            case Stepped(n) => n.f.kind == m.f.kind
            case Exited(n) => n.f.kind == m.f.kind
            case Broken(_, _) => true
  {
    hide Dispatch, Consistent, ParsingHeader, ResumeMark, Passing;
    CountKeeps(m.f, m.f.nread + 1);
    DispatchKind(cfg, if ParsingHeader(m.f.state) then m.f.(nread := m.f.nread + 1) else m.f,
                 Slot(m.log, ResumeMark(m.f.state)), ch);
  }

  lemma {:induction false} RunKind(cfg: Config, m: Machine, stream: seq<byte>)
    requires Inv(cfg, m) && m.f.kind != Both
    ensures match Run(cfg, m, stream)
            case Ran(end) => end.f.kind == m.f.kind
            case Stopped(end, _) => end.f.kind == m.f.kind
            case Failed(_, _, _) => true
    decreases |stream|
  {
    hide ByteStep, Inv;
    if stream != [] {
      ByteStepKind(cfg, m, stream[0]);
      ByteStepInv(cfg, m, stream[0]);
      match ByteStep(cfg, m, stream[0])
      case Stepped(m') => RunKind(cfg, m', stream[1..]);
      case Exited(_) =>
      case Broken(_, _) =>
    }
  }

  /** Two framings never meet: in chunk states no Content-Length was accepted, an identity body has neither
      chunked encoding nor Transfer-Encoding, and a body up to the end of the stream belongs to a response. */
  predicate OneFraming(f: Fields) {
    && (f.state.Chunk? ==> F_CHUNKED in f.flags && F_CONTENTLENGTH !in f.flags)
    && (f.state == Payload(BodyIdentity) ==>
          F_CONTENTLENGTH in f.flags && F_CHUNKED !in f.flags && F_TRANSFER_ENCODING !in f.flags &&
          0 < f.contentLength < ULLONG_MAX)
    && (f.state == Payload(BodyIdentityEof) ==> f.kind == Response && F_CHUNKED !in f.flags)
    && (F_CHUNKED in f.flags ==> F_TRANSFER_ENCODING in f.flags)
  }

  /** Every state a new parser can reach has one framing, a header size within the limit, and, when it was
      set up for requests or for responses, only states of its side. */
  lemma ReachableFraming(cfg: Config, kind: Kind, stream: seq<byte>)
    ensures match Run(cfg, Machine(Initial(kind), []), stream)
            case Ran(m) => OneFraming(m.f) && m.f.nread <= cfg.maxHeader && OneSide(m.f, kind)
            case Stopped(m, _) => OneFraming(m.f) && m.f.nread <= cfg.maxHeader && OneSide(m.f, kind)
            case Failed(_, _, _) => true
  {
    hide Run;
    var m := Machine(Initial(kind), []);
    RunInv(cfg, m, stream);
    if kind != Both { RunKind(cfg, m, stream); }
  }

  predicate OneSide(f: Fields, kind: Kind) {
    && (kind == Request ==> !f.state.StatusLine? && f.state != Between(StartRes) && f.state != Payload(BodyIdentityEof))
    && (kind == Response ==>
          !f.state.MethodWord? && !f.state.Target? && !f.state.Version? && f.state != Between(StartReq))
  }
}
