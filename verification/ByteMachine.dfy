/** The parser fed one byte at a time: what `sn_http_parser_execute` does with one-byte buffers.
    Callbacks are kept in merged form, so a mark may report its (still empty) slice at once. */
module ByteMachine {
  import opened Bytes
  import opened Trace
  import opened ParserState
  import opened Transitions

  datatype Machine = Machine(f: Fields, log: seq<Event>)

  datatype Pending = NoMark | Marked(kind: DataKind)

  /** The mark set again at the start of a buffer when the parser resumes inside a token. */
  function ResumeMark(s: State): Pending {
    match s
    case StatusLine(r) => if r == ResStatus then Marked(Status) else NoMark
    case Target(_) => Marked(Url)
    case HeaderName(n) => if n == HeaderField then Marked(Field) else NoMark
    case HeaderBody(v) => if v == HeaderValue then Marked(Value) else NoMark
    case _ => NoMark
  }

  datatype Slot = Slot(log: seq<Event>, mark: Pending)

  function Apply(s: Slot, e: Effect, ch: byte): Slot {
    match e
    case Mark(k) => if s.mark == NoMark then Slot(Push(s.log, Data(k, [])), Marked(k)) else s
    case Flush(k) => if s.mark == Marked(k) then s.(mark := NoMark) else s
    case FlushThrough(k) =>
      if s.mark == Marked(k) then Slot(Push(s.log, Data(k, [ch])), NoMark) else s
    case Notify(event) => s.(log := Push(s.log, event))
  }

  function ApplyAll(s: Slot, effects: seq<Effect>, ch: byte): Slot
    decreases |effects|
  {
    if effects == [] then s else ApplyAll(Apply(s, effects[0], ch), effects[1..], ch)
  }

  /** At the end of the buffer a live mark reports its slice. */
  function EndOfBuffer(s: Slot, ch: byte): seq<Event> {
    match s.mark
    case NoMark => s.log
    case Marked(k) => Push(s.log, Data(k, [ch]))
  }

  datatype StepResult = Stepped(m: Machine) | Exited(m: Machine) | Broken(errno: Errno, log: seq<Event>)

  /** The `switch` and its `goto reexecute` chain. */
  function Dispatch(cfg: Config, f: Fields, s: Slot, ch: byte): StepResult
    decreases Rank(f.state)
  {
    hide Transition;
    var move := Transition(f, ch, cfg.answers(f.answered));
    RankFalls(f, ch, cfg.answers(f.answered));
    var t := ApplyAll(s, move.effects, ch);
    match move.control
    case Advance => Stepped(Machine(move.f, EndOfBuffer(t, ch)))
    case Reexecute => Dispatch(cfg, move.f, t, ch)
    case Exit => Exited(Machine(move.f, t.log))
    case Fail(e) => Broken(e, s.log)
  }

  /** One byte: count it if it belongs to a header, then dispatch it. */
  function ByteStep(cfg: Config, m: Machine, ch: byte): StepResult {
    hide Dispatch;
    var slot := Slot(m.log, ResumeMark(m.f.state));
    if !ParsingHeader(m.f.state) then Dispatch(cfg, m.f, slot, ch)
    else if m.f.nread + 1 > cfg.maxHeader then Broken(HeaderOverflow, m.log)
    else Dispatch(cfg, m.f.(nread := m.f.nread + 1), slot, ch)
  }

  /** Where a run over a stream ends; `left` counts the bytes not consumed. */
  datatype RunResult =
    | Ran(m: Machine)
    | Stopped(m: Machine, left: nat)    // upgrade: the rest is another protocol's
    | Failed(errno: Errno, left: nat, log: seq<Event>)   // the offending byte included in `left`

  function Run(cfg: Config, m: Machine, stream: seq<byte>): RunResult
    decreases |stream|
  {
    hide ByteStep;
    if stream == [] then Ran(m)
    else match ByteStep(cfg, m, stream[0])
      case Stepped(m') => Run(cfg, m', stream[1..])
      case Exited(m') => Stopped(m', |stream| - 1)
      case Broken(e, log) => Failed(e, |stream|, log)
  }

  lemma RunNothing(cfg: Config, m: Machine)
    ensures Run(cfg, m, []) == Ran(m)
  {
    hide ByteStep;
  }

  /** The run over `rest` after a byte with result `r`. */
  function Onward(cfg: Config, r: StepResult, rest: seq<byte>): RunResult {
    hide Run;
    match r
    case Stepped(m) => Run(cfg, m, rest)
    case Exited(m) => Stopped(m, |rest|)
    case Broken(e, log) => Failed(e, |rest| + 1, log)
  }

  /** Feeding `b` after `a`. */
  function Then(cfg: Config, r: RunResult, b: seq<byte>): RunResult {
    hide Run;
    match r
    case Ran(m) => Run(cfg, m, b)
    case Stopped(m, left) => Stopped(m, left + |b|)
    case Failed(e, left, log) => Failed(e, left + |b|, log)
  }

  lemma {:induction false} RunAppend(cfg: Config, m: Machine, a: seq<byte>, b: seq<byte>)
    ensures Run(cfg, m, a + b) == Then(cfg, Run(cfg, m, a), b)
    decreases |a|
  {
    hide ByteStep;
    if a == [] {
      assert a + b == b;
    } else {
      assert (a + b)[1..] == a[1..] + b;
      match ByteStep(cfg, m, a[0])
      case Stepped(m') => RunAppend(cfg, m', a[1..], b);
      case Exited(_) =>
      case Broken(_, _) =>
    }
  }

  /** A run consumes at most its stream, and everything unless it stopped early. */
  lemma {:induction false} RunLeft(cfg: Config, m: Machine, stream: seq<byte>)
    ensures match Run(cfg, m, stream)
            case Ran(_) => true
            case Stopped(_, left) => left < |stream|
            case Failed(_, left, _) => 0 < left <= |stream|
    decreases |stream|
  {
    hide ByteStep;
    if stream != [] {
      match ByteStep(cfg, m, stream[0])
      case Stepped(m') => RunLeft(cfg, m', stream[1..]);
      case Exited(_) =>
      case Broken(_, _) =>
    }
  }
}
