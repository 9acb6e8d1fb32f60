/** `sn_http_parser_execute`: whole buffers, slices, and the loops that run ahead of the switch. */
module Execute {
  import opened Bytes
  import opened Trace
  import opened ParserState
  import opened UrlAutomaton
  import opened Transitions
  import opened ByteMachine
  import opened Invariants
  import opened Slices
  import opened Skips

  const UINT32: nat := 0x1_0000_0000
  const SIZE_LIMIT: nat := 0x8000_0000

  /** `nread += (uint32_t)(v)` */
  function CountBytes(nread: nat, v: nat): nat { (nread + v) % UINT32 }

  /** What is known of the byte machine's run: it goes on from `m` over `rest`. */
  ghost predicate OnTrack(cfg: Config, target: RunResult, m: Machine, rest: seq<byte>) {
    target == Run(cfg, m, rest) && Inv(cfg, m)
  }

  /** The byte machine has failed on the header size at a byte already scanned, and the count will show it. */
  ghost predicate Doomed(cfg: Config, target: RunResult, f: Fields, t: Tape, data: seq<byte>, start: nat, p: nat)
    requires start <= p <= |data| && (t.live.From? ==> t.live.start <= start)
  {
    f.nread + p - 1 - start > cfg.maxHeader &&
    exists q :: start <= q < p && target == Failed(HeaderOverflow, |data| - q, View(t, data, q))
  }

  /** The scans of a header name or value: `f.nread` already counts the byte at `start`. */
  ghost predicate Scanning(cfg: Config, target: RunResult, f: Fields, t: Tape, data: seq<byte>, start: nat, p: nat)
    requires start <= p <= |data| && (t.live.From? ==> t.live.start <= start)
    requires 0 < f.nread
  {
    OnTrack(cfg, target, Machine(f.(nread := f.nread - 1 + p - start), View(t, data, p)), data[p..]) ||
    Doomed(cfg, target, f, t, data, start, p)
  }

  /** One more byte of a header name. */
  lemma ScanField(cfg: Config, target: RunResult, f: Fields, t: Tape, data: seq<byte>, start: nat, p: nat)
    requires start <= p < |data| && t.live.From? && t.live.kind == Field && t.live.start <= start && 0 < f.nread
    requires f.state == HeaderName(HeaderField) && IsToken(data[p])
    requires Scanning(cfg, target, f, t, data, start, p)
    ensures FieldByte(f, data[p]).nread == f.nread && FieldByte(f, data[p]).state == f.state
    ensures Scanning(cfg, target, FieldByte(f, data[p]), t, data, start, p + 1)
  {
    hide Run, FieldByte, Inv, View;
    var n := f.nread - 1 + p - start;
    var g := f.(nread := n);
    FieldByteCount(f, data[p], n);
    FieldByteCount(f, data[p], f.nread);
    assert f.(nread := f.nread) == f;
    FieldByteStays(f, data[p]);
    if !Doomed(cfg, target, f, t, data, start, p) {
      var m := Machine(g, View(t, data, p));
      assert data[p..][0] == data[p] && data[p..][1..] == data[p + 1..];
      FieldStep(cfg, g, m.log, data[p..]);
      ViewStep(t, data, p);
      if n + 1 <= cfg.maxHeader {
        var m' := Machine(FieldByte(g, data[p]).(nread := n + 1), View(t, data, p + 1));
        FieldStaysInv(cfg, g, m.log, data[p], m');
        assert FieldByte(f, data[p]).(nread := n + 1) == m'.f;
      }
    }
  }

  lemma FieldStaysInv(cfg: Config, f: Fields, log: seq<Event>, ch: byte, m: Machine)
    requires Inv(cfg, Machine(f, log)) && f.state == HeaderName(HeaderField) && f.nread + 1 <= cfg.maxHeader
    requires m == Machine(FieldByte(f, ch).(nread := f.nread + 1), Push(log, Data(Field, [ch])))
    ensures Inv(cfg, m)
  {
    hide Consistent, FieldByte, Push;
    FieldByteKeeps(f, ch);
    CountKeeps(FieldByte(f, ch), f.nread + 1);
  }

  /** One more byte of a header value. */
  lemma ScanValue(cfg: Config, target: RunResult, f: Fields, t: Tape, data: seq<byte>, start: nat, p: nat)
    requires start <= p < |data| && t.live.From? && t.live.kind == Value && t.live.start <= start && 0 < f.nread
    requires f.state == HeaderBody(HeaderValue) && data[p] != CR && data[p] != LF && IsHeaderChar(data[p])
    requires ValueByte(f, data[p]).ValueOk?
    requires Scanning(cfg, target, f, t, data, start, p)
    ensures var g := ValueByte(f, data[p]).f;
            g.nread == f.nread && g.state == f.state && Scanning(cfg, target, g, t, data, start, p + 1)
  {
    hide Run, ValueByte, Inv, View, IsHeaderChar;
    var n := f.nread - 1 + p - start;
    var g := f.(nread := n);
    ValueByteCount(f, data[p], n);
    ValueByteCount(f, data[p], f.nread);
    assert f.(nread := f.nread) == f;
    ValueByteStays(f, data[p]);
    if !Doomed(cfg, target, f, t, data, start, p) {
      var m := Machine(g, View(t, data, p));
      assert data[p..][0] == data[p] && data[p..][1..] == data[p + 1..];
      ValueStep(cfg, g, m.log, data[p..]);
      ViewStep(t, data, p);
      if n + 1 <= cfg.maxHeader {
        var m' := Machine(ValueByte(g, data[p]).f.(nread := n + 1), View(t, data, p + 1));
        ValueStaysInv(cfg, g, m.log, data[p], m');
        assert ValueByte(f, data[p]).f.(nread := n + 1) == m'.f;
      }
    }
  }

  lemma ValueStaysInv(cfg: Config, f: Fields, log: seq<Event>, ch: byte, m: Machine)
    requires Inv(cfg, Machine(f, log)) && f.state == HeaderBody(HeaderValue) && f.nread + 1 <= cfg.maxHeader
    requires ValueByte(f, ch).ValueOk?
    requires m == Machine(ValueByte(f, ch).f.(nread := f.nread + 1), Push(log, Data(Value, [ch])))
    ensures Inv(cfg, m)
  {
    hide Consistent, ValueByte, Push;
    ValueByteKeeps(f, ch);
    CountKeeps(ValueByte(f, ch).f, f.nread + 1);
  }

  function Min(a: nat, b: nat): nat { if a < b then a else b }

  /** The scan of `s_header_field`, with its skip-ahead in `h_general`. */
  method ScanHeaderField(cfg: Config, f0: Fields, data: seq<byte>, start: nat,
                         ghost target: RunResult, ghost t: Tape)
    returns (f: Fields, p: nat)
    requires start < |data| && t.live.From? && t.live.kind == Field && t.live.start <= start
    requires f0.state == HeaderName(HeaderField) && 0 < f0.nread
    requires Scanning(cfg, target, f0, t, data, start, start)
    ensures start <= p <= |data| && (p < |data| ==> !IsToken(data[p]))
    ensures f.nread == f0.nread && f.state == f0.state
    ensures Scanning(cfg, target, f, t, data, start, p)
  {
    hide Scanning, FieldByte, Token, IsToken;
    f, p := f0, start;
    while p != |data|
      invariant start <= p <= |data| && f.nread == f0.nread && f.state == f0.state
      invariant Scanning(cfg, target, f, t, data, start, p)
    {
      if !IsToken(data[p]) { return; }
      if f.headerState == General {
        var pe := p + Min(|data| - p, cfg.maxHeader);
        while p + 1 < pe && IsToken(data[p + 1])
          invariant start <= p < |data| && pe <= |data| && IsToken(data[p])
          invariant Scanning(cfg, target, f, t, data, start, p)
          decreases pe - p
        {
          GeneralField(f, data[p]);
          ScanField(cfg, target, f, t, data, start, p);
          p := p + 1;
        }
        GeneralField(f, data[p]);
        ScanField(cfg, target, f, t, data, start, p);
      } else {
        ScanField(cfg, target, f, t, data, start, p);
        f := FieldByte(f, data[p]);
      }
      p := p + 1;
    }
  }

  lemma GeneralField(f: Fields, ch: byte)
    requires f.headerState == General
    ensures FieldByte(f, ch) == f
  {}

  /** The call fails as the byte machine does, `left` bytes before the end and after the callbacks `told`,
      which are the same but for a slice not reported yet. A header too large may show later, perhaps as a
      bad byte of its value, and when more of that value is reported already. */
  ghost predicate FailsAs(target: RunResult, e: Errno, left: nat, told: seq<Event>) {
    && target.Failed? && e != OK && 0 < left <= target.left
    && if target.errno == HeaderOverflow
       then (e == HeaderOverflow || e == InvalidHeaderToken || e == InvalidContentLength) &&
            (Reports(target.log, told) || Overreports(target.log, told))
       else e == target.errno && left == target.left && Reports(target.log, told)
  }

  /** What a doomed scan has reported: not yet the slice, or all of it up to `p`. */
  lemma DoomedFails(cfg: Config, target: RunResult, f: Fields, t: Tape, data: seq<byte>, start: nat, p: nat, e: Errno)
    requires start <= p <= |data| && t.live.From? && t.live.start <= start
    requires Doomed(cfg, target, f, t, data, start, p)
    requires e == HeaderOverflow || e == InvalidHeaderToken || e == InvalidContentLength
    ensures forall left :: 0 < left <= |data| - p + 1 ==> FailsAs(target, e, left, Merge(t.events))
    ensures t.live.kind == Value && p < |data| ==> FailsAs(target, e, |data| - p, View(t, data, p))
  {
    hide View, Push, Merge;
    var q :| start <= q < p && target == Failed(HeaderOverflow, |data| - q, View(t, data, q));
    ViewReports(t, data, q);
    if t.live.kind == Value { Overreported(t, data, q, p); }
  }

  lemma ViewEnds(t: Tape, data: seq<byte>, p: nat)
    requires t.live.From? && t.live.start <= p <= |data|
    ensures EndsIn(View(t, data, p), t.live.kind)
  {
    hide Merge, Push;
  }

  lemma Overreported(t: Tape, data: seq<byte>, q: nat, p: nat)
    requires t.live.From? && t.live.start <= q <= p <= |data| && t.live.kind == Value
    ensures Overreports(View(t, data, q), View(t, data, p))
  {
    hide Merge, Push, View;
    ViewGrows(t, data, q, p);
    ViewEnds(t, data, q);
  }

  /** A bad byte in the scan of a header value. */
  lemma BadValue(cfg: Config, target: RunResult, f: Fields, t: Tape, data: seq<byte>, start: nat, p: nat, e: Errno)
    requires start <= p < |data| && t.live.From? && t.live.start <= start && 0 < f.nread
    requires f.state == HeaderBody(HeaderValue) && data[p] != CR && data[p] != LF && e != OK
    requires if IsHeaderChar(data[p]) then ValueByte(f, data[p]) == ValueErr(e) else e == InvalidHeaderToken
    requires Scanning(cfg, target, f, t, data, start, p)
    ensures FailsAs(target, e, |data| - p, Merge(t.events))
  {
    hide Run, ValueByte, IsHeaderChar, Inv, View, Merge;
    OnlyLengths(f, data[p]);
    if !Doomed(cfg, target, f, t, data, start, p) {
      var n := f.nread - 1 + p - start;
      ValueByteCount(f, data[p], n);
      BadValueStep(cfg, f.(nread := n), View(t, data, p), data[p..], e);
      ViewReports(t, data, p);
    } else {
      DoomedFails(cfg, target, f, t, data, start, p, e);
    }
  }

  /** The skip-ahead that ran over `maxHeader` bytes and misses the next one. */
  lemma Overshoot(cfg: Config, target: RunResult, f: Fields, t: Tape, data: seq<byte>, start: nat, p: nat)
    requires start + cfg.maxHeader <= p < |data| && t.live.From? && t.live.start <= start && 0 < f.nread
    requires f.state == HeaderBody(HeaderValue)
    requires Scanning(cfg, target, f, t, data, start, p)
    ensures Scanning(cfg, target, f, t, data, start, p + 1)
  {
    hide Dispatch, View, Consistent;
  }

  /** The scan of `s_header_value`. Its skip-ahead in `h_general` runs over at most `maxHeader` bytes and
      then misses one; by then the header is too large. Stops at CR, LF, a bad byte or the end. */
  method ScanHeaderValue(cfg: Config, f0: Fields, data: seq<byte>, start: nat,
                         ghost target: RunResult, ghost t: Tape)
    returns (f: Fields, p: nat, e: Errno)
    requires start < |data| && t.live.From? && t.live.kind == Value && t.live.start <= start
    requires f0.state == HeaderBody(HeaderValue) && 0 < f0.nread <= cfg.maxHeader
    requires Scanning(cfg, target, f0, t, data, start, start)
    ensures start <= p <= |data| && f.nread == f0.nread && f.state == f0.state
    ensures e == OK ==> Scanning(cfg, target, f, t, data, start, p) && (p < |data| ==> data[p] == CR || data[p] == LF)
    ensures e != OK ==> p < |data| && FailsAs(target, e, |data| - p, Merge(t.events))
  {
    hide Scanning, ValueByte, IsHeaderChar, FailsAs, Inv, Run;
    f, p, e := f0, start, OK;
    while p != |data|
      invariant start <= p <= |data| && f.nread == f0.nread && f.state == f0.state && e == OK
      invariant Scanning(cfg, target, f, t, data, start, p)
    {
      var ch := data[p];
      if ch == CR || ch == LF { return; }
      if !IsHeaderChar(ch) {
        BadValue(cfg, target, f, t, data, start, p, InvalidHeaderToken);
        return f, p, InvalidHeaderToken;
      }
      if f.headerState == General {
        var pe := p + Min(|data| - p, cfg.maxHeader);
        ghost var first := p;
        while p != pe
          invariant start <= first <= p <= pe <= |data|
          invariant first == p ==> data[p] != CR && data[p] != LF
          invariant Scanning(cfg, target, f, t, data, start, p)
          decreases pe - p
        {
          ch := data[p];
          if ch == CR || ch == LF {
            p := p - 1;
            break;
          }
          if !IsHeaderChar(ch) {
            BadValue(cfg, target, f, t, data, start, p, InvalidHeaderToken);
            return f, p, InvalidHeaderToken;
          }
          GeneralValue(f, ch);
          ScanValue(cfg, target, f, t, data, start, p);
          p := p + 1;
        }
        if p == |data| {
          p := p - 1;
        } else if p == pe {
          Overshoot(cfg, target, f, t, data, start, p);
        }
      } else {
        match ValueByte(f, ch) {
          case ValueErr(errno) =>
            OnlyLengths(f, ch);
            BadValue(cfg, target, f, t, data, start, p, errno);
            return f, p, errno;
          case ValueOk(g) =>
            ScanValue(cfg, target, f, t, data, start, p);
            f := g;
        }
      }
      p := p + 1;
    }
  }

  lemma GeneralValue(f: Fields, ch: byte)
    requires f.headerState == General
    ensures ValueByte(f, ch) == ValueOk(f)
  {}

  lemma OnlyLengths(f: Fields, ch: byte)
    ensures ValueByte(f, ch).ValueErr? ==> ValueByte(f, ch) == ValueErr(InvalidContentLength)
  {
    hide EncodingByte, ConnectionByte;
  }

  // ---- the switch

  /** How a state's code ends: next byte, the switch again, a return for another protocol, an error. */
  datatype Ending = GoOn | Again | Leave | Stop(errno: Errno)

  /** A slice left over from an earlier byte belongs to the state, or is a chunk's data before its CR. */
  predicate NotStale(s: State, live: Live) {
    ResumeMark(s) == NoMark && live.From? ==> s == Chunk(ChunkDataAlmostDone)
  }

  /** Before byte `p`, all bytes before it agreed. */
  ghost predicate Synced(cfg: Config, target: RunResult, f: Fields, t: Tape, data: seq<byte>, p: nat) {
    && p <= |data| && LiveFits(f.state, t.live, p) && (p < |data| ==> NotStale(f.state, t.live))
    && OnTrack(cfg, target, Machine(f, View(t, data, p)), data[p..])
  }

  /** Byte `p` is counted and the switch is about to take it. */
  ghost predicate Switching(cfg: Config, target: RunResult, f: Fields, t: Tape, data: seq<byte>, p: nat) {
    && p < |data| && LiveFits(f.state, t.live, p) && NotStale(f.state, t.live)
    && Consistent(f) && f.nread <= cfg.maxHeader && Resumable(View(t, data, p), ResumeMark(f.state))
    && target == Onward(cfg, Dispatch(cfg, f, Slot(View(t, data, p), ResumeMark(f.state)), data[p]), data[p + 1..])
  }

  /** What the code of a state leaves at byte `n`. */
  ghost predicate EndsWell(cfg: Config, target: RunResult, f: Fields, t: Tape, data: seq<byte>, n: nat, end: Ending) {
    && n < |data|
    && match end
       case GoOn => Synced(cfg, target, f, t, data, n + 1)
       case Again => Switching(cfg, target, f, t, data, n) && !TakesBody(f.state)
       case Leave =>
         target == Stopped(Machine(f, Merge(t.events)), |data| - n - 1) && Inv(cfg, Machine(f, Merge(t.events)))
       case Stop(e) => FailsAs(target, e, |data| - n, Merge(t.events))
  }

  /** The switch never fails without a reason, nor on the header size. */
  predicate WithReason(m: Move) { m.control != Fail(OK) && m.control != Fail(HeaderOverflow) }

  lemma LinesReason(f: Fields, ch: byte)
    ensures f.state.Between? ==> WithReason(OnBetween(f, f.state.between, ch))
    ensures f.state.StatusLine? ==> WithReason(OnStatusLine(f, f.state.res, ch))
    ensures f.state.Version? ==> WithReason(OnVersion(f, f.state.version, ch))
    ensures WithReason(OnMethod(f, ch)) && WithReason(OnSpacesBeforeUrl(f, ch))
    ensures f.state.Target? ==> WithReason(OnTarget(f, f.state.url, ch))
  {
    hide FirstGuess, BetterGuess, MethodName, ParseUrlChar;
  }

  lemma NamesReason(f: Fields, ch: byte)
    ensures f.state.HeaderName? ==> WithReason(OnHeaderName(f, f.state.name, ch))
    ensures f.state.HeaderBody? ==> WithReason(OnHeaderBody(f, f.state.value, ch))
  {
    hide FieldByte, FirstValueState, EncodingByte, ConnectionByte, FirstHeaderState, EndOfHeader, Token, IsHeaderChar;
  }

  lemma BodiesReason(f: Fields, ch: byte, answer: Answer)
    ensures f.state == HeadEnd(HeadersAlmostDone) ==> WithReason(OnHeadersAlmostDone(f, ch, answer))
    ensures f.state == HeadEnd(HeadersDone) ==> WithReason(OnHeadersDone(f, ch))
    ensures f.state.Chunk? ==> WithReason(OnChunk(f, f.state.chunk, ch))
    ensures f.state.Payload? ==> WithReason(OnPayload(f, f.state.payload))
  {
    hide NeedsEof, Unhex;
  }

  lemma FailsWithReason(f: Fields, ch: byte, answer: Answer)
    ensures WithReason(Transition(f, ch, answer))
  {
    hide WithReason, OnBetween, OnStatusLine, OnMethod, OnSpacesBeforeUrl, OnTarget, OnVersion,
      OnHeaderName, OnHeaderBody, OnHeadersAlmostDone, OnHeadersDone, OnChunk, OnPayload;
    LinesReason(f, ch);
    NamesReason(f, ch);
    BodiesReason(f, ch, answer);
  }

  /** What a pass of the switch without error leaves. */
  ghost predicate PassEnds(cfg: Config, target: RunResult, s: State, m: Move, u: Tape, data: seq<byte>, p: nat)
    requires p < |data|
  {
    match m.control
    case Advance => Synced(cfg, target, m.f, u, data, p + 1)
    case Reexecute => Switching(cfg, target, m.f, u, data, p) && !TakesBody(m.f.state) && Rank(m.f.state) < Rank(s)
    case Exit => target == Stopped(Machine(m.f, Merge(u.events)), |data| - p - 1) && u.live == NoSlice &&
                 Inv(cfg, Machine(m.f, Merge(u.events)))
    case Fail(_) => true
  }

  /** One pass of the switch takes agreement from dispatch to dispatch, or to the next byte. */
  lemma OnePass(cfg: Config, target: RunResult, f: Fields, t: Tape, data: seq<byte>, p: nat)
    requires Switching(cfg, target, f, t, data, p) && !TakesBody(f.state)
    ensures var m := Transition(f, data[p], cfg.answers(f.answered));
            !m.control.Fail? ==> AllAlone(KindOf(t.live), m.effects)
    ensures var m := Transition(f, data[p], cfg.answers(f.answered));
            if m.control.Fail? then FailsAs(target, m.control.errno, |data| - p, Merge(t.events))
            else PassEnds(cfg, target, f.state, m, PerformAll(t, m.effects, data, p), data, p)
  {
    hide Transition, Run, Consistent, Orderly, PerformAll, ApplyAll, ResumeMark, Passing, Rank, Merge, Push, AllAlone, Alone;
    var answer := cfg.answers(f.answered);
    var m := Transition(f, data[p], answer);
    TransitionKeeps(f, data[p], answer);
    TransitionOrderly(f, data[p], answer);
    RankFalls(f, data[p], answer);
    FailsWithReason(f, data[p], answer);
    if !m.control.Fail? {
      PerformOrderly(f.state, t, m, data, p);
      ApplyOrderly(f.state, Slot(View(t, data, p), ResumeMark(f.state)), m, data[p]);
      if m.control == Reexecute { BodyMarks(f.state, m); }
    }
  }

  /** Only the slice states leave a body mark behind. */
  lemma BodyMarks(s: State, m: Move)
    requires Orderly(s, m) && m.control == Reexecute
    ensures !TakesBody(m.f.state)
  {}

  /** Counting byte `p` before the switch. */
  lemma Counted(cfg: Config, target: RunResult, f: Fields, t: Tape, data: seq<byte>, p: nat)
    requires Synced(cfg, target, f, t, data, p) && p < |data|
    ensures if !ParsingHeader(f.state) then Switching(cfg, target, f, t, data, p)
            else if f.nread + 1 > cfg.maxHeader then FailsAs(target, HeaderOverflow, |data| - p, Merge(t.events))
            else Switching(cfg, target, f.(nread := f.nread + 1), t, data, p)
  {
    hide Dispatch, ParsingHeader, Consistent, ResumeMark, View, Merge, Reports, Run, Resumable;
    var m := Machine(f, View(t, data, p));
    assert data[p..][0] == data[p] && data[p..][1..] == data[p + 1..];
    if !ParsingHeader(f.state) {
      NotCounted(cfg, m, data[p..]);
    } else if f.nread + 1 > cfg.maxHeader {
      ViewReports(t, data, p);
      OverflowStep(cfg, m, data[p..]);
    } else {
      CountKeeps(f, f.nread + 1);
      CountedStep(cfg, m, data[p..]);
    }
  }

  /** A scan that used up the buffer. */
  lemma ScanExhausted(cfg: Config, target: RunResult, f: Fields, t: Tape, data: seq<byte>, start: nat)
    requires start < |data| && 0 < f.nread && t.live.From? && t.live.start <= start
    requires ResumeMark(f.state) == Marked(t.live.kind)
    requires Scanning(cfg, target, f, t, data, start, |data|)
    ensures var n := f.nread + |data| - 1 - start;
            if n > cfg.maxHeader then FailsAs(target, HeaderOverflow, 1, Merge(t.events))
            else Synced(cfg, target, f.(nread := n), t, data, |data|)
  {
    hide Run, View, Consistent, ResumeMark, Merge;
    if Doomed(cfg, target, f, t, data, start, |data|) {
      DoomedFails(cfg, target, f, t, data, start, |data|, HeaderOverflow);
    }
  }

  /** A scan that stopped before the end of the buffer. */
  lemma ScanStopped(cfg: Config, target: RunResult, f: Fields, t: Tape, data: seq<byte>, start: nat, p: nat)
    requires start <= p < |data| && 0 < f.nread && t.live.From? && t.live.start <= start
    requires ResumeMark(f.state) == Marked(t.live.kind) && ParsingHeader(f.state)
    requires Scanning(cfg, target, f, t, data, start, p)
    ensures var n := f.nread + p - start;
            if n > cfg.maxHeader then FailsAs(target, HeaderOverflow, |data| - p, Merge(t.events))
            else Switching(cfg, target, f.(nread := n), t, data, p)
  {
    hide Run, View, Consistent, ResumeMark, ParsingHeader, Merge;
    var n := f.nread + p - start;
    if !Doomed(cfg, target, f, t, data, start, p) {
      var g := f.(nread := n - 1);
      Counted(cfg, target, g, t, data, p);
      assert g.(nread := n) == f.(nread := n);
    } else {
      DoomedFails(cfg, target, f, t, data, start, p, HeaderOverflow);
    }
  }

  lemma CutTold(t: Tape, data: seq<byte>, p: nat)
    requires t.live.From? && t.live.start <= p <= |data|
    ensures Merge(Cut(t, t.live.kind, data, p).events) == View(t, data, p)
  {
    CutView(t, t.live.kind, data, p);
  }

  /** A header value that turns out too large at its end, where it is reported all the same. */
  lemma OverflowAtEnd(cfg: Config, target: RunResult, f: Fields, t: Tape, data: seq<byte>, start: nat, p: nat)
    requires start <= p < |data| && 0 < f.nread && t.live.From? && t.live.start <= start && t.live.kind == Value
    requires ParsingHeader(f.state) && f.nread + p - start > cfg.maxHeader
    requires Scanning(cfg, target, f, t, data, start, p)
    ensures FailsAs(target, HeaderOverflow, |data| - p, Merge(Cut(t, Value, data, p).events))
  {
    hide Run, View, Inv, ParsingHeader, Merge;
    CutTold(t, data, p);
    if Doomed(cfg, target, f, t, data, start, p) {
      DoomedFails(cfg, target, f, t, data, start, p, HeaderOverflow);
    } else {
      OverflowStep(cfg, Machine(f.(nread := f.nread - 1 + p - start), View(t, data, p)), data[p..]);
    }
  }

  /** The bytes a body state takes from the buffer at once, all but the last of them. */
  lemma TakeBody(cfg: Config, target: RunResult, f: Fields, events: seq<Event>, data: seq<byte>, p: nat, k: nat)
    requires Switching(cfg, target, f, Tape(events, NoSlice), data, p) && TakesBody(f.state)
    requires 0 < k <= |data| - p
    requires f.state != Payload(BodyIdentityEof) ==> k < f.contentLength
    ensures Synced(cfg, target, AfterBody(f, k), Tape(events, From(Body, p)), data, p + k) || p + k < |data|
    ensures target == Run(cfg, Machine(AfterBody(f, k), View(Tape(events, From(Body, p)), data, p + k)), data[p + k..])
    ensures Consistent(AfterBody(f, k))
  {
    hide Run, Dispatch, Push;
    var m := Machine(f, Merge(events));
    BodyNotCounted(cfg, m, data, p);
    BodySkip(cfg, f, m.log, data[p..], k);
    assert data[p..][..k] == data[p..p + k] && data[p..][k..] == data[p + k..];
  }

  lemma BodyNotCounted(cfg: Config, m: Machine, data: seq<byte>, p: nat)
    requires TakesBody(m.f.state) && p < |data|
    ensures Run(cfg, m, data[p..]) == Onward(cfg, Dispatch(cfg, m.f, Slot(m.log, NoMark), data[p]), data[p + 1..])
  {
    hide Dispatch;
    assert data[p..][0] == data[p] && data[p..][1..] == data[p + 1..];
  }

  /** All of a body but its last byte `q`. */
  lemma UpToLast(cfg: Config, target: RunResult, f: Fields, events: seq<Event>, data: seq<byte>, p: nat, q: nat)
    requires Switching(cfg, target, f, Tape(events, NoSlice), data, p) && TakesBody(f.state)
    requires f.state != Payload(BodyIdentityEof) && p <= q < |data| && f.contentLength == q + 1 - p
    ensures var g := f.(contentLength := 1);
            var log := if p == q then Merge(events) else Push(Merge(events), Data(Body, data[p..q]));
            target == Run(cfg, Machine(g, log), data[q..]) && Consistent(g) &&
            Push(log, Data(Body, [data[q]])) == Push(Merge(events), Data(Body, data[p..q + 1]))
  {
    hide Run, Dispatch, Push, Merge, Consistent;
    assert data[q..q + 1] == [data[q]];
    if p == q {
      BodyNotCounted(cfg, Machine(f, Merge(events)), data, p);
      assert f.(contentLength := 1) == f;
    } else {
      TakeBody(cfg, target, f, events, data, p, q - p);
      assert data[p..q] + [data[q]] == data[p..q + 1];
      PushTwice(Merge(events), Body, data[p..q], [data[q]]);
    }
  }

  lemma IdentityEnds(cfg: Config, target: RunResult, f: Fields, events: seq<Event>, data: seq<byte>, p: nat, q: nat)
    requires Switching(cfg, target, f, Tape(events, NoSlice), data, p) && f.state == Payload(BodyIdentity)
    requires p <= q < |data| && f.contentLength == q + 1 - p
    ensures Switching(cfg, target, f.(contentLength := 0, state := Payload(MessageDone)),
                      Tape(events + [Data(Body, data[p..q + 1])], NoSlice), data, q)
  {
    hide Run, Dispatch, Push, Merge;
    UpToLast(cfg, target, f, events, data, p, q);
    var g := f.(contentLength := 1);
    var log := if p == q then Merge(events) else Push(Merge(events), Data(Body, data[p..q]));
    assert data[q..][0] == data[q] && data[q..][1..] == data[q + 1..];
    LastIdentityByte(cfg, g, log, data[q..]);
    MergeSnoc(events, Data(Body, data[p..q + 1]));
    assert g.(contentLength := 0, state := Payload(MessageDone)) ==
           f.(contentLength := 0, state := Payload(MessageDone));
  }

  lemma ChunkEnds(cfg: Config, target: RunResult, f: Fields, events: seq<Event>, data: seq<byte>, p: nat, q: nat)
    requires Switching(cfg, target, f, Tape(events, NoSlice), data, p) && f.state == Chunk(ChunkData)
    requires p <= q < |data| && f.contentLength == q + 1 - p
    ensures Synced(cfg, target, f.(contentLength := 0, state := Chunk(ChunkDataAlmostDone)),
                   Tape(events, From(Body, p)), data, q + 1)
  {
    hide Run, Dispatch, Push, Merge;
    UpToLast(cfg, target, f, events, data, p, q);
    var g := f.(contentLength := 1);
    var log := if p == q then Merge(events) else Push(Merge(events), Data(Body, data[p..q]));
    assert data[q..][0] == data[q] && data[q..][1..] == data[q + 1..];
    LastChunkByte(cfg, g, log, data[q..]);
    assert g.(contentLength := 0, state := Chunk(ChunkDataAlmostDone)) ==
           f.(contentLength := 0, state := Chunk(ChunkDataAlmostDone));
  }

  lemma SlicesStart(cfg: Config, target: RunResult, f: Fields, t: Tape, data: seq<byte>, p: nat)
    requires Switching(cfg, target, f, t, data, p) && TakesBody(f.state)
    ensures p < |data| && t.live == NoSlice && Consistent(f) && f.nread <= cfg.maxHeader
    ensures f.state != Payload(BodyIdentityEof) ==> 0 < f.contentLength < ULLONG_MAX
  {
    hide Dispatch, View;
  }

  /** `s_body_identity`, `s_chunk_data` and `s_body_identity_eof`: a slice of the body at once. Returns
      the position of the last byte taken. */
  method TakePayload(cfg: Config, f0: Fields, t0: Tape, data: seq<byte>, p: nat, ghost target: RunResult)
    returns (f: Fields, t: Tape, q: nat, end: Ending)
    requires Switching(cfg, target, f0, t0, data, p) && TakesBody(f0.state)
    ensures p <= q && EndsWell(cfg, target, f, t, data, q, end)
  {
    hide Switching, Synced, View, Run;
    SlicesStart(cfg, target, f0, t0, data, p);
    end := GoOn;
    t := Perform(t0, Mark(Body), data, p);
    if f0.state == Payload(BodyIdentityEof) {
      f, q := f0, |data| - 1;
      TakeBody(cfg, target, f0, t0.events, data, p, |data| - p);
    } else {
      assert f0.contentLength != 0 && f0.contentLength != ULLONG_MAX;
      var toRead := Min(f0.contentLength, |data| - p);
      f := f0.(contentLength := f0.contentLength - toRead);
      q := p + toRead - 1;
      if f.contentLength > 0 {
        TakeBody(cfg, target, f0, t0.events, data, p, toRead);
      } else if f0.state == Payload(BodyIdentity) {
        f := f.(state := Payload(MessageDone));
        t := Cut(t, Body, data, q + 1);
        end := Again;
        IdentityEnds(cfg, target, f0, t0.events, data, p, q);
      } else {
        f := f.(state := Chunk(ChunkDataAlmostDone));
        ChunkEnds(cfg, target, f0, t0.events, data, p, q);
      }
    }
  }

  // ---- the loop over the buffer

  /** The mark set on entry when the parser resumes inside a token. */
  function ResumeLive(s: State): Live {
    match ResumeMark(s)
    case NoMark => NoSlice
    case Marked(k) => From(k, 0)
  }

  lemma StartSynced(cfg: Config, f: Fields, events: seq<Event>, data: seq<byte>)
    requires Inv(cfg, Machine(f, Merge(events)))
    ensures Synced(cfg, Run(cfg, Machine(f, Merge(events)), data), f, Tape(events, ResumeLive(f.state)), data, 0)
  {
    hide Run, Consistent, Merge;
    assert data[0..] == data;
    match ResumeMark(f.state)
    case NoMark =>
    case Marked(k) =>
      PushNothing(Merge(events), k);
      assert data[0..0] == [];
  }

  /** The assertions of the source at the head of the switch. */
  lemma SourceAssertions(cfg: Config, target: RunResult, f: Fields, t: Tape, data: seq<byte>, p: nat)
    requires Synced(cfg, target, f, t, data, p)
    ensures f.state == Chunk(ChunkSizeStart) ==> f.nread == 0
    ensures f.state.Chunk? ==> F_CHUNKED in f.flags
    ensures f.state == Chunk(ChunkDataAlmostDone) || f.state == Chunk(ChunkDataDone) ==> f.contentLength == 0
    ensures f.state == Chunk(ChunkData) || f.state == Payload(BodyIdentity) ==> 0 < f.contentLength < ULLONG_MAX
    ensures f.state == HeaderBody(HeaderValue) ==> !f.headerState.Named?
    ensures f.state == HeaderName(HeaderField) ==> f.headerState.General? || f.headerState.Named?
    ensures f.nread <= cfg.maxHeader
  {
    hide Run, View;
  }

  lemma ScanStarts(cfg: Config, target: RunResult, f: Fields, t: Tape, data: seq<byte>, p: nat)
    requires Synced(cfg, target, f, t, data, p) && p < |data| && f.nread + 1 <= cfg.maxHeader
    requires f.state == HeaderName(HeaderField) || f.state == HeaderBody(HeaderValue)
    ensures t.live.From? && Marked(t.live.kind) == ResumeMark(f.state) && t.live.start <= p
    ensures Scanning(cfg, target, f.(nread := f.nread + 1), t, data, p, p)
  {
    hide Run, View, Consistent;
    assert f.(nread := f.nread + 1).(nread := f.nread) == f;
  }

  /** The end of a header name or value, in one pass of the switch. */
  lemma TokenEnds(cfg: Config, target: RunResult, f: Fields, t: Tape, data: seq<byte>, p: nat)
    requires Switching(cfg, target, f, t, data, p) && t.live.From?
    ensures f.state == HeaderName(HeaderField) && !IsToken(data[p]) ==>
              if data[p] == ':'
              then Synced(cfg, target, f.(state := HeaderName(HeaderValueDiscardWs)), Cut(t, Field, data, p), data, p + 1)
              else FailsAs(target, InvalidHeaderToken, |data| - p, Merge(t.events))
    ensures f.state == HeaderBody(HeaderValue) && data[p] == CR ==>
              Synced(cfg, target, f.(state := HeaderBody(HeaderAlmostDone)), Cut(t, Value, data, p), data, p + 1)
    ensures f.state == HeaderBody(HeaderValue) && data[p] == LF ==>
              Switching(cfg, target, f.(state := HeaderBody(HeaderAlmostDone)), Cut(t, Value, data, p), data, p)
  {
    hide Run, View, Consistent, Token, Dispatch, Synced;
    if f.state == HeaderName(HeaderField) || f.state == HeaderBody(HeaderValue) {
      OnePass(cfg, target, f, t, data, p);
      assert PerformAll(t, [Flush(Field)], data, p) == Cut(t, Field, data, p);
      assert PerformAll(t, [Flush(Value)], data, p) == Cut(t, Value, data, p);
    }
  }

  /** `s_header_field` */
  method TakeField(cfg: Config, f0: Fields, t0: Tape, data: seq<byte>, start: nat, ghost target: RunResult)
    returns (f: Fields, t: Tape, n: nat, end: Ending)
    requires |data| < SIZE_LIMIT && cfg.maxHeader < SIZE_LIMIT && 0 < f0.nread <= cfg.maxHeader
    requires start < |data| && t0.live.From? && t0.live.kind == Field && t0.live.start <= start
    requires f0.state == HeaderName(HeaderField) && Scanning(cfg, target, f0, t0, data, start, start)
    ensures start <= n && EndsWell(cfg, target, f, t, data, n, end)
  {
    hide Run, Synced, Switching, Scanning, Inv, Merge, View, IsToken, FailsAs;
    t := t0;
    f, n := ScanHeaderField(cfg, f0, data, start, target, t);
    if n == |data| {
      ScanExhausted(cfg, target, f, t, data, start);
      n := n - 1;
      f := f.(nread := CountBytes(f.nread, n - start));
      return f, t, n, if f.nread > cfg.maxHeader then Stop(HeaderOverflow) else GoOn;
    }
    ScanStopped(cfg, target, f, t, data, start, n);
    f := f.(nread := CountBytes(f.nread, n - start));
    if f.nread > cfg.maxHeader { return f, t, n, Stop(HeaderOverflow); }
    TokenEnds(cfg, target, f, t, data, n);
    if data[n] != ':' { return f, t, n, Stop(InvalidHeaderToken); }
    f := f.(state := HeaderName(HeaderValueDiscardWs));
    t := Cut(t, Field, data, n);
    end := GoOn;
  }

  /** `s_header_value` */
  method TakeValue(cfg: Config, f0: Fields, t0: Tape, data: seq<byte>, start: nat, ghost target: RunResult)
    returns (f: Fields, t: Tape, n: nat, end: Ending)
    requires |data| < SIZE_LIMIT && cfg.maxHeader < SIZE_LIMIT && 0 < f0.nread <= cfg.maxHeader
    requires start < |data| && t0.live.From? && t0.live.kind == Value && t0.live.start <= start
    requires f0.state == HeaderBody(HeaderValue) && Scanning(cfg, target, f0, t0, data, start, start)
    ensures start <= n && EndsWell(cfg, target, f, t, data, n, end)
  {
    hide Run, Synced, Switching, Scanning, Inv, Merge, View, FailsAs;
    var e;
    t := t0;
    f, n, e := ScanHeaderValue(cfg, f0, data, start, target, t);
    if e != OK { return f, t, n, Stop(e); }
    if n == |data| {
      ScanExhausted(cfg, target, f, t, data, start);
      n := n - 1;
      f := f.(nread := CountBytes(f.nread, n - start));
      return f, t, n, if f.nread > cfg.maxHeader then Stop(HeaderOverflow) else GoOn;
    }
    ScanStopped(cfg, target, f, t, data, start, n);
    var count := CountBytes(f.nread, n - start);
    if count <= cfg.maxHeader {
      TokenEnds(cfg, target, f.(nread := count), t, data, n);
    } else {
      OverflowAtEnd(cfg, target, f, t, data, start, n);
    }
    f := f.(state := HeaderBody(HeaderAlmostDone), nread := count);
    if data[n] == CR {
      t := Cut(t, Value, data, n);
      return f, t, n, if count > cfg.maxHeader then Stop(HeaderOverflow) else GoOn;
    }
    if count > cfg.maxHeader { return f, t, n, Stop(HeaderOverflow); }
    t := Cut(t, Value, data, n);
    end := Again;
  }

  /** The `switch` and its `goto reexecute`, for the states that take one byte. */
  method TakeByte(cfg: Config, f0: Fields, t0: Tape, data: seq<byte>, n: nat, ghost target: RunResult)
    returns (f: Fields, t: Tape, end: Ending)
    requires Switching(cfg, target, f0, t0, data, n) && !TakesBody(f0.state)
    ensures EndsWell(cfg, target, f, t, data, n, end) && end != Again
  {
    hide Run, Synced, Transition, Inv, Merge, View, Consistent, Dispatch, ResumeMark;
    f, t, end := f0, t0, Again;
    while end == Again
      invariant EndsWell(cfg, target, f, t, data, n, end)
      decreases if end == Again then 1 + Rank(f.state) else 0
    {
      OnePass(cfg, target, f, t, data, n);
      var move := Transition(f, data[n], cfg.answers(f.answered));
      if !move.control.Fail? { t := PerformAll(t, move.effects, data, n); }
      f := move.f;
      match move.control {
        case Advance => end := GoOn;
        case Reexecute =>
        case Exit => end := Leave;
        case Fail(errno) => end := Stop(errno);
      }
    }
  }

  /** `sn_http_parser_execute` on a buffer that is not empty, from a parser without error: `f0` are the
      fields, `events0` the callbacks so far. It does what the byte machine does. */
  method ExecuteBuffer(cfg: Config, f0: Fields, events0: seq<Event>, data: seq<byte>)
    returns (f: Fields, events: seq<Event>, n: nat, e: Errno)
    requires 0 < |data| < SIZE_LIMIT && cfg.maxHeader < SIZE_LIMIT
    requires Inv(cfg, Machine(f0, Merge(events0)))
    ensures n <= |data|
    ensures match Run(cfg, Machine(f0, Merge(events0)), data)
            case Ran(m) => e == OK && n == |data| && m == Machine(f, Merge(events))
            case Stopped(m, left) => e == OK && n == |data| - left && m == Machine(f, Merge(events))
            case Failed(_, _, _) =>
              FailsAs(Run(cfg, Machine(f0, Merge(events0)), data), e, |data| - n, Merge(events))
    ensures e == OK ==> Inv(cfg, Machine(f, Merge(events)))
  {
    hide Run, Synced, Switching, Scanning, Transition, Inv, Consistent, Merge, View;
    ghost var target := Run(cfg, Machine(f0, Merge(events0)), data);
    var t := Tape(events0, ResumeLive(f0.state));
    f, n := f0, 0;
    StartSynced(cfg, f0, events0, data);
    while n < |data|
      invariant n <= |data| && Synced(cfg, target, f, t, data, n)
    {
      SourceAssertions(cfg, target, f, t, data, n);
      Counted(cfg, target, f, t, data, n);
      if ParsingHeader(f.state) {
        var count := CountBytes(f.nread, 1);
        if count > cfg.maxHeader { return f, t.events, n, HeaderOverflow; }
        if f.state == HeaderName(HeaderField) || f.state == HeaderBody(HeaderValue) {
          ScanStarts(cfg, target, f, t, data, n);
        }
        f := f.(nread := count);
      }
      assert f.state == Chunk(ChunkSizeStart) ==> f.nread == 1 && F_CHUNKED in f.flags;
      var end := Again;
      if f.state == HeaderName(HeaderField) {
        f, t, n, end := TakeField(cfg, f, t, data, n, target);
      } else if f.state == HeaderBody(HeaderValue) {
        f, t, n, end := TakeValue(cfg, f, t, data, n, target);
      } else if TakesBody(f.state) {
        f, t, n, end := TakePayload(cfg, f, t, data, n, target);
      }
      if end == Again {
        f, t, end := TakeByte(cfg, f, t, data, n, target);
      }
      match end {
        case GoOn => n := n + 1;
        case Leave => return f, t.events, n + 1, OK;
        case Stop(errno) => return f, t.events, n, errno;
      }
    }
    RunsOut(cfg, target, f, t, data);
    // at most one mark is set here: report its slice
    events := if t.live.From? then Cut(t, t.live.kind, data, |data|).events else t.events;
    e := OK;
  }

  lemma RunsOut(cfg: Config, target: RunResult, f: Fields, t: Tape, data: seq<byte>)
    requires Synced(cfg, target, f, t, data, |data|)
    ensures t.live.From? ==> t.live.start <= |data|
    ensures target == Ran(Machine(f, View(t, data, |data|))) && Inv(cfg, Machine(f, View(t, data, |data|)))
    ensures var events := if t.live.From? then Cut(t, t.live.kind, data, |data|).events else t.events;
            View(t, data, |data|) == Merge(events)
  {
    hide Merge, Consistent, ByteStep;
    if t.live.From? { CutView(t, t.live.kind, data, |data|); }
  }
}
