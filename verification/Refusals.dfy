/** What the parser refuses: for each element of a message the bytes that it takes and the error that any other byte
    ends in. */
module Refusals {
  import opened Bytes
  import opened Alphabets
  import opened Trace
  import opened ParserState
  import opened Transitions
  import opened ByteMachine
  import opened Invariants
  import opened Skips
  import opened Numbers
  import opened Bodies

  // ---- before a message

  /** Nothing but line ends and 'H' is taken where a response may begin. */
  lemma ResponseStarts(cfg: Config, f: Fields, log: seq<Event>, s: seq<byte>)
    requires f.state == Between(StartRes) && s != [] && s[0] != CR && s[0] != LF && s[0] != 'H' && f.nread + 1 <= cfg.maxHeader
    ensures Run(cfg, Machine(f, log), s) == Failed(InvalidConstant, |s|, log)
  {
    hide Run;
    FailStep(cfg, Machine(f, log), s, InvalidConstant);
  }

  // ---- protocol and version

  /** Byte `k` of the protocol and its version, section 2.6 of RFC 7230, and the space after it in a status line. */
  predicate ProtocolFits(k: nat, ch: byte) {
    if k < 5 then ch == "HTTP/"[k] else if k == 6 then ch == '.' else if k == 8 then ch == ' ' else DecimalDigit(ch)
  }

  /** The first of the bytes from the `k`-th on that does not fit. */
  function Misfit(k: nat, t: seq<byte>): (n: nat)
    ensures n <= |t|
    decreases |t|
  {
    if t == [] || !ProtocolFits(k, t[0]) then 0 else 1 + Misfit(k + 1, t[1..])
  }

  /** Before byte `k`: in a request, or in a status line after its first letter. */
  function ProtocolState(response: bool, k: nat): State {
    if response then
      StatusLine(match k
                 case 0 => ResH case 1 => ResH case 2 => ResHT case 3 => ResHTT case 4 => ResHTTP case 5 => ResHttpMajor
                 case 6 => ResHttpDot case 7 => ResHttpMinor case 8 => ResHttpEnd case _ => ResFirstStatusCode)
    else
      Version(match k
              case 0 => ReqHttpStart case 1 => ReqHttpH case 2 => ReqHttpHT case 3 => ReqHttpHTT case 4 => ReqHttpHTTP
              case 5 => ReqHttpMajor case 6 => ReqHttpDot case 7 => ReqHttpMinor case _ => ReqHttpEnd)
  }

  function ProtocolError(k: nat): Errno { if k == 0 then InvalidConstant else if k < 5 then Strict else InvalidVersion }

  /** The fields after the bytes `t` from the `k`-th on: the digits are kept. */
  function ProtocolFields(response: bool, f: Fields, k: nat, t: seq<byte>): Fields {
    f.(state := ProtocolState(response, k + |t|), nread := f.nread + |t|,
       major := if k <= 5 < k + |t| && IsNum(t[5 - k]) then Digit(t[5 - k]) else f.major,
       minor := if k <= 7 < k + |t| && IsNum(t[7 - k]) then Digit(t[7 - k]) else f.minor)
  }

  /** Spaces may stand before the protocol of a request, and SOURCE may name another one. */
  predicate AtProtocol(response: bool, f: Fields, k: nat, t: seq<byte>) {
    && f.state == ProtocolState(response, k) && k + |t| <= (if response then 9 else 8)
    && (k == 0 && t != [] ==> !response && t[0] != ' ' && !(t[0] == 'I' && f.verb == SOURCE))
  }

  lemma ProtocolMove(response: bool, g: Fields, k: nat, t: seq<byte>, answer: Answer)
    requires AtProtocol(response, g, k, t) && g.nread > 0 && t != []
    ensures Transition(g, t[0], answer) ==
            if ProtocolFits(k, t[0]) then Stay(ProtocolFields(response, g.(nread := g.nread - 1), k, [t[0]]))
            else Err(g, ProtocolError(k))
  {}

  lemma ProtocolMoves(response: bool, k: nat)
    ensures ParsingHeader(ProtocolState(response, k)) && ResumeMark(ProtocolState(response, k)) == NoMark
  {}

  lemma ProtocolByte(cfg: Config, response: bool, f: Fields, log: seq<Event>, k: nat, t: seq<byte>)
    requires AtProtocol(response, f, k, t) && t != [] && f.nread + 1 <= cfg.maxHeader
    ensures Run(cfg, Machine(f, log), t) ==
            if ProtocolFits(k, t[0]) then Run(cfg, Machine(ProtocolFields(response, f, k, [t[0]]), log), t[1..])
            else Failed(ProtocolError(k), |t|, log)
  {
    hide Run, Transition, ProtocolState, ParsingHeader, ResumeMark, ProtocolFits, ProtocolFields, ProtocolError;
    var g := f.(nread := f.nread + 1);
    ProtocolMove(response, g, k, t, cfg.answers(g.answered));
    ProtocolMoves(response, k);
    assert g.(nread := g.nread - 1) == f;
    if ProtocolFits(k, t[0]) {
      QuietStep(cfg, Machine(f, log), t, ProtocolFields(response, f, k, [t[0]]));
    } else {
      FailStep(cfg, Machine(f, log), t, ProtocolError(k));
    }
  }

  /** The protocol of a message: any beginning of "HTTP/", a digit, a point, a digit, and in a status line a space, is
      taken, and nothing else. */
  lemma {:induction false} ProtocolExact(cfg: Config, response: bool, f: Fields, log: seq<Event>, k: nat, t: seq<byte>)
    requires AtProtocol(response, f, k, t) && f.nread + |t| <= cfg.maxHeader
    ensures var n := Misfit(k, t);
            Run(cfg, Machine(f, log), t) ==
            if n == |t| then Ran(Machine(ProtocolFields(response, f, k, t), log))
            else Failed(ProtocolError(k + n), |t| - n, log)
    decreases |t|
  {
    hide Run, ProtocolFits, ProtocolFields, ProtocolError, ProtocolState;
    if t == [] {
      RunNothing(cfg, Machine(f, log));
      NoProtocol(response, f, k);
    } else {
      ProtocolByte(cfg, response, f, log, k, t);
      if ProtocolFits(k, t[0]) {
        NextProtocol(response, f, k, t);
        ProtocolExact(cfg, response, ProtocolFields(response, f, k, [t[0]]), log, k + 1, t[1..]);
      }
    }
  }

  lemma NoProtocol(response: bool, f: Fields, k: nat)
    requires f.state == ProtocolState(response, k)
    ensures ProtocolFields(response, f, k, []) == f
  {}

  lemma NextProtocol(response: bool, f: Fields, k: nat, t: seq<byte>)
    requires t != []
    ensures var g := ProtocolFields(response, f, k, [t[0]]);
            && g.state == ProtocolState(response, k + 1) && g.nread == f.nread + 1 && g.verb == f.verb
            && ProtocolFields(response, g, k + 1, t[1..]) == ProtocolFields(response, f, k, t)
  {
    hide ProtocolState;
  }

  lemma {:induction false} NoMisfit(k: nat, t: seq<byte>)
    requires forall i :: 0 <= i < |t| ==> ProtocolFits(k + i, t[i])
    ensures Misfit(k, t) == |t|
    decreases |t|
  {
    hide ProtocolFits;
    if t != [] {
      assert ProtocolFits(k + 0, t[0]);
      forall i | 0 <= i < |t| - 1 ensures ProtocolFits(k + 1 + i, t[1..][i]) { assert ProtocolFits(k + (i + 1), t[i + 1]); }
      NoMisfit(k + 1, t[1..]);
    }
  }

  /** SOURCE, and no other method, may name the protocol ICE, which leads to the same place. */
  lemma IceExact(cfg: Config, f: Fields, log: seq<Event>, t: seq<byte>)
    requires f.state == Version(ReqHttpStart) && 0 < |t| <= 3 && t[0] == 'I' && f.nread + |t| <= cfg.maxHeader
    ensures Run(cfg, Machine(f, log), t) ==
            if f.verb != SOURCE then Failed(InvalidConstant, |t|, log)
            else if |t| > 1 && t[1] != 'C' then Failed(Strict, |t| - 1, log)
            else if |t| > 2 && t[2] != 'E' then Failed(Strict, |t| - 2, log)
            else Ran(Machine(IceFields(f, |t|), log))
  {
    hide Run;
    if f.verb != SOURCE {
      FailStep(cfg, Machine(f, log), t, InvalidConstant);
    } else {
      QuietStep(cfg, Machine(f, log), t, IceFields(f, 1));
      IceEnds(cfg, f, log, t[1..]);
      if |t| == 1 { RunNothing(cfg, Machine(IceFields(f, 1), log)); }
    }
  }

  function IceFields(f: Fields, n: nat): Fields {
    f.(state := Version(if n == 1 then ReqHttpI else if n == 2 then ReqHttpIC else ReqHttpHTTP), nread := f.nread + n)
  }

  lemma IceEnds(cfg: Config, f: Fields, log: seq<Event>, t: seq<byte>)
    requires |t| <= 2 && f.nread + 1 + |t| <= cfg.maxHeader
    ensures t != [] ==>
              Run(cfg, Machine(IceFields(f, 1), log), t) ==
              if t[0] != 'C' then Failed(Strict, |t|, log)
              else if |t| > 1 && t[1] != 'E' then Failed(Strict, 1, log)
              else Ran(Machine(IceFields(f, |t| + 1), log))
  {
    hide Run;
    var g, h := IceFields(f, 1), IceFields(f, 2);
    if t != [] && t[0] != 'C' {
      FailStep(cfg, Machine(g, log), t, Strict);
    } else if t != [] {
      QuietStep(cfg, Machine(g, log), t, h);
      if |t| == 1 {
        RunNothing(cfg, Machine(h, log));
      } else if t[1] != 'E' {
        FailStep(cfg, Machine(h, log), t[1..], Strict);
      } else {
        QuietStep(cfg, Machine(h, log), t[1..], IceFields(f, 3));
        assert t[1..][1..] == [];
        RunNothing(cfg, Machine(IceFields(f, 3), log));
      }
    }
  }

  /** The line ends right after the version. */
  lemma VersionEnds(cfg: Config, f: Fields, log: seq<Event>, s: seq<byte>)
    requires f.state == Version(ReqHttpEnd) && s != [] && s[0] != CR && s[0] != LF && f.nread + 1 <= cfg.maxHeader
    ensures Run(cfg, Machine(f, log), s) == Failed(InvalidVersion, |s|, log)
  {
    hide Run;
    FailStep(cfg, Machine(f, log), s, InvalidVersion);
  }

  // ---- line ends

  /** States that a CR leads to, but for those inside a chunk. */
  predicate AwaitsLf(s: State) {
    s == Version(ReqLineAlmostDone) || s == StatusLine(ResLineAlmostDone) ||
    s == HeaderName(HeaderValueDiscardWsAlmostDone) || s == HeaderBody(HeaderAlmostDone) ||
    s == HeadEnd(HeadersAlmostDone) || s == Chunk(ChunkSizeAlmostDone)
  }

  /** After a CR only LF is taken. */
  lemma LfOnly(cfg: Config, f: Fields, log: seq<Event>, s: seq<byte>)
    requires AwaitsLf(f.state) && s != [] && s[0] != LF && f.nread + 1 <= cfg.maxHeader
    ensures Run(cfg, Machine(f, log), s) ==
            Failed(if f.state.Version? || f.state.HeaderBody? then LfExpected else Strict, |s|, log)
  {
    hide Run;
    FailStep(cfg, Machine(f, log), s, if f.state.Version? || f.state.HeaderBody? then LfExpected else Strict);
  }

  // ---- header names

  /** A name begins with a token character, or the empty line is there. */
  lemma NameStarts(cfg: Config, f: Fields, log: seq<Event>, s: seq<byte>)
    requires f.state == HeaderName(HeaderFieldStart) && s != [] && f.nread + 1 <= cfg.maxHeader
    requires s[0] != CR && s[0] != LF && !TokenChar(s[0])
    ensures Run(cfg, Machine(f, log), s) == Failed(InvalidHeaderToken, |s|, log)
  {
    hide Run, IsToken, TokenChar;
    TokensAre(s[0]);
    FailStep(cfg, Machine(f, log), s, InvalidHeaderToken);
  }

  /** A name goes on with token characters up to its colon. */
  lemma NameGoesOn(cfg: Config, f: Fields, log: seq<Event>, s: seq<byte>)
    requires f.state == HeaderName(HeaderField) && s != [] && f.nread + 1 <= cfg.maxHeader
    requires s[0] != ':' && !TokenChar(s[0])
    ensures Run(cfg, Machine(f, log), s) == Failed(InvalidHeaderToken, |s|, log)
  {
    hide Run, IsToken, TokenChar;
    TokensAre(s[0]);
    FailStep(cfg, Machine(f, log), s, InvalidHeaderToken);
  }

  // ---- header values

  /** In any value a byte that is no character of a value, CR or LF is refused; in one without a meaning every such
      character is taken. */
  lemma ValueExact(cfg: Config, f: Fields, log: seq<Event>, s: seq<byte>)
    requires f.state == HeaderBody(HeaderValue) && s != [] && s[0] != CR && s[0] != LF && f.nread + 1 <= cfg.maxHeader
    ensures !FieldChar(s[0]) ==> Run(cfg, Machine(f, log), s) == Failed(InvalidHeaderToken, |s|, log)
    ensures f.headerState == General && FieldChar(s[0]) ==>
              Run(cfg, Machine(f, log), s) ==
              Run(cfg, Machine(f.(nread := f.nread + 1), Push(log, Data(Value, [s[0]]))), s[1..])
  {
    hide Run, Push, IsHeaderChar, FieldChar;
    FieldCharsAre(s[0]);
    if !FieldChar(s[0]) {
      FailStep(cfg, Machine(f, log), s, InvalidHeaderToken);
    } else if f.headerState == General {
      ValueStep(cfg, f, log, s);
    }
  }

  // ---- chunks

  /** The end of a chunk: CR and LF and nothing else, section 4.1 of RFC 7230. */
  lemma ChunkTailExact(cfg: Config, f: Fields, log: seq<Event>, a: byte, b: byte)
    requires f.state == Chunk(ChunkDataAlmostDone)
    ensures Run(cfg, Machine(f, log), [a, b]) ==
            if a != CR then Failed(Strict, 2, log)
            else if b != LF then Failed(Strict, 1, log)
            else Ran(Machine(f.(state := Chunk(ChunkSizeStart), nread := 0), Push(log, ChunkComplete)))
  {
    hide Push;
    var g, h := f.(state := Chunk(ChunkDataDone)), f.(state := Chunk(ChunkSizeStart), nread := 0);
    var s, slot := [a, b], Slot(log, NoMark);
    assert s[1..] == [b] && [b][1..] == [];
    if a == CR {
      assert ApplyAll(slot, [Flush(Body)], CR) == Apply(slot, Flush(Body), CR) == slot;
      assert Run(cfg, Machine(f, log), s) == Run(cfg, Machine(g, log), [b]);
      if b == LF {
        assert ApplyAll(slot, [Notify(ChunkComplete)], LF) == Apply(slot, Notify(ChunkComplete), LF);
        RunNothing(cfg, Machine(h, Push(log, ChunkComplete)));
      }
    }
  }

  /** After a size line that announces `n` bytes: exactly so many are data, and only CR and LF may follow them. */
  lemma ChunkExact(cfg: Config, f: Fields, log: seq<Event>, c: ChunkText, x: seq<byte>)
    requires f.state == Chunk(ChunkSizeStart) && f.nread == 0 && LegalSizeLine(c, cfg.maxHeader) && c.data != []
    requires |x| == |c.data| + 2
    ensures var n := |c.data|;
            var log1 := Push(Push(log, ChunkHeader(n)), Data(Body, x[..n]));
            Run(cfg, Machine(f, log), SizeLine(c) + x) ==
            if x[n] != CR then Failed(Strict, 2, log1)
            else if x[n + 1] != LF then Failed(Strict, 1, log1)
            else Ran(Machine(f.(contentLength := 0), Delivered(log, x[..n])))
  {
    hide Run, Push, LegalSizeLine, SizeLine;
    var n := |c.data|;
    var g, log1 := AfterSizeLine(f, n), Push(log, ChunkHeader(n));
    var h, log2 := g.(contentLength := 0, state := Chunk(ChunkDataAlmostDone)), Push(log1, Data(Body, x[..n]));
    SizeLineRead(cfg, f, log, c);
    RunAppend(cfg, Machine(f, log), SizeLine(c), x);
    ChunkDataRead(cfg, g, log1, x[..n]);
    assert x == x[..n] + [x[n], x[n + 1]];
    RunAppend(cfg, Machine(g, log1), x[..n], [x[n], x[n + 1]]);
    ChunkTailExact(cfg, h, log2, x[n], x[n + 1]);
    assert h.(state := Chunk(ChunkSizeStart), nread := 0) == f.(contentLength := 0);
  }

  /** The digits a text begins with. */
  function HexSpan(t: seq<byte>): (n: nat)
    ensures n <= |t| && AllHex(t[..n]) && (n < |t| ==> Unhex(t[n]) == -1)
  {
    if t == [] || Unhex(t[0]) == -1 then 0
    else
      var n := HexSpan(t[1..]);
      assert t[..n + 1] == [t[0]] + t[1..][..n];
      1 + n
  }

  /** A chunk size begins with a digit. */
  lemma SizeStarts(cfg: Config, f: Fields, log: seq<Event>, s: seq<byte>)
    requires f.state == Chunk(ChunkSizeStart) && s != [] && Unhex(s[0]) == -1 && f.nread + 1 <= cfg.maxHeader
    ensures Run(cfg, Machine(f, log), s) == Failed(InvalidChunkSize, |s|, log)
  {
    hide Run, Unhex;
    FailStep(cfg, Machine(f, log), s, InvalidChunkSize);
  }

  /** After the digits there may be the end of the line, or an extension after ';' or a space. */
  lemma SizeGoesOn(cfg: Config, f: Fields, log: seq<Event>, s: seq<byte>)
    requires f.state == Chunk(ChunkSize) && s != [] && Unhex(s[0]) == -1 && f.nread + 1 <= cfg.maxHeader
    ensures Run(cfg, Machine(f, log), s) ==
            if s[0] == CR then Run(cfg, Machine(f.(state := Chunk(ChunkSizeAlmostDone), nread := f.nread + 1), log), s[1..])
            else if s[0] == ';' || s[0] == ' ' then
              Run(cfg, Machine(f.(state := Chunk(ChunkParameters), nread := f.nread + 1), log), s[1..])
            else Failed(InvalidChunkSize, |s|, log)
  {
    hide Run, Unhex;
    if s[0] == CR {
      QuietStep(cfg, Machine(f, log), s, f.(state := Chunk(ChunkSizeAlmostDone), nread := f.nread + 1));
    } else if s[0] == ';' || s[0] == ' ' {
      QuietStep(cfg, Machine(f, log), s, f.(state := Chunk(ChunkParameters), nread := f.nread + 1));
    } else {
      FailStep(cfg, Machine(f, log), s, InvalidChunkSize);
    }
  }

  /** A size line up to its CR is taken if and only if it is digits worth at most 2^64 - 17, and nothing, or an extension
      after ';' or a space. */
  lemma SizeLineExact(cfg: Config, f: Fields, log: seq<Event>, t: seq<byte>)
    requires f.state == Chunk(ChunkSizeStart) && CR !in t && f.nread + |t| + 1 <= cfg.maxHeader
    ensures var n := HexSpan(t);
            Run(cfg, Machine(f, log), t + [CR]).Ran? <==>
            0 < n && Hexadecimal(0, t[..n]) <= CHUNK_LIMIT && (n < |t| ==> t[n] == ';' || t[n] == ' ')
    ensures !Run(cfg, Machine(f, log), t + [CR]).Stopped?
  {
    hide Run, Unhex, HexSpan, AllHex;
    var n, s := HexSpan(t), t + [CR];
    CrIsNoDigit();
    if n == 0 {
      if t != [] { assert s[0] == t[0]; }
      SizeStarts(cfg, f, log, s);
    } else {
      var rest := t[n..] + [CR];
      assert s == t[..n] + rest;
      ChunkSizeExact(cfg, f, log, t[..n]);
      RunAppend(cfg, Machine(f, log), t[..n], rest);
      match Run(cfg, Machine(f, log), t[..n])
      case Ran(m) =>
        SizeGoesOn(cfg, m.f, log, rest);
        if n == |t| {
          assert rest == [CR] && rest[1..] == [];
          RunNothing(cfg, Machine(m.f.(state := Chunk(ChunkSizeAlmostDone), nread := m.f.nread + 1), log));
        } else {
          assert rest[0] == t[n] && CR !in t[n..];
          if t[n] == ';' || t[n] == ' ' { Extension(cfg, m.f, log, t[n..]); }
        }
      case Failed(_, _, _) =>
    }
  }

  lemma CrIsNoDigit()
    ensures Unhex(CR) == -1
  {}
}
