/** Content-Length and chunk sizes: which digit strings are accepted, and that they are stored exactly. */
module Numbers {
  import opened Bytes
  import opened Trace
  import opened ParserState
  import opened ByteMachine
  import opened Invariants
  import opened Skips

  predicate AllDigits(s: seq<byte>) { forall i :: 0 <= i < |s| ==> IsNum(s[i]) }

  /** Bytes the hexadecimal table reads as digits. */
  predicate AllHex(s: seq<byte>) { forall i :: 0 <= i < |s| ==> Unhex(s[i]) != -1 }

  /** The decimal number `s`, read after digits worth `v`. */
  function Decimal(v: nat, s: seq<byte>): nat
    requires AllDigits(s)
    decreases |s|
  {
    if s == [] then v else Decimal(v * 10 + Digit(s[0]), s[1..])
  }

  function Hexadecimal(v: nat, s: seq<byte>): nat
    requires AllHex(s)
    decreases |s|
  {
    if s == [] then v else Hexadecimal(v * 16 + Unhex(s[0]), s[1..])
  }

  lemma {:induction false} DecimalGrows(v: nat, s: seq<byte>)
    requires AllDigits(s)
    ensures Decimal(v, s) >= v
    decreases |s|
  {
    if s != [] { DecimalGrows(v * 10 + Digit(s[0]), s[1..]); }
  }

  lemma {:induction false} HexadecimalGrows(v: nat, s: seq<byte>)
    requires AllHex(s)
    ensures Hexadecimal(v, s) >= v
    decreases |s|
  {
    if s != [] { HexadecimalGrows(v * 16 + Unhex(s[0]), s[1..]); }
  }

  /** The bytes with a hexadecimal value are the hex digits and, by the table's missing half, every byte
      from 128 on, which counts as 0. */
  lemma HexBytes(ch: byte)
    ensures Unhex(ch) != -1 <==> IsHex(ch) || ch as int >= 128
    ensures ch as int >= 128 ==> Unhex(ch) == 0
  {}

  /** More digits of a Content-Length value. */
  lemma {:induction false} MoreDigits(cfg: Config, f: Fields, log: seq<Event>, s: seq<byte>)
    requires f.state == HeaderBody(HeaderValue) && f.headerState == Length(ContentLengthNum)
    requires AllDigits(s) && f.nread + |s| <= cfg.maxHeader && f.contentLength <= LENGTH_LIMIT
    requires EndsIn(log, Value)
    ensures var v := Decimal(f.contentLength, s);
            match Run(cfg, Machine(f, log), s)
            case Ran(m) => v <= LENGTH_LIMIT &&
              m == Machine(f.(contentLength := v, nread := f.nread + |s|), Push(log, Data(Value, s)))
            case Stopped(_, _) => false
            case Failed(e, _, _) => v > LENGTH_LIMIT && e == InvalidContentLength
    decreases |s|
  {
    hide Run, Push;
    if s == [] {
      RunNothing(cfg, Machine(f, log));
      PushNothing(log, Value);
      assert f.(contentLength := f.contentLength, nread := f.nread) == f;
    } else {
      DigitStep(cfg, f, log, s);
      var v := f.contentLength * 10 + Digit(s[0]);
      DecimalGrows(v, s[1..]);
      if (ULLONG_MAX - 10) / 10 >= f.contentLength {
        var g := f.(contentLength := v, nread := f.nread + 1);
        MoreDigits(cfg, g, Push(log, Data(Value, [s[0]])), s[1..]);
        PushTwice(log, Value, [s[0]], s[1..]);
        assert [s[0]] + s[1..] == s;
        assert g.(contentLength := Decimal(v, s[1..]), nread := g.nread + |s[1..]|) ==
               f.(contentLength := Decimal(v, s[1..]), nread := f.nread + |s|);
      }
    }
  }

  lemma DigitStep(cfg: Config, f: Fields, log: seq<Event>, s: seq<byte>)
    requires f.state == HeaderBody(HeaderValue) && f.headerState == Length(ContentLengthNum)
    requires s != [] && IsNum(s[0]) && f.nread + 1 <= cfg.maxHeader
    ensures Run(cfg, Machine(f, log), s) ==
            if (ULLONG_MAX - 10) / 10 < f.contentLength then Failed(InvalidContentLength, |s|, log)
            else Run(cfg, Machine(f.(contentLength := f.contentLength * 10 + Digit(s[0]), nread := f.nread + 1),
                                  Push(log, Data(Value, [s[0]]))), s[1..])
  {
    hide Run, Push;
    var v := f.contentLength * 10 + Digit(s[0]);
    if (ULLONG_MAX - 10) / 10 < f.contentLength {
      BadValueStep(cfg, f, log, s, InvalidContentLength);
    } else {
      ValueStep(cfg, f, log, s);
      assert f.(headerState := Length(ContentLengthNum), contentLength := v) == f.(contentLength := v);
    }
  }

  lemma FirstDigit(cfg: Config, f: Fields, log: seq<Event>, s: seq<byte>)
    requires f.state == HeaderName(HeaderValueDiscardWs) && f.headerState == Named(ContentLength)
    requires F_CONTENTLENGTH !in f.flags && s != [] && IsNum(s[0]) && f.nread + 1 <= cfg.maxHeader
    ensures Run(cfg, Machine(f, log), s) ==
            Run(cfg, Machine(f.(state := HeaderBody(HeaderValue), headerState := Length(ContentLengthNum), index := 0,
                                flags := f.flags + {F_CONTENTLENGTH}, contentLength := Digit(s[0]), nread := f.nread + 1),
                             Push(log, Data(Value, [s[0]]))), s[1..])
  {
    hide Run, Push;
    MarkStep(cfg, Machine(f, log), s,
             f.(state := HeaderBody(HeaderValue), headerState := Length(ContentLengthNum), index := 0,
                flags := f.flags + {F_CONTENTLENGTH}, contentLength := Digit(s[0]), nread := f.nread + 1), Value);
  }

  /** A Content-Length of digits `s` is accepted if and only if its value is at most 18446744073709551609,
      and is then stored exactly. */
  lemma ContentLengthExact(cfg: Config, f: Fields, log: seq<Event>, s: seq<byte>)
    requires f.state == HeaderName(HeaderValueDiscardWs) && f.headerState == Named(ContentLength)
    requires F_CONTENTLENGTH !in f.flags && s != [] && AllDigits(s) && f.nread + |s| <= cfg.maxHeader
    ensures var v := Decimal(0, s);
            match Run(cfg, Machine(f, log), s)
            case Ran(m) => v <= LENGTH_LIMIT &&
              m == Machine(f.(state := HeaderBody(HeaderValue), headerState := Length(ContentLengthNum), index := 0,
                              flags := f.flags + {F_CONTENTLENGTH}, contentLength := v, nread := f.nread + |s|),
                           Push(log, Data(Value, s)))
            case Stopped(_, _) => false
            case Failed(e, _, _) => v > LENGTH_LIMIT && e == InvalidContentLength
  {
    hide Run, Push;
    var g := f.(state := HeaderBody(HeaderValue), headerState := Length(ContentLengthNum), index := 0,
                flags := f.flags + {F_CONTENTLENGTH}, contentLength := Digit(s[0]), nread := f.nread + 1);
    FirstDigit(cfg, f, log, s);
    MoreDigits(cfg, g, Push(log, Data(Value, [s[0]])), s[1..]);
    PushTwice(log, Value, [s[0]], s[1..]);
    assert [s[0]] + s[1..] == s;
    var v := Decimal(0, s);
    assert g.(contentLength := v, nread := g.nread + |s[1..]|) ==
           f.(state := HeaderBody(HeaderValue), headerState := Length(ContentLengthNum), index := 0,
              flags := f.flags + {F_CONTENTLENGTH}, contentLength := v, nread := f.nread + |s|);
  }

  /** More digits of a chunk size. */
  lemma {:induction false} MoreHex(cfg: Config, f: Fields, log: seq<Event>, s: seq<byte>)
    requires f.state == Chunk(ChunkSize)
    requires AllHex(s) && f.nread + |s| <= cfg.maxHeader && f.contentLength <= CHUNK_LIMIT
    ensures var v := Hexadecimal(f.contentLength, s);
            match Run(cfg, Machine(f, log), s)
            case Ran(m) => v <= CHUNK_LIMIT && m == Machine(f.(contentLength := v, nread := f.nread + |s|), log)
            case Stopped(_, _) => false
            case Failed(e, _, _) => v > CHUNK_LIMIT && e == InvalidContentLength
    decreases |s|
  {
    hide Run;
    if s == [] {
      RunNothing(cfg, Machine(f, log));
      assert f.(contentLength := f.contentLength, nread := f.nread) == f;
    } else {
      HexStep(cfg, f, log, s);
      var v := f.contentLength * 16 + Unhex(s[0]);
      HexadecimalGrows(v, s[1..]);
      if (ULLONG_MAX - 16) / 16 >= f.contentLength {
        var g := f.(contentLength := v, nread := f.nread + 1);
        MoreHex(cfg, g, log, s[1..]);
        assert g.(contentLength := Hexadecimal(v, s[1..]), nread := g.nread + |s[1..]|) ==
               f.(contentLength := Hexadecimal(v, s[1..]), nread := f.nread + |s|);
      }
    }
  }

  lemma HexStep(cfg: Config, f: Fields, log: seq<Event>, s: seq<byte>)
    requires f.state == Chunk(ChunkSize) && s != [] && Unhex(s[0]) != -1 && f.nread + 1 <= cfg.maxHeader
    ensures Run(cfg, Machine(f, log), s) ==
            if (ULLONG_MAX - 16) / 16 < f.contentLength then Failed(InvalidContentLength, |s|, log)
            else Run(cfg, Machine(f.(contentLength := f.contentLength * 16 + Unhex(s[0]), nread := f.nread + 1), log),
                     s[1..])
  {
    hide Run;
    if (ULLONG_MAX - 16) / 16 < f.contentLength {
      FailStep(cfg, Machine(f, log), s, InvalidContentLength);
    } else {
      QuietStep(cfg, Machine(f, log), s,
                f.(contentLength := f.contentLength * 16 + Unhex(s[0]), nread := f.nread + 1));
    }
  }

  /** A chunk size of digits `s` is accepted if and only if its value is at most 2^64 - 17, and is then
      stored exactly. */
  lemma ChunkSizeExact(cfg: Config, f: Fields, log: seq<Event>, s: seq<byte>)
    requires f.state == Chunk(ChunkSizeStart) && s != [] && AllHex(s) && f.nread + |s| <= cfg.maxHeader
    ensures var v := Hexadecimal(0, s);
            match Run(cfg, Machine(f, log), s)
            case Ran(m) => v <= CHUNK_LIMIT &&
              m == Machine(f.(state := Chunk(ChunkSize), contentLength := v, nread := f.nread + |s|), log)
            case Stopped(_, _) => false
            case Failed(e, _, _) => v > CHUNK_LIMIT && e == InvalidContentLength
  {
    hide Run;
    var g := f.(state := Chunk(ChunkSize), contentLength := Unhex(s[0]), nread := f.nread + 1);
    QuietStep(cfg, Machine(f, log), s, g);
    MoreHex(cfg, g, log, s[1..]);
    var v := Hexadecimal(0, s);
    assert g.(contentLength := v, nread := g.nread + |s[1..]|) ==
           f.(state := Chunk(ChunkSize), contentLength := v, nread := f.nread + |s|);
  }
}
