/** Round trip: responses written out and parsed again, with any headers, any status and any framing. */
module Responses {
  import opened Bytes
  import opened Trace
  import opened ParserState
  import opened Transitions
  import opened ByteMachine
  import opened Bodies
  import opened Numbers
  import opened Values
  import opened HeaderNames
  import opened Headers
  import opened Messages
  import opened RequestLines
  import opened StatusLines

  datatype ResponseText = ResponseText(before: seq<byte>, line: StatusText, headers: seq<Header>, crlf: bool, body: BodyText)

  function HeadText(r: ResponseText): seq<byte> { r.before + BareHead(r) }

  function BareHead(r: ResponseText): seq<byte> { StatusLineText(r.line) + (HeadersText(r.headers) + LineEnd(r.crlf)) }

  function Text(r: ResponseText): seq<byte> { HeadText(r) + TextOfBody(r.body) }

  predicate LegalHead(r: ResponseText) { BlankLines(r.before) && LegalStatus(r.line) && LegalHeaders(r.headers, false) }

  /** The framing that the headers of a response spell. */
  ghost function FramingIn(r: ResponseText): Framing { WithAll(Framing({}, ULLONG_MAX), r.headers) }

  function Code(r: ResponseText): nat
    requires LegalStatus(r.line)
  {
    Decimal(0, r.line.code)
  }

  /** A parser for responses where one may begin; it never sets `method`. */
  predicate Awaits(f: Fields) { f.state == Between(StartRes) && f.kind == Response && f.verb != CONNECT }

  /** What the application knows after the head, if that is its answer: only status 101 switches protocols. */
  ghost function HeadFor(r: ResponseText, answer: Answer): Head
    requires LegalStatus(r.line)
  {
    Head(FramingIn(r).length, F_CHUNKED in FramingIn(r).flags, false, answer != Proceed,
         ({F_UPGRADE, F_CONNECTION_UPGRADE} <= FramingIn(r).flags && Code(r) == 101) || answer == SkipBodyAndUpgrade)
  }

  /** How the response goes on after its head. */
  ghost function ComesAfter(r: ResponseText, answer: Answer): After
    requires LegalStatus(r.line)
  {
    Goes(Response, FramingIn(r).flags, Code(r), HeadFor(r, answer))
  }

  function HeadersOf(log: seq<Event>, r: ResponseText): seq<Event> {
    HeadersTold(Push(Push(log, MessageBegin), Data(Status, ReasonTold(r.line.reason))), r.headers)
  }

  /** The fields after the headers of a response, but for those that only the header scan uses. */
  ghost predicate AfterHeaders(f: Fields, r: ResponseText, g: Fields)
    requires LegalStatus(r.line)
  {
    g == Under(AtResponseHeaders(f, r.line), FramingIn(r)).(headerState := g.headerState, index := g.index, nread := g.nread)
  }

  /** Any head is parsed to exactly its parts, and framed as its status and its headers spell. */
  lemma HeadRead(cfg: Config, f: Fields, log: seq<Event>, r: ResponseText) returns (g: Fields)
    requires Awaits(f) && LegalHead(r) && f.nread + |HeadText(r)| + 1 <= cfg.maxHeader
    ensures Run(cfg, Machine(f, log), HeadText(r)) == HeadTo(g, cfg.answers(f.answered), HeadersOf(log, r))
    ensures AfterHeaders(f, r, g) && Framed(g)
  {
    hide Run, Push, LegalStatus, LegalHeaders, BlankLines, StatusLineText, HeadersText, HeadersTold, HeadTo, LineEnd, WithAll,
      ReasonTold;
    var f0, log1 := f.(nread := f.nread + |r.before|), Push(Push(log, MessageBegin), Data(Status, ReasonTold(r.line.reason)));
    var m, end := Machine(f0, log), LineEnd(r.crlf);
    BlankLinesSkipped(cfg, f, log, r.before);
    RunAppend(cfg, Machine(f, log), r.before, BareHead(r));
    StatusLineRead(cfg, f0, log, r.line);
    EndNoFold(r.crlf);
    g := HeadersRead(cfg, AtResponseHeaders(f0, r.line), log1, r.headers, end);
    RunAppend(cfg, m, StatusLineText(r.line), HeadersText(r.headers) + end);
    TameAll(Framing({}, ULLONG_MAX), r.headers);
    HeadEnds(cfg, g, HeadersTold(log1, r.headers), r.crlf);
  }

  lemma HeadIs(f: Fields, r: ResponseText, g: Fields, answer: Answer)
    requires LegalStatus(r.line) && AfterHeaders(f, r, g) && Awaits(f)
    ensures HeadOf(Headed(g, answer), answer != Proceed) == HeadFor(r, answer)
    ensures Way(g, HeadFor(r, answer)) == ComesAfter(r, answer)
    ensures g.flags == FramingIn(r).flags && HeadFor(r, answer).length == g.contentLength == FramingIn(r).length
  {
    hide FramingIn, LegalStatus, StatusLineText, Goes;
  }

  /** A response that can be sent to an application that gives that answer. */
  ghost predicate LegalResponse(maxHeader: nat, r: ResponseText, answer: Answer) {
    && LegalHead(r) && !BothFramings(FramingIn(r).flags)
    && LegalBody(maxHeader, r.body, ComesAfter(r, answer), FramingIn(r).length)
  }

  ghost function Heard(log: seq<Event>, r: ResponseText, answer: Answer): seq<Event>
    requires LegalStatus(r.line)
  {
    BodyTold(Push(HeadersOf(log, r), HeadersComplete(HeadFor(r, answer))), r.body)
  }

  ghost predicate KeepsAlive(r: ResponseText, answer: Answer)
    requires LegalStatus(r.line)
  {
    Persists(Digit(r.line.major), Digit(r.line.minor),
             FlagsAfter(FramingIn(r).flags + if answer == Proceed then {} else {F_SKIPBODY}, r.body))
  }

  /** What the parser is left with. */
  ghost predicate Finishes(r: ResponseText, answer: Answer, f: Fields, m: Machine, log: seq<Event>)
    requires LegalStatus(r.line)
  {
    && m.f.kind == Response && m.f.status == Code(r) && m.f.major == Digit(r.line.major) && m.f.minor == Digit(r.line.minor)
    && m.f.verb == f.verb && m.f.answered == f.answered + 1 && m.f.upgrade == HeadFor(r, answer).upgrade
    && if ComesAfter(r, answer).UntilEnd? then m.log == Heard(log, r, answer) && m.f.state == Payload(BodyIdentityEof)
       else
         && m.log == Push(Heard(log, r, answer), MessageComplete) && m.f.nread == StillCounted(r.body)
         && m.f.state == Between(if KeepsAlive(r, answer) then StartRes else Dead)
  }

  /** No message that is complete needs the end of the stream. */
  lemma NoEof(maxHeader: nat, f: Fields, g: Fields, answer: Answer, r: ResponseText, end: Fields)
    requires Awaits(f) && LegalStatus(r.line) && AfterHeaders(f, r, g) && Framed(g) && !BothFramings(g.flags)
    requires LegalBody(maxHeader, r.body, ComesAfter(r, answer), FramingIn(r).length)
    requires !ComesAfter(r, answer).UntilEnd? && Completed(r.body, Headed(g, answer).(nread := 0), end)
    ensures !NeedsEof(end)
  {
    hide FramingIn, LegalStatus, StatusLineText, LegalTrailer, LegalChunks, WithAll, TrailerText;
    HeadIs(f, r, g, answer);
    if r.body.Chunked? {
      StillChunked(Headed(g, answer).flags, r.body);
    }
  }

  lemma StillChunked(flags: set<Flag>, b: BodyText)
    requires b.Chunked? && F_CHUNKED in flags
    ensures F_CHUNKED in FlagsAfter(flags, b)
  {
    hide WithAll;
    StillTrailing(Framing(flags + {F_TRAILING}, 0), b.trailers);
  }

  /** A response is parsed to exactly its parts: version, status, reason, headers, and a body in its framing. Then the
      parser is ready for the next one, or dead, or has left for another protocol, or waits for the end of the stream. */
  lemma ResponseRead(cfg: Config, f: Fields, log: seq<Event>, r: ResponseText) returns (m: Machine)
    requires Awaits(f) && LegalResponse(cfg.maxHeader, r, cfg.answers(f.answered)) && f.nread + |HeadText(r)| + 1 <= cfg.maxHeader
    ensures var answer := cfg.answers(f.answered);
            && Finishes(r, answer, f, m, log)
            && Run(cfg, Machine(f, log), Text(r)) ==
               EndsAs(HeadFor(r, answer).upgrade && !ComesAfter(r, answer).UntilEnd?, m)
  {
    hide Run, Push, LegalHeaders, BlankLines, HeadText, HeadersOf, Finished, HeadTo, BodyTold, BothFramings, TextOfBody,
      TrailerText, FramingIn, HeadFor, StatusLineText, Goes, NeedsEof, LegalTrailer, LegalChunks;
    var answer := cfg.answers(f.answered);
    var g := HeadRead(cfg, f, log, r);
    HeadIs(f, r, g, answer);
    HeadedParts(g, answer);
    var end := BodyRead(cfg, g, HeadersOf(log, r), r.body, answer);
    RunAppend(cfg, Machine(f, log), HeadText(r), TextOfBody(r.body));
    if ComesAfter(r, answer).UntilEnd? {
      m := Machine(end, Heard(log, r, answer));
    } else {
      NoEof(cfg.maxHeader, f, g, answer, r, end);
      FinishedAs(end, Heard(log, r, answer));
      m := Machine(end.(state := Between(if KeepsAlive(r, answer) then StartRes else Dead)),
                   Push(Heard(log, r, answer), MessageComplete));
    }
  }

  lemma HeadedParts(g: Fields, answer: Answer)
    ensures var z := Headed(g, answer);
            && z == g.(state := z.state, answered := g.answered + 1, upgrade := z.upgrade, flags := z.flags)
            && HeadOf(z, answer != Proceed).upgrade == z.upgrade
            && z.flags == g.flags + if answer == Proceed then {} else {F_SKIPBODY}
  {}

  // ---- statuses without content

  /** A header that gives the body a length or a coding. */
  predicate Frames(h: Header) { "transfer-encoding" <= Lowered(h.name) || (IsLength(h) && Decimal(0, Digits(h.value)) != 0) }

  lemma FramesExact(r: ResponseText)
    requires LegalHead(r) && !BothFramings(FramingIn(r).flags)
    ensures (exists h :: h in r.headers && Frames(h)) <==>
            F_TRANSFER_ENCODING in FramingIn(r).flags || (FramingIn(r).length != 0 && FramingIn(r).length != ULLONG_MAX)
    ensures F_CHUNKED in FramingIn(r).flags ==> F_TRANSFER_ENCODING in FramingIn(r).flags
  {
    hide Lowered, Digits, WithAll, Own, Tame;
    var s := Framing({}, ULLONG_MAX);
    FlagsSpelled(s, r.headers, F_TRANSFER_ENCODING);
    LengthSpelled(s, r.headers, false);
    TameNothing();
    TameAll(s, r.headers);
    TameFlags(FramingIn(r));
    forall h ensures F_TRANSFER_ENCODING in Own(h) <==> "transfer-encoding" <= Lowered(h.name) { OwnFraming(h); }
    forall h | h in r.headers && IsLength(h) ensures Decimal(0, Digits(h.value)) != ULLONG_MAX { LegalIn(r.headers, false, h); }
  }

  lemma TameNothing()
    ensures Tame(Framing({}, ULLONG_MAX))
  {}

  lemma TameFlags(s: Framing)
    requires Tame(s)
    ensures F_CHUNKED in s.flags ==> F_TRANSFER_ENCODING in s.flags
  {}

  lemma {:induction false} LegalIn(hs: seq<Header>, before: bool, h: Header)
    requires LegalHeaders(hs, before) && h in hs && IsLength(h)
    ensures Decimal(0, Digits(h.value)) != ULLONG_MAX
    decreases |hs|
  {
    hide Lowered, Digits;
    if h != hs[0] { LegalIn(hs[1..], before || IsLength(hs[0]), h); }
  }

  /** A response with status 1xx, 204 or 304 has no body, section 3.3.3 of RFC 7230. The parser agrees if and only if no
      header gives it one: otherwise it goes on to read that body. A switch of protocols, 101, is another matter. */
  lemma NoContentExact(cfg: Config, f: Fields, log: seq<Event>, r: ResponseText)
    requires Awaits(f) && LegalHead(r) && f.nread + |HeadText(r)| + 1 <= cfg.maxHeader && cfg.answers(f.answered) == Proceed
    requires NoContent(Code(r)) && Code(r) != 101 && !BothFramings(FramingIn(r).flags)
    ensures var done := Run(cfg, Machine(f, log), HeadText(r));
            (exists h :: h in r.headers && Frames(h)) <==> done.Ran? && !done.m.f.state.Between?
  {
    hide Run, Push, LegalStatus, LegalHeaders, BlankLines, HeadText, HeadersOf, FramingIn, Frames, NeedsEof, StatusLineText;
    var g := HeadRead(cfg, f, log, r);
    HeadIs(f, r, g, Proceed);
    HeadedParts(g, Proceed);
    FramesExact(r);
  }
}
