/** Round trip: requests written out and parsed again, with any headers and any framing, one after the other on one
    connection. */
module Requests {
  import opened Bytes
  import opened Trace
  import opened ParserState
  import opened Transitions
  import opened ByteMachine
  import opened Bodies
  import opened Values
  import opened HeaderNames
  import opened Headers
  import opened Messages
  import opened RequestLines

  datatype RequestText = RequestText(before: seq<byte>, line: LineText, headers: seq<Header>, crlf: bool, body: BodyText)

  /** Line ends may stand before a request. */
  function HeadText(r: RequestText): seq<byte> { r.before + BareHead(r) }

  function BareHead(r: RequestText): seq<byte> { RequestLine(r.line) + (HeadersText(r.headers) + LineEnd(r.crlf)) }

  function Text(r: RequestText): seq<byte> { HeadText(r) + TextOfBody(r.body) }

  // ---- heads

  /** The framing that the headers of a request spell. */
  ghost function FramingIn(r: RequestText): Framing { WithAll(Framing({}, ULLONG_MAX), r.headers) }

  /** The fields after the headers of a request, but for those that only the header scan uses. */
  ghost predicate AfterHeaders(f: Fields, r: RequestText, g: Fields) {
    g == Under(AtHeaders(f, r.line), FramingIn(r)).(headerState := g.headerState, index := g.index, nread := g.nread)
  }

  ghost predicate LegalHead(r: RequestText) {
    BlankLines(r.before) && LegalLine(r.line) && LegalHeaders(r.headers, false)
  }

  function HeadersOf(log: seq<Event>, r: RequestText): seq<Event> {
    HeadersTold(Push(Push(log, MessageBegin), Data(Url, r.line.target)), r.headers)
  }

  /** Any head is parsed to exactly its parts, and framed as its headers spell. */
  lemma HeadRead(cfg: Config, f: Fields, log: seq<Event>, r: RequestText) returns (g: Fields)
    requires f.state == Between(StartReq) && f.kind == Request && LegalHead(r)
    requires f.nread + |HeadText(r)| + 1 <= cfg.maxHeader
    ensures Run(cfg, Machine(f, log), HeadText(r)) == HeadTo(g, cfg.answers(f.answered), HeadersOf(log, r))
    ensures AfterHeaders(f, r, g) && Framed(g)
  {
    hide Run, Push, LegalLine, LegalHeaders, BlankLines, BareHead, HeadTo, FramingIn;
    var f0 := f.(nread := f.nread + |r.before|);
    BlankLinesSkipped(cfg, f, log, r.before);
    RunAppend(cfg, Machine(f, log), r.before, BareHead(r));
    g := BareHeadRead(cfg, f0, log, r);
    SameHeaders(f, f0, r, g);
  }

  lemma SameHeaders(f: Fields, f0: Fields, r: RequestText, g: Fields)
    requires f0 == f.(nread := f0.nread) && AfterHeaders(f0, r, g)
    ensures AfterHeaders(f, r, g)
  {
    hide FramingIn, Major, Minor, MethodName, RequestLine;
  }

  lemma BareHeadRead(cfg: Config, f: Fields, log: seq<Event>, r: RequestText) returns (g: Fields)
    requires f.state == Between(StartReq) && f.kind == Request && LegalHead(r)
    requires f.nread + |BareHead(r)| + 1 <= cfg.maxHeader
    ensures Run(cfg, Machine(f, log), BareHead(r)) == HeadTo(g, cfg.answers(f.answered), HeadersOf(log, r))
    ensures AfterHeaders(f, r, g) && Framed(g)
  {
    hide Run, Push, LegalLine, LegalHeaders, RequestLine, HeadersText, HeadersTold, HeadTo, LineEnd, WithAll, MethodName,
      Major, Minor, HeadTo;
    var m, end := Machine(f, log), LineEnd(r.crlf);
    var f1, log1 := AtHeaders(f, r.line), Push(Push(log, MessageBegin), Data(Url, r.line.target));
    RequestLineRead(cfg, f, log, r.line);
    EndNoFold(r.crlf);
    g := HeadersRead(cfg, f1, log1, r.headers, end);
    RunAppend(cfg, m, RequestLine(r.line), HeadersText(r.headers) + end);
    TameAll(Framing({}, ULLONG_MAX), r.headers);
    HeadEnds(cfg, g, HeadersTold(log1, r.headers), r.crlf);
  }

  /** A request with a Content-Length and any header whose name begins with "transfer-encoding" is refused at the end
      of its head, and one with neither is not refused for that. */
  lemma TwoFramings(cfg: Config, f: Fields, log: seq<Event>, r: RequestText)
    requires f.state == Between(StartReq) && f.kind == Request && LegalHead(r)
    requires f.nread + |HeadText(r)| + 1 <= cfg.maxHeader
    ensures (exists h :: h in r.headers && "transfer-encoding" <= Lowered(h.name)) && (exists h :: h in r.headers && IsLength(h))
            <==> Run(cfg, Machine(f, log), HeadText(r)) == Failed(UnexpectedContentLength, 1, HeadersOf(log, r))
  {
    hide Run, Push, LegalHead, HeadText, HeadersOf, WithAll, Headed, Lowered, Finished, Own;
    var g := HeadRead(cfg, f, log, r);
    FlagsSpelled(Framing({}, ULLONG_MAX), r.headers, F_TRANSFER_ENCODING);
    FlagsSpelled(Framing({}, ULLONG_MAX), r.headers, F_CONTENTLENGTH);
    forall h ensures F_TRANSFER_ENCODING in Own(h) <==> "transfer-encoding" <= Lowered(h.name) { OwnFraming(h); }
    forall h ensures F_CONTENTLENGTH in Own(h) <==> IsLength(h) { OwnFraming(h); }
    NotBoth(g, cfg.answers(f.answered), HeadersOf(log, r));
  }

  lemma NotBoth(g: Fields, answer: Answer, log: seq<Event>)
    ensures HeadTo(g, answer, log) == Failed(UnexpectedContentLength, 1, log) <==> BothFramings(g.flags)
  {
    hide Headed, HeadOf, Push, Finished;
    var z := Headed(g, answer).(nread := 0);
    FinishedIs(z, Push(log, HeadersComplete(HeadOf(z, answer != Proceed))));
  }

  lemma FinishedIs(f: Fields, log: seq<Event>)
    ensures !Finished(f, log).Failed?
  {}

  // ---- whole requests

  /** An upgrade asked for by the headers or by the method. */
  ghost predicate AsksUpgrade(r: RequestText) {
    {F_UPGRADE, F_CONNECTION_UPGRADE} <= FramingIn(r).flags || r.line.verb == CONNECT
  }

  /** What the application knows after the head, if that is its answer. */
  ghost function HeadFor(r: RequestText, answer: Answer): Head {
    Head(FramingIn(r).length, F_CHUNKED in FramingIn(r).flags, r.line.verb == CONNECT, answer != Proceed,
         AsksUpgrade(r) || answer == SkipBodyAndUpgrade)
  }

  /** How the request goes on after its head. */
  ghost function ComesAfter(r: RequestText, answer: Answer): After { Goes(Request, FramingIn(r).flags, 0, HeadFor(r, answer)) }

  /** A request that can be sent to an application that gives that answer. */
  ghost predicate LegalRequest(maxHeader: nat, r: RequestText, answer: Answer) {
    && LegalHead(r) && !BothFramings(FramingIn(r).flags)
    && LegalBody(maxHeader, r.body, ComesAfter(r, answer), FramingIn(r).length)
  }

  /** What a request makes the application see. */
  ghost function Told(log: seq<Event>, r: RequestText, answer: Answer): seq<Event> {
    Push(BodyTold(Push(HeadersOf(log, r), HeadersComplete(HeadFor(r, answer))), r.body), MessageComplete)
  }

  /** The flags when the request is complete. */
  ghost function LastFlags(r: RequestText, answer: Answer): set<Flag> {
    FlagsAfter(FramingIn(r).flags + if answer == Proceed then {} else {F_SKIPBODY}, r.body)
  }

  ghost predicate KeepsAlive(r: RequestText, answer: Answer) {
    Persists(Major(r.line.protocol), Minor(r.line.protocol), LastFlags(r, answer))
  }

  /** A request parser where a request may begin, `n` header bytes counted already. */
  predicate AtRest(f: Fields, n: nat, answered: nat) {
    f.state == Between(StartReq) && f.kind == Request && f.nread == n && f.answered == answered
  }

  /** What the parser is left with. */
  ghost predicate Finishes(r: RequestText, answer: Answer, f: Fields, m: Machine, log: seq<Event>) {
    && m.log == Told(log, r, answer)
    && m.f.state == Between(if KeepsAlive(r, answer) then StartReq else Dead)
    && m.f.kind == Request && m.f.verb == r.line.verb
    && m.f.major == Major(r.line.protocol) && m.f.minor == Minor(r.line.protocol)
    && m.f.nread == StillCounted(r.body) && m.f.answered == f.answered + 1 && m.f.upgrade == HeadFor(r, answer).upgrade
  }

  lemma HeadIs(f: Fields, r: RequestText, g: Fields, answer: Answer)
    requires AfterHeaders(f, r, g) && f.kind == Request
    ensures HeadOf(Headed(g, answer), answer != Proceed) == HeadFor(r, answer)
    ensures HeadOf(Headed(g, answer).(nread := 0), answer != Proceed) == HeadFor(r, answer)
  {
    hide WithAll, MethodName, Major, Minor, RequestLine;
  }

  lemma SameWay(f: Fields, r: RequestText, g: Fields, answer: Answer)
    requires AfterHeaders(f, r, g) && f.kind == Request
    ensures Way(g, HeadFor(r, answer)) == ComesAfter(r, answer) && !ComesAfter(r, answer).UntilEnd?
    ensures g.flags == FramingIn(r).flags && HeadFor(r, answer).length == FramingIn(r).length
    ensures HeadFor(r, answer).length == g.contentLength
    ensures EndsAtHead(HeadFor(r, answer)) && !ComesAfter(r, answer).NoFraming? <==> ComesAfter(r, answer).NoBody?
  {
    hide FramingIn, MethodName, Major, Minor, RequestLine;
  }

  /** A request is parsed to exactly its parts: method, version, target, headers, and a body in its framing. Then the
      parser is ready for the next one, or dead, or has left for another protocol. */
  lemma RequestRead(cfg: Config, f: Fields, log: seq<Event>, r: RequestText) returns (m: Machine)
    requires f.state == Between(StartReq) && f.kind == Request
    requires LegalRequest(cfg.maxHeader, r, cfg.answers(f.answered)) && f.nread + |HeadText(r)| + 1 <= cfg.maxHeader
    ensures var answer := cfg.answers(f.answered);
            Run(cfg, Machine(f, log), Text(r)) == EndsAs(HeadFor(r, answer).upgrade, m) && Finishes(r, answer, f, m, log)
  {
    hide Run, Push, LegalHead, HeadText, HeadersOf, Finished, WithAll, LegalBody, RequestLine, HeadTo, BodyTold,
      MethodName, Major, Minor, BothFramings, HeadFor, TextOfBody, TrailerText;
    var answer := cfg.answers(f.answered);
    var g := HeadRead(cfg, f, log, r);
    HeadIs(f, r, g, answer);
    SameWay(f, r, g, answer);
    var end := BodyRead(cfg, g, HeadersOf(log, r), r.body, answer);
    RunAppend(cfg, Machine(f, log), HeadText(r), TextOfBody(r.body));
    var told := BodyTold(Push(HeadersOf(log, r), HeadersComplete(HeadFor(r, answer))), r.body);
    FinishedAs(end, told);
    HeadedUpgrade(g, answer);
    m := Machine(end.(state := Between(if KeepsAlive(r, answer) then StartReq else Dead)), Push(told, MessageComplete));
  }

  lemma HeadedUpgrade(g: Fields, answer: Answer)
    ensures var z := Headed(g, answer);
            HeadOf(z, answer != Proceed).upgrade == z.upgrade && z.flags == g.flags + if answer == Proceed then {} else {F_SKIPBODY}
    ensures var z := Headed(g, answer);
            z == g.(state := z.state, answered := g.answered + 1, upgrade := z.upgrade, flags := z.flags)
  {}

  // ---- connections

  ghost predicate GoesOn(r: RequestText, answer: Answer) { KeepsAlive(r, answer) && !HeadFor(r, answer).upgrade }

  /** Requests that can follow one another, from where `n` header bytes are counted and `answered` heads answered. */
  ghost predicate LegalRun(cfg: Config, n: nat, answered: nat, rs: seq<RequestText>)
    decreases |rs|
  {
    rs == [] ||
    (LegalRequest(cfg.maxHeader, rs[0], cfg.answers(answered)) && n + |HeadText(rs[0])| + 1 <= cfg.maxHeader &&
     (|rs| > 1 ==> GoesOn(rs[0], cfg.answers(answered))) && LegalRun(cfg, StillCounted(rs[0].body), answered + 1, rs[1..]))
  }

  function Texts(rs: seq<RequestText>): seq<byte> { if rs == [] then [] else Text(rs[0]) + Texts(rs[1..]) }

  ghost function ToldAll(cfg: Config, answered: nat, log: seq<Event>, rs: seq<RequestText>): seq<Event>
    decreases |rs|
  {
    if rs == [] then log else ToldAll(cfg, answered + 1, Told(log, rs[0], cfg.answers(answered)), rs[1..])
  }

  /** Round trip of a connection: any requests written one after the other are parsed to exactly their parts, in
      order. The last one decides whether the parser goes on, is dead, or has left for another protocol. */
  lemma {:induction false} RequestsRead(cfg: Config, f: Fields, log: seq<Event>, rs: seq<RequestText>)
    returns (m: Machine)
    requires f.state == Between(StartReq) && f.kind == Request && rs != [] && LegalRun(cfg, f.nread, f.answered, rs)
    ensures var last, answer := rs[|rs| - 1], cfg.answers(f.answered + |rs| - 1);
            && Run(cfg, Machine(f, log), Texts(rs)) == EndsAs(HeadFor(last, answer).upgrade, m)
            && m.log == ToldAll(cfg, f.answered, log, rs)
            && m.f.state == Between(if KeepsAlive(last, answer) then StartReq else Dead)
            && m.f.answered == f.answered + |rs| && m.f.upgrade == HeadFor(last, answer).upgrade
    decreases |rs|
  {
    hide Run, LegalRequest, HeadText, Text, Told, KeepsAlive, HeadFor, Major, Minor, StillCounted;
    m := RequestRead(cfg, f, log, rs[0]);
    if |rs| == 1 {
      assert Texts(rs) == Text(rs[0]) + [] == Text(rs[0]);
    } else {
      RunAppend(cfg, Machine(f, log), Text(rs[0]), Texts(rs[1..]));
      m := RequestsRead(cfg, m.f, m.log, rs[1..]);
    }
  }

  /** After a request that switches protocols, the bytes that follow are left to the other one. */
  lemma RestIsLeft(cfg: Config, f: Fields, log: seq<Event>, r: RequestText, other: seq<byte>) returns (m: Machine)
    requires f.state == Between(StartReq) && f.kind == Request && HeadFor(r, cfg.answers(f.answered)).upgrade
    requires LegalRequest(cfg.maxHeader, r, cfg.answers(f.answered)) && f.nread + |HeadText(r)| + 1 <= cfg.maxHeader
    ensures Run(cfg, Machine(f, log), Text(r) + other) == Stopped(m, |other|)
    ensures Finishes(r, cfg.answers(f.answered), f, m, log)
  {
    hide Run, LegalRequest, HeadText, Text, Finishes, HeadFor;
    m := RequestRead(cfg, f, log, r);
    RunAppend(cfg, Machine(f, log), Text(r), other);
  }

  /** After any head `upgrade` is set if and only if the head announces one; and the parser has left by then if and
      only if the head also ends its message. */
  lemma UpgradeAfterHead(cfg: Config, f: Fields, log: seq<Event>, r: RequestText)
    requires f.state == Between(StartReq) && f.kind == Request && f.nread + |HeadText(r)| + 1 <= cfg.maxHeader
    requires LegalHead(r) && !BothFramings(FramingIn(r).flags) && !ComesAfter(r, cfg.answers(f.answered)).NoFraming?
    ensures var h := HeadFor(r, cfg.answers(f.answered));
            match Run(cfg, Machine(f, log), HeadText(r))
            case Ran(m) => m.f.upgrade == h.upgrade && (h.upgrade ==> !EndsAtHead(h) && !m.f.state.Between?)
            case Stopped(m, left) => m.f.upgrade && h.upgrade && EndsAtHead(h) && left == 0
            case Failed(_, _, _) => false
  {
    hide Run, Push, LegalHead, HeadText, HeadersOf, WithAll, BothFramings, HeadFor, EndsAtHead, NewMessage, RequestLine,
      Major, Minor, MethodName;
    var answer := cfg.answers(f.answered);
    var g := HeadRead(cfg, f, log, r);
    HeadIs(f, r, g, answer);
    SameWay(f, r, g, answer);
    HeadedUpgrade(g, answer);
  }
}
