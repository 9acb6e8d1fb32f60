/** Runs of a new parser over given texts, where the code does something other than what it says. */
module RequestRuns {
  import opened Bytes
  import opened Alphabets
  import opened Trace
  import opened ParserState
  import opened UrlAutomaton
  import opened Transitions
  import opened ByteMachine
  import opened Numbers
  import opened HeaderNames
  import opened Bodies
  import opened Lists
  import opened Values
  import opened ListHeaders
  import opened Headers
  import opened Messages
  import opened RequestLines
  import opened Requests

  /** A header on one line, a space after its colon. */
  function Simple(name: seq<byte>, value: seq<byte>): Header { Header(name, [Plain(' ')], Cells(value), true) }

  lemma SimpleText(name: seq<byte>, value: seq<byte>)
    ensures HeaderLine(Simple(name, value)) == name + ": " + value + "\r\n"
  {
    PlainText(value);
    assert CellsText([Plain(' ')]) == " " by { assert [Plain(' ')][1..] == []; }
    assert [CR] + [LF] == "\r\n";
    assert name + [':'] + (" " + value + "\r\n") == name + ": " + value + "\r\n";
  }

  lemma SimpleLegal(name: seq<byte>, value: seq<byte>)
    requires name != [] && AllTokens(name) && Lowered(name) != "content-length"
    requires value != [] && value[0] != ' ' && value[0] != '\t' && forall i :: 0 <= i < |value| ==> FieldChar(value[i])
    ensures LegalHeader(Simple(name, value))
  {
    hide FieldChar, Lowered;
    LegalCells(value);
    SpaceLegal();
  }

  /** A Content-Length of one digit. */
  lemma DigitLegal(d: byte)
    requires IsNum(d)
    ensures LegalHeader(Simple("Content-Length", [d])) && IsLength(Simple("Content-Length", [d]))
    ensures Digits(Cells([d])) == [d] && Decimal(0, [d]) == Digit(d)
  {
    var v := Cells([d]);
    assert v[1..] == [];
    assert Digits(v) == [d] + Digits(v[1..]);
    assert v[|Digits(v)|..] == [];
    assert [d][1..] == [];
    LengthName();
    SpaceLegal();
  }

  lemma LengthName()
    ensures Lowered("Content-Length") == "content-length" && AllTokens("Content-Length")
  {}

  /** The line of a request for "/" in version 1.1. */
  function Line(verb: Method): LineText { LineText(verb, 0, "/", Versioned(0, false, '1', '1'), true) }

  lemma SlashPath()
    ensures UrlRun(UrlStart, "/") == Path
  {
    assert "/"[1..] == "";
  }

  lemma LineIs(verb: Method)
    requires verb != CONNECT
    ensures LegalLine(Line(verb)) && Major(Line(verb).protocol) == 1 && Minor(Line(verb).protocol) == 1
    ensures RequestLine(Line(verb)) == Word(verb) + " / HTTP/1.1\r\n"
  {
    hide MethodName, Word, UrlRun, RequestLine;
    SlashPath();
    LineSpelled(verb);
  }

  lemma LineSpelled(verb: Method)
    ensures RequestLine(Line(verb)) == Word(verb) + " / HTTP/1.1\r\n"
  {
    hide MethodName, Word;
    assert Spaces(0) == [];
    assert RequestLine(Line(verb)) == Word(verb) + [' '] + Spaces(0) + "/" +
                                      ([' '] + (Spaces(0) + "HTTP/" + ['1', '.', '1'] + ([CR] + [LF])));
  }

  // ---- `upgrade` too early

  const UPGRADE: Header := Simple("Upgrade", "x")
  const CONNECTION: Header := Simple("Connection", "upgrade")

  lemma UpgradeName()
    ensures Lowered("Upgrade") == "upgrade" && AllTokens("Upgrade") && LegalHeader(UPGRADE)
    ensures F_UPGRADE in Own(UPGRADE) && Own(UPGRADE) <= {F_UPGRADE}
  {
    assert Lowered("Upgrade") == "upgrade";
    SimpleLegal("Upgrade", "x");
  }

  lemma UpgradeWord()
    ensures IsWord(Cells("upgrade"), "upgrade") && Clean(true, Cells("upgrade"))
  {
    var s: seq<byte> := "upgrade";
    var v := Cells(s);
    assert TrimLeft(v) == v && TrimRight(v) == v;
    assert LoweredCells(v) == s;
  }

  lemma UpgradeOption()
    ensures HasOption(Cells("upgrade"), "upgrade")
  {
    hide IsWord, Clean;
    var s: seq<byte> := "upgrade";
    var v := Cells(s);
    NoCommaCells(s);
    JoinedSplit([v]);
    UpgradeWord();
    assert Split(v) == [v] by { assert Lists.Joined([v]) == v; }
    assert Lists.Counts(Options, Split(v), true, 0, "upgrade");
  }

  lemma ConnectionName()
    ensures Lowered("Connection") == "connection" && AllTokens("Connection") && LegalHeader(CONNECTION)
    ensures F_CONNECTION_UPGRADE in Own(CONNECTION) && F_TRANSFER_ENCODING !in Own(CONNECTION) && F_CHUNKED !in Own(CONNECTION)
    ensures !IsLength(CONNECTION)
  {
    hide HasOption;
    assert Lowered("Connection") == "connection";
    SimpleLegal("Connection", "upgrade");
    UpgradeOption();
  }

  lemma LengthOwn(d: byte)
    requires IsNum(d)
    ensures Own(Simple("Content-Length", [d])) == {F_CONTENTLENGTH}
  {
    LengthName();
    hide Lowered, HasOption, Chunks;
  }

  const POST_HEADERS: seq<Header> := [UPGRADE, CONNECTION, Simple("Content-Length", "5")]

  const POST_LINE: seq<byte> := "POST / HTTP/1.1\r\n"
  const UPGRADE_LINE: seq<byte> := "Upgrade: x\r\n"
  const CONNECTION_LINE: seq<byte> := "Connection: upgrade\r\n"
  const LENGTH_LINE: seq<byte> := "Content-Length: 5\r\n"
  const EMPTY_LINE: seq<byte> := "\r\n"

  /** The head of a POST that asks for an upgrade and has a body. */
  const POST_HEAD: seq<byte> := POST_LINE + UPGRADE_LINE + CONNECTION_LINE + LENGTH_LINE + EMPTY_LINE

  const HELLO: seq<byte> := "hello"

  function PostRequest(): RequestText { RequestText([], Line(Method.POST), POST_HEADERS, true, Sized(HELLO)) }

  lemma PostLines()
    ensures HeaderLine(UPGRADE) == UPGRADE_LINE && HeaderLine(CONNECTION) == CONNECTION_LINE
    ensures HeaderLine(Simple("Content-Length", "5")) == LENGTH_LINE
  {
    hide HeaderLine;
    SimpleText("Upgrade", "x");
    SimpleText("Connection", "upgrade");
    SimpleText("Content-Length", "5");
  }

  lemma ThreeHeaders(a: Header, b: Header, c: Header)
    ensures HeadersText([a, b, c]) == HeaderLine(a) + HeaderLine(b) + HeaderLine(c)
  {
    hide HeaderLine;
    var hs := [a, b, c];
    assert hs[1..] == [b, c] && [b, c][1..] == [c] && [c][1..] == [];
    assert HeadersText([c]) == HeaderLine(c) + [] == HeaderLine(c);
    assert HeaderLine(a) + (HeaderLine(b) + HeaderLine(c)) == HeaderLine(a) + HeaderLine(b) + HeaderLine(c);
  }

  lemma PostLine()
    ensures RequestLine(Line(Method.POST)) == POST_LINE && LegalLine(Line(Method.POST))
  {
    hide RequestLine, LegalLine, Major, Minor;
    LineIs(Method.POST);
    assert Word(Method.POST) == "POST";
    assert "POST" + " / HTTP/1.1\r\n" == POST_LINE;
  }

  lemma EmptyLine()
    ensures LineEnd(true) == EMPTY_LINE
  {}

  lemma PostText()
    ensures HeadText(PostRequest()) == POST_HEAD && |POST_HEAD| == 71 && LegalLine(Line(Method.POST))
  {
    hide HeaderLine, RequestLine, HeadersText, LegalLine;
    PostLine();
    PostLines();
    ThreeHeaders(UPGRADE, CONNECTION, Simple("Content-Length", "5"));
    EmptyLine();
    assert POST_LINE + (UPGRADE_LINE + CONNECTION_LINE + LENGTH_LINE + EMPTY_LINE) == POST_HEAD;
  }

  /** What the headers spell. */
  lemma PostFraming()
    ensures LegalHeaders(POST_HEADERS, false)
    ensures var s := WithAll(Framing({}, ULLONG_MAX), POST_HEADERS);
            s.length == 5 && {F_UPGRADE, F_CONNECTION_UPGRADE} <= s.flags && F_TRANSFER_ENCODING !in s.flags && F_CHUNKED !in s.flags
  {
    hide LegalHeader, Own, IsLength, Digits;
    var s, length := Framing({}, ULLONG_MAX), Simple("Content-Length", "5");
    UpgradeName();
    ConnectionName();
    DigitLegal('5');
    LengthOwn('5');
    NotLength(UPGRADE);
    assert POST_HEADERS[1..] == [CONNECTION, length] && [CONNECTION, length][1..] == [length] && [length][1..] == [];
    assert LegalHeaders([length], false) by { assert LegalHeaders([], true); }
    assert LegalHeaders([CONNECTION, length], false);
    LengthSpelled(s, POST_HEADERS, false);
    FlagsSpelled(s, POST_HEADERS, F_UPGRADE);
    FlagsSpelled(s, POST_HEADERS, F_CONNECTION_UPGRADE);
    FlagsSpelled(s, POST_HEADERS, F_TRANSFER_ENCODING);
    FlagsSpelled(s, POST_HEADERS, F_CHUNKED);
    assert UPGRADE in POST_HEADERS && CONNECTION in POST_HEADERS && length in POST_HEADERS;
  }

  lemma NotLength(h: Header)
    ensures Lowered(h.name) == "upgrade" || "transfer-encoding" <= Lowered(h.name) ==> !IsLength(h)
  {}

  lemma PostLegal(maxHeader: nat)
    ensures var r, h := PostRequest(), HeadFor(PostRequest(), Proceed);
            && LegalRequest(maxHeader, r, Proceed) && h.upgrade && !EndsAtHead(h)
            && LegalHead(r) && !BothFramings(FramingIn(r).flags) && !ComesAfter(r, Proceed).NoFraming?
  {
    hide LegalLine, LegalHeaders, WithAll;
    PostLine();
    PostFraming();
  }

  /** The whole head of a request that asks for an upgrade has been read, and `upgrade` is set, but the parser has not
      left: it reads a body, and leaves after that. */
  lemma UpgradeTooEarly(cfg: Config)
    requires cfg.maxHeader >= 72 && cfg.answers(0) == Proceed
    ensures var m := Machine(Initial(Request), []);
            match Run(cfg, m, POST_HEAD)
            case Ran(n) => n.f.upgrade && !n.f.state.Between?
            case _ => false
    ensures Run(cfg, Machine(Initial(Request), []), POST_HEAD + HELLO).Stopped?
  {
    hide Run, HeadText, LegalRequest, LegalHead, FramingIn, BothFramings, HeadFor, EndsAtHead, Finishes, PostRequest;
    var f, r := Initial(Request), PostRequest();
    PostText();
    PostLegal(cfg.maxHeader);
    WholePost();
    UpgradeAfterHead(cfg, f, [], r);
    var end := RequestRead(cfg, f, [], r);
  }

  lemma WholePost()
    ensures Text(PostRequest()) == POST_HEAD + HELLO
  {
    hide HeadText;
    PostText();
  }

  // ---- names that only begin like Transfer-Encoding

  const GET_LINE: seq<byte> := "GET / HTTP/1.1\r\n"
  const LIKE_LINE: seq<byte> := "transfer-encoding-x: 1\r\n"
  const ZERO_LINE: seq<byte> := "Content-Length: 0\r\n"

  const LIKE: Header := Simple("transfer-encoding-x", "1")

  const GET_HEAD: seq<byte> := GET_LINE + LIKE_LINE + ZERO_LINE + EMPTY_LINE

  lemma LikeName()
    ensures "transfer-encoding" <= Lowered("transfer-encoding-x") && AllTokens("transfer-encoding-x")
    ensures Lowered("transfer-encoding-x") != "content-length" && LegalHeader(LIKE)
  {
    var low, begin := Lowered("transfer-encoding-x"), "transfer-encoding";
    assert low[..17] == begin;
    assert |low| == 19;
    SimpleLegal("transfer-encoding-x", "1");
  }

  lemma TwoHeaders(a: Header, b: Header)
    ensures HeadersText([a, b]) == HeaderLine(a) + HeaderLine(b)
  {
    hide HeaderLine;
    assert [a, b][1..] == [b] && [b][1..] == [];
    assert HeadersText([b]) == HeaderLine(b) + [] == HeaderLine(b);
  }

  lemma GetLine()
    ensures RequestLine(Line(Method.GET)) == GET_LINE && LegalLine(Line(Method.GET))
  {
    hide RequestLine, LegalLine, Major, Minor;
    LineIs(Method.GET);
    assert Word(Method.GET) == "GET";
    assert "GET" + " / HTTP/1.1\r\n" == GET_LINE;
  }

  /** A header that is not Transfer-Encoding, but whose name begins like it, makes a Content-Length an error. */
  lemma LikeTransferEncoding(cfg: Config)
    requires cfg.maxHeader >= 64
    ensures match Run(cfg, Machine(Initial(Request), []), GET_HEAD)
            case Failed(e, left, _) => e == UnexpectedContentLength && left == 1
            case _ => false
  {
    hide Run, LegalHead, HeadText, HeadersOf, Lowered;
    var r := LikeRequest();
    LikeLegal();
    LikeText();
    NotLength(LIKE);
    LikeName();
    DigitLegal('0');
    assert LIKE in r.headers && Simple("Content-Length", "0") in r.headers;
    TwoFramings(cfg, Initial(Request), [], r);
  }

  function LikeRequest(): RequestText {
    RequestText([], Line(Method.GET), [LIKE, Simple("Content-Length", "0")], true, Absent)
  }

  lemma LikeLegal()
    ensures LegalHead(LikeRequest())
  {
    hide LegalLine, LegalHeader, Lowered;
    var r, zero := LikeRequest(), Simple("Content-Length", "0");
    GetLine();
    LikeName();
    DigitLegal('0');
    NotLength(LIKE);
    assert r.headers[1..] == [zero] && [zero][1..] == [];
    assert LegalHeaders([zero], false) by { assert LegalHeaders([], true); }
  }

  lemma LikeText()
    ensures HeadText(LikeRequest()) == GET_HEAD
  {
    hide RequestLine, HeaderLine, HeadersText;
    GetLine();
    SimpleText("transfer-encoding-x", "1");
    SimpleText("Content-Length", "0");
    TwoHeaders(LIKE, Simple("Content-Length", "0"));
    EmptyLine();
    assert GET_LINE + (LIKE_LINE + ZERO_LINE + EMPTY_LINE) == GET_HEAD;
  }

  // ---- bytes without a hexadecimal value that count as 0

  const CHUNKED_LINE: seq<byte> := "Transfer-Encoding: chunked\r\n"

  const CODING: Header := Simple("Transfer-Encoding", "chunked")

  const CHUNKED_HEAD: seq<byte> := POST_LINE + CHUNKED_LINE + EMPTY_LINE

  lemma CodingName()
    ensures Lowered("Transfer-Encoding") == "transfer-encoding" && AllTokens("Transfer-Encoding") && LegalHeader(CODING)
    ensures !IsLength(CODING)
  {
    assert Lowered("Transfer-Encoding") == "transfer-encoding";
    SimpleLegal("Transfer-Encoding", "chunked");
  }

  lemma ChunkedCoding()
    ensures Chunks(Cells("chunked"))
  {
    hide Words, LastIsChunked, LastIsHeard, Outcome;
    var c: seq<byte> := "chunked";
    NoCommaCells(c);
    JoinedSplit([Cells(c)]);
    OutcomesOfCodings();
    LegalCells(c);
    WordsOfOne(Cells(c));
    ChunkedWords(Cells(c));
    ChunksIs(Cells(c));
  }

  lemma CodingOwn()
    ensures Own(CODING) == {F_TRANSFER_ENCODING, F_CHUNKED}
  {
    hide Chunks, HasOption;
    CodingName();
    ChunkedCoding();
    hide Lowered;
  }

  function TopBitRequest(ch: byte): RequestText
  {
    RequestText([], Line(Method.POST), [CODING], true, Chunked([], ChunkText([ch], [], []), [], true))
  }

  lemma ChunkedText()
    ensures HeadersText([CODING]) == CHUNKED_LINE && LegalHeaders([CODING], false)
  {
    hide HeaderLine, LegalHeader, Lowered;
    CodingName();
    SimpleText("Transfer-Encoding", "chunked");
    assert [CODING][1..] == [];
    assert HeadersText([CODING]) == HeaderLine(CODING) + [] == HeaderLine(CODING);
    assert LegalHeaders([], false);
  }

  lemma TopBitFraming(ch: byte)
    ensures FramingIn(TopBitRequest(ch)) == Framing({F_TRANSFER_ENCODING, F_CHUNKED}, ULLONG_MAX)
    ensures HeadFor(TopBitRequest(ch), Proceed) == Head(ULLONG_MAX, true, false, false, false)
    ensures LastFlags(TopBitRequest(ch), Proceed) == {F_TRANSFER_ENCODING, F_CHUNKED, F_TRAILING}
  {
    hide ValueFlags, Lowered;
    var s := Framing({}, ULLONG_MAX);
    CodingOwn();
    CodingName();
    assert [CODING][1..] == [];
    assert WithAll(s, [CODING]) == WithAll(With(s, CODING), []) == With(s, CODING);
  }

  lemma TopBitLegal(maxHeader: nat, ch: byte)
    requires maxHeader >= 64 && ch as int >= 128
    ensures LegalRequest(maxHeader, TopBitRequest(ch), Proceed) && KeepsAlive(TopBitRequest(ch), Proceed)
  {
    hide LegalLine, LegalHeaders, FramingIn, HeadFor, LastFlags, Major, Minor, LegalTrailer;
    PostLine();
    LineIs(Method.POST);
    ChunkedText();
    TopBitFraming(ch);
    TopBitTrailer(maxHeader, ch);
  }

  lemma TopBitTrailer(maxHeader: nat, ch: byte)
    requires maxHeader >= 64 && ch as int >= 128
    ensures LegalTrailer(maxHeader, TopBitRequest(ch).body, false)
  {
    hide LegalHeaders, HeadersText;
    NoHeaders();
    assert [ch][1..] == [];
    assert AllHex([ch]) && Hexadecimal(0, [ch]) == Hexadecimal(0, []) == 0;
  }

  lemma NoHeaders()
    ensures LegalHeaders([], false) && HeadersText([]) == []
  {}

  lemma TopBitText(ch: byte)
    ensures HeadText(TopBitRequest(ch)) == CHUNKED_HEAD && |CHUNKED_HEAD| <= 63
    ensures Text(TopBitRequest(ch)) == CHUNKED_HEAD + [ch] + EMPTY_LINE + EMPTY_LINE
  {
    hide RequestLine, HeadersText;
    PostLine();
    ChunkedText();
    EmptyLine();
    NoHeaders();
  }

  lemma TopBitTold(ch: byte)
    ensures var log := Told([], TopBitRequest(ch), Proceed);
            BodyOf(log) == [] && log != [] && log[|log| - 1] == MessageComplete
  {
    hide BodyOf, HeadFor;
    var r := TopBitRequest(ch);
    var begun := Push([], MessageBegin);
    var lined := Push(begun, Data(Url, r.line.target));
    var log1 := Push(HeadersOf([], r), HeadersComplete(HeadFor(r, Proceed)));
    var log2 := Push(log1, ChunkHeader(0));
    assert HeadersTold(log2, []) == log2;
    assert BodyOf([]) == [] by { NoBody(); }
    BodyOfPush([], MessageBegin);
    BodyOfPush(begun, Data(Url, r.line.target));
    BodyOfHeaders(lined, r.headers);
    BodyOfPush(HeadersOf([], r), HeadersComplete(HeadFor(r, Proceed)));
    BodyOfPush(log1, ChunkHeader(0));
    BodyOfPush(log2, ChunkComplete);
    BodyOfPush(Push(log2, ChunkComplete), MessageComplete);
  }

  lemma NoBody()
    ensures BodyOf([]) == []
  {}

  /** A chunk size of one byte from 128 on is read as 0: it ends the body. */
  lemma TopBitEndsBody(cfg: Config, ch: byte)
    requires cfg.maxHeader >= 64 && cfg.answers(0) == Proceed && ch as int >= 128
    ensures match Run(cfg, Machine(Initial(Request), []), CHUNKED_HEAD + [ch] + EMPTY_LINE + EMPTY_LINE)
            case Ran(m) =>
              m.f.state == Between(StartReq) && BodyOf(m.log) == [] && m.log != [] && m.log[|m.log| - 1] == MessageComplete
            case _ => false
  {
    hide Run, HeadText, Text, BodyOf, Told, LegalRequest, KeepsAlive, TopBitRequest, HeadFor;
    TopBitText(ch);
    TopBitLegal(cfg.maxHeader, ch);
    TopBitFraming(ch);
    TopBitTold(ch);
    var m := RequestRead(cfg, Initial(Request), [], TopBitRequest(ch));
  }
}
