/** One pass through the `switch` of `sn_http_parser_execute` for one byte: the new fields, what to
    do with marks and callbacks, and where control goes next. */
module Transitions {
  import opened Bytes
  import opened Trace
  import opened ParserState
  import opened UrlAutomaton

  datatype Effect =
    | Mark(kind: DataKind)          // MARK
    | Flush(kind: DataKind)         // CALLBACK_DATA, CALLBACK_DATA_NOADVANCE: up to this byte
    | FlushThrough(kind: DataKind)  // CALLBACK_DATA_ with one extra byte: this byte included
    | Notify(event: Event)          // CALLBACK_NOTIFY

  datatype Control =
    | Advance             // `break`: on to the next byte
    | Reexecute           // `goto reexecute`: the same byte again
    | Exit                // RETURN((p - data) + 1)
    | Fail(errno: Errno)  // SET_ERRNO and `goto error`

  datatype Move = Move(f: Fields, effects: seq<Effect>, control: Control)

  function Stay(f: Fields): Move { Move(f, [], Advance) }

  function Go(f: Fields, s: State): Move { Move(f.(state := s), [], Advance) }

  function Err(f: Fields, e: Errno): Move { Move(f, [], Fail(e)) }

  /** One expected byte: `STRICT_CHECK` and its relatives. */
  function Expect(f: Fields, ch: byte, want: byte, s: State, e: Errno): Move {
    if ch == want then Go(f, s) else Err(f, e)
  }

  function Transition(f: Fields, ch: byte, answer: Answer): Move {
    match f.state
    case Between(s) => OnBetween(f, s, ch)
    case StatusLine(s) => OnStatusLine(f, s, ch)
    case MethodWord(s) => if s == ReqMethod then OnMethod(f, ch) else OnSpacesBeforeUrl(f, ch)
    case Target(s) => OnTarget(f, s, ch)
    case Version(s) => OnVersion(f, s, ch)
    case HeaderName(s) => OnHeaderName(f, s, ch)
    case HeaderBody(s) => OnHeaderBody(f, s, ch)
    case HeadEnd(s) => if s == HeadersAlmostDone then OnHeadersAlmostDone(f, ch, answer) else OnHeadersDone(f, ch)
    case Chunk(s) => OnChunk(f, s, ch)
    case Payload(s) => OnPayload(f, s)
  }

  /** Position of a state along the chains of `goto reexecute`. */
  function Rank(s: State): nat {
    match s
    case Between(b) => if b == StartReqOrRes then 1 else 0
    case StatusLine(r) => if r == ResStatusCode then 2 else if r == ResStatusStart then 1 else 0
    case HeaderName(n) => if n == HeaderValueDiscardLws then 4 else if n == HeaderFieldStart then 3 else 0
    case HeaderBody(v) => if v == HeaderValueLws then 4 else if v == HeaderValue then 1 else 0
    case HeadEnd(e) => if e == HeadersAlmostDone then 2 else 1
    case Payload(p) => if p == BodyIdentity then 1 else 0
    case _ => 0
  }

  // ---- between messages

  /** Resets at the first byte of a message. */
  function Fresh(f: Fields, s: State): Fields {
    f.(flags := {}, contentLength := ULLONG_MAX, state := s)
  }

  function OnBetween(f: Fields, s: BetweenState, ch: byte): Move {
    if ch == CR || ch == LF then Stay(f)
    else match s
      case Dead => Err(f, ClosedConnection)
      case StartReqOrRes =>
        if ch == 'H' then Move(Fresh(f, StatusLine(ResOrRespH)), [Notify(MessageBegin)], Advance)
        else Move(Fresh(f, Between(StartReq)).(kind := Request), [], Reexecute)
      case StartRes =>
        if ch == 'H' then Move(Fresh(f, StatusLine(ResH)), [Notify(MessageBegin)], Advance)
        else Err(f, InvalidConstant)
      case StartReq =>
        (match FirstGuess(ch)
         case NoMethod => Err(f, InvalidMethod)
         case ThisMethod(m) =>
           Move(Fresh(f, MethodWord(ReqMethod)).(verb := m, index := 1), [Notify(MessageBegin)], Advance))
  }

  // ---- status line

  function OnStatusLine(f: Fields, s: ResState, ch: byte): Move {
    match s
    case ResOrRespH =>
      if ch == 'T' then Go(f.(kind := Response), StatusLine(ResHT))
      else if ch == 'E' then Go(f.(kind := Request, verb := HEAD, index := 2), MethodWord(ReqMethod))
      else Err(f, InvalidConstant)
    case ResH => Expect(f, ch, 'T', StatusLine(ResHT), Strict)
    case ResHT => Expect(f, ch, 'T', StatusLine(ResHTT), Strict)
    case ResHTT => Expect(f, ch, 'P', StatusLine(ResHTTP), Strict)
    case ResHTTP => Expect(f, ch, '/', StatusLine(ResHttpMajor), Strict)
    case ResHttpMajor =>
      if IsNum(ch) then Go(f.(major := Digit(ch)), StatusLine(ResHttpDot)) else Err(f, InvalidVersion)
    case ResHttpDot => Expect(f, ch, '.', StatusLine(ResHttpMinor), InvalidVersion)
    case ResHttpMinor =>
      if IsNum(ch) then Go(f.(minor := Digit(ch)), StatusLine(ResHttpEnd)) else Err(f, InvalidVersion)
    case ResHttpEnd => Expect(f, ch, ' ', StatusLine(ResFirstStatusCode), InvalidVersion)
    case ResFirstStatusCode =>
      if IsNum(ch) then Go(f.(status := Digit(ch)), StatusLine(ResStatusCode))
      else if ch == ' ' then Stay(f)
      else Err(f, InvalidStatus)
    case ResStatusCode => OnStatusCode(f, ch)
    case ResStatusStart =>
      Move(f.(state := StatusLine(ResStatus), index := 0), [Mark(Status)],
           if ch == CR || ch == LF then Reexecute else Advance)
    case ResStatus =>
      if ch == CR then Move(f.(state := StatusLine(ResLineAlmostDone)), [Flush(Status)], Advance)
      else if ch == LF then Move(f.(state := HeaderName(HeaderFieldStart)), [Flush(Status)], Advance)
      else Stay(f)
    case ResLineAlmostDone => Expect(f, ch, LF, HeaderName(HeaderFieldStart), Strict)
  }

  function OnStatusCode(f: Fields, ch: byte): Move {
    if IsNum(ch) then
      var code := f.status * 10 + Digit(ch);
      if code > 999 then Err(f, InvalidStatus) else Stay(f.(status := code))
    else if ch == ' ' then Go(f, StatusLine(ResStatusStart))
    else if ch == CR || ch == LF then Move(f.(state := StatusLine(ResStatusStart)), [], Reexecute)
    else Err(f, InvalidStatus)
  }

  // ---- request line

  datatype MaybeMethod = NoMethod | ThisMethod(m: Method)

  /** First guess of a method from its first letter. */
  function FirstGuess(ch: byte): MaybeMethod {
    match ch
    case 'A' => ThisMethod(ACL)
    case 'B' => ThisMethod(BIND)
    case 'C' => ThisMethod(CONNECT)
    case 'D' => ThisMethod(DELETE)
    case 'G' => ThisMethod(GET)
    case 'H' => ThisMethod(HEAD)
    case 'L' => ThisMethod(LOCK)
    case 'M' => ThisMethod(MKCOL)
    case 'N' => ThisMethod(NOTIFY)
    case 'O' => ThisMethod(OPTIONS)
    case 'P' => ThisMethod(POST)
    case 'R' => ThisMethod(REPORT)
    case 'S' => ThisMethod(SUBSCRIBE)
    case 'T' => ThisMethod(TRACE)
    case 'U' => ThisMethod(UNLOCK)
    case _ => NoMethod
  }

  /** A better guess once byte `i` of the guess `m` turns out to be `ch`. */
  function BetterGuess(m: Method, i: nat, ch: byte): MaybeMethod {
    match m
    case POST =>
      if i == 1 && ch == 'U' then ThisMethod(PUT)
      else if i == 1 && ch == 'A' then ThisMethod(PATCH)
      else if i == 1 && ch == 'R' then ThisMethod(PROPFIND)
      else NoMethod
    case PUT => if i == 2 && ch == 'R' then ThisMethod(PURGE) else NoMethod
    case CONNECT =>
      if i == 1 && ch == 'H' then ThisMethod(CHECKOUT)
      else if i == 2 && ch == 'P' then ThisMethod(COPY)
      else NoMethod
    case MKCOL =>
      if i == 1 && ch == 'O' then ThisMethod(MOVE)
      else if i == 1 && ch == 'E' then ThisMethod(MERGE)
      else if i == 1 && ch == '-' then ThisMethod(MSEARCH)
      else if i == 2 && ch == 'A' then ThisMethod(MKACTIVITY)
      else if i == 3 && ch == 'A' then ThisMethod(MKCALENDAR)
      else NoMethod
    case SUBSCRIBE =>
      if i == 1 && ch == 'E' then ThisMethod(SEARCH)
      else if i == 1 && ch == 'O' then ThisMethod(SOURCE)
      else NoMethod
    case REPORT => if i == 2 && ch == 'B' then ThisMethod(REBIND) else NoMethod
    case PROPFIND => if i == 4 && ch == 'P' then ThisMethod(PROPPATCH) else NoMethod
    case LOCK => if i == 1 && ch == 'I' then ThisMethod(LINK) else NoMethod
    case UNLOCK =>
      if i == 2 && ch == 'S' then ThisMethod(UNSUBSCRIBE)
      else if i == 2 && ch == 'B' then ThisMethod(UNBIND)
      else if i == 3 && ch == 'I' then ThisMethod(UNLINK)
      else NoMethod
    case _ => NoMethod
  }

  function OnMethod(f: Fields, ch: byte): Move {
    var next := CharAt(MethodName(f.verb), f.index);
    if ch == '\0' then Err(f, InvalidMethod)
    else if ch == ' ' && next == '\0' then Go(f.(index := f.index + 1), MethodWord(ReqSpacesBeforeUrl))
    else if ch == next then Stay(f.(index := f.index + 1))
    else if 'A' <= ch <= 'Z' || ch == '-' then
      match BetterGuess(f.verb, f.index, ch)
      case NoMethod => Err(f, InvalidMethod)
      case ThisMethod(m) => Stay(f.(verb := m, index := f.index + 1))
    else Err(f, InvalidMethod)
  }

  /** Where the URL automaton starts; CONNECT takes an authority. */
  function UrlEntry(f: Fields): UrlState { if f.verb == CONNECT then ServerStart else UrlStart }

  function OnSpacesBeforeUrl(f: Fields, ch: byte): Move {
    if ch == ' ' then Stay(f)
    else
      var s := ParseUrlChar(UrlEntry(f), ch);
      if s == UrlDead then Err(f, InvalidUrl) else Move(f.(state := Target(s)), [Mark(Url)], Advance)
  }

  /** States in which a URL may not end. */
  predicate EarlyUrl(s: UrlState) {
    s.Schema? || s.SchemaSlash? || s.SchemaSlashSlash? || s.ServerStart?
  }

  function OnTarget(f: Fields, s: UrlState, ch: byte): Move {
    if ch == ' ' && !EarlyUrl(s) then Move(f.(state := Version(ReqHttpStart)), [Flush(Url)], Advance)
    else if (ch == CR || ch == LF) && !EarlyUrl(s) then
      Move(f.(major := 0, minor := 9,
              state := if ch == CR then Version(ReqLineAlmostDone) else HeaderName(HeaderFieldStart)),
           [Flush(Url)], Advance)
    else
      var next := ParseUrlChar(s, ch);
      if next == UrlDead then Err(f, InvalidUrl) else Go(f, Target(next))
  }

  function OnVersion(f: Fields, s: VersionState, ch: byte): Move {
    match s
    case ReqHttpStart =>
      if ch == ' ' then Stay(f)
      else if ch == 'H' then Go(f, Version(ReqHttpH))
      else if ch == 'I' && f.verb == SOURCE then Go(f, Version(ReqHttpI))
      else Err(f, InvalidConstant)
    case ReqHttpH => Expect(f, ch, 'T', Version(ReqHttpHT), Strict)
    case ReqHttpHT => Expect(f, ch, 'T', Version(ReqHttpHTT), Strict)
    case ReqHttpHTT => Expect(f, ch, 'P', Version(ReqHttpHTTP), Strict)
    case ReqHttpI => Expect(f, ch, 'C', Version(ReqHttpIC), Strict)
    case ReqHttpIC => Expect(f, ch, 'E', Version(ReqHttpHTTP), Strict)
    case ReqHttpHTTP => Expect(f, ch, '/', Version(ReqHttpMajor), Strict)
    case ReqHttpMajor =>
      if IsNum(ch) then Go(f.(major := Digit(ch)), Version(ReqHttpDot)) else Err(f, InvalidVersion)
    case ReqHttpDot => Expect(f, ch, '.', Version(ReqHttpMinor), InvalidVersion)
    case ReqHttpMinor =>
      if IsNum(ch) then Go(f.(minor := Digit(ch)), Version(ReqHttpEnd)) else Err(f, InvalidVersion)
    case ReqHttpEnd =>
      if ch == CR then Go(f, Version(ReqLineAlmostDone))
      else if ch == LF then Go(f, HeaderName(HeaderFieldStart))
      else Err(f, InvalidVersion)
    case ReqLineAlmostDone => Expect(f, ch, LF, HeaderName(HeaderFieldStart), LfExpected)
  }

  // ---- header names

  function OnHeaderName(f: Fields, s: NameState, ch: byte): Move {
    match s
    case HeaderFieldStart => OnHeaderFieldStart(f, ch)
    case HeaderField => OnHeaderField(f, ch)
    case HeaderValueDiscardWs =>
      if ch == ' ' || ch == '\t' then Stay(f)
      else if ch == CR then Go(f, HeaderName(HeaderValueDiscardWsAlmostDone))
      else if ch == LF then Go(f, HeaderName(HeaderValueDiscardLws))
      else OnValueStart(f, ch)
    case HeaderValueDiscardWsAlmostDone => Expect(f, ch, LF, HeaderName(HeaderValueDiscardLws), Strict)
    case HeaderValueDiscardLws => OnDiscardLws(f, ch)
  }

  function OnHeaderFieldStart(f: Fields, ch: byte): Move {
    if ch == CR then Go(f, HeadEnd(HeadersAlmostDone))
    else if ch == LF then Move(f.(state := HeadEnd(HeadersAlmostDone)), [], Reexecute)
    else if !IsToken(ch) then Err(f, InvalidHeaderToken)
    else
      Move(f.(index := 0, state := HeaderName(HeaderField), headerState := FirstHeaderState(Token(ch))),
           [Mark(Field)], Advance)
  }

  function FirstHeaderState(c: byte): HeaderState {
    if c == 'c' then Named(C)
    else if c == 'p' then Named(MatchingProxyConnection)
    else if c == 't' then Named(MatchingTransferEncoding)
    else if c == 'u' then Named(MatchingUpgrade)
    else General
  }

  /** The word a matching `header_state` compares with. */
  function Keyword(h: HeaderState): string {
    match h
    case Named(MatchingConnection) => "connection"
    case Named(MatchingProxyConnection) => "proxy-connection"
    case Named(MatchingContentLength) => "content-length"
    case Named(MatchingTransferEncoding) => "transfer-encoding"
    case Named(MatchingUpgrade) => "upgrade"
    case Encoding(MatchingChunked) => "chunked"
    case Connecting(MatchingKeepAlive) => "keep-alive"
    case Connecting(MatchingClose) => "close"
    case Connecting(MatchingConnectionUpgrade) => "upgrade"
    case _ => ""
  }

  /** Byte `i` of the keyword of `h`: `miss` when it differs, `hit` when it is the last one. */
  function Matched(h: HeaderState, i: nat, c: byte, hit: HeaderState, miss: HeaderState): HeaderState {
    var word := Keyword(h);
    if i > |word| || c != CharAt(word, i) then miss
    else if i == |word| - 1 then hit
    else h
  }

  /** The `switch` on `header_state` inside the header-field scan, for a token byte. */
  function FieldByte(f: Fields, ch: byte): Fields {
    match f.headerState
    case Named(n) => NameByte(f, n, Token(ch))
    case _ => f
  }

  function NameByte(f: Fields, n: NameClass, c: byte): Fields {
    var h := f.headerState;
    var i := f.index + 1;
    match n
    case C => f.(index := i, headerState := if c == 'o' then Named(CO) else General)
    case CO => f.(index := i, headerState := if c == 'n' then Named(CON) else General)
    case CON =>
      f.(index := i, headerState :=
         if c == 'n' then Named(MatchingConnection)
         else if c == 't' then Named(MatchingContentLength)
         else General)
    case MatchingConnection => f.(index := i, headerState := Matched(h, i, c, Named(Connection), General))
    case MatchingProxyConnection => f.(index := i, headerState := Matched(h, i, c, Named(Connection), General))
    case MatchingContentLength => f.(index := i, headerState := Matched(h, i, c, Named(ContentLength), General))
    case MatchingTransferEncoding =>
      var next := Matched(h, i, c, Named(TransferEncoding), General);
      f.(index := i, headerState := next,
         flags := if next == Named(TransferEncoding) then f.flags + {F_TRANSFER_ENCODING} else f.flags)
    case MatchingUpgrade => f.(index := i, headerState := Matched(h, i, c, Named(Upgrade), General))
    case _ => f.(headerState := General)  // a token byte after a complete name; a space is no token
  }

  function OnHeaderField(f: Fields, ch: byte): Move {
    if IsToken(ch) then Stay(FieldByte(f, ch))
    else if ch == ':' then Move(f.(state := HeaderName(HeaderValueDiscardWs)), [Flush(Field)], Advance)
    else Err(f, InvalidHeaderToken)
  }

  /** Flags recorded when a header is complete. */
  function EndOfHeader(flags: set<Flag>, h: HeaderState): set<Flag> {
    match h
    case Encoding(EncodingChunked) => flags + {F_CHUNKED}
    case Connecting(c) => ConnectionFlag(flags, c)
    case _ => flags
  }

  /** `F_CONNECTION_*` as recorded when a recognised Connection token ends. */
  function ConnectionFlag(flags: set<Flag>, c: ConnectionClass): set<Flag> {
    match c
    case ConnectionKeepAlive => flags + {F_CONNECTION_KEEP_ALIVE}
    case ConnectionClose => flags + {F_CONNECTION_CLOSE}
    case ConnectionUpgrade => flags + {F_CONNECTION_UPGRADE}
    case _ => flags
  }

  /** An empty value, or another line of white space. */
  function OnDiscardLws(f: Fields, ch: byte): Move {
    if ch == ' ' || ch == '\t' then Go(f, HeaderName(HeaderValueDiscardWs))
    else if f.headerState == Named(ContentLength) then Err(f, InvalidContentLength)
    else
      Move(f.(flags := EndOfHeader(f.flags, f.headerState), state := HeaderName(HeaderFieldStart)),
           [Mark(Value), Flush(Value)], Reexecute)
  }

  // ---- header values

  function OnHeaderBody(f: Fields, s: ValueState, ch: byte): Move {
    match s
    case HeaderValueStart => OnValueStart(f, ch)
    case HeaderValue => OnHeaderValue(f, ch)
    case HeaderAlmostDone => Expect(f, ch, LF, HeaderBody(HeaderValueLws), LfExpected)
    case HeaderValueLws => OnValueLws(f, ch)
  }

  function OnValueStart(f: Fields, ch: byte): Move {
    var g := f.(state := HeaderBody(HeaderValue), index := 0);
    match f.headerState
    case Named(ContentLength) =>
      if !IsNum(ch) then Err(f, InvalidContentLength)
      else if F_CONTENTLENGTH in f.flags then Err(f, UnexpectedContentLength)
      else
        Move(g.(flags := f.flags + {F_CONTENTLENGTH}, contentLength := Digit(ch),
                headerState := Length(ContentLengthNum)), [Mark(Value)], Advance)
    case Named(Upgrade) =>
      Move(g.(flags := f.flags + {F_UPGRADE}, headerState := General), [Mark(Value)], Advance)
    case _ => Move(g.(headerState := FirstValueState(f.headerState, Lower(ch))), [Mark(Value)], Advance)
  }

  /** How a value that starts with `c` is read. After a line fold only the listed states carry on. */
  function FirstValueState(h: HeaderState, c: byte): HeaderState {
    match h
    case Named(TransferEncoding) => Encoding(if c == 'c' then MatchingChunked else EncodingToken)
    case Named(Connection) =>
      Connecting(if c == 'k' then MatchingKeepAlive
                 else if c == 'c' then MatchingClose
                 else if c == 'u' then MatchingConnectionUpgrade
                 else ConnectionToken)
    case Encoding(EncodingTokenStart) => h
    case Length(ContentLengthWs) => h
    case Connecting(ConnectionTokenStart) => h
    case _ => General
  }

  datatype ValueResult = ValueOk(f: Fields) | ValueErr(errno: Errno)

  /** The `switch` on `h_state` inside the header-value scan. */
  function ValueByte(f: Fields, ch: byte): ValueResult {
    match f.headerState
    case General => ValueOk(f)
    case Named(n) =>
      if n == Connection || n == TransferEncoding then ValueOk(f)  // assert(0 && "Shouldn't get here.")
      else if n == ContentLength then (if ch == ' ' then ValueOk(f) else LengthByte(f, ch))
      else ValueOk(f.(headerState := General))
    case Length(l) =>
      if l == ContentLengthNum then LengthByte(f, ch)
      else if ch == ' ' then ValueOk(f)
      else ValueErr(InvalidContentLength)
    case Encoding(e) => ValueOk(EncodingByte(f, e, ch))
    case Connecting(c) => ValueOk(ConnectionByte(f, c, ch))
  }

  /** A digit of Content-Length; a space after the number switches to `ContentLengthWs`. */
  function LengthByte(f: Fields, ch: byte): ValueResult {
    if ch == ' ' then ValueOk(f.(headerState := Length(ContentLengthWs)))
    else if !IsNum(ch) then ValueErr(InvalidContentLength)
    else if (ULLONG_MAX - 10) / 10 < f.contentLength then ValueErr(InvalidContentLength)
    else ValueOk(f.(headerState := Length(ContentLengthNum), contentLength := f.contentLength * 10 + Digit(ch)))
  }

  function EncodingByte(f: Fields, e: EncodingClass, ch: byte): Fields {
    var c := Lower(ch);
    match e
    case EncodingTokenStart =>
      f.(headerState :=
         if c == 'c' then Encoding(MatchingChunked)
         else if IsToken(c) then Encoding(EncodingToken)
         else if c == ' ' || c == '\t' then f.headerState
         else General)
    case MatchingChunked =>
      f.(index := f.index + 1, headerState :=
         Matched(f.headerState, f.index + 1, c, Encoding(EncodingChunked), Encoding(EncodingToken)))
    case EncodingToken =>
      if ch == ',' then f.(index := 0, headerState := Encoding(EncodingTokenStart)) else f
    case EncodingChunked => if ch != ' ' then f.(headerState := Encoding(EncodingToken)) else f
  }

  function ConnectionByte(f: Fields, s: ConnectionClass, ch: byte): Fields {
    var c := Lower(ch);
    match s
    case ConnectionTokenStart =>
      f.(headerState :=
         if c == 'k' then Connecting(MatchingKeepAlive)
         else if c == 'c' then Connecting(MatchingClose)
         else if c == 'u' then Connecting(MatchingConnectionUpgrade)
         else if IsToken(c) then Connecting(ConnectionToken)
         else if c == ' ' || c == '\t' then f.headerState
         else General)
    case MatchingKeepAlive => ConnectionMatch(f, c, ConnectionKeepAlive)
    case MatchingClose => ConnectionMatch(f, c, ConnectionClose)
    case MatchingConnectionUpgrade => ConnectionMatch(f, c, ConnectionUpgrade)
    case ConnectionToken =>
      if ch == ',' then f.(index := 0, headerState := Connecting(ConnectionTokenStart)) else f
    case _ =>
      if ch == ',' then
        f.(flags := ConnectionFlag(f.flags, s), headerState := Connecting(ConnectionTokenStart), index := 0)
      else if ch != ' ' then f.(headerState := Connecting(ConnectionToken))
      else f
  }

  function ConnectionMatch(f: Fields, c: byte, hit: ConnectionClass): Fields {
    f.(index := f.index + 1, headerState :=
       Matched(f.headerState, f.index + 1, c, Connecting(hit), Connecting(ConnectionToken)))
  }

  /** A byte of a name changes no other fields than these. */
  lemma FieldByteStays(f: Fields, ch: byte)
    ensures var g := FieldByte(f, ch);
            g == f.(index := g.index, headerState := g.headerState, flags := g.flags)
  {
    hide Matched, Token;
  }

  /** Nor does a byte of a value. */
  lemma ValueByteStays(f: Fields, ch: byte)
    ensures ValueByte(f, ch).ValueOk? ==>
              var g := ValueByte(f, ch).f;
              g == f.(index := g.index, headerState := g.headerState, flags := g.flags, contentLength := g.contentLength)
  {
    hide Matched, Lower, Token, ConnectionFlag;
  }

  function OnHeaderValue(f: Fields, ch: byte): Move {
    if ch == CR then Move(f.(state := HeaderBody(HeaderAlmostDone)), [Flush(Value)], Advance)
    else if ch == LF then Move(f.(state := HeaderBody(HeaderAlmostDone)), [Flush(Value)], Reexecute)
    else if !IsHeaderChar(ch) then Err(f, InvalidHeaderToken)
    else match ValueByte(f, ch)
      case ValueOk(g) => Stay(g)
      case ValueErr(e) => Err(f, e)
  }

  function OnValueLws(f: Fields, ch: byte): Move {
    if ch == ' ' || ch == '\t' then
      Move(f.(state := HeaderBody(HeaderValueStart),
              headerState :=
                if f.headerState == Length(ContentLengthNum) then Length(ContentLengthWs) else f.headerState),
           [], Reexecute)
    else
      Move(f.(flags := EndOfHeader(f.flags, f.headerState), state := HeaderName(HeaderFieldStart)),
           [], Reexecute)
  }

  // ---- end of the head

  function OnHeadersAlmostDone(f: Fields, ch: byte, answer: Answer): Move {
    if ch != LF then Err(f, Strict)
    else if F_TRAILING in f.flags then Move(f.(state := Payload(MessageDone)), [Notify(ChunkComplete)], Reexecute)
    else if F_TRANSFER_ENCODING in f.flags && F_CONTENTLENGTH in f.flags then Err(f, UnexpectedContentLength)
    else
      var g := Headed(f, answer);
      Move(g, [Notify(HeadersComplete(HeadOf(g, answer != Proceed)))], Reexecute)
  }

  /** The fields once the application has answered. */
  function Headed(f: Fields, answer: Answer): Fields {
    var up := if F_UPGRADE in f.flags && F_CONNECTION_UPGRADE in f.flags
              then f.kind == Request || f.status == 101
              else f.verb == CONNECT;
    f.(state := HeadEnd(HeadersDone), answered := f.answered + 1,
       upgrade := up || answer == SkipBodyAndUpgrade,
       flags := if answer == Proceed then f.flags else f.flags + {F_SKIPBODY})
  }

  function HeadOf(f: Fields, skip: bool): Head {
    Head(f.contentLength, F_CHUNKED in f.flags, f.verb == CONNECT, skip, f.upgrade)
  }

  /** A head with nothing after it, whatever lengths it names. */
  predicate Bodiless(h: Head) { h.skip || (h.upgrade && h.connect) }

  /** A head that ends its message. */
  predicate EndsAtHead(h: Head) {
    Bodiless(h) || (!h.chunked && (h.length == 0 || h.length == ULLONG_MAX))
  }

  /** The message ends here. */
  function Complete(f: Fields, control: Control): Move {
    Move(f.(state := NewMessage(f)), [Notify(MessageComplete)], control)
  }

  function OnHeadersDone(f: Fields, ch: byte): Move {
    var g := f.(nread := 0);
    var hasBody := F_CHUNKED in f.flags || (f.contentLength > 0 && f.contentLength != ULLONG_MAX);
    if ch != LF then Err(f, Strict)
    else if f.upgrade && (f.verb == CONNECT || F_SKIPBODY in f.flags || !hasBody) then Complete(g, Exit)
    else if F_SKIPBODY in f.flags then Complete(g, Advance)
    else if F_CHUNKED in f.flags then Go(g, Chunk(ChunkSizeStart))
    else if F_TRANSFER_ENCODING in f.flags then
      if f.kind == Request then Err(g, InvalidTransferEncoding) else Go(g, Payload(BodyIdentityEof))
    else if f.contentLength == 0 then Complete(g, Advance)
    else if f.contentLength != ULLONG_MAX then Go(g, Payload(BodyIdentity))
    else if !NeedsEof(g) then Complete(g, Advance)
    else Go(g, Payload(BodyIdentityEof))
  }

  // ---- bodies

  function OnChunk(f: Fields, s: ChunkState, ch: byte): Move {
    match s
    case ChunkSizeStart =>
      if Unhex(ch) == -1 then Err(f, InvalidChunkSize)
      else Go(f.(contentLength := Unhex(ch)), Chunk(ChunkSize))
    case ChunkSize => OnChunkSize(f, ch)
    case ChunkParameters => if ch == CR then Go(f, Chunk(ChunkSizeAlmostDone)) else Stay(f)
    case ChunkSizeAlmostDone => OnChunkHeader(f, ch)
    case ChunkData =>
      // one byte of chunk data
      Move(if f.contentLength <= 1 then f.(contentLength := 0, state := Chunk(ChunkDataAlmostDone))
           else f.(contentLength := f.contentLength - 1), [Mark(Body)], Advance)
    case ChunkDataAlmostDone =>
      if ch != CR then Err(f, Strict)
      else Move(f.(state := Chunk(ChunkDataDone)), [Flush(Body)], Advance)
    case ChunkDataDone =>
      if ch != LF then Err(f, Strict)
      else Move(f.(nread := 0, state := Chunk(ChunkSizeStart)), [Notify(ChunkComplete)], Advance)
  }

  function OnChunkSize(f: Fields, ch: byte): Move {
    if ch == CR then Go(f, Chunk(ChunkSizeAlmostDone))
    else if Unhex(ch) == -1 then
      if ch == ';' || ch == ' ' then Go(f, Chunk(ChunkParameters)) else Err(f, InvalidChunkSize)
    else if (ULLONG_MAX - 16) / 16 < f.contentLength then Err(f, InvalidContentLength)
    else Stay(f.(contentLength := f.contentLength * 16 + Unhex(ch)))
  }

  function OnChunkHeader(f: Fields, ch: byte): Move {
    if ch != LF then Err(f, Strict)
    else
      Move(if f.contentLength == 0
           then f.(nread := 0, flags := f.flags + {F_TRAILING}, state := HeaderName(HeaderFieldStart))
           else f.(nread := 0, state := Chunk(ChunkData)),
           [Notify(ChunkHeader(f.contentLength))], Advance)
  }

  function OnPayload(f: Fields, s: PayloadState): Move {
    match s
    case BodyIdentity =>
      // one byte of the body; the byte that completes it is seen again in `MessageDone`
      if f.contentLength <= 1 then
        Move(f.(contentLength := 0, state := Payload(MessageDone)), [Mark(Body), FlushThrough(Body)], Reexecute)
      else
        Move(f.(contentLength := f.contentLength - 1), [Mark(Body)], Advance)
    case BodyIdentityEof => Move(f, [Mark(Body)], Advance)
    case MessageDone => Complete(f, if f.upgrade then Exit else Advance)
  }

  predicate Falls(f: Fields, m: Move) { m.control == Reexecute ==> Rank(m.f.state) < Rank(f.state) }

  lemma LinesFall(f: Fields, ch: byte)
    ensures f.state.Between? ==> Falls(f, OnBetween(f, f.state.between, ch))
    ensures f.state.StatusLine? ==> Falls(f, OnStatusLine(f, f.state.res, ch))
    ensures f.state.Version? ==> Falls(f, OnVersion(f, f.state.version, ch))
    ensures Falls(f, OnMethod(f, ch)) && Falls(f, OnSpacesBeforeUrl(f, ch))
    ensures f.state.Target? ==> Falls(f, OnTarget(f, f.state.url, ch))
  {
    hide FirstGuess, BetterGuess, MethodName, ParseUrlChar, Rank;
    RankOf(f);
  }

  /** The ranks that matter. */
  lemma RankOf(f: Fields)
    ensures Rank(Between(StartReqOrRes)) == 1 && Rank(Between(StartReq)) == 0
    ensures Rank(StatusLine(ResStatusCode)) == 2 && Rank(StatusLine(ResStatusStart)) == 1 && Rank(StatusLine(ResStatus)) == 0
  {}

  lemma NamesFall(f: Fields, ch: byte)
    ensures f.state.HeaderName? ==> Falls(f, OnHeaderName(f, f.state.name, ch))
    ensures f.state.HeaderBody? ==> Falls(f, OnHeaderBody(f, f.state.value, ch))
  {
    hide FieldByte, ValueByte, FirstValueState, FirstHeaderState, EndOfHeader, Token;
  }

  lemma BodiesFall(f: Fields, ch: byte, answer: Answer)
    ensures f.state == HeadEnd(HeadersAlmostDone) ==> Falls(f, OnHeadersAlmostDone(f, ch, answer))
    ensures f.state == HeadEnd(HeadersDone) ==> Falls(f, OnHeadersDone(f, ch))
    ensures f.state.Chunk? ==> Falls(f, OnChunk(f, f.state.chunk, ch))
    ensures f.state.Payload? ==> Falls(f, OnPayload(f, f.state.payload))
  {
    hide NeedsEof, Unhex;
  }

  /** Every `goto reexecute` climbs down. */
  lemma RankFalls(f: Fields, ch: byte, answer: Answer)
    ensures var m := Transition(f, ch, answer);
            m.control == Reexecute ==> Rank(m.f.state) < Rank(f.state)
  {
    hide Rank, OnBetween, OnStatusLine, OnMethod, OnSpacesBeforeUrl, OnTarget, OnVersion,
      OnHeaderName, OnHeaderBody, OnHeadersAlmostDone, OnHeadersDone, OnChunk, OnPayload;
    LinesFall(f, ch);
    NamesFall(f, ch);
    BodiesFall(f, ch, answer);
  }
}
