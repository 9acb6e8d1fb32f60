/** The persistent fields of `struct http_parser` and the enumerations they range over. */
module ParserState {
  datatype Kind = Request | Response | Both

  // `enum state`, grouped by the part of a message a state belongs to.

  datatype BetweenState = Dead | StartReqOrRes | StartRes | StartReq

  datatype ResState =
    | ResOrRespH | ResH | ResHT | ResHTT | ResHTTP | ResHttpMajor | ResHttpDot | ResHttpMinor | ResHttpEnd
    | ResFirstStatusCode | ResStatusCode | ResStatusStart | ResStatus | ResLineAlmostDone

  datatype WordState = ReqMethod | ReqSpacesBeforeUrl

  /** The states of the URL automaton; `UrlDead` is its `s_dead`, `UrlStart` its `s_req_spaces_before_url`. */
  datatype UrlState =
    | UrlDead | UrlStart | Schema | SchemaSlash | SchemaSlashSlash | ServerStart | Server | ServerWithAt
    | Path | QueryStart | Query | FragmentStart | Fragment

  datatype VersionState =
    | ReqHttpStart | ReqHttpH | ReqHttpHT | ReqHttpHTT | ReqHttpHTTP | ReqHttpI | ReqHttpIC
    | ReqHttpMajor | ReqHttpDot | ReqHttpMinor | ReqHttpEnd | ReqLineAlmostDone

  datatype NameState =
    | HeaderFieldStart | HeaderField
    | HeaderValueDiscardWs | HeaderValueDiscardWsAlmostDone | HeaderValueDiscardLws

  datatype ValueState = HeaderValueStart | HeaderValue | HeaderAlmostDone | HeaderValueLws

  datatype EndState = HeadersAlmostDone | HeadersDone

  datatype ChunkState =
    | ChunkSizeStart | ChunkSize | ChunkParameters | ChunkSizeAlmostDone
    | ChunkData | ChunkDataAlmostDone | ChunkDataDone

  datatype PayloadState = BodyIdentity | BodyIdentityEof | MessageDone

  datatype State =
    | Between(between: BetweenState)  // no message begun
    | StatusLine(res: ResState)
    | MethodWord(word: WordState)
    | Target(url: UrlState)
    | Version(version: VersionState)
    | HeaderName(name: NameState)     // up to the first byte of a value: `header_state` classifies the name
    | HeaderBody(value: ValueState)   // in and just after a value: `header_state` classifies the value
    | HeadEnd(end: EndState)
    | Chunk(chunk: ChunkState)
    | Payload(payload: PayloadState)

  /** `PARSING_HEADER`: the states up to `s_headers_done` in the enumeration's order. */
  predicate ParsingHeader(s: State) {
    match s
    case Payload(_) => false
    case Chunk(c) => !(c.ChunkData? || c.ChunkDataAlmostDone? || c.ChunkDataDone?)
    case _ => true
  }

  // `enum header_states`, grouped in the same way.

  datatype NameClass =
    | C | CO | CON
    | MatchingConnection | MatchingProxyConnection | MatchingContentLength
    | MatchingTransferEncoding | MatchingUpgrade
    | Connection | ContentLength | TransferEncoding | Upgrade

  datatype LengthClass = ContentLengthNum | ContentLengthWs

  datatype EncodingClass =
    | EncodingTokenStart | MatchingChunked | EncodingToken | EncodingChunked

  datatype ConnectionClass =
    | ConnectionTokenStart | MatchingKeepAlive | MatchingClose | MatchingConnectionUpgrade
    | ConnectionToken | ConnectionKeepAlive | ConnectionClose | ConnectionUpgrade

  datatype HeaderState =
    | General
    | Named(n: NameClass)
    | Length(l: LengthClass)
    | Encoding(e: EncodingClass)
    | Connecting(c: ConnectionClass)

  /** The bits of `flags`, and `F_TRANSFER_ENCODING`, which is kept in `extra_flags`. */
  datatype Flag =
    | F_CHUNKED | F_CONNECTION_KEEP_ALIVE | F_CONNECTION_CLOSE | F_CONNECTION_UPGRADE | F_TRAILING
    | F_UPGRADE | F_SKIPBODY | F_CONTENTLENGTH | F_TRANSFER_ENCODING

  datatype Method =
    | DELETE | GET | HEAD | POST | PUT | CONNECT | OPTIONS | TRACE | COPY | LOCK | MKCOL | MOVE
    | PROPFIND | PROPPATCH | SEARCH | UNLOCK | BIND | REBIND | UNBIND | ACL | REPORT | MKACTIVITY
    | CHECKOUT | MERGE | MSEARCH | NOTIFY | SUBSCRIBE | UNSUBSCRIBE | PATCH | PURGE | MKCALENDAR
    | LINK | UNLINK | SOURCE

  /** `method_strings` */
  function MethodName(m: Method): string {
    match m
    case DELETE => "DELETE" case GET => "GET" case HEAD => "HEAD" case POST => "POST"
    case PUT => "PUT" case CONNECT => "CONNECT" case OPTIONS => "OPTIONS" case TRACE => "TRACE"
    case COPY => "COPY" case LOCK => "LOCK" case MKCOL => "MKCOL" case MOVE => "MOVE"
    case PROPFIND => "PROPFIND" case PROPPATCH => "PROPPATCH" case SEARCH => "SEARCH"
    case UNLOCK => "UNLOCK" case BIND => "BIND" case REBIND => "REBIND" case UNBIND => "UNBIND"
    case ACL => "ACL" case REPORT => "REPORT" case MKACTIVITY => "MKACTIVITY"
    case CHECKOUT => "CHECKOUT" case MERGE => "MERGE" case MSEARCH => "M-SEARCH"
    case NOTIFY => "NOTIFY" case SUBSCRIBE => "SUBSCRIBE" case UNSUBSCRIBE => "UNSUBSCRIBE"
    case PATCH => "PATCH" case PURGE => "PURGE" case MKCALENDAR => "MKCALENDAR"
    case LINK => "LINK" case UNLINK => "UNLINK" case SOURCE => "SOURCE"
  }

  datatype Errno =
    | OK | InvalidEofState | HeaderOverflow | ClosedConnection | InvalidVersion | InvalidStatus
    | InvalidMethod | InvalidUrl | LfExpected | InvalidHeaderToken | InvalidContentLength
    | UnexpectedContentLength | InvalidChunkSize | InvalidConstant | Strict | InvalidTransferEncoding

  const ULLONG_MAX: nat := 18446744073709551615

  /** The fields `sn_http_parser_execute` reads and writes. `answered` is no field of the struct: it
      counts the calls of `on_headers_complete`, whose answers the application chooses. */
  datatype Fields = Fields(
    kind: Kind, flags: set<Flag>, state: State, headerState: HeaderState, index: nat,
    nread: nat, contentLength: nat, major: nat, minor: nat, status: nat, verb: Method,
    upgrade: bool, answered: nat)

  /** What `on_headers_complete` may return here: 0, 1 or 2. */
  datatype Answer = Proceed | SkipBody | SkipBodyAndUpgrade

  /** `max_header_size` and the application's answers, one for each message head. */
  datatype Config = Config(maxHeader: nat, answers: nat -> Answer)

  /** `sn_http_parser_init` */
  function Initial(kind: Kind): Fields {
    Fields(kind, {},
           Between(match kind case Request => StartReq case Response => StartRes case Both => StartReqOrRes),
           General, 0, 0, 0, 0, 0, 0, DELETE, false, 0)
  }

  /** `sn_http_message_needs_eof` */
  predicate NeedsEof(f: Fields) {
    if f.kind == Request then false
    else if f.status / 100 == 1 || f.status == 204 || f.status == 304 || F_SKIPBODY in f.flags then false
    else if F_TRANSFER_ENCODING in f.flags && F_CHUNKED !in f.flags then true
    else !(F_CHUNKED in f.flags || f.contentLength != ULLONG_MAX)
  }

  /** `sn_http_should_keep_alive` */
  predicate ShouldKeepAlive(f: Fields) {
    (if f.major > 0 && f.minor > 0 then F_CONNECTION_CLOSE !in f.flags else F_CONNECTION_KEEP_ALIVE in f.flags) && !NeedsEof(f)
  }

  /** `start_state` */
  function StartState(f: Fields): State {
    Between(if f.kind == Request then StartReq else StartRes)
  }

  /** `NEW_MESSAGE` */
  function NewMessage(f: Fields): State {
    if ShouldKeepAlive(f) then StartState(f) else Between(Dead)
  }
}
