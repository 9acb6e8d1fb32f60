# Verified model of the networking core

This project models, in Dafny, five parts of the repository and proves what they promise.

- The incremental HTTP/1.x parser (`src/httpparser.cpp`): a resumable state machine fed arbitrary slices of a byte stream.
- The URL and authority parser in the same file.
- The receive buffer of a TCP link (`src/tcplink.cpp`): a byte queue in a growing array with lazy compaction.
- The pool of send buffers (`src/mempool.cpp`, `src/memitem.cpp`).
- The intrusive red-black and splay trees of `3rd/libuv/include/uv/tree.h`.

`dafny verify dfyconfig.toml` checks everything.

## How it is built

**HTTP parser.** `Transitions.Transition` is the `switch` for one byte (`src/httpparser.cpp:717-2137`): new fields, marks
and callbacks, and whether control advances, re-executes, leaves or fails. `ByteMachine.Run` feeds a stream through it one
byte at a time; it is the parser run on one-byte buffers, with neighbouring data callbacks of one kind merged. The real
loop, with its marks, its bulk scans and its skip-ahead, is `Execute.ExecuteBuffer` and the methods it calls; they are proved
to do what the byte machine does. `HttpParsers.HttpParser` is `struct http_parser` as an object whose fields `Execute`
updates in place. Every other theorem about HTTP is proved of the byte machine and holds of the object by that refinement.
The states are grouped by phase in nested datatypes, `flags` and the one bit of `extra_flags` are a set, and the answers of
`on_headers_complete` are a function of the number of calls, so that every theorem holds for every sequence of answers.

A header value in the theorems is a list of cells, each a byte or a fold of the line with its white space, so that they hold
of folded values, of both line ends and of any white space before the value. `Lists` says, without the parser, what the scan
of a list makes of it, and `Headers.WithAll` what framing a list of headers spells. A request in `Requests` is any request
line, any headers in any order, and a body that goes with the framing they spell; `Responses` has the same for responses.
What is refused is said element by element, by character code, in `Refusals`, `Lengths`, `StatusLines` and `Numbers`: each
theorem reads any bytes at its place and says which are taken.

**URLs.** `UrlAutomaton.ParseUrlChar` and `Urls.ParseHostChar` are the two automata. `Urls.ParseUrl` is the imperative
parser over them, proved against `Urls.Accepts` (when it returns 0) and `Urls.Describes` (where the components lie). What
these two say is then proved in `UrlTheorems` and `UrlRoundTrip`; `UrlLanguage` and `HostLanguage` have the texts the automata
take, by character code.

**Receive buffer, pool, trees** are classes with the source's fields. `ReceiveBuffers.View` is the queue with the handled
bytes still in front of it. The pool's invariant says that every item is in exactly one place. A tree's shape is a ghost
value; `RbShapes.Path` and `SplayShapes.Spine` describe what surrounds the place where a loop works, so that each rotation is
proved on the heap once and the loops are proved on values. A splay leaves exactly the tree of a function on values, and the
turns it takes are counted, so that the amortized bound is proved on values too. Each pair of mirrored macros and branches is one method with the
side as a parameter. `cmp` compares integer keys, which stand for any total preorder of finitely many elements.

## What the code does differently from what it says

- `unhex` is declared with 256 entries and given 128 (`src/httpparser.cpp:222-231`), so every byte from 128 on reads as the
  hexadecimal digit 0 and is accepted in a chunk size (`Numbers.HexBytes`; a run: `RequestRuns.TopBitEndsBody`).
- The lists in Transfer-Encoding and Connection values skip spaces after a comma but not tabs, because `LOWER` has been
  applied to the byte (`src/httpparser.cpp:1506`, `src/httpparser.cpp:1588`, `src/httpparser.cpp:1623`). White space that
  folds the line is skipped there, space or tab, for it does not pass through that scan.
- In a Transfer-Encoding list a comma is heard only inside a coding that is known to be another one. A comma right after a
  beginning of "chunked", or after "chunked" and spaces, is taken for a mismatch, and the one coding behind it is missed; a
  coding that is empty or begins with no token byte, and a fold anywhere but before a coding, lose the rest of the value.
  `ListHeaders.ChunkedExact` has the exact condition, and `ListHeaders.ListRuns`, `ListHeaders.FoldAfter` and
  `ListHeaders.FoldBefore` inputs. `Lists.Heard` says it of both lists: in a Connection value a comma after a recognised
  option is heard too.
- The transfer-encoding bit is set by any header whose name begins with "transfer-encoding" (`HeaderNames.NameMeaning`), and
  then a Content-Length is an error (`Requests.TwoFramings`; a run: `RequestRuns.LikeTransferEncoding`).
- The header bytes of a trailer are still counted when the next request begins, so its head may be shorter by them
  (`Requests.Finishes`): `nread` is reset at the end of a head, of a chunk header and of a chunk only.
- A response with status 1xx, 204 or 304 is read with a body if a header gives it one: `sn_http_message_needs_eof`, which
  knows these statuses (`src/httpparser.cpp:2158-2165`), is only asked where no header does (`Responses.NoContentExact`).
- `on_read` shows its handler the start of the array, not the start of the queue (`src/tcplink.cpp:302`): see
  `ReceiveBuffers.QueueInFront`, `ReceiveBuffers.ShownBytes` and `ReceiveBuffers.StaleRead`.
- `upgrade` is said to mean that the parser has exited (`src/httpparser.h:318-320`). It does not as long as the last head
  reported announces an upgrade and its message is not complete, and there only (`Upgrades.UpgradeExact`): while the body
  of that message is read (`Protocol.UpgradeMidBody`; a run: `RequestRuns.UpgradeTooEarly`).
- 128 KiB items go back to the vector for 64 KiB items, which has no bound for them, and none is ever reused as a 128 KiB
  item (`src/mempool.cpp:114-119`): `MemPools.MemPool.Free` has the exact condition, `MemPools.Hoard` a run.
- An item assigned a length between two classes that is more than its capacity comes back to a class it is too small for:
  `MemPools.Fill` and `MemPools.ServedExact` have the exact conditions, `MemPools.Outgrown` and `MemPools.GrownItem` runs.

## Model

| member | source | states |
|---|---|---|
| Transitions.RankFalls | src/httpparser.cpp:719-2137 | every `goto reexecute` goes down a fixed rank, so the chains of re-execution end |
| ByteMachine.RunAppend | src/httpparser.cpp:641-2148 | running a concatenation is running its parts one after the other, also when the first stops or fails |
| ByteMachine.RunLeft | src/httpparser.cpp:641-2148 | a run consumes its stream unless it leaves for an upgrade, after which less is left, or fails, which leaves at least the offending byte |
| Invariants.TransitionKeeps | src/httpparser.cpp:719-2137 | one pass through the switch keeps the invariant of the fields: framing data that fits the state, so that no unreachable branch and no internal assertion can fail |
| Invariants.TransitionOrderly | src/httpparser.cpp:105-142 | marks come and go in order: at most one is live, it belongs to the state, and no callback is made while it is |
| Invariants.ByteStepInv | src/httpparser.cpp:710-2137 | each byte keeps the invariant, with `nread` within the limit and 0 at the start of a chunk size |
| HeaderCounts.NreadTallies | src/httpparser.cpp:150-166 | after any run that does not fail `nread` is the number of bytes read in header states since the last headers_complete or chunk_header, and is at most `max_header_size` |
| Execute.ScanHeaderField | src/httpparser.cpp:1254-1389 | the bulk scan of a header name leaves the fields and the count the byte machine leaves; it may notice an oversized header late, and then only if the byte machine has failed with it at a byte scanned |
| Execute.ScanHeaderValue | src/httpparser.cpp:1480-1704 | the same for the scan of a header value with its skip-ahead over `h_general`; the byte it misses after `max_header_size` bytes lies in a run that overflows |
| Execute.TakePayload | src/httpparser.cpp:1937-2092 | the bulk steps of identity bodies and chunk data report as one slice what the byte machine reports byte by byte |
| Execute.SourceAssertions | src/httpparser.cpp:1937-2109 | the assertions of the body and chunk states hold in every synchronised state: counts, flags, and lengths that are neither 0 nor ULLONG_MAX |
| Execute.ExecuteBuffer | src/httpparser.cpp:641-2148 | for any buffer the loop with marks and bulk scans ends in the fields, merged callbacks, errno and position of the byte machine; a call that fails has made its callbacks up to the slice not yet reported. Where the byte machine fails with an oversized header the call fails too, not before that byte, with that error or one of a bad header value, and with the same callbacks but for the value not reported or reported further |
| HttpParsers.HttpParser.constructor | src/httpparser.cpp:2217-2226 | a new parser is at rest in the start state of its kind and satisfies the invariant |
| HttpParsers.HttpParser.Execute | src/httpparser.cpp:641-2148 | an error sticks and consumes nothing; an empty buffer ends the stream; any other call agrees with the byte machine in fields, merged trace, error and count, in the sense of `Execute.ExecuteBuffer` |
| HttpParsers.ExecuteSplit | src/httpparser.cpp:641-2148 | split invariance: a call on `a + b` and calls on `a` and then `b`, the second unless the parser has left for another protocol, give the same fields, merged trace and count when they end well, and the same error at the same byte when they do not, but for an oversized header |
| HttpParsers.ExecuteSlices | src/httpparser.cpp:641-2148 | any partition of a stream into buffers, fed until the parser leaves for another protocol, gives the fields, merged trace and total count of the byte machine on the whole stream, up to the upgrade if there is one, and its error, but that an oversized header may show as another one, later, and with more of its value reported; `upgrade` and the messages counted tell whether the parser has left |
| Protocol.WalkMerge | src/httpparser.cpp:105-134 | the grammar of callbacks does not see how data was sliced |
| Protocol.WalkPrefix | src/httpparser.cpp:719-2109 | a prefix of a lawful trace is lawful |
| Protocol.ByteStepLawful | src/httpparser.cpp:719-2109 | each byte keeps the trace inside the grammar of messages and in step with the state |
| Protocol.RunLawful | src/httpparser.cpp:719-2109 | over any run the trace is messages of begin, url or status, (field, value)*, headers_complete, what the head calls for, complete, also up to an error: nothing if the application skips the body or CONNECT switches, chunks with trailers if chunked, else exactly Content-Length bytes, else nothing or a body up to the end of the stream |
| Protocol.ExecuteLawful | src/httpparser.cpp:641-714 | every single call keeps the callbacks in that grammar, also a failing one, one with an oversized header and one after an upgrade; the end of the stream is accepted if and only if the grammar lets a message end there |
| Protocol.ExecuteByProtocol | src/httpparser.cpp:641-2148 | a new parser object fed any buffers and then the end of the stream makes callbacks that follow that grammar, whatever errors or upgrades come, and if no error is left every message begun is complete |
| Protocol.DeadIsSilent | src/httpparser.cpp:719-727 | once dead the parser reports nothing more, also in a run that fails, skips line ends, and fails on anything else |
| RequestLines.BlankLinesSkipped | src/httpparser.cpp:719-777 | before a message any line ends are skipped, whatever kind of message is awaited, and only `nread` grows |
| Refusals.ResponseStarts | src/httpparser.cpp:767-785 | where a response may begin nothing is taken but line ends and 'H' |
| Refusals.ProtocolExact | src/httpparser.cpp:787-843 | in a request and in a status line any beginning of HTTP/, digit, point, digit is taken, the digits are kept, and the first byte that does not fit fails with the error of its place |
| Refusals.IceExact | src/httpparser.cpp:1096-1143 | any beginning of ICE is taken in its place after SOURCE, and after no other method |
| Refusals.VersionEnds | src/httpparser.cpp:1176-1191 | after the version of a request only a line end is taken |
| Refusals.LfOnly | src/httpparser.cpp:1193-1202 | after every CR of a line only LF is taken, else LfExpected in the request line and in a header value and Strict elsewhere |
| Refusals.NameStarts | src/httpparser.cpp:1204-1252 | a header line begins with a token character or a line end |
| Refusals.NameGoesOn | src/httpparser.cpp:1364-1389 | a header name goes on with token characters up to a colon |
| Refusals.ValueExact | src/httpparser.cpp:1480-1505 | in a value without a meaning a byte other than CR and LF is taken if and only if it is 9, 32 to 126 or 128 to 255; in any value every other byte fails with InvalidHeaderToken |
| Refusals.SizeLineExact | src/httpparser.cpp:1989-2050 | a chunk size line up to its CR is taken if and only if it is digits worth at most 2^64 - 17, and then nothing, or anything after a semicolon or a space |
| Refusals.ChunkTailExact | src/httpparser.cpp:2094-2109 | of any two bytes after the data of a chunk only CR and LF are taken; the first other one fails with Strict |
| Refusals.ChunkExact | src/httpparser.cpp:1989-2109 | after a size line for n bytes and any n + 2 bytes the chunk is delivered and complete if and only if the last two are CR and LF: data longer or shorter than announced is refused |
| Numbers.ContentLengthExact | src/httpparser.cpp:1434-1570 | a digit string is accepted if and only if its value is at most 18446744073709551609, over any split, and is stored exactly |
| Numbers.ChunkSizeExact | src/httpparser.cpp:1989-2040 | a chunk size is accepted if and only if its value is at most 2^64 - 17, over any split, and is stored exactly |
| Numbers.HexBytes | src/httpparser.cpp:222-231 | the bytes read as hexadecimal digits are the digits and every byte from 128 on, which counts 0 |
| Alphabets.TokensAre | src/httpparser.cpp:189-220 | by character code: the token characters are those of section 3.2.6 of RFC 7230, and only the case of letters is dropped |
| Alphabets.FieldCharsAre | src/httpparser.cpp:449-450 | by character code: the bytes of a header value are 9, 32 to 126 and 128 to 255 |
| Alphabets.HexDigitsAre | src/httpparser.cpp:222-231 | by character code: the digits and the letters a to f of either case have their values, bytes from 128 on count 0, and no other byte is a digit |
| Alphabets.UrlCharsAre | src/httpparser.cpp:243-436 | by character code: a path is made of 33 to 126 without # and ?, user info and registered names of the characters of section 3.2 of RFC 3986 |
| Alphabets.StandardChars | src/httpparser.cpp:243-253 | the characters of section 3 of RFC 3986 for a path, a query and a fragment are among those taken |
| MethodWords.MethodExact | src/httpparser.cpp:925-1020 | a word of the request line and its space are accepted if and only if it is one of the 34 method names, and `method` is then that method |
| MethodWords.PrefixKept | src/httpparser.cpp:925-1020 | as long as no space comes the run goes on if and only if the bytes read begin the name of some method, and they begin that of the current guess; otherwise it fails with InvalidMethod |
| MethodWords.NamesExact | src/httpparser.cpp:176-181 | the names are the 34 of HTTP_METHOD_MAP, one for each method |
| IndexBounds.ReachableIndex | src/httpparser.h:304-304 | in every reachable state, with methods, header names and values alike, `index` is at most 16 and fits its five bits |
| HeaderNames.NameExact | src/httpparser.cpp:1254-1389 | after any token `header_state` is the class of its lower-cased spelling, whatever the split |
| HeaderNames.NameAndColon | src/httpparser.cpp:1204-1371 | a header name and its colon are reported whole and leave the class of the name |
| HeaderNames.NameMeaning | src/httpparser.cpp:1204-1371 | at the colon the class is connection (also for proxy-connection), content-length, transfer-encoding or upgrade if and only if the lower-cased name is exactly that; the transfer-encoding bit is set by any name with that prefix |
| Bodies.IdentityDelivered | src/httpparser.cpp:1937-1987 | a body with Content-Length N delivers exactly its N bytes, and then the message is complete |
| Bodies.ChunkRead | src/httpparser.cpp:1989-2109 | one chunk with any legal size line delivers its size to chunk_header, its data, and chunk_complete; what else may follow a size line is refused (`Refusals.ChunkExact`) |
| Bodies.ChunksRead | src/httpparser.cpp:1989-2109 | any list of non-empty chunks is delivered in order, each chunk_header with its chunk's size |
| Bodies.ChunkedDelivered | src/httpparser.cpp:1989-2109 | the chunked encoding of any list of non-empty chunks delivers exactly their concatenation and completes the message (section 4.1 of RFC 7230) |
| RequestLines.TargetRead | src/httpparser.cpp:1022-1093 | a target the URL automaton takes is reported whole and leads to the protocol version |
| Headers.HeaderRead | src/httpparser.cpp:1204-1790 | a header of any name, with any value of legal bytes (`Refusals.ValueExact`), empty or folded, any white space before it and either line end, is reported as name and value, and sets exactly the flags and the length it spells; a Content-Length may have spaces and folds after its digits |
| Headers.HeadersRead | src/httpparser.cpp:1204-1790 | the same for any list of headers in any order, with at most one Content-Length; more are refused (`Lengths.LengthExact`) |
| Headers.FlagsSpelled | src/httpparser.cpp:1730-1790 | a flag is set after the headers if and only if it was before or some header sets it |
| Headers.LengthSpelled | src/httpparser.cpp:1434-1570 | the length after the headers is that of the Content-Length, wherever it stands |
| Lengths.LengthExact | src/httpparser.cpp:1434-1570 | a Content-Length header, whatever its value, is taken if and only if it is the first of its message and its value is a number of at most 18446744073709551609 with nothing but spaces and folds after it; a later one fails with UnexpectedContentLength at its first digit, anything else with InvalidContentLength |
| Lengths.LengthsNamed | src/httpparser.cpp:1434-1447 | in every reachable state the callbacks since the last message began name at most one Content-Length, and one if and only if its flag is set |
| RequestLines.RequestLineRead | src/httpparser.cpp:925-1202 | the request line of any method with any target legal for it, any spaces, the protocol HTTP or, for SOURCE, ICE with any version, or no version at all, which is 0.9, and either line end sets method and version and reports the target |
| Requests.RequestRead | src/httpparser.cpp:925-2109 | printing a request, any line ends before it, and parsing it returns its method, version, target, headers and body, each reported once and in order, for any answer of on_headers_complete; the parser is then ready for the next, dead, or has left for another protocol, as the headers and the version say |
| Requests.RequestsRead | src/httpparser.cpp:925-2109 | the same for any number of requests on one connection, with any line ends before each, the last of which may end it or switch protocols |
| Requests.HeadRead | src/httpparser.cpp:925-1935 | any head is parsed to its parts, and its end is refused, completes the message, leaves for another protocol, or opens a body of chunks or of Content-Length bytes as the framing says (section 3.3.3 of RFC 7230) |
| Requests.TwoFramings | src/httpparser.cpp:1804-1815 | a head is refused for two framings if and only if it has a Content-Length and a header whose name begins with "transfer-encoding" |
| Messages.HeadEnds | src/httpparser.cpp:1793-1935 | the empty line after the headers of a message of either kind reports the head and goes on as section 3.3.3 of RFC 7230 says: no body, chunks, Content-Length bytes, up to the end of the stream, or an error for two framings or for a request with none |
| Messages.BodyRead | src/httpparser.cpp:1859-2109 | the body after any head is delivered in its framing and completes the message, unless it goes on to the end of the stream |
| Requests.RestIsLeft | src/httpparser.cpp:1877-1883 | the bytes after a request that switches protocols are not consumed |
| Requests.UpgradeAfterHead | src/httpparser.cpp:1818-1884 | after any head `upgrade` is set if and only if the head announces an upgrade, and the parser has left if and only if that head also ends its message |
| RequestRuns.UpgradeTooEarly | src/httpparser.cpp:1876-1884 | after the head of a POST with Upgrade, Connection: upgrade and a Content-Length `upgrade` is set and the parser has not left; after its body it has |
| RequestRuns.LikeTransferEncoding | src/httpparser.cpp:1337-1346 | a GET with a header transfer-encoding-x and a Content-Length fails with UnexpectedContentLength at the end of its head |
| RequestRuns.TopBitEndsBody | src/httpparser.cpp:222-231 | a chunk size line of one byte from 128 on ends a chunked POST with an empty body |
| StatusLines.StatusCodeExact | src/httpparser.cpp:855-902 | a status code of any number of digits is accepted if and only if its value is at most 999, and is stored exactly; otherwise InvalidStatus |
| StatusLines.CodeRefused | src/httpparser.cpp:855-902 | before the code only spaces are taken, after it only a space or a line end |
| StatusLines.StatusLineRead | src/httpparser.cpp:767-923 | the status line of any version, any spaces before the code, any legal code, any reason, empty or missing, and either line end sets version and status and reports the reason whole |
| StatusLines.BothExact | src/httpparser.cpp:729-765 | a parser for both kinds reads any text as the parser for responses if it begins with HT, as the one for requests if it begins with HE or another letter, and refuses any other text after H |
| Responses.HeadRead | src/httpparser.cpp:767-1935 | any head of a response is parsed to its parts and framed as its status and headers say |
| Responses.ResponseRead | src/httpparser.cpp:767-2109 | printing a response and parsing it returns its version, status, reason, headers and body, each reported once and in order, for any answer of on_headers_complete; the parser is then ready for the next, dead, has left for another protocol, which takes status 101 or that answer, or waits for the end of the stream |
| Responses.NoContentExact | src/httpparser.cpp:1859-1935 | a response with status 1xx, 204 or 304, 101 apart, ends with its head if and only if no header gives it a length or a coding; section 3.3.3 of RFC 7230 wants it to end there always |
| Messages.TrailersRead | src/httpparser.cpp:2042-2068 | the last chunk with any trailer fields, whatever they mean, reports them like headers and completes the message |
| Messages.TrailersDelivered | src/httpparser.cpp:1989-2109 | the chunked encoding of any list of non-empty chunks with any trailer fields delivers the concatenation of the chunks and then the trailers |
| Framing.RunInv | src/httpparser.cpp:641-2148 | the invariant holds in every reachable state |
| Framing.RunKind | src/httpparser.cpp:729-1202 | a parser set up for requests or for responses stays one |
| Framing.ReachableFraming | src/httpparser.cpp:1793-1935 | no chunk state has a Content-Length, no identity body has chunked or Transfer-Encoding, only responses end with the stream, and a request parser is never in a response state or the reverse (section 3.3.3 of RFC 7230) |
| Upgrades.UpgradeShows | src/httpparser.h:318-323 | a call has left for another protocol if and only if `upgrade` is set between messages after it and was not before, or messages have been completed since |
| Upgrades.UpgradeExact | src/httpparser.h:318-323 | over any run that has not left `upgrade` is set if and only if the last head reported announces an upgrade and its message is not complete; a run that leaves has it set after the message |
| Upgrades.HeadExits | src/httpparser.cpp:1793-1884 | a head leaves at its last byte if and only if it announces an upgrade and ends its message: by skipping, by CONNECT, or without chunks and with length 0 or none |
| Protocol.UpgradeMidBody | src/httpparser.cpp:1876-1987 | where `upgrade` is set before the parser has left, a body or its trailer is being read |
| ListHeaders.ChunkedExact | src/httpparser.cpp:1576-1610 | a Transfer-Encoding value, folded or not, sets F_CHUNKED if and only if its last coding is "chunked" without regard to case and white space, that coding begins after spaces or folds and ends in spaces, and the comma before it is heard |
| ListHeaders.ChunkedOnlyHere | src/httpparser.cpp:1706-1790 | no other step sets F_CHUNKED |
| Announcements.ChunkedAnnounced | src/httpparser.cpp:1576-1790 | in every reachable state with F_CHUNKED the callbacks of the message contain a Transfer-Encoding header whose last coding, white space trimmed, is "chunked" without regard to case |
| ListHeaders.ConnectionExact | src/httpparser.cpp:1612-1700 | a Connection value sets F_CONNECTION_KEEP_ALIVE, F_CONNECTION_CLOSE and F_CONNECTION_UPGRADE if and only if the list has that option, heard as one, and no other flag |
| ListHeaders.ListRuns | src/httpparser.cpp:1576-1610 | the runs of "gzip, chunked" and "c,c,chunked" end with F_CHUNKED, those of "c,chunked", "chunked,chunked", "gzip,,chunked" and "gzip," tab "chunked" without, although "chunked" is the last coding of each |
| ListHeaders.FoldAfter | src/httpparser.cpp:1715-1723 | "chunked" and a fold is not heard as chunked |
| ListHeaders.FoldBefore | src/httpparser.cpp:1715-1723 | a fold after a comma that is heard is skipped, also one that begins with a tab |
| Lists.WordsExact | src/httpparser.cpp:1576-1700 | the scan of a list finds a word if and only if an element is that word and the commas before it are heard |
| Values.ValueRead | src/httpparser.cpp:1391-1430 | any value of the bytes 9, 32 to 126 and 128 to 255 that a header class takes is reported without its line ends, whatever white space and folds come before it |
| UrlAutomaton.UrlRunAppend | src/httpparser.cpp:493-638 | the URL automaton may be fed in parts |
| UrlLanguage.TailExact | src/httpparser.cpp:546-634 | from the path on the automaton takes exactly the texts of codes 33 to 126, and the first question mark and the first hash decide where it ends |
| UrlLanguage.ServerExact | src/httpparser.cpp:546-572 | in the authority it takes exactly the characters of user info, brackets and at signs no two of which follow one another, up to a slash or a question mark |
| UrlLanguage.UrlExact | src/httpparser.cpp:493-638 | it takes a whole text and may end after it if and only if the text is a path with a slash or an asterisk, or letters, ://, an authority and what follows it |
| UrlLanguage.AuthorityExact | src/httpparser.cpp:493-638 | for CONNECT: if and only if it begins with an authority |
| HostLanguage.HostExact | src/httpparser.cpp:2246-2326 | the authority automaton ends well on exactly the texts of a name or an address in brackets, with or without a zone, and a port of digits or none, user info and one at sign before it where that is expected |
| Urls.CutUrl | src/httpparser.cpp:2432-2487 | the first loop finds exactly the positions at which the automaton is in each component, and whether there is an at sign |
| Urls.CutHost | src/httpparser.cpp:2328-2408 | the authority is accepted if and only if its automaton may end there, and user info, host and port are then exactly the positions in their states |
| Urls.ReadPort | src/httpparser.cpp:2507-2533 | a port is accepted if and only if its value is at most 65535, and is that value |
| Urls.ParseUrl | src/httpparser.cpp:2415-2536 | the result is 0 if and only if `Accepts` holds, and the components and the port are then those that `Describes` |
| UrlTheorems.OrderAlong | src/httpparser.cpp:493-638 | along a URL the automaton never goes back to an earlier component |
| UrlTheorems.HostOrderAlong | src/httpparser.cpp:2246-2326 | nor does the authority automaton along an authority |
| UrlTheorems.ComponentsInOrder | src/httpparser.cpp:2415-2536 | the components of an accepted URL are not empty, lie inside it, and follow one another as scheme, user info, host, port, path, query, fragment without overlap |
| UrlTheorems.TargetExact | src/httpparser.cpp:1022-1093 | the request machine accepts a target if and only if the automaton takes every byte and does not end inside the scheme or before the authority; it then reports it whole |
| UrlTheorems.TargetByText | src/httpparser.cpp:1022-1093 | a target is accepted if and only if its text is one of those, by character code |
| UrlTheorems.AcceptedAsTarget | src/httpparser.cpp:2415-2506 | the two users of the automaton agree: a URL for which the URL parser returns 0 is accepted as a target and reported whole |
| UrlRoundTrip.UrlRoundTrip | src/httpparser.cpp:2328-2536 | assembling a URL from components made of the characters of RFC 3986 and RFC 6874 and parsing it succeeds and returns exactly these components and the value of the port (section 3 of RFC 3986) |
| ReceiveBuffers.CopyBytes | src/tcplink.cpp:205-222 | copies a range, and may only be called on ranges that do not overlap |
| ReceiveBuffers.ReceiveBuffer.constructor | src/tcplink.cpp:35-54 | a new link has an empty queue in an array of 256 KiB |
| ReceiveBuffers.ReceiveBuffer.AddData | src/tcplink.cpp:187-208 | adds at the end of the queue, growing the array, or empties the queue when the array is full at 1 MiB or more |
| ReceiveBuffers.ReceiveBuffer.RemoveData | src/tcplink.cpp:210-225 | drops the first bytes, or everything when asked for more than there is; compaction copies never overlap |
| ReceiveBuffers.ReceiveBuffer.Receive | src/tcplink.cpp:299-303 | the handler is shown as many bytes as the queue has, from the start of the array |
| ReceiveBuffers.ReceiveBuffer.Handled | src/tcplink.cpp:303-306 | what the handler says it took is removed, if that is positive |
| ReceiveBuffers.RunBalanced | src/tcplink.cpp:187-225 | over any run of adds of at most 64 KiB and removes: positions stay in the array, capacity below 1 MiB + 64 KiB, what was added is what was taken followed by the queue unless something was dropped, and compaction moves no more bytes than were removed |
| ReceiveBuffers.NothingDropped | src/tcplink.cpp:187-198 | no byte is ever dropped if each add comes on a queue that, doubled, leaves room for it below 1 MiB |
| ReceiveBuffers.QueueInFront | src/tcplink.cpp:210-225 | the queue begins where the handler looks after every step if and only if each handler call takes nothing or at least half of it |
| ReceiveBuffers.ShownBytes | src/tcplink.cpp:302-302 | after any run the handler is shown the bytes it took last and the front of the queue; that is the queue if and only if those bytes come again at its start and it repeats itself at their distance |
| ReceiveBuffers.StaleRead | src/tcplink.cpp:299-306 | a handler that takes one byte of three is shown that byte again |
| MemPools.MemItem.constructor | src/memitem.cpp:9-19 | a new item is empty and has its capacity |
| MemPools.MemItem.Assign | src/memitem.cpp:27-48 | stores the bytes, growing if needed; does nothing for no data, a length of 0 or less, or more than 1 MiB |
| MemPools.MemItem.Clear | src/memitem.cpp:50-52 | empties the item |
| MemPools.MemPool.Get | src/mempool.cpp:30-79 | up to 512 KiB returns a cleared item nobody else holds, the last of its vector or a new one, with the capacity `MemPools.Served` names, at least the size as long as no item has outgrown its class; above that, null; a 128 KiB item is always new |
| MemPools.MemPool.Free | src/mempool.cpp:82-123 | an item given back is cleared and put at the end of the vector of its capacity, or deleted when that is full, never twice; the 64 KiB vector keeps its bound if and only if a full one is not given an item above 64 KiB and up to 128 KiB, and the 128 KiB vector stays empty |
| MemPools.MemPool.Reset | src/mempool.cpp:125-145 | deletes every pooled item once and leaves those lent out alone |
| MemPools.ServedExact | src/mempool.cpp:37-70 | every request up to 512 KiB is answered with enough capacity if and only if the last items of the 16 KiB and 64 KiB vectors have the capacity of their class |
| MemPools.AccountedMembers | src/mempool.cpp:30-123 | items not deleted are the pooled and the lent ones, without duplicates, and as many |
| MemPools.Fill | src/memitem.cpp:27-48 | filling a lent item leaves the pool's invariant and the bytes of every other item alone, and leaves all capacities in their classes if and only if the length fits the item or is 16 KiB or at least 64 KiB |
| MemPools.SendBuffer | src/tcplink.cpp:142-147 | sending gets an item nobody else holds with exactly the bytes given, and the bytes of all messages under way stay as they are |
| MemPools.Outgrown | src/mempool.cpp:98-112 | whenever an item is outgrown to a size between two classes and its vector takes it back, the next request of that class is answered with it and it is too small; otherwise with enough |
| MemPools.GrownItem | src/mempool.cpp:98-112 | an item of 4 KiB grown to 5000 bytes comes back for a request of 16 KiB |
| MemPools.Hoard | src/mempool.cpp:113-119 | any number of 128 KiB items given back end up in the vector for 64 KiB items |
| RbTrees.RbHead.Rotate | 3rd/libuv/include/uv/tree.h:342-380 | a rotation on the heap turns the tree in any place of a tree into its rotation, parent links and root pointer included |
| RbTrees.Recoloured | 3rd/libuv/include/uv/tree.h:416-421 | with a red uncle, recolouring keeps all rules except for a red parent two levels up |
| RbTrees.Restructured | 3rd/libuv/include/uv/tree.h:428-429 | with a black uncle and an outer child, one rotation restores all rules |
| RbTrees.RbHead.InsertColor | 3rd/libuv/include/uv/tree.h:407-449 | the colour loop of insertion ends with a red-black tree of the same nodes in the same order |
| RbTrees.RbHead.Insert | 3rd/libuv/include/uv/tree.h:597-626 | inserts exactly the element at its place and keeps search order, links and colours; or returns the element with that key and changes nothing |
| RbTrees.Lifted | 3rd/libuv/include/uv/tree.h:465-471 | a black sibling with black kids turns red, and the place above is one black node short |
| RbTrees.Settled | 3rd/libuv/include/uv/tree.h:482-489 | a red outer kid of the sibling makes up for the missing black node |
| RbTrees.RbHead.MoveUp | 3rd/libuv/include/uv/tree.h:455-524 | one turn of that loop moves the missing black node up or stops with nothing missing, by the source's four cases |
| RbTrees.RbHead.RemoveColor | 3rd/libuv/include/uv/tree.h:451-528 | the colour loop of removal turns a tree that is one black node short in a place into a red-black tree of the same nodes in the same order |
| RbTrees.RbHead.RemoveInner | 3rd/libuv/include/uv/tree.h:540-575 | a node with two kids is replaced by the next one in order, whose place its right kid takes |
| RbTrees.RbHead.Remove | 3rd/libuv/include/uv/tree.h:530-594 | removes exactly the element and keeps search order, links and colours |
| RbTrees.RbHead.Find | 3rd/libuv/include/uv/tree.h:629-644 | returns the element with the key, or null if and only if there is none |
| RbTrees.RbHead.NFind | 3rd/libuv/include/uv/tree.h:647-665 | returns the least element not below the key, or null if all are below |
| RbTrees.RbHead.Next | 3rd/libuv/include/uv/tree.h:668-687 | returns the next element in order, or null after the last |
| RbTrees.RbHead.MinMax | 3rd/libuv/include/uv/tree.h:711-724 | returns the first or the last element, or null if there is none |
| RbShapes.RisingApart | 3rd/libuv/include/uv/tree.h:596-626 | strictly rising keys leave no room for a node twice |
| RbShapes.PlugRedBlack | 3rd/libuv/include/uv/tree.h:407-528 | a tree that fits its place makes the whole a red-black tree |
| RbShapes.PlugBalanced | 3rd/libuv/include/uv/tree.h:407-528 | every place of a red-black tree fits its tree |
| RbShapes.HeightBound | 3rd/libuv/include/uv/tree.h:60-61 | the height of a red-black tree of n nodes is at most 2 lg(n + 1) |
| SplayTrees.SplayHead.LinkRoot | 3rd/libuv/include/uv/tree.h:100-110 | the root goes to the open end of a split-off tree, and its kid becomes the root |
| SplayTrees.SplayHead.RotateRoot | 3rd/libuv/include/uv/tree.h:88-98 | a rotation at the root |
| SplayTrees.SplayHead.Assemble | 3rd/libuv/include/uv/tree.h:112-117 | the two split-off trees and the rest are put together through the header node |
| SplayTrees.SplayHead.Turn | 3rd/libuv/include/uv/tree.h:218-238 | each turn of the loop keeps the whole order, the bounds of the split-off trees, and makes the rest smaller, or stops with nothing left on the side of the key; the rotation and the link are those of `SplayCosts.Step` |
| SplayTrees.SplayHead.Splay | 3rd/libuv/include/uv/tree.h:209-242 | splaying ends, keeps the in-order sequence, leaves at the root the key or an element next to where it would be, and gives the tree and takes the turns of `SplayCosts.Splayed`, for which the Balance Theorem is proved |
| SplayShapes.SplitFinds | 3rd/libuv/include/uv/tree.h:128-137 | after a splay the key is in the tree if and only if it is at the root, and otherwise the root is its neighbour |
| SplayShapes.AssembledOrder | 3rd/libuv/include/uv/tree.h:112-117 | putting the three trees together gives the smaller nodes, the rest and the larger nodes in order |
| SplayCosts.SplayCost | 3rd/libuv/include/uv/tree.h:209-242 | the access lemma for the top-down splay: with the product of all subtree weights as potential, 2^turns times the potential after is at most (n + 1)^3 times the potential before |
| SplayCosts.OpCost | 3rd/libuv/include/uv/tree.h:128-207 | an operation on a tree of fewer than w nodes, before and after, costs 5 lg w turns of the loop but for what the potential pays |
| SplayCosts.RunCost | 3rd/libuv/include/uv/tree.h:128-207 | the same for any operations one after the other, on any tree |
| SplayCosts.BalanceTheorem | 3rd/libuv/include/uv/tree.h:49-51 | the Balance Theorem: from an empty tree any m operations, n of them inserts, take at most 5 m lg (n + 1) turns of the splay loop, as 2^turns <= (n + 1)^(5 m) |
| SplayTrees.SplayHead.Find | 3rd/libuv/include/uv/tree.h:128-137 | finds the element with the key and makes it the root, or null if and only if there is none; the contents stay; the tree and the turns are those of `SplayCosts.After` and `SplayCosts.Cost` |
| SplayTrees.SplayHead.Insert | 3rd/libuv/include/uv/tree.h:164-186 | inserts exactly the element and makes it the root, or returns the one with that key; the tree and the turns are those of `SplayCosts.After` and `SplayCosts.Cost` |
| SplayTrees.SplayHead.Remove | 3rd/libuv/include/uv/tree.h:188-207 | removes exactly the element with the key, or returns null if and only if there is none; the tree and the turns are those of `SplayCosts.After` and `SplayCosts.Cost` |

## Left out

- Pausing the parser, and callbacks that fail or change the parser.
- The non-strict build and lenient headers.
- HttpParsers.HttpParser.Execute: where a header is too large it says which errors may come and that none comes early, but
  not which and where, because the bulk scans notice it late and that depends on the buffers; and it says nothing of the
  fields after an error.
- Execute.ExecuteBuffer: leaves the same open, for the same reason.
- Buffers and `max_header_size` of 2^31 and more, where the 32-bit `nread` could wrap.
- Reading `nread` and `state` into locals and writing them back: the model updates the fields.
- `sn_http_should_keep_alive` and `sn_http_message_needs_eof` as public calls: they are used as the source uses them.
- URLs of more than 65535 bytes, whose offsets are 16-bit.
- What a caller's `http_parser_url` holds after a failed call.
- A handler that claims to have taken so many bytes that `m_nPos` overflows an `int`.
- The NULL handler, timers, reconnection, sockets, the event loop and all of libuv.
- The counters `m_nGetCount` and `m_nFreeCount` of the pool, which are only logged; failing allocations.
- RB_PREV, SPLAY_MINMAX and SPLAY_NEXT: mirror images and shorter forms of loops that are modelled. RB_AUGMENT, which is empty.
- Trees that share nodes: an element inserted must not be in another tree.
- `src/httpserver.cpp`, `src/udpserver.cpp`, `src/udplink.cpp`, and the wrappers, tables, logging and demos.
