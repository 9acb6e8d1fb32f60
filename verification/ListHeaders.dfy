/** Which Transfer-Encoding values make a message chunked, and which Connection values set which flag. */
module ListHeaders {
  import opened Bytes
  import opened Alphabets
  import opened Trace
  import opened ParserState
  import opened Transitions
  import opened ByteMachine
  import opened Invariants
  import opened Lists
  import opened Values

  /** The flag that a word sets. */
  function FlagsOf(words: set<string>): set<Flag> {
    (if "chunked" in words then {F_CHUNKED} else {}) +
    (if "keep-alive" in words then {F_CONNECTION_KEEP_ALIVE} else {}) +
    (if "close" in words then {F_CONNECTION_CLOSE} else {}) +
    (if "upgrade" in words then {F_CONNECTION_UPGRADE} else {})
  }

  /** `header_state` and `index` as the scan of a list. */
  predicate Reads(kind: ListKind, f: Fields, s: Scan) {
    match s
    case Start =>
      f.index == 0 &&
      f.headerState == (if kind == Codings then Encoding(EncodingTokenStart) else Connecting(ConnectionTokenStart))
    case Matching(word, k) =>
      f.index + 1 == k < |word| && word == Keyword(f.headerState) &&
      if kind == Codings then f.headerState == Encoding(MatchingChunked)
      else f.headerState == Connecting(MatchingKeepAlive) || f.headerState == Connecting(MatchingClose) ||
           f.headerState == Connecting(MatchingConnectionUpgrade)
    case Other => f.headerState == (if kind == Codings then Encoding(EncodingToken) else Connecting(ConnectionToken))
    case Whole(word) =>
      if kind == Codings then word == "chunked" && f.headerState == Encoding(EncodingChunked)
      else (word == "keep-alive" && f.headerState == Connecting(ConnectionKeepAlive)) ||
           (word == "close" && f.headerState == Connecting(ConnectionClose)) ||
           (word == "upgrade" && f.headerState == Connecting(ConnectionUpgrade))
    case Lost => f.headerState == General
  }

  /** The flags that a cell adds: an option's, at the comma after it. */
  function Noted(kind: ListKind, s: Scan, c: Cell): set<string> {
    if kind == Options && s.Whole? && c == COMMA then {s.word} else {}
  }

  predicate Follows(kind: ListKind, f: Fields, s: Scan, c: Cell) {
    var g := CellFields(f, c);
    Takes(f, c) && Reads(kind, g, Next(kind, s, c)) &&
    g == f.(index := g.index, headerState := g.headerState, flags := f.flags + FlagsOf(Noted(kind, s, c)))
  }

  lemma LegalByte(ch: byte)
    requires FieldChar(ch)
    ensures ch != '\0' && (Lower(ch) == ' ' <==> ch == ' ') && Lower(ch) != '\t'
  {}

  lemma FoldFollows(kind: ListKind, f: Fields, s: Scan, c: Cell)
    requires Reads(kind, f, s) && c.Folded? && LegalCell(c)
    ensures Follows(kind, f, s, c)
  {
    hide Lower, Keyword;
    assert Lower(c.ch) != 'k' && Lower(c.ch) != 'c' && Lower(c.ch) != 'u' by { BlankLower(c.ch); }
  }

  lemma BlankLower(ch: byte)
    requires ch == ' ' || ch == '\t'
    ensures Lower(ch) == ' ' || Lower(ch) == ')'
  {}

  lemma StartFollows(kind: ListKind, f: Fields, s: Scan, c: Cell)
    requires Reads(kind, f, s) && s.Start? && c.Plain? && LegalCell(c)
    ensures Follows(kind, f, s, c)
  {
    hide Lower, IsToken, FieldChar;
    LegalByte(c.ch);
  }

  lemma MatchingFollows(kind: ListKind, f: Fields, s: Scan, c: Cell)
    requires Reads(kind, f, s) && s.Matching? && c.Plain? && LegalCell(c)
    ensures Follows(kind, f, s, c)
  {
    hide Lower, FieldChar;
  }

  lemma WholeFollows(kind: ListKind, f: Fields, s: Scan, c: Cell)
    requires Reads(kind, f, s) && (s.Whole? || s.Other? || s.Lost?) && c.Plain? && LegalCell(c)
    ensures Follows(kind, f, s, c)
  {
    hide Lower, FieldChar;
  }

  lemma CellFollows(kind: ListKind, f: Fields, s: Scan, c: Cell)
    requires Reads(kind, f, s) && LegalCell(c)
    ensures Follows(kind, f, s, c)
  {
    hide Follows, Reads, LegalCell;
    if c.Folded? { FoldFollows(kind, f, s, c); }
    else if s.Start? { StartFollows(kind, f, s, c); }
    else if s.Matching? { MatchingFollows(kind, f, s, c); }
    else { WholeFollows(kind, f, s, c); }
  }

  lemma FlagsOfUnion(a: set<string>, b: set<string>)
    ensures FlagsOf(a + b) == FlagsOf(a) + FlagsOf(b)
  {}

  /** The words found are the flags set, those at the commas and the one at the end. */
  lemma {:induction false} ListFollows(kind: ListKind, f: Fields, s: Scan, v: seq<Cell>)
    requires Reads(kind, f, s) && forall i :: 0 <= i < |v| ==> LegalCell(v[i])
    ensures TakesAll(f, v)
    ensures var g := AllFields(f, v);
            EndOfHeader(g.flags, g.headerState) == f.flags + FlagsOf(Found(kind, s, v)) &&
            g == f.(index := g.index, headerState := g.headerState, flags := g.flags)
    decreases |v|
  {
    hide CellFields, Takes, Next, LegalCell, FlagsOf, Reads, EndOfHeader;
    if v == [] {
      EndFollows(kind, f, s);
    } else {
      CellFollows(kind, f, s, v[0]);
      ListFollows(kind, CellFields(f, v[0]), Next(kind, s, v[0]), v[1..]);
      FlagsOfUnion(Noted(kind, s, v[0]), Found(kind, Next(kind, s, v[0]), v[1..]));
      assert Found(kind, s, v) == Noted(kind, s, v[0]) + Found(kind, Next(kind, s, v[0]), v[1..]);
    }
  }

  lemma EndFollows(kind: ListKind, f: Fields, s: Scan)
    requires Reads(kind, f, s)
    ensures EndOfHeader(f.flags, f.headerState) == f.flags + FlagsOf(Found(kind, s, []))
  {}

  /** The header's class. */
  function ListClass(kind: ListKind): HeaderState {
    if kind == Codings then Named(TransferEncoding) else Named(Connection)
  }

  lemma FirstFollows(kind: ListKind, f: Fields, ch: byte)
    requires f.headerState == ListClass(kind)
    ensures Reads(kind, FirstFields(f, ch), FirstScan(kind, ch))
    ensures FirstFields(f, ch) == f.(state := HeaderBody(HeaderValue), index := 0, headerState := FirstFields(f, ch).headerState)
  {
    hide Lower;
  }

  /** The words of a value that count. */
  function ListWords(kind: ListKind, v: seq<Cell>): set<string> { Words(kind, Split(v), true) }

  /** A Transfer-Encoding or Connection header with any value, after any white space, folded anywhere and ended in
      either way: it is reported whole, and sets exactly the flags of the words that count. */
  lemma ListHeaderRead(kind: ListKind, cfg: Config, f: Fields, log: seq<Event>, lead: seq<Cell>, v: seq<Cell>, crlf: bool,
                       rest: seq<byte>)
    returns (g: Fields)
    requires f.state == HeaderName(HeaderValueDiscardWs) && f.headerState == ListClass(kind)
    requires LegalLead(lead) && LegalValue(v) && NoFold(rest)
    requires f.nread + |ValueText(lead, v, crlf)| + 1 <= cfg.maxHeader
    ensures Run(cfg, Machine(f, log), ValueText(lead, v, crlf) + rest) ==
            Run(cfg, Machine(g, Push(log, Data(Value, Reported(v)))), rest)
    ensures g == f.(state := HeaderName(HeaderFieldStart), headerState := g.headerState, index := g.index,
                    flags := f.flags + FlagsOf(ListWords(kind, v)), nread := f.nread + |ValueText(lead, v, crlf)|)
  {
    hide Run, Push, FlagsOf, Words, Split, AllFields, TakesAll, FirstFields, FirstScan, Found, Reads, LegalCell, ValueText;
    if v == [] {
      NoWords(kind);
      EndNothing(f);
    } else {
      FirstFollows(kind, f, v[0].ch);
      ListFollows(kind, FirstFields(f, v[0].ch), FirstScan(kind, v[0].ch), v[1..]);
      FirstIsPlain(v);
      FoundWords(kind, v);
    }
    ValueRead(cfg, f, log, lead, v, crlf, rest);
    g := AfterValue(f, v).(nread := f.nread + |ValueText(lead, v, crlf)|);
  }

  lemma FirstIsPlain(v: seq<Cell>)
    requires LegalValue(v) && v != []
    ensures v[0].Plain? && !Blank(v[0])
  {}

  lemma NoWords(kind: ListKind)
    ensures ListWords(kind, []) == {} && FlagsOf({}) == {}
  {}

  lemma EndNothing(f: Fields)
    requires f.headerState.Named?
    ensures EndOfHeader(f.flags, f.headerState) == f.flags
  {}

  // ---- Transfer-Encoding

  /** The last coding of the list is "chunked", without regard to case and to white space or folds around it. */
  predicate LastIsChunked(v: seq<Cell>) { IsWord(Split(v)[|Split(v)| - 1], "chunked") }

  /** The scan takes the last coding for one: nothing but spaces and folds before it, nothing but spaces after it,
      and the comma before it is heard. */
  predicate LastIsHeard(v: seq<Cell>) {
    var es, n := Split(v), |Split(v)| - 1;
    Clean(n == 0, es[n]) && Heard(Codings, es, true, n)
  }

  /** A value sets `F_CHUNKED` if and only if its last coding is "chunked" and is heard. */
  lemma ChunkedWords(v: seq<Cell>)
    requires LegalValue(v)
    ensures "chunked" in ListWords(Codings, v) <==> LastIsChunked(v) && LastIsHeard(v)
    ensures ListWords(Codings, v) <= {"chunked"}
  {
    hide Words, Heard, IsWord, Clean;
    var es, n := Split(v), |Split(v)| - 1;
    FirstNotBlank(v);
    WordsExact(Codings, es, true, "chunked");
    WordsAreKeywords(Codings, es, true);
    assert forall i: nat :: Counts(Codings, es, true, i, "chunked") <==> i == n && Counts(Codings, es, true, n, "chunked");
    assert Counts(Codings, es, true, n, "chunked") <==> LastIsChunked(v) && LastIsHeard(v);
  }

  lemma FirstNotBlank(v: seq<Cell>)
    requires LegalValue(v)
    ensures Split(v)[0] == [] || !Blank(Split(v)[0][0])
  {}

  lemma ChunkedFlags(words: set<string>)
    requires words <= {"chunked"}
    ensures FlagsOf(words) == if "chunked" in words then {F_CHUNKED} else {}
  {}

  /** A Transfer-Encoding header with any value, any white space, any folds and either line end sets `F_CHUNKED` if
      and only if its last coding is "chunked" and is heard, and changes no other flag. */
  lemma ChunkedExact(cfg: Config, f: Fields, log: seq<Event>, lead: seq<Cell>, v: seq<Cell>, crlf: bool, rest: seq<byte>)
    returns (g: Fields)
    requires f.state == HeaderName(HeaderValueDiscardWs) && f.headerState == Named(TransferEncoding)
    requires LegalLead(lead) && LegalValue(v) && NoFold(rest)
    requires f.nread + |ValueText(lead, v, crlf)| + 1 <= cfg.maxHeader
    ensures Run(cfg, Machine(f, log), ValueText(lead, v, crlf) + rest) ==
            Run(cfg, Machine(g, Push(log, Data(Value, Reported(v)))), rest)
    ensures g == f.(state := HeaderName(HeaderFieldStart), headerState := g.headerState, index := g.index,
                    flags := g.flags, nread := f.nread + |ValueText(lead, v, crlf)|)
    ensures g.flags == f.flags + if LastIsChunked(v) && LastIsHeard(v) then {F_CHUNKED} else {}
  {
    hide Run, Push, FlagsOf, ListWords, LegalValue, ValueText, LastIsChunked, LastIsHeard;
    ChunkedWords(v);
    ChunkedFlags(ListWords(Codings, v));
    g := ListHeaderRead(Codings, cfg, f, log, lead, v, crlf, rest);
  }

  /** Nothing else sets it: a pass of the switch that adds `F_CHUNKED` ends such a value. */
  lemma ChunkedOnlyHere(f: Fields, ch: byte, answer: Answer)
    requires Consistent(f)
    ensures var m := Transition(f, ch, answer);
            F_CHUNKED in m.f.flags && F_CHUNKED !in f.flags ==>
              f.state == HeaderBody(HeaderValueLws) && f.headerState == Encoding(EncodingChunked) && ch != ' ' && ch != '\t'
  {
    hide OnBetween, OnStatusLine, OnMethod, OnSpacesBeforeUrl, OnTarget, OnVersion, OnHeaderName, OnHeaderBody,
      OnHeadersAlmostDone, OnHeadersDone, OnChunk, OnPayload;
    LinesKeepChunked(f, ch);
    BodiesKeepChunked(f, ch, answer);
    NamesKeepChunked(f, ch);
    ValuesKeepChunked(f, ch);
  }

  predicate AddsChunked(f: Fields, m: Move) { F_CHUNKED in m.f.flags && F_CHUNKED !in f.flags }

  lemma LinesKeepChunked(f: Fields, ch: byte)
    ensures f.state.Between? ==> !AddsChunked(f, OnBetween(f, f.state.between, ch))
    ensures f.state.StatusLine? ==> !AddsChunked(f, OnStatusLine(f, f.state.res, ch))
    ensures f.state.Version? ==> !AddsChunked(f, OnVersion(f, f.state.version, ch))
    ensures !AddsChunked(f, OnMethod(f, ch)) && !AddsChunked(f, OnSpacesBeforeUrl(f, ch))
    ensures f.state.Target? ==> !AddsChunked(f, OnTarget(f, f.state.url, ch))
  {
    hide FirstGuess, BetterGuess, MethodName, IsNum;
  }

  lemma BodiesKeepChunked(f: Fields, ch: byte, answer: Answer)
    ensures !AddsChunked(f, OnHeadersAlmostDone(f, ch, answer)) && !AddsChunked(f, OnHeadersDone(f, ch))
    ensures f.state.Chunk? ==> !AddsChunked(f, OnChunk(f, f.state.chunk, ch))
    ensures f.state.Payload? ==> !AddsChunked(f, OnPayload(f, f.state.payload))
  {
    hide NeedsEof, Unhex;
  }

  lemma NamesKeepChunked(f: Fields, ch: byte)
    requires Consistent(f)
    ensures f.state.HeaderName? ==> !AddsChunked(f, OnHeaderName(f, f.state.name, ch))
  {
    hide Token, Matched, FirstValueState, FirstHeaderState;
  }

  lemma ValuesKeepChunked(f: Fields, ch: byte)
    ensures f.state.HeaderBody? && AddsChunked(f, OnHeaderBody(f, f.state.value, ch)) ==>
              f.state.value == HeaderValueLws && f.headerState == Encoding(EncodingChunked) && ch != ' ' && ch != '\t'
  {
    hide Matched, FirstValueState, Lower, IsHeaderChar, IsToken;
  }

  // ---- Connection

  /** An option of the list is the word and is heard as one. */
  ghost predicate HasOption(v: seq<Cell>, word: string) { exists i: nat :: Counts(Options, Split(v), true, i, word) }

  /** A Connection header, or Proxy-Connection, sets the flag of each option that is heard, and no other. */
  lemma ConnectionExact(cfg: Config, f: Fields, log: seq<Event>, lead: seq<Cell>, v: seq<Cell>, crlf: bool, rest: seq<byte>)
    returns (g: Fields)
    requires f.state == HeaderName(HeaderValueDiscardWs) && f.headerState == Named(Connection)
    requires LegalLead(lead) && LegalValue(v) && NoFold(rest)
    requires f.nread + |ValueText(lead, v, crlf)| + 1 <= cfg.maxHeader
    ensures Run(cfg, Machine(f, log), ValueText(lead, v, crlf) + rest) ==
            Run(cfg, Machine(g, Push(log, Data(Value, Reported(v)))), rest)
    ensures g == f.(state := HeaderName(HeaderFieldStart), headerState := g.headerState, index := g.index,
                    flags := g.flags, nread := f.nread + |ValueText(lead, v, crlf)|)
    ensures g.flags == f.flags + (if HasOption(v, "keep-alive") then {F_CONNECTION_KEEP_ALIVE} else {})
                       + (if HasOption(v, "close") then {F_CONNECTION_CLOSE} else {})
                       + (if HasOption(v, "upgrade") then {F_CONNECTION_UPGRADE} else {})
  {
    hide Run, Push, Words, LegalValue, ValueText, Counts;
    var es := Split(v);
    FirstNotBlank(v);
    WordsExact(Options, es, true, "keep-alive");
    WordsExact(Options, es, true, "close");
    WordsExact(Options, es, true, "upgrade");
    WordsAreKeywords(Options, es, true);
    assert "chunked" !in ListWords(Options, v) by { NotChunked(); }
    g := ListHeaderRead(Options, cfg, f, log, lead, v, crlf, rest);
  }

  lemma NotChunked()
    ensures !IsKeyword(Options, "chunked")
  {}

  // ---- commas that are heard, and commas that are not

  function Cells(s: seq<byte>): seq<Cell> { seq(|s|, i requires 0 <= i < |s| => Plain(s[i])) }

  /** Whether a Transfer-Encoding value makes the message chunked. */
  predicate Chunks(v: seq<Cell>) { LastIsChunked(v) && LastIsHeard(v) }

  /** A value on one line, after a space: the run ends chunked if and only if it says so. */
  lemma PlainRun(cfg: Config, f: Fields, log: seq<Event>, s: seq<byte>, rest: seq<byte>) returns (g: Fields)
    requires f.state == HeaderName(HeaderValueDiscardWs) && f.headerState == Named(TransferEncoding)
    requires LegalValue(Cells(s)) && NoFold(rest) && f.nread + |s| + 4 <= cfg.maxHeader
    ensures Run(cfg, Machine(f, log), [' '] + s + ([CR] + [LF]) + rest) == Run(cfg, Machine(g, Push(log, Data(Value, s))), rest)
    ensures g.state == HeaderName(HeaderFieldStart)
    ensures F_CHUNKED in g.flags <==> F_CHUNKED in f.flags || Chunks(Cells(s))
  {
    hide Run, Push, Chunks, LegalValue, LastIsChunked, LastIsHeard;
    var lead := [Plain(' ')];
    assert CellsText(lead) == [' '] by { assert lead[1..] == []; }
    PlainText(s);
    assert Reported(Cells(s)) == s;
    assert LegalLead(lead) by { SpaceLegal(); }
    assert Chunks(Cells(s)) <==> LastIsChunked(Cells(s)) && LastIsHeard(Cells(s)) by { ChunksIs(Cells(s)); }
    g := ChunkedExact(cfg, f, log, lead, Cells(s), true, rest);
  }

  lemma ChunksIs(v: seq<Cell>)
    ensures Chunks(v) <==> LastIsChunked(v) && LastIsHeard(v)
  {
    hide LastIsChunked, LastIsHeard;
  }

  lemma SpaceLegal()
    ensures LegalCell(Plain(' ')) && Blank(Plain(' '))
  {}

  lemma {:induction false} PlainText(s: seq<byte>)
    ensures CellsText(Cells(s)) == s
    decreases |s|
  {
    if s != [] {
      assert Cells(s)[1..] == Cells(s[1..]);
      PlainText(s[1..]);
      assert [s[0]] + s[1..] == s;
    }
  }

  lemma CellsAppend(a: seq<byte>, b: seq<byte>)
    ensures Cells(a + b) == Cells(a) + Cells(b)
  {}

  lemma NoCommaCells(s: seq<byte>)
    requires ',' !in s
    ensures COMMA !in Cells(s)
  {
    forall c | c in Cells(s) ensures c != COMMA {
      var i :| 0 <= i < |Cells(s)| && Cells(s)[i] == c;
      assert s[i] in s;
    }
  }

  /** Two codings, with one comma. */
  lemma TwoCodings(a: seq<byte>, b: seq<byte>)
    requires ',' !in a && ',' !in b
    ensures Split(Cells(a + [','] + b)) == [Cells(a), Cells(b)]
  {
    NoCommaCells(a);
    NoCommaCells(b);
    var es := [Cells(a), Cells(b)];
    CellsAppend(a + [','], b);
    CellsAppend(a, [',']);
    assert Cells([',']) == [COMMA];
    assert es[1..] == [Cells(b)];
    JoinedSplit(es);
  }

  lemma ThreeCodings(a: seq<byte>, b: seq<byte>, c: seq<byte>)
    requires ',' !in a && ',' !in b && ',' !in c
    ensures Split(Cells(a + [','] + (b + [','] + c))) == [Cells(a), Cells(b), Cells(c)]
  {
    NoCommaCells(a);
    NoCommaCells(b);
    NoCommaCells(c);
    var es := [Cells(a), Cells(b), Cells(c)];
    CellsAppend(a + [','], b + [','] + c);
    CellsAppend(a, [',']);
    CellsAppend(b + [','], c);
    CellsAppend(b, [',']);
    assert Cells([',']) == [COMMA];
    var fs := [Cells(b), Cells(c)];
    assert es[1..] == fs && fs[1..] == [Cells(c)];
    assert Joined(fs) == Cells(b) + [COMMA] + Cells(c);
    assert Joined(es) == Cells(a) + [COMMA] + Joined(fs);
    JoinedSplit(es);
  }

  lemma OutcomesOfCodings()
    ensures Outcome(Codings, true, Cells("c")) == Matching("chunked", 1) == Outcome(Codings, false, Cells("c"))
    ensures Outcome(Codings, true, Cells("chunked")) == Whole("chunked") == Outcome(Codings, false, Cells("chunked"))
    ensures Outcome(Codings, false, Cells(" chunked")) == Whole("chunked")
    ensures Outcome(Codings, true, Cells("gzip")) == Other
    ensures Outcome(Codings, false, Cells("\tchunked")) == Lost
    ensures Outcome(Codings, false, Cells("")) == Start
  {
    var c: seq<byte>, chunked: seq<byte>, gzip: seq<byte>, tabbed: seq<byte>, spaced: seq<byte> :=
      "c", "chunked", "gzip", "\tchunked", " chunked";
    assert LoweredCells(Cells(c)) == c == "chunked"[..1];
    assert LoweredCells(Cells(chunked)) == chunked && Cells(chunked)[..7] == Cells(chunked);
    assert Cells(spaced)[1..] == Cells(chunked);
    assert TrimLead(Cells(spaced)) == TrimLead(Cells(chunked)) == Cells(chunked);
    assert Cells("") == [];
    assert Cells(tabbed)[0] == Plain('\t') && TrimLead(Cells(tabbed)) == Cells(tabbed);
    assert Cells(gzip)[0] == Plain('g');
  }

  lemma WordsOfTwo(a: seq<Cell>, b: seq<Cell>)
    ensures Words(Codings, [a, b], true) ==
            if Outcome(Codings, true, a).Other? then Words(Codings, [b], false) else {}
    ensures Words(Codings, [b], false) == if Outcome(Codings, false, b).Whole? then {Outcome(Codings, false, b).word} else {}
  {
    hide Outcome;
    assert [a, b][1..] == [b];
  }

  lemma WordsOfThree(a: seq<Cell>, b: seq<Cell>, c: seq<Cell>)
    ensures Words(Codings, [a, b, c], true) ==
            var o := Outcome(Codings, true, a);
            if o.Other? then Words(Codings, [b, c], false)
            else if o.Lost? || HasFold(b) then {}
            else Words(Codings, [c], false)
    ensures Outcome(Codings, false, b).Start? ==> Words(Codings, [b, c], false) == {}
    ensures Words(Codings, [c], false) == if Outcome(Codings, false, c).Whole? then {Outcome(Codings, false, c).word} else {}
  {
    hide Outcome;
    assert [a, b, c][1..] == [b, c] && [b, c][1..] == [c];
  }

  /** Legal single-line values. */
  lemma LegalCells(s: seq<byte>)
    requires s != [] && s[0] != ' ' && s[0] != '\t' && forall i :: 0 <= i < |s| ==> FieldChar(s[i])
    ensures LegalValue(Cells(s))
  {
    hide FieldChar;
  }

  /** The ordinary list is read as it should be. */
  lemma HeardComma()
    ensures Chunks(Cells("gzip, chunked")) && LegalValue(Cells("gzip, chunked"))
  {
    hide Words, LastIsChunked, LastIsHeard, Outcome;
    var a: seq<byte>, b: seq<byte> := "gzip", " chunked";
    TwoCodings(a, b);
    assert a + [','] + b == "gzip, chunked";
    LegalCells("gzip, chunked");
    OutcomesOfCodings();
    WordsOfTwo(Cells(a), Cells(b));
    ChunkedWords(Cells("gzip, chunked"));
    ChunksIs(Cells("gzip, chunked"));
  }

  /** What is said of a value that is not chunked although its last coding is. */
  predicate Missed(s: seq<byte>) {
    LegalValue(Cells(s)) && LastIsChunked(Cells(s)) && !Chunks(Cells(s))
  }

  /** Two codings of which the second is not heard. */
  lemma MissedSecond(a: seq<byte>, b: seq<byte>, s: seq<byte>)
    requires ',' !in a && ',' !in b && s == a + [','] + b && LegalValue(Cells(s)) && IsWord(Cells(b), "chunked")
    requires !Outcome(Codings, true, Cells(a)).Other? || Outcome(Codings, false, Cells(b)).Lost?
    ensures Missed(s)
  {
    hide Words, LastIsHeard, Outcome, IsWord, LegalValue;
    TwoCodings(a, b);
    WordsOfTwo(Cells(a), Cells(b));
    ChunkedWords(Cells(s));
    ChunksIs(Cells(s));
  }

  /** After a beginning of "chunked" the comma is taken for a mismatch and the next coding is missed. */
  lemma SwallowedComma()
    ensures Missed("c,chunked")
  {
    hide Missed, Outcome, IsWord, LegalValue;
    var a: seq<byte>, b: seq<byte>, s: seq<byte> := "c", "chunked", "c,chunked";
    assert s == a + [','] + b;
    LegalCells(s);
    OutcomesOfCodings();
    WordExact(Codings, false, Cells(b), "chunked");
    MissedSecond(a, b, s);
  }

  /** So it is after "chunked" itself. */
  lemma SwallowedAgain()
    ensures Missed("chunked,chunked")
  {
    hide Missed, Outcome, IsWord, LegalValue;
    var b: seq<byte>, s: seq<byte> := "chunked", "chunked,chunked";
    assert s == b + [','] + b;
    LegalCells(s);
    OutcomesOfCodings();
    WordExact(Codings, false, Cells(b), "chunked");
    MissedSecond(b, b, s);
  }

  /** A tab before a coding loses it. */
  lemma TabbedCoding()
    ensures Missed("gzip,\tchunked")
  {
    hide Missed, Outcome, IsWord, LegalValue;
    var a: seq<byte>, b: seq<byte>, s: seq<byte> := "gzip", "\tchunked", "gzip,\tchunked";
    assert s == a + [','] + b;
    LegalCells(s);
    OutcomesOfCodings();
    TabbedWord();
    MissedSecond(a, b, s);
  }

  /** Only that one is missed: the comma after it is heard. */
  lemma OneSwallowed()
    ensures Chunks(Cells("c,c,chunked")) && LegalValue(Cells("c,c,chunked"))
  {
    hide Words, LastIsChunked, LastIsHeard, Outcome, LegalValue, Chunks;
    var s: seq<byte> := "c,c,chunked";
    LegalCells(s);
    SwallowedText();
    OutcomesOfCodings();
    WordsOfThree(Cells("c"), Cells("c"), Cells("chunked"));
    ChunkedWords(Cells(s));
    ChunksIs(Cells(s));
  }

  lemma SwallowedText()
    ensures Split(Cells("c,c,chunked")) == [Cells("c"), Cells("c"), Cells("chunked")]
  {
    var a: seq<byte>, b: seq<byte> := "c", "chunked";
    ThreeCodings(a, a, b);
    assert a + [','] + (a + [','] + b) == "c,c,chunked";
  }

  /** An empty coding loses the rest of the list. */
  lemma EmptyCoding()
    ensures Missed("gzip,,chunked")
  {
    hide Words, LastIsHeard, Outcome, IsWord, LegalValue;
    var a: seq<byte>, b: seq<byte>, c: seq<byte>, s: seq<byte> := "gzip", "", "chunked", "gzip,,chunked";
    ThreeCodings(a, b, c);
    assert s == a + [','] + (b + [','] + c);
    LegalCells(s);
    OutcomesOfCodings();
    WordExact(Codings, false, Cells(c), "chunked");
    WordsOfThree(Cells(a), Cells(b), Cells(c));
    ChunkedWords(Cells(s));
    ChunksIs(Cells(s));
  }

  lemma TabbedWord()
    ensures IsWord(Cells("\tchunked"), "chunked")
  {
    var t: seq<byte>, c: seq<byte> := "\tchunked", "chunked";
    assert Cells(t)[1..] == Cells(c);
    assert TrimLeft(Cells(t)) == TrimLeft(Cells(c)) == Cells(c);
    assert TrimRight(Cells(c)) == Cells(c);
    assert LoweredCells(Cells(c)) == c;
  }

  /** A fold after a coding loses it. */
  lemma FoldAfter()
    ensures var v := Cells("chunked") + [Folded(' ', true)]; LastIsChunked(v) && !Chunks(v) && LegalValue(v)
  {
    hide Words, LastIsHeard, LastIsChunked, Outcome, LegalValue;
    var c: seq<byte> := "chunked";
    var v := Cells(c) + [Folded(' ', true)];
    FoldedOutcomes();
    NoCommaCells(c);
    JoinedSplit([v]);
    WordsOfOne(v);
    FoldedLegal();
    ChunkedWords(v);
    ChunksIs(v);
    LastWord(v);
  }

  lemma WordsOfOne(v: seq<Cell>)
    ensures Words(Codings, [v], true) == if Outcome(Codings, true, v).Whole? then {Outcome(Codings, true, v).word} else {}
  {
    hide Outcome;
  }

  /** A fold right after a comma that is heard is skipped, whatever white space it begins with. */
  lemma FoldBefore()
    ensures var v := Cells("gzip,") + [Folded('\t', true)] + Cells("chunked"); Chunks(v) && LegalValue(v)
  {
    hide Words, LastIsHeard, LastIsChunked, Outcome, LegalValue;
    var a: seq<byte>, c: seq<byte> := "gzip", "chunked";
    var tail := [Folded('\t', true)] + Cells(c);
    var w := Cells("gzip,") + [Folded('\t', true)] + Cells(c);
    FoldedOutcomes();
    OutcomesOfCodings();
    NoCommaCells(a);
    NoCommaCells(c);
    assert Cells("gzip,") == Cells(a) + [COMMA];
    assert [Cells(a), tail][1..] == [tail];
    JoinedSplit([Cells(a), tail]);
    assert Joined([Cells(a), tail]) == w;
    WordsOfTwo(Cells(a), tail);
    FoldedLegal();
    ChunkedWords(w);
    ChunksIs(w);
  }

  lemma LastWord(v: seq<Cell>)
    requires Split(v) == [v] && IsWord(v, "chunked")
    ensures LastIsChunked(v)
  {}

  lemma FoldedLegal()
    ensures LegalValue(Cells("chunked") + [Folded(' ', true)])
    ensures LegalValue(Cells("gzip,") + [Folded('\t', true)] + Cells("chunked"))
  {}

  lemma FoldedOutcomes()
    ensures var v := Cells("chunked") + [Folded(' ', true)]; Outcome(Codings, true, v) == Lost && IsWord(v, "chunked")
    ensures Outcome(Codings, false, [Folded('\t', true)] + Cells("chunked")) == Whole("chunked")
  {
    var c: seq<byte> := "chunked";
    var v, w := Cells(c) + [Folded(' ', true)], [Folded('\t', true)] + Cells(c);
    assert v[7].Folded?;
    assert TrimLeft(v) == v && v[..7] == Cells(c) && TrimRight(v) == TrimRight(Cells(c)) == Cells(c);
    assert LoweredCells(Cells(c)) == c;
    assert w[1..] == Cells(c);
    assert TrimLead(w) == TrimLead(Cells(c)) == Cells(c);
    OutcomesOfCodings();
  }

  /** The same as runs: of these values only the ordinary list, and the one with a comma to spare, end chunked. */
  lemma ListRuns(cfg: Config, f: Fields, log: seq<Event>, s: seq<byte>, rest: seq<byte>) returns (g: Fields)
    requires f.state == HeaderName(HeaderValueDiscardWs) && f.headerState == Named(TransferEncoding)
    requires F_CHUNKED !in f.flags && NoFold(rest) && f.nread + |s| + 4 <= cfg.maxHeader
    requires s == "gzip, chunked" || s == "c,c,chunked" || s == "c,chunked" || s == "chunked,chunked" ||
             s == "gzip,,chunked" || s == "gzip,\tchunked"
    ensures Run(cfg, Machine(f, log), [' '] + s + ([CR] + [LF]) + rest) == Run(cfg, Machine(g, Push(log, Data(Value, s))), rest)
    ensures g.state == HeaderName(HeaderFieldStart)
    ensures F_CHUNKED in g.flags <==> s == "gzip, chunked" || s == "c,c,chunked"
  {
    hide Run, Push, Chunks, LegalValue;
    HeardComma();
    OneSwallowed();
    SwallowedComma();
    SwallowedAgain();
    EmptyCoding();
    TabbedCoding();
    g := PlainRun(cfg, f, log, s, rest);
  }
}
