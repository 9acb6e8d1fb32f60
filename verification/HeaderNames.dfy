/** The header-name matcher: which names get a meaning, over any way of cutting the name. */
module HeaderNames {
  import opened Bytes
  import opened Alphabets
  import opened Trace
  import opened ParserState
  import opened Transitions
  import opened ByteMachine
  import opened Skips

  predicate AllTokens(w: seq<byte>) { forall i :: 0 <= i < |w| ==> TokenChar(w[i]) }

  /** Names are compared without case. */
  function Lowered(w: seq<byte>): seq<byte> { seq(|w|, i requires 0 <= i < |w| => Token(w[i])) }

  /** `header_state` after the name bytes `low`: complete names, their beginnings, and the rest. */
  function Class(low: seq<byte>): HeaderState {
    if low == "connection" || low == "proxy-connection" then Named(Connection)
    else if low == "content-length" then Named(ContentLength)
    else if low == "transfer-encoding" then Named(TransferEncoding)
    else if low == "upgrade" then Named(Upgrade)
    else if low == "c" then Named(C)
    else if low == "co" then Named(CO)
    else if low == "con" then Named(CON)
    else if low == [] then General
    else if low <= "connection" then Named(MatchingConnection)
    else if low <= "content-length" then Named(MatchingContentLength)
    else if low <= "proxy-connection" then Named(MatchingProxyConnection)
    else if low <= "transfer-encoding" then Named(MatchingTransferEncoding)
    else if low <= "upgrade" then Named(MatchingUpgrade)
    else General
  }

  /** Another byte of the word being matched. */
  lemma LongerPrefix(word: string, low: seq<byte>, c: byte)
    requires low <= word && |low| < |word|
    ensures low + [c] <= word <==> c == word[|low|]
    ensures low + [c] == word <==> c == word[|low|] && |low| + 1 == |word|
  {
    if c == word[|low|] {
      assert low + [c] == word[..|low| + 1];
    }
  }

  lemma NotPrefix(word: string, low: seq<byte>, c: byte)
    ensures !(low <= word) ==> !(low + [c] <= word)
  {}

  /** `index` while a name is being matched. */
  predicate Counts(f: Fields, low: seq<byte>) {
    match f.headerState
    case Named(n) =>
      n.Connection? || n.ContentLength? || n.TransferEncoding? || n.Upgrade? || f.index + 1 == |low|
    case _ => true
  }

  /** After `NameByte` on a name in class, the longer name is in its class. */
  predicate Steps(f: Fields, low: seq<byte>, c: byte) {
    var g := if f.headerState.Named? then NameByte(f, f.headerState.n, c) else f;
    g.headerState == Class(low + [c]) && Counts(g, low + [c])
  }

  /** A name that begins no other keyword than `word` and is still being matched. */
  predicate Only(low: seq<byte>, word: string) {
    && low <= word && 0 < |low| < |word|
    && (word == "connection" || !(low <= "connection")) && (word == "content-length" || !(low <= "content-length"))
    && (word == "proxy-connection" || !(low <= "proxy-connection"))
    && (word == "transfer-encoding" || !(low <= "transfer-encoding"))
    && (word == "upgrade" || !(low <= "upgrade"))
  }

  predicate IsKeyword(word: string) {
    word == "connection" || word == "content-length" || word == "proxy-connection" ||
    word == "transfer-encoding" || word == "upgrade"
  }

  /** The class of a name that begins one keyword only. */
  lemma OnlyClass(low: seq<byte>, word: string)
    requires Only(low, word) && IsKeyword(word)
    ensures Class(low) == Named(if word == "connection" then MatchingConnection
                                else if word == "content-length" then MatchingContentLength
                                else if word == "proxy-connection" then MatchingProxyConnection
                                else if word == "transfer-encoding" then MatchingTransferEncoding
                                else MatchingUpgrade)
  {}

  /** The next byte of such a name. */
  lemma NextOnly(low: seq<byte>, word: string, c: byte)
    requires Only(low, word) && IsKeyword(word)
    ensures !(low + [c] <= word) ==> Class(low + [c]) == General
    ensures low + [c] <= word && low + [c] != word ==> Only(low + [c], word)
  {
    NotPrefix("connection", low, c);
    NotPrefix("content-length", low, c);
    NotPrefix("proxy-connection", low, c);
    NotPrefix("transfer-encoding", low, c);
    NotPrefix("upgrade", low, c);
  }

  /** The two names that begin alike. */
  lemma ConnectionOrLength(low: seq<byte>)
    ensures low != [] && (low <= "connection" || low <= "content-length") ==> low[0] == 'c'
    ensures |low| > 3 && low <= "connection" ==> low[3] == 'n'
    ensures |low| > 3 && low <= "content-length" ==> low[3] == 't'
    ensures |low| <= 3 && low <= "connection" ==> low == "con"[..|low|]
  {}

  lemma MatchingIsOnly(low: seq<byte>)
    ensures match Class(low)
            case Named(MatchingConnection) => Only(low, "connection")
            case Named(MatchingContentLength) => Only(low, "content-length")
            case Named(MatchingProxyConnection) => Only(low, "proxy-connection")
            case Named(MatchingTransferEncoding) => Only(low, "transfer-encoding")
            case Named(MatchingUpgrade) => Only(low, "upgrade")
            case _ => true
  {
    ConnectionOrLength(low);
    if low != [] && low <= "proxy-connection" { assert low[0] == 'p'; }
    if low != [] && low <= "transfer-encoding" { assert low[0] == 't'; }
    if low != [] && low <= "upgrade" { assert low[0] == 'u'; }
  }

  lemma MatchingSteps(f: Fields, low: seq<byte>, c: byte, word: string)
    requires f.headerState == Class(low) && Counts(f, low) && Only(low, word) && IsKeyword(word) && c != '\0'
    requires f.headerState.Named? && Keyword(f.headerState) == word
    ensures Steps(f, low, c)
  {
    OnlyClass(low, word);
    LongerPrefix(word, low, c);
    NextOnly(low, word, c);
    if low + [c] <= word && low + [c] != word { OnlyClass(low + [c], word); }
  }

  lemma ShortSteps(f: Fields, low: seq<byte>, c: byte)
    requires f.headerState == Class(low) && Counts(f, low) && c != '\0'
    requires low == "c" || low == "co" || low == "con"
    ensures Steps(f, low, c)
  {
    var next := low + [c];
    assert next[|low|] == c && next[..|low|] == low && next[0] == 'c';
    LongerPrefix("connection", low, c);
    LongerPrefix("content-length", low, c);
    if low == "c" {
      assert next == ['c', c];
    } else if low == "co" {
      assert next == ['c', 'o', c];
    } else {
      assert next == ['c', 'o', 'n', c];
    }
  }

  lemma CompleteEnds(low: seq<byte>, c: byte)
    requires low == "connection" || low == "proxy-connection" || low == "content-length" ||
             low == "transfer-encoding" || low == "upgrade"
    ensures Class(low + [c]) == General
  {
    var next := low + [c];
    assert next[..|low|] == low && next[0] == low[0] && |next| == |low| + 1;
    NotPrefix("connection", low, c);
    NotPrefix("content-length", low, c);
    NotPrefix("proxy-connection", low, c);
    NotPrefix("transfer-encoding", low, c);
    NotPrefix("upgrade", low, c);
    if low == "connection" { assert low[3] == 'n'; }
    if low == "content-length" { assert low[3] == 't'; }
  }

  /** A complete name, or one that begins no keyword, leads nowhere. */
  lemma LostSteps(f: Fields, low: seq<byte>, c: byte)
    requires f.headerState == Class(low) && low != [] && c != '\0'
    requires f.headerState == General ||
             (f.headerState.Named? &&
              var n := f.headerState.n; n.Connection? || n.ContentLength? || n.TransferEncoding? || n.Upgrade?)
    ensures Steps(f, low, c)
  {
    NotPrefix("connection", low, c);
    NotPrefix("content-length", low, c);
    NotPrefix("proxy-connection", low, c);
    NotPrefix("transfer-encoding", low, c);
    NotPrefix("upgrade", low, c);
    var next := low + [c];
    assert next[0] == low[0] && next[..|low|] == low && |next| >= 2;
    if f.headerState.Named? {
      CompleteEnds(low, c);
    } else {
      assert next != "c" && next != "co" && next != "con";
    }
  }

  lemma ClassSteps(f: Fields, low: seq<byte>, c: byte)
    requires low != [] && c != '\0' && f.headerState == Class(low) && Counts(f, low)
    ensures Steps(f, low, c)
  {
    hide Steps, Counts, Only;
    MatchingIsOnly(low);
    match f.headerState
    case Named(MatchingConnection) => MatchingSteps(f, low, c, "connection");
    case Named(MatchingContentLength) => MatchingSteps(f, low, c, "content-length");
    case Named(MatchingProxyConnection) => MatchingSteps(f, low, c, "proxy-connection");
    case Named(MatchingTransferEncoding) => MatchingSteps(f, low, c, "transfer-encoding");
    case Named(MatchingUpgrade) => MatchingSteps(f, low, c, "upgrade");
    case Named(C) => ShortSteps(f, low, c);
    case Named(CO) => ShortSteps(f, low, c);
    case Named(CON) => ShortSteps(f, low, c);
    case _ => LostSteps(f, low, c);
  }

  /** The flags after the name bytes `low`. */
  function Flagged(flags: set<Flag>, low: seq<byte>): set<Flag> {
    if "transfer-encoding" <= low then flags + {F_TRANSFER_ENCODING} else flags
  }

  lemma LoweredMore(w: seq<byte>, c: byte)
    ensures Lowered(w + [c]) == Lowered(w) + [Token(c)]
  {}

  /** Only the byte that completes "transfer-encoding" sets the flag. */
  lemma FlagSteps(f: Fields, flags0: set<Flag>, low: seq<byte>, ch: byte)
    requires low != [] && IsToken(ch) && f.headerState == Class(low) && Counts(f, low)
    requires f.flags == Flagged(flags0, low)
    ensures var g := FieldByte(f, ch);
            var next := low + [Token(ch)];
            g == f.(index := g.index, headerState := Class(next), flags := Flagged(flags0, next)) && Counts(g, next)
  {
    hide Token, Matched, Class, Counts;
    var c := Token(ch);
    var next := low + [c];
    ClassSteps(f, low, c);
    assert next[..|low|] == low && |next| == |low| + 1;
    if "transfer-encoding" <= next && !("transfer-encoding" <= low) {
      assert next == "transfer-encoding";
    }
    FlagClass(next);
    if next == "transfer-encoding" {
      assert low == "transfer-encodin" && c == 'g';
      LastLetter(low);
    }
  }

  lemma FlagClass(low: seq<byte>)
    ensures Class(low) == Named(TransferEncoding) <==> low == "transfer-encoding"
  {}

  lemma LastLetter(low: seq<byte>)
    requires low == "transfer-encodin"
    ensures Class(low) == Named(MatchingTransferEncoding)
  {
    assert low[0] == 't' && low <= "transfer-encoding";
    OnlyClass(low, "transfer-encoding");
  }

  /** More bytes of a header name. */
  lemma {:induction false} MoreName(cfg: Config, f: Fields, flags0: set<Flag>, log: seq<Event>, read: seq<byte>, rest: seq<byte>)
    requires f.state == HeaderName(HeaderField) && read != [] && AllTokens(rest) && EndsIn(log, Field)
    requires f.headerState == Class(Lowered(read)) && Counts(f, Lowered(read))
    requires f.flags == Flagged(flags0, Lowered(read)) && f.nread + |rest| <= cfg.maxHeader
    ensures var all := Lowered(read + rest);
            match Run(cfg, Machine(f, log), rest)
            case Ran(m) =>
              m == Machine(f.(headerState := Class(all), index := m.f.index, flags := Flagged(flags0, all),
                              nread := f.nread + |rest|), Push(log, Data(Field, rest)))
            case _ => false
    decreases |rest|
  {
    hide Run, Push, Class, Lowered, Counts, FieldByte, Token, Flagged;
    if rest == [] {
      RunNothing(cfg, Machine(f, log));
      PushNothing(log, Field);
      assert read + rest == read && f.(nread := f.nread) == f;
    } else {
      var ch, low := rest[0], Lowered(read);
      LoweredMore(read, ch);
      LoweredLength(read);
      TokensAre(ch);
      FlagSteps(f, flags0, low, ch);
      FieldStep(cfg, f, log, rest);
      var g := FieldByte(f, ch).(nread := f.nread + 1);
      CountsAlone(FieldByte(f, ch), g, low + [Token(ch)]);
      assert read + rest == read + [ch] + rest[1..];
      MoreName(cfg, g, flags0, Push(log, Data(Field, [ch])), read + [ch], rest[1..]);
      PushTwice(log, Field, [ch], rest[1..]);
      assert [ch] + rest[1..] == rest;
    }
  }

  lemma LoweredLength(w: seq<byte>)
    ensures |Lowered(w)| == |w|
  {}

  lemma CountsAlone(f: Fields, g: Fields, low: seq<byte>)
    requires Counts(f, low) && g.headerState == f.headerState && g.index == f.index
    ensures Counts(g, low)
  {}

  /** A header name `w` is classified by its lower-cased form alone. */
  lemma NameExact(cfg: Config, f: Fields, log: seq<Event>, w: seq<byte>)
    requires f.state == HeaderName(HeaderFieldStart) && w != [] && AllTokens(w) && f.nread + |w| <= cfg.maxHeader
    ensures match Run(cfg, Machine(f, log), w)
            case Ran(m) =>
              m == Machine(f.(state := HeaderName(HeaderField), headerState := Class(Lowered(w)), index := m.f.index,
                              flags := Flagged(f.flags, Lowered(w)), nread := f.nread + |w|),
                           Push(log, Data(Field, w)))
            case _ => false
  {
    hide Run, Push, Class, Lowered, Counts, Token, Flagged, FirstHeaderState;
    var g := f.(state := HeaderName(HeaderField), index := 0, headerState := FirstHeaderState(Token(w[0])),
                nread := f.nread + 1);
    TokensAre(w[0]);
    FirstClass(g, w[0], f.flags);
    NotLineEnd(w[0]);
    MarkStep(cfg, Machine(f, log), w, g, Field);
    MoreName(cfg, g, f.flags, Push(log, Data(Field, [w[0]])), [w[0]], w[1..]);
    PushTwice(log, Field, [w[0]], w[1..]);
    assert [w[0]] + w[1..] == w;
  }

  lemma NotLineEnd(ch: byte)
    requires IsToken(ch)
    ensures ch != CR && ch != LF && ch != ':' && ch != ' '
  {}

  lemma FirstClass(f: Fields, ch: byte, flags: set<Flag>)
    requires f.headerState == FirstHeaderState(Token(ch)) && f.index == 0 && IsToken(ch)
    ensures f.headerState == Class(Lowered([ch])) && Counts(f, Lowered([ch])) && Flagged(flags, Lowered([ch])) == flags
  {
    var low := Lowered([ch]);
    assert low == [Token(ch)];
    hide Token;
    if low[0] != 'c' { assert !(low <= "connection") && !(low <= "content-length"); }
    if low[0] == 'p' { assert low <= "proxy-connection"; }
    if low[0] == 't' { assert low <= "transfer-encoding"; }
    if low[0] == 'u' { assert low <= "upgrade"; }
  }

  /** A header name and its colon. */
  lemma NameAndColon(cfg: Config, f: Fields, log: seq<Event>, w: seq<byte>)
    requires f.state == HeaderName(HeaderFieldStart) && w != [] && AllTokens(w) && f.nread + |w| + 1 <= cfg.maxHeader
    ensures match Run(cfg, Machine(f, log), w + [':'])
            case Ran(m) =>
              m == Machine(f.(state := HeaderName(HeaderValueDiscardWs), headerState := Class(Lowered(w)),
                              index := m.f.index, flags := Flagged(f.flags, Lowered(w)), nread := f.nread + |w| + 1),
                           Push(log, Data(Field, w)))
            case _ => false
  {
    hide Run, Push, Lowered, Class, Flagged;
    var colon: seq<byte> := [':'];
    NameExact(cfg, f, log, w);
    RunAppend(cfg, Machine(f, log), w, colon);
    match Run(cfg, Machine(f, log), w)
    case Ran(m) =>
      var g := m.f.(state := HeaderName(HeaderValueDiscardWs), nread := m.f.nread + 1);
      FlushStep(cfg, m, colon, g, Field);
      assert colon[1..] == [];
      RunNothing(cfg, Machine(g, m.log));
  }

  /** At the colon a header counts as Connection, Content-Length, Transfer-Encoding or Upgrade if and only
      if its name is exactly that one without regard to case; Proxy-Connection counts as Connection. The
      flag of Transfer-Encoding is set by any name that only begins like it. */
  lemma NameMeaning(cfg: Config, f: Fields, log: seq<Event>, w: seq<byte>)
    requires f.state == HeaderName(HeaderFieldStart) && w != [] && AllTokens(w) && f.nread + |w| + 1 <= cfg.maxHeader
    requires F_TRANSFER_ENCODING !in f.flags
    ensures var low := Lowered(w);
            match Run(cfg, Machine(f, log), w + [':'])
            case Ran(m) =>
              && m.f.state == HeaderName(HeaderValueDiscardWs) && m.log == Push(log, Data(Field, w))
              && (m.f.headerState == Named(Connection) <==> low == "connection" || low == "proxy-connection")
              && (m.f.headerState == Named(ContentLength) <==> low == "content-length")
              && (m.f.headerState == Named(TransferEncoding) <==> low == "transfer-encoding")
              && (m.f.headerState == Named(Upgrade) <==> low == "upgrade")
              && (F_TRANSFER_ENCODING in m.f.flags <==> "transfer-encoding" <= low)
            case _ => false
  {
    hide Run, Push, Lowered, Class;
    NameAndColon(cfg, f, log, w);
    ClassMeaning(Lowered(w));
  }

  lemma ClassMeaning(low: seq<byte>)
    ensures Class(low) == Named(Connection) <==> low == "connection" || low == "proxy-connection"
    ensures Class(low) == Named(ContentLength) <==> low == "content-length"
    ensures Class(low) == Named(TransferEncoding) <==> low == "transfer-encoding"
    ensures Class(low) == Named(Upgrade) <==> low == "upgrade"
    ensures Class(low) == General || Class(low).Named?
  {}
}
