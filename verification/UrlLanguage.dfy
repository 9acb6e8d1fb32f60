/** Which texts the URL automaton takes, written without it. */
module UrlLanguage {
  import opened Bytes
  import opened Alphabets
  import opened ParserState
  import opened UrlAutomaton

  // ---- path, query and fragment

  predicate Visible(u: seq<byte>) { forall i :: 0 <= i < |u| ==> Within(u[i], 33, 126) }

  /** The states from the path on. */
  predicate InTail(s: UrlState) { s.Path? || s.QueryStart? || s.Query? || s.FragmentStart? || s.Fragment? }

  /** The first `ch` in `u`, or its end. */
  function First(u: seq<byte>, ch: byte): (n: nat)
    ensures n <= |u| && (n < |u| ==> u[n] == ch) && forall i :: 0 <= i < n ==> u[i] != ch
  {
    if u == [] || u[0] == ch then 0 else 1 + First(u[1..], ch)
  }

  predicate AllHashes(u: seq<byte>) { forall i :: 0 <= i < |u| ==> u[i] == '#' }

  /** Where a path with what follows it ends: the first hash begins the fragment, which starts at the first byte that is
      no hash; the first question mark before it begins the query. */
  function TailState(s: UrlState, u: seq<byte>): UrlState {
    var h := First(u, '#');
    var q := First(u[..h], '?');
    if s.FragmentStart? then if AllHashes(u) then FragmentStart else Fragment
    else if s.Fragment? then Fragment
    else if h < |u| then if AllHashes(u[h..]) then FragmentStart else Fragment
    else if u == [] then s
    else if s.Path? then if q == |u| then Path else if q == |u| - 1 then QueryStart else Query
    else Query
  }

  lemma TailByte(s: UrlState, ch: byte)
    requires InTail(s)
    ensures ParseUrlChar(s, ch) ==
            if !Within(ch, 33, 126) then UrlDead
            else match s
              case Path => if ch == '?' then QueryStart else if ch == '#' then FragmentStart else Path
              case FragmentStart => if ch == '#' then FragmentStart else Fragment
              case Fragment => Fragment
              case _ => if ch == '#' then FragmentStart else Query
  {}

  lemma FirstMore(u: seq<byte>, ch: byte)
    requires u != []
    ensures First(u, ch) == if u[0] == ch then 0 else 1 + First(u[1..], ch)
  {}

  lemma TailStep(s: UrlState, u: seq<byte>)
    requires InTail(s) && u != [] && Within(u[0], 33, 126)
    ensures TailState(ParseUrlChar(s, u[0]), u[1..]) == TailState(s, u)
  {
    hide First, ParseUrlChar;
    TailByte(s, u[0]);
    FirstMore(u, '#');
    var h := First(u, '#');
    if u[0] == '#' {
      assert u[h..] == u;
    } else {
      var v := u[..h];
      assert h > 0 && v[0] == u[0] && v[1..] == u[1..][..h - 1];
      FirstMore(v, '?');
      assert u[h..] == u[1..][h - 1..];
    }
  }

  /** From the path on, a text is taken if and only if all its bytes are visible ASCII characters; and the components are
      where the marks are. */
  lemma {:induction false} TailExact(s: UrlState, u: seq<byte>)
    requires InTail(s)
    ensures UrlRun(s, u) == if Visible(u) then TailState(s, u) else UrlDead
    decreases |u|
  {
    hide ParseUrlChar, TailState;
    if u == [] {
      NoTail(s);
    } else {
      TailByte(s, u[0]);
      if Within(u[0], 33, 126) {
        TailExact(ParseUrlChar(s, u[0]), u[1..]);
        TailStep(s, u);
        assert Visible(u) <==> Visible(u[1..]);
      } else {
        DeadStaysDead(u[1..]);
      }
    }
  }

  lemma NoTail(s: UrlState)
    requires InTail(s)
    ensures TailState(s, []) == s
  {}

  // ---- the authority

  /** The bytes of an authority but for the at sign. */
  predicate InAuthority(ch: byte) { InUserinfo(ch) || ch == '[' || ch == ']' }

  predicate InServer(s: UrlState) { s.ServerStart? || s.Server? || s.ServerWithAt? }

  /** Where the authority ends. */
  function AuthorityEnd(u: seq<byte>): nat { if u == [] || u[0] == '/' || u[0] == '?' then 0 else 1 + AuthorityEnd(u[1..]) }

  /** An authority, in which no at sign follows another, and what comes after it. */
  predicate ServerText(u: seq<byte>) {
    var n := AuthorityEnd(u);
    && n <= |u|
    && (forall i :: 0 <= i < n ==> InAuthority(u[i]) || u[i] == '@')
    && (forall i :: 0 < i < n ==> !(u[i - 1] == '@' && u[i] == '@'))
    && (n < |u| ==> Visible(u[n + 1..]))
  }

  lemma ServerByte(s: UrlState, ch: byte)
    requires InServer(s)
    ensures ParseUrlChar(s, ch) ==
            if ch == '/' then Path
            else if ch == '?' then QueryStart
            else if ch == '@' then if s.ServerWithAt? then UrlDead else ServerWithAt
            else if InAuthority(ch) then Server
            else UrlDead
  {}

  lemma ServerTextStep(u: seq<byte>)
    requires u != [] && u[0] != '/' && u[0] != '?'
    ensures ServerText(u) <==>
            (InAuthority(u[0]) || u[0] == '@') && ServerText(u[1..]) && !(u[0] == '@' && |u| > 1 && u[1] == '@')
  {
    hide InAuthority;
    var n := AuthorityEnd(u[1..]);
    AuthorityInside(u[1..]);
    if n < |u[1..]| { assert u[1..][n + 1..] == u[n + 2..]; }
    if ServerText(u) {
      forall i | 0 <= i < n ensures InAuthority(u[1..][i]) || u[1..][i] == '@' { assert u[1..][i] == u[i + 1]; }
      forall i | 0 < i < n ensures !(u[1..][i - 1] == '@' && u[1..][i] == '@') { assert u[1..][i] == u[i + 1]; }
    }
    if (InAuthority(u[0]) || u[0] == '@') && ServerText(u[1..]) && !(u[0] == '@' && |u| > 1 && u[1] == '@') {
      forall i | 0 <= i < n + 1 ensures InAuthority(u[i]) || u[i] == '@' { if i > 0 { assert u[i] == u[1..][i - 1]; } }
      forall i | 0 < i < n + 1 ensures !(u[i - 1] == '@' && u[i] == '@') {
        assert u[i] == u[1..][i - 1];
        if i > 1 { assert u[i - 1] == u[1..][i - 2]; }
      }
    }
  }

  lemma {:induction false} AuthorityInside(u: seq<byte>)
    ensures AuthorityEnd(u) <= |u|
    decreases |u|
  {
    if u != [] { AuthorityInside(u[1..]); }
  }

  /** From the authority on. */
  lemma {:induction false} ServerExact(s: UrlState, u: seq<byte>)
    requires InServer(s)
    ensures UrlRun(s, u) != UrlDead <==> ServerText(u) && !(s.ServerWithAt? && u != [] && u[0] == '@')
    ensures s.ServerStart? || UrlRun(s, u) != ServerStart
    ensures UrlRun(s, u) == ServerStart ==> u == []
    ensures !EarlyState(UrlRun(s, u)) || (s.ServerStart? && u == [])
    decreases |u|
  {
    hide ParseUrlChar, ServerText, InAuthority;
    if u == [] {
      NoServer();
    } else {
      ServerByte(s, u[0]);
      var t := ParseUrlChar(s, u[0]);
      if u[0] == '/' || u[0] == '?' {
        TailExact(t, u[1..]);
        TailNotEarly(t, u[1..]);
        AtMark(u);
      } else {
        ServerTextStep(u);
        if t == UrlDead { DeadStaysDead(u[1..]); } else { ServerExact(t, u[1..]); }
      }
    }
  }

  lemma AtMark(u: seq<byte>)
    requires u != [] && (u[0] == '/' || u[0] == '?')
    ensures ServerText(u) <==> Visible(u[1..])
  {}

  lemma NoServer()
    ensures ServerText([])
  {}

  /** States in which a URL may not end. */
  predicate EarlyState(s: UrlState) { s.Schema? || s.SchemaSlash? || s.SchemaSlashSlash? || s.ServerStart? || s.UrlStart? }

  lemma TailNotEarly(s: UrlState, u: seq<byte>)
    requires InTail(s)
    ensures !EarlyState(UrlRun(s, u))
  {
    TailExact(s, u);
  }

  // ---- whole targets

  function SchemeEnd(u: seq<byte>): nat { if u == [] || !Letter(u[0]) then 0 else 1 + SchemeEnd(u[1..]) }

  /** A path with a slash or an asterisk; or letters, "://", and an authority with what follows it. */
  predicate UrlText(u: seq<byte>) {
    var n := SchemeEnd(u);
    u != [] &&
    if u[0] == '/' || u[0] == '*' then Visible(u[1..])
    else 0 < n && n + 3 < |u| && u[n] == ':' && u[n + 1] == '/' && u[n + 2] == '/' && ServerText(u[n + 3..])
  }

  lemma StartByte(ch: byte)
    ensures ParseUrlChar(UrlStart, ch) ==
            if ch == '/' || ch == '*' then Path else if Letter(ch) then Schema else UrlDead
    ensures ParseUrlChar(Schema, ch) == if Letter(ch) then Schema else if ch == ':' then SchemaSlash else UrlDead
    ensures ParseUrlChar(SchemaSlash, ch) == if ch == '/' then SchemaSlashSlash else UrlDead
    ensures ParseUrlChar(SchemaSlashSlash, ch) == if ch == '/' then ServerStart else UrlDead
  {}

  /** Inside a scheme. */
  lemma {:induction false} SchemeExact(u: seq<byte>)
    ensures var n, s := SchemeEnd(u), UrlRun(Schema, u);
            s != UrlDead && !EarlyState(s) <==>
            n + 3 < |u| && u[n] == ':' && u[n + 1] == '/' && u[n + 2] == '/' && ServerText(u[n + 3..])
    decreases |u|
  {
    hide ParseUrlChar, ServerText;
    if u != [] {
      StartByte(u[0]);
      if Letter(u[0]) {
        SchemeExact(u[1..]);
        var n := SchemeEnd(u[1..]);
        if n + 3 < |u[1..]| { assert u[1..][n + 3..] == u[n + 4..]; }
      } else if u[0] == ':' {
        MarksExact(u[1..]);
        if |u| > 3 { assert u[1..][2..] == u[3..]; }
      } else {
        DeadStaysDead(u[1..]);
      }
    }
  }

  /** The two slashes. */
  lemma MarksExact(u: seq<byte>)
    ensures var s := UrlRun(SchemaSlash, u);
            s != UrlDead && !EarlyState(s) <==> 2 < |u| && u[0] == '/' && u[1] == '/' && ServerText(u[2..])
  {
    hide ParseUrlChar, ServerText;
    if u != [] {
      StartByte(u[0]);
      var v := u[1..];
      if u[0] == '/' && v != [] {
        StartByte(v[0]);
        assert v[1..] == u[2..];
        if v[0] == '/' { ServerExact(ServerStart, u[2..]); } else { DeadStaysDead(u[2..]); }
      } else {
        DeadStaysDead(v);
      }
    }
  }

  /** A text is taken as a whole if and only if it is one of these. */
  lemma UrlExact(u: seq<byte>)
    ensures var s := UrlRun(UrlStart, u); s != UrlDead && !EarlyState(s) <==> UrlText(u)
  {
    hide ParseUrlChar, ServerText;
    if u != [] {
      StartByte(u[0]);
      if u[0] == '/' || u[0] == '*' {
        TailExact(Path, u[1..]);
        TailNotEarly(Path, u[1..]);
      } else if Letter(u[0]) {
        SchemeExact(u[1..]);
        var n := SchemeEnd(u[1..]);
        if n + 3 < |u[1..]| { assert u[1..][n + 3..] == u[n + 4..]; }
      } else {
        DeadStaysDead(u[1..]);
      }
    }
  }

  /** For CONNECT the text begins with the authority. */
  lemma AuthorityExact(u: seq<byte>)
    ensures var s := UrlRun(ServerStart, u); s != UrlDead && !EarlyState(s) <==> u != [] && ServerText(u)
  {
    ServerExact(ServerStart, u);
  }
}
