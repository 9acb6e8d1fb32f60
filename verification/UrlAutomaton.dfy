/** The URL automaton that request parsing and URL splitting share. */
module UrlAutomaton {
  import opened Bytes
  import opened ParserState

  /** `parse_url_char` */
  function ParseUrlChar(s: UrlState, ch: byte): UrlState {
    if ch == ' ' || ch == CR || ch == LF || ch == '\t' || ch as int == 12 then UrlDead
    else match s
      case UrlStart =>
        if ch == '/' || ch == '*' then Path
        else if IsAlpha(ch) then Schema
        else UrlDead
      case Schema =>
        if IsAlpha(ch) then Schema
        else if ch == ':' then SchemaSlash
        else UrlDead
      case SchemaSlash => if ch == '/' then SchemaSlashSlash else UrlDead
      case SchemaSlashSlash => if ch == '/' then ServerStart else UrlDead
      case ServerWithAt => if ch == '@' then UrlDead else ServerChar(ch)
      case ServerStart => ServerChar(ch)
      case Server => ServerChar(ch)
      case Path =>
        if IsUrlChar(ch) then Path
        else if ch == '?' then QueryStart
        else if ch == '#' then FragmentStart
        else UrlDead
      case QueryStart => QueryChar(ch)
      case Query => QueryChar(ch)
      case FragmentStart =>
        if IsUrlChar(ch) || ch == '?' then Fragment
        else if ch == '#' then FragmentStart
        else UrlDead
      case Fragment => if IsUrlChar(ch) || ch == '?' || ch == '#' then Fragment else UrlDead
      case UrlDead => UrlDead
  }

  function ServerChar(ch: byte): UrlState {
    if ch == '/' then Path
    else if ch == '?' then QueryStart
    else if ch == '@' then ServerWithAt
    else if IsUserinfoChar(ch) || ch == '[' || ch == ']' then Server
    else UrlDead
  }

  function QueryChar(ch: byte): UrlState {
    if IsUrlChar(ch) || ch == '?' then Query
    else if ch == '#' then FragmentStart
    else UrlDead
  }

  /** The automaton run over `u`. */
  function UrlRun(s: UrlState, u: seq<byte>): UrlState
    decreases |u|
  {
    if u == [] then s else UrlRun(ParseUrlChar(s, u[0]), u[1..])
  }

  lemma {:induction false} DeadStaysDead(u: seq<byte>)
    ensures UrlRun(UrlDead, u) == UrlDead
    decreases |u|
  {
    if u != [] { DeadStaysDead(u[1..]); }
  }

  lemma {:induction false} UrlRunSnoc(s: UrlState, u: seq<byte>, ch: byte)
    ensures UrlRun(s, u + [ch]) == ParseUrlChar(UrlRun(s, u), ch)
    decreases |u|
  {
    hide ParseUrlChar;
    if u == [] {
      assert [ch][1..] == [];
      assert u + [ch] == [ch];
    } else {
      assert (u + [ch])[1..] == u[1..] + [ch];
      UrlRunSnoc(ParseUrlChar(s, u[0]), u[1..], ch);
    }
  }

  lemma {:induction false} UrlRunAppend(s: UrlState, a: seq<byte>, b: seq<byte>)
    ensures UrlRun(s, a + b) == UrlRun(UrlRun(s, a), b)
    decreases |a|
  {
    hide ParseUrlChar;
    if a == [] {
      assert a + b == b;
    } else {
      assert (a + b)[1..] == a[1..] + b;
      UrlRunAppend(ParseUrlChar(s, a[0]), a[1..], b);
    }
  }
}
