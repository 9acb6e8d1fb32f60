/** Which texts the authority automaton takes, written without it. */
module HostLanguage {
  import opened Bytes
  import opened Alphabets
  import opened Urls
  import opened Segments
  import opened UrlRoundTrip

  // ---- the parts of an authority

  predicate AllDecimal(h: seq<byte>) { forall i :: 0 <= i < |h| ==> DecimalDigit(h[i]) }

  /** No port, or a colon and digits. */
  predicate PortText(h: seq<byte>) { h == [] || (h[0] == ':' && |h| > 1 && AllDecimal(h[1..])) }

  function NameSpan(h: seq<byte>): (n: nat)
    ensures n <= |h|
  {
    if h == [] || !InName(h[0]) then 0 else 1 + NameSpan(h[1..])
  }

  function AddressSpan(h: seq<byte>): (n: nat)
    ensures n <= |h|
  {
    if h == [] || !IsAddressChar(h[0]) then 0 else 1 + AddressSpan(h[1..])
  }

  function ZoneSpan(h: seq<byte>): (n: nat)
    ensures n <= |h|
  {
    if h == [] || !InZone(h[0]) then 0 else 1 + ZoneSpan(h[1..])
  }

  function UserSpan(h: seq<byte>): (n: nat)
    ensures n <= |h|
  {
    if h == [] || !InUserinfo(h[0]) then 0 else 1 + UserSpan(h[1..])
  }

  /** What follows a registered name, a zone, or the address of a literal. */
  predicate NameText(h: seq<byte>) { PortText(h[NameSpan(h)..]) }

  predicate ZoneText(h: seq<byte>) { var n := ZoneSpan(h); n < |h| && h[n] == ']' && PortText(h[n + 1..]) }

  predicate AddressText(h: seq<byte>) {
    var n := AddressSpan(h);
    n < |h| && if h[n] == ']' then PortText(h[n + 1..]) else h[n] == '%' && ZoneSpan(h[n + 1..]) > 0 && ZoneText(h[n + 1..])
  }

  /** A registered name or an address literal, each with its port if there is one. */
  predicate HostPortText(h: seq<byte>) {
    h != [] &&
    if h[0] == '[' then AddressSpan(h[1..]) > 0 && AddressText(h[1..]) else NameSpan(h) > 0 && NameText(h)
  }

  /** User info up to the first at sign, and the host. */
  predicate UserText(h: seq<byte>) { var n := UserSpan(h); n < |h| && h[n] == '@' && HostPortText(h[n + 1..]) }

  // ---- the automaton takes these

  lemma HostByte(ch: byte)
    ensures ParseHostChar(HostStart, ch) == if ch == '[' then V6Start else if InName(ch) then HostState.Host else HostDead
    ensures ParseHostChar(HostState.Host, ch) ==
            if InName(ch) then HostState.Host else if ch == ':' then PortStart else HostDead
    ensures ParseHostChar(V6End, ch) == if ch == ':' then PortStart else HostDead
    ensures ParseHostChar(PortStart, ch) == ParseHostChar(Port, ch) == if DecimalDigit(ch) then Port else HostDead
    ensures ParseHostChar(V6Start, ch) == if IsAddressChar(ch) then V6 else HostDead
    ensures ParseHostChar(V6, ch) ==
            if ch == ']' then V6End else if IsAddressChar(ch) then V6 else if ch == '%' then ZoneStart else HostDead
    ensures ParseHostChar(ZoneStart, ch) == if InZone(ch) then Zone else HostDead
    ensures ParseHostChar(Zone, ch) == if ch == ']' then V6End else if InZone(ch) then Zone else HostDead
    ensures ParseHostChar(UserinfoStart, ch) == ParseHostChar(Userinfo, ch) ==
            if ch == '@' then HostStart else if InUserinfo(ch) then Userinfo else HostDead
  {}

  lemma Brackets(ch: byte)
    ensures ch == ']' || ch == '%' ==> !IsAddressChar(ch)
    ensures ch == ']' ==> !InZone(ch)
    ensures ch == '@' ==> !InUserinfo(ch)
    ensures ch == ':' || ch == '[' ==> !InName(ch)
  {}

  lemma {:induction false} DeadHost(h: seq<byte>)
    ensures Go(ParseHostChar, HostDead, h) == HostDead
    decreases |h|
  {
    if h != [] { DeadHost(h[1..]); }
  }

  predicate Ends(s: HostState, h: seq<byte>) { HostEnds(Go(ParseHostChar, s, h)) }

  lemma NothingEnds(s: HostState)
    ensures Ends(s, []) <==> s.Host? || s.V6End? || s.Port?
  {}

  lemma EndsStep(s: HostState, h: seq<byte>)
    requires h != []
    ensures Ends(s, h) <==> Ends(ParseHostChar(s, h[0]), h[1..])
    ensures !Ends(HostDead, h)
  {
    hide ParseHostChar;
    DeadHost(h);
  }

  lemma {:induction false} PortEnds(h: seq<byte>)
    ensures Ends(Port, h) <==> AllDecimal(h)
    ensures Ends(PortStart, h) <==> h != [] && AllDecimal(h)
    decreases |h|
  {
    hide ParseHostChar, Ends, DecimalDigit;
    NothingEnds(Port);
    NothingEnds(PortStart);
    if h != [] {
      HostByte(h[0]);
      EndsStep(Port, h);
      EndsStep(PortStart, h);
      PortEnds(h[1..]);
      NeverEnds(h[1..]);
      assert AllDecimal(h) <==> DecimalDigit(h[0]) && AllDecimal(h[1..]);
    }
  }

  lemma NeverEnds(h: seq<byte>)
    ensures !Ends(HostDead, h)
  {
    DeadHost(h);
  }

  lemma LiteralEnds(h: seq<byte>)
    ensures Ends(V6End, h) <==> PortText(h)
  {
    hide ParseHostChar, Ends, AllDecimal;
    NothingEnds(V6End);
    if h != [] {
      HostByte(h[0]);
      EndsStep(V6End, h);
      PortEnds(h[1..]);
      NeverEnds(h[1..]);
      assert |h| > 1 <==> h[1..] != [];
    }
  }

  lemma {:induction false} NameEnds(h: seq<byte>)
    ensures Ends(HostState.Host, h) <==> NameText(h)
    decreases |h|
  {
    hide ParseHostChar, Ends, AllDecimal, InName;
    NothingEnds(HostState.Host);
    if h != [] {
      HostByte(h[0]);
      Brackets(h[0]);
      EndsStep(HostState.Host, h);
      if InName(h[0]) {
        NameEnds(h[1..]);
        assert h[NameSpan(h)..] == h[1..][NameSpan(h[1..])..];
      } else {
        assert h[0..] == h;
        PortEnds(h[1..]);
        NeverEnds(h[1..]);
        assert |h| > 1 <==> h[1..] != [];
      }
    }
  }

  lemma {:induction false} ZoneEnds(h: seq<byte>)
    ensures Ends(Zone, h) <==> ZoneText(h)
    decreases |h|
  {
    hide ParseHostChar, Ends, PortText, InZone;
    NothingEnds(Zone);
    if h != [] {
      HostByte(h[0]);
      Brackets(h[0]);
      EndsStep(Zone, h);
      NeverEnds(h[1..]);
      LiteralEnds(h[1..]);
      if InZone(h[0]) {
        ZoneEnds(h[1..]);
        var n := ZoneSpan(h[1..]);
        if n < |h[1..]| { assert h[1..][n + 1..] == h[n + 2..]; }
      }
    }
  }

  lemma ZoneStarts(h: seq<byte>)
    ensures Ends(ZoneStart, h) <==> ZoneSpan(h) > 0 && ZoneText(h)
  {
    hide ParseHostChar, Ends, PortText, InZone;
    NothingEnds(ZoneStart);
    if h != [] {
      HostByte(h[0]);
      EndsStep(ZoneStart, h);
      NeverEnds(h[1..]);
      ZoneEnds(h[1..]);
      var n := ZoneSpan(h[1..]);
      if InZone(h[0]) && n < |h[1..]| { assert h[1..][n + 1..] == h[n + 2..]; }
    }
  }

  lemma {:induction false} AddressEnds(h: seq<byte>)
    ensures Ends(V6, h) <==> AddressText(h)
    decreases |h|
  {
    hide ParseHostChar, Ends, PortText, IsAddressChar, ZoneText, ZoneSpan;
    NothingEnds(V6);
    if h != [] {
      HostByte(h[0]);
      Brackets(h[0]);
      EndsStep(V6, h);
      NeverEnds(h[1..]);
      LiteralEnds(h[1..]);
      ZoneStarts(h[1..]);
      if IsAddressChar(h[0]) {
        AddressEnds(h[1..]);
        var n := AddressSpan(h[1..]);
        if n < |h[1..]| { assert h[1..][n + 1..] == h[n + 2..]; }
      }
    }
  }

  lemma AddressStarts(h: seq<byte>)
    ensures Ends(V6Start, h) <==> AddressSpan(h) > 0 && AddressText(h)
  {
    hide ParseHostChar, Ends, PortText, IsAddressChar, ZoneText, ZoneSpan;
    NothingEnds(V6Start);
    if h != [] {
      HostByte(h[0]);
      EndsStep(V6Start, h);
      NeverEnds(h[1..]);
      AddressEnds(h[1..]);
      var n := AddressSpan(h[1..]);
      if IsAddressChar(h[0]) && n < |h[1..]| { assert h[1..][n + 1..] == h[n + 2..]; }
    }
  }

  lemma HostStarts(h: seq<byte>)
    ensures Ends(HostStart, h) <==> HostPortText(h)
  {
    hide ParseHostChar, Ends, PortText, InName, AddressText, AddressSpan;
    NothingEnds(HostStart);
    if h != [] {
      HostByte(h[0]);
      Brackets(h[0]);
      EndsStep(HostStart, h);
      NeverEnds(h[1..]);
      AddressStarts(h[1..]);
      NameEnds(h[1..]);
      if InName(h[0]) { assert h[NameSpan(h)..] == h[1..][NameSpan(h[1..])..]; }
    }
  }

  lemma {:induction false} UserEnds(s: HostState, h: seq<byte>)
    requires s.UserinfoStart? || s.Userinfo?
    ensures Ends(s, h) <==> UserText(h)
    decreases |h|
  {
    hide ParseHostChar, Ends, InUserinfo, HostPortText;
    NothingEnds(s);
    if h != [] {
      HostByte(h[0]);
      Brackets(h[0]);
      EndsStep(s, h);
      NeverEnds(h[1..]);
      HostStarts(h[1..]);
      if InUserinfo(h[0]) {
        UserEnds(Userinfo, h[1..]);
        var n := UserSpan(h[1..]);
        if n < |h[1..]| { assert h[1..][n + 1..] == h[n + 2..]; }
      }
    }
  }

  /** The authority automaton ends well on exactly these texts: with user info if it starts there, else without. */
  lemma HostExact(h: seq<byte>)
    ensures HostEnds(HostRun(UserinfoStart, h)) <==> UserText(h)
    ensures HostEnds(HostRun(HostStart, h)) <==> HostPortText(h)
  {
    hide ParseHostChar, UserText, HostPortText;
    HostRunGo(UserinfoStart, h);
    HostRunGo(HostStart, h);
    UserEnds(UserinfoStart, h);
    HostStarts(h);
  }
}
