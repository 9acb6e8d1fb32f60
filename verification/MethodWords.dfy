/** The method matcher: it accepts exactly the 34 method names, and knows which one it read. */
module MethodWords {
  import opened Bytes
  import opened Trace
  import opened ParserState
  import opened Transitions
  import opened ByteMachine
  import opened Skips

  /** The guess once `k` bytes of the name of `m` are read. */
  function GuessFor(m: Method, k: nat): Method {
    match m
    case PUT => if k >= 2 then PUT else POST
    case PATCH => if k >= 2 then PATCH else POST
    case PROPFIND => if k >= 2 then PROPFIND else POST
    case PROPPATCH => if k >= 5 then PROPPATCH else if k >= 2 then PROPFIND else POST
    case PURGE => if k >= 3 then PURGE else if k >= 2 then PUT else POST
    case CHECKOUT => if k >= 2 then CHECKOUT else CONNECT
    case COPY => if k >= 3 then COPY else CONNECT
    case MOVE => if k >= 2 then MOVE else MKCOL
    case MERGE => if k >= 2 then MERGE else MKCOL
    case MSEARCH => if k >= 2 then MSEARCH else MKCOL
    case MKACTIVITY => if k >= 3 then MKACTIVITY else MKCOL
    case MKCALENDAR => if k >= 4 then MKCALENDAR else MKCOL
    case SEARCH => if k >= 2 then SEARCH else SUBSCRIBE
    case SOURCE => if k >= 2 then SOURCE else SUBSCRIBE
    case REBIND => if k >= 3 then REBIND else REPORT
    case LINK => if k >= 2 then LINK else LOCK
    case UNSUBSCRIBE => if k >= 3 then UNSUBSCRIBE else UNLOCK
    case UNBIND => if k >= 3 then UNBIND else UNLOCK
    case UNLINK => if k >= 4 then UNLINK else UNLOCK
    case _ => m
  }

  /** Byte `k` of the name of `m` leads from one guess to the next. */
  predicate Leads(m: Method, k: nat) {
    var name := MethodName(m);
    1 <= k < |name| ==>
      var g := GuessFor(m, k);
      ('A' <= name[k] <= 'Z' || name[k] == '-') &&
      if name[k] == CharAt(MethodName(g), k) then GuessFor(m, k + 1) == g
      else BetterGuess(g, k, name[k]) == ThisMethod(GuessFor(m, k + 1))
  }

  /** Methods guessed from their first letter. */
  predicate GuessedFirst(m: Method) { GuessFor(m, 1) == m }

  lemma GuessLeadsFirst(m: Method, k: nat)
    requires GuessedFirst(m)
    ensures Leads(m, k)
  {}

  predicate GuessedFromP(m: Method) { m.PUT? || m.PATCH? || m.PROPFIND? || m.PROPPATCH? || m.PURGE? }

  predicate GuessedFromSU(m: Method) { m.SEARCH? || m.SOURCE? || m.UNSUBSCRIBE? || m.UNBIND? || m.UNLINK? }

  predicate GuessedFromCM(m: Method) {
    m.CHECKOUT? || m.COPY? || m.MOVE? || m.MERGE? || m.MSEARCH? || m.MKACTIVITY? || m.MKCALENDAR?
  }

  lemma GuessLeadsP(m: Method, k: nat)
    requires GuessedFromP(m)
    ensures Leads(m, k)
  {}

  lemma GuessLeadsCM(m: Method, k: nat)
    requires GuessedFromCM(m)
    ensures Leads(m, k)
  {}

  lemma GuessLeadsSU(m: Method, k: nat)
    requires GuessedFromSU(m)
    ensures Leads(m, k)
  {}

  lemma GuessLeadsOther(m: Method, k: nat)
    requires !GuessedFirst(m) && !GuessedFromP(m) && !GuessedFromCM(m) && !GuessedFromSU(m)
    ensures Leads(m, k)
  {}

  lemma GuessLeads(m: Method, k: nat)
    ensures Leads(m, k)
  {
    hide Leads;
    if GuessedFirst(m) { GuessLeadsFirst(m, k); }
    else if GuessedFromP(m) { GuessLeadsP(m, k); }
    else if GuessedFromCM(m) { GuessLeadsCM(m, k); }
    else if GuessedFromSU(m) { GuessLeadsSU(m, k); }
    else { GuessLeadsOther(m, k); }
  }

  lemma GuessStarts(m: Method)
    ensures MethodName(m) != "" && MethodName(m)[0] as int < 256 && MethodName(m)[0] != CR && MethodName(m)[0] != LF
    ensures FirstGuess(MethodName(m)[0]) == ThisMethod(GuessFor(m, 1))
    ensures GuessFor(m, |MethodName(m)|) == m
  {}

  lemma FirstSpells(ch: byte)
    ensures FirstGuess(ch).ThisMethod? ==> MethodName(FirstGuess(ch).m)[..1] == [ch]
  {}

  /** A better guess agrees with what was read, the new byte included. */
  predicate Agrees(m: Method, i: nat, ch: byte) {
    match BetterGuess(m, i, ch)
    case NoMethod => true
    case ThisMethod(g) =>
      i < |MethodName(m)| && i < |MethodName(g)| && MethodName(g)[..i + 1] == MethodName(m)[..i] + [ch]
  }

  lemma BetterSpells1(m: Method, i: nat, ch: byte)
    requires m.POST? || m.PUT? || m.PROPFIND? || m.CONNECT?
    ensures Agrees(m, i, ch)
  {
    match BetterGuess(m, i, ch)
    case NoMethod =>
    case ThisMethod(g) =>
      assert MethodName(g)[..i] == MethodName(m)[..i];
      assert MethodName(g)[i] == ch;
  }

  lemma BetterSpells2(m: Method, i: nat, ch: byte)
    requires m.MKCOL? || m.SUBSCRIBE?
    ensures Agrees(m, i, ch)
  {
    match BetterGuess(m, i, ch)
    case NoMethod =>
    case ThisMethod(g) =>
      assert MethodName(g)[..i] == MethodName(m)[..i];
      assert MethodName(g)[i] == ch;
  }

  lemma BetterSpells3(m: Method, i: nat, ch: byte)
    requires m.REPORT? || m.LOCK? || m.UNLOCK?
    ensures Agrees(m, i, ch)
  {
    match BetterGuess(m, i, ch)
    case NoMethod =>
    case ThisMethod(g) =>
      assert MethodName(g)[..i] == MethodName(m)[..i];
      assert MethodName(g)[i] == ch;
  }

  lemma BetterSpells(m: Method, i: nat, ch: byte)
    ensures Agrees(m, i, ch)
  {
    match m
    case POST => BetterSpells1(m, i, ch);
    case PUT => BetterSpells1(m, i, ch);
    case PROPFIND => BetterSpells1(m, i, ch);
    case CONNECT => BetterSpells1(m, i, ch);
    case MKCOL => BetterSpells2(m, i, ch);
    case SUBSCRIBE => BetterSpells2(m, i, ch);
    case REPORT => BetterSpells3(m, i, ch);
    case LOCK => BetterSpells3(m, i, ch);
    case UNLOCK => BetterSpells3(m, i, ch);
    case _ =>
  }

  /** The bytes of the method read so far are spelled by the current guess. */
  predicate Spelled(f: Fields, read: seq<byte>) {
    f.state == MethodWord(ReqMethod) && f.index == |read| >= 1 &&
    |read| <= |MethodName(f.verb)| && MethodName(f.verb)[..|read|] == read
  }

  /** The fields after the method word and its space. */
  function AfterWord(f: Fields, m: Method, n: nat): Fields {
    f.(state := MethodWord(ReqSpacesBeforeUrl), verb := m, index := n + 1)
  }

  // The names, in three parts to keep the proofs small.

  predicate EarlyName(m: Method) {
    m.DELETE? || m.GET? || m.HEAD? || m.POST? || m.PUT? || m.CONNECT? || m.OPTIONS? || m.TRACE? || m.COPY? ||
    m.LOCK? || m.MKCOL? || m.MOVE?
  }

  predicate MiddleName(m: Method) {
    m.PROPFIND? || m.PROPPATCH? || m.SEARCH? || m.UNLOCK? || m.BIND? || m.REBIND? || m.UNBIND? || m.ACL? ||
    m.REPORT? || m.MKACTIVITY? || m.CHECKOUT?
  }

  predicate Lettered(w: string) {
    w != "" && forall i :: 0 <= i < |w| ==> 'A' <= w[i] <= 'Z' || w[i] == '-'
  }

  lemma EarlyLetters(m: Method)
    requires EarlyName(m)
    ensures Lettered(MethodName(m))
  {}

  lemma MiddleLetters(m: Method)
    requires MiddleName(m)
    ensures Lettered(MethodName(m))
  {}

  lemma LateLetters(m: Method)
    requires !EarlyName(m) && !MiddleName(m)
    ensures Lettered(MethodName(m))
  {}

  /** A method's name is made of capital letters and hyphens. */
  lemma NameLetters(m: Method)
    ensures Lettered(MethodName(m))
  {
    if EarlyName(m) { EarlyLetters(m); } else if MiddleName(m) { MiddleLetters(m); } else { LateLetters(m); }
  }

  lemma LettersOnly(m: Method, i: nat, ch: byte)
    requires i < |MethodName(m)| && ch == ' '
    ensures CharAt(MethodName(m), i) != ch && CharAt(MethodName(m), i) != '\0'
  {
    hide MethodName;
    NameLetters(m);
  }

  lemma NoGuess(m: Method, i: nat, ch: byte)
    requires ch == ' '
    ensures BetterGuess(m, i, ch) == NoMethod
  {}

  lemma NamesNotEmpty(m: Method)
    ensures 1 <= |MethodName(m)| < 32
  {}

  /** A name still to be read whose guess is the current one has the guess that follows after the next byte. */
  predicate Heading(verb: Method, read: seq<byte>, all: seq<byte>, m: Method) {
    all <= MethodName(m) && verb == GuessFor(m, |read|)
  }

  /** Those names have the guess `next` after `all`. */
  predicate Followed(verb: Method, read: seq<byte>, all: seq<byte>, next: Method) {
    forall n :: Heading(verb, read, all, n) ==> next == GuessFor(n, |all|)
  }

  /** The guess for every name that `word` begins. */
  predicate GuessForAll(word: seq<byte>, verb: Method) {
    forall n :: word <= MethodName(n) ==> verb == GuessFor(n, |word|)
  }

  /** While a method word is read, the bytes read are spelled by the guess; it is the guess for every name they
      begin, and the run fails if and only if they begin none. */
  lemma {:induction false} SpelledOn(cfg: Config, f: Fields, log: seq<Event>, read: seq<byte>, rest: seq<byte>)
    requires Spelled(f, read) && ' ' !in rest && f.nread + |rest| <= cfg.maxHeader
    ensures var r, all := Run(cfg, Machine(f, log), rest), read + rest;
            if r.Ran? then
              Spelled(r.m.f, all) && Followed(f.verb, read, all, r.m.f.verb) &&
              r.m == Machine(f.(verb := r.m.f.verb, index := |all|, nread := f.nread + |rest|), log)
            else r.Failed? && r.errno == InvalidMethod && forall n :: !Heading(f.verb, read, all, n)
    decreases |rest|
  {
    hide Run, MethodName, BetterGuess, GuessFor;
    var m := Machine(f, log);
    if rest == [] {
      RunNothing(cfg, m);
      assert read + rest == read && f.(verb := f.verb, index := |read|, nread := f.nread) == f;
    } else {
      var ch, all := rest[0], read + rest;
      var f1 := f.(nread := f.nread + 1);
      assert all == read + [ch] + rest[1..];
      forall n | Heading(f.verb, read, all, n)
        ensures Leads(n, |read|) && MethodName(n)[|read|] == ch && |read| < |MethodName(n)|
      {
        GuessLeads(n, |read|);
        assert MethodName(n)[|read|] == all[|read|];
      }
      BetterSpells(f.verb, f.index, ch);
      if ch != '\0' && ch == CharAt(MethodName(f.verb), f.index) {
        var g := f1.(index := f.index + 1);
        QuietStep(cfg, m, rest, g);
        assert forall n :: Heading(f.verb, read, all, n) ==> Heading(g.verb, read + [ch], all, n);
        SpelledOn(cfg, g, log, read + [ch], rest[1..]);
      } else if ch != '\0' && ('A' <= ch <= 'Z' || ch == '-') && BetterGuess(f.verb, f.index, ch).ThisMethod? {
        var g := f1.(verb := BetterGuess(f.verb, f.index, ch).m, index := f.index + 1);
        QuietStep(cfg, m, rest, g);
        assert forall n :: Heading(f.verb, read, all, n) ==> Heading(g.verb, read + [ch], all, n);
        SpelledOn(cfg, g, log, read + [ch], rest[1..]);
      } else {
        FailStep(cfg, m, rest, InvalidMethod);
      }
    }
  }

  /** From the first byte of a message on, as long as no space comes: the run goes on if and only if the bytes
      read begin the name of some method, and they begin that of the guess. */
  lemma PrefixKept(cfg: Config, f: Fields, log: seq<Event>, word: seq<byte>)
    requires f.state == Between(StartReq) && f.nread + |word| <= cfg.maxHeader
    requires word != [] && word[0] != CR && word[0] != LF && ' ' !in word
    ensures var r := Run(cfg, Machine(f, log), word);
            if r.Ran? then
              word <= MethodName(r.m.f.verb) && GuessForAll(word, r.m.f.verb) &&
              r.m == Machine(Fresh(f, MethodWord(ReqMethod)).(verb := r.m.f.verb, index := |word|,
                                                              nread := f.nread + |word|), Push(log, MessageBegin))
            else r.Failed? && r.errno == InvalidMethod && forall n :: !(word <= MethodName(n))
  {
    hide Run, MethodName, BetterGuess, GuessFor, FirstGuess, Push;
    assert word == [word[0]] + word[1..];
    forall n | word <= MethodName(n) ensures FirstGuess(word[0]) == ThisMethod(GuessFor(n, 1)) {
      GuessStarts(n);
      assert MethodName(n)[0] == word[0];
    }
    match FirstGuess(word[0])
    case NoMethod => FailStep(cfg, Machine(f, log), word, InvalidMethod);
    case ThisMethod(guess) =>
      var g := Fresh(f.(nread := f.nread + 1), MethodWord(ReqMethod)).(verb := guess, index := 1);
      NotifyStep(cfg, Machine(f, log), word, g, MessageBegin);
      FirstSpells(word[0]);
      NamesNotEmpty(guess);
      SpelledOn(cfg, g, Push(log, MessageBegin), [word[0]], word[1..]);
      assert forall n :: word <= MethodName(n) <==> Heading(guess, [word[0]], word, n);
  }

  /** A word followed by a space is accepted as a method if and only if it is one of the 34 names, and the
      method stored is then the one it names. */
  lemma MethodExact(cfg: Config, f: Fields, log: seq<Event>, word: seq<byte>)
    requires f.state == Between(StartReq) && f.nread + |word| + 1 <= cfg.maxHeader
    requires word != [] && word[0] != CR && word[0] != LF && ' ' !in word
    ensures match Run(cfg, Machine(f, log), word + [' '])
            case Ran(m) =>
              word == MethodName(m.f.verb) &&
              m == Machine(AfterWord(Fresh(f, f.state), m.f.verb, |word|).(nread := f.nread + |word| + 1),
                           Push(log, MessageBegin))
            case Stopped(_, _) => false
            case Failed(e, _, _) => e == InvalidMethod && forall m :: word != MethodName(m)
  {
    hide Run, MethodName, BetterGuess, GuessFor, Push;
    var space: seq<byte> := [' '];
    PrefixKept(cfg, f, log, word);
    RunAppend(cfg, Machine(f, log), word, space);
    match Run(cfg, Machine(f, log), word)
    case Ran(m) =>
      assert space[1..] == [];
      if |word| == |MethodName(m.f.verb)| {
        var g := AfterWord(m.f, m.f.verb, |word|).(nread := m.f.nread + 1);
        QuietStep(cfg, m, space, g);
        RunNothing(cfg, Machine(g, m.log));
      } else {
        LettersOnly(m.f.verb, m.f.index, ' ');
        NoGuess(m.f.verb, m.f.index, ' ');
        FailStep(cfg, m, space, InvalidMethod);
        forall n | word == MethodName(n) ensures false { GuessStarts(n); }
      }
    case Failed(_, _, _) =>
  }

  /** The length of a method's name. */
  function NameLength(m: Method): nat {
    match m
    case GET => 3 case PUT => 3 case ACL => 3
    case HEAD => 4 case POST => 4 case COPY => 4 case LOCK => 4 case MOVE => 4 case BIND => 4 case LINK => 4
    case TRACE => 5 case MKCOL => 5 case MERGE => 5 case PATCH => 5 case PURGE => 5
    case CONNECT => 7 case OPTIONS => 7
    case PROPFIND => 8 case CHECKOUT => 8 case MSEARCH => 8
    case PROPPATCH => 9 case SUBSCRIBE => 9
    case MKACTIVITY => 10 case MKCALENDAR => 10
    case UNSUBSCRIBE => 11
    case _ => 6
  }

  lemma NameLengths(m: Method)
    ensures |MethodName(m)| == NameLength(m)
  {}

  lemma SameShort(m: Method, n: Method)
    requires MethodName(m) == MethodName(n) && NameLength(m) == NameLength(n) <= 4
    ensures m == n
  {
    assert MethodName(m)[0] == MethodName(n)[0] && MethodName(m)[1] == MethodName(n)[1];
  }

  lemma SameSix(m: Method, n: Method)
    requires MethodName(m) == MethodName(n) && NameLength(m) == NameLength(n) == 6
    ensures m == n
  {
    assert MethodName(m)[0] == MethodName(n)[0] && MethodName(m)[1] == MethodName(n)[1] &&
           MethodName(m)[2] == MethodName(n)[2] && MethodName(m)[3] == MethodName(n)[3];
  }

  lemma SameLong(m: Method, n: Method)
    requires MethodName(m) == MethodName(n) && NameLength(m) == NameLength(n) && (NameLength(m) == 5 || NameLength(m) > 6)
    ensures m == n
  {
    assert MethodName(m)[0] == MethodName(n)[0] && MethodName(m)[1] == MethodName(n)[1] &&
           MethodName(m)[2] == MethodName(n)[2];
  }

  /** No two methods share a name. */
  lemma SameName(m: Method, n: Method)
    requires MethodName(m) == MethodName(n)
    ensures m == n
  {
    hide MethodName;
    NameLengths(m);
    NameLengths(n);
    if NameLength(m) <= 4 { SameShort(m, n); } else if NameLength(m) == 6 { SameSix(m, n); } else { SameLong(m, n); }
  }

  predicate IsMethodName(w: string) {
    w == "GET" || w == "PUT" || w == "ACL" || w == "HEAD" || w == "POST" || w == "COPY" || w == "LOCK" ||
    w == "MOVE" || w == "BIND" || w == "LINK" || w == "TRACE" || w == "MKCOL" || w == "MERGE" || w == "PATCH" ||
    w == "PURGE" || w == "DELETE" || w == "SEARCH" || w == "UNLOCK" || w == "REBIND" || w == "UNBIND" ||
    w == "REPORT" || w == "NOTIFY" || w == "UNLINK" || w == "SOURCE" || w == "CONNECT" || w == "OPTIONS" ||
    w == "PROPFIND" || w == "CHECKOUT" || w == "M-SEARCH" || w == "PROPPATCH" || w == "SUBSCRIBE" ||
    w == "MKACTIVITY" || w == "MKCALENDAR" || w == "UNSUBSCRIBE"
  }

  /** The names are these 34, one for each method. */
  lemma NamesExact(m: Method, n: Method)
    ensures IsMethodName(MethodName(m)) && (m != n ==> MethodName(m) != MethodName(n))
  {
    if MethodName(m) == MethodName(n) { SameName(m, n); }
  }
}
