/** How the value scan reads comma-separated lists: the codings of Transfer-Encoding, the options of Connection. */
module Lists {
  import opened Bytes

  // ---- values

  /** One byte of a value. A value may be folded: the byte is then the space or tab that begins a line, and a line
      end, CR LF or LF alone, comes before it. */
  datatype Cell = Plain(ch: byte) | Folded(ch: byte, crlf: bool)

  const COMMA: Cell := Plain(',')

  /** White space, for a reader of the list: spaces, tabs and folds. */
  predicate Blank(c: Cell) { c.Folded? || c.ch == ' ' || c.ch == '\t' }

  function LoweredCells(e: seq<Cell>): seq<byte> { seq(|e|, i requires 0 <= i < |e| => Lower(e[i].ch)) }

  /** The elements between the commas. */
  function Split(v: seq<Cell>): (es: seq<seq<Cell>>)
    ensures es != []
  {
    if v == [] then [[]]
    else
      var es := Split(v[1..]);
      if v[0] == COMMA then [[]] + es else [[v[0]] + es[0]] + es[1..]
  }

  function Joined(es: seq<seq<Cell>>): seq<Cell> {
    if es == [] then [] else if |es| == 1 then es[0] else es[0] + [COMMA] + Joined(es[1..])
  }

  predicate NoCommas(es: seq<seq<Cell>>) { forall i :: 0 <= i < |es| ==> COMMA !in es[i] }

  lemma {:induction false} SplitJoined(v: seq<Cell>)
    ensures Joined(Split(v)) == v && NoCommas(Split(v))
    decreases |v|
  {
    if v != [] {
      SplitJoined(v[1..]);
      var es := Split(v[1..]);
      if v[0] == COMMA {
        assert ([[]] + es)[1..] == es;
        assert [] + [COMMA] + v[1..] == v;
      } else {
        assert ([[v[0]] + es[0]] + es[1..])[1..] == es[1..];
        assert v == [v[0]] + v[1..];
        if |es| > 1 { assert [v[0]] + (es[0] + [COMMA] + Joined(es[1..])) == ([v[0]] + es[0]) + [COMMA] + Joined(es[1..]); }
      }
    }
  }

  lemma {:induction false} JoinedSplit(es: seq<seq<Cell>>)
    requires es != [] && NoCommas(es)
    ensures Split(Joined(es)) == es
    decreases |es|, |es[0]|
  {
    var v := Joined(es);
    if es[0] != [] {
      var fs := [es[0][1..]] + es[1..];
      assert fs[1..] == es[1..];
      assert v[0] == es[0][0] && v[1..] == Joined(fs);
      JoinedSplit(fs);
      assert [v[0]] + es[0][1..] == es[0];
      assert [[v[0]] + es[0][1..]] + es[1..] == es;
    } else if |es| > 1 {
      assert v[0] == COMMA && v[1..] == Joined(es[1..]);
      JoinedSplit(es[1..]);
      assert [[]] + es[1..] == es;
    }
  }

  function TrimLeft(e: seq<Cell>): seq<Cell> { if e != [] && Blank(e[0]) then TrimLeft(e[1..]) else e }

  function TrimRight(e: seq<Cell>): seq<Cell> { if e != [] && Blank(e[|e| - 1]) then TrimRight(e[..|e| - 1]) else e }

  /** The element is the word, without regard to case and to white space around it. */
  predicate IsWord(e: seq<Cell>, word: string) { LoweredCells(TrimRight(TrimLeft(e))) == word }

  // ---- the scan

  datatype ListKind = Codings | Options

  /** Where the scan is: before an element, `k` bytes into a word, in another element, at the end of a word, or out
      of the list for good. */
  datatype Scan = Start | Matching(word: string, k: nat) | Other | Whole(word: string) | Lost

  /** The word that an element beginning with `c` is compared with. */
  function WordFor(kind: ListKind, c: byte): string {
    match kind
    case Codings => if c == 'c' then "chunked" else ""
    case Options => if c == 'k' then "keep-alive" else if c == 'c' then "close" else if c == 'u' then "upgrade" else ""
  }

  /** At the first byte of the value. */
  function FirstScan(kind: ListKind, ch: byte): Scan {
    var word := WordFor(kind, Lower(ch));
    if word != "" then Matching(word, 1) else Other
  }

  function Next(kind: ListKind, s: Scan, c: Cell): Scan {
    if c.Folded? then if s == Start then Start else Lost
    else match s
      case Start =>
        var word := WordFor(kind, Lower(c.ch));
        if word != "" then Matching(word, 1)
        else if IsToken(Lower(c.ch)) then Other
        else if c.ch == ' ' then Start
        else Lost
      case Matching(word, k) =>
        if Lower(c.ch) != CharAt(word, k) then Other
        else if k == |word| - 1 then Whole(word)
        else Matching(word, k + 1)
      case Other => if c.ch == ',' then Start else Other
      case Whole(word) =>
        if c.ch == ' ' then s else if c.ch == ',' && kind == Options then Start else Other
      case Lost => Lost
  }

  function ScanAll(kind: ListKind, s: Scan, e: seq<Cell>): Scan
    decreases |e|
  {
    if e == [] then s else ScanAll(kind, Next(kind, s, e[0]), e[1..])
  }

  /** The words that count: at the end of the value, and for options at each comma. */
  function Found(kind: ListKind, s: Scan, v: seq<Cell>): set<string>
    decreases |v|
  {
    if v == [] then if s.Whole? then {s.word} else {}
    else (if kind == Options && s.Whole? && v[0] == COMMA then {s.word} else {}) + Found(kind, Next(kind, s, v[0]), v[1..])
  }

  lemma {:induction false} ScanSnoc(kind: ListKind, s: Scan, e: seq<Cell>, c: Cell)
    ensures ScanAll(kind, s, e + [c]) == Next(kind, ScanAll(kind, s, e), c)
    decreases |e|
  {
    hide Next;
    if e == [] {
      assert e + [c] == [c] && [c][1..] == [];
    } else {
      assert (e + [c])[1..] == e[1..] + [c];
      ScanSnoc(kind, Next(kind, s, e[0]), e[1..], c);
    }
  }

  lemma {:induction false} FoundAppend(kind: ListKind, s: Scan, e: seq<Cell>, v: seq<Cell>)
    requires COMMA !in e
    ensures Found(kind, s, e + v) == Found(kind, ScanAll(kind, s, e), v)
    decreases |e|
  {
    hide Next;
    if e == [] {
      assert e + v == v;
    } else {
      assert (e + v)[1..] == e[1..] + v;
      FoundAppend(kind, Next(kind, s, e[0]), e[1..], v);
    }
  }

  // ---- one element

  predicate HasFold(e: seq<Cell>) { exists i :: 0 <= i < |e| && e[i].Folded? }

  predicate HasTab(e: seq<Cell>) { exists i :: 0 <= i < |e| && e[i] == Plain('\t') }

  /** White space that the scan skips before an element: spaces and folds. */
  function TrimLead(e: seq<Cell>): seq<Cell> {
    if e != [] && (e[0].Folded? || e[0].ch == ' ') then TrimLead(e[1..]) else e
  }

  /** A beginning of the word, short of its end. */
  predicate Beginning(s: seq<Cell>, word: string) { 0 < |s| < |word| && LoweredCells(s) == word[..|s|] }

  /** The word and spaces after it. */
  predicate WordAndSpaces(s: seq<Cell>, word: string) {
    |word| <= |s| && LoweredCells(s[..|word|]) == word && forall i :: |word| <= i < |s| ==> s[i] == Plain(' ')
  }

  /** What the scan makes of an element that begins the value, or comes after a comma. */
  function Outcome(kind: ListKind, first: bool, e: seq<Cell>): Scan {
    var s := if first then e else TrimLead(e);
    if s == [] then Start
    else if HasFold(s) || (!first && !IsToken(Lower(s[0].ch))) then Lost
    else
      var word := WordFor(kind, Lower(s[0].ch));
      if word != "" && Beginning(s, word) then Matching(word, |s|)
      else if word != "" && WordAndSpaces(s, word) then Whole(word)
      else Other
  }

  lemma {:induction false} TrimLeadSnoc(e: seq<Cell>, c: Cell)
    ensures TrimLead(e + [c]) ==
            if TrimLead(e) == [] then if c.Folded? || c.ch == ' ' then [] else [c] else TrimLead(e) + [c]
    decreases |e|
  {
    if e == [] {
      assert e + [c] == [c] && [c][1..] == [];
    } else {
      assert (e + [c])[1..] == e[1..] + [c];
      TrimLeadSnoc(e[1..], c);
    }
  }

  lemma WordForShape(kind: ListKind, c: byte)
    ensures var w := WordFor(kind, c); w != "" ==> |w| >= 5 && w[0] == c && IsToken(c) && ' ' !in w && ',' !in w && '\t' !in w
    ensures kind == Codings && WordFor(kind, c) != "" ==> WordFor(kind, c) == "chunked"
  {}

  lemma HasFoldSnoc(s: seq<Cell>, c: Cell)
    ensures HasFold(s + [c]) <==> HasFold(s) || c.Folded?
  {
    if HasFold(s) {
      var i :| 0 <= i < |s| && s[i].Folded?;
      assert (s + [c])[i].Folded?;
    }
    if c.Folded? { assert (s + [c])[|s|].Folded?; }
    if HasFold(s + [c]) && !c.Folded? {
      var i :| 0 <= i < |s + [c]| && (s + [c])[i].Folded?;
      assert s[i].Folded?;
    }
  }

  lemma LoweredSnoc(s: seq<Cell>, c: Cell)
    ensures LoweredCells(s + [c]) == LoweredCells(s) + [Lower(c.ch)]
  {}

  /** Another plain byte inside a word. */
  lemma BeginningSnoc(s: seq<Cell>, c: Cell, word: string)
    requires s != [] && c.Plain?
    ensures Beginning(s + [c], word) <==> Beginning(s, word) && |s| + 1 < |word| && Lower(c.ch) == word[|s|]
    ensures WordAndSpaces(s + [c], word) <==>
              (Beginning(s, word) && |s| + 1 == |word| && Lower(c.ch) == word[|s|]) ||
              (WordAndSpaces(s, word) && c.ch == ' ')
  {
    hide Lower;
    LoweredSnoc(s, c);
    var t := s + [c];
    if |s| < |word| { assert word[..|s| + 1] == word[..|s|] + [word[|s|]]; }
    assert LoweredCells(t)[..|s|] == LoweredCells(s);
    if |word| <= |s| {
      assert t[..|word|] == s[..|word|];
      assert forall i :: 0 <= i < |s| ==> t[i] == s[i];
      assert t[|s|] == c;
    } else if |t| == |word| {
      assert t[..|word|] == t && word[..|word|] == word;
    }
  }

  /** An element of one byte. */
  lemma OneByte(kind: ListKind, c: Cell)
    requires c.Plain? && c != COMMA
    ensures Outcome(kind, true, [c]) == FirstScan(kind, c.ch)
    ensures Outcome(kind, false, [c]) == Next(kind, Start, c)
  {
    hide Lower, IsToken;
    var w := WordFor(kind, Lower(c.ch));
    WordForShape(kind, Lower(c.ch));
    LowerSpace(c.ch);
    assert LoweredCells([c]) == [Lower(c.ch)];
    assert w != "" ==> w[..1] == [w[0]];
    assert !HasFold([c]);
    if c.ch == ' ' {
      assert [c][1..] == [];
      assert TrimLead([c]) == TrimLead([]);
    } else {
      assert TrimLead([c]) == [c];
    }
  }

  lemma LowerSpace(ch: byte)
    ensures ch == ' ' || ch == ',' || ch == '\t' ==> !IsToken(Lower(ch))
    ensures ch == ' ' || ch == ',' ==> Lower(ch) == ch
  {}

  lemma OutcomeSnoc(kind: ListKind, first: bool, e: seq<Cell>, c: Cell)
    requires c != COMMA && (first ==> e != [])
    ensures Outcome(kind, first, e + [c]) == Next(kind, Outcome(kind, first, e), c)
  {
    hide Lower, IsToken, TrimLead, HasFold, Beginning, WordAndSpaces, LoweredCells, WordFor;
    TrimLeadSnoc(e, c);
    var s := if first then e else TrimLead(e);
    if s == [] {
      if c.Plain? && c.ch != ' ' { OneAfterLead(kind, e, c); } else { BlankLead(kind, c); }
    } else {
      HasFoldSnoc(s, c);
      var w := WordFor(kind, Lower(s[0].ch));
      WordForShape(kind, Lower(s[0].ch));
      if c.Plain? {
        BeginningSnoc(s, c, w);
        AtWord(s, w);
      }
    }
  }

  /** What `Next` compares inside a word. */
  lemma AtWord(s: seq<Cell>, w: string)
    ensures Beginning(s, w) ==> |s| < |w| && CharAt(w, |s|) == w[|s|]
    ensures Beginning(s, w) ==> !WordAndSpaces(s, w)
  {}

  lemma BlankLead(kind: ListKind, c: Cell)
    requires c.Folded? || c.ch == ' '
    ensures Next(kind, Start, c) == Start
  {
    hide IsToken;
    LowerSpace(c.ch);
  }

  lemma OneAfterLead(kind: ListKind, e: seq<Cell>, c: Cell)
    requires TrimLead(e) == [] && c.Plain? && c.ch != ' ' && c != COMMA
    ensures Outcome(kind, false, e) == Start && Outcome(kind, false, e + [c]) == Next(kind, Start, c)
  {
    hide Next;
    TrimLeadSnoc(e, c);
    OneByte(kind, c);
    assert TrimLead([c]) == [c];
  }

  /** An element scanned from where it begins. */
  lemma {:induction false} ScanElement(kind: ListKind, e: seq<Cell>)
    requires COMMA !in e
    ensures ScanAll(kind, Start, e) == Outcome(kind, false, e)
    decreases |e|
  {
    hide Next, Outcome;
    if e == [] {
      EmptyOutcome(kind);
    } else {
      var d, c := e[..|e| - 1], e[|e| - 1];
      assert e == d + [c];
      ScanElement(kind, d);
      ScanSnoc(kind, Start, d, c);
      OutcomeSnoc(kind, false, d, c);
    }
  }

  lemma EmptyOutcome(kind: ListKind)
    ensures Outcome(kind, false, []) == Start
  {}

  lemma {:induction false} ScanFirst(kind: ListKind, e: seq<Cell>)
    requires COMMA !in e && e != [] && e[0].Plain?
    ensures ScanAll(kind, FirstScan(kind, e[0].ch), e[1..]) == Outcome(kind, true, e)
    decreases |e|
  {
    hide Next, Outcome;
    if |e| == 1 {
      assert e == [e[0]] && e[1..] == [];
      OneByte(kind, e[0]);
    } else {
      var d, c := e[..|e| - 1], e[|e| - 1];
      assert e == d + [c] && e[1..] == d[1..] + [c];
      ScanFirst(kind, d);
      ScanSnoc(kind, FirstScan(kind, e[0].ch), d[1..], c);
      OutcomeSnoc(kind, true, d, c);
    }
  }

  // ---- the list

  /** The words that count, element by element. A coding, a beginning of a word, or nothing at the start of the
      value swallows the comma after it, and with it the next element; one that is lost loses all after it. */
  function Words(kind: ListKind, es: seq<seq<Cell>>, first: bool): set<string>
    requires es != []
    decreases |es|
  {
    var o := Outcome(kind, first, es[0]);
    if |es| == 1 then if o.Whole? then {o.word} else {}
    else match o
      case Start => if first then Swallowed(kind, es[1..]) else {}
      case Matching(_, _) => Swallowed(kind, es[1..])
      case Other => Words(kind, es[1..], false)
      case Whole(word) => if kind == Codings then Swallowed(kind, es[1..]) else {word} + Words(kind, es[1..], false)
      case Lost => {}
  }

  /** The first of these elements is not heard. */
  function Swallowed(kind: ListKind, es: seq<seq<Cell>>): set<string>
    requires es != []
    decreases |es|
  {
    if |es| == 1 || HasFold(es[0]) then {} else Words(kind, es[1..], false)
  }

  lemma {:induction false} FoundLost(kind: ListKind, v: seq<Cell>)
    ensures Found(kind, Lost, v) == {}
    decreases |v|
  {
    if v != [] { FoundLost(kind, v[1..]); }
  }

  lemma {:induction false} ScanOther(kind: ListKind, e: seq<Cell>)
    requires COMMA !in e
    ensures ScanAll(kind, Other, e) == if HasFold(e) then Lost else Other
    decreases |e|
  {
    if e != [] {
      var d, c := e[..|e| - 1], e[|e| - 1];
      assert e == d + [c];
      ScanOther(kind, d);
      ScanSnoc(kind, Other, d, c);
      HasFoldSnoc(d, c);
    }
  }

  /** The words that count after a comma read in state `s`. */
  function AfterComma(kind: ListKind, s: Scan, v: seq<Cell>): set<string> {
    if s.Other? then Found(kind, Start, v)
    else if s.Matching? then Found(kind, Other, v)
    else if s.Whole? then if kind == Options then {s.word} + Found(kind, Start, v) else Found(kind, Other, v)
    else {}
  }

  lemma FoundComma(kind: ListKind, s: Scan, v: seq<Cell>)
    requires s.Matching? ==> CharAt(s.word, s.k) != ','
    ensures Found(kind, s, [COMMA] + v) == AfterComma(kind, s, v)
  {
    var w := [COMMA] + v;
    assert w[0] == COMMA && w[1..] == v;
    LowerSpace(',');
    FoundLost(kind, v);
    assert !IsToken(',') && WordFor(kind, ',') == "";
  }

  lemma FoundEnd(kind: ListKind, s: Scan)
    ensures Found(kind, s, []) == if s.Whole? then {s.word} else {}
  {}

  lemma {:induction false} FoundSwallowed(kind: ListKind, es: seq<seq<Cell>>)
    requires es != [] && NoCommas(es)
    ensures Found(kind, Other, Joined(es)) == Swallowed(kind, es)
    decreases |es|, 0
  {
    hide Next, Outcome, HasFold;
    ScanOther(kind, es[0]);
    FoundElement(kind, Other, es);
    if |es| > 1 {
      FoundComma(kind, ScanAll(kind, Other, es[0]), Joined(es[1..]));
      FoundList(kind, es[1..]);
    } else {
      FoundEnd(kind, ScanAll(kind, Other, es[0]));
    }
  }

  /** The first element scanned. */
  lemma FoundElement(kind: ListKind, s: Scan, es: seq<seq<Cell>>)
    requires es != [] && NoCommas(es)
    ensures Found(kind, s, Joined(es)) ==
            Found(kind, ScanAll(kind, s, es[0]), if |es| == 1 then [] else [COMMA] + Joined(es[1..]))
  {
    hide Next;
    if |es| == 1 {
      FoundAppend(kind, s, es[0], []);
      assert es[0] + [] == es[0];
    } else {
      FoundAppend(kind, s, es[0], [COMMA] + Joined(es[1..]));
      assert es[0] + ([COMMA] + Joined(es[1..])) == es[0] + [COMMA] + Joined(es[1..]);
    }
  }

  /** What the comma after an element leads to. */
  lemma AfterOutcome(kind: ListKind, first: bool, e: seq<Cell>, v: seq<Cell>)
    ensures Found(kind, Outcome(kind, first, e), [COMMA] + v) == AfterComma(kind, Outcome(kind, first, e), v)
  {
    hide Next, HasFold, WordAndSpaces, Found;
    var o, s := Outcome(kind, first, e), if first then e else TrimLead(e);
    if o.Matching? { WordForShape(kind, Lower(s[0].ch)); }
    FoundComma(kind, o, v);
  }

  lemma {:induction false} FoundList(kind: ListKind, es: seq<seq<Cell>>)
    requires es != [] && NoCommas(es)
    ensures Found(kind, Start, Joined(es)) == Words(kind, es, false)
    decreases |es|, 1
  {
    hide Next, Outcome, HasFold, Found;
    ScanElement(kind, es[0]);
    FoundElement(kind, Start, es);
    if |es| > 1 {
      AfterOutcome(kind, false, es[0], Joined(es[1..]));
      FoundList(kind, es[1..]);
      FoundSwallowed(kind, es[1..]);
    } else {
      FoundEnd(kind, ScanAll(kind, Start, es[0]));
    }
  }

  /** The scan of a whole value finds exactly these words. */
  lemma FoundWords(kind: ListKind, v: seq<Cell>)
    requires v != [] && v[0].Plain?
    ensures Found(kind, FirstScan(kind, v[0].ch), v[1..]) == Words(kind, Split(v), true)
  {
    hide Next, Outcome, HasFold, Found, FirstScan;
    SplitJoined(v);
    var es := Split(v);
    FirstElement(kind, v);
    if es[0] == [] {
      FoundSwallowed(kind, es[1..]);
    } else {
      var s := FirstScan(kind, v[0].ch);
      ScanFirst(kind, es[0]);
      var fs := [es[0][1..]] + es[1..];
      assert fs[1..] == es[1..];
      RestJoined(v);
      FoundElement(kind, s, fs);
      if |es| > 1 {
        AfterOutcome(kind, true, es[0], Joined(es[1..]));
        FoundList(kind, es[1..]);
        FoundSwallowed(kind, es[1..]);
        NotStart(kind, es[0]);
      } else {
        FoundEnd(kind, ScanAll(kind, s, fs[0]));
      }
    }
  }

  lemma NotStart(kind: ListKind, e: seq<Cell>)
    requires e != []
    ensures Outcome(kind, true, e) != Start
    ensures Outcome(kind, true, []) == Start
  {}

  /** The first element of a value, and the value after its first byte. */
  lemma FirstElement(kind: ListKind, v: seq<Cell>)
    requires v != [] && v[0].Plain?
    ensures var es := Split(v);
            if v[0] == COMMA then
              es[0] == [] && |es| > 1 && v[1..] == Joined(es[1..]) && FirstScan(kind, ',') == Other &&
              Outcome(kind, true, []) == Start
            else es[0] != [] && es[0][0] == v[0] && Outcome(kind, true, es[0]) != Start
  {
    SplitJoined(v[1..]);
    LowerSpace(',');
  }

  lemma RestJoined(v: seq<Cell>)
    requires v != [] && v[0] != COMMA
    ensures var es := Split(v);
            es[0] != [] && v[1..] == Joined([es[0][1..]] + es[1..]) && NoCommas([es[0][1..]] + es[1..])
  {
    SplitJoined(v[1..]);
    var es, ds := Split(v), Split(v[1..]);
    assert es[0] == [v[0]] + ds[0] && es[1..] == ds[1..] && es[0][1..] == ds[0];
    assert [ds[0]] + ds[1..] == ds;
  }

  // ---- exactly which words count

  predicate IsKeyword(kind: ListKind, word: string) {
    match kind
    case Codings => word == "chunked"
    case Options => word == "keep-alive" || word == "close" || word == "upgrade"
  }

  /** What is left of an element where its scan begins. */
  function Body(first: bool, e: seq<Cell>): seq<Cell> { if first then e else TrimLead(e) }

  /** Only spaces and folds before the word, and only spaces after it. */
  predicate Clean(first: bool, e: seq<Cell>) { !HasFold(Body(first, e)) && !HasTab(Body(first, e)) }

  /** The comma after the element ends it: no fold inside it and, but at the start of the value, a token byte at its
      beginning. */
  predicate Ends(first: bool, e: seq<Cell>) {
    var s := Body(first, e);
    !HasFold(s) && (first || (s != [] && IsToken(Lower(s[0].ch))))
  }

  /** The comma after the element is taken for part of it: the element is nothing, a beginning of a word, or, among
      codings, a word. */
  predicate Swallows(kind: ListKind, first: bool, e: seq<Cell>) {
    var s := Body(first, e);
    s == [] ||
    var word := WordFor(kind, Lower(s[0].ch));
    word != "" && (Beginning(s, word) || (kind == Codings && WordAndSpaces(s, word)))
  }

  /** The scan takes element `i` for an element of the list. */
  predicate Heard(kind: ListKind, es: seq<seq<Cell>>, first: bool, i: nat)
    requires i < |es|
    decreases |es|
  {
    i == 0 ||
    (Ends(first, es[0]) &&
     if Swallows(kind, first, es[0]) then i >= 2 && !HasFold(es[1]) && Heard(kind, es[2..], false, i - 2)
     else Heard(kind, es[1..], false, i - 1))
  }

  /** Element `i` is the word and counts: every option that is heard, but only the last coding. */
  predicate Counts(kind: ListKind, es: seq<seq<Cell>>, first: bool, i: nat, word: string) {
    i < |es| && (kind == Codings ==> i == |es| - 1) &&
    IsWord(es[i], word) && Clean(first && i == 0, es[i]) && Heard(kind, es, first, i)
  }

  lemma {:induction false} TrimLeftLead(e: seq<Cell>)
    ensures TrimLead(e) != [] && !Blank(TrimLead(e)[0]) ==> TrimLeft(e) == TrimLead(e)
    ensures TrimLead(e) == [] ==> TrimLeft(e) == []
    ensures TrimLead(e) != [] && Blank(TrimLead(e)[0]) ==> TrimLead(e)[0] == Plain('\t')
    decreases |e|
  {
    if e != [] && (e[0].Folded? || e[0].ch == ' ') { TrimLeftLead(e[1..]); }
  }

  lemma {:induction false} TrimRightIs(s: seq<Cell>, n: nat)
    requires n <= |s| && (forall i :: n <= i < |s| ==> Blank(s[i])) && (n > 0 ==> !Blank(s[n - 1]))
    ensures TrimRight(s) == s[..n]
    decreases |s|
  {
    if |s| > n {
      TrimRightIs(s[..|s| - 1], n);
      assert s[..|s| - 1][..n] == s[..n];
    } else {
      assert s[..n] == s;
    }
  }

  lemma {:induction false} TrimRightShape(s: seq<Cell>)
    ensures |TrimRight(s)| <= |s| && TrimRight(s) == s[..|TrimRight(s)|]
    ensures forall i :: |TrimRight(s)| <= i < |s| ==> Blank(s[i])
    decreases |s|
  {
    if s != [] && Blank(s[|s| - 1]) {
      TrimRightShape(s[..|s| - 1]);
      assert forall i :: 0 <= i < |s| - 1 ==> s[..|s| - 1][i] == s[i];
    }
  }

  lemma Keywords(kind: ListKind, word: string)
    requires IsKeyword(kind, word)
    ensures |word| >= 5 && forall i :: 0 <= i < |word| ==> ('a' <= word[i] <= 'z' || word[i] == '-')
    ensures WordFor(kind, word[0]) == word && IsToken(word[0])
  {}

  lemma WordForKeyword(kind: ListKind, c: byte)
    ensures WordFor(kind, c) != "" ==> IsKeyword(kind, WordFor(kind, c)) && WordFor(kind, c)[0] == c
  {}

  /** A letter is no white space. */
  lemma LetterCell(c: Cell)
    requires 'a' <= Lower(c.ch) <= 'z' || Lower(c.ch) == '-'
    ensures c.Plain? ==> !Blank(c)
    ensures c != Plain('\t')
  {}

  /** The scan ends an element as the word if and only if it is the word, with no other white space than that. */
  lemma WordExact(kind: ListKind, first: bool, e: seq<Cell>, word: string)
    requires IsKeyword(kind, word) && (first ==> e == [] || !Blank(e[0]))
    ensures Outcome(kind, first, e) == Whole(word) <==> IsWord(e, word) && Clean(first, e)
  {
    hide Lower, IsToken, WordFor;
    Keywords(kind, word);
    var s := Body(first, e);
    BodyTrimmed(first, e);
    if s != [] { WordForKeyword(kind, Lower(s[0].ch)); }
    if Outcome(kind, first, e) == Whole(word) {
      SpacedWord(s, word);
    }
    if IsWord(e, word) && Clean(first, e) {
      WordSpaced(s, word);
    }
  }

  lemma BodyTrimmed(first: bool, e: seq<Cell>)
    requires first ==> e == [] || !Blank(e[0])
    ensures var s := Body(first, e);
            (s == [] ==> TrimLeft(e) == []) && (s != [] && s[0] != Plain('\t') ==> TrimLeft(e) == s && !Blank(s[0]))
  {
    TrimLeftLead(e);
  }

  lemma SpacedWord(s: seq<Cell>, word: string)
    requires WordAndSpaces(s, word) && !HasFold(s) && |word| >= 5
    requires forall i :: 0 <= i < |word| ==> ('a' <= word[i] <= 'z' || word[i] == '-')
    ensures LoweredCells(TrimRight(s)) == word && s[0] != Plain('\t') && !HasTab(s)
  {
    hide Lower;
    var n := |word|;
    forall i | 0 <= i < n ensures s[i] != Plain('\t') && !Blank(s[i]) {
      assert LoweredCells(s[..n])[i] == word[i];
      LetterCell(s[i]);
      assert !s[i].Folded?;
    }
    TrimRightIs(s, n);
  }

  lemma WordSpaced(s: seq<Cell>, word: string)
    requires LoweredCells(TrimRight(s)) == word && !HasFold(s) && !HasTab(s) && |word| >= 5
    ensures WordAndSpaces(s, word) && s != [] && !Beginning(s, word) && Lower(s[0].ch) == word[0]
  {
    hide Lower;
    TrimRightShape(s);
    var n := |TrimRight(s)|;
    assert n == |word|;
    forall i | n <= i < |s| ensures s[i] == Plain(' ') {
      assert Blank(s[i]) && !s[i].Folded? && s[i] != Plain('\t');
    }
    assert LoweredCells(s[..n])[0] == Lower(s[0].ch);
  }

  lemma OutcomeCases(kind: ListKind, first: bool, e: seq<Cell>)
    ensures var o := Outcome(kind, first, e);
            if !Ends(first, e) then o.Lost? || (o.Start? && !first)
            else if Swallows(kind, first, e) then (o.Start? && first) || o.Matching? || (o.Whole? && kind == Codings)
            else o.Other? || (o.Whole? && kind == Options)
  {
    hide Lower, IsToken, HasFold, WordFor, TrimLead;
    NothingFolded();
  }

  lemma NothingFolded()
    ensures !HasFold([])
  {}

  lemma CountsLater(kind: ListKind, es: seq<seq<Cell>>, first: bool, i: nat, word: string)
    requires |es| > 1 && i > 0
    ensures Counts(kind, es, first, i, word) <==>
              Ends(first, es[0]) &&
              if Swallows(kind, first, es[0]) then i >= 2 && |es| > 2 && !HasFold(es[1]) && Counts(kind, es[2..], false, i - 2, word)
              else Counts(kind, es[1..], false, i - 1, word)
  {
    hide IsWord, Clean, Ends, Swallows, HasFold;
  }

  /** A word of the list counts if and only if some element is that word and counts. */
  lemma {:induction false} WordsExact(kind: ListKind, es: seq<seq<Cell>>, first: bool, word: string)
    requires IsKeyword(kind, word) && es != [] && (first ==> es[0] == [] || !Blank(es[0][0]))
    ensures word in Words(kind, es, first) <==> exists i: nat :: Counts(kind, es, first, i, word)
    decreases |es|
  {
    hide Outcome, IsWord, Clean, Ends, Swallows, HasFold, Heard;
    WordExact(kind, first, es[0], word);
    OutcomeCases(kind, first, es[0]);
    CountsFirst(kind, es, first, word);
    if |es| > 1 {
      forall i: nat | i > 0
        ensures Counts(kind, es, first, i, word) <==>
                  Ends(first, es[0]) &&
                  if Swallows(kind, first, es[0])
                  then i >= 2 && |es| > 2 && !HasFold(es[1]) && Counts(kind, es[2..], false, i - 2, word)
                  else Counts(kind, es[1..], false, i - 1, word)
      {
        CountsLater(kind, es, first, i, word);
      }
      if !Ends(first, es[0]) {
      } else if Swallows(kind, first, es[0]) {
        if |es| > 2 && !HasFold(es[1]) {
          WordsExact(kind, es[2..], false, word);
          ShiftCounts(kind, es, first, word, 2);
        }
      } else {
        WordsExact(kind, es[1..], false, word);
        ShiftCounts(kind, es, first, word, 1);
      }
    }
  }

  lemma CountsFirst(kind: ListKind, es: seq<seq<Cell>>, first: bool, word: string)
    requires es != []
    ensures Counts(kind, es, first, 0, word) <==>
              (kind == Codings ==> |es| == 1) && IsWord(es[0], word) && Clean(first, es[0])
    ensures |es| == 1 ==> forall i: nat :: i > 0 ==> !Counts(kind, es, first, i, word)
  {
    hide IsWord, Clean;
  }

  lemma ShiftCounts(kind: ListKind, es: seq<seq<Cell>>, first: bool, word: string, n: nat)
    requires 0 < n < |es|
    requires forall i: nat :: i > 0 ==>
               (Counts(kind, es, first, i, word) <==> i >= n && Counts(kind, es[n..], false, i - n, word))
    ensures (exists i: nat :: Counts(kind, es, first, i, word)) <==>
              Counts(kind, es, first, 0, word) || exists i: nat :: Counts(kind, es[n..], false, i, word)
  {
    hide Counts;
    if exists i: nat :: Counts(kind, es, first, i, word) {
      var i: nat :| Counts(kind, es, first, i, word);
      if i > 0 { assert Counts(kind, es[n..], false, i - n, word); }
    }
    if exists i: nat :: Counts(kind, es[n..], false, i, word) {
      var i: nat :| Counts(kind, es[n..], false, i, word);
      assert Counts(kind, es[n..], false, i + n - n, word);
      assert Counts(kind, es, first, i + n, word);
    }
  }

  /** No other word ever counts. */
  lemma {:induction false} WordsAreKeywords(kind: ListKind, es: seq<seq<Cell>>, first: bool)
    requires es != []
    ensures forall w :: w in Words(kind, es, first) ==> IsKeyword(kind, w)
    decreases |es|
  {
    hide Outcome, IsKeyword;
    OutcomeKeyword(kind, first, es[0]);
    if |es| > 1 { WordsAreKeywords(kind, es[1..], false); }
    if |es| > 2 { WordsAreKeywords(kind, es[2..], false); }
  }

  lemma OutcomeKeyword(kind: ListKind, first: bool, e: seq<Cell>)
    ensures Outcome(kind, first, e).Whole? ==> IsKeyword(kind, Outcome(kind, first, e).word)
  {
    var s := Body(first, e);
    if s != [] { WordForKeyword(kind, Lower(s[0].ch)); }
  }
}
