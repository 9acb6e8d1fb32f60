/** Texts made of tagged segments, and automata that read them. */
module Segments {
  import opened Bytes
  import opened Urls

  type Tag = Option<UrlField>

  /** A stretch of text in one component, or between components. */
  datatype Segment = Segment(tag: Tag, text: seq<byte>)

  function Text(segs: seq<Segment>): seq<byte> {
    if segs == [] then [] else segs[0].text + Text(segs[1..])
  }

  /** `l`, `n` times. */
  function Fill(l: Tag, n: nat): (r: seq<Tag>)
    ensures |r| == n && forall i :: 0 <= i < n ==> r[i] == l
  {
    seq(n, _ => l)
  }

  /** The tag of each byte of the text. */
  function Marks(segs: seq<Segment>): seq<Tag> {
    if segs == [] then [] else Fill(segs[0].tag, |segs[0].text|) + Marks(segs[1..])
  }

  lemma {:induction false} MarksLength(segs: seq<Segment>)
    ensures |Marks(segs)| == |Text(segs)|
  {
    if segs != [] { MarksLength(segs[1..]); }
  }

  lemma {:induction false} Joined(a: seq<Segment>, b: seq<Segment>)
    ensures Text(a + b) == Text(a) + Text(b) && Marks(a + b) == Marks(a) + Marks(b)
  {
    if a == [] {
      assert a + b == b;
    } else {
      assert (a + b)[1..] == a[1..] + b;
      Joined(a[1..], b);
    }
  }

  lemma TextTwo(g: Segment, h: Segment)
    ensures Text([g, h]) == g.text + h.text
  {
    assert [g, h][1..] == [h] && [h][1..] == [];
    assert Text([h]) == h.text + Text([]);
  }

  lemma TextThree(g: Segment, h: Segment, i: Segment)
    ensures Text([g, h, i]) == g.text + h.text + i.text
  {
    assert [g, h, i][1..] == [h, i];
    TextTwo(h, i);
  }

  lemma {:induction false} NoMark(segs: seq<Segment>, l: Tag)
    requires forall j :: 0 <= j < |segs| ==> segs[j].tag != l || segs[j].text == []
    ensures l !in Marks(segs)
  {
    if segs != [] { NoMark(segs[1..], l); }
  }

  /** The positions marked `l` are exactly `lo <= i < hi`. */
  ghost predicate Only(marks: seq<Tag>, l: Tag, lo: nat, hi: nat) {
    lo <= hi <= |marks| && forall i :: 0 <= i < |marks| ==> (marks[i] == l <==> lo <= i < hi)
  }

  /** Where segment `k` begins. */
  function Start(segs: seq<Segment>, k: nat): nat
    requires k < |segs|
  {
    |Text(segs[..k])|
  }

  predicate Single(segs: seq<Segment>, k: nat)
    requires k < |segs|
  {
    forall j :: 0 <= j < |segs| && j != k ==> segs[j].tag != segs[k].tag
  }

  /** A segment whose tag no other has is where its tag is. */
  lemma SegmentAt(segs: seq<Segment>, k: nat)
    requires k < |segs| && Single(segs, k)
    ensures var lo, hi := Start(segs, k), Start(segs, k) + |segs[k].text|;
            |Marks(segs)| == |Text(segs)| && hi <= |Text(segs)| &&
            Only(Marks(segs), segs[k].tag, lo, hi) && Text(segs)[lo..hi] == segs[k].text
  {
    hide Text, Marks;
    var l, a, b := segs[k].tag, segs[..k], segs[k + 1..];
    assert segs == a + ([segs[k]] + b);
    Joined(a, [segs[k]] + b);
    Joined([segs[k]], b);
    TextOne(segs[k]);
    NoMark(a, l);
    NoMark(b, l);
    MarksLength(a);
    MarksLength(b);
    Between(Marks(a), l, |segs[k].text|, Marks(b));
  }

  lemma TextOne(g: Segment)
    ensures Text([g]) == g.text && Marks([g]) == Fill(g.tag, |g.text|)
  {
    assert Text([g]) == g.text + Text([]) && Marks([g]) == Fill(g.tag, |g.text|) + Marks([]);
  }

  lemma Between(a: seq<Tag>, l: Tag, n: nat, b: seq<Tag>)
    requires l !in a && l !in b
    ensures Only(a + (Fill(l, n) + b), l, |a|, |a| + n)
  {
    var s := a + (Fill(l, n) + b);
    forall i | 0 <= i < |s| ensures s[i] == l <==> |a| <= i < |a| + n {
      if i < |a| { assert s[i] == a[i]; }
      if i >= |a| + n { assert s[i] == b[i - |a| - n]; }
    }
  }

  // ---- automata

  /** The automaton's state after `u`. */
  function Go<S>(step: (S, byte) -> S, s: S, u: seq<byte>): S
    decreases |u|
  {
    if u == [] then s else Go(step, step(s, u[0]), u[1..])
  }

  /** Every byte of `u` takes the automaton to a state tagged `l`. */
  predicate Shows<S>(step: (S, byte) -> S, tag: S -> Tag, s: S, u: seq<byte>, l: Tag)
    decreases |u|
  {
    u == [] || (tag(step(s, u[0])) == l && Shows(step, tag, step(s, u[0]), u[1..], l))
  }

  /** The automaton labels the text as its segments are tagged. */
  predicate Follows<S>(step: (S, byte) -> S, tag: S -> Tag, s: S, segs: seq<Segment>) {
    segs == [] ||
    (Shows(step, tag, s, segs[0].text, segs[0].tag) && Follows(step, tag, Go(step, s, segs[0].text), segs[1..]))
  }

  lemma {:induction false} GoAppend<S>(step: (S, byte) -> S, s: S, a: seq<byte>, b: seq<byte>)
    ensures Go(step, s, a + b) == Go(step, Go(step, s, a), b)
    decreases |a|
  {
    if a == [] {
      assert a + b == b;
    } else {
      assert (a + b)[1..] == a[1..] + b;
      GoAppend(step, step(s, a[0]), a[1..], b);
    }
  }

  lemma {:induction false} ShowsAppend<S>(step: (S, byte) -> S, tag: S -> Tag, s: S, a: seq<byte>, b: seq<byte>, l: Tag)
    ensures Shows(step, tag, s, a + b, l) <==> Shows(step, tag, s, a, l) && Shows(step, tag, Go(step, s, a), b, l)
    decreases |a|
  {
    if a == [] {
      assert a + b == b;
    } else {
      assert (a + b)[1..] == a[1..] + b;
      ShowsAppend(step, tag, step(s, a[0]), a[1..], b, l);
    }
  }

  lemma {:induction false} ShowsAt<S>(step: (S, byte) -> S, tag: S -> Tag, s: S, u: seq<byte>, l: Tag, i: nat)
    requires Shows(step, tag, s, u, l) && i < |u|
    ensures tag(Go(step, s, u[..i + 1])) == l
    decreases |u|
  {
    if i == 0 {
      assert u[..1][1..] == [];
    } else {
      assert u[..i + 1][1..] == u[1..][..i];
      ShowsAt(step, tag, step(s, u[0]), u[1..], l, i - 1);
    }
  }

  /** Each byte's state has the tag of its segment. */
  lemma {:induction false} TagAt<S>(step: (S, byte) -> S, tag: S -> Tag, s: S, segs: seq<Segment>, i: nat)
    requires Follows(step, tag, s, segs) && i < |Text(segs)|
    ensures |Marks(segs)| == |Text(segs)| && tag(Go(step, s, Text(segs)[..i + 1])) == Marks(segs)[i]
    decreases |segs|
  {
    MarksLength(segs);
    MarksLength(segs[1..]);
    var t, rest := segs[0].text, Text(segs[1..]);
    if i < |t| {
      assert Text(segs)[..i + 1] == t[..i + 1];
      ShowsAt(step, tag, s, t, segs[0].tag, i);
    } else {
      assert Text(segs)[..i + 1] == t + rest[..i - |t| + 1];
      GoAppend(step, s, t, rest[..i - |t| + 1]);
      TagAt(step, tag, Go(step, s, t), segs[1..], i - |t|);
    }
  }

  /** A stretch that leads to `t` and stays there. */
  lemma {:induction false} Stays<S>(step: (S, byte) -> S, tag: S -> Tag, s: S, u: seq<byte>, t: S)
    requires u != [] ==> step(s, u[0]) == t
    requires forall i :: 1 <= i < |u| ==> step(t, u[i]) == t
    ensures Shows(step, tag, s, u, tag(t)) && Go(step, s, u) == if u == [] then s else t
    decreases |u|
  {
    if u != [] {
      if |u| > 1 { assert u[1..][0] == u[1]; }
      forall i | 1 <= i < |u[1..]| ensures step(t, u[1..][i]) == t { assert u[1..][i] == u[i + 1]; }
      Stays(step, tag, step(s, u[0]), u[1..], t);
    }
  }

  lemma {:induction false} FollowsAppend<S>(step: (S, byte) -> S, tag: S -> Tag, s: S, a: seq<Segment>, b: seq<Segment>)
    requires Follows(step, tag, s, a) && Follows(step, tag, Go(step, s, Text(a)), b)
    ensures Follows(step, tag, s, a + b) && Go(step, s, Text(a + b)) == Go(step, Go(step, s, Text(a)), Text(b))
    decreases |a|
  {
    if a == [] {
      assert a + b == b;
    } else {
      assert (a + b)[1..] == a[1..] + b;
      var t := Go(step, s, a[0].text);
      GoAppend(step, s, a[0].text, Text(a[1..]));
      GoAppend(step, s, a[0].text, Text(a[1..] + b));
      FollowsAppend(step, tag, t, a[1..], b);
    }
  }

  lemma FollowsOne<S>(step: (S, byte) -> S, tag: S -> Tag, s: S, g: Segment)
    requires Shows(step, tag, s, g.text, g.tag)
    ensures Follows(step, tag, s, [g]) && Go(step, s, Text([g])) == Go(step, s, g.text)
  {
    assert [g][1..] == [];
    assert Text([g]) == g.text + Text([]) == g.text;
  }

  lemma FollowsTwo<S>(step: (S, byte) -> S, tag: S -> Tag, s: S, g: Segment, h: Segment)
    requires Shows(step, tag, s, g.text, g.tag) && Shows(step, tag, Go(step, s, g.text), h.text, h.tag)
    ensures Follows(step, tag, s, [g, h]) && Go(step, s, Text([g, h])) == Go(step, Go(step, s, g.text), h.text)
  {
    FollowsOne(step, tag, s, g);
    FollowsOne(step, tag, Go(step, s, g.text), h);
    FollowsAppend(step, tag, s, [g], [h]);
    assert [g] + [h] == [g, h];
  }
}
