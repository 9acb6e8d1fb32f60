/** The shapes of a top-down splay: the tree still to be searched, and the two trees split off from it. */
module SplayShapes {

  /** A node: the fields of `SPLAY_ENTRY`. `cmp` compares keys. */
  class SplayNode {
    const key: int
    var left: SplayNode?
    var right: SplayNode?

    constructor (key: int)
      ensures this.key == key && left == null && right == null
    {
      this.key := key;
      left, right := null, null;
    }

    function Kid(s: Side): SplayNode?
      reads this
    {
      if s == L then left else right
    }
  }

  datatype Side = L | R

  function Other(s: Side): Side { if s == L then R else L }

  datatype Tree = Leaf | Branch(left: Tree, node: SplayNode, right: Tree)

  /** A tree split off on its way: its nodes from the last one linked up to the first, each with what hangs on its
      outer side. The place inside is still open. */
  datatype Spine = Nil | Link(up: Spine, node: SplayNode, other: Tree)

  function Make(s: Side, t: Tree, n: SplayNode, o: Tree): Tree {
    if s == L then Branch(t, n, o) else Branch(o, n, t)
  }

  function Near(s: Side, t: Tree): Tree
    requires t.Branch?
  {
    if s == L then t.left else t.right
  }

  lemma MakeAgain(s: Side, t: Tree)
    requires t.Branch?
    ensures t == Make(s, Near(s, t), t.node, Near(Other(s), t))
  {}

  /** The tree split off on side `Other(s)`, with `t` in its open place. */
  function Fill(s: Side, p: Spine, t: Tree): Tree {
    match p
    case Nil => t
    case Link(up, n, o) => Fill(s, up, Make(s, t, n, o))
  }

  function RootOf(t: Tree): SplayNode? { if t.Leaf? then null else t.node }

  function Nodes(t: Tree): set<SplayNode> {
    match t
    case Leaf => {}
    case Branch(l, n, r) => Nodes(l) + {n} + Nodes(r)
  }

  function Held(p: Spine): set<SplayNode> {
    match p
    case Nil => {}
    case Link(up, n, o) => Held(up) + {n} + Nodes(o)
  }

  function Inorder(t: Tree): seq<SplayNode> {
    match t
    case Leaf => []
    case Branch(l, n, r) => Inorder(l) + [n] + Inorder(r)
  }

  /** The nodes of a spine in order. */
  function Outside(s: Side, p: Spine): seq<SplayNode> {
    match p
    case Nil => []
    case Link(up, n, o) => if s == L then [n] + Inorder(o) + Outside(s, up) else Outside(s, up) + Inorder(o) + [n]
  }

  /** The whole order: the smaller nodes split off, those still to be searched, the larger ones split off. */
  function Whole(smaller: Spine, t: Tree, larger: Spine): seq<SplayNode> {
    Outside(R, smaller) + Inorder(t) + Outside(L, larger)
  }

  lemma {:induction false} FillInorder(s: Side, p: Spine, t: Tree)
    ensures Inorder(Fill(s, p, t)) == if s == L then Inorder(t) + Outside(s, p) else Outside(s, p) + Inorder(t)
    decreases p
  {
    match p
    case Nil =>
    case Link(up, n, o) =>
      FillInorder(s, up, Make(s, t, n, o));
      if s == L {
        assert (Inorder(t) + [n] + Inorder(o)) + Outside(s, up) == Inorder(t) + ([n] + Inorder(o) + Outside(s, up));
      } else {
        assert Outside(s, up) + (Inorder(o) + [n] + Inorder(t)) == (Outside(s, up) + Inorder(o) + [n]) + Inorder(t);
      }
  }

  lemma {:induction false} FillNodes(s: Side, p: Spine, t: Tree)
    ensures Nodes(Fill(s, p, t)) == Nodes(t) + Held(p)
    decreases p
  {
    match p
    case Nil =>
    case Link(up, n, o) => FillNodes(s, up, Make(s, t, n, o));
  }

  lemma {:induction false} InorderNode(t: Tree, x: SplayNode)
    ensures x in Nodes(t) <==> x in Inorder(t)
    decreases t
  {
    match t
    case Leaf =>
    case Branch(l, n, r) => InorderNode(l, x); InorderNode(r, x);
  }

  // ---- order

  predicate Rising(s: seq<SplayNode>) { forall i, j :: 0 <= i < j < |s| ==> s[i].key < s[j].key }

  predicate AllBelow(s: seq<SplayNode>, key: int) { forall i :: 0 <= i < |s| ==> s[i].key < key }

  predicate AllAbove(s: seq<SplayNode>, key: int) { forall i :: 0 <= i < |s| ==> key < s[i].key }

  predicate Has(s: seq<SplayNode>, key: int) { exists i :: 0 <= i < |s| && s[i].key == key }

  predicate Neat(t: Tree) {
    match t
    case Leaf => true
    case Branch(l, n, r) => n !in Nodes(l) && n !in Nodes(r) && Nodes(l) !! Nodes(r) && Neat(l) && Neat(r)
  }

  predicate NeatSpine(p: Spine) {
    match p
    case Nil => true
    case Link(up, n, o) => n !in Nodes(o) && n !in Held(up) && Nodes(o) !! Held(up) && Neat(o) && NeatSpine(up)
  }

  lemma RisingParts(a: seq<SplayNode>, n: SplayNode, b: seq<SplayNode>)
    requires Rising(a + [n] + b)
    ensures Rising(a) && Rising(b) && AllBelow(a, n.key) && AllAbove(b, n.key)
    ensures n !in a && n !in b
    ensures forall i, j :: 0 <= i < |a| && 0 <= j < |b| ==> a[i].key < b[j].key
  {
    var s := a + [n] + b;
    assert s[|a|] == n;
    assert forall i :: 0 <= i < |a| ==> s[i] == a[i];
    assert forall j :: 0 <= j < |b| ==> s[|a| + 1 + j] == b[j];
    forall i, j | 0 <= i < j < |a| ensures a[i].key < a[j].key { assert s[i] == a[i] && s[j] == a[j]; }
    forall i | 0 <= i < |a| ensures a[i].key < n.key { assert s[i] == a[i]; }
    forall i, j | 0 <= i < |a| && 0 <= j < |b| ensures a[i].key < b[j].key { assert s[i] == a[i]; }
  }

  lemma {:induction false} RisingNeat(t: Tree)
    requires Rising(Inorder(t))
    ensures Neat(t)
    decreases t
  {
    hide Rising;
    match t
    case Leaf =>
    case Branch(l, n, r) =>
      RisingParts(Inorder(l), n, Inorder(r));
      InorderNode(l, n);
      InorderNode(r, n);
      forall x | x in Nodes(l) ensures x !in Nodes(r) {
        InorderNode(l, x);
        InorderNode(r, x);
      }
      assert Nodes(l) * Nodes(r) == {};
      RisingNeat(l);
      RisingNeat(r);
  }

  lemma MakeNeat(s: Side, t: Tree, n: SplayNode, o: Tree)
    ensures Nodes(Make(s, t, n, o)) == Nodes(t) + {n} + Nodes(o)
    ensures Neat(Make(s, t, n, o)) <==>
              n !in Nodes(t) && n !in Nodes(o) && Nodes(t) !! Nodes(o) && Neat(t) && Neat(o)
    ensures RootOf(Make(s, t, n, o)) == n
  {}

  lemma RootInside(t: Tree)
    ensures t.Branch? ==> RootOf(t) in Nodes(t)
  {}

  /** The root is as near to `key` as can be: all to its left is smaller, all to its right is larger. */
  predicate SplitAt(t: Tree, key: int) {
    t.Branch? ==> AllBelow(Inorder(t.left), key) && AllAbove(Inorder(t.right), key)
  }

  /** A splayed tree shows at its root whether the key is there; if not, the root is next to where it would be. */
  lemma SplitFinds(t: Tree, key: int)
    requires SplitAt(t, key) && t.Branch?
    ensures Has(Inorder(t), key) <==> t.node.key == key
    ensures t.node.key > key ==> AllBelow(Inorder(t)[..|Inorder(t.left)|], key) && Inorder(t)[|Inorder(t.left)|] == t.node
    ensures t.node.key < key ==> AllAbove(Inorder(t)[|Inorder(t.left)| + 1..], key) && Inorder(t)[|Inorder(t.left)|] == t.node
  {
    var s, k := Inorder(t), |Inorder(t.left)|;
    assert s[..k] == Inorder(t.left) && s[k] == t.node && s[k + 1..] == Inorder(t.right);
    forall i | 0 <= i < |s| && i != k ensures s[i].key != key {
      if i > k { assert s[i] == s[k + 1..][i - k - 1]; } else { assert s[i] == s[..k][i]; }
    }
  }

  /** Linking the root to a spine keeps the whole order. */
  lemma LinkOrder(s: Side, p: Spine, a: Tree, x: SplayNode, o: Tree, q: Spine)
    ensures s == L ==> Whole(q, a, Link(p, x, o)) == Whole(q, Make(s, a, x, o), p)
    ensures s == R ==> Whole(Link(p, x, o), a, q) == Whole(p, Make(s, a, x, o), q)
  {
    if s == L {
      Shift(Outside(R, q), Inorder(a), x, Inorder(o), Outside(L, p));
    } else {
      Shift(Outside(R, p), Inorder(o), x, Inorder(a), Outside(L, q));
    }
  }

  lemma Shift(a: seq<SplayNode>, b: seq<SplayNode>, x: SplayNode, c: seq<SplayNode>, e: seq<SplayNode>)
    ensures a + (b + [x] + c) + e == a + b + ([x] + c + e) == (a + b + [x]) + c + e
    ensures a + (b + [x] + c) + e == (a + b) + [x] + (c + e)
  {}

  lemma RotateOrder(s: Side, b: Tree, y: SplayNode, c: Tree, x: SplayNode, o: Tree)
    ensures Inorder(Make(s, Make(s, b, y, c), x, o)) == Inorder(Make(s, b, y, Make(s, c, x, o)))
  {
    if s == L {
      assert (Inorder(b) + [y] + Inorder(c)) + [x] + Inorder(o) == Inorder(b) + [y] + (Inorder(c) + [x] + Inorder(o));
    } else {
      assert Inorder(o) + [x] + (Inorder(c) + [y] + Inorder(b)) == (Inorder(o) + [x] + Inorder(c)) + [y] + Inorder(b);
    }
  }

  /** The three trees put together. */
  function Assembled(smaller: Spine, t: Tree, larger: Spine): Tree
    requires t.Branch?
  {
    Branch(Fill(R, smaller, t.left), t.node, Fill(L, larger, t.right))
  }

  lemma AssembledOrder(smaller: Spine, t: Tree, larger: Spine)
    requires t.Branch?
    ensures Inorder(Assembled(smaller, t, larger)) == Whole(smaller, t, larger)
  {
    FillInorder(R, smaller, t.left);
    FillInorder(L, larger, t.right);
    Shift(Outside(R, smaller), Inorder(t.left), t.node, Inorder(t.right), Outside(L, larger));
  }

  /** The spines lie on their sides of the key. */
  predicate Bounds(smaller: Spine, larger: Spine, key: int) {
    AllBelow(Outside(R, smaller), key) && AllAbove(Outside(L, larger), key)
  }

  lemma WholeRising(smaller: Spine, t: Tree, larger: Spine)
    requires Rising(Whole(smaller, t, larger))
    ensures Rising(Inorder(t))
  {
    var a, s := Outside(R, smaller), Inorder(t);
    var w := a + s + Outside(L, larger);
    forall i, j | 0 <= i < j < |s| ensures s[i].key < s[j].key { assert w[|a| + i] == s[i] && w[|a| + j] == s[j]; }
  }

  /** A root beyond the key goes to the spine of that side. */
  lemma LinkBounds(s: Side, p: Spine, a: Tree, x: SplayNode, o: Tree, q: Spine, key: int)
    requires Rising(Inorder(Make(s, a, x, o)))
    requires if s == L then Bounds(q, p, key) && key < x.key else Bounds(p, q, key) && x.key < key
    ensures if s == L then Bounds(q, Link(p, x, o), key) else Bounds(Link(p, x, o), q, key)
  {
    hide Rising;
    if s == L { RisingParts(Inorder(a), x, Inorder(o)); } else { RisingParts(Inorder(o), x, Inorder(a)); }
  }

  /** Where the search ends, the key is as near as can be. */
  lemma EndSplit(smaller: Spine, t: Tree, larger: Spine, key: int)
    requires t.Branch? && Rising(Inorder(t)) && Bounds(smaller, larger, key)
    requires t.node.key == key || (key < t.node.key && t.left.Leaf?) || (t.node.key < key && t.right.Leaf?)
    ensures SplitAt(Assembled(smaller, t, larger), key)
  {
    hide Rising;
    RisingParts(Inorder(t.left), t.node, Inorder(t.right));
    FillInorder(R, smaller, t.left);
    FillInorder(L, larger, t.right);
  }

  // ---- the same from either side

  /** The key lies beyond `k` on side `s`. */
  predicate Beyond(s: Side, key: int, k: int) { if s == L then key < k else k < key }

  /** `p` takes what is passed over on the way to side `s`, `q` the rest. */
  function SideWhole(s: Side, p: Spine, t: Tree, q: Spine): seq<SplayNode> {
    if s == L then Whole(q, t, p) else Whole(p, t, q)
  }

  predicate SideBounds(s: Side, p: Spine, q: Spine, key: int) {
    if s == L then Bounds(q, p, key) else Bounds(p, q, key)
  }

  lemma LinkStep(s: Side, p: Spine, a: Tree, x: SplayNode, o: Tree, q: Spine, key: int)
    requires Rising(SideWhole(s, p, Make(s, a, x, o), q)) && SideBounds(s, p, q, key) && Beyond(s, key, x.key)
    ensures SideWhole(s, Link(p, x, o), a, q) == SideWhole(s, p, Make(s, a, x, o), q)
    ensures SideBounds(s, Link(p, x, o), q, key)
    ensures Nodes(a) + Held(Link(p, x, o)) == Nodes(Make(s, a, x, o)) + Held(p)
    ensures |Inorder(a)| < |Inorder(Make(s, a, x, o))|
  {
    hide Rising, Whole, Bounds;
    LinkOrder(s, p, a, x, o, q);
    if s == L { WholeRising(q, Make(s, a, x, o), p); } else { WholeRising(p, Make(s, a, x, o), q); }
    LinkBounds(s, p, a, x, o, q, key);
  }

  lemma RotateStep(s: Side, p: Spine, b: Tree, y: SplayNode, c: Tree, x: SplayNode, o: Tree, q: Spine)
    ensures var t, u := Make(s, Make(s, b, y, c), x, o), Make(s, b, y, Make(s, c, x, o));
            SideWhole(s, p, u, q) == SideWhole(s, p, t, q) && Nodes(u) == Nodes(t) && |Inorder(u)| == |Inorder(t)|
  {
    hide Make;
    RotateOrder(s, b, y, c, x, o);
    MakeNeat(s, Make(s, b, y, c), x, o);
    MakeNeat(s, b, y, c);
    MakeNeat(s, b, y, Make(s, c, x, o));
    MakeNeat(s, c, x, o);
  }

  lemma MakeKids(s: Side, t: Tree, n: SplayNode, o: Tree)
    ensures Make(s, t, n, o).Branch? && Make(s, t, n, o).node == n
    ensures Near(s, Make(s, t, n, o)) == t && Near(Other(s), Make(s, t, n, o)) == o
  {}

  // ---- the set

  /** `b` is `a` with `x` put in. */
  predicate With(a: seq<SplayNode>, x: SplayNode, b: seq<SplayNode>) {
    exists i :: 0 <= i <= |a| && b == a[..i] + [x] + a[i..]
  }

  /** `b` is `a` without the node of that key. */
  predicate WithoutKey(a: seq<SplayNode>, key: int, b: seq<SplayNode>) {
    exists i :: 0 <= i < |a| && a[i].key == key && b == a[..i] + a[i + 1..]
  }

  /** A key that is not there, beside the root: the new root. */
  function NewRoot(t: Tree, n: SplayNode): Tree {
    if t.Leaf? then Branch(Leaf, n, Leaf)
    else if n.key < t.node.key then Branch(t.left, n, Branch(Leaf, t.node, t.right))
    else Branch(Branch(t.left, t.node, Leaf), n, t.right)
  }

  lemma NewRootOrder(t: Tree, n: SplayNode)
    requires Rising(Inorder(t)) && SplitAt(t, n.key) && (t.Branch? ==> t.node.key != n.key)
    ensures With(Inorder(t), n, Inorder(NewRoot(t, n))) && Rising(Inorder(NewRoot(t, n))) && !Has(Inorder(t), n.key)
    ensures n !in Nodes(t)
  {
    if t.Leaf? {
      assert Inorder(NewRoot(t, n)) == Inorder(t)[..0] + [n] + Inorder(t)[0..];
    } else {
      SplitFinds(t, n.key);
      InorderNode(t, n);
      var a, b := Inorder(t.left), Inorder(t.right);
      RisingParts(a, t.node, b);
      PutIn(a, t.node, b, n);
      assert Inorder(Branch(Leaf, t.node, t.right)) == [] + [t.node] + b;
      assert Inorder(Branch(t.left, t.node, Leaf)) == a + [t.node] + [];
    }
  }

  lemma PutIn(a: seq<SplayNode>, x: SplayNode, b: seq<SplayNode>, n: SplayNode)
    requires Rising(a + [x] + b) && AllBelow(a, n.key) && AllAbove(b, n.key) && x.key != n.key
    ensures if n.key < x.key then With(a + [x] + b, n, a + [n] + ([] + [x] + b)) && Rising(a + [n] + ([] + [x] + b))
            else With(a + [x] + b, n, (a + [x] + []) + [n] + b) && Rising((a + [x] + []) + [n] + b)
  {
    RisingParts(a, x, b);
    var s := a + [x] + b;
    if n.key < x.key {
      assert a + [n] + ([] + [x] + b) == s[..|a|] + [n] + s[|a|..];
      JoinRising(a, n, [x] + b);
      assert [] + [x] + b == [x] + b;
    } else {
      assert (a + [x] + []) + [n] + b == s[..|a| + 1] + [n] + s[|a| + 1..];
      JoinRising(a + [x], n, b);
      assert a + [x] + [] == a + [x];
    }
  }

  lemma JoinRising(a: seq<SplayNode>, n: SplayNode, b: seq<SplayNode>)
    requires Rising(a) && Rising(b) && AllBelow(a, n.key) && AllAbove(b, n.key)
    ensures Rising(a + [n] + b)
  {
    var s := a + [n] + b;
    forall i, j | 0 <= i < j < |s| ensures s[i].key < s[j].key {
      if i < |a| < j { assert s[i] == a[i] && s[j] == b[j - |a| - 1]; }
    }
  }

  /** The root gone, its left tree splayed again for the same key: that tree's root has nothing to its right. */
  lemma RootGone(u: Tree, w: Tree, key: int)
    requires u.Branch? && Rising(Inorder(u)) && SplitAt(u, key) && u.node.key == key
    requires Inorder(w) == Inorder(u.left) && w.Branch? && SplitAt(w, key)
    ensures w.right.Leaf? && WithoutKey(Inorder(u), key, Inorder(Branch(w.left, w.node, u.right)))
    ensures Rising(Inorder(Branch(w.left, w.node, u.right)))
  {
    hide Rising;
    var s, a, b := Inorder(u), Inorder(u.left), Inorder(u.right);
    if Inorder(w.right) != [] { SomeBelow(Inorder(w.left), w.node, Inorder(w.right), key); }
    assert Inorder(w) == Inorder(w.left) + [w.node];
    assert s[|a|].key == key && a + b == s[..|a|] + s[|a| + 1..];
    assert Inorder(Branch(w.left, w.node, u.right)) == a + b;
    RemovedRising(a, u.node, b);
  }

  lemma SomeBelow(a: seq<SplayNode>, n: SplayNode, b: seq<SplayNode>, key: int)
    requires AllBelow(a + [n] + b, key) && b != []
    ensures !AllAbove(b, key)
  {
    assert (a + [n] + b)[|a| + 1] == b[0];
  }

  lemma RemovedRising(a: seq<SplayNode>, n: SplayNode, b: seq<SplayNode>)
    requires Rising(a + [n] + b)
    ensures Rising(a + b)
  {
    RisingParts(a, n, b);
    var s := a + b;
    forall i, j | 0 <= i < j < |s| ensures s[i].key < s[j].key {
      if i < |a| <= j { assert s[i] == a[i] && s[j] == b[j - |a|]; }
    }
  }

  lemma OnlyRight(u: Tree, key: int)
    requires u.Branch? && Rising(Inorder(u)) && u.node.key == key && u.left.Leaf?
    ensures WithoutKey(Inorder(u), key, Inorder(u.right)) && Rising(Inorder(u.right))
  {
    var s, b := Inorder(u), Inorder(u.right);
    assert Inorder(u) == Inorder(u.left) + [u.node] + b && Inorder(u.left) == [];
    assert s == [] + [u.node] + b;
    assert s[0].key == key && b == s[..0] + s[1..];
    RisingParts([], u.node, b);
  }

  lemma SameNodes(t: Tree, u: Tree)
    requires Inorder(t) == Inorder(u)
    ensures Nodes(t) == Nodes(u)
  {
    hide Nodes, Inorder;
    forall x | x in Nodes(t) ensures x in Nodes(u) {
      InorderNode(t, x);
      InorderNode(u, x);
    }
    forall x | x in Nodes(u) ensures x in Nodes(t) {
      InorderNode(t, x);
      InorderNode(u, x);
    }
    assert Nodes(t) <= Nodes(u) && Nodes(u) <= Nodes(t);
  }
}
