/** The shapes a red-black tree goes through: trees, and paths from a place in a tree up to its root. */
module RbShapes {

  /** A node of the intrusive tree: the fields of `RB_ENTRY`. `cmp` compares keys. */
  class RbNode {
    const key: int
    var left: RbNode?
    var right: RbNode?
    var parent: RbNode?
    var red: bool

    constructor (key: int)
      ensures this.key == key
    {
      this.key := key;
    }

    function Kid(s: Side): RbNode?
      reads this
    {
      if s == L then left else right
    }
  }

  datatype Side = L | R

  function Other(s: Side): Side { if s == L then R else L }

  datatype Tree = Leaf | Branch(left: Tree, node: RbNode, red: bool, right: Tree)

  /** From a place in a tree to its root: the place is on `side` of `node`, `other` hangs on the other side. */
  datatype Path = Top | Step(up: Path, side: Side, node: RbNode, red: bool, other: Tree)

  /** The tree with `t` on side `s` of the root. */
  function Make(s: Side, t: Tree, node: RbNode, red: bool, other: Tree): Tree {
    if s == L then Branch(t, node, red, other) else Branch(other, node, red, t)
  }

  function Near(s: Side, t: Tree): Tree
    requires t.Branch?
  {
    if s == L then t.left else t.right
  }

  lemma MakeAgain(s: Side, t: Tree)
    requires t.Branch?
    ensures t == Make(s, Near(s, t), t.node, t.red, Near(Other(s), t))
  {}

  /** The whole tree with `t` in the place that `p` leads to. */
  function Plug(p: Path, t: Tree): Tree {
    match p
    case Top => t
    case Step(up, s, n, c, o) => Plug(up, Make(s, t, n, c, o))
  }

  /** The path `q`, continued by `p`. */
  function Join(q: Path, p: Path): Path {
    match q
    case Top => p
    case Step(up, s, n, c, o) => Step(Join(up, p), s, n, c, o)
  }

  lemma {:induction false} PlugJoin(q: Path, p: Path, t: Tree)
    ensures Plug(Join(q, p), t) == Plug(p, Plug(q, t))
    decreases q
  {
    match q
    case Top =>
    case Step(up, s, n, c, o) => PlugJoin(up, p, Make(s, t, n, c, o));
  }

  function RootOf(t: Tree): RbNode? { if t.Leaf? then null else t.node }

  /** The node above the place. */
  function Above(p: Path): RbNode? { if p.Top? then null else p.node }

  function Depth(p: Path): nat { if p.Top? then 0 else Depth(p.up) + 1 }

  // ---- finding a node

  /** The place of node `x` in `t`, below the path `p`, and the tree there. */
  ghost function PathTo(p: Path, t: Tree, x: RbNode): (Path, Tree)
    requires x in Nodes(t)
    decreases t
  {
    if t.node == x then (p, t)
    else if x in Nodes(t.left) then PathTo(Step(p, L, t.node, t.red, t.right), t.left, x)
    else PathTo(Step(p, R, t.node, t.red, t.left), t.right, x)
  }

  lemma {:induction false} PathToLeads(p: Path, t: Tree, x: RbNode)
    requires x in Nodes(t)
    ensures var (q, u) := PathTo(p, t, x); u.Branch? && u.node == x && Plug(q, u) == Plug(p, t)
    decreases t
  {
    if t.node != x {
      if x in Nodes(t.left) {
        PathToLeads(Step(p, L, t.node, t.red, t.right), t.left, x);
      } else {
        PathToLeads(Step(p, R, t.node, t.red, t.left), t.right, x);
      }
    }
  }

  lemma {:induction false} AroundJoin(q: Path, p: Path)
    ensures Around(Join(q, p)) == Around(q) + Around(p)
    decreases q
  {
    if q.Step? { AroundJoin(q.up, p); }
  }

  // ---- contents

  function Nodes(t: Tree): set<RbNode> {
    match t
    case Leaf => {}
    case Branch(l, n, _, r) => Nodes(l) + {n} + Nodes(r)
  }

  /** The nodes of a path and of what hangs on it. */
  function Around(p: Path): set<RbNode> {
    match p
    case Top => {}
    case Step(up, _, n, _, o) => {n} + Nodes(o) + Around(up)
  }

  function Inorder(t: Tree): seq<RbNode> {
    match t
    case Leaf => []
    case Branch(l, n, _, r) => Inorder(l) + [n] + Inorder(r)
  }

  /** What comes before the place, and what after it. */
  function Before(p: Path): seq<RbNode> {
    match p
    case Top => []
    case Step(up, s, n, _, o) => if s == L then Before(up) else Before(up) + Inorder(o) + [n]
  }

  function After(p: Path): seq<RbNode> {
    match p
    case Top => []
    case Step(up, s, n, _, o) => if s == L then [n] + Inorder(o) + After(up) else After(up)
  }

  lemma Regroup<T>(a: seq<T>, b: seq<T>, c: seq<T>, d: seq<T>, e: seq<T>)
    ensures a + (b + c + d) + e == a + b + (c + d + e) == (a + b + c) + d + e
  {}

  lemma {:induction false} PlugInorder(p: Path, t: Tree)
    ensures Inorder(Plug(p, t)) == Before(p) + Inorder(t) + After(p)
    decreases p
  {
    match p
    case Top => assert Inorder(t) == [] + Inorder(t) + [];
    case Step(up, s, n, c, o) =>
      PlugInorder(up, Make(s, t, n, c, o));
      if s == L {
        Regroup(Before(up), Inorder(t), [n], Inorder(o), After(up));
      } else {
        Regroup(Before(up), Inorder(o), [n], Inorder(t), After(up));
      }
  }

  lemma {:induction false} InorderNode(t: Tree, x: RbNode)
    ensures x in Nodes(t) <==> x in Inorder(t)
    decreases t
  {
    match t
    case Leaf =>
    case Branch(l, n, _, r) => InorderNode(l, x); InorderNode(r, x);
  }

  lemma {:induction false} AroundNode(p: Path, x: RbNode)
    ensures x in Around(p) <==> x in Before(p) || x in After(p)
    decreases p
  {
    match p
    case Top =>
    case Step(up, s, n, c, o) => AroundNode(up, x); InorderNode(o, x);
  }

  lemma {:induction false} PlugNodes(p: Path, t: Tree)
    ensures Nodes(Plug(p, t)) == Nodes(t) + Around(p)
    decreases p
  {
    match p
    case Top =>
    case Step(up, s, n, c, o) => PlugNodes(up, Make(s, t, n, c, o));
  }

  // ---- order

  /** Keys strictly rise. */
  predicate Rising(s: seq<RbNode>) { forall i, j :: 0 <= i < j < |s| ==> s[i].key < s[j].key }

  /** No node twice. */
  predicate Neat(t: Tree) {
    match t
    case Leaf => true
    case Branch(l, n, _, r) => n !in Nodes(l) && n !in Nodes(r) && Nodes(l) !! Nodes(r) && Neat(l) && Neat(r)
  }

  predicate NeatPath(p: Path) {
    match p
    case Top => true
    case Step(up, _, n, _, o) =>
      n !in Nodes(o) && n !in Around(up) && Nodes(o) !! Around(up) && Neat(o) && NeatPath(up)
  }

  /** No node twice in `t` in the place of `p`. */
  predicate Apart(p: Path, t: Tree) { Neat(t) && NeatPath(p) && Nodes(t) !! Around(p) }

  lemma MakeNeat(s: Side, t: Tree, n: RbNode, c: bool, o: Tree)
    ensures Nodes(Make(s, t, n, c, o)) == Nodes(t) + {n} + Nodes(o)
    ensures Neat(Make(s, t, n, c, o)) <==>
              n !in Nodes(t) && n !in Nodes(o) && Nodes(t) !! Nodes(o) && Neat(t) && Neat(o)
  {}

  lemma RootInside(t: Tree)
    ensures t.Branch? ==> RootOf(t) in Nodes(t)
  {}

  lemma ApartStep(up: Path, s: Side, t: Tree, n: RbNode, c: bool, o: Tree)
    ensures Apart(up, Make(s, t, n, c, o)) <==> Apart(Step(up, s, n, c, o), t)
  {}

  lemma RisingParts(a: seq<RbNode>, b: seq<RbNode>)
    requires Rising(a + b)
    ensures Rising(a) && Rising(b)
    ensures forall x, y :: x in a && y in b ==> x.key < y.key
  {
    forall i, j | 0 <= i < j < |a| ensures a[i].key < a[j].key { assert (a + b)[i] == a[i] && (a + b)[j] == a[j]; }
    forall i, j | 0 <= i < j < |b| ensures b[i].key < b[j].key {
      assert (a + b)[|a| + i] == b[i] && (a + b)[|a| + j] == b[j];
    }
    forall x, y | x in a && y in b ensures x.key < y.key {
      var i :| 0 <= i < |a| && a[i] == x;
      var j :| 0 <= j < |b| && b[j] == y;
      assert (a + b)[i] == x && (a + b)[|a| + j] == y;
    }
  }

  lemma RisingOnce(a: seq<RbNode>, n: RbNode, b: seq<RbNode>, x: RbNode)
    requires Rising(a + [n] + b)
    ensures Rising(a) && Rising(b) && n !in a && n !in b && !(x in a && x in b)
  {
    hide Rising;
    RisingParts(a + [n], b);
    RisingParts(a, [n]);
    assert n in [n] && n in a + [n];
    if x in a { assert x in a + [n]; }
  }

  lemma {:induction false} RisingNeat(t: Tree)
    requires Rising(Inorder(t))
    ensures Neat(t)
    decreases t
  {
    hide Rising;
    match t
    case Leaf =>
    case Branch(l, n, _, r) =>
      InorderNode(l, n);
      InorderNode(r, n);
      forall x | x in Nodes(l) ensures x !in Nodes(r) {
        InorderNode(l, x);
        InorderNode(r, x);
        RisingOnce(Inorder(l), n, Inorder(r), x);
      }
      assert Nodes(l) * Nodes(r) == {};
      RisingOnce(Inorder(l), n, Inorder(r), n);
      RisingNeat(l);
      RisingNeat(r);
  }

  /** Strictly rising keys leave no room for a node twice. */
  lemma {:induction false} RisingApart(p: Path, t: Tree)
    requires Rising(Inorder(Plug(p, t)))
    ensures Apart(p, t)
    decreases p
  {
    match p
    case Top => RisingNeat(t);
    case Step(up, s, n, c, o) =>
      RisingApart(up, Make(s, t, n, c, o));
      ApartStep(up, s, t, n, c, o);
  }

  /** Every key before the place is smaller, every key after it larger. */
  predicate Straddles(p: Path, key: int) {
    (forall i :: 0 <= i < |Before(p)| ==> Before(p)[i].key < key) && forall i :: 0 <= i < |After(p)| ==> key < After(p)[i].key
  }

  predicate Has(s: seq<RbNode>, key: int) { exists i :: 0 <= i < |s| && s[i].key == key }

  lemma NotThere(p: Path, key: int)
    requires Straddles(p, key)
    ensures Inorder(Plug(p, Leaf)) == Before(p) + After(p) && !Has(Inorder(Plug(p, Leaf)), key)
  {
    hide Plug;
    PlugInorder(p, Leaf);
    assert Before(p) + [] + After(p) == Before(p) + After(p);
  }

  lemma InPlace(p: Path, t: Tree)
    requires t.Branch?
    ensures t.node in Inorder(Plug(p, t)) && Has(Inorder(Plug(p, t)), t.node.key)
  {
    hide Plug;
    PlugInorder(p, t);
    var i := |Before(p)| + |Inorder(t.left)|;
    assert Inorder(Plug(p, t))[i] == t.node;
  }

  /** A new node in its place. */
  lemma NewInOrder(p: Path, n: RbNode)
    requires Straddles(p, n.key) && Rising(Inorder(Plug(p, Leaf)))
    ensures var t := Branch(Leaf, n, true, Leaf);
            var was := Inorder(Plug(p, Leaf));
            |Before(p)| <= |was| && Inorder(Plug(p, t)) == was[..|Before(p)|] + [n] + was[|Before(p)|..] &&
            Rising(Inorder(Plug(p, t))) && n !in Around(p)
  {
    hide Plug;
    NotThere(p, n.key);
    PlugInorder(p, Branch(Leaf, n, true, Leaf));
    assert Inorder(Branch(Leaf, n, true, Leaf)) == [n];
    var a, b := Before(p), After(p);
    RisingParts(a, b);
    AroundNode(p, n);
    forall i, j | 0 <= i < j < |a + [n] + b| ensures (a + [n] + b)[i].key < (a + [n] + b)[j].key {
      if i < |a| < j { assert a[i] in a && b[j - |a| - 1] in b; }
    }
  }

  /** `b` is `a` without `x`. */
  predicate Without(a: seq<RbNode>, x: RbNode, b: seq<RbNode>) {
    exists i :: 0 <= i < |a| && a[i] == x && b == a[..i] + a[i + 1..]
  }

  lemma WithoutAt(a: seq<RbNode>, x: RbNode, c: seq<RbNode>)
    ensures Without(a + [x] + c, x, a + c)
  {
    var s := a + [x] + c;
    assert s[|a|] == x && a + c == s[..|a|] + s[|a| + 1..];
  }

  lemma WithoutRising(a: seq<RbNode>, x: RbNode, b: seq<RbNode>)
    requires Rising(a) && Without(a, x, b)
    ensures Rising(b)
  {
    var i :| 0 <= i < |a| && a[i] == x && b == a[..i] + a[i + 1..];
    forall j, k | 0 <= j < k < |b| ensures b[j].key < b[k].key {
      assert b[j] == a[if j < i then j else j + 1] && b[k] == a[if k < i then k else k + 1];
    }
  }

  /** A node with one kid at most, and the kid in its place. */
  lemma RemovedOne(p: Path, t: Tree, kid: Tree)
    requires t.Branch? && if t.left.Leaf? then kid == t.right else t.right.Leaf? && kid == t.left
    ensures Without(Inorder(Plug(p, t)), t.node, Inorder(Plug(p, kid)))
  {
    hide Without, Plug, Before, After;
    PlugInorder(p, t);
    PlugInorder(p, kid);
    WithoutInside(Before(p), t.node, Inorder(kid), After(p));
    OneKid(t, kid);
  }

  lemma OneKid(t: Tree, kid: Tree)
    requires t.Branch? && if t.left.Leaf? then kid == t.right else t.right.Leaf? && kid == t.left
    ensures Inorder(t) == if t.left.Leaf? then [t.node] + Inorder(kid) else Inorder(kid) + [t.node]
  {}

  lemma WithoutInside(a: seq<RbNode>, x: RbNode, k: seq<RbNode>, b: seq<RbNode>)
    ensures Without(a + ([x] + k) + b, x, a + k + b) && Without(a + (k + [x]) + b, x, a + k + b)
  {
    hide Without;
    WithoutAt(a, x, k + b);
    WithoutAt(a + k, x, b);
    assert a + ([x] + k) + b == a + [x] + (k + b) && a + k + b == a + (k + b);
    assert a + (k + [x]) + b == (a + k) + [x] + b;
  }

  /** A node with two kids, replaced by the next one, which leaves its own place. */
  lemma RemovedInner(p: Path, l: Tree, old_: RbNode, c: bool, r: Tree, q: Path, u: Tree)
    requires u.Branch? && u.left.Leaf? && Plug(q, u) == r && Before(q) == []
    ensures Without(Inorder(Plug(p, Branch(l, old_, c, r))), old_,
                    Inorder(Plug(Join(q, Step(p, R, u.node, c, l)), u.right)))
  {
    hide Without, Plug, Inorder, Before, After;
    var elm, k := u.node, u.right;
    PlugJoin(q, Step(p, R, elm, c, l), k);
    PlugStepR(p, l, elm, c, Plug(q, k));
    PlugInorder(p, Branch(l, old_, c, r));
    PlugInorder(p, Branch(l, elm, c, Plug(q, k)));
    BranchInorder(l, old_, c, r);
    BranchInorder(l, elm, c, Plug(q, k));
    FirstOut(q, u, r);
    WithoutAt(Before(p) + Inorder(l), old_, Inorder(r) + After(p));
    Regroup(Before(p), Inorder(l), [old_], Inorder(r), After(p));
    Regroup(Before(p), Inorder(l), [elm], Inorder(Plug(q, k)), After(p));
    Split(Before(p), Inorder(l), [old_], Inorder(r), After(p));
    Split(Before(p), Inorder(l), [elm], Inorder(Plug(q, k)), After(p));
  }

  lemma Split<T>(a: seq<T>, b: seq<T>, c: seq<T>, d: seq<T>, e: seq<T>)
    ensures a + (b + c + d) + e == (a + b) + c + (d + e) == (a + b) + ((c + d) + e)
  {}

  lemma PlugStepR(p: Path, l: Tree, n: RbNode, c: bool, r: Tree)
    ensures Plug(Step(p, R, n, c, l), r) == Plug(p, Branch(l, n, c, r))
  {}

  lemma BranchInorder(l: Tree, n: RbNode, c: bool, r: Tree)
    ensures Inorder(Branch(l, n, c, r)) == Inorder(l) + [n] + Inorder(r)
  {}

  /** The first node of a tree. */
  lemma FirstOut(q: Path, u: Tree, r: Tree)
    requires u.Branch? && u.left.Leaf? && Plug(q, u) == r && Before(q) == []
    ensures Inorder(r) == [u.node] + Inorder(Plug(q, u.right))
  {
    hide Plug, Before, After;
    PlugInorder(q, u);
    PlugInorder(q, u.right);
    assert Inorder(u) == [u.node] + Inorder(u.right);
  }

  /** Going down towards a key. */
  lemma Descend(p: Path, t: Tree, s: Side, key: int)
    requires t.Branch? && Rising(Inorder(Plug(p, t))) && Straddles(p, key)
    requires if s == L then key < t.node.key else t.node.key < key
    ensures var q := Step(p, s, t.node, t.red, Near(Other(s), t));
            Plug(q, Near(s, t)) == Plug(p, t) && Straddles(q, key)
  {
    hide Rising;
    PlugInorder(p, t);
    RisingInside(Before(p), Inorder(t), After(p));
    MakeAgain(s, t);
    KidsStraddle(t);
    assert Plug(Step(p, s, t.node, t.red, Near(Other(s), t)), Near(s, t)) == Plug(p, t);
  }

  lemma RisingInside(a: seq<RbNode>, b: seq<RbNode>, c: seq<RbNode>)
    requires Rising(a + b + c)
    ensures Rising(a) && Rising(b) && Rising(c)
  {
    RisingParts(a + b, c);
    RisingParts(a, b);
  }

  lemma KidsStraddle(t: Tree)
    requires t.Branch? && Rising(Inorder(t))
    ensures forall i :: 0 <= i < |Inorder(t.left)| ==> Inorder(t.left)[i].key < t.node.key
    ensures forall i :: 0 <= i < |Inorder(t.right)| ==> t.node.key < Inorder(t.right)[i].key
  {
    var a, b := Inorder(t.left), Inorder(t.right);
    var s := a + [t.node] + b;
    assert s == Inorder(t) && s[|a|] == t.node;
    forall i | 0 <= i < |a| ensures a[i].key < t.node.key { assert s[i] == a[i]; }
    forall i | 0 <= i < |b| ensures t.node.key < b[i].key { assert s[|a| + 1 + i] == b[i]; }
  }

  // ---- colours

  predicate IsRed(t: Tree) { t.Branch? && t.red }

  predicate RedAbove(p: Path) { p.Step? && p.red }

  /** `h` black nodes on every way down. */
  predicate Bal(t: Tree, h: nat) {
    match t
    case Leaf => h == 0
    case Branch(l, _, c, r) => if c then Bal(l, h) && Bal(r, h) else h > 0 && Bal(l, h - 1) && Bal(r, h - 1)
  }

  /** The tree is balanced if what is in the place has black height `h`. */
  predicate PathBal(p: Path, h: nat) {
    match p
    case Top => true
    case Step(up, _, _, c, o) => Bal(o, h) && PathBal(up, if c then h else h + 1)
  }

  /** No red node has a red child. */
  predicate NoRedRed(t: Tree) {
    match t
    case Leaf => true
    case Branch(l, _, c, r) => NoRedRed(l) && NoRedRed(r) && (c ==> !IsRed(l) && !IsRed(r))
  }

  predicate PathNoRedRed(p: Path) {
    match p
    case Top => true
    case Step(up, _, _, c, o) => NoRedRed(o) && PathNoRedRed(up) && (c ==> !IsRed(o) && !RedAbove(up))
  }

  /** The root, if it is on the path, is black. */
  predicate BlackTop(p: Path) {
    match p
    case Top => true
    case Step(up, _, _, c, _) => if up.Top? then !c else BlackTop(up)
  }

  /** The colours around the place are right, for a tree of black height `h` in it. */
  predicate Fits(p: Path, h: nat) { PathBal(p, h) && PathNoRedRed(p) && BlackTop(p) }

  function BlackHeight(t: Tree): nat {
    match t
    case Leaf => 0
    case Branch(l, _, c, _) => BlackHeight(l) + if c then 0 else 1
  }

  /** The red-black rules. */
  predicate RedBlack(t: Tree) { !IsRed(t) && NoRedRed(t) && Bal(t, BlackHeight(t)) }

  lemma {:induction false} BalHeight(t: Tree, h: nat)
    requires Bal(t, h)
    ensures h == BlackHeight(t)
    decreases t
  {
    match t
    case Leaf =>
    case Branch(l, _, c, _) => BalHeight(l, if c then h else h - 1);
  }

  /** Putting a tree in its place. */
  lemma {:induction false} PlugRedBlack(p: Path, t: Tree, h: nat)
    requires Fits(p, h) && Bal(t, h) && NoRedRed(t) && (IsRed(t) ==> p.Step? && !p.red)
    ensures RedBlack(Plug(p, t))
    decreases p
  {
    match p
    case Top => BalHeight(t, h);
    case Step(up, s, n, c, o) => PlugRedBlack(up, Make(s, t, n, c, o), if c then h else h + 1);
  }

  /** Taking a red-black tree apart. */
  lemma {:induction false} PlugBalanced(p: Path, t: Tree, h: nat)
    requires NoRedRed(Plug(p, t)) && Bal(Plug(p, t), h) && !IsRed(Plug(p, t))
    ensures NoRedRed(t) && Bal(t, BlackHeight(t)) && Fits(p, BlackHeight(t)) && !(IsRed(t) && RedAbove(p))
    ensures p.Top? ==> !IsRed(t)
    decreases p
  {
    match p
    case Top => BalHeight(t, h);
    case Step(up, s, n, c, o) =>
      var m := Make(s, t, n, c, o);
      PlugBalanced(up, m, h);
      var k := BlackHeight(m);
      BalHeight(t, if c then k else k - 1);
  }

  lemma MakeColours(s: Side, t: Tree, n: RbNode, c: bool, o: Tree, h: nat)
    ensures Bal(Make(s, t, n, c, o), h) <==>
              if c then Bal(t, h) && Bal(o, h) else h > 0 && Bal(t, h - 1) && Bal(o, h - 1)
    ensures NoRedRed(Make(s, t, n, c, o)) <==>
              NoRedRed(t) && NoRedRed(o) && (c ==> !IsRed(t) && !IsRed(o))
    ensures IsRed(Make(s, t, n, c, o)) == c && Make(s, t, n, c, o).Branch?
  {}

  // ---- rotations and colours

  lemma MakeInorder(s: Side, t: Tree, n: RbNode, c: bool, o: Tree)
    ensures Inorder(Make(s, t, n, c, o)) == if s == L then Inorder(t) + [n] + Inorder(o) else Inorder(o) + [n] + Inorder(t)
  {}

  lemma MakeFlip(s: Side, t: Tree, n: RbNode, c: bool, o: Tree)
    ensures Make(s, t, n, c, o) == Make(Other(s), o, n, c, t) && Other(Other(s)) == s
  {}

  /** A rotation keeps the order. */
  lemma RotateInorder(s: Side, a: Tree, x: RbNode, c: bool, b: Tree, y: RbNode, d: bool, e: Tree, c': bool, d': bool)
    ensures Inorder(Make(s, a, x, c, Make(s, b, y, d, e))) == Inorder(Make(s, Make(s, a, x, c', b), y, d', e))
  {
    hide Make;
    MakeInorder(s, a, x, c, Make(s, b, y, d, e));
    MakeInorder(s, b, y, d, e);
    MakeInorder(s, Make(s, a, x, c', b), y, d', e);
    MakeInorder(s, a, x, c', b);
    if s == L {
      Regroup(Inorder(a), [x], Inorder(b), [y], Inorder(e));
      assert Inorder(a) + [x] + (Inorder(b) + [y] + Inorder(e)) == (Inorder(a) + [x] + Inorder(b)) + [y] + Inorder(e);
    } else {
      assert (Inorder(e) + [y] + Inorder(b)) + [x] + Inorder(a) == Inorder(e) + [y] + (Inorder(b) + [x] + Inorder(a));
    }
  }

  lemma PaintInorder(t: Tree, red: bool)
    requires t.Branch?
    ensures Inorder(t.(red := red)) == Inorder(t)
  {}

  lemma SameNodes(p: Path, t: Tree, q: Path, u: Tree)
    requires Inorder(Plug(p, t)) == Inorder(Plug(q, u))
    ensures Nodes(t) + Around(p) == Nodes(u) + Around(q)
  {
    hide Nodes, Around, Inorder, Plug;
    PlugNodes(p, t);
    PlugNodes(q, u);
    var v, w := Plug(p, t), Plug(q, u);
    forall x | x in Nodes(v) ensures x in Nodes(w) {
      InorderNode(v, x);
      InorderNode(w, x);
    }
    forall x | x in Nodes(w) ensures x in Nodes(v) {
      InorderNode(v, x);
      InorderNode(w, x);
    }
    assert Nodes(v) <= Nodes(w) && Nodes(w) <= Nodes(v);
  }

  /** Trees with the same order in the same place. */
  lemma PlugSame(p: Path, t: Tree, u: Tree)
    requires Inorder(t) == Inorder(u)
    ensures Inorder(Plug(p, t)) == Inorder(Plug(p, u))
  {
    PlugInorder(p, t);
    PlugInorder(p, u);
  }

  /** Another node in the middle of a path changes no colour. */
  lemma {:induction false} FitsRenamed(q: Path, p: Path, n: RbNode, m: RbNode, c: bool, o: Tree, h: nat)
    ensures var a, b := Join(q, Step(p, R, n, c, o)), Join(q, Step(p, R, m, c, o));
            Fits(a, h) == Fits(b, h) && RedAbove(a) == RedAbove(b) && a.Step? && b.Step?
    decreases q
  {
    match q
    case Top =>
    case Step(up, s, x, d, e) =>
      FitsRenamed(up, p, n, m, c, o, if d then h else h + 1);
  }

  // ---- height

  function Height(t: Tree): nat {
    match t
    case Leaf => 0
    case Branch(l, _, _, r) => 1 + if Height(l) > Height(r) then Height(l) else Height(r)
  }

  function Power(n: nat): nat { if n == 0 then 1 else 2 * Power(n - 1) }

  lemma {:induction false} BlackSize(t: Tree, h: nat)
    requires Bal(t, h)
    ensures Power(h) <= |Inorder(t)| + 1
    decreases t
  {
    match t
    case Leaf =>
    case Branch(l, _, c, r) =>
      BlackSize(l, if c then h else h - 1);
      BlackSize(r, if c then h else h - 1);
  }

  lemma {:induction false} RedHeight(t: Tree, h: nat)
    requires Bal(t, h) && NoRedRed(t)
    ensures Height(t) <= 2 * h + if IsRed(t) then 1 else 0
    decreases t
  {
    match t
    case Leaf =>
    case Branch(l, _, c, r) =>
      RedHeight(l, if c then h else h - 1);
      RedHeight(r, if c then h else h - 1);
  }

  lemma {:induction false} PowerGrows(m: nat, n: nat)
    requires m <= n
    ensures Power(m) <= Power(n)
    decreases n
  {
    if m < n { PowerGrows(m, n - 1); }
  }

  /** The height of a red-black tree of `n` nodes is at most 2 lg(n + 1). */
  lemma HeightBound(t: Tree)
    requires RedBlack(t)
    ensures Power((Height(t) + 1) / 2) <= |Inorder(t)| + 1
  {
    var h := BlackHeight(t);
    RedHeight(t, h);
    PowerGrows((Height(t) + 1) / 2, h);
    BlackSize(t, h);
  }
}
