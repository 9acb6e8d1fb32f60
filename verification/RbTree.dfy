/** The red-black tree of `tree.h`: insertion and removal with their colour loops, and the searches.
    A macro or branch and its mirror image are one here, with the side as a parameter. */
module RbTrees {
  import opened RbShapes

  /** The nodes' fields are those of the tree `t`, under `up`. */
  ghost predicate Linked(t: Tree, up: RbNode?)
    reads Nodes(t)
  {
    match t
    case Leaf => true
    case Branch(l, n, c, r) =>
      n.left == RootOf(l) && n.right == RootOf(r) && n.parent == up && n.red == c && Linked(l, n) && Linked(r, n)
  }

  /** A red node has come to the place; all is right around it but for a red parent. */
  ghost predicate Pending(p: Path, t: Tree, h: nat) {
    t.Branch? && t.red && NoRedRed(t) && Bal(t, h) && Fits(p, h)
  }

  lemma PendingRoot(p: Path, t: Tree, h: nat)
    requires Pending(p, t, h)
    ensures t.Branch? && t.red
  {}

  /** The path above a red parent. */
  lemma RedParent(p: Path, t: Tree, h: nat)
    requires Pending(p, t, h) && RedAbove(p)
    ensures p.up.Step? && !p.up.red && !IsRed(p.other) && Bal(p.other, h) && NoRedRed(p.other)
    ensures Bal(p.up.other, h) && NoRedRed(p.up.other) && Fits(p.up.up, h + 1)
  {
    assert Fits(p.up, h);
  }

  /** With a red uncle, the colours move up. */
  lemma Recoloured(p: Path, t: Tree, h: nat)
    requires Pending(p, t, h) && RedAbove(p) && p.up.Step? && IsRed(p.up.other)
    ensures var g := p.up;
            Pending(g.up, Make(g.side, Make(p.side, t, p.node, false, p.other), g.node, true, g.other.(red := false)), h + 1)
  {
    hide Make;
    RedParent(p, t, h);
    var g := p.up;
    MakeColours(p.side, t, p.node, false, p.other, h + 1);
    MakeColours(g.side, Make(p.side, t, p.node, false, p.other), g.node, true, g.other.(red := false), h + 1);
  }

  lemma RecolouredSame(p: Path, t: Tree)
    requires p.Step? && p.up.Step? && p.up.other.Branch?
    ensures var g := p.up;
            Inorder(Plug(g.up, Make(g.side, Make(p.side, t, p.node, false, p.other), g.node, true, g.other.(red := false))))
            == Inorder(Plug(p, t))
  {
    var g := p.up;
    PlugSame(g.up, Make(g.side, Make(p.side, t, p.node, false, p.other), g.node, true, g.other.(red := false)),
             Make(g.side, Make(p.side, t, p.node, p.red, p.other), g.node, g.red, g.other));
  }

  /** With a black uncle and an outer red child, the parent takes the grandparent's place. */
  lemma Restructured(p: Path, t: Tree, h: nat)
    requires Pending(p, t, h) && RedAbove(p) && p.up.Step? && !IsRed(p.up.other) && p.side == p.up.side
    ensures var g := p.up;
            Pending(Step(g.up, g.side, p.node, false, Make(Other(g.side), g.other, g.node, true, p.other)), t, h)
  {
    hide Make;
    RedParent(p, t, h);
    var g := p.up;
    MakeColours(Other(g.side), g.other, g.node, true, p.other, h);
  }

  /** An inner red child is turned outward. */
  lemma Turned(p: Path, s: Side, a: Tree, x: RbNode, y: RbNode, b: Tree, e: Tree, h: nat)
    requires Pending(Step(p, Other(s), x, true, a), Make(s, b, y, true, e), h)
    ensures Pending(Step(p, s, y, true, e), Make(s, a, x, true, b), h)
  {
    hide Make;
    MakeColours(s, b, y, true, e, h);
    MakeColours(s, a, x, true, b, h);
  }

  lemma RotatedSame(p: Path, s: Side, a: Tree, x: RbNode, c: bool, b: Tree, y: RbNode, d: bool, e: Tree)
    ensures Inorder(Plug(Step(p, Other(s), x, c, a), Make(s, b, y, d, e))) == Inorder(Plug(Step(p, s, y, d, e), Make(s, a, x, c, b)))
  {
    RotateInorder(s, a, x, c, b, y, d, e, c, d);
    MakeFlip(s, a, x, c, Make(s, b, y, d, e));
    PlugSame(p, Make(s, a, x, c, Make(s, b, y, d, e)), Make(s, Make(s, a, x, c, b), y, d, e));
  }

  lemma RestructuredSame(p: Path, t: Tree)
    requires p.Step? && p.up.Step? && p.side == p.up.side
    ensures var g := p.up;
            Inorder(Plug(Step(g.up, g.side, p.node, false, Make(Other(g.side), g.other, g.node, true, p.other)), t))
            == Inorder(Plug(p, t))
  {
    var g, s, o := p.up, p.side, Other(p.side);
    RotateInorder(o, g.other, g.node, g.red, p.other, p.node, p.red, t, true, false);
    MakeFlip(s, Make(s, t, p.node, p.red, p.other), g.node, g.red, g.other);
    MakeFlip(s, t, p.node, p.red, p.other);
    MakeFlip(s, t, p.node, false, Make(o, g.other, g.node, true, p.other));
    PlugSame(g.up, Make(o, g.other, g.node, g.red, Make(o, p.other, p.node, p.red, t)),
             Make(o, Make(o, g.other, g.node, true, p.other), p.node, false, t));
  }

  /** The loop has ended: the root is made black. */
  lemma Blackened(p: Path, t: Tree, h: nat)
    requires Pending(p, t, h) && !RedAbove(p)
    ensures var w := Plug(p, t); w.Branch? && RedBlack(w.(red := false)) && (p.Step? ==> !w.red)
  {
    if p.Top? {
      BalHeight(t.(red := false), h + 1);
    } else {
      PlugRedBlack(p, t, h);
      PlugBranch(p, t);
      var w := Plug(p, t);
      assert w.(red := false) == w;
    }
  }

  lemma {:induction false} PlugBranch(p: Path, t: Tree)
    requires t.Branch?
    ensures Plug(p, t).Branch?
    decreases p
  {
    match p
    case Top =>
    case Step(up, s, n, c, o) => PlugBranch(up, Make(s, t, n, c, o));
  }

  // ---- one black node short

  /** The tree but for its root's colour. */
  ghost predicate Soft(t: Tree) { t.Branch? ==> NoRedRed(t.left) && NoRedRed(t.right) && (!t.red ==> NoRedRed(t)) }

  /** The place holds one black node too few; all else is right, but for a red root of `t`. */
  ghost predicate Short(p: Path, t: Tree, h: nat) {
    Soft(t) && Bal(t, h) && Fits(p, h + 1)
  }

  /** There is a sibling. */
  lemma HasSibling(p: Path, t: Tree, h: nat)
    requires Short(p, t, h) && p.Step?
    ensures p.other.Branch? && (p.other.red ==> !p.red && Near(p.side, p.other).Branch? && !IsRed(Near(p.side, p.other)))
  {
    assert Bal(p.other, h + 1);
    if p.other.red { assert Bal(Near(p.side, p.other), h + 1); }
  }

  /** A red sibling is turned up. */
  lemma RedTurned(p: Path, t: Tree, h: nat)
    requires Short(p, t, h) && p.Step? && IsRed(p.other)
    ensures var s, b, e := p.side, Near(p.side, p.other), Near(Other(p.side), p.other);
            Short(Step(Step(p.up, s, p.other.node, false, e), s, p.node, true, b), t, h) && b.Branch? && !b.red
  {
    hide Make;
    var s, b, e := p.side, Near(p.side, p.other), Near(Other(p.side), p.other);
    MakeAgain(s, p.other);
    MakeColours(s, b, p.other.node, true, e, h + 1);
    var q := Step(p.up, s, p.other.node, false, e);
    assert PathBal(q, h + 1) && PathNoRedRed(q) && BlackTop(q);
  }

  /** A black sibling with black kids turns red: the place above is short now. */
  lemma Lifted(p: Path, t: Tree, h: nat)
    requires Short(p, t, h) && p.Step? && p.other.Branch? && !p.other.red && !IsRed(t)
    requires !IsRed(p.other.left) && !IsRed(p.other.right)
    ensures Short(p.up, Make(p.side, t, p.node, p.red, p.other.(red := true)), if p.red then h else h + 1)
  {
    hide Make;
    var o := p.other.(red := true);
    MakeColours(p.side, t, p.node, p.red, o, if p.red then h else h + 1);
    MakeKids(p.side, t, p.node, p.red, o);
  }

  lemma MakeKids(s: Side, t: Tree, n: RbNode, c: bool, o: Tree)
    ensures Make(s, t, n, c, o).Branch? && Make(s, t, n, c, o).node == n && Make(s, t, n, c, o).red == c
    ensures Near(s, Make(s, t, n, c, o)) == t && Near(Other(s), Make(s, t, n, c, o)) == o
  {}

  /** A black sibling with a red inner and a black outer kid is turned. */
  lemma SiblingTurned(p: Path, t: Tree, h: nat)
    requires Short(p, t, h) && p.Step? && p.other.Branch? && !p.other.red
    requires IsRed(Near(p.side, p.other)) && !IsRed(Near(Other(p.side), p.other))
    ensures var s, b, e := p.side, Near(p.side, p.other), Near(Other(p.side), p.other);
            Short(p.(other := Make(s, Near(s, b), b.node, false, Make(s, Near(Other(s), b), p.other.node, true, e))), t, h)
  {
    hide Make;
    var s, b, e := p.side, Near(p.side, p.other), Near(Other(p.side), p.other);
    MakeAgain(s, p.other);
    MakeAgain(s, b);
    MakeColours(s, b, p.other.node, false, e, h + 1);
    MakeColours(s, Near(s, b), b.node, true, Near(Other(s), b), h);
    MakeColours(s, Near(Other(s), b), p.other.node, true, e, h);
    MakeColours(s, Near(s, b), b.node, false, Make(s, Near(Other(s), b), p.other.node, true, e), h + 1);
  }

  /** With a red outer kid, the sibling takes the parent's place and colour, and no node is missing any more. */
  lemma Settled(p: Path, t: Tree, h: nat)
    requires Short(p, t, h) && p.Step? && p.other.Branch? && !p.other.red && !IsRed(t)
    requires IsRed(Near(Other(p.side), p.other))
    ensures var s, b, e := p.side, Near(p.side, p.other), Near(Other(p.side), p.other);
            RedBlack(Plug(p.up, Make(s, Make(s, t, p.node, false, b), p.other.node, p.red, e.(red := false))))
  {
    hide Make, Plug;
    var s, b, e := p.side, Near(p.side, p.other), Near(Other(p.side), p.other);
    MakeAgain(s, p.other);
    MakeColours(s, b, p.other.node, false, e, h + 1);
    MakeColours(s, t, p.node, false, b, h + 1);
    var k: nat := if p.red then h + 1 else h + 2;
    MakeColours(s, Make(s, t, p.node, false, b), p.other.node, p.red, e.(red := false), k);
    PlugRedBlack(p.up, Make(s, Make(s, t, p.node, false, b), p.other.node, p.red, e.(red := false)), k);
  }

  /** The loop ends at a red node or at the root: painted black it makes up for what is missing. */
  lemma MadeUp(p: Path, t: Tree, h: nat)
    requires Short(p, t, h) && (p.Top? || IsRed(t))
    ensures RedBlack(Plug(p, Blacker(t)))
  {
    if p.Top? && !IsRed(t) {
      BalHeight(t, h);
    } else {
      PlugRedBlack(p, Blacker(t), h + 1);
    }
  }

  /** What is missing once a node with one kid at most is gone: a black node, or nothing if it was red. */
  ghost predicate Lacks(p: Path, kid: Tree, red: bool) {
    if red then kid.Leaf? && Fits(p, 0) else Short(p, kid, 0)
  }

  lemma RemovedLacks(p: Path, t: Tree, kid: Tree)
    requires t.Branch? && RedBlack(Plug(p, t)) && if t.left.Leaf? then kid == t.right else t.right.Leaf? && kid == t.left
    ensures Lacks(p, kid, t.red)
  {
    hide Plug;
    PlugBalanced(p, t, BlackHeight(Plug(p, t)));
    var h := BlackHeight(t);
    assert Bal(t, h) && NoRedRed(t) && NoRedRed(kid);
    if t.red {
      assert Bal(kid, 0);
    } else {
      assert Bal(kid, h - 1) && h - 1 == 0;
    }
  }

  lemma LacksRenamed(q: Path, p: Path, n: RbNode, m: RbNode, c: bool, o: Tree, kid: Tree, red: bool)
    requires Lacks(Join(q, Step(p, R, n, c, o)), kid, red)
    ensures Lacks(Join(q, Step(p, R, m, c, o)), kid, red)
  {
    FitsRenamed(q, p, n, m, c, o, if red then 0 else 1);
  }

  lemma LacksShort(p: Path, kid: Tree, red: bool)
    requires Lacks(p, kid, red)
    ensures !red ==> Short(p, kid, 0)
  {}

  lemma NothingLacks(p: Path, kid: Tree)
    requires Lacks(p, kid, true)
    ensures RedBlack(Plug(p, kid))
  {
    PlugRedBlack(p, kid, 0);
  }

  lemma TurnedUpSame(p: Path, t: Tree)
    requires p.Step? && p.other.Branch?
    ensures var s, b, e := p.side, Near(p.side, p.other), Near(Other(p.side), p.other);
            Inorder(Plug(Step(Step(p.up, s, p.other.node, false, e), s, p.node, true, b), t)) == Inorder(Plug(p, t))
  {
    hide Make;
    var s, b, e := p.side, Near(p.side, p.other), Near(Other(p.side), p.other);
    MakeAgain(s, p.other);
    RotateInorder(s, t, p.node, p.red, b, p.other.node, p.other.red, e, true, false);
    PlugSame(p.up, Make(s, t, p.node, p.red, p.other), Make(s, Make(s, t, p.node, true, b), p.other.node, false, e));
    var q := Step(p.up, s, p.other.node, false, e);
    assert Plug(Step(q, s, p.node, true, b), t) == Plug(q, Make(s, t, p.node, true, b));
  }

  lemma LiftedSame(p: Path, t: Tree)
    requires p.Step? && p.other.Branch?
    ensures Inorder(Plug(p.up, Make(p.side, t, p.node, p.red, p.other.(red := true)))) == Inorder(Plug(p, t))
  {
    PlugSame(p.up, Make(p.side, t, p.node, p.red, p.other.(red := true)), Make(p.side, t, p.node, p.red, p.other));
  }

  lemma SiblingTurnedSame(p: Path, t: Tree)
    requires p.Step? && p.other.Branch? && Near(p.side, p.other).Branch?
    ensures var s, b, e := p.side, Near(p.side, p.other), Near(Other(p.side), p.other);
            Inorder(Plug(p.(other := Make(s, Near(s, b), b.node, false, Make(s, Near(Other(s), b), p.other.node, true, e))), t))
            == Inorder(Plug(p, t))
  {
    hide Make;
    var s, b, e := p.side, Near(p.side, p.other), Near(Other(p.side), p.other);
    var b1, b2, n := Near(s, b), Near(Other(s), b), p.other.node;
    MakeAgain(s, p.other);
    MakeAgain(s, b);
    var sib := Make(s, b1, b.node, false, Make(s, b2, n, true, e));
    RotateInorder(s, b1, b.node, false, b2, n, true, e, b.red, p.other.red);
    MakeInorder(s, t, p.node, p.red, p.other);
    MakeInorder(s, t, p.node, p.red, sib);
    PlugSame(p.up, Make(s, t, p.node, p.red, p.other), Make(s, t, p.node, p.red, sib));
  }

  lemma SettledSame(p: Path, t: Tree)
    requires p.Step? && p.other.Branch? && Near(Other(p.side), p.other).Branch?
    ensures var s, b, e := p.side, Near(p.side, p.other), Near(Other(p.side), p.other);
            Inorder(Plug(p.up, Make(s, Make(s, t, p.node, false, b), p.other.node, p.red, e.(red := false))))
            == Inorder(Plug(p, t))
  {
    hide Make;
    var s, b, e := p.side, Near(p.side, p.other), Near(Other(p.side), p.other);
    MakeAgain(s, p.other);
    RotateInorder(s, t, p.node, p.red, b, p.other.node, p.other.red, e, false, p.red);
    PaintInorder(e, false);
    MakeInorder(s, Make(s, t, p.node, false, b), p.other.node, p.red, e);
    MakeInorder(s, Make(s, t, p.node, false, b), p.other.node, p.red, e.(red := false));
    PlugSame(p.up, Make(s, t, p.node, p.red, p.other),
             Make(s, Make(s, t, p.node, false, b), p.other.node, p.red, e.(red := false)));
  }

  function Blacker(t: Tree): Tree { if t.Leaf? then t else t.(red := false) }

  lemma LinkedMake(s: Side, t: Tree, n: RbNode, c: bool, o: Tree, up: RbNode?)
    ensures Linked(Make(s, t, n, c, o), up) <==>
              n.Kid(s) == RootOf(t) && n.Kid(Other(s)) == RootOf(o) && n.parent == up && n.red == c &&
              Linked(t, n) && Linked(o, n)
  {}

  lemma LinkedLeaf(up: RbNode?)
    ensures Linked(Leaf, up)
  {}

  lemma LinkedRoot(t: Tree, up: RbNode?)
    requires t.Branch?
    ensures Linked(t, up) <==>
              t.node.left == RootOf(t.left) && t.node.right == RootOf(t.right) && t.node.parent == up &&
              t.node.red == t.red && Linked(t.left, t.node) && Linked(t.right, t.node)
  {}

  class RbHead {
    var root: RbNode?
    ghost var shape: Tree

    /** The fields of the nodes around the place that `p` leads to, with `hole` in the place. */
    ghost predicate Hangs(p: Path, hole: RbNode?)
      reads this`root, Around(p)
    {
      match p
      case Top => root == hole
      case Step(up, s, n, c, o) =>
        n.Kid(s) == hole && n.Kid(Other(s)) == RootOf(o) && n.parent == Above(up) && n.red == c && Linked(o, n) &&
        Hangs(up, n)
    }

    /** The heap holds the tree `t` in the place of `p`. */
    ghost predicate At(p: Path, t: Tree)
      reads this`root, Around(p), Nodes(t)
    {
      Linked(t, Above(p)) && Hangs(p, RootOf(t)) && Apart(p, t)
    }

    /** One step up or down the tree. */
    lemma AtStep(up: Path, s: Side, t: Tree, n: RbNode, c: bool, o: Tree)
      ensures At(up, Make(s, t, n, c, o)) <==> At(Step(up, s, n, c, o), t)
    {
      ApartStep(up, s, t, n, c, o);
    }

    lemma HangsStep(p: Path, hole: RbNode?)
      ensures Hangs(p, hole) <==>
                if p.Top? then root == hole
                else p.node.Kid(p.side) == hole && p.node.Kid(Other(p.side)) == RootOf(p.other) &&
                     p.node.parent == Above(p.up) && p.node.red == p.red && Linked(p.other, p.node) &&
                     Hangs(p.up, p.node)
    {}

    /** A colour changed. */
    method Paint(n: RbNode, red: bool, ghost p: Path, ghost t: Tree)
      requires At(p, t) && t.Branch? && t.node == n
      modifies n`red
      ensures At(p, t.(red := red))
    {
      n.red := red;
    }

    method PaintAbove(n: RbNode, red: bool, ghost p: Path, ghost t: Tree)
      requires At(p, t) && p.Step? && p.node == n
      modifies n`red
      ensures At(p.(red := red), t)
    {
      hide At, Make;
      AtStep(p.up, p.side, t, n, p.red, p.other);
      MakePaint(p.side, t, n, p.red, p.other, red);
      Paint(n, red, p.up, Make(p.side, t, n, p.red, p.other));
      AtStep(p.up, p.side, t, n, red, p.other);
    }

    method PaintOther(n: RbNode, red: bool, ghost p: Path, ghost t: Tree)
      requires At(p, t) && p.Step? && p.other.Branch? && p.other.node == n
      modifies n`red
      ensures At(p.(other := p.other.(red := red)), t)
    {
      hide At, Make;
      Across(p, t);
      Paint(n, red, Step(p.up, Other(p.side), p.node, p.red, t), p.other);
      Across(p.(other := p.other.(red := red)), t);
    }

    /** From the place to its sibling. */
    lemma Across(p: Path, t: Tree)
      requires p.Step?
      ensures At(p, t) <==> At(Step(p.up, Other(p.side), p.node, p.red, t), p.other)
    {
      hide At, Make;
      AtStep(p.up, p.side, t, p.node, p.red, p.other);
      AtStep(p.up, Other(p.side), p.other, p.node, p.red, t);
      MakeFlip(p.side, t, p.node, p.red, p.other);
    }

    /** What the fields around the place show. */
    lemma Seen(p: Path, t: Tree)
      requires At(p, t)
      ensures t.Branch? ==> t.node.parent == Above(p) && t.node.red == t.red && t.node.left == RootOf(t.left) &&
                            t.node.right == RootOf(t.right)
      ensures p.Step? ==> p.node.Kid(p.side) == RootOf(t) && p.node.Kid(Other(p.side)) == RootOf(p.other) &&
                          p.node.parent == Above(p.up) && p.node.red == p.red &&
                          (p.other.Branch? ==> p.other.node.red == p.other.red && p.other.node.parent == p.node) &&
                          (RootOf(t) == RootOf(p.other) ==> RootOf(t) == null)
      ensures p.Top? ==> root == RootOf(t)
    {
      RootInside(t);
      if p.Step? { RootInside(p.other); }
    }

    /** `RB_ROTATE_LEFT` for side `L`, `RB_ROTATE_RIGHT` for `R`: `elm` goes down on side `s`. */
    method Rotate(s: Side, elm: RbNode, ghost p: Path, ghost a: Tree, ghost c: bool, ghost b: Tree, ghost d: bool,
                  ghost e: Tree)
      returns (tmp: RbNode)
      requires elm.Kid(Other(s)) != null
      requires At(p, Make(s, a, elm, c, Make(s, b, elm.Kid(Other(s)), d, e)))
      modifies this`root, Nodes(Make(s, a, elm, c, Make(s, b, elm.Kid(Other(s)), d, e))), Around(p)
      ensures tmp == old(elm.Kid(Other(s)))
      ensures At(p, Make(s, Make(s, a, elm, c, b), tmp, d, e))
    {
      hide Apart, Make, Neat, NeatPath, Nodes, Around, Linked, Hangs;
      tmp := elm.Kid(Other(s));
      RotateApart(s, p, a, elm, c, b, tmp, d, e);
      LinkedMake(s, a, elm, c, Make(s, b, tmp, d, e), Above(p));
      LinkedMake(s, b, tmp, d, e, elm);
      MakeRoot(s, b, tmp, d, e);
      MakeRoot(s, a, elm, c, Make(s, b, tmp, d, e));
      TakeKid(s, elm, tmp, p, a, b, e);
      Raise(s, elm, tmp, p, a, b, e);
      LinkedMake(s, a, elm, c, b, tmp);
      MakeRoot(s, a, elm, c, b);
      LinkedMake(s, Make(s, a, elm, c, b), tmp, d, e, Above(p));
      MakeRoot(s, Make(s, a, elm, c, b), tmp, d, e);
    }

    /** The branch of `RB_INSERT_COLOR` for a red uncle. */
    method Recolour(tmp: RbNode, parent: RbNode, gparent: RbNode, ghost p: Path, ghost t: Tree)
      requires At(p, t) && p.Step? && p.up.Step? && p.up.other.Branch?
      requires parent == p.node && gparent == p.up.node && tmp == p.up.other.node
      modifies tmp`red, parent`red, gparent`red
      ensures At(p.up.up, Make(p.up.side, Make(p.side, t, parent, false, p.other), gparent, true, p.up.other.(red := false)))
    {
      hide At, Make;
      ghost var g := p.up;
      AtStep(g, p.side, t, parent, p.red, p.other);
      PaintOther(tmp, false, g, Make(p.side, t, parent, p.red, p.other));
      ghost var g1 := g.(other := g.other.(red := false));
      AtStep(g1, p.side, t, parent, p.red, p.other);
      PaintAbove(parent, false, p.(up := g1), t);
      AtStep(g1, p.side, t, parent, false, p.other);
      PaintAbove(gparent, true, g1, Make(p.side, t, parent, false, p.other));
      AtStep(g1.up, g.side, Make(p.side, t, parent, false, p.other), gparent, true, g1.other);
    }

    /** The branch for a black uncle, once the red child is on the outer side. */
    method Restructure(side: Side, parent: RbNode, gparent: RbNode, ghost p: Path, ghost t: Tree)
      requires At(p, t) && p.Step? && p.up.Step? && p.side == p.up.side == side && parent == p.node && gparent == p.up.node
      modifies this`root, Around(p), Nodes(t)
      ensures At(Step(p.up.up, p.side, parent, false, Make(Other(p.side), p.up.other, gparent, true, p.other)), t)
    {
      hide At, Make;
      ghost var g, s, o := p.up, p.side, Other(p.side);
      assert Around(p) == {parent} + Nodes(p.other) + Around(g) && Around(g) == {gparent} + Nodes(g.other) + Around(g.up);
      MakeNeat(o, g.other, gparent, true, Make(o, p.other, parent, false, t));
      MakeNeat(o, p.other, parent, false, t);
      PaintAbove(parent, false, p, t);
      AtStep(g, s, t, parent, false, p.other);
      PaintAbove(gparent, true, g, Make(s, t, parent, false, p.other));
      AtStep(g.up, s, Make(s, t, parent, false, p.other), gparent, true, g.other);
      MakeFlip(s, Make(s, t, parent, false, p.other), gparent, true, g.other);
      MakeFlip(s, t, parent, false, p.other);
      Seen(g.(red := true), Make(s, t, parent, false, p.other));
      MakeRoot(s, t, parent, false, p.other);
      var tmp := Rotate(Other(side), gparent, g.up, g.other, true, p.other, false, t);
      MakeFlip(s, t, parent, false, Make(o, g.other, gparent, true, p.other));
      AtStep(g.up, s, t, parent, false, Make(o, g.other, gparent, true, p.other));
    }

    /** From the place to the root of the whole tree. */
    lemma {:induction false} AtWhole(p: Path, t: Tree)
      ensures At(p, t) <==> At(Top, Plug(p, t))
      decreases p
    {
      hide At;
      match p
      case Top =>
      case Step(up, s, n, c, o) =>
        AtStep(up, s, t, n, c, o);
        AtWhole(up, Make(s, t, n, c, o));
    }

    /** `RB_INSERT_COLOR`: mends a tree in which the red node `elm0` may have a red parent. */
    method InsertColor(elm0: RbNode, ghost p0: Path, ghost t0: Tree, ghost h0: nat) returns (ghost whole: Tree)
      requires At(p0, t0) && Pending(p0, t0, h0) && t0.node == elm0
      modifies this`root, Nodes(t0), Around(p0)
      ensures At(Top, whole) && RedBlack(whole) && Inorder(whole) == Inorder(Plug(p0, t0))
    {
      hide At, Make, Pending, Inorder, Plug, RedBlack;
      var elm := elm0;
      ghost var p, t, h := p0, t0, h0;
      PendingRoot(p, t, h);
      Seen(p, t);
      while elm.parent != null && elm.parent.red
        invariant At(p, t) && Pending(p, t, h) && t.Branch? && t.red && t.node == elm && elm.parent == Above(p)
        invariant p.Step? ==> p.node.red == p.red
        invariant Inorder(Plug(p, t)) == Inorder(Plug(p0, t0)) && Nodes(t) + Around(p) == Nodes(t0) + Around(p0)
        decreases Depth(p)
      {
        var parent := elm.parent;
        RedParent(p, t, h);
        assert Depth(p) == Depth(p.up) + 1 && Depth(p.up) == Depth(p.up.up) + 1;
        Seen(p, t);
        AtStep(p.up, p.side, t, parent, true, p.other);
        Seen(p.up, Make(p.side, t, parent, true, p.other));
        MakeRoot(p.side, t, parent, true, p.other);
        var gparent := parent.parent;
        var side := if parent == gparent.left then L else R;
        var tmp := gparent.Kid(Other(side));
        if tmp != null && tmp.red {
          Recoloured(p, t, h);
          RecolouredSame(p, t);
          Recolour(tmp, parent, gparent, p, t);
          MakeRoot(side, Make(p.side, t, parent, false, p.other), gparent, true, p.up.other.(red := false));
          p, t, h := p.up.up, Make(side, Make(p.side, t, parent, false, p.other), gparent, true, p.up.other.(red := false)), h + 1;
          elm := gparent;
        } else {
          if parent.Kid(Other(side)) == elm {
            assert p == Step(p.up, Other(side), parent, true, p.other);
            MakeAgain(side, t);
            Turned(p.up, side, p.other, parent, elm, Near(side, t), Near(Other(side), t), h);
            RotatedSame(p.up, side, p.other, parent, true, Near(side, t), elm, true, Near(Other(side), t));
            Turn(side, parent, elm, p, t);
            MakeRoot(side, p.other, parent, true, Near(side, t));
            p, t := Step(p.up, side, elm, true, Near(Other(side), t)), Make(side, p.other, parent, true, Near(side, t));
            parent, elm := elm, parent;
          }
          SameNodes(p, t, p0, t0);
          Restructured(p, t, h);
          RestructuredSame(p, t);
          Restructure(side, parent, gparent, p, t);
          p := Step(p.up.up, side, parent, false, Make(Other(side), p.up.other, gparent, true, p.other));
        }
        SameNodes(p, t, p0, t0);
        PendingRoot(p, t, h);
        Seen(p, t);
      }
      Blackened(p, t, h);
      AtWhole(p, t);
      SameNodes(p, t, p0, t0);
      PlugNodes(p, t);
      whole := Plug(p, t);
      Seen(Top, whole);
      RootInside(whole);
      Paint(root, false, Top, whole);
      PaintInorder(whole, false);
      whole := whole.(red := false);
    }

    /** The first rotation of `RB_INSERT_COLOR`: an inner red child is turned outward. */
    method Turn(side: Side, parent: RbNode, elm: RbNode, ghost p: Path, ghost t: Tree)
      requires At(p, t) && p.Step? && p.side == Other(side) && p.node == parent && t.Branch? && t.node == elm
      modifies this`root, Around(p), Nodes(t)
      ensures At(Step(p.up, side, elm, t.red, Near(Other(side), t)), Make(side, p.other, parent, p.red, Near(side, t)))
    {
      hide At, Make;
      ghost var a, b, e := p.other, Near(side, t), Near(Other(side), t);
      AtStep(p.up, p.side, t, parent, p.red, a);
      MakeFlip(side, a, parent, p.red, t);
      MakeAgain(side, t);
      MakeNeat(side, a, parent, p.red, t);
      Seen(p, t);
      var tmp := Rotate(side, parent, p.up, a, p.red, b, t.red, e);
      AtStep(p.up, side, Make(side, a, parent, p.red, b), elm, t.red, e);
    }

    /** A red-black search tree. */
    ghost predicate Valid()
      reads this, Nodes(shape)
    {
      At(Top, shape) && RedBlack(shape) && Rising(Inorder(shape))
    }

    constructor ()
      ensures Valid() && Inorder(shape) == []
    {
      root, shape := null, Leaf;
    }

    /** One step of a search. */
    lemma SearchStep(p: Path, t: Tree, s: Side, key: int)
      requires At(p, t) && t.Branch? && Rising(Inorder(Plug(p, t))) && Straddles(p, key)
      requires if s == L then key < t.node.key else t.node.key < key
      ensures var q := Step(p, s, t.node, t.red, Near(Other(s), t));
              At(q, Near(s, t)) && Plug(q, Near(s, t)) == Plug(p, t) && Straddles(q, key)
    {
      hide At, Make, Rising, Straddles;
      Descend(p, t, s, key);
      MakeAgain(s, t);
      AtStep(p, s, Near(s, t), t.node, t.red, Near(Other(s), t));
    }

    /** The new node put in its place. */
    method LinkNew(elm: RbNode, parent: RbNode?, comp: int, ghost p: Path)
      requires At(p, Leaf) && elm !in Around(p) && parent == Above(p) && (p.Step? ==> (comp < 0 <==> p.side == L))
      modifies this`root, elm, parent
      ensures At(p, Branch(Leaf, elm, true, Leaf))
    {
      hide Neat, NeatPath, Around, Hangs;
      if p.Step? { TopNeat(p); }
      HangsStep(p, null);
      elm.parent := parent;
      elm.left, elm.right := null, null;
      elm.red := true;
      if parent != null {
        if comp < 0 { parent.left := elm; } else { parent.right := elm; }
      } else {
        root := elm;
      }
      HangsStep(p, elm);
      assert Hangs(p, elm);
      NewNeat(elm);
      assert Linked(Branch(Leaf, elm, true, Leaf), parent);
    }

    ghost method SetShape(whole: Tree)
      requires At(Top, whole)
      modifies this`shape
      ensures At(Top, whole) && shape == whole
    {
      shape := whole;
    }

    /** `RB_INSERT` */
    method Insert(elm: RbNode) returns (found: RbNode?)
      requires Valid()
      modifies this, Nodes(shape), elm
      ensures Valid()
      ensures found == null <==> !Has(old(Inorder(shape)), elm.key)
      ensures found != null ==> found in Inorder(shape) && found.key == elm.key && shape == old(shape)
      ensures found == null ==>
                exists i :: 0 <= i <= |old(Inorder(shape))| &&
                  Inorder(shape) == old(Inorder(shape))[..i] + [elm] + old(Inorder(shape))[i..]
    {
      hide At, Linked, Hangs, Nodes, Around, Rising, Straddles, RedBlack;
      var parent: RbNode?, comp := null, 0;
      var tmp := root;
      ghost var p, t := Top, shape;
      Seen(p, t);
      TopStraddles(elm.key);
      assert Rising(Inorder(shape));
      while tmp != null
        invariant At(p, t) && tmp == RootOf(t) && parent == Above(p) && Plug(p, t) == shape && shape == old(shape) && Valid()
        invariant Straddles(p, elm.key) && (p.Step? ==> (comp < 0 <==> p.side == L))
        decreases t
      {
        parent := tmp;
        comp := elm.key - parent.key;
        Seen(p, t);
        if comp < 0 {
          SearchStep(p, t, L, elm.key);
          tmp := tmp.left;
          p, t := Step(p, L, t.node, t.red, t.right), t.left;
        } else if comp > 0 {
          SearchStep(p, t, R, elm.key);
          tmp := tmp.right;
          p, t := Step(p, R, t.node, t.red, t.left), t.right;
        } else {
          InPlace(p, t);
          return tmp;
        }
      }
      NotThere(p, elm.key);
      NewInOrder(p, elm);
      NewPending(p, elm);
      LeafNodes(p);
      NewNeat(elm);
      LinkNew(elm, parent, comp, p);
      ghost var whole := InsertColor(elm, p, Branch(Leaf, elm, true, Leaf), 0);
      SetShape(whole);
      found := null;
    }

    /** `RB_REMOVE_COLOR`, a red sibling: it is painted black and turned up. */
    method TurnUp(side: Side, parent: RbNode, tmp: RbNode, ghost p: Path, ghost t: Tree)
      requires At(p, t) && p.Step? && p.side == side && p.node == parent && p.other.Branch? && p.other.node == tmp
      modifies this`root, Around(p), Nodes(t)
      ensures var b, e := Near(side, p.other), Near(Other(side), p.other);
              At(Step(Step(p.up, side, tmp, false, e), side, parent, true, b), t)
    {
      hide At, Make;
      ghost var b, e := Near(side, p.other), Near(Other(side), p.other);
      MakeAgain(side, p.other);
      MakePaint(side, b, tmp, p.other.red, e, false);
      MakeNeat(side, t, parent, true, Make(side, b, tmp, false, e));
      MakeNeat(side, b, tmp, false, e);
      MakeNeat(side, b, tmp, p.other.red, e);
      PaintOther(tmp, false, p, t);
      PaintAbove(parent, true, p.(other := Make(side, b, tmp, false, e)), t);
      Seen(Step(p.up, side, parent, true, Make(side, b, tmp, false, e)), t);
      AtStep(p.up, side, t, parent, true, Make(side, b, tmp, false, e));
      var up := Rotate(side, parent, p.up, t, true, b, false, e);
      AtStep(p.up, side, Make(side, t, parent, true, b), tmp, false, e);
      AtStep(Step(p.up, side, tmp, false, e), side, t, parent, true, b);
    }

    /** A red inner kid `inner` of the sibling: it takes the sibling's place. */
    method TurnSibling(side: Side, inner: RbNode?, tmp: RbNode, ghost p: Path, ghost t: Tree)
      requires At(p, t) && p.Step? && p.side == side && p.other.Branch? && p.other.node == tmp
      requires Near(side, p.other).Branch? && Near(side, p.other).node == inner
      modifies this`root, Around(p), Nodes(t)
      ensures var b, e := Near(side, p.other), Near(Other(side), p.other);
              At(p.(other := Make(side, Near(side, b), inner, false, Make(side, Near(Other(side), b), tmp, true, e))), t)
    {
      hide At, Make;
      ghost var o, b, e := Other(side), Near(side, p.other), Near(Other(side), p.other);
      ghost var b1, b2, q := Near(side, b), Near(o, b), Step(p.up, o, p.node, p.red, t);
      Across(p, t);
      MakeAgain(side, p.other);
      AtStep(q, side, b, tmp, p.other.red, e);
      MakeNeat(side, b, tmp, p.other.red, e);
      RootInside(b);
      if inner != null { Paint(inner, false, Step(q, side, tmp, p.other.red, e), b); }
      AtStep(q, side, b.(red := false), tmp, p.other.red, e);
      MakePaint(side, b.(red := false), tmp, p.other.red, e, true);
      Paint(tmp, true, q, Make(side, b.(red := false), tmp, p.other.red, e));
      MakeAgain(side, b);
      MakePaint(side, b1, inner, b.red, b2, false);
      MakeFlip(side, Make(side, b1, inner, false, b2), tmp, true, e);
      MakeFlip(side, b1, inner, false, b2);
      MakeNeat(side, Make(side, b1, inner, false, b2), tmp, true, e);
      MakeNeat(side, b1, inner, false, b2);
      MakeNeat(side, b1, inner, b.red, b2);
      AtStep(q, side, Make(side, b1, inner, false, b2), tmp, true, e);
      Seen(Step(q, side, tmp, true, e), Make(side, b1, inner, false, b2));
      MakeRoot(side, b1, inner, false, b2);
      var up := Rotate(Other(side), tmp, q, e, true, b2, false, b1);
      MakeFlip(side, b2, tmp, true, e);
      MakeFlip(side, b1, inner, false, Make(side, b2, tmp, true, e));
      Across(p.(other := Make(side, b1, inner, false, Make(side, b2, tmp, true, e))), t);
    }

    /** A red outer kid of the sibling: the sibling takes the parent's place and colour. */
    method Settle(side: Side, parent: RbNode, tmp: RbNode, ghost p: Path, ghost t: Tree)
      requires At(p, t) && p.Step? && p.side == side && p.node == parent && p.other.Branch? && p.other.node == tmp
      requires Near(Other(side), p.other).Branch?
      modifies this`root, Around(p), Nodes(t)
      ensures var b, e := Near(side, p.other), Near(Other(side), p.other);
              At(p.up, Make(side, Make(side, t, parent, false, b), tmp, p.red, e.(red := false)))
    {
      hide At, Make;
      ghost var o, b, e := Other(side), Near(side, p.other), Near(Other(side), p.other);
      ghost var c, e1 := p.red, e.(red := false);
      MakeAgain(side, p.other);
      MakeNeat(side, b, tmp, p.other.red, e);
      RootInside(e);
      Seen(p, t);
      PaintOther(tmp, parent.red, p, t);
      MakePaint(side, b, tmp, p.other.red, e, c);
      ghost var p1 := Step(p.up, side, parent, c, Make(side, b, tmp, c, e));
      PaintAbove(parent, false, p1, t);
      ghost var q := Step(p.up, o, parent, false, t);
      Across(p1.(red := false), t);
      MakeFlip(side, b, tmp, c, e);
      AtStep(q, o, e, tmp, c, b);
      Seen(Step(q, o, tmp, c, b), e);
      var outer := tmp.Kid(Other(side));
      if outer != null { Paint(outer, false, Step(q, o, tmp, c, b), e); }
      AtStep(q, o, e1, tmp, c, b);
      MakeFlip(side, b, tmp, c, e1);
      Across(Step(p.up, side, parent, false, Make(side, b, tmp, c, e1)), t);
      Seen(Step(p.up, side, parent, false, Make(side, b, tmp, c, e1)), t);
      MakeRoot(side, b, tmp, c, e1);
      AtStep(p.up, side, t, parent, false, Make(side, b, tmp, c, e1));
      MakeNeat(side, t, parent, false, Make(side, b, tmp, c, e1));
      MakeNeat(side, b, tmp, c, e1);
      PaintNodes(e);
      var up := Rotate(side, parent, p.up, t, false, b, c, e1);
    }

    /** Below the root the place is not the root. */
    lemma NotRoot(p: Path, t: Tree)
      requires At(p, t)
      ensures RootOf(t) == root <==> p.Top?
    {
      hide At, Plug, Around, Nodes;
      AtWhole(p, t);
      Seen(Top, Plug(p, t));
      PlugRoot(p, t);
      AtApart(p, t);
      RootInside(t);
    }

    lemma AtApart(p: Path, t: Tree)
      requires At(p, t)
      ensures Apart(p, t)
    {}

    /** One turn of the loop of `RB_REMOVE_COLOR`: the missing node moves up, or nothing is missing any more. */
    method MoveUp(parent0: RbNode, elm0: RbNode?, ghost p0: Path, ghost t0: Tree, ghost h0: nat)
      returns (parent: RbNode?, elm: RbNode?, ended: bool, ghost p: Path, ghost t: Tree, ghost h: nat)
      requires At(p0, t0) && Short(p0, t0, h0) && p0.Step? && parent0 == p0.node && elm0 == RootOf(t0) && !IsRed(t0)
      modifies this`root, Nodes(t0), Around(p0)
      ensures At(p, t) && elm == RootOf(t) && Inorder(Plug(p, t)) == Inorder(Plug(p0, t0))
      ensures if ended then p.Top? && RedBlack(t)
              else parent == Above(p) && Short(p, t, h) && (IsRed(t) || Depth(p) < Depth(p0))
    {
      hide At, Make, Short, Inorder, Plug, RedBlack, Nodes, Around, Near, Soft, Fits, Bal, NoRedRed, Apart, Linked, Hangs, Blacker;
      parent, elm, ended := parent0, elm0, false;
      p, t, h := p0, t0, h0;
      HasSibling(p, t, h);
      Seen(p, t);
      var side := if parent.left == elm then L else R;
      var tmp := parent.Kid(Other(side));
      if tmp.red {
        p := RedSibling(side, parent, tmp, p, t, h);
        SameNodes(p, t, p0, t0);
        tmp := parent.Kid(Other(side));
      }
      Nephews(p, t);
      HasSibling(p, t, h);
      if (tmp.left == null || !tmp.left.red) && (tmp.right == null || !tmp.right.red) {
        t := Lift(side, tmp, p, t, h);
        p, h := p.up, if p.red then h else h + 1;
        Seen(p, t);
        elm := parent;
        parent := elm.parent;
      } else {
        t := Finish(side, parent, tmp, p, t, h);
        p := Top;
        PlugNodesTop(t);
        Seen(p, t);
        elm := root;
        ended := true;
      }
    }

    /** `RB_REMOVE_COLOR`: makes up for a black node that is missing in the place of `elm0`. */
    method RemoveColor(parent0: RbNode?, elm0: RbNode?, ghost p0: Path, ghost t0: Tree, ghost h0: nat) returns (ghost whole: Tree)
      requires At(p0, t0) && Short(p0, t0, h0) && elm0 == RootOf(t0) && parent0 == Above(p0)
      modifies this`root, Nodes(t0), Around(p0)
      ensures At(Top, whole) && RedBlack(whole) && Inorder(whole) == Inorder(Plug(p0, t0))
    {
      hide At, Make, Short, Inorder, Plug, RedBlack, Nodes, Around, Apart, Linked, Hangs;
      var parent, elm, ended := parent0, elm0, false;
      ghost var p, t, h := p0, t0, h0;
      Seen(p, t);
      NotRoot(p, t);
      while (elm == null || !elm.red) && elm != root
        invariant At(p, t) && Short(p, t, h) && elm == RootOf(t) && parent == Above(p)
        invariant (elm != null ==> elm.red == t.red) && (elm == root <==> p.Top?)
        invariant Inorder(Plug(p, t)) == Inorder(Plug(p0, t0)) && Nodes(t) + Around(p) == Nodes(t0) + Around(p0)
        invariant !ended
        decreases if IsRed(t) then 0 else 1, Depth(p)
      {
        parent, elm, ended, p, t, h := MoveUp(parent, elm, p, t, h);
        SameNodes(p, t, p0, t0);
        Seen(p, t);
        if ended {
          PlugNodesTop(t);
          BlackAlready(t);
          break;
        }
        NotRoot(p, t);
      }
      if !ended { MadeUp(p, t, h); }
      RootInside(t);
      whole := Blacken(elm, p, t);
    }

    method Blacken(elm: RbNode?, ghost p: Path, ghost t: Tree) returns (ghost whole: Tree)
      requires At(p, t) && elm == RootOf(t)
      modifies elm
      ensures At(Top, whole) && whole == Plug(p, Blacker(t)) && Inorder(whole) == Inorder(Plug(p, t))
    {
      hide At, Inorder, Plug;
      if elm != null { Paint(elm, false, p, t); }
      AtWhole(p, Blacker(t));
      BlackerSame(p, t);
      whole := Plug(p, Blacker(t));
    }

    method RedSibling(side: Side, parent: RbNode, tmp: RbNode, ghost p: Path, ghost t: Tree, ghost h: nat) returns (ghost q: Path)
      requires At(p, t) && Short(p, t, h) && p.Step? && p.side == side && p.node == parent && IsRed(p.other)
      requires p.other.node == tmp
      modifies this`root, Around(p), Nodes(t)
      ensures At(q, t) && Short(q, t, h) && q.Step? && q.side == side && q.node == parent && q.red
      ensures q.other.Branch? && !q.other.red && parent.Kid(Other(side)) == q.other.node
      ensures Inorder(Plug(q, t)) == Inorder(Plug(p, t)) && Depth(q) == Depth(p) + 1
    {
      hide At, Make, Short, Inorder, Plug, Nodes, Around, Near;
      RedTurned(p, t, h);
      TurnedUpSame(p, t);
      TurnUp(side, parent, tmp, p, t);
      q := Step(Step(p.up, side, tmp, false, Near(Other(side), p.other)), side, parent, true, Near(side, p.other));
      Seen(q, t);
    }

    method Lift(side: Side, tmp: RbNode, ghost p: Path, ghost t: Tree, ghost h: nat) returns (ghost u: Tree)
      requires At(p, t) && Short(p, t, h) && p.Step? && p.side == side && !IsRed(t)
      requires p.other.Branch? && !p.other.red && p.other.node == tmp && !IsRed(p.other.left) && !IsRed(p.other.right)
      modifies tmp`red
      ensures At(p.up, u) && Short(p.up, u, if p.red then h else h + 1)
      ensures u.Branch? && u.node == p.node && IsRed(u) == p.red && Inorder(Plug(p.up, u)) == Inorder(Plug(p, t))
    {
      hide At, Make, Short, Inorder, Plug;
      Lifted(p, t, h);
      LiftedSame(p, t);
      PaintOther(tmp, true, p, t);
      AtStep(p.up, side, t, p.node, p.red, p.other.(red := true));
      MakeKids(side, t, p.node, p.red, p.other.(red := true));
      u := Make(side, t, p.node, p.red, p.other.(red := true));
    }

    /** The part of the loop after which nothing is missing: the sibling is black and has a red kid. */
    method Finish(side: Side, parent: RbNode, tmp0: RbNode, ghost p0: Path, ghost t: Tree, ghost h: nat)
      returns (ghost whole: Tree)
      requires At(p0, t) && Short(p0, t, h) && !IsRed(t) && p0.Step? && p0.side == side && p0.node == parent
      requires p0.other.Branch? && p0.other.node == tmp0 && !p0.other.red && (IsRed(p0.other.left) || IsRed(p0.other.right))
      modifies this`root, Around(p0), Nodes(t)
      ensures At(Top, whole) && RedBlack(whole) && Inorder(whole) == Inorder(Plug(p0, t))
    {
      hide At, Make, Short, Inorder, Plug, RedBlack, Nodes, Around;
      ghost var p := p0;
      var tmp := tmp0;
      Nephews(p, t);
      var outer := tmp.Kid(Other(side));
      if outer == null || !outer.red {
        var inner := tmp.Kid(side);
        ghost var b, e := Near(side, p.other), Near(Other(side), p.other);
        SiblingTurned(p, t, h);
        SiblingTurnedSame(p, t);
        TurnSibling(side, inner, tmp, p, t);
        p := p.(other := Make(side, Near(side, b), inner, false, Make(side, Near(Other(side), b), tmp, true, e)));
        MakeKids(side, Near(side, b), inner, false, Make(side, Near(Other(side), b), tmp, true, e));
        MakeKids(side, Near(Other(side), b), tmp, true, e);
        SameNodes(p, t, p0, t);
        Seen(p, t);
        tmp := parent.Kid(Other(side));
      }
      Settled(p, t, h);
      SettledSame(p, t);
      Settle(side, parent, tmp, p, t);
      whole := Plug(p.up, Make(side, Make(side, t, parent, false, Near(side, p.other)), tmp, p.red,
                               Near(Other(side), p.other).(red := false)));
      AtWhole(p.up, Make(side, Make(side, t, parent, false, Near(side, p.other)), tmp, p.red,
                         Near(Other(side), p.other).(red := false)));
    }

    /** The kids of the sibling. */
    lemma Nephews(p: Path, t: Tree)
      requires At(p, t) && p.Step? && p.other.Branch?
      ensures var n, l, r := p.other.node, p.other.left, p.other.right;
              n in Around(p) && n.left == RootOf(l) && n.right == RootOf(r) && n.red == p.other.red &&
              (l.Branch? ==> l.node.red == l.red) && (r.Branch? ==> r.node.red == r.red)
      ensures var n, b, e := p.other.node, Near(p.side, p.other), Near(Other(p.side), p.other);
              n.Kid(p.side) == RootOf(b) && n.Kid(Other(p.side)) == RootOf(e) &&
              (b.Branch? ==> b.node.red == b.red) && (e.Branch? ==> e.node.red == e.red)
    {
      RootInside(p.other);
      var l, r := p.other.left, p.other.right;
      assert Linked(p.other, p.node) && Linked(l, p.other.node) && Linked(r, p.other.node);
    }

    /** The node in the place, which has at most one kid, gives its place to the kid. */
    method Splice(elm: RbNode, child: RbNode?, parent: RbNode?, ghost p: Path, ghost t: Tree, ghost kid: Tree)
      requires At(p, t) && t.Branch? && t.node == elm && parent == Above(p) && child == RootOf(kid)
      requires if t.left.Leaf? then kid == t.right else t.right.Leaf? && kid == t.left
      modifies this`root, child, parent
      ensures At(p, kid) && elm !in Around(p) && elm !in Nodes(kid)
    {
      hide Neat, NeatPath, Nodes, Around, Linked, Hangs;
      RootNeat(t);
      LinkedRoot(t, parent);
      KidApart(p, t, kid);
      if kid.Branch? { RootNeat(kid); LinkedRoot(kid, elm); }
      if p.Step? { TopNeat(p); RootInside(p.other); }
      if child != null { child.parent := parent; }
      if kid.Branch? { LinkedRoot(kid, parent); } else { LinkedLeaf(parent); }
      assert Linked(kid, parent);
      HangsStep(p, elm);
      if parent != null {
        if parent.left == elm { parent.left := child; } else { parent.right := child; }
      } else {
        root := child;
      }
      HangsStep(p, child);
      assert Hangs(p, child);
    }

    /** `elm` takes the fields of `old`, and its place. */
    method Substitute(elm: RbNode, old_: RbNode, ghost p: Path, ghost l: Tree, ghost c: bool, ghost r: Tree)
      requires At(p, Branch(l, old_, c, r)) && l.Branch? && elm !in Around(p) && elm !in Nodes(l) && elm !in Nodes(r) && elm != old_
      modifies this`root, elm, Above(p), RootOf(l), RootOf(r)
      ensures At(p, Branch(l, elm, c, r))
    {
      hide Neat, NeatPath, Nodes, Around, Linked, Hangs;
      ghost var t := Branch(l, old_, c, r);
      RootNeat(t);
      LinkedRoot(t, Above(p));
      RenameApart(p, l, old_, elm, c, r);
      if p.Step? { TopNeat(p); RootInside(p.other); }
      HangsStep(p, old_);
      elm.left, elm.right, elm.parent, elm.red := old_.left, old_.right, old_.parent, old_.red;
      if old_.parent != null {
        if old_.parent.left == old_ { old_.parent.left := elm; } else { old_.parent.right := elm; }
      } else {
        root := elm;
      }
      HangsStep(p, elm);
      assert Hangs(p, elm) && Linked(l, old_) && Linked(r, old_);
      AdoptKids(elm, old_, p, l, c, r);
    }

    /** The kids of `old_` come under `elm`. */
    method AdoptKids(elm: RbNode, old_: RbNode, ghost p: Path, ghost l: Tree, ghost c: bool, ghost r: Tree)
      requires Hangs(p, elm) && Linked(l, old_) && Linked(r, old_) && Apart(p, Branch(l, elm, c, r))
      requires elm.left == old_.left == RootOf(l) && elm.right == old_.right == RootOf(r)
      requires elm.parent == Above(p) && elm.red == c && l.Branch? && old_ != elm && old_ !in Nodes(l) && old_ !in Nodes(r)
      modifies RootOf(l), RootOf(r)
      ensures At(p, Branch(l, elm, c, r))
    {
      hide Neat, NeatPath, Nodes, Around, Linked, Hangs;
      RootNeat(Branch(l, elm, c, r));
      ApartKids(p, l, elm, c, r);
      RootNeat(l);
      LinkedRoot(l, old_);
      old_.left.parent := elm;
      LinkedRoot(l, elm);
      assert Linked(l, elm) && Linked(r, old_);
      if r.Branch? { RootNeat(r); LinkedRoot(r, old_); }
      if old_.right != null { old_.right.parent := elm; }
      if r.Branch? { LinkedRoot(r, elm); } else { LinkedLeaf(elm); }
      LinkedRoot(Branch(l, elm, c, r), Above(p));
    }

    /** The place of a node of the tree. */
    lemma Locate(x: RbNode)
      requires Valid() && x in Nodes(shape)
      ensures var (p, t) := PathTo(Top, shape, x); At(p, t) && Plug(p, t) == shape && t.Branch? && t.node == x
    {
      hide At, RedBlack;
      var (p, t) := PathTo(Top, shape, x);
      PathToLeads(Top, shape, x);
      AtWhole(p, t);
    }

    /** A place below a place. */
    lemma AtJoin(q: Path, p: Path, t: Tree)
      ensures At(Join(q, p), t) <==> At(p, Plug(q, t))
    {
      hide At;
      AtWhole(Join(q, p), t);
      AtWhole(p, Plug(q, t));
      PlugJoin(q, p, t);
    }

    /** The branch of `RB_REMOVE` for a node `old_` with two kids: the next node, `elm`, leaves its place, where one
        node is missing now, and takes that of `old_`. */
    method RemoveInner(old_: RbNode, ghost p: Path, ghost l: Tree, ghost c: bool, ghost r: Tree)
      returns (parent: RbNode?, child: RbNode?, red: bool, elm: RbNode, ghost q: Path, ghost u: Tree)
      requires At(p, Branch(l, old_, c, r)) && l.Branch? && r.Branch?
      modifies this`root, Around(p), Nodes(l), Nodes(r), old_
      ensures u.Branch? && u.left.Leaf? && u.node == elm && u.red == red && Plug(q, u) == r && Before(q) == []
      ensures At(Join(q, Step(p, R, elm, c, l)), u.right) && child == RootOf(u.right)
      ensures parent == Above(Join(q, Step(p, R, elm, c, l)))
      ensures Around(Join(q, Step(p, R, elm, c, l))) + Nodes(u.right) <= Around(p) + Nodes(l) + Nodes(r)
    {
      hide At, Make, Plug, Nodes, Around, Apart, Linked, Hangs;
      ghost var s := Step(p, R, old_, c, l);
      Sides(l, old_, c, r);
      AtStep(p, R, r, old_, c, l);
      Seen(p, Branch(l, old_, c, r));
      AtApart(p, Branch(l, old_, c, r));
      Distinct(p, l, old_, c, r);
      elm := old_.right;
      q, u := Top, r;
      TopStep(s, r);
      Seen(s, r);
      RootInside(r);
      while elm.left != null
        invariant At(Join(q, s), u) && u.Branch? && u.node == elm && Plug(q, u) == r && Before(q) == []
        invariant elm.left == RootOf(u.left) && elm.right == RootOf(u.right) && elm.red == u.red
        invariant elm.parent == Above(Join(q, s))
        decreases u
      {
        elm := elm.left;
        Sides(u.left, u.node, u.red, u.right);
        AtStep(Join(q, s), L, u.left, u.node, u.red, u.right);
        PlugStep(q, L, u.left, u.node, u.red, u.right);
        q, u := Step(q, L, u.node, u.red, u.right), u.left;
        Seen(Join(q, s), u);
      }
      child := elm.right;
      parent := elm.parent;
      red := elm.red;
      Insides(q, u, r, s);
      Splice(elm, child, parent, Join(q, s), u, u.right);
      if elm.parent == old_ { parent := elm; }
      ghost var r', s' := Plug(q, u.right), Step(p, R, elm, c, l);
      AtJoin(q, s, u.right);
      Sides(l, old_, c, r');
      AtStep(p, R, r', old_, c, l);
      PlugNodes(q, u.right);
      RootInside(l);
      RootInside(r');
      Substitute(elm, old_, p, l, c, r');
      Sides(l, elm, c, r');
      AtStep(p, R, r', elm, c, l);
      AtJoin(q, s', u.right);
      Insides(q, u, r, s');
    }

    /** `RB_REMOVE` */
    method Remove(elm0: RbNode) returns (old_: RbNode)
      requires Valid() && elm0 in Nodes(shape)
      modifies this, Nodes(shape)
      ensures Valid() && old_ == elm0 && Without(old(Inorder(shape)), elm0, Inorder(shape))
    {
      hide At, Make, Plug, Nodes, Around, Apart, Linked, Hangs, Inorder, RedBlack, Lacks, Rising, Without;
      Locate(elm0);
      ghost var was := Inorder(shape);
      ghost var (p, t) := PathTo(Top, shape, elm0);
      ghost var kid := Leaf;
      var child, parent: RbNode?, red := null, null, false;
      old_ := elm0;
      Seen(p, t);
      TopInside(p, t);
      if elm0.left == null || elm0.right == null {
        child := if elm0.left == null then elm0.right else elm0.left;
        kid := if t.left.Leaf? then t.right else t.left;
        parent := elm0.parent;
        red := elm0.red;
        RemovedOne(p, t, kid);
        RemovedLacks(p, t, kid);
        Splice(elm0, child, parent, p, t, kid);
      } else {
        ghost var l, c, r, q, u := t.left, t.red, t.right, Top, Leaf;
        var elm;
        parent, child, red, elm, q, u := RemoveInner(old_, p, l, c, r);
        ghost var s := Step(p, R, old_, c, l);
        RemovedInner(p, l, old_, c, r, q, u);
        PlugJoin(q, s, u);
        PlugStepR(p, l, old_, c, r);
        RemovedLacks(Join(q, s), u, u.right);
        LacksRenamed(q, p, old_, elm, c, l, u.right, red);
        p, kid := Join(q, Step(p, R, elm, c, l)), u.right;
      }
      LacksShort(p, kid, red);
      ghost var whole := Plug(p, kid);
      if !red { whole := RemoveColor(parent, child, p, kid, 0); } else { AtWhole(p, kid); NothingLacks(p, kid); }
      WithoutRising(was, elm0, Inorder(whole));
      SetShape(whole);
    }

    // ---- searches

    /** `RB_FIND` */
    method Find(elm: RbNode) returns (found: RbNode?)
      requires Valid()
      ensures found == null <==> !Has(Inorder(shape), elm.key)
      ensures found != null ==> found in Inorder(shape) && found.key == elm.key
    {
      hide At, Linked, Hangs, Nodes, Around, Rising, Straddles, RedBlack;
      var tmp := root;
      ghost var p, t := Top, shape;
      Seen(p, t);
      TopStraddles(elm.key);
      while tmp != null
        invariant At(p, t) && tmp == RootOf(t) && Plug(p, t) == shape && Straddles(p, elm.key)
        decreases t
      {
        var comp := elm.key - tmp.key;
        Seen(p, t);
        if comp < 0 {
          SearchStep(p, t, L, elm.key);
          tmp := tmp.left;
          p, t := Step(p, L, t.node, t.red, t.right), t.left;
        } else if comp > 0 {
          SearchStep(p, t, R, elm.key);
          tmp := tmp.right;
          p, t := Step(p, R, t.node, t.red, t.left), t.right;
        } else {
          InPlace(p, t);
          return tmp;
        }
      }
      NotThere(p, elm.key);
      found := null;
    }

    /** `RB_NFIND`: the least key not below the one asked for. */
    method NFind(elm: RbNode) returns (res: RbNode?)
      requires Valid()
      ensures res == null ==> forall i :: 0 <= i < |Inorder(shape)| ==> Inorder(shape)[i].key < elm.key
      ensures res != null ==>
                res in Inorder(shape) && res.key >= elm.key &&
                forall i :: 0 <= i < |Inorder(shape)| && Inorder(shape)[i].key >= elm.key ==> res.key <= Inorder(shape)[i].key
    {
      hide At, Linked, Hangs, Nodes, Around, Rising, Straddles, RedBlack;
      var tmp := root;
      ghost var p, t := Top, shape;
      res := null;
      Seen(p, t);
      TopStraddles(elm.key);
      while tmp != null
        invariant At(p, t) && tmp == RootOf(t) && Plug(p, t) == shape && Straddles(p, elm.key)
        invariant res == FirstOf(After(p))
        decreases t
      {
        var comp := elm.key - tmp.key;
        Seen(p, t);
        if comp < 0 {
          SearchStep(p, t, L, elm.key);
          res := tmp;
          tmp := tmp.left;
          p, t := Step(p, L, t.node, t.red, t.right), t.left;
        } else if comp > 0 {
          SearchStep(p, t, R, elm.key);
          tmp := tmp.right;
          p, t := Step(p, R, t.node, t.red, t.left), t.right;
        } else {
          InPlace(p, t);
          return tmp;
        }
      }
      LeastAfter(p, elm.key);
    }

    /** `RB_NEXT`: the next node in order. */
    method Next(elm0: RbNode) returns (elm: RbNode?)
      requires Valid() && elm0 in Nodes(shape)
      ensures exists i :: 0 <= i < |Inorder(shape)| && Inorder(shape)[i] == elm0 && elm == FirstOf(Inorder(shape)[i + 1..])
    {
      hide At, Linked, Hangs, Nodes, Around, Rising, RedBlack, Plug, Inorder, Before, After;
      Locate(elm0);
      ghost var (p, t) := PathTo(Top, shape, elm0);
      Seen(p, t);
      NextIs(p, t);
      elm := elm0;
      if elm.right != null {
        elm := elm.right;
        ghost var q, u := Step(p, R, t.node, t.red, t.left), t.right;
        Sides(t.left, t.node, t.red, t.right);
        AtStep(p, R, t.right, t.node, t.red, t.left);
        Seen(q, u);
        while elm.left != null
          invariant At(q, u) && u.Branch? && elm == u.node && elm.left == RootOf(u.left)
          invariant FirstOf(Inorder(u)) == FirstOf(Inorder(t.right))
          decreases u
        {
          elm := elm.left;
          Sides(u.left, u.node, u.red, u.right);
          AtStep(q, L, u.left, u.node, u.red, u.right);
          FirstLeft(u);
          q, u := Step(q, L, u.node, u.red, u.right), u.left;
          Seen(q, u);
        }
        FirstLeft(u);
        FirstLeft(t.right);
      } else {
        ghost var q, u := p, t;
        if elm.parent != null && elm == elm.parent.left {
          LeftOf(q, u);
          elm := elm.parent;
        } else {
          while elm.parent != null && elm == elm.parent.right
            invariant At(q, u) && u.Branch? && elm == u.node && elm.parent == Above(q)
            invariant After(q) == After(p) && (q.Step? ==> !(elm == q.node.left && elm == q.node.right))
            decreases Depth(q)
          {
            elm := elm.parent;
            AtStep(q.up, q.side, u, q.node, q.red, q.other);
            MakePaint(q.side, u, q.node, q.red, q.other, false);
            RightOf(q, u);
            q, u := q.up, Make(q.side, u, q.node, q.red, q.other);
            Seen(q, u);
          }
          LeftOf(q, u);
          elm := elm.parent;
        }
      }
    }

    /** `RB_MINMAX` */
    method MinMax(val: int) returns (parent: RbNode?)
      requires Valid()
      ensures parent == if val < 0 then FirstOf(Inorder(shape)) else LastOf(Inorder(shape))
    {
      hide At, Linked, Hangs, Nodes, Around, Rising, RedBlack, Plug, Inorder;
      var tmp := root;
      parent := null;
      ghost var p, t := Top, shape;
      Seen(p, t);
      NoneEnds(shape);
      while tmp != null
        invariant At(p, t) && tmp == RootOf(t)
        invariant var s, u := Inorder(shape), Inorder(t);
                  if val < 0 then FirstOf(s) == (if t.Leaf? then parent else FirstOf(u))
                  else LastOf(s) == (if t.Leaf? then parent else LastOf(u))
        decreases t
      {
        parent := tmp;
        Seen(p, t);
        Ends(t);
        Sides(t.left, t.node, t.red, t.right);
        if val < 0 {
          tmp := tmp.left;
          AtStep(p, L, t.left, t.node, t.red, t.right);
          p, t := Step(p, L, t.node, t.red, t.right), t.left;
        } else {
          tmp := tmp.right;
          AtStep(p, R, t.right, t.node, t.red, t.left);
          p, t := Step(p, R, t.node, t.red, t.left), t.right;
        }
      }
    }

    /** A place on the left of its parent has the parent next; a place on the right has what the parent has. */
    lemma LeftOf(q: Path, u: Tree)
      requires At(q, u) && u.Branch? && (q.Step? ==> u.node != q.node.right || u.node == q.node.left)
      ensures Above(q) == FirstOf(After(q)) && u.node.parent == Above(q)
    {
      Seen(q, u);
    }

    lemma RightOf(q: Path, u: Tree)
      requires At(q, u) && u.Branch? && q.Step? && u.node == q.node.right
      ensures After(q.up) == After(q) && Depth(q.up) < Depth(q)
    {
      Seen(q, u);
    }

    /** The pieces of a rotation, before and after each part of it. */
    ghost predicate Pieces(s: Side, elm: RbNode, tmp: RbNode, a: Tree, b: Tree, over: RbNode, e: Tree)
      reads Nodes(a), Nodes(b), Nodes(e), elm, tmp
    {
      && Linked(a, elm) && Linked(b, over) && Linked(e, tmp)
      && elm.Kid(s) == RootOf(a) && tmp.Kid(Other(s)) == RootOf(e)
    }

    /** The first part: `elm` takes the inner kid of `tmp`. */
    method TakeKid(s: Side, elm: RbNode, tmp: RbNode, ghost p: Path, ghost a: Tree, ghost b: Tree, ghost e: Tree)
      requires Clear(p, a, elm, b, tmp, e) && Pieces(s, elm, tmp, a, b, tmp, e)
      requires Hangs(p, elm) && tmp.Kid(s) == RootOf(b)
      modifies elm`left, elm`right, RootOf(b)
      ensures Pieces(s, elm, tmp, a, b, elm, e) && Hangs(p, elm) && elm.Kid(Other(s)) == RootOf(b)
    {
      hide Neat, NeatPath, Nodes, Around, Linked, Hangs;
      if b.Branch? { RootNeat(b); }
      var kid := tmp.Kid(s);
      if s == R { elm.left := kid; } else { elm.right := kid; }
      if b.Branch? { LinkedRoot(b, tmp); }
      if kid != null { kid.parent := elm; }
      if b.Branch? { LinkedRoot(b, elm); } else { LinkedLeaf(elm); }
    }

    /** The rest: `tmp` takes the place of `elm`, and `elm` hangs under it. */
    method Raise(s: Side, elm: RbNode, tmp: RbNode, ghost p: Path, ghost a: Tree, ghost b: Tree, ghost e: Tree)
      requires Clear(p, a, elm, b, tmp, e) && Pieces(s, elm, tmp, a, b, elm, e)
      requires Hangs(p, elm) && elm.Kid(Other(s)) == RootOf(b) && elm.parent == Above(p)
      modifies this`root, elm`parent, tmp`left, tmp`right, tmp`parent, Above(p)
      ensures Pieces(s, elm, tmp, a, b, elm, e) && Hangs(p, tmp)
      ensures elm.parent == tmp && tmp.Kid(s) == elm && tmp.parent == Above(p)
    {
      hide Neat, NeatPath, Nodes, Around, Linked, Hangs;
      if p.Step? { TopNeat(p); }
      HangsStep(p, elm);
      tmp.parent := elm.parent;
      if tmp.parent != null {
        if elm == elm.parent.left { elm.parent.left := tmp; } else { elm.parent.right := tmp; }
      } else {
        root := tmp;
      }
      HangsStep(p, tmp);
      assert Hangs(p, tmp);
      if s == L { tmp.left := elm; } else { tmp.right := elm; }
      elm.parent := tmp;
    }
  }

  lemma NewPending(p: Path, n: RbNode)
    requires RedBlack(Plug(p, Leaf))
    ensures Pending(p, Branch(Leaf, n, true, Leaf), 0)
  {
    PlugBalanced(p, Leaf, BlackHeight(Plug(p, Leaf)));
  }

  lemma LeafNodes(p: Path)
    ensures Nodes(Plug(p, Leaf)) == Around(p) && (p.Step? ==> p.node in Around(p))
  {
    PlugNodes(p, Leaf);
  }

  lemma TopStraddles(key: int)
    ensures Straddles(Top, key)
  {}

  lemma NewNeat(n: RbNode)
    ensures Neat(Branch(Leaf, n, true, Leaf)) && Nodes(Branch(Leaf, n, true, Leaf)) == {n}
  {}

  lemma {:induction false} PlugRoot(p: Path, t: Tree)
    ensures p.Top? ==> Plug(p, t) == t
    ensures p.Step? ==> Plug(p, t).Branch? && RootOf(Plug(p, t)) in Around(p)
    decreases p
  {
    match p
    case Top =>
    case Step(up, s, n, c, o) => PlugRoot(up, Make(s, t, n, c, o));
  }

  lemma PlugNodesTop(t: Tree)
    ensures Plug(Top, t) == t && Around(Top) == {}
  {}

  lemma BlackerSame(p: Path, t: Tree)
    ensures Inorder(Plug(p, Blacker(t))) == Inorder(Plug(p, t))
  {
    if t.Branch? { PaintInorder(t, false); }
    PlugSame(p, t, Blacker(t));
  }

  lemma BlackAlready(t: Tree)
    requires RedBlack(t)
    ensures Blacker(t) == t
  {}

  lemma KidApart(p: Path, t: Tree, kid: Tree)
    requires Apart(p, t) && t.Branch? && (kid == t.left || kid == t.right)
    ensures Apart(p, kid) && t.node !in Around(p) && t.node !in Nodes(kid)
  {}

  lemma ApartKids(p: Path, l: Tree, n: RbNode, c: bool, r: Tree)
    requires Apart(p, Branch(l, n, c, r))
    ensures Neat(l) && Neat(r) && Nodes(l) !! Nodes(r) && Nodes(l) !! Around(p) && Nodes(r) !! Around(p)
  {}

  lemma RenameApart(p: Path, l: Tree, n: RbNode, m: RbNode, c: bool, r: Tree)
    requires Apart(p, Branch(l, n, c, r)) && m !in Around(p) && m !in Nodes(l) && m !in Nodes(r)
    ensures Apart(p, Branch(l, m, c, r)) && Neat(l) && Neat(r) && Nodes(l) !! Nodes(r)
    ensures Nodes(l) !! Around(p) && Nodes(r) !! Around(p) && n !in Around(p) && n !in Nodes(l) && n !in Nodes(r)
  {}

  lemma Sides(l: Tree, n: RbNode, c: bool, r: Tree)
    ensures Branch(l, n, c, r) == Make(L, l, n, c, r) == Make(R, r, n, c, l)
  {}

  lemma TopStep(s: Path, r: Tree)
    ensures Join(Top, s) == s && Plug(Top, r) == r
  {}

  lemma PlugStep(q: Path, s: Side, t: Tree, n: RbNode, c: bool, o: Tree)
    ensures Plug(Step(q, s, n, c, o), t) == Plug(q, Make(s, t, n, c, o))
  {}

  lemma Distinct(p: Path, l: Tree, n: RbNode, c: bool, r: Tree)
    requires Apart(p, Branch(l, n, c, r))
    ensures n !in Nodes(r) && n !in Nodes(l) && n !in Around(p) && (p.Step? ==> p.node in Around(p))
    ensures Nodes(l) !! Nodes(r) && Nodes(l) !! Around(p) && Nodes(r) !! Around(p)
  {}

  lemma TopInside(p: Path, t: Tree)
    requires t.Branch?
    ensures Nodes(Plug(p, t)) == Nodes(t) + Around(p) && Nodes(t) == {t.node} + Nodes(t.left) + Nodes(t.right)
    ensures p.Step? ==> p.node in Around(p)
    ensures t.left.Branch? ==> t.left.node in Nodes(t.left)
    ensures t.right.Branch? ==> t.right.node in Nodes(t.right)
  {
    PlugNodes(p, t);
  }

  /** Where things are below the right kid. */
  lemma Insides(q: Path, u: Tree, r: Tree, s: Path)
    requires Plug(q, u) == r && u.Branch? && s.Step?
    ensures Nodes(r) == Nodes(u) + Around(q) && Around(Join(q, s)) == Around(q) + Around(s)
    ensures Nodes(u.right) <= Nodes(u) && u.node in Nodes(u) && (q.Step? ==> q.node in Around(q))
    ensures u.right.Branch? ==> RootOf(u.right) in Nodes(u.right)
    ensures Above(Join(q, s)) == if q.Top? then s.node else q.node
    ensures Around(s) == {s.node} + Nodes(s.other) + Around(s.up)
  {
    PlugNodes(q, u);
    AroundJoin(q, s);
  }

  function FirstOf(s: seq<RbNode>): RbNode? { if s == [] then null else s[0] }

  function LastOf(s: seq<RbNode>): RbNode? { if s == [] then null else s[|s| - 1] }

  lemma LeastAfter(p: Path, key: int)
    requires Straddles(p, key) && Rising(Inorder(Plug(p, Leaf)))
    ensures var s, res := Inorder(Plug(p, Leaf)), FirstOf(After(p));
            if res == null then forall i :: 0 <= i < |s| ==> s[i].key < key
            else res in s && res.key >= key && forall i :: 0 <= i < |s| && s[i].key >= key ==> res.key <= s[i].key
  {
    NotThere(p, key);
    var s := Inorder(Plug(p, Leaf));
    if After(p) != [] {
      assert s[|Before(p)|] == After(p)[0];
      assert forall i :: 0 <= i < |Before(p)| ==> s[i] == Before(p)[i];
    }
  }

  /** What comes next after the node in the place. */
  lemma NextIs(p: Path, t: Tree)
    requires t.Branch?
    ensures exists i ::
              var s := Inorder(Plug(p, t));
              0 <= i < |s| && s[i] == t.node &&
              FirstOf(s[i + 1..]) == if t.right.Branch? then FirstOf(Inorder(t.right)) else FirstOf(After(p))
  {
    hide Plug, Before, After, Inorder;
    PlugInorder(p, t);
    BranchInorder(t.left, t.node, t.red, t.right);
    var a, l, r, c := Before(p), Inorder(t.left), Inorder(t.right), After(p);
    InMiddle(a, l, t.node, r, c);
    FirstLeft(t.right);
    var s, i := Inorder(Plug(p, t)), |a| + |l|;
    assert s[i] == t.node && s[i + 1..] == r + c;
  }

  lemma InMiddle(a: seq<RbNode>, l: seq<RbNode>, n: RbNode, r: seq<RbNode>, c: seq<RbNode>)
    ensures var s, i := a + (l + [n] + r) + c, |a| + |l|; s[i] == n && s[i + 1..] == r + c
  {}

  lemma FirstLeft(t: Tree)
    ensures t.Branch? ==> Inorder(t) != [] && (t.left.Branch? ==> FirstOf(Inorder(t)) == FirstOf(Inorder(t.left)))
    ensures t.Branch? && t.left.Leaf? ==> FirstOf(Inorder(t)) == t.node
    ensures t.Leaf? ==> Inorder(t) == []
  {}

  lemma Ends(t: Tree)
    requires t.Branch?
    ensures FirstOf(Inorder(t)) == if t.left.Leaf? then t.node else FirstOf(Inorder(t.left))
    ensures LastOf(Inorder(t)) == if t.right.Leaf? then t.node else LastOf(Inorder(t.right))
  {}

  lemma NoneEnds(t: Tree)
    ensures t.Leaf? ==> Inorder(t) == []
  {}

  lemma PaintNodes(t: Tree)
    requires t.Branch?
    ensures Nodes(t.(red := false)) == Nodes(t)
  {}

  lemma MakePaint(s: Side, t: Tree, n: RbNode, c: bool, o: Tree, red: bool)
    ensures Make(s, t, n, c, o).Branch? && Make(s, t, n, c, o).node == n
    ensures Make(s, t, n, c, o).(red := red) == Make(s, t, n, red, o)
  {}

  lemma RootNeat(t: Tree)
    requires Neat(t) && t.Branch?
    ensures t.node in Nodes(t) && t.node !in Nodes(t.left) && t.node !in Nodes(t.right)
    ensures Nodes(t.left) <= Nodes(t) && Nodes(t.right) <= Nodes(t)
  {}

  lemma TopNeat(p: Path)
    requires NeatPath(p) && p.Step?
    ensures p.node in Around(p) && p.node !in Nodes(p.other) && p.node !in Around(p.up)
    ensures Nodes(p.other) <= Around(p) && Around(p.up) <= Around(p)
  {}

  lemma MakeRoot(s: Side, t: Tree, n: RbNode, c: bool, o: Tree)
    ensures RootOf(Make(s, t, n, c, o)) == n
  {}

  /** What is apart in the places of a rotation. */
  predicate Clear(p: Path, a: Tree, x: RbNode, b: Tree, y: RbNode, e: Tree) {
    && x != y && {x, y} !! Nodes(a) && {x, y} !! Nodes(b) && {x, y} !! Nodes(e) && {x, y} !! Around(p)
    && Nodes(a) !! Nodes(b) && Nodes(a) !! Nodes(e) && Nodes(b) !! Nodes(e)
    && Nodes(a) !! Around(p) && Nodes(b) !! Around(p) && Nodes(e) !! Around(p)
    && NeatPath(p) && Neat(b) && (p.Step? ==> RootOf(p.other) != x)
  }

  lemma RotateApart(s: Side, p: Path, a: Tree, x: RbNode, c: bool, b: Tree, y: RbNode, d: bool, e: Tree)
    requires Apart(p, Make(s, a, x, c, Make(s, b, y, d, e)))
    ensures Apart(p, Make(s, Make(s, a, x, c, b), y, d, e)) && Clear(p, a, x, b, y, e)
    ensures Nodes(Make(s, a, x, c, Make(s, b, y, d, e))) == Nodes(a) + {x} + Nodes(b) + {y} + Nodes(e)
    ensures p.Step? ==> p.node in Around(p)
    ensures b.Branch? ==> RootOf(b) in Nodes(b)
  {
    hide Make, Neat, Nodes, NeatPath;
    MakeNeat(s, a, x, c, Make(s, b, y, d, e));
    MakeNeat(s, b, y, d, e);
    MakeNeat(s, Make(s, a, x, c, b), y, d, e);
    MakeNeat(s, a, x, c, b);
    RootInside(b);
    if p.Step? { RootInside(p.other); }
  }
}
