/** The top-down splay tree of `tree.h`. A macro or branch and its mirror image are one here, with the side as a
    parameter. */
module SplayTrees {
  import opened SplayShapes
  import opened SplayCosts

  /** The nodes' fields are those of the tree. */
  ghost predicate Linked(t: Tree)
    reads Nodes(t)
  {
    match t
    case Leaf => true
    case Branch(l, n, r) => n.left == RootOf(l) && n.right == RootOf(r) && Linked(l) && Linked(r)
  }

  /** The nodes of a spine are linked on side `s`, from `first` on; the last one's link is still open. */
  ghost predicate Strung(s: Side, first: SplayNode?, p: Spine)
    reads Held(p)
  {
    match p
    case Nil => true
    case Link(up, n, o) =>
      n.Kid(Other(s)) == RootOf(o) && Linked(o) && Strung(s, first, up) &&
      if up.Nil? then first == n else up.node.Kid(s) == n
  }

  /** The node with the open link; `d` stands for the head of both spines. */
  function End(p: Spine, d: SplayNode): SplayNode { if p.Nil? then d else p.node }

  predicate Disjoint(t: set<SplayNode>, p: set<SplayNode>, q: set<SplayNode>, rest: set<SplayNode>, d: SplayNode) {
    t !! p && t !! q && p !! q && rest !! t && rest !! p && rest !! q && d !in t && d !in p && d !in q && d !in rest
  }

  predicate Separate(p: Spine, t: Tree, q: Spine, d: SplayNode, rest: Tree) {
    Neat(t) && NeatSpine(p) && NeatSpine(q) && Disjoint(Nodes(t), Held(p), Held(q), Nodes(rest), d)
  }

  // One-level views of the predicates.

  lemma LinkedMake(s: Side, t: Tree, n: SplayNode, o: Tree)
    ensures Linked(Make(s, t, n, o)) <==>
              n.Kid(s) == RootOf(t) && n.Kid(Other(s)) == RootOf(o) && Linked(t) && Linked(o)
    ensures RootOf(Make(s, t, n, o)) == n
  {}

  lemma StrungLink(s: Side, first: SplayNode?, up: Spine, n: SplayNode, o: Tree)
    ensures Strung(s, first, Link(up, n, o)) <==>
              n.Kid(Other(s)) == RootOf(o) && Linked(o) && Strung(s, first, up) &&
              if up.Nil? then first == n else up.node.Kid(s) == n
  {}

  /** The last node's open link is free to change. */
  lemma StrungLast(s: Side, first: SplayNode?, p: Spine)
    requires NeatSpine(p)
    ensures p.Link? ==> p.node !in Held(p.up) && p.node !in Nodes(p.other) && p.node in Held(p)
    ensures p.Link? ==> Held(p.up) <= Held(p) && Nodes(p.other) <= Held(p)
    ensures p.Link? && p.up.Link? ==> p.up.node in Held(p.up)
    ensures p.Nil? ==> Strung(s, first, p)
  {}

  lemma {:induction false} FillLinked(s: Side, first: SplayNode?, p: Spine, t: Tree)
    requires Strung(s, first, p) && Linked(t) && (p.Link? ==> p.node.Kid(s) == RootOf(t))
    ensures Linked(Fill(s, p, t)) && RootOf(Fill(s, p, t)) == if p.Nil? then RootOf(t) else first
    decreases p
  {
    match p
    case Nil =>
    case Link(up, n, o) =>
      LinkedMake(s, t, n, o);
      FillLinked(s, first, up, Make(s, t, n, o));
  }

  lemma LinkSeparate(s: Side, p: Spine, a: Tree, x: SplayNode, o: Tree, q: Spine, d: SplayNode, rest: Tree)
    requires Separate(p, Make(s, a, x, o), q, d, rest)
    ensures Separate(Link(p, x, o), a, q, d, rest)
    ensures x !in Nodes(a) && x !in Nodes(o) && x !in Held(p) && x !in Held(q) && x !in Nodes(rest) && x != d
    ensures Nodes(a) !! Held(p) && Nodes(o) !! Held(p) && d !in Nodes(o) && d !in Nodes(a)
  {
    hide Make, Neat, NeatSpine, Nodes, Held;
    MakeNeat(s, a, x, o);
    LinkNeat(p, x, o);
  }

  lemma LinkNeat(p: Spine, n: SplayNode, o: Tree)
    ensures Held(Link(p, n, o)) == Held(p) + {n} + Nodes(o)
    ensures NeatSpine(Link(p, n, o)) <==>
              n !in Nodes(o) && n !in Held(p) && Nodes(o) !! Held(p) && Neat(o) && NeatSpine(p)
  {}

  class SplayHead {
    var root: SplayNode?
    ghost var shape: Tree
    ghost var turns: nat      // of the loop so far

    /** `SPLAY_LINKLEFT` for side `L`, `SPLAY_LINKRIGHT` for `R`: the root goes to the end of a spine. */
    method LinkRoot(s: Side, on: SplayNode, d: SplayNode, ghost p: Spine, ghost a: Tree, ghost o: Tree, ghost q: Spine, ghost rest: Tree)
      returns (end: SplayNode)
      requires root != null && Separate(p, Make(s, a, root, o), q, d, rest) && Linked(Make(s, a, root, o)) && a.Branch?
      requires Strung(s, d.Kid(s), p) && Strung(Other(s), d.Kid(Other(s)), q) && on == End(p, d) && Linked(rest)
      modifies this`root, on
      ensures end == old(root) && root == RootOf(a) && Separate(Link(p, end, o), a, q, d, rest) && Linked(a) && Linked(rest)
      ensures Strung(s, d.Kid(s), Link(p, end, o)) && Strung(Other(s), d.Kid(Other(s)), q)
    {
      hide Make, Neat, NeatSpine, Nodes, Held, Linked, Strung;
      LinkedMake(s, a, root, o);
      LinkSeparate(s, p, a, root, o, q, d, rest);
      StrungLast(s, d.Kid(s), p);
      if p.Link? { StrungLink(s, d.Kid(s), p.up, p.node, p.other); }
      if s == L { on.left := root; } else { on.right := root; }
      if p.Link? { StrungLink(s, d.Kid(s), p.up, p.node, p.other); } else { StrungLast(s, d.Kid(s), p); }
      assert Strung(s, d.Kid(s), p);
      StrungLink(s, d.Kid(s), p, root, o);
      assert Strung(s, d.Kid(s), Link(p, root, o));
      assert Strung(Other(s), d.Kid(Other(s)), q);
      end := root;
      root := root.Kid(s);
    }

    /** `SPLAY_ROTATE_RIGHT` for side `L`, `SPLAY_ROTATE_LEFT` for `R`: the kid `tmp` becomes the root. */
    method RotateRoot(s: Side, tmp: SplayNode, ghost b: Tree, ghost c: Tree, ghost o: Tree,
                      d: SplayNode, ghost p: Spine, ghost q: Spine, ghost rest: Tree)
      requires root != null && Separate(p, Make(s, Make(s, b, tmp, c), root, o), q, d, rest)
      requires Linked(Make(s, Make(s, b, tmp, c), root, o)) && Linked(rest)
      requires Strung(s, d.Kid(s), p) && Strung(Other(s), d.Kid(Other(s)), q)
      modifies this`root, root, tmp
      ensures root == tmp && Linked(Make(s, b, tmp, Make(s, c, old(root), o))) && Linked(rest)
      ensures Separate(p, Make(s, b, tmp, Make(s, c, old(root), o)), q, d, rest)
      ensures Strung(s, d.Kid(s), p) && Strung(Other(s), d.Kid(Other(s)), q)
    {
      hide Make, Neat, NeatSpine, Nodes, Held, Linked, Strung;
      RotateSeparate(s, p, b, tmp, c, root, o, q, d, rest);
      LinkedMake(s, Make(s, b, tmp, c), root, o);
      LinkedMake(s, b, tmp, c);
      var kid := tmp.Kid(Other(s));
      if s == L { root.left := kid; } else { root.right := kid; }
      if s == L { tmp.right := root; } else { tmp.left := root; }
      LinkedMake(s, c, root, o);
      LinkedMake(s, b, tmp, Make(s, c, root, o));
      root := tmp;
    }

    /** `SPLAY_ASSEMBLE` */
    method Assemble(d: SplayNode, smallerEnd: SplayNode, largerEnd: SplayNode, ghost p: Spine, ghost t: Tree, ghost q: Spine, ghost rest: Tree)
      requires root != null && root == RootOf(t) && Separate(p, t, q, d, rest) && Linked(t) && Linked(rest)
      requires Strung(R, d.right, p) && Strung(L, d.left, q) && smallerEnd == End(p, d) && largerEnd == End(q, d)
      modifies root, smallerEnd, largerEnd
      ensures t.Branch? && Linked(Assembled(p, t, q)) && Linked(rest)
    {
      hide Make, Neat, NeatSpine, Nodes, Held, Linked, Strung, Fill;
      AssembleSeparate(p, t, q, d, rest);
      LinkedBranch(t);
      StrungLast(R, d.right, p);
      StrungLast(L, d.left, q);
      ghost var small, large := Fill(R, p, t.left), Fill(L, q, t.right);
      if p.Link? { StrungLink(R, d.right, p.up, p.node, p.other); }
      smallerEnd.right := root.left;
      if p.Link? { StrungLink(R, d.right, p.up, p.node, p.other); } else { StrungLast(R, d.right, p); }
      assert Strung(R, d.right, p);
      FillLinked(R, d.right, p, t.left);
      if q.Link? { StrungLink(L, d.left, q.up, q.node, q.other); }
      largerEnd.left := root.right;
      if q.Link? { StrungLink(L, d.left, q.up, q.node, q.other); } else { StrungLast(L, d.left, q); }
      assert Strung(L, d.left, q);
      FillLinked(L, d.left, q, t.right);
      assert Linked(small) && d.right == RootOf(small);
      root.left := d.right;
      root.right := d.left;
      assert Linked(small) && Linked(large);
      LinkedBranch(Branch(small, root, large));
    }

    /** The search stands at the root: the three trees and the two open ends. */
    ghost predicate Standing(s: Side, end: SplayNode, d: SplayNode, p: Spine, t: Tree, q: Spine, rest: Tree)
      reads this`root, Nodes(t), Nodes(rest), Held(p), Held(q), d
    {
      && t.Branch? && root == t.node && Linked(t) && Linked(rest) && Separate(p, t, q, d, rest)
      && Strung(s, d.Kid(s), p) && Strung(Other(s), d.Kid(Other(s)), q) && end == End(p, d)
    }

    /** The branch of the loop for side `s`: `stop` is its `break`. */
    method Turn(s: Side, key: int, end0: SplayNode, d: SplayNode, ghost p0: Spine, ghost t0: Tree, ghost q: Spine, ghost rest: Tree)
      returns (stop: bool, end: SplayNode, ghost p: Spine, ghost t: Tree)
      requires Standing(s, end0, d, p0, t0, q, rest) && root != null && Beyond(s, key, root.key)
      requires Rising(SideWhole(s, p0, t0, q)) && SideBounds(s, p0, q, key)
      modifies this`root, Nodes(t0), end0
      ensures Standing(s, end, d, p, t, q, rest) && end == End(p, d) && t.Branch? && root == t.node
      ensures SideWhole(s, p, t, q) == SideWhole(s, p0, t0, q) && SideBounds(s, p, q, key)
      ensures Nodes(t) + Held(p) == Nodes(t0) + Held(p0)
      ensures if stop then p == p0 && Near(s, t).Leaf? && Beyond(s, key, t.node.key) else |Inorder(t)| < |Inorder(t0)|
      ensures Step(t0, key) == if stop then Halts(t) else Passes(s, p.node, p.other, t)
      ensures !stop ==> p.Link? && p.up == p0
    {
      hide Make, Neat, NeatSpine, Nodes, Held, Linked, Strung, Separate, Rising, SideWhole, SideBounds, Inorder, Near;
      stop, end, p, t := true, end0, p0, t0;
      ghost var x, a, o := t0.node, Near(s, t0), Near(Other(s), t0);
      MakeAgain(s, t0);
      LinkedMake(s, a, x, o);
      RootInside(t0);
      var tmp := root.Kid(s);
      if tmp == null { return; }
      if Beyond(s, key, tmp.key) {
        ghost var b, c := Near(s, a), Near(Other(s), a);
        MakeAgain(s, a);
        InnerInside(s, b, tmp, c, x, o);
        RotateStep(s, p, b, tmp, c, x, o, q);
        RotateRoot(s, tmp, b, c, o, d, p, q, rest);
        t := Make(s, b, tmp, Make(s, c, x, o));
        MakeKids(s, b, tmp, Make(s, c, x, o));
        LinkedMake(s, b, tmp, Make(s, c, x, o));
        if root.Kid(s) == null { return; }
      }
      stop := false;
      ghost var y, e, f := t.node, Near(s, t), Near(Other(s), t);
      MakeAgain(s, t);
      LinkStep(s, p, e, y, f, q, key);
      end := LinkRoot(s, end0, d, p, e, f, q, rest);
      p, t := Link(p, y, f), e;
    }

    lemma Start(d: SplayNode, t: Tree, rest: Tree)
      requires t.Branch? && root == t.node && Linked(t) && Linked(rest) && Neat(t)
      requires Nodes(t) !! Nodes(rest) && d !in Nodes(t) && d !in Nodes(rest)
      ensures Standing(L, d, d, Nil, t, Nil, rest)
    {}

    lemma Flip(s: Side, d: SplayNode, p: Spine, t: Tree, q: Spine, rest: Tree)
      requires Standing(s, End(p, d), d, p, t, q, rest)
      ensures Standing(Other(s), End(q, d), d, q, t, p, rest)
    {}

    /** `SPLAY` */
    method Splay(key: int, ghost t0: Tree, ghost rest: Tree) returns (ghost u: Tree)
      requires t0.Branch? && root == t0.node && Linked(t0) && Linked(rest)
      requires Rising(Inorder(t0)) && Nodes(t0) !! Nodes(rest)
      modifies this`root, this`turns, Nodes(t0)
      ensures u.Branch? && root == u.node && Linked(u) && Linked(rest)
      ensures Inorder(u) == Inorder(t0) && SplitAt(u, key)
      ensures u == Splayed(t0, key) && turns == old(turns) + Turns(t0, key)
    {
      hide Neat, NeatSpine, Nodes, Held, Linked, Strung, Separate, Rising, Inorder, SplitAt, Standing, Bounds, Whole, Assembled,
        Step, Reaches, Reached, Splayed;
      var node := new SplayNode(0);
      var left, right := node, node;
      ghost var t, p, q, n := t0, Nil, Nil, 0;
      Starts(t0, key);
      ReachesStart(t0, key);
      RisingNeat(t0);
      NotFresh(t0, node);
      NotFresh(rest, node);
      StillLinked(t0);
      StillLinked(rest);
      Start(node, t0, rest);
      while key != root.key
        invariant Standing(L, right, node, q, t, p, rest) && left == End(p, node) && right == End(q, node)
        invariant t.Branch? && root == t.node
        invariant Whole(p, t, q) == Inorder(t0) && Bounds(p, q, key)
        invariant Nodes(t) + Held(p) + Held(q) == Nodes(t0)
        invariant Reaches(t0, key, p, t, q, n) && turns == old(turns) + n
        decreases |Inorder(t)|
      {
        ghost var was, p1, q1 := t, p, q;
        turns := turns + 1;
        Flip(L, node, q, t, p, rest);
        EndInside(p, node);
        EndInside(q, node);
        var stop;
        if key < root.key {
          stop, right, q, t := Turn(L, key, right, node, q, t, p, rest);
        } else {
          stop, left, p, t := Turn(R, key, left, node, p, t, q, rest);
          Flip(R, node, p, t, q, rest);
        }
        n := n + 1;
        if stop {
          ReachedNow(t0, key, p, was, q, n - 1);
          break;
        }
        ReachesOn(t0, key, p1, was, q1, n - 1);
      }
      if key == t.node.key { ReachedRoot(t0, key, p, t, q, n); }
      assert key == t.node.key || (key < t.node.key && t.left.Leaf?) || (t.node.key < key && t.right.Leaf?);
      WholeRising(p, t, q);
      EndSplit(p, t, q, key);
      AssembledOrder(p, t, q);
      Stands(L, right, node, q, t, p, rest);
      EndInside(p, node);
      EndInside(q, node);
      RootInside(t);
      Assemble(node, left, right, p, t, q, rest);
      u := Assembled(p, t, q);
      AssembledRoot(p, t, q);
      ReachedSplay(t0, key, p, t, q, n);
    }

    /** What the search finds at the root. */
    lemma Stands(s: Side, end: SplayNode, d: SplayNode, p: Spine, t: Tree, q: Spine, rest: Tree)
      requires Standing(s, end, d, p, t, q, rest)
      ensures root != null && root == RootOf(t) && Linked(t) && Linked(rest) && Separate(q, t, p, d, rest)
      ensures Strung(s, d.Kid(s), p) && Strung(Other(s), d.Kid(Other(s)), q)
    {}

    // ---- the set

    /** A search tree. */
    ghost predicate Valid()
      reads this, Nodes(shape)
    {
      root == RootOf(shape) && Linked(shape) && Rising(Inorder(shape))
    }

    constructor ()
      ensures Valid() && shape == Leaf && turns == 0
    {
      root, shape, turns := null, Leaf, 0;
    }

    ghost method SetShape(t: Tree)
      requires Linked(t)
      modifies this`shape
      ensures Linked(t) && shape == t
    {
      shape := t;
      StillLinked(t);
    }

    method SetRoot(node: SplayNode?, ghost t: Tree)
      requires Linked(t)
      modifies this`root, this`shape
      ensures Linked(t) && shape == t && root == node
    {
      root := node;
      shape := t;
      StillLinked(t);
    }

    /** `SPLAY_FIND` */
    method Find(elm: SplayNode) returns (found: SplayNode?)
      requires Valid()
      modifies this, Nodes(shape)
      ensures Valid() && Inorder(shape) == old(Inorder(shape))
      ensures Does(Look(elm.key), old(shape), shape, old(turns), turns)
      ensures found == null <==> !Has(Inorder(shape), elm.key)
      ensures found != null ==> found == root && found in Inorder(shape) && found.key == elm.key
    {
      hide Rising, Linked, Nodes, Inorder, SplitAt;
      if root == null {
        NoneThere(shape);
        return null;
      }
      LeafLinked();
      ghost var u := Splay(elm.key, shape, Leaf);
      SplitFinds(u, elm.key);
      RootThere(u);
      SetShape(u);
      return if elm.key == root.key then root else null;
    }

    /** `SPLAY_INSERT` */
    method Insert(elm: SplayNode) returns (found: SplayNode?)
      requires Valid()
      modifies this, Nodes(shape), elm
      ensures Valid() && Does(Put(elm), old(shape), shape, old(turns), turns)
      ensures found == null <==> !Has(old(Inorder(shape)), elm.key)
      ensures found != null ==> found.key == elm.key && found in Inorder(shape) && Inorder(shape) == old(Inorder(shape))
      ensures found == null ==> root == elm && With(old(Inorder(shape)), elm, Inorder(shape))
    {
      hide Rising, Linked, Nodes, Inorder, SplitAt, Has, With, Neat;
      ghost var u := shape;
      LeafLinked();
      LeafSplit(elm.key);
      if root == null {
        NoneThere(shape);
        NewRootOrder(u, elm);
        elm.left, elm.right := null, null;
      } else {
        u := Splay(elm.key, shape, Leaf);
        SplitFinds(u, elm.key);
        SameNodes(shape, u);
        RisingNeat(u);
        BranchNeat(u);
        LinkedBranch(u);
        if elm.key < root.key {
          NewRootOrder(u, elm);
          elm.left := root.left;
          elm.right := root;
          root.left := null;
          LinkedBranch(Branch(Leaf, u.node, u.right));
        } else if elm.key > root.key {
          NewRootOrder(u, elm);
          elm.right := root.right;
          elm.left := root;
          root.right := null;
          LinkedBranch(Branch(u.left, u.node, Leaf));
        } else {
          RootThere(u);
          SetShape(u);
          return root;
        }
      }
      LinkedBranch(NewRoot(u, elm));
      SetRoot(elm, NewRoot(u, elm));
      found := null;
    }

    /** `SPLAY_REMOVE` */
    method Remove(elm: SplayNode) returns (removed: SplayNode?)
      requires Valid()
      modifies this, Nodes(shape)
      ensures Valid() && Does(Drop(elm.key), old(shape), shape, old(turns), turns)
      ensures removed == null <==> !Has(old(Inorder(shape)), elm.key)
      ensures removed == null ==> Inorder(shape) == old(Inorder(shape))
      ensures removed != null ==> removed == elm && WithoutKey(old(Inorder(shape)), elm.key, Inorder(shape))
    {
      hide Rising, Linked, Nodes, Inorder, SplitAt, Has, WithoutKey, Neat;
      if root == null {
        NoneThere(shape);
        return null;
      }
      LeafLinked();
      ghost var u := Splay(elm.key, shape, Leaf);
      SplitFinds(u, elm.key);
      SameNodes(shape, u);
      RisingNeat(u);
      BranchNeat(u);
      LinkedBranch(u);
      if elm.key != root.key {
        SetShape(u);
        return null;
      }
      if root.left == null {
        OnlyRight(u, elm.key);
        root := root.right;
        SetShape(u.right);
      } else {
        var tmp := root.right;
        root := root.left;
        LeftRising(u);
        ghost var w := Splay(elm.key, u.left, u.right);
        RootGone(u, w, elm.key);
        SameNodes(u.left, w);
        RootInside(w);
        RisingNeat(w);
        BranchNeat(w);
        LinkedBranch(w);
        root.right := tmp;
        LinkedBranch(Branch(w.left, w.node, u.right));
        SetShape(Branch(w.left, w.node, u.right));
      }
      removed := elm;
    }
  }

  /** The tree is as the operation leaves it, and the loops have made the turns it costs. */
  predicate Does(op: Op, before: Tree, after: Tree, turned: nat, turns: nat) {
    after == After(before, op) && turns == turned + Cost(before, op)
  }

  lemma LeafLinked()
    ensures Linked(Leaf) && Nodes(Leaf) == {}
  {}

  lemma LeafSplit(key: int)
    ensures SplitAt(Leaf, key)
  {}

  lemma NoneThere(t: Tree)
    requires t.Leaf?
    ensures Inorder(t) == [] && forall key :: !Has(Inorder(t), key)
  {}

  lemma RootThere(t: Tree)
    requires t.Branch?
    ensures t.node in Inorder(t)
  {}

  lemma LeftRising(t: Tree)
    requires t.Branch? && Rising(Inorder(t))
    ensures Rising(Inorder(t.left))
  {
    RisingParts(Inorder(t.left), t.node, Inorder(t.right));
  }

  lemma BranchNeat(t: Tree)
    requires t.Branch? && Neat(t)
    ensures t.node !in Nodes(t.left) && t.node !in Nodes(t.right) && Nodes(t.left) !! Nodes(t.right)
    ensures Nodes(t) == Nodes(t.left) + {t.node} + Nodes(t.right)
  {}

  lemma EndInside(p: Spine, d: SplayNode)
    ensures End(p, d) == d || End(p, d) in Held(p)
  {}

  twostate lemma {:induction false} StillLinked(t: Tree)
    requires old(Linked(t))
    requires forall x: SplayNode :: old(allocated(x)) ==> x.left == old(x.left) && x.right == old(x.right)
    ensures Linked(t)
    decreases t
  {
    match t
    case Leaf =>
    case Branch(l, n, r) => StillLinked(l); StillLinked(r);
  }

  /** A node made just now is in no tree made before. */
  twostate lemma {:induction false} NotFresh(t: Tree, new d: SplayNode)
    requires fresh(d)
    ensures d !in Nodes(t)
    decreases t
  {
    match t
    case Leaf =>
    case Branch(l, n, r) => NotFresh(l, d); NotFresh(r, d);
  }

  lemma AssembledRoot(p: Spine, t: Tree, q: Spine)
    requires t.Branch?
    ensures Assembled(p, t, q).Branch? && Assembled(p, t, q).node == t.node
  {}

  lemma Starts(t: Tree, key: int)
    ensures Whole(Nil, t, Nil) == Inorder(t) && Bounds(Nil, Nil, key) && Held(Nil) == {}
  {
    assert [] + Inorder(t) + [] == Inorder(t);
  }

  lemma InnerInside(s: Side, b: Tree, y: SplayNode, c: Tree, x: SplayNode, o: Tree)
    ensures {x, y} <= Nodes(Make(s, Make(s, b, y, c), x, o))
  {
    MakeNeat(s, Make(s, b, y, c), x, o);
    MakeNeat(s, b, y, c);
  }

  lemma LinkedBranch(t: Tree)
    requires t.Branch?
    ensures Linked(t) <==> t.node.left == RootOf(t.left) && t.node.right == RootOf(t.right) && Linked(t.left) && Linked(t.right)
  {}

  lemma AssembleSeparate(p: Spine, t: Tree, q: Spine, d: SplayNode, rest: Tree)
    requires Separate(p, t, q, d, rest) && t.Branch?
    ensures var n, l, r := t.node, t.left, t.right;
            n !in Nodes(l) && n !in Nodes(r) && Nodes(l) !! Nodes(r) && Nodes(l) <= Nodes(t) && Nodes(r) <= Nodes(t) &&
            n in Nodes(t) && n !in Nodes(Fill(R, p, l)) && n !in Nodes(Fill(L, q, r)) &&
            Nodes(Fill(R, p, l)) == Nodes(l) + Held(p) && Nodes(Fill(L, q, r)) == Nodes(r) + Held(q)
  {
    hide Fill, Held;
    FillNodes(R, p, t.left);
    FillNodes(L, q, t.right);
  }

  lemma RotateNeat(s: Side, b: Tree, y: SplayNode, c: Tree, x: SplayNode, o: Tree)
    requires Neat(Make(s, Make(s, b, y, c), x, o))
    ensures Nodes(Make(s, b, y, Make(s, c, x, o))) == Nodes(Make(s, Make(s, b, y, c), x, o))
    ensures x in Nodes(Make(s, Make(s, b, y, c), x, o)) && y in Nodes(Make(s, Make(s, b, y, c), x, o))
    ensures Neat(Make(s, b, y, Make(s, c, x, o)))
    ensures x != y && Off(x, y, Nodes(b)) && Off(x, y, Nodes(c)) && Off(x, y, Nodes(o))
  {
    hide Make, Neat, Nodes;
    MakeNeat(s, Make(s, b, y, c), x, o);
    MakeNeat(s, b, y, c);
    MakeNeat(s, b, y, Make(s, c, x, o));
    MakeNeat(s, c, x, o);
  }

  lemma RotateSeparate(s: Side, p: Spine, b: Tree, y: SplayNode, c: Tree, x: SplayNode, o: Tree, q: Spine, d: SplayNode, rest: Tree)
    requires Separate(p, Make(s, Make(s, b, y, c), x, o), q, d, rest)
    ensures Separate(p, Make(s, b, y, Make(s, c, x, o)), q, d, rest)
    ensures x != y && Off(x, y, Nodes(b)) && Off(x, y, Nodes(c)) && Off(x, y, Nodes(o)) && Off(x, y, Nodes(rest))
    ensures Off(x, y, Held(p)) && Off(x, y, Held(q)) && d != x && d != y
  {
    hide Make, Neat, Nodes, Separate, Off;
    SeparateNeat(p, Make(s, Make(s, b, y, c), x, o), q, d, rest);
    RotateNeat(s, b, y, c, x, o);
    SameSeparate(p, Make(s, Make(s, b, y, c), x, o), Make(s, b, y, Make(s, c, x, o)), q, d, rest);
    InTree(x, y, p, Make(s, Make(s, b, y, c), x, o), q, d, rest);
  }

  lemma SeparateNeat(p: Spine, t: Tree, q: Spine, d: SplayNode, rest: Tree)
    requires Separate(p, t, q, d, rest)
    ensures Neat(t)
  {}

  lemma SameSeparate(p: Spine, t: Tree, u: Tree, q: Spine, d: SplayNode, rest: Tree)
    requires Separate(p, t, q, d, rest) && Neat(u) && Nodes(u) == Nodes(t)
    ensures Separate(p, u, q, d, rest)
  {
    hide Neat, NeatSpine, Nodes, Held, Disjoint;
  }

  predicate Off(x: SplayNode, y: SplayNode, s: set<SplayNode>) { x !in s && y !in s }

  lemma InTree(x: SplayNode, y: SplayNode, p: Spine, t: Tree, q: Spine, d: SplayNode, rest: Tree)
    requires Separate(p, t, q, d, rest) && x in Nodes(t) && y in Nodes(t)
    ensures Off(x, y, Nodes(rest)) && Off(x, y, Held(p)) && Off(x, y, Held(q)) && d != x && d != y
  {
    hide Neat, NeatSpine, Nodes, Held;
  }

  // ---- the loop and the function

  /** After `n` turns the search of `t0` stands at `t`: the split of `t` completes that of `t0`. */
  ghost predicate Reaches(t0: Tree, key: int, p: Spine, t: Tree, q: Spine, n: nat)
    requires t0.Branch? && t.Branch?
  {
    var r := SplitOf(t, key);
    SplitOf(t0, key) == Parts(Fill(R, p, r.smaller), r.node, Fill(L, q, r.larger), n + r.turns)
  }

  /** The search of `t0` has ended at `t`. */
  ghost predicate Reached(t0: Tree, key: int, p: Spine, t: Tree, q: Spine, n: nat)
    requires t0.Branch? && t.Branch?
  {
    SplitOf(t0, key) == Parts(Fill(R, p, t.left), t.node, Fill(L, q, t.right), n)
  }

  lemma ReachesStart(t: Tree, key: int)
    requires t.Branch?
    ensures Reaches(t, key, Nil, t, Nil, 0)
  {
    hide SplitOf;
  }

  lemma ReachesOn(t0: Tree, key: int, p: Spine, t: Tree, q: Spine, n: nat)
    requires t0.Branch? && t.Branch? && key != t.node.key && Reaches(t0, key, p, t, q, n) && Step(t, key).Passes?
    ensures var st := Step(t, key);
            if st.s == L then Reaches(t0, key, p, st.t, Link(q, st.node, st.other), n + 1)
            else Reaches(t0, key, Link(p, st.node, st.other), st.t, q, n + 1)
  {
    hide SplitOf, Step;
    SplitPassed(t, key);
  }

  lemma ReachedNow(t0: Tree, key: int, p: Spine, t: Tree, q: Spine, n: nat)
    requires t0.Branch? && t.Branch? && key != t.node.key && Reaches(t0, key, p, t, q, n) && Step(t, key).Halts?
    ensures Reached(t0, key, p, Step(t, key).t, q, n + 1)
  {
    hide Step;
  }

  lemma ReachedRoot(t0: Tree, key: int, p: Spine, t: Tree, q: Spine, n: nat)
    requires t0.Branch? && t.Branch? && key == t.node.key && Reaches(t0, key, p, t, q, n)
    ensures Reached(t0, key, p, t, q, n)
  {}

  lemma ReachedSplay(t0: Tree, key: int, p: Spine, t: Tree, q: Spine, n: nat)
    requires t0.Branch? && t.Branch? && Reached(t0, key, p, t, q, n)
    ensures Assembled(p, t, q) == Splayed(t0, key) && n == Turns(t0, key)
  {}
}
