/** What splaying costs: the top-down splay as a function on trees, and the Balance Theorem for it.
    Potentials are products of weights, and costs exponents of 2, so that no logarithm is needed. */
module SplayCosts {
  import opened SplayShapes

  // ---- the splay as a function

  function Size(t: Tree): nat { if t.Leaf? then 0 else Size(t.left) + 1 + Size(t.right) }

  /** One turn of the loop: it ends the search, or passes a node over on the way to side `s`. */
  datatype Outcome = Halts(t: Tree) | Passes(s: Side, node: SplayNode, other: Tree, t: Tree)

  function Toward(t: Tree, key: int): Side
    requires t.Branch?
  {
    if key < t.node.key then L else R
  }

  function Step(t: Tree, key: int): (r: Outcome)
    requires t.Branch? && key != t.node.key
    ensures r.t.Branch? && Size(t) == if r.Passes? then Size(r.t) + 1 + Size(r.other) else Size(r.t)
  {
    var s := Toward(t, key);
    var kid, other := Near(s, t), Near(Other(s), t);
    if kid.Leaf? then Halts(t)
    else if !Beyond(s, key, kid.node.key) then Passes(s, t.node, other, kid)
    else
      var next, turned := Near(s, kid), Make(s, Near(Other(s), kid), t.node, other);
      if next.Leaf? then Halts(Make(s, Leaf, kid.node, turned)) else Passes(s, kid.node, turned, next)
  }

  /** A tree split at a key: the two sides, the root between them, and the turns that took. */
  datatype Parts = Parts(smaller: Tree, node: SplayNode, larger: Tree, turns: nat)

  /** The side that takes what is passed over on the way to `s`. */
  function SideOf(s: Side, r: Parts): Tree { if s == L then r.larger else r.smaller }

  function SplitOf(t: Tree, key: int): Parts
    requires t.Branch?
    decreases Size(t)
  {
    if key == t.node.key then Parts(t.left, t.node, t.right, 0)
    else
      match Step(t, key)
      case Halts(u) => Parts(u.left, u.node, u.right, 1)
      case Passes(s, n, o, u) => Hung(s, n, o, SplitOf(u, key))
  }

  /** A node passed over goes to the end of its side. */
  function Hung(s: Side, n: SplayNode, o: Tree, r: Parts): Parts {
    if s == L then Parts(r.smaller, r.node, Make(L, r.larger, n, o), r.turns + 1)
    else Parts(Make(R, r.smaller, n, o), r.node, r.larger, r.turns + 1)
  }

  /** The tree after a splay. */
  function Splayed(t: Tree, key: int): (u: Tree)
    requires t.Branch?
    ensures u.Branch?
  {
    var r := SplitOf(t, key);
    Branch(r.smaller, r.node, r.larger)
  }

  function Turns(t: Tree, key: int): nat
    requires t.Branch?
  {
    SplitOf(t, key).turns
  }

  // ---- weights and potential

  function Weight(t: Tree): (w: nat)
    ensures w >= 1
  {
    Size(t) + 1
  }

  /** The product of the weights of all subtrees. */
  function Potential(t: Tree): (p: nat)
    ensures p >= 1
  {
    if t.Leaf? then 1
    else
      Positive(Potential(t.left), Potential(t.right));
      Positive(Weight(t), Potential(t.left) * Potential(t.right));
      Weight(t) * (Potential(t.left) * Potential(t.right))
  }

  function Pow(b: nat, k: nat): nat { if k == 0 then 1 else b * Pow(b, k - 1) }

  lemma Positive(a: nat, b: nat)
    ensures a >= 1 && b >= 1 ==> a * b >= 1
  {}

  lemma MakeWeight(s: Side, t: Tree, n: SplayNode, o: Tree)
    ensures Weight(Make(s, t, n, o)) == Weight(t) + Weight(o)
    ensures Potential(Make(s, t, n, o)) == (Weight(t) + Weight(o)) * (Potential(t) * Potential(o))
  {
    assert Potential(t) * Potential(o) == Potential(o) * Potential(t);
  }

  /** The two sides and the root share the nodes. */
  lemma {:induction false} SplitWeights(t: Tree, key: int)
    requires t.Branch?
    ensures Weight(SplitOf(t, key).smaller) + Weight(SplitOf(t, key).larger) == Weight(t)
    decreases Size(t)
  {
    if key != t.node.key {
      match Step(t, key)
      case Halts(u) =>
      case Passes(s, n, o, u) => SplitWeights(u, key);
    }
  }

  // ---- arithmetic

  lemma Grows(a: nat, b: nat, c: nat, d: nat)
    requires a <= b && c <= d
    ensures a * c <= b * d
  {
    assert a * c <= b * c <= b * d;
  }

  /** The arithmetic and the geometric mean. */
  lemma Means(a: nat, b: nat, n: nat)
    requires a + b <= n
    ensures 4 * (a * b) <= n * n
  {
    assert (a + b) * (a + b) - 4 * (a * b) == (a - b) * (a - b);
    assert (a - b) * (a - b) >= 0;
    Grows(a + b, n, a + b, n);
  }

  /** What a step adds to both sides of a bound that holds for the rest: `c` above, `e` below. */
  lemma Carry(j: nat, c: nat, d: nat, x: nat, w: nat, p: nat, e: nat)
    requires x <= w * p && j * c * w <= e
    ensures (j * x) * (c * d) <= e * (p * d)
  {
    Grows(x, w * p, j * c * d, j * c * d);
    Grows(j * c * w, e, p * d, p * d);
    assert (j * x) * (c * d) == x * (j * c * d);
    assert (w * p) * (j * c * d) == (j * c * w) * (p * d);
  }

  // Products in another order.

  lemma Regroup(k: nat, w: nat, i: nat, v: nat, d: nat, j: nat)
    ensures (2 * k) * ((w * (i * (v * d))) * j) == (2 * (k * (i * j))) * ((w * v) * d)
  {
    assert (w * (i * (v * d))) * j == (i * j) * ((w * v) * d);
  }

  lemma Regrouped(n: nat, m: nat, pb: nat, pc: nat, po: nat)
    ensures (n * n) * (n * ((m * (pb * pc)) * po)) == ((n * n) * (n * m)) * (pb * (pc * po))
  {
    assert (m * (pb * pc)) * po == m * (pb * (pc * po));
  }

  /** The numbers of a turn that rotates: `k` is the cost of the rest, `i` and `j` the potentials of its sides, `w` the
      weight of the node passed over, `v` that of the node below it. */
  lemma RotateNumbers(k: nat, i: nat, j: nat, w: nat, v: nat, n: nat, m: nat, wb: nat, pb: nat, pc: nat, po: nat)
    requires k * (i * j) <= (wb * wb) * pb && w <= n && wb <= m && v + wb <= n
    ensures (2 * k) * ((w * (i * (v * (pc * po)))) * j) <= (n * n) * (n * ((m * (pb * pc)) * po))
  {
    Regroup(k, w, i, v, pc * po, j);
    Regrouped(n, m, pb, pc, po);
    RotateCore(w, v, n, m, wb);
    Carry(2, w * v, pc * po, k * (i * j), wb * wb, pb, (n * n) * (n * m));
  }

  lemma RotateCore(w: nat, v: nat, n: nat, m: nat, wb: nat)
    requires w <= n && wb <= m && v + wb <= n
    ensures 2 * (w * v) * (wb * wb) <= (n * n) * (n * m)
  {
    Means(v, wb, n);
    Grows3(2 * (v * wb), n * n, w, n, wb, m);
    Shuffled(w, v, wb);
  }

  lemma Shuffled(w: nat, v: nat, b: nat)
    ensures 2 * (w * v) * (b * b) == (2 * (v * b)) * (w * b)
  {}

  /** The numbers of two turns to different sides, the second of which rotates: `w` and `u` are the weights of the nodes
      passed over, `v` that of the node below the second. */
  lemma ZigZagNumbers(k: nat, i: nat, j: nat, w: nat, u: nat, v: nat, n: nat, a: nat, b: nat, wb: nat,
                      pb: nat, pc: nat, pe: nat, po: nat)
    requires k * (i * j) <= (wb * wb) * pb && 4 * ((w * u) * v) * (wb * wb) <= (n * n) * (n * (a * b))
    ensures (4 * k) * ((w * (i * po)) * (u * (j * (v * (pc * pe))))) <= (n * n) * (n * ((a * ((b * (pb * pc)) * pe)) * po))
  {
    Carry(4, (w * u) * v, (pc * pe) * po, k * (i * j), wb * wb, pb, (n * n) * (n * (a * b)));
    ZigZagLeft(k, i, j, w, u, v, pc * pe, po);
    ZigZagRight(n, a, b, pb, pc, pe, po);
  }

  lemma ZigZagCore(w: nat, u: nat, v: nat, n: nat, a: nat, b: nat, wb: nat)
    requires w <= n && u <= n && wb <= b && a <= n && v + wb <= a
    ensures 4 * ((w * u) * v) * (wb * wb) <= (n * n) * (n * (a * b))
  {
    Grows(w, n, u, n);
    FourTimes(v, wb, a, n);
    ZigZagProduct(w * u, v, wb, n, a, b);
  }

  lemma ZigZagProduct(x: nat, v: nat, wb: nat, n: nat, a: nat, b: nat)
    requires x <= n * n && 4 * (v * wb) <= n * a && wb <= b
    ensures 4 * (x * v) * (wb * wb) <= (n * n) * (n * (a * b))
  {
    Grows3(4 * (v * wb), n * a, x, n * n, wb, b);
    ZigZagShuffled(x, v, wb, n, a, b);
  }

  lemma FourTimes(v: nat, wb: nat, a: nat, n: nat)
    requires v + wb <= a <= n
    ensures 4 * (v * wb) <= n * a
  {
    Means(v, wb, a);
    Grows(a, n, a, a);
  }

  lemma Grows3(a: nat, b: nat, c: nat, d: nat, e: nat, f: nat)
    requires a <= b && c <= d && e <= f
    ensures a * (c * e) <= b * (d * f)
  {
    Grows(c, d, e, f);
    Grows(a, b, c * e, d * f);
  }

  lemma ZigZagShuffled(x: nat, v: nat, wb: nat, n: nat, a: nat, b: nat)
    ensures 4 * (x * v) * (wb * wb) == (4 * (v * wb)) * (x * wb)
    ensures (n * n) * (n * (a * b)) == (n * a) * ((n * n) * b)
  {}

  lemma ZigZagLeft(k: nat, i: nat, j: nat, w: nat, u: nat, v: nat, d: nat, po: nat)
    ensures (4 * k) * ((w * (i * po)) * (u * (j * (v * d)))) == (4 * (k * (i * j))) * (((w * u) * v) * (d * po))
  {
    assert (w * (i * po)) * (u * (j * (v * d))) == (i * j) * (((w * u) * v) * (d * po));
  }

  lemma ZigZagRight(n: nat, a: nat, b: nat, pb: nat, pc: nat, pe: nat, po: nat)
    ensures (n * n) * (n * ((a * ((b * (pb * pc)) * pe)) * po)) == ((n * n) * (n * (a * b))) * (pb * ((pc * pe) * po))
  {
    assert (a * ((b * (pb * pc)) * pe)) * po == (a * b) * (pb * ((pc * pe) * po));
  }

  /** The numbers of two turns to different sides without a rotation: both sides share the nodes. */
  lemma LinkNumbers(k: nat, i: nat, j: nat, w: nat, u: nat, n: nat, a: nat, wb: nat, pb: nat, pe: nat, po: nat)
    requires k * (i * j) <= (wb * wb) * pb && w + u <= n && wb <= a && wb <= n
    ensures (4 * k) * ((w * (i * po)) * (u * (j * pe))) <= (n * n) * (n * ((a * (pb * pe)) * po))
  {
    LinkCore(w, u, n, a, wb);
    Carry(4, w * u, pe * po, k * (i * j), wb * wb, pb, (n * n) * (n * a));
    LinkShuffled(k, i, j, w, u, pe, po);
    Regrouped(n, a, pb, pe, po);
  }

  lemma LinkCore(w: nat, u: nat, n: nat, a: nat, wb: nat)
    requires w + u <= n && wb <= a && wb <= n
    ensures 4 * (w * u) * (wb * wb) <= (n * n) * (n * a)
  {
    Means(w, u, n);
    Grows(wb, n, wb, a);
    Grows(4 * (w * u), n * n, wb * wb, n * a);
  }

  lemma LinkShuffled(k: nat, i: nat, j: nat, w: nat, u: nat, pe: nat, po: nat)
    ensures (4 * k) * ((w * (i * po)) * (u * (j * pe))) == (4 * (k * (i * j))) * ((w * u) * (pe * po))
  {
    assert (w * (i * po)) * (u * (j * pe)) == (i * j) * ((w * u) * (pe * po));
  }

  // ---- one splay

  /** Turns and potential of the two sides are paid for by the potential of the tree and twice its rank. */
  predicate Paid(t: Tree, r: Parts) {
    Pow(2, r.turns) * (Potential(r.smaller) * Potential(r.larger)) <= (Weight(t) * Weight(t)) * Potential(t)
  }

  lemma PaidSides(s: Side, t: Tree, r: Parts)
    ensures Paid(t, r) <==>
            Pow(2, r.turns) * (Potential(SideOf(s, r)) * Potential(SideOf(Other(s), r))) <= (Weight(t) * Weight(t)) * Potential(t)
  {
    assert Potential(r.smaller) * Potential(r.larger) == Potential(r.larger) * Potential(r.smaller);
  }

  lemma HungSides(s: Side, n: SplayNode, o: Tree, r: Parts)
    ensures var h := Hung(s, n, o, r);
            && SideOf(s, h) == Make(s, SideOf(s, r), n, o) && SideOf(Other(s), h) == SideOf(Other(s), r)
            && h.turns == r.turns + 1 && Pow(2, h.turns) == 2 * Pow(2, r.turns) && Other(Other(s)) == s
  {}

  lemma SideWeights(s: Side, t: Tree, r: Parts)
    requires Weight(r.smaller) + Weight(r.larger) == Weight(t)
    ensures Weight(SideOf(s, r)) + Weight(SideOf(Other(s), r)) == Weight(t)
  {}

  /** A turn that rotates. */
  lemma RotatePaid(s: Side, b: Tree, y: SplayNode, c: Tree, x: SplayNode, o: Tree, r: Parts)
    requires Paid(b, r) && Weight(r.smaller) + Weight(r.larger) == Weight(b)
    ensures Paid(Make(s, Make(s, b, y, c), x, o), Hung(s, y, Make(s, c, x, o), r))
  {
    hide Make, Weight, Potential, Pow, Paid, SideOf, Hung;
    var below := Make(s, c, x, o);
    var a, h := Make(s, b, y, c), Hung(s, y, below, r);
    PaidSides(s, b, r);
    PaidSides(s, Make(s, a, x, o), h);
    HungSides(s, y, below, r);
    SideWeights(s, b, r);
    MakeWeight(s, b, y, c);
    MakeWeight(s, a, x, o);
    MakeWeight(s, c, x, o);
    MakeWeight(s, SideOf(s, r), y, below);
    RotateNumbers(Pow(2, r.turns), Potential(SideOf(s, r)), Potential(SideOf(Other(s), r)),
                  Weight(SideOf(s, r)) + Weight(below), Weight(below), Weight(a) + Weight(o), Weight(a), Weight(b),
                  Potential(b), Potential(c), Potential(o));
  }

  /** A turn, and one to the other side that rotates. */
  lemma ZigZagPaid(s: Side, b: Tree, z: SplayNode, c: Tree, y: SplayNode, e: Tree, x: SplayNode, o: Tree, r: Parts)
    requires Paid(b, r) && Weight(r.smaller) + Weight(r.larger) == Weight(b)
    ensures var q := Other(s);
            Paid(Make(s, Make(q, Make(q, b, z, c), y, e), x, o), Hung(s, x, o, Hung(q, z, Make(q, c, y, e), r)))
  {
    hide Make, Weight, Potential, Pow, Paid, SideOf, Hung;
    var q := Other(s);
    var below, d := Make(q, c, y, e), Make(q, b, z, c);
    var a, h := Make(q, d, y, e), Hung(q, z, below, r);
    PaidSides(s, b, r);
    PaidSides(s, Make(s, a, x, o), Hung(s, x, o, h));
    HungSides(q, z, below, r);
    HungSides(s, x, o, h);
    SideWeights(s, b, r);
    MakeWeight(q, b, z, c);
    MakeWeight(q, d, y, e);
    MakeWeight(s, a, x, o);
    MakeWeight(q, c, y, e);
    MakeWeight(q, SideOf(q, r), z, below);
    MakeWeight(s, SideOf(s, r), x, o);
    ZigZagCore(Weight(SideOf(s, r)) + Weight(o), Weight(SideOf(q, r)) + Weight(below), Weight(below), Weight(a) + Weight(o),
               Weight(a), Weight(d), Weight(b));
    ZigZagNumbers(Pow(2, r.turns), Potential(SideOf(s, r)), Potential(SideOf(q, r)),
                  Weight(SideOf(s, r)) + Weight(o), Weight(SideOf(q, r)) + Weight(below), Weight(below),
                  Weight(a) + Weight(o), Weight(a), Weight(d), Weight(b), Potential(b), Potential(c), Potential(e), Potential(o));
  }

  /** Two turns to different sides without a rotation. */
  lemma LinkPaid(s: Side, b: Tree, y: SplayNode, e: Tree, x: SplayNode, o: Tree, r: Parts)
    requires Paid(b, r) && Weight(r.smaller) + Weight(r.larger) == Weight(b)
    ensures Paid(Make(s, Make(Other(s), b, y, e), x, o), Hung(s, x, o, Hung(Other(s), y, e, r)))
  {
    hide Make, Weight, Potential, Pow, Paid, SideOf, Hung;
    var q := Other(s);
    var a, h := Make(q, b, y, e), Hung(q, y, e, r);
    PaidSides(s, b, r);
    PaidSides(s, Make(s, a, x, o), Hung(s, x, o, h));
    HungSides(q, y, e, r);
    HungSides(s, x, o, h);
    SideWeights(s, b, r);
    MakeWeight(q, b, y, e);
    MakeWeight(s, a, x, o);
    MakeWeight(q, SideOf(q, r), y, e);
    MakeWeight(s, SideOf(s, r), x, o);
    LinkNumbers(Pow(2, r.turns), Potential(SideOf(s, r)), Potential(SideOf(q, r)),
                Weight(SideOf(s, r)) + Weight(o), Weight(SideOf(q, r)) + Weight(e), Weight(a) + Weight(o), Weight(a), Weight(b),
                Potential(b), Potential(e), Potential(o));
  }

  /** The search ends in this tree, after at most one turn. */
  predicate Ends(t: Tree, key: int) { t.Branch? && (key == t.node.key || Step(t, key).Halts?) }

  lemma EndNumbers(pc: nat, po: nat, wc: nat, wo: nat)
    ensures (wc + wo) * (pc * po) <= (1 + wc + wo) * (((1 + wc) * (1 * pc)) * po)
  {
    assert ((1 + wc) * (1 * pc)) * po == (1 + wc) * (pc * po);
    Grows(1, 1 + wc, pc * po, pc * po);
    Grows(wc + wo, 1 + wc + wo, pc * po, (1 + wc) * (pc * po));
  }

  lemma EndPotential(t: Tree, key: int)
    requires Ends(t, key)
    ensures var r := SplitOf(t, key);
            Potential(r.smaller) * Potential(r.larger) <= Potential(t) && Pow(2, r.turns) <= 2
  {
    hide Potential, Weight;
    var s := Toward(t, key);
    var kid, o := Near(s, t), Near(Other(s), t);
    Opened(t);
    if key != t.node.key && kid.Branch? {
      var c := Near(Other(s), kid);
      MakeAgain(s, t);
      MakeAgain(s, kid);
      MakeWeight(s, Leaf, kid.node, c);
      MakeWeight(s, kid, t.node, o);
      MakeWeight(s, c, t.node, o);
      Nothing();
      EndNumbers(Potential(c), Potential(o), Weight(c), Weight(o));
    }
  }

  lemma Nothing()
    ensures Potential(Leaf) == 1 && Weight(Leaf) == 1
  {}

  lemma Opened(t: Tree)
    requires t.Branch?
    ensures Potential(t) == Weight(t) * (Potential(t.left) * Potential(t.right)) && Weight(t) >= 2
    ensures Potential(t.left) * Potential(t.right) <= Potential(t)
  {
    Grows(1, Weight(t), Potential(t.left) * Potential(t.right), Potential(t.left) * Potential(t.right));
  }

  lemma EndPaid(t: Tree, key: int)
    requires Ends(t, key)
    ensures Paid(t, SplitOf(t, key))
  {
    hide Potential, Weight, Pow, SplitOf;
    var r := SplitOf(t, key);
    EndPotential(t, key);
    Opened(t);
    Grows(2, Weight(t), 1, Weight(t));
    var p := Potential(r.smaller) * Potential(r.larger);
    Grows(Pow(2, r.turns), Weight(t) * Weight(t), p, Potential(t));
  }

  lemma OneNumbers(k: nat, i: nat, j: nat, w: nat, n: nat, pa: nat, po: nat)
    requires k <= 2 && i * j <= pa && w <= n && n >= 2
    ensures (2 * k) * ((w * (i * po)) * j) <= (n * n) * (n * (pa * po))
  {
    Grows(i * j, pa, po, po);
    AtLeastFour(n);
    Grows3(2 * k, n * n, w, n, (i * j) * po, pa * po);
    OneShuffled(w, i, j, po);
  }

  lemma AtLeastFour(n: nat)
    requires n >= 2
    ensures n * n >= 4
  {
    Grows(2, n, 2, n);
  }

  lemma OneShuffled(w: nat, i: nat, j: nat, po: nat)
    ensures (w * (i * po)) * j == w * ((i * j) * po)
  {}

  /** A turn without a rotation, and the end of the search. */
  lemma OnePaid(s: Side, a: Tree, x: SplayNode, o: Tree, key: int)
    requires Ends(a, key)
    ensures Paid(Make(s, a, x, o), Hung(s, x, o, SplitOf(a, key)))
  {
    hide Make, Weight, Potential, Pow, Paid, SideOf, Hung, SplitOf;
    var r := SplitOf(a, key);
    var h := Hung(s, x, o, r);
    EndPotential(a, key);
    SplitWeights(a, key);
    SideWeights(s, a, r);
    SidePotential(s, r);
    PaidSides(s, Make(s, a, x, o), h);
    HungSides(s, x, o, r);
    MakeWeight(s, a, x, o);
    MakeWeight(s, SideOf(s, r), x, o);
    OneNumbers(Pow(2, r.turns), Potential(SideOf(s, r)), Potential(SideOf(Other(s), r)), Weight(SideOf(s, r)) + Weight(o),
               Weight(a) + Weight(o), Potential(a), Potential(o));
  }

  lemma SidePotential(s: Side, r: Parts)
    ensures Potential(SideOf(s, r)) * Potential(SideOf(Other(s), r)) == Potential(r.smaller) * Potential(r.larger)
  {
    hide Potential;
    assert Potential(r.smaller) * Potential(r.larger) == Potential(r.larger) * Potential(r.smaller);
  }

  /** The trees of a turn that passes a node over. */
  lemma PassedTrees(t: Tree, key: int)
    requires t.Branch? && key != t.node.key && Step(t, key).Passes?
    ensures var (st, s, x) := (Step(t, key), Toward(t, key), t.node);
            var o, kid := Near(Other(s), t), Near(s, t);
            && st.s == s && t == Make(s, kid, x, o) && kid.Branch?
            && if Beyond(s, key, kid.node.key) then
                 var c := Near(Other(s), kid);
                 kid == Make(s, st.t, kid.node, c) && st.node == kid.node && st.other == Make(s, c, x, o)
               else st.t == kid && st.node == x && st.other == o && (key != kid.node.key ==> Toward(kid, key) == Other(s))
  {
    var s := Toward(t, key);
    MakeAgain(s, t);
    MakeAgain(s, Near(s, t));
  }

  lemma {:induction false} SplitPaid(t: Tree, key: int)
    requires t.Branch?
    ensures Paid(t, SplitOf(t, key))
    decreases Size(t)
  {
    hide Paid, Make, Near, Hung, Beyond, Step, Toward;
    if Ends(t, key) {
      EndPaid(t, key);
    } else {
      var st := Step(t, key);
      var s, x, u := st.s, t.node, st.t;
      var o, kid := Near(Other(s), t), Near(s, t);
      PassedTrees(t, key);
      SplitPassed(t, key);
      if Beyond(s, key, kid.node.key) {
        SplitPaid(u, key);
        SplitWeights(u, key);
        RotatePaid(s, u, kid.node, Near(Other(s), kid), x, o, SplitOf(u, key));
      } else if Ends(u, key) {
        OnePaid(s, u, x, o, key);
      } else {
        var q, su := Other(s), Step(u, key);
        var e, inner, b := Near(Other(q), u), Near(q, u), su.t;
        PassedTrees(u, key);
        SplitPassed(u, key);
        SplitPaid(b, key);
        SplitWeights(b, key);
        if Beyond(q, key, inner.node.key) {
          ZigZagPaid(s, b, inner.node, Near(Other(q), inner), u.node, e, x, o, SplitOf(b, key));
        } else {
          LinkPaid(s, b, u.node, e, x, o, SplitOf(b, key));
        }
      }
    }
  }

  lemma SplitPassed(t: Tree, key: int)
    requires t.Branch? && key != t.node.key && Step(t, key).Passes?
    ensures var st := Step(t, key); SplitOf(t, key) == Hung(st.s, st.node, st.other, SplitOf(st.t, key))
  {}

  /** The access lemma: a splay of a tree of n nodes costs 3 lg (n + 1) turns but for what the potential pays. */
  lemma SplayCost(t: Tree, key: int)
    requires t.Branch?
    ensures Pow(2, Turns(t, key)) * Potential(Splayed(t, key)) <= Weight(t) * (Weight(t) * Weight(t)) * Potential(t)
    ensures Weight(Splayed(t, key)) == Weight(t)
  {
    hide Potential, Pow, SplitOf;
    var r := SplitOf(t, key);
    SplitPaid(t, key);
    SplitWeights(t, key);
    Opened(Splayed(t, key));
    SplayedWeight(t, key);
    CostNumbers(Pow(2, r.turns), Potential(r.smaller) * Potential(r.larger), Weight(t), Potential(t));
  }

  lemma SplayedWeight(t: Tree, key: int)
    requires t.Branch?
    ensures var r := SplitOf(t, key);
            Weight(Splayed(t, key)) == Weight(r.smaller) + Weight(r.larger)
  {}

  lemma CostNumbers(k: nat, p: nat, w: nat, q: nat)
    requires k * p <= (w * w) * q
    ensures k * (w * p) <= w * (w * w) * q
  {
    Grows(w, w, k * p, (w * w) * q);
    assert k * (w * p) == w * (k * p);
    assert w * ((w * w) * q) == w * (w * w) * q;
  }

  // ---- the Balance Theorem

  /** What the three operations do to the tree. */
  datatype Op = Look(key: int) | Put(node: SplayNode) | Drop(key: int)

  function KeyOf(op: Op): int { if op.Put? then op.node.key else op.key }

  /** The tree without its root `u.node`: the left tree is splayed for the same key, and takes the right one. */
  function Joined(u: Tree, key: int): Tree
    requires u.Branch?
  {
    if u.left.Leaf? then u.right
    else
      var w := Splayed(u.left, key);
      Branch(w.left, w.node, u.right)
  }

  function After(t: Tree, op: Op): Tree {
    if t.Leaf? then (if op.Put? then NewRoot(t, op.node) else t)
    else
      var u := Splayed(t, KeyOf(op));
      match op
      case Look(_) => u
      case Put(n) => if u.node.key == n.key then u else NewRoot(u, n)
      case Drop(key) => if u.node.key == key then Joined(u, key) else u
  }

  function Cost(t: Tree, op: Op): nat {
    if t.Leaf? then 0
    else
      var u := Splayed(t, KeyOf(op));
      Turns(t, KeyOf(op)) + if op.Drop? && u.node.key == op.key && u.left.Branch? then Turns(u.left, op.key) else 0
  }

  function AfterAll(t: Tree, ops: seq<Op>): Tree
    decreases |ops|
  {
    if ops == [] then t else AfterAll(After(t, ops[0]), ops[1..])
  }

  function CostAll(t: Tree, ops: seq<Op>): nat
    decreases |ops|
  {
    if ops == [] then 0 else Cost(t, ops[0]) + CostAll(After(t, ops[0]), ops[1..])
  }

  function Puts(ops: seq<Op>): nat { if ops == [] then 0 else (if ops[0].Put? then 1 else 0) + Puts(ops[1..]) }

  lemma {:induction false} PowSum(b: nat, i: nat, j: nat)
    ensures Pow(b, i + j) == Pow(b, i) * Pow(b, j)
    decreases i
  {
    if i > 0 {
      PowSum(b, i - 1, j);
      assert b * (Pow(b, i - 1) * Pow(b, j)) == (b * Pow(b, i - 1)) * Pow(b, j);
    }
  }

  /** The bound of one operation on a tree that has fewer than `w` nodes before and after it. */
  predicate Bounded(t: Tree, op: Op, w: nat) {
    Pow(2, Cost(t, op)) * Potential(After(t, op)) <= Pow(w, 5) * Potential(t)
  }

  function More(op: Op): nat { if op.Put? then 1 else 0 }

  lemma Five(w: nat)
    requires w >= 1
    ensures Pow(w, 5) == w * ((w * w) * (w * w)) && w * w >= 1
    ensures w * w <= Pow(w, 5) && w * (w * w) <= Pow(w, 5) && (w * w) * (w * w) <= Pow(w, 5)
  {
    assert Pow(w, 2) == w * (w * Pow(w, 0)) == w * w;
    PowSum(w, 2, 2);
    assert Pow(w, 4) == (w * w) * (w * w) && Pow(w, 5) == w * Pow(w, 4);
    Positive(w, w);
    var q := w * w;
    Grows(1, q, q, q);
    Grows(1, w, q * q, q * q);
    Grows(q, q * q, w, w);
  }

  /** A larger base. */
  lemma Raised(k: nat, p: nat, a: nat, w: nat, b: nat, q: nat)
    requires a <= w && k * p <= (a * a) * q && (w * w) * q <= b
    ensures k * p <= b
  {
    Grows(a, w, a, w);
    Grows(a * a, w * w, q, q);
  }

  lemma LookBounded(t: Tree, key: int, w: nat)
    requires t.Branch? && Weight(t) <= w
    ensures Pow(2, Turns(t, key)) * Potential(Splayed(t, key)) <= Pow(w, 5) * Potential(t)
  {
    hide Potential, Pow, Weight, Turns, Splayed;
    var a, q := Weight(t), Potential(t);
    SplayCost(t, key);
    Five(w);
    assert a * (a * a) <= w * (w * w) by {
      Grows(a, w, a, w);
      Grows(a, w, a * a, w * w);
    }
    Grows(a * (a * a), Pow(w, 5), q, q);
  }

  /** A node more at the root. */
  lemma NewPotential(t: Tree, key: int, n: SplayNode)
    requires t.Branch?
    ensures var r, v := SplitOf(t, key), NewRoot(Splayed(t, key), n);
            Weight(v) == Weight(t) + 1 &&
            Potential(v) <= (Weight(v) * Weight(v)) * (Potential(r.smaller) * Potential(r.larger))
  {
    hide Potential, Weight, SplitOf;
    var r, u := SplitOf(t, key), Splayed(t, key);
    SplayedWeight(t, key);
    SplitWeights(t, key);
    Nothing();
    var a, b := r.smaller, r.larger;
    var i, j, v := Potential(a), Potential(b), Weight(t) + 1;
    if n.key < u.node.key {
      MakeWeight(L, Leaf, u.node, b);
      MakeWeight(L, a, n, Branch(Leaf, u.node, b));
      NewNumbers(i, j, v, 1 + Weight(b));
    } else {
      MakeWeight(L, a, u.node, Leaf);
      MakeWeight(L, Branch(a, u.node, Leaf), n, b);
      NewNumbers(j, i, v, Weight(a) + 1);
    }
  }

  lemma NewNumbers(i: nat, j: nat, v: nat, x: nat)
    requires x <= v
    ensures v * (i * (x * (1 * j))) <= (v * v) * (i * j) && v * ((x * (j * 1)) * i) <= (v * v) * (i * j)
    ensures (v * v) * (i * j) == (v * v) * (j * i)
  {
    Grows(x, v, i * j, i * j);
    Grows(v, v, x * (i * j), v * (i * j));
    assert v * (i * (x * (1 * j))) == v * (x * (i * j)) == v * ((x * (j * 1)) * i);
    assert v * (v * (i * j)) == (v * v) * (i * j);
  }

  lemma PutBounded(t: Tree, n: SplayNode, w: nat)
    requires t.Branch? && Weight(t) + 1 <= w
    ensures Pow(2, Turns(t, n.key)) * Potential(NewRoot(Splayed(t, n.key), n)) <= Pow(w, 5) * Potential(t)
  {
    hide Potential, Pow, Weight, SplitOf, NewRoot, Splayed;
    var r, v, q := SplitOf(t, n.key), NewRoot(Splayed(t, n.key), n), Potential(t);
    var k, x, p := Pow(2, r.turns), Weight(t) + 1, Potential(r.smaller) * Potential(r.larger);
    NewPotential(t, n.key, n);
    SplitPaid(t, n.key);
    Five(w);
    assert k * p <= (w * w) * q by { Raised(k, p, Weight(t), w, (w * w) * q, q); }
    PutNumbers(k, Potential(v), p, x, w, q);
    Grows((w * w) * (w * w), Pow(w, 5), q, q);
  }

  lemma PutNumbers(k: nat, pv: nat, p: nat, x: nat, w: nat, q: nat)
    requires pv <= (x * x) * p && k * p <= (w * w) * q && x <= w
    ensures k * pv <= (w * w) * (w * w) * q
  {
    Grows(x, w, x, w);
    Grows(k, k, pv, (x * x) * p);
    Grows(x * x, w * w, k * p, (w * w) * q);
    assert k * ((x * x) * p) == (x * x) * (k * p);
    assert (w * w) * ((w * w) * q) == (w * w) * (w * w) * q;
  }

  lemma DropBounded(t: Tree, key: int, w: nat)
    requires t.Branch? && Weight(t) <= w
    ensures var u := Splayed(t, key);
            Pow(2, Turns(t, key) + if u.left.Branch? then Turns(u.left, key) else 0) * Potential(Joined(u, key)) <=
            Pow(w, 5) * Potential(t)
    ensures Weight(Joined(Splayed(t, key), key)) <= Weight(t)
  {
    hide Potential, Pow, Weight, SplitOf;
    var r, q := SplitOf(t, key), Potential(t);
    var u, k, i, j := Splayed(t, key), Pow(2, r.turns), Potential(r.smaller), Potential(r.larger);
    SplitPaid(t, key);
    SplitWeights(t, key);
    Five(w);
    assert k * (i * j) <= (w * w) * q by { Raised(k, i * j, Weight(t), w, (w * w) * q, q); }
    if r.smaller.Leaf? {
      Nothing();
      Grows(w * w, Pow(w, 5), q, q);
    } else {
      var v := SplitOf(r.smaller, key);
      SplitPaid(r.smaller, key);
      SplitWeights(r.smaller, key);
      var k2, p2 := Pow(2, v.turns), Potential(v.smaller) * Potential(v.larger);
      Raised(k2, p2, Weight(r.smaller), w, (w * w) * i, i);
      Grows(1, Potential(v.larger), Potential(v.smaller), Potential(v.smaller));
      MakeWeight(L, v.smaller, v.node, r.larger);
      PowSum(2, r.turns, v.turns);
      DropNumbers(k, k2, i, j, Potential(v.smaller), p2, Weight(v.smaller) + Weight(r.larger), w, q);
    }
  }

  lemma DropNumbers(k: nat, k2: nat, i: nat, j: nat, s: nat, p2: nat, x: nat, w: nat, q: nat)
    requires k * (i * j) <= (w * w) * q && k2 * p2 <= (w * w) * i && s <= p2 && x <= w
    ensures (k * k2) * (x * (s * j)) <= w * ((w * w) * (w * w)) * q
  {
    Grows(k2, k2, s, p2);
    var m := (w * w) * i;
    Grows(k2 * s, m, k * j, k * j);
    Grows(w * w, w * w, k * (i * j), (w * w) * q);
    assert m * (k * j) == (w * w) * (k * (i * j));
    Grows(x, w, (k2 * s) * (k * j), (w * w) * ((w * w) * q));
    assert (k * k2) * (x * (s * j)) == x * ((k2 * s) * (k * j));
    assert w * ((w * w) * ((w * w) * q)) == w * ((w * w) * (w * w)) * q;
  }

  /** Every operation on a tree of fewer than `w` nodes costs 5 lg w turns, but for what the potential pays. */
  lemma OpCost(t: Tree, op: Op, w: nat)
    requires Weight(t) + More(op) <= w
    ensures Bounded(t, op, w) && Weight(After(t, op)) <= Weight(t) + More(op)
  {
    hide Potential, Pow, Weight, Turns, Splayed, Joined;
    Five(w);
    if t.Leaf? {
      Nothing();
      LeafBounded(t, op, w);
    } else {
      var key := KeyOf(op);
      LookBounded(t, key, w);
      SplayCost(t, key);
      match op
      case Look(_) =>
      case Put(n) => if Splayed(t, key).node.key != n.key {
        PutBounded(t, n, w);
        NewPotential(t, key, n);
      }
      case Drop(_) => if Splayed(t, key).node.key == key { DropBounded(t, key, w); }
    }
  }

  lemma LeafBounded(t: Tree, op: Op, w: nat)
    requires t.Leaf? && 1 + More(op) <= w
    ensures Bounded(t, op, w) && Weight(After(t, op)) <= 1 + More(op)
  {
    hide Pow, Potential;
    Five(w);
    Nothing();
    PowNone();
    if op.Put? {
      assert After(t, op) == Make(L, Leaf, op.node, Leaf);
      MakeWeight(L, Leaf, op.node, Leaf);
      Grows(2, w, 1, w);
    }
  }

  lemma PowNone()
    ensures Pow(2, 0) == 1
  {}

  /** Any operations, one after the other. */
  lemma {:induction false} RunCost(t: Tree, ops: seq<Op>, w: nat)
    requires Weight(t) + Puts(ops) <= w
    ensures Pow(2, CostAll(t, ops)) * Potential(AfterAll(t, ops)) <= Pow(w, 5 * |ops|) * Potential(t)
    decreases |ops|
  {
    hide Potential, Weight, After, Cost;
    if ops != [] {
      var op, u := ops[0], After(t, ops[0]);
      OpCost(t, op, w);
      RunCost(u, ops[1..], w);
      PowSum(2, Cost(t, op), CostAll(u, ops[1..]));
      PowSum(w, 5, 5 * |ops[1..]|);
      RunNumbers(Pow(2, Cost(t, op)), Pow(2, CostAll(u, ops[1..])), Potential(AfterAll(t, ops)), Pow(w, 5),
                 Pow(w, 5 * |ops[1..]|), Potential(u), Potential(t));
    }
  }

  lemma RunNumbers(k: nat, l: nat, p: nat, a: nat, b: nat, u: nat, q: nat)
    requires l * p <= b * u && k * u <= a * q
    ensures (k * l) * p <= (a * b) * q
  {
    Grows(k, k, l * p, b * u);
    Grows(b, b, k * u, a * q);
    assert (k * l) * p == k * (l * p) && k * (b * u) == b * (k * u) && b * (a * q) == (a * b) * q;
  }

  /** The Balance Theorem: from an empty tree any m operations, n of them inserts, take at most 5 m lg (n + 1) turns. */
  lemma BalanceTheorem(ops: seq<Op>)
    ensures Pow(2, CostAll(Leaf, ops)) <= Pow(Puts(ops) + 1, 5 * |ops|)
  {
    hide Pow, Potential;
    var k, p := Pow(2, CostAll(Leaf, ops)), Potential(AfterAll(Leaf, ops));
    Nothing();
    RunCost(Leaf, ops, Puts(ops) + 1);
    Grows(k, k, 1, p);
  }
}
