/** The AVL trees of tsearch(3) as values: rotations, rebalancing, insertion
    and deletion, each with the order and height facts that they keep. */
module AvlTree {
  /** An address; 0 is the null pointer. Pointers are 32 bits wide. */
  type Ref = r: nat | r < 0x1_0000_0000

  /** A tree of heap nodes. h is the height stored in the node. Keys stand for
      their rank in the caller's total order. */
  datatype Tree = Nil | Node(addr: Ref, key: int, left: Tree, right: Tree, h: int)

  function Height(t: Tree): int { if t.Nil? then 0 else t.h }

  function Addr(t: Tree): Ref { if t.Nil? then 0 else t.addr }

  /** n->a[dir]; dir is false for a[0] and true for a[1]. */
  function Child(t: Tree, dir: bool): Tree
    requires t.Node?
  {
    if dir then t.right else t.left
  }

  function SetChild(t: Tree, dir: bool, c: Tree): (r: Tree)
    requires t.Node?
    ensures r.Node? && Child(r, dir) == c && Child(r, !dir) == Child(t, !dir)
    ensures r.addr == t.addr && r.key == t.key && r.h == t.h
  {
    if dir then t.(right := c) else t.(left := c)
  }

  /** n->a[dir] = c; n->h = h */
  function Relink(t: Tree, dir: bool, c: Tree, h: int): (r: Tree)
    requires t.Node?
    ensures r.Node? && r.h == h && r.key == t.key && r.addr == t.addr
    ensures Child(r, dir) == c && Child(r, !dir) == Child(t, !dir)
  {
    var r := SetChild(t, dir, c);
    r.(h := h)
  }

  function Max(a: int, b: int): int { if a < b then b else a }

  ghost function Keys(t: Tree): set<int> {
    if t.Nil? then {} else Keys(t.left) + {t.key} + Keys(t.right)
  }

  ghost function Addrs(t: Tree): set<Ref> {
    if t.Nil? then {} else Addrs(t.left) + {t.addr} + Addrs(t.right)
  }

  /** The node at a holds key k. */
  ghost predicate HasNode(t: Tree, a: Ref, k: int) {
    t.Node? && ((t.addr == a && t.key == k) || HasNode(t.left, a, k) || HasNode(t.right, a, k))
  }

  /** Search order. */
  ghost predicate Ordered(t: Tree) {
    t.Nil? ||
    (Ordered(t.left) && Ordered(t.right) &&
     (forall k :: k in Keys(t.left) ==> k < t.key) && (forall k :: k in Keys(t.right) ==> t.key < k))
  }

  /** Balance, with every stored height right. */
  ghost predicate Avl(t: Tree) {
    t.Nil? ||
    (Avl(t.left) && Avl(t.right) &&
     -1 <= Height(t.left) - Height(t.right) <= 1 && t.h == Max(Height(t.left), Height(t.right)) + 1)
  }

  /** rot: the subtree that replaces x; dir is its deeper side. */
  function Rotate(x: Tree, dir: bool): Tree
    requires x.Node? && Child(x, dir).Node?
  {
    var y := Child(x, dir);
    var z := Child(y, !dir);
    if z.Node? && Height(z) > Height(Child(y, dir)) then
      var x' := Relink(x, dir, Child(z, !dir), z.h);
      var y' := Relink(y, !dir, Child(z, dir), z.h);
      Relink(SetChild(z, !dir, x'), dir, y', z.h + 1)
    else
      var x' := Relink(x, dir, z, Height(z) + 1);
      Relink(y, !dir, x', Height(z) + 2)
  }

  predicate Level(t: Tree)
    requires t.Node?
  {
    -1 <= Height(t.left) - Height(t.right) <= 1
  }

  /** __tsearch_balance. A node whose deeper side is empty never occurs: see
      NearlyAvlDeepSide. */
  function Balance(n: Tree): (r: Tree)
    requires n.Node?
    ensures r.Node?
  {
    var dir := Height(n.left) < Height(n.right);
    if Level(n) || Child(n, dir).Nil? then n.(h := Max(Height(n.left), Height(n.right)) + 1)
    else Rotate(n, dir)
  }

  lemma {:induction false} HeightNonNegative(t: Tree)
    requires Avl(t)
    ensures Height(t) >= 0 && (Height(t) == 0 <==> t.Nil?)
  {
    if t.Node? {
      HeightNonNegative(t.left);
      HeightNonNegative(t.right);
    }
  }

  /** Children at most one step too uneven: what a node looks like when
      __tsearch_balance is called on it. */
  ghost predicate NearlyAvl(n: Tree) {
    n.Node? && Avl(n.left) && Avl(n.right) && -2 <= Height(n.left) - Height(n.right) <= 2
  }

  lemma NearlyAvlDeepSide(n: Tree)
    requires NearlyAvl(n) && !Level(n)
    ensures Child(n, Height(n.left) < Height(n.right)).Node?
  {
    HeightNonNegative(n.left);
    HeightNonNegative(n.right);
  }

  lemma RotateKeeps(x: Tree, dir: bool)
    requires x.Node? && Child(x, dir).Node?
    ensures Keys(Rotate(x, dir)) == Keys(x) && Addrs(Rotate(x, dir)) == Addrs(x)
  {
    var y := Child(x, dir);
    var z := Child(y, !dir);
    if dir {
      assert Keys(x) == Keys(x.left) + {x.key} + (Keys(z) + {y.key} + Keys(y.right));
      assert Addrs(x) == Addrs(x.left) + {x.addr} + (Addrs(z) + {y.addr} + Addrs(y.right));
    } else {
      assert Keys(x) == (Keys(y.left) + {y.key} + Keys(z)) + {x.key} + Keys(x.right);
      assert Addrs(x) == (Addrs(y.left) + {y.addr} + Addrs(z)) + {x.addr} + Addrs(x.right);
    }
  }

  /** The keys on the dir side of a node lie beyond its key. */
  ghost predicate Beyond(k: int, t: Tree, dir: bool) {
    forall j :: j in Keys(t) ==> if dir then k < j else j < k
  }

  lemma OrderedSides(t: Tree, dir: bool)
    requires t.Node?
    ensures Ordered(t) <==>
      Ordered(Child(t, dir)) && Ordered(Child(t, !dir)) && Beyond(t.key, Child(t, dir), dir) && Beyond(t.key, Child(t, !dir), !dir)
  {
  }

  lemma KeysSides(t: Tree, dir: bool)
    requires t.Node?
    ensures Keys(t) == Keys(Child(t, dir)) + {t.key} + Keys(Child(t, !dir))
  {
  }

  lemma SingleOrdered(x: Tree, dir: bool, hx: int, hy: int)
    requires x.Node? && Child(x, dir).Node? && Ordered(x)
    ensures var y := Child(x, dir);
      Ordered(Relink(y, !dir, Relink(x, dir, Child(y, !dir), hx), hy))
  {
    var y := Child(x, dir);
    var z := Child(y, !dir);
    var x' := Relink(x, dir, z, hx);
    var y' := Relink(y, !dir, x', hy);
    OrderedSides(x, dir);
    OrderedSides(y, dir);
    KeysSides(y, dir);
    KeysSides(x', dir);
    hide Ordered, Keys, Relink, SetChild, Child;
    assert y.key in Keys(y);
    assert Ordered(x') by { OrderedSides(x', dir); }
    assert Ordered(y') by { OrderedSides(y', dir); }
  }

  /** A double rotation is a single one below and then a single one above. */
  lemma RotateOrdered(x: Tree, dir: bool)
    requires x.Node? && Child(x, dir).Node? && Ordered(x)
    ensures Ordered(Rotate(x, dir))
  {
    hide Ordered, Keys;
    var z := Child(Child(x, dir), !dir);
    if z.Node? && Height(z) > Height(Child(Child(x, dir), dir)) {
      DoubleOrdered(x, dir);
    } else {
      SingleOrdered(x, dir, Height(z) + 1, Height(z) + 2);
    }
  }

  lemma DoubleOrdered(x: Tree, dir: bool)
    requires x.Node? && Child(x, dir).Node? && Child(Child(x, dir), !dir).Node? && Ordered(x)
    requires Height(Child(Child(x, dir), !dir)) > Height(Child(Child(x, dir), dir))
    ensures Ordered(Rotate(x, dir))
  {
    hide Ordered, Keys, Beyond;
    var y := Child(x, dir);
    var z := Child(y, !dir);
    var y' := Relink(y, !dir, Child(z, dir), z.h);
    var w := Relink(z, dir, y', z.h + 1);
    OrderedSides(x, dir);
    SingleOrdered(y, !dir, z.h, z.h + 1);
    KeysSides(y, dir);
    KeysSides(z, dir);
    KeysSides(y', dir);
    KeysSides(w, dir);
    assert Keys(w) == Keys(y);
    var x1 := SetChild(x, dir, w);
    SameKeysBeyond(x.key, y, w, dir);
    OrderedSides(x1, dir);
    SingleOrdered(x1, dir, z.h, z.h + 1);
    assert Rotate(x, dir) == Relink(w, !dir, Relink(x1, dir, Child(w, !dir), z.h), z.h + 1);
  }

  lemma SameKeysBeyond(k: int, t: Tree, u: Tree, dir: bool)
    requires Beyond(k, t, dir) && Keys(t) == Keys(u)
    ensures Beyond(k, u, dir)
  {
  }

  lemma RotateAvl(x: Tree, dir: bool)
    requires NearlyAvl(x) && Child(x, dir).Node? && Height(Child(x, dir)) == Height(Child(x, !dir)) + 2
    ensures Avl(Rotate(x, dir))
    ensures Height(Child(x, dir)) <= Height(Rotate(x, dir)) <= Height(Child(x, dir)) + 1
  {
    var y := Child(x, dir);
    var z := Child(y, !dir);
    HeightNonNegative(Child(x, !dir));
    HeightNonNegative(Child(y, dir));
    HeightNonNegative(z);
    if z.Node? && Height(z) > Height(Child(y, dir)) {
      var x' := Relink(x, dir, Child(z, !dir), z.h);
      var y' := Relink(y, !dir, Child(z, dir), z.h);
      assert Avl(x') && Avl(y');
    } else {
      var x' := Relink(x, dir, z, Height(z) + 1);
      assert Avl(x');
    }
  }

  /** Rebalancing restores balance and right heights; the height comes out one
      above the deeper child, or equal to it after a rotation. */
  lemma BalanceAvl(n: Tree)
    requires NearlyAvl(n)
    ensures Avl(Balance(n))
    ensures var m := Max(Height(n.left), Height(n.right));
      if Level(n) then Height(Balance(n)) == m + 1 else m <= Height(Balance(n)) <= m + 1
  {
    if !Level(n) {
      NearlyAvlDeepSide(n);
      RotateAvl(n, Height(n.left) < Height(n.right));
    }
  }

  lemma BalanceKeeps(n: Tree)
    requires n.Node?
    ensures Keys(Balance(n)) == Keys(n) && Addrs(Balance(n)) == Addrs(n)
    ensures Ordered(n) ==> Ordered(Balance(n))
  {
    var dir := Height(n.left) < Height(n.right);
    if !(Level(n) || Child(n, dir).Nil?) {
      RotateKeeps(n, dir);
      if Ordered(n) { RotateOrdered(n, dir); }
    }
  }

  // ---- insertion -------------------------------------------------------------

  /** Insertion with rebalancing all the way up; addr is the new node. */
  ghost function Insert(t: Tree, key: int, addr: Ref): (r: Tree)
    ensures r.Node?
  {
    if t.Nil? then Node(addr, key, Nil, Nil, 1)
    else if key == t.key then t
    else Balance(SetChild(t, key > t.key, Insert(Child(t, key > t.key), key, addr)))
  }

  /** Insertion keeps balance and grows the tree by at most one level. */
  lemma {:induction false} InsertAvl(t: Tree, key: int, addr: Ref)
    requires Avl(t)
    ensures Avl(Insert(t, key, addr))
    ensures Height(t) <= Height(Insert(t, key, addr)) <= Height(t) + 1
  {
    if t.Node? && key != t.key {
      var dir := key > t.key;
      InsertAvl(Child(t, dir), key, addr);
      BalanceAvl(SetChild(t, dir, Insert(Child(t, dir), key, addr)));
    }
  }

  /** Insertion adds exactly the key, and keeps search order. */
  lemma {:induction false} InsertKeys(t: Tree, key: int, addr: Ref)
    requires Ordered(t)
    ensures Keys(Insert(t, key, addr)) == Keys(t) + {key} && Ordered(Insert(t, key, addr))
  {
    if t.Node? && key != t.key {
      var dir := key > t.key;
      OrderedSides(t, dir);
      InsertKeys(Child(t, dir), key, addr);
      hide Ordered, Keys, Balance;
      var r := Insert(Child(t, dir), key, addr);
      var n := SetChild(t, dir, r);
      MoreBeyond(t.key, Child(t, dir), r, key, dir);
      OrderedSides(n, dir);
      KeysSides(t, dir);
      KeysSides(n, dir);
      BalanceKeeps(n);
    }
  }

  lemma MoreBeyond(k: int, t: Tree, r: Tree, key: int, dir: bool)
    requires Beyond(k, t, dir) && Keys(r) == Keys(t) + {key} && (if dir then k < key else key < k)
    ensures Beyond(k, r, dir)
  {
  }

  lemma BalanceHasNode(n: Tree, a: Ref, k: int)
    requires HasNode(n, a, k)
    ensures HasNode(Balance(n), a, k)
  {
    var dir := Height(n.left) < Height(n.right);
    if !(Level(n) || Child(n, dir).Nil?) {
      var y := Child(n, dir);
      var z := Child(y, !dir);
      assert HasNode(Child(n, !dir), a, k) || HasNode(Child(y, dir), a, k) || HasNode(z, a, k) ||
        (n.addr == a && n.key == k) || (y.addr == a && y.key == k);
      var r := Rotate(n, dir);
      assert HasNode(Child(r, dir), a, k) || HasNode(Child(r, !dir), a, k) || (r.addr == a && r.key == k);
    }
  }

  lemma {:induction false} InsertHasNode(t: Tree, key: int, addr: Ref)
    requires Ordered(t) && key !in Keys(t)
    ensures HasNode(Insert(t, key, addr), addr, key)
  {
    if t.Node? {
      var dir := key > t.key;
      InsertHasNode(Child(t, dir), key, addr);
      BalanceHasNode(SetChild(t, dir, Insert(Child(t, dir), key, addr)), addr, key);
    }
  }

  // ---- deletion ---------------------------------------------------------------

  ghost function MaxKey(t: Tree): int
    requires t.Node?
  {
    if t.right.Nil? then t.key else MaxKey(t.right)
  }

  ghost function MaxAddr(t: Tree): Ref
    requires t.Node?
  {
    if t.right.Nil? then t.addr else MaxAddr(t.right)
  }

  /** The tree without its last node. */
  ghost function RemoveMax(t: Tree): Tree
    requires t.Node?
  {
    if t.right.Nil? then t.left else Balance(t.(right := RemoveMax(t.right)))
  }

  lemma {:induction false} RemoveMaxAvl(t: Tree)
    requires t.Node? && Avl(t)
    ensures Avl(RemoveMax(t))
    ensures Height(t) - 1 <= Height(RemoveMax(t)) <= Height(t)
  {
    HeightNonNegative(t.left);
    if t.right.Node? {
      RemoveMaxAvl(t.right);
      BalanceAvl(t.(right := RemoveMax(t.right)));
    }
  }

  lemma {:induction false} RemoveMaxKeys(t: Tree)
    requires t.Node? && Ordered(t)
    ensures MaxKey(t) in Keys(t) && forall k :: k in Keys(t) ==> k <= MaxKey(t)
    ensures Keys(RemoveMax(t)) == Keys(t) - {MaxKey(t)} && Ordered(RemoveMax(t))
  {
    if t.right.Node? {
      RemoveMaxKeys(t.right);
      BalanceKeeps(t.(right := RemoveMax(t.right)));
    }
  }

  /** Deletion with rebalancing all the way up: a node with a left subtree takes
      over the key of its predecessor, which is removed instead. */
  ghost function Delete(t: Tree, key: int): Tree {
    if t.Nil? then t
    else if key == t.key then
      if t.left.Nil? then t.right
      else Balance(t.(left := RemoveMax(t.left), key := MaxKey(t.left)))
    else Balance(SetChild(t, key > t.key, Delete(Child(t, key > t.key), key)))
  }

  /** Deletion keeps balance and shrinks the tree by at most one level. */
  lemma {:induction false} DeleteAvl(t: Tree, key: int)
    requires Avl(t)
    ensures Avl(Delete(t, key))
    ensures Height(t) - 1 <= Height(Delete(t, key)) <= Height(t)
  {
    if t.Nil? {
    } else if key == t.key {
      HeightNonNegative(t.right);
      if t.left.Node? {
        RemoveMaxAvl(t.left);
        BalanceAvl(t.(left := RemoveMax(t.left), key := MaxKey(t.left)));
      }
    } else {
      var dir := key > t.key;
      DeleteAvl(Child(t, dir), key);
      BalanceAvl(SetChild(t, dir, Delete(Child(t, dir), key)));
    }
  }

  lemma ReplaceRoot(t: Tree, less: Tree, key: int)
    requires t.Node? && Ordered(t) && Ordered(less)
    requires key in Keys(t.left) && (forall k :: k in Keys(t.left) ==> k <= key)
    requires Keys(less) == Keys(t.left) - {key}
    ensures Ordered(t.(left := less, key := key))
    ensures Keys(t.(left := less, key := key)) == Keys(t) - {t.key}
  {
    var n := t.(left := less, key := key);
    assert Keys(n) == Keys(less) + {key} + Keys(t.right);
    assert Keys(t) == Keys(t.left) + {t.key} + Keys(t.right);
  }

  lemma DeleteRootKeys(t: Tree)
    requires Ordered(t) && t.Node? && t.left.Node?
    ensures Keys(Delete(t, t.key)) == Keys(t) - {t.key} && Ordered(Delete(t, t.key))
  {
    RemoveMaxKeys(t.left);
    var less := RemoveMax(t.left);
    var n := t.(left := less, key := MaxKey(t.left));
    ReplaceRoot(t, less, n.key);
    BalanceKeeps(n);
  }

  /** Deletion removes exactly the key, and keeps search order. */
  lemma {:induction false} DeleteKeys(t: Tree, key: int)
    requires Ordered(t)
    ensures Keys(Delete(t, key)) == Keys(t) - {key} && Ordered(Delete(t, key))
  {
    if t.Nil? {
    } else if key == t.key {
      if t.left.Node? { DeleteRootKeys(t); }
    } else {
      var dir := key > t.key;
      DeleteKeys(Child(t, dir), key);
      BalanceKeeps(SetChild(t, dir, Delete(Child(t, dir), key)));
    }
  }

  // ---- how deep a tree can be ----------------------------------------------------

  /** The fewest nodes of an AVL tree of height h: a Fibonacci number less one. */
  function MinNodes(h: nat): nat {
    if h < 2 then h else MinNodes(h - 1) + MinNodes(h - 2) + 1
  }

  ghost function Size(t: Tree): nat {
    if t.Nil? then 0 else Size(t.left) + Size(t.right) + 1
  }

  lemma {:induction false} MinNodesMonotone(a: nat, b: nat)
    requires a <= b
    ensures MinNodes(a) <= MinNodes(b)
    decreases b
  {
    if a < b { MinNodesMonotone(a, b - 1); }
  }

  lemma {:induction false} AvlSize(t: Tree)
    requires Avl(t)
    ensures Height(t) >= 0 && Size(t) >= MinNodes(Height(t))
  {
    HeightNonNegative(t);
    if t.Node? {
      AvlSize(t.left);
      AvlSize(t.right);
      if t.h >= 2 {
        MinNodesMonotone(t.h - 2, Height(t.left));
        MinNodesMonotone(t.h - 2, Height(t.right));
      }
    }
  }

  lemma FourMore(h: nat, a: nat, b: nat)
    requires MinNodes(h) == a && MinNodes(h + 1) == b
    ensures MinNodes(h + 4) == 2 * a + 3 * b + 4 && MinNodes(h + 5) == 3 * a + 5 * b + 7
  {
    assert MinNodes(h + 2) == a + b + 1;
    assert MinNodes(h + 3) == a + 2 * b + 2;
  }

  /** No tree of 32-bit addresses is higher than 45. */
  lemma MinNodes46()
    ensures MinNodes(46) > 0x1_0000_0000
  {
    FourMore(0, 0, 1);
    FourMore(4, 7, 12);
    FourMore(8, 54, 88);
    FourMore(12, 376, 609);
    FourMore(16, 2583, 4180);
    FourMore(20, 17710, 28656);
    FourMore(24, 121392, 196417);
    FourMore(28, 832039, 1346268);
    FourMore(32, 5702886, 9227464);
    FourMore(36, 39088168, 63245985);
    FourMore(40, 267914295, 433494436);
    assert MinNodes(46) == MinNodes(45) + MinNodes(44) + 1;
  }
}
