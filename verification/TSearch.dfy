/** tsearch(3) and tdelete(3) on a heap of linked nodes: path arrays of slots,
    rotations by pointer assignment, and rebalancing that stops at the first
    subtree whose height did not change. The heap represents a tree value, and
    each call takes it to the tree of AvlTree.Insert or AvlTree.Delete. */
module TSearch {
  import opened AvlTree
  import opened Wrappers

  const MAXH := 4 * 8 * 3 / 2  // sizeof(void*) * 8 * 3 / 2

  /** struct node */
  datatype Cell = Cell(key: int, a0: Ref, a1: Ref, h: int)

  /** A void **: the root pointer or a child pointer of a node. */
  datatype Slot = Root | Field(node: Ref, dir: bool)

  type Heap = map<Ref, Cell>

  function Link(c: Cell, dir: bool): Ref { if dir then c.a1 else c.a0 }

  function SetLink(c: Cell, dir: bool, r: Ref): Cell { if dir then c.(a1 := r) else c.(a0 := r) }

  // ---- trees in the heap ---------------------------------------------------------

  function CellOf(t: Tree): Cell
    requires t.Node?
  {
    Cell(t.key, Addr(t.left), Addr(t.right), t.h)
  }

  /** The nodes of t are in the heap, at their addresses. */
  ghost predicate Stored(m: Heap, t: Tree) {
    t.Nil? || (t.addr != 0 && t.addr in m && m[t.addr] == CellOf(t) && Stored(m, t.left) && Stored(m, t.right))
  }

  ghost predicate Distinct(t: Tree) {
    t.Nil? ||
    (Distinct(t.left) && Distinct(t.right) && t.addr !in Addrs(t.left) && t.addr !in Addrs(t.right) &&
     Addrs(t.left) !! Addrs(t.right))
  }

  /** A node on the path from the root, without the child the path takes. */
  datatype Frame = Frame(addr: Ref, key: int, dir: bool, other: Tree, h: int)

  type Path = seq<Frame>

  function Fill(f: Frame, t: Tree): Tree {
    if f.dir then Node(f.addr, f.key, f.other, t, f.h) else Node(f.addr, f.key, t, f.other, f.h)
  }

  /** The whole tree around the subtree t. */
  function Plug(fs: Path, t: Tree): Tree {
    if fs == [] then t else Plug(fs[..|fs| - 1], Fill(fs[|fs| - 1], t))
  }

  /** The whole tree when every node on the path is rebalanced. */
  function Up(fs: Path, t: Tree): Tree {
    if fs == [] then t else Up(fs[..|fs| - 1], Balance(Fill(fs[|fs| - 1], t)))
  }

  function SlotOf(fs: Path): Slot {
    if fs == [] then Root else Field(fs[|fs| - 1].addr, fs[|fs| - 1].dir)
  }

  ghost function PathAddrs(fs: Path): set<Ref> {
    if fs == [] then {} else
      var f := fs[|fs| - 1];
      PathAddrs(fs[..|fs| - 1]) + {f.addr} + Addrs(f.other)
  }

  ghost predicate PathDistinct(fs: Path) {
    fs == [] ||
    (var f, up := fs[|fs| - 1], fs[..|fs| - 1];
     PathDistinct(up) && Distinct(f.other) && f.addr !in Addrs(f.other) && f.addr !in PathAddrs(up) &&
     Addrs(f.other) !! PathAddrs(up))
  }

  ghost function CellOfFrame(f: Frame, hole: Ref): Cell {
    if f.dir then Cell(f.key, Addr(f.other), hole, f.h) else Cell(f.key, hole, Addr(f.other), f.h)
  }

  /** The path and everything that hangs off it, leading from root to hole. */
  ghost predicate PathStored(m: Heap, root: Ref, fs: Path, hole: Ref) {
    if fs == [] then root == hole else
      var f := fs[|fs| - 1];
      f.addr != 0 && f.addr in m && m[f.addr] == CellOfFrame(f, hole) && Stored(m, f.other) &&
      PathStored(m, root, fs[..|fs| - 1], f.addr)
  }

  ghost predicate Whole(m: Heap, root: Ref, fs: Path, t: Tree) {
    && PathStored(m, root, fs, Addr(t)) && PathDistinct(fs)
    && Stored(m, t) && Distinct(t) && Addrs(t) !! PathAddrs(fs)
  }

  lemma WholeUp(m: Heap, root: Ref, fs: Path, f: Frame, t: Tree)
    ensures Whole(m, root, fs + [f], t) <==> Whole(m, root, fs, Fill(f, t))
    ensures PathAddrs(fs + [f]) + Addrs(t) == PathAddrs(fs) + Addrs(Fill(f, t))
  {
    var gs := fs + [f];
    assert gs[|gs| - 1] == f && gs[..|gs| - 1] == fs;
  }

  /** Seen from any point of the path, it is the same tree. */
  lemma {:induction false} WholePlug(m: Heap, root: Ref, fs: Path, gs: Path, t: Tree)
    ensures Whole(m, root, fs + gs, t) <==> Whole(m, root, fs, Plug(gs, t))
    ensures PathAddrs(fs + gs) + Addrs(t) == PathAddrs(fs) + Addrs(Plug(gs, t))
    decreases |gs|
  {
    if gs == [] {
      assert fs + gs == fs;
    } else {
      var f, up := gs[|gs| - 1], gs[..|gs| - 1];
      assert fs + gs == (fs + up) + [f];
      WholeUp(m, root, fs + up, f, t);
      WholePlug(m, root, fs, up, Fill(f, t));
    }
  }

  lemma {:induction false} StoredFrame(m: Heap, m': Heap, t: Tree)
    requires Stored(m, t)
    requires forall a :: a in Addrs(t) && a in m ==> a in m' && m'[a] == m[a]
    ensures Stored(m', t)
  {
    if t.Node? {
      assert t.addr in Addrs(t);
      StoredFrame(m, m', t.left);
      StoredFrame(m, m', t.right);
    }
  }

  lemma {:induction false} PathFrame(m: Heap, m': Heap, root: Ref, fs: Path, hole: Ref)
    requires PathStored(m, root, fs, hole)
    requires forall a :: a in PathAddrs(fs) && a in m ==> a in m' && m'[a] == m[a]
    ensures PathStored(m', root, fs, hole)
    decreases |fs|
  {
    if fs != [] {
      var f, up := fs[|fs| - 1], fs[..|fs| - 1];
      assert f.addr in PathAddrs(fs);
      StoredFrame(m, m', f.other);
      PathFrame(m, m', root, up, f.addr);
    }
  }

  /** The heap after *p = r. */
  function Assign(m: Heap, p: Slot, r: Ref): Heap {
    if p.Field? && p.node in m then m[p.node := SetLink(m[p.node], p.dir, r)] else m
  }

  /** Writing the slot at the end of a path, after changes elsewhere. */
  lemma Rehole(m: Heap, m': Heap, root: Ref, fs: Path, hole: Ref, hole': Ref)
    requires PathStored(m, root, fs, hole) && PathDistinct(fs)
    requires forall a :: a in PathAddrs(fs) && a in m ==> a in m' && m'[a] == m[a]
    ensures PathStored(Assign(m', SlotOf(fs), hole'), if fs == [] then hole' else root, fs, hole')
  {
    PathFrame(m, m', root, fs, hole);
    if fs != [] {
      var f, up := fs[|fs| - 1], fs[..|fs| - 1];
      var m2 := Assign(m', SlotOf(fs), hole');
      assert f.addr in PathAddrs(fs);
      StoredFrame(m', m2, f.other);
      PathFrame(m', m2, root, up, f.addr);
    }
  }

  // ---- rebalancing along a path ------------------------------------------------------

  lemma {:induction false} PlugConcat(fs: Path, gs: Path, t: Tree)
    ensures Plug(fs + gs, t) == Plug(fs, Plug(gs, t))
    decreases |gs|
  {
    if gs == [] { assert fs + gs == fs; }
    else {
      assert (fs + gs)[..|fs + gs| - 1] == fs + gs[..|gs| - 1];
      PlugConcat(fs, gs[..|gs| - 1], Fill(gs[|gs| - 1], t));
    }
  }

  lemma {:induction false} UpConcat(fs: Path, gs: Path, t: Tree)
    ensures Up(fs + gs, t) == Up(fs, Up(gs, t))
    decreases |gs|
  {
    if gs == [] { assert fs + gs == fs; }
    else {
      assert (fs + gs)[..|fs + gs| - 1] == fs + gs[..|gs| - 1];
      UpConcat(fs, gs[..|gs| - 1], Balance(Fill(gs[|gs| - 1], t)));
    }
  }

  lemma {:induction false} PlugAvl(fs: Path, t: Tree)
    requires Avl(Plug(fs, t))
    ensures Avl(t)
    ensures Height(t) >= 0 && |fs| + Height(t) <= Height(Plug(fs, t))
    decreases |fs|
  {
    HeightNonNegative(t) by { if fs != [] { PlugAvl(fs[..|fs| - 1], Fill(fs[|fs| - 1], t)); } }
    if fs != [] { PlugAvl(fs[..|fs| - 1], Fill(fs[|fs| - 1], t)); }
  }

  /** Replacing a child by one whose height differs by at most one. */
  lemma BalanceStep(f: Frame, was: Tree, now: Tree)
    requires Avl(Fill(f, was)) && Avl(now) && -1 <= Height(now) - Height(was) <= 1
    ensures NearlyAvl(Fill(f, now)) && Avl(Balance(Fill(f, now)))
    ensures -1 <= Height(Balance(Fill(f, now))) - f.h <= 1
  {
    BalanceAvl(Fill(f, now));
  }

  /** Why rebalancing may stop: above a subtree that has its old height,
      every node is already what rebalancing would make of it. */
  lemma {:induction false} StopEarly(fs: Path, was: Tree, now: Tree)
    requires Avl(Plug(fs, was)) && Avl(now) && Height(now) == Height(was)
    ensures Up(fs, now) == Plug(fs, now) && Avl(Plug(fs, now))
    decreases |fs|
  {
    if fs != [] {
      var f, up := fs[|fs| - 1], fs[..|fs| - 1];
      PlugAvl(up, Fill(f, was));
      assert Balance(Fill(f, now)) == Fill(f, now);
      StopEarly(up, Fill(f, was), Fill(f, now));
    }
  }

  /** The path that the search for key takes. */
  ghost predicate Leads(fs: Path, key: int) {
    forall j :: 0 <= j < |fs| ==> key != fs[j].key && fs[j].dir == (key > fs[j].key)
  }

  lemma {:induction false} InsertUp(fs: Path, t: Tree, key: int, addr: Ref)
    requires Leads(fs, key)
    ensures Insert(Plug(fs, t), key, addr) == Up(fs, Insert(t, key, addr))
    decreases |fs|
  {
    if fs != [] { InsertUp(fs[..|fs| - 1], Fill(fs[|fs| - 1], t), key, addr); }
  }

  lemma {:induction false} DeleteUp(fs: Path, t: Tree, key: int)
    requires Leads(fs, key)
    ensures Delete(Plug(fs, t), key) == Up(fs, Delete(t, key))
    decreases |fs|
  {
    if fs != [] { DeleteUp(fs[..|fs| - 1], Fill(fs[|fs| - 1], t), key); }
  }

  lemma {:induction false} RemoveMaxUp(gs: Path, t: Tree)
    requires t.Node? && t.right.Nil? && forall j :: 0 <= j < |gs| ==> gs[j].dir
    ensures Plug(gs, t).Node? && MaxKey(Plug(gs, t)) == t.key
    ensures RemoveMax(Plug(gs, t)) == Up(gs, t.left)
    decreases |gs|
  {
    if gs != [] {
      PlugFromTop(gs, t);
      RemoveMaxUp(gs[1..], t);
      UpConcat([gs[0]], gs[1..], t.left);
      assert [gs[0]] + gs[1..] == gs;
      assert Up([gs[0]], Up(gs[1..], t.left)) == Balance(Fill(gs[0], Up(gs[1..], t.left)));
    }
  }

  lemma PlugFromTop(gs: Path, t: Tree)
    requires gs != []
    ensures Plug(gs, t) == Fill(gs[0], Plug(gs[1..], t))
  {
    PlugConcat([gs[0]], gs[1..], t);
    assert [gs[0]] + gs[1..] == gs;
    assert Plug([gs[0]], Plug(gs[1..], t)) == Fill(gs[0], Plug(gs[1..], t));
  }

  // ---- rotations in place ---------------------------------------------------------------

  /** rot takes its double form. */
  predicate Double(t: Tree, dir: bool)
    requires t.Node? && Child(t, dir).Node?
  {
    var y := Child(t, dir);
    Child(y, !dir).Node? && Height(Child(y, !dir)) > Height(Child(y, dir))
  }

  /** The nodes that rot writes. */
  function Touched(t: Tree, dir: bool): set<Ref>
    requires t.Node? && Child(t, dir).Node?
  {
    {t.addr, Child(t, dir).addr} + if Double(t, dir) then {Child(Child(t, dir), !dir).addr} else {}
  }

  lemma Reads(m: Heap, t: Tree, dir: bool)
    requires Stored(m, t) && t.Node?
    ensures t.addr in m && m[t.addr] == CellOf(t) && Link(m[t.addr], dir) == Addr(Child(t, dir))
    ensures Stored(m, Child(t, dir)) && Addrs(Child(t, dir)) <= Addrs(t) && t.addr in Addrs(t)
    ensures Child(t, dir).Node? ==> Child(t, dir).addr in m && m[Child(t, dir).addr] == CellOf(Child(t, dir))
    ensures Child(t, dir).Nil? <==> Addr(Child(t, dir)) == 0
  {
  }

  /** Good(m, t): t is stored in m with no node shared. */
  ghost predicate Good(m: Heap, t: Tree) {
    Stored(m, t) && Distinct(t)
  }

  /** A node seen from either side. */
  lemma Sides(m: Heap, t: Tree, dir: bool)
    requires t.Node?
    ensures Good(m, t) <==>
      && t.addr != 0 && t.addr in m && m[t.addr] == CellOf(t)
      && Good(m, Child(t, dir)) && Good(m, Child(t, !dir))
      && t.addr !in Addrs(Child(t, dir)) && t.addr !in Addrs(Child(t, !dir))
      && Addrs(Child(t, dir)) !! Addrs(Child(t, !dir))
    ensures Addrs(t) == Addrs(Child(t, dir)) + {t.addr} + Addrs(Child(t, !dir))
  {
  }

  lemma GoodFrame(m: Heap, m': Heap, t: Tree)
    requires Good(m, t) && m'.Keys == m.Keys && forall a :: a in Addrs(t) && a in m ==> m'[a] == m[a]
    ensures Good(m', t)
  {
    StoredFrame(m, m', t);
  }

  lemma SingleStored(m: Heap, m': Heap, t: Tree, dir: bool)
    requires t.Node? && Child(t, dir).Node? && Good(m, t) && !Double(t, dir)
    requires m'.Keys == m.Keys && forall a :: a in m && a !in Touched(t, dir) ==> m'[a] == m[a]
    requires var y := Child(t, dir); var z := Child(y, !dir);
      && t.addr in m' && m'[t.addr] == CellOf(Relink(t, dir, z, Height(z) + 1))
      && y.addr in m' && m'[y.addr] == CellOf(Rotate(t, dir))
    ensures Good(m', Rotate(t, dir))
  {
    var y := Child(t, dir);
    var z := Child(y, !dir);
    Sides(m, t, dir);
    Sides(m, y, dir);
    var x' := Relink(t, dir, z, Height(z) + 1);
    var r := Rotate(t, dir);
    assert r == Relink(y, !dir, x', Height(z) + 2);
    hide Good, Addrs, Relink, CellOf, Rotate, SetChild, Height;
    GoodFrame(m, m', Child(t, !dir));
    GoodFrame(m, m', Child(y, dir));
    GoodFrame(m, m', z);
    assert Child(x', dir) == z && Child(x', !dir) == Child(t, !dir);
    Sides(m', x', dir);
    assert Child(r, !dir) == x' && Child(r, dir) == Child(y, dir);
    Sides(m', r, dir);
  }

  /** The subtrees that a double rotation moves are as they were. */
  lemma FourKept(m: Heap, m': Heap, t: Tree, dir: bool)
    requires t.Node? && Child(t, dir).Node? && Child(Child(t, dir), !dir).Node? && Good(m, t) && Double(t, dir)
    requires m'.Keys == m.Keys && forall a :: a in m && a !in Touched(t, dir) ==> m'[a] == m[a]
    ensures var y := Child(t, dir); var z := Child(y, !dir);
      Good(m', Child(t, !dir)) && Good(m', Child(y, dir)) && Good(m', Child(z, dir)) && Good(m', Child(z, !dir))
  {
    hide Good, Addrs;
    var y := Child(t, dir);
    var z := Child(y, !dir);
    Sides(m, t, dir);
    Sides(m, y, dir);
    Sides(m, z, dir);
    GoodFrame(m, m', Child(t, !dir));
    GoodFrame(m, m', Child(y, dir));
    GoodFrame(m, m', Child(z, dir));
    GoodFrame(m, m', Child(z, !dir));
  }

  lemma DoubleStored(m: Heap, m': Heap, t: Tree, dir: bool)
    requires t.Node? && Child(t, dir).Node? && Good(m, t) && Double(t, dir)
    requires m'.Keys == m.Keys && forall a :: a in m && a !in Touched(t, dir) ==> m'[a] == m[a]
    requires var y := Child(t, dir); var z := Child(y, !dir);
      && t.addr in m' && m'[t.addr] == CellOf(Relink(t, dir, Child(z, !dir), z.h))
      && y.addr in m' && m'[y.addr] == CellOf(Relink(y, !dir, Child(z, dir), z.h))
      && z.addr in m' && m'[z.addr] == CellOf(Rotate(t, dir))
    ensures Good(m', Rotate(t, dir))
  {
    var y := Child(t, dir);
    var z := Child(y, !dir);
    Sides(m, t, dir);
    Sides(m, y, dir);
    Sides(m, z, dir);
    var x' := Relink(t, dir, Child(z, !dir), z.h);
    var y' := Relink(y, !dir, Child(z, dir), z.h);
    var r := Rotate(t, dir);
    assert Child(r, dir) == y' && Child(r, !dir) == x' && r.addr == z.addr;
    hide Good, Addrs, Relink, CellOf, Rotate, SetChild, Height;
    FourKept(m, m', t, dir);
    Sides(m', x', dir);
    Sides(m', y', dir);
    Sides(m', r, dir);
  }

  lemma NodesApart(t: Tree, dir: bool)
    requires t.Node? && Distinct(t) && Child(t, dir).Node?
    ensures var y := Child(t, dir); var z := Child(y, !dir);
      t.addr != y.addr && (z.Node? ==> t.addr != z.addr && y.addr != z.addr)
  {
    var y := Child(t, dir);
    var z := Child(y, !dir);
    assert y.addr in Addrs(y);
    assert z.Node? ==> z.addr in Addrs(z) && z.addr in Addrs(y);
  }

  /** What rot reads. */
  lemma RotReads(m: Heap, t: Tree, dir: bool)
    requires Stored(m, t) && Distinct(t) && t.Node? && Child(t, dir).Node? && Height(Child(Child(t, dir), dir)) >= 0
    ensures var y := Child(t, dir); var z := Child(y, !dir); var d := Child(y, dir);
      && t.addr in m && y.addr in m && t.addr != y.addr
      && Link(m[t.addr], dir) == y.addr && Link(m[y.addr], !dir) == Addr(z) && Link(m[y.addr], dir) == Addr(d)
      && (Addr(z) != 0 ==> Addr(z) in m && m[Addr(z)].h == Height(z))
      && (Addr(d) != 0 ==> Addr(d) in m && m[Addr(d)].h == Height(d))
      && (Addr(z) == 0 ==> Height(z) == 0) && (Addr(d) == 0 ==> Height(d) == 0)
      && (Double(t, dir) <==> Height(z) > Height(d))
      && (Double(t, dir) ==> Addr(z) in m && t.addr != Addr(z) && y.addr != Addr(z))
  {
    NodesApart(t, dir);
    Reads(m, t, dir);
    Reads(m, Child(t, dir), dir);
    Reads(m, Child(t, dir), !dir);
  }

  /** The cells that rot's double form leaves behind. */
  lemma AfterDouble(m: Heap, m': Heap, t: Tree, dir: bool)
    requires Stored(m, t) && Distinct(t) && t.Node? && Child(t, dir).Node? && Double(t, dir)
    requires m'.Keys == m.Keys && Touched(t, dir) <= m.Keys
    requires forall a :: a in m && a !in Touched(t, dir) ==> m'[a] == m[a]
    requires var x := t.addr; var y := Child(t, dir).addr; var z := Child(Child(t, dir), !dir).addr; var hz := Height(Child(Child(t, dir), !dir));
      && m'[x] == SetLink(m[x], dir, Link(m[z], !dir)).(h := hz)
      && m'[y] == SetLink(m[y], !dir, Link(m[z], dir)).(h := hz)
      && m'[z] == SetLink(SetLink(m[z], !dir, x), dir, y).(h := hz + 1)
    ensures Good(m', Rotate(t, dir)) && Addrs(Rotate(t, dir)) == Addrs(t) && Touched(t, dir) <= Addrs(t)
    ensures Addr(Rotate(t, dir)) == Child(Child(t, dir), !dir).addr
  {
    var y := Child(t, dir);
    var z := Child(y, !dir);
    Reads(m, t, dir);
    Reads(m, y, !dir);
    Reads(m, z, dir);
    Reads(m, z, !dir);
    RotateKeeps(t, dir);
    DoubleStored(m, m', t, dir);
  }

  /** The cells that rot's single form leaves behind. */
  lemma AfterSingle(m: Heap, m': Heap, t: Tree, dir: bool)
    requires Stored(m, t) && Distinct(t) && t.Node? && Child(t, dir).Node? && !Double(t, dir)
    requires m'.Keys == m.Keys && Touched(t, dir) <= m.Keys
    requires forall a :: a in m && a !in Touched(t, dir) ==> m'[a] == m[a]
    requires var x := t.addr; var y := Child(t, dir).addr; var z := Child(Child(t, dir), !dir);
      && m'[x] == SetLink(m[x], dir, Addr(z)).(h := Height(z) + 1)
      && m'[y] == SetLink(m[y], !dir, x).(h := Height(z) + 2)
    ensures Good(m', Rotate(t, dir)) && Addrs(Rotate(t, dir)) == Addrs(t) && Touched(t, dir) <= Addrs(t)
    ensures Addr(Rotate(t, dir)) == Child(t, dir).addr
  {
    Reads(m, t, dir);
    Reads(m, Child(t, dir), !dir);
    RotateKeeps(t, dir);
    SingleStored(m, m', t, dir);
  }

  lemma LoadAtEnd(m: Heap, root: Ref, fs: Path, hole: Ref)
    requires PathStored(m, root, fs, hole)
    ensures if fs == [] then root == hole else
      SlotOf(fs).node in m && Link(m[SlotOf(fs).node], SlotOf(fs).dir) == hole
  {
  }

  /** The path array: from off on, the slots of the first n prefixes of a path. */
  ghost predicate Slots(a: array<Slot>, off: nat, n: nat, fs: Path)
    reads a
  {
    n <= |fs| + 1 && off + n <= a.Length && forall j :: 0 <= j < n ==> a[off + j] == SlotOf(fs[..j])
  }

  /** a[i] = s, one step further along the path */
  method Push(a: array<Slot>, off: nat, i: nat, s: Slot, ghost fs: Path, ghost fs': Path)
    requires off <= 1 && i == off + |fs| + 1 < a.Length && Slots(a, off, i - off, fs)
    requires |fs'| == |fs| + 1 && fs'[..|fs|] == fs && s == SlotOf(fs')
    modifies a
    ensures Slots(a, off, i + 1 - off, fs') && (off == 1 ==> a[0] == old(a[0]))
  {
    a[i] := s;
    forall j | 0 <= j <= |fs'| ensures a[off + j] == SlotOf(fs'[..j]) {
      if j <= |fs| { assert fs'[..j] == fs[..j]; } else { assert fs'[..j] == fs'; }
    }
  }

  class SearchTree {
    var root: Ref
    var nodes: Heap
    ghost var tree: Tree

    /** What holds between calls: the heap is exactly the nodes of a balanced,
        ordered tree. */
    ghost predicate Valid()
      reads this
    {
      Whole(nodes, root, [], tree) && nodes.Keys == Addrs(tree) && Avl(tree) && Ordered(tree)
    }

    constructor ()
      ensures Valid() && tree == Nil
    {
      root, nodes, tree := 0, map[], Nil;
    }

    /** *p */
    function Load(p: Slot): Ref
      reads this
      requires p.Field? ==> p.node in nodes
    {
      if p.Root? then root else Link(nodes[p.node], p.dir)
    }

    /** *p = r */
    method Store(p: Slot, r: Ref)
      requires p.Field? ==> p.node in nodes
      modifies this
      ensures nodes == Assign(old(nodes), p, r) && root == (if p.Root? then r else old(root)) && tree == old(tree)
    {
      if p.Root? { root := r; } else { nodes := nodes[p.node := SetLink(nodes[p.node], p.dir, r)]; }
    }

    /** height */
    function HeightAt(r: Ref): int
      reads this
      requires r != 0 ==> r in nodes
    {
      if r == 0 then 0 else nodes[r].h
    }

    /** rot's double form, up to its assignment to *p */
    method RotDouble(x: Ref, y: Ref, z: Ref, dir: bool, hz: int)
      requires x in nodes && y in nodes && z in nodes && x != y && x != z && y != z
      modifies this`nodes
      ensures nodes.Keys == old(nodes.Keys)
      ensures forall a :: a in nodes && a != x && a != y && a != z ==> nodes[a] == old(nodes)[a]
      ensures nodes[x] == SetLink(old(nodes[x]), dir, Link(old(nodes[z]), !dir)).(h := hz)
      ensures nodes[y] == SetLink(old(nodes[y]), !dir, Link(old(nodes[z]), dir)).(h := hz)
      ensures nodes[z] == SetLink(SetLink(old(nodes[z]), !dir, x), dir, y).(h := hz + 1)
    {
      var m := nodes;
      m := m[x := SetLink(m[x], dir, Link(m[z], !dir))];
      m := m[y := SetLink(m[y], !dir, Link(m[z], dir))];
      m := m[z := SetLink(m[z], !dir, x)];
      m := m[z := SetLink(m[z], dir, y)];
      m := m[x := m[x].(h := hz)];
      m := m[y := m[y].(h := hz)];
      m := m[z := m[z].(h := hz + 1)];
      nodes := m;
    }

    /** rot's single form, up to its assignment to *p */
    method RotSingle(x: Ref, y: Ref, z: Ref, dir: bool, hz: int)
      requires x in nodes && y in nodes && x != y
      modifies this`nodes
      ensures nodes.Keys == old(nodes.Keys)
      ensures forall a :: a in nodes && a != x && a != y ==> nodes[a] == old(nodes)[a]
      ensures nodes[x] == SetLink(old(nodes[x]), dir, z).(h := hz + 1)
      ensures nodes[y] == SetLink(old(nodes[y]), !dir, x).(h := hz + 2)
    {
      var m := nodes;
      m := m[x := SetLink(m[x], dir, z)];
      m := m[y := SetLink(m[y], !dir, x)];
      m := m[x := m[x].(h := hz + 1)];
      m := m[y := m[y].(h := hz + 2)];
      nodes := m;
    }

    /** rot, up to its assignment to *p */
    method RotNodes(x: Ref, dir: bool, ghost t: Tree) returns (z: Ref)
      requires Stored(nodes, t) && Distinct(t)
      requires t.Node? && x == t.addr && Child(t, dir).Node? && Height(Child(Child(t, dir), dir)) >= 0
      modifies this`nodes
      ensures Stored(nodes, Rotate(t, dir)) && Distinct(Rotate(t, dir)) && Addrs(Rotate(t, dir)) == Addrs(t)
      ensures nodes.Keys == old(nodes.Keys) && z == Addr(Rotate(t, dir))
      ensures forall a :: a in nodes && a !in Addrs(t) ==> nodes[a] == old(nodes)[a]
    {
      ghost var m := nodes;
      RotReads(m, t, dir);
      hide Stored, Distinct, Addrs, Rotate, Keys, SetLink, Link, Height;
      var y := Link(nodes[x], dir);
      z := Link(nodes[y], !dir);
      var hz := HeightAt(z);
      if hz > HeightAt(Link(nodes[y], dir)) {
        RotDouble(x, y, z, dir, hz);
        AfterDouble(m, nodes, t, dir);
      } else {
        RotSingle(x, y, z, dir, hz);
        AfterSingle(m, nodes, t, dir);
        z := y;
      }
    }

    /** rot */
    method Rot(p: Slot, x: Ref, dir: bool, ghost fs: Path, ghost t: Tree) returns (d: int)
      requires Whole(nodes, root, fs, t) && p == SlotOf(fs)
      requires t.Node? && x == t.addr && Child(t, dir).Node? && Height(Child(Child(t, dir), dir)) >= 0
      modifies this
      ensures Whole(nodes, root, fs, Rotate(t, dir)) && tree == old(tree)
      ensures nodes.Keys == old(nodes.Keys) && Addrs(Rotate(t, dir)) == Addrs(t)
      ensures d == Rotate(t, dir).h - t.h
    {
      ghost var m := nodes;
      Reads(m, t, dir);
      var hx := nodes[x].h;
      var z := RotNodes(x, dir, t);
      ghost var m1 := nodes;
      ghost var r := Rotate(t, dir);
      Reads(m1, r, dir);
      LoadAtEnd(m, root, fs, x);
      Rehole(m, m1, root, fs, x, z);
      Store(p, z);
      StoredFrame(m1, nodes, r);
      d := nodes[z].h - hx;
    }

    /** __tsearch_balance */
    method BalanceAt(p: Slot, ghost fs: Path, ghost t: Tree) returns (d: int)
      requires Whole(nodes, root, fs, t) && p == SlotOf(fs) && NearlyAvl(t)
      modifies this
      ensures Whole(nodes, root, fs, Balance(t)) && tree == old(tree)
      ensures nodes.Keys == old(nodes.Keys) && Addrs(Balance(t)) == Addrs(t)
      ensures d == Balance(t).h - t.h
    {
      LoadAtEnd(nodes, root, fs, Addr(t));
      var n := Load(p);
      Reads(nodes, t, false);
      Reads(nodes, t, true);
      var h0 := HeightAt(nodes[n].a0);
      var h1 := HeightAt(nodes[n].a1);
      if (h0 - h1 + 1) % 0x1_0000_0000 < 3 {  // unsigned arithmetic
        var was := nodes[n].h;
        var h := if h0 < h1 then h1 + 1 else h0 + 1;
        HeightWhole(nodes, root, fs, t, h);
        nodes := nodes[n := nodes[n].(h := h)];
        return h - was;
      }
      NearlyAvlDeepSide(t);
      HeightNonNegative(Child(Child(t, h0 < h1), h0 < h1));
      d := Rot(p, n, h0 < h1, fs, t);
    }

    /** tsearch: the node that holds key afterwards, or 0; r is malloc's answer. */
    method TSearch(key: int, r: Ref) returns (found: Ref)
      requires Valid() && r !in nodes
      modifies this
      ensures Valid()
      ensures key in Keys(old(tree)) || r == 0 ==> nodes == old(nodes) && tree == old(tree)
      ensures key !in Keys(old(tree)) && r != 0 ==> tree == Insert(old(tree), key, r) && found == r && nodes.Keys == old(nodes.Keys) + {r}
      ensures found == 0 <==> key !in Keys(old(tree)) && r == 0
      ensures found != 0 ==> HasNode(tree, found, key)
    {
      var a := new Slot[MAXH];
      var n := root;
      var i := 0;
      ghost var fs: Path, t := [], tree;
      SearchStart(nodes, root, tree, key);
      SlotOfRoot(fs);
      hide Whole, Plug, Leads, Keys, Ordered, Avl, Searching, Addrs, Insert, Stored, SlotOf;
      a[i] := Root;
      i := i + 1;
      while n != 0
        invariant Searching(nodes, root, fs, t, tree, key) && n == Addr(t)
        invariant i == |fs| + 1 <= MAXH
        invariant Slots(a, 0, i, fs)
        modifies a
        decreases t
      {
        SearchingReads(nodes, root, fs, t, tree, key);
        Reads(nodes, t, key > nodes[n].key);
        if key == nodes[n].key {
          HasNodePlug(fs, t, n, key);
          return n;
        }
        var dir := key > nodes[n].key;
        ghost var fs', t' := SearchOn(nodes, root, fs, t, tree, key);
        Push(a, 0, i, Field(n, dir), fs, fs');
        fs, t := fs', t';
        i := i + 1;
        n := Link(nodes[n], dir);
      }
      SearchedOut(nodes, root, fs, t, tree, key);
      if r == 0 { return 0; }
      Attach(a, i, key, r, fs);
      found := r;
    }

    /** tsearch once the place for the new node is known. */
    method Attach(a: array<Slot>, n: nat, key: int, r: Ref, ghost fs: Path)
      requires Avl(tree) && Ordered(tree) && Plug(fs, Nil) == tree && Whole(nodes, root, fs, Nil)
      requires nodes.Keys == Addrs(tree) == PathAddrs(fs)
      requires n == |fs| + 1 && Slots(a, 0, n, fs)
      requires r !in nodes && r != 0 && Leads(fs, key) && key !in Keys(tree)
      modifies this
      ensures Valid() && tree == Insert(old(tree), key, r) && nodes.Keys == old(nodes.Keys) + {r}
      ensures HasNode(tree, r, key)
    {
      ghost var leaf := Node(r, key, Nil, Nil, 1);
      InsertUp(fs, Nil, key, r);
      InsertKeys(tree, key, r);
      InsertAvl(tree, key, r);
      InsertHasNode(tree, key, r);
      hide Insert, Avl, Ordered;
      NewLeaf(nodes, root, fs, r, key);
      nodes := nodes[r := Cell(key, 0, 0, 1)];
      var i := n - 1;
      assert fs[..i] == fs;
      Store(a[i], r);
      Rebalance(a, 0, i, fs, Nil, leaf);
    }

    /** tdelete: the parent of the node found, or 0. */
    method TDelete(key: int) returns (parent: Ref)
      requires Valid()
      modifies this
      ensures Valid()
      ensures key !in Keys(old(tree)) ==> parent == 0 && nodes == old(nodes) && tree == old(tree)
      ensures key in Keys(old(tree)) ==> tree == Delete(old(tree), key) && parent == ParentOf(old(tree), key) != 0
    {
      var a := new Slot[MAXH + 1];
      var n := root;
      var i := 0;
      ghost var fs: Path, t := [], tree;
      SearchStart(nodes, root, tree, key);
      hide Whole, Plug, Leads, Keys, Ordered, Avl, Searching, Addrs, Delete, Stored, SlotOf, ParentOf;
      a[i] := Root;
      i := i + 1;
      a[i] := Root;
      i := i + 1;
      SlotOfRoot(fs);
      while true
        invariant Searching(nodes, root, fs, t, tree, key) && n == Addr(t)
        invariant i == |fs| + 2 <= MAXH && a[0] == Root
        invariant Slots(a, 1, i - 1, fs)
        modifies a
        decreases t
      {
        if n == 0 {
          SearchingReads(nodes, root, fs, t, tree, key);
          SearchedOut(nodes, root, fs, t, tree, key);
          return 0;
        }
        SearchingReads(nodes, root, fs, t, tree, key);
        Reads(nodes, t, key > nodes[n].key);
        if key == nodes[n].key { break; }
        var dir := key > nodes[n].key;
        ghost var fs', t' := SearchOn(nodes, root, fs, t, tree, key);
        Push(a, 1, i, Field(n, dir), fs, fs');
        fs, t := fs', t';
        i := i + 1;
        n := Link(nodes[n], dir);
      }
      ParentSlot(nodes, root, fs, t, tree, key);
      assert a[i - 2] == if fs == [] then Root else SlotOf(fs[..|fs| - 1]);
      parent := Load(a[i - 2]);
      Remove(a, i, n, fs, t, key);
    }

    /** tdelete once the node n is found. */
    method Remove(a: array<Slot>, start: nat, found: Ref, ghost fs: Path, ghost t: Tree, key: int)
      requires Valid() && Searching(nodes, root, fs, t, tree, key)
      requires t.Node? && t.key == key && found == t.addr
      requires start == |fs| + 2 && a.Length == MAXH + 1 && Slots(a, 1, start - 1, fs)
      modifies this, a
      ensures Valid() && tree == Delete(old(tree), key)
    {
      hide Whole, Plug, Leads, Keys, Ordered, Avl, Addrs, Delete, Stored, SlotOf, ToPredecessor, Up;
      var n, i := found, start;
      SearchingReads(nodes, root, fs, t, tree, key);
      Reads(nodes, t, false);
      Reads(nodes, t, true);
      var child;
      if nodes[n].a0 != 0 {
        var deleted := n;
        ghost var gs: Path, u := [], t.left;
        ghost var f := Frame(t.addr, t.key, false, t.right, t.h);
        PredecessorStart(nodes, root, fs, t, tree, key);
        Push(a, 1, i, Field(n, false), fs, fs + [f]);
        i := i + 1;
        n := nodes[n].a0;
        while true
          invariant ToPredecessor(nodes, root, fs, f, gs, u, t, tree) && n == Addr(u) && u.Node?
          invariant i == |fs + [f] + gs| + 2 <= MAXH && Slots(a, 1, i - 1, fs + [f] + gs)
          modifies a
          decreases u
        {
          PredecessorReads(nodes, root, fs, f, gs, u, t, tree);
          if nodes[n].a1 == 0 { break; }
          ghost var gs', u' := PredecessorOn(nodes, root, fs, f, gs, u, t, tree);
          Push(a, 1, i, Field(n, true), fs + [f] + gs, fs + [f] + gs');
          gs, u := gs', u';
          i := i + 1;
          n := nodes[n].a1;
        }
        Rekey(nodes, root, fs, f, gs, u, t, tree);
        DeletePredecessor(nodes, root, fs, f, gs, u, t, tree, key);
        nodes := nodes[deleted := nodes[deleted].(key := nodes[n].key)];
        child := nodes[n].a0;
        ghost var f' := f.(key := u.key);
        SlotsRekey(a, i - 1, fs, f, f', gs);
        Unlink(a, i, n, child, fs + [f'] + gs, u, u.left);
      } else {
        child := nodes[n].a1;
        FoundHere(nodes, root, fs, t, tree, key);
        DeleteHere(fs, t, tree, key);
        Unlink(a, i, n, child, fs, t, t.right);
      }
    }

    /** free(n), *a[--i] = child, and rebalance. */
    method Unlink(a: array<Slot>, start: nat, n: Ref, child: Ref, ghost fs: Path, ghost u: Tree, ghost c: Tree)
      requires Whole(nodes, root, fs, u) && nodes.Keys == PathAddrs(fs) + Addrs(u) && Avl(Plug(fs, u))
      requires u.Node? && n == u.addr && child == Addr(c)
      requires (c == u.left && u.right.Nil?) || (c == u.right && u.left.Nil?)
      requires start == |fs| + 2 && Slots(a, 1, start - 1, fs)
      requires Ordered(Up(fs, c))
      modifies this
      ensures Valid() && tree == Up(fs, c)
    {
      PlugAvl(fs, u);
      Freed(nodes, root, fs, u, c);
      nodes := nodes - {n};
      var i := start - 1;
      assert fs[..i - 1] == fs;
      Store(a[i], child);
      hide Whole, Plug, Avl, Ordered, Addrs, PathAddrs, Up;
      Rebalance(a, 1, i - 1, fs, u, c);
    }

    /** The loop that rebalances ancestors until a height is unchanged; off is
        where the path array's slots start. */
    method Rebalance(a: array<Slot>, off: nat, start: nat, ghost fs: Path, ghost was: Tree, ghost now: Tree)
      requires start == |fs| && Slots(a, off, start, fs)
      requires Whole(nodes, root, fs, now)
      requires Avl(Plug(fs, was)) && Avl(now) && -1 <= Height(now) - Height(was) <= 1
      modifies this
      ensures Whole(nodes, root, [], tree) && tree == Up(fs, now) && Avl(tree)
      ensures nodes.Keys == old(nodes.Keys) && Addrs(tree) == PathAddrs(fs) + Addrs(now)
    {
      hide Whole, Plug, PathAddrs, Addrs, Avl, Up, Balance, NearlyAvl;
      var i := start;
      ghost var was', now' := was, now;
      assert fs[..i] == fs;
      while i > 0
        invariant 0 <= i <= start && nodes.Keys == old(nodes.Keys)
        invariant Whole(nodes, root, fs[..i], now')
        invariant PathAddrs(fs[..i]) + Addrs(now') == PathAddrs(fs) + Addrs(now)
        invariant Avl(Plug(fs[..i], was')) && Avl(now') && -1 <= Height(now') - Height(was') <= 1
        invariant Up(fs[..i], now') == Up(fs, now)
      {
        i := i - 1;
        ghost var f := fs[i];
        AncestorStep(nodes, root, fs, i, was', now');
        var d := BalanceAt(a[i + off], fs[..i], Fill(f, now'));
        was', now' := Fill(f, was'), Balance(Fill(f, now'));
        if d == 0 {
          StopEarly(fs[..i], was', now');
          break;
        }
      }
      if i == 0 { PathEnds(fs[..i], now'); }
      WholePlug(nodes, root, [], fs[..i], now');
      assert [] + fs[..i] == fs[..i];
      AddrsOfRoot(Plug(fs[..i], now'));
      tree := Plug(fs[..i], now');
    }
  }

  lemma PathEnds(fs: Path, t: Tree)
    requires fs == []
    ensures Up(fs, t) == t == Plug(fs, t)
  {
  }

  lemma AddrsOfRoot(t: Tree)
    ensures PathAddrs([]) + Addrs(t) == Addrs(t)
  {
  }

  /** What rebalancing the i-th ancestor needs and gives. */
  lemma AncestorStep(m: Heap, root: Ref, fs: Path, i: nat, was: Tree, now: Tree)
    requires i < |fs| && Whole(m, root, fs[..i + 1], now)
    requires Avl(Plug(fs[..i + 1], was)) && Avl(now) && -1 <= Height(now) - Height(was) <= 1
    ensures var n, o := Fill(fs[i], now), Fill(fs[i], was);
      && n.Node? && Whole(m, root, fs[..i], n) && NearlyAvl(n)
      && PathAddrs(fs[..i]) + Addrs(n) == PathAddrs(fs[..i + 1]) + Addrs(now)
      && Avl(Plug(fs[..i], o)) && Avl(Balance(n)) && o.Node? && o.h == n.h == Height(o)
      && -1 <= Balance(n).h - o.h <= 1 && Height(Balance(n)) == Balance(n).h
      && Up(fs[..i + 1], now) == Up(fs[..i], Balance(n))
  {
    var f := fs[i];
    assert fs[..i + 1] == fs[..i] + [f];
    assert fs[..i + 1][..i] == fs[..i];
    WholeUp(m, root, fs[..i], f, now);
    PlugAvl(fs[..i], Fill(f, was));
    BalanceStep(f, was, now);
  }

  /** Where a search for key stands: at the subtree t, below the path fs. */
  ghost predicate Searching(m: Heap, root: Ref, fs: Path, t: Tree, tree: Tree, key: int) {
    && Whole(m, root, fs, t) && Plug(fs, t) == tree && Leads(fs, key)
    && (key in Keys(tree) <==> key in Keys(t)) && Ordered(t) && Avl(t)
    && |fs| + Height(t) <= 45
  }

  lemma SearchingReads(m: Heap, root: Ref, fs: Path, t: Tree, tree: Tree, key: int)
    requires Searching(m, root, fs, t, tree, key)
    ensures Stored(m, t) && Plug(fs, t) == tree && (t.Nil? <==> Addr(t) == 0)
    ensures t.Node? ==> |fs| + 1 <= 45 && HasNode(t, t.addr, t.key) && t.key in Keys(t) && t.addr in m && m[t.addr].key == t.key
  {
    HeightNonNegative(t);
  }

  lemma SearchOn(m: Heap, root: Ref, fs: Path, t: Tree, tree: Tree, key: int) returns (fs': Path, t': Tree)
    requires Searching(m, root, fs, t, tree, key) && t.Node? && key != t.key
    ensures Searching(m, root, fs', t', tree, key) && t' < t && t' == Child(t, key > t.key)
    ensures |fs'| == |fs| + 1 && SlotOf(fs') == Field(t.addr, key > t.key)
    ensures fs'[..|fs|] == fs
  {
    var dir := key > t.key;
    KeysSides(t, dir);
    OrderedSides(t, dir);
    HeightNonNegative(Child(t, dir));
    fs', t' := Descend(m, root, fs, t, dir);
  }

  lemma SearchStart(m: Heap, root: Ref, tree: Tree, key: int)
    requires Whole(m, root, [], tree) && Avl(tree) && Ordered(tree)
    ensures Searching(m, root, [], tree, tree, key) && root == Addr(tree)
  {
    HeightBound(m, tree);
  }

  lemma SearchedOut(m: Heap, root: Ref, fs: Path, t: Tree, tree: Tree, key: int)
    requires Searching(m, root, fs, t, tree, key) && t.Nil?
    ensures key !in Keys(tree) && Whole(m, root, fs, Nil) && Plug(fs, Nil) == tree && Leads(fs, key)
    ensures PathAddrs(fs) == Addrs(tree)
  {
    WholePlug(m, root, [], fs, t);
    assert [] + fs == fs;
  }

  lemma {:induction false} HasNodePlug(fs: Path, t: Tree, a: Ref, k: int)
    requires HasNode(t, a, k)
    ensures HasNode(Plug(fs, t), a, k)
    decreases |fs|
  {
    if fs != [] { HasNodePlug(fs[..|fs| - 1], Fill(fs[|fs| - 1], t), a, k); }
  }

  /** The heap after the new node is linked in at the end of the path. */
  lemma NewLeaf(m: Heap, root: Ref, fs: Path, r: Ref, key: int)
    requires Whole(m, root, fs, Nil) && m.Keys == PathAddrs(fs) && r !in m && r != 0
    ensures var leaf := Node(r, key, Nil, Nil, 1);
      && Whole(Assign(m[r := Cell(key, 0, 0, 1)], SlotOf(fs), r), if fs == [] then r else root, fs, leaf)
      && Assign(m[r := Cell(key, 0, 0, 1)], SlotOf(fs), r).Keys == m.Keys + {r}
      && Avl(leaf) && Height(leaf) == 1 && Addrs(leaf) == {r}
    ensures SlotOf(fs).Field? ==> SlotOf(fs).node in m
  {
    var leaf := Node(r, key, Nil, Nil, 1);
    var m' := m[r := Cell(key, 0, 0, 1)];
    Rehole(m, m', root, fs, 0, r);
    if fs != [] { assert fs[|fs| - 1].addr in PathAddrs(fs); }
    assert Assign(m', SlotOf(fs), r)[r] == CellOf(leaf);
    assert Avl(Nil) && Stored(m', Nil) && Distinct(Nil) && Addrs(Nil) == {};
  }

  lemma SlotOfRoot(fs: Path)
    requires fs == []
    ensures SlotOf(fs[..0]) == Root
  {
  }

  /** The node that tdelete returns: the parent, or the root itself. */
  ghost function ParentOf(t: Tree, key: int): Ref {
    if t.Nil? then 0
    else if key == t.key then t.addr
    else
      var c := Child(t, key > t.key);
      if c.Node? && c.key == key then t.addr else ParentOf(c, key)
  }

  lemma {:induction false} ParentPlug(fs: Path, t: Tree, key: int)
    requires Leads(fs, key) && t.Node? && t.key == key
    ensures ParentOf(Plug(fs, t), key) == if fs == [] then t.addr else fs[|fs| - 1].addr
    decreases |fs|
  {
    if |fs| >= 2 {
      PlugFromTop(fs, t);
      ParentPlug(fs[1..], t, key);
      PlugFromTop(fs[1..], t);
    } else if |fs| == 1 {
      PlugFromTop(fs, t);
    }
  }

  lemma ParentSlot(m: Heap, root: Ref, fs: Path, t: Tree, tree: Tree, key: int)
    requires Searching(m, root, fs, t, tree, key) && t.Node? && t.key == key
    ensures ParentOf(tree, key) != 0 && key in Keys(tree)
    ensures if fs == [] then root == ParentOf(tree, key) else
      var p := SlotOf(fs[..|fs| - 1]);
      if p.Root? then root == ParentOf(tree, key) else p.node in m && Link(m[p.node], p.dir) == ParentOf(tree, key)
  {
    ParentPlug(fs, t, key);
    if fs != [] { LoadAtEnd(m, root, fs[..|fs| - 1], fs[|fs| - 1].addr); }
  }

  // ---- finding and unlinking the node that goes ---------------------------------------------

  lemma FoundHere(m: Heap, root: Ref, fs: Path, t: Tree, tree: Tree, key: int)
    requires Searching(m, root, fs, t, tree, key) && m.Keys == Addrs(tree) && Avl(tree)
    ensures Whole(m, root, fs, t) && m.Keys == PathAddrs(fs) + Addrs(t) && Avl(Plug(fs, t))
    ensures Leads(fs, key) && Plug(fs, t) == tree
  {
    WholePlug(m, root, [], fs, t);
    assert [] + fs == fs;
  }

  /** Where the walk to the predecessor stands: at u, reached from t's left
      child by right links only. */
  ghost predicate ToPredecessor(m: Heap, root: Ref, fs: Path, f: Frame, gs: Path, u: Tree, t: Tree, tree: Tree) {
    && Whole(m, root, fs + [f] + gs, u) && Plug(fs, t) == tree && Avl(tree)
    && t.Node? && f == Frame(t.addr, t.key, false, t.right, t.h) && Plug(gs, u) == t.left
    && (forall j :: 0 <= j < |gs| ==> gs[j].dir)
    && Avl(u) && |fs| + 1 + |gs| + Height(u) <= 45
  }

  lemma PredecessorStart(m: Heap, root: Ref, fs: Path, t: Tree, tree: Tree, key: int)
    requires Searching(m, root, fs, t, tree, key) && Avl(tree) && t.Node? && Addr(t.left) != 0
    ensures var f := Frame(t.addr, t.key, false, t.right, t.h);
      && ToPredecessor(m, root, fs, f, [], t.left, t, tree) && t.left.Node?
      && SlotOf(fs + [f]) == Field(t.addr, false) && |fs| + 3 <= 46
      && fs + [f] + [] == fs + [f] && (fs + [f])[..|fs|] == fs
  {
    var fs', t' := Descend(m, root, fs, t, false);
    assert fs' + [] == fs';
    HeightNonNegative(t.left);
  }

  lemma PredecessorReads(m: Heap, root: Ref, fs: Path, f: Frame, gs: Path, u: Tree, t: Tree, tree: Tree)
    requires ToPredecessor(m, root, fs, f, gs, u, t, tree) && u.Node?
    ensures u.addr in m && m[u.addr] == CellOf(u) && (Addr(u.right) == 0 <==> u.right.Nil?)
    ensures |fs| + 1 + |gs| + 1 <= 45 && |fs + [f] + gs| == |fs| + 1 + |gs|
    ensures f.addr in m && f.addr == t.addr
  {
    Reads(m, u, true);
    Reads(m, u, false);
    HeightNonNegative(u);
    WholePlug(m, root, fs + [f], gs, u);
    WholeUp(m, root, fs, f, t.left);
    assert Fill(f, t.left) == t;
    Reads(m, t, false);
  }

  lemma PredecessorOn(m: Heap, root: Ref, fs: Path, f: Frame, gs: Path, u: Tree, t: Tree, tree: Tree) returns (gs': Path, u': Tree)
    requires ToPredecessor(m, root, fs, f, gs, u, t, tree) && u.Node? && u.right.Node?
    ensures ToPredecessor(m, root, fs, f, gs', u', t, tree) && u' == u.right && u' < u
    ensures |gs'| == |gs| + 1 && gs'[..|gs|] == gs
    ensures SlotOf(fs + [f] + gs') == Field(u.addr, true)
    ensures (fs + [f] + gs')[..|fs + [f] + gs|] == fs + [f] + gs
  {
    var path := fs + [f] + gs;
    var path';
    path', u' := Descend(m, root, path, u, true);
    var g := Frame(u.addr, u.key, true, u.left, u.h);
    gs' := gs + [g];
    assert fs + [f] + gs' == path';
    assert gs'[..|gs|] == gs;
    assert Fill(g, u') == u;
    HeightNonNegative(u.right);
  }

  /** The heap after the found node takes over its predecessor's key. */
  lemma Rekey(m: Heap, root: Ref, fs: Path, f: Frame, gs: Path, u: Tree, t: Tree, tree: Tree)
    requires ToPredecessor(m, root, fs, f, gs, u, t, tree) && m.Keys == Addrs(tree)
    requires u.Node? && f.addr in m
    ensures var f' := f.(key := u.key); var m' := m[f.addr := m[f.addr].(key := u.key)];
      && Whole(m', root, fs + [f'] + gs, u) && m'.Keys == PathAddrs(fs + [f'] + gs) + Addrs(u)
      && Avl(Plug(fs + [f'] + gs, u)) && m'[u.addr] == m[u.addr]
  {
    hide Avl;
    var f' := f.(key := u.key);
    var m' := m[f.addr := m[f.addr].(key := u.key)];
    var t' := t.(key := u.key);
    WholePlug(m, root, fs + [f], gs, u);
    WholeUp(m, root, fs, f, t.left);
    assert Fill(f, t.left) == t && Fill(f', t.left) == t';
    PathHas(fs, f, gs);
    assert u.addr in Addrs(u);
    assert u.addr != f.addr;
    RekeyWhole(m, root, fs, t, u.key);
    WholePlug(m, root, [], fs, t);
    assert [] + fs == fs && Addrs(t') == Addrs(t);
    WholeUp(m', root, fs, f', t.left);
    WholePlug(m', root, fs + [f'], gs, u);
    PlugConcat(fs + [f'], gs, u);
    PlugConcat(fs, [f'], t.left);
    RekeyAvl(fs, t, u.key);
  }

  /** Storing a key in place at the end of a path. */
  lemma RekeyWhole(m: Heap, root: Ref, fs: Path, t: Tree, key: int)
    requires Whole(m, root, fs, t) && t.Node? && t.addr in m
    ensures Whole(m[t.addr := m[t.addr].(key := key)], root, fs, t.(key := key))
  {
    var m' := m[t.addr := m[t.addr].(key := key)];
    StoredFrame(m, m', t.left);
    StoredFrame(m, m', t.right);
    PathFrame(m, m', root, fs, t.addr);
  }

  /** Storing a height in place at the end of a path. */
  lemma HeightWhole(m: Heap, root: Ref, fs: Path, t: Tree, h: int)
    requires Whole(m, root, fs, t) && t.Node? && t.addr in m
    ensures Whole(m[t.addr := m[t.addr].(h := h)], root, fs, t.(h := h))
  {
    var m' := m[t.addr := m[t.addr].(h := h)];
    StoredFrame(m, m', t.left);
    StoredFrame(m, m', t.right);
    PathFrame(m, m', root, fs, t.addr);
  }

  lemma RekeyAvl(fs: Path, t: Tree, key: int)
    requires t.Node? && Avl(Plug(fs, t))
    ensures Avl(Plug(fs, t.(key := key)))
  {
    PlugAvl(fs, t);
    StopEarly(fs, t, t.(key := key));
  }

  lemma {:induction false} PathHas(fs: Path, f: Frame, gs: Path)
    ensures f.addr in PathAddrs(fs + [f] + gs)
    decreases |gs|
  {
    var path := fs + [f] + gs;
    if gs == [] { assert path[|path| - 1] == f; }
    else {
      assert path[..|path| - 1] == fs + [f] + gs[..|gs| - 1];
      PathHas(fs, f, gs[..|gs| - 1]);
    }
  }

  /** Slots do not depend on keys. */
  lemma SlotsRekey(a: array<Slot>, n: nat, fs: Path, f: Frame, f': Frame, gs: Path)
    requires Slots(a, 1, n, fs + [f] + gs) && f' == f.(key := f'.key)
    ensures Slots(a, 1, n, fs + [f'] + gs)
  {
    forall j | 0 <= j < n ensures SlotOf((fs + [f'] + gs)[..j]) == SlotOf((fs + [f] + gs)[..j]) {
      if j > 0 {
        assert (fs + [f'] + gs)[..j][j - 1] == (fs + [f'] + gs)[j - 1];
        assert (fs + [f] + gs)[..j][j - 1] == (fs + [f] + gs)[j - 1];
      }
    }
  }

  lemma DeletePredecessor(m: Heap, root: Ref, fs: Path, f: Frame, gs: Path, u: Tree, t: Tree, tree: Tree, key: int)
    requires ToPredecessor(m, root, fs, f, gs, u, t, tree) && u.Node? && u.right.Nil?
    requires Leads(fs, key) && Ordered(tree) && t.Node? && t.key == key && t.left.Node?
    ensures Delete(tree, key) == Up(fs + [f.(key := u.key)] + gs, u.left) && Ordered(Delete(tree, key))
  {
    var f' := f.(key := u.key);
    DeleteUp(fs, t, key);
    DeleteKeys(tree, key);
    RemoveMaxUp(gs, u);
    assert Delete(t, key) == Balance(Fill(f', Up(gs, u.left)));
    hide Delete, Ordered, RemoveMax, Plug, Balance;
    UpConcat(fs + [f'], gs, u.left);
    UpConcat(fs, [f'], Up(gs, u.left));
    UpOne(f', Up(gs, u.left));
  }

  lemma UpOne(f: Frame, t: Tree)
    ensures Up([f], t) == Balance(Fill(f, t))
  {
    assert Up([f][..0], Balance(Fill(f, t))) == Balance(Fill(f, t));
  }

  lemma DeleteHere(fs: Path, t: Tree, tree: Tree, key: int)
    requires Plug(fs, t) == tree && Leads(fs, key) && Ordered(tree) && t.Node? && t.key == key && t.left.Nil?
    ensures Delete(tree, key) == Up(fs, t.right) && Ordered(Delete(tree, key))
  {
    DeleteUp(fs, t, key);
    DeleteKeys(tree, key);
  }

  /** The heap after a node with at most one child is freed and bypassed. */
  lemma Freed(m: Heap, root: Ref, fs: Path, u: Tree, c: Tree)
    requires Whole(m, root, fs, u) && m.Keys == PathAddrs(fs) + Addrs(u) && Avl(u)
    requires u.Node? && ((c == u.left && u.right.Nil?) || (c == u.right && u.left.Nil?))
    ensures var m' := Assign(m - {u.addr}, SlotOf(fs), Addr(c));
      && Whole(m', if fs == [] then Addr(c) else root, fs, c) && m'.Keys == PathAddrs(fs) + Addrs(c)
      && Avl(c) && Height(c) == Height(u) - 1
    ensures SlotOf(fs).Field? ==> SlotOf(fs).node in m - {u.addr}
  {
    assert u.addr in Addrs(u) && Addrs(c) <= Addrs(u);
    HeightNonNegative(u.left);
    HeightNonNegative(u.right);
    var m1 := m - {u.addr};
    Rehole(m, m1, root, fs, u.addr, Addr(c));
    if fs != [] { assert fs[|fs| - 1].addr in PathAddrs(fs); }
    StoredFrame(m, m1, c);
    StoredFrame(m1, Assign(m1, SlotOf(fs), Addr(c)), c);
  }

  /** One step down the tree. */
  lemma Descend(m: Heap, root: Ref, fs: Path, t: Tree, dir: bool) returns (fs': Path, t': Tree)
    requires Whole(m, root, fs, t) && t.Node?
    ensures t' == Child(t, dir) && fs' == fs + [Frame(t.addr, t.key, dir, Child(t, !dir), t.h)]
    ensures Whole(m, root, fs', t') && Plug(fs', t') == Plug(fs, t) && t' < t
    ensures fs'[..|fs|] == fs
    ensures SlotOf(fs') == Field(t.addr, dir)
  {
    var f := Frame(t.addr, t.key, dir, Child(t, !dir), t.h);
    fs', t' := fs + [f], Child(t, dir);
    assert Fill(f, t') == t;
    WholeUp(m, root, fs, f, t');
    assert fs'[..|fs|] == fs;
  }

  /** Distinct 32-bit addresses bound the size, and so the height, of a tree. */
  lemma HeightBound(m: Heap, t: Tree)
    requires Stored(m, t) && Distinct(t) && Avl(t)
    ensures 0 <= Height(t) <= 45
  {
    hide MinNodes, Size, Stored;
    AvlSize(t);
    SizeBelow(t, 0x1_0000_0000);
    TooManyNodes(Height(t));
  }

  lemma TooManyNodes(h: nat)
    requires MinNodes(h) <= 0x1_0000_0000
    ensures h <= 45
  {
    MinNodes46();
    hide MinNodes;
    if h >= 46 { MinNodesMonotone(46, h); }
  }

  lemma SizeBelow(t: Tree, n: nat)
    requires Distinct(t) && forall a :: a in Addrs(t) ==> a < n
    ensures Size(t) <= n
  {
    SizeIsAddrs(t);
    var addrs: set<nat> := set a | a in Addrs(t);
    assert addrs <= Below(n);
    assert |Below(n) - addrs| == |Below(n)| - |addrs|;
    assert addrs == Addrs(t);
  }

  lemma {:induction false} SizeIsAddrs(t: Tree)
    requires Distinct(t)
    ensures |Addrs(t)| == Size(t)
  {
    if t.Node? {
      SizeIsAddrs(t.left);
      SizeIsAddrs(t.right);
      assert |Addrs(t.left) + {t.addr}| == Size(t.left) + 1;
    }
  }
}
