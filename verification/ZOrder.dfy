/** The stacking order of surfaces. A surface may be anchored to another; anchored surfaces
    form trees that stack as one block directly above their root, and roots are kept in
    bands by layer. */
module ZOrder {
  import opened Wrappers

  type Sid = nat
  type Layer = l: int | -1 <= l <= 1

  /** The surfaces' anchors; parent 0 means top-level. */
  datatype Scene = Scene(parent: map<Sid, Sid>, children: map<Sid, seq<Sid>>, next: Sid)

  ghost predicate NoDups(q: seq<Sid>) { forall i, j :: 0 <= i < j < |q| ==> q[i] != q[j] }

  /** Anchors form a forest in which children are younger than their parents. */
  ghost predicate Forest(s: Scene) {
    && s.parent.Keys == s.children.Keys && 0 < s.next
    && (forall x :: x in s.parent ==>
          && 0 < x < s.next
          && (s.parent[x] != 0 ==> s.parent[x] in s.parent && s.parent[x] < x && x in s.children[s.parent[x]])
          && NoDups(s.children[x])
          && (forall i :: 0 <= i < |s.children[x]| ==> s.children[x][i] in s.parent && s.parent[s.children[x][i]] == x))
  }

  /** x and everything anchored to it, depth first in order of creation. */
  ghost function Tree(s: Scene, x: Sid): seq<Sid>
    requires Forest(s) && x in s.parent
    decreases s.next - x, 0
  {
    [x] + Trees(s, x + 1, s.children[x])
  }

  ghost function Trees(s: Scene, low: Sid, q: seq<Sid>): seq<Sid>
    requires Forest(s) && low <= s.next && forall i :: 0 <= i < |q| ==> q[i] in s.parent && low <= q[i]
    decreases s.next - low, |q| + 1
  {
    if q == [] then [] else Tree(s, q[0]) + Trees(s, low, q[1..])
  }

  /** x is r or anchored to it, however indirectly. */
  ghost predicate Under(s: Scene, x: Sid, r: Sid)
    requires Forest(s) && x in s.parent
    decreases x
  {
    x == r || (s.parent[x] != 0 && Under(s, s.parent[x], r))
  }

  lemma {:induction false} UnderIsYounger(s: Scene, x: Sid, r: Sid)
    requires Forest(s) && x in s.parent && Under(s, x, r)
    ensures r <= x && r in s.parent
    decreases x
  {
    if x != r { UnderIsYounger(s, s.parent[x], r); }
  }

  lemma {:induction false} UnderTrans(s: Scene, x: Sid, y: Sid, r: Sid)
    requires Forest(s) && x in s.parent && y in s.parent && Under(s, x, y) && Under(s, y, r)
    ensures Under(s, x, r)
    decreases x
  {
    if x != y { UnderTrans(s, s.parent[x], y, r); }
  }

  /** Ancestors form a line. */
  lemma {:induction false} Linear(s: Scene, x: Sid, a: Sid, b: Sid)
    requires Forest(s) && x in s.parent && a in s.parent && b in s.parent && Under(s, x, a) && Under(s, x, b)
    ensures Under(s, a, b) || Under(s, b, a)
    decreases x
  {
    if x != a && x != b { Linear(s, s.parent[x], a, b); }
  }

  /** Siblings, and top-level surfaces, have nothing in common below them. */
  lemma Apart(s: Scene, x: Sid, a: Sid, b: Sid)
    requires Forest(s) && x in s.parent && a in s.parent && b in s.parent && a != b && s.parent[a] == s.parent[b]
    requires Under(s, x, a)
    ensures !Under(s, x, b)
  {
    if Under(s, x, b) {
      Linear(s, x, a, b);
      if Under(s, a, b) { UnderIsYounger(s, s.parent[a], b); } else { UnderIsYounger(s, s.parent[b], a); }
    }
  }

  /** A tree holds exactly what is under its root, each surface once. */
  lemma {:induction false} TreeMembers(s: Scene, x: Sid)
    requires Forest(s) && x in s.parent
    ensures forall y :: y in Tree(s, x) <==> y in s.parent && Under(s, y, x)
    ensures NoDups(Tree(s, x))
    decreases s.next - x, 0
  {
    TreesMembers(s, x + 1, s.children[x], x);
    var below := Trees(s, x + 1, s.children[x]);
    assert Tree(s, x) == [x] + below;
    assert Under(s, x, x);
    hide Tree, Trees, Forest, Under, NoDups;
    forall y ensures y in below <==> y in s.parent && Under(s, y, x) && y != x {
      UnderChild(s, y, x);
    }
    ConsNoDups(x, below);
  }

  /** Strictly under a surface is under one of its children. */
  lemma UnderChild(s: Scene, y: Sid, x: Sid)
    requires Forest(s) && x in s.parent
    ensures y in s.parent && Under(s, y, x) && y != x <==> y in s.parent && exists c :: c in s.children[x] && Under(s, y, c)
  {
    if y in s.parent && Under(s, y, x) && y != x {
      StepDown(s, y, x);
    }
    if y in s.parent && exists c :: c in s.children[x] && Under(s, y, c) {
      var c :| c in s.children[x] && Under(s, y, c);
      UnderTrans(s, y, c, x);
      UnderIsYounger(s, y, c);
    }
  }

  lemma ConsNoDups(x: Sid, q: seq<Sid>)
    requires NoDups(q) && x !in q
    ensures NoDups([x] + q)
  {
  }

  /** What is strictly under x is under one of its children. */
  lemma {:induction false} StepDown(s: Scene, y: Sid, x: Sid)
    requires Forest(s) && y in s.parent && x in s.parent && Under(s, y, x) && y != x
    ensures exists c :: c in s.children[x] && Under(s, y, c)
    decreases y
  {
    if s.parent[y] == x {
      assert y in s.children[x] && Under(s, y, y);
    } else {
      StepDown(s, s.parent[y], x);
    }
  }

  lemma {:induction false} TreesMembers(s: Scene, low: Sid, q: seq<Sid>, p: Sid)
    requires Forest(s) && low <= s.next && NoDups(q)
    requires forall i :: 0 <= i < |q| ==> q[i] in s.parent && low <= q[i] && s.parent[q[i]] == p
    ensures forall y :: y in Trees(s, low, q) <==> y in s.parent && exists c :: c in q && Under(s, y, c)
    ensures NoDups(Trees(s, low, q))
    decreases s.next - low, |q| + 1
  {
    if q != [] {
      TreeMembers(s, q[0]);
      TreesMembers(s, low, q[1..], p);
      var first, rest := Tree(s, q[0]), Trees(s, low, q[1..]);
      assert Trees(s, low, q) == first + rest;
      hide Tree, Trees;
      assert forall c :: c in q <==> c == q[0] || c in q[1..];
      forall y | y in first ensures y !in rest {
        forall c | c in q[1..] ensures !Under(s, y, c) {
          Apart(s, y, q[0], c);
        }
      }
      var t := Trees(s, low, q);
      forall i, j | 0 <= i < j < |t| ensures t[i] != t[j] {
        if i < |first| {
          assert t[i] in first;
        }
      }
    }
  }

  /** What is under the first of several siblings stands in its tree, and what is under another
      one after it. */
  lemma Halves(s: Scene, low: Sid, q: seq<Sid>, p: Sid, k: nat, n: nat)
    requires Forest(s) && low <= s.next && NoDups(q)
    requires forall i :: 0 <= i < |q| ==> q[i] in s.parent && low <= q[i] && s.parent[q[i]] == p
    requires k < |q| && n < |Trees(s, low, q)|
    requires Trees(s, low, q)[n] in s.parent && Under(s, Trees(s, low, q)[n], q[k])
    ensures Trees(s, low, q) == Tree(s, q[0]) + Trees(s, low, q[1..])
    ensures k == 0 <==> n < |Tree(s, q[0])|
  {
    var t, first, rest := Trees(s, low, q), Tree(s, q[0]), Trees(s, low, q[1..]);
    assert t == first + rest;
    assert if n < |first| then t[n] in first else t[n] in rest;
    hide Tree, Trees;
    TreeMembers(s, q[0]);
    TreesMembers(s, low, q[1..], p);
    if k == 0 {
      NotUnderLater(s, t[n], q, p);
    } else {
      Apart(s, t[n], q[k], q[0]);
    }
  }

  lemma NotUnderLater(s: Scene, y: Sid, q: seq<Sid>, p: Sid)
    requires Forest(s) && y in s.parent && q != [] && NoDups(q) && Under(s, y, q[0])
    requires forall i :: 0 <= i < |q| ==> q[i] in s.parent && s.parent[q[i]] == p
    ensures !exists c :: c in q[1..] && Under(s, y, c)
  {
    forall c | c in q[1..] ensures !Under(s, y, c) {
      Apart(s, y, q[0], c);
    }
  }

  /** What is under an elder sibling comes before what is under a younger one. */
  lemma {:induction false} EldersFirst(s: Scene, low: Sid, q: seq<Sid>, p: Sid, i: nat, j: nat, m: nat, n: nat)
    requires Forest(s) && low <= s.next && NoDups(q)
    requires forall i :: 0 <= i < |q| ==> q[i] in s.parent && low <= q[i] && s.parent[q[i]] == p
    requires i < j < |q| && m < |Trees(s, low, q)| && n < |Trees(s, low, q)|
    requires Trees(s, low, q)[m] in s.parent && Under(s, Trees(s, low, q)[m], q[i])
    requires Trees(s, low, q)[n] in s.parent && Under(s, Trees(s, low, q)[n], q[j])
    ensures m < n
    decreases |q|
  {
    hide Tree, Trees, Forest, Under;
    Halves(s, low, q, p, i, m);
    Halves(s, low, q, p, j, n);
    if i > 0 {
      var k := |Tree(s, q[0])|;
      assert Trees(s, low, q)[m] == Trees(s, low, q[1..])[m - k] && Trees(s, low, q)[n] == Trees(s, low, q[1..])[n - k];
      EldersFirst(s, low, q[1..], p, i - 1, j - 1, m - k, n - k);
    }
  }

  /** So in a tree siblings and all under them stand in the order in which the surface they are
      anchored to lists them. */
  lemma SiblingsInOrder(s: Scene, x: Sid, i: nat, j: nat, m: nat, n: nat)
    requires Forest(s) && x in s.parent && i < j < |s.children[x]| && m < |Tree(s, x)| && n < |Tree(s, x)|
    requires Tree(s, x)[m] in s.parent && Under(s, Tree(s, x)[m], s.children[x][i])
    requires Tree(s, x)[n] in s.parent && Under(s, Tree(s, x)[n], s.children[x][j])
    ensures 0 < m < n
  {
    var q := s.children[x];
    var below := Trees(s, x + 1, q);
    assert Tree(s, x) == [x] + below;
    hide Tree, Trees;
    if m == 0 { UnderIsYounger(s, x, q[i]); } else {
      if n == 0 { UnderIsYounger(s, x, q[j]); }
      EldersFirst(s, x + 1, q, x, i, j, m - 1, n - 1);
    }
  }

  // ---- layers ----------------------------------------------------------------------------------

  function Band(layer: map<Sid, Layer>, z: seq<Sid>, l: Layer): seq<Sid> {
    if z == [] then []
    else (if z[0] in layer && layer[z[0]] == l then [z[0]] else []) + Band(layer, z[1..], l)
  }

  /** A stable sort by layer. */
  function ByLayer(layer: map<Sid, Layer>, z: seq<Sid>): seq<Sid> {
    Band(layer, z, -1) + Band(layer, z, 0) + Band(layer, z, 1)
  }

  function Tops(parent: map<Sid, Sid>, z: seq<Sid>): seq<Sid> {
    if z == [] then []
    else (if z[0] in parent && parent[z[0]] == 0 then [z[0]] else []) + Tops(parent, z[1..])
  }

  ghost predicate Ascending(layer: map<Sid, Layer>, z: seq<Sid>) {
    forall i, j :: 0 <= i < j < |z| && z[i] in layer && z[j] in layer ==> layer[z[i]] <= layer[z[j]]
  }

  lemma {:induction false} BandMembers(layer: map<Sid, Layer>, z: seq<Sid>, l: Layer)
    ensures forall x :: x in Band(layer, z, l) <==> x in z && x in layer && layer[x] == l
    ensures NoDups(z) ==> NoDups(Band(layer, z, l))
  {
    if z != [] {
      BandMembers(layer, z[1..], l);
      if NoDups(z) {
        assert NoDups(z[1..]) && z[0] !in z[1..];
        ConsNoDups(z[0], Band(layer, z[1..], l));
      }
    }
  }

  lemma {:induction false} BandConcat(layer: map<Sid, Layer>, a: seq<Sid>, b: seq<Sid>, l: Layer)
    ensures Band(layer, a + b, l) == Band(layer, a, l) + Band(layer, b, l)
  {
    if a == [] {
      assert a + b == b;
    } else {
      assert (a + b)[1..] == a[1..] + b;
      BandConcat(layer, a[1..], b, l);
    }
  }

  lemma {:induction false} BandOfBand(layer: map<Sid, Layer>, z: seq<Sid>, l: Layer, m: Layer)
    ensures Band(layer, Band(layer, z, l), m) == if l == m then Band(layer, z, l) else []
  {
    if z != [] {
      BandOfBand(layer, z[1..], l, m);
      if z[0] in layer && layer[z[0]] == l {
        assert Band(layer, z, l)[1..] == Band(layer, z[1..], l);
      } else {
        assert Band(layer, z, l) == Band(layer, z[1..], l);
      }
    }
  }

  /** Sorting permutes, sorts, and keeps the order within each layer. */
  lemma SortedByLayer(layer: map<Sid, Layer>, z: seq<Sid>)
    requires NoDups(z) && forall x :: x in z ==> x in layer
    ensures NoDups(ByLayer(layer, z)) && forall x :: x in ByLayer(layer, z) <==> x in z
    ensures Ascending(layer, ByLayer(layer, z))
    ensures forall l :: Band(layer, ByLayer(layer, z), l) == Band(layer, z, l)
  {
    var a, b, c := Band(layer, z, -1), Band(layer, z, 0), Band(layer, z, 1);
    BandMembers(layer, z, -1);
    BandMembers(layer, z, 0);
    BandMembers(layer, z, 1);
    hide Band;
    forall l ensures Band(layer, ByLayer(layer, z), l) == Band(layer, z, l) {
      BandOfLayers(layer, z, l);
    }
    BandsAscend(layer, a, b, c);
  }

  lemma BandOfLayers(layer: map<Sid, Layer>, z: seq<Sid>, l: Layer)
    ensures Band(layer, ByLayer(layer, z), l) == Band(layer, z, l)
  {
    hide Band;
    var a, b, c := Band(layer, z, -1), Band(layer, z, 0), Band(layer, z, 1);
    BandConcat(layer, a + b, c, l);
    BandConcat(layer, a, b, l);
    BandOfBand(layer, z, -1, l);
    BandOfBand(layer, z, 0, l);
    BandOfBand(layer, z, 1, l);
  }

  lemma BandsAscend(layer: map<Sid, Layer>, a: seq<Sid>, b: seq<Sid>, c: seq<Sid>)
    requires NoDups(a) && NoDups(b) && NoDups(c)
    requires (forall x :: x in a ==> x in layer && layer[x] == -1) && (forall x :: x in b ==> x in layer && layer[x] == 0)
    requires forall x :: x in c ==> x in layer && layer[x] == 1
    ensures NoDups(a + b + c) && Ascending(layer, a + b + c)
  {
    var z := a + b + c;
    forall i | 0 <= i < |z| ensures z[i] in layer && layer[z[i]] == (if i < |a| then -1 else if i < |a| + |b| then 0 else 1) {
      if i < |a| { assert z[i] in a; } else if i < |a| + |b| { assert z[i] in b; } else { assert z[i] in c; }
    }
  }

  lemma NoneBelow(layer: map<Sid, Layer>, z: seq<Sid>, l: Layer)
    requires Ascending(layer, z) && z != [] && z[0] in layer && l < layer[z[0]]
    ensures Band(layer, z[1..], l) == []
  {
    BandMembers(layer, z[1..], l);
    HasOne(Band(layer, z[1..], l));
  }

  lemma BandCons(layer: map<Sid, Layer>, z: seq<Sid>, l: Layer)
    requires z != [] && z[0] in layer
    ensures Band(layer, z, l) == if layer[z[0]] == l then [z[0]] + Band(layer, z[1..], l) else Band(layer, z[1..], l)
  {
  }

  /** A sequence that is already sorted stays as it is. */
  lemma {:induction false} SortedStays(layer: map<Sid, Layer>, z: seq<Sid>)
    requires Ascending(layer, z) && forall x :: x in z ==> x in layer
    ensures ByLayer(layer, z) == z
  {
    if z != [] {
      var rest := z[1..];
      assert Ascending(layer, rest);
      SortedStays(layer, rest);
      hide Ascending, Band;
      var a, b, c := Band(layer, rest, -1), Band(layer, rest, 0), Band(layer, rest, 1);
      BandCons(layer, z, -1);
      BandCons(layer, z, 0);
      BandCons(layer, z, 1);
      if -1 < layer[z[0]] { NoneBelow(layer, z, -1); }
      if 0 < layer[z[0]] { NoneBelow(layer, z, 0); }
      Front([z[0]], a, b, c);
      assert z == [z[0]] + rest;
    } else {
      assert Band(layer, z, -1) == Band(layer, z, 0) == Band(layer, z, 1) == [];
    }
  }

  lemma Front(x: seq<Sid>, a: seq<Sid>, b: seq<Sid>, c: seq<Sid>)
    ensures (x + a) + b + c == x + (a + b + c)
    ensures a == [] ==> a + (x + b) + c == x + (a + b + c)
    ensures a == b == [] ==> a + b + (x + c) == x + (a + b + c)
  {
  }

  lemma HasOne(q: seq<Sid>)
    ensures q != [] ==> exists x :: x in q
  {
    if q != [] { assert q[0] in q; }
  }

  lemma {:induction false} TopsMembers(parent: map<Sid, Sid>, z: seq<Sid>)
    ensures forall x :: x in Tops(parent, z) <==> x in z && x in parent && parent[x] == 0
    ensures NoDups(z) ==> NoDups(Tops(parent, z))
  {
    if z != [] {
      TopsMembers(parent, z[1..]);
      if NoDups(z) {
        assert NoDups(z[1..]) && z[0] !in z[1..];
        ConsNoDups(z[0], Tops(parent, z[1..]));
      }
    }
  }

  lemma {:induction false} TopsConcat(parent: map<Sid, Sid>, a: seq<Sid>, b: seq<Sid>)
    ensures Tops(parent, a + b) == Tops(parent, a) + Tops(parent, b)
  {
    if a == [] {
      assert a + b == b;
    } else {
      assert (a + b)[1..] == a[1..] + b;
      TopsConcat(parent, a[1..], b);
    }
  }

  lemma {:induction false} TopsOfBand(parent: map<Sid, Sid>, layer: map<Sid, Layer>, z: seq<Sid>, l: Layer)
    ensures Tops(parent, Band(layer, z, l)) == Band(layer, Tops(parent, z), l)
  {
    if z != [] {
      TopsOfBand(parent, layer, z[1..], l);
      if z[0] in layer && layer[z[0]] == l {
        assert Band(layer, z, l)[1..] == Band(layer, z[1..], l);
      } else {
        assert Band(layer, z, l) == Band(layer, z[1..], l);
      }
      if z[0] in parent && parent[z[0]] == 0 {
        assert Tops(parent, z)[1..] == Tops(parent, z[1..]);
      } else {
        assert Tops(parent, z) == Tops(parent, z[1..]);
      }
    }
  }

  /** Sorting everything sorts the top-level surfaces. */
  lemma TopsByLayer(parent: map<Sid, Sid>, layer: map<Sid, Layer>, z: seq<Sid>)
    ensures Tops(parent, ByLayer(layer, z)) == ByLayer(layer, Tops(parent, z))
  {
    TopsConcat(parent, Band(layer, z, -1) + Band(layer, z, 0), Band(layer, z, 1));
    TopsConcat(parent, Band(layer, z, -1), Band(layer, z, 0));
    TopsOfBand(parent, layer, z, -1);
    TopsOfBand(parent, layer, z, 0);
    TopsOfBand(parent, layer, z, 1);
  }

  // ---- the normal form ---------------------------------------------------------------------------

  /** z lists every surface once. */
  ghost predicate Lists(s: Scene, z: seq<Sid>) {
    NoDups(z) && forall x :: x in z <==> x in s.parent
  }

  /** The trees of ts, one after the other. */
  ghost function Flat(s: Scene, ts: seq<Sid>): seq<Sid>
    requires Forest(s) && forall i :: 0 <= i < |ts| ==> ts[i] in s.parent
  {
    Trees(s, 1, ts)
  }

  lemma TopsFit(s: Scene, z: seq<Sid>)
    ensures forall i :: 0 <= i < |Tops(s.parent, z)| ==> Tops(s.parent, z)[i] in s.parent && s.parent[Tops(s.parent, z)[i]] == 0
  {
    TopsMembers(s.parent, z);
    var ts := Tops(s.parent, z);
    assert forall i :: 0 <= i < |ts| ==> ts[i] in ts;
  }

  /** Stacked as _wmZNormalize leaves it: whole trees, by the layers of their roots, with
      every anchored surface on its root's layer. */
  ghost predicate Normal(s: Scene, layer: map<Sid, Layer>, z: seq<Sid>) {
    && Forest(s) && layer.Keys == s.parent.Keys && Lists(s, z)
    && Ascending(layer, Tops(s.parent, z))
    && (forall x :: x in s.parent && s.parent[x] != 0 ==> layer[x] == layer[s.parent[x]])
    && (forall i :: 0 <= i < |Tops(s.parent, z)| ==> Tops(s.parent, z)[i] in s.parent)
    && z == Flat(s, Tops(s.parent, z))
  }

  /** Every surface has a top-level surface over it. */
  lemma {:induction false} HasRoot(s: Scene, x: Sid) returns (r: Sid)
    requires Forest(s) && x in s.parent
    ensures r in s.parent && s.parent[r] == 0 && Under(s, x, r)
    decreases x
  {
    if s.parent[x] == 0 { r := x; } else { r := HasRoot(s, s.parent[x]); }
  }

  /** The trees of all top-level surfaces list everything once. */
  lemma FlatLists(s: Scene, ts: seq<Sid>)
    requires Forest(s) && NoDups(ts) && forall x :: x in ts <==> x in s.parent && s.parent[x] == 0
    ensures forall i :: 0 <= i < |ts| ==> ts[i] in s.parent
    ensures Lists(s, Flat(s, ts))
  {
    assert forall i :: 0 <= i < |ts| ==> ts[i] in ts;
    TreesMembers(s, 1, ts, 0);
    forall x | x in s.parent ensures x in Flat(s, ts) {
      var r := HasRoot(s, x);
      assert r in ts && Under(s, x, r);
    }
  }

  lemma TopsOfBlock(parent: map<Sid, Sid>, x: Sid, below: seq<Sid>, rest: seq<Sid>, others: seq<Sid>)
    requires Tops(parent, below) == [] && Tops(parent, rest) == Tops(parent, others)
    ensures Tops(parent, ([x] + below) + rest) == Tops(parent, [x] + others)
  {
    TopsConcat(parent, [x] + below, rest);
    TopsConcat(parent, [x], below);
    TopsConcat(parent, [x], others);
  }

  lemma ChildrenAreNotTops(s: Scene, x: Sid)
    requires Forest(s) && x in s.parent
    ensures Tops(s.parent, s.children[x]) == []
  {
    TopsMembers(s.parent, s.children[x]);
    HasOne(Tops(s.parent, s.children[x]));
  }

  /** A tree's only top-level surface is a top-level root. */
  lemma ChildrenFit(s: Scene, x: Sid)
    requires Forest(s) && x in s.parent
    ensures x in s.children && x + 1 <= s.next
    ensures forall i :: 0 <= i < |s.children[x]| ==> s.children[x][i] in s.parent && x + 1 <= s.children[x][i]
  {
  }

  lemma {:induction false} TopsOfTrees(s: Scene, low: Sid, q: seq<Sid>)
    requires Forest(s) && low <= s.next && forall i :: 0 <= i < |q| ==> q[i] in s.parent && low <= q[i]
    ensures Tops(s.parent, Trees(s, low, q)) == Tops(s.parent, q)
    decreases s.next - low, |q| + 1
  {
    hide Tops, Forest;
    if q != [] {
      var x := q[0];
      ChildrenFit(s, x);
      ChildrenAreNotTops(s, x);
      TopsOfTrees(s, x + 1, s.children[x]);
      TopsOfTrees(s, low, q[1..]);
      TopsOfBlock(s.parent, x, Trees(s, x + 1, s.children[x]), Trees(s, low, q[1..]), q[1..]);
      assert q == [x] + q[1..];
    }
  }

  // ---- what being normal means --------------------------------------------------------------------

  /** Every surface's tree is one block directly above it. */
  ghost predicate BlockAt(s: Scene, z: seq<Sid>, i: nat)
    requires Forest(s)
  {
    i < |z| && z[i] in s.parent && i + |Tree(s, z[i])| <= |z| && z[i..i + |Tree(s, z[i])|] == Tree(s, z[i])
  }

  lemma BlockIn(s: Scene, a: seq<Sid>, z: seq<Sid>, b: seq<Sid>, i: nat)
    requires Forest(s) && BlockAt(s, z, i)
    ensures BlockAt(s, a + z + b, |a| + i)
  {
    var n := |Tree(s, z[i])|;
    var w := a + z + b;
    assert w[|a| + i] == z[i];
    assert w[|a| + i..|a| + i + n] == z[i..i + n];
  }

  lemma {:induction false} BlocksInTrees(s: Scene, low: Sid, q: seq<Sid>, i: nat)
    requires Forest(s) && low <= s.next && (forall k :: 0 <= k < |q| ==> q[k] in s.parent && low <= q[k])
    requires i < |Trees(s, low, q)|
    ensures BlockAt(s, Trees(s, low, q), i)
    decreases s.next - low, |q| + 1
  {
    hide BlockAt;
    var x := q[0];
    var first, below, rest := Tree(s, x), Trees(s, x + 1, s.children[x]), Trees(s, low, q[1..]);
    if i == 0 {
      FirstBlock(s, x, rest);
    } else if i < |first| {
      BlocksInTrees(s, x + 1, s.children[x], i - 1);
      BlockIn(s, [x], below, rest, i - 1);
    } else {
      BlocksInTrees(s, low, q[1..], i - |first|);
      BlockIn(s, first, rest, [], i - |first|);
      assert first + rest + [] == first + rest;
    }
  }

  lemma FirstBlock(s: Scene, x: Sid, rest: seq<Sid>)
    requires Forest(s) && x in s.parent
    ensures BlockAt(s, Tree(s, x) + rest, 0)
  {
  }

  lemma {:induction false} RootLayer(s: Scene, layer: map<Sid, Layer>, z: seq<Sid>, x: Sid, r: Sid)
    requires Normal(s, layer, z) && x in s.parent && r in s.parent && Under(s, x, r)
    ensures layer[x] == layer[r]
    decreases x
  {
    if x != r { RootLayer(s, layer, z, s.parent[x], r); }
  }

  lemma {:induction false} FlatAscends(s: Scene, layer: map<Sid, Layer>, z: seq<Sid>, ts: seq<Sid>)
    requires Normal(s, layer, z) && (forall k :: 0 <= k < |ts| ==> ts[k] in s.parent) && Ascending(layer, ts)
    ensures Ascending(layer, Flat(s, ts))
    ensures forall y :: y in Flat(s, ts) ==> y in s.parent && exists t :: t in ts && layer[y] == layer[t]
  {
    if ts != [] {
      var first, rest := Tree(s, ts[0]), Flat(s, ts[1..]);
      assert Ascending(layer, ts[1..]);
      FlatAscends(s, layer, z, ts[1..]);
      TreeMembers(s, ts[0]);
      forall y | y in first ensures layer[y] == layer[ts[0]] {
        RootLayer(s, layer, z, y, ts[0]);
      }
      assert Flat(s, ts) == first + rest;
      hide Normal, Forest, Trees, Tree;
      forall i, j | 0 <= i < j < |first + rest| ensures layer[(first + rest)[i]] <= layer[(first + rest)[j]] {
        if i < |first| { assert (first + rest)[i] in first; }
        if j < |first| { assert (first + rest)[j] in first; } else { assert (first + rest)[j] in rest; }
        if i >= |first| { assert (first + rest)[i] == rest[i - |first|] && (first + rest)[j] == rest[j - |first|]; }
      }
    }
  }

  /** In a normal stacking, layers never go down, and every surface is directly followed by
      everything anchored to it. */
  lemma NormalMeans(s: Scene, layer: map<Sid, Layer>, z: seq<Sid>)
    requires Normal(s, layer, z)
    ensures Ascending(layer, z)
    ensures forall i :: 0 <= i < |z| ==> BlockAt(s, z, i)
  {
    FlatAscends(s, layer, z, Tops(s.parent, z));
    forall i | 0 <= i < |z| ensures BlockAt(s, z, i) {
      BlocksInTrees(s, 1, Tops(s.parent, z), i);
    }
  }

  // ---- normalising ---------------------------------------------------------------------------------

  lemma {:induction false} TopsAll(parent: map<Sid, Sid>, z: seq<Sid>)
    requires forall x :: x in z ==> x in parent && parent[x] == 0
    ensures Tops(parent, z) == z
  {
    if z != [] {
      assert forall x :: x in z[1..] ==> x in z;
      TopsAll(parent, z[1..]);
    }
  }

  /** What _wmZNormalize makes of z. */
  ghost function Normalized(s: Scene, layer: map<Sid, Layer>, z: seq<Sid>): seq<Sid> {
    if Forest(s) && layer.Keys == s.parent.Keys && Lists(s, z) then
      SortedTopsFit(s, layer, z);
      Flat(s, ByLayer(layer, Tops(s.parent, z)))
    else z
  }

  lemma SortedTopsFit(s: Scene, layer: map<Sid, Layer>, z: seq<Sid>)
    requires Forest(s) && layer.Keys == s.parent.Keys && Lists(s, z)
    ensures var ts := ByLayer(layer, Tops(s.parent, z));
      && (forall i :: 0 <= i < |ts| ==> ts[i] in s.parent)
      && NoDups(ts) && (forall x :: x in ts <==> x in s.parent && s.parent[x] == 0)
      && Ascending(layer, ts) && Tops(s.parent, ts) == ts
  {
    var ts := ByLayer(layer, Tops(s.parent, z));
    TopsMembers(s.parent, z);
    SortedByLayer(layer, Tops(s.parent, z));
    assert forall i :: 0 <= i < |ts| ==> ts[i] in ts;
    TopsAll(s.parent, ts);
  }

  lemma ForestStarts(s: Scene)
    requires Forest(s)
    ensures 1 <= s.next
    ensures forall x :: x in s.parent ==> 1 <= x && x in s.children
  {
  }

  lemma ForestTops(s: Scene)
    requires Forest(s)
    ensures forall x :: x in s.parent && s.parent[x] != 0 ==> s.parent[x] in s.parent
  {
  }

  /** Normalising gives the normal form, if it also puts anchored surfaces on their roots'
      layers and leaves the others'. */
  lemma NormalizedIsNormal(s: Scene, before: map<Sid, Layer>, z: seq<Sid>, layer: map<Sid, Layer>)
    requires Forest(s) && before.Keys == layer.Keys == s.parent.Keys && Lists(s, z)
    requires forall x :: x in s.parent ==> layer[x] == if s.parent[x] == 0 then before[x] else layer[s.parent[x]]
    ensures Normal(s, layer, Normalized(s, before, z))
    ensures forall l :: Band(before, Tops(s.parent, Normalized(s, before, z)), l) == Band(before, Tops(s.parent, z), l)
  {
    hide Forest, ByLayer, Tops, Trees, NoDups;
    var ts := ByLayer(before, Tops(s.parent, z));
    SortedTopsFit(s, before, z);
    FlatLists(s, ts);
    ForestStarts(s);
    TopsOfTrees(s, 1, ts);
    TopsMembers(s.parent, z);
    ForestTops(s);
    SortedByLayer(before, Tops(s.parent, z));
    assert forall i :: 0 <= i < |ts| ==> ts[i] in ts;
  }

  /** Normalising again changes nothing. */
  lemma NormalizeTwice(s: Scene, layer: map<Sid, Layer>, z: seq<Sid>)
    requires Normal(s, layer, z)
    ensures Normalized(s, layer, z) == z
  {
    TopsMembers(s.parent, z);
    SortedStays(layer, Tops(s.parent, z));
  }

  ghost function Anchored(s: Scene): set<Sid> { set x | x in s.parent && s.parent[x] != 0 }

  lemma HasChild(s: Scene, x: Sid)
    requires Forest(s) && x in s.parent
    ensures s.children[x] != [] ==> exists y :: y in s.parent && s.parent[y] == x
  {
    if s.children[x] != [] { assert s.parent[s.children[x][0]] == x; }
  }

  /** With nothing anchored, sorting is all there is to do. */
  lemma NothingAnchored(s: Scene, layer: map<Sid, Layer>, z: seq<Sid>)
    requires Forest(s) && layer.Keys == s.parent.Keys && Lists(s, z) && Anchored(s) == {}
    ensures ByLayer(layer, z) == Normalized(s, layer, z)
    ensures forall x :: x in s.parent ==> s.parent[x] == 0
  {
    forall x | x in s.parent ensures s.parent[x] == 0 {
      assert x !in Anchored(s);
    }
    TopsAll(s.parent, z);
    SortedTopsFit(s, layer, z);
    var ts := ByLayer(layer, z);
    forall x | x in s.parent ensures s.children[x] == [] {
      HasChild(s, x);
    }
    Singles(s, 1, ts);
  }

  lemma {:induction false} Singles(s: Scene, low: Sid, q: seq<Sid>)
    requires Forest(s) && low <= s.next && (forall i :: 0 <= i < |q| ==> q[i] in s.parent && low <= q[i])
    requires forall x | x in s.parent :: s.children[x] == []
    ensures Trees(s, low, q) == q
  {
    if q != [] {
      Singles(s, low, q[1..]);
      assert Trees(s, q[0] + 1, s.children[q[0]]) == [];
    }
  }

  // ---- taking a leaf away ----------------------------------------------------------------------------

  /** The scene without surface x. */
  function Lost(s: Scene, x: Sid): Scene
    requires x in s.parent && s.parent.Keys == s.children.Keys
  {
    var p := s.parent[x];
    var rest := if p in s.children then s.children[p := Without(s.children[p], x)] else s.children;
    Scene(s.parent - {x}, rest - {x}, s.next)
  }

  ghost predicate Leaf(s: Scene, x: Sid) { x in s.parent && x in s.children && s.children[x] == [] }

  lemma LostChildren(s: Scene, x: Sid, y: Sid)
    requires Forest(s) && Leaf(s, x) && y in s.parent && y != x
    ensures y in Lost(s, x).parent && y in Lost(s, x).children && y in s.children
    ensures Lost(s, x).children[y] == Without(s.children[y], x) && NoDups(Lost(s, x).children[y])
    ensures forall i :: 0 <= i < |Lost(s, x).children[y]| ==>
      Lost(s, x).children[y][i] in s.children[y] && Lost(s, x).children[y][i] != x
    ensures forall c :: c in s.children[y] && c != x ==> c in Lost(s, x).children[y]
  {
    WithoutOne(s.children[y], x);
    assert x in s.children[y] ==> s.parent[x] == y;
    var w := Without(s.children[y], x);
    assert forall i :: 0 <= i < |w| ==> w[i] in w;
  }

  lemma LostForest(s: Scene, x: Sid)
    requires Forest(s) && Leaf(s, x)
    ensures Forest(Lost(s, x)) && Anchored(Lost(s, x)) == Anchored(s) - {x}
  {
    var t := Lost(s, x);
    assert t.parent.Keys == t.children.Keys == s.parent.Keys - {x};
    forall y | y in t.parent
      ensures y in t.children && NoDups(t.children[y])
      ensures forall i :: 0 <= i < |t.children[y]| ==> t.children[y][i] in t.parent && t.parent[t.children[y][i]] == y
      ensures t.parent[y] != 0 ==> t.parent[y] in t.parent && y in t.children[t.parent[y]]
    {
      LostChildren(s, x, y);
      if t.parent[y] != 0 {
        LostChildren(s, x, t.parent[y]);
      }
    }
  }

  lemma WithoutCons(h: Sid, rest: seq<Sid>, x: Sid)
    ensures Without([h] + rest, x) == if h == x then rest else [h] + Without(rest, x)
  {
    assert ([h] + rest)[1..] == rest;
  }

  lemma {:induction false} WithoutConcat(a: seq<Sid>, b: seq<Sid>, x: Sid)
    ensures Without(a + b, x) == if x in a then Without(a, x) + b else a + Without(b, x)
  {
    hide Without;
    if a == [] {
      assert a + b == b;
    } else {
      var h, rest := a[0], a[1..];
      assert a == [h] + rest;
      Prepend(h, rest, b);
      WithoutCons(h, rest, x);
      WithoutCons(h, rest + b, x);
      if h != x {
        WithoutConcat(rest, b, x);
        if x in rest { Prepend(h, Without(rest, x), b); } else { Prepend(h, rest, Without(b, x)); }
      }
    }
  }

  lemma Prepend(h: Sid, a: seq<Sid>, b: seq<Sid>)
    ensures [h] + (a + b) == ([h] + a) + b
  {
  }

  lemma LostFits(s: Scene, low: Sid, q: seq<Sid>, x: Sid)
    requires Forest(s) && Leaf(s, x) && NoDups(q)
    requires forall i :: 0 <= i < |q| ==> q[i] in s.parent && low <= q[i]
    ensures forall i :: 0 <= i < |Without(q, x)| ==> Without(q, x)[i] in Lost(s, x).parent && low <= Without(q, x)[i]
  {
    WithoutOne(q, x);
    var w := Without(q, x);
    assert forall i :: 0 <= i < |w| ==> w[i] in w;
  }

  /** Trees shrink by just that surface. */
  lemma {:induction false} LostTree(s: Scene, y: Sid, x: Sid)
    requires Forest(s) && Leaf(s, x) && y in s.parent && y != x && Forest(Lost(s, x))
    ensures Tree(Lost(s, x), y) == Without(Tree(s, y), x)
    decreases s.next - y, 0
  {
    LostChildren(s, x, y);
    LostTrees(s, y + 1, s.children[y], x, y);
    var below := Trees(s, y + 1, s.children[y]);
    assert Tree(s, y) == [y] + below && ([y] + below)[1..] == below;
  }

  lemma {:induction false} LostTrees(s: Scene, low: Sid, q: seq<Sid>, x: Sid, p: Sid)
    requires Forest(s) && Leaf(s, x) && low <= s.next && NoDups(q) && Forest(Lost(s, x))
    requires forall i :: 0 <= i < |q| ==> q[i] in s.parent && low <= q[i] && s.parent[q[i]] == p
    ensures forall i :: 0 <= i < |Without(q, x)| ==> Without(q, x)[i] in Lost(s, x).parent && low <= Without(q, x)[i]
    ensures Trees(Lost(s, x), low, Without(q, x)) == Without(Trees(s, low, q), x)
    decreases s.next - low, |q| + 1
  {
    LostFits(s, low, q, x);
    if q != [] {
      hide Tree, Trees, Forest, Leaf, Lost, Under;
      LostTrees(s, low, q[1..], x, p);
      if q[0] == x {
        WithoutOne(q[1..], x);
        LostHead(s, low, q, x);
        NotTwice(s, low, q, x, p);
      } else {
        LostTree(s, q[0], x);
        LostLater(s, low, q, x, p);
      }
    }
  }

  /** The first tree stays, less x if it is in there, and x goes from the others. */
  lemma LostLater(s: Scene, low: Sid, q: seq<Sid>, x: Sid, p: Sid)
    requires Forest(s) && Leaf(s, x) && low <= s.next && NoDups(q) && Forest(Lost(s, x)) && q != [] && q[0] != x
    requires forall i :: 0 <= i < |q| ==> q[i] in s.parent && low <= q[i] && s.parent[q[i]] == p
    requires forall i :: 0 <= i < |Without(q, x)| ==> Without(q, x)[i] in Lost(s, x).parent && low <= Without(q, x)[i]
    requires forall i :: 0 <= i < |Without(q[1..], x)| ==> Without(q[1..], x)[i] in Lost(s, x).parent && low <= Without(q[1..], x)[i]
    requires Tree(Lost(s, x), q[0]) == Without(Tree(s, q[0]), x)
    requires Trees(Lost(s, x), low, Without(q[1..], x)) == Without(Trees(s, low, q[1..]), x)
    ensures Trees(Lost(s, x), low, Without(q, x)) == Without(Trees(s, low, q), x)
  {
    TreesMembers(s, low, q, p);
    hide Forest, Leaf, Lost;
    DisjointHalves(Tree(s, q[0]), Trees(s, low, q[1..]), x);
    assert Without(q, x)[1..] == Without(q[1..], x);
  }

  lemma NotTwice(s: Scene, low: Sid, q: seq<Sid>, x: Sid, p: Sid)
    requires Forest(s) && low <= s.next && NoDups(q) && q != [] && q[0] == x
    requires forall i :: 0 <= i < |q| ==> q[i] in s.parent && low <= q[i] && s.parent[q[i]] == p
    ensures Without(Trees(s, low, q[1..]), x) == Trees(s, low, q[1..])
  {
    TreesMembers(s, low, q[1..], p);
    forall c | c in q[1..] ensures !Under(s, x, c) {
      Apart(s, x, x, c);
    }
    WithoutOne(Trees(s, low, q[1..]), x);
  }

  lemma LostHead(s: Scene, low: Sid, q: seq<Sid>, x: Sid)
    requires Forest(s) && Leaf(s, x) && low <= s.next && q != [] && q[0] == x && x !in q[1..]
    requires forall i :: 0 <= i < |q| ==> q[i] in s.parent && low <= q[i]
    ensures Without(Trees(s, low, q), x) == Trees(s, low, q[1..]) && Without(q, x) == q[1..]
  {
    assert Trees(s, x + 1, s.children[x]) == [];
    assert Tree(s, x) == [x];
  }

  lemma DisjointHalves(first: seq<Sid>, rest: seq<Sid>, x: Sid)
    requires NoDups(first + rest)
    ensures Without(first + rest, x) == Without(first, x) + Without(rest, x)
  {
    WithoutConcat(first, rest, x);
    forall y | y in first ensures y !in rest {
      var i :| 0 <= i < |first| && first[i] == y;
      assert (first + rest)[i] == y;
      assert forall j :: 0 <= j < |rest| ==> (first + rest)[|first| + j] == rest[j];
    }
    assert NoDups(first) by { assert forall i :: 0 <= i < |first| ==> (first + rest)[i] == first[i]; }
    assert NoDups(rest) by { assert forall j :: 0 <= j < |rest| ==> (first + rest)[|first| + j] == rest[j]; }
    WithoutOne(first, x);
    WithoutOne(rest, x);
  }

  lemma {:induction false} TopsWithout(parent: map<Sid, Sid>, z: seq<Sid>, x: Sid)
    requires NoDups(z)
    ensures Tops(parent - {x}, Without(z, x)) == Without(Tops(parent, z), x)
  {
    if z != [] {
      assert NoDups(z[1..]) && z[0] !in z[1..];
      TopsWithout(parent, z[1..], x);
      if z[0] == x {
        TopsMembers(parent, z[1..]);
        WithoutOne(Tops(parent, z[1..]), x);
        WithoutOne(z[1..], x);
        if x in parent && parent[x] == 0 {
          assert Tops(parent, z)[1..] == Tops(parent, z[1..]);
        } else {
          assert Tops(parent, z) == Tops(parent, z[1..]);
        }
      } else {
        assert Without(z, x)[1..] == Without(z[1..], x);
        if z[0] in parent && parent[z[0]] == 0 {
          assert Tops(parent, z)[1..] == Tops(parent, z[1..]);
        } else {
          assert Tops(parent, z) == Tops(parent, z[1..]);
          assert Tops(parent - {x}, Without(z, x)) == Tops(parent - {x}, Without(z[1..], x));
        }
      }
    }
  }

  lemma {:induction false} AscendingWithout(layer: map<Sid, Layer>, z: seq<Sid>, x: Sid)
    requires Ascending(layer, z)
    ensures Ascending(layer - {x}, Without(z, x))
    ensures forall y :: y in Without(z, x) ==> y in z
  {
    if z != [] && z[0] != x {
      assert Ascending(layer, z[1..]);
      AscendingWithout(layer, z[1..], x);
      var rest := Without(z[1..], x);
      forall i, j | 0 <= i < j < |rest| + 1 && ([z[0]] + rest)[i] in layer - {x} && ([z[0]] + rest)[j] in layer - {x}
        ensures (layer - {x})[([z[0]] + rest)[i]] <= (layer - {x})[([z[0]] + rest)[j]]
      {
        assert ([z[0]] + rest)[j] == rest[j - 1] && rest[j - 1] in rest;
        if i == 0 {
          var k :| 0 <= k < |z[1..]| && z[1..][k] == rest[j - 1];
          assert z[k + 1] == rest[j - 1];
        } else {
          assert ([z[0]] + rest)[i] == rest[i - 1];
        }
      }
    }
  }

  lemma LostTops(s: Scene, layer: map<Sid, Layer>, z: seq<Sid>, x: Sid)
    requires Normal(s, layer, z) && Leaf(s, x)
    ensures Forest(Lost(s, x)) && Lists(Lost(s, x), Without(z, x))
    ensures Tops(Lost(s, x).parent, Without(z, x)) == Without(Tops(s.parent, z), x)
    ensures Ascending(layer - {x}, Without(Tops(s.parent, z), x))
  {
    LostForest(s, x);
    WithoutOne(z, x);
    TopsWithout(s.parent, z, x);
    AscendingWithout(layer, Tops(s.parent, z), x);
  }

  lemma LostFlat(s: Scene, z: seq<Sid>, x: Sid)
    requires Forest(s) && Lists(s, z) && Leaf(s, x) && Forest(Lost(s, x))
    requires (forall i :: 0 <= i < |Tops(s.parent, z)| ==> Tops(s.parent, z)[i] in s.parent) && z == Flat(s, Tops(s.parent, z))
    ensures var w := Without(Tops(s.parent, z), x);
            (forall i :: 0 <= i < |w| ==> w[i] in Lost(s, x).parent) && Without(z, x) == Flat(Lost(s, x), w)
  {
    TopsFit(s, z);
    TopsMembers(s.parent, z);
    LostTrees(s, 1, Tops(s.parent, z), x, 0);
  }

  /** A stacking stays normal when a leaf goes. */
  lemma LostNormal(s: Scene, layer: map<Sid, Layer>, z: seq<Sid>, x: Sid)
    requires Normal(s, layer, z) && Leaf(s, x)
    ensures Normal(Lost(s, x), layer - {x}, Without(z, x))
  {
    LostTops(s, layer, z, x);
    LostFlat(s, z, x);
    forall y | y in s.parent && y != x ensures s.parent[y] != x {
      assert s.parent[y] != 0 ==> y in s.children[s.parent[y]];
    }
    hide Forest, Lists, Ascending, Flat, Tops, Without;
  }

  // ---- roots and layers ----------------------------------------------------------------------------

  ghost function RootOf(s: Scene, x: Sid): (r: Sid)
    requires Forest(s) && x in s.parent
    ensures r in s.parent && s.parent[r] == 0 && Under(s, x, r)
    decreases x
  {
    if s.parent[x] == 0 then x else RootOf(s, s.parent[x])
  }

  lemma {:induction false} OneRoot(s: Scene, x: Sid, r: Sid)
    requires Forest(s) && x in s.parent && r in s.parent && s.parent[r] == 0 && Under(s, x, r)
    ensures RootOf(s, x) == r
    decreases x
  {
    if x != r { OneRoot(s, s.parent[x], r); }
  }

  /** Every surface on its root's layer. */
  ghost predicate Rooted(s: Scene, before: map<Sid, Layer>, layer: map<Sid, Layer>)
    requires Forest(s) && before.Keys == layer.Keys == s.parent.Keys
  {
    forall x :: x in s.parent ==> layer[x] == before[RootOf(s, x)]
  }

  lemma RootedIsNormal(s: Scene, before: map<Sid, Layer>, z: seq<Sid>, layer: map<Sid, Layer>)
    requires Forest(s) && before.Keys == layer.Keys == s.parent.Keys && Lists(s, z) && Rooted(s, before, layer)
    ensures Normal(s, layer, Normalized(s, before, z))
  {
    ByRoot(s, before, layer);
    NormalizedIsNormal(s, before, z, layer);
  }

  /** Normalising a scene whose layers are in order leaves them alone. */
  lemma LayersStay(s: Scene, before: map<Sid, Layer>, z: seq<Sid>, layer: map<Sid, Layer>)
    requires Normal(s, before, z) && layer.Keys == before.Keys && Rooted(s, before, layer)
    ensures layer == before
  {
    forall x | x in s.parent ensures layer[x] == before[x] {
      RootLayer(s, before, z, x, RootOf(s, x));
    }
  }

  /** The trees of the top-level surfaces of z. */
  ghost function FlatTops(s: Scene, z: seq<Sid>): seq<Sid>
    requires Forest(s)
  {
    TopsFit(s, z);
    Flat(s, Tops(s.parent, z))
  }

  lemma FlatTopsNone(s: Scene)
    requires Forest(s)
    ensures FlatTops(s, []) == []
  {
  }

  lemma FlatTopsCons(s: Scene, z: seq<Sid>)
    requires Forest(s) && z != [] && z[0] in s.parent
    ensures FlatTops(s, z) == (if s.parent[z[0]] == 0 then Tree(s, z[0]) else []) + FlatTops(s, z[1..])
  {
    if s.parent[z[0]] == 0 {
      assert Tops(s.parent, z)[1..] == Tops(s.parent, z[1..]);
    } else {
      assert Tops(s.parent, z) == Tops(s.parent, z[1..]);
    }
  }

  lemma TreeRoots(s: Scene, t: Sid)
    requires Forest(s) && t in s.parent && s.parent[t] == 0
    ensures RootOf(s, t) == t && forall y :: y in Tree(s, t) ==> y in s.parent && RootOf(s, y) == t
  {
    TreeMembers(s, t);
    forall y | y in Tree(s, t) ensures y in s.parent && RootOf(s, y) == t {
      OneRoot(s, y, t);
    }
  }

  lemma NormalIsValid(s: Scene, layer: map<Sid, Layer>, z: seq<Sid>)
    requires Normal(s, layer, z)
    ensures Forest(s) && layer.Keys == s.parent.Keys && Lists(s, z)
    ensures forall x :: x in s.parent ==> z != [] && x in s.children && x < s.next
  {
  }

  lemma Moved(s: Scene, z: seq<Sid>, x: Sid)
    requires Lists(s, z) && x in s.parent
    ensures Lists(s, Without(z, x) + [x]) && Lists(s, [x] + Without(z, x))
  {
    WithoutOne(z, x);
  }

  // ---- what raising, lowering and changing layers mean ---------------------------------------------

  /** The top-level surfaces of one layer, lowest first. */
  function LayerTops(s: Scene, layer: map<Sid, Layer>, z: seq<Sid>, l: Layer): seq<Sid> {
    Band(layer, Tops(s.parent, z), l)
  }

  /** root has come to the top of its layer, or to the bottom, and nothing else has moved. */
  ghost predicate Raised(s: Scene, layer: map<Sid, Layer>, z: seq<Sid>, z': seq<Sid>, root: Sid) {
    forall l :: LayerTops(s, layer, z', l) ==
      if root in layer && layer[root] == l then Without(LayerTops(s, layer, z, l), root) + [root] else LayerTops(s, layer, z, l)
  }

  ghost predicate Lowered(s: Scene, layer: map<Sid, Layer>, z: seq<Sid>, z': seq<Sid>, root: Sid) {
    forall l :: LayerTops(s, layer, z', l) ==
      if root in layer && layer[root] == l then [root] + Without(LayerTops(s, layer, z, l), root) else LayerTops(s, layer, z, l)
  }

  lemma {:induction false} BandWithout(layer: map<Sid, Layer>, q: seq<Sid>, x: Sid, l: Layer)
    ensures Band(layer, Without(q, x), l) ==
      if x in layer && layer[x] == l then Without(Band(layer, q, l), x) else Band(layer, q, l)
  {
    if q != [] && q[0] != x {
      BandWithout(layer, q[1..], x, l);
      var rest := Without(q[1..], x);
      assert ([q[0]] + rest)[1..] == rest;
      if q[0] in layer && layer[q[0]] == l {
        assert Band(layer, q, l)[1..] == Band(layer, q[1..], l);
      } else {
        assert Band(layer, q, l) == Band(layer, q[1..], l);
      }
    } else if q != [] && x in layer && layer[x] == l {
      assert Band(layer, q, l)[1..] == Band(layer, q[1..], l);
    }
  }

  lemma {:induction false} TopsLess(parent: map<Sid, Sid>, z: seq<Sid>, x: Sid)
    requires x in parent && parent[x] == 0
    ensures Tops(parent, Without(z, x)) == Without(Tops(parent, z), x)
  {
    if z != [] && z[0] != x {
      TopsLess(parent, z[1..], x);
      var rest := Without(z[1..], x);
      assert ([z[0]] + rest)[1..] == rest;
      if z[0] in parent && parent[z[0]] == 0 {
        assert Tops(parent, z)[1..] == Tops(parent, z[1..]);
      } else {
        assert Tops(parent, z) == Tops(parent, z[1..]);
      }
    } else if z != [] {
      assert Tops(parent, z)[1..] == Tops(parent, z[1..]);
    }
  }

  lemma OneTop(s: Scene, layer: map<Sid, Layer>, x: Sid, l: Layer)
    requires x in s.parent && s.parent[x] == 0 && x in layer
    ensures Tops(s.parent, [x]) == [x] && Band(layer, [x], l) == if layer[x] == l then [x] else []
  {
    assert [x][1..] == [];
  }

  lemma RaisedBy(s: Scene, layer: map<Sid, Layer>, z: seq<Sid>, root: Sid)
    requires root in s.parent && s.parent[root] == 0 && root in layer
    ensures Raised(s, layer, z, Without(z, root) + [root], root)
    ensures Lowered(s, layer, z, [root] + Without(z, root), root)
  {
    TopsLess(s.parent, z, root);
    TopsConcat(s.parent, Without(z, root), [root]);
    TopsConcat(s.parent, [root], Without(z, root));
    forall l
      ensures LayerTops(s, layer, Without(z, root) + [root], l) ==
        if layer[root] == l then Without(LayerTops(s, layer, z, l), root) + [root] else LayerTops(s, layer, z, l)
      ensures LayerTops(s, layer, [root] + Without(z, root), l) ==
        if layer[root] == l then [root] + Without(LayerTops(s, layer, z, l), root) else LayerTops(s, layer, z, l)
    {
      OneTop(s, layer, root, l);
      BandWithout(layer, Tops(s.parent, z), root, l);
      BandConcat(layer, Without(Tops(s.parent, z), root), [root], l);
      BandConcat(layer, [root], Without(Tops(s.parent, z), root), l);
    }
  }

  /** Normalising keeps the order within each layer. */
  lemma NormalizedKeepsTops(s: Scene, layer: map<Sid, Layer>, z: seq<Sid>, z': seq<Sid>)
    requires Normal(s, layer, z) && Lists(s, z')
    ensures forall l :: LayerTops(s, layer, Normalized(s, layer, z'), l) == LayerTops(s, layer, z', l)
  {
    hide Forest, Lists, Ascending, Flat, Normalized, Band, Tops;
    NormalLayers(s, layer, z);
    NormalizedIsNormal(s, layer, z', layer);
  }

  lemma NormalLayers(s: Scene, layer: map<Sid, Layer>, z: seq<Sid>)
    requires Normal(s, layer, z)
    ensures Forest(s) && layer.Keys == s.parent.Keys
    ensures forall x :: x in s.parent && s.parent[x] != 0 ==> s.parent[x] in s.parent && layer[x] == layer[s.parent[x]]
  {
    ForestTops(s);
  }

  /** The topmost surface is already as high as it can be. */
  lemma RaisedAlready(s: Scene, layer: map<Sid, Layer>, z: seq<Sid>, root: Sid)
    requires Normal(s, layer, z) && root in s.parent && s.parent[root] == 0 && z != [] && z[|z| - 1] == root
    ensures Raised(s, layer, z, z, root)
  {
    NormalIsValid(s, layer, z);
    LastOut(z);
    RaisedBy(s, layer, z, root);
  }

  lemma RaisedNormally(s: Scene, layer: map<Sid, Layer>, z: seq<Sid>, root: Sid)
    requires Normal(s, layer, z) && root in s.parent && s.parent[root] == 0
    ensures Raised(s, layer, z, Normalized(s, layer, Without(z, root) + [root]), root)
    ensures Lowered(s, layer, z, Normalized(s, layer, [root] + Without(z, root)), root)
  {
    hide Normal, Lists, Normalized, Without, LayerTops;
    NormalIsValid(s, layer, z);
    Moved(s, z, root);
    RaisedBy(s, layer, z, root);
    NormalizedKeepsTops(s, layer, z, Without(z, root) + [root]);
    NormalizedKeepsTops(s, layer, z, [root] + Without(z, root));
  }

  lemma {:induction false} LastOut(z: seq<Sid>)
    requires NoDups(z) && z != []
    ensures Without(z, z[|z| - 1]) + [z[|z| - 1]] == z
  {
    if |z| > 1 {
      LastOut(z[1..]);
      assert z[0] != z[|z| - 1];
      assert z[1..][|z| - 2] == z[|z| - 1];
      assert z == [z[0]] + z[1..];
    }
  }

  /** root has left its layer for l: coming from below it is the lowest there, from above the
      highest. */
  ghost predicate Relayered(s: Scene, layer: map<Sid, Layer>, z: seq<Sid>, z': seq<Sid>, root: Sid, l: Layer)
    requires root in layer
  {
    forall m :: LayerTops(s, layer[root := l], z', m) ==
      var others := Without(LayerTops(s, layer, z, m), root);
      if m == l && layer[root] < l then [root] + others
      else if m == l && layer[root] > l then others + [root]
      else if m == l then LayerTops(s, layer, z, m)
      else others
  }

  lemma {:induction false} BandElsewhere(layer: map<Sid, Layer>, q: seq<Sid>, root: Sid, l: Layer, m: Layer)
    requires root !in q
    ensures Band(layer[root := l], q, m) == Band(layer, q, m)
  {
    if q != [] { BandElsewhere(layer, q[1..], root, l, m); }
  }

  lemma {:induction false} BandNone(layer: map<Sid, Layer>, q: seq<Sid>, m: Layer)
    requires forall i :: 0 <= i < |q| ==> q[i] in layer && layer[q[i]] != m
    ensures Band(layer, q, m) == []
  {
    if q != [] { BandNone(layer, q[1..], m); }
  }

  /** A sequence around the place of x. */
  lemma {:induction false} Around(q: seq<Sid>, x: Sid) returns (a: seq<Sid>, b: seq<Sid>)
    requires NoDups(q) && x in q
    ensures q == a + [x] + b && x !in a && x !in b && Without(q, x) == a + b
  {
    if q[0] == x {
      a, b := [], q[1..];
      assert q == [] + [x] + b;
    } else {
      assert NoDups(q[1..]);
      a, b := Around(q[1..], x);
      hide NoDups;
      assert q == [q[0]] + q[1..];
      Prepend(q[0], a + [x], b);
      Prepend(q[0], a, [x]);
      Prepend(q[0], a, b);
      a := [q[0]] + a;
    }
  }

  /** A band without root, and with it where it would be. */
  lemma BandParts(layer: map<Sid, Layer>, q: seq<Sid>, a: seq<Sid>, b: seq<Sid>, root: Sid, l: Layer, m: Layer)
    requires NoDups(q) && q == a + [root] + b && root !in a && root !in b && Without(q, root) == a + b && root in layer
    ensures Without(Band(layer, q, m), root) == Band(layer, a, m) + Band(layer, b, m)
    ensures Band(layer[root := l], q, m) == Band(layer, a, m) + (if m == l then [root] else []) + Band(layer, b, m)
  {
    hide Band, Without;
    BandMembers(layer, q, m);
    WithoutOne(Band(layer, q, m), root);
    BandWithout(layer, q, root, m);
    BandConcat(layer, a, b, m);
    BandAround(layer[root := l], a, b, root, m);
    BandElsewhere(layer, a, root, l, m);
    BandElsewhere(layer, b, root, l, m);
  }

  lemma OneSided(layer: map<Sid, Layer>, a: seq<Sid>, b: seq<Sid>, root: Sid, l: Layer)
    requires Ascending(layer, a + [root] + b) && root in layer
    requires (forall i :: 0 <= i < |a| ==> a[i] in layer) && (forall i :: 0 <= i < |b| ==> b[i] in layer)
    ensures layer[root] < l ==> Band(layer, a, l) == []
    ensures layer[root] > l ==> Band(layer, b, l) == []
  {
    var q := a + [root] + b;
    assert q[|a|] == root;
    if layer[root] < l {
      forall i | 0 <= i < |a| ensures layer[a[i]] != l { assert q[i] == a[i]; }
      BandNone(layer, a, l);
    }
    if layer[root] > l {
      forall i | 0 <= i < |b| ensures layer[b[i]] != l { assert q[|a| + 1 + i] == b[i]; }
      BandNone(layer, b, l);
    }
  }

  lemma BandsMove(layer: map<Sid, Layer>, q: seq<Sid>, root: Sid, l: Layer, m: Layer)
    requires NoDups(q) && Ascending(layer, q) && root in q && root in layer && forall i :: 0 <= i < |q| ==> q[i] in layer
    ensures Band(layer[root := l], q, m) ==
      var others := Without(Band(layer, q, m), root);
      if m == l && layer[root] < l then [root] + others
      else if m == l && layer[root] > l then others + [root]
      else if m == l then Band(layer, q, m)
      else others
  {
    hide Band, Without, Ascending, NoDups;
    var a, b := Around(q, root);
    assert forall i :: 0 <= i < |a| ==> q[i] == a[i];
    assert forall i :: 0 <= i < |b| ==> q[|a| + 1 + i] == b[i];
    BandParts(layer, q, a, b, root, l, m);
    OneSided(layer, a, b, root, l);
    if layer[root] == l { assert layer[root := l] == layer; }
    if m == l && layer[root] > l { assert Band(layer, a, l) + [root] + [] == Band(layer, a, l) + [] + [root]; }
  }

  lemma BandAround(layer: map<Sid, Layer>, a: seq<Sid>, b: seq<Sid>, x: Sid, m: Layer)
    requires x in layer
    ensures Band(layer, a + [x] + b, m) == Band(layer, a, m) + (if layer[x] == m then [x] else []) + Band(layer, b, m)
  {
    BandConcat(layer, a + [x], b, m);
    BandConcat(layer, a, [x], m);
    assert [x][1..] == [];
    assert Band(layer, [x], m) == if layer[x] == m then [x] else [];
  }

  lemma RelayeredNormally(s: Scene, layer: map<Sid, Layer>, z: seq<Sid>, root: Sid, l: Layer)
    requires Normal(s, layer, z) && root in s.parent && s.parent[root] == 0
    ensures Relayered(s, layer, z, Normalized(s, layer[root := l], z), root, l)
  {
    hide Forest, Normalized, Band, Tops, Without, RootOf, Ascending, Lists, Flat;
    NormalTops(s, layer, z);
    forall m {:trigger LayerTops(s, layer, z, m)}
      ensures LayerTops(s, layer[root := l], Normalized(s, layer[root := l], z), m) ==
        var others := Without(LayerTops(s, layer, z, m), root);
        if m == l && layer[root] < l then [root] + others
        else if m == l && layer[root] > l then others + [root]
        else if m == l then LayerTops(s, layer, z, m)
        else others
    {
      RelayeredTops(s, layer, z, root, l, m);
      BandsMove(layer, Tops(s.parent, z), root, l, m);
    }
  }

  lemma NormalTops(s: Scene, layer: map<Sid, Layer>, z: seq<Sid>)
    requires Normal(s, layer, z)
    ensures var q := Tops(s.parent, z);
      && NoDups(q) && Ascending(layer, q) && (forall i :: 0 <= i < |q| ==> q[i] in layer)
      && forall x :: x in s.parent && s.parent[x] == 0 ==> x in q
  {
    TopsMembers(s.parent, z);
  }

  lemma RelayeredTops(s: Scene, layer: map<Sid, Layer>, z: seq<Sid>, root: Sid, l: Layer, m: Layer)
    requires Normal(s, layer, z) && root in s.parent && s.parent[root] == 0
    ensures root in layer
    ensures LayerTops(s, layer[root := l], Normalized(s, layer[root := l], z), m) == Band(layer[root := l], Tops(s.parent, z), m)
  {
    hide Normalized, Band, Tops, Ascending, Lists, Flat;
    NormalIsValid(s, layer, z);
    var before := layer[root := l];
    var after := map x | x in s.parent :: before[RootOf(s, x)];
    ByRoot(s, before, after);
    NormalizedIsNormal(s, before, z, after);
  }

  lemma ByRoot(s: Scene, before: map<Sid, Layer>, layer: map<Sid, Layer>)
    requires Forest(s) && before.Keys == layer.Keys == s.parent.Keys && Rooted(s, before, layer)
    ensures forall x :: x in s.parent ==> layer[x] == if s.parent[x] == 0 then before[x] else layer[s.parent[x]]
  {
    forall x | x in s.parent ensures layer[x] == if s.parent[x] == 0 then before[x] else layer[s.parent[x]] {
      assert s.parent[x] != 0 ==> RootOf(s, x) == RootOf(s, s.parent[x]);
    }
  }

  lemma LayersByRoot(s: Scene, layer: map<Sid, Layer>, z: seq<Sid>)
    requires Normal(s, layer, z)
    ensures forall y :: y in s.parent ==> layer[y] == layer[RootOf(s, y)]
  {
    forall y | y in s.parent ensures layer[y] == layer[RootOf(s, y)] {
      RootLayer(s, layer, z, y, RootOf(s, y));
    }
  }

  /** The tree of root is on layer l, and everything else where it was. */
  ghost predicate OnLayer(s: Scene, before: map<Sid, Layer>, root: Sid, l: Layer, layer: map<Sid, Layer>)
    requires Forest(s) && before.Keys == layer.Keys == s.parent.Keys
  {
    forall y :: y in layer ==> layer[y] == if RootOf(s, y) == root then l else before[y]
  }

  /** Putting a root on a layer moves exactly its tree. */
  lemma TreeMoves(s: Scene, before: map<Sid, Layer>, z: seq<Sid>, root: Sid, l: Layer, layer: map<Sid, Layer>)
    requires Normal(s, before, z) && root in s.parent && s.parent[root] == 0 && layer.Keys == before.Keys
    requires Rooted(s, before[root := l], layer)
    ensures OnLayer(s, before, root, l, layer)
  {
    LayersByRoot(s, before, z);
  }

  lemma NoMove(s: Scene, layer: map<Sid, Layer>, z: seq<Sid>, root: Sid)
    requires Normal(s, layer, z) && root in s.parent
    ensures z == Normalized(s, layer[root := layer[root]], z)
    ensures OnLayer(s, layer, root, layer[root], layer)
  {
    NormalizeTwice(s, layer, z);
    assert layer[root := layer[root]] == layer;
    LayersByRoot(s, layer, z);
  }

  lemma {:induction false} SameRoot(s: Scene, t: Scene, y: Sid)
    requires Forest(s) && Forest(t) && y in s.parent && s.parent.Keys <= t.parent.Keys
    requires forall x :: x in s.parent ==> t.parent[x] == s.parent[x]
    ensures RootOf(t, y) == RootOf(s, y)
    decreases y
  {
    if s.parent[y] != 0 { SameRoot(s, t, s.parent[y]); }
  }

  lemma OldLayersStay(s: Scene, before: map<Sid, Layer>, z: seq<Sid>, p: Sid, layer: map<Sid, Layer>)
    requires Normal(s, before, z) && Forest(Grown(s, p)) && s.next !in s.parent
    requires layer.Keys == before.Keys + {s.next} && Rooted(Grown(s, p), before[s.next := 0], layer)
    ensures forall y :: y in s.parent ==> layer[y] == before[y]
  {
    forall y | y in s.parent ensures layer[y] == before[y] {
      SameRoot(s, Grown(s, p), y);
      RootLayer(s, before, z, y, RootOf(s, y));
    }
  }

  /** Destroying a child of sid takes away only what is under sid, and shortens its list. */
  lemma ChildGone(m: Scene, z: seq<Sid>, l: map<Sid, Layer>, t: Scene, w: seq<Sid>, l': map<Sid, Layer>, sid: Sid, c: Sid)
    requires Forest(m) && sid in m.parent && c in m.parent && m.parent[c] == sid && c in m.children[sid]
    requires Remains(m, z, l, t, w, l') && forall y :: y in m.parent ==> (y in t.parent <==> !Under(m, y, c))
    ensures sid in t.parent && |t.children[sid]| < |m.children[sid]|
    ensures forall y :: y in m.parent && y !in t.parent ==> y != sid && Under(m, y, sid)
  {
    if Under(m, sid, c) { UnderIsYounger(m, sid, c); }
    assert c !in t.parent;
    KeptMembers(m.children[sid], t.parent.Keys);
    forall y | y in m.parent && y !in t.parent ensures Under(m, y, sid) {
      UnderTrans(m, y, c, sid);
    }
  }

  /** What was under sid in what remained was under it before. */
  lemma UnderBefore(s: Scene, z: seq<Sid>, l: map<Sid, Layer>, m: Scene, w: seq<Sid>, l': map<Sid, Layer>, sid: Sid)
    requires Forest(s) && Forest(m) && Remains(s, z, l, m, w, l')
    ensures forall y :: y in m.parent ==> (Under(m, y, sid) <==> Under(s, y, sid))
  {
    forall y | y in m.parent ensures Under(m, y, sid) <==> Under(s, y, sid) {
      SameUnder(s, m, y, sid);
    }
  }

  lemma FirstChild(m: Scene, sid: Sid)
    requires Forest(m) && sid in m.parent && m.children[sid] != []
    ensures var c := m.children[sid][0]; c in m.parent && m.parent[c] == sid && sid < c && c in m.children[sid]
  {
  }

  lemma AnchoredWithout(m: Scene, sid: Sid)
    requires sid in m.parent
    ensures |Anchored(m) - {sid}| == |Anchored(m)| - if m.parent[sid] != 0 then 1 else 0
  {
    if m.parent[sid] == 0 { assert Anchored(m) - {sid} == Anchored(m); }
  }

  lemma IsLeaf(m: Scene, sid: Sid)
    requires sid in m.parent && sid in m.children && m.children[sid] == []
    ensures Leaf(m, sid)
  {
  }

  lemma UnderSelf(s: Scene, sid: Sid)
    requires Forest(s) && sid in s.parent
    ensures Under(s, sid, sid)
  {
  }

  lemma OnlyItself(m: Scene, sid: Sid)
    requires Forest(m) && Leaf(m, sid)
    ensures forall y :: y in m.parent && Under(m, y, sid) ==> y == sid
  {
    forall y | y in m.parent && y != sid ensures !Under(m, y, sid) {
      if Under(m, y, sid) { StepDown(m, y, sid); }
    }
  }

  lemma AllRoots(s: Scene, layer: map<Sid, Layer>)
    requires Forest(s) && layer.Keys == s.parent.Keys && forall x :: x in s.parent ==> s.parent[x] == 0
    ensures Rooted(s, layer, layer)
  {
  }

  lemma AllRooted(s: Scene, before: map<Sid, Layer>, layer: map<Sid, Layer>, z: seq<Sid>)
    requires Forest(s) && before.Keys == layer.Keys == s.parent.Keys && forall y :: y in s.parent ==> y in z
    requires forall y :: y in s.parent && y in z ==> layer[y] == before[RootOf(s, y)]
    ensures Rooted(s, before, layer)
  {
  }

  /** What the sorted stacking contains, and what its trees make up. */
  lemma NormalizeFacts(s: Scene, layer: map<Sid, Layer>, z: seq<Sid>)
    requires Forest(s) && layer.Keys == s.parent.Keys && Lists(s, z)
    ensures forall i :: 0 <= i < |ByLayer(layer, z)| ==> ByLayer(layer, z)[i] in s.parent
    ensures FlatTops(s, ByLayer(layer, z)) == Normalized(s, layer, z)
    ensures forall y :: y in s.parent ==> y in Normalized(s, layer, z)
  {
    var w := ByLayer(layer, z);
    SortedByLayer(layer, z);
    assert forall i :: 0 <= i < |w| ==> w[i] in w;
    TopsByLayer(s.parent, layer, z);
    SortedTopsFit(s, layer, z);
    FlatLists(s, ByLayer(layer, Tops(s.parent, z)));
  }

  // ---- a new surface ---------------------------------------------------------------------------------

  /** The scene with a new surface, anchored to p unless p is 0. */
  function Grown(s: Scene, p: Sid): Scene {
    var c := if p in s.children then s.children[p := s.children[p] + [s.next]] else s.children;
    Scene(s.parent[s.next := p], c[s.next := []], s.next + 1)
  }

  lemma GrownChildren(s: Scene, p: Sid, y: Sid)
    requires Forest(s) && (p == 0 || p in s.parent) && y in s.parent
    ensures s.next !in s.parent && y in Grown(s, p).children
    ensures var q := Grown(s, p).children[y];
            && NoDups(q) && (forall i :: 0 <= i < |q| ==> if q[i] == s.next then y == p else q[i] in s.parent && s.parent[q[i]] == y)
            && (forall c :: c in s.children[y] ==> c in q) && (y == p ==> s.next in q)
  {
    assert forall i :: 0 <= i < |s.children[y]| ==> s.children[y][i] in s.parent;
  }

  lemma GrownForest(s: Scene, p: Sid)
    requires Forest(s) && (p == 0 || p in s.parent)
    ensures Forest(Grown(s, p)) && s.next !in s.parent
  {
    var t := Grown(s, p);
    assert s.next !in s.parent && 0 !in s.parent;
    assert t.parent.Keys == t.children.Keys == s.parent.Keys + {s.next};
    forall y | y in s.parent
      ensures NoDups(t.children[y]) && (t.parent[y] != 0 ==> t.parent[y] in t.parent && y in t.children[t.parent[y]])
      ensures forall i :: 0 <= i < |t.children[y]| ==> t.children[y][i] in t.parent && t.parent[t.children[y][i]] == y
    {
      GrownChildren(s, p, y);
      if t.parent[y] != 0 { GrownChildren(s, p, t.parent[y]); }
    }
    if p != 0 { GrownChildren(s, p, p); }
  }

  // ---- where a new surface comes ---------------------------------------------------------------------

  function Later(s: Scene): Scene { s.(next := s.next + 1) }

  /** Taking the new surface away again leaves what there was. */
  lemma GrownLost(s: Scene, p: Sid)
    requires Forest(s) && (p == 0 || p in s.parent)
    ensures Leaf(Grown(s, p), s.next) && Grown(s, p).parent.Keys == Grown(s, p).children.Keys
    ensures Lost(Grown(s, p), s.next) == Later(s)
  {
    var g, x := Grown(s, p), s.next;
    assert 0 !in s.parent && x !in s.parent;
    var l := Lost(g, x);
    assert l.parent == s.parent;
    if p != 0 {
      assert x !in s.children[p];
      WithoutEnd(s.children[p], x);
    }
    assert l.children == s.children;
  }

  lemma {:induction false} WithoutEnd(q: seq<Sid>, x: Sid)
    requires x !in q
    ensures Without(q + [x], x) == q
  {
    WithoutConcat(q, [x], x);
    assert [x][1..] == [];
  }

  /** Walks do not depend on the next number. */
  lemma {:induction false} TreeLater(s: Scene, x: Sid)
    requires Forest(s) && Forest(Later(s)) && x in s.parent
    ensures Tree(Later(s), x) == Tree(s, x)
    decreases s.next - x, 0
  {
    TreesLater(s, x + 1, s.children[x]);
  }

  lemma {:induction false} TreesLater(s: Scene, low: Sid, q: seq<Sid>)
    requires Forest(s) && Forest(Later(s)) && low <= s.next && forall i :: 0 <= i < |q| ==> q[i] in s.parent && low <= q[i]
    ensures Trees(Later(s), low, q) == Trees(s, low, q)
    decreases s.next - low, |q| + 1
  {
    if q != [] {
      TreeLater(s, q[0]);
      TreesLater(s, low, q[1..]);
    }
  }

  lemma {:induction false} TreesConcat(s: Scene, low: Sid, a: seq<Sid>, b: seq<Sid>)
    requires Forest(s) && low <= s.next && forall i :: 0 <= i < |a + b| ==> (a + b)[i] in s.parent && low <= (a + b)[i]
    ensures forall i :: 0 <= i < |a| ==> a[i] in s.parent && low <= a[i]
    ensures forall i :: 0 <= i < |b| ==> b[i] in s.parent && low <= b[i]
    ensures Trees(s, low, a + b) == Trees(s, low, a) + Trees(s, low, b)
  {
    assert forall i :: 0 <= i < |a| ==> a[i] == (a + b)[i];
    assert forall i :: 0 <= i < |b| ==> b[i] == (a + b)[|a| + i];
    if a == [] {
      assert a + b == b;
    } else {
      assert (a + b)[1..] == a[1..] + b;
      TreesConcat(s, low, a[1..], b);
    }
  }

  /** A new surface comes last in its anchor's tree. */
  lemma LastInTree(s: Scene, p: Sid)
    requires Forest(s) && p in s.parent
    ensures Forest(Grown(s, p)) && Tree(Grown(s, p), p) == Tree(s, p) + [s.next]
  {
    var g, x := Grown(s, p), s.next;
    GrownForest(s, p);
    GrownLost(s, p);
    LostForest(g, x);
    LostTree(g, p, x);
    TreeLater(s, p);
    TreeMembers(g, p);
    LastWalked(s, p);
    hide Tree, Forest, Lost;
    LastOut(Tree(g, p));
  }

  lemma LastWalked(s: Scene, p: Sid)
    requires Forest(s) && p in s.parent && Forest(Grown(s, p))
    ensures var t := Tree(Grown(s, p), p); t != [] && t[|t| - 1] == s.next
  {
    var g, x := Grown(s, p), s.next;
    GrownFits(s, p);
    hide Grown, Forest, Tree, Trees;
    TreesConcat(g, p + 1, s.children[p], [x]);
    OneTree(g, p + 1, x);
    TreeIs(g, p);
    TreeIs(g, x);
  }

  lemma GrownFits(s: Scene, p: Sid)
    requires Forest(s) && p in s.parent && Forest(Grown(s, p))
    ensures var g, x := Grown(s, p), s.next;
      && p in g.parent && x in g.parent && p < x < g.next && g.children[p] == s.children[p] + [x] && g.children[x] == []
      && forall i :: 0 <= i < |s.children[p]| ==> s.children[p][i] in g.parent && p + 1 <= s.children[p][i]
  {
  }

  lemma OneTree(s: Scene, low: Sid, x: Sid)
    requires Forest(s) && low <= s.next && x in s.parent && low <= x && s.children[x] == []
    ensures Trees(s, low, [x]) == Tree(s, x) == [x]
  {
    assert [x][1..] == [];
    assert Trees(s, low, [x]) == Tree(s, x) + Trees(s, low, []);
  }

  /** A tree is its root and the trees anchored to it. */
  lemma TreeIs(s: Scene, x: Sid)
    requires Forest(s) && x in s.parent
    ensures x in s.children && x + 1 <= s.next
    ensures forall i :: 0 <= i < |s.children[x]| ==> s.children[x][i] in s.parent && x + 1 <= s.children[x][i]
    ensures Tree(s, x) == [x] + Trees(s, x + 1, s.children[x])
  {
  }

  lemma {:induction false} TopsSame(a: map<Sid, Sid>, b: map<Sid, Sid>, z: seq<Sid>)
    requires forall x :: x in z ==> (x in a <==> x in b) && (x in a ==> a[x] == b[x])
    ensures Tops(a, z) == Tops(b, z)
  {
    if z != [] { TopsSame(a, b, z[1..]); }
  }

  lemma {:induction false} BandSame(a: map<Sid, Layer>, b: map<Sid, Layer>, q: seq<Sid>, l: Layer)
    requires forall x :: x in q ==> x in a && x in b && a[x] == b[x]
    ensures Band(a, q, l) == Band(b, q, l)
  {
    if q != [] { BandSame(a, b, q[1..], l); }
  }

  /** A top-level surface comes to the top of the middle layer. */
  lemma GrownBands(s: Scene, layer: map<Sid, Layer>, z: seq<Sid>, p: Sid, layer': map<Sid, Layer>, z': seq<Sid>, m: Layer)
    requires Normal(s, layer, z) && (p == 0 || p in s.parent) && Normal(Grown(s, p), layer', z')
    requires layer'.Keys == layer.Keys + {s.next} && (forall x :: x in layer ==> layer'[x] == layer[x]) && (p == 0 ==> layer'[s.next] == 0)
    requires z' == Normalized(Grown(s, p), layer[s.next := 0], z + [s.next])
    ensures LayerTops(Grown(s, p), layer', z', m) == LayerTops(s, layer, z, m) + if p == 0 && m == 0 then [s.next] else []
  {
    hide Normal, Normalized, Without, Band, Tops, Forest;
    var g, x := Grown(s, p), s.next;
    var b := layer[x := 0];
    NormalIsValid(s, layer, z);
    NormalizedBands(s, layer, z, p, layer', z', m);
    GrownTops(s, z, p);
    TopsMembers(s.parent, z);
    hide Grown, Lists;
    var own := if p == 0 then [x] else [];
    BandConcat(b, Tops(s.parent, z), own, m);
    BandElsewhere(layer, Tops(s.parent, z), x, 0, m);
    BandOfOne(b, x, m);
  }

  lemma BandOfOne(layer: map<Sid, Layer>, x: Sid, m: Layer)
    requires x in layer
    ensures Band(layer, [x], m) == (if layer[x] == m then [x] else []) && Band(layer, [], m) == []
  {
    assert [x][1..] == [];
  }

  lemma NormalizedBands(s: Scene, layer: map<Sid, Layer>, z: seq<Sid>, p: Sid, layer': map<Sid, Layer>, z': seq<Sid>, m: Layer)
    requires Normal(s, layer, z) && (p == 0 || p in s.parent) && Normal(Grown(s, p), layer', z')
    requires layer'.Keys == layer.Keys + {s.next} && (forall x :: x in layer ==> layer'[x] == layer[x]) && (p == 0 ==> layer'[s.next] == 0)
    requires z' == Normalized(Grown(s, p), layer[s.next := 0], z + [s.next])
    ensures Band(layer', Tops(Grown(s, p).parent, z'), m) == Band(layer[s.next := 0], Tops(Grown(s, p).parent, z + [s.next]), m)
  {
    hide Normalized, Ascending, Flat, Without, Band, Tops, Forest, Lists;
    var g, x := Grown(s, p), s.next;
    var b := layer[x := 0];
    NormalIsValid(s, layer, z);
    NormalIsValid(g, layer', z');
    GrownForest(s, p);
    GrownLists(s, p, z);
    NormalLayers(g, layer', z');
    NormalizedIsNormal(g, b, z + [x], layer');
    TopsMembers(g.parent, z');
    BandSame(layer', b, Tops(g.parent, z'), m);
  }

  lemma GrownTops(s: Scene, z: seq<Sid>, p: Sid)
    requires Lists(s, z) && s.next !in s.parent
    ensures Tops(Grown(s, p).parent, z + [s.next]) == Tops(s.parent, z) + if p == 0 then [s.next] else []
    ensures s.next !in Tops(s.parent, z)
  {
    var g, x := Grown(s, p), s.next;
    TopsConcat(g.parent, z, [x]);
    TopsSame(g.parent, s.parent, z);
    TopsMembers(s.parent, z);
    assert [x][1..] == [];
  }

  /** The others keep their order. */
  lemma GrownOrder(s: Scene, layer: map<Sid, Layer>, z: seq<Sid>, p: Sid, layer': map<Sid, Layer>, z': seq<Sid>)
    requires Normal(s, layer, z) && (p == 0 || p in s.parent) && Normal(Grown(s, p), layer', z')
    requires layer'.Keys == layer.Keys + {s.next} && (forall x :: x in layer ==> layer'[x] == layer[x]) && (p == 0 ==> layer'[s.next] == 0)
    requires z' == Normalized(Grown(s, p), layer[s.next := 0], z + [s.next])
    ensures Without(z', s.next) == z
  {
    var g, x := Grown(s, p), s.next;
    hide Normalized, Without, Band, Tops, Lost;
    GrownLost(s, p);
    NormalIsValid(s, layer, z);
    TopsShrink(s, layer, z, p, layer', z');
    LostTops(g, layer', z', x);
    LostNormal(g, layer', z', x);
    FlatLater(s, Tops(s.parent, z));
    SameFlat(Later(s), layer' - {x}, Without(z', x), Tops(s.parent, z));
    hide Forest, Flat, Ascending, Lists;
  }

  lemma SameFlat(s: Scene, layer: map<Sid, Layer>, z: seq<Sid>, ts: seq<Sid>)
    requires Normal(s, layer, z) && Tops(s.parent, z) == ts
    ensures (forall i :: 0 <= i < |ts| ==> ts[i] in s.parent) && z == Flat(s, ts)
  {
  }

  lemma FlatLater(s: Scene, ts: seq<Sid>)
    requires Forest(s) && forall i :: 0 <= i < |ts| ==> ts[i] in s.parent
    ensures Forest(Later(s)) && Flat(Later(s), ts) == Flat(s, ts)
  {
    TreesLater(s, 1, ts);
  }

  /** Without the new surface the top-level ones are in the order they were in. */
  lemma TopsShrink(s: Scene, layer: map<Sid, Layer>, z: seq<Sid>, p: Sid, layer': map<Sid, Layer>, z': seq<Sid>)
    requires Normal(s, layer, z) && (p == 0 || p in s.parent) && Normal(Grown(s, p), layer', z')
    requires layer'.Keys == layer.Keys + {s.next} && (forall x :: x in layer ==> layer'[x] == layer[x]) && (p == 0 ==> layer'[s.next] == 0)
    requires z' == Normalized(Grown(s, p), layer[s.next := 0], z + [s.next])
    ensures Without(Tops(Grown(s, p).parent, z'), s.next) == Tops(s.parent, z)
  {
    var g, x := Grown(s, p), s.next;
    hide Normalized, Without, Band, Tops, Flat;
    GrownBands(s, layer, z, p, layer', z', -1);
    GrownBands(s, layer, z, p, layer', z', 0);
    GrownBands(s, layer, z, p, layer', z', 1);
    NormalIsValid(s, layer, z);
    NormalIsValid(g, layer', z');
    TopsMembers(g.parent, z');
    TopsMembers(s.parent, z);
    SortedStays(layer', Tops(g.parent, z'));
    SortedStays(layer, Tops(s.parent, z));
    hide Forest, Lists, Ascending, Normal, Grown;
    var a, b, c := LayerTops(s, layer, z, -1), LayerTops(s, layer, z, 0), LayerTops(s, layer, z, 1);
    assert x !in Tops(s.parent, z);
    assert Tops(s.parent, z) == a + b + c;
    if p == 0 {
      assert Tops(g.parent, z') == (a + []) + (b + [x]) + (c + []) && a + [] == a && c + [] == c;
      OutOfMiddle(a, b, c, x);
    } else {
      assert a + [] == a && b + [] == b && c + [] == c;
      NotThere(Tops(s.parent, z), x);
    }
  }

  lemma NewLayer(s: Scene, before: map<Sid, Layer>, p: Sid, layer: map<Sid, Layer>)
    requires p == 0 && Forest(s) && s.next !in s.parent && before.Keys == s.parent.Keys
    requires Forest(Grown(s, p)) && layer.Keys == before.Keys + {s.next} && Rooted(Grown(s, p), before[s.next := 0], layer)
    ensures layer[s.next] == 0
  {
  }

  /** Where a new surface comes, and that nothing else moves. */
  lemma ComesLast(s: Scene, layer: map<Sid, Layer>, z: seq<Sid>, p: Sid, layer': map<Sid, Layer>, z': seq<Sid>)
    requires Normal(s, layer, z) && (p == 0 || p in s.parent) && Normal(Grown(s, p), layer', z')
    requires layer'.Keys == layer.Keys + {s.next} && (forall x :: x in layer ==> layer'[x] == layer[x]) && (p == 0 ==> layer'[s.next] == 0)
    requires z' == Normalized(Grown(s, p), layer[s.next := 0], z + [s.next])
    ensures Without(z', s.next) == z
    ensures p == 0 ==> forall m :: LayerTops(Grown(s, p), layer', z', m) == LayerTops(s, layer, z, m) + if m == 0 then [s.next] else []
    ensures p != 0 ==> Forest(s) && Forest(Grown(s, p)) && Tree(Grown(s, p), p) == Tree(s, p) + [s.next]
  {
    hide Normal, Normalized, Without, Tree, Grown, LayerTops, Forest;
    GrownOrder(s, layer, z, p, layer', z');
    NormalIsValid(s, layer, z);
    if p == 0 {
      forall m ensures LayerTops(Grown(s, p), layer', z', m) == LayerTops(s, layer, z, m) + if m == 0 then [s.next] else [] {
        GrownBands(s, layer, z, p, layer', z', m);
      }
    } else {
      LastInTree(s, p);
    }
  }

  lemma OutOfMiddle(a: seq<Sid>, b: seq<Sid>, c: seq<Sid>, x: Sid)
    requires x !in a + b + c
    ensures Without(a + (b + [x]) + c, x) == a + b + c
  {
    assert forall y :: y in a || y in b ==> y in a + b + c;
    WithoutEnd(a + b, x);
    assert a + (b + [x]) == (a + b) + [x];
    WithoutConcat(a + (b + [x]), c, x);
    assert x in a + (b + [x]) by { assert ((a + b) + [x])[|a + b|] == x; }
  }

  lemma {:induction false} NotThere(q: seq<Sid>, x: Sid)
    requires x !in q
    ensures Without(q, x) == q
  {
    if q != [] { NotThere(q[1..], x); }
  }

  lemma GrownAnchored(s: Scene, p: Sid)
    requires s.next !in s.parent
    ensures |Anchored(Grown(s, p))| == |Anchored(s)| + if p == 0 then 0 else 1
  {
    assert Anchored(Grown(s, p)) == Anchored(s) + if p == 0 then {} else {s.next};
  }

  lemma GrownLists(s: Scene, p: Sid, z: seq<Sid>)
    requires Lists(s, z) && s.next !in s.parent
    ensures Lists(Grown(s, p), z + [s.next])
  {
    assert forall i :: 0 <= i < |z| ==> z[i] in z;
  }

  // ---- destroying ------------------------------------------------------------------------------------

  /** The elements of q that are in k. */
  function Kept(q: seq<Sid>, k: set<Sid>): seq<Sid> {
    if q == [] then [] else (if q[0] in k then [q[0]] else []) + Kept(q[1..], k)
  }

  lemma {:induction false} KeptMembers(q: seq<Sid>, k: set<Sid>)
    ensures forall x :: x in Kept(q, k) <==> x in q && x in k
    ensures |Kept(q, k)| <= |q| && ((exists x :: x in q && x !in k) ==> |Kept(q, k)| < |q|)
    ensures (forall x :: x in q ==> x in k) ==> Kept(q, k) == q
  {
    if q != [] { KeptMembers(q[1..], k); }
  }

  lemma {:induction false} KeptTwice(q: seq<Sid>, k: set<Sid>, k': set<Sid>)
    requires k' <= k
    ensures Kept(Kept(q, k), k') == Kept(q, k')
  {
    if q != [] {
      KeptTwice(q[1..], k, k');
      if q[0] in k {
        assert Kept(q, k)[1..] == Kept(q[1..], k);
      } else {
        assert Kept(q, k) == Kept(q[1..], k);
      }
    }
  }

  lemma {:induction false} WithoutIsKept(q: seq<Sid>, x: Sid, k: set<Sid>)
    requires NoDups(q) && x !in k && forall y :: y in q ==> y == x || y in k
    ensures Without(q, x) == Kept(q, k)
  {
    if q != [] {
      assert NoDups(q[1..]) && q[0] !in q[1..];
      if q[0] == x {
        KeptMembers(q[1..], k);
      } else {
        WithoutIsKept(q[1..], x, k);
      }
    }
  }

  /** t is what is left of s when only the surfaces k remain. */
  ghost predicate Remains(s: Scene, z: seq<Sid>, layer: map<Sid, Layer>, t: Scene, w: seq<Sid>, layer': map<Sid, Layer>)
  {
    var k := t.parent.Keys;
    && k <= s.parent.Keys && t.next == s.next && k <= s.children.Keys && k <= layer.Keys
    && (forall y :: y in k ==> t.parent[y] == s.parent[y])
    && t.children.Keys == k && (forall y :: y in k ==> t.children[y] == Kept(s.children[y], k))
    && layer'.Keys == k && (forall y :: y in k ==> layer'[y] == layer[y])
    && w == Kept(z, k)
  }

  lemma RemainsTwice(s: Scene, z: seq<Sid>, l: map<Sid, Layer>, m: Scene, w: seq<Sid>, l': map<Sid, Layer>, t: Scene, v: seq<Sid>, l'': map<Sid, Layer>)
    requires Remains(s, z, l, m, w, l') && Remains(m, w, l', t, v, l'')
    ensures Remains(s, z, l, t, v, l'')
  {
    var k := t.parent.Keys;
    KeptTwice(z, m.parent.Keys, k);
    forall y | y in k ensures t.children[y] == Kept(s.children[y], k) {
      KeptTwice(s.children[y], m.parent.Keys, k);
    }
  }

  lemma RemainsSame(s: Scene, z: seq<Sid>, layer: map<Sid, Layer>)
    requires Forest(s) && Lists(s, z) && layer.Keys == s.parent.Keys
    ensures Remains(s, z, layer, s, z, layer)
  {
    KeptMembers(z, s.parent.Keys);
    forall y | y in s.parent ensures s.children[y] == Kept(s.children[y], s.parent.Keys) {
      KeptMembers(s.children[y], s.parent.Keys);
    }
  }

  lemma RemainsLost(s: Scene, z: seq<Sid>, layer: map<Sid, Layer>, x: Sid)
    requires Forest(s) && Lists(s, z) && layer.Keys == s.parent.Keys && Leaf(s, x)
    ensures Remains(s, z, layer, Lost(s, x), Without(z, x), layer - {x})
  {
    var k := Lost(s, x).parent.Keys;
    WithoutIsKept(z, x, k);
    forall y | y in k ensures y in Lost(s, x).children && Lost(s, x).children[y] == Kept(s.children[y], k) {
      LostChildren(s, x, y);
      WithoutIsKept(s.children[y], x, k);
    }
  }

  /** Among the surfaces that remain, what is under what does not change. */
  lemma {:induction false} SameUnder(s: Scene, t: Scene, y: Sid, r: Sid)
    requires Forest(s) && Forest(t) && y in t.parent && t.parent.Keys <= s.parent.Keys
    requires forall x :: x in t.parent ==> t.parent[x] == s.parent[x]
    ensures Under(t, y, r) <==> Under(s, y, r)
    decreases y
  {
    if y != r && s.parent[y] != 0 { SameUnder(s, t, s.parent[y], r); }
  }

  // ---- the window manager's scene --------------------------------------------------------------

  datatype Errno = EINVAL | EPERM
  datatype Outcome = Done | Failed(errno: Errno)

  lemma KidsFit(s: Scene, x: Sid)
    requires Forest(s) && x in s.parent
    ensures x in s.children && x < s.next
    ensures forall i :: 0 <= i < |s.children[x]| ==> s.children[x][i] in s.parent && x < s.children[x][i] < s.next
  {
  }

  class Wm {
    var parent: map<Sid, Sid>
    var children: map<Sid, seq<Sid>>
    var layer: map<Sid, Layer>
    var zOrder: seq<Sid>
    var anchoredN: nat
    var nextSid: Sid

    ghost function Now(): Scene
      reads this
    {
      Scene(parent, children, nextSid)
    }

    /** The tables fit together, though the stacking may have to be put in order. */
    ghost predicate Valid()
      reads this
    {
      Forest(Now()) && layer.Keys == parent.Keys && Lists(Now(), zOrder) && anchoredN == |Anchored(Now())|
    }

    ghost predicate Inv()
      reads this
    {
      Normal(Now(), layer, zOrder) && anchoredN == |Anchored(Now())|
    }

    constructor ()
      ensures Inv() && parent == map[] && zOrder == []
    {
      parent, children, layer, zOrder, anchoredN, nextSid := map[], map[], map[], [], 0, 1;
    }

    /** The inner function of _wmZNormalize: appends the tree of sid, putting it on the layer
        of sid. */
    method Emit(sid: Sid, before: seq<Sid>, was: set<Sid>) returns (out: seq<Sid>, seen: set<Sid>)
      requires Forest(Now()) && layer.Keys == parent.Keys && sid in parent
      modifies this`layer
      ensures layer.Keys == old(layer).Keys
      ensures out == before + Tree(Now(), sid) && seen == was + set y | y in Tree(Now(), sid)
      ensures forall y :: y in layer ==> layer[y] == if y in Tree(Now(), sid) then old(layer)[sid] else old(layer)[y]
      decreases nextSid - sid
    {
      hide Forest;
      ghost var s := Now();
      seen := was + {sid};
      out := before + [sid];
      ghost var mine := [sid];
      var i := 0;
      KidsFit(s, sid);
      while i < |children[sid]|
        invariant i <= |children[sid]| && layer.Keys == old(layer).Keys
        invariant out == before + mine && sid in mine
        invariant mine + Trees(s, sid + 1, children[sid][i..]) == Tree(s, sid)
        invariant seen == was + set y | y in mine
        invariant forall y :: y in layer ==> layer[y] == if y in mine then old(layer)[sid] else old(layer)[y]
      {
        var c := children[sid][i];
        assert children[sid][i..][1..] == children[sid][i + 1..];
        layer := layer[c := layer[sid]];
        out, seen := Emit(c, out, seen);
        mine := mine + Tree(s, c);
        i := i + 1;
      }
    }

    /** Re-sorts by layer and re-slots every anchored tree directly above its root. No surface
        can be missing from the trees, so there is nothing left to add at the end. */
    method ZNormalize()
      requires Valid()
      modifies this`layer, this`zOrder
      ensures Inv() && zOrder == Normalized(Now(), old(layer), old(zOrder))
      ensures layer.Keys == old(layer).Keys && Rooted(Now(), old(layer), layer)
    {
      hide Forest, Lists, Normal, Normalized, ByLayer, FlatTops, Rooted;
      ghost var s := Now();
      ghost var z := zOrder;
      NormalizeFacts(s, layer, z);
      zOrder := ByLayer(layer, zOrder);
      if anchoredN == 0 {
        NothingAnchored(s, layer, z);
        AllRoots(s, layer);
        RootedIsNormal(s, layer, z, layer);
        return;
      }
      zOrder := EmitAll();
      AllRooted(s, old(layer), layer, zOrder);
      RootedIsNormal(s, old(layer), z, layer);
    }

    /** The trees of the top-level surfaces, in order. */
    method EmitAll() returns (out: seq<Sid>)
      requires Forest(Now()) && layer.Keys == parent.Keys && forall i :: 0 <= i < |zOrder| ==> zOrder[i] in parent
      modifies this`layer
      ensures out == FlatTops(Now(), zOrder) && layer.Keys == old(layer).Keys
      ensures forall y :: y in layer ==> layer[y] == if y in out then old(layer)[RootOf(Now(), y)] else old(layer)[y]
    {
      hide Forest, FlatTops, Tree;
      ghost var s := Now();
      out := [];
      var seen := {};
      var i := 0;
      while i < |zOrder|
        invariant i <= |zOrder| && layer.Keys == old(layer).Keys
        invariant out + FlatTops(s, zOrder[i..]) == FlatTops(s, zOrder)
        invariant forall y :: y in layer ==> layer[y] == if y in out then old(layer)[RootOf(s, y)] else old(layer)[y]
      {
        var t := zOrder[i];
        FlatTopsCons(s, zOrder[i..]);
        assert zOrder[i..][1..] == zOrder[i + 1..];
        if parent[t] == 0 {
          TreeRoots(s, t);
          ghost var was := out;
          out, seen := Emit(t, out, seen);
          assert was + (Tree(s, t) + FlatTops(s, zOrder[i + 1..])) == out + FlatTops(s, zOrder[i + 1..]);
        }
        i := i + 1;
      }
      FlatTopsNone(s);
      assert zOrder[i..] == [];
    }

    /** _wmAnchorRoot: up to the top-level surface. */
    method AnchorRoot(sid: Sid) returns (root: Sid)
      requires Inv() && sid in parent
      ensures root == RootOf(Now(), sid)
    {
      root := sid;
      while parent[root] != 0
        invariant root in parent && RootOf(Now(), root) == RootOf(Now(), sid)
        decreases root
      {
        root := parent[root];
      }
    }

    /** SURFACE_CREATE; anchor is the parent named by an anchored surface's request, of which
        own says whether it belongs to the caller. */
    method CreateSurface(anchor: Option<Sid>, own: bool) returns (r: Option<Sid>)
      requires Inv()
      modifies this
      ensures Inv()
      ensures r.None? <==> anchor.Some? && !(anchor.value in old(parent) && own)
      ensures r.None? ==> Now() == old(Now()) && zOrder == old(zOrder) && layer == old(layer)
      ensures r.Some? ==>
        var sid, p := old(nextSid), if anchor.Some? then anchor.value else 0;
        && r.value == sid && sid !in old(parent) && Now() == Grown(old(Now()), p)
        && zOrder == Normalized(Now(), old(layer)[sid := 0], old(zOrder) + [sid])
        && (forall y :: y in old(layer) ==> layer[y] == old(layer)[y])
        && Without(zOrder, sid) == old(zOrder)
        && (if p == 0 then
              && layer[sid] == 0
              && forall m :: LayerTops(Now(), layer, zOrder, m) == LayerTops(old(Now()), old(layer), old(zOrder), m) + if m == 0 then [sid] else []
            else Forest(old(Now())) && Forest(Now()) && Tree(Now(), p) == Tree(old(Now()), p) + [sid])
    {
      hide Forest, Lists, Normal, Normalized, Rooted, Anchored, RootOf, Under, Raised, Lowered, Relayered, LayerTops, Tree, Without, Grown;
      NormalIsValid(Now(), layer, zOrder);
      if anchor.Some? && !(anchor.value in parent && own) { return None; }
      var p := if anchor.Some? then anchor.value else 0;
      var sid := nextSid;
      AddSurface(p);
      ZNormalize();
      OldLayersStay(old(Now()), old(layer), old(zOrder), p, layer);
      if p == 0 { NewLayer(old(Now()), old(layer), p, layer); }
      ComesLast(old(Now()), old(layer), old(zOrder), p, layer, zOrder);
      r := Some(sid);
    }

    method AddSurface(p: Sid)
      requires Valid() && (p == 0 || p in parent)
      modifies this
      ensures Valid() && Now() == Grown(old(Now()), p) && old(nextSid) !in old(parent)
      ensures layer == old(layer)[old(nextSid) := 0] && zOrder == old(zOrder) + [old(nextSid)]
    {
      hide Forest, Lists, Anchored;
      var sid := nextSid;
      GrownForest(Now(), p);
      GrownAnchored(Now(), p);
      GrownLists(Now(), p, zOrder);
      nextSid := nextSid + 1;
      ghost var grown := Grown(old(Now()), p);
      children := if p in children then children[p := children[p] + [sid]] else children;
      parent, children, layer := parent[sid := p], children[sid := []], layer[sid := 0];
      zOrder := zOrder + [sid];
      if p != 0 {
        anchoredN := anchoredN + 1;
      }
      assert Now() == grown;
    }

    /** wmFocus, as far as stacking goes: the root is raised within its layer. */
    method Focus(sid: Sid) returns (r: Outcome)
      requires Inv()
      modifies this`layer, this`zOrder
      ensures Inv() && layer == old(layer)
      ensures r == if sid in parent then Done else Failed(EINVAL)
      ensures sid in parent ==>
        var root := RootOf(Now(), sid);
        zOrder == if old(zOrder)[|old(zOrder)| - 1] == root then old(zOrder)
                  else Normalized(Now(), layer, Without(old(zOrder), root) + [root])
      ensures sid in parent ==> Raised(Now(), layer, old(zOrder), zOrder, RootOf(Now(), sid))
      ensures sid !in parent ==> zOrder == old(zOrder)
    {
      hide Forest, Lists, Normal, Normalized, Rooted, Anchored, RootOf, Under, Raised, Lowered, Relayered, OnLayer;
      NormalIsValid(Now(), layer, zOrder);
      if sid !in parent { return Failed(EINVAL); }
      var root := AnchorRoot(sid);
      if zOrder[|zOrder| - 1] == root {
        RaisedAlready(Now(), layer, zOrder, root);
      } else {
        Moved(Now(), zOrder, root);
        RaisedNormally(Now(), layer, zOrder, root);
        zOrder := Without(zOrder, root) + [root];
        ZNormalize();
        LayersStay(Now(), old(layer), old(zOrder), layer);
      }
      r := Done;
    }

    /** wmRestack: to the top, or the bottom, of its layer. */
    method Restack(sid: Sid, lower: bool) returns (r: Outcome)
      requires Inv()
      modifies this`layer, this`zOrder
      ensures Inv() && layer == old(layer)
      ensures r == if sid !in parent then Failed(EINVAL) else if parent[sid] != 0 then Failed(EPERM) else Done
      ensures zOrder == if !r.Done? then old(zOrder)
                        else Normalized(Now(), layer, if lower then [sid] + Without(old(zOrder), sid) else Without(old(zOrder), sid) + [sid])
      ensures r.Done? ==>
        if lower then Lowered(Now(), layer, old(zOrder), zOrder, sid) else Raised(Now(), layer, old(zOrder), zOrder, sid)
    {
      hide Forest, Lists, Normal, Normalized, Rooted, Anchored, RootOf, Under, Raised, Lowered, Relayered, OnLayer;
      NormalIsValid(Now(), layer, zOrder);
      if sid !in parent { return Failed(EINVAL); }
      if parent[sid] != 0 { return Failed(EPERM); }
      Moved(Now(), zOrder, sid);
      RaisedNormally(Now(), layer, zOrder, sid);
      zOrder := if lower then [sid] + Without(zOrder, sid) else Without(zOrder, sid) + [sid];
      ZNormalize();
      LayersStay(Now(), old(layer), old(zOrder), layer);
      r := Done;
    }

    /** wmSetLayer. */
    method SetLayer(sid: Sid, l: int) returns (r: Outcome)
      requires Inv()
      modifies this`layer, this`zOrder
      ensures Inv()
      ensures r == if sid !in parent then Failed(EINVAL) else if parent[sid] != 0 then Failed(EPERM)
                   else if !(-1 <= l <= 1) then Failed(EINVAL) else Done
      ensures !r.Done? ==> zOrder == old(zOrder) && layer == old(layer)
      ensures r.Done? ==>
        && layer.Keys == old(layer).Keys && zOrder == Normalized(Now(), old(layer)[sid := l], old(zOrder))
        && Forest(Now()) && old(layer).Keys == parent.Keys && OnLayer(Now(), old(layer), sid, l, layer)
        && Relayered(Now(), old(layer), old(zOrder), zOrder, sid, l)
    {
      hide Forest, Lists, Normal, Normalized, Rooted, Anchored, RootOf, Under, Raised, Lowered, Relayered, OnLayer;
      NormalIsValid(Now(), layer, zOrder);
      if sid !in parent { return Failed(EINVAL); }
      if parent[sid] != 0 { return Failed(EPERM); }
      if l < -1 || l > 1 { return Failed(EINVAL); }
      ToLayer(sid, l);
      r := Done;
    }

    method ToLayer(sid: Sid, l: Layer)
      requires Inv() && sid in parent && parent[sid] == 0
      modifies this`layer, this`zOrder
      ensures Inv() && layer.Keys == old(layer).Keys && zOrder == Normalized(Now(), old(layer)[sid := l], old(zOrder))
      ensures Forest(Now()) && old(layer).Keys == parent.Keys && OnLayer(Now(), old(layer), sid, l, layer)
      ensures Relayered(Now(), old(layer), old(zOrder), zOrder, sid, l)
    {
      hide Forest, Lists, Normal, Normalized, Rooted, Anchored, RootOf, Under, Relayered, OnLayer;
      NormalIsValid(Now(), layer, zOrder);
      RelayeredNormally(Now(), layer, zOrder, sid, l);
      if layer[sid] == l {
        NoMove(Now(), layer, zOrder, sid);
        return;
      }
      layer := layer[sid := l];
      ZNormalize();
      TreeMoves(Now(), old(layer), old(zOrder), sid, l, layer);
    }

    /** _wmDestroySurface: what is anchored to it goes first. */
    method DestroySurface(sid: Sid)
      requires Inv()
      modifies this
      ensures Inv() && nextSid == old(nextSid)
      ensures Remains(old(Now()), old(zOrder), old(layer), Now(), zOrder, layer)
      ensures forall y :: y in old(parent) ==> (y in parent <==> sid !in old(parent) || !Under(old(Now()), y, sid))
      decreases nextSid - sid
    {
      hide Forest, Lists, Normal, Anchored, Remains, Under, Leaf;
      ghost var s, z, l := Now(), zOrder, layer;
      NormalIsValid(s, layer, zOrder);
      RemainsSame(s, z, l);
      if sid !in parent { return; }
      while children[sid] != []
        invariant Inv() && nextSid == old(nextSid) && sid in parent && sid in children
        invariant Remains(s, z, l, Now(), zOrder, layer)
        invariant forall y :: y in s.parent ==> y in parent || (y != sid && Under(s, y, sid))
        decreases |children[sid]|
      {
        ghost var m, w, l' := Now(), zOrder, layer;
        NormalIsValid(m, layer, zOrder);
        KidsFit(m, sid);
        var c := children[sid][0];
        FirstChild(m, sid);
        DestroySurface(c);
        ChildGone(m, w, l', Now(), zOrder, layer, sid, c);
        UnderBefore(s, z, l, m, w, l', sid);
        RemainsTwice(s, z, l, m, w, l', Now(), zOrder, layer);
        NormalIsValid(Now(), layer, zOrder);
      }
      ghost var m, w, l' := Now(), zOrder, layer;
      NormalIsValid(m, layer, zOrder);
      UnderBefore(s, z, l, m, w, l', sid);
      IsLeaf(m, sid);
      OnlyItself(m, sid);
      RemoveLeaf(sid);
      RemainsTwice(s, z, l, m, w, l', Now(), zOrder, layer);
      UnderSelf(s, sid);
    }

    /** The surface itself goes, with nothing anchored to it any more. */
    method RemoveLeaf(sid: Sid)
      requires Inv() && Leaf(Now(), sid)
      modifies this
      ensures Inv() && nextSid == old(nextSid) && parent.Keys == old(parent.Keys) - {sid}
      ensures Remains(old(Now()), old(zOrder), old(layer), Now(), zOrder, layer)
    {
      hide Forest, Lists, Normal, Anchored, Remains;
      ghost var m := Now();
      NormalIsValid(m, layer, zOrder);
      LostNormal(m, layer, zOrder, sid);
      LostForest(m, sid);
      RemainsLost(m, zOrder, layer, sid);
      AnchoredWithout(m, sid);
      if parent[sid] != 0 {
        anchoredN := anchoredN - 1;
      }
      children := if parent[sid] in children then children[parent[sid] := Without(children[parent[sid]], sid)] else children;
      parent, children, layer := parent - {sid}, children - {sid}, layer - {sid};
      zOrder := Without(zOrder, sid);
      assert Now() == Lost(m, sid);
    }
  }
}
