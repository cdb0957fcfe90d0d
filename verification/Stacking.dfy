/** What restacking does, in terms of places in the stacking order. */
module Stacking {
  import opened Wrappers
  import opened ZOrder

  lemma {:induction false} LastOfBand(layer: map<Sid, Layer>, q: seq<Sid>, root: Sid, i: nat, k: nat)
    requires NoDups(q) && i < |q| && k < |q| && q[k] == root && root in layer && q[i] in layer && layer[q[i]] == layer[root]
    requires var b := Band(layer, q, layer[root]); b != [] && b[|b| - 1] == root
    ensures i <= k
  {
    if i > 0 {
      BandMembers(layer, q[1..], layer[root]);
      assert q[1..][i - 1] == q[i];
      assert NoDups(q[1..]);
      var rest := Band(layer, q[1..], layer[root]);
      assert q[i] in rest;
      var b := Band(layer, q, layer[root]);
      assert b[|b| - 1] == rest[|rest| - 1] && root in rest;
      if k > 0 { LastOfBand(layer, q[1..], root, i - 1, k - 1); }
    }
  }

  lemma {:induction false} FirstOfBand(layer: map<Sid, Layer>, q: seq<Sid>, root: Sid, i: nat, k: nat)
    requires NoDups(q) && i < |q| && k < |q| && q[k] == root && root in layer && q[i] in layer && layer[q[i]] == layer[root]
    requires var b := Band(layer, q, layer[root]); b != [] && b[0] == root
    ensures k <= i
  {
    if k > 0 {
      assert NoDups(q[1..]);
      assert q[0] != root;
      if i > 0 { FirstOfBand(layer, q[1..], root, i - 1, k - 1); }
    }
  }

  /** Where a top-level surface stands among them. */
  lemma PlaceOfTop(s: Scene, layer: map<Sid, Layer>, z: seq<Sid>, t: Sid) returns (k: nat)
    requires Normal(s, layer, z) && t in s.parent && s.parent[t] == 0
    ensures k < |Tops(s.parent, z)| && Tops(s.parent, z)[k] == t && NoDups(Tops(s.parent, z)) && t in layer
  {
    TopsMembers(s.parent, z);
    assert t in Tops(s.parent, z);
    k :| k < |Tops(s.parent, z)| && Tops(s.parent, z)[k] == t;
  }

  /** Surfaces stand in the order of the top-level surfaces they are anchored to. */
  lemma TreesInOrder(s: Scene, layer: map<Sid, Layer>, z: seq<Sid>, i: nat, j: nat, m: nat, n: nat)
    requires Normal(s, layer, z) && i < j < |Tops(s.parent, z)| && m < |z| && n < |z|
    requires z[m] in s.parent && Under(s, z[m], Tops(s.parent, z)[i])
    requires z[n] in s.parent && Under(s, z[n], Tops(s.parent, z)[j])
    ensures m < n
  {
    TopsMembers(s.parent, z);
    TopsFit(s, z);
    var ts := Tops(s.parent, z);
    hide Tree, Trees, Under, Tops;
    EldersFirst(s, 1, ts, 0, i, j, m, n);
  }

  /** The surface at a place, and the one it is anchored to in the end. */
  lemma RootAt(s: Scene, layer: map<Sid, Layer>, z: seq<Sid>, n: nat) returns (r: Sid)
    requires Normal(s, layer, z) && n < |z|
    ensures z[n] in s.parent && r in s.parent && s.parent[r] == 0 && Under(s, z[n], r)
    ensures z[n] in layer && r in layer && layer[r] == layer[z[n]]
  {
    assert z[n] in z;
    r := HasRoot(s, z[n]);
    RootLayer(s, layer, z, z[n], r);
  }

  /** A raised tree is above everything else on its layer. */
  lemma RaisedIsOnTop(s: Scene, layer: map<Sid, Layer>, z: seq<Sid>, z': seq<Sid>, root: Sid, m: nat, n: nat)
    requires Normal(s, layer, z') && Raised(s, layer, z, z', root) && root in s.parent && s.parent[root] == 0
    requires m < |z'| && n < |z'| && z'[m] in s.parent && Under(s, z'[m], root) && z'[n] in s.parent && !Under(s, z'[n], root)
    requires root in layer && z'[n] in layer && layer[z'[n]] == layer[root]
    ensures n < m
  {
    hide Normal, Forest, Under, Tops, Band, Raised;
    var k := PlaceOfTop(s, layer, z', root);
    var r := RootAt(s, layer, z', n);
    var i := PlaceOfTop(s, layer, z', r);
    RaisedLast(s, layer, z, z', root);
    LastOfBand(layer, Tops(s.parent, z'), root, i, k);
    TreesInOrder(s, layer, z', i, k, n, m);
  }

  lemma RaisedLast(s: Scene, layer: map<Sid, Layer>, z: seq<Sid>, z': seq<Sid>, root: Sid)
    requires Raised(s, layer, z, z', root) && root in layer
    ensures var b := Band(layer, Tops(s.parent, z'), layer[root]); b != [] && b[|b| - 1] == root
  {
    assert LayerTops(s, layer, z', layer[root]) == Without(LayerTops(s, layer, z, layer[root]), root) + [root];
  }

  /** A lowered one is below everything else on its layer. */
  lemma LoweredIsAtBottom(s: Scene, layer: map<Sid, Layer>, z: seq<Sid>, z': seq<Sid>, root: Sid, m: nat, n: nat)
    requires Normal(s, layer, z') && Lowered(s, layer, z, z', root) && root in s.parent && s.parent[root] == 0
    requires m < |z'| && n < |z'| && z'[m] in s.parent && Under(s, z'[m], root) && z'[n] in s.parent && !Under(s, z'[n], root)
    requires root in layer && z'[n] in layer && layer[z'[n]] == layer[root]
    ensures m < n
  {
    hide Normal, Forest, Under, Tops, Band, Lowered;
    var k := PlaceOfTop(s, layer, z', root);
    var r := RootAt(s, layer, z', n);
    var i := PlaceOfTop(s, layer, z', r);
    LoweredFirst(s, layer, z, z', root);
    FirstOfBand(layer, Tops(s.parent, z'), root, i, k);
    TreesInOrder(s, layer, z', k, i, m, n);
  }

  lemma LoweredFirst(s: Scene, layer: map<Sid, Layer>, z: seq<Sid>, z': seq<Sid>, root: Sid)
    requires Lowered(s, layer, z, z', root) && root in layer
    ensures var b := Band(layer, Tops(s.parent, z'), layer[root]); b != [] && b[0] == root
  {
    assert LayerTops(s, layer, z', layer[root]) == [root] + Without(LayerTops(s, layer, z, layer[root]), root);
  }

  lemma TopLayers(s: Scene, before: map<Sid, Layer>, root: Sid, l: Layer, layer: map<Sid, Layer>, z: seq<Sid>, m: Layer)
    requires Normal(s, layer, z) && before.Keys == layer.Keys == s.parent.Keys && OnLayer(s, before, root, l, layer) && root in before
    ensures Band(before[root := l], Tops(s.parent, z), m) == Band(layer, Tops(s.parent, z), m)
  {
    hide Band, Tops, Forest, OnLayer, Ascending, Lists, Flat, RootOf;
    TopsMembers(s.parent, z);
    forall x | x in Tops(s.parent, z) ensures x in layer && x in before[root := l] && before[root := l][x] == layer[x] {
      TopOnLayer(s, before, root, l, layer, x);
    }
    BandSame(before[root := l], layer, Tops(s.parent, z), m);
  }

  lemma TopOnLayer(s: Scene, before: map<Sid, Layer>, root: Sid, l: Layer, layer: map<Sid, Layer>, x: Sid)
    requires Forest(s) && before.Keys == layer.Keys == s.parent.Keys && OnLayer(s, before, root, l, layer)
    requires x in s.parent && s.parent[x] == 0
    ensures before[root := l][x] == layer[x]
  {
    assert RootOf(s, x) == x;
  }

  /** A tree that changes layer enters the new one on the side it comes from: from a lower one
      below everything there, from a higher one above it. */
  lemma EntersLayer(s: Scene, before: map<Sid, Layer>, z: seq<Sid>, layer: map<Sid, Layer>, z': seq<Sid>, root: Sid, l: Layer, m: nat, n: nat)
    requires Normal(s, layer, z') && before.Keys == layer.Keys == s.parent.Keys && OnLayer(s, before, root, l, layer)
    requires root in s.parent && s.parent[root] == 0 && before[root] != l && Relayered(s, before, z, z', root, l)
    requires m < |z'| && n < |z'| && z'[m] in s.parent && Under(s, z'[m], root) && z'[n] in s.parent && !Under(s, z'[n], root)
    requires layer[z'[n]] == l
    ensures layer[z'[m]] == l
    ensures if before[root] < l then m < n else n < m
  {
    OneRoot(s, root, root);
    OneRoot(s, z'[m], root);
    TopLayers(s, before, root, l, layer, z', l);
    Entered(s, before, z, z', root, l);
    hide Normal, Forest, Under, Tops, Band, Relayered;
    var k := PlaceOfTop(s, layer, z', root);
    var r := RootAt(s, layer, z', n);
    var i := PlaceOfTop(s, layer, z', r);
    if before[root] < l {
      FirstOfBand(layer, Tops(s.parent, z'), root, i, k);
      TreesInOrder(s, layer, z', k, i, m, n);
    } else {
      LastOfBand(layer, Tops(s.parent, z'), root, i, k);
      TreesInOrder(s, layer, z', i, k, n, m);
    }
  }

  lemma Entered(s: Scene, before: map<Sid, Layer>, z: seq<Sid>, z': seq<Sid>, root: Sid, l: Layer)
    requires root in before && before[root] != l && Relayered(s, before, z, z', root, l)
    ensures var b := Band(before[root := l], Tops(s.parent, z'), l);
      b != [] && if before[root] < l then b[0] == root else b[|b| - 1] == root
  {
    var others := Without(LayerTops(s, before, z, l), root);
    assert LayerTops(s, before[root := l], z', l) == if before[root] < l then [root] + others else others + [root];
  }

  /** On a higher layer is higher up. */
  lemma LayersInOrder(s: Scene, layer: map<Sid, Layer>, z: seq<Sid>, m: nat, n: nat)
    requires Normal(s, layer, z) && m < |z| && n < |z| && z[m] in layer && z[n] in layer && layer[z[m]] < layer[z[n]]
    ensures m < n
  {
    hide Normal, Forest, Under, Tops, Ascending;
    NormalMeans(s, layer, z);
    hide *;
    LayersOf(layer, z, m, n);
  }

  lemma LayersOf(layer: map<Sid, Layer>, z: seq<Sid>, m: nat, n: nat)
    requires Ascending(layer, z) && m < |z| && n < |z| && z[m] in layer && z[n] in layer && layer[z[m]] < layer[z[n]]
    ensures m < n
  {
  }
}
