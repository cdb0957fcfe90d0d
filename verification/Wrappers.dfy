/** Small helper types and facts shared by the other modules. */
module Wrappers {
  datatype Option<+T> = None | Some(value: T)

  /** The numbers below n. */
  function Below(n: nat): (s: set<nat>)
    ensures forall i: nat :: i in s <==> i < n
    ensures |s| == n
  {
    if n == 0 then {} else Below(n - 1) + {n - 1}
  }

  /** A set contained in another one of the same size is that set. */
  lemma FullSubset<T>(s: set<T>, t: set<T>)
    requires s <= t && |s| == |t|
    ensures s == t
  {
    assert |t - s| == |t| - |s|;
  }

  /** The elements of a sequence without repetitions are as many as its positions. */
  lemma {:induction false} DistinctSize<T>(s: seq<T>)
    requires forall i, j :: 0 <= i < j < |s| ==> s[i] != s[j]
    ensures |set x | x in s| == |s|
  {
    if s != [] {
      var init := s[..|s| - 1];
      DistinctSize(init);
      assert s == init + [s[|s| - 1]];
      assert (set x | x in s) == (set x | x in init) + {s[|s| - 1]};
    }
  }

  /** Pigeonhole: n distinct numbers below n are all the numbers below n. */
  lemma DistinctBelowIsOnto(s: seq<nat>, v: nat)
    requires forall i :: 0 <= i < |s| ==> s[i] < |s|
    requires forall i, j :: 0 <= i < j < |s| ==> s[i] != s[j]
    requires v < |s|
    ensures v in s
  {
    DistinctSize(s);
    var elems := set x | x in s;
    FullSubset(elems, Below(|s|));
    assert v in Below(|s|);
  }

  /** The sequence with the first x taken out. */
  function Without<T(==)>(q: seq<T>, x: T): seq<T> {
    if q == [] then [] else if q[0] == x then q[1..] else [q[0]] + Without(q[1..], x)
  }

  lemma {:induction false} WithoutOne<T>(q: seq<T>, x: T)
    requires forall i, j :: 0 <= i < j < |q| ==> q[i] != q[j]
    ensures x !in Without(q, x)
    ensures forall p :: p in Without(q, x) <==> p in q && p != x
    ensures forall i, j :: 0 <= i < j < |Without(q, x)| ==> Without(q, x)[i] != Without(q, x)[j]
    ensures x !in q ==> Without(q, x) == q
    ensures x in q ==> |Without(q, x)| == |q| - 1
  {
    if q != [] && q[0] != x {
      var rest := Without(q[1..], x);
      WithoutOne(q[1..], x);
      assert forall p :: p in q <==> p == q[0] || p in q[1..];
      assert q[0] !in q[1..];
      assert q[0] !in rest;
      forall i, j | 0 <= i < j < |Without(q, x)| ensures Without(q, x)[i] != Without(q, x)[j] {
        assert rest[j - 1] in rest;
      }
    } else if q != [] {
      assert forall p :: p in q <==> p == q[0] || p in q[1..];
      assert q[0] !in q[1..];
    }
  }
}
