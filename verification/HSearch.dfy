/** The open-addressing hash table behind hsearch(3): a table of 2^k slots,
    probed at triangular distances, refining a finite map. */
module HSearch {
  import opened Wrappers
  import opened Arith

  newtype Byte = b: int | 0 <= b < 256

  /** A C string without its terminator. */
  type Key = seq<Byte>

  /** ENTRY: a null key pointer marks a free slot. */
  datatype Slot<V> = Empty | Full(key: Key, data: V)

  datatype Action = FIND | ENTER

  const SIZE_T: nat := 0x1_0000_0000  // size_t is 32 bits wide on this target
  const MIN_SIZE: nat := 8
  const MAX_SIZE: nat := 0x8000_0000
  const ENTRY_BYTES: nat := 8

  // ---- hashing and probing ------------------------------------------------

  function HashFrom(h: nat, key: Key): (r: nat)
    ensures h < SIZE_T ==> r < SIZE_T
    decreases |key|
  {
    if key == [] then h else HashFrom((31 * h + key[0] as nat) % SIZE_T, key[1..])
  }

  method KeyHash(key: Key) returns (h: nat)
    ensures h == HashFrom(0, key) < SIZE_T
  {
    h := 0;
    var p := 0;
    while p < |key|
      invariant 0 <= p <= |key| && h < SIZE_T
      invariant HashFrom(h, key[p..]) == HashFrom(0, key)
    {
      assert key[p..][0] == key[p] && key[p..][1..] == key[p + 1..];
      h := (31 * h + key[p] as nat) % SIZE_T;
      p := p + 1;
    }
    assert key[p..] == [];
  }

  /** 0 + 1 + ... + n: the distance from the hash after n increments. */
  function Triangular(n: nat): nat {
    if n == 0 then 0 else Triangular(n - 1) + n
  }

  /** The slot inspected by the n-th probe. */
  function Probe(h: nat, n: nat, size: nat): (p: nat)
    requires size > 0
    ensures p < size
  {
    (h + Triangular(n)) % size
  }

  lemma {:induction false} TwiceTriangular(n: nat)
    ensures 2 * Triangular(n) == n * (n + 1)
  {
    if n > 0 { TwiceTriangular(n - 1); }
  }

  /** The first 2^k probes of a table of 2^k slots never meet twice. */
  lemma ProbesDistinct(h: nat, i: nat, j: nat, k: nat)
    requires i < j < Pow2(k)
    ensures Probe(h, i, Pow2(k)) != Probe(h, j, Pow2(k))
  {
    if Probe(h, i, Pow2(k)) == Probe(h, j, Pow2(k)) {
      EqualModDivides(h + Triangular(i), h + Triangular(j), Pow2(k));
      TriangularMonotone(i, j);
      GapNotMultiple(i, j, k);
    }
  }

  lemma GapNotMultiple(i: nat, j: nat, k: nat)
    requires i < j < Pow2(k) && Triangular(i) <= Triangular(j)
    ensures (Triangular(j) - Triangular(i)) % Pow2(k) != 0
  {
    var d, m := Triangular(j) - Triangular(i), Pow2(k);
    TriangularGap(i, j);
    assert (j - i) % 2 != (i + j + 1) % 2 by { assert i + j + 1 == (j - i) + 2 * i + 1; }
    OddEvenProduct(j - i, i + j + 1, k + 1);
    assert (2 * d) % (2 * m) != 0;
    if d % m == 0 { DoubleMultiple(d, m); }
  }

  lemma DoubleMultiple(d: nat, m: nat)
    requires m > 0 && d % m == 0
    ensures (2 * d) % (2 * m) == 0
  {
    var q := d / m;
    assert d == q * m;
    assert 2 * (q * m) == q * (2 * m);
    MultipleMod(q, 2 * m);
  }

  lemma TriangularGap(i: nat, j: nat)
    requires i <= j
    ensures 2 * (Triangular(j) - Triangular(i)) == (j - i) * (i + j + 1)
  {
    TwiceTriangular(i);
    TwiceTriangular(j);
  }

  lemma {:induction false} TriangularMonotone(i: nat, j: nat)
    requires i <= j
    ensures Triangular(i) <= Triangular(j)
  {
    if i < j { TriangularMonotone(i, j - 1); }
  }

  /** Every slot of a table of 2^k slots is met within 2^k probes. */
  lemma ProbesCoverTable(h: nat, p: nat, k: nat) returns (n: nat)
    requires p < Pow2(k)
    ensures n < Pow2(k) && Probe(h, n, Pow2(k)) == p
  {
    var probes := seq(Pow2(k), (i: int) requires 0 <= i => Probe(h, i, Pow2(k)));
    forall i, j | 0 <= i < j < |probes| ensures probes[i] != probes[j] {
      ProbesDistinct(h, i, j, k);
    }
    DistinctBelowIsOnto(probes, p);
    n :| n < |probes| && probes[n] == p;
  }

  // ---- tables as values -----------------------------------------------------

  /** The first n probes for h all hit used slots. */
  ghost predicate Busy<V>(slots: seq<Slot<V>>, h: nat, n: nat)
    requires |slots| > 0
  {
    forall m: nat :: m < n ==> slots[Probe(h, m, |slots|)].Full?
  }

  /** Slot p can be reached from h without crossing a free slot. */
  ghost predicate Reachable<V>(slots: seq<Slot<V>>, h: nat, p: nat)
    requires |slots| > 0
  {
    exists n: nat :: Probe(h, n, |slots|) == p && Busy(slots, h, n)
  }

  ghost predicate Wellformed<V>(slots: seq<Slot<V>>) {
    && |slots| > 0
    && (exists k: nat :: |slots| == Pow2(k))
    && (forall p, q :: 0 <= p < q < |slots| && slots[p].Full? && slots[q].Full? ==> slots[p].key != slots[q].key)
    && (forall p: nat :: p < |slots| && slots[p].Full? ==> Reachable(slots, HashFrom(0, slots[p].key), p))
  }

  function Count<V>(slots: seq<Slot<V>>): (c: nat)
    ensures c <= |slots|
  {
    if slots == [] then 0 else Count(slots[..|slots| - 1]) + if slots[|slots| - 1].Full? then 1 else 0
  }

  ghost predicate Has<V>(slots: seq<Slot<V>>, key: Key) {
    exists p: nat :: p < |slots| && slots[p].Full? && slots[p].key == key
  }

  ghost predicate Holds<V>(slots: seq<Slot<V>>, m: map<Key, V>) {
    && (forall p: nat :: p < |slots| && slots[p].Full? ==> slots[p].key in m && m[slots[p].key] == slots[p].data)
    && (forall k :: k in m ==> Has(slots, k))
  }

  lemma {:induction false} CountUpdate<V>(slots: seq<Slot<V>>, p: nat, s: Slot<V>)
    requires p < |slots|
    ensures Count(slots[p := s]) ==
      Count(slots) + (if s.Full? then 1 else 0) - (if slots[p].Full? then 1 else 0)
  {
    var n := |slots| - 1;
    if p == n {
      assert slots[p := s][..n] == slots[..n];
    } else {
      assert slots[p := s][..n] == slots[..n][p := s];
      CountUpdate(slots[..n], p, s);
    }
  }

  lemma {:induction false} FreeSlotExists<V>(slots: seq<Slot<V>>) returns (p: nat)
    requires Count(slots) < |slots|
    ensures p < |slots| && slots[p].Empty?
  {
    p := |slots| - 1;
    if slots[p].Full? { p := FreeSlotExists(slots[..p]); }
  }

  lemma {:induction false} CountZero<V>(slots: seq<Slot<V>>)
    requires forall p :: 0 <= p < |slots| ==> slots[p].Empty?
    ensures Count(slots) == 0
  {
    if slots != [] { CountZero(slots[..|slots| - 1]); }
  }

  /** The first n probes for key hit used slots that hold other keys. */
  ghost predicate Passed<V>(slots: seq<Slot<V>>, key: Key, n: nat)
    requires |slots| > 0
  {
    forall m: nat :: m < n ==>
      var s := slots[Probe(HashFrom(0, key), m, |slots|)]; s.Full? && s.key != key
  }

  lemma PassedNone<V>(slots: seq<Slot<V>>, key: Key)
    requires |slots| > 0
    ensures Passed(slots, key, 0)
  {
  }

  lemma PassedMore<V>(slots: seq<Slot<V>>, key: Key, n: nat)
    requires |slots| > 0 && Passed(slots, key, n)
    requires var s := slots[Probe(HashFrom(0, key), n, |slots|)]; s.Full? && s.key != key
    ensures Passed(slots, key, n + 1)
  {
  }

  lemma PassedBusy<V>(slots: seq<Slot<V>>, key: Key, n: nat)
    requires |slots| > 0 && Passed(slots, key, n)
    ensures Busy(slots, HashFrom(0, key), n)
  {
  }

  /** A probe that meets a free slot first proves the key absent. */
  lemma AbsentIfFreeFirst<V>(slots: seq<Slot<V>>, m: map<Key, V>, key: Key, n: nat)
    requires Wellformed(slots) && Holds(slots, m) && Passed(slots, key, n)
    requires slots[Probe(HashFrom(0, key), n, |slots|)].Empty?
    ensures key !in m
  {
    assert !Has(slots, key) by {
      forall p: nat | p < |slots| && slots[p].Full? ensures slots[p].key != key {
        assert Reachable(slots, HashFrom(0, slots[p].key), p);
      }
    }
  }

  lemma FoundSlot<V>(slots: seq<Slot<V>>, m: map<Key, V>, p: nat)
    requires Holds(slots, m) && p < |slots| && slots[p].Full?
    ensures slots[p].key in m && slots[p] == Full(slots[p].key, m[slots[p].key])
  {
  }

  /** Filling the first free slot on a key's path keeps the table well formed. */
  lemma FillKeepsWellformed<V>(slots: seq<Slot<V>>, m: map<Key, V>, key: Key, data: V, n: nat)
    requires Wellformed(slots) && Holds(slots, m) && key !in m
    requires Busy(slots, HashFrom(0, key), n)
    requires slots[Probe(HashFrom(0, key), n, |slots|)].Empty?
    ensures var p := Probe(HashFrom(0, key), n, |slots|);
      && Wellformed(slots[p := Full(key, data)])
      && Holds(slots[p := Full(key, data)], m[key := data])
      && Count(slots[p := Full(key, data)]) == Count(slots) + 1
  {
    var h := HashFrom(0, key);
    var p := Probe(h, n, |slots|);
    var after := slots[p := Full(key, data)];
    CountUpdate(slots, p, Full(key, data));
    assert Busy(after, h, n);
    assert Reachable(after, h, p);
    forall q: nat | q < |after| && after[q].Full? ensures Reachable(after, HashFrom(0, after[q].key), q) {
      if q != p {
        var g := HashFrom(0, slots[q].key);
        assert Reachable(slots, g, q);
        var i: nat :| Probe(g, i, |slots|) == q && Busy(slots, g, i);
        assert Busy(after, g, i);
      }
    }
    forall k | k in m[key := data] ensures Has(after, k) {
      if k == key {
        assert after[p].Full? && after[p].key == k;
      } else {
        var q: nat :| q < |slots| && slots[q].Full? && slots[q].key == k;
        assert after[q].Full? && after[q].key == k;
      }
    }
  }

  /** The C index wraps modulo 2^32 and is then masked; for a table whose size
      is a power of two this is the unwrapped probe. */
  lemma WrappedProbe(h: nat, n: nat, k: nat)
    requires Pow2(k) <= SIZE_T
    ensures ((h + Triangular(n)) % SIZE_T) % Pow2(k) == Probe(h, n, Pow2(k))
    ensures ((h + Triangular(n)) % SIZE_T + n + 1) % SIZE_T == (h + Triangular(n + 1)) % SIZE_T
  {
    Pow32();
    if k > 32 { PowMonotone(33, k); }
    PowDivides(k, 32);
    ModMod(h + Triangular(n), Pow2(k), SIZE_T);
    var x := h + Triangular(n);
    assert x + n + 1 == (x / SIZE_T) * SIZE_T + (x % SIZE_T + n + 1);
    AddMultipleMod(x % SIZE_T + n + 1, x / SIZE_T, SIZE_T);
  }

  /** size_t arithmetic wraps. */
  function Wrapped(x: nat): nat { x % SIZE_T }

  /** i & mask, for a table whose size is a power of two. */
  function Masked(i: nat, size: nat): (p: nat)
    requires 0 < size
    ensures p < size
  {
    i % size
  }

  /** After n steps the index and slot of the probe loop are these. */
  ghost predicate Walks(i: nat, p: nat, h: nat, n: nat, size: nat)
    requires 0 < size
  {
    i == Wrapped(h + Triangular(n)) && Masked(i, size) == p && p == Probe(h, n, size)
  }

  lemma FirstProbe(h: nat, k: nat)
    requires Pow2(k) <= SIZE_T && h < SIZE_T
    ensures Walks(h, Masked(h, Pow2(k)), h, 0, Pow2(k)) && Masked(h, Pow2(k)) == Probe(h, 0, Pow2(k))
  {
    WrappedProbe(h, 0, k);
  }

  lemma NextProbe(i: nat, p: nat, h: nat, n: nat, k: nat)
    requires Pow2(k) <= SIZE_T && Walks(i, p, h, n, Pow2(k))
    ensures var i' := Wrapped(i + n + 1);
            var p' := Masked(i', Pow2(k));
            Walks(i', p', h, n + 1, Pow2(k)) && p' == Probe(h, n + 1, Pow2(k))
  {
    WrappedProbe(h, n, k);
    WrappedProbe(h, n + 1, k);
  }

  lemma {:induction false} CountPrefix<V>(slots: seq<Slot<V>>, n: nat)
    requires n <= |slots|
    ensures Count(slots[..n]) <= Count(slots)
    decreases |slots| - n
  {
    if n < |slots| {
      assert slots[..n + 1][..n] == slots[..n];
      CountPrefix(slots, n + 1);
    } else {
      assert slots[..n] == slots;
    }
  }

  lemma AbsentFromPrefix<V>(slots: seq<Slot<V>>, m: map<Key, V>, e: nat)
    requires e < |slots| && slots[e].Full? && Wellformed(slots)
    requires Holds(slots[..e], m)
    ensures slots[e].key !in m
  {
  }

  lemma HoldsExtend<V>(slots: seq<Slot<V>>, m: map<Key, V>, key: Key, data: V)
    requires Holds(slots, m) && key !in m
    ensures Holds(slots + [Full(key, data)], m[key := data])
  {
    var after := slots + [Full(key, data)];
    forall k | k in m[key := data] ensures Has(after, k) {
      if k == key { assert after[|slots|].Full? && after[|slots|].key == k; }
      else {
        var p: nat :| p < |slots| && slots[p].Full? && slots[p].key == k;
        assert after[p].Full? && after[p].key == k;
      }
    }
  }

  lemma HoldsSkip<V>(slots: seq<Slot<V>>, m: map<Key, V>)
    requires Holds(slots, m)
    ensures Holds(slots + [Empty], m)
  {
    var after := slots + [Empty];
    forall k | k in m ensures Has(after, k) {
      var p: nat :| p < |slots| && slots[p].Full? && slots[p].key == k;
      assert after[p].Full? && after[p].key == k;
    }
  }

  lemma PrefixNone<V>(slots: seq<Slot<V>>)
    ensures Holds(slots[..0], map[]) && Count(slots[..0]) == 0
  {
  }

  /** One slot more of a table, and what the slots up to there hold. */
  lemma PrefixMore<V>(slots: seq<Slot<V>>, e: nat, m: map<Key, V>)
    requires e < |slots| && Wellformed(slots) && Holds(slots[..e], m)
    ensures Count(slots[..e + 1]) == Count(slots[..e]) + if slots[e].Full? then 1 else 0
    ensures slots[e].Full? ==>
      slots[e].key !in m && Count(slots[..e]) < Count(slots) && Holds(slots[..e + 1], m[slots[e].key := slots[e].data])
    ensures slots[e].Empty? ==> Holds(slots[..e + 1], m)
  {
    assert slots[..e + 1] == slots[..e] + [slots[e]];
    assert slots[..e + 1][..e] == slots[..e];
    CountPrefix(slots, e + 1);
    if slots[e].Full? {
      AbsentFromPrefix(slots, m, e);
      hide Wellformed;
      HoldsExtend(slots[..e], m, slots[e].key, slots[e].data);
    } else {
      HoldsSkip(slots[..e], m);
    }
    hide Holds;
  }

  /** The slots determine the map. */
  lemma HoldsUnique<V>(slots: seq<Slot<V>>, m: map<Key, V>, m': map<Key, V>)
    requires Holds(slots, m) && Holds(slots, m')
    ensures m == m'
  {
    forall k ensures k in m <==> k in m' {}
  }

  // ---- the table --------------------------------------------------------------

  class Table<V> {
    var entries: array<Slot<V>>
    var mask: nat
    var used: nat
    ghost var contents: map<Key, V>  // the finite map the table stands for

    ghost predicate Shape()
      reads this, entries
    {
      && entries.Length == mask + 1 <= SIZE_T / ENTRY_BYTES
      && entries.Length >= MIN_SIZE
      && Wellformed(entries[..])
      && Holds(entries[..], contents)
      && used == Count(entries[..])
      && used < entries.Length
    }

    /** What holds between calls: Shape and the load bound of hsearch_r. */
    ghost predicate Valid()
      reads this, entries
    {
      Shape() && used <= mask - mask / 4
    }

    /** The probe loop of lookup: stops at the slot that holds key or at the
        first free one. */
    static method ProbeFor(slots: array<Slot<V>>, key: Key, hash: nat, ghost m: map<Key, V>) returns (p: nat, ghost n: nat)
      requires 0 < slots.Length <= SIZE_T / ENTRY_BYTES
      requires Wellformed(slots[..]) && Holds(slots[..], m) && Count(slots[..]) < slots.Length
      requires hash == HashFrom(0, key) < SIZE_T
      ensures p < slots.Length && p == Probe(hash, n, slots.Length) && Busy(slots[..], hash, n)
      ensures if key in m then slots[p] == Full(key, m[key]) else slots[p].Empty?
    {
      ghost var s := slots[..];
      ghost var k: nat :| |s| == Pow2(k);
      hide Wellformed, Holds, Probe, Triangular, Walks, Count, HashFrom, Pow2, Wrapped, Masked, Passed, Busy;
      ghost var free := FreeSlotExists(s);
      ghost var last := ProbesCoverTable(hash, free, k);
      var i: nat, j: nat := hash, 1;
      n := 0;
      PassedNone(s, key);
      FirstProbe(hash, k);
      p := Masked(i, slots.Length);
      while !(slots[p].Empty? || slots[p].key == key)
        invariant j == n + 1 && n <= last
        invariant p < |s| && Walks(i, p, hash, n, |s|) && p == Probe(hash, n, |s|)
        invariant Passed(s, key, n)
        decreases last - n
      {
        PassedMore(s, key, n);
        NextProbe(i, p, hash, n, k);
        i := Wrapped(i + j);
        j := j + 1;
        n := n + 1;
        p := Masked(i, slots.Length);
      }
      PassedBusy(s, key, n);
      if slots[p].Empty? {
        AbsentIfFreeFirst(s, m, key, n);
      } else {
        FoundSlot(s, m, p);
      }
    }

    /** resize's inner loop: moves one entry to the first free slot on its path. */
    static method Rehash(slots: array<Slot<V>>, entry: Slot<V>, ghost m: map<Key, V>)
      requires 0 < slots.Length <= SIZE_T / ENTRY_BYTES
      requires Wellformed(slots[..]) && Holds(slots[..], m) && Count(slots[..]) < slots.Length
      requires entry.Full? && entry.key !in m
      modifies slots
      ensures Wellformed(slots[..]) && Holds(slots[..], m[entry.key := entry.data])
      ensures Count(slots[..]) == old(Count(slots[..])) + 1
    {
      ghost var s := slots[..];
      ghost var k: nat :| |s| == Pow2(k);
      hide Wellformed, Holds, Probe, Triangular, Walks, Count, HashFrom, Pow2, Wrapped, Masked;
      ghost var free := FreeSlotExists(s);
      var hash: nat := KeyHash(entry.key);
      ghost var last := ProbesCoverTable(hash, free, k);
      var i: nat, j: nat := hash, 1;
      FirstProbe(hash, k);
      var p: nat := Masked(i, slots.Length);
      ghost var n: nat := 0;
      while slots[p].Full?
        invariant j == n + 1 && n <= last
        invariant p < |s| && Walks(i, p, hash, n, |s|) && p == Probe(hash, n, |s|)
        invariant slots[..] == s && Busy(s, hash, n)
        decreases last - n
      {
        NextProbe(i, p, hash, n, k);
        i := Wrapped(i + j);
        j := j + 1;
        n := n + 1;
        p := Masked(i, slots.Length);
      }
      FillKeepsWellformed(s, m, entry.key, entry.data, n);
      slots[p] := entry;
      assert slots[..] == s[p := entry];
    }

    /** resize's outer loop: moves every entry of the old table. */
    static method RehashAll(oldtab: array<Slot<V>>, tab: array<Slot<V>>, ghost m: map<Key, V>)
      requires oldtab != tab && 0 < tab.Length <= SIZE_T / ENTRY_BYTES
      requires Wellformed(oldtab[..]) && Holds(oldtab[..], m) && Count(oldtab[..]) < tab.Length
      requires Wellformed(tab[..]) && Holds<V>(tab[..], map[]) && Count(tab[..]) == 0
      modifies tab
      ensures Wellformed(tab[..]) && Holds(tab[..], m) && Count(tab[..]) == Count(oldtab[..])
    {
      hide Wellformed, Holds, Count;
      ghost var o := oldtab[..];
      ghost var moved: map<Key, V> := map[];
      PrefixNone(o);
      var e := 0;
      while e < oldtab.Length
        invariant 0 <= e <= |o| && oldtab[..] == o
        invariant Wellformed(tab[..]) && Holds(tab[..], moved)
        invariant Count(tab[..]) == Count(o[..e])
        invariant Holds(o[..e], moved)
      {
        PrefixMore(o, e, moved);
        if oldtab[e].Full? {
          Rehash(tab, oldtab[e], moved);
          moved := moved[o[e].key := o[e].data];
        }
        e := e + 1;
      }
      assert o[..e] == o;
      HoldsUnique(o, moved, m);
    }

    /** lookup */
    method Lookup(key: Key, hash: nat) returns (p: nat, ghost n: nat)
      requires Shape() && hash == HashFrom(0, key) < SIZE_T
      ensures p < entries.Length && p == Probe(hash, n, entries.Length) && Busy(entries[..], hash, n)
      ensures if key in contents then entries[p] == Full(key, contents[key]) else entries[p].Empty?
    {
      p, n := ProbeFor(entries, key, hash, contents);
    }

    /** resize, for a table that already has entries; mem says whether calloc
        finds the memory. On failure the table is left as it was. */
    method Resize(nel: nat, mem: bool) returns (ok: bool)
      requires Shape() && used < nel
      modifies this
      ensures Shape() && used == old(used) && contents == old(contents)
      ensures !ok ==> entries == old(entries) && mask == old(mask)
      ensures ok ==> fresh(entries) && nel <= mask + 1
      ensures mem && nel <= SIZE_T / ENTRY_BYTES / 2 ==> ok
    {
      var oldtab := entries;
      var want := if nel > MAX_SIZE then MAX_SIZE else nel;
      var newsize := NewSize(want);
      if !mem || newsize * ENTRY_BYTES >= SIZE_T { return false; }
      var tab := new Slot<V>[newsize](_ => Empty);
      CountZero(tab[..]);
      RehashAll(oldtab, tab, contents);
      entries := tab;
      mask := newsize - 1;
      ok := true;
    }

    /** hsearch_r: r is the C return value, e the slot behind *retval. */
    method Search(key: Key, data: V, action: Action, mem: bool) returns (r: int, e: Option<nat>)
      requires Valid()
      modifies this, entries
      ensures Valid()
      ensures r == 1 <==> e.Some?
      ensures r == 0 || r == 1
      ensures e.Some? ==> key in contents && e.value < entries.Length && entries[e.value] == Full(key, contents[key])
      ensures key in old(contents) || (action == FIND) ==> contents == old(contents) && entries == old(entries) && entries[..] == old(entries[..])
      ensures key in old(contents) ==> r == 1
      ensures key !in old(contents) && action == FIND ==> r == 0
      ensures key !in old(contents) && action == ENTER ==>
        contents == if r == 1 then old(contents)[key := data] else old(contents)
      ensures key !in old(contents) && action == ENTER && r == 0 ==>
        old(used) + 1 > old(mask) - old(mask) / 4 && (mem ==> 2 * (old(used) + 1) > SIZE_T / ENTRY_BYTES / 2)
    {
      hide Wellformed, Holds, Count, HashFrom, Pow2, Probe, Busy;
      var hash := KeyHash(key);
      var p, n := Lookup(key, hash);
      if entries[p].Full? { return 1, Some(p); }
      if action == FIND { return 0, None; }
      ghost var before := entries[..];
      FillKeepsWellformed(before, contents, key, data, n);
      entries[p] := Full(key, data);
      assert entries[..] == before[p := Full(key, data)];
      ghost var was := contents;
      contents := contents[key := data];
      used := used + 1;
      if used > mask - mask / 4 {
        var ok := Resize(2 * used, mem);
        if !ok {
          used := used - 1;
          entries[p] := Empty;
          contents := was;
          assert entries[..] == before;
          return 0, None;
        }
        p, n := Lookup(key, hash);
      }
      return 1, Some(p);
    }
  }

  /** The smallest power of two that is at least MIN_SIZE and at least nel. */
  method NewSize(nel: nat) returns (size: nat)
    requires nel <= MAX_SIZE
    ensures nel <= size && MIN_SIZE <= size
    ensures size == MIN_SIZE || size < 2 * nel
    ensures exists k: nat :: size == Pow2(k)
  {
    size := MIN_SIZE;
    ghost var k := 3;
    assert Pow2(3) == 8;
    while size < nel
      invariant size == Pow2(k) && MIN_SIZE <= size
      invariant size == MIN_SIZE || size < 2 * nel
      decreases nel - size
    {
      size := size * 2;
      k := k + 1;
    }
  }

  /** hcreate_r: mem0 and mem1 say whether its two callocs succeed. */
  method Create<V>(nel: nat, mem0: bool, mem1: bool) returns (t: Table?<V>)
    ensures t != null ==> fresh(t) && fresh(t.entries) && t.Valid() && t.contents == map[] && nel <= t.mask + 1
    ensures mem0 && mem1 && nel <= SIZE_T / ENTRY_BYTES / 2 ==> t != null
    ensures !(mem0 && mem1) ==> t == null
  {
    if !mem0 { return null; }
    var want := if nel > MAX_SIZE then MAX_SIZE else nel;
    var newsize := NewSize(want);
    if !mem1 || newsize * ENTRY_BYTES >= SIZE_T { return null; }
    t := new Table<V>;
    t.entries := new Slot<V>[newsize](_ => Empty);
    t.mask, t.used, t.contents := newsize - 1, 0, map[];
    CountZero(t.entries[..]);
  }
}
