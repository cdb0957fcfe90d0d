/** The shared byte ring of a pipe: free-running u32 indices over a data area
    that wraps. First the copy routines on their own, then one producer and one
    consumer interleaving at every load, byte copy and store. */
module PipeRing {
  import opened Wrappers
  import opened Arith

  newtype Byte = b: int | 0 <= b < 256

  const U32: nat := 0x1_0000_0000

  /** (a - b) >>> 0 */
  function Diff(a: nat, b: nat): (d: nat)
    ensures d < U32
  {
    (a - b) % U32
  }

  /** The capacities for which the u32 indices address the ring consistently. */
  predicate GoodCap(cap: nat) {
    0 < cap < U32 && U32 % cap == 0
  }

  /** An index reduced to u32 still names the same byte of the data area, for
      every index, exactly when the capacity divides 2^32. */
  lemma WrapsConsistently(cap: nat)
    requires 0 < cap
    ensures (forall i: nat :: (i % U32) % cap == i % cap) <==> U32 % cap == 0
  {
    if U32 % cap == 0 {
      forall i: nat ensures (i % U32) % cap == i % cap { ModMod(i, cap, U32); }
    } else {
      assert (U32 % U32) % cap == 0;
    }
  }

  lemma DiffOfIndices(t: nat, h: nat)
    requires h <= t < h + U32
    ensures Diff(t % U32, h % U32) == t - h
  {
    var x := t % U32 - h % U32;
    assert x == (t - h) + (h / U32 - t / U32) * U32;
    AddMultipleMod(t - h, h / U32 - t / U32, U32);
    DivModUnique(t - h, 0, t - h, U32);
  }

  lemma NextIndex(i: nat, n: nat)
    ensures (i % U32 + n) % U32 == (i + n) % U32
  {
    assert i + n == (i / U32) * U32 + (i % U32 + n);
    AddMultipleMod(i % U32 + n, i / U32, U32);
  }

  /** Two indices less than cap apart are different bytes. */
  lemma DifferentBytes(i: nat, j: nat, cap: nat)
    requires i < j < i + cap
    ensures i % cap != j % cap
  {
    if i % cap == j % cap {
      EqualModDivides(i, j, cap);
      NotMultiple(j - i, cap);
    }
  }

  /** Where the copy loops put or find byte k of a transfer of n bytes that
      starts at index word w: first up to the end of the area, then from 0. */
  function Place(w: nat, n: nat, k: nat, cap: nat): nat
    requires 0 < cap
  {
    var off := w % cap;
    var first := if n < cap - off then n else cap - off;
    if k < first then off + k else k - first
  }

  lemma PlaceIsIndex(i: nat, n: nat, k: nat, cap: nat)
    requires GoodCap(cap) && k < n <= cap
    ensures Place(i % U32, n, k, cap) == (i + k) % cap < cap
  {
    ModMod(i, cap, U32);
    var off := i % cap;
    assert i + k == (i / cap) * cap + (off + k);
    if off + k < cap {
      DivModUnique(i + k, i / cap, off + k, cap);
    } else {
      DivModUnique(i + k, i / cap + 1, off + k - cap, cap);
    }
  }

  // ---- the copy routines -----------------------------------------------------------

  /** The byte that index i names. */
  function At(data: seq<Byte>, i: nat): Byte
    requires data != []
  {
    data[i % |data|]
  }

  /** len bytes from index i on. */
  ghost function Span(data: seq<Byte>, i: nat, len: nat): (r: seq<Byte>)
    requires data != []
    ensures |r| == len && forall k: nat :: k < len ==> r[k] == At(data, i + k)
  {
    seq(len, (k: int) requires 0 <= k && data != [] => At(data, i + k))
  }

  /** data' is data with bytes copied in from index word w on. */
  ghost predicate CopiedIn(data: seq<Byte>, data': seq<Byte>, w: nat, bytes: seq<Byte>) {
    && |data'| == |data| > 0 && |bytes| <= |data|
    && (forall k: nat :: k < |bytes| ==> Place(w, |bytes|, k, |data|) < |data| && data'[Place(w, |bytes|, k, |data|)] == bytes[k])
    && (forall j: nat :: j < |data| && (forall k: nat :: k < |bytes| ==> j != Place(w, |bytes|, k, |data|)) ==> data'[j] == data[j])
  }

  /** Copying behind len unread bytes appends to them. */
  lemma PutAppends(data: seq<Byte>, data': seq<Byte>, h: nat, len: nat, bytes: seq<Byte>)
    requires GoodCap(|data|) && len + |bytes| <= |data|
    requires CopiedIn(data, data', (h + len) % U32, bytes)
    ensures Span(data', h, len + |bytes|) == Span(data, h, len) + bytes
  {
    var cap := |data|;
    var r := Span(data, h, len) + bytes;
    var r' := Span(data', h, len + |bytes|);
    forall k: nat | k < |r'| ensures r'[k] == r[k] {
      if k < len {
        var w, n, x := (h + len) % U32, |bytes|, (h + k) % cap;
        forall j: nat | j < n ensures Place(w, n, j, cap) != x {
          PlaceIsIndex(h + len, |bytes|, j, cap);
          DifferentBytes(h + k, h + len + j, cap);
        }
      } else {
        PlaceIsIndex(h + len, |bytes|, k - len, cap);
      }
    }
  }

  /** The two segments read from index word w on are the span from there. */
  lemma CopiedOut(data: seq<Byte>, w: nat, n: nat, dst: seq<Byte>)
    requires GoodCap(|data|) && w < U32 && n <= |data| && |dst| == n
    requires forall k: nat :: k < n && k < |data| - w % |data| ==> dst[k] == data[w % |data| + k]
    requires forall k: nat :: |data| - w % |data| <= k < n ==> dst[k] == data[k - (|data| - w % |data|)]
    ensures dst == Span(data, w, n)
  {
    var r := Span(data, w, n);
    DivModUnique(w, 0, w, U32);
    forall k: nat | k < |r| ensures r[k] == dst[k] { PlaceIsIndex(w, n, k, |data|); }
  }

  /** dst.set(src, at) */
  method Blit(dst: array<Byte>, at: nat, src: seq<Byte>)
    requires at + |src| <= dst.Length
    modifies dst
    ensures forall k: nat :: k < |src| ==> dst[at + k] == src[k]
    ensures forall j: nat :: j < at || at + |src| <= j < dst.Length ==> dst[j] == old(dst[j])
  {
    for k := 0 to |src|
      invariant forall j: nat :: j < k ==> dst[at + j] == src[j]
      invariant forall j: nat :: j < at || at + k <= j < dst.Length ==> dst[j] == old(dst[j])
    {
      dst[at + k] := src[k];
    }
  }

  class Ring {
    const cap: nat
    const data: array<Byte>
    var head: nat  // PR_HEAD
    var tail: nat  // PR_TAIL

    ghost predicate Valid()
      reads this
    {
      GoodCap(cap) && data.Length == cap && head < U32 && tail < U32 && Diff(tail, head) <= cap
    }

    /** The unread bytes, oldest first. */
    ghost function Contents(): seq<Byte>
      reads this, data
      requires Valid()
    {
      Span(data[..], head, Diff(tail, head))
    }

    constructor (cap: nat)
      requires GoodCap(cap)
      ensures Valid() && this.cap == cap && fresh(data) && Contents() == []
    {
      this.cap := cap;
      data := new Byte[cap];
      head, tail := 0, 0;
    }

    /** pipeRingAvail */
    method Avail() returns (n: nat)
      requires Valid()
      ensures n == |Contents()|
    {
      n := Diff(tail, head);
    }

    /** pipeRingPut's copying */
    method CopyIn(w: nat, bytes: seq<Byte>)
      requires data.Length == cap && 0 < cap && |bytes| <= cap
      modifies data
      ensures CopiedIn(old(data[..]), data[..], w, bytes)
    {
      ghost var was := data[..];
      var off := w % cap;
      var first := if |bytes| < cap - off then |bytes| else cap - off;
      Blit(data, off, bytes[..first]);
      ghost var mid := data[..];
      Blit(data, 0, bytes[first..]);
      forall k: nat | k < |bytes| ensures data[Place(w, |bytes|, k, cap)] == bytes[k] {
        if k < first { assert mid[off + k] == bytes[..first][k]; assert data[off + k] == mid[off + k]; }
        else { assert data[0 + (k - first)] == bytes[first..][k - first]; }
      }
      forall j: nat | j < cap
        ensures data[j] == was[j] || exists k: nat :: k < |bytes| && j == Place(w, |bytes|, k, cap)
      {
        if off <= j < off + first { assert j == Place(w, |bytes|, j - off, cap); }
        if j < |bytes| - first { assert j == Place(w, |bytes|, j + first, cap); }
      }
    }

    /** pipeRingPut; the caller has checked the space. */
    method Put(bytes: seq<Byte>)
      requires Valid() && |bytes| <= cap - |Contents()|
      modifies this`tail, data
      ensures Valid() && Contents() == old(Contents()) + bytes
    {
      ghost var len, was := Diff(tail, head), data[..];
      IndexFacts(head, tail, |bytes|);
      CopyIn(tail, bytes);
      PutAppends(was, data[..], head, len, bytes);
      tail := (tail + |bytes|) % U32;
    }

    /** pipeRingTakeInto; the caller has checked what is available. */
    method TakeInto(dst: array<Byte>, n: nat)
      requires Valid() && n <= |Contents()| && n <= dst.Length && dst != data
      modifies this`head, dst
      ensures Valid() && Contents() == old(Contents())[n..]
      ensures dst[..n] == old(Contents())[..n]
      ensures forall i :: n <= i < dst.Length ==> dst[i] == old(dst[i])
    {
      hide Span, Place, Diff;
      ghost var all, bytes := Contents(), data[..];
      var off: nat := head % cap;
      var first: nat := if n < cap - off then n else cap - off;
      Blit(dst, 0, data[off..off + first]);
      ghost var mid := dst[..];
      Blit(dst, first, data[0..n - first]);
      CopiedOut(bytes, head, n, dst[..n]) by {
        forall k | first <= k < n ensures dst[k] == bytes[k - first] {
          assert dst[first + (k - first)] == data[0..n - first][k - first];
        }
        forall k: nat | k < first ensures dst[k] == bytes[off + k] {
          assert dst[k] == mid[0 + k] == bytes[off..off + first][k];
        }
      }
      assert dst[..n] == all[..n];
      TakeFacts(bytes, head, tail, n);
      head := (head + n) % U32;
    }
  }

  lemma IndexFacts(head: nat, tail: nat, n: nat)
    requires head < U32 && tail < U32 && Diff(tail, head) + n < U32
    ensures tail == (head + Diff(tail, head)) % U32
    ensures Diff((tail + n) % U32, head) == Diff(tail, head) + n
  {
    var len := Diff(tail, head);
    var q := (tail - head) / U32;
    assert head + len == tail + (-q) * U32;
    AddMultipleMod(tail, -q, U32);
    DivModUnique(tail, 0, tail, U32);
    DivModUnique(head, 0, head, U32);
    NextIndex(head + len, n);
    DiffOfIndices(head + len + n, head);
  }

  /** Advancing the head by n drops the first n unread bytes. */
  lemma TakeFacts(data: seq<Byte>, head: nat, tail: nat, n: nat)
    requires GoodCap(|data|) && head < U32 && tail < U32 && n <= Diff(tail, head) <= |data|
    ensures Diff(tail, (head + n) % U32) == Diff(tail, head) - n
    ensures Span(data, (head + n) % U32, Diff(tail, head) - n) == Span(data, head, Diff(tail, head))[n..]
  {
    var len := Diff(tail, head);
    IndexFacts(head, tail, 0);
    DiffOfIndices(head + len, head + n);
    var x := (head + n) % U32;
    SpanSuffix(data, head, n, len, x);
  }

  lemma SpanSuffix(data: seq<Byte>, h: nat, n: nat, len: nat, x: nat)
    requires GoodCap(|data|) && n <= len && x == (h + n) % U32
    ensures Span(data, x, len - n) == Span(data, h, len)[n..]
  {
    var r, r' := Span(data, h, len)[n..], Span(data, x, len - n);
    forall k: nat | k < |r'| ensures r'[k] == r[k] {
      SameByte(h + n, k, |data|);
      assert r[k] == At(data, h + (n + k));
    }
  }

  lemma SameByte(x: nat, i: nat, cap: nat)
    requires GoodCap(cap)
    ensures (x % U32 + i) % cap == (x + i) % cap
  {
    ModMod(x, cap, U32);
    var a, b := x % U32, x;
    assert a + i == (a / cap) * cap + (a % cap + i);
    assert b + i == (b / cap) * cap + (b % cap + i);
    AddMultipleMod(a % cap + i, a / cap, cap);
    AddMultipleMod(b % cap + i, b / cap, cap);
  }

  // ---- one producer and one consumer, interleaved --------------------------------------

  /** Where the producing side stands; PR_TAIL words are read before PR_HEAD words. */
  datatype Producer =
    | PIdle
    | PSawTail(offer: seq<Byte>, tail: nat)              // pipeRingAvail, between its loads
    | PSawFree(offer: seq<Byte>, free: nat)
    | PCopying(bytes: seq<Byte>, tail: nat, copied: nat) // pipeRingPut, before its store

  /** Where the consuming side stands. */
  datatype Consumer =
    | CIdle
    | CSawTail(count: nat, tail: nat)
    | CSawAvail(count: nat, avail: nat)
    | CCopying(n: nat, head: nat, dst: seq<Byte>)        // pipeRingTakeInto, before its store

  /** The shared words and bytes, both sides, and what has been committed so far:
      accepted by the producer's stores, delivered by the consumer's. */
  datatype Shared = Shared(data: seq<Byte>, head: nat, tail: nat, p: Producer, c: Consumer,
                           accepted: seq<Byte>, delivered: seq<Byte>)

  /** One atomic step of either side. */
  datatype Step =
    | StartPut(offer: seq<Byte>)  // load PR_TAIL
    | LoadHead                    // load PR_HEAD: the free space
    | BeginPut                    // load PR_TAIL again
    | CopyIn
    | CommitPut                   // store PR_TAIL
    | StartTake(count: nat)       // load PR_TAIL
    | LoadOwnHead                 // load PR_HEAD: what is available
    | BeginTake                   // load PR_HEAD again
    | CopyOut
    | CommitTake                  // store PR_HEAD

  function Min(a: nat, b: nat): nat { if a < b then a else b }

  /** The state after a step, or None where the step is not the next one of its side. */
  function After(s: Shared, e: Step): Option<Shared>
    requires s.data != []
  {
    var cap := |s.data|;
    match e
    case StartPut(offer) => if s.p.PIdle? then Some(s.(p := PSawTail(offer, s.tail))) else None
    case LoadHead =>
      if s.p.PSawTail? && Diff(s.p.tail, s.head) <= cap then
        Some(s.(p := PSawFree(s.p.offer, cap - Diff(s.p.tail, s.head)))) else None
    case BeginPut =>
      if s.p.PSawFree? then
        Some(s.(p := PCopying(s.p.offer[..Min(s.p.free, |s.p.offer|)], s.tail, 0))) else None
    case CopyIn =>
      if s.p.PCopying? && s.p.copied < |s.p.bytes| then
        var i := Place(s.p.tail, |s.p.bytes|, s.p.copied, cap);
        if i < cap then Some(s.(data := s.data[i := s.p.bytes[s.p.copied]], p := s.p.(copied := s.p.copied + 1))) else None
      else None
    case CommitPut =>
      if s.p.PCopying? && s.p.copied == |s.p.bytes| then
        Some(s.(tail := (s.p.tail + |s.p.bytes|) % U32, accepted := s.accepted + s.p.bytes, p := PIdle)) else None
    case StartTake(count) => if s.c.CIdle? then Some(s.(c := CSawTail(count, s.tail))) else None
    case LoadOwnHead =>
      if s.c.CSawTail? then Some(s.(c := CSawAvail(s.c.count, Diff(s.c.tail, s.head)))) else None
    case BeginTake =>
      if s.c.CSawAvail? then Some(s.(c := CCopying(Min(s.c.count, s.c.avail), s.head, []))) else None
    case CopyOut =>
      if s.c.CCopying? && |s.c.dst| < s.c.n then
        var i := Place(s.c.head, s.c.n, |s.c.dst|, cap);
        if i < cap then Some(s.(c := s.c.(dst := s.c.dst + [s.data[i]]))) else None
      else None
    case CommitTake =>
      if s.c.CCopying? && |s.c.dst| == s.c.n then
        Some(s.(head := (s.c.head + s.c.n) % U32, delivered := s.delivered + s.c.dst, c := CIdle)) else None
  }

  /** A freshly created ring. */
  ghost predicate Initial(s: Shared) {
    GoodCap(|s.data|) && s.head == 0 && s.tail == 0 && s.p == PIdle && s.c == CIdle && s.accepted == [] && s.delivered == []
  }

  /** s can be reached by the given interleaving. */
  ghost predicate Reaches(s0: Shared, steps: seq<Step>, s: Shared)
    decreases |steps|
  {
    if steps == [] then s == s0
    else exists m: Shared :: Reaches(s0, steps[..|steps| - 1], m) && m.data != [] && After(m, steps[|steps| - 1]) == Some(s)
  }

  /** Index h + k of the stream of accepted bytes is stored at its place. */
  ghost predicate Keeps(data: seq<Byte>, accepted: seq<Byte>, from: nat)
    requires data != []
  {
    forall i: nat :: from <= i < |accepted| ==> At(data, i) == accepted[i]
  }

  ghost predicate ProducerOk(s: Shared)
    requires s.data != []
  {
    var cap, h, t := |s.data|, |s.delivered|, |s.accepted|;
    match s.p
    case PIdle => true
    case PSawTail(_, w) => w == s.tail
    case PSawFree(_, free) => t - h + free <= cap
    case PCopying(bytes, w, copied) =>
      w == s.tail && t - h + |bytes| <= cap && copied <= |bytes| &&
      forall k: nat :: k < copied ==> At(s.data, t + k) == bytes[k]
  }

  ghost predicate ConsumerOk(s: Shared) {
    var h, t := |s.delivered|, |s.accepted|;
    match s.c
    case CIdle => true
    case CSawTail(_, w) => Diff(w, s.head) <= t - h
    case CSawAvail(_, avail) => avail <= t - h
    case CCopying(n, w, dst) =>
      w == s.head && n <= t - h && |dst| <= n && h + |dst| <= t && dst == s.accepted[h..h + |dst|]
  }

  ghost predicate Inv(s: Shared) {
    && GoodCap(|s.data|)
    && |s.delivered| <= |s.accepted| <= |s.delivered| + |s.data|
    && s.head == |s.delivered| % U32 && s.tail == |s.accepted| % U32
    && s.delivered == s.accepted[..|s.delivered|]
    && Keeps(s.data, s.accepted, |s.delivered|)
    && ProducerOk(s) && ConsumerOk(s)
  }

  lemma CopyInKeepsInv(s: Shared, s': Shared)
    requires Inv(s) && After(s, CopyIn) == Some(s')
    ensures Inv(s')
  {
    var cap, h, t := |s.data|, |s.delivered|, |s.accepted|;
    var k := s.p.copied;
    PlaceIsIndex(t, |s.p.bytes|, k, cap);
    forall i: nat | h <= i < t + k ensures At(s'.data, i) == At(s.data, i) {
      DifferentBytes(i, t + k, cap);
    }
  }

  lemma CommitPutKeepsInv(s: Shared, s': Shared)
    requires Inv(s) && After(s, CommitPut) == Some(s')
    ensures Inv(s')
  {
    hide Diff, At, GoodCap, Place;
    var h, t := |s.delivered|, |s.accepted|;
    NextIndex(t, |s.p.bytes|);
    forall i: nat | h <= i < |s'.accepted| ensures At(s'.data, i) == s'.accepted[i] {
      if i >= t { assert At(s.data, t + (i - t)) == s.p.bytes[i - t]; }
    }
  }

  lemma CopyOutKeepsInv(s: Shared, s': Shared)
    requires Inv(s) && After(s, CopyOut) == Some(s')
    ensures Inv(s')
  {
    var h, j := |s.delivered|, |s.c.dst|;
    PlaceIsIndex(h, s.c.n, j, |s.data|);
    assert At(s.data, h + j) == s.accepted[h + j];
    assert s.accepted[h..h + j + 1] == s.accepted[h..h + j] + [s.accepted[h + j]];
  }

  lemma CommitTakeKeepsInv(s: Shared, s': Shared)
    requires Inv(s) && After(s, CommitTake) == Some(s')
    ensures Inv(s')
  {
    var h := |s.delivered|;
    NextIndex(h, s.c.n);
    assert s'.delivered == s.accepted[..h + s.c.n];
    if s.p.PSawFree? || s.p.PCopying? {}
  }

  lemma LoadKeepsInv(s: Shared, e: Step, s': Shared)
    requires Inv(s) && After(s, e) == Some(s')
    requires e.StartPut? || e.LoadHead? || e.BeginPut? || e.StartTake? || e.LoadOwnHead? || e.BeginTake?
    ensures Inv(s')
  {
    DiffOfIndices(|s.accepted|, |s.delivered|);
  }

  /** Every step of either side keeps the invariant. */
  lemma StepKeepsInv(s: Shared, e: Step, s': Shared)
    requires Inv(s) && After(s, e) == Some(s')
    ensures Inv(s')
  {
    match e
    case CopyIn => CopyInKeepsInv(s, s');
    case CommitPut => CommitPutKeepsInv(s, s');
    case CopyOut => CopyOutKeepsInv(s, s');
    case CommitTake => CommitTakeKeepsInv(s, s');
    case _ => LoadKeepsInv(s, e, s');
  }

  lemma {:induction false} ReachableInv(s0: Shared, steps: seq<Step>, s: Shared)
    requires Initial(s0) && Reaches(s0, steps, s)
    ensures Inv(s)
    decreases |steps|
  {
    if steps == [] {
    } else {
      var m: Shared :| Reaches(s0, steps[..|steps| - 1], m) && m.data != [] && After(m, steps[|steps| - 1]) == Some(s);
      ReachableInv(s0, steps[..|steps| - 1], m);
      StepKeepsInv(m, steps[|steps| - 1], s);
    }
  }

  /** FIFO under every interleaving: the delivered bytes followed by the ring's
      contents are the accepted bytes, however often the indices have wrapped. */
  lemma RingIsFifo(s0: Shared, steps: seq<Step>, s: Shared)
    requires Initial(s0) && Reaches(s0, steps, s)
    ensures s.data != [] && Diff(s.tail, s.head) <= |s.data|
    ensures s.delivered + Span(s.data, s.head, Diff(s.tail, s.head)) == s.accepted
  {
    ReachableInv(s0, steps, s);
    ContentsAreUndelivered(s);
    Rejoin(s.accepted, |s.delivered|);
  }

  lemma Rejoin(a: seq<Byte>, h: nat)
    requires h <= |a|
    ensures a[..h] + a[h..] == a
  {
  }

  lemma ContentsAreUndelivered(s: Shared)
    requires Inv(s)
    ensures Diff(s.tail, s.head) == |s.accepted| - |s.delivered|
    ensures Span(s.data, s.head, Diff(s.tail, s.head)) == s.accepted[|s.delivered|..]
  {
    var h, n := |s.delivered|, |s.accepted| - |s.delivered|;
    DiffOfIndices(|s.accepted|, h);
    UnreadBytes(s.data, s.head, h, n, s.accepted[h..], s.accepted);
  }

  lemma UnreadBytes(data: seq<Byte>, head: nat, h: nat, n: nat, q: seq<Byte>, accepted: seq<Byte>)
    requires GoodCap(|data|) && head == h % U32 && |q| == n && h + n == |accepted| && q == accepted[h..]
    requires Keeps(data, accepted, h)
    ensures Span(data, head, n) == q
  {
    var r := Span(data, head, n);
    forall k: nat | k < |r| ensures r[k] == q[k] {
      SameByte(h, k, |data|);
      assert At(data, h + k) == accepted[h + k];
    }
  }

  /** While both sides are copying, the bytes being written and the bytes being
      read are different bytes of the data area. */
  lemma TransfersDisjoint(s0: Shared, steps: seq<Step>, s: Shared, i: nat, j: nat)
    requires Initial(s0) && Reaches(s0, steps, s)
    requires s.p.PCopying? && s.c.CCopying? && i < |s.p.bytes| && j < s.c.n && s.data != []
    ensures Place(s.p.tail, |s.p.bytes|, i, |s.data|) != Place(s.c.head, s.c.n, j, |s.data|)
  {
    hide Place, Reaches, Keeps, Diff;
    ReachableInv(s0, steps, s);
    ApartIn(s, i, j);
  }

  lemma ApartIn(s: Shared, i: nat, j: nat)
    requires Inv(s) && s.data != [] && s.p.PCopying? && s.c.CCopying? && i < |s.p.bytes| && j < s.c.n
    ensures Place(s.p.tail, |s.p.bytes|, i, |s.data|) != Place(s.c.head, s.c.n, j, |s.data|)
  {
    hide Place, Keeps, Diff;
    var cap, h, t := |s.data|, |s.delivered|, |s.accepted|;
    PlaceIsIndex(t, |s.p.bytes|, i, cap);
    PlaceIsIndex(h, s.c.n, j, cap);
    DifferentBytes(h + j, t + i, cap);
  }

  /** No step is ever refused by a bad index or a negative space: each side can
      always take its next step. */
  lemma NeverStuck(s0: Shared, steps: seq<Step>, s: Shared)
    requires Initial(s0) && Reaches(s0, steps, s)
    ensures s.data != []
    ensures s.p.PSawTail? ==> After(s, LoadHead).Some?
    ensures s.p.PCopying? ==> After(s, CopyIn).Some? || After(s, CommitPut).Some?
    ensures s.c.CCopying? ==> After(s, CopyOut).Some? || After(s, CommitTake).Some?
  {
    ReachableInv(s0, steps, s);
    ProducerStep(s);
    ConsumerStep(s);
  }

  lemma ProducerStep(s: Shared)
    requires Inv(s)
    ensures s.p.PSawTail? ==> After(s, LoadHead).Some?
    ensures s.p.PCopying? ==> After(s, CopyIn).Some? || After(s, CommitPut).Some?
  {
    DiffOfIndices(|s.accepted|, |s.delivered|);
    if s.p.PCopying? && s.p.copied < |s.p.bytes| { PlaceIsIndex(|s.accepted|, |s.p.bytes|, s.p.copied, |s.data|); }
  }

  lemma ConsumerStep(s: Shared)
    requires Inv(s)
    ensures s.c.CCopying? ==> After(s, CopyOut).Some? || After(s, CommitTake).Some?
  {
    if s.c.CCopying? && |s.c.dst| < s.c.n { PlaceIsIndex(|s.delivered|, s.c.n, |s.c.dst|, |s.data|); }
  }

  /** The step a FIFO queue takes: a committed write appends, a committed read
      removes from the front, and every other step leaves the queue alone. */
  lemma StepRefinesQueue(s: Shared, e: Step, s': Shared)
    requires Inv(s) && After(s, e) == Some(s')
    ensures var q, q' := s.accepted[|s.delivered|..], s'.accepted[|s'.delivered|..];
      match e
      case CommitPut => q' == q + s.p.bytes
      case CommitTake => s.c.n <= |q| && s.c.dst == q[..s.c.n] && q' == q[s.c.n..]
      case _ => q' == q
  {
    var h := |s.delivered|;
    match e
    case CommitPut => assert (s.accepted + s.p.bytes)[h..] == s.accepted[h..] + s.p.bytes;
    case CommitTake =>
      assert s.accepted[h..h + s.c.n] == s.accepted[h..][..s.c.n];
      assert s.accepted[h + s.c.n..] == s.accepted[h..][s.c.n..];
    case _ =>
  }

  // ---- a capacity that does not divide 2^32 ------------------------------------------------

  ghost predicate CanReach(s0: Shared, s: Shared) { exists steps :: Reaches(s0, steps, s) }

  lemma OneStepOn(s0: Shared, s: Shared, e: Step, s': Shared)
    requires CanReach(s0, s) && s.data != [] && After(s, e) == Some(s')
    ensures CanReach(s0, s')
  {
    hide After;
    var steps :| Reaches(s0, steps, s);
    assert (steps + [e])[..|steps|] == steps;
    assert Reaches(s0, steps + [e], s');
  }

  ghost predicate Resting(s: Shared) { s.data != [] && s.p == PIdle && s.c == CIdle }

  /** One byte goes out. */
  lemma TakeOne(s0: Shared, s: Shared)
    requires CanReach(s0, s) && Resting(s) && Diff(s.tail, s.head) >= 1
    ensures CanReach(s0, s.(head := (s.head + 1) % U32, delivered := s.delivered + [s.data[s.head % |s.data|]]))
  {
    hide CanReach, Diff;
    var avail := Diff(s.tail, s.head);
    var b := s.data[s.head % |s.data|];
    assert Min(1, avail) == 1 && [] + [b] == [b];
    assert Place(s.head, 1, 0, |s.data|) == s.head % |s.data|;
    OneStepOn(s0, s, StartTake(1), s.(c := CSawTail(1, s.tail)));
    OneStepOn(s0, s.(c := CSawTail(1, s.tail)), LoadOwnHead, s.(c := CSawAvail(1, avail)));
    OneStepOn(s0, s.(c := CSawAvail(1, avail)), BeginTake, s.(c := CCopying(1, s.head, [])));
    OneStepOn(s0, s.(c := CCopying(1, s.head, [])), CopyOut, s.(c := CCopying(1, s.head, [b])));
    OneStepOn(s0, s.(c := CCopying(1, s.head, [b])), CommitTake, s.(head := (s.head + 1) % U32, delivered := s.delivered + [b]));
  }

  /** Bytes are offered, and there is room for all of them. */
  lemma BeginsPut(s0: Shared, s: Shared, bytes: seq<Byte>)
    requires CanReach(s0, s) && Resting(s) && Diff(s.tail, s.head) + |bytes| <= |s.data|
    ensures CanReach(s0, s.(p := PCopying(bytes, s.tail, 0)))
  {
    hide CanReach, Diff;
    var free := |s.data| - Diff(s.tail, s.head);
    OneStepOn(s0, s, StartPut(bytes), s.(p := PSawTail(bytes, s.tail)));
    OneStepOn(s0, s.(p := PSawTail(bytes, s.tail)), LoadHead, s.(p := PSawFree(bytes, free)));
    assert bytes[..|bytes|] == bytes;
    OneStepOn(s0, s.(p := PSawFree(bytes, free)), BeginPut, s.(p := PCopying(bytes, s.tail, 0)));
  }

  lemma PutOne(s0: Shared, s: Shared, b: Byte)
    requires CanReach(s0, s) && Resting(s) && Diff(s.tail, s.head) < |s.data|
    ensures CanReach(s0, s.(data := s.data[s.tail % |s.data| := b], tail := (s.tail + 1) % U32, accepted := s.accepted + [b]))
  {
    BeginsPut(s0, s, [b]);
    hide CanReach, Diff;
    var a := s.(p := PCopying([b], s.tail, 0));
    var c := s.(data := s.data[s.tail % |s.data| := b], p := PCopying([b], s.tail, 1));
    OneStepOn(s0, a, CopyIn, c);
    OneStepOn(s0, c, CommitPut, c.(p := PIdle, tail := (s.tail + 1) % U32, accepted := s.accepted + [b]));
  }

  /** Two bytes go in side by side. */
  lemma PutTwo(s0: Shared, s: Shared, b: Byte, d: Byte)
    requires CanReach(s0, s) && Resting(s) && Diff(s.tail, s.head) + 2 <= |s.data|
    requires s.tail % |s.data| + 1 < |s.data|
    ensures CanReach(s0, s.(data := s.data[s.tail % |s.data| := b][s.tail % |s.data| + 1 := d],
                            tail := (s.tail + 2) % U32, accepted := s.accepted + [b, d]))
  {
    BeginsPut(s0, s, [b, d]);
    hide CanReach, Diff;
    var i := s.tail % |s.data|;
    var a := s.(p := PCopying([b, d], s.tail, 0));
    var c := s.(data := s.data[i := b], p := PCopying([b, d], s.tail, 1));
    var e := s.(data := s.data[i := b][i + 1 := d], p := PCopying([b, d], s.tail, 2));
    OneStepOn(s0, a, CopyIn, c);
    OneStepOn(s0, c, CopyIn, e);
    OneStepOn(s0, e, CommitPut, e.(p := PIdle, tail := (s.tail + 2) % U32, accepted := s.accepted + [b, d]));
  }

  /** An empty ring through which n zero bytes have gone. */
  function Blank(cap: nat, n: nat): Shared {
    Shared(seq(cap, i => 0), n % U32, n % U32, PIdle, CIdle, seq(n, i => 0), seq(n, i => 0))
  }

  lemma {:induction false} ZerosPass(cap: nat, n: nat)
    requires 0 < cap
    ensures CanReach(Blank(cap, 0), Blank(cap, n))
  {
    var s0 := Blank(cap, 0);
    if n == 0 {
      assert Reaches(s0, [], s0);
    } else {
      ZerosPass(cap, n - 1);
      hide CanReach;
      var s := Blank(cap, n - 1);
      DiffOfIndices(n - 1, n - 1);
      PutOne(s0, s, 0);
      assert s.data[s.tail % cap := 0] == s.data;
      NextIndex(n - 1, 1);
      var m := s.(tail := n % U32, accepted := seq(n, i => 0));
      assert s.accepted + [0] == m.accepted;
      DiffOfIndices(n, n - 1);
      TakeOne(s0, m);
      assert m.delivered + [0] == m.accepted;
    }
  }

  /** Where the indices wrap in the middle of a round of the area, two bytes put in together
      and taken out one at a time do not come out as they went in. */
  lemma BreaksFifo(cap: nat) returns (s: Shared)
    requires 0 < cap && U32 % cap != 0
    ensures CanReach(Blank(cap, 0), s) && !(s.delivered <= s.accepted)
  {
    var n, s0 := U32 - 1, Blank(cap, 0);
    ZerosPass(cap, n);
    hide CanReach;
    var a := Blank(cap, n);
    var i := n % cap;
    InTheMiddle(cap);
    DiffOfIndices(n, n);
    assert a.tail == a.head == n;
    assert Diff(a.tail, a.head) == 0;
    assert |a.data| == cap;
    PutTwo(s0, a, 1, 2);
    var b := a.(data := a.data[i := 1][i + 1 := 2], tail := 1, accepted := a.accepted + [1, 2]);
    TakeOne(s0, b);
    var c := b.(head := 0, delivered := a.delivered + [1]);
    TakeOne(s0, c);
    s := c.(head := 1, delivered := c.delivered + [c.data[0]]);
    assert s.delivered[n + 1] != 2 && s.accepted[n + 1] == 2;
  }

  lemma InTheMiddle(cap: nat)
    requires 0 < cap && U32 % cap != 0
    ensures (U32 - 1) % cap + 1 < cap && 2 <= cap
  {
    var i := (U32 - 1) % cap;
    assert U32 == ((U32 - 1) / cap) * cap + (i + 1);
    if i + 1 == cap {
      assert U32 == ((U32 - 1) / cap + 1) * cap;
      MultipleMod((U32 - 1) / cap + 1, cap);
    }
  }

  /** A ring of fewer than 2^32 bytes is a queue in every run exactly when its capacity
      divides 2^32. */
  lemma QueueExactly(cap: nat)
    requires 0 < cap < U32
    ensures (forall s :: CanReach(Blank(cap, 0), s) ==> s.delivered <= s.accepted) <==> U32 % cap == 0
  {
    if U32 % cap == 0 {
      forall s | CanReach(Blank(cap, 0), s) ensures s.delivered <= s.accepted {
        var steps :| Reaches(Blank(cap, 0), steps, s);
        RingIsFifo(Blank(cap, 0), steps, s);
      }
    } else {
      var s := BreaksFifo(cap);
    }
  }
}
