/** The additive merge of one file tree onto another: nothing there is overwritten or
    removed, directories merge, and every file appears whole, by a rename. A run may stop
    between any two file operations, or fail on what it cannot read. */
module MergeTree {
  import opened Wrappers

  type Name = string
  type Path = seq<Name>
  type Data = seq<bv8>

  type Mode = bv12

  datatype Entry = File(data: Data, mode: Mode) | Link(target: string) | Dir(mode: Mode)
  type Tree = map<Path, Entry>

  /** The mode of a node made with this one asked for: none left means the default. */
  function MadeMode(mode: Mode, umask: Mode, byDefault: Mode): Mode {
    var m := mode & 0x1FF & !umask;
    if m == 0 then byDefault else m
  }

  function Made(e: Entry, umask: Mode): Entry {
    match e
    case File(data, mode) => File(data, MadeMode(mode, umask, 0x1A4))
    case Link(_) => e
    case Dir(mode) => Dir(MadeMode(mode, umask, 0x1ED))
  }

  /** The source's nodes as a process with this mask makes them. */
  function Planting(tree: Tree, umask: Mode): Tree {
    map p | p in tree :: Made(tree[p], umask)
  }

  const TmpPrefix := ".fotmp."

  /** made has no bit beyond 0777, none that the mask takes, none that was not asked for, and
      every other. */
  predicate Exactly(asked: Mode, umask: Mode, made: Mode) {
    made <= 0x1FF && made & umask == 0 && made & asked == made && asked & 0x1FF == (made | (asked & 0x1FF & umask))
  }

  /** made has exactly those bits; or there are none, and it is the default. */
  predicate Permits(asked: Mode, umask: Mode, made: Mode, byDefault: Mode) {
    (made != 0 && Exactly(asked, umask, made)) || (made == byDefault && Exactly(asked, umask, 0))
  }

  lemma ModePermits(asked: Mode, umask: Mode, byDefault: Mode)
    ensures Permits(asked, umask, MadeMode(asked, umask, byDefault), byDefault)
  {
    hide Exactly;
    ModeBits(asked, umask);
  }

  lemma ModeBits(asked: Mode, umask: Mode)
    ensures Exactly(asked, umask, asked & 0x1FF & !umask)
  {
  }

  /** What a run makes of a source node: the same contents or target, and of its permissions
      those that the mask leaves; with none left, 0644 or 0755. */
  lemma PlantedAs(tree: Tree, umask: Mode, p: Path)
    requires p in tree
    ensures p in Planting(tree, umask)
    ensures var e, m := tree[p], Planting(tree, umask)[p];
      match e
      case File(data, mode) => m.File? && m.data == data && Permits(mode, umask, m.mode, 0x1A4)
      case Link(target) => m == Link(target)
      case Dir(mode) => m.Dir? && Permits(mode, umask, m.mode, 0x1ED)
  {
    hide Permits, MadeMode;
    match tree[p]
    case File(_, mode) => ModePermits(mode, umask, 0x1A4);
    case Dir(mode) => ModePermits(mode, umask, 0x1ED);
    case Link(_) =>
  }

  predicate IsTmp(n: Name) { TmpPrefix <= n }

  function Parent(p: Path): Path { if p == [] then [] else p[..|p| - 1] }

  /** "<dir>/.fotmp.<name>" */
  function Tmp(p: Path): Path { Parent(p) + [TmpPrefix + if p == [] then "" else p[|p| - 1]] }

  predicate Plain(p: Path) { p != [] && !IsTmp(p[|p| - 1]) }

  lemma TmpIsTmp(p: Path)
    ensures !Plain(Tmp(p))
  {
    assert TmpPrefix <= Tmp(p)[|Tmp(p)| - 1];
  }

  lemma TmpDistinct(p: Path, q: Path)
    requires p != [] && q != [] && Tmp(p) == Tmp(q)
    ensures p == q
  {
    var a, b := p[|p| - 1], q[|q| - 1];
    assert |p| == |Tmp(p)| == |Tmp(q)| == |q|;
    assert Parent(p) == Tmp(p)[..|p| - 1] == Parent(q);
    assert TmpPrefix + a == Tmp(p)[|p| - 1] == TmpPrefix + b;
    assert a == (TmpPrefix + a)[|TmpPrefix|..] == (TmpPrefix + b)[|TmpPrefix|..] == b;
    assert p == Parent(p) + [a] && q == Parent(q) + [b];
  }

  /** What is to be merged, keyed by where it is to go: a tree at root whose nodes' parents
      are directories, with no temporary file's name in it. */
  ghost predicate Source(src: Tree, root: Path) {
    && root in src
    && (forall p :: p in src ==> Plain(p) && root <= p && (p != root ==> Parent(p) in src && src[Parent(p)].Dir?))
  }

  /** Every directory on the way from root to p is one in dst too, if it is there at all. */
  ghost predicate Reach(dst: Tree, root: Path, p: Path) {
    forall n :: |root| <= n < |p| && p[..n] in dst ==> dst[p[..n]].Dir?
  }

  /** p is missing and its place is open. */
  ghost predicate Missing(src: Tree, root: Path, dst: Tree, p: Path) {
    p in src && p !in dst && Reach(dst, root, p)
  }

  /** q is a temporary file's path of a missing file. */
  ghost predicate Temporary(src: Tree, root: Path, dst: Tree, q: Path) {
    exists p :: p in src && q == Tmp(p) && src[p].File? && Missing(src, root, dst, p)
  }

  /** dst with everything missing added. */
  ghost predicate Merged(src: Tree, root: Path, dst: Tree, after: Tree) {
    && (forall p :: p in dst && !Temporary(src, root, dst, p) ==> p in after && after[p] == dst[p])
    && (forall p :: Missing(src, root, dst, p) ==> p in after && after[p] == src[p])
    && (forall p :: p in after ==> Missing(src, root, dst, p) || (p in dst && !Temporary(src, root, dst, p)))
  }

  /** What a copy makes of p: a temporary file that is there keeps its mode. */
  function Landed(src: Tree, dst: Tree, p: Path): (e: Entry)
    requires p in src
    ensures e == src[p] || (src[p].File? && Tmp(p) in dst && dst[Tmp(p)].File? && e == src[p].(mode := dst[Tmp(p)].mode))
  {
    if src[p].File? && Tmp(p) in dst && dst[Tmp(p)].File? then File(src[p].data, dst[Tmp(p)].mode) else src[p]
  }

  /** dst with everything missing added as it lands: what a run that succeeds makes of dst. */
  ghost predicate Finished(src: Tree, root: Path, dst: Tree, after: Tree) {
    && (forall p :: p in dst && !Temporary(src, root, dst, p) ==> p in after && after[p] == dst[p])
    && (forall p :: Missing(src, root, dst, p) ==> p in after && after[p] == Landed(src, dst, p))
    && (forall p :: p in after ==> Missing(src, root, dst, p) || (p in dst && !Temporary(src, root, dst, p)))
  }

  /** No missing file has a temporary one of another mode waiting for it. */
  ghost predicate ModesAgree(src: Tree, root: Path, dst: Tree) {
    forall p :: Missing(src, root, dst, p) && src[p].File? && Tmp(p) in dst && dst[Tmp(p)].File? ==>
      dst[Tmp(p)].mode == src[p].mode
  }

  /** p's directory is there. */
  predicate Open(d: Tree, p: Path) { Parent(p) in d && d[Parent(p)].Dir? }

  /** A state on the way from dst to its merge: some missing nodes are there, with the
      directories they are in, and missing files may have temporary ones. Modes are the
      source's or those of the temporary files of dst. */
  ghost predicate Between(src: Tree, root: Path, dst: Tree, d: Tree) {
    && (forall p :: p in dst && !Temporary(src, root, dst, p) ==> p in d && d[p] == dst[p])
    && (forall p :: p in d ==>
          || (p in dst && !Temporary(src, root, dst, p))
          || (Missing(src, root, dst, p) && Open(d, p) && (d[p] == src[p] || d[p] == Landed(src, dst, p)))
          || Temporary(src, root, dst, p))
    && (forall p :: Missing(src, root, dst, p) && src[p].File? && Tmp(p) in d ==> p !in d && Open(d, p) && MayHold(src, dst, p, d[Tmp(p)]))
  }

  /** e may be a temporary file of p. */
  ghost predicate MayHold(src: Tree, dst: Tree, p: Path, e: Entry) {
    p in src && src[p].File? && e.File? && (e.mode == src[p].mode || e.mode == Landed(src, dst, p).mode)
  }

  /** Whatever stands at a temporary file's path is a file left by an earlier run. */
  ghost predicate StaleOnly(src: Tree, root: Path, dst: Tree) {
    forall p :: p in dst && Temporary(src, root, dst, p) ==> dst[p].File?
  }

  /** Every node but the top is in a directory. */
  ghost predicate Closed(dst: Tree) {
    forall p :: p in dst && p != [] ==> Open(dst, p)
  }

  lemma Start(src: Tree, root: Path, dst: Tree)
    requires Source(src, root) && StaleOnly(src, root, dst) && Closed(dst)
    ensures Between(src, root, dst, dst)
  {
    forall p | Missing(src, root, dst, p) && src[p].File? && Tmp(p) in dst
      ensures Open(dst, p) && MayHold(src, dst, p, dst[Tmp(p)])
    {
      assert Parent(Tmp(p)) == Parent(p) && Temporary(src, root, dst, Tmp(p));
    }
  }

  lemma {:induction false} ReachSame(src: Tree, root: Path, dst: Tree, d: Tree, p: Path)
    requires Source(src, root) && Between(src, root, dst, d) && p in src
    ensures Reach(d, root, p) <==> Reach(dst, root, p)
  {
    forall n | |root| <= n < |p|
      ensures p[..n] in dst ==> p[..n] in d && d[p[..n]] == dst[p[..n]]
      ensures p[..n] in d && p[..n] !in dst ==> d[p[..n]].Dir?
    {
      PrefixIn(src, root, p, n);
      PlainNotTmp(src, root, dst, p[..n]);
    }
  }

  lemma PlainNotTmp(src: Tree, root: Path, dst: Tree, p: Path)
    requires Plain(p)
    ensures !Temporary(src, root, dst, p)
  {
    forall q | q in src ensures Tmp(q) != p {
      TmpIsTmp(q);
    }
  }

  lemma {:induction false} PrefixIn(src: Tree, root: Path, p: Path, n: nat)
    requires Source(src, root) && p in src && |root| <= n < |p|
    ensures p[..n] in src && src[p[..n]].Dir?
    decreases |p|
  {
    if n < |p| - 1 {
      assert Parent(p)[..n] == p[..n];
      PrefixIn(src, root, Parent(p), n);
    } else {
      assert p != root && Parent(p) == p[..n];
    }
  }

  /** What is still missing on the way is what was missing and is not there yet. */
  lemma MissingThen(src: Tree, root: Path, dst: Tree, d: Tree, p: Path)
    requires Source(src, root) && Between(src, root, dst, d) && p in src
    ensures Missing(src, root, d, p) <==> Missing(src, root, dst, p) && p !in d
  {
    ReachSame(src, root, dst, d, p);
    PlainNotTmp(src, root, dst, p);
  }

  lemma TemporaryThen(src: Tree, root: Path, dst: Tree, d: Tree, q: Path)
    requires Source(src, root) && Between(src, root, dst, d)
    ensures Temporary(src, root, d, q) ==> Temporary(src, root, dst, q)
    ensures Temporary(src, root, dst, q) && q in d ==> Temporary(src, root, d, q)
  {
    forall p | p in src && q == Tmp(p) && src[p].File?
      ensures Missing(src, root, d, p) <==> Missing(src, root, dst, p) && p !in d
    {
      MissingThen(src, root, dst, d, p);
    }
  }

  // ---- stopping and going on ---------------------------------------------------------------------

  /** A run begun on the way is on the way too. */
  lemma Onwards(src: Tree, root: Path, dst: Tree, d: Tree, e: Tree)
    requires Source(src, root) && Between(src, root, dst, d) && Between(src, root, d, e)
    ensures Between(src, root, dst, e)
  {
    hide Source, Missing, Temporary, Tmp, Landed, Open, MayHold;
    BetweenThen(src, root, dst, d);
    forall p | p in e && Missing(src, root, dst, p) && p in d
      ensures Open(e, p)
    {
      OpenStays(src, root, dst, d, e, p);
    }
    forall p | Missing(src, root, dst, p) && p !in d ensures p in src && (Landed(src, d, p) == src[p] || Landed(src, d, p) == Landed(src, dst, p)) {
      LandsAlike(src, root, dst, d, p);
    }
    forall p | Missing(src, root, dst, p) && src[p].File? && Tmp(p) in e && p !in d
      ensures MayHold(src, dst, p, e[Tmp(p)])
    {
      LandsAlike(src, root, dst, d, p);
      HoldsAlike(src, dst, d, p, e[Tmp(p)]);
    }
    forall p | Missing(src, root, dst, p) && src[p].File? && p in d ensures Tmp(p) !in e && p in e {
      NoTmpComes(src, root, dst, d, e, p);
    }
  }

  lemma BetweenThen(src: Tree, root: Path, dst: Tree, d: Tree)
    requires Source(src, root) && Between(src, root, dst, d)
    ensures forall p :: Missing(src, root, dst, p) ==> p in src && p !in dst && (Missing(src, root, d, p) <==> p !in d)
    ensures forall p :: Missing(src, root, d, p) ==> p in src && p !in d && Missing(src, root, dst, p)
    ensures forall p :: Temporary(src, root, d, p) ==> Temporary(src, root, dst, p)
    ensures forall p :: Temporary(src, root, dst, p) && p in d ==> Temporary(src, root, d, p)
    ensures forall p :: Missing(src, root, dst, p) ==> !Temporary(src, root, dst, p) && !Temporary(src, root, d, p)
  {
    forall p | p in src ensures Missing(src, root, d, p) <==> Missing(src, root, dst, p) && p !in d {
      MissingThen(src, root, dst, d, p);
    }
    forall p ensures Temporary(src, root, d, p) ==> Temporary(src, root, dst, p)
      ensures Temporary(src, root, dst, p) && p in d ==> Temporary(src, root, d, p)
    {
      TemporaryThen(src, root, dst, d, p);
    }
    forall p | p in src ensures !Temporary(src, root, dst, p) && !Temporary(src, root, d, p) {
      PlainNotTmp(src, root, dst, p);
      PlainNotTmp(src, root, d, p);
    }
  }

  lemma OpenStays(src: Tree, root: Path, dst: Tree, d: Tree, e: Tree, p: Path)
    requires Source(src, root) && Between(src, root, dst, d) && Between(src, root, d, e)
    requires p in d && Missing(src, root, dst, p)
    ensures Open(e, p)
  {
    PlainNotTmp(src, root, dst, p);
    AboveNotTmp(src, root, d, p);
  }

  /** The directory of a node to be merged is no temporary file's path. */
  lemma AboveNotTmp(src: Tree, root: Path, d: Tree, p: Path)
    requires Source(src, root) && p in src
    ensures !Temporary(src, root, d, Parent(p))
  {
    forall q | q in src ensures Tmp(q) != Parent(p) {
      TmpIsTmp(q);
      if p == root { assert |Tmp(q)| == |q| >= |root|; }
    }
  }

  lemma LandsAlike(src: Tree, root: Path, dst: Tree, d: Tree, p: Path)
    requires Source(src, root) && Between(src, root, dst, d) && Missing(src, root, dst, p) && p !in d
    ensures Landed(src, d, p) == src[p] || Landed(src, d, p) == Landed(src, dst, p)
  {
  }

  lemma HoldsAlike(src: Tree, dst: Tree, d: Tree, p: Path, e: Entry)
    requires MayHold(src, d, p, e) && (Landed(src, d, p) == src[p] || Landed(src, d, p) == Landed(src, dst, p))
    ensures MayHold(src, dst, p, e)
  {
  }

  /** A file that has come gets no temporary one any more. */
  lemma NoTmpComes(src: Tree, root: Path, dst: Tree, d: Tree, e: Tree, p: Path)
    requires Source(src, root) && Between(src, root, dst, d) && Between(src, root, d, e)
    requires Missing(src, root, dst, p) && src[p].File? && p in d
    ensures Tmp(p) !in e && p in e
  {
    TmpIsTmp(p);
    PlainNotTmp(src, root, d, p);
    MissingThen(src, root, dst, d, p);
    NotTmpOfOther(src, root, d, p);
    NothingComes(src, root, d, e, Tmp(p));
  }

  lemma NothingComes(src: Tree, root: Path, d: Tree, e: Tree, q: Path)
    requires Between(src, root, d, e) && q !in d && !Missing(src, root, d, q) && !Temporary(src, root, d, q)
    ensures q !in e
  {
  }

  lemma NotTmpOfOther(src: Tree, root: Path, d: Tree, p: Path)
    requires Source(src, root) && p in src && !Missing(src, root, d, p)
    ensures !Temporary(src, root, d, Tmp(p))
  {
    forall q | q in src && Tmp(q) == Tmp(p) ensures q == p {
      TmpDistinct(q, p);
    }
  }

  /** What has come of a missing file, or is to come of it, is what one run makes of it. */
  ghost predicate AsPlanned(src: Tree, root: Path, dst: Tree, d: Tree) {
    forall p :: Missing(src, root, dst, p) ==> (if p in d then d[p] else Landed(src, d, p)) == Landed(src, dst, p)
  }

  /** However far a run has come, completing it adds everything that is missing, and makes
      of it what one complete run makes of it exactly when everything is as planned. */
  lemma Converges(src: Tree, root: Path, dst: Tree, d: Tree, after: Tree)
    requires Source(src, root) && Between(src, root, dst, d) && Finished(src, root, d, after)
    ensures forall p :: p in dst && !Temporary(src, root, dst, p) ==> p in after && after[p] == dst[p]
    ensures forall p :: Missing(src, root, dst, p) ==> p in after && (after[p] == src[p] || after[p] == Landed(src, dst, p))
    ensures forall p :: p in after ==> Missing(src, root, dst, p) || (p in dst && !Temporary(src, root, dst, p))
    ensures Finished(src, root, dst, after) <==> AsPlanned(src, root, dst, d)
    ensures ModesAgree(src, root, dst) ==> Merged(src, root, dst, after)
  {
    hide Source, Missing, Temporary, Tmp, Landed, Open, MayHold, ModesAgree, AsPlanned;
    BetweenThen(src, root, dst, d);
    EndsUp(src, root, dst, d, after);
    hide Between;
    forall p | Missing(src, root, dst, p) && ModesAgree(src, root, dst) ensures Landed(src, dst, p) == src[p] {
      LandsExactly(src, root, dst, p);
    }
    EndsAsPlanned(src, root, dst, d, after);
  }

  lemma EndsUp(src: Tree, root: Path, dst: Tree, d: Tree, after: Tree)
    requires Source(src, root) && Between(src, root, dst, d) && Finished(src, root, d, after)
    ensures forall p :: p in dst && !Temporary(src, root, dst, p) ==> p in after && after[p] == dst[p]
    ensures forall p :: Missing(src, root, dst, p) ==>
      && p in src && p in after && (after[p] == src[p] || after[p] == Landed(src, dst, p))
      && after[p] == if p in d then d[p] else Landed(src, d, p)
    ensures forall p :: p in after ==> Missing(src, root, dst, p) || (p in dst && !Temporary(src, root, dst, p))
  {
    hide Source, Missing, Temporary, Tmp, Landed, Open, MayHold;
    BetweenThen(src, root, dst, d);
    forall p | Missing(src, root, dst, p) && p !in d ensures Landed(src, d, p) == src[p] || Landed(src, d, p) == Landed(src, dst, p) {
      LandsAlike(src, root, dst, d, p);
    }
  }

  lemma EndsAsPlanned(src: Tree, root: Path, dst: Tree, d: Tree, after: Tree)
    requires forall p :: Missing(src, root, dst, p) ==> p in src && p in after && after[p] == if p in d then d[p] else Landed(src, d, p)
    requires forall p :: p in dst && !Temporary(src, root, dst, p) ==> p in after && after[p] == dst[p]
    requires forall p :: p in after ==> Missing(src, root, dst, p) || (p in dst && !Temporary(src, root, dst, p))
    ensures Finished(src, root, dst, after) <==> AsPlanned(src, root, dst, d)
  {
    hide Missing, Temporary, Landed;
  }

  lemma LandsExactly(src: Tree, root: Path, dst: Tree, p: Path)
    requires Missing(src, root, dst, p) && ModesAgree(src, root, dst)
    ensures Landed(src, dst, p) == src[p]
  {
  }

  /** A run that succeeds is the merge exactly when no temporary file left by an earlier one
      has another mode than the file it is for. */
  lemma FinishedIsMerged(src: Tree, root: Path, dst: Tree, after: Tree)
    requires Finished(src, root, dst, after)
    ensures Merged(src, root, dst, after) <==> ModesAgree(src, root, dst)
  {
    hide Temporary, Reach;
    if Merged(src, root, dst, after) {
      forall p | Missing(src, root, dst, p) && src[p].File? && Tmp(p) in dst && dst[Tmp(p)].File?
        ensures dst[Tmp(p)].mode == src[p].mode
      {
        assert after[p] == src[p] == Landed(src, dst, p);
      }
    }
  }

  const A: Path := ["a"]
  const TmpA: Path := [".fotmp.a"]
  const Wanted := map[A := File([1], 0x1A4)]
  const Stale := map[[] := Dir(0x1ED), TmpA := File([7], 0x180)]

  lemma StaleFacts()
    ensures Plain(A) && Tmp(A) == TmpA && A != TmpA && Parent(TmpA) == Parent(A) == []
    ensures forall p :: Missing(Wanted, A, Stale, p) <==> p == A
    ensures forall p :: Temporary(Wanted, A, Stale, p) <==> p == TmpA
  {
    assert |A[0]| < |TmpPrefix|;
    assert Tmp(A)[0] == ".fotmp.a";
    assert A[0] != TmpA[0];
    assert Missing(Wanted, A, Stale, A);
  }

  /** A file asked for with mode 0644, and a temporary one of mode 0600 left for it: the file
      comes with mode 0600. */
  lemma StaleModeStays()
    ensures Source(Wanted, A) && Closed(Stale) && StaleOnly(Wanted, A, Stale) && Open(Stale, A)
    ensures var after := map[[] := Dir(0x1ED), A := File([1], 0x180)];
      Finished(Wanted, A, Stale, after) && !Merged(Wanted, A, Stale, after)
  {
    hide Missing, Temporary, Plain, Tmp;
    StaleFacts();
    assert Landed(Wanted, Stale, A) == File([1], 0x180);
  }

  /** Two complete runs on the same tree make the same of it. */
  lemma OneResult(src: Tree, root: Path, dst: Tree, a: Tree, b: Tree)
    requires Finished(src, root, dst, a) && Finished(src, root, dst, b)
    ensures a == b
  {
    hide Missing, Temporary, Landed;
    forall p ensures p in a <==> p in b {}
  }

  /** trees[0], and what each of a number of stopped or failed runs has made of the one before. */
  ghost predicate Runs(src: Tree, root: Path, trees: seq<Tree>) {
    |trees| > 0 && forall i :: 0 < i < |trees| ==> Between(src, root, trees[i - 1], trees[i])
  }

  lemma {:induction false} RunsOnwards(src: Tree, root: Path, trees: seq<Tree>)
    requires Source(src, root) && Runs(src, root, trees)
    requires StaleOnly(src, root, trees[0]) && Closed(trees[0])
    ensures Between(src, root, trees[0], trees[|trees| - 1])
  {
    hide Source, StaleOnly, Closed, Between;
    if |trees| == 1 {
      Start(src, root, trees[0]);
    } else {
      RunsOnwards(src, root, trees[..|trees| - 1]);
      Onwards(src, root, trees[0], trees[|trees| - 2], trees[|trees| - 1]);
    }
  }

  /** Any number of stopped runs and then a complete one give the tree that one complete run
      gives, if what they left was as planned and only then; it is, where no temporary file
      of another mode was there to begin with. */
  lemma StoppedRunsConverge(src: Tree, root: Path, trees: seq<Tree>, after: Tree, once: Tree)
    requires Source(src, root) && Runs(src, root, trees)
    requires StaleOnly(src, root, trees[0]) && Closed(trees[0])
    requires Finished(src, root, trees[|trees| - 1], after) && Finished(src, root, trees[0], once)
    ensures after == once <==> AsPlanned(src, root, trees[0], trees[|trees| - 1])
    ensures ModesAgree(src, root, trees[0]) ==> after == once && Merged(src, root, trees[0], after)
  {
    hide Source, StaleOnly, Closed, Between, Finished, Merged, ModesAgree, AsPlanned;
    RunsOnwards(src, root, trees);
    Converges(src, root, trees[0], trees[|trees| - 1], after);
    FinishedIsMerged(src, root, trees[0], once);
    if Finished(src, root, trees[0], after) { OneResult(src, root, trees[0], after, once); }
    if ModesAgree(src, root, trees[0]) { MergedFinished(src, root, trees[0], after); }
  }

  lemma MergedFinished(src: Tree, root: Path, dst: Tree, after: Tree)
    requires ModesAgree(src, root, dst) && Merged(src, root, dst, after)
    ensures Finished(src, root, dst, after)
  {
    hide Temporary;
    forall p | Missing(src, root, dst, p) ensures Landed(src, dst, p) == src[p] {
      LandsExactly(src, root, dst, p);
    }
  }

  /** What one complete run makes of dst. */
  ghost function Completed(src: Tree, root: Path, dst: Tree): Tree {
    map q | q in dst.Keys + src.Keys && (Missing(src, root, dst, q) || (q in dst && !Temporary(src, root, dst, q))) ::
      if q in src && Missing(src, root, dst, q) then Landed(src, dst, q) else dst[q]
  }

  lemma CompletedIsFinished(src: Tree, root: Path, dst: Tree)
    ensures Finished(src, root, dst, Completed(src, root, dst))
  {
    hide Temporary, Landed, Reach;
  }

  /** A copy that fails removes the temporary file that was there. Where that had another
      mode, the file then comes with a mode that one complete run does not give it. */
  lemma LostMode(src: Tree, root: Path, dst: Tree, p: Path)
    requires Source(src, root) && StaleOnly(src, root, dst) && Closed(dst) && Missing(src, root, dst, p) && src[p].File?
    requires Tmp(p) in dst && dst[Tmp(p)].File? && dst[Tmp(p)].mode != src[p].mode
    ensures var d := dst - {Tmp(p)};
      Between(src, root, dst, d) && Missing(src, root, d, p) && Landed(src, d, p) == src[p] && Landed(src, dst, p) != src[p]
  {
    hide Temporary, Tmp, Source, Closed, StaleOnly, Between;
    Start(src, root, dst);
    TmpRemoved(src, root, dst, dst, p);
    MissingThen(src, root, dst, dst - {Tmp(p)}, p);
    assert src[p] != src[p].(mode := dst[Tmp(p)].mode);
  }

  /** A complete run after these gives after. */
  ghost predicate ThenCompleted(src: Tree, root: Path, trees: seq<Tree>, after: Tree) {
    |trees| > 0 && Finished(src, root, trees[|trees| - 1], after)
  }

  /** Whatever the runs, completing what they left gives once. */
  ghost predicate AlwaysConverges(src: Tree, root: Path, dst: Tree, once: Tree) {
    forall trees, after :: Runs(src, root, trees) && trees[0] == dst && ThenCompleted(src, root, trees, after) ==> after == once
  }

  lemma ModeWaits(src: Tree, root: Path, dst: Tree) returns (p: Path)
    requires !ModesAgree(src, root, dst)
    ensures Missing(src, root, dst, p) && p in src && src[p].File? && Tmp(p) in dst && dst[Tmp(p)].File? && dst[Tmp(p)].mode != src[p].mode
  {
    p :| Missing(src, root, dst, p) && src[p].File? && Tmp(p) in dst && dst[Tmp(p)].File? && dst[Tmp(p)].mode != src[p].mode;
  }

  /** Stopped and failed runs followed by a complete one give what one complete run gives,
      whatever those runs are, exactly when no temporary file of another mode is waiting for a
      missing file. */
  lemma ConvergesExactly(src: Tree, root: Path, dst: Tree, once: Tree)
    requires Source(src, root) && StaleOnly(src, root, dst) && Closed(dst) && Finished(src, root, dst, once)
    ensures ModesAgree(src, root, dst) <==> AlwaysConverges(src, root, dst, once)
  {
    hide Source, StaleOnly, Closed, Finished, Between, Missing, Temporary, Tmp, Landed;
    if ModesAgree(src, root, dst) {
      forall trees, after | Runs(src, root, trees) && trees[0] == dst && ThenCompleted(src, root, trees, after)
        ensures after == once
      {
        StoppedRunsConverge(src, root, trees, after, once);
      }
    } else {
      var p := ModeWaits(src, root, dst);
      var d := dst - {Tmp(p)};
      LostMode(src, root, dst, p);
      CompletedIsFinished(src, root, d);
      Differ(src, root, dst, d, Completed(src, root, d), once, p);
      assert Runs(src, root, [dst, d]) && ThenCompleted(src, root, [dst, d], Completed(src, root, d));
    }
  }

  lemma Differ(src: Tree, root: Path, dst: Tree, d: Tree, after: Tree, once: Tree, p: Path)
    requires Missing(src, root, dst, p) && Missing(src, root, d, p) && Landed(src, d, p) != Landed(src, dst, p)
    requires Finished(src, root, d, after) && Finished(src, root, dst, once)
    ensures after != once
  {
    hide Temporary, Landed;
    assert after[p] != once[p];
  }

  /** Runs that leave everything as planned do so together. */
  lemma PlannedOnwards(src: Tree, root: Path, dst: Tree, d: Tree, e: Tree)
    requires Source(src, root) && Between(src, root, dst, d) && Between(src, root, d, e)
    requires AsPlanned(src, root, dst, d) && AsPlanned(src, root, d, e)
    ensures AsPlanned(src, root, dst, e)
  {
    hide Source, Missing, Temporary, Landed, Open, MayHold;
    BetweenThen(src, root, dst, d);
  }

  lemma {:induction false} AllPlanned(src: Tree, root: Path, trees: seq<Tree>)
    requires Source(src, root) && Runs(src, root, trees) && StaleOnly(src, root, trees[0]) && Closed(trees[0])
    requires forall i :: 0 < i < |trees| ==> AsPlanned(src, root, trees[i - 1], trees[i])
    ensures AsPlanned(src, root, trees[0], trees[|trees| - 1])
  {
    hide Source, StaleOnly, Closed, Between;
    if |trees| > 1 {
      hide AsPlanned;
      var before := trees[..|trees| - 1];
      AllPlanned(src, root, before);
      RunsOnwards(src, root, before);
      PlannedOnwards(src, root, trees[0], trees[|trees| - 2], trees[|trees| - 1]);
    }
  }

  /** Runs that are only ever stopped, never failing, always converge, whatever modes wait:
      see Disk.Run for what such a run leaves as planned. */
  lemma StoppedCalmlyConverge(src: Tree, root: Path, trees: seq<Tree>, after: Tree, once: Tree)
    requires Source(src, root) && Runs(src, root, trees) && StaleOnly(src, root, trees[0]) && Closed(trees[0])
    requires forall i :: 0 < i < |trees| ==> AsPlanned(src, root, trees[i - 1], trees[i])
    requires Finished(src, root, trees[|trees| - 1], after) && Finished(src, root, trees[0], once)
    ensures after == once
  {
    AllPlanned(src, root, trees);
    hide Source, Between, StaleOnly, Closed, AsPlanned, Finished;
    StoppedRunsConverge(src, root, trees, after, once);
  }

  /** A merge changes nothing any more once it is complete. */
  lemma MergeAgain(src: Tree, root: Path, dst: Tree, after: Tree, again: Tree)
    requires Source(src, root) && Closed(dst) && Open(dst, root)
    requires Finished(src, root, dst, after) && Finished(src, root, after, again)
    ensures again == after
  {
    hide Missing, Temporary, Source, Landed;
    NothingMissing(src, root, dst, after);
    forall p ensures p in again <==> p in after {}
  }

  lemma NothingMissing(src: Tree, root: Path, dst: Tree, after: Tree)
    requires Source(src, root) && Closed(dst) && Open(dst, root) && Finished(src, root, dst, after)
    ensures forall p :: !Missing(src, root, after, p) && !Temporary(src, root, after, p)
  {
    CompleteIsBetween(src, root, dst, after);
    forall p ensures !Missing(src, root, after, p) {
      if p in src { MissingThen(src, root, dst, after, p); }
    }
  }

  lemma TmpNotIn(src: Tree, root: Path, dst: Tree, after: Tree, p: Path)
    requires Source(src, root) && Finished(src, root, dst, after) && Missing(src, root, dst, p) && src[p].File?
    ensures Tmp(p) !in after
  {
    TmpIsTmp(p);
    assert Temporary(src, root, dst, Tmp(p));
  }

  lemma CompleteIsBetween(src: Tree, root: Path, dst: Tree, after: Tree)
    requires Source(src, root) && Closed(dst) && Open(dst, root) && Finished(src, root, dst, after)
    ensures Between(src, root, dst, after)
  {
    hide Temporary, Missing, Source, Tmp, Open;
    forall p | Missing(src, root, dst, p) && p in src && src[p].File? ensures Tmp(p) !in after {
      TmpNotIn(src, root, dst, after, p);
    }
    forall p | Missing(src, root, dst, p) ensures Open(after, p) && p in src {
      ParentThere(src, root, dst, after, p);
    }
  }

  lemma ParentThere(src: Tree, root: Path, dst: Tree, after: Tree, p: Path)
    requires Source(src, root) && Finished(src, root, dst, after) && Missing(src, root, dst, p) && Open(dst, root)
    ensures Open(after, p) && p in src
  {
    AboveNotTmp(src, root, dst, p);
    if p != root {
      var q := Parent(p);
      assert q == p[..|p| - 1];
      forall n | |root| <= n < |q| && q[..n] in dst ensures dst[q[..n]].Dir? {
        assert q[..n] == p[..n];
      }
      assert q in dst || Missing(src, root, dst, q);
    }
  }

  /** A missing node's descendants are missing too. */
  lemma MissingBelow(src: Tree, root: Path, dst: Tree, p: Path, r: Path)
    requires Source(src, root) && Closed(dst) && Missing(src, root, dst, p) && r in src && r != root && Parent(r) == p
    ensures Missing(src, root, dst, r)
  {
    assert r[..|p|] == p;
    forall n | |root| <= n < |r| ensures r[..n] == if n < |p| then p[..n] else p {}
    hide Source;
  }

  // ---- one file operation -----------------------------------------------------------------------

  /** A missing file's temporary file comes or changes. */
  lemma TmpWritten(src: Tree, root: Path, dst: Tree, d: Tree, p: Path, f: Entry)
    requires Source(src, root) && Between(src, root, dst, d) && Missing(src, root, dst, p) && p !in d && src[p].File?
    requires MayHold(src, dst, p, f) && Open(d, p)
    ensures Between(src, root, dst, d[Tmp(p) := f])
  {
    hide Missing, Temporary, Source, Tmp, Plain, MayHold;
    TmpFacts(src, root, dst, p);
    hide Parent, Landed;
  }

  lemma TmpFacts(src: Tree, root: Path, dst: Tree, p: Path)
    requires Source(src, root) && Missing(src, root, dst, p) && src[p].File?
    ensures Temporary(src, root, dst, Tmp(p)) && !Missing(src, root, dst, Tmp(p)) && p != Tmp(p)
    ensures forall q :: Missing(src, root, dst, q) ==> q in src && (Tmp(q) == Tmp(p) ==> q == p) && q != Tmp(p)
    ensures forall q :: Missing(src, root, dst, q) ==> Parent(q) != Tmp(p)
  {
    TmpIsTmp(p);
    forall q | Missing(src, root, dst, q)
      ensures q in src && (Tmp(q) == Tmp(p) ==> q == p) && q != Tmp(p)
      ensures Parent(q) != Tmp(p)
    {
      TmpIsTmp(q);
      if Tmp(q) == Tmp(p) { TmpDistinct(p, q); }
      TmpOutside(src, root, p, q);
    }
  }

  /** A temporary file's path is that of no node to be merged and of no directory of one. */
  lemma TmpOutside(src: Tree, root: Path, p: Path, q: Path)
    requires Source(src, root) && p in src && q in src
    ensures Parent(q) != Tmp(p)
  {
    TmpIsTmp(p);
    assert |Tmp(p)| == |p|;
  }

  lemma TmpRemoved(src: Tree, root: Path, dst: Tree, d: Tree, p: Path)
    requires Source(src, root) && Between(src, root, dst, d) && Missing(src, root, dst, p) && src[p].File?
    ensures Between(src, root, dst, d - {Tmp(p)})
  {
    hide Missing, Temporary, Source, Tmp, Plain, MayHold;
    TmpFacts(src, root, dst, p);
    hide Parent, Landed;
  }

  /** A missing node comes, in its directory and without a temporary file. */
  lemma Planted(src: Tree, root: Path, dst: Tree, d: Tree, p: Path, e: Entry)
    requires Source(src, root) && Between(src, root, dst, d) && Missing(src, root, dst, p)
    requires Open(d, p) && p !in d && (src[p].File? ==> Tmp(p) !in d)
    requires e == src[p] || e == Landed(src, dst, p)
    ensures Between(src, root, dst, d[p := e])
  {
    hide Missing, Temporary, Source, Landed, MayHold;
    MissingFacts(src, root, dst, p);
    NoTmpIs(src, root, p);
    PlainNotTmp(src, root, dst, p);
    forall q | Open(d, q) ensures Open(d[p := e], q) {}
    hide Open, Tmp;
  }

  lemma MissingFacts(src: Tree, root: Path, dst: Tree, p: Path)
    requires Missing(src, root, dst, p)
    ensures p in src && p !in dst
    ensures Source(src, root) ==> Plain(p) && p != []
  {
  }

  lemma NoTmpIs(src: Tree, root: Path, p: Path)
    requires Plain(p)
    ensures forall q :: Tmp(q) != p
  {
    forall q ensures Tmp(q) != p {
      TmpIsTmp(q);
    }
  }

  /** Only directories have anything under them. */
  lemma OnlyItself(src: Tree, root: Path, p: Path)
    requires Source(src, root) && p in src && !src[p].Dir?
    ensures forall r :: r in src && p <= r ==> r == p
  {
    forall r | r in src && p <= r ensures |r| == |p| && r == p {
      assert r[..|p|] == p;
      if |p| < |r| { PrefixIn(src, root, r, |p|); }
    }
  }

  ghost predicate Child(src: Tree, root: Path, p: Path, r: Path) { r in src && r != root && Parent(r) == p }

  /** With a directory missing, nothing is in it yet. */
  lemma ChildrenAbsent(src: Tree, root: Path, dst: Tree, d: Tree, p: Path)
    requires Source(src, root) && Closed(dst) && Between(src, root, dst, d) && Missing(src, root, dst, p) && p !in d
    ensures forall r :: Child(src, root, p, r) ==> Missing(src, root, dst, r) && r !in d
  {
    forall r | Child(src, root, p, r) ensures Missing(src, root, dst, r) && r !in d {
      MissingBelow(src, root, dst, p, r);
      PlainNotTmp(src, root, dst, r);
    }
  }

  /** Everything under p is p or under one of its children. */
  lemma ChildOnTheWay(src: Tree, root: Path, p: Path, r: Path) returns (c: Path)
    requires Source(src, root) && p in src && r in src && p <= r && p != r
    ensures Child(src, root, p, c) && c <= r
  {
    c := r[..|p| + 1];
    if |c| < |r| { PrefixIn(src, root, r, |c|); } else { assert c == r; }
    assert Parent(c) == p;
  }

  lemma ChildIsUnder(src: Tree, root: Path, p: Path, r: Path)
    requires Source(src, root) && Child(src, root, p, r)
    ensures p <= r && |r| == |p| + 1
  {
  }

  /** Every missing node from p on is there. */
  ghost predicate Done(src: Tree, root: Path, dst: Tree, d: Tree, p: Path) {
    forall r :: r in src && p <= r && Missing(src, root, dst, r) ==> r in d
  }

  /** Nothing there has changed, and only nodes from p on are new. */
  ghost predicate Grew(a: Tree, b: Tree, p: Path) {
    && (forall q :: Plain(q) && q in a ==> q in b && b[q] == a[q])
    && (forall q :: Plain(q) && q in b && q !in a ==> p <= q)
  }

  lemma SameGrew(a: Tree, p: Path, e: Entry)
    ensures Grew(a, a, p) && (p !in a ==> Grew(a, a[p := e], p))
  {
  }

  lemma GrewAlmost(a: Tree, b: Tree, p: Path, tmp: Path)
    requires !Plain(tmp) && p !in a && p != tmp
    requires b - {tmp} == a - {tmp} || (p in b && b - {tmp} - {p} == a - {tmp})
    ensures Grew(a, b, p)
  {
    forall q | Plain(q) && q in a ensures q in b && b[q] == a[q] {
      assert q in a - {tmp} && (a - {tmp})[q] == a[q];
    }
    forall q | Plain(q) && q in b && q !in a ensures p <= q {
      assert q != p ==> q in b - {tmp} - {p};
    }
  }

  /** A node found there already: nothing under it is missing if one side is no directory. */
  lemma Clash(src: Tree, root: Path, dst: Tree, d: Tree, p: Path)
    requires Source(src, root) && Between(src, root, dst, d) && p in src && Reach(dst, root, p)
    ensures p !in d ==> Missing(src, root, dst, p)
    ensures p in d && (!src[p].Dir? || !d[p].Dir?) ==> Done(src, root, dst, d, p)
    ensures Grew(d, d, p)
  {
    PlainNotTmp(src, root, dst, p);
    if p in d && (!src[p].Dir? || !d[p].Dir?) {
      forall r | r in src && p <= r && Missing(src, root, dst, r) ensures r in d {
        assert r[..|p|] == p;
        if |p| < |r| { PrefixIn(src, root, r, |p|); } else { assert r == p; }
      }
    }
  }

  lemma SourcePlain(src: Tree, root: Path, p: Path)
    requires Source(src, root) && p in src
    ensures Plain(p)
  {
  }

  lemma ChildReached(src: Tree, root: Path, dst: Tree, d: Tree, p: Path, r: Path)
    requires Source(src, root) && Between(src, root, dst, d) && p in src && Reach(dst, root, p) && Child(src, root, p, r)
    requires p in d && d[p].Dir?
    ensures Reach(dst, root, r) && Parent(r) in d
  {
    hide Temporary, Missing;
    SourcePlain(src, root, p);
    PlainNotTmp(src, root, dst, p);
    hide Source;
    assert r[..|p|] == p;
    forall n | |root| <= n < |r| && r[..n] in dst ensures dst[r[..n]].Dir? {
      if n < |p| { assert r[..n] == p[..n]; }
    }
  }

  lemma GrewTwice(a: Tree, b: Tree, c: Tree, p: Path, r: Path)
    requires Grew(a, b, p) && Grew(b, c, r) && p <= r
    ensures Grew(a, c, p)
  {
    forall q | q in c && r <= q ensures p <= q {}
  }

  lemma DoneStays(src: Tree, root: Path, dst: Tree, d: Tree, d': Tree, r: Path)
    requires Source(src, root) && Grew(d, d', r)
    ensures forall p :: Done(src, root, dst, d, p) ==> Done(src, root, dst, d', p)
    ensures forall p :: p in src && p in d ==> p in d' && d'[p] == d[p]
    ensures forall p :: p in src && p !in d && |p| == |r| && p != r ==> p !in d'
  {
  }

  lemma DoneByChildren(src: Tree, root: Path, dst: Tree, d: Tree, p: Path)
    requires Source(src, root) && p in src && p in d && forall c :: Child(src, root, p, c) ==> Done(src, root, dst, d, c)
    ensures Done(src, root, dst, d, p)
  {
    forall r | r in src && p <= r && Missing(src, root, dst, r) ensures r in d {
      if r != p {
        var c := ChildOnTheWay(src, root, p, r);
      }
    }
  }

  /** A temporary file's path at which something has come. */
  predicate NewTmp(a: Tree, b: Tree, q: Path) { q in b && q !in a && !Plain(q) }

  /** What is left behind: a stop leaves at most one new temporary file, anything else none. */
  ghost predicate Leaves(a: Tree, b: Tree, stopped: bool) {
    if stopped then forall q, r :: NewTmp(a, b, q) && NewTmp(a, b, r) ==> q == r else forall q :: !NewTmp(a, b, q)
  }

  lemma LeavesThen(a: Tree, b: Tree, c: Tree, stopped: bool)
    requires Leaves(a, b, false) && Leaves(b, c, stopped)
    ensures Leaves(a, c, stopped)
  {
    forall q ensures NewTmp(a, c, q) ==> NewTmp(a, b, q) || NewTmp(b, c, q) {}
  }

  lemma LeavesOne(a: Tree, p: Path, b: Tree)
    requires Plain(p)
    requires b - {Tmp(p)} - {p} == a - {Tmp(p)} - {p}
    ensures Leaves(a, b, true) && (Tmp(p) !in b ==> Leaves(a, b, false))
  {
    forall q | NewTmp(a, b, q) ensures q == Tmp(p) {
      assert q != Tmp(p) ==> q in b - {Tmp(p)} - {p};
    }
  }

  /** With every missing file there, no temporary one is. */
  lemma NoTmpLeft(src: Tree, root: Path, dst: Tree, d: Tree)
    requires Source(src, root) && Between(src, root, dst, d)
    requires forall p :: Missing(src, root, dst, p) ==> p in d
    ensures forall p :: p in d ==> !Temporary(src, root, dst, p)
  {
    hide Missing, Source, Open, MayHold, Tmp;
  }

  /** Copying p only touches p and its temporary file. */
  lemma CopyLeaves(p: Path, a: Tree, b: Tree)
    requires Plain(p) && p !in a && p != Tmp(p) && !Plain(Tmp(p))
    requires b - {Tmp(p)} - {p} == a - {Tmp(p)}
    ensures p in b || b - {Tmp(p)} == a - {Tmp(p)} ==> Grew(a, b, p)
    ensures Leaves(a, b, true) && (Tmp(p) !in b ==> Leaves(a, b, false))
  {
    assert a - {Tmp(p)} - {p} == a - {Tmp(p)};
    LeavesOne(a, p, b);
    if p in b || b - {Tmp(p)} == a - {Tmp(p)} { GrewAlmost(a, b, p, Tmp(p)); }
  }

  lemma HoldsMode(src: Tree, start: Tree, d: Tree, p: Path, f: Entry)
    requires p in src && src[p].File? && f.File? && f.mode == Landed(src, d, p).mode
    requires MayHold(src, start, p, Landed(src, d, p))
    ensures MayHold(src, start, p, f)
  {
  }

  lemma LandedIs(src: Tree, d: Tree, p: Path)
    requires p in src && src[p].File?
    ensures Landed(src, d, p) == File(src[p].data, if Tmp(p) in d && d[Tmp(p)].File? then d[Tmp(p)].mode else src[p].mode)
  {
  }

  lemma OpenWith(d: Tree, p: Path, f: Entry)
    requires Open(d, p) && Parent(p) != Tmp(p)
    ensures Open(d[Tmp(p) := f], p)
  {
  }

  lemma SameAt(d: Tree, d': Tree, p: Path, q: Path)
    requires d' - {Tmp(p)} - {p} == d - {Tmp(p)} - {p} && q != p && q != Tmp(p)
    ensures (q in d' <==> q in d) && (q in d ==> d'[q] == d[q])
  {
    assert q in d ==> q in d - {Tmp(p)} - {p} && (d - {Tmp(p)} - {p})[q] == d[q];
    assert q in d' ==> q in d' - {Tmp(p)} - {p};
  }

  lemma OpenWithout(d: Tree, p: Path)
    requires Open(d, p) && Parent(p) != Tmp(p)
    ensures Open(d - {Tmp(p)}, p)
  {
  }

  /** One node has come and nothing else. */
  lemma MadeLeaves(a: Tree, p: Path, e: Entry)
    ensures Leaves(a, a, false) && Leaves(a, a, true)
    ensures Plain(p) ==> Leaves(a, a[p := e], false)
  {
  }

  /** What is in a directory that is there can be made. */
  lemma OpenNow(d: Tree, p: Path)
    ensures p in d && d[p].Dir? ==> forall r :: Parent(r) == p ==> Open(d, r)
  {
  }

  /** The way to root goes through no symbolic link. */
  ghost predicate NoLinkAbove(dst: Tree, root: Path) {
    forall n: nat :: n < |root| && root[..n] in dst ==> !dst[root[..n]].Link?
  }

  lemma RootReached(src: Tree, root: Path, dst: Tree)
    requires Source(src, root)
    ensures Reach(dst, root, root) && root in src
  {
  }

  // ---- the runs ------------------------------------------------------------------------------------

  datatype Outcome = Ok | Failed | Crashed

  class Disk {
    const src: Tree                // as a run makes its nodes
    const root: Path
    const unreadable: set<Path>    // source nodes that cannot be read
    const unwritable: set<Path>    // nodes for which the disk has no room
    ghost const depth: nat
    var dst: Tree
    var budget: Option<nat>        // file operations left before a crash, if one is to come

    constructor (source: Tree, umask: Mode, root: Path, unreadable: set<Path>, unwritable: set<Path>, dst: Tree, budget: Option<nat>, ghost depth: nat)
      requires Source(source, root) && forall p :: p in source ==> |p| <= depth
      ensures src == Planting(source, umask) && this.root == root && this.dst == dst && this.budget == budget
      ensures this.unreadable == unreadable && this.unwritable == unwritable
      ensures Readable()
    {
      this.src, this.root, this.dst, this.budget, this.depth := Planting(source, umask), root, dst, budget, depth;
      this.unreadable, this.unwritable := unreadable, unwritable;
    }

    ghost predicate Readable() {
      Source(src, root) && forall p :: p in src ==> |p| <= depth
    }

    /** p cannot be made. */
    ghost predicate Refused(start: Tree, p: Path) { p in unwritable || (p == root && !Open(start, root)) }

    /** A run that begins at start fails on p: p is to be made and cannot be, or is a
        directory to be read and cannot be. */
    ghost predicate Trouble(start: Tree, p: Path) {
      if Missing(src, root, start, p) then p in unreadable || Refused(start, p)
      else p in src && p in start && Reach(start, root, p) && src[p].Dir? && start[p].Dir? && p in unreadable
    }

    /** Nothing from p on makes a run fail. */
    ghost predicate Calm(start: Tree, p: Path) {
      forall r :: r in src && p <= r ==> !Trouble(start, r)
    }

    /** A run of which nothing can fail, and one that cannot read its root. */
    lemma Untroubled(start: Tree)
      requires unreadable == {} && unwritable == {} && Open(start, root)
      ensures Calm(start, root)
    {
    }

    lemma Troubled(start: Tree)
      requires root in unreadable && Missing(src, root, start, root)
      ensures !Calm(start, root)
    {
      MissingFacts(src, root, start, root);
      hide Missing;
    }

    /** What has come is what one run makes of it, and what the run cannot fail on still
        will be. */
    ghost predicate Planned(start: Tree, d: Tree) {
      && (forall p :: Missing(src, root, start, p) && p in d ==>
            d[p] == Landed(src, start, p) && !Refused(start, p) && (p in unreadable ==> src[p].Dir?))
      && (forall p :: Missing(src, root, start, p) && p !in d && !Trouble(start, p) ==> Landed(src, d, p) == Landed(src, start, p))
    }

    /** On the way from start to its merge. */
    ghost predicate On(start: Tree)
      reads this
    {
      Readable() && Closed(start) && Between(src, root, start, dst) && Planned(start, dst)
    }

    lemma PlannedFacts(start: Tree, d: Tree, p: Path)
      requires Readable() && Between(src, root, start, d) && Planned(start, d) && Missing(src, root, start, p) && p !in d && src[p].File?
      ensures !Trouble(start, p) ==> Landed(src, d, p) == Landed(src, start, p)
      ensures MayHold(src, start, p, Landed(src, d, p)) && (Landed(src, d, p) == src[p] || Landed(src, d, p) == Landed(src, start, p))
      ensures Trouble(start, p) <==> p in unreadable || Refused(start, p)
      ensures Tmp(p) in d ==> d[Tmp(p)].File?
    {
    }

    /** The directory the root is to be in is not touched. */
    lemma RootOpen(start: Tree, d: Tree)
      requires Readable() && Between(src, root, start, d)
      ensures Open(d, root) <==> Open(start, root)
    {
      AboveNotTmp(src, root, start, root);
      assert Missing(src, root, start, Parent(root)) ==> |Parent(root)| >= |root|;
    }

    /** What lands elsewhere does not depend on p or its temporary file. */
    lemma LandsSame(start: Tree, d: Tree, d': Tree, p: Path)
      requires Readable() && Missing(src, root, start, p) && d' - {Tmp(p)} - {p} == d - {Tmp(p)} - {p}
      ensures p in src && Plain(p)
      ensures forall q :: Missing(src, root, start, q) && q != p ==> q in src && Landed(src, d', q) == Landed(src, d, q) && (q in d' <==> q in d)
      ensures forall q :: Missing(src, root, start, q) && q != p && q in d ==> d'[q] == d[q]
    {
      NoTmpIs(src, root, p);
      TmpIsTmp(p);
      forall q | Missing(src, root, start, q) && q != p
        ensures q in src && Landed(src, d', q) == Landed(src, d, q) && (q in d' <==> q in d) && (q in d ==> d'[q] == d[q])
      {
        MissingFacts(src, root, start, q);
        if Tmp(q) == Tmp(p) { TmpDistinct(p, q); }
        SameAt(d, d', p, q);
        SameAt(d, d', p, Tmp(q));
      }
    }

    lemma PlannedWritten(start: Tree, d: Tree, p: Path, f: Entry)
      requires Readable() && Planned(start, d) && Missing(src, root, start, p) && src[p].File? && p !in d
      requires f.File? && f.mode == Landed(src, d, p).mode
      ensures Planned(start, d[Tmp(p) := f])
    {
      hide Missing, Trouble, Refused, Source, Tmp, Plain;
      TmpFacts(src, root, start, p);
      LandsSame(start, d, d[Tmp(p) := f], p);
      assert Landed(src, d[Tmp(p) := f], p) == Landed(src, d, p);
      hide Landed;
    }

    lemma PlannedRemoved(start: Tree, d: Tree, p: Path)
      requires Readable() && Planned(start, d) && Missing(src, root, start, p) && src[p].File? && Trouble(start, p)
      ensures Planned(start, d - {Tmp(p)})
    {
      hide Missing, Trouble, Refused, Source, Tmp, Plain, Landed;
      TmpFacts(src, root, start, p);
      LandsSame(start, d, d - {Tmp(p)}, p);
    }

    lemma PlannedCame(start: Tree, d: Tree, p: Path)
      requires Readable() && Planned(start, d) && Missing(src, root, start, p) && src[p].File?
      requires p !in unreadable && !Refused(start, p)
      ensures Planned(start, (d - {Tmp(p)})[p := Landed(src, start, p)])
    {
      hide Missing, Trouble, Refused, Source, Tmp, Plain, Landed;
      MissingFacts(src, root, start, p);
      LandsSame(start, d, (d - {Tmp(p)})[p := Landed(src, start, p)], p);
    }

    lemma PlannedMade(start: Tree, d: Tree, p: Path)
      requires Readable() && Planned(start, d) && Missing(src, root, start, p) && !src[p].File?
      requires !Refused(start, p) && (p in unreadable ==> src[p].Dir?)
      ensures Planned(start, d[p := src[p]])
    {
      hide Missing, Trouble, Refused, Source, Tmp, Plain;
      MissingFacts(src, root, start, p);
      LandsSame(start, d, d[p := src[p]], p);
      assert Landed(src, start, p) == src[p];
      hide Landed;
    }

    lemma Inside(start: Tree, p: Path)
      requires On(start) && (p in src || Missing(src, root, start, p))
      ensures p in src && p != [] && p != Tmp(p) && Plain(p) && !Plain(Tmp(p)) && |p| <= depth
      ensures Parent(p) != Tmp(p)
    {
      TmpIsTmp(p);
      TmpOutside(src, root, p, p);
    }

    /** While p is being copied: at most its temporary file has changed. */
    ghost predicate Copying(p: Path, start: Tree, before: Tree)
      reads this
    {
      && On(start) && Missing(src, root, start, p) && p in src && src[p].File? && p !in dst && p !in before
      && dst - {Tmp(p)} == before - {Tmp(p)}
    }

    /** Whether the process is stopped before its next file operation. */
    method Stop() returns (crash: bool)
      modifies this`budget
      ensures if old(budget) == Some(0) then crash && budget == Some(0)
              else !crash && budget == if old(budget).Some? then Some(old(budget).value - 1) else None
    {
      crash := budget == Some(0);
      if budget.Some? && !crash { budget := Some(budget.value - 1); }
    }

    method WriteTmp(p: Path, ghost start: Tree, ghost before: Tree, f: Entry)
      requires Copying(p, start, before) && Open(dst, p)
      requires f.File? && f.mode == Landed(src, dst, p).mode
      modifies this`dst
      ensures Copying(p, start, before) && Open(dst, p)
      ensures dst == old(dst)[Tmp(p) := f] && Landed(src, dst, p) == old(Landed(src, dst, p))
    {
      hide Between, Missing, Source, Closed, Temporary, Plain, Tmp, Planned, Trouble, Landed, Open, MayHold;
      Inside(start, p);
      PlannedFacts(start, dst, p);
      HoldsMode(src, start, dst, p, f);
      TmpWritten(src, root, start, dst, p, f);
      PlannedWritten(start, dst, p, f);
      OpenWith(dst, p, f);
      LandedIs(src, dst, p);
      LandedIs(src, dst[Tmp(p) := f], p);
      dst := dst[Tmp(p) := f];
    }

    /** unlink of the temporary file. */
    method Undo(p: Path, ghost start: Tree, ghost before: Tree)
      requires Copying(p, start, before) && Trouble(start, p)
      modifies this`dst
      ensures Copying(p, start, before) && dst == before - {Tmp(p)}
    {
      hide Between, Missing, Source, Closed, Temporary, Plain, Tmp, Planned, Trouble, Landed, Open, MayHold;
      Inside(start, p);
      TmpRemoved(src, root, start, dst, p);
      PlannedRemoved(start, dst, p);
      dst := dst - {Tmp(p)};
    }

    /** rename of the finished temporary file. */
    method Publish(p: Path, ghost start: Tree, ghost before: Tree)
      requires Copying(p, start, before) && Open(dst, p) && p !in unreadable && !Refused(start, p)
      requires Tmp(p) in dst && dst[Tmp(p)] == Landed(src, dst, p) == Landed(src, start, p)
      modifies this`dst
      ensures On(start) && p in dst && Tmp(p) !in dst
      ensures dst - {Tmp(p)} - {p} == before - {Tmp(p)}
    {
      hide Between, Missing, Source, Closed, Temporary, Plain, Tmp, Planned, Trouble, Open, MayHold, Refused, Landed;
      Inside(start, p);
      TmpRemoved(src, root, start, dst, p);
      OpenWithout(dst, p);
      Planted(src, root, start, dst - {Tmp(p)}, p, dst[Tmp(p)]);
      PlannedCame(start, dst, p);
      dst := (dst - {Tmp(p)})[p := dst[Tmp(p)]];
      assert dst - {Tmp(p)} - {p} == old(dst) - {Tmp(p)};
    }

    /** The temporary file is emptied or made, written and renamed; one that is there keeps
        its mode. */
    method Fill(p: Path, ghost start: Tree, ghost before: Tree) returns (o: Outcome)
      requires Copying(p, start, before) && dst == before && Open(dst, p) && p !in unreadable
      requires (p !in unwritable ==> !Refused(start, p)) && (Trouble(start, p) <==> p in unwritable)
      modifies this`dst, this`budget
      ensures On(start) && dst - {Tmp(p)} - {p} == before - {Tmp(p)}
      ensures if o == Ok then p in dst && Tmp(p) !in dst else p !in dst
      ensures o == Failed ==> dst == before - {Tmp(p)}
      ensures o == Crashed ==> budget == Some(0)
      ensures budget.None? <==> old(budget).None?
      ensures o != Crashed ==> (o == Ok <==> p !in unwritable)
    {
      hide Between, Missing, Source, Closed, Temporary, Plain, Tmp, Planned, Trouble, Open, MayHold, Refused, Landed;
      LandedIs(src, dst, p);
      PlannedFacts(start, dst, p);
      ghost var lands := Landed(src, dst, p);
      var mode := if Tmp(p) in dst && dst[Tmp(p)].File? then dst[Tmp(p)].mode else src[p].mode;
      var partial: Data := *;
      WriteTmp(p, start, before, File(partial, mode));
      NotThere(p, before, dst);
      var crash := Stop();
      if crash { return Crashed; }
      if p in unwritable {
        Undo(p, start, before);
        NotThere(p, before, dst);
        return Failed;
      }
      WriteTmp(p, start, before, File(src[p].data, mode));
      NotThere(p, before, dst);
      crash := Stop();
      if crash { return Crashed; }
      assert dst[Tmp(p)] == lands;
      Publish(p, start, before);
      o := Ok;
    }

    lemma NotThere(p: Path, a: Tree, b: Tree)
      requires p !in a && b - {Tmp(p)} == a - {Tmp(p)}
      ensures b - {Tmp(p)} - {p} == a - {Tmp(p)}
    {
      assert a - {Tmp(p)} - {p} == a - {Tmp(p)};
    }

    /** fo_copy_file_atomic: the bytes go to a temporary file, which is then renamed. */
    method CopyFileAtomic(p: Path, ghost start: Tree) returns (o: Outcome)
      requires On(start) && Missing(src, root, start, p) && p !in dst && src[p].File? && (p == root || Open(dst, p))
      modifies this
      ensures On(start) && Grew(old(dst), dst, p) && Leaves(old(dst), dst, o == Crashed)
      ensures if o == Ok then p in dst else p !in dst
      ensures o == Failed ==> dst == old(dst) - {Tmp(p)}
      ensures o == Crashed ==> budget == Some(0)
      ensures budget.None? <==> old(budget).None?
      ensures o != Crashed ==> (o == Ok <==> !Trouble(start, p))
    {
      hide Between, Missing, Source, Closed, Temporary, Grew, Plain, Tmp, Planned, Trouble, Open, Leaves, MayHold, Refused, Landed;
      Inside(start, p);
      RootOpen(start, dst);
      RefusedNow(start, dst, p);
      ghost var before := dst;
      NotThere(p, before, dst);
      var crash := Stop();
      if crash {
        o := Crashed;
      } else if p in unreadable || !Open(dst, p) {
        Undo(p, start, before);
        NotThere(p, before, dst);
        o := Failed;
      } else {
        o := Fill(p, start, before);
      }
      CopyLeaves(p, before, dst);
    }

    lemma RefusedNow(start: Tree, d: Tree, p: Path)
      requires Open(d, root) <==> Open(start, root)
      requires Missing(src, root, start, p) && (p == root || Open(d, p))
      ensures Trouble(start, p) <==> p in unreadable || p in unwritable || !Open(d, p)
      ensures Refused(start, p) <==> p in unwritable || !Open(d, p)
    {
    }

    /** fo_plant: a missing node and everything under it. The first failure ends the subtree. */
    method Plant(p: Path, ghost start: Tree) returns (o: Outcome)
      requires On(start) && Missing(src, root, start, p) && p !in dst && (p == root || Open(dst, p))
      modifies this
      ensures On(start) && Grew(old(dst), dst, p) && Leaves(old(dst), dst, o == Crashed)
      ensures o == Ok ==> Done(src, root, start, dst, p)
      ensures o == Failed && src[p].File? ==> dst == old(dst) - {Tmp(p)}
      ensures o == Crashed ==> budget == Some(0)
      ensures budget.None? <==> old(budget).None?
      ensures o != Crashed ==> (o == Ok <==> Calm(start, p))
      decreases depth - |p|, 1
    {
      hide Between, Missing, Source, Closed, Temporary, Planned, Trouble, Open, Leaves, Plain, Tmp, Refused, Landed;
      Inside(start, p);
      if src[p].Dir? {
        o := PlantDir(p, start);
        return;
      }
      OnlyItself(src, root, p);
      if src[p].File? {
        o := CopyFileAtomic(p, start);
        return;
      }
      o := PlantLink(p, start);
    }

    /** symlink; the link's target cannot be read or the link cannot be made. */
    method PlantLink(p: Path, ghost start: Tree) returns (o: Outcome)
      requires On(start) && Missing(src, root, start, p) && p !in dst && (p == root || Open(dst, p)) && src[p].Link?
      modifies this
      ensures On(start) && Grew(old(dst), dst, p) && Leaves(old(dst), dst, o == Crashed)
      ensures if o == Ok then p in dst else p !in dst
      ensures o == Crashed ==> budget == Some(0)
      ensures budget.None? <==> old(budget).None?
      ensures o != Crashed ==> (o == Ok <==> !Trouble(start, p))
    {
      hide Between, Missing, Source, Closed, Temporary, Grew, Plain, Tmp, Planned, Open, Leaves;
      Inside(start, p);
      RootOpen(start, dst);
      SameGrew(dst, p, src[p]);
      MadeLeaves(dst, p, src[p]);
      var crash := Stop();
      if crash { return Crashed; }
      if p in unreadable || p in unwritable || !Open(dst, p) { return Failed; }
      Planted(src, root, start, dst, p, src[p]);
      PlannedMade(start, dst, p);
      dst := dst[p := src[p]];
      o := Ok;
    }

    /** mkdir, and what is in the directory, as long as nothing fails. */
    method PlantDir(p: Path, ghost start: Tree) returns (o: Outcome)
      requires On(start) && Missing(src, root, start, p) && p !in dst && (p == root || Open(dst, p)) && src[p].Dir?
      modifies this
      ensures On(start) && Grew(old(dst), dst, p) && Leaves(old(dst), dst, o == Crashed)
      ensures o == Ok ==> Done(src, root, start, dst, p)
      ensures o == Crashed ==> budget == Some(0)
      ensures budget.None? <==> old(budget).None?
      ensures o != Crashed ==> (o == Ok <==> Calm(start, p))
      decreases depth - |p|, 0
    {
      hide Between, Missing, Source, Closed, Temporary, Grew, Done, Plain, Tmp, Planned, Open, Leaves, Calm, Landed, MayHold, IsTmp, Trouble, Refused, Reach;
      Inside(start, p);
      RootOpen(start, dst);
      RefusedNow(start, dst, p);
      ChildrenAbsent(src, root, start, dst, p);
      SameGrew(dst, p, src[p]);
      MadeLeaves(dst, p, src[p]);
      NotCalm(start, p, p);
      var crash := Stop();
      if crash { return Crashed; }
      if p in unwritable || !Open(dst, p) { return Failed; }
      Planted(src, root, start, dst, p, src[p]);
      PlannedMade(start, dst, p);
      dst := dst[p := src[p]];
      if p in unreadable { return Failed; }
      var children := set r | r in src && r != root && Parent(r) == p;
      OpenNow(dst, p);
      while children != {}
        invariant On(start) && Grew(old(dst), dst, p) && Leaves(old(dst), dst, false) && p in dst && dst[p].Dir?
        invariant budget.None? <==> old(budget).None?
        invariant forall r :: r in children ==> Child(src, root, p, r) && r !in dst
        invariant forall r :: Child(src, root, p, r) && r !in children ==> Done(src, root, start, dst, r) && Calm(start, r)
        decreases children
      {
        var r :| r in children;
        ChildIsUnder(src, root, p, r);
        Inside(start, r);
        OpenNow(dst, p);
        ghost var before := dst;
        o := Plant(r, start);
        GrewTwice(old(dst), before, dst, p, r);
        LeavesThen(old(dst), before, dst, o == Crashed);
        DoneStays(src, root, start, before, dst, r);
        NotCalm(start, p, r);
        if o != Ok { return; }
        children := children - {r};
      }
      DoneByChildren(src, root, start, dst, p);
      CalmByChildren(start, p);
      o := Ok;
    }

    lemma NotCalm(start: Tree, p: Path, r: Path)
      requires p in src && r in src && p <= r
      ensures Trouble(start, r) || !Calm(start, r) ==> !Calm(start, p)
    {
      hide Trouble;
      forall q: Path {:trigger q in src} | q in src && r <= q ensures p <= q {}
    }

    lemma CalmByChildren(start: Tree, p: Path)
      requires Readable() && p in src && !Trouble(start, p) && forall c :: Child(src, root, p, c) ==> Calm(start, c)
      ensures Calm(start, p)
    {
      hide Trouble;
      forall r | r in src && p <= r && r != p ensures !Trouble(start, r) {
        var c := ChildOnTheWay(src, root, p, r);
      }
    }

    /** A node that is there and is not a pair of directories: nothing from there on fails. */
    lemma ClashCalm(start: Tree, d: Tree, p: Path)
      requires Readable() && Between(src, root, start, d) && Planned(start, d) && p in src && p in d && Reach(start, root, p)
      ensures !src[p].Dir? || !d[p].Dir? ==> Calm(start, p)
      ensures src[p].Dir? && d[p].Dir? ==> (Trouble(start, p) <==> p in unreadable)
    {
      PlainNotTmp(src, root, start, p);
      if !src[p].Dir? || !d[p].Dir? {
        forall r | r in src && p <= r && r != p ensures !Trouble(start, r) {
          assert r[..|p|] == p;
          PrefixIn(src, root, r, |p|);
        }
      }
    }

    /** fo_merge. A failure does not keep it from visiting the siblings. */
    method Merge(p: Path, ghost start: Tree) returns (o: Outcome)
      requires On(start) && p in src && Reach(start, root, p) && (p == root || Open(dst, p))
      modifies this
      ensures On(start) && Grew(old(dst), dst, p) && Leaves(old(dst), dst, o == Crashed)
      ensures o == Ok ==> Done(src, root, start, dst, p)
      ensures o == Failed && src[p].File? ==> dst == old(dst) - {Tmp(p)}
      ensures o == Crashed ==> budget == Some(0)
      ensures budget.None? <==> old(budget).None?
      ensures o != Crashed ==> (o == Ok <==> Calm(start, p))
      decreases depth - |p|
    {
      hide Between, Missing, Source, Closed, Temporary, Reach, Grew, Done, Plain, Tmp, Planned, Open, Leaves, Calm, Landed, Trouble;
      Inside(start, p);
      Clash(src, root, start, dst, p);
      MadeLeaves(dst, p, src[p]);
      NotCalm(start, p, p);
      if p !in dst {
        o := Plant(p, start);
        return;
      }
      ClashCalm(start, dst, p);
      if !src[p].Dir? || !dst[p].Dir? { return Ok; }
      if p in unreadable { return Failed; }
      o := Ok;
      var children := set r | r in src && r != root && Parent(r) == p;
      while children != {}
        invariant On(start) && Grew(old(dst), dst, p) && Leaves(old(dst), dst, false) && p in dst && dst[p].Dir?
        invariant budget.None? <==> old(budget).None?
        invariant o == Ok || (o == Failed && !Calm(start, p))
        invariant forall r :: r in children ==> Child(src, root, p, r)
        invariant o == Ok ==> forall r :: Child(src, root, p, r) && r !in children ==> Done(src, root, start, dst, r) && Calm(start, r)
        decreases children
      {
        var r :| r in children;
        ChildIsUnder(src, root, p, r);
        Inside(start, r);
        ChildReached(src, root, start, dst, p, r);
        OpenNow(dst, p);
        ghost var before := dst;
        var one := Merge(r, start);
        GrewTwice(old(dst), before, dst, p, r);
        LeavesThen(old(dst), before, dst, one == Crashed);
        DoneStays(src, root, start, before, dst, r);
        NotCalm(start, p, r);
        if one == Crashed { return one; }
        if one == Failed { o := Failed; }
        children := children - {r};
      }
      if o == Ok {
        DoneByChildren(src, root, start, dst, p);
        CalmByChildren(start, p);
      }
    }

    /** A whole run. It fails exactly on what cannot be read or made. Where it succeeds the
        merge is complete, but for the modes of temporary files left by earlier runs;
        wherever it stops, the tree is on the way there. */
    method Run() returns (o: Outcome)
      requires Readable() && Closed(dst) && StaleOnly(src, root, dst) && NoLinkAbove(dst, root)
      modifies this
      ensures Between(src, root, old(dst), dst) && Leaves(old(dst), dst, o == Crashed)
      ensures o == Ok ==> Finished(src, root, old(dst), dst) && (Merged(src, root, old(dst), dst) <==> ModesAgree(src, root, old(dst)))
      ensures o == Failed && src[root].File? ==> dst == old(dst) - {Tmp(root)}
      ensures o == Crashed ==> budget == Some(0)
      ensures budget.None? <==> old(budget).None?
      ensures o != Crashed ==> (o == Ok <==> Calm(old(dst), root))
      ensures Calm(old(dst), root) ==> AsPlanned(src, root, old(dst), dst)
    {
      hide Between, Missing, Source, Temporary, Tmp, Trouble, Leaves, Landed, Planned, Calm, Done, Finished, Merged, ModesAgree, AsPlanned;
      Start(src, root, dst);
      PlannedStart(dst);
      RootReached(src, root, dst);
      o := Merge(root, dst);
      PlannedAsPlanned(old(dst), dst);
      if o == Ok {
        CompleteIsFinished(old(dst), dst);
        FinishedIsMerged(src, root, old(dst), dst);
      }
    }

    lemma PlannedStart(start: Tree)
      ensures Planned(start, start)
    {
    }

    lemma PlannedAsPlanned(start: Tree, d: Tree)
      requires Readable() && Planned(start, d)
      ensures Calm(start, root) ==> AsPlanned(src, root, start, d)
    {
      hide Trouble, Landed;
    }

    lemma CompleteIsFinished(start: Tree, d: Tree)
      requires Readable() && Planned(start, d) && Between(src, root, start, d) && Done(src, root, start, d, root)
      ensures Finished(src, root, start, d)
    {
      hide Trouble, Landed, Refused, Reach, Tmp;
      forall p | Missing(src, root, start, p) ensures p in d && d[p] == Landed(src, start, p) {
        MissingFacts(src, root, start, p);
      }
      NoTmpLeft(src, root, start, d);
      hide Temporary, Missing, Source;
    }
  }

  const Bare := map[[] := Dir(0x1ED)]

  /** What the runs on Stale, and on what a failing copy makes of it, start from. */
  lemma StaleAndBare()
    ensures Planting(Wanted, 0x12) == Wanted && Source(Wanted, A) && Stale - {Tmp(A)} == Bare
    ensures Closed(Stale) && StaleOnly(Wanted, A, Stale) && NoLinkAbove(Stale, A) && Open(Stale, A)
    ensures Closed(Bare) && StaleOnly(Wanted, A, Bare) && NoLinkAbove(Bare, A) && Open(Bare, A)
    ensures Missing(Wanted, A, Stale, A) && Missing(Wanted, A, Bare, A)
    ensures Landed(Wanted, Bare, A) == File([1], 0x1A4) && Landed(Wanted, Stale, A) == File([1], 0x180)
  {
    StaleFacts();
    StaleModeStays();
    assert Stale - {TmpA} == Bare;
  }

  /** On Stale, a run that cannot read the file, and then one that can, gives the file its own
      mode; the one run that can gives it the temporary file's. */
  method FailedRunChangesMode() returns (after: Tree, once: Tree)
    ensures A in after && after[A] == File([1], 0x1A4)
    ensures A in once && once[A] == File([1], 0x180)
  {
    hide Source, Closed, StaleOnly, Between, Finished, Merged, ModesAgree, AsPlanned, Missing, Open, Leaves, Landed, NoLinkAbove, Tmp, Planting;
    StaleAndBare();
    var failing := new Disk(Wanted, 0x12, A, {A}, {}, Stale, None, 1);
    failing.Troubled(Stale);
    var o := failing.Run();
    assert o == Failed && failing.dst == Bare;
    after := RunOn(failing.dst);
    once := RunOn(Stale);
  }

  /** A run to which nothing happens. */
  method RunOn(dst: Tree) returns (after: Tree)
    requires Closed(dst) && StaleOnly(Wanted, A, dst) && NoLinkAbove(dst, A) && Open(dst, A) && Missing(Wanted, A, dst, A)
    ensures A in after && after[A] == Landed(Wanted, dst, A)
  {
    hide Closed, StaleOnly, Between, Merged, ModesAgree, AsPlanned, Missing, Open, Leaves, Landed, NoLinkAbove;
    StaleAndBare();
    var d := new Disk(Wanted, 0x12, A, {}, {}, dst, None, 1);
    d.Untroubled(dst);
    var o := d.Run();
    assert Finished(Wanted, A, dst, d.dst);
    after := d.dst;
  }

  /** A tree that a run has left behind can be given to another one. */
  lemma CanRunAgain(src: Tree, root: Path, dst: Tree, d: Tree)
    requires Source(src, root) && Closed(dst) && StaleOnly(src, root, dst) && NoLinkAbove(dst, root) && Between(src, root, dst, d)
    ensures StaleOnly(src, root, d) && Closed(d) && NoLinkAbove(d, root)
  {
    forall p | p in d && p != [] ensures Open(d, p) {
      if Temporary(src, root, dst, p) {
        var f :| f in src && p == Tmp(f) && src[f].File? && Missing(src, root, dst, f);
        assert Parent(p) == Parent(f);
      } else if p in dst {
        ParentKept(src, root, dst, p);
      }
    }
    forall p | p in d && Temporary(src, root, d, p) ensures d[p].File? {
      TemporaryThen(src, root, dst, d, p);
      var f :| f in src && p == Tmp(f) && src[f].File? && Missing(src, root, d, f);
      MissingThen(src, root, dst, d, f);
    }
    forall n: nat | n < |root| && root[..n] in d ensures !d[root[..n]].Link? {
      AboveRoot(src, root, dst, root[..n]);
    }
  }

  /** No temporary file is a directory. */
  lemma ParentKept(src: Tree, root: Path, dst: Tree, p: Path)
    requires Closed(dst) && StaleOnly(src, root, dst) && p in dst && p != []
    ensures Open(dst, p) && !Temporary(src, root, dst, Parent(p))
  {
  }

  lemma AboveRoot(src: Tree, root: Path, dst: Tree, q: Path)
    requires Source(src, root) && |q| < |root|
    ensures q !in src && !Temporary(src, root, dst, q)
  {
  }

  /** No node is lost or changed, and no temporary file is left, by a complete run. */
  lemma MergeIsAdditive(src: Tree, root: Path, dst: Tree, after: Tree)
    requires Source(src, root) && Finished(src, root, dst, after)
    ensures forall p :: p in dst && Plain(p) ==> p in after && after[p] == dst[p]
    ensures forall p :: p in after && p !in dst ==> Plain(p) && p in src && after[p] == Landed(src, dst, p)
    ensures forall p :: Missing(src, root, dst, p) && src[p].File? ==> Tmp(p) !in after
  {
    forall p | p in dst && Plain(p) ensures p in after && after[p] == dst[p] {
      PlainNotTmp(src, root, dst, p);
    }
    forall p | Missing(src, root, dst, p) && src[p].File? ensures Tmp(p) !in after {
      TmpNotIn(src, root, dst, after, p);
    }
  }
}
