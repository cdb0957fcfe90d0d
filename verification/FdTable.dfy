/** Open file descriptions: reference counts, the descriptor tables of all processes, and
    for pipe ends the number of descriptors each process holds, which drives the mode of
    the pipe's shared ring. */
module FdTable {
  import opened Wrappers

  type Pid = nat
  type Fd = nat
  type OfdId = nat
  type PipeId = nat

  /** The kernel itself, as the holder of a strace pipe's write end. */
  const KernelPid: Pid := 0

  datatype Mode = Latent | Fast | Demoted

  datatype Kind = File | PipeEnd(pipe: PipeId, read: bool)
  datatype Ofd = Ofd(kind: Kind, refs: nat, holders: map<Pid, nat>)

  /** rofd and wofd are the descriptions of the two ends. */
  datatype Pipe = Pipe(ring: bool, mode: Mode, rOpen: bool, wOpen: bool, rofd: OfdId, wofd: OfdId)

  /** Where a reference is kept: a descriptor of a process, pcb.trace of a traced process, or
      for a moment nowhere yet. */
  datatype Slot = InTable(pid: Pid, fd: Fd) | Trace(tracee: Pid) | InHand(pid: Pid)

  /** The kernel's tables, with the references it has counted; table is pcb.fds and pcb.trace
      of every process, procs is _procs, and closed lists the descriptions released for good. */
  datatype State = State(
    ofds: map<OfdId, Ofd>, pipes: map<PipeId, Pipe>,
    table: map<Slot, OfdId>, held: map<Slot, OfdId>,
    procs: set<Pid>, closed: seq<OfdId>, nextOfd: OfdId, nextPipe: PipeId)

  function Owner(t: Slot): Pid {
    match t
    case InTable(pid, _) => pid
    case Trace(_) => KernelPid
    case InHand(pid) => pid
  }

  function Rank(m: Mode): nat { match m case Latent => 0 case Fast => 1 case Demoted => 2 }

  // ---- counting references ------------------------------------------------------------------

  ghost function Slots(held: map<Slot, OfdId>, o: OfdId): set<Slot> {
    set t | t in held && held[t] == o
  }

  ghost function SlotsOf(held: map<Slot, OfdId>, o: OfdId, pid: Pid): set<Slot> {
    set t | t in held && held[t] == o && Owner(t) == pid
  }

  lemma Counted(held: map<Slot, OfdId>, t: Slot, o: OfdId)
    requires t !in held
    ensures Slots(held[t := o], o) == Slots(held, o) + {t} && t !in Slots(held, o)
    ensures SlotsOf(held[t := o], o, Owner(t)) == SlotsOf(held, o, Owner(t)) + {t} && t !in SlotsOf(held, o, Owner(t))
    ensures forall x :: x != o ==> Slots(held[t := o], x) == Slots(held, x)
    ensures forall x, p :: x != o || p != Owner(t) ==> SlotsOf(held[t := o], x, p) == SlotsOf(held, x, p)
  {
  }

  lemma Discounted(held: map<Slot, OfdId>, t: Slot)
    requires t in held
    ensures var o := held[t];
      && Slots(held - {t}, o) == Slots(held, o) - {t} && t in Slots(held, o)
      && SlotsOf(held - {t}, o, Owner(t)) == SlotsOf(held, o, Owner(t)) - {t} && t in SlotsOf(held, o, Owner(t))
      && (forall x :: x != o ==> Slots(held - {t}, x) == Slots(held, x))
      && (forall x, p :: x != o || p != Owner(t) ==> SlotsOf(held - {t}, x, p) == SlotsOf(held, x, p))
  {
  }

  // ---- what must hold ---------------------------------------------------------------------------

  /** o counts every reference to it, in all and by holder. */
  ghost predicate Counts(o: Ofd, id: OfdId, held: map<Slot, OfdId>) {
    && o.refs == |Slots(held, id)|
    && (o.kind.PipeEnd? ==> forall p ::
          && (p in o.holders <==> SlotsOf(held, id, p) != {})
          && (p in o.holders ==> o.holders[p] == |SlotsOf(held, id, p)|))
  }

  ghost predicate AllCount(ofds: map<OfdId, Ofd>, held: map<Slot, OfdId>) {
    && (forall t :: t in held ==> held[t] in ofds)
    && (forall id :: id in ofds ==> Counts(ofds[id], id, held))
  }

  ghost predicate Ends(ofds: map<OfdId, Ofd>, pipes: map<PipeId, Pipe>) {
    && (forall q :: q in pipes ==>
          && pipes[q].rofd != pipes[q].wofd
          && (pipes[q].rOpen <==> pipes[q].rofd in ofds) && (pipes[q].wOpen <==> pipes[q].wofd in ofds)
          && (pipes[q].rOpen ==> ofds[pipes[q].rofd].kind == PipeEnd(q, true))
          && (pipes[q].wOpen ==> ofds[pipes[q].wofd].kind == PipeEnd(q, false)))
    && (forall id :: id in ofds && ofds[id].kind.PipeEnd? ==>
          && ofds[id].kind.pipe in pipes
          && id == (if ofds[id].kind.read then pipes[ofds[id].kind.pipe].rofd else pipes[ofds[id].kind.pipe].wofd))
  }

  /** One process holds the end, and it is not the kernel. */
  ghost predicate Single(ofds: map<OfdId, Ofd>, id: OfdId) {
    id in ofds ==> |ofds[id].holders| == 1 && KernelPid !in ofds[id].holders
  }

  ghost predicate FastIsSingle(ofds: map<OfdId, Ofd>, pipes: map<PipeId, Pipe>) {
    forall q :: q in pipes ==>
      && (pipes[q].mode != Latent ==> pipes[q].ring)
      && (pipes[q].mode.Fast? ==> Single(ofds, pipes[q].rofd) && Single(ofds, pipes[q].wofd))
  }

  /** Every description ever made is either still there or has been released, once. */
  ghost predicate ReleasedOnce(open: set<OfdId>, closed: seq<OfdId>, next: OfdId) {
    && (forall i, j :: 0 <= i < j < |closed| ==> closed[i] != closed[j])
    && (forall id: nat :: id < next <==> id in open || id in closed)
    && (forall id :: id in closed ==> id !in open)
  }

  lemma NothingYet()
    ensures ReleasedOnce({}, [], 0)
  {
    forall id: OfdId ensures id !in [] && !(id < 0) {}
  }

  /** Pipes only move forward: along the mode ladder, and from open to closed. */
  ghost predicate Forward(a: map<PipeId, Pipe>, b: map<PipeId, Pipe>) {
    forall q :: q in a ==>
      && q in b && Rank(a[q].mode) <= Rank(b[q].mode) && a[q].ring == b[q].ring
      && (b[q].rOpen ==> a[q].rOpen) && (b[q].wOpen ==> a[q].wOpen)
      && a[q].rofd == b[q].rofd && a[q].wofd == b[q].wofd
  }

  // ---- one reference more or less ------------------------------------------------------------

  function WithRef(o: Ofd, pid: Pid): (r: Ofd)
    ensures r.kind == o.kind
  {
    if o.kind.File? then o.(refs := o.refs + 1)
    else o.(refs := o.refs + 1, holders := o.holders[pid := (if pid in o.holders then o.holders[pid] else 0) + 1])
  }

  /** The holder's share goes down first; the total only if others remain. */
  function WithoutHolder(o: Ofd, pid: Pid): Ofd {
    if o.kind.File? || pid !in o.holders then o
    else if o.holders[pid] <= 1 then o.(holders := o.holders - {pid})
    else o.(holders := o.holders[pid := o.holders[pid] - 1])
  }

  function WithoutRef(o: Ofd, pid: Pid): Ofd {
    WithoutHolder(o, pid).(refs := if o.refs == 0 then 0 else o.refs - 1)
  }

  lemma RefCountsOwn(o: Ofd, held: map<Slot, OfdId>, id: OfdId, t: Slot)
    requires Counts(o, id, held) && t !in held
    ensures Counts(WithRef(o, Owner(t)), id, held[t := id])
  {
    hide Slots, SlotsOf;
    Counted(held, t, id);
    if o.kind.PipeEnd? {
      forall p ensures p in WithRef(o, Owner(t)).holders <==> p in o.holders || p == Owner(t) {}
    }
  }

  lemma RefCounts(ofds: map<OfdId, Ofd>, held: map<Slot, OfdId>, id: OfdId, t: Slot)
    requires AllCount(ofds, held) && id in ofds && t !in held
    ensures AllCount(ofds[id := WithRef(ofds[id], Owner(t))], held[t := id])
  {
    hide Slots, SlotsOf, WithRef;
    RefCountsOwn(ofds[id], held, id, t);
    Counted(held, t, id);
    var after := ofds[id := WithRef(ofds[id], Owner(t))];
    forall x | x in after && x != id ensures Counts(after[x], x, held[t := id]) {
      assert Counts(ofds[x], x, held);
    }
  }

  function Demote(pipes: map<PipeId, Pipe>, o: Ofd): map<PipeId, Pipe> {
    if o.kind.PipeEnd? && o.kind.pipe in pipes && pipes[o.kind.pipe].ring && |o.holders| > 1 && pipes[o.kind.pipe].mode.Fast?
    then pipes[o.kind.pipe := pipes[o.kind.pipe].(mode := Demoted)] else pipes
  }

  lemma RefKeepsEnds(ofds: map<OfdId, Ofd>, pipes: map<PipeId, Pipe>, id: OfdId, pid: Pid)
    requires Ends(ofds, pipes) && id in ofds
    ensures var o := WithRef(ofds[id], pid); Ends(ofds[id := o], Demote(pipes, o)) && Forward(pipes, Demote(pipes, o)) && Demote(pipes, o).Keys == pipes.Keys
  {
    hide WithRef;
  }

  lemma RefKeepsModes(ofds: map<OfdId, Ofd>, pipes: map<PipeId, Pipe>, id: OfdId, pid: Pid)
    requires Ends(ofds, pipes) && FastIsSingle(ofds, pipes) && id in ofds
    ensures var o := WithRef(ofds[id], pid); FastIsSingle(ofds[id := o], Demote(pipes, o))
  {
    var o := WithRef(ofds[id], pid);
    var holders := ofds[id].holders;
    if o.kind.PipeEnd? {
      assert o.holders.Keys == holders.Keys + {pid};
      assert |o.holders.Keys| == |o.holders| && |holders.Keys| == |holders|;
      assert |holders| == 1 && pid !in holders ==> |o.holders| == 2;
      assert pid in holders ==> holders.Keys + {pid} == holders.Keys;
      hide WithRef;
      forall q | q in pipes && q != o.kind.pipe
        ensures id != pipes[q].rofd || !pipes[q].rOpen
        ensures id != pipes[q].wofd || !pipes[q].wOpen
      {
      }
    }
  }

  lemma UnrefCountsOwn(o: Ofd, held: map<Slot, OfdId>, id: OfdId, t: Slot)
    requires Counts(o, id, held) && t in held && held[t] == id
    ensures o.refs > 0 && Counts(WithoutRef(o, Owner(t)), id, held - {t})
  {
    hide Slots, SlotsOf;
    Discounted(held, t);
    var all, own := Slots(held, id), SlotsOf(held, id, Owner(t));
    assert |all - {t}| == |all| - 1 && |own - {t}| == |own| - 1;
  }

  lemma UnrefCounts(ofds: map<OfdId, Ofd>, held: map<Slot, OfdId>, t: Slot)
    requires AllCount(ofds, held) && t in held
    ensures var id, o := held[t], ofds[held[t]];
            o.refs > 0 && AllCount(ofds[id := WithoutRef(o, Owner(t))], held - {t})
    ensures ofds[held[t]].refs == 1 ==> AllCount(ofds - {held[t]}, held - {t})
  {
    hide Slots, SlotsOf, WithoutRef, Counts;
    var id, o := held[t], ofds[held[t]];
    UnrefCountsOwn(o, held, id, t);
    forall x | x in ofds && x != id ensures Counts(ofds[x], x, held - {t}) {
      OthersCount(ofds[x], held, x, t);
    }
    if o.refs == 1 { LastNamed(o, held, t); }
  }

  lemma OthersCount(o: Ofd, held: map<Slot, OfdId>, id: OfdId, t: Slot)
    requires Counts(o, id, held) && t in held && held[t] != id
    ensures Counts(o, id, held - {t})
  {
    hide Slots, SlotsOf;
    Discounted(held, t);
  }

  /** The last reference of a description is the only slot that names it. */
  lemma LastNamed(o: Ofd, held: map<Slot, OfdId>, t: Slot)
    requires t in held && Counts(o, held[t], held) && o.refs == 1
    ensures forall u :: u in held && u != t ==> held[u] != held[t]
  {
    Discounted(held, t);
    var all := Slots(held, held[t]);
    assert |all - {t}| == |all| - 1 == 0;
    forall u | u in held && u != t ensures held[u] != held[t] {
      assert u !in Slots(held - {t}, held[t]);
    }
  }

  /** The pipe has one process at each end, both running and untraced. */
  ghost predicate MayPromote(ofds: map<OfdId, Ofd>, pipes: map<PipeId, Pipe>, table: map<Slot, OfdId>, procs: set<Pid>, q: PipeId) {
    && q in pipes && pipes[q].ring && pipes[q].mode.Latent? && pipes[q].rOpen && pipes[q].wOpen
    && pipes[q].rofd in ofds && pipes[q].wofd in ofds
    && |ofds[pipes[q].rofd].holders| == 1 && |ofds[pipes[q].wofd].holders| == 1
    && (forall p :: p in ofds[pipes[q].rofd].holders || p in ofds[pipes[q].wofd].holders ==> p in procs && Trace(p) !in table)
  }

  /** The end of o is gone. */
  function Shut(pipes: map<PipeId, Pipe>, o: Ofd): map<PipeId, Pipe> {
    if o.kind.File? || o.kind.pipe !in pipes then pipes
    else if o.kind.read then pipes[o.kind.pipe := pipes[o.kind.pipe].(rOpen := false)]
    else pipes[o.kind.pipe := pipes[o.kind.pipe].(wOpen := false)]
  }

  lemma NoHolderNoRefs(o: Ofd, id: OfdId, held: map<Slot, OfdId>)
    requires Counts(o, id, held) && o.kind.PipeEnd? && o.holders == map[]
    ensures o.refs == 0
  {
    forall t ensures t !in Slots(held, id) {
      assert t in Slots(held, id) ==> t in SlotsOf(held, id, Owner(t));
    }
    assert Slots(held, id) == {};
  }

  lemma UnrefKeepsEnds(ofds: map<OfdId, Ofd>, pipes: map<PipeId, Pipe>, id: OfdId, pid: Pid)
    requires Ends(ofds, pipes) && id in ofds
    ensures Ends(ofds[id := WithoutRef(ofds[id], pid)], pipes)
  {
  }

  /** An end that loses one of several references keeps its single holder. */
  lemma UnrefKeepsSingle(o: Ofd, id: OfdId, held: map<Slot, OfdId>, t: Slot)
    requires t in held && held[t] == id && o.refs > 1 && o.kind.PipeEnd?
    requires Counts(WithoutRef(o, Owner(t)), id, held - {t})
    requires |o.holders| == 1
    ensures WithoutRef(o, Owner(t)).holders.Keys == o.holders.Keys
  {
    var left := WithoutRef(o, Owner(t));
    if left.holders == map[] {
      NoHolderNoRefs(left, id, held - {t});
    } else {
      assert |left.holders.Keys| == |left.holders| && |o.holders.Keys| == |o.holders|;
      SubsetSame(left.holders.Keys, o.holders.Keys);
    }
  }

  lemma UnrefKeepsModes(ofds: map<OfdId, Ofd>, pipes: map<PipeId, Pipe>, held: map<Slot, OfdId>, t: Slot)
    requires AllCount(ofds, held) && Ends(ofds, pipes) && FastIsSingle(ofds, pipes) && t in held
    requires ofds[held[t]].refs > 1
    ensures FastIsSingle(ofds[held[t] := WithoutRef(ofds[held[t]], Owner(t))], pipes)
  {
    hide Slots, SlotsOf;
    var id := held[t];
    UnrefCounts(ofds, held, t);
    var left := WithoutRef(ofds[id], Owner(t));
    assert ofds[id := left][id] == left;
    assert Counts(left, id, held - {t});
    assert |left.holders.Keys| == |left.holders| && |ofds[id].holders.Keys| == |ofds[id].holders|;
    if ofds[id].kind.PipeEnd? && |ofds[id].holders| == 1 {
      UnrefKeepsSingle(ofds[id], id, held, t);
    }
    hide AllCount, Counts, WithoutRef;
  }

  lemma LastUnrefKeepsEnds(ofds: map<OfdId, Ofd>, pipes: map<PipeId, Pipe>, id: OfdId)
    requires Ends(ofds, pipes) && id in ofds
    ensures Ends(ofds - {id}, Shut(pipes, ofds[id]))
  {
  }

  lemma LastUnrefKeepsModes(ofds: map<OfdId, Ofd>, pipes: map<PipeId, Pipe>, id: OfdId)
    requires FastIsSingle(ofds, pipes) && id in ofds
    ensures FastIsSingle(ofds - {id}, Shut(pipes, ofds[id]))
  {
  }

  lemma ShutForward(ofds: map<OfdId, Ofd>, pipes: map<PipeId, Pipe>, id: OfdId)
    requires id in ofds
    ensures Forward(pipes, Shut(pipes, ofds[id])) && Shut(pipes, ofds[id]).Keys == pipes.Keys
  {
  }

  ghost function Promoted(ofds: map<OfdId, Ofd>, pipes: map<PipeId, Pipe>, table: map<Slot, OfdId>, procs: set<Pid>, q: PipeId): map<PipeId, Pipe> {
    if MayPromote(ofds, pipes, table, procs, q) then pipes[q := pipes[q].(mode := Fast)] else pipes
  }

  lemma PromoteKeeps(ofds: map<OfdId, Ofd>, pipes: map<PipeId, Pipe>, table: map<Slot, OfdId>, procs: set<Pid>, q: PipeId)
    requires Ends(ofds, pipes) && FastIsSingle(ofds, pipes) && KernelPid !in procs
    ensures var after := Promoted(ofds, pipes, table, procs, q);
            Ends(ofds, after) && FastIsSingle(ofds, after) && Forward(pipes, after) && after.Keys == pipes.Keys
  {
  }

  lemma SubsetSame<T>(a: set<T>, b: set<T>)
    requires a <= b && a != {} && |b| == 1
    ensures a == b
  {
    var x :| x in a;
    assert |b - {x}| == 0;
    assert b == {x};
  }

  lemma DropKeeps(ofds: map<OfdId, Ofd>, pipes: map<PipeId, Pipe>, held: map<Slot, OfdId>, t: Slot, table: map<Slot, OfdId>, procs: set<Pid>)
    requires AllCount(ofds, held) && Ends(ofds, pipes) && FastIsSingle(ofds, pipes) && KernelPid !in procs
    requires t in held && ofds[held[t]].refs > 1
    ensures var id := held[t];
            var left := ofds[id := WithoutRef(ofds[id], Owner(t))];
            var after := if ofds[id].kind.File? then pipes else Promoted(left, pipes, table, procs, ofds[id].kind.pipe);
            && left.Keys == ofds.Keys && AllCount(left, held - {t})
            && (ofds[id].kind.PipeEnd? ==> ofds[id].kind.pipe in pipes && Ends(left, pipes))
            && Ends(left, after) && FastIsSingle(left, after) && Forward(pipes, after) && after.Keys == pipes.Keys
  {
    var id := held[t];
    var left := ofds[id := WithoutRef(ofds[id], Owner(t))];
    UnrefCounts(ofds, held, t);
    UnrefKeepsModes(ofds, pipes, held, t);
    UnrefKeepsEnds(ofds, pipes, id, Owner(t));
    assert ofds[id].kind.PipeEnd? ==> ofds[id].kind.pipe in pipes;
    hide AllCount, FastIsSingle, WithoutRef, Ends;
    if ofds[id].kind.PipeEnd? {
      PromoteKeeps(left, pipes, table, procs, ofds[id].kind.pipe);
    }
  }

  /** The counts are right for the references held, which in the middle of an operation may
      differ from the table. */
  ghost predicate Balanced(s: State) {
    && AllCount(s.ofds, s.held) && Ends(s.ofds, s.pipes) && FastIsSingle(s.ofds, s.pipes)
    && ReleasedOnce(s.ofds.Keys, s.closed, s.nextOfd)
    && (forall q :: q in s.pipes ==> q < s.nextPipe && s.pipes[q].rofd < s.nextOfd && s.pipes[q].wofd < s.nextOfd)
    && KernelPid !in s.procs
  }

  /** Every reference is in the table, every description is in use, and every slot belongs to
      a process in _procs or to one being made. */
  ghost predicate Sound(s: State, making: set<Pid>) {
    && Balanced(s) && s.held == s.table && KernelPid !in making
    && Owned(s.table, s.procs + making)
    && LiveBut(s, {})
  }

  ghost predicate Owned(table: map<Slot, OfdId>, procs: set<Pid>) {
    forall t :: t in table ==> !t.InHand? && (if t.InTable? then t.pid else t.tracee) in procs
  }

  /** Every description is in use, except some that have just been made. */
  ghost predicate LiveBut(s: State, unused: set<OfdId>) {
    forall id :: id in s.ofds && id !in unused ==> s.ofds[id].refs > 0
  }

  /** Between operations. */
  ghost predicate Inv(s: State) { Sound(s, {}) }

  /** fd is the lowest free descriptor of pid from `from` on. */
  ghost predicate Lowest(table: map<Slot, OfdId>, pid: Pid, from: Fd, fd: Fd) {
    from <= fd && InTable(pid, fd) !in table && forall j :: from <= j < fd ==> InTable(pid, j) in table
  }

  /** What no operation undoes. */
  ghost predicate Follows(s: State, s': State) {
    && Forward(s.pipes, s'.pipes) && s.closed <= s'.closed && s.nextOfd <= s'.nextOfd && s.nextPipe <= s'.nextPipe
  }

  lemma DropKeepsEnds(s: State, t: Slot)
    requires Balanced(s) && t in s.held && s.ofds[s.held[t]].refs > 1 && s.ofds[s.held[t]].kind.PipeEnd?
    ensures var o := s.ofds[s.held[t]];
            o.kind.pipe in s.pipes && Ends(s.ofds[s.held[t] := WithoutRef(o, Owner(t))], s.pipes)
  {
    DropKeeps(s.ofds, s.pipes, s.held, t, s.table, s.procs);
  }

  /** One more reference to id, kept in t. */
  ghost function Ref(s: State, id: OfdId, t: Slot): State
    requires id in s.ofds
  {
    var o := WithRef(s.ofds[id], Owner(t));
    s.(ofds := s.ofds[id := o], pipes := Demote(s.pipes, o), held := s.held[t := id])
  }

  /** The reference kept in t is gone. */
  ghost function Unref(s: State, t: Slot): State
    requires t in s.held && s.held[t] in s.ofds
  {
    var id := s.held[t];
    var o := s.ofds[id];
    if o.refs == 1 then s.(ofds := s.ofds - {id}, pipes := Shut(s.pipes, o), held := s.held - {t}, closed := s.closed + [id])
    else
      var left := s.ofds[id := WithoutRef(o, Owner(t))];
      s.(ofds := left, held := s.held - {t},
         pipes := if o.kind.File? then s.pipes else Promoted(left, s.pipes, s.table, s.procs, o.kind.pipe))
  }

  lemma RefBalanced(s: State, id: OfdId, t: Slot)
    requires Balanced(s) && id in s.ofds && t !in s.held
    ensures Balanced(Ref(s, id, t)) && Forward(s.pipes, Ref(s, id, t).pipes)
  {
    RefCounts(s.ofds, s.held, id, t);
    RefKeepsEnds(s.ofds, s.pipes, id, Owner(t));
    RefKeepsModes(s.ofds, s.pipes, id, Owner(t));
    hide AllCount, Ends, FastIsSingle, Forward, WithRef, Demote;
    assert Ref(s, id, t).ofds.Keys == s.ofds.Keys;
  }

  lemma UnrefBalanced(s: State, t: Slot)
    requires Balanced(s) && t in s.held
    ensures s.held[t] in s.ofds && s.ofds[s.held[t]].refs > 0
    ensures Balanced(Unref(s, t)) && Forward(s.pipes, Unref(s, t).pipes)
  {
    HeldOpen(s, t);
    UnrefCounts(s.ofds, s.held, t);
    hide Balanced, AllCount, Unref, Forward;
    if s.ofds[s.held[t]].refs == 1 { LastUnrefBalanced(s, t); } else { DropBalanced(s, t); }
  }

  lemma LastUnrefBalanced(s: State, t: Slot)
    requires Balanced(s) && t in s.held && s.held[t] in s.ofds && s.ofds[s.held[t]].refs == 1
    ensures Balanced(Unref(s, t)) && Forward(s.pipes, Unref(s, t).pipes)
  {
    hide AllCount, Ends, FastIsSingle, Shut;
    var id := s.held[t];
    UnrefCounts(s.ofds, s.held, t);
    LastUnrefKeepsEnds(s.ofds, s.pipes, id);
    LastUnrefKeepsModes(s.ofds, s.pipes, id);
    ShutForward(s.ofds, s.pipes, id);
  }

  lemma DropBalanced(s: State, t: Slot)
    requires Balanced(s) && t in s.held && s.held[t] in s.ofds && s.ofds[s.held[t]].refs > 1
    ensures Balanced(Unref(s, t)) && Forward(s.pipes, Unref(s, t).pipes)
  {
    hide AllCount, Ends, FastIsSingle, WithoutRef, Promoted;
    DropKeeps(s.ofds, s.pipes, s.held, t, s.table, s.procs);
  }

  lemma HeldOpen(s: State, t: Slot)
    requires Balanced(s) && t in s.held
    ensures s.held[t] in s.ofds
  {
  }

  lemma RefFollows(s: State, id: OfdId, t: Slot, unused: set<OfdId>)
    requires Balanced(s) && LiveBut(s, unused) && id in s.ofds && t !in s.held
    ensures Balanced(Ref(s, id, t)) && Follows(s, Ref(s, id, t))
    ensures LiveBut(Ref(s, id, t), unused - {id}) && (unused <= {id} ==> LiveBut(Ref(s, id, t), {}))
  {
    RefBalanced(s, id, t);
    hide Balanced, Forward;
  }

  lemma UnrefFollows(s: State, t: Slot)
    requires Balanced(s) && LiveBut(s, {}) && t in s.held
    ensures s.held[t] in s.ofds && Balanced(Unref(s, t)) && LiveBut(Unref(s, t), {}) && Follows(s, Unref(s, t))
  {
    UnrefBalanced(s, t);
    hide Balanced, Forward, Promoted;
  }

  lemma ForwardTwice(s: State, m: State, w: State)
    requires Follows(s, m) && Follows(m, w)
    ensures Follows(s, w)
  {
  }

  /** A reference in hand is put in the table. */
  ghost function Placed(s: State, pid: Pid, fd: Fd): State
    requires InHand(pid) in s.held
  {
    var id := s.held[InHand(pid)];
    s.(held := (s.held - {InHand(pid)})[InTable(pid, fd) := id], table := s.table[InTable(pid, fd) := id])
  }

  lemma PlacedBalanced(s: State, pid: Pid, fd: Fd)
    requires Balanced(s) && InHand(pid) in s.held && InTable(pid, fd) !in s.held
    ensures Balanced(Placed(s, pid, fd))
  {
    var id := s.held[InHand(pid)];
    var m := s.held - {InHand(pid)};
    Discounted(s.held, InHand(pid));
    Counted(m, InTable(pid, fd), id);
    var after := m[InTable(pid, fd) := id];
    forall x | x in s.ofds ensures Counts(s.ofds[x], x, after) {
      assert Counts(s.ofds[x], x, s.held);
      forall p ensures |SlotsOf(after, x, p)| == |SlotsOf(s.held, x, p)| && (SlotsOf(after, x, p) == {} <==> SlotsOf(s.held, x, p) == {}) {
      }
    }
  }

  lemma TableOpen(s: State, making: set<Pid>, t: Slot)
    requires Sound(s, making) && t in s.table
    ensures s.table[t] in s.ofds
  {
  }

  /** The counts do not look at the table. */
  lemma TableOnly(s: State, table: map<Slot, OfdId>, unused: set<OfdId>)
    ensures Balanced(s) ==> Balanced(s.(table := table))
    ensures LiveBut(s, unused) ==> LiveBut(s.(table := table), unused)
    ensures LiveBut(s, {}) ==> LiveBut(s.(table := table), {})
    ensures forall m :: Follows(m, s) ==> Follows(m, s.(table := table))
  {
  }

  lemma OwnedMore(table: map<Slot, OfdId>, procs: set<Pid>, t: Slot, id: OfdId)
    requires Owned(table, procs) && t.InTable? && t.pid in procs
    ensures Owned(table[t := id], procs)
  {
  }

  lemma OwnedLess(table: map<Slot, OfdId>, procs: set<Pid>, t: Slot)
    requires Owned(table, procs)
    ensures Owned(table - {t}, procs)
  {
  }

  lemma OwnedTrace(table: map<Slot, OfdId>, procs: set<Pid>, tracee: Pid, id: OfdId)
    requires Owned(table, procs) && tracee in procs
    ensures Owned(table[Trace(tracee) := id], procs)
  {
  }

  lemma ClosedOwned(table: map<Slot, OfdId>, procs: set<Pid>, pid: Pid, from: Fd)
    requires Owned(table, procs)
    ensures Owned(ClosedFrom(table, pid, from), procs)
  {
  }

  lemma FollowsTable(s: State, m: State)
    requires m == s.(table := m.table)
    ensures Follows(s, m)
  {
  }

  /** A process that is not in _procs has nothing. */
  lemma NothingOwned(s: State, child: Pid)
    requires Inv(s) && child !in s.procs && child != KernelPid
    ensures forall t :: t in s.table ==> !(t.InTable? && t.pid == child) && t != Trace(child)
    ensures Sound(s, {child}) && Owned(s.table, s.procs)
  {
    assert s.procs + {} == s.procs;
  }

  /** Actions touch only the child's own descriptors. */
  lemma ActedElsewhere(table: map<Slot, OfdId>, pid: Pid, next: OfdId, a: Action)
    ensures var after := Acted(table, pid, next, a); after.Some? ==> WithoutPid(after.value, pid) == WithoutPid(table, pid)
  {
  }

  lemma InheritedElsewhere(table: map<Slot, OfdId>, parent: Pid, child: Pid)
    requires forall t :: t in table ==> !(t.InTable? && t.pid == child) && t != Trace(child)
    ensures WithoutPid(Inherited(table, parent, child), child) == table
    ensures forall target :: WithoutPid(WithTrace(Inherited(table, parent, child), child, target), child) == table
  {
  }

  lemma TargetSame(s: State, m: State, parent: Pid, child: Pid, trace: Option<Fd>, follow: bool)
    requires Sound(m, {child}) && parent != child && m.table == Inherited(s.table, parent, child)
    requires m.ofds.Keys == s.ofds.Keys && forall x :: x in m.ofds ==> m.ofds[x].kind == s.ofds[x].kind
    requires Trace(child) !in s.table
    ensures var target := TraceTarget(m.table, m.ofds, parent, trace, follow);
            && target == TraceTarget(s.table, s.ofds, parent, trace, follow)
            && (target.Some? && target.value.Some? ==> target.value.value in m.ofds)
    ensures Trace(child) !in m.table
  {
    hide Balanced, LiveBut, Owned;
    assert forall fd :: InTable(parent, fd) in m.table <==> InTable(parent, fd) in s.table;
    assert forall fd :: InTable(parent, fd) in m.table ==> m.table[InTable(parent, fd)] == s.table[InTable(parent, fd)];
    if Trace(parent) in m.table {
      TableOpen(m, {child}, Trace(parent));
    }
  }

  lemma NowRunning(s: State, child: Pid)
    requires Sound(s, {child})
    ensures Inv(s.(procs := s.procs + {child}))
    ensures forall m :: Follows(m, s) ==> Follows(m, s.(procs := s.procs + {child}))
  {
    assert s.procs + {child} + {} == s.procs + {child};
  }

  lemma NothingLeft(s: State, child: Pid)
    requires Sound(s, {child}) && forall t :: t in s.table ==> !(t.InTable? && t.pid == child) && t != Trace(child)
    ensures Inv(s)
  {
  }

  lemma SameFollows(s: State)
    ensures Follows(s, s)
  {
  }

  lemma PlacedFollows(s: State, m: State, pid: Pid, fd: Fd)
    requires Follows(s, m) && LiveBut(m, {}) && InHand(pid) in m.held
    ensures Follows(s, Placed(m, pid, fd)) && LiveBut(Placed(m, pid, fd), {})
  {
  }

  lemma MadeFollows(s: State, m: State)
    requires m.pipes == s.pipes && m.closed == s.closed && m.nextOfd >= s.nextOfd && m.nextPipe == s.nextPipe
    ensures Follows(s, m)
  {
  }

  lemma DemoteOnlyFast(s: State, id: OfdId, pid: Pid)
    requires Balanced(s) && id in s.ofds
    ensures var after := Demote(s.pipes, WithRef(s.ofds[id], pid));
            after.Keys == s.pipes.Keys && forall q :: q in s.pipes && s.pipes[q].mode.Latent? ==> after[q] == s.pipes[q]
  {
  }

  lemma MadeFile(s: State)
    requires Balanced(s)
    ensures s.nextOfd !in s.ofds && Balanced(s.(ofds := s.ofds[s.nextOfd := Ofd(File, 0, map[])], nextOfd := s.nextOfd + 1))
  {
    hide AllCount, FastIsSingle, Ends;
    var ofds := s.ofds[s.nextOfd := Ofd(File, 0, map[])];
    assert s.nextOfd !in s.ofds;
    FreshCounts(s.ofds, s.held, s.nextOfd, Ofd(File, 0, map[]));
    FreshFile(s.ofds, s.pipes, s.nextOfd);
    assert ofds.Keys == s.ofds.Keys + {s.nextOfd};
  }

  lemma FreshFile(ofds: map<OfdId, Ofd>, pipes: map<PipeId, Pipe>, id: OfdId)
    requires Ends(ofds, pipes) && FastIsSingle(ofds, pipes) && id !in ofds
    requires forall q :: q in pipes ==> pipes[q].rofd < id && pipes[q].wofd < id
    ensures Ends(ofds[id := Ofd(File, 0, map[])], pipes) && FastIsSingle(ofds[id := Ofd(File, 0, map[])], pipes)
  {
  }

  lemma FreshCounts(ofds: map<OfdId, Ofd>, held: map<Slot, OfdId>, id: OfdId, o: Ofd)
    requires AllCount(ofds, held) && id !in ofds && o.refs == 0 && o.holders == map[]
    ensures AllCount(ofds[id := o], held)
  {
    assert Slots(held, id) == {};
    assert forall p :: SlotsOf(held, id, p) == {};
    forall x | x in ofds ensures Counts(ofds[x], x, held) {}
  }

  lemma MadePipeEnds(s: State, ring: bool)
    requires Balanced(s)
    ensures var r, w, q := s.nextOfd, s.nextOfd + 1, s.nextPipe;
            var ofds := s.ofds[r := Ofd(PipeEnd(q, true), 0, map[])][w := Ofd(PipeEnd(q, false), 0, map[])];
            var pipes := s.pipes[q := Pipe(ring, Latent, true, true, r, w)];
            Ends(ofds, pipes) && FastIsSingle(ofds, pipes)
  {
    hide AllCount;
    assert s.nextOfd !in s.ofds && s.nextOfd + 1 !in s.ofds;
  }

  lemma MadePipeCounts(s: State, q: PipeId)
    requires Balanced(s)
    ensures var r, w := s.nextOfd, s.nextOfd + 1;
            var ofds := s.ofds[r := Ofd(PipeEnd(q, true), 0, map[])][w := Ofd(PipeEnd(q, false), 0, map[])];
            AllCount(ofds, s.held) && ofds.Keys == s.ofds.Keys + {r, w} && ReleasedOnce(ofds.Keys, s.closed, s.nextOfd + 2)
  {
    var r, w := s.nextOfd, s.nextOfd + 1;
    var reader, writer := Ofd(PipeEnd(q, true), 0, map[]), Ofd(PipeEnd(q, false), 0, map[]);
    assert r !in s.ofds && w !in s.ofds;
    FreshCounts(s.ofds, s.held, r, reader);
    FreshCounts(s.ofds[r := reader], s.held, w, writer);
    hide AllCount, Ends, FastIsSingle;
    assert s.ofds[r := reader][w := writer].Keys == s.ofds.Keys + {r, w};
  }

  function WithPipe(s: State, ring: bool): State {
    var r, w, q := s.nextOfd, s.nextOfd + 1, s.nextPipe;
    s.(ofds := s.ofds[r := Ofd(PipeEnd(q, true), 0, map[])][w := Ofd(PipeEnd(q, false), 0, map[])],
       pipes := s.pipes[q := Pipe(ring, Latent, true, true, r, w)],
       nextOfd := s.nextOfd + 2, nextPipe := s.nextPipe + 1)
  }

  lemma MadePipe(s: State, ring: bool)
    requires Balanced(s)
    ensures Balanced(WithPipe(s, ring)) && s.nextPipe !in s.pipes
  {
    hide AllCount, Ends, FastIsSingle, ReleasedOnce;
    MadePipeEnds(s, ring);
    MadePipeCounts(s, s.nextPipe);
  }

  lemma MadePipeFollows(s: State, ring: bool)
    requires LiveBut(s, {}) && s.nextPipe !in s.pipes
    ensures Follows(s, WithPipe(s, ring)) && LiveBut(WithPipe(s, ring), {s.nextOfd, s.nextOfd + 1})
  {
  }

  // ---- what the invariant says -----------------------------------------------------------------

  /** Reference counts are numbers of table entries; a pipe end's shares are those of each
      process, strace's counting for the kernel; and no entry dangles. */
  lemma RefsAreEntries(s: State, id: OfdId)
    requires Inv(s) && id in s.ofds
    ensures s.ofds[id].refs == |Slots(s.table, id)| > 0
    ensures s.ofds[id].kind.PipeEnd? ==> forall p ::
      (if p in s.ofds[id].holders then s.ofds[id].holders[p] == |SlotsOf(s.table, id, p)| > 0 else SlotsOf(s.table, id, p) == {})
    ensures forall t :: t in s.table ==> s.table[t] in s.ofds
  {
    assert Counts(s.ofds[id], id, s.held);
  }

  /** A description has been released exactly when nothing names it any more, and then once. */
  lemma ReleasedWhenUnnamed(s: State, id: OfdId)
    requires Inv(s) && id < s.nextOfd
    ensures id in s.closed <==> Slots(s.table, id) == {}
    ensures forall i, j :: 0 <= i < j < |s.closed| ==> s.closed[i] != s.closed[j]
  {
    if id in s.ofds {
      RefsAreEntries(s, id);
    } else {
      assert forall t :: t in s.held ==> s.held[t] in s.ofds;
      assert Slots(s.table, id) == {};
    }
  }

  /** The two ends of a fast pipe each belong to one process, and never to the kernel; an
      end is open exactly while something names it. */
  lemma FastPipeIsSingle(s: State, q: PipeId, t: Slot, u: Slot)
    requires Inv(s) && q in s.pipes && s.pipes[q].mode.Fast? && t in s.table && u in s.table
    requires s.table[t] == s.table[u] && (s.table[t] == s.pipes[q].rofd || s.table[t] == s.pipes[q].wofd)
    ensures Owner(t) == Owner(u) != KernelPid
    ensures s.pipes[q].rOpen <==> Slots(s.table, s.pipes[q].rofd) != {}
    ensures s.pipes[q].wOpen <==> Slots(s.table, s.pipes[q].wofd) != {}
  {
    var id := s.table[t];
    var o := s.ofds[id];
    assert Counts(o, id, s.held);
    assert t in SlotsOf(s.held, id, Owner(t)) && u in SlotsOf(s.held, id, Owner(u));
    assert |o.holders.Keys| == 1;
    assert o.holders.Keys == {Owner(t)} by { OnlyOne(o.holders.Keys, Owner(t)); }
    ReleasedWhenUnnamed(s, s.pipes[q].rofd);
    ReleasedWhenUnnamed(s, s.pipes[q].wofd);
  }

  lemma OnlyOne<T>(a: set<T>, x: T)
    requires |a| == 1 && x in a
    ensures a == {x}
  {
    assert |a - {x}| == 0;
  }

  // ---- file actions, as functions of the table --------------------------------------------------

  /** A spawn file action; for OPEN, whether the file system opens the file. */
  datatype Action = DUP2(fd: Fd, arg: Fd) | OPEN(fd: Fd, opens: bool) | CLOSE(fd: Fd) | CLOSEFROM(from: Fd)

  /** The child's entries for some of its parent's. */
  function InheritedFor(table: map<Slot, OfdId>, parent: Pid, child: Pid, some: set<Slot>): map<Slot, OfdId> {
    table + map t | t in table && t in some && t.InTable? && t.pid == parent :: InTable(child, t.fd) := table[t]
  }

  function Inherited(table: map<Slot, OfdId>, parent: Pid, child: Pid): map<Slot, OfdId> {
    InheritedFor(table, parent, child, table.Keys)
  }

  lemma InheritOne(table: map<Slot, OfdId>, parent: Pid, child: Pid, some: set<Slot>, t: Slot)
    requires t in table && t.InTable? && t.pid == parent && t !in some
    requires forall u :: u in table ==> !(u.InTable? && u.pid == child)
    ensures var m := InheritedFor(table, parent, child, some);
            && t in m && m[t] == table[t] && InTable(child, t.fd) !in m
            && m[InTable(child, t.fd) := table[t]] == InheritedFor(table, parent, child, some + {t})
  {
  }

  lemma InheritNone(table: map<Slot, OfdId>, parent: Pid, child: Pid)
    ensures InheritedFor(table, parent, child, {}) == table
  {
  }

  lemma InheritAll(table: map<Slot, OfdId>, parent: Pid, child: Pid, all: set<Slot>)
    requires all == set t | t in table && t.InTable? && t.pid == parent
    ensures InheritedFor(table, parent, child, all) == Inherited(table, parent, child)
  {
  }

  function ClosedFrom(table: map<Slot, OfdId>, pid: Pid, from: Fd): map<Slot, OfdId> {
    map t | t in table && !(t.InTable? && t.pid == pid && t.fd >= from) :: table[t]
  }

  /** The table after an action of pid, whose new description would be next: None if it fails. */
  function Acted(table: map<Slot, OfdId>, pid: Pid, next: OfdId, a: Action): Option<map<Slot, OfdId>> {
    match a
    case DUP2(fd, arg) => if InTable(pid, arg) in table then Some(table[InTable(pid, fd) := table[InTable(pid, arg)]]) else None
    case OPEN(fd, opens) => if opens then Some(table[InTable(pid, fd) := next]) else None
    case CLOSE(fd) => Some(table - {InTable(pid, fd)})
    case CLOSEFROM(from) => Some(ClosedFrom(table, pid, from))
  }

  function AllActed(table: map<Slot, OfdId>, pid: Pid, next: OfdId, actions: seq<Action>): Option<map<Slot, OfdId>>
    decreases |actions|
  {
    if actions == [] then Some(table) else
    var first := Acted(table, pid, next, actions[0]);
    if first.None? then None
    else AllActed(first.value, pid, if actions[0].OPEN? then next + 1 else next, actions[1..])
  }

  /** Everything of pid is gone. */
  function WithoutPid(table: map<Slot, OfdId>, pid: Pid): map<Slot, OfdId> {
    map t | t in table && !(t.InTable? && t.pid == pid) && t != Trace(pid) :: table[t]
  }

  /** What a new process is traced to: nothing, or a pipe's write end. An explicit trace must
      name one in the parent's table. The outer None is a failure. */
  function TraceTarget(table: map<Slot, OfdId>, ofds: map<OfdId, Ofd>, parent: Pid, trace: Option<Fd>, follow: bool): Option<Option<OfdId>> {
    if trace.Some? then
      var t := InTable(parent, trace.value);
      if t in table && table[t] in ofds && ofds[table[t]].kind.PipeEnd? && !ofds[table[t]].kind.read
      then Some(Some(table[t])) else None
    else if follow && Trace(parent) in table then Some(Some(table[Trace(parent)]))
    else Some(None)
  }

  /** The table once a child of parent has been set up: None if it cannot be. */
  function Spawned(table: map<Slot, OfdId>, ofds: map<OfdId, Ofd>, next: OfdId, parent: Pid, child: Pid,
                   trace: Option<Fd>, follow: bool, actions: seq<Action>): Option<map<Slot, OfdId>> {
    var target := TraceTarget(table, ofds, parent, trace, follow);
    if target.None? then None
    else AllActed(WithTrace(Inherited(table, parent, child), child, target.value), child, next, actions)
  }

  function WithTrace(table: map<Slot, OfdId>, child: Pid, target: Option<OfdId>): map<Slot, OfdId> {
    if target.Some? then table[Trace(child) := target.value] else table
  }

  lemma ReapedFollows(s: State, pid: Pid)
    requires Balanced(s) && LiveBut(s, {})
    ensures var r := s.(procs := s.procs - {pid}); Balanced(r) && LiveBut(r, {}) && Follows(s, r)
  {
  }

  lemma NobodyLeft(table: map<Slot, OfdId>, procs: set<Pid>, pid: Pid)
    requires Owned(table, procs) && WithoutPid(table, pid) == table
    ensures Owned(table, procs - {pid})
  {
    forall t | t in table ensures t in WithoutPid(table, pid) {}
  }

  // ---- what actions and spawns mean, slot by slot --------------------------------------------------

  type Entries = map<Slot, OfdId>

  ghost predicate SameBut(a: Entries, b: Entries, t: Slot) {
    forall u :: u != t ==> (u in a <==> u in b) && (u in a ==> a[u] == b[u])
  }

  /** What the action does to the table: the descriptor fd of a DUP2 comes to name what arg
      names, that of an OPEN the new description. */
  ghost predicate Does(x: Action, pid: Pid, next: OfdId, a: Entries, b: Entries) {
    match x
    case DUP2(fd, arg) =>
      InTable(pid, arg) in a && InTable(pid, fd) in b && b[InTable(pid, fd)] == a[InTable(pid, arg)] && SameBut(a, b, InTable(pid, fd))
    case OPEN(fd, opens) => opens && InTable(pid, fd) in b && b[InTable(pid, fd)] == next && SameBut(a, b, InTable(pid, fd))
    case CLOSE(fd) => InTable(pid, fd) !in b && SameBut(a, b, InTable(pid, fd))
    case CLOSEFROM(from) =>
      && (forall t :: t in b <==> t in a && !(t.InTable? && t.pid == pid && t.fd >= from))
      && (forall t :: t in b ==> b[t] == a[t])
  }

  /** Only a DUP2 of nothing and an OPEN of a file that does not open fail. */
  ghost predicate Refuses(x: Action, pid: Pid, a: Entries) {
    (x.DUP2? && InTable(pid, x.arg) !in a) || (x.OPEN? && !x.opens)
  }

  function Opened(xs: seq<Action>): nat {
    if xs == [] then 0 else Opened(xs[..|xs| - 1]) + if xs[|xs| - 1].OPEN? then 1 else 0
  }

  /** The actions take effect one after the other, from the first table on. */
  ghost predicate InOrder(xs: seq<Action>, pid: Pid, next: OfdId, tables: seq<Entries>) {
    |tables| == |xs| + 1 && forall i: nat :: i < |xs| ==> DoesAt(xs, pid, next, tables, i)
  }

  /** The i-th action takes the i-th table to the next one. */
  ghost predicate DoesAt(xs: seq<Action>, pid: Pid, next: OfdId, tables: seq<Entries>, i: nat)
    requires i < |xs| && |tables| == |xs| + 1
  {
    Does(xs[i], pid, next + Opened(xs[..i]), tables[i], tables[i + 1])
  }

  lemma ActedDoes(a: Entries, pid: Pid, next: OfdId, x: Action)
    ensures Acted(a, pid, next, x).Some? ==> Does(x, pid, next, a, Acted(a, pid, next, x).value)
    ensures Acted(a, pid, next, x).None? <==> Refuses(x, pid, a)
  {
  }

  /** Actions that all succeed do so in order; otherwise one fails on what those before it
      have made. */
  lemma {:induction false} AllActedInOrder(a: Entries, pid: Pid, next: OfdId, xs: seq<Action>) returns (tables: seq<Entries>, k: nat)
    ensures k <= |xs| && InOrder(xs[..k], pid, next, tables) && tables[0] == a
    ensures match AllActed(a, pid, next, xs)
      case Some(b) => k == |xs| && tables[k] == b
      case None => k < |xs| && Refuses(xs[k], pid, tables[k])
    decreases |xs|
  {
    if xs == [] {
      tables, k := [a], 0;
    } else {
      ActedDoes(a, pid, next, xs[0]);
      var first := Acted(a, pid, next, xs[0]);
      if first.None? {
        tables, k := [a], 0;
        assert xs[..0] == [];
      } else {
        var next' := if xs[0].OPEN? then next + 1 else next;
        var rest, j := AllActedInOrder(first.value, pid, next', xs[1..]);
        tables, k := [a] + rest, j + 1;
        hide Does, Refuses, Acted, AllActed;
        InOrderCons(xs[0], xs[1..][..j], pid, next, a, rest);
        assert [xs[0]] + xs[1..][..j] == xs[..k];
      }
    }
  }

  lemma InOrderCons(x: Action, xs: seq<Action>, pid: Pid, next: OfdId, a: Entries, rest: seq<Entries>)
    requires rest != [] && Does(x, pid, next, a, rest[0])
    requires InOrder(xs, pid, if x.OPEN? then next + 1 else next, rest)
    ensures InOrder([x] + xs, pid, next, [a] + rest)
  {
    hide DoesAt;
    var all, tables := [x] + xs, [a] + rest;
    FirstDoes(x, xs, pid, next, a, rest);
    forall i: nat | 0 < i < |all| ensures DoesAt(all, pid, next, tables, i) {
      LaterDoes(x, xs, pid, next, a, rest, i);
    }
  }

  lemma FirstDoes(x: Action, xs: seq<Action>, pid: Pid, next: OfdId, a: Entries, rest: seq<Entries>)
    requires |rest| == |xs| + 1 && Does(x, pid, next, a, rest[0])
    ensures DoesAt([x] + xs, pid, next, [a] + rest, 0)
  {
    assert ([x] + xs)[..0] == [];
  }

  lemma LaterDoes(x: Action, xs: seq<Action>, pid: Pid, next: OfdId, a: Entries, rest: seq<Entries>, i: nat)
    requires InOrder(xs, pid, if x.OPEN? then next + 1 else next, rest) && 0 < i <= |xs|
    ensures DoesAt([x] + xs, pid, next, [a] + rest, i)
  {
    hide Does, Opened;
    OpenedBefore(x, xs, i);
    assert DoesAt(xs, pid, if x.OPEN? then next + 1 else next, rest, i - 1);
    assert ([x] + xs)[i] == xs[i - 1] && ([a] + rest)[i] == rest[i - 1] && ([a] + rest)[i + 1] == rest[i];
  }

  lemma OpenedBefore(x: Action, xs: seq<Action>, i: nat)
    requires 0 < i <= |xs| + 1
    ensures Opened(([x] + xs)[..i]) == (if x.OPEN? then 1 else 0) + Opened(xs[..i - 1])
  {
    var all := [x] + xs;
    OpenedFirst(all[..i]);
    assert all[..i][1..] == xs[..i - 1];
  }

  lemma {:induction false} OpenedFirst(xs: seq<Action>)
    requires xs != []
    ensures Opened(xs) == (if xs[0].OPEN? then 1 else 0) + Opened(xs[1..])
  {
    if |xs| > 1 {
      OpenedFirst(xs[..|xs| - 1]);
      assert xs[..|xs| - 1][1..] == xs[1..][..|xs| - 2];
    }
  }

  /** An explicit trace must be a pipe's write end that the parent holds. */
  ghost predicate BadTrace(table: Entries, ofds: map<OfdId, Ofd>, parent: Pid, trace: Option<Fd>) {
    trace.Some? &&
    !(InTable(parent, trace.value) in table && table[InTable(parent, trace.value)] in ofds
      && ofds[table[InTable(parent, trace.value)]].kind.PipeEnd? && !ofds[table[InTable(parent, trace.value)]].kind.read)
  }

  /** The table before the actions: the child has what its parent has, and is traced to what
      was asked for or, if it is to follow, to what its parent is traced to. */
  ghost predicate ChildMade(table: Entries, b: Entries, parent: Pid, child: Pid, trace: Option<Fd>, follow: bool) {
    && (forall fd :: InTable(child, fd) in b <==> InTable(parent, fd) in table)
    && (forall fd :: InTable(child, fd) in b ==> b[InTable(child, fd)] == table[InTable(parent, fd)])
    && (Trace(child) in b <==> trace.Some? || (follow && Trace(parent) in table))
    && (trace.Some? && InTable(parent, trace.value) in table ==> Trace(child) in b && b[Trace(child)] == table[InTable(parent, trace.value)])
    && (trace.None? && follow && Trace(parent) in table ==> Trace(child) in b && b[Trace(child)] == table[Trace(parent)])
    && (forall t: Slot :: !(t.InTable? && t.pid == child) && t != Trace(child) ==> (t in b <==> t in table) && (t in table ==> b[t] == table[t]))
  }

  /** A child of parent has been made: from the table it starts with, all actions have taken
      effect in order. */
  ghost predicate Made(table: Entries, next: OfdId, parent: Pid, child: Pid, trace: Option<Fd>, follow: bool, xs: seq<Action>, after: Entries) {
    exists tables :: InOrder(xs, child, next, tables) && ChildMade(table, tables[0], parent, child, trace, follow) && tables[|xs|] == after
  }

  /** No child can be made: its trace is bad, or an action fails on what those before it have
      made. */
  ghost predicate NotMade(table: Entries, ofds: map<OfdId, Ofd>, next: OfdId, parent: Pid, child: Pid, trace: Option<Fd>, follow: bool, xs: seq<Action>) {
    || BadTrace(table, ofds, parent, trace)
    || exists k, tables ::
         && 0 <= k < |xs| && InOrder(xs[..k], child, next, tables)
         && ChildMade(table, tables[0], parent, child, trace, follow) && Refuses(xs[k], child, tables[k])
  }

  lemma SpawnedMeans(table: Entries, ofds: map<OfdId, Ofd>, next: OfdId, parent: Pid, child: Pid, trace: Option<Fd>, follow: bool, xs: seq<Action>)
    requires parent != child && forall t :: t in table ==> !(t.InTable? && t.pid == child) && t != Trace(child)
    ensures match Spawned(table, ofds, next, parent, child, trace, follow, xs)
      case Some(after) => !BadTrace(table, ofds, parent, trace) && Made(table, next, parent, child, trace, follow, xs, after)
      case None => NotMade(table, ofds, next, parent, child, trace, follow, xs)
  {
    var target := TraceTarget(table, ofds, parent, trace, follow);
    TargetMeans(table, ofds, parent, trace, follow);
    if target.Some? {
      var start := WithTrace(Inherited(table, parent, child), child, target.value);
      StartMeans(table, ofds, parent, child, trace, follow);
      var tables, k := AllActedInOrder(start, child, next, xs);
      hide Does, Refuses, AllActed, ChildMade, Inherited, WithTrace;
      assert k == |xs| ==> xs[..k] == xs;
    }
  }

  lemma NobodyYet(s: State, child: Pid)
    requires Inv(s) && child !in s.procs
    ensures forall t :: t in s.table ==> !(t.InTable? && t.pid == child) && t != Trace(child)
  {
  }

  lemma TargetMeans(table: Entries, ofds: map<OfdId, Ofd>, parent: Pid, trace: Option<Fd>, follow: bool)
    ensures TraceTarget(table, ofds, parent, trace, follow).None? <==> BadTrace(table, ofds, parent, trace)
  {
  }

  lemma StartMeans(table: Entries, ofds: map<OfdId, Ofd>, parent: Pid, child: Pid, trace: Option<Fd>, follow: bool)
    requires parent != child && forall t :: t in table ==> !(t.InTable? && t.pid == child) && t != Trace(child)
    requires TraceTarget(table, ofds, parent, trace, follow).Some?
    ensures ChildMade(table, WithTrace(Inherited(table, parent, child), child, TraceTarget(table, ofds, parent, trace, follow).value), parent, child, trace, follow)
  {
  }

  class Kernel {
    var ofds: map<OfdId, Ofd>
    var pipes: map<PipeId, Pipe>
    var table: map<Slot, OfdId>
    var procs: set<Pid>
    var closed: seq<OfdId>
    var nextOfd: OfdId
    var nextPipe: PipeId
    ghost var held: map<Slot, OfdId>

    ghost function Now(): State
      reads this
    {
      State(ofds, pipes, table, held, procs, closed, nextOfd, nextPipe)
    }

    /** The kernel with its first process, which has nothing open. */
    constructor (first: Pid)
      requires first != KernelPid
      ensures Inv(Now()) && procs == {first} && table == map[] && ofds == map[] && pipes == map[] && closed == []
    {
      ofds, pipes, table, held := map[], map[], map[], map[];
      procs, closed, nextOfd, nextPipe := {first}, [], 0, 0;
      new;
      NothingYet();
      assert ofds.Keys == {};
    }

    method OfdRef(id: OfdId, pid: Pid, ghost t: Slot, ghost unused: set<OfdId>)
      requires Balanced(Now()) && LiveBut(Now(), unused) && id in ofds && t !in held && Owner(t) == pid
      modifies this`ofds, this`pipes, this`held
      ensures Now() == Ref(old(Now()), id, t)
      ensures Balanced(Now()) && Follows(old(Now()), Now())
      ensures LiveBut(Now(), unused - {id}) && (unused <= {id} ==> LiveBut(Now(), {}))
      ensures held == old(held)[t := id] && ofds.Keys == old(ofds).Keys
      ensures forall x :: x in ofds ==> ofds[x].kind == old(ofds)[x].kind
    {
      hide Balanced, LiveBut, Follows, WithRef, Demote;
      RefFollows(Now(), id, t, unused);
      var o := WithRef(ofds[id], pid);
      ofds := ofds[id := o];
      held := held[t := id];
      DemoteIfShared(o);
    }

    method DemoteIfShared(o: Ofd)
      modifies this`pipes
      ensures pipes == Demote(old(pipes), o)
    {
      if o.kind.PipeEnd? && o.kind.pipe in pipes {
        var pipe := pipes[o.kind.pipe];
        if pipe.ring && |o.holders| > 1 && pipe.mode.Fast? {
          pipes := pipes[o.kind.pipe := pipe.(mode := Demoted)];
        }
      }
    }

    method PipeMaybePromote(q: PipeId)
      requires q in pipes && Ends(ofds, pipes)
      modifies this`pipes
      ensures pipes == Promoted(ofds, old(pipes), table, procs, q)
    {
      if !pipes[q].ring || !pipes[q].rOpen || !pipes[q].wOpen { return; }
      if !pipes[q].mode.Latent? { return; }
      var r, w := ofds[pipes[q].rofd].holders, ofds[pipes[q].wofd].holders;
      if |r| != 1 || |w| != 1 { return; }
      if exists p | p in r.Keys + w.Keys :: p !in procs || Trace(p) in table { return; }
      pipes := pipes[q := pipes[q].(mode := Fast)];
    }

    method OfdUnref(id: OfdId, pid: Pid, ghost t: Slot)
      requires Balanced(Now()) && LiveBut(Now(), {}) && t in held && held[t] == id && Owner(t) == pid
      modifies this`ofds, this`pipes, this`held, this`closed
      ensures Now() == Unref(old(Now()), t)
      ensures Balanced(Now()) && LiveBut(Now(), {}) && Follows(old(Now()), Now())
      ensures held == old(held) - {t}
    {
      hide Balanced, LiveBut, Follows, Ends, Promoted, Shut, WithoutRef;
      UnrefBalanced(Now(), t);
      UnrefFollows(Now(), t);
      if ofds[id].refs > 1 && ofds[id].kind.PipeEnd? { DropKeepsEnds(Now(), t); }
      var o := ofds[id];
      var left := WithoutRef(o, pid);
      held := held - {t};
      if o.refs > 1 {
        ofds := ofds[id := left];
        if o.kind.PipeEnd? {
          PipeMaybePromote(o.kind.pipe);
        }
      } else {
        ofds := ofds - {id};
        closed := closed + [id];
        pipes := Shut(pipes, o);
      }
    }

    method AllocFd(pid: Pid, from: Fd) returns (fd: Fd)
      ensures Lowest(table, pid, from, fd)
    {
      fd := from;
      ghost var seen: set<Slot> := {};
      while InTable(pid, fd) in table
        invariant from <= fd && seen <= table.Keys && |seen| == fd - from
        invariant forall j :: from <= j < fd ==> InTable(pid, j) in table
        invariant forall t :: t in seen ==> t.InTable? && t.fd < fd
        decreases |table.Keys - seen|
      {
        assert InTable(pid, fd) in table.Keys - seen;
        assert table.Keys - (seen + {InTable(pid, fd)}) == (table.Keys - seen) - {InTable(pid, fd)};
        seen := seen + {InTable(pid, fd)};
        fd := fd + 1;
      }
    }

    /** FS_DUP and F_DUPFD: a second descriptor, the lowest from min on. */
    method DupFrom(pid: Pid, fd: Fd, min: Fd) returns (r: Option<Fd>)
      requires Inv(Now()) && pid in procs
      modifies this`ofds, this`pipes, this`held, this`table
      ensures Inv(Now()) && Follows(old(Now()), Now())
      ensures InTable(pid, fd) !in old(table) ==> r.None? && Now() == old(Now())
      ensures InTable(pid, fd) in old(table) ==>
        && r.Some? && Lowest(old(table), pid, min, r.value)
        && table == old(table)[InTable(pid, r.value) := old(table)[InTable(pid, fd)]]
    {
      if InTable(pid, fd) !in table { return None; }
      var id := table[InTable(pid, fd)];
      TableOpen(Now(), {}, InTable(pid, fd));
      hide Balanced, LiveBut, Ref, Follows;
      var newfd := AllocFd(pid, min);
      OfdRef(id, pid, InTable(pid, newfd), {});
      ghost var m := Now();
      table := table[InTable(pid, newfd) := id];
      TableOnly(m, table, {});
      r := Some(newfd);
    }

    /** The descriptor fd of pid comes to name id, whose reference is in hand; what it named
        before is released first. */
    method Install(pid: Pid, fd: Fd, id: OfdId)
      requires Balanced(Now()) && LiveBut(Now(), {}) && InHand(pid) !in table
      requires InHand(pid) in held && held == table[InHand(pid) := id]
      modifies this`ofds, this`pipes, this`held, this`closed, this`table
      ensures Balanced(Now()) && LiveBut(Now(), {}) && Follows(old(Now()), Now())
      ensures table == old(table)[InTable(pid, fd) := id] && held == table
    {
      hide Balanced, LiveBut, Unref, Follows;
      if InTable(pid, fd) in table {
        OfdUnref(table[InTable(pid, fd)], pid, InTable(pid, fd));
      } else {
        SameFollows(Now());
      }
      ghost var m := Now();
      PlacedBalanced(m, pid, fd);
      table := table[InTable(pid, fd) := id];
      held := (held - {InHand(pid)})[InTable(pid, fd) := id];
      PlacedFollows(old(Now()), m, pid, fd);
    }

    /** What FS_DUP2 and the DUP2 action do to the table. */
    method Redirect(pid: Pid, id: OfdId, fd: Fd, ghost making: set<Pid>)
      requires Sound(Now(), making) && pid in procs + making && id in ofds
      modifies this`ofds, this`pipes, this`held, this`closed, this`table
      ensures Sound(Now(), making) && Follows(old(Now()), Now())
      ensures table == old(table)[InTable(pid, fd) := id]
    {
      hide Balanced, LiveBut, Ref, Unref, Follows;
      assert InHand(pid) !in table;
      OfdRef(id, pid, InHand(pid), {});
      ghost var m := Now();
      Install(pid, fd, id);
      ForwardTwice(old(Now()), m, Now());
    }

    method Dup2(pid: Pid, fd: Fd, newfd: Fd) returns (ok: bool)
      requires Inv(Now()) && pid in procs
      modifies this`ofds, this`pipes, this`held, this`closed, this`table
      ensures Inv(Now()) && Follows(old(Now()), Now())
      ensures ok <==> InTable(pid, fd) in old(table)
      ensures table == if ok then old(table)[InTable(pid, newfd) := old(table)[InTable(pid, fd)]] else old(table)
      ensures !ok || fd == newfd ==> Now() == old(Now())
    {
      SameFollows(Now());
      if InTable(pid, fd) !in table { return false; }
      TableOpen(Now(), {}, InTable(pid, fd));
      hide Sound, Follows;
      if fd != newfd {
        Redirect(pid, table[InTable(pid, fd)], newfd, {});
      }
      ok := true;
    }

    /** A new description of a file, its one reference in hand. */
    method NewFile(pid: Pid) returns (id: OfdId)
      requires Balanced(Now()) && LiveBut(Now(), {}) && InHand(pid) !in held
      modifies this`ofds, this`pipes, this`held, this`nextOfd
      ensures Balanced(Now()) && LiveBut(Now(), {}) && Follows(old(Now()), Now())
      ensures id == old(nextOfd) && nextOfd == id + 1 && held == old(held)[InHand(pid) := id] && id in ofds
    {
      MadeFile(Now());
      hide Balanced, Follows, Ref;
      id := nextOfd;
      ofds, nextOfd := ofds[id := Ofd(File, 0, map[])], nextOfd + 1;
      ghost var m := Now();
      MadeFollows(old(Now()), m);
      OfdRef(id, pid, InHand(pid), {id});
      ForwardTwice(old(Now()), m, Now());
    }

    /** FS_OPEN of a file, at the lowest free descriptor. */
    method OpenFile(pid: Pid) returns (fd: Fd)
      requires Inv(Now()) && pid in procs
      modifies this`ofds, this`pipes, this`held, this`closed, this`table, this`nextOfd
      ensures Inv(Now()) && Follows(old(Now()), Now())
      ensures table == old(table)[InTable(pid, fd) := old(nextOfd)] && nextOfd == old(nextOfd) + 1
      ensures Lowest(old(table), pid, 0, fd)
    {
      fd := AllocFd(pid, 0);
      OpenAt(pid, fd, {});
    }

    /** The OPEN action: a new description of a file at fd. */
    method OpenAt(pid: Pid, fd: Fd, ghost making: set<Pid>)
      requires Sound(Now(), making) && pid in procs + making
      modifies this`ofds, this`pipes, this`held, this`closed, this`table, this`nextOfd
      ensures Sound(Now(), making) && Follows(old(Now()), Now())
      ensures table == old(table)[InTable(pid, fd) := old(nextOfd)] && nextOfd == old(nextOfd) + 1
    {
      assert InHand(pid) !in table;
      hide Balanced, LiveBut, Follows;
      var id := NewFile(pid);
      ghost var m := Now();
      Install(pid, fd, id);
      ForwardTwice(old(Now()), m, Now());
    }

    /** The description id, not yet in use, gets its first reference at the lowest free
        descriptor. */
    method PutNew(pid: Pid, id: OfdId, ghost unused: set<OfdId>, ghost q: PipeId) returns (fd: Fd)
      requires Balanced(Now()) && LiveBut(Now(), unused) && id in ofds && held == table
      modifies this`ofds, this`pipes, this`held, this`table
      ensures Balanced(Now()) && Follows(old(Now()), Now())
      ensures Lowest(old(table), pid, 0, fd)
      ensures table == old(table)[InTable(pid, fd) := id] && held == table
      ensures ofds.Keys == old(ofds).Keys
      ensures LiveBut(Now(), unused - {id}) && (unused <= {id} ==> LiveBut(Now(), {}))
      requires q in pipes && pipes[q].mode.Latent?
      ensures q in pipes && pipes[q] == old(pipes)[q]
    {
      fd := AllocFd(pid, 0);
      DemoteOnlyFast(Now(), id, pid);
      OfdRef(id, pid, InTable(pid, fd), unused);
      hide Balanced, Follows, LiveBut, WithRef, Demote;
      ghost var m := Now();
      table := table[InTable(pid, fd) := id];
      TableOnly(m, table, unused - {id});
    }

    /** PIPE_CREATE: two descriptions, at the two lowest free descriptors. */
    method MakePipe(pid: Pid, ring: bool) returns (rfd: Fd, wfd: Fd)
      requires Inv(Now()) && pid in procs
      modifies this`ofds, this`pipes, this`held, this`table, this`nextOfd, this`nextPipe
      ensures Inv(Now()) && Follows(old(Now()), Now())
      ensures Lowest(old(table), pid, 0, rfd) && Lowest(old(table)[InTable(pid, rfd) := old(nextOfd)], pid, 0, wfd)
      ensures var r, w, q := old(nextOfd), old(nextOfd) + 1, old(nextPipe);
              && table == old(table)[InTable(pid, rfd) := r][InTable(pid, wfd) := w]
              && q !in old(pipes) && q in pipes && pipes[q] == Pipe(ring, Latent, true, true, r, w)
    {
      hide Balanced, Follows, LiveBut, Lowest, Owned;
      var r, w, q := NewPipe(ring);
      ghost var m := Now();
      rfd, wfd := PutPair(pid, r, w, q);
      ForwardTwice(old(Now()), m, Now());
      OwnedMore(old(table), procs + {}, InTable(pid, rfd), r);
      OwnedMore(old(table)[InTable(pid, rfd) := r], procs + {}, InTable(pid, wfd), w);
    }

    method PutPair(pid: Pid, r: OfdId, w: OfdId, ghost q: PipeId) returns (rfd: Fd, wfd: Fd)
      requires Balanced(Now()) && LiveBut(Now(), {r, w}) && r in ofds && w in ofds && held == table
      requires q in pipes && pipes[q].mode.Latent?
      modifies this`ofds, this`pipes, this`held, this`table
      ensures Balanced(Now()) && LiveBut(Now(), {}) && Follows(old(Now()), Now())
      ensures Lowest(old(table), pid, 0, rfd) && Lowest(old(table)[InTable(pid, rfd) := r], pid, 0, wfd)
      ensures table == old(table)[InTable(pid, rfd) := r][InTable(pid, wfd) := w] && held == table
      ensures q in pipes && pipes[q] == old(pipes)[q]
    {
      hide Balanced, Follows, LiveBut, Lowest;
      assert {r, w} - {r} <= {w};
      rfd := PutNew(pid, r, {r, w}, q);
      ghost var m := Now();
      wfd := PutNew(pid, w, {r, w} - {r}, q);
      ForwardTwice(old(Now()), m, Now());
    }

    method NewPipe(ring: bool) returns (r: OfdId, w: OfdId, q: PipeId)
      requires Balanced(Now()) && LiveBut(Now(), {})
      modifies this`ofds, this`pipes, this`nextOfd, this`nextPipe
      ensures Balanced(Now()) && Follows(old(Now()), Now()) && LiveBut(Now(), {r, w})
      ensures r == old(nextOfd) && w == r + 1 && q == old(nextPipe) && q !in old(pipes)
      ensures Now() == WithPipe(old(Now()), ring)
    {
      hide Balanced, LiveBut, Follows;
      MadePipe(Now(), ring);
      MadePipeFollows(Now(), ring);
      ghost var made := WithPipe(Now(), ring);
      r, w, q := nextOfd, nextOfd + 1, nextPipe;
      ofds := ofds[r := Ofd(PipeEnd(q, true), 0, map[])][w := Ofd(PipeEnd(q, false), 0, map[])];
      pipes := pipes[q := Pipe(ring, Latent, true, true, r, w)];
      nextOfd, nextPipe := nextOfd + 2, nextPipe + 1;
    }

    /** Unref first, then the entry goes. */
    method CloseSlot(t: Slot, ghost making: set<Pid>)
      requires Sound(Now(), making) && t in table
      modifies this`ofds, this`pipes, this`held, this`closed, this`table
      ensures Sound(Now(), making) && Follows(old(Now()), Now())
      ensures table == old(table) - {t}
    {
      hide Balanced, LiveBut, Follows, Owned, Unref;
      OfdUnref(table[t], Owner(t), t);
      ghost var m := Now();
      table := table - {t};
      TableOnly(m, table, {});
      OwnedLess(old(table), procs + making, t);
    }

    /** FS_CLOSE. */
    method Close(pid: Pid, fd: Fd) returns (ok: bool)
      requires Inv(Now()) && pid in procs
      modifies this`ofds, this`pipes, this`held, this`closed, this`table
      ensures Inv(Now()) && Follows(old(Now()), Now())
      ensures ok <==> InTable(pid, fd) in old(table)
      ensures table == old(table) - {InTable(pid, fd)}
      ensures !ok ==> Now() == old(Now())
    {
      hide Sound, Follows;
      SameFollows(Now());
      if InTable(pid, fd) !in table { return false; }
      CloseSlot(InTable(pid, fd), {});
      ok := true;
    }

    /** The CLOSEFROM action, and with from 0 every descriptor of pid: enumerate, then close. */
    method CloseFrom(pid: Pid, from: Fd, ghost making: set<Pid>)
      requires Sound(Now(), making)
      modifies this`ofds, this`pipes, this`held, this`closed, this`table
      ensures Sound(Now(), making) && Follows(old(Now()), Now())
      ensures table == ClosedFrom(old(table), pid, from)
    {
      hide Sound, Follows;
      var drop := set t | t in table && t.InTable? && t.pid == pid && t.fd >= from;
      SameFollows(Now());
      while drop != {}
        invariant Sound(Now(), making) && Follows(old(Now()), Now())
        invariant drop == set t | t in table && t.InTable? && t.pid == pid && t.fd >= from
        invariant ClosedFrom(table, pid, from) == ClosedFrom(old(table), pid, from)
        decreases drop
      {
        var t :| t in drop;
        ghost var m := Now();
        CloseSlot(t, making);
        ForwardTwice(old(Now()), m, Now());
        drop := drop - {t};
      }
      assert forall t :: t in table ==> !(t.InTable? && t.pid == pid && t.fd >= from) by {
        assert forall t :: t in table && t.InTable? && t.pid == pid && t.fd >= from ==> t in drop;
      }
      assert ClosedFrom(table, pid, from) == table;
    }

    /** One file action of a child. */
    method Act(pid: Pid, a: Action, ghost making: set<Pid>) returns (ok: bool)
      requires Sound(Now(), making) && pid in procs + making
      modifies this`ofds, this`pipes, this`held, this`closed, this`table, this`nextOfd
      ensures Sound(Now(), making) && Follows(old(Now()), Now())
      ensures var after := Acted(old(table), pid, old(nextOfd), a);
              ok == after.Some? && table == if ok then after.value else old(table)
      ensures nextOfd == old(nextOfd) + if ok && a.OPEN? then 1 else 0
      ensures if ok then Does(a, pid, old(nextOfd), old(table), table) else Refuses(a, pid, old(table)) && table == old(table)
    {
      SameFollows(Now());
      ActedDoes(table, pid, nextOfd, a);
      ok := true;
      match a {
        case DUP2(fd, arg) =>
          if InTable(pid, arg) !in table { return false; }
          TableOpen(Now(), making, InTable(pid, arg));
          hide Sound, Follows;
          Redirect(pid, table[InTable(pid, arg)], fd, making);
        case OPEN(fd, opens) =>
          if !opens { return false; }
          hide Sound, Follows;
          OpenAt(pid, fd, making);
        case CLOSE(fd) =>
          hide Sound, Follows;
          if InTable(pid, fd) in table {
            CloseSlot(InTable(pid, fd), making);
          } else {
            assert table - {InTable(pid, fd)} == table;
          }
        case CLOSEFROM(from) =>
          hide Sound, Follows;
          CloseFrom(pid, from, making);
      }
    }

    /** Every descriptor of pid is released, and then its table is cleared. */
    method Sweep(pid: Pid, ghost making: set<Pid>)
      requires Sound(Now(), making)
      modifies this`ofds, this`pipes, this`held, this`closed, this`table
      ensures Sound(Now(), making) && Follows(old(Now()), Now())
      ensures table == ClosedFrom(old(table), pid, 0)
    {
      hide Balanced, LiveBut, Follows, Owned, Unref;
      var slots := set t | t in table && t.InTable? && t.pid == pid;
      SameFollows(Now());
      while slots != {}
        invariant Balanced(Now()) && LiveBut(Now(), {}) && Follows(old(Now()), Now())
        invariant table == old(table) && procs == old(procs)
        invariant slots <= held.Keys && (forall t :: t in slots ==> t.InTable? && t.pid == pid)
        invariant forall t :: t in table && t !in slots && t.InTable? && t.pid == pid ==> t !in held
        invariant forall t :: t in held ==> t in table && held[t] == table[t]
        invariant forall t :: t in table && !(t.InTable? && t.pid == pid) ==> t in held
        decreases slots
      {
        var t :| t in slots;
        ghost var m := Now();
        OfdUnref(table[t], pid, t);
        ForwardTwice(old(Now()), m, Now());
        slots := slots - {t};
      }
      ghost var m := Now();
      table := ClosedFrom(table, pid, 0);
      assert held == table;
      TableOnly(m, table, {});
      ClosedOwned(old(table), procs + making, pid, 0);
    }

    /** The kernel's own reference to a traced process's pipe goes, once the process has
        forgotten it. */
    method Untrace(pid: Pid, ghost making: set<Pid>)
      requires Sound(Now(), making)
      modifies this`ofds, this`pipes, this`held, this`closed, this`table
      ensures Sound(Now(), making) && Follows(old(Now()), Now())
      ensures table == old(table) - {Trace(pid)}
    {
      hide Balanced, LiveBut, Follows, Owned, Unref;
      SameFollows(Now());
      if Trace(pid) in table {
        var id := table[Trace(pid)];
        ghost var m := Now();
        table := table - {Trace(pid)};
        TableOnly(m, table, {});
        OwnedLess(old(table), procs + making, Trace(pid));
        FollowsTable(old(Now()), Now());
        ghost var m' := Now();
        OfdUnref(id, KernelPid, Trace(pid));
        ForwardTwice(old(Now()), m', Now());
      } else {
        assert table - {Trace(pid)} == table;
      }
    }

    /** _exitProcess: the trace reference, then every descriptor. */
    method Exit(pid: Pid)
      requires Inv(Now()) && pid in procs
      modifies this`ofds, this`pipes, this`held, this`closed, this`table
      ensures Inv(Now()) && Follows(old(Now()), Now())
      ensures table == WithoutPid(old(table), pid)
    {
      hide Sound, Follows;
      Untrace(pid, {});
      ghost var m := Now();
      Sweep(pid, {});
      ForwardTwice(old(Now()), m, Now());
    }

    /** _reap: a process that has exited leaves _procs, with nothing of it left in the tables. */
    method Reap(pid: Pid)
      requires Inv(Now()) && pid in procs && WithoutPid(table, pid) == table
      modifies this`procs
      ensures Inv(Now()) && Follows(old(Now()), Now())
      ensures Now() == old(Now()).(procs := old(procs) - {pid})
    {
      hide Follows, Balanced, Owned, LiveBut;
      assert procs + {} == procs && procs - {pid} + {} == procs - {pid};
      NobodyLeft(table, procs, pid);
      ReapedFollows(Now(), pid);
      procs := procs - {pid};
    }

    /** A child takes a reference to everything its parent has. */
    method Inherit(parent: Pid, child: Pid)
      requires Inv(Now()) && parent in procs && child !in procs && child != KernelPid
      modifies this`ofds, this`pipes, this`held, this`table
      ensures Sound(Now(), {child}) && Follows(old(Now()), Now())
      ensures table == Inherited(old(table), parent, child)
      ensures ofds.Keys == old(ofds).Keys && forall x :: x in ofds ==> ofds[x].kind == old(ofds)[x].kind
    {
      hide Balanced, LiveBut, Follows, Owned, Ref, InheritedFor;
      NothingOwned(Now(), child);
      ghost var before := table;
      InheritNone(table, parent, child);
      var slots := set t | t in table && t.InTable? && t.pid == parent;
      ghost var done := {};
      SameFollows(Now());
      while slots != {}
        invariant Sound(Now(), {child}) && Follows(old(Now()), Now())
        invariant table == InheritedFor(before, parent, child, done)
        invariant done + slots == set t | t in before && t.InTable? && t.pid == parent
        invariant done !! slots
        invariant ofds.Keys == old(ofds).Keys && forall x :: x in ofds ==> ofds[x].kind == old(ofds)[x].kind
        decreases slots
      {
        var t :| t in slots;
        InheritOne(before, parent, child, done, t);
        ghost var m := Now();
        TakeOver(child, t);
        ForwardTwice(old(Now()), m, Now());
        done, slots := done + {t}, slots - {t};
      }
      InheritAll(before, parent, child, done);
    }

    /** The child's descriptor comes to name what its parent's does. */
    method TakeOver(child: Pid, t: Slot)
      requires Sound(Now(), {child}) && t in table && t.InTable? && InTable(child, t.fd) !in table
      modifies this`ofds, this`pipes, this`held, this`table
      ensures Sound(Now(), {child}) && Follows(old(Now()), Now())
      ensures table == old(table)[InTable(child, t.fd) := old(table)[t]]
      ensures ofds.Keys == old(ofds).Keys && forall x :: x in ofds ==> ofds[x].kind == old(ofds)[x].kind
    {
      hide Balanced, LiveBut, Follows, Owned, Ref;
      TableOpen(Now(), {child}, t);
      var id := table[t];
      OfdRef(id, child, InTable(child, t.fd), {});
      ghost var m := Now();
      table := table[InTable(child, t.fd) := id];
      TableOnly(m, table, {});
      OwnedMore(old(table), procs + {child}, InTable(child, t.fd), id);
    }

    /** The kernel takes its own reference to the pipe a new process is traced to. */
    method AttachTrace(child: Pid, id: OfdId, ghost making: set<Pid>)
      requires Sound(Now(), making) && child in procs + making && id in ofds && Trace(child) !in table
      modifies this`ofds, this`pipes, this`held, this`table
      ensures Sound(Now(), making) && Follows(old(Now()), Now())
      ensures table == old(table)[Trace(child) := id]
    {
      hide Balanced, LiveBut, Follows, Owned, Ref;
      OfdRef(id, KernelPid, Trace(child), {});
      ghost var m := Now();
      table := table[Trace(child) := id];
      TableOnly(m, table, {});
      OwnedTrace(old(table), procs + making, child, id);
    }

    method RunActions(child: Pid, actions: seq<Action>, ghost making: set<Pid>) returns (ok: bool)
      requires Sound(Now(), making) && child in procs + making
      modifies this`ofds, this`pipes, this`held, this`closed, this`table, this`nextOfd
      ensures Sound(Now(), making) && Follows(old(Now()), Now())
      ensures var after := AllActed(old(table), child, old(nextOfd), actions);
              ok == after.Some? && (ok ==> table == after.value)
      ensures WithoutPid(table, child) == WithoutPid(old(table), child)
    {
      hide Sound, Follows, Acted, WithoutPid;
      SameFollows(Now());
      ghost var result := AllActed(table, child, nextOfd, actions);
      for i := 0 to |actions|
        invariant Sound(Now(), making) && Follows(old(Now()), Now())
        invariant AllActed(table, child, nextOfd, actions[i..]) == result
        invariant WithoutPid(table, child) == WithoutPid(old(table), child)
      {
        assert actions[i..][0] == actions[i] && actions[i..][1..] == actions[i + 1..];
        ActedElsewhere(table, child, nextOfd, actions[i]);
        ghost var m := Now();
        ok := Act(child, actions[i], making);
        ForwardTwice(old(Now()), m, Now());
        if !ok { return; }
      }
      ok := true;
    }

    /** A child that could not be made gives everything back. */
    method Abandon(child: Pid)
      requires Sound(Now(), {child})
      modifies this`ofds, this`pipes, this`held, this`closed, this`table
      ensures Inv(Now()) && Follows(old(Now()), Now())
      ensures table == WithoutPid(old(table), child)
    {
      hide Sound, Follows;
      Sweep(child, {child});
      ghost var m := Now();
      Untrace(child, {child});
      ForwardTwice(old(Now()), m, Now());
      NothingLeft(Now(), child);
    }

    /** The descriptor table part of _spawnImage: inherit, attach a trace, run the actions in
        order; on failure everything the child took is released. trace is the descriptor
        spec.trace names, follow whether the parent's own trace is to be followed. */
    method Spawn(parent: Pid, child: Pid, trace: Option<Fd>, follow: bool, actions: seq<Action>) returns (ok: bool)
      requires Inv(Now()) && parent in procs && child !in procs && child != KernelPid
      modifies this
      ensures Inv(Now()) && Follows(old(Now()), Now())
      ensures procs == (if ok then old(procs) + {child} else old(procs))
      ensures if ok then !BadTrace(old(table), old(ofds), parent, trace) && Made(old(table), old(nextOfd), parent, child, trace, follow, actions, table)
              else NotMade(old(table), old(ofds), old(nextOfd), parent, child, trace, follow, actions) && table == old(table)
    {
      hide Inv, Follows, Made, NotMade, BadTrace, Spawned;
      NobodyYet(Now(), child);
      SpawnedMeans(table, ofds, nextOfd, parent, child, trace, follow, actions);
      ok := SpawnImage(parent, child, trace, follow, actions);
    }

    method SpawnImage(parent: Pid, child: Pid, trace: Option<Fd>, follow: bool, actions: seq<Action>) returns (ok: bool)
      requires Inv(Now()) && parent in procs && child !in procs && child != KernelPid
      modifies this
      ensures Inv(Now()) && Follows(old(Now()), Now())
      ensures var after := Spawned(old(table), old(ofds), old(nextOfd), parent, child, trace, follow, actions);
              && ok == after.Some? && table == (if ok then after.value else old(table))
              && procs == (if ok then old(procs) + {child} else old(procs))
    {
      hide Sound, Follows, AllActed, Inherited, WithoutPid, TraceTarget;
      NothingOwned(Now(), child);
      InheritedElsewhere(table, parent, child);
      Inherit(parent, child);
      ghost var m := Now();
      var target := TraceTarget(table, ofds, parent, trace, follow);
      TargetSame(old(Now()), m, parent, child, trace, follow);
      if target.None? {
        Abandon(child);
        ForwardTwice(old(Now()), m, Now());
        return false;
      }
      if target.value.Some? {
        AttachTrace(child, target.value.value, {child});
        ForwardTwice(old(Now()), m, Now());
      }
      ghost var m' := Now();
      assert table == WithTrace(m.table, child, target.value);
      ok := RunActions(child, actions, {child});
      ForwardTwice(old(Now()), m', Now());
      ghost var w := Now();
      if !ok {
        Abandon(child);
        ForwardTwice(old(Now()), w, Now());
        return;
      }
      procs := procs + {child};
      NowRunning(w, child);
    }
  }
}
