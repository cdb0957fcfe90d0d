/** Who may touch a pipe's ring. While the mode word says FAST the process at each end moves
    bytes itself, having loaded the word some time before; otherwise the kernel moves them
    for processes waiting in an RPC. Modes change when holders come and go. */
module ModeLadder {
  import opened Wrappers
  import F = FdTable

  type Pid = F.Pid
  type Mode = F.Mode

  datatype End = Rd | Wr

  /** Loaded means the process saw FAST and has not finished its operation on that end. A
      dying process has been terminated, but its descriptors are still to be released. */
  datatype Phase = Running | Loaded(e: End) | InRpc | Dying

  /** kernel is the process for which the kernel is moving bytes, and the end; the kernel
      pseudo-process stands for strace output. */
  datatype State = State(
    mode: Mode, r: set<Pid>, w: set<Pid>,     // the holders of each end
    phase: map<Pid, Phase>, traced: set<Pid>,
    kernel: Option<(Pid, End)>)

  datatype Step =
    | Load(pid: Pid, e: End) | Finish(pid: Pid)
    | Call(pid: Pid) | Return(pid: Pid)
    | Spawn(pid: Pid, child: Pid, r: bool, w: bool, traced: bool)   // the child inherits the ends it keeps
    | SpawnFails(pid: Pid, child: Pid)
    | Release(pid: Pid, e: End)                       // the last descriptor of pid for e
    | Shed(pid: Pid, e: End)                          // one that is not the last
    | Trace(pid: Pid) | Untrace
    | Kill(pid: Pid) | Bury(pid: Pid)
    | KernelMoves(pid: Pid, e: End) | KernelFinishes

  function Holders(s: State, e: End): set<Pid> { match e case Rd => s.r case Wr => s.w }

  function WithHolders(s: State, e: End, h: set<Pid>): State { match e case Rd => s.(r := h) case Wr => s.(w := h) }

  /** _ofdRef: a second holder ends the fast mode for good. */
  function Hold(s: State, e: End, pid: Pid): (t: State)
    ensures t.phase == s.phase && t.traced == s.traced && t.kernel == s.kernel
    ensures t.r == (if e.Rd? then s.r + {pid} else s.r) && t.w == (if e.Wr? then s.w + {pid} else s.w)
  {
    var h := Holders(s, e) + {pid};
    WithHolders(if s.mode.Fast? && |h| > 1 then s.(mode := F.Demoted) else s, e, h)
  }

  /** _pipeMaybePromote, when a descriptor of an end that survives has gone. */
  function Recheck(s: State, e: End): (t: State)
    ensures t == s.(mode := t.mode)
  {
    if Holders(s, e) != {} && s.mode.Latent? && |s.r| == 1 && |s.w| == 1
       && (forall p :: p in s.r + s.w ==> p in s.phase && p !in s.traced) then s.(mode := F.Fast)
    else s
  }

  /** _ofdUnref of the last descriptor that pid has of an end. */
  function Drop(s: State, e: End, pid: Pid): (t: State)
    ensures t.phase == s.phase && t.traced == s.traced && t.kernel == s.kernel
    ensures t.r == (if e.Rd? then s.r - {pid} else s.r) && t.w == (if e.Wr? then s.w - {pid} else s.w)
  {
    Recheck(WithHolders(s, e, Holders(s, e) - {pid}), e)
  }

  function Inherited(s: State, pid: Pid, child: Pid): State {
    var a := if pid in s.r then Hold(s, Rd, child) else s;
    if pid in a.w then Hold(a, Wr, child) else a
  }

  function Kept(s: State, child: Pid, r: bool, w: bool): State {
    var c := if r || child !in s.r then s else Drop(s, Rd, child);
    if w || child !in c.w then c else Drop(c, Wr, child)
  }

  predicate MaySpawn(s: State, pid: Pid, child: Pid) {
    && s.kernel.None? && pid in s.phase && s.phase[pid].InRpc? && child !in s.phase && child != F.KernelPid
    && child !in s.r && child !in s.w
  }

  /** pid closes a descriptor of the end, or the kernel does so for it. */
  predicate Closing(s: State, pid: Pid, e: End) {
    s.kernel.None? && pid in s.phase && (s.phase[pid].InRpc? || s.phase[pid].Dying?) && pid in Holders(s, e)
  }

  /** The steps of the kernel's own turn leave the caller in its RPC; the kernel serves one
      thing at a time. */
  function After(s: State, x: Step): Option<State> {
    match x
    case Load(pid, e) =>
      if pid in s.phase && s.phase[pid].Running? && pid in Holders(s, e) && s.mode.Fast?
      then Some(s.(phase := s.phase[pid := Loaded(e)])) else None
    case Finish(pid) => if pid in s.phase && s.phase[pid].Loaded? then Some(s.(phase := s.phase[pid := Running])) else None
    case Call(pid) => if pid in s.phase && s.phase[pid].Running? then Some(s.(phase := s.phase[pid := InRpc])) else None
    case Return(pid) =>
      if pid in s.phase && s.phase[pid].InRpc? && s.kernel.None? then Some(s.(phase := s.phase[pid := Running])) else None
    case Spawn(pid, child, r, w, traced) =>
      if !MaySpawn(s, pid, child) then None else
      var d := Kept(Inherited(s, pid, child), child, r, w);
      Some(d.(phase := d.phase[child := Running], traced := if traced then d.traced + {child} else d.traced))
    case SpawnFails(pid, child) =>
      if MaySpawn(s, pid, child) then Some(Kept(Inherited(s, pid, child), child, false, false)) else None
    case Release(pid, e) => if Closing(s, pid, e) then Some(Drop(s, e, pid)) else None
    case Shed(pid, e) => if Closing(s, pid, e) then Some(Recheck(s, e)) else None
    case Trace(pid) =>
      if s.kernel.None? && pid in s.phase && s.phase[pid].InRpc? && pid in s.w then Some(Hold(s, Wr, F.KernelPid)) else None
    case Untrace => if s.kernel.None? && F.KernelPid in s.w then Some(Drop(s, Wr, F.KernelPid)) else None
    case Kill(pid) =>
      // terminate() takes the process out of whatever it was doing; then its descriptors go
      if s.kernel.None? && pid in s.phase then Some(s.(phase := s.phase[pid := Dying], traced := s.traced - {pid})) else None
    case Bury(pid) =>
      if s.kernel.None? && pid in s.phase && s.phase[pid].Dying? && pid !in s.r + s.w then Some(s.(phase := s.phase - {pid})) else None
    case KernelMoves(pid, e) =>
      if s.kernel.None? && pid in Holders(s, e)
         && (if pid == F.KernelPid then e.Wr? else pid in s.phase && s.phase[pid].InRpc?)
      then Some(s.(kernel := Some((pid, e)))) else None
    case KernelFinishes => if s.kernel.Some? then Some(s.(kernel := None)) else None
  }

  /** Nothing but these conditions holds a step up: a process begins on an end it holds while the
      mode is fast; the kernel releases a descriptor of a process that called it or is dying, and
      moves bytes for a process that called it or, at the write end, for a trace. */
  lemma HeldUpBy(s: State, pid: Pid, e: End)
    ensures After(s, Load(pid, e)).Some? <==>
      s.mode == F.Fast && pid in s.phase && s.phase[pid] == Running && (match e case Rd => pid in s.r case Wr => pid in s.w)
    ensures After(s, Release(pid, e)).Some? <==>
      s.kernel.None? && pid in s.phase && (s.phase[pid] == InRpc || s.phase[pid] == Dying) && (match e case Rd => pid in s.r case Wr => pid in s.w)
    ensures After(s, Shed(pid, e)).Some? <==> After(s, Release(pid, e)).Some?
    ensures After(s, KernelMoves(pid, e)).Some? <==>
      s.kernel.None? && (match e case Rd => pid in s.r case Wr => pid in s.w)
      && if pid == F.KernelPid then e == Wr else pid in s.phase && s.phase[pid] == InRpc
  {
    match e { case Rd => case Wr => }
  }

  ghost predicate Initial(s: State) {
    exists pid ::
      && pid != F.KernelPid && s.r == {pid} && s.w == {pid} && pid in s.phase && s.phase[pid] == InRpc
      && s.mode.Latent? && s.kernel.None? && F.KernelPid !in s.phase
      && (forall p :: p in s.phase ==> !s.phase[p].Loaded?)
  }

  /** Who is putting or taking bytes at e right now: processes by pid, and the kernel as None. */
  ghost function Agents(s: State, e: End): set<Option<Pid>> {
    (set p | p in s.phase && s.phase[p] == Loaded(e) :: Some(p))
    + (if s.kernel.Some? && s.kernel.value.1 == e then {None} else {})
  }

  ghost predicate Single(h: set<Pid>) { |h| <= 1 && F.KernelPid !in h }

  /** The mode's promise, and a straggler's: having loaded FAST, it is still alone at its end. */
  ghost predicate Core(s: State) {
    && F.KernelPid !in s.phase
    && (s.mode.Fast? ==> Single(s.r) && Single(s.w))
    && (forall p, e :: p in s.phase && s.phase[p] == Loaded(e) ==> Holders(s, e) == {p})
  }

  ghost predicate HoldersRun(s: State) {
    && (forall p :: p in s.r ==> p in s.phase)
    && (forall p :: p in s.w ==> p in s.phase || p == F.KernelPid)
  }

  ghost predicate Inv(s: State) {
    && Core(s) && HoldersRun(s)
    && (s.kernel.Some? ==>
          var (pid, e) := s.kernel.value;
          pid in Holders(s, e) && (pid == F.KernelPid || (pid in s.phase && s.phase[pid].InRpc?)))
  }

  lemma SizeOne<T>(a: set<T>, x: T)
    requires x in a && |a| <= 1
    ensures a == {x}
  {
    assert |a - {x}| == 0;
  }

  /** A holder who is not in the middle of an operation lets another join. */
  lemma HoldKeepsCore(s: State, e: End, one: Pid, pid: Pid)
    requires Core(s) && one in Holders(s, e) && pid !in Holders(s, e) && (one in s.phase ==> !s.phase[one].Loaded?)
    ensures Core(Hold(s, e, pid)) && Holders(Hold(s, e, pid), e) == Holders(s, e) + {pid}
    ensures F.Rank(s.mode) <= F.Rank(Hold(s, e, pid).mode)
  {
    var h := Holders(s, e) + {pid};
    if |h| <= 1 {
      SizeOne(h, one);
    }
    forall p | p in s.phase ensures s.phase[p] != Loaded(e) {
      assert s.phase[p] == Loaded(e) ==> Holders(s, e) == {p};
    }
    match e { case Rd => case Wr => }
  }

  lemma DropKeepsCore(s: State, e: End, pid: Pid)
    requires Core(s) && (pid in s.phase ==> !s.phase[pid].Loaded?)
    ensures Core(Drop(s, e, pid)) && F.Rank(s.mode) <= F.Rank(Drop(s, e, pid).mode)
  {
    var h := Holders(s, e);
    assert |h - {pid}| <= |h| by { if pid in h { assert |h - {pid}| == |h| - 1; } else { assert h - {pid} == h; } }
    forall p | p in s.phase && s.phase[p] == Loaded(e) ensures h - {pid} == h {
      assert h == {p};
    }
    match e { case Rd => case Wr => }
  }

  lemma InheritKeepsCore(s: State, pid: Pid, child: Pid)
    requires Inv(s) && pid in s.phase && s.phase[pid].InRpc? && child !in s.phase && child != F.KernelPid
    ensures var b := Inherited(s, pid, child);
            Core(b) && F.Rank(s.mode) <= F.Rank(b.mode) && b.phase == s.phase && b.kernel == s.kernel
            && b.r == (if pid in s.r then s.r + {child} else s.r) && b.w == (if pid in s.w then s.w + {child} else s.w)
  {
    hide Hold, Core;
    var a := if pid in s.r then Hold(s, Rd, child) else s;
    if pid in s.r { HoldKeepsCore(s, Rd, pid, child); }
    if pid in a.w { HoldKeepsCore(a, Wr, pid, child); }
  }

  lemma KeptKeepsCore(s: State, child: Pid, r: bool, w: bool)
    requires Core(s) && child !in s.phase
    ensures var d := Kept(s, child, r, w);
            Core(d) && F.Rank(s.mode) <= F.Rank(d.mode) && d.phase == s.phase && d.kernel == s.kernel
            && s.r - {child} <= d.r <= s.r && s.w - {child} <= d.w <= s.w
            && (!r ==> child !in d.r) && (!w ==> child !in d.w)
  {
    hide Drop, Core;
    DropKeepsCore(s, Rd, child);
    DropKeepsCore(if r || child !in s.r then s else Drop(s, Rd, child), Wr, child);
  }

  lemma RecheckKeepsCore(s: State, e: End)
    requires Core(s)
    ensures Core(Recheck(s, e)) && F.Rank(s.mode) <= F.Rank(Recheck(s, e).mode)
  {
  }

  lemma InvParts(s: State)
    requires Inv(s)
    ensures Core(s) && HoldersRun(s)
    ensures forall c :: c !in s.phase && c != F.KernelPid ==> c !in s.r && c !in s.w
  {
  }

  lemma CoreWith(s: State, child: Pid, traced: set<Pid>)
    requires Core(s) && child != F.KernelPid && child !in s.phase
    ensures Core(s.(phase := s.phase[child := Running], traced := traced))
  {
  }

  lemma SpawnKeepsInv(s: State, x: Step, s': State)
    requires Inv(s) && (x.Spawn? || x.SpawnFails?) && After(s, x) == Some(s')
    ensures Inv(s') && F.Rank(s.mode) <= F.Rank(s'.mode)
  {
    hide Inherited, Kept, Core;
    InvParts(s);
    InheritKeepsCore(s, x.pid, x.child);
    KeptKeepsCore(Inherited(s, x.pid, x.child), x.child, x.Spawn? && x.r, x.Spawn? && x.w);
    if x.Spawn? {
      var d := Kept(Inherited(s, x.pid, x.child), x.child, x.r, x.w);
      CoreWith(d, x.child, s'.traced);
    }
  }

  /** What every step keeps; and the mode only ever moves forward. */
  lemma StepKeepsInv(s: State, x: Step, s': State)
    requires Inv(s) && After(s, x) == Some(s')
    ensures Inv(s') && F.Rank(s.mode) <= F.Rank(s'.mode)
  {
    hide Hold, Drop, Recheck;
    match x
    case Spawn(_, _, _, _, _) => SpawnKeepsInv(s, x, s');
    case SpawnFails(_, _) => SpawnKeepsInv(s, x, s');
    case Shed(_, e) => RecheckKeepsCore(s, e);
    case Release(pid, e) => DropKeepsCore(s, e, pid);
    case Trace(pid) => HoldAgain(s, pid);
    case Untrace => DropKeepsCore(s, Wr, F.KernelPid);
    case Load(pid, e) => SizeOne(Holders(s, e), pid);
    case _ =>
  }

  lemma HoldAgain(s: State, pid: Pid)
    requires Inv(s) && pid in s.w && pid in s.phase && s.phase[pid].InRpc?
    ensures Core(Hold(s, Wr, F.KernelPid)) && F.Rank(s.mode) <= F.Rank(Hold(s, Wr, F.KernelPid).mode)
  {
    if F.KernelPid !in s.w {
      HoldKeepsCore(s, Wr, pid, F.KernelPid);
    } else {
      assert s.w + {F.KernelPid} == s.w;
    }
  }

  // ---- whole runs --------------------------------------------------------------------------------

  /** The state after the steps of run, if they can all be taken. */
  function Along(s: State, run: seq<Step>): Option<State> {
    if run == [] then Some(s) else
    var before := Along(s, run[..|run| - 1]);
    if before.None? then None else After(before.value, run[|run| - 1])
  }

  lemma {:induction false} RunKeepsInv(s: State, run: seq<Step>, t: State)
    requires Initial(s) && Along(s, run) == Some(t)
    ensures Inv(t) && F.Rank(s.mode) <= F.Rank(t.mode)
  {
    hide After;
    if run != [] {
      hide Inv;
      var m := Along(s, run[..|run| - 1]).value;
      RunKeepsInv(s, run[..|run| - 1], m);
      StepKeepsInv(m, run[|run| - 1], t);
    } else {
      assert forall p :: p in s.r || p in s.w ==> p in s.phase;
    }
  }

  /** At any time at most one agent moves bytes at each end of the ring, even while a process
      that loaded FAST just before a demotion has yet to finish. */
  lemma OneAgentPerEnd(s: State, run: seq<Step>, t: State, e: End)
    requires Initial(s) && Along(s, run) == Some(t)
    ensures |Agents(t, e)| <= 1
  {
    hide After, Along, HoldersRun, Single;
    RunKeepsInv(s, run, t);
    hide F.Rank, Initial;
    forall a, b | a in Agents(t, e) && b in Agents(t, e) ensures a == b {
      if a.Some? { assert Holders(t, e) == {a.value}; }
      if b.Some? { assert Holders(t, e) == {b.value}; }
    }
    AllSame(Agents(t, e));
  }

  lemma AllSame<T>(a: set<T>)
    requires forall x, y :: x in a && y in a ==> x == y
    ensures |a| <= 1
  {
    if a != {} {
      var x :| x in a;
      assert a == {x};
    }
  }

  // ---- the descriptor tables' view ------------------------------------------------------------------

  ghost function HoldersOf(s: F.State, id: F.OfdId): set<Pid> {
    if id in s.ofds then s.ofds[id].holders.Keys else {}
  }

  /** v is pipe q as the descriptor tables have it; they know nothing of phases. */
  ghost predicate Shows(s: F.State, q: F.PipeId, v: State) {
    && q in s.pipes && s.pipes[q].ring && v.mode == s.pipes[q].mode
    && v.r == HoldersOf(s, s.pipes[q].rofd) && v.w == HoldersOf(s, s.pipes[q].wofd)
    && v.phase.Keys == s.procs && (forall p :: p in s.procs ==> (p in v.traced <==> F.Trace(p) in s.table))
  }

  /** Which description is an end of q. */
  lemma EndsOf(s: F.State, q: F.PipeId, id: F.OfdId)
    requires F.Balanced(s) && q in s.pipes && id in s.ofds
    ensures var o, p := s.ofds[id], s.pipes[q];
      && (id == p.rofd <==> o.kind == F.PipeEnd(q, true)) && (id == p.wofd <==> o.kind == F.PipeEnd(q, false))
      && p.rofd != p.wofd && (p.rOpen <==> p.rofd in s.ofds) && (p.wOpen <==> p.wofd in s.ofds)
  {
    hide F.AllCount, F.FastIsSingle, F.ReleasedOnce;
  }

  /** r differs from s only in the holders of one end, and in the mode of q. */
  lemma ShowsThen(s: F.State, r: F.State, q: F.PipeId, v: State, e: End, h: set<Pid>, mode: Mode)
    requires Shows(s, q, v) && r.procs == s.procs && r.table == s.table && q in r.pipes
    requires r.pipes[q].ring && r.pipes[q].mode == mode
    requires var p := s.pipes[q];
      && r.pipes[q].rofd == p.rofd && r.pipes[q].wofd == p.wofd
      && HoldersOf(r, p.rofd) == (if e.Rd? then h else v.r) && HoldersOf(r, p.wofd) == (if e.Wr? then h else v.w)
    ensures Shows(r, q, WithHolders(v, e, h).(mode := mode))
  {
  }

  /** A reference counted in the tables is Hold for the pipe it is an end of, and nothing for
      any other. */
  lemma RefIsHold(s: F.State, id: F.OfdId, t: F.Slot, q: F.PipeId, v: State)
    requires F.Balanced(s) && id in s.ofds && t !in s.held && Shows(s, q, v)
    ensures Shows(F.Ref(s, id, t), q,
      match s.ofds[id].kind
      case File => v
      case PipeEnd(pipe, read) => if pipe == q then Hold(v, if read then Rd else Wr, F.Owner(t)) else v)
  {
    EndsOf(s, q, id);
    hide F.Balanced, F.Ref;
    var p, r := s.pipes[q], F.Ref(s, id, t);
    if id == p.rofd || id == p.wofd {
      var e := if id == p.rofd then Rd else Wr;
      RefHere(s, id, t, q, v, e);
      ShowsThen(s, r, q, v, e, Holders(v, e) + {F.Owner(t)}, r.pipes[q].mode);
    } else {
      RefElsewhere(s, id, t, q);
    }
  }

  lemma RefElsewhere(s: F.State, id: F.OfdId, t: F.Slot, q: F.PipeId)
    requires id in s.ofds && q in s.pipes && id != s.pipes[q].rofd && id != s.pipes[q].wofd
    requires s.ofds[id].kind != F.PipeEnd(q, true) && s.ofds[id].kind != F.PipeEnd(q, false)
    ensures var r := F.Ref(s, id, t);
      && r.procs == s.procs && r.table == s.table && q in r.pipes && r.pipes[q] == s.pipes[q]
      && HoldersOf(r, s.pipes[q].rofd) == HoldersOf(s, s.pipes[q].rofd) && HoldersOf(r, s.pipes[q].wofd) == HoldersOf(s, s.pipes[q].wofd)
  {
    hide F.WithRef;
  }

  lemma RefHere(s: F.State, id: F.OfdId, t: F.Slot, q: F.PipeId, v: State, e: End)
    requires id in s.ofds && Shows(s, q, v) && s.ofds[id].kind == F.PipeEnd(q, e.Rd?)
    requires s.pipes[q].rofd != s.pipes[q].wofd && id == if e.Rd? then s.pipes[q].rofd else s.pipes[q].wofd
    ensures var r, p := F.Ref(s, id, t), s.pipes[q];
      && r.procs == s.procs && r.table == s.table && q in r.pipes && r.pipes[q] == p.(mode := Hold(v, e, F.Owner(t)).mode)
      && HoldersOf(r, id) == Holders(v, e) + {F.Owner(t)}
      && (e.Rd? ==> HoldersOf(r, p.wofd) == v.w) && (e.Wr? ==> HoldersOf(r, p.rofd) == v.r)
  {
    hide F.WithRef, F.Demote, Hold;
    OneHolderMore(s.ofds[id], F.Owner(t));
    var o := F.WithRef(s.ofds[id], F.Owner(t));
    DemotesAlike(s.pipes, o, q, v, e, F.Owner(t));
  }

  lemma OneHolderMore(o: F.Ofd, pid: Pid)
    requires o.kind.PipeEnd?
    ensures F.WithRef(o, pid).holders.Keys == o.holders.Keys + {pid}
    ensures |F.WithRef(o, pid).holders| == |o.holders.Keys + {pid}|
  {
    assert F.WithRef(o, pid).holders.Keys == o.holders.Keys + {pid};
    assert |F.WithRef(o, pid).holders| == |F.WithRef(o, pid).holders.Keys|;
  }

  /** _ofdRef and Hold demote alike. */
  lemma DemotesAlike(pipes: map<F.PipeId, F.Pipe>, o: F.Ofd, q: F.PipeId, v: State, e: End, pid: Pid)
    requires q in pipes && pipes[q].ring && pipes[q].mode == v.mode && o.kind.PipeEnd? && o.kind.pipe == q
    requires |o.holders| == |Holders(v, e) + {pid}|
    ensures F.Demote(pipes, o) == pipes[q := pipes[q].(mode := Hold(v, e, pid).mode)]
  {
  }

  /** A reference released is Drop for that pipe if it was its process's last for the end, and
      a look at whether to promote otherwise. */
  lemma UnrefIsDrop(s: F.State, t: F.Slot, q: F.PipeId, v: State)
    requires F.Balanced(s) && t in s.held && s.held[t] in s.ofds && Shows(s, q, v)
    ensures Shows(F.Unref(s, t), q,
      match s.ofds[s.held[t]].kind
      case File => v
      case PipeEnd(pipe, read) =>
        var e := if read then Rd else Wr;
        if pipe != q then v
        else if |F.SlotsOf(s.held, s.held[t], F.Owner(t))| == 1 then Drop(v, e, F.Owner(t))
        else Recheck(v, e))
  {
    var id := s.held[t];
    HoldersWithout(s, t);
    EndsOf(s, q, id);
    if s.ofds[id].kind != F.PipeEnd(q, true) && s.ofds[id].kind != F.PipeEnd(q, false) { UnrefElsewhere(s, t, q); }
    var p := s.pipes[q];
    hide F.Balanced, F.WithoutRef, Drop, Recheck, F.Unref;
    var e := if s.ofds[id].kind == F.PipeEnd(q, true) then Rd else Wr;
    if id == p.rofd || id == p.wofd {
      if s.ofds[id].refs == 1 { UnrefLast(s, t, q, v, e); } else { UnrefMore(s, t, q, v, e); }
    }
  }

  /** The last reference to an end: nobody holds it any more. */
  lemma UnrefLast(s: F.State, t: F.Slot, q: F.PipeId, v: State, e: End)
    requires F.Balanced(s) && t in s.held && s.held[t] in s.ofds && Shows(s, q, v)
    requires s.ofds[s.held[t]].kind == F.PipeEnd(q, e.Rd?) && s.ofds[s.held[t]].refs == 1
    ensures Shows(F.Unref(s, t), q, Drop(v, e, F.Owner(t)))
  {
    hide F.WithoutRef, F.SlotsOf;
    HoldersWithout(s, t);
    EndsOf(s, q, s.held[t]);
    hide F.Balanced;
    assert Holders(v, e) == {F.Owner(t)};
    EndGone(s, t, q);
    hide F.Unref;
    ShowsThen(s, F.Unref(s, t), q, v, e, {}, v.mode);
    assert Holders(v, e) - {F.Owner(t)} == {};
  }

  lemma EndGone(s: F.State, t: F.Slot, q: F.PipeId)
    requires t in s.held && s.held[t] in s.ofds && q in s.pipes && s.ofds[s.held[t]].refs == 1
    requires s.ofds[s.held[t]].kind.PipeEnd? && s.ofds[s.held[t]].kind.pipe == q && s.pipes[q].rofd != s.pipes[q].wofd
    ensures var r, p, id := F.Unref(s, t), s.pipes[q], s.held[t];
      && r.procs == s.procs && r.table == s.table && q in r.pipes
      && r.pipes[q].ring == p.ring && r.pipes[q].mode == p.mode && r.pipes[q].rofd == p.rofd && r.pipes[q].wofd == p.wofd
      && HoldersOf(r, id) == {} && (forall x :: x != id ==> HoldersOf(r, x) == HoldersOf(s, x))
  {
  }

  lemma UnrefMore(s: F.State, t: F.Slot, q: F.PipeId, v: State, e: End)
    requires F.Balanced(s) && t in s.held && s.held[t] in s.ofds && Shows(s, q, v)
    requires s.ofds[s.held[t]].kind == F.PipeEnd(q, e.Rd?) && s.ofds[s.held[t]].refs > 1
    ensures Shows(F.Unref(s, t), q,
      if |F.SlotsOf(s.held, s.held[t], F.Owner(t))| == 1 then Drop(v, e, F.Owner(t)) else Recheck(v, e))
  {
    hide F.WithoutRef, F.SlotsOf, Recheck, F.Unref;
    var id, p := s.held[t], F.Owner(t);
    HoldersWithout(s, t);
    EndsOf(s, q, id);
    hide F.Balanced;
    var left := F.WithoutRef(s.ofds[id], p);
    var h := if |F.SlotsOf(s.held, id, p)| == 1 then Holders(v, e) - {p} else Holders(v, e);
    ShowsThen(s, s.(ofds := s.ofds[id := left]), q, v, e, h, v.mode);
    PromotesAlike(s, t, q, WithHolders(v, e, h), e);
  }

  /** _pipeMaybePromote and Recheck ask the same. */
  lemma PromotesAlike(s: F.State, t: F.Slot, q: F.PipeId, v: State, e: End)
    requires F.Balanced(s) && t in s.held && s.held[t] in s.ofds
    requires s.ofds[s.held[t]].kind == F.PipeEnd(q, e.Rd?) && s.ofds[s.held[t]].refs > 1
    requires Shows(s.(ofds := s.ofds[s.held[t] := F.WithoutRef(s.ofds[s.held[t]], F.Owner(t))]), q, v)
    ensures Shows(F.Unref(s, t), q, Recheck(v, e))
  {
    hide F.WithoutRef, F.SlotsOf;
    var left := s.(ofds := s.ofds[s.held[t] := F.WithoutRef(s.ofds[s.held[t]], F.Owner(t))]);
    HoldersWithout(s, t);
    EndsOf(s, q, s.held[t]);
    hide F.Balanced;
    CardsOf(left, q);
    hide F.MayPromote, Recheck, F.Unref;
    AsksAlike(left, q, v, e);
    UnrefSplit(s, t, q);
    ShowsAs(left, F.Unref(s, t), q, v, Recheck(v, e).mode);
  }

  lemma ShowsAs(s: F.State, r: F.State, q: F.PipeId, v: State, mode: Mode)
    requires Shows(s, q, v) && r.ofds == s.ofds && r.procs == s.procs && r.table == s.table
    requires q in r.pipes && r.pipes[q] == s.pipes[q].(mode := mode)
    ensures Shows(r, q, v.(mode := mode))
  {
  }

  /** What losing one of several references does: the share goes, then the pipe may promote. */
  lemma UnrefSplit(s: F.State, t: F.Slot, q: F.PipeId)
    requires t in s.held && s.held[t] in s.ofds && s.ofds[s.held[t]].refs > 1 && s.ofds[s.held[t]].kind.PipeEnd?
    requires s.ofds[s.held[t]].kind.pipe == q && q in s.pipes
    ensures var left := s.(ofds := s.ofds[s.held[t] := F.WithoutRef(s.ofds[s.held[t]], F.Owner(t))]);
      F.Unref(s, t) == left.(held := s.held - {t},
        pipes := if F.MayPromote(left.ofds, s.pipes, s.table, s.procs, q) then s.pipes[q := s.pipes[q].(mode := F.Fast)] else s.pipes)
  {
    hide F.WithoutRef, F.MayPromote;
  }

  lemma AsksAlike(s: F.State, q: F.PipeId, v: State, e: End)
    requires Shows(s, q, v) && s.pipes[q].rofd != s.pipes[q].wofd && Holders(v, e) != {}
    requires var p := s.pipes[q]; (p.rOpen <==> p.rofd in s.ofds) && (p.wOpen <==> p.wofd in s.ofds)
    requires s.pipes[q].rofd in s.ofds ==> |s.ofds[s.pipes[q].rofd].holders| == |v.r|
    requires s.pipes[q].wofd in s.ofds ==> |s.ofds[s.pipes[q].wofd].holders| == |v.w|
    ensures F.MayPromote(s.ofds, s.pipes, s.table, s.procs, q) <==> Recheck(v, e) != v
    ensures Recheck(v, e) != v ==> Recheck(v, e) == v.(mode := F.Fast)
  {
  }

  lemma CardsOf(s: F.State, q: F.PipeId)
    requires q in s.pipes
    ensures s.pipes[q].rofd in s.ofds ==> |s.ofds[s.pipes[q].rofd].holders| == |HoldersOf(s, s.pipes[q].rofd)|
    ensures s.pipes[q].wofd in s.ofds ==> |s.ofds[s.pipes[q].wofd].holders| == |HoldersOf(s, s.pipes[q].wofd)|
  {
  }

  lemma UnrefElsewhere(s: F.State, t: F.Slot, q: F.PipeId)
    requires F.Balanced(s) && t in s.held && s.held[t] in s.ofds && q in s.pipes
    requires s.ofds[s.held[t]].kind != F.PipeEnd(q, true) && s.ofds[s.held[t]].kind != F.PipeEnd(q, false)
    ensures var r := F.Unref(s, t);
      && r.procs == s.procs && r.table == s.table && q in r.pipes && r.pipes[q] == s.pipes[q]
      && HoldersOf(r, s.pipes[q].rofd) == HoldersOf(s, s.pipes[q].rofd) && HoldersOf(r, s.pipes[q].wofd) == HoldersOf(s, s.pipes[q].wofd)
  {
    EndsOf(s, q, s.held[t]);
    hide F.Balanced, F.WithoutRef;
  }

  lemma HoldersWithout(s: F.State, t: F.Slot)
    requires F.Balanced(s) && t in s.held && s.held[t] in s.ofds
    ensures var o, p := s.ofds[s.held[t]], F.Owner(t);
      var left := F.WithoutRef(o, p);
      && o.refs > 0
      && left.kind == o.kind && |left.holders| == |left.holders.Keys| && |o.holders| == |o.holders.Keys|
      && (o.kind.PipeEnd? ==>
            && left.holders.Keys == (if |F.SlotsOf(s.held, s.held[t], p)| == 1 then o.holders.Keys - {p} else o.holders.Keys)
            && (o.refs == 1 ==> |F.SlotsOf(s.held, s.held[t], p)| == 1 && o.holders.Keys == {p})
            && (o.refs > 1 ==> left.holders.Keys != {}))
  {
    var id, p := s.held[t], F.Owner(t);
    var o := s.ofds[id];
    assert F.Counts(o, id, s.held);
    F.UnrefCountsOwn(o, s.held, id, t);
    F.Discounted(s.held, t);
    if o.kind.PipeEnd? { LastShare(o, id, s.held, t); }
  }

  lemma LastShare(o: F.Ofd, id: F.OfdId, held: map<F.Slot, F.OfdId>, t: F.Slot)
    requires F.Counts(o, id, held) && t in held && held[t] == id && o.kind.PipeEnd? && o.refs > 0
    requires F.Counts(F.WithoutRef(o, F.Owner(t)), id, held - {t})
    ensures o.refs == 1 ==> |F.SlotsOf(held, id, F.Owner(t))| == 1 && o.holders.Keys == {F.Owner(t)}
    ensures o.refs > 1 ==> F.WithoutRef(o, F.Owner(t)).holders.Keys != {}
  {
    var left, p := F.WithoutRef(o, F.Owner(t)), F.Owner(t);
    if o.refs > 1 {
      if left.holders == map[] { F.NoHolderNoRefs(left, id, held - {t}); }
    } else {
      F.LastNamed(o, held, t);
      assert F.SlotsOf(held, id, p) == {t};
      forall x | x in o.holders ensures x == p {
        var u :| u in F.SlotsOf(held, id, x);
      }
      assert o.holders.Keys == {p};
    }
  }
}
