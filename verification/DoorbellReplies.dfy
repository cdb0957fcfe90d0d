/** What the processes at a fast pipe are told, and when: why a fast read or write goes to
    sleep, why it is woken, and how a turn of the kernel leaves the flags. */
module DoorbellReplies {
  import opened Wrappers
  import opened Doorbell

  /** The bytes in the ring are s.tail - s.head; it holds s.cap. */
  ghost predicate Ready(s: State, e: End) {
    match e
    case Rd => s.tail > s.head || s.w.gone
    case Wr => s.tail - s.head < s.cap || s.r.gone
  }

  // ---- what the processes decide for themselves --------------------------------------------------

  /** A fast read takes bytes if there are any; otherwise it ends when the writer has gone and
      sleeps when not. */
  lemma ReadDecides(s: State, e: Step, s': State)
    requires After(s, e) == Some(s')
    ensures e == CDecide ==> if s.c.avail > 0 then s'.c.CCommit? else s'.c == CFlags(s.c.count, s.c.tail)
    ensures e == CReadFlags ==>
      if s.w.gone then s'.c == CIdle else s'.c == CAsleep(Wait, s.c.count) && s'.r.posted
  {
  }

  /** A fast write to a reader that has gone ends; otherwise it sleeps when there is no room, or
      not enough for a write that may not be split, and puts bytes in when there is. */
  lemma WriteDecides(s: State, e: Step, s': State)
    requires After(s, e) == Some(s')
    ensures e == PReadFlags ==>
      if s.r.gone then s'.p.PAsleep? && s'.p.op == Kick && s'.w.posted else s'.p == PLoad(s.p.count)
    ensures e == PDecide ==>
      if s.p.free == 0 || (s.p.count <= 512 && s.p.count > s.p.free)
      then s'.p == PAsleep(Wait, s.p.count) && s'.w.posted else s'.p.PCommit?
  {
  }

  /** After a commit the kernel is called exactly when the other end's flag is up. */
  lemma RingsExactly(s: State, e: Step, s': State)
    requires After(s, e) == Some(s')
    ensures e == PReadRwait ==> if s.r.flag then s'.p.PAsleep? && s'.p.op == Kick && s'.w.posted else s'.p == PIdle
    ensures e == CReadWwait ==> if s.w.flag then s'.c.CAsleep? && s'.c.op == Kick && s'.r.posted else s'.c == CIdle
  {
  }

  // ---- what the kernel decides ---------------------------------------------------------------------

  /** A wait or select is answered as ready exactly when it is. */
  lemma ScanSees(s: State, e: Step, s': State, x: End)
    requires Inv(s) && After(s, e) == Some(s')
    ensures s.k == KScan(x) && e == KGoOn ==> s'.k == KScanned(x, Ready(s, x))
    ensures e == KLook(x) ==>
      if Parked(s, x) == Some(Select) && Ready(s, x)
      then s'.k == KDrop(x, Retry, Some(s.k.todo - {x})) else s'.k == KSelects(s.k.todo - {x})
  {
    hide OnePlace, NoLostWake;
    match x { case Rd => case Wr => }
  }

  /** A read left to the kernel is answered at once when it asks for nothing or when nothing
      will come, moves bytes when there are any, and otherwise parks. */
  lemma StreamReadDecides(s: State, s': State, n: nat)
    requires s.k == KStream(Rd, n) && After(s, KGoOn) == Some(s')
    ensures n > 0 && s.tail > s.head <==> s'.k.KMove?
    ensures n > 0 && s.tail <= s.head && !s.w.gone <==> s'.k == KFlag(Rd, n, 0)
    ensures n == 0 || (s.tail <= s.head && s.w.gone) <==> s'.k == KReply(Rd, Eintr, None)
    ensures s'.k.KMove? ==> s'.k.e == Rd && s'.k.first
  {
  }

  /** A write left to the kernel is refused when the reader has gone, parks when it has to wait,
      and otherwise moves bytes. */
  lemma StreamWriteDecides(s: State, s': State, n: nat)
    requires Inv(s) && s.k == KStream(Wr, n) && After(s, KGoOn) == Some(s')
    ensures var free := s.cap - (s.tail - s.head);
      && (s'.k == KReply(Wr, Eintr, None) <==> s.r.gone)
      && (s'.k == KFlag(Wr, n, free) <==> !s.r.gone && (free == 0 || (n <= 512 && n > free)))
      && (s'.k.KMove? <==> !s.r.gone && free > 0 && (n > 512 || n <= free))
    ensures s'.k.KMove? ==> s'.k.e == Wr && s'.k.first
  {
    hide OnePlace, NoLostWake;
  }

  /** _pipeNotify serves a process parked in a read or write exactly when there is something
      for it to have. */
  lemma PassServes(s: State, s': State, x: End, progress: bool)
    requires Inv(s) && s.k == KPass(x, progress) && After(s, KGoOn) == Some(s')
    ensures s'.k.KServe? <==>
      && Parked(s, x).Some? && Parked(s, x).value.Brokered?
      && (match x
          case Rd => s.tail > s.head || s.w.gone
          case Wr => s.r.gone || (s.tail - s.head < s.cap && (Parked(s, Wr).value.n > 512 || s.tail - s.head + Parked(s, Wr).value.n <= s.cap)))
    ensures s'.k.KServe? ==> s'.k.e == x
  {
    hide OnePlace, NoLostWake;
    match x { case Rd => case Wr => }
  }

  /** After its second look the kernel serves the waiters if there is more than it saw, and
      rests if not; a kick makes it serve them in any case. */
  lemma RescanDecides(s: State, s': State, x: End)
    requires After(s, KGoOn) == Some(s')
    ensures s.k.KRescan? && s.k.e == x ==>
      s'.k == if s.k.seen < (match x case Rd => s.tail - s.head case Wr => s.cap - (s.tail - s.head)) then KPass(Rd, false) else KIdle
    ensures s.k == KKick(x) ==> s'.k == KPass(Rd, false)
  {
    match x { case Rd => case Wr => }
  }

  /** A close whose turn is over leaves its process gone. */
  lemma ClosedIsGone(s: State, e: Step, s': State)
    requires Inv(s) && After(s, e) == Some(s') && s.closing.Some? && s'.closing.None?
    ensures match s.closing.value case Rd => s'.c == CGone case Wr => s'.p == PGone
    ensures s'.k == KIdle
  {
    hide Inv, Move, Dispatch, ScanReady;
    if e.KGoOn? {
      hide ProducerStep, ConsumerStep;
      EndsTurn(s, s');
    }
  }

  lemma EndsTurn(s: State, s': State)
    requires After(s, KGoOn) == Some(s') && s.closing.Some? && s'.closing.None?
    ensures match s.closing.value case Rd => s'.c == CGone case Wr => s'.p == PGone
    ensures s'.k == KIdle
  {
    match s.k {
      case KSelects(_) => match s.closing.value { case Rd => case Wr => }
      case KStream(y, _) => match y { case Rd => case Wr => }
      case KFlag(y, _, _) => match y { case Rd => case Wr => }
      case KRaise(y) => match y { case Rd => case Wr => }
      case KScanned(y, _) => match y { case Rd => case Wr => }
      case KDrop(y, _, _) => match y { case Rd => case Wr => }
      case KReply(y, _, _) => match y { case Rd => case Wr => }
      case KKick(y) => match y { case Rd => case Wr => }
      case KServe(y, _, _) => match y { case Rd => case Wr => }
      case KMove(y, _, _, _) => match y { case Rd => case Wr => }
      case KServed(y, _) => match y { case Rd => case Wr => }
      case KClose(y) => match y { case Rd => case Wr => }
      case _ =>
    }
  }

  // ---- the flags -----------------------------------------------------------------------------------

  /** The kernel has raised e's flag and not parked it, or is about to unpark it. */
  ghost predicate Raised(k: Kernel, e: End) {
    (k.KScan? || k.KScanned? || k.KDrop?) && k.e == e
  }

  /** A flag is up for a parked process or in a turn that is about to park one or drop it. What
      the kernel moves is for a stream request, and a close that is being served has set its bit. */
  ghost predicate FlagRight(s: State, e: End) {
    && (Flag(s, e) <==> Parked(s, e).Some? || Raised(s.k, e))
    && ((s.k.KMove? || s.k.KServed?) && s.k.e == e ==> InOp(s, e, Stream))
    && (s.k == KClose(e) ==> InOp(s, e, Close))
    && (WorksOn(s.k, e) && InOp(s, e, Close) ==> s.k == KClose(e))
    && (s.closing == Some(e) ==> SideOf(s, e).gone && InOp(s, e, Close))
  }

  lemma StepKeepsFlag(s: State, e: Step, s': State, x: End)
    requires Inv(s) && FlagRight(s, x) && After(s, e) == Some(s')
    ensures FlagRight(s', x)
  {
    hide Inv, FlagRight, OnePlace, ProducerStep, ConsumerStep, KernelTakes, ServeGoesOn, StreamGoesOn, KernelLooks;
    PlaceOf(s, x);
    if e.KTakeUp? {
      TakeUpKeepsFlag(s, e.e, s', x);
    } else if e.KInterrupt? {
      TurnsKeepFlag(s, s', x);
    } else if e.KLook? {
      LookKeepsFlag(s, e.e, s', x);
    } else if e.KGoOn? && StreamGoesOn(s).Some? {
      StreamKeepsFlag(s, s', x);
    } else if e.KGoOn? && ServeGoesOn(s).Some? {
      ServeKeepsFlag(s, s', x);
    } else if e.KGoOn? && s.k.KPass? {
      PassKeepsFlag(s, s', x);
    } else if e.KGoOn? {
      NotifyKeepsFlag(s, s', x);
    } else if ProducerStep(s, e).Some? {
      ProducerKeepsFlag(s, e, s', x);
    } else {
      ConsumerKeepsFlag(s, e, s', x);
    }
  }

  /** The kernel turns to dropping a parked process, or to the next. */
  lemma TurnsKeepFlag(s: State, s': State, x: End)
    requires OnePlace(s, x) && FlagRight(s, x) && s' == s.(k := s'.k) && (s.k.KIdle? || s.k.KSelects?)
    requires s'.k.KSelects? || (s'.k.KDrop? && Parked(s, s'.k.e).Some?)
    ensures FlagRight(s', x)
  {
  }

  lemma LookKeepsFlag(s: State, e: End, s': State, x: End)
    requires OnePlace(s, x) && FlagRight(s, x) && KernelLooks(s, e) == Some(s')
    ensures FlagRight(s', x)
  {
    hide OnePlace, FlagRight, ScanReady;
    TurnsKeepFlag(s, s', x);
  }

  lemma ProducerKeepsFlag(s: State, e: Step, s': State, x: End)
    requires OnePlace(s, x) && FlagRight(s, x) && ProducerStep(s, e) == Some(s')
    ensures FlagRight(s', x)
  {
  }

  lemma ConsumerKeepsFlag(s: State, e: Step, s': State, x: End)
    requires OnePlace(s, x) && FlagRight(s, x) && ConsumerStep(s, e) == Some(s')
    ensures FlagRight(s', x)
  {
  }

  lemma PlaceOf(s: State, x: End)
    requires Inv(s)
    ensures OnePlace(s, x)
  {
  }

  lemma TakeUpKeepsFlag(s: State, e: End, s': State, x: End)
    requires FlagRight(s, x) && KernelTakes(s, e) == Some(s')
    ensures FlagRight(s', x)
  {
    match e { case Rd => case Wr => }
  }

  lemma PassKeepsFlag(s: State, s': State, x: End)
    requires OnePlace(s, x) && FlagRight(s, x) && s.k.KPass? && s' == s.(k := AfterPass(s, s.k.e, s.k.progress))
    ensures FlagRight(s', x)
  {
    match s.k.e { case Rd => case Wr => }
  }

  lemma StreamKeepsFlag(s: State, s': State, x: End)
    requires OnePlace(s, x) && FlagRight(s, x) && StreamGoesOn(s) == Some(s')
    ensures FlagRight(s', x)
  {
    match s.k.e { case Rd => case Wr => }
  }

  lemma ServeKeepsFlag(s: State, s': State, x: End)
    requires OnePlace(s, x) && FlagRight(s, x) && ServeGoesOn(s) == Some(s')
    ensures FlagRight(s', x)
  {
    hide ScanReady;
    match s.k.e { case Rd => case Wr => }
  }

  lemma NotifyKeepsFlag(s: State, s': State, x: End)
    requires OnePlace(s, x) && FlagRight(s, x) && !s.k.KPass? && NotifyGoesOn(s) == Some(s')
    ensures FlagRight(s', x)
  {
    match s.k {
      case KSelects(_) => if s.closing.Some? { match s.closing.value { case Rd => case Wr => } }
      case KServe(_, _, _) =>
      case KMove(y, _, _, _) => match y { case Rd => case Wr => }
      case KServed(y, _) => match y { case Rd => case Wr => }
    }
  }

  lemma {:induction false} RunKeepsFlag(s: State, run: seq<Step>, t: State, x: End)
    requires Initial(s) && Reaches(s, run, t)
    ensures FlagRight(t, x)
  {
    if run != [] {
      hide Initial, After, Inv, FlagRight;
      var m := Along(s, run[..|run| - 1]).value;
      RunKeepsFlag(s, run[..|run| - 1], m, x);
      ReachableInv(s, run[..|run| - 1], m);
      StepKeepsFlag(m, run[|run| - 1], t, x);
    }
  }

  /** Between turns of the kernel a flag is up exactly when its process is parked: so nobody
      rings for a process that does not sleep, and a doorbell is rung once per sleep. */
  lemma FlagsAreSleepers(s: State, run: seq<Step>, t: State, x: End)
    requires Initial(s) && Reaches(s, run, t) && t.k == KIdle
    ensures if x.Rd? then t.r.flag <==> t.r.park.Some? else t.w.flag <==> t.w.park.Some?
  {
    RunKeepsFlag(s, run, t, x);
  }

  // ---- why a process is woken ----------------------------------------------------------------------

  /** The kernel has not been idle since the k-th step of run. */
  ghost predicate BusySince(s: State, run: seq<Step>, k: nat) {
    forall j: nat :: k <= j <= |run| ==> Along(s, run[..j]).Some? && Along(s, run[..j]).value.k != KIdle
  }

  /** In this turn the kernel has looked at x, and x was ready. */
  ghost predicate LookedThisTurn(s: State, run: seq<Step>, x: End) {
    exists k: nat :: k < |run| && BusySince(s, run, k)
      && (run[k] == KLook(x) || Along(s, run[..k]).value.k == KScan(x)) && Ready(Along(s, run[..k]).value, x)
  }

  /** This turn is a cancellation of x's wait. */
  ghost predicate CancelledThisTurn(s: State, run: seq<Step>, x: End) {
    exists k: nat :: k < |run| && BusySince(s, run, k + 1) && run[k] == KInterrupt(x)
  }

  lemma BusyOn(s: State, run: seq<Step>, k: nat, e: Step, t: State)
    requires k <= |run| && BusySince(s, run, k) && Reaches(s, run + [e], t) && t.k != KIdle
    ensures BusySince(s, run + [e], k)
  {
    hide After;
    forall j: nat | k <= j <= |run + [e]| ensures Along(s, (run + [e])[..j]).Some? && Along(s, (run + [e])[..j]).value.k != KIdle {
      if j <= |run| {
        assert (run + [e])[..j] == run[..j];
      } else {
        assert (run + [e])[..j] == run + [e];
      }
    }
  }

  lemma LookedOn(s: State, run: seq<Step>, x: End, e: Step, t: State)
    requires LookedThisTurn(s, run, x) && Reaches(s, run + [e], t) && t.k != KIdle
    ensures LookedThisTurn(s, run + [e], x)
  {
    hide After, Along, Ready;
    var k: nat :| k < |run| && BusySince(s, run, k)
      && (run[k] == KLook(x) || Along(s, run[..k]).value.k == KScan(x)) && Ready(Along(s, run[..k]).value, x);
    BusyOn(s, run, k, e, t);
    assert (run + [e])[..k] == run[..k] && (run + [e])[k] == run[k];
  }

  lemma CancelledOn(s: State, run: seq<Step>, x: End, e: Step, t: State)
    requires CancelledThisTurn(s, run, x) && Reaches(s, run + [e], t) && t.k != KIdle
    ensures CancelledThisTurn(s, run + [e], x)
  {
    hide After, Along;
    var k: nat :| k < |run| && BusySince(s, run, k + 1) && run[k] == KInterrupt(x);
    BusyOn(s, run, k + 1, e, t);
    assert (run + [e])[k] == run[k];
  }

  /** The kernel is about to tell x to try again, or that it was interrupted. */
  ghost predicate Tells(k: Kernel, x: End, how: Resume) {
    (how == Retry && k == KScanned(x, true)) || ((k.KDrop? || k.KReply?) && k.e == x && k.how == how)
  }

  /** Where the kernel begins to tell something, it has a reason; and it never takes back what
      it is about to tell. */
  lemma StartsToTell(s: State, e: Step, s': State, x: End)
    requires Inv(s) && After(s, e) == Some(s') && (Tells(s'.k, x, Retry) || (Tells(s'.k, x, Eintr) && !InOp(s', x, Stream)))
    ensures s'.k != KIdle
    ensures Tells(s'.k, x, Retry) ==>
      Tells(s.k, x, Retry) || (s.k != KIdle && (e == KLook(x) || s.k == KScan(x)) && Ready(s, x))
    ensures Tells(s'.k, x, Eintr) ==>
      (Tells(s.k, x, Eintr) && !InOp(s, x, Stream)) || e == KInterrupt(x)
  {
    PlaceOf(s, x);
    BoundsOf(s);
    hide Inv, NoLostWake;
    if e.KTakeUp? || e.KInterrupt? || e.KLook? {
      if e.KTakeUp? { match e.e { case Rd => case Wr => } }
    } else if e.KGoOn? {
      hide ProducerStep, ConsumerStep;
      GoOnTells(s, s', x);
    } else if ProducerStep(s, e).Some? {
      hide ConsumerStep;
    } else {
      hide ProducerStep;
    }
  }

  lemma BoundsOf(s: State)
    requires Inv(s)
    ensures Bounds(s)
  {
  }

  lemma GoOnTells(s: State, s': State, x: End)
    requires OnePlace(s, x) && Bounds(s) && After(s, KGoOn) == Some(s')
    requires Tells(s'.k, x, Retry) || (Tells(s'.k, x, Eintr) && !InOp(s', x, Stream))
    ensures s.k != KIdle
    ensures Tells(s'.k, x, Retry) ==> Tells(s.k, x, Retry) || (s.k == KScan(x) && Ready(s, x))
    ensures Tells(s'.k, x, Eintr) ==> Tells(s.k, x, Eintr) && !InOp(s, x, Stream)
  {
    hide Move;
    match s.k {
      case KStream(y, _) => match y { case Rd => case Wr => }
      case KScan(y) => match y { case Rd => case Wr => }
      case KScanned(y, _) => match y { case Rd => case Wr => }
      case KDrop(y, _, _) => match y { case Rd => case Wr => }
      case _ =>
    }
  }

  lemma LookedNow(s: State, run: seq<Step>, m: State, t: State, x: End)
    requires run != [] && Along(s, run[..|run| - 1]) == Some(m) && Reaches(s, run, t) && m.k != KIdle && t.k != KIdle
    requires (run[|run| - 1] == KLook(x) || m.k == KScan(x)) && Ready(m, x)
    ensures LookedThisTurn(s, run, x)
  {
    hide After, Ready;
    var k: nat := |run| - 1;
    assert run[..|run|] == run;
    assert BusySince(s, run, k);
  }

  lemma CancelledNow(s: State, run: seq<Step>, t: State, x: End)
    requires run != [] && run[|run| - 1] == KInterrupt(x) && Reaches(s, run, t) && t.k != KIdle
    ensures CancelledThisTurn(s, run, x)
  {
    hide After;
    var k: nat := |run| - 1;
    assert run[..|run|] == run;
    assert BusySince(s, run, k + 1);
  }

  lemma {:induction false} ToldWithReason(s: State, run: seq<Step>, t: State, x: End)
    requires Initial(s) && Reaches(s, run, t)
    ensures Tells(t.k, x, Retry) ==> LookedThisTurn(s, run, x)
    ensures Tells(t.k, x, Eintr) && !InOp(t, x, Stream) ==> CancelledThisTurn(s, run, x)
  {
    if run != [] && (Tells(t.k, x, Retry) || (Tells(t.k, x, Eintr) && !InOp(t, x, Stream))) {
      hide Initial, After, Inv, LookedThisTurn, CancelledThisTurn, Ready, InOp;
      var k := |run| - 1;
      var m := Along(s, run[..k]).value;
      assert run[..k] + [run[k]] == run;
      ToldWithReason(s, run[..k], m, x);
      ReachableInv(s, run[..k], m);
      StartsToTell(m, run[k], t, x);
      hide Tells;
      if LookedThisTurn(s, run[..k], x) { LookedOn(s, run[..k], x, run[k], t); }
      if CancelledThisTurn(s, run[..k], x) { CancelledOn(s, run[..k], x, run[k], t); }
      if m.k != KIdle && (run[k] == KLook(x) || m.k == KScan(x)) && Ready(m, x) { LookedNow(s, run, m, t, x); }
      if run[k] == KInterrupt(x) { CancelledNow(s, run, t, x); }
    }
  }

  /** How a process leaves its request: from a close it has gone, from a wait of a fast read or
      write it goes back to looking at the ring or ends, and from anything else it ends. */
  lemma Leaves(s: State, e: Step, s': State)
    requires Inv(s) && FlagRight(s, Rd) && FlagRight(s, Wr) && After(s, e) == Some(s')
    ensures s.c.CAsleep? && s'.c != s.c ==> match s.c.op
      case Close => s'.c == CGone && s'.r.gone
      case Wait => (s'.c == CLoad(s.c.count) && Tells(s.k, Rd, Retry)) || (s'.c == CIdle && Tells(s.k, Rd, Eintr))
      case _ => s'.c == CIdle
    ensures s.p.PAsleep? && s'.p != s.p ==> match s.p.op
      case Close => s'.p == PGone && s'.w.gone
      case Wait => (s'.p == PFlags(s.p.count) && Tells(s.k, Wr, Retry)) || (s'.p == PIdle && Tells(s.k, Wr, Eintr))
      case _ => s'.p == PIdle
  {
    PlaceOf(s, Rd);
    PlaceOf(s, Wr);
    hide Inv, Bounds, NoLostWake, ScanReady, Move, Dispatch;
    if e.KTakeUp? || e.KInterrupt? || e.KLook? {
      if e.KTakeUp? { match e.e { case Rd => case Wr => } }
    } else if e.KGoOn? {
      hide ProducerStep, ConsumerStep;
      GoOnLeaves(s, s');
    } else if ProducerStep(s, e).Some? {
      hide ConsumerStep;
    } else {
      hide ProducerStep;
    }
  }

  lemma GoOnLeaves(s: State, s': State)
    requires OnePlace(s, Rd) && OnePlace(s, Wr) && FlagRight(s, Rd) && FlagRight(s, Wr) && After(s, KGoOn) == Some(s')
    ensures s.c.CAsleep? && s'.c != s.c ==> match s.c.op
      case Close => s'.c == CGone && s'.r.gone
      case Wait => (s'.c == CLoad(s.c.count) && Tells(s.k, Rd, Retry)) || (s'.c == CIdle && Tells(s.k, Rd, Eintr))
      case _ => s'.c == CIdle
    ensures s.p.PAsleep? && s'.p != s.p ==> match s.p.op
      case Close => s'.p == PGone && s'.w.gone
      case Wait => (s'.p == PFlags(s.p.count) && Tells(s.k, Wr, Retry)) || (s'.p == PIdle && Tells(s.k, Wr, Eintr))
      case _ => s'.p == PIdle
  {
    hide ScanReady, Move, Dispatch;
    match s.k {
      case KSelects(_) => if s.closing.Some? { match s.closing.value { case Rd => case Wr => } }
      case KIdle =>
      case _ => match s.k.e { case Rd => case Wr => }
    }
  }

  /** A fast read or write that sleeps looks at the ring again only when the kernel has found
      the ring ready in this turn, and ends without having done so only when it is cancelled. */
  lemma SleeperGoesOn(s: State, run: seq<Step>, t: State, e: Step, t': State)
    requires Initial(s) && Reaches(s, run, t) && After(t, e) == Some(t')
    ensures t.c.CAsleep? && t.c.op == Wait && t'.c != t.c ==>
      (t'.c == CLoad(t.c.count) && LookedThisTurn(s, run, Rd)) || (t'.c == CIdle && CancelledThisTurn(s, run, Rd))
    ensures t.p.PAsleep? && t.p.op == Wait && t'.p != t.p ==>
      (t'.p == PFlags(t.p.count) && LookedThisTurn(s, run, Wr)) || (t'.p == PIdle && CancelledThisTurn(s, run, Wr))
  {
    hide Initial, After, Inv, LookedThisTurn, CancelledThisTurn, Tells, FlagRight;
    ReachableInv(s, run, t);
    RunKeepsFlag(s, run, t, Rd);
    RunKeepsFlag(s, run, t, Wr);
    Leaves(t, e, t');
    ToldWithReason(s, run, t, Rd);
    ToldWithReason(s, run, t, Wr);
  }

  /** A close is answered only once its bit is set and the process is then gone; any other
      request leaves the process free to make the next. */
  lemma OthersEnd(s: State, run: seq<Step>, t: State, e: Step, t': State)
    requires Initial(s) && Reaches(s, run, t) && After(t, e) == Some(t')
    ensures t.c.CAsleep? && t.c.op != Wait && t'.c != t.c ==> if t.c.op == Close then t'.c == CGone && t'.r.gone else t'.c == CIdle
    ensures t.p.PAsleep? && t.p.op != Wait && t'.p != t.p ==> if t.p.op == Close then t'.p == PGone && t'.w.gone else t'.p == PIdle
  {
    hide Initial, After, Inv, Tells, FlagRight;
    ReachableInv(s, run, t);
    RunKeepsFlag(s, run, t, Rd);
    RunKeepsFlag(s, run, t, Wr);
    Leaves(t, e, t');
  }
}
