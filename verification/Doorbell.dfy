/** The suppressed doorbell of a fast pipe. The producer and the consumer move
    bytes themselves and ask the kernel only to sleep, to wake a sleeping peer
    and to close. Whoever goes to sleep raises a flag and then looks again; whoever
    commits looks for the flag afterwards. All three run interleaved, one load or
    store at a time. Indices are counted without wrap-around (see PipeRing). */
module Doorbell {
  import opened Wrappers

  const PIPE_ATOMIC := 512

  /** The two ends of the pipe, named for the process that uses them. */
  datatype End = Rd | Wr

  /** What a parked process waits for: select readiness, or a read or write of n
      bytes that the kernel is to do. A write may be parked when the pipe becomes fast
      although its bytes fit, since an interruption serves nobody (see Streams); fits is the
      head index at that time if they did. */
  datatype Need = Select | Brokered(n: nat, fits: Option<nat>)

  /** Wait is FS_WAIT from within a read or write, Poll a wait or select of the program's own,
      Stream a read or write left to the kernel by a process that saw the mode before it
      became fast. */
  datatype Op = Wait | Poll | Kick | Close | Stream

  /** RemoteFS.write between its loads and stores. */
  datatype Producer =
    | PIdle
    | PFlags(count: nat)             // about to load PR_FLAGS
    | PLoad(count: nat)              // about to load the indices
    | PSpace(count: nat, free: nat)
    | PCommit(n: nat, count: nat, free: nat)   // copied n; about to store PR_TAIL
    | PCheck                         // about to load PR_RWAIT
    | PAsleep(op: Op, count: nat)    // inside an RPC
    | PGone

  /** RemoteFS.read between its loads and stores. */
  datatype Consumer =
    | CIdle
    | CLoad(count: nat)
    | CAvail(count: nat, avail: nat, tail: nat)
    | CFlags(count: nat, tail: nat)  // nothing available; about to load PR_FLAGS
    | CCommit(n: nat, count: nat, avail: nat)  // copied n; about to store PR_HEAD
    | CCheck                         // about to load PR_WWAIT
    | CAsleep(op: Op, count: nat)
    | CGone

  /** How a woken process goes on. */
  datatype Resume = Retry | Eintr

  /** Where the kernel stands in a turn. */
  datatype Kernel =
    | KIdle
    | KStream(e: End, n: nat)                    // _streamRead or _streamWrite: about to look at the indices
    | KFlag(e: End, n: nat, seen: nat)           // saw too few bytes, or too little space; about to raise the flag
    | KRescan(e: End, seen: nat)                 // parked; about to look again
    | KRaise(e: End)                             // FS_WAIT or FS_SELECT: about to raise the flag
    | KScan(e: End)                              // about to look at the indices
    | KScanned(e: End, ready: bool)
    | KDrop(e: End, how: Resume, rest: Option<set<End>>)   // _cancelWaiter; rest is what remains of a select pass
    | KReply(e: End, how: Resume, rest: Option<set<End>>)
    | KKick(e: End)
    | KClose(e: End)
    | KPass(e: End, progress: bool)              // _pipeNotify's pass over the waiters of e
    | KServe(e: End, m: nat, seen: nat)          // about to drop the waiter and its flag
    | KMove(e: End, m: nat, seen: nat, first: bool)   // about to move m bytes; first before any pass
    | KServed(e: End, first: bool)
    | KSelects(todo: set<End>)                   // _recheckSelects

  /** What the kernel and the ring's words hold for one end: PR_RWAIT or PR_WWAIT, its bit
      of PR_FLAGS, whether its process has posted an RPC not yet taken up, and pcb.waiter. */
  datatype Side = Side(flag: bool, gone: bool, posted: bool, park: Option<Need>)

  datatype State = State(
    cap: nat, head: nat, tail: nat, r: Side, w: Side,
    p: Producer, c: Consumer, k: Kernel,
    closing: Option<End>)              // whose close this turn serves

  function Avail(s: State): int { s.tail - s.head }
  function Free(s: State): int { s.cap - Avail(s) }
  function Min(a: nat, b: nat): nat { if a < b then a else b }

  /** _selectScan on one end. */
  predicate ScanReady(s: State, e: End) {
    match e
    case Rd => Avail(s) > 0 || s.w.gone
    case Wr => !(Free(s) == 0 && !s.r.gone)
  }

  /** A parked write of n bytes can land. */
  predicate Lands(s: State, n: nat) {
    !(Free(s) <= 0 || (n <= PIPE_ATOMIC && n > Free(s)))
  }

  // ---- steps --------------------------------------------------------------------------

  datatype Step =
    | PWrite(count: nat) | PReadFlags | PReadIndices | PDecide | PStoreTail | PReadRwait
    | PPolls | PBrokered(count: nat) | PCloses
    | CRead(count: nat) | CReadIndices | CDecide | CReadFlags | CStoreHead | CReadWwait
    | CPolls | CBrokered(count: nat) | CCloses
    | KTakeUp(e: End) | KInterrupt(e: End) | KGoOn | KLook(e: End)

  function Call(s: State, e: End, op: Op, count: nat): State {
    match e
    case Rd => s.(c := CAsleep(op, count), r := s.r.(posted := true))
    case Wr => s.(p := PAsleep(op, count), w := s.w.(posted := true))
  }

  function ProducerStep(s: State, e: Step): Option<State> {
    match e
    case PWrite(count) => if s.p.PIdle? then Some(s.(p := PFlags(count))) else None
    case PReadFlags =>
      if !s.p.PFlags? then None
      else if s.r.gone then Some(Call(s, Wr, Kick, 0))  // EPIPE
      else Some(s.(p := PLoad(s.p.count)))
    case PReadIndices => if s.p.PLoad? && Free(s) >= 0 then Some(s.(p := PSpace(s.p.count, Free(s)))) else None
    case PDecide =>
      if !s.p.PSpace? then None
      else if s.p.free == 0 || (s.p.count <= PIPE_ATOMIC && s.p.count > s.p.free) then Some(Call(s, Wr, Wait, s.p.count))
      else Some(s.(p := PCommit(Min(s.p.free, s.p.count), s.p.count, s.p.free)))
    case PStoreTail => if s.p.PCommit? then Some(s.(tail := s.tail + s.p.n, p := PCheck)) else None
    case PReadRwait => if s.p.PCheck? then Some(if s.r.flag then Call(s, Wr, Kick, 0) else s.(p := PIdle)) else None
    case PPolls => if s.p.PIdle? then Some(Call(s, Wr, Poll, 0)) else None
    case PBrokered(count) => if s.p.PIdle? then Some(Call(s, Wr, Stream, count)) else None
    case PCloses => if s.p.PIdle? then Some(Call(s, Wr, Close, 0)) else None
    case _ => None
  }

  function ConsumerStep(s: State, e: Step): Option<State> {
    match e
    case CRead(count) => if s.c.CIdle? then Some(s.(c := CLoad(count))) else None
    case CReadIndices => if s.c.CLoad? && Avail(s) >= 0 then Some(s.(c := CAvail(s.c.count, Avail(s), s.tail))) else None
    case CDecide =>
      if !s.c.CAvail? then None
      else if s.c.avail > 0 then Some(s.(c := CCommit(Min(s.c.count, s.c.avail), s.c.count, s.c.avail)))
      else Some(s.(c := CFlags(s.c.count, s.c.tail)))
    case CReadFlags =>
      if !s.c.CFlags? then None
      else if s.w.gone then Some(s.(c := CIdle))  // end of file
      else Some(Call(s, Rd, Wait, s.c.count))
    case CStoreHead => if s.c.CCommit? then Some(s.(head := s.head + s.c.n, c := CCheck)) else None
    case CReadWwait => if s.c.CCheck? then Some(if s.w.flag then Call(s, Rd, Kick, 0) else s.(c := CIdle)) else None
    case CPolls => if s.c.CIdle? then Some(Call(s, Rd, Poll, 0)) else None
    case CBrokered(count) => if s.c.CIdle? then Some(Call(s, Rd, Stream, count)) else None
    case CCloses => if s.c.CIdle? then Some(Call(s, Rd, Close, 0)) else None
    case _ => None
  }

  function SideOf(s: State, e: End): Side {
    match e case Rd => s.r case Wr => s.w
  }

  function WithSide(s: State, e: End, side: Side): State {
    match e case Rd => s.(r := side) case Wr => s.(w := side)
  }

  function SetFlag(s: State, e: End, up: bool): State { WithSide(s, e, SideOf(s, e).(flag := up)) }
  function Park(s: State, e: End, need: Option<Need>): State { WithSide(s, e, SideOf(s, e).(park := need)) }
  function Unpark(s: State, e: End): State { WithSide(s, e, SideOf(s, e).(flag := false, park := None)) }
  function Gone(s: State, e: End): State { WithSide(s, e, SideOf(s, e).(gone := true)) }

  function Parked(s: State, e: End): Option<Need> { SideOf(s, e).park }
  function Flag(s: State, e: End): bool { SideOf(s, e).flag }
  function Posted(s: State, e: End): bool { SideOf(s, e).posted }

  /** _respond: the process leaves its RPC. */
  function Answer(s: State, e: End, how: Resume): State {
    match e
    case Rd => s.(c := if how == Retry && s.c.CAsleep? && s.c.op == Wait then CLoad(s.c.count) else CIdle)
    case Wr => s.(p := if how == Retry && s.p.PAsleep? && s.p.op == Wait then PFlags(s.p.count) else PIdle)
  }

  /** The end of a notify: a close is answered now. */
  function Finish(s: State): State {
    match s.closing
    case None => s.(k := KIdle)
    case Some(Rd) => s.(k := KIdle, closing := None, c := CGone)
    case Some(Wr) => s.(k := KIdle, closing := None, p := PGone)
  }

  function KernelTakes(s: State, e: End): Option<State> {
    if !s.k.KIdle? then None else
    match e
    case Rd =>
      if !(s.r.posted && s.c.CAsleep?) then None else
      var t := s.(r := s.r.(posted := false));
      (match s.c.op
       case Wait => Some(t.(k := KRaise(Rd)))
       case Poll => Some(t.(k := KRaise(Rd)))
       case Kick => Some(t.(k := KKick(Rd)))
       case Close => Some(t.(k := KClose(Rd)))
       case Stream => Some(t.(k := KStream(Rd, s.c.count))))
    case Wr =>
      if !(s.w.posted && s.p.PAsleep?) then None else
      var t := s.(w := s.w.(posted := false));
      (match s.p.op
       case Wait => Some(t.(k := KRaise(Wr)))
       case Poll => Some(t.(k := KRaise(Wr)))
       case Kick => Some(t.(k := KKick(Wr)))
       case Close => Some(t.(k := KClose(Wr)))
       case Stream => Some(t.(k := KStream(Wr, s.p.count))))
  }

  /** The next step of a wait, a cancelled wait, a kick or a close. */
  function ServeGoesOn(s: State): Option<State> {
    match s.k
    case KRaise(e) => Some(SetFlag(s.(k := KScan(e)), e, true))
    case KScan(e) => Some(s.(k := KScanned(e, ScanReady(s, e))))
    case KScanned(e, ready) => Some(if ready then s.(k := KDrop(e, Retry, None)) else Park(s.(k := KIdle), e, Some(Select)))
    case KDrop(e, how, rest) => Some(Unpark(s.(k := KReply(e, how, rest)), e))
    case KReply(e, how, rest) => Some(Answer(s.(k := if rest.Some? then KSelects(rest.value) else KIdle), e, how))
    case KKick(e) => Some(Answer(s.(k := KPass(Rd, false)), e, Eintr))
    case KClose(e) => Some(Gone(s.(k := KPass(Rd, false), closing := Some(e)), e))
    case _ => None
  }

  /** The bytes a reader at e has, or the space a writer has. */
  function Seen(s: State, e: End): int { if e.Rd? then Avail(s) else Free(s) }

  /** Where a read or write left to the kernel goes from its look at the indices. */
  function Dispatch(s: State, e: End, n: nat): Kernel {
    match e
    case Rd =>
      if n == 0 then KReply(Rd, Eintr, None)
      else if Avail(s) > 0 then KMove(Rd, Min(n, Avail(s)), Avail(s), true)
      else if s.w.gone then KReply(Rd, Eintr, None)  // end of file
      else KFlag(Rd, n, 0)
    case Wr =>
      if s.r.gone || Free(s) < 0 then KReply(Wr, Eintr, None)  // EPIPE
      else if Free(s) == 0 || (n <= PIPE_ATOMIC && n > Free(s)) then KFlag(Wr, n, Free(s))
      else KMove(Wr, Min(Free(s), n), Free(s), true)
  }

  /** The next step of _streamRead or _streamWrite. */
  function StreamGoesOn(s: State): Option<State> {
    match s.k
    case KStream(e, n) => Some(s.(k := Dispatch(s, e, n)))
    case KFlag(e, n, seen) => Some(Park(SetFlag(s.(k := KRescan(e, seen)), e, true), e, Some(Brokered(n, None))))
    case KRescan(e, seen) => Some(s.(k := if Seen(s, e) > seen then KPass(Rd, false) else KIdle))
    case _ => None
  }

  /** What _pipeNotify moves for the waiter of e: None if it must stay parked. */
  function Move(s: State, e: End): Option<nat> {
    if !(Parked(s, e).Some? && Parked(s, e).value.Brokered?) then None else
    var n := Parked(s, e).value.n;
    match e
    case Rd => if Avail(s) > 0 then Some(Min(n, Avail(s))) else if s.w.gone then Some(0) else None
    case Wr => if s.r.gone then Some(0) else if Lands(s, n) then Some(Min(Free(s), n)) else None
  }

  function MoveBytes(s: State, e: End, m: nat): State {
    match e case Rd => s.(head := s.head + m) case Wr => s.(tail := s.tail + m)
  }

  function AfterPass(s: State, e: End, progress: bool): Kernel {
    if Move(s, e).Some? then KServe(e, Move(s, e).value, if Seen(s, e) >= 0 then Seen(s, e) else 0)
    else if e.Rd? then KPass(Wr, progress)
    else if progress then KPass(Rd, false)
    else KSelects({Rd, Wr})
  }

  /** The next step of _pipeNotify. */
  function NotifyGoesOn(s: State): Option<State> {
    match s.k
    case KPass(e, progress) => Some(s.(k := AfterPass(s, e, progress)))
    case KServe(e, m, seen) => Some(Unpark(s.(k := KMove(e, m, seen, false)), e))
    case KMove(e, m, _, first) => Some(MoveBytes(s.(k := KServed(e, first)), e, m))
    case KServed(e, first) => Some(Answer(s.(k := if first then KPass(Rd, false) else KPass(e, true)), e, Eintr))
    case KSelects(todo) => if todo == {} then Some(Finish(s)) else None
    case _ => None
  }

  /** _recheckSelects looks at one process; the order of processes is not fixed. */
  function KernelLooks(s: State, e: End): Option<State> {
    if !(s.k.KSelects? && e in s.k.todo) then None
    else if Parked(s, e) == Some(Select) && ScanReady(s, e) then Some(s.(k := KDrop(e, Retry, Some(s.k.todo - {e}))))
    else Some(s.(k := KSelects(s.k.todo - {e})))
  }

  function After(s: State, e: Step): Option<State> {
    if e.KTakeUp? then KernelTakes(s, e.e)
    else if e.KInterrupt? then
      // krpc-intr: a parked wait is cancelled
      if s.k.KIdle? && Parked(s, e.e).Some? then Some(s.(k := KDrop(e.e, Eintr, None))) else None
    else if e.KGoOn? then
      if StreamGoesOn(s).Some? then StreamGoesOn(s) else if ServeGoesOn(s).Some? then ServeGoesOn(s) else NotifyGoesOn(s)
    else if e.KLook? then KernelLooks(s, e.e)
    else if ProducerStep(s, e).Some? then ProducerStep(s, e)
    else ConsumerStep(s, e)
  }

  // ---- what every step keeps ---------------------------------------------------------

  /** The kernel is at work on e itself. */
  ghost predicate WorksOn(k: Kernel, e: End) {
    match k
    case KStream(x, _) => x == e
    case KFlag(x, _, _) => x == e
    case KRaise(x) => x == e
    case KScan(x) => x == e
    case KScanned(x, _) => x == e
    case KDrop(x, _, _) => x == e
    case KReply(x, _, _) => x == e
    case KKick(x) => x == e
    case KClose(x) => x == e
    case KServe(x, _, _) => x == e
    case KMove(x, _, _, _) => x == e
    case KServed(x, _) => x == e
    case _ => false
  }

  /** The kernel is about to wake e, which may still be registered as parked. */
  ghost predicate Dropping(k: Kernel, e: End) {
    (k.KDrop? || k.KServe?) && k.e == e
  }

  ghost predicate Asleep(s: State, e: End) {
    match e case Rd => s.c.CAsleep? case Wr => s.p.PAsleep?
  }

  ghost predicate InOp(s: State, e: End, op: Op) {
    match e case Rd => s.c.CAsleep? && s.c.op == op case Wr => s.p.PAsleep? && s.p.op == op
  }

  /** A process is in one place at a time: running, posted, parked, or held by the kernel. */
  ghost predicate OnePlace(s: State, e: End) {
    && (Parked(s, e).Some? ==>
          && Flag(s, e) && !Posted(s, e) && s.closing != Some(e) && (WorksOn(s.k, e) ==> Dropping(s.k, e))
          && (if Parked(s, e).value.Select? then InOp(s, e, Wait) || InOp(s, e, Poll) else InOp(s, e, Stream)))
    && (Posted(s, e) ==> Asleep(s, e) && !WorksOn(s.k, e) && s.closing != Some(e))
    && (WorksOn(s.k, e) ==> Asleep(s, e) && s.closing != Some(e))
    && (s.closing == Some(e) ==> Asleep(s, e))
    && (s.k == KKick(e) ==> InOp(s, e, Kick))
    && ((s.k.KStream? || s.k.KFlag?) && s.k.e == e ==> InOp(s, e, Stream))
    && (s.k.KRescan? && s.k.e == e ==> Parked(s, e).Some? && Parked(s, e).value.Brokered? && Parked(s, e).value.fits.None?)
    && (s.k == KRaise(e) ==> InOp(s, e, Wait) || InOp(s, e, Poll))
    && (s.k == KScan(e) || (s.k.KScanned? && s.k.e == e) ==> Flag(s, e) && (InOp(s, e, Wait) || InOp(s, e, Poll)))
    && (s.k.KServe? && s.k.e == e ==> Parked(s, e).Some? && Parked(s, e).value.Brokered?)
  }

  /** A close is served by a notify and nothing else. */
  ghost predicate Notifying(k: Kernel) {
    || k.KPass? || k.KServe? || (k.KMove? && !k.first) || (k.KServed? && !k.first) || k.KSelects?
    || (k.KDrop? && k.rest.Some?) || (k.KReply? && k.rest.Some?)
  }

  /** What the kernel saw was too little for n bytes, and nobody at the other end has gone. */
  ghost predicate Short(s: State, e: End, n: nat, seen: nat) {
    match e
    case Rd => seen == 0 && !s.w.gone
    case Wr => seen <= Free(s) && (seen == 0 || (n <= PIPE_ATOMIC && n > seen)) && !s.r.gone
  }

  ghost predicate Bounds(s: State) {
    && PIPE_ATOMIC <= s.cap && s.head <= s.tail <= s.head + s.cap
    && (s.p.PSpace? ==> s.p.free <= Free(s)) && (s.p.PCommit? ==> s.p.n <= Free(s))
    && (s.c.CAvail? ==> s.c.avail <= Avail(s) && s.c.tail <= s.tail && (s.c.avail == 0 ==> s.c.tail == s.head))
    && (s.c.CFlags? ==> s.c.tail <= s.tail && s.c.tail == s.head)
    && (s.c.CCommit? ==> s.c.n <= Avail(s))
    && (s.k.KServe? || s.k.KMove? ==> s.k.m <= Seen(s, s.k.e))
    && (s.k.KFlag? ==> Short(s, s.k.e, s.k.n, s.k.seen))
    && (s.k.KRescan? ==> Parked(s, s.k.e).Some? && Parked(s, s.k.e).value.Brokered? && Short(s, s.k.e, Parked(s, s.k.e).value.n, s.k.seen))
    && (s.closing.Some? ==> Notifying(s.k))
  }

  /** e has gone to sleep, or has just decided to. */
  ghost predicate GoneToSleep(s: State, e: End) {
    Parked(s, e).Some? || s.k == KScanned(e, false)
  }

  /** What e sleeps for has happened. */
  ghost predicate WakeDue(s: State, e: End) {
    match e
    case Rd => Avail(s) > 0 || s.w.gone
    case Wr => if Parked(s, Wr).Some? && Parked(s, Wr).value.Brokered? then s.r.gone || Lands(s, Parked(s, Wr).value.n)
               else Free(s) > 0 || s.r.gone
  }

  /** The kernel will still look at e in this turn. */
  ghost predicate WillLook(s: State, e: End) {
    var select := Parked(s, e) == Some(Select);
    match s.k
    case KDrop(x, _, rest) => x == e || (select && rest.Some? && e in rest.value)
    case KReply(x, _, rest) => select && rest.Some? && e in rest.value
    case KPass(x, progress) => x == Rd || e == Wr || select || progress
    case KServe(_, _, _) => true
    case KMove(_, _, _, _) => true
    case KServed(_, _) => true
    case KRescan(x, seen) => x == e && Seen(s, e) > seen
    case KSelects(todo) => select && e in todo
    case _ => false
  }

  /** The peer has committed and is on its way to ring, or its kick is being served. */
  ghost predicate PeerWillRing(s: State, e: End) {
    match e
    case Rd => s.p.PCheck? || (InOp(s, Wr, Kick) && (s.w.posted || s.k == KKick(Wr)))
    case Wr => s.c.CCheck? || (InOp(s, Rd, Kick) && (s.r.posted || s.k == KKick(Rd)))
  }

  /** The writer's bytes have fitted since the pipe became fast, and the reader, which has
      some to read, has taken none since then. */
  ghost predicate Stranded(s: State, e: End) {
    e.Wr? && s.w.park.Some? && s.w.park.value.Brokered? && s.w.park.value.fits == Some(s.head) && Avail(s) > 0
  }

  /** No wake is lost. */
  ghost predicate NoLostWake(s: State, e: End) {
    GoneToSleep(s, e) && WakeDue(s, e) ==> PeerWillRing(s, e) || WillLook(s, e) || Stranded(s, e)
  }

  ghost predicate Inv(s: State) {
    Bounds(s) && (forall e :: OnePlace(s, e) && NoLostWake(s, e))
  }

  /** What a process may have asked of the kernel before the pipe became fast. */
  ghost predicate Asked(op: Op) { op.Stream? || op.Poll? || op.Close? }

  /** The moment of promotion: readers and writers parked in brokered streams, and waits that
      are not ready, keep waiting, with their flags raised; others may have a request posted. */
  ghost predicate Initial(s: State) {
    && PIPE_ATOMIC <= s.cap && s.head <= s.tail <= s.head + s.cap
    && s.k == KIdle && s.closing == None && !s.r.gone && !s.w.gone
    && s.r.flag == s.r.park.Some? && s.w.flag == s.w.park.Some?
    && (match s.r.park
        case None => if s.r.posted then s.c.CAsleep? && Asked(s.c.op) else s.c == CIdle
        case Some(Select) => !s.r.posted && s.c == CAsleep(Poll, 0) && !ScanReady(s, Rd)
        case Some(Brokered(n, _)) => !s.r.posted && s.c == CAsleep(Stream, n) && Avail(s) == 0)
    && (match s.w.park
        case None => if s.w.posted then s.p.PAsleep? && Asked(s.p.op) else s.p == PIdle
        case Some(Select) => !s.w.posted && s.p == PAsleep(Poll, 0) && !ScanReady(s, Wr)
        case Some(Brokered(n, fits)) =>
          !s.w.posted && s.p == PAsleep(Stream, n) && Avail(s) > 0 && fits == if Lands(s, n) then Some(s.head) else None)
  }

  lemma ProducerKeepsBounds(s: State, e: Step, s': State)
    requires Bounds(s) && OnePlace(s, Wr)
    requires ProducerStep(s, e) == Some(s')
    ensures Bounds(s')
  {
    hide ScanReady, Lands, Flag;
    match e {
      case PDecide => if s.p.free == 0 || (s.p.count <= PIPE_ATOMIC && s.p.count > s.p.free) {} else {}
      case PReadFlags => case PReadIndices => case PStoreTail => case PReadRwait => case PPolls => case PBrokered(_) => case PCloses =>
      case _ =>
    }
  }

  lemma ProducerKeepsPlace(s: State, e: Step, s': State, x: End)
    requires OnePlace(s, x)
    requires ProducerStep(s, e) == Some(s')
    ensures OnePlace(s', x)
  {
    if x == Wr {
      match e {
        case PDecide => if s.p.free == 0 || (s.p.count <= PIPE_ATOMIC && s.p.count > s.p.free) {} else {}
        case PReadFlags => case PReadIndices => case PStoreTail => case PReadRwait => case PPolls => case PBrokered(_) => case PCloses =>
        case _ =>
      }
    }
  }

  lemma ProducerKeepsWake(s: State, e: Step, s': State, x: End)
    requires Bounds(s) && OnePlace(s, Rd) && OnePlace(s, Wr) && NoLostWake(s, x)
    requires ProducerStep(s, e) == Some(s')
    ensures NoLostWake(s', x)
  {
    if e == PStoreTail {
      TailKeepsWake(s, s', x);
    } else {
      hide Bounds;
      match e {
        case PDecide => if s.p.free == 0 || (s.p.count <= PIPE_ATOMIC && s.p.count > s.p.free) {} else {}
        case PReadFlags => case PReadIndices => case PReadRwait => case PPolls => case PBrokered(_) => case PCloses =>
        case _ =>
      }
    }
  }

  lemma TailKeepsWake(s: State, s': State, x: End)
    requires Bounds(s) && OnePlace(s, Rd) && OnePlace(s, Wr) && NoLostWake(s, x)
    requires ProducerStep(s, PStoreTail) == Some(s')
    ensures NoLostWake(s', x)
  {
  }

  lemma ConsumerKeepsBounds(s: State, e: Step, s': State)
    requires Bounds(s) && OnePlace(s, Rd)
    requires ConsumerStep(s, e) == Some(s')
    ensures Bounds(s')
  {
    if e == CStoreHead {
      HeadKeepsBounds(s, s');
    } else {
      hide ScanReady, Lands, Flag, OnePlace;
      match e {
        case CReadIndices => case CDecide => case CReadFlags => case CReadWwait => case CPolls => case CBrokered(_) => case CCloses =>
        case _ =>
      }
    }
  }

  lemma HeadKeepsBounds(s: State, s': State)
    requires Bounds(s) && OnePlace(s, Rd)
    requires ConsumerStep(s, CStoreHead) == Some(s')
    ensures Bounds(s')
  {
    hide ScanReady, Lands, Flag;
  }

  lemma ConsumerKeepsPlace(s: State, e: Step, s': State, x: End)
    requires Bounds(s) && OnePlace(s, x)
    requires ConsumerStep(s, e) == Some(s')
    ensures OnePlace(s', x)
  {
    hide Bounds;
    match e {
      case CReadIndices => case CDecide => case CReadFlags => case CStoreHead => case CReadWwait => case CPolls => case CBrokered(_) => case CCloses =>
      case _ =>
    }
  }

  lemma ConsumerKeepsWake(s: State, e: Step, s': State, x: End)
    requires Bounds(s) && OnePlace(s, Rd) && OnePlace(s, Wr) && NoLostWake(s, x)
    requires ConsumerStep(s, e) == Some(s')
    ensures NoLostWake(s', x)
  {
    if e == CStoreHead {
      HeadKeepsWake(s, s', x);
    } else {
      hide Bounds;
      match e {
        case CReadIndices => case CDecide => case CReadFlags => case CReadWwait => case CPolls => case CBrokered(_) => case CCloses =>
        case _ =>
      }
    }
  }

  lemma HeadKeepsWake(s: State, s': State, x: End)
    requires Bounds(s) && OnePlace(s, Rd) && OnePlace(s, Wr) && NoLostWake(s, x)
    requires ConsumerStep(s, CStoreHead) == Some(s')
    ensures NoLostWake(s', x)
  {
  }

  lemma TakeUpKeepsBounds(s: State, e: Step, s': State)
    requires Bounds(s) && OnePlace(s, Rd) && OnePlace(s, Wr)
    requires e.KTakeUp? && KernelTakes(s, e.e) == Some(s')
    ensures Bounds(s')
  {
    match e.e {
      case Rd => match s.c.op { case Wait => case Poll => case Kick => case Stream => case _ => }
      case Wr => match s.p.op { case Wait => case Poll => case Kick => case Stream => case _ => }
    }
  }

  lemma TakeUpKeepsPlace(s: State, e: Step, s': State, x: End)
    requires Bounds(s) && OnePlace(s, x)
    requires e.KTakeUp? && KernelTakes(s, e.e) == Some(s')
    ensures OnePlace(s', x)
  {
    match e.e {
      case Rd => match s.c.op { case Wait => case Poll => case Kick => case Stream => case _ => }
      case Wr => match s.p.op { case Wait => case Poll => case Kick => case Stream => case _ => }
    }
  }

  lemma TakeUpKeepsWake(s: State, e: Step, s': State, x: End)
    requires Bounds(s) && OnePlace(s, Rd) && OnePlace(s, Wr) && NoLostWake(s, x)
    requires e.KTakeUp? && KernelTakes(s, e.e) == Some(s')
    ensures NoLostWake(s', x)
  {
    match e.e {
      case Rd => match s.c.op { case Wait => case Poll => case Kick => case Stream => case _ => }
      case Wr => match s.p.op { case Wait => case Poll => case Kick => case Stream => case _ => }
    }
  }

  lemma InterruptKeepsInv(s: State, e: Step, s': State)
    requires Inv(s) && e.KInterrupt? && After(s, e) == Some(s')
    ensures Inv(s')
  {
    assert OnePlace(s, Rd) && OnePlace(s, Wr) && NoLostWake(s, Rd) && NoLostWake(s, Wr);
  }

  lemma ServeKeepsBounds(s: State, s': State)
    requires Bounds(s)
    requires ServeGoesOn(s) == Some(s')
    ensures Bounds(s')
  {
    hide ScanReady, Lands, Flag, Posted, Parked;
    match s.k {
      case KRaise(y) => match y { case Rd => case Wr => }
      case KDrop(y, _, _) => match y { case Rd => case Wr => }
      case KReply(y, _, _) => match y { case Rd => case Wr => }
      case KClose(y) => match y { case Rd => case Wr => }
      case KScan(_) => case KScanned(_, _) => case KKick(_) =>
    }
  }

  lemma ServeKeepsPlace(s: State, s': State, x: End)
    requires Bounds(s) && OnePlace(s, x)
    requires ServeGoesOn(s) == Some(s')
    ensures OnePlace(s', x)
  {
    match s.k {
      case KRaise(y) => match y { case Rd => case Wr => }
      case KDrop(y, _, _) => match y { case Rd => case Wr => }
      case KReply(y, _, _) => match y { case Rd => case Wr => }
      case KClose(y) => match y { case Rd => case Wr => }
      case KScan(_) => case KScanned(_, _) => case KKick(_) =>
    }
  }

  /** A wait until it parks. */
  lemma WaitKeepsWake(s: State, s': State, x: End)
    requires OnePlace(s, Rd) && OnePlace(s, Wr) && NoLostWake(s, x)
    requires (s.k.KRaise? || s.k.KScan? || s.k.KScanned?) && ServeGoesOn(s) == Some(s')
    ensures NoLostWake(s', x)
  {
    match s.k.e { case Rd => case Wr => }
  }

  lemma ServeKeepsWake(s: State, s': State, x: End)
    requires OnePlace(s, Rd) && OnePlace(s, Wr) && NoLostWake(s, x)
    requires ServeGoesOn(s) == Some(s')
    ensures NoLostWake(s', x)
  {
    if s.k.KRaise? || s.k.KScan? || s.k.KScanned? {
      WaitKeepsWake(s, s', x);
    } else {
      match s.k.e { case Rd => case Wr => }
    }
  }

  lemma StreamKeepsBounds(s: State, s': State)
    requires Bounds(s)
    requires StreamGoesOn(s) == Some(s')
    ensures Bounds(s')
  {
    match s.k.e { case Rd => case Wr => }
  }

  lemma StreamKeepsPlace(s: State, s': State, x: End)
    requires Bounds(s) && OnePlace(s, x)
    requires StreamGoesOn(s) == Some(s')
    ensures OnePlace(s', x)
  {
    match s.k.e { case Rd => case Wr => }
  }

  lemma StreamKeepsWake(s: State, s': State, x: End)
    requires Bounds(s) && OnePlace(s, Rd) && OnePlace(s, Wr) && NoLostWake(s, x)
    requires StreamGoesOn(s) == Some(s')
    ensures NoLostWake(s', x)
  {
    match s.k.e { case Rd => case Wr => }
  }

  lemma PassKeepsBounds(s: State, s': State)
    requires Bounds(s) && s.k.KPass? && s' == s.(k := AfterPass(s, s.k.e, s.k.progress))
    ensures Bounds(s')
  {
    match s.k.e { case Rd => case Wr => }
  }

  lemma PassKeepsPlace(s: State, s': State, x: End)
    requires OnePlace(s, x) && s.k.KPass? && s' == s.(k := AfterPass(s, s.k.e, s.k.progress))
    ensures OnePlace(s', x)
  {
    match s.k.e { case Rd => case Wr => }
  }

  lemma PassKeepsWake(s: State, s': State, x: End)
    requires OnePlace(s, x) && NoLostWake(s, x) && s.k.KPass? && s' == s.(k := AfterPass(s, s.k.e, s.k.progress))
    ensures NoLostWake(s', x)
  {
    match s.k.e { case Rd => case Wr => }
  }

  lemma NotifyKeepsBounds(s: State, s': State)
    requires Bounds(s) && OnePlace(s, Rd) && OnePlace(s, Wr)
    requires !s.k.KPass? && NotifyGoesOn(s) == Some(s')
    ensures Bounds(s')
  {
    match s.k {
      case KServe(_, _, _) =>
      case KMove(y, _, _, _) => match y { case Rd => case Wr => }
      case KServed(_, _) =>
      case KSelects(_) => if s.closing.Some? { match s.closing.value { case Rd => case Wr => } }
    }
  }

  lemma NotifyKeepsPlace(s: State, s': State, x: End)
    requires Bounds(s) && OnePlace(s, x)
    requires !s.k.KPass? && NotifyGoesOn(s) == Some(s')
    ensures OnePlace(s', x)
  {
    match s.k {
      case KServe(_, _, _) =>
      case KMove(y, _, _, _) => match y { case Rd => case Wr => }
      case KServed(_, _) =>
      case KSelects(_) => if s.closing.Some? { match s.closing.value { case Rd => case Wr => } }
    }
  }

  lemma NotifyKeepsWake(s: State, s': State, x: End)
    requires Bounds(s) && OnePlace(s, Rd) && OnePlace(s, Wr) && NoLostWake(s, x)
    requires !s.k.KPass? && NotifyGoesOn(s) == Some(s')
    ensures NoLostWake(s', x)
  {
    match s.k {
      case KServe(_, _, _) =>
      case KMove(y, _, _, _) => match y { case Rd => case Wr => }
      case KServed(_, _) =>
      case KSelects(_) => if s.closing.Some? { match s.closing.value { case Rd => case Wr => } }
    }
  }

  lemma LookKeepsBounds(s: State, e: End, s': State)
    requires Bounds(s) && KernelLooks(s, e) == Some(s')
    ensures Bounds(s')
  {
    hide ScanReady;
  }

  lemma LookKeepsPlace(s: State, e: End, s': State, x: End)
    requires OnePlace(s, x) && KernelLooks(s, e) == Some(s')
    ensures OnePlace(s', x)
  {
    hide ScanReady;
  }

  lemma LookKeepsWake(s: State, e: End, s': State, x: End)
    requires OnePlace(s, x) && NoLostWake(s, x) && KernelLooks(s, e) == Some(s')
    ensures NoLostWake(s', x)
  {
    match e { case Rd => case Wr => }
  }

  lemma LookKeepsInv(s: State, e: Step, s': State)
    requires Inv(s) && e.KLook? && KernelLooks(s, e.e) == Some(s')
    ensures Inv(s')
  {
    hide Bounds, OnePlace, NoLostWake, KernelLooks;
    LookKeepsBounds(s, e.e, s');
    forall x ensures OnePlace(s', x) && NoLostWake(s', x) {
      LookKeepsPlace(s, e.e, s', x);
      LookKeepsWake(s, e.e, s', x);
    }
  }

  lemma StepKeepsInv(s: State, e: Step, s': State)
    requires Inv(s) && After(s, e) == Some(s')
    ensures Inv(s')
  {
    hide Bounds, OnePlace, NoLostWake, ProducerStep, ConsumerStep, KernelTakes, ServeGoesOn, KernelLooks;
    if e.KTakeUp? {
      TakeUpKeepsBounds(s, e, s');
      forall x ensures OnePlace(s', x) && NoLostWake(s', x) {
        TakeUpKeepsPlace(s, e, s', x);
        TakeUpKeepsWake(s, e, s', x);
      }
    } else if e.KInterrupt? {
      InterruptKeepsInv(s, e, s');
    } else if e.KGoOn? && StreamGoesOn(s).Some? {
      StreamKeepsBounds(s, s');
      forall x ensures OnePlace(s', x) && NoLostWake(s', x) {
        StreamKeepsPlace(s, s', x);
        StreamKeepsWake(s, s', x);
      }
    } else if e.KGoOn? && ServeGoesOn(s).Some? {
      ServeKeepsBounds(s, s');
      forall x ensures OnePlace(s', x) && NoLostWake(s', x) {
        ServeKeepsPlace(s, s', x);
        ServeKeepsWake(s, s', x);
      }
    } else if e.KGoOn? && s.k.KPass? {
      PassKeepsBounds(s, s');
      forall x ensures OnePlace(s', x) && NoLostWake(s', x) {
        PassKeepsPlace(s, s', x);
        PassKeepsWake(s, s', x);
      }
    } else if e.KGoOn? {
      NotifyKeepsBounds(s, s');
      forall x ensures OnePlace(s', x) && NoLostWake(s', x) {
        NotifyKeepsPlace(s, s', x);
        NotifyKeepsWake(s, s', x);
      }
    } else if e.KLook? {
      LookKeepsInv(s, e, s');
    } else if ProducerStep(s, e).Some? {
      ProducerKeepsBounds(s, e, s');
      forall x ensures OnePlace(s', x) && NoLostWake(s', x) {
        ProducerKeepsPlace(s, e, s', x);
        ProducerKeepsWake(s, e, s', x);
      }
    } else {
      ConsumerKeepsBounds(s, e, s');
      forall x ensures OnePlace(s', x) && NoLostWake(s', x) {
        ConsumerKeepsPlace(s, e, s', x);
        ConsumerKeepsWake(s, e, s', x);
      }
    }
  }

  // ---- whole runs ----------------------------------------------------------------------

  /** The state after the steps of run, if they can all be taken. */
  function Along(s: State, run: seq<Step>): Option<State> {
    if run == [] then Some(s) else
    var before := Along(s, run[..|run| - 1]);
    if before.None? then None else After(before.value, run[|run| - 1])
  }

  ghost predicate Reaches(s: State, run: seq<Step>, t: State) { Along(s, run) == Some(t) }

  lemma {:induction false} RunKeepsInv(s: State, run: seq<Step>, t: State)
    requires Inv(s) && Reaches(s, run, t)
    ensures Inv(t)
  {
    if run != [] {
      hide Inv, After;
      var m := Along(s, run[..|run| - 1]).value;
      RunKeepsInv(s, run[..|run| - 1], m);
      StepKeepsInv(m, run[|run| - 1], t);
    }
  }

  lemma ReachableInv(s: State, run: seq<Step>, t: State)
    requires Initial(s) && Reaches(s, run, t)
    ensures Inv(t)
  {
    assert OnePlace(s, Rd) && OnePlace(s, Wr) && NoLostWake(s, Rd) && NoLostWake(s, Wr);
    RunKeepsInv(s, run, t);
  }

  /** Nothing is posted and the kernel is at rest. */
  ghost predicate NothingInFlight(s: State) {
    s.k == KIdle && !s.w.posted && !s.r.posted
  }

  /** In every state of every run, a parked process whose wake is due has a peer that is
      about to ring, or a kernel turn that is about to look at it. The one exception is a
      writer that was parked although its bytes fitted when the pipe became fast, until the
      reader first takes something. */
  lemma WakeIsNeverLost(s: State, run: seq<Step>, t: State, e: End)
    requires Initial(s) && Reaches(s, run, t)
    ensures Parked(t, e).Some? && WakeDue(t, e) ==> PeerWillRing(t, e) || WillLook(t, e) || Stranded(t, e)
    ensures Stranded(t, e) ==> t.head == s.head && t.w.park == s.w.park && Stranded(s, e)
  {
    ReachableInv(s, run, t);
    assert NoLostWake(t, e);
    ParkedSince(s, run, t);
  }

  /** A wake of e that is due is on its way. */
  ghost predicate Woken(t: State, e: End) {
    Parked(t, e).Some? && WakeDue(t, e) ==> PeerWillRing(t, e) || WillLook(t, e)
  }

  /** From a given promotion no run ever loses a wake exactly when no write was parked then
      whose bytes fitted. */
  lemma WokenExactly(s: State)
    requires Initial(s)
    ensures (forall run, t, e :: Reaches(s, run, t) ==> Woken(t, e)) <==>
      !(s.w.park.Some? && s.w.park.value.Brokered? && Lands(s, s.w.park.value.n))
  {
    hide Initial, WakeDue, WillLook, PeerWillRing;
    if s.w.park.Some? && s.w.park.value.Brokered? && Lands(s, s.w.park.value.n) {
      NotWoken(s);
      assert Reaches(s, [], s);
    } else {
      forall run, t, e | Reaches(s, run, t) ensures Woken(t, e) {
        WakeIsNeverLost(s, run, t, e);
        if Stranded(t, e) { NotStranded(s, e); }
      }
    }
  }

  lemma NotWoken(s: State)
    requires Initial(s) && s.w.park.Some? && s.w.park.value.Brokered? && Lands(s, s.w.park.value.n)
    ensures !Woken(s, Wr)
  {
  }

  lemma NotStranded(s: State, e: End)
    requires Initial(s) && Stranded(s, e)
    ensures s.w.park.Some? && s.w.park.value.Brokered? && Lands(s, s.w.park.value.n)
  {
  }

  /** A pipe of 512 bytes that holds 412 becomes fast with a write of 50 bytes parked, as an
      interruption leaves it: the writer sleeps, its bytes fit, and nobody is to wake it. */
  lemma PromotedStranded() returns (s: State)
    ensures Initial(s) && NothingInFlight(s) && s.w.park == Some(Brokered(50, Some(0))) && Avail(s) == 412 && !Woken(s, Wr)
  {
    s := State(PIPE_ATOMIC, 0, 412, Side(false, false, false, None), Side(true, false, false, Some(Brokered(50, Some(0)))),
               PAsleep(Stream, 50), CIdle, KIdle, None);
    NotWoken(s);
  }

  /** A write parked with its bytes fitting before the pipe became fast stays as it is until it
      is answered. */
  lemma {:induction false} ParkedSince(s: State, run: seq<Step>, t: State)
    requires Initial(s) && Reaches(s, run, t)
    ensures t.w.park.Some? && t.w.park.value.Brokered? && t.w.park.value.fits.Some? ==> t.w.park == s.w.park
  {
    if run != [] {
      hide Initial, After;
      var m := Along(s, run[..|run| - 1]).value;
      ParkedSince(s, run[..|run| - 1], m);
      StepParks(m, run[|run| - 1], t);
    }
  }

  lemma StepParks(s: State, e: Step, s': State)
    requires After(s, e) == Some(s')
    ensures s'.w.park.Some? && s'.w.park.value.Brokered? && s'.w.park.value.fits.Some? ==> s'.w.park == s.w.park
  {
    if e.KTakeUp? || e.KInterrupt? || e.KLook? {
      if e.KTakeUp? { match e.e { case Rd => case Wr => } }
    } else if e.KGoOn? {
      if StreamGoesOn(s).Some? {
        match s.k.e { case Rd => case Wr => }
      } else if ServeGoesOn(s).Some? { ServeParks(s, s'); } else { NotifyParks(s, s'); }
    } else if ProducerStep(s, e).Some? {
      hide ConsumerStep;
    } else {
      hide ProducerStep;
    }
  }

  lemma ServeParks(s: State, s': State)
    requires ServeGoesOn(s) == Some(s')
    ensures s'.w.park.Some? && s'.w.park.value.Brokered? && s'.w.park.value.fits.Some? ==> s'.w.park == s.w.park
  {
    match s.k {
      case KRaise(y) => match y { case Rd => case Wr => }
      case KScanned(y, _) => match y { case Rd => case Wr => }
      case KDrop(y, _, _) => match y { case Rd => case Wr => }
      case KReply(y, _, _) => match y { case Rd => case Wr => }
      case KClose(y) => match y { case Rd => case Wr => }
      case _ =>
    }
  }

  lemma NotifyParks(s: State, s': State)
    requires NotifyGoesOn(s) == Some(s')
    ensures s'.w.park.Some? && s'.w.park.value.Brokered? && s'.w.park.value.fits.Some? ==> s'.w.park == s.w.park
  {
    match s.k {
      case KServe(y, _, _) => match y { case Rd => case Wr => }
      case KMove(y, _, _, _) => match y { case Rd => case Wr => }
      case KServed(y, _) => match y { case Rd => case Wr => }
      case _ =>
    }
  }

  /** With nothing in flight, a parked process has nothing to wake for, or its peer is still
      between its commit and its look at the flag, or it is the stranded writer; and the two
      are never both parked. */
  lemma NeverBothAsleep(s: State, run: seq<Step>, t: State)
    requires Initial(s) && Reaches(s, run, t) && NothingInFlight(t)
    ensures t.r.park.Some? && !t.p.PCheck? ==> Avail(t) == 0 && !t.w.gone
    ensures t.w.park.Some? && !t.c.CCheck? ==> (!WakeDue(t, Wr) && !t.r.gone) || Stranded(t, Wr)
    ensures !(t.r.park.Some? && t.w.park.Some?)
  {
    ReachableInv(s, run, t);
    assert OnePlace(t, Rd) && OnePlace(t, Wr) && NoLostWake(t, Rd) && NoLostWake(t, Wr);
  }

  /** The reader's first commit ends a stranding: it is about to look at the flag, which is up. */
  lemma CommitEndsStranding(s: State, run: seq<Step>, t: State, t': State)
    requires Initial(s) && Reaches(s, run, t) && Stranded(t, Wr)
    requires After(t, CStoreHead) == Some(t')
    ensures PeerWillRing(t', Wr) && t'.w.flag && After(t', CReadWwait) == Some(Call(t', Rd, Kick, 0))
  {
    ReachableInv(s, run, t);
    assert OnePlace(t, Wr);
  }

  // ---- every turn of the kernel ends -------------------------------------------------------

  function OneIfBrokered(park: Option<Need>): nat { if park.Some? && park.value.Brokered? then 1 else 0 }

  /** How many processes are still parked in a brokered read or write. */
  function Waiting(s: State): nat { OneIfBrokered(s.r.park) + OneIfBrokered(s.w.park) }

  function Left(k: Kernel): nat {
    match k
    case KIdle => 0
    case KStream(_, _) => 131
    case KFlag(_, _, _) => 130
    case KRescan(_, _) => 12
    case KRaise(_) => 5
    case KScan(_) => 4
    case KScanned(_, _) => 3
    case KDrop(_, _, rest) => 2 + if rest.Some? then 1 + 3 * |rest.value| else 0
    case KReply(_, _, rest) => 1 + if rest.Some? then 1 + 3 * |rest.value| else 0
    case KKick(_) => 12
    case KClose(_) => 12
    case KPass(e, progress) => (if progress then 10 else 8) + if e.Rd? then 1 else 0
    case KServe(_, _, _) => 1
    case KMove(_, _, _, _) => 14
    case KServed(_, _) => 13
    case KSelects(todo) => 1 + 3 * |todo|
  }

  /** How many steps of its own the kernel can still take in this turn. */
  function TurnLeft(s: State): nat { 100 * Waiting(s) + Left(s.k) }

  /** Whatever the other processes do in between, each step of a turn brings its end
      nearer: the service loop of _pipeNotify terminates. */
  lemma TurnGoesDown(s: State, e: Step, s': State)
    requires Inv(s) && (e.KGoOn? || e.KLook?) && After(s, e) == Some(s')
    ensures TurnLeft(s') < TurnLeft(s)
  {
    if e.KLook? {
      LookGoesDown(s, e.e, s');
    } else if StreamGoesOn(s).Some? {
      StreamGoesDown(s, s');
    } else if ServeGoesOn(s).Some? {
      AnswerGoesDown(s, s');
    } else if s.k.KServe? {
      ServeGoesDown(s, s');
    } else {
      hide Inv, OneIfBrokered;
      match s.k {
        case KMove(y, _, _, _) => match y { case Rd => case Wr => }
        case KServed(y, _) => match y { case Rd => case Wr => }
        case _ =>
      }
    }
  }

  lemma StreamGoesDown(s: State, s': State)
    requires StreamGoesOn(s) == Some(s')
    ensures TurnLeft(s') < TurnLeft(s)
  {
    match s.k.e { case Rd => case Wr => }
  }

  lemma AnswerGoesDown(s: State, s': State)
    requires ServeGoesOn(s) == Some(s')
    ensures TurnLeft(s') < TurnLeft(s)
  {
    hide OneIfBrokered;
    NotBrokered();
    match s.k.e { case Rd => case Wr => }
  }

  lemma NotBrokered()
    ensures OneIfBrokered(None) == 0 && OneIfBrokered(Some(Select)) == 0
  {
  }

  lemma LookGoesDown(s: State, e: End, s': State)
    requires KernelLooks(s, e) == Some(s')
    ensures TurnLeft(s') < TurnLeft(s)
  {
    hide OneIfBrokered;
    assert |s.k.todo - {e}| == |s.k.todo| - 1;
  }

  lemma ServeGoesDown(s: State, s': State)
    requires Inv(s) && NotifyGoesOn(s) == Some(s') && s.k.KServe?
    ensures TurnLeft(s') < TurnLeft(s)
  {
    assert OnePlace(s, s.k.e);
  }

  lemma OthersDoNotProlong(s: State, e: Step, s': State)
    requires ProducerStep(s, e) == Some(s') || ConsumerStep(s, e) == Some(s')
    ensures TurnLeft(s') == TurnLeft(s) && s'.k == s.k
  {
    hide OneIfBrokered, Left;
    if ProducerStep(s, e).Some? {
      hide ConsumerStep;
    } else {
      hide ProducerStep;
    }
  }

  /** A turn that has begun can always go on. */
  lemma TurnNeverSticks(s: State)
    requires Inv(s) && s.k != KIdle
    ensures exists e :: (e == KGoOn || e == KLook(Rd) || e == KLook(Wr)) && After(s, e).Some?
  {
    if s.k.KSelects? && s.k.todo != {} {
      var e :| e in s.k.todo;
      assert After(s, KLook(e)).Some?;
    } else {
      assert After(s, KGoOn).Some?;
    }
  }

  // ---- how much a read or write moves ---------------------------------------------------------

  /** The count of the read or write under way at e, fast or left to the kernel. */
  function Asks(s: State, e: End): Option<nat> {
    match e
    case Rd =>
      (match s.c
       case CLoad(count) => Some(count)
       case CAvail(count, _, _) => Some(count)
       case CFlags(count, _) => Some(count)
       case CCommit(_, count, _) => Some(count)
       case CAsleep(op, count) => if op.Wait? || op.Stream? then Some(count) else None
       case _ => None)
    case Wr =>
      match s.p
      case PFlags(count) => Some(count)
      case PLoad(count) => Some(count)
      case PSpace(count, _) => Some(count)
      case PCommit(_, count, _) => Some(count)
      case PAsleep(op, count) => if op.Wait? || op.Stream? then Some(count) else None
      case _ => None
  }

  /** n is all that was asked for or all that there was, whichever is less. */
  ghost predicate Lesser(n: nat, count: nat, seen: nat) {
    n <= count && n <= seen && (n == count || n == seen)
  }

  /** What is about to be moved is the right amount; small writes are not split. */
  ghost predicate Amounts(s: State) {
    && (s.c.CCommit? ==> s.c.avail > 0 && Lesser(s.c.n, s.c.count, s.c.avail))
    && (s.p.PCommit? ==> s.p.free > 0 && Lesser(s.p.n, s.p.count, s.p.free) && (s.p.count <= PIPE_ATOMIC ==> s.p.n == s.p.count))
    && (s.k.KServe? || s.k.KMove? ==> Asks(s, s.k.e).Some? && MovesRight(s, s.k.e, s.k.m, Asks(s, s.k.e).value, s.k.seen))
    && (s.k.KStream? || s.k.KFlag? ==> Asks(s, s.k.e) == Some(s.k.n))
    && (s.r.park.Some? && s.r.park.value.Brokered? ==> Asks(s, Rd) == Some(s.r.park.value.n))
    && (s.w.park.Some? && s.w.park.value.Brokered? ==> Asks(s, Wr) == Some(s.w.park.value.n))
  }

  /** A write whose reader has gone moves nothing. */
  ghost predicate MovesRight(s: State, e: End, m: nat, count: nat, seen: nat) {
    match e
    case Rd => Lesser(m, count, seen)
    case Wr => if s.r.gone then m == 0 else Lesser(m, count, seen) && (count <= PIPE_ATOMIC ==> m == count)
  }

  lemma {:induction false} RunKeepsAmounts(s: State, run: seq<Step>, t: State)
    requires Initial(s) && Reaches(s, run, t)
    ensures Amounts(t)
  {
    if run != [] {
      hide Initial, After, Inv, Amounts;
      var m := Along(s, run[..|run| - 1]).value;
      RunKeepsAmounts(s, run[..|run| - 1], m);
      ReachableInv(s, run[..|run| - 1], m);
      StepKeepsAmounts(m, run[|run| - 1], t);
    }
  }

  lemma StepKeepsAmounts(s: State, e: Step, s': State)
    requires Inv(s) && Amounts(s) && After(s, e) == Some(s')
    ensures Amounts(s')
  {
    hide Amounts, Bounds, OnePlace, NoLostWake, ProducerStep, ConsumerStep, KernelTakes, ServeGoesOn, StreamGoesOn, NotifyGoesOn, KernelLooks;
    assert OnePlace(s, Rd) && OnePlace(s, Wr);
    if e.KTakeUp? {
      TakeUpKeepsAmounts(s, e, s');
    } else if e.KInterrupt? {
      OnlyWork(s, s');
    } else if e.KLook? {
      LookKeepsAmounts(s, e.e, s');
    } else if e.KGoOn? {
      if StreamGoesOn(s).Some? {
        StreamKeepsAmounts(s, s');
      } else if ServeGoesOn(s).Some? {
        ServeKeepsAmounts(s, s');
      } else if s.k.KPass? {
        PassKeepsAmounts(s, s');
      } else {
        NotifyKeepsAmounts(s, s');
      }
    } else if ProducerStep(s, e).Some? {
      ProducerKeepsAmounts(s, e, s');
    } else {
      ConsumerKeepsAmounts(s, e, s');
    }
  }

  /** The kernel turns to something that moves nothing. */
  lemma OnlyWork(s: State, s': State)
    requires Amounts(s) && s' == s.(k := s'.k) && (s'.k.KDrop? || s'.k.KSelects?)
    ensures Amounts(s')
  {
  }

  lemma LookKeepsAmounts(s: State, e: End, s': State)
    requires Amounts(s) && KernelLooks(s, e) == Some(s')
    ensures Amounts(s')
  {
    hide Amounts, ScanReady;
    OnlyWork(s, s');
  }

  lemma TakeUpKeepsAmounts(s: State, e: Step, s': State)
    requires OnePlace(s, Rd) && OnePlace(s, Wr) && Amounts(s) && e.KTakeUp? && KernelTakes(s, e.e) == Some(s')
    ensures Amounts(s')
  {
    match e.e { case Rd => case Wr => }
  }

  lemma ProducerKeepsAmounts(s: State, e: Step, s': State)
    requires OnePlace(s, Wr) && Amounts(s) && ProducerStep(s, e) == Some(s')
    ensures Amounts(s')
  {
    hide ScanReady, Lands, Flag;
  }

  lemma ConsumerKeepsAmounts(s: State, e: Step, s': State)
    requires OnePlace(s, Rd) && Amounts(s) && ConsumerStep(s, e) == Some(s')
    ensures Amounts(s')
  {
    hide ScanReady, Lands, Flag;
  }

  lemma StreamKeepsAmounts(s: State, s': State)
    requires OnePlace(s, Rd) && OnePlace(s, Wr) && Bounds(s) && Amounts(s) && StreamGoesOn(s) == Some(s')
    ensures Amounts(s')
  {
    match s.k.e { case Rd => case Wr => }
  }

  lemma ServeKeepsAmounts(s: State, s': State)
    requires OnePlace(s, Rd) && OnePlace(s, Wr) && Amounts(s) && ServeGoesOn(s) == Some(s')
    ensures Amounts(s')
  {
    match s.k.e { case Rd => case Wr => }
  }

  lemma PassKeepsAmounts(s: State, s': State)
    requires OnePlace(s, Rd) && OnePlace(s, Wr) && Bounds(s) && Amounts(s) && s.k.KPass? && NotifyGoesOn(s) == Some(s')
    ensures Amounts(s')
  {
    match s.k.e { case Rd => case Wr => }
  }

  lemma NotifyKeepsAmounts(s: State, s': State)
    requires OnePlace(s, Rd) && OnePlace(s, Wr) && Amounts(s) && !s.k.KPass? && NotifyGoesOn(s) == Some(s')
    ensures Amounts(s')
  {
    match s.k {
      case KServe(y, _, _) => match y { case Rd => case Wr => }
      case KMove(y, _, _, _) => match y { case Rd => case Wr => }
      case KServed(y, _) => match y { case Rd => case Wr => }
      case KSelects(_) => if s.closing.Some? { match s.closing.value { case Rd => case Wr => } }
    }
  }

  /** The step begins a read or write. */
  predicate Begins(e: Step, x: End) {
    match x case Rd => e.CRead? || e.CBrokered? case Wr => e.PWrite? || e.PBrokered?
  }

  predicate Loads(e: Step, x: End) {
    match x case Rd => e == CReadIndices case Wr => e == PReadIndices
  }

  /** What the process at x, in a fast read or write, has seen in the ring. */
  function Loaded(s: State, x: End): Option<nat> {
    match x
    case Rd => if s.c.CAvail? then Some(s.c.avail) else if s.c.CCommit? then Some(s.c.avail) else None
    case Wr => if s.p.PSpace? then Some(s.p.free) else if s.p.PCommit? then Some(s.p.free) else None
  }

  /** A read or write goes on with the count it began with and with what it has seen. */
  lemma StepGoesOn(s: State, e: Step, s': State, x: End)
    requires After(s, e) == Some(s')
    ensures !Begins(e, x) && Asks(s', x).Some? ==> Asks(s, x) == Asks(s', x)
    ensures !Loads(e, x) && Loaded(s', x).Some? ==> Loaded(s, x) == Loaded(s', x)
  {
    match x {
      case Rd =>
        if e.KTakeUp? { match e.e { case Rd => case Wr => } }
        else if e.KGoOn? { KernelLeavesReader(s, s'); }
        else if e.KInterrupt? || e.KLook? {}
        else if ProducerStep(s, e).Some? { hide ConsumerStep; } else { hide ProducerStep; }
      case Wr =>
        if e.KTakeUp? { match e.e { case Rd => case Wr => } }
        else if e.KGoOn? { KernelLeavesWriter(s, s'); }
        else if e.KInterrupt? || e.KLook? {}
        else if ProducerStep(s, e).Some? { hide ConsumerStep; } else { hide ProducerStep; }
    }
  }

  lemma KernelLeavesReader(s: State, s': State)
    requires After(s, KGoOn) == Some(s')
    ensures s'.c == s.c || s'.c == CIdle || s'.c == CGone || (s.c.CAsleep? && s.c.op == Wait && s'.c == CLoad(s.c.count))
  {
    match s.k {
      case KSelects(_) => if s.closing.Some? { match s.closing.value { case Rd => case Wr => } }
      case KPass(_, _) => case KIdle =>
      case _ => match s.k.e { case Rd => case Wr => }
    }
  }

  lemma KernelLeavesWriter(s: State, s': State)
    requires After(s, KGoOn) == Some(s')
    ensures s'.p == s.p || s'.p == PIdle || s'.p == PGone || (s.p.PAsleep? && s.p.op == Wait && s'.p == PFlags(s.p.count))
  {
    match s.k {
      case KSelects(_) => if s.closing.Some? { match s.closing.value { case Rd => case Wr => } }
      case KPass(_, _) => case KIdle =>
      case _ => match s.k.e { case Rd => case Wr => }
    }
  }

  lemma {:induction false} SameCount(s: State, run: seq<Step>, t: State, x: End)
    requires Reaches(s, run, t) && Asks(t, x).Some? && forall i :: 0 <= i < |run| ==> !Begins(run[i], x)
    ensures Asks(s, x) == Asks(t, x)
  {
    if run != [] {
      hide After, Asks, Begins;
      var m := Along(s, run[..|run| - 1]).value;
      StepGoesOn(m, run[|run| - 1], t, x);
      SameCount(s, run[..|run| - 1], m, x);
    }
  }

  lemma {:induction false} SameSeen(s: State, run: seq<Step>, t: State, x: End)
    requires Reaches(s, run, t) && Loaded(t, x).Some? && forall i :: 0 <= i < |run| ==> !Loads(run[i], x)
    ensures Loaded(s, x) == Loaded(t, x)
  {
    if run != [] {
      hide After, Loaded, Loads;
      var m := Along(s, run[..|run| - 1]).value;
      StepGoesOn(m, run[|run| - 1], t, x);
      SameSeen(s, run[..|run| - 1], m, x);
    }
  }

  /** A fast read of count bytes, however the other parties interleave and however often it
      sleeps, takes the lesser of count and of what was in the ring when it last looked. */
  lemma ReadTakes(s: State, a: seq<Step>, count: nat, m: State, b: seq<Step>, l: State, l': State, d: seq<Step>, t: State, t': State)
    requires Initial(s) && Reaches(s, a + [CRead(count)], m) && Reaches(m, b, l) && After(l, CReadIndices) == Some(l')
    requires Reaches(l', d, t) && After(t, CStoreHead) == Some(t')
    requires (forall i :: 0 <= i < |b| ==> !b[i].CRead? && !b[i].CBrokered?)
    requires forall i :: 0 <= i < |d| ==> !d[i].CRead? && !d[i].CBrokered? && d[i] != CReadIndices
    ensures var n := t'.head - t.head;
      Avail(l) > 0 && n <= count && n <= Avail(l) && (n == count || n == Avail(l))
  {
    hide After, Asks, Loaded, Inv, Amounts;
    ReadEdges(s, a, count, m, l, l', t, t');
    ReachesThrough(s, a + [CRead(count)], m, b, l, CReadIndices, l', d, t);
    RunKeepsAmounts(s, a + [CRead(count)] + b + [CReadIndices] + d, t);
    SameCount(l', d, t, Rd);
    StepGoesOn(l, CReadIndices, l', Rd);
    SameCount(m, b, l, Rd);
    SameSeen(l', d, t, Rd);
    CommitAmounts(t);
  }

  lemma CommitAmounts(s: State)
    requires Amounts(s)
    ensures s.c.CCommit? ==> s.c.avail > 0 && s.c.n <= s.c.count && s.c.n <= s.c.avail && (s.c.n == s.c.count || s.c.n == s.c.avail)
    ensures s.p.PCommit? ==> s.p.free > 0 && s.p.n <= s.p.count && s.p.n <= s.p.free && (s.p.n == s.p.count || s.p.n == s.p.free)
    ensures s.p.PCommit? && s.p.count <= 512 ==> s.p.n == s.p.count
  {
  }

  lemma ReadEdges(s: State, a: seq<Step>, count: nat, m: State, l: State, l': State, t: State, t': State)
    requires Reaches(s, a + [CRead(count)], m) && After(l, CReadIndices) == Some(l') && After(t, CStoreHead) == Some(t')
    ensures Asks(m, Rd) == Some(count) && Avail(l) >= 0 && Loaded(l', Rd) == Some(Avail(l))
    ensures t.c.CCommit? && Asks(t, Rd) == Some(t.c.count) && Loaded(t, Rd) == Some(t.c.avail) && t'.head == t.head + t.c.n
  {
    assert (a + [CRead(count)])[..|a|] == a;
  }

  lemma ReachesThrough(s: State, a: seq<Step>, m: State, b: seq<Step>, l: State, e: Step, l': State, d: seq<Step>, t: State)
    requires Reaches(s, a, m) && Reaches(m, b, l) && After(l, e) == Some(l') && Reaches(l', d, t)
    ensures Reaches(s, a + b + [e] + d, t)
  {
    hide After;
    AlongConcat(s, a, b);
    assert (a + b + [e])[..|a + b|] == a + b;
    AlongConcat(s, a + b + [e], d);
  }

  /** The same for a fast write of count bytes and the space it saw; one of at most 512 bytes
      goes in whole. */
  lemma WritePuts(s: State, a: seq<Step>, count: nat, m: State, b: seq<Step>, l: State, l': State, d: seq<Step>, t: State, t': State)
    requires Initial(s) && Reaches(s, a + [PWrite(count)], m) && Reaches(m, b, l) && After(l, PReadIndices) == Some(l')
    requires Reaches(l', d, t) && After(t, PStoreTail) == Some(t')
    requires (forall i :: 0 <= i < |b| ==> !b[i].PWrite? && !b[i].PBrokered?)
    requires forall i :: 0 <= i < |d| ==> !d[i].PWrite? && !d[i].PBrokered? && d[i] != PReadIndices
    ensures var n := t'.tail - t.tail;
      Free(l) > 0 && n <= count && n <= Free(l) && (n == count || n == Free(l)) && (count <= 512 ==> n == count)
  {
    hide After, Asks, Loaded, Inv, Amounts;
    WriteEdges(s, a, count, m, l, l', t, t');
    ReachesThrough(s, a + [PWrite(count)], m, b, l, PReadIndices, l', d, t);
    RunKeepsAmounts(s, a + [PWrite(count)] + b + [PReadIndices] + d, t);
    SameCount(l', d, t, Wr);
    StepGoesOn(l, PReadIndices, l', Wr);
    SameCount(m, b, l, Wr);
    SameSeen(l', d, t, Wr);
    CommitAmounts(t);
  }

  lemma WriteEdges(s: State, a: seq<Step>, count: nat, m: State, l: State, l': State, t: State, t': State)
    requires Reaches(s, a + [PWrite(count)], m) && After(l, PReadIndices) == Some(l') && After(t, PStoreTail) == Some(t')
    ensures Asks(m, Wr) == Some(count) && Free(l) >= 0 && Loaded(l', Wr) == Some(Free(l))
    ensures t.p.PCommit? && Asks(t, Wr) == Some(t.p.count) && Loaded(t, Wr) == Some(t.p.free) && t'.tail == t.tail + t.p.n
  {
    assert (a + [PWrite(count)])[..|a|] == a;
  }

  /** A read or write of count bytes left to the kernel moves the lesser of count and of what
      the kernel saw when it decided, whether it decides at once or for a parked process; a
      write of at most 512 bytes goes in whole, and one whose reader has gone not at all. */
  lemma KernelMoves(s: State, run: seq<Step>, t: State, t': State)
    requires Initial(s) && Reaches(s, run, t) && After(t, KGoOn) == Some(t') && t.k.KMove?
    ensures Asks(t, t.k.e).Some?
    ensures var m, count, seen := if t.k.e.Rd? then t'.head - t.head else t'.tail - t.tail, Asks(t, t.k.e).value, t.k.seen;
      if t.k.e.Wr? && t.r.gone then m == 0
      else m <= count && m <= seen && (m == count || m == seen) && (t.k.e.Wr? && count <= 512 ==> m == count)
    ensures if t.k.e.Rd? then t'.tail == t.tail else t'.head == t.head
  {
    RunKeepsAmounts(s, run, t);
  }

  /** What the kernel saw is what there was when it turned to moving, and it moves what it
      decided then. */
  lemma KernelSees(s: State, run: seq<Step>, t: State, t': State)
    requires Initial(s) && Reaches(s, run, t) && After(t, KGoOn) == Some(t')
    ensures t'.k.KServe? || (t'.k.KMove? && !t.k.KServe?) ==> t'.k.seen == if t'.k.e.Rd? then t.tail - t.head else t.cap - (t.tail - t.head)
    ensures t.k.KServe? ==> t'.k == KMove(t.k.e, t.k.m, t.k.seen, false)
  {
    ReachableInv(s, run, t);
    hide NoLostWake, OnePlace;
    match t.k {
      case KStream(y, _) => match y { case Rd => case Wr => }
      case KPass(y, _) => match y { case Rd => case Wr => }
      case _ =>
    }
  }

  // ---- end of file -------------------------------------------------------------------------

  /** No step of run, taken from s, moves the tail. */
  ghost predicate Steady(s: State, run: seq<Step>) {
    run == [] ||
    (var before := run[..|run| - 1];
     Steady(s, before) && Along(s, before).Some? && Along(s, run).Some? && Along(s, run).value.tail == Along(s, before).value.tail)
  }

  /** Only a commit of bytes moves the tail, and the reader keeps the tail it has loaded until
      it loads the indices again. */
  lemma StepTail(s: State, e: Step, s': State)
    requires After(s, e) == Some(s') && e != CReadIndices
    ensures s'.tail >= s.tail
    ensures s'.tail > s.tail ==> (e == PStoreTail && s.p.PCommit? && s.p.n > 0) || (e == KGoOn && s.k.KMove? && s.k.e == Wr)
    ensures s'.c.CAvail? || s'.c.CFlags? ==> s'.c.tail == LoadedTail(s)
  {
    if e.KTakeUp? {
      match e.e { case Rd => case Wr => }
    } else if e.KGoOn? {
      if StreamGoesOn(s).Some? {
        match s.k.e { case Rd => case Wr => }
      } else if ServeGoesOn(s).Some? { ServeTail(s, s'); } else { NotifyTail(s, s'); }
    } else if e.KInterrupt? || e.KLook? {
    } else if ProducerStep(s, e).Some? {
      hide ConsumerStep;
    } else {
      hide ProducerStep;
    }
  }

  function LoadedTail(s: State): int { if s.c.CAvail? || s.c.CFlags? then s.c.tail else -1 }

  lemma ServeTail(s: State, s': State)
    requires ServeGoesOn(s) == Some(s')
    ensures s'.tail == s.tail && (s'.c.CAvail? || s'.c.CFlags? ==> s'.c.tail == LoadedTail(s))
  {
    match s.k {
      case KRaise(y) => match y { case Rd => case Wr => }
      case KScanned(y, _) => match y { case Rd => case Wr => }
      case KDrop(y, _, _) => match y { case Rd => case Wr => }
      case KReply(y, _, _) => match y { case Rd => case Wr => }
      case KKick(y) => match y { case Rd => case Wr => }
      case KClose(y) => match y { case Rd => case Wr => }
      case _ =>
    }
  }

  lemma NotifyTail(s: State, s': State)
    requires NotifyGoesOn(s) == Some(s')
    ensures s'.tail >= s.tail && (s'.tail > s.tail ==> s.k.KMove? && s.k.e == Wr)
    ensures s'.c.CAvail? || s'.c.CFlags? ==> s'.c.tail == LoadedTail(s)
  {
    match s.k {
      case KServe(y, _, _) => match y { case Rd => case Wr => }
      case KMove(y, _, _, _) => match y { case Rd => case Wr => }
      case KServed(y, _) => match y { case Rd => case Wr => }
      case KSelects(_) => if s.closing.Some? { match s.closing.value { case Rd => case Wr => } }
      case _ =>
    }
  }

  lemma {:induction false} SinceLoaded(s: State, run: seq<Step>, t: State)
    requires Reaches(s, run, t) && CReadIndices !in run
    ensures t.tail >= s.tail && (t.tail == s.tail <==> Steady(s, run))
    ensures t.c.CAvail? || t.c.CFlags? ==> t.c.tail == LoadedTail(s)
  {
    if run != [] {
      hide After;
      var k := |run| - 1;
      var before := run[..k];
      var m := Along(s, before).value;
      SinceLoaded(s, before, m);
      StepTail(m, run[k], t);
    }
  }

  /** The fast reader reports end of file from indices it loaded before the flag: b is what
      happens in between. No byte is left behind exactly when nothing was committed then. */
  lemma EndOfFileDrains(s: State, a: seq<Step>, m: State, b: seq<Step>, t: State, t': State)
    requires Initial(s) && Reaches(s, a, m) && Reaches(m, b, t) && CReadIndices !in b
    requires a != [] && a[|a| - 1] == CReadIndices
    requires After(t, CReadFlags) == Some(t') && t'.c == CIdle
    ensures Avail(t') == 0 <==> Steady(m, b)
  {
    hide After;
    AlongConcat(s, a, b);
    ReachableInv(s, a + b, t);
    SinceLoaded(m, b, t);
    EndsFromFlags(t, t');
    JustLoaded(s, a, m);
  }

  lemma EndsFromFlags(t: State, t': State)
    requires After(t, CReadFlags) == Some(t') && t'.c == CIdle
    ensures t.c.CFlags? && t'.tail == t.tail && t'.head == t.head
  {
  }

  lemma JustLoaded(s: State, run: seq<Step>, t: State)
    requires Reaches(s, run, t) && run != [] && run[|run| - 1] == CReadIndices
    ensures t.c.CAvail? && t.c.tail == t.tail
  {
  }

  const Fresh := Side(false, false, false, None)

  const Opened := State(PIPE_ATOMIC, 0, 0, Fresh, Fresh, PIdle, CIdle, KIdle, None)

  const ReaderLooks := [CRead(10), CReadIndices, CDecide]
  const WriterCopies := [PWrite(1), PReadFlags, PReadIndices, PDecide]
  const WriterCommits := [PStoreTail, PReadRwait]
  const WriterCloses := [PCloses, KTakeUp(Wr), KGoOn, KGoOn, KGoOn]
  const CloseAnswered := [KLook(Rd), KLook(Wr), KGoOn]

  const Looked := Opened.(c := CFlags(10, 0))
  const Copied := Looked.(p := PCommit(1, 1, PIPE_ATOMIC))
  const Committed := Looked.(tail := 1)
  const Closing := Committed.(p := PAsleep(Close, 0), w := Fresh.(gone := true), closing := Some(Wr), k := KSelects({Rd, Wr}))
  const Closed := Committed.(p := PGone, w := Fresh.(gone := true))

  lemma {:induction false} AlongConcat(s: State, a: seq<Step>, b: seq<Step>)
    requires Along(s, a).Some?
    ensures Along(s, a + b) == Along(Along(s, a).value, b)
  {
    hide After;
    if b == [] {
      assert a + b == a;
    } else {
      var k := |b| - 1;
      assert (a + b)[..|a| + k] == a + b[..k];
      AlongConcat(s, a, b[..k]);
    }
  }

  lemma OneMore(s: State, run: seq<Step>, k: nat, m: State, m': State)
    requires k < |run| && Along(s, run[..k]) == Some(m) && After(m, run[k]) == Some(m')
    ensures Along(s, run[..k + 1]) == Some(m')
  {
    hide After;
    assert run[..k + 1][..k] == run[..k];
  }

  lemma ReaderLooked()
    ensures Along(Opened, ReaderLooks) == Some(Looked)
  {
    assert Along(Opened, ReaderLooks[..0]) == Some(Opened);
    hide Along;
    OneMore(Opened, ReaderLooks, 0, Opened, Opened.(c := CLoad(10)));
    OneMore(Opened, ReaderLooks, 1, Opened.(c := CLoad(10)), Opened.(c := CAvail(10, 0, 0)));
    OneMore(Opened, ReaderLooks, 2, Opened.(c := CAvail(10, 0, 0)), Looked);
    assert ReaderLooks[..3] == ReaderLooks;
  }

  lemma WriterCopied()
    ensures Along(Looked, WriterCopies) == Some(Copied)
  {
    assert Along(Looked, WriterCopies[..0]) == Some(Looked);
    hide Along;
    OneMore(Looked, WriterCopies, 0, Looked, Looked.(p := PFlags(1)));
    OneMore(Looked, WriterCopies, 1, Looked.(p := PFlags(1)), Looked.(p := PLoad(1)));
    OneMore(Looked, WriterCopies, 2, Looked.(p := PLoad(1)), Looked.(p := PSpace(1, PIPE_ATOMIC)));
    OneMore(Looked, WriterCopies, 3, Looked.(p := PSpace(1, PIPE_ATOMIC)), Copied);
    assert WriterCopies[..4] == WriterCopies;
  }

  lemma WriterCommitted()
    ensures Along(Copied, WriterCommits) == Some(Committed)
  {
    assert Along(Copied, WriterCommits[..0]) == Some(Copied);
    hide Along;
    OneMore(Copied, WriterCommits, 0, Copied, Committed.(p := PCheck));
    OneMore(Copied, WriterCommits, 1, Committed.(p := PCheck), Committed);
    assert WriterCommits[..2] == WriterCommits;
  }

  lemma WriterClosed()
    ensures Along(Committed, WriterCloses) == Some(Closing)
  {
    assert Along(Committed, WriterCloses[..0]) == Some(Committed);
    hide Along;
    var asleep := Committed.(p := PAsleep(Close, 0));
    var gone := asleep.(w := Fresh.(gone := true), closing := Some(Wr));
    OneMore(Committed, WriterCloses, 0, Committed, asleep.(w := Fresh.(posted := true)));
    OneMore(Committed, WriterCloses, 1, asleep.(w := Fresh.(posted := true)), asleep.(k := KClose(Wr)));
    OneMore(Committed, WriterCloses, 2, asleep.(k := KClose(Wr)), gone.(k := KPass(Rd, false)));
    OneMore(Committed, WriterCloses, 3, gone.(k := KPass(Rd, false)), gone.(k := KPass(Wr, false)));
    OneMore(Committed, WriterCloses, 4, gone.(k := KPass(Wr, false)), Closing);
    assert WriterCloses[..5] == WriterCloses;
  }

  lemma CloseWasAnswered()
    ensures Along(Closing, CloseAnswered) == Some(Closed)
  {
    assert Along(Closing, CloseAnswered[..0]) == Some(Closing);
    hide Along;
    OneMore(Closing, CloseAnswered, 0, Closing, Closing.(k := KSelects({Rd, Wr} - {Rd})));
    OneMore(Closing, CloseAnswered, 1, Closing.(k := KSelects({Rd, Wr} - {Rd})), Closing.(k := KSelects({Rd, Wr} - {Rd} - {Wr})));
    assert {Rd, Wr} - {Rd} - {Wr} == {};
    OneMore(Closing, CloseAnswered, 2, Closing.(k := KSelects({Rd, Wr} - {Rd} - {Wr})), Closed);
    assert CloseAnswered[..3] == CloseAnswered;
  }

  /** The other case occurs: the writer commits a byte and closes between the two loads, and
      the reader reports end of file with that byte unread. */
  lemma EndOfFileTooEarly()
    ensures Initial(Opened)
    ensures Reaches(Opened, ReaderLooks + WriterCopies + WriterCommits + WriterCloses + CloseAnswered, Closed)
    ensures After(Closed, CReadFlags) == Some(Closed.(c := CIdle)) && Avail(Closed) == 1
  {
    hide Along;
    ReaderLooked();
    WriterCopied();
    WriterCommitted();
    WriterClosed();
    CloseWasAnswered();
    AlongConcat(Opened, ReaderLooks, WriterCopies);
    AlongConcat(Opened, ReaderLooks + WriterCopies, WriterCommits);
    AlongConcat(Opened, ReaderLooks + WriterCopies + WriterCommits, WriterCloses);
    AlongConcat(Opened, ReaderLooks + WriterCopies + WriterCommits + WriterCloses, CloseAnswered);
  }
}
