/** Block RPC between one process and the kernel. The process writes a request into its
    page, posts a message on a FIFO channel and sleeps on a doorbell word; the kernel
    answers through the page and rings. Signals arrive at any time and may turn a parked
    request into EINTR. Every load, store, message and futex operation is one step. */
module BlockRpc {
  import opened Wrappers

  type Signal = nat

  const WordSize := 0x1_0000_0000

  /** What a request is answered with; Interrupted names the request whose krpc-intr did it. */
  datatype Outcome = Result | Interrupted(sender: nat)
  datatype Reply = Reply(id: nat, outcome: Outcome)
  datatype Payload = Empty | Asks(id: nat) | Says(reply: Reply)
  datatype RpcState = RpcIdle | RpcRequest | RpcDone

  /** Messages carry no number in the program; here each remembers the request that was
      current when it was posted. */
  datatype Message = Krpc(id: nat) | Intr(id: nat)

  /** The kernel page. The doorbell word holds rings mod 2^32. */
  datatype Page = Page(payload: Payload, rpc: RpcState, rings: nat)

  /** KP_SIGPEND and KP_SIGBLOCK, with every signal newly posted and every one claimed. */
  datatype Signals = Signals(pend: set<Signal>, blocked: set<Signal>, posted: multiset<Signal>, claimed: multiset<Signal>)

  /** The request that is being made, or the next one. */
  datatype Current = Current(id: nat, interruptible: bool, sentIntr: bool)

  datatype Client =
    | Idle
    | SetRequest | PostKrpc
    | LoadBell | CheckDone(bell: nat) | CheckPending(bell: nat) | PostIntr(bell: nat) | Compare(bell: nat)
    | Asleep(bell: nat)
    | ReadReply | SetIdle(reply: Reply)
    | PollBlocked(pend: set<Signal>) | PollSwap(pend: set<Signal>, take: set<Signal>)

  /** Where the kernel stands; back is the request it goes back to after ringing. */
  datatype Kernel =
    | AtRest
    | Serving(id: nat)
    | Answering(reply: Reply)          // about to write the payload
    | SettingDone(reply: Reply)
    | Bumping(back: Option<nat>)       // about to add to the doorbell
    | Notifying(back: Option<nat>)

  /** pcb.waiter, or a request that completes later and cannot be cancelled. */
  datatype Pending = Nothing | Waiter(id: nat) | Busy(id: nat)

  datatype State = State(
    page: Page, sig: Signals, chan: seq<Message>, cur: Current, c: Client,
    k: Kernel, pending: Pending,
    answers: seq<Reply>,   // everything the kernel has answered
    got: seq<Reply>)       // everything the process has received

  ghost predicate Initial(s: State) {
    && s.page == Page(Empty, RpcIdle, 0) && s.chan == [] && s.c == Idle && s.k == AtRest
    && s.cur == Current(0, false, false) && s.pending == Nothing && s.answers == s.got == []
    && s.sig.pend == {} && s.sig.posted == s.sig.claimed == multiset{}
  }

  // ---- steps ------------------------------------------------------------------------------

  datatype Step =
    | Call(interruptible: bool) | GoOn | Poll | Mask(blocked: set<Signal>)
    | Take                          // the kernel takes the next message
    | Park | Defer | Respond        // what serving it leads to
    | Complete                      // an event ends a parked or deferred request
    | KernelGoesOn
    | Post(signal: Signal)          // _deliver posts a pending bit
    | Ring                          // any other event

  function Word(n: nat): nat { n % WordSize }

  function Deliverable(sig: Signals): set<Signal> { sig.pend - sig.blocked }

  /** One step of KernelClient._finish or sigpoll. */
  function ClientGoesOn(s: State): Option<State> {
    match s.c
    case Idle => None
    case SetRequest => Some(s.(page := s.page.(rpc := RpcRequest), c := PostKrpc))
    case PostKrpc => Some(s.(chan := s.chan + [Krpc(s.cur.id)], c := LoadBell))
    case LoadBell => Some(s.(c := CheckDone(s.page.rings)))
    case CheckDone(bell) => Some(s.(c := if s.page.rpc.RpcDone? then ReadReply else CheckPending(bell)))
    case CheckPending(bell) =>
      Some(if s.cur.interruptible && !s.cur.sentIntr && Deliverable(s.sig) != {}
           then s.(cur := s.cur.(sentIntr := true), c := PostIntr(bell)) else s.(c := Compare(bell)))
    case PostIntr(bell) => Some(s.(chan := s.chan + [Intr(s.cur.id)], c := Compare(bell)))
    case Compare(bell) => Some(s.(c := if Word(s.page.rings) == Word(bell) then Asleep(bell) else LoadBell))
    case Asleep(_) => None
    case ReadReply => if s.page.payload.Says? then Some(s.(c := SetIdle(s.page.payload.reply))) else None
    case SetIdle(reply) =>
      Some(s.(page := s.page.(rpc := RpcIdle), c := Idle, got := s.got + [reply], cur := Current(s.cur.id + 1, false, false)))
    case PollBlocked(pend) =>
      Some(s.(c := if pend - s.sig.blocked == {} then Idle else PollSwap(pend, pend - s.sig.blocked)))
    case PollSwap(pend, take) =>
      if s.sig.pend == pend then
        Some(s.(sig := s.sig.(pend := pend - take, claimed := s.sig.claimed + multiset(take)), c := Idle))
      else Some(s.(c := PollBlocked(s.sig.pend)))
  }

  /** One step of _respond or _ring. */
  function KernelStep(s: State): Option<State> {
    match s.k
    case Answering(reply) => Some(s.(page := s.page.(payload := Says(reply)), k := SettingDone(reply)))
    case SettingDone(reply) =>
      Some(s.(page := s.page.(rpc := RpcDone), k := Bumping(None), answers := s.answers + [reply]))
    case Bumping(back) => Some(s.(page := s.page.(rings := s.page.rings + 1), k := Notifying(back)))
    case Notifying(back) =>
      Some(s.(k := if back.Some? then Serving(back.value) else AtRest, c := if s.c.Asleep? then LoadBell else s.c))
    case _ => None
  }

  /** _onWorkerMessage. */
  function TakeMessage(s: State): Option<State> {
    if !s.k.AtRest? || s.chan == [] then None else
    var rest := s.(chan := s.chan[1..]);
    match s.chan[0]
    case Krpc(_) =>
      if s.page.rpc.RpcRequest? && s.page.payload.Asks? then Some(rest.(k := Serving(s.page.payload.id))) else Some(rest)
    case Intr(sender) =>
      if s.pending.Waiter? then Some(rest.(pending := Nothing, k := Answering(Reply(s.pending.id, Interrupted(sender))))) else Some(rest)
  }

  function Back(k: Kernel): Option<nat> { if k.Serving? then Some(k.id) else None }

  function After(s: State, e: Step): Option<State> {
    match e
    case Call(interruptible) =>
      if !s.c.Idle? then None else
      Some(s.(page := s.page.(payload := Asks(s.cur.id)), cur := Current(s.cur.id, interruptible, false), c := SetRequest))
    case GoOn => ClientGoesOn(s)
    case Poll => if s.c.Idle? then Some(s.(c := PollBlocked(s.sig.pend))) else None
    case Mask(blocked) => if s.c.Idle? then Some(s.(sig := s.sig.(blocked := blocked))) else None
    case Take => TakeMessage(s)
    case Park => if s.k.Serving? then Some(s.(pending := Waiter(s.k.id), k := AtRest)) else None
    case Defer => if s.k.Serving? then Some(s.(pending := Busy(s.k.id), k := AtRest)) else None
    case Respond => if s.k.Serving? then Some(s.(k := Answering(Reply(s.k.id, Result)))) else None
    case Complete =>
      if s.k.AtRest? && !s.pending.Nothing? then Some(s.(pending := Nothing, k := Answering(Reply(s.pending.id, Result)))) else None
    case KernelGoesOn => KernelStep(s)
    case Post(signal) =>
      if !(s.k.AtRest? || s.k.Serving?) then None else
      Some(s.(sig := s.sig.(pend := s.sig.pend + {signal},
                            posted := s.sig.posted + multiset({signal} - s.sig.pend)),
              k := Bumping(Back(s.k))))
    case Ring => if s.k.AtRest? || s.k.Serving? then Some(s.(k := Bumping(Back(s.k)))) else None
  }

  // ---- what every step keeps -------------------------------------------------------------

  /** The process is waiting for the answer to a request it has announced in the page. */
  ghost predicate Waits(c: Client) {
    c.LoadBell? || c.CheckDone? || c.CheckPending? || c.PostIntr? || c.Compare? || c.Asleep? || c.ReadReply? || c.SetIdle?
  }

  /** The kernel has taken up request id and not answered it. */
  ghost predicate InKernel(s: State, id: nat) {
    || (s.k.Serving? && s.k.id == id)
    || ((s.k.Answering? || s.k.SettingDone?) && s.k.reply.id == id)
    || ((s.k.Bumping? || s.k.Notifying?) && s.k.back == Some(id))
    || (!s.pending.Nothing? && s.pending.id == id)
  }

  /** The kernel is at work on some request. */
  ghost predicate Engaged(k: Kernel) {
    k.Serving? || k.Answering? || k.SettingDone? || ((k.Bumping? || k.Notifying?) && k.back.Some?)
  }

  /** The kernel is still deciding what to do with a request. */
  ghost predicate Undecided(k: Kernel) {
    k.Serving? || ((k.Bumping? || k.Notifying?) && k.back.Some?)
  }

  function Key(m: Message): nat { if m.Krpc? then 2 * m.id else 2 * m.id + 1 }

  /** Messages are queued in the order of their requests, each before its interruption. */
  ghost predicate Sorted(chan: seq<Message>) {
    forall i, j :: 0 <= i < j < |chan| ==> Key(chan[i]) < Key(chan[j])
  }

  /** Where the current request stands: exactly one of announced, queued, in the kernel, answered. */
  ghost predicate Stages(s: State) {
    var id := s.cur.id;
    && (!s.pending.Nothing? ==> !Engaged(s.k) && s.pending.id == id)
    && (Engaged(s.k) ==> InKernel(s, id))
    && (s.c.SetRequest? || s.c.PostKrpc? ==> s.page.payload == Asks(id))
    && (s.c.PostKrpc? ==> s.page.rpc.RpcRequest?)
    && (Krpc(id) in s.chan || InKernel(s, id) ==> Waits(s.c) && s.page.rpc.RpcRequest? && !s.c.ReadReply? && !s.c.SetIdle?)
    && (Krpc(id) in s.chan ==> s.page.payload == Asks(id) && !InKernel(s, id))
    && (Waits(s.c) ==> Krpc(id) in s.chan || InKernel(s, id) || s.page.rpc.RpcDone?)
    && (s.c.ReadReply? || s.c.SetIdle? ==> s.page.rpc.RpcDone?)
    && (s.page.rpc.RpcDone? ==> Waits(s.c))
    && (s.k.SettingDone? ==> s.page.payload == Says(s.k.reply))
    && (s.page.rpc.RpcDone? ==> s.answers != [] && s.page.payload == Says(s.answers[|s.answers| - 1]))
    && (s.c.SetIdle? ==> s.page.payload == Says(s.c.reply))
  }

  /** What the two sides have said and heard. */
  ghost predicate Answered(s: State) {
    && |s.got| == s.cur.id
    && |s.answers| == s.cur.id + (if s.page.rpc.RpcDone? then 1 else 0)
    && s.got == s.answers[..s.cur.id]
    && (forall i :: 0 <= i < |s.answers| ==> s.answers[i].id == i)
    && (forall i :: 0 <= i < |s.answers| && s.answers[i].outcome.Interrupted? ==> s.answers[i].outcome.sender == i)
    && (s.k.Answering? || s.k.SettingDone? ==> s.k.reply.outcome.Interrupted? ==> s.k.reply.outcome.sender == s.k.reply.id)
  }

  ghost predicate Queued(s: State) {
    && Sorted(s.chan)
    && (forall m :: m in s.chan ==> m.id <= s.cur.id)
    && (forall m :: m in s.chan && m.Krpc? ==> m.id == s.cur.id)
    && (forall m :: m in s.chan && m.id < s.cur.id ==> !InKernel(s, s.cur.id))
    && (Intr(s.cur.id) in s.chan ==> s.cur.sentIntr && !s.c.PostIntr?)
    && (s.cur.sentIntr ==> Waits(s.c))
    && (s.c.PostIntr? ==> s.cur.sentIntr)
    && (s.cur.sentIntr && !s.c.PostIntr? && (s.pending.Waiter? || Krpc(s.cur.id) in s.chan || Undecided(s.k)) ==> Intr(s.cur.id) in s.chan)
  }

  /** What a process waiting in an RPC sleeps for has happened. */
  ghost predicate WakeDue(s: State) {
    s.page.rpc.RpcDone? || (s.cur.interruptible && !s.cur.sentIntr && Deliverable(s.sig) != {})
  }

  /** The doorbell word has gone all the way round since the process loaded it. */
  ghost predicate WentRound(s: State, bell: nat) { bell + WordSize <= s.page.rings }

  ghost predicate Awake(s: State) {
    && (s.c.CheckDone? || s.c.CheckPending? || s.c.PostIntr? || s.c.Compare? || s.c.Asleep? ==> s.c.bell <= s.page.rings)
    && (s.c.CheckPending? && s.page.rpc.RpcDone? ==> s.k.Bumping? || s.c.bell < s.page.rings)
    && (s.c.PostIntr? && s.page.rpc.RpcDone? ==> s.k.Bumping? || s.c.bell < s.page.rings)
    && (s.c.Compare? && WakeDue(s) ==> s.k.Bumping? || s.c.bell < s.page.rings)
    && (s.c.Asleep? && WakeDue(s) ==> s.k.Bumping? || s.k.Notifying? || WentRound(s, s.c.bell))
  }

  ghost predicate SignalsKept(s: State) {
    && s.sig.posted == s.sig.claimed + multiset(s.sig.pend)
    && (s.c.PollSwap? ==> s.c.take == s.c.pend - s.sig.blocked != {})
  }

  ghost predicate Inv(s: State) {
    Stages(s) && Answered(s) && Queued(s) && Awake(s) && SignalsKept(s)
  }

  lemma Popped(chan: seq<Message>)
    requires Sorted(chan) && chan != []
    ensures Sorted(chan[1..])
    ensures chan[0] !in chan[1..]
    ensures forall m :: m in chan <==> m == chan[0] || m in chan[1..]
    ensures forall i :: 0 <= i < |chan[1..]| ==> chan[1..][i] in chan && Key(chan[0]) < Key(chan[1..][i])
  {
    forall i | 0 <= i < |chan[1..]| ensures chan[1..][i] in chan && Key(chan[0]) < Key(chan[1..][i]) {
      assert chan[1..][i] == chan[i + 1];
    }
    forall m | m in chan && m != chan[0] ensures m in chan[1..] {
      var i :| 0 <= i < |chan| && chan[i] == m;
      assert chan[1..][i - 1] == m;
    }
  }

  lemma ClientKeepsStages(s: State, s': State)
    requires Inv(s) && ClientGoesOn(s) == Some(s')
    ensures Stages(s')
  {
    hide Answered, Awake, SignalsKept, Deliverable, Sorted;
    match s.c { case SetIdle(_) => case PostKrpc => case _ => }
  }

  lemma TakeKeepsStages(s: State, s': State)
    requires Inv(s) && TakeMessage(s) == Some(s')
    ensures Stages(s')
  {
    hide Answered, Awake, SignalsKept, Deliverable;
    Popped(s.chan);
  }

  lemma StepKeepsStages(s: State, e: Step, s': State)
    requires Inv(s) && After(s, e) == Some(s')
    ensures Stages(s')
  {
    hide Answered, Awake, SignalsKept, Deliverable, Queued, ClientGoesOn, TakeMessage;
    match e {
      case Take => TakeKeepsStages(s, s');
      case GoOn => ClientKeepsStages(s, s');
      case KernelGoesOn => match s.k { case Answering(_) => case SettingDone(_) => case _ => }
      case _ =>
    }
  }

  lemma StepKeepsAnswered(s: State, e: Step, s': State)
    requires Inv(s) && After(s, e) == Some(s')
    ensures Answered(s')
  {
    hide Awake, SignalsKept, Sorted;
    match e
    case GoOn => if s.c.SetIdle? { GotOne(s, s'); }
    case KernelGoesOn => if s.k.SettingDone? { SaidOne(s, s'); }
    case _ =>
  }

  /** The process has received the current answer. */
  lemma GotOne(s: State, s': State)
    requires Stages(s) && Answered(s) && s.c.SetIdle? && ClientGoesOn(s) == Some(s')
    ensures Answered(s')
  {
    assert s.answers[..s.cur.id + 1] == s.answers[..s.cur.id] + [s.answers[s.cur.id]];
  }

  /** The kernel has given the current answer. */
  lemma SaidOne(s: State, s': State)
    requires Stages(s) && Answered(s) && s.k.SettingDone? && KernelStep(s) == Some(s')
    ensures Answered(s')
  {
  }

  lemma TakeKeepsQueued(s: State, s': State)
    requires Inv(s) && After(s, Take) == Some(s')
    ensures Queued(s')
  {
    hide Answered, Awake, SignalsKept;
    Popped(s.chan);
  }

  lemma PostKeepsQueued(s: State, s': State)
    requires Inv(s) && (s.c.PostKrpc? || s.c.PostIntr?) && After(s, GoOn) == Some(s')
    ensures Queued(s')
  {
    hide Answered, Awake, SignalsKept;
  }

  lemma StepKeepsQueued(s: State, e: Step, s': State)
    requires Inv(s) && !e.Take? && !(e.GoOn? && (s.c.PostKrpc? || s.c.PostIntr?)) && After(s, e) == Some(s')
    ensures Queued(s')
  {
    hide Answered, Awake, SignalsKept;
    hide Sorted;
  }

  lemma StepKeepsAwake(s: State, e: Step, s': State)
    requires Inv(s) && After(s, e) == Some(s')
    ensures Awake(s')
  {
    hide Answered, SignalsKept;
  }

  lemma PostedBits(sig: Signals, signal: Signal)
    requires sig.posted == sig.claimed + multiset(sig.pend)
    ensures sig.posted + multiset({signal} - sig.pend) == sig.claimed + multiset(sig.pend + {signal})
  {
  }

  lemma ClaimedBits(sig: Signals, take: set<Signal>)
    requires sig.posted == sig.claimed + multiset(sig.pend) && take <= sig.pend
    ensures sig.posted == sig.claimed + multiset(take) + multiset(sig.pend - take)
  {
  }

  /** Other steps leave the signals alone, or the word at least. */
  lemma SignalsAside(s: State, e: Step, s': State)
    requires Inv(s) && After(s, e) == Some(s') && !e.Post? && !(e.GoOn? && s.c.PollSwap?)
    ensures SignalsKept(s')
  {
    hide Stages, Answered, Queued, Awake;
  }

  lemma StepKeepsSignals(s: State, e: Step, s': State)
    requires Inv(s) && After(s, e) == Some(s')
    ensures SignalsKept(s')
  {
    hide Stages, Answered, Queued, Awake;
    if e.Post? {
      PostedBits(s.sig, e.signal);
    } else if e.GoOn? && s.c.PollSwap? {
      if s.sig.pend == s.c.pend { ClaimedBits(s.sig, s.c.take); }
    } else {
      SignalsAside(s, e, s');
    }
  }

  lemma StepKeepsInv(s: State, e: Step, s': State)
    requires Inv(s) && After(s, e) == Some(s')
    ensures Inv(s')
  {
    StepKeepsStages(s, e, s');
    StepKeepsAnswered(s, e, s');
    StepKeepsAwake(s, e, s');
    StepKeepsSignals(s, e, s');
    hide Stages, Answered, Awake, SignalsKept, Queued;
    if e.Take? {
      TakeKeepsQueued(s, s');
    } else if e.GoOn? && (s.c.PostKrpc? || s.c.PostIntr?) {
      PostKeepsQueued(s, s');
    } else {
      StepKeepsQueued(s, e, s');
    }
  }

  // ---- whole runs -------------------------------------------------------------------------

  /** The state after the steps of run, if they can all be taken. */
  function Along(s: State, run: seq<Step>): Option<State> {
    if run == [] then Some(s) else
    var before := Along(s, run[..|run| - 1]);
    if before.None? then None else After(before.value, run[|run| - 1])
  }

  ghost predicate Reachable(t: State) {
    exists s, run :: Initial(s) && Along(s, run) == Some(t)
  }

  lemma {:induction false} RunKeepsInv(s: State, run: seq<Step>, t: State)
    requires Inv(s) && Along(s, run) == Some(t)
    ensures Inv(t)
  {
    if run != [] {
      hide Inv, After;
      var m := Along(s, run[..|run| - 1]).value;
      RunKeepsInv(s, run[..|run| - 1], m);
      StepKeepsInv(m, run[|run| - 1], t);
    }
  }

  lemma ReachableInv(t: State)
    requires Reachable(t)
    ensures Inv(t)
  {
    var s, run :| Initial(s) && Along(s, run) == Some(t);
    RunKeepsInv(s, run, t);
  }

  /** Every request gets exactly one answer, in order; what the process receives is what
      the kernel said, with at most the current answer still to be received. */
  lemma OneAnswerEach(s: State)
    requires Reachable(s)
    ensures forall i :: 0 <= i < |s.answers| ==> s.answers[i].id == i
    ensures s.got <= s.answers && |s.answers| <= |s.got| + 1
    ensures |s.got| == s.cur.id
    ensures Waits(s.c) && !s.c.ReadReply? && !s.c.SetIdle? && |s.answers| == |s.got| ==> Krpc(s.cur.id) in s.chan || InKernel(s, s.cur.id)
  {
    ReachableInv(s);
  }

  /** A krpc-intr only ever interrupts the request that sent it. */
  lemma InterruptsOnlyItsOwn(s: State, s': State)
    requires Reachable(s) && After(s, Take) == Some(s') && s.chan[0].Intr? && s.pending.Waiter?
    ensures s.chan[0].id == s.pending.id == s.cur.id && s.cur.sentIntr
  {
    ReachableInv(s);
    assert s.chan[0] in s.chan;
  }

  lemma InterruptedBySelf(s: State, i: nat)
    requires Reachable(s) && i < |s.got| && s.got[i].outcome.Interrupted?
    ensures s.got[i].outcome.sender == i
  {
    ReachableInv(s);
  }

  /** A process asleep in an RPC has nothing to wake for, unless the kernel is between its
      store and its ring, or the doorbell word has gone all the way round meanwhile. */
  lemma SleepsOnlyWithReason(s: State)
    requires Reachable(s) && s.c.Asleep? && !WentRound(s, s.c.bell)
    ensures s.page.rpc.RpcDone? || (s.cur.interruptible && !s.cur.sentIntr && s.sig.pend - s.sig.blocked != {}) ==>
      s.k.Bumping? || s.k.Notifying?
  {
    ReachableInv(s);
  }

  /** A process that compares with its wake due and no ring to come falls asleep exactly when
      the doorbell has been rung a whole number of rounds since it loaded the word. */
  lemma OversleepsExactly(s: State, s': State)
    requires Reachable(s) && s.c.Compare? && !s.k.Bumping? && After(s, GoOn) == Some(s')
    requires s.page.rpc.RpcDone? || (s.cur.interruptible && !s.cur.sentIntr && s.sig.pend - s.sig.blocked != {})
    ensures s.c.bell < s.page.rings
    ensures s'.c.Asleep? <==> (s.page.rings - s.c.bell) % WordSize == 0
  {
    ReachableInv(s);
    SameWord(s.page.rings, s.c.bell);
  }

  lemma SameWord(a: nat, b: nat)
    requires b <= a
    ensures Word(a) == Word(b) <==> (a - b) % WordSize == 0
  {
    assert a == WordSize * (a / WordSize) + Word(a) && b == WordSize * (b / WordSize) + Word(b);
  }

  /** With the kernel at rest and no message queued, a sleeping process is parked in the
      kernel, has sent no interruption, and has no signal to deliver if it would mind one. */
  lemma QuietSleep(s: State)
    requires Reachable(s) && s.c.Asleep? && !WentRound(s, s.c.bell) && s.k.AtRest? && s.chan == []
    ensures !s.pending.Nothing? && s.pending.id == s.cur.id
    ensures s.pending.Waiter? ==> !s.cur.sentIntr && (s.cur.interruptible ==> s.sig.pend - s.sig.blocked == {})
  {
    ReachableInv(s);
  }

  /** The interruption of a parked request is never lost: it is still queued. */
  lemma InterruptionQueued(s: State)
    requires Reachable(s) && s.pending.Waiter? && s.cur.sentIntr && !s.c.PostIntr?
    ensures Intr(s.cur.id) in s.chan
  {
    ReachableInv(s);
  }

  /** No signal is lost or claimed twice, and a blocked one is never claimed. */
  lemma SignalsConserved(s: State)
    requires Reachable(s)
    ensures s.sig.posted == s.sig.claimed + multiset(s.sig.pend)
  {
    ReachableInv(s);
  }

  /** A poll that ends by its swap claims exactly what was deliverable and leaves nothing
      deliverable behind; one that ends without found nothing deliverable in the word it had
      loaded; and nothing else claims or clears a signal. */
  lemma PollClaims(s: State, e: Step, s': State)
    requires Reachable(s) && After(s, e) == Some(s')
    ensures s.c.PollSwap? && s'.c.Idle? ==>
      && s'.sig.claimed == s.sig.claimed + multiset(s.sig.pend - s.sig.blocked) && s.sig.pend - s.sig.blocked != {}
      && s'.sig.pend == s.sig.pend * s.sig.blocked && s'.sig.pend - s'.sig.blocked == {}
    ensures s.c.PollBlocked? && s'.c.Idle? ==> s.c.pend - s.sig.blocked == {} && s'.sig == s.sig
    ensures !(s.c.PollSwap? && s'.c.Idle?) ==> s'.sig.claimed == s.sig.claimed && s.sig.pend <= s'.sig.pend
    ensures e.Poll? ==> s'.c == PollBlocked(s.sig.pend)
  {
    ReachableInv(s);
    hide Stages, Answered, Queued, Awake;
  }

  // ---- when the doorbell word goes all the way round ----------------------------------------

  lemma OneStepOn(s: State, e: Step, t: State)
    requires Reachable(s) && After(s, e) == Some(t)
    ensures Reachable(t)
  {
    hide After;
    var s0, run :| Initial(s0) && Along(s0, run) == Some(s);
    assert (run + [e])[..|run|] == run;
    assert Along(s0, run + [e]) == Some(t);
  }

  function Rung(s: State, n: nat): State { s.(page := s.page.(rings := s.page.rings + n)) }

  lemma {:induction false} OtherEvents(s: State, n: nat)
    requires Reachable(s) && s.k.AtRest? && !s.c.Asleep?
    ensures Reachable(Rung(s, n))
  {
    hide Reachable;
    if n > 0 {
      OtherEvents(s, n - 1);
      var t := Rung(s, n - 1);
      OneStepOn(t, Ring, t.(k := Bumping(None)));
      OneStepOn(t.(k := Bumping(None)), KernelGoesOn, Rung(s, n).(k := Notifying(None)));
      OneStepOn(Rung(s, n).(k := Notifying(None)), KernelGoesOn, Rung(s, n));
    }
  }

  /** A process about to compare, while its request is parked. */
  ghost predicate AboutToSleep(s: State) {
    s.c == Compare(s.page.rings) && s.k.AtRest? && s.pending.Waiter?
  }

  /** Asleep with its request answered and the kernel at rest. */
  ghost predicate Overslept(s: State) {
    s.c.Asleep? && s.page.rpc.RpcDone? && s.k.AtRest? && s.pending.Nothing?
  }

  /** Only the ring of some other event wakes a process that has overslept. */
  lemma {:induction false} OversleepsUntilRung(s: State, run: seq<Step>, t: State)
    requires Overslept(s) && Along(s, run) == Some(t)
    ensures Overslept(t) || Ring in run || exists signal :: Post(signal) in run
  {
    if run != [] {
      var k := |run| - 1;
      var m := Along(s, run[..k]).value;
      OversleepsUntilRung(s, run[..k], m);
      assert run[k] in run;
      if run[k].Post? { assert Post(run[k].signal) in run; }
    }
  }

  /** The exception is real: 2^32 rings between a process's load of the doorbell and its
      compare, the last of them for its answer, leave it asleep until some other event rings. */
  lemma RoundTripLosesWake(s: State)
    requires Reachable(s) && AboutToSleep(s)
    ensures exists t :: Reachable(t) && Overslept(t) && t.cur == s.cur && t.chan == s.chan
  {
    hide Reachable;
    var bell := s.page.rings;
    OtherEvents(s, WordSize - 1);
    var a := Rung(s, WordSize - 1);
    var reply := Reply(s.pending.id, Result);
    var b := a.(pending := Nothing, k := Answering(reply));
    OneStepOn(a, Complete, b);
    var c := b.(page := b.page.(payload := Says(reply)), k := SettingDone(reply));
    OneStepOn(b, KernelGoesOn, c);
    var d := c.(page := c.page.(rpc := RpcDone), k := Bumping(None), answers := c.answers + [reply]);
    OneStepOn(c, KernelGoesOn, d);
    var e := Rung(d, 1).(k := Notifying(None));
    OneStepOn(d, KernelGoesOn, e);
    var f := e.(k := AtRest);
    OneStepOn(e, KernelGoesOn, f);
    assert Word(bell + WordSize) == Word(bell);
    OneStepOn(f, GoOn, f.(c := Asleep(bell)));
  }

  const NoSignals := Signals({}, {}, multiset{}, multiset{})
  const Fresh := State(Page(Empty, RpcIdle, 0), NoSignals, [], Current(0, false, false), Idle, AtRest, Nothing, [], [])
  const Asked := Fresh.(page := Page(Asks(0), RpcRequest, 0), chan := [Krpc(0)], c := LoadBell)

  lemma RequestIsPosted()
    ensures Reachable(Asked)
  {
    assert Initial(Fresh) && Along(Fresh, []) == Some(Fresh);
    assert Reachable(Fresh);
    hide Reachable;
    var b := Fresh.(page := Page(Asks(0), RpcIdle, 0), c := SetRequest);
    OneStepOn(Fresh, Call(false), b);
    var c := b.(page := Page(Asks(0), RpcRequest, 0), c := PostKrpc);
    OneStepOn(b, GoOn, c);
    assert [] + [Krpc(0)] == [Krpc(0)];
    OneStepOn(c, GoOn, Asked);
  }

  lemma SomeProcessIsAboutToSleep() returns (s: State)
    ensures Reachable(s) && AboutToSleep(s)
  {
    hide Reachable;
    RequestIsPosted();
    OneStepOn(Asked, GoOn, Asked.(c := CheckDone(0)));
    OneStepOn(Asked.(c := CheckDone(0)), GoOn, Asked.(c := CheckPending(0)));
    OneStepOn(Asked.(c := CheckPending(0)), GoOn, Asked.(c := Compare(0)));
    var e := Asked.(c := Compare(0), chan := [], k := Serving(0));
    assert [Krpc(0)][1..] == [];
    OneStepOn(Asked.(c := Compare(0)), Take, e);
    s := e.(pending := Waiter(0), k := AtRest);
    OneStepOn(e, Park, s);
  }
}
