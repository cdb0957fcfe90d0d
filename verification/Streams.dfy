/** Brokered streams: one direction of a pipe, socket or pty, whose bytes the kernel keeps
    in a buffer. Reads and writes that cannot proceed park their process in a queue;
    _pipeNotify serves the queues whenever something has moved. */
module Streams {
  import opened Wrappers

  type Pid = nat
  type Byte = bv8

  const PIPE_ATOMIC := 512
  const Newline: Byte := 10
  const Return: Byte := 13

  /** A request; pty carries the byte count a pty writer is to be told, whose data must
      land as a whole. */
  datatype Request = Read(count: nat) | Write(data: seq<Byte>, pty: Option<nat>)

  datatype Errno = EPIPE | EIO | EINTR

  /** What the kernel answers; EPIPE comes with a SIGPIPE. Landed is what of a write entered
      the stream. */
  datatype Event =
    | Gave(pid: Pid, bytes: seq<Byte>)
    | Took(pid: Pid, landed: seq<Byte>, reported: nat)
    | Refused(pid: Pid, errno: Errno)
    | Echoed(bytes: seq<Byte>)

  datatype View = View(
    cap: nat, buf: seq<Byte>, rOpen: bool, wOpen: bool,
    readers: seq<Pid>, writers: seq<Pid>,
    waiter: map<Pid, Request>)       // every request not yet answered

  function Min(a: nat, b: nat): nat { if a < b then a else b }

  function Free(v: View): int { v.cap - |v.buf| }

  /** A write has to wait. */
  predicate Blocked(v: View, r: Request)
    requires r.Write?
  {
    Free(v) == 0 || (|r.data| <= PIPE_ATOMIC && |r.data| > Free(v)) || (r.pty.Some? && |r.data| > Free(v))
  }

  /** A write can land now; an empty pty write does even when there is no room. */
  predicate Lands(v: View, r: Request)
    requires r.Write?
  {
    if r.pty.Some? then |r.data| <= Free(v) else !Blocked(v, r)
  }

  /** The part of a write that lands. */
  function Landing(v: View, r: Request): seq<Byte>
    requires r.Write?
  {
    if r.pty.Some? || |r.data| <= Free(v) then r.data else if Free(v) <= 0 then [] else r.data[..Free(v)]
  }

  /** _cancelWaiter: pid is no longer parked. */
  function Forget(v: View, pid: Pid): View {
    v.(readers := Without(v.readers, pid), writers := Without(v.writers, pid), waiter := v.waiter - {pid})
  }

  // ---- what an answer means --------------------------------------------------------------------

  /** A queue is served from its front. */
  ghost predicate InTurn(q: seq<Pid>, pid: Pid) { pid in q ==> q[0] == pid }

  /** The answer is right for the stream as it stands. */
  ghost predicate Justified(v: View, e: Event) {
    match e
    case Gave(pid, bytes) =>
      && pid in v.waiter && v.waiter[pid].Read? && InTurn(v.readers, pid)
      && (|v.buf| > 0 || !v.wOpen || v.waiter[pid].count == 0)
      && |bytes| == Min(v.waiter[pid].count, |v.buf|) && bytes <= v.buf
    case Took(pid, landed, reported) =>
      && pid in v.waiter && v.waiter[pid].Write? && InTurn(v.writers, pid)
      && v.rOpen && Lands(v, v.waiter[pid]) && landed == Landing(v, v.waiter[pid])
      && reported == (if v.waiter[pid].pty.Some? then v.waiter[pid].pty.value else |landed|)
    case Refused(pid, errno) =>
      && pid in v.waiter
      && (errno != EINTR ==>
            && v.waiter[pid].Write? && (!v.rOpen || !v.wOpen) && InTurn(v.writers, pid)
            && errno == (if v.waiter[pid].pty.Some? then EIO else EPIPE))
    case Echoed(bytes) => true
  }

  /** An answer that serving a queue gives: an interruption and an echo come from elsewhere. */
  predicate Service(e: Event) { !e.Echoed? && (e.Refused? ==> e.errno != EINTR) }

  /** From the n-th on, all events are. */
  predicate AllService(events: seq<Event>, n: nat) { forall i :: n <= i < |events| ==> Service(events[i]) }

  function Effect(v: View, e: Event): View {
    match e
    case Gave(pid, bytes) => Forget(v.(buf := if |bytes| <= |v.buf| then v.buf[|bytes|..] else []), pid)
    case Took(pid, landed, _) => Forget(v.(buf := v.buf + landed), pid)
    case Refused(pid, _) => Forget(v, pid)
    case Echoed(bytes) => v.(buf := v.buf + bytes)
  }

  /** Where the events lead from v, if each is right when it happens. */
  ghost function Replay(v: View, events: seq<Event>): Option<View> {
    if events == [] then Some(v) else
    var m := Replay(v, events[..|events| - 1]);
    var e := events[|events| - 1];
    if m.Some? && Justified(m.value, e) then Some(Effect(m.value, e)) else None
  }

  lemma OneMore(v: View, events: seq<Event>, m: View, e: Event)
    requires Replay(v, events) == Some(m) && Justified(m, e)
    ensures Replay(v, events + [e]) == Some(Effect(m, e))
  {
    assert (events + [e])[..|events|] == events;
  }

  lemma {:induction false} ReplayTwice(v: View, a: seq<Event>, m: View, b: seq<Event>, w: View)
    requires Replay(v, a) == Some(m) && Replay(m, b) == Some(w)
    ensures Replay(v, a + b) == Some(w)
  {
    hide Justified, Effect;
    if b == [] {
      assert a + b == a;
    } else {
      var k := |b| - 1;
      assert (a + b)[..|a| + k] == a + b[..k];
      ReplayTwice(v, a, m, b[..k], Replay(m, b[..k]).value);
    }
  }

  function Out(e: Event): seq<Byte> { if e.Gave? then e.bytes else [] }
  function In(e: Event): seq<Byte> { if e.Took? then e.landed else if e.Echoed? then e.bytes else [] }

  function Delivered(events: seq<Event>): seq<Byte> {
    if events == [] then [] else Delivered(events[..|events| - 1]) + Out(events[|events| - 1])
  }

  function Accepted(events: seq<Event>): seq<Byte> {
    if events == [] then [] else Accepted(events[..|events| - 1]) + In(events[|events| - 1])
  }

  lemma EffectConserves(v: View, e: Event)
    requires Justified(v, e)
    ensures Out(e) + Effect(v, e).buf == v.buf + In(e)
  {
  }

  lemma Regroup<T>(a: seq<T>, o: seq<T>, w: seq<T>, m: seq<T>, v: seq<T>, c: seq<T>, i: seq<T>)
    requires a + m == v + c && o + w == m + i
    ensures (a + o) + w == v + (c + i)
  {
    calc {
      (a + o) + w;
      a + (o + w);
      (a + m) + i;
      v + (c + i);
    }
  }

  /** Bytes are neither lost, made up, nor reordered: what was delivered followed by what
      is buffered is what was buffered followed by what was accepted. */
  lemma {:induction false} BytesConserved(v: View, events: seq<Event>, w: View)
    requires Replay(v, events) == Some(w)
    ensures Delivered(events) + w.buf == v.buf + Accepted(events)
  {
    if events != [] {
      hide Justified, Effect;
      var before, e := events[..|events| - 1], events[|events| - 1];
      var m := Replay(v, before).value;
      BytesConserved(v, before, m);
      EffectConserves(m, e);
      Regroup(Delivered(before), Out(e), w.buf, m.buf, v.buf, Accepted(before), In(e));
    }
  }

  lemma Appended(events: seq<Event>, e: Event, buf: seq<Byte>, after: seq<Byte>)
    requires Delivered(events) + buf == Accepted(events) && Out(e) + after == buf + In(e)
    ensures Delivered(events + [e]) + after == Accepted(events + [e])
  {
    assert (events + [e])[..|events|] == events;
    assert [] + Accepted(events) == Accepted(events) && [] + (Accepted(events) + In(e)) == Accepted(events) + In(e);
    Regroup(Delivered(events), Out(e), after, buf, [], Accepted(events), In(e));
  }

  /** A write of at most PIPE_ATOMIC bytes, and any pty write, lands as a whole; no write
      overfills a pipe. */
  lemma WritesLandWhole(v: View, e: Event)
    requires Justified(v, e) && e.Took?
    requires v.waiter[e.pid].pty.Some? || |v.buf| <= v.cap
    ensures |v.waiter[e.pid].data| <= PIPE_ATOMIC || v.waiter[e.pid].pty.Some? ==> e.landed == v.waiter[e.pid].data
    ensures e.landed <= v.waiter[e.pid].data && |Effect(v, e).buf| <= v.cap
    ensures e.landed == [] ==> v.waiter[e.pid].data == []
  {
  }

  /** A read is answered with a prefix of the stream, as long as asked for unless the stream
      ends; nothing is given only at end of file or to a read of nothing. */
  lemma GaveMeans(v: View, pid: Pid, bytes: seq<Byte>)
    requires Justified(v, Gave(pid, bytes))
    ensures pid in v.waiter && v.waiter[pid].Read? && (pid in v.readers ==> v.readers[0] == pid)
    ensures bytes + Effect(v, Gave(pid, bytes)).buf == v.buf && |bytes| <= v.waiter[pid].count
    ensures |bytes| == v.waiter[pid].count || bytes == v.buf
    ensures bytes == [] <==> v.waiter[pid].count == 0 || (v.buf == [] && !v.wOpen)
  {
  }

  /** A write enters the stream at its end, and is cut short only if it is large, no pty's,
      and fills the stream; a pty's writer is told its own count, any other what landed. */
  lemma TookMeans(v: View, pid: Pid, landed: seq<Byte>, reported: nat)
    requires Justified(v, Took(pid, landed, reported))
    requires v.waiter[pid].pty.Some? || |v.buf| <= v.cap
    ensures v.rOpen && pid in v.waiter && v.waiter[pid].Write? && (pid in v.writers ==> v.writers[0] == pid)
    ensures landed <= v.waiter[pid].data && Effect(v, Took(pid, landed, reported)).buf == v.buf + landed
    ensures landed == v.waiter[pid].data || (v.waiter[pid].pty.None? && |landed| > 0 && |v.buf + landed| == v.cap)
    ensures landed == v.waiter[pid].data || |v.waiter[pid].data| > 512
    ensures v.waiter[pid].pty.Some? ==> v.waiter[pid].pty.value == reported
    ensures v.waiter[pid].pty.None? ==> |landed| == reported
  {
  }

  /** Only a writer with an end closed is refused, a pty's with EIO and any other with EPIPE. */
  lemma RefusedMeans(v: View, pid: Pid, errno: Errno)
    requires Justified(v, Refused(pid, errno)) && errno != EINTR
    ensures pid in v.waiter && v.waiter[pid].Write? && (pid in v.writers ==> v.writers[0] == pid)
    ensures !v.rOpen || !v.wOpen
    ensures errno == EIO <==> v.waiter[pid].pty.Some?
    ensures errno == EPIPE <==> v.waiter[pid].pty.None?
  {
  }

  /** A write waits when there is no room at all, or none for the whole of one that may not
      be split; an empty pty write need not have waited. */
  lemma WaitsExactly(v: View, r: Request)
    requires r.Write?
    ensures Blocked(v, r) <==>
      |v.buf| == v.cap || (|v.buf| + |r.data| > v.cap && (|r.data| <= 512 || r.pty.Some?))
    ensures Lands(v, r) <==>
      !Blocked(v, r) || (r.pty.Some? && r.data == [] && |v.buf| == v.cap)
  {
  }

  // ---- the kernel's invariant --------------------------------------------------------------

  /** The queues hold parked processes, each once and in the right queue. */
  ghost predicate Queues(v: View) {
    && (forall i, j :: 0 <= i < j < |v.readers| ==> v.readers[i] != v.readers[j])
    && (forall i, j :: 0 <= i < j < |v.writers| ==> v.writers[i] != v.writers[j])
    && (forall p :: p in v.readers ==> p in v.waiter && v.waiter[p].Read?)
    && (forall p :: p in v.writers ==> p in v.waiter && v.waiter[p].Write?)
  }

  /** Processes with a request that are in no queue: the one being dispatched. */
  ghost function Unqueued(v: View): set<Pid> {
    set p | p in v.waiter && p !in v.readers && p !in v.writers
  }

  /** A pipe holds at least an atomic write and never more than its capacity; a pty can
      hold any one write of its own. */
  ghost predicate Sizes(v: View, pty: bool) {
    && PIPE_ATOMIC <= v.cap && (!pty ==> |v.buf| <= v.cap)
    && (forall p :: p in v.waiter && v.waiter[p].Write? ==>
          v.waiter[p].pty.Some? == pty && (pty ==> |v.waiter[p].data| <= v.cap))
  }

  /** Between turns: a parked reader means there is nothing to read and a writer may come;
      a parked writer means there is something to read and both ends are open. */
  ghost predicate AtRest(v: View) {
    && (v.readers != [] ==> v.buf == [] && v.wOpen)
    && (v.writers != [] ==> v.buf != [] && v.rOpen && v.wOpen)
  }

  /** No queue can be served. */
  ghost predicate Settled(v: View) {
    && (v.readers != [] ==> v.buf == [] && v.wOpen)
    && (v.writers != [] && v.writers[0] in v.waiter && v.waiter[v.writers[0]].Write? ==>
          v.rOpen && v.wOpen && Blocked(v, v.waiter[v.writers[0]]))
  }

  lemma SettledIsAtRest(v: View, pty: bool)
    requires Queues(v) && Sizes(v, pty) && Settled(v)
    ensures AtRest(v)
  {
    if v.writers != [] {
      assert v.writers[0] in v.writers;
    }
  }

  lemma NeverBothParked(v: View)
    requires AtRest(v)
    ensures v.readers == [] || v.writers == []
  {
  }

  /** Cancelling a parked process serves nobody, so it leaves a queue that could be served
      exactly when it takes away a front writer and the next one's bytes would land. */
  lemma SettledAfterInterrupt(v: View, pid: Pid)
    requires Queues(v) && Settled(v) && pid in v.waiter
    ensures Settled(Forget(v, pid)) <==>
      !(|v.writers| > 1 && v.writers[0] == pid && !Blocked(v, v.waiter[v.writers[1]]))
  {
    WithoutOne(v.readers, pid);
    WithoutOne(v.writers, pid);
    if v.writers != [] {
      assert v.writers[0] in v.writers;
      if v.writers[0] == pid && |v.writers| > 1 {
        assert v.writers[1] in v.writers;
      }
    }
  }

  /** A process that was not parked can be answered without serving anybody, if nothing is
      read or written and both ends stay as they are. */
  lemma StaysSettled(v: View, r: Request, e: Event)
    requires Queues(v) && Settled(v) && !e.Echoed? && e.pid !in v.waiter
    requires e.Gave? ==> e.bytes == []
    requires !e.Took?
    ensures Settled(Effect(Asked(v, e.pid, r), e))
  {
    WithoutOne(v.readers, e.pid);
    WithoutOne(v.writers, e.pid);
  }

  lemma {:induction false} ReplayPrefix(v: View, events: seq<Event>, k: nat)
    requires Replay(v, events).Some? && k <= |events|
    ensures Replay(v, events[..k]).Some?
    decreases |events|
  {
    if k < |events| {
      var before := events[..|events| - 1];
      assert before[..k] == events[..k];
      ReplayPrefix(v, before, k);
    } else {
      assert events[..k] == events;
    }
  }

  lemma SecondJustified(v: View, events: seq<Event>)
    requires Replay(v, events).Some? && |events| > 1
    ensures Justified(Effect(v, events[0]), events[1])
  {
    hide Effect, Justified;
    FirstEffect(v, events);
    ReplayPrefix(v, events, 2);
    assert events[..2][..1] == events[..1];
  }

  lemma FirstEffect(v: View, events: seq<Event>)
    requires Replay(v, events).Some? && events != []
    ensures Replay(v, events[..1]) == Some(Effect(v, events[0]))
  {
    hide Effect, Justified;
    ReplayPrefix(v, events, 1);
    assert events[..1][..0] == [] && events[..1] == [events[0]];
  }

  /** Where the first event leaves nothing to serve, no other follows. */
  lemma OnlyOne(v: View, events: seq<Event>, m: View)
    requires Replay(v, events).Some? && events != [] && AllService(events, 0)
    requires m == Effect(v, events[0]) && forall e :: Service(e) ==> !Justified(m, e)
    ensures events == [events[0]] && Replay(v, events) == Some(m)
  {
    hide Effect, Justified;
    if |events| > 1 { SecondJustified(v, events); }
    FirstEffect(v, events);
    assert events[..1] == events;
  }

  lemma ForgetKeepsQueues(v: View, pid: Pid)
    requires Queues(v)
    ensures Queues(Forget(v, pid)) && Unqueued(Forget(v, pid)) == Unqueued(v) - {pid}
  {
    hide Without;
    WithoutOne(v.readers, pid);
    WithoutOne(v.writers, pid);
  }

  lemma EffectKeeps(v: View, e: Event, pty: bool)
    requires Queues(v) && Sizes(v, pty) && Justified(v, e) && !e.Echoed?
    ensures Queues(Effect(v, e)) && Sizes(Effect(v, e), pty)
    ensures Unqueued(Effect(v, e)) == Unqueued(v) - {e.pid}
  {
    match e
    case Gave(pid, bytes) => ForgetKeepsQueues(v.(buf := v.buf[|bytes|..]), pid);
    case Took(pid, landed, _) =>
      WritesLandWhole(v, e);
      ForgetKeepsQueues(v.(buf := v.buf + landed), pid);
    case Refused(pid, _) => ForgetKeepsQueues(v, pid);
  }

  lemma AskKeeps(v: View, pid: Pid, r: Request, pty: bool)
    requires Queues(v) && Sizes(v, pty) && Unqueued(v) == {} && pid !in v.waiter
    requires r.Write? ==> r.pty.Some? == pty && (pty ==> |r.data| <= v.cap)
    ensures Queues(Asked(v, pid, r)) && Sizes(Asked(v, pid, r), pty) && Unqueued(Asked(v, pid, r)) == {pid}
    ensures Queues(Parked(v, pid, r)) && Sizes(Parked(v, pid, r), pty) && Unqueued(Parked(v, pid, r)) == {}
    ensures pid !in v.readers && pid !in v.writers
  {
  }

  /** A process that joins the end of a queue that cannot be served leaves it so. */
  lemma SettledPark(v: View, pid: Pid, r: Request)
    requires Queues(v) && pid !in v.waiter
    ensures Settled(v) && (r.Write? ==> v.rOpen && v.wOpen && Blocked(v, r)) && AtRest(Parked(v, pid, r)) ==> Settled(Parked(v, pid, r))
  {
    if v.writers != [] { assert v.writers[0] in v.writers; }
  }

  /** Answering the front of a queue removes it and leaves the other queue alone. */
  lemma FrontOnly(v: View, pid: Pid)
    requires Queues(v)
    ensures v.readers != [] && v.readers[0] == pid ==> Without(v.readers, pid) == v.readers[1..] && Without(v.writers, pid) == v.writers
    ensures v.writers != [] && v.writers[0] == pid ==> Without(v.writers, pid) == v.writers[1..] && Without(v.readers, pid) == v.readers
  {
    WithoutOne(v.readers, pid);
    WithoutOne(v.writers, pid);
    if v.readers != [] && v.readers[0] == pid {
      assert pid in v.readers;
    }
    if v.writers != [] && v.writers[0] == pid {
      assert pid in v.writers;
    }
  }

  lemma AnswerKeeps(v: View, events: seq<Event>, n: nat, now: View, e: Event, pty: bool)
    requires Queues(now) && Sizes(now, pty) && Justified(now, e) && !e.Echoed?
    requires Delivered(events) + now.buf == Accepted(events)
    requires n <= |events| && Replay(v, events[n..]) == Some(now)
    ensures Queues(Effect(now, e)) && Sizes(Effect(now, e), pty)
    ensures Unqueued(Effect(now, e)) == Unqueued(now) - {e.pid}
    ensures Delivered(events + [e]) + Effect(now, e).buf == Accepted(events + [e])
    ensures Replay(v, (events + [e])[n..]) == Some(Effect(now, e))
    ensures e.Gave? ==> |e.bytes| <= |now.buf|
  {
    EffectKeeps(now, e, pty);
    EffectConserves(now, e);
    Appended(events, e, now.buf, Effect(now, e).buf);
    OneMore(v, events[n..], now, e);
    assert (events + [e])[n..] == events[n..] + [e];
  }

  lemma EchoKeeps(v: View, events: seq<Event>, bytes: seq<Byte>)
    requires Queues(v) && Sizes(v, true) && Delivered(events) + v.buf == Accepted(events)
    ensures var w := v.(buf := v.buf + bytes);
      && Queues(w) && Sizes(w, true) && Unqueued(w) == Unqueued(v)
      && Delivered(events + [Echoed(bytes)]) + w.buf == Accepted(events + [Echoed(bytes)])
      && Replay(v, [Echoed(bytes)]) == Some(w)
  {
    Appended(events, Echoed(bytes), v.buf, v.buf + bytes);
    OneMore(v, [], v, Echoed(bytes));
    assert [] + [Echoed(bytes)] == [Echoed(bytes)];
  }

  // ---- the stream itself ----------------------------------------------------------------------

  /** Output processing: with ONLCR each newline becomes a return and a newline. */
  function Cooked(data: seq<Byte>): seq<Byte> {
    if data == [] then []
    else Cooked(data[..|data| - 1]) + (if data[|data| - 1] == Newline then [Return, Newline] else [data[|data| - 1]])
  }

  lemma {:induction false} CookedSize(data: seq<Byte>)
    ensures |data| <= |Cooked(data)| <= 2 * |data|
  {
    if data != [] { CookedSize(data[..|data| - 1]); }
  }

  /** What ONLCR does: every newline gets a return in front of it, and nothing else changes. */
  lemma CookedMeans(b: Byte)
    ensures Cooked([]) == [] && Cooked([b]) == if b == 10 then [13, 10] else [b]
  {
    assert [b][..0] == [];
  }

  lemma {:induction false} CookedConcat(a: seq<Byte>, b: seq<Byte>)
    ensures Cooked(a + b) == Cooked(a) + Cooked(b)
  {
    if b == [] {
      assert a + b == a;
    } else {
      var k := |b| - 1;
      assert (a + b)[..|a| + k] == a + b[..k];
      CookedConcat(a, b[..k]);
    }
  }

  /** The processes' requests as pid's is being dispatched, and once it is parked. */
  function Asked(v: View, pid: Pid, r: Request): View {
    v.(waiter := v.waiter[pid := r])
  }

  function Parked(v: View, pid: Pid, r: Request): View {
    match r
    case Read(_) => v.(waiter := v.waiter[pid := r], readers := v.readers + [pid])
    case Write(_, _) => v.(waiter := v.waiter[pid := r], writers := v.writers + [pid])
  }

  class Stream {
    const cap: nat
    const pty: bool
    var buf: seq<Byte>
    var rOpen: bool
    var wOpen: bool
    var readers: seq<Pid>
    var writers: seq<Pid>
    var waiter: map<Pid, Request>
    var events: seq<Event>          // every answer given

    function Now(): View
      reads this
    {
      View(cap, buf, rOpen, wOpen, readers, writers, waiter)
    }

    /** In the middle of a turn. */
    ghost predicate Valid()
      reads this
    {
      Queues(Now()) && Sizes(Now(), pty) && Delivered(events) + buf == Accepted(events)
    }

    /** Between turns. */
    ghost predicate Quiet()
      reads this
    {
      Valid() && Unqueued(Now()) == {} && AtRest(Now())
    }

    /** Since its n-th event, nothing happened to the stream v but right answers. */
    ghost predicate Since(v: View, n: nat)
      reads this
    {
      n <= |events| && Replay(v, events[n..]) == Some(Now())
    }

    constructor (cap: nat, pty: bool)
      requires PIPE_ATOMIC <= cap
      ensures Quiet() && events == []
      ensures Now() == View(cap, [], true, true, [], [], map[])
      ensures this.cap == cap && this.pty == pty
    {
      this.cap, this.pty, buf, rOpen, wOpen := cap, pty, [], true, true;
      readers, writers, waiter, events := [], [], map[], [];
    }

    method CancelWaiter(pid: Pid)
      modifies this`readers, this`writers, this`waiter
      ensures Now() == Forget(old(Now()), pid) && waiter == old(waiter) - {pid}
    {
      readers, writers, waiter := Without(readers, pid), Without(writers, pid), waiter - {pid};
    }

    /** _cancelWaiter and _respond. */
    method Answer(e: Event, ghost v: View, ghost n: nat)
      requires Valid() && Since(v, n) && Justified(Now(), e) && !e.Echoed?
      modifies this
      ensures Valid() && Since(v, n)
      ensures Now() == Effect(old(Now()), e) && events == old(events) + [e]
      ensures Unqueued(Now()) == old(Unqueued(Now())) - {e.pid}
      ensures waiter.Keys == old(waiter).Keys - {e.pid} && rOpen == old(rOpen) && wOpen == old(wOpen)
    {
      hide Justified, Queues, Sizes, Replay, Delivered, Accepted, Unqueued, Forget;
      AnswerKeeps(v, events, n, Now(), e, pty);
      if e.Gave? {
        buf := buf[|e.bytes|..];
      } else if e.Took? {
        buf := buf + e.landed;
      }
      CancelWaiter(e.pid);
      events := events + [e];
    }

    /** The inner loop of _pipeNotify over parked readers. */
    method ServeReaders(ghost v: View, ghost n: nat) returns (progress: bool)
      requires Valid() && Unqueued(Now()) == {} && Since(v, n)
      modifies this
      ensures Valid() && Unqueued(Now()) == {} && Since(v, n) && old(events) <= events && AllService(events, |old(events)|)
      ensures waiter.Keys <= old(waiter).Keys
      ensures writers == old(writers) && rOpen == old(rOpen) && wOpen == old(wOpen)
      ensures readers != [] ==> buf == [] && wOpen
      ensures if progress then |readers| < |old(readers)| else Now() == old(Now())
    {
      progress := false;
      hide Replay, Delivered, Accepted;
      while readers != []
        invariant Valid() && Unqueued(Now()) == {} && Since(v, n) && old(events) <= events && AllService(events, |old(events)|)
        invariant waiter.Keys <= old(waiter).Keys
        invariant writers == old(writers) && rOpen == old(rOpen) && wOpen == old(wOpen)
        invariant if progress then |readers| < |old(readers)| else Now() == old(Now())
        decreases |readers|
      {
        var pid := readers[0];
        assert pid in readers;
        var count := waiter[pid].count;
        FrontOnly(Now(), pid);
        if |buf| > 0 {
          Answer(Gave(pid, buf[..Min(count, |buf|)]), v, n);
        } else if !wOpen {
          Answer(Gave(pid, []), v, n);  // end of file
        } else {
          break;
        }
        progress := true;
      }
    }

    /** The inner loop of _pipeNotify over parked writers. */
    method ServeWriters(ghost v: View, ghost n: nat) returns (progress: bool)
      requires Valid() && Unqueued(Now()) == {} && Since(v, n)
      modifies this
      ensures Valid() && Unqueued(Now()) == {} && Since(v, n) && old(events) <= events && AllService(events, |old(events)|)
      ensures waiter.Keys <= old(waiter).Keys
      ensures readers == old(readers) && rOpen == old(rOpen) && wOpen == old(wOpen)
      ensures writers != [] ==> writers[0] in waiter && waiter[writers[0]].Write? && rOpen && wOpen && Blocked(Now(), waiter[writers[0]])
      ensures if progress then |writers| < |old(writers)| else Now() == old(Now())
    {
      progress := false;
      hide Replay, Delivered, Accepted;
      while writers != []
        invariant Valid() && Unqueued(Now()) == {} && Since(v, n) && old(events) <= events && AllService(events, |old(events)|)
        invariant waiter.Keys <= old(waiter).Keys
        invariant readers == old(readers) && rOpen == old(rOpen) && wOpen == old(wOpen)
        invariant if progress then |writers| < |old(writers)| else Now() == old(Now())
        decreases |writers|
      {
        var pid := writers[0];
        assert pid in writers;
        var r := waiter[pid];
        FrontOnly(Now(), pid);
        if !rOpen || !wOpen {
          Answer(Refused(pid, if r.pty.Some? then EIO else EPIPE), v, n);
        } else if Blocked(Now(), r) {
          break;
        } else {
          var landed := Landing(Now(), r);
          Answer(Took(pid, landed, if r.pty.Some? then r.pty.value else |landed|), v, n);
        }
        progress := true;
      }
    }

    /** Serves both queues until neither can be served. */
    method PipeNotify(ghost v: View, ghost n: nat)
      requires Valid() && Unqueued(Now()) == {} && Since(v, n)
      modifies this
      ensures Valid() && Unqueued(Now()) == {} && Since(v, n) && old(events) <= events && AllService(events, |old(events)|)
      ensures forall i :: |old(events)| <= i < |events| ==> !events[i].Echoed? && (events[i].Refused? ==> events[i].errno != EINTR)
      ensures waiter.Keys <= old(waiter).Keys && Settled(Now()) && rOpen == old(rOpen) && wOpen == old(wOpen)
      ensures Quiet()
    {
      var progress := true;
      while progress
        invariant Valid() && Unqueued(Now()) == {} && Since(v, n) && old(events) <= events && AllService(events, |old(events)|)
        invariant waiter.Keys <= old(waiter).Keys && rOpen == old(rOpen) && wOpen == old(wOpen)
        invariant !progress ==> Settled(Now())
        decreases |readers| + |writers|, progress
      {
        var gave := ServeReaders(v, n);
        var took := ServeWriters(v, n);
        progress := gave || took;
      }
      SettledIsAtRest(Now(), pty);
    }

    /** The request r of a process that was not parked is answered at once, and then, if
        something has moved, the queues are served. */
    method Reply(e: Event, r: Request, moved: bool)
      requires Quiet() && Service(e) && e.pid !in waiter && Fits(r)
      requires Justified(Asked(Now(), e.pid, r), e)
      requires moved || AtRest(Effect(Asked(Now(), e.pid, r), e))
      modifies this
      ensures Quiet() && Dispatched(old(Now()), e, r, |old(events)|)
      ensures old(events) <= events && rOpen == old(rOpen) && wOpen == old(wOpen)
      ensures moved || (old(Settled(Now())) && !e.Took? && (e.Gave? ==> e.bytes == [])) ==> Settled(Now())
    {
      hide Delivered, Accepted, Queues, Sizes, Justified, Effect, AtRest, Unqueued, Settled;
      if Settled(Now()) && !e.Took? && (e.Gave? ==> e.bytes == []) { StaysSettled(Now(), r, e); }
      ghost var asked := Asked(Now(), e.pid, r);
      ghost var n := |events|;
      AskKeeps(Now(), e.pid, r, pty);
      waiter := waiter[e.pid := r];
      assert events[n..] == [];
      assert Now() == asked && Since(asked, n);
      hide Replay;
      Answer(e, asked, n);
      if moved {
        PipeNotify(asked, n);
      }
    }

    /** The process waits in its queue. */
    method ParkOn(pid: Pid, r: Request)
      requires Quiet() && pid !in waiter && Fits(r) && AtRest(Parked(Now(), pid, r))
      modifies this
      ensures Quiet() && events == old(events) && Now() == Parked(old(Now()), pid, r)
      ensures old(Settled(Now())) && (r.Write? ==> rOpen && wOpen && Blocked(old(Now()), r)) ==> Settled(Now())
    {
      hide Delivered, Accepted, AtRest, Settled;
      SettledPark(Now(), pid, r);
      AskKeeps(Now(), pid, r, pty);
      hide Queues, Sizes;
      waiter := waiter[pid := r];
      if r.Read? {
        readers := readers + [pid];
      } else {
        writers := writers + [pid];
      }
    }

    /** A request this stream can hold. */
    ghost predicate Fits(r: Request) {
      r.Write? ==> r.pty.Some? == pty && (pty ==> |r.data| <= cap)
    }

    /** The n-th event answers request r, asked when the stream was v, and only right
        answers to parked processes have followed. */
    ghost predicate Dispatched(v: View, e: Event, r: Request, n: nat)
      requires !e.Echoed?
      reads this
    {
      e.pid !in waiter && n < |events| && events[n] == e && Since(Asked(v, e.pid, r), n) && AllService(events, n)
    }

    /** _streamRead: at most count bytes now, or end of file, or the process parks. */
    method StreamRead(pid: Pid, count: nat)
      requires Quiet() && pid !in waiter
      modifies this
      ensures Quiet() && old(events) <= events && rOpen == old(rOpen) && wOpen == old(wOpen)
      ensures old(Settled(Now())) || (count > 0 && old(buf) != []) ==> Settled(Now())
      ensures if count > 0 && old(buf) == [] && wOpen
              then events == old(events) && Now() == Parked(old(Now()), pid, Read(count))
              else Dispatched(old(Now()), Gave(pid, old(buf)[..Min(count, |old(buf)|)]), Read(count), |old(events)|)
      ensures events == old(events) ==> readers == old(readers) + [pid] && writers == old(writers)
    {
      if count == 0 {
        Reply(Gave(pid, []), Read(count), false);
      } else if |buf| > 0 {
        Reply(Gave(pid, buf[..Min(count, |buf|)]), Read(count), true);
      } else if !wOpen {
        Reply(Gave(pid, []), Read(count), false);
      } else {
        ParkOn(pid, Read(count));
      }
    }

    /** _streamWrite: as much as there is room for, except that a small write is never
        split; with no room the process parks; with an end closed it is refused. */
    method StreamWrite(pid: Pid, data: seq<Byte>)
      requires Quiet() && pid !in waiter && !pty
      modifies this
      ensures Quiet() && old(events) <= events && rOpen == old(rOpen) && wOpen == old(wOpen)
      ensures old(Settled(Now())) || (rOpen && wOpen && !Blocked(old(Now()), Write(data, None))) ==> Settled(Now())
      ensures var r := Write(data, None);
              if !rOpen || !wOpen then Dispatched(old(Now()), Refused(pid, EPIPE), r, |old(events)|)
              else if Blocked(old(Now()), r) then events == old(events) && Now() == Parked(old(Now()), pid, r)
              else var landed := Landing(old(Now()), r);
                   Dispatched(old(Now()), Took(pid, landed, |landed|), r, |old(events)|)
      ensures events == old(events) ==> writers == old(writers) + [pid] && readers == old(readers)
    {
      var r := Write(data, None);
      if !rOpen || !wOpen {
        Reply(Refused(pid, EPIPE), r, false);
      } else if Blocked(Now(), r) {
        ParkOn(pid, r);
      } else {
        var landed := Landing(Now(), r);
        Reply(Took(pid, landed, |landed|), r, true);
      }
    }

    /** _ptySlaveWrite: processed output lands as a whole or the process parks; the count
        it is told is that of the bytes it wrote. Its own descriptor keeps wOpen true. */
    method PtySlaveWrite(pid: Pid, data: seq<Byte>, onlcr: bool)
      requires Quiet() && pid !in waiter && pty && wOpen && 2 * |data| <= cap
      modifies this
      ensures Quiet() && old(events) <= events && rOpen == old(rOpen) && wOpen == old(wOpen)
      ensures old(Settled(Now())) || (rOpen && events != old(events)) ==> Settled(Now())
      ensures var processed := if onlcr then Cooked(data) else data;
              var r := Write(processed, Some(|data|));
              if !rOpen then Dispatched(old(Now()), Refused(pid, EIO), r, |old(events)|)
              else if |old(buf)| + |processed| <= cap then Dispatched(old(Now()), Took(pid, processed, |data|), r, |old(events)|)
              else events == old(events) && Now() == Parked(old(Now()), pid, r)
      ensures events == old(events) ==> writers == old(writers) + [pid] && readers == old(readers)
    {
      var processed := Cook(data, onlcr);
      CookedSize(data);
      var r := Write(processed, Some(|data|));
      if !rOpen {
        Reply(Refused(pid, EIO), r, false);
      } else if |buf| + |processed| <= cap {
        Reply(Took(pid, processed, |data|), r, true);
      } else {
        ParkOn(pid, r);
      }
    }

    /** OPOST and ONLCR, as a loop over the bytes. */
    method Cook(data: seq<Byte>, onlcr: bool) returns (processed: seq<Byte>)
      ensures processed == if onlcr then Cooked(data) else data
    {
      if !onlcr {
        return data;
      }
      processed := [];
      for i := 0 to |data|
        invariant processed == Cooked(data[..i])
      {
        assert data[..i + 1][..i] == data[..i];
        if data[i] == Newline {
          processed := processed + [Return];
        }
        processed := processed + [data[i]];
      }
      assert data[..|data|] == data;
    }

    /** The line discipline's echo goes straight into the buffer, over its capacity if
        need be. */
    method Echo(bytes: seq<Byte>)
      requires Quiet() && pty
      modifies this
      ensures Quiet() && old(events) <= events && rOpen == old(rOpen) && wOpen == old(wOpen)
      ensures !rOpen || !wOpen ==> Now() == old(Now()) && events == old(events)
      ensures rOpen && wOpen ==>
        && |events| > |old(events)| && events[|old(events)|] == Echoed(bytes) && Since(old(Now()), |old(events)|)
        && AllService(events, |old(events)| + 1) && Settled(Now())
    {
      if !rOpen || !wOpen { return; }
      hide Replay, Delivered, Accepted, Justified, Effect, Queues, Sizes, Unqueued, AtRest, Settled, AllService;
      ghost var before := Now();
      ghost var n := |events|;
      PutEcho(bytes);
      ghost var first := events;
      PipeNotify(before, n);
      assert first <= events && events[n] == first[n];
    }

    method PutEcho(bytes: seq<Byte>)
      requires Valid() && pty
      modifies this`buf, this`events
      ensures Valid() && Unqueued(Now()) == old(Unqueued(Now()))
      ensures events == old(events) + [Echoed(bytes)] && Since(old(Now()), |old(events)|)
    {
      hide Replay, Delivered, Accepted, Justified, Effect, Queues, Sizes, Unqueued;
      EchoKeeps(Now(), events, bytes);
      ghost var n := |events|;
      buf := buf + bytes;
      events := events + [Echoed(bytes)];
      assert events[n..] == [Echoed(bytes)];
    }

    /** The last descriptor of one end is released: parked peers learn of it. */
    method CloseEnd(read: bool)
      requires Quiet()
      modifies this
      ensures Quiet() && old(events) <= events
      ensures rOpen == (old(rOpen) && !read) && wOpen == (old(wOpen) && read)
      ensures Since(if read then old(Now()).(rOpen := false) else old(Now()).(wOpen := false), |old(events)|)
      ensures Settled(Now()) && AllService(events, |old(events)|)
    {
      if read {
        rOpen := false;
      } else {
        wOpen := false;
      }
      assert events[|events|..] == [];
      PipeNotify(Now(), |events|);
    }

    /** krpc-intr: a parked process is answered EINTR; nobody else is served. */
    method Interrupt(pid: Pid)
      requires Quiet() && pid in waiter
      modifies this
      ensures Quiet() && events == old(events) + [Refused(pid, EINTR)] && Now() == Forget(old(Now()), pid)
    {
      assert events[|events|..] == [];
      WithoutOne(readers, pid);
      WithoutOne(writers, pid);
      Answer(Refused(pid, EINTR), Now(), |events|);
    }
  }

  const Full: seq<Byte> := seq(512, i => 0)
  const Large := Write(seq(200, i => 0), None)
  const Small := Write(seq(50, i => 0), None)

  /** What is left after a first answer that leaves nothing to serve. */
  lemma AnsweredOnly(s: Stream, v: View, e: Event, r: Request, n: nat)
    requires Service(e) && s.Dispatched(v, e, r, n)
    requires forall x :: Service(x) ==> !Justified(Effect(Asked(v, e.pid, r), e), x)
    ensures s.Now() == Effect(Asked(v, e.pid, r), e)
  {
    hide Effect, Justified, Replay;
    OnlyOne(Asked(v, e.pid, r), s.events[n..], Effect(Asked(v, e.pid, r), e));
  }

  lemma Filled(s: Stream)
    requires s.Dispatched(View(512, [], true, true, [], [], map[]), Took(0, Full, 512), Write(Full, None), 0)
    ensures s.Now() == View(512, Full, true, true, [], [], map[])
  {
    var after := Effect(Asked(View(512, [], true, true, [], [], map[]), 0, Write(Full, None)), Took(0, Full, 512));
    assert after.waiter == map[] && after.buf == Full;
    AnsweredOnly(s, View(512, [], true, true, [], [], map[]), Took(0, Full, 512), Write(Full, None), 0);
  }

  const Waiting := View(512, Full, true, true, [], [1, 2], map[1 := Large, 2 := Small])

  lemma ReadFrom(s: Stream, n: nat)
    requires s.Dispatched(Waiting, Gave(3, Full[..100]), Read(100), n)
    ensures s.Now() == Waiting.(buf := Full[100..])
  {
    var e := Gave(3, Full[..100]);
    WithoutOne([1, 2], 3);
    assert Without([1, 2], 3) == [1, 2];
    assert map[1 := Large, 2 := Small, 3 := Read(100)] - {3} == map[1 := Large, 2 := Small];
    assert Asked(Waiting, 3, Read(100)).waiter == map[1 := Large, 2 := Small, 3 := Read(100)];
    assert Effect(Asked(Waiting, 3, Read(100)), e) == Waiting.(buf := Full[100..]);
    AnsweredOnly(s, Waiting, e, Read(100), n);
  }

  method TwoWritersPark() returns (s: Stream)
    ensures fresh(s) && s.Quiet() && s.Now() == Waiting && !s.pty
  {
    hide Delivered, Accepted, Replay, Justified, Queues, Sizes, Settled, AllService;
    s := new Stream(PIPE_ATOMIC, false);
    s.StreamWrite(0, Full);
    Filled(s);
    s.StreamWrite(1, Large.data);
    s.StreamWrite(2, Small.data);
  }

  /** Interrupting the first writer may leave the next one parked although its bytes would
      land: 512 bytes fill the stream, writes of 200 and 50 bytes wait, 100 bytes are read,
      and the write of 200 is interrupted. */
  method InterruptMayStrand() returns (s: Stream)
    ensures fresh(s) && s.Quiet() && !Settled(s.Now())
    ensures s.writers == [2] && 2 in s.waiter && s.waiter[2].Write? && Lands(s.Now(), s.waiter[2])
  {
    hide Delivered, Accepted, Replay, Justified, Queues, Sizes, AllService;
    s := TwoWritersPark();
    ghost var n := |s.events|;
    s.StreamRead(3, 100);
    ReadFrom(s, n);
    s.Interrupt(1);
    WithoutOne([1, 2], 1);
    assert Without([1, 2], 1) == [2];
  }
}
