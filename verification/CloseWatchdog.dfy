/** The hung-application watchdog. A process's input ring is indexed modulo twice its
    capacity; the kernel pushes a QUIT record and later decides, from the positions alone,
    whether the process has consumed it. The process consumes at any time. */
module CloseWatchdog {
  import opened Wrappers
  import opened Arith

  /** What the watchdog keeps: how many records were left to consume, and where the consumer
      stood when it last looked. quit is the count of records up to the QUIT; at is the true
      count behind lastRpos; missed counts the records of whole rounds consumed between looks,
      which the positions do not show. */
  datatype Watchdog = Watchdog(need: int, lastRpos: nat, quit: nat, at: nat, missed: int)

  /** Where the kernel stands; seen and at are the true counts behind positions it has loaded. */
  datatype Kernel =
    | Idle
    | Pushing(quit: bool, seen: nat)
    | Tracking                    // QUIT pushed; about to load the positions
    | TrackedRpos(at: nat)
    | Looking(at: nat)            // _wmCloseWdDone has loaded IR_RPOS
    | Decided(done: bool, at: nat)

  /** pushed and consumed count all records; the ring's words hold them mod 2 * cap. */
  datatype State = State(cap: nat, pushed: nat, consumed: nat, dropped: nat, wd: Option<Watchdog>, k: Kernel)

  datatype Step = Consume | StartPush(quit: bool) | GoOn | Look

  function Pos(s: State, n: nat): nat
    requires s.cap > 0
  {
    n % (2 * s.cap)
  }

  /** (a - b + cap2) % cap2 for positions a and b. */
  function Ahead(s: State, a: nat, b: nat): nat
    requires s.cap > 0 && b < 2 * s.cap
  {
    (a + 2 * s.cap - b) % (2 * s.cap)
  }

  /** The records of the whole rounds among those from the count b up to a. */
  function Rounds(s: State, b: nat, a: nat): int
    requires s.cap > 0
  {
    a - b - (a - b) % (2 * s.cap)
  }

  function KernelStep(s: State): Option<State>
    requires s.cap > 0
  {
    match s.k
    case Idle => None
    case Pushing(quit, seen) =>
      if Ahead(s, Pos(s, s.pushed), Pos(s, seen)) >= s.cap then Some(s.(dropped := s.dropped + 1, k := Idle))
      else Some(s.(pushed := s.pushed + 1, k := if quit then Tracking else Idle))
    case Tracking => Some(s.(k := TrackedRpos(s.consumed)))
    case TrackedRpos(at) =>
      Some(s.(wd := Some(Watchdog(Ahead(s, Pos(s, s.pushed), Pos(s, at)), Pos(s, at), s.pushed, at, 0)), k := Idle))
    case Looking(at) =>
      if s.wd.None? then None else
      var w := s.wd.value;
      if Pos(s, at) == Pos(s, s.pushed) then Some(s.(k := Decided(true, at)))
      else
        var need := w.need - if w.lastRpos < 2 * s.cap then Ahead(s, Pos(s, at), w.lastRpos) else 0;
        Some(s.(wd := Some(w.(need := need, lastRpos := Pos(s, at), at := at, missed := w.missed + Rounds(s, w.at, at))),
                k := Decided(need <= 0, at)))
    case Decided(done, at) => Some(s.(k := Idle, wd := if done then None else s.wd))
  }

  function After(s: State, e: Step): Option<State>
    requires s.cap > 0
  {
    match e
    case Consume => if s.consumed < s.pushed then Some(s.(consumed := s.consumed + 1)) else None
    case StartPush(quit) => if s.k.Idle? && (quit ==> s.wd.None?) then Some(s.(k := Pushing(quit, s.consumed))) else None
    case GoOn => KernelStep(s)
    case Look => if s.k.Idle? && s.wd.Some? then Some(s.(k := Looking(s.consumed))) else None
  }

  ghost predicate Initial(s: State) {
    s.cap > 0 && s.pushed == s.consumed == s.dropped == 0 && s.wd == None && s.k == Idle
  }

  // ---- what every step keeps ---------------------------------------------------------------------

  ghost predicate Tracks(s: State, w: Watchdog) {
    && s.cap > 0 && w.lastRpos == w.at % (2 * s.cap) && w.at <= s.consumed && w.quit <= s.pushed
    && w.need == w.quit + w.missed - w.at && w.missed >= 0
  }

  ghost predicate Inv(s: State) {
    && s.cap > 0 && s.consumed <= s.pushed <= s.consumed + s.cap
    && (s.wd.Some? ==> Tracks(s, s.wd.value))
    && (match s.k
        case Pushing(quit, seen) => seen <= s.consumed && s.pushed <= seen + s.cap && (quit ==> s.wd.None?)
        case Tracking => s.wd.None?
        case TrackedRpos(at) => at <= s.consumed && s.pushed <= at + s.cap && s.wd.None?
        case Looking(at) => at <= s.consumed && s.pushed <= at + s.cap && s.wd.Some? && s.wd.value.at <= at
        case Decided(done, at) => s.wd.Some? && at <= s.consumed && (done ==> s.wd.value.quit <= at)
        case Idle => true)
  }

  /** Positions a whole round apart at most tell how far apart the counts are. */
  lemma AheadIs(s: State, a: nat, b: nat)
    requires s.cap > 0 && b <= a
    ensures Ahead(s, Pos(s, a), Pos(s, b)) == (a - b) % (2 * s.cap) <= a - b
    ensures a - b < 2 * s.cap ==> Ahead(s, Pos(s, a), Pos(s, b)) == a - b && (Pos(s, a) == Pos(s, b) <==> a == b)
  {
    var m := 2 * s.cap;
    ModDifference(a, b, m);
    if a - b < m { DivModUnique(a - b, 0, a - b, m); }
    hide Ahead;
    if Pos(s, a) == Pos(s, b) { EqualModDivides(a, b, m); }
  }

  lemma ModDifference(a: nat, b: nat, m: nat)
    requires m > 0 && b <= a
    ensures (a % m + m - b % m) % m == (a - b) % m <= a - b
  {
    var k := a / m - b / m - 1;
    assert a == (a / m) * m + a % m && b == (b / m) * m + b % m;
    var x := a % m + m - b % m;
    assert a - b == k * m + x;
    AddMultipleMod(x, k, m);
    assert (a - b) == ((a - b) / m) * m + (a - b) % m;
  }

  lemma StepKeepsInv(s: State, e: Step, s': State)
    requires Inv(s) && After(s, e) == Some(s')
    ensures Inv(s')
  {
    if e.GoOn? {
      match s.k
      case Pushing(_, seen) => AheadIs(s, s.pushed, seen);
      case TrackedRpos(at) => AheadIs(s, s.pushed, at);
      case Looking(at) =>
        AheadIs(s, s.pushed, at);
        AheadIs(s, at, s.wd.value.at);
      case _ =>
    }
  }

  /** A record is dropped exactly when the ring was full as the kernel looked, and is then the
      one that was to be pushed. */
  lemma DropsExactly(s: State, s': State)
    requires Inv(s) && s.k.Pushing? && After(s, GoOn) == Some(s')
    ensures s'.dropped == s.dropped + 1 <==> s.pushed - s.k.seen == s.cap
    ensures s'.dropped - s.dropped + s'.pushed - s.pushed == 1 && s'.pushed >= s.pushed
    ensures s'.k == if s.k.quit && s'.pushed > s.pushed then Tracking else Idle
  {
    AheadIs(s, s.pushed, s.k.seen);
    hide Ahead, Pos;
  }

  /** quit counts the records up to and with the QUIT: nothing is pushed between its push and
      the watchdog's start. */
  lemma QuitIsCounted(s: State, e: Step, s': State)
    requires Inv(s) && After(s, e) == Some(s')
    ensures s'.k.Tracking? && !s.k.Tracking? ==> s.k.Pushing? && s.k.quit && s'.pushed == s.pushed + 1
    ensures s.k.Tracking? || s.k.TrackedRpos? ==> s'.pushed == s.pushed && (s'.k.Tracking? || s'.k.TrackedRpos? || s'.wd.Some?)
    ensures s'.wd.Some? && s.wd.None? ==> s.k.TrackedRpos? && s'.wd.value.quit == s.pushed && s'.wd.value.missed == 0
    ensures s'.wd.Some? && s.wd.Some? ==> s'.wd.value.quit == s.wd.value.quit
    ensures s'.wd.None? && s.wd.Some? ==> s.k.Decided? && s.k.done
  {
    hide Ahead, Pos, Rounds;
  }

  // ---- whole runs -------------------------------------------------------------------------------------

  /** The state after the steps of run, if they can all be taken. */
  function Along(s: State, run: seq<Step>): Option<State> {
    if run == [] then Some(s) else
    var before := Along(s, run[..|run| - 1]);
    if before.None? || before.value.cap == 0 then None else After(before.value, run[|run| - 1])
  }

  lemma {:induction false} RunKeepsInv(s: State, run: seq<Step>, t: State)
    requires Initial(s) && Along(s, run) == Some(t)
    ensures Inv(t)
  {
    if run != [] {
      hide After, Inv;
      var m := Along(s, run[..|run| - 1]).value;
      RunKeepsInv(s, run[..|run| - 1], m);
      InvCap(m);
      StepKeepsInv(m, run[|run| - 1], t);
    }
  }

  lemma InvCap(s: State)
    requires Inv(s)
    ensures s.cap > 0
  {
  }

  /** The ring never holds more records than its capacity, and equal positions mean it is
      empty. */
  lemma OccupancyBounded(s: State, run: seq<Step>, t: State)
    requires Initial(s) && Along(s, run) == Some(t)
    ensures t.cap > 0 && t.consumed <= t.pushed <= t.consumed + t.cap
    ensures Pos(t, t.pushed) == Pos(t, t.consumed) <==> t.pushed == t.consumed
  {
    RunKeepsInv(s, run, t);
    AheadIs(t, t.pushed, t.consumed);
  }

  /** The watchdog only calls a request consumed when the consumer has passed the QUIT. */
  lemma DoneIsSound(s: State, run: seq<Step>, t: State, t': State)
    requires Initial(s) && Along(s, run) == Some(t) && t.cap > 0
    requires t.k.Looking? && After(t, GoOn) == Some(t') && t'.k.Decided? && t'.k.done
    ensures t.wd.Some? && t.wd.value.quit <= t.k.at <= t.consumed
  {
    RunKeepsInv(s, run, t);
    StepKeepsInv(t, GoOn, t');
  }

  /** What the watchdog answers, and when that is wrong: it calls the QUIT consumed exactly
      when the ring was empty or the consumer is past it by more than the rounds that went
      unseen. So the answer is wrong exactly when the consumer has passed it by less. */
  lemma DoneExactly(s: State, run: seq<Step>, t: State, t': State)
    requires Initial(s) && Along(s, run) == Some(t) && t.cap > 0
    requires t.k.Looking? && After(t, GoOn) == Some(t')
    ensures t.wd.Some? && t'.k.Decided? && t.wd.value.at <= t.k.at
    ensures var w, at := t.wd.value, t.k.at;
      var unseen := w.missed + Rounds(t, w.at, at);
      && (t'.k.done <==> at == t.pushed || w.quit + unseen <= at)
      && ((t'.k.done <==> w.quit <= at) <==> !(at != t.pushed && w.quit <= at < w.quit + unseen))
  {
    RunKeepsInv(s, run, t);
    AheadIs(t, t.pushed, t.k.at);
    AheadIs(t, t.k.at, t.wd.value.at);
  }

  ghost predicate Unmissed(s: State) {
    s.wd.Some? ==> s.wd.value.missed == 0
  }

  /** The consumer is less than a round past where the last look found it. */
  ghost predicate Close(s: State) {
    s.k.Looking? && s.wd.Some? ==> s.k.at < s.wd.value.at + 2 * s.cap
  }

  /** Fewer than 2 * cap records are consumed between any two looks of the run. */
  ghost predicate LooksOften(s: State, run: seq<Step>) {
    run == [] ||
    (var before := run[..|run| - 1];
     LooksOften(s, before) && (Along(s, before).Some? ==> Close(Along(s, before).value)))
  }

  lemma NoRoundNoMiss(s: State, e: Step, s': State)
    requires Inv(s) && Unmissed(s) && Close(s) && After(s, e) == Some(s')
    ensures Unmissed(s')
  {
    if s.k.Looking? && s.wd.Some? { AheadIs(s, s.k.at, s.wd.value.at); }
  }

  lemma {:induction false} NothingMissed(s: State, run: seq<Step>, t: State)
    requires Initial(s) && Along(s, run) == Some(t) && LooksOften(s, run)
    ensures Unmissed(t)
  {
    if run != [] {
      hide After, Inv, Initial, Close, Unmissed;
      var m := Along(s, run[..|run| - 1]).value;
      NothingMissed(s, run[..|run| - 1], m);
      RunKeepsInv(s, run[..|run| - 1], m);
      InvCap(m);
      NoRoundNoMiss(m, run[|run| - 1], t);
    }
  }

  /** In a run with fewer than 2 * cap records between looks the watchdog's answer is always
      right. */
  lemma DoneIsExact(s: State, run: seq<Step>, t: State, t': State)
    requires Initial(s) && Along(s, run) == Some(t) && LooksOften(s, run) && t.cap > 0
    requires t.k.Looking? && Close(t) && After(t, GoOn) == Some(t')
    ensures t.wd.Some? && t'.k.Decided? && (t'.k.done <==> t.wd.value.quit <= t.k.at)
  {
    NothingMissed(s, run, t);
    DoneExactly(s, run, t, t');
    AheadIs(t, t.k.at, t.wd.value.at);
  }

  lemma OneMore(s: State, run: seq<Step>, k: nat, m: State, m': State)
    requires k < |run| && m.cap > 0 && Along(s, run[..k]) == Some(m) && After(m, run[k]) == Some(m')
    ensures Along(s, run[..k + 1]) == Some(m')
  {
    hide After;
    assert run[..k + 1][..k] == run[..k];
  }

  lemma Begin(s: State, run: seq<Step>)
    ensures Along(s, run[..0]) == Some(s)
  {
  }

  const Small := State(1, 0, 0, 0, None, Idle)
  const Requested := [StartPush(true), GoOn, GoOn, GoOn]
  const Waiting := State(1, 1, 0, 0, Some(Watchdog(1, 0, 1, 0, 0)), Idle)
  const Busy := [Consume, StartPush(false), GoOn, Consume, StartPush(false), GoOn]

  lemma RequestMade()
    ensures Along(Small, Requested) == Some(Waiting)
  {
    hide Along;
    Begin(Small, Requested);
    OneMore(Small, Requested, 0, Small, Small.(k := Pushing(true, 0)));
    var a := Small.(pushed := 1, k := Tracking);
    OneMore(Small, Requested, 1, Small.(k := Pushing(true, 0)), a);
    OneMore(Small, Requested, 2, a, a.(k := TrackedRpos(0)));
    OneMore(Small, Requested, 3, a.(k := TrackedRpos(0)), Waiting);
    assert Requested[..4] == Requested;
  }

  /** A push that finds the ring empty. */
  lemma PushOnEmpty(s: State)
    requires s.cap == 1 && s.k == Idle && s.consumed == s.pushed
    ensures After(s, StartPush(false)) == Some(s.(k := Pushing(false, s.consumed)))
    ensures After(s.(k := Pushing(false, s.consumed)), GoOn) == Some(s.(pushed := s.pushed + 1))
  {
    AheadIs(s, s.pushed, s.consumed);
  }

  lemma ConsumeOne(s: State)
    requires s.cap > 0 && s.consumed < s.pushed
    ensures After(s, Consume) == Some(s.(consumed := s.consumed + 1))
  {
  }

  lemma ConsumerWentRound()
    ensures Along(Waiting, Busy) == Some(Waiting.(pushed := 3, consumed := 2))
  {
    hide Along, After;
    Begin(Waiting, Busy);
    var c := Waiting.(consumed := 1);
    var d := c.(pushed := 2);
    var e := d.(consumed := 2);
    ConsumeOne(Waiting);
    PushOnEmpty(c);
    ConsumeOne(d);
    PushOnEmpty(e);
    OneMore(Waiting, Busy, 0, Waiting, c);
    OneMore(Waiting, Busy, 1, c, c.(k := Pushing(false, 1)));
    OneMore(Waiting, Busy, 2, c.(k := Pushing(false, 1)), d);
    OneMore(Waiting, Busy, 3, d, e);
    OneMore(Waiting, Busy, 4, e, e.(k := Pushing(false, 2)));
    OneMore(Waiting, Busy, 5, e.(k := Pushing(false, 2)), e.(pushed := 3));
    assert Busy[..6] == Busy;
  }

  lemma LookAfterRound(t: State)
    requires t == Waiting.(pushed := 3, consumed := 2)
    ensures After(t, Look) == Some(t.(k := Looking(2)))
    ensures var r := After(t.(k := Looking(2)), GoOn); r.Some? && r.value.k == Decided(false, 2)
  {
    hide Rounds;
    var u := t.(k := Looking(2));
    assert Pos(u, 2) == 0 && Pos(u, 3) == 1;
    assert Ahead(u, 0, 0) == 0;
  }

  /** On a ring of one record, two consumed between looks go unnoticed, and a consumed request
      counts as ignored. */
  lemma LappingIsMissed()
    ensures Initial(Small) && Along(Small, Requested) == Some(Waiting)
    ensures var t := Waiting.(pushed := 3, consumed := 2);
      && Along(Waiting, Busy) == Some(t) && t.wd.value.quit <= t.consumed
      && After(t, Look) == Some(t.(k := Looking(2)))
      && After(t.(k := Looking(2)), GoOn).Some? && After(t.(k := Looking(2)), GoOn).value.k == Decided(false, 2)
  {
    hide Along, After;
    RequestMade();
    ConsumerWentRound();
    LookAfterRound(Waiting.(pushed := 3, consumed := 2));
  }
}
