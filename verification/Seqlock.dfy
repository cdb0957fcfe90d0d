/** The vDSO block: words of the kernel page that the kernel writes and the process reads,
    protected by a sequence word that is odd while a write is in progress. The kernel is the
    only writer; the reader copies several words one at a time and retries. */
module Seqlock {
  import opened Wrappers

  const WordSize := 0x1_0000_0000

  /** KP_VD_PID, PPID, PGID, SID, BOOT_LO, BOOT_HI, SCREEN_W, SCREEN_H. */
  const Fields := 8
  const MaxTries := 64

  type Version = v: seq<int> | |v| == Fields witness seq(Fields, i => 0)

  /** _vdsoPublish between its stores. */
  datatype Writer = Resting | Storing(next: Version, i: nat)

  /** _vdsoRead between its loads; at is the number of bumps when the sequence word was loaded. */
  datatype Reader =
    | Unstarted
    | First(tries: nat)
    | Copying(tries: nat, at: nat, out: seq<int>)
    | Returned(result: Option<seq<int>>, at: nat)

  /** What the read is for, and how many bumps there had been when it began. */
  datatype Read = Read(indices: seq<nat>, since: nat)

  datatype State = State(
    bumps: nat,              // KP_VD_SEQ holds bumps mod 2^32
    words: Version,
    versions: seq<Version>,  // everything ever published, after the page's initial zeroes
    w: Writer, r: Reader, read: Read)

  datatype Step = Publish(next: Version) | WriterGoesOn | Begin(indices: seq<nat>) | ReaderGoesOn

  function Word(n: nat): nat { n % WordSize }

  function WriterStep(s: State): Option<State> {
    match s.w
    case Resting => None
    case Storing(next, i) =>
      if i < Fields then Some(s.(words := s.words[i := next[i]], w := Storing(next, i + 1)))
      else Some(s.(bumps := s.bumps + 1, versions := s.versions + [next], w := Resting))
  }

  function Retry(s: State, tries: nat): State {
    s.(r := if tries + 1 < MaxTries then First(tries + 1) else Returned(None, s.bumps))
  }

  function ReaderStep(s: State): Option<State> {
    match s.r
    case Unstarted => None
    case First(tries) =>
      if Word(s.bumps) == 0 then Some(s.(r := Returned(None, s.bumps)))
      else if Word(s.bumps) % 2 == 1 then Some(Retry(s, tries))
      else Some(s.(r := Copying(tries, s.bumps, [])))
    case Copying(tries, at, out) =>
      if |out| < |s.read.indices| then
        var i := s.read.indices[|out|];
        if i < Fields then Some(s.(r := Copying(tries, at, out + [s.words[i]]))) else None
      else if Word(s.bumps) == Word(at) then Some(s.(r := Returned(Some(out), at)))
      else Some(Retry(s, tries))
    case Returned(_, _) => None
  }

  function After(s: State, e: Step): Option<State> {
    match e
    case Publish(next) => if s.w.Resting? then Some(s.(bumps := s.bumps + 1, w := Storing(next, 0))) else None
    case WriterGoesOn => WriterStep(s)
    case Begin(indices) =>
      if (s.r.Unstarted? || s.r.Returned?) && (forall i :: 0 <= i < |indices| ==> indices[i] < Fields)
      then Some(s.(r := First(0), read := Read(indices, s.bumps))) else None
    case ReaderGoesOn => ReaderStep(s)
  }

  ghost predicate Initial(s: State) {
    && s.bumps == 0 && s.words == seq(Fields, i => 0) && s.versions == [s.words]
    && s.w == Resting && s.r == Unstarted && s.read == Read([], 0)
  }

  // ---- what every step keeps -----------------------------------------------------------------

  /** The values of version v at the words a read asked for. */
  function Snapshot(v: Version, indices: seq<nat>): seq<int>
    requires forall i :: 0 <= i < |indices| ==> indices[i] < Fields
  {
    seq(|indices|, i requires 0 <= i < |indices| => v[indices[i]])
  }

  ghost predicate WriterInv(s: State) {
    && |s.versions| == s.bumps / 2 + 1
    && (match s.w
        case Resting => s.bumps % 2 == 0 && s.words == s.versions[s.bumps / 2]
        case Storing(next, i) =>
          && s.bumps % 2 == 1 && i <= Fields
          && s.words == next[..i] + s.versions[s.bumps / 2][i..])
  }

  ghost predicate ReaderInv(s: State) {
    && |s.versions| == s.bumps / 2 + 1
    && (forall i :: 0 <= i < |s.read.indices| ==> s.read.indices[i] < Fields)
    && s.read.since <= s.bumps
    && (s.r.First? || s.r.Copying? ==>
          s.r.tries < MaxTries && (s.r.tries > 0 ==> s.read.since % 2 == 1 || s.read.since < s.bumps))
    && (s.r.Copying? ==>
          && |s.r.out| <= |s.read.indices|
          && s.read.since <= s.r.at <= s.bumps && s.r.at % 2 == 0 && Word(s.r.at) != 0
          && (s.bumps == s.r.at ==> s.r.out == Snapshot(s.versions[s.r.at / 2], s.read.indices[..|s.r.out|])))
  }

  ghost predicate Inv(s: State) { WriterInv(s) && ReaderInv(s) }

  lemma WriterKeepsInv(s: State, e: Step, s': State)
    requires Inv(s) && (e.Publish? || e.WriterGoesOn?) && After(s, e) == Some(s')
    ensures Inv(s')
  {
  }

  lemma ReaderKeepsInv(s: State, e: Step, s': State)
    requires Inv(s) && (e.Begin? || e.ReaderGoesOn?) && After(s, e) == Some(s')
    ensures Inv(s')
  {
  }

  // ---- whole runs --------------------------------------------------------------------------------

  /** The state after the steps of run, if they can all be taken. */
  function Along(s: State, run: seq<Step>): Option<State> {
    if run == [] then Some(s) else
    var before := Along(s, run[..|run| - 1]);
    if before.None? then None else After(before.value, run[|run| - 1])
  }

  ghost predicate Reachable(t: State) {
    exists s, run :: Initial(s) && Along(s, run) == Some(t)
  }

  lemma {:induction false} RunKeepsInv(s: State, run: seq<Step>, t: State)
    requires Inv(s) && Along(s, run) == Some(t)
    ensures Inv(t)
  {
    if run != [] {
      hide Inv, After;
      var m := Along(s, run[..|run| - 1]).value;
      RunKeepsInv(s, run[..|run| - 1], m);
      var e := run[|run| - 1];
      if e.Publish? || e.WriterGoesOn? { WriterKeepsInv(m, e, t); } else { ReaderKeepsInv(m, e, t); }
    }
  }

  lemma ReachableInv(t: State)
    requires Reachable(t)
    ensures Inv(t)
  {
    var s, run :| Initial(s) && Along(s, run) == Some(t);
    RunKeepsInv(s, run, t);
  }

  lemma SameWord(a: nat, b: nat)
    requires b <= a < b + WordSize && Word(a) == Word(b)
    ensures a == b
  {
    assert a == WordSize * (a / WordSize) + Word(a) && b == WordSize * (b / WordSize) + Word(b);
  }

  /** A read that returns values returns those of one version, published when the read
      looked at the sequence word and still current when it returns, unless the word has
      gone all the way round in between. */
  lemma ReadsOneVersion(s: State, s': State)
    requires Reachable(s) && s.r.Copying? && After(s, ReaderGoesOn) == Some(s') && s'.r.Returned? && s'.r.result.Some?
    requires s.bumps < s.r.at + WordSize
    ensures s.w == Resting && s.read.since <= s.bumps == s.r.at
    ensures |s.versions| > 1 && (forall i :: 0 <= i < |s.read.indices| ==> s.read.indices[i] < Fields)
    ensures s'.r.result == Some(Snapshot(s.versions[|s.versions| - 1], s.read.indices))
  {
    ReachableInv(s);
    SameWord(s.bumps, s.r.at);
    assert s.read.indices[..|s.read.indices|] == s.read.indices;
  }

  /** A read whose words are all copied is accepted exactly when the sequence word has gone
      round a whole number of times since it looked: none, or else it may be torn. */
  lemma AcceptedExactly(s: State, s': State)
    requires Reachable(s) && s.r.Copying? && |s.r.out| == |s.read.indices| && After(s, ReaderGoesOn) == Some(s')
    ensures s.r.at <= s.bumps
    ensures s'.r == Returned(Some(s.r.out), s.r.at) <==> (s.bumps - s.r.at) % WordSize == 0
  {
    ReachableInv(s);
    var a, b := s.bumps, s.r.at;
    assert a == WordSize * (a / WordSize) + Word(a) && b == WordSize * (b / WordSize) + Word(b);
  }

  /** A read during which nothing is published never retries, and never comes back empty
      unless the sequence word is 0. */
  lemma UndisturbedReadSucceeds(s: State, s': State)
    requires Reachable(s) && (s.r.First? || s.r.Copying?) && After(s, ReaderGoesOn) == Some(s')
    requires s.bumps == s.read.since && s.w == Resting
    ensures s'.r.Copying? || (s'.r.Returned? && (s'.r.result.None? ==> Word(s.bumps) == 0))
    ensures (s.r.First? || s.r.Copying?) && s.r.tries == 0
  {
    ReachableInv(s);
  }

  /** This look at the sequence word shows that the words were, or may have been, written. */
  ghost predicate Spoilt(s: State) {
    (s.r.First? && s.bumps % 2 == 1) || (s.r.Copying? && |s.r.out| == |s.read.indices| && Word(s.bumps) != Word(s.r.at))
  }

  lemma ParityOfWord(n: nat)
    ensures Word(n) % 2 == n % 2
  {
    assert n == WordSize * (n / WordSize) + Word(n);
  }

  /** A spoilt try is followed by another, up to the sixty-fourth; a read comes back empty when
      that one is spoilt too or the sequence word is 0. */
  lemma GivesUpExactly(s: State, s': State)
    requires Reachable(s) && (s.r.First? || s.r.Copying?) && After(s, ReaderGoesOn) == Some(s')
    ensures s'.r.Returned? && s'.r.result.None? <==> (s.r.First? && Word(s.bumps) == 0) || (Spoilt(s) && s.r.tries == 63)
    ensures s'.r.First? <==> Spoilt(s) && s.r.tries < 63
    ensures !s'.r.Returned? ==> s'.r.tries == s.r.tries + if Spoilt(s) then 1 else 0
  {
    ReachableInv(s);
    ParityOfWord(s.bumps);
    hide Reachable, Word;
  }

  /** A bound on the steps a read still takes. */
  function ReadLeft(s: State): int {
    match s.r
    case First(tries) => Steps(64 - tries, |s.read.indices| + 2)
    case Copying(tries, _, out) => Steps(64 - tries, |s.read.indices| + 2) - 1 - |out|
    case _ => 0
  }

  function Steps(tries: int, each: nat): int { tries * each }

  lemma FewerSteps(tries: int, each: nat)
    requires 0 < tries <= 64
    ensures 0 <= Steps(tries - 1, each) == Steps(tries, each) - each && Steps(tries, each) <= 64 * each
  {
  }

  /** Whatever the kernel publishes meanwhile, a read ends after at most that many steps. */
  lemma ReadEnds(s: State)
    requires Reachable(s) && (s.r.First? || s.r.Copying?)
    ensures After(s, ReaderGoesOn).Some?
    ensures 0 <= ReadLeft(After(s, ReaderGoesOn).value) < ReadLeft(s) <= 64 * (|s.read.indices| + 2)
  {
    ReachableInv(s);
    hide Reachable, Steps, Word;
    FewerSteps(64 - s.r.tries, |s.read.indices| + 2);
  }

  /** Nor does anything the kernel does lengthen it. */
  lemma WriterDoesNotProlong(s: State, e: Step, s': State)
    requires (e.Publish? || e.WriterGoesOn?) && After(s, e) == Some(s')
    ensures ReadLeft(s') == ReadLeft(s) && s'.r == s.r
  {
  }

  // ---- when the sequence word goes all the way round ---------------------------------------

  lemma OneStepOn(s: State, e: Step, t: State)
    requires Reachable(s) && After(s, e) == Some(t)
    ensures Reachable(t)
  {
    hide After;
    var s0, run :| Initial(s0) && Along(s0, run) == Some(s);
    assert (run + [e])[..|run|] == run;
    assert Along(s0, run + [e]) == Some(t);
  }

  /** The writer finishes a publication that nothing disturbs. */
  lemma {:induction false} FinishPublishing(s: State) returns (t: State)
    requires Reachable(s) && s.w.Storing?
    ensures Reachable(t) && t.w == Resting && t.bumps == s.bumps + 1 && t.words == s.w.next && t.r == s.r && t.read == s.read
    decreases Fields - s.w.i
  {
    ReachableInv(s);
    var m := WriterStep(s).value;
    OneStepOn(s, WriterGoesOn, m);
    hide Reachable;
    if s.w.i < Fields {
      t := FinishPublishing(m);
    } else {
      t := m;
    }
  }

  lemma {:induction false} PublishAgain(s: State, next: Version, n: nat) returns (t: State)
    requires Reachable(s) && s.w == Resting && n > 0
    ensures Reachable(t) && t.w == Resting && t.bumps == s.bumps + 2 * n && t.words == next && t.r == s.r && t.read == s.read
  {
    hide Reachable;
    var m := s;
    if n > 1 {
      m := PublishAgain(s, next, n - 1);
    }
    var storing := m.(bumps := m.bumps + 1, w := Storing(next, 0));
    OneStepOn(m, Publish(next), storing);
    t := FinishPublishing(storing);
  }

  /** A read of words 0 and 1 has copied the first of them. */
  lemma HalfRead(before: Version) returns (s: State)
    ensures Reachable(s) && s.w == Resting && s.bumps == 2
    ensures s.r == Copying(0, 2, [before[0]]) && s.read == Read([0, 1], 2)
  {
    var start := State(0, seq(Fields, i => 0), [seq(Fields, i => 0)], Resting, Unstarted, Read([], 0));
    assert Initial(start) && Along(start, []) == Some(start);
    assert Reachable(start);
    hide Reachable;
    var a := PublishAgain(start, before, 1);
    var b := a.(r := First(0), read := Read([0, 1], a.bumps));
    OneStepOn(a, Begin([0, 1]), b);
    var c := b.(r := Copying(0, 2, []));
    OneStepOn(b, ReaderGoesOn, c);
    s := c.(r := Copying(0, 2, [before[0]]));
    assert [] + [before[0]] == [before[0]];
    OneStepOn(c, ReaderGoesOn, s);
  }

  /** The exception is real: 2^31 publications between two loads of one read let it return
      words of two versions. */
  lemma RoundTripTearsRead(before: Version, next: Version) returns (s: State, s': State)
    requires before[0] != next[0] && before[1] != next[1]
    ensures Reachable(s) && After(s, ReaderGoesOn) == Some(s')
    ensures s'.r.Returned? && s'.r.result == Some([before[0], next[1]])
  {
    hide Reachable;
    var d := HalfRead(before);
    var e := PublishAgain(d, next, WordSize / 2);
    s := e.(r := Copying(0, 2, [before[0], next[1]]));
    assert [before[0]] + [next[1]] == [before[0], next[1]];
    OneStepOn(e, ReaderGoesOn, s);
    s' := s.(r := Returned(Some([before[0], next[1]]), 2));
  }
}
