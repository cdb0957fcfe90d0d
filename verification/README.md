# A model of the gucOS kernel and of the code around it

This project models, in Dafny, the parts of the system whose correctness rests on invariants
over interleavings, over long runs, or over non-trivial data structures, and proves those
invariants.

* **The kernel's data plane.** `PipeRing` is the shared ring of a pipe, as a class over an
  array and as two processes whose loads, single-byte copies and stores interleave freely.
  `Doorbell` is the protocol by which a fast pipe's ends sleep and are woken, and
  `DoorbellReplies` what they are told. `Streams` is the buffer the kernel serves itself, with its
  queues of parked readers and writers. `ModeLadder` is the question of who may touch a ring
  while its mode changes.
* **The kernel's control plane.** `FdTable` is descriptors, open file descriptions, spawn and
  exit; `BlockRpc` the request, answer and interruption protocol between a process and the
  kernel; `Seqlock` the page of kernel-written words; `ProcessTree` spawn, exit, reparenting and
  wait; `Tty` the line discipline.
* **The window manager.** `ZOrder` is the stacking of anchored surfaces, and `Stacking` the places
  that restacking gives them; `CloseWatchdog` decides from ring positions whether a
  process has consumed a close request.
* **The C library.** `Fnmatch` with `Wildcards`, `HSearch`, and `AvlTree` with `TSearch`: wildcard
  matching, the hash table, and the balanced search tree with its path arrays.
* **Files.** `CfgStore` is the layered configuration store, with `StoreText` on what its lines and
  edits mean; `MergeTree` is the additive merge.

`Wrappers` and `Arith` hold small shared facts.

Concurrent parts are transition systems: one atomic load, store, message or copy is one step,
every process and the kernel have an explicit place in their code, and a lemma shows that every
step keeps the invariant from which the results about all runs follow. Sequential parts that
update fields are classes, whose methods are proved against functions or predicates of the old
and new state.

Some properties one might expect of the code do not hold of it without a condition. Each is
stated with that condition, and with a concrete run or input outside it:

* the ring's index words address it consistently, and the ring is a queue in every run, exactly
  when its capacity divides 2^32 (`PipeRing.WrapsConsistently`, `PipeRing.QueueExactly`);
* the fast reader reports end of file with bytes unread exactly when bytes were committed between
  its two loads (`Doorbell.EndOfFileDrains`, `Doorbell.EndOfFileTooEarly`);
* from a given promotion of a pipe no run loses a wake exactly when no write was parked then whose
  bytes fitted, as an interruption can leave one (`Doorbell.WokenExactly`,
  `Doorbell.PromotedStranded`); such a writer sleeps until the reader's first commit
  (`Doorbell.CommitEndsStranding`);
* a process about to sleep misses its answer exactly when the doorbell word has gone round a whole
  number of times since it was loaded (`BlockRpc.OversleepsExactly`,
  `BlockRpc.RoundTripLosesWake`), and a page read that was overtaken is accepted exactly in the
  same case (`Seqlock.AcceptedExactly`, `Seqlock.RoundTripTearsRead`);
* interrupting a parked process leaves a queue that could be served exactly when it was the first
  writer and the next one's bytes fit (`Streams.SettledAfterInterrupt`,
  `Streams.InterruptMayStrand`);
* regrouping a process makes it miss a child exactly when it waits for its own group and has a
  zombie child in the new one (`ProcessTree.Regrouped`, `ProcessTree.RegroupingMisses`);
* a value set in the configuration store is found again exactly when it is a non-empty single
  line that fits the caller's buffer and has no blanks around it, and its key has no newline and
  does not begin like a comment (`CfgStore.SetThenFind`, `CfgStore.SetThenLookup`); and editing a
  key never changes another's answer exactly when neither goes on after the other with a blank
  (`CfgStore.OthersExactly`);
* a negated bracket expression accepts a character exactly when the plain one does not, exactly
  when no range that takes its start from before the list decides it
  (`Wildcards.NegationExactly`, `Wildcards.StartlessDiffers`);
* the close watchdog wrongly takes a consumed request for an ignored one exactly when the consumer
  has passed it by fewer records than the whole rounds consumed between two looks
  (`CloseWatchdog.DoneExactly`, `CloseWatchdog.LappingIsMissed`);
* a merge that succeeds gives the files the source's modes exactly when no temporary file left by
  an earlier run has another mode (`MergeTree.FinishedIsMerged`, `MergeTree.StaleModeStays`), and
  in the same case exactly any stopped and failed runs followed by a complete one give what one
  complete run gives (`MergeTree.ConvergesExactly`, `MergeTree.FailedRunChangesMode`); runs that are
  stopped but never fail do so in any case (`MergeTree.StoppedCalmlyConverge`).

## Model

The C library sources are all in one string on line 7 of `guc/libc-ext.js`; the rows below name
the C file in their third column.

| member | source | states |
|---|---|---|
| PipeRing.WrapsConsistently | guc/kernel.js:412-416 | a capacity is consistent with free-running u32 indices exactly when it divides 2^32 |
| PipeRing.Ring.Put | guc/kernel.js:422-428 | the bytes are appended to the unread contents, whatever the wrap of the area or of the index |
| PipeRing.Ring.TakeInto | guc/kernel.js:432-439 | the first n unread bytes are copied out and dropped, and the rest of the destination is untouched |
| PipeRing.PutAppends | guc/kernel.js:422-428 | bytes copied in behind the unread ones in two segments extend the unread span |
| PipeRing.TakeFacts | guc/kernel.js:432-439 | advancing the head word by n drops exactly the first n unread bytes, across the wrap of the word |
| PipeRing.CopiedOut | guc/kernel.js:432-439 | two segments copied from the head are the span of unread bytes, in order |
| PipeRing.StepKeepsInv | guc/kernel.js:412-439 | every atomic step of either side keeps the ring's invariant |
| PipeRing.RingIsFifo | guc/kernel.js:412-439 | after any interleaving, delivered bytes followed by the ring's contents are the accepted bytes |
| PipeRing.TransfersDisjoint | guc/kernel.js:422-439 | bytes being written and bytes being read at the same time are different bytes of the area |
| PipeRing.NeverStuck | guc/kernel.js:417-439 | no load ever yields a negative space or a bad index: both sides can always go on |
| PipeRing.StepRefinesQueue | guc/kernel.js:412-439 | each step of the interleaved ring is a put, a take or nothing on a byte queue |
| PipeRing.QueueExactly | guc/kernel.js:412-439 | a ring of fewer than 2^32 bytes is a queue in every run exactly when its capacity divides 2^32 |
| PipeRing.BreaksFifo | guc/kernel.js:3252-3255 | a run that breaks the order, for every other capacity |
| Doorbell.StepKeepsInv | guc/kernel.js:4109-4166 | every step of producer, consumer and kernel, fast, waiting or brokered, keeps the protocol's invariant |
| Doorbell.ProducerKeepsWake | guc/kernel.js:8586-8609 | no load, decision or commit of a fast writer loses a reader's or its own wake |
| Doorbell.ConsumerKeepsWake | guc/kernel.js:8514-8529 | the same for a fast reader |
| Doorbell.ServeKeepsWake | guc/kernel.js:7439-7467 | raising the flag before the scan, parking, and cancelling a wait lose no wake |
| Doorbell.StreamKeepsWake | guc/kernel.js:7472-7517 | a read or write left to the kernel, with its flag raised before its second look at the indices, loses no wake |
| Doorbell.NotifyKeepsWake | guc/kernel.js:7527-7592 | serving the waiters parked before promotion, and the end of a notify, lose no wake |
| Doorbell.LookKeepsInv | guc/kernel.js:7347-7360 | re-scanning one deferred select keeps the invariant |
| Doorbell.WakeIsNeverLost | guc/kernel.js:384-391 | in every reachable state a parked end whose wake is due has a peer between its commit and its kick, or a kernel turn about to look at it, or is a writer whose bytes fitted already at promotion and whose reader has taken nothing since |
| Doorbell.WokenExactly | guc/kernel.js:384-391 | from a given promotion no run loses a wake exactly when no write was parked whose bytes fitted |
| Doorbell.PromotedStranded | guc/kernel.js:2319-2334 | such a promotion |
| Doorbell.NeverBothAsleep | guc/kernel.js:384-391 | with nothing in flight a parked end has nothing to wake for, or a peer about to look at its flag, or is that stranded writer; and the two ends are never both parked |
| Doorbell.CommitEndsStranding | guc/kernel.js:8524-8529 | the reader's first commit finds the stranded writer's flag up and kicks it |
| Doorbell.ReadTakes | guc/kernel.js:8517-8525 | a fast read, however interleaved and however often it sleeps, takes the lesser of the count it began with and of what it saw on its last look |
| Doorbell.WritePuts | guc/kernel.js:8591-8604 | a fast write puts in the lesser of its count and of the space it saw, and at most 512 bytes as a whole |
| Doorbell.KernelMoves | guc/kernel.js:7472-7517 | the kernel moves for a read or write, at once or parked, the lesser of its count and of what it saw, small writes whole, and nothing once the reader has gone |
| Doorbell.KernelSees | guc/kernel.js:7527-7580 | what it saw is what there was when it decided |
| DoorbellReplies.FlagsAreSleepers | guc/kernel.js:383-391 | in every reachable state between turns of the kernel a flag is up exactly when its process is parked, so a commit rings the kernel exactly for a sleeper |
| DoorbellReplies.RingsExactly | guc/kernel.js:8523 | after its commit a process calls the kernel if the other end's flag is up and goes on if not |
| DoorbellReplies.SleeperGoesOn | guc/kernel.js:4133-4164 | in every run a fast read or write that sleeps looks at the ring again only after the kernel has found its end ready in that very turn, and otherwise ends only when it is cancelled |
| DoorbellReplies.OthersEnd | guc/kernel.js:2383-2392 | a close is answered only with its bit set, and leaves the process gone; a kick, a select or a stream request leaves it free |
| DoorbellReplies.ClosedIsGone | guc/kernel.js:2383-2392 | a close whose turn is over leaves its process gone |
| DoorbellReplies.ReadDecides | guc/kernel.js:8519-8527 | a fast read takes bytes if there are any, ends if the writer has gone, and else sleeps |
| DoorbellReplies.WriteDecides | guc/kernel.js:8591-8604 | a fast write ends if the reader has gone, sleeps if there is no room or too little for a small write, and else commits |
| DoorbellReplies.ScanSees | guc/kernel.js:7237-7300 | a wait or select is found ready exactly when there are bytes, or room, or the other end has gone |
| DoorbellReplies.StreamReadDecides | guc/kernel.js:7472-7491 | a read left to the kernel moves bytes exactly when some are wanted and there, parks exactly when some may still come, and else is answered empty |
| DoorbellReplies.StreamWriteDecides | guc/kernel.js:7493-7517 | a write left to the kernel is refused, parks or moves bytes, each in exactly its own case |
| DoorbellReplies.PassServes | guc/kernel.js:7527-7580 | a pass serves a parked read or write exactly when there is something for it |
| Doorbell.TurnGoesDown | guc/kernel.js:7527-7580 | every kernel step of a turn lowers a bound on what is left of it, so the service loop ends |
| Doorbell.OthersDoNotProlong | guc/kernel.js:8514-8609 | no step of a process lengthens a kernel turn |
| Doorbell.TurnNeverSticks | guc/kernel.js:7527-7592 | a turn that has begun can always go on |
| Doorbell.EndOfFileDrains | guc/kernel.js:8519-8526 | a fast end of file leaves no byte behind exactly when no step between the reader's load of the indices and its load of the flags moved the tail |
| Doorbell.EndOfFileTooEarly | guc/kernel.js:8519-8526 | a run in which it does leave one |
| ModeLadder.StepKeepsInv | guc/kernel.js:392-401 | every step keeps the mode's promise and a straggler's solitude, and the mode only moves LATENT, FAST, DEMOTED |
| ModeLadder.HoldKeepsCore | guc/kernel.js:2290-2298 | a new holder demotes a fast pipe and never joins the end of a straggler |
| ModeLadder.DropKeepsCore | guc/kernel.js:2308-2336 | losing a holder, and the promotion it may bring, keep the promise |
| ModeLadder.OneAgentPerEnd | guc/kernel.js:392-401 | in every reachable state at most one agent, process or kernel, moves bytes at each end |
| ModeLadder.RefIsHold | guc/kernel.js:2290-2298 | a reference counted in the descriptor tables is exactly this machine's Hold on the pipe it is an end of |
| ModeLadder.UnrefIsDrop | guc/kernel.js:2308-2349 | a reference released is its Drop or, if the process has others, its look at promotion |
| FdTable.Kernel.constructor | guc/kernel.js:2169-2172 | the empty tables with a first process satisfy the invariant |
| FdTable.Kernel.OfdRef | guc/kernel.js:2290-2298 | one more reference is counted, in all and for its holder, and a second holder of a fast end demotes the pipe |
| FdTable.Kernel.PipeMaybePromote | guc/kernel.js:2308-2336 | a latent pipe becomes fast exactly when each end has one holder, running and untraced |
| FdTable.Kernel.OfdUnref | guc/kernel.js:2338-2393 | one reference less; the last one releases the description and closes its pipe's end |
| FdTable.RefBalanced | guc/kernel.js:2290-2298 | taking a reference keeps all counts right and fast pipes single |
| FdTable.UnrefBalanced | guc/kernel.js:2338-2393 | so does dropping one, with promotion and with release, and pipes only move forward |
| FdTable.RefsAreEntries | guc/kernel.js:2275-2298 | refs is the number of table entries and trace references, shares are those of each process, and no entry dangles |
| FdTable.ReleasedWhenUnnamed | guc/kernel.js:2350-2392 | a description has been released exactly when nothing names it, and only once |
| FdTable.FastPipeIsSingle | guc/kernel.js:392-401 | each end of a fast pipe is held by one process and never by the kernel, and an end is open exactly while something names it |
| FdTable.Kernel.DupFrom | guc/kernel.js:4052-4081 | the lowest free descriptor from the minimum on names the same description; EBADF changes nothing |
| FdTable.Kernel.Dup2 | guc/kernel.js:4061-4072 | the new descriptor is redirected, its old description released; equal descriptors change nothing |
| FdTable.Kernel.Close | guc/kernel.js:3768-3775 | exactly that entry goes, and the invariant and the forward motion of pipes hold |
| FdTable.Kernel.OpenFile | guc/kernel.js:3758-3765 | a new description at the lowest free descriptor |
| FdTable.Kernel.MakePipe | guc/kernel.js:3257-3268 | two new ends at the two lowest free descriptors, open and latent |
| FdTable.Kernel.Act | guc/kernel.js:2863-2908 | slot by slot, what each spawn file action does to the table, and exactly when it fails without changing it |
| FdTable.AllActedInOrder | guc/kernel.js:2861-2916 | actions take effect one after the other up to the first that fails |
| FdTable.Kernel.CloseFrom | guc/kernel.js:2893-2907 | every descriptor from the bound on goes, each through its own release |
| FdTable.Kernel.Inherit | guc/kernel.js:2825-2831 | the child names everything its parent names, counted |
| FdTable.Kernel.Spawn | guc/kernel.js:2821-2916 | the child starts with all its parent has, traced to what was asked for or to what its parent is; the actions take effect in order; it fails exactly on a bad trace or on an action that fails on what those before it made, and then leaves the table as it was |
| FdTable.Kernel.Exit | guc/kernel.js:7988-8003 | every descriptor and the trace reference of the process go, and nothing else |
| FdTable.Kernel.Reap | guc/kernel.js:7980-7984 | a process with nothing left in the tables leaves them as they are |
| Streams.BytesConserved | guc/kernel.js:7472-7517 | bytes delivered followed by those buffered are those buffered before followed by those accepted |
| Streams.WritesLandWhole | guc/kernel.js:7502-7516 | a write of at most PIPE_ATOMIC bytes, and any pty write, lands as a whole, and no pipe is overfilled |
| Streams.GaveMeans | guc/kernel.js:7472-7491 | a read is given a prefix of the stream, all it asked for or all there is, and nothing only at end of file or if it asked for nothing; parked readers are served from the front |
| Streams.TookMeans | guc/kernel.js:7493-7517 | a write goes to the end of the stream, cut short only if it is larger than 512 bytes, no pty's, and fills the stream; parked writers are served from the front, and the count told is that of the bytes landed or, for a pty, written |
| Streams.RefusedMeans | guc/kernel.js:7566-7577 | only a writer with an end closed is refused, with EIO on a pty and EPIPE elsewhere |
| Streams.WaitsExactly | guc/kernel.js:7502-7506 | a write waits exactly when there is no room, or not enough for one that may not be split |
| Streams.SettledIsAtRest | guc/kernel.js:7519-7526 | when no queue can be served, parked readers mean an empty stream and parked writers a non-empty one with both ends open |
| Streams.NeverBothParked | guc/kernel.js:7519-7526 | readers and writers are never parked together |
| Streams.SettledAfterInterrupt | guc/kernel.js:2990-2996 | cancelling a waiter leaves a queue that could be served exactly when it was the first writer and the next one's bytes fit |
| Streams.InterruptMayStrand | guc/kernel.js:2990-2996 | a run in which that happens |
| Streams.EffectKeeps | guc/kernel.js:7957-7978 | answering or cancelling a waiter keeps the queues and sizes right |
| Streams.CookedSize | guc/kernel.js:559-567 | output processing at most doubles a write |
| Streams.CookedMeans | guc/kernel.js:7396 | a newline gets a return in front of it, any other byte stays |
| Streams.CookedConcat | guc/kernel.js:7396 | and so through the whole of the data |
| Streams.Stream.ServeReaders | guc/kernel.js:7536-7553 | readers are answered from the front, each rightly, until none can be |
| Streams.Stream.ServeWriters | guc/kernel.js:7554-7580 | writers are answered from the front, each rightly, until none can be |
| Streams.Stream.PipeNotify | guc/kernel.js:7525-7592 | the service loop ends with nothing left to serve, and only right answers were given, none of them an interruption |
| Streams.Stream.StreamRead | guc/kernel.js:7472-7491 | bytes at once, end of file at once, or the reader parks; every answer that follows is justified and none is an interruption; a read that takes bytes leaves nothing that could be served |
| Streams.Stream.StreamWrite | guc/kernel.js:7493-7517 | EPIPE with an end closed, parking with no room, else as much as there is room for, after which nothing can be served |
| Streams.Stream.PtySlaveWrite | guc/kernel.js:7380-7412 | processed output lands whole or parks whole, and the writer is told its own byte count |
| Streams.Stream.Echo | guc/kernel.js:2500-2503 | echo enters the buffer without bound and keeps the invariant |
| Streams.Stream.CloseEnd | guc/kernel.js:2383-2392 | peers parked at the other end are told, and nothing can be served afterwards |
| Streams.Stream.Interrupt | guc/kernel.js:2990-2996 | EINTR for that process only, and the invariant holds |
| BlockRpc.StepKeepsInv | guc/kernel.js:1313-1337 | every step of process and kernel keeps the protocol's invariant |
| BlockRpc.OneAnswerEach | guc/kernel.js:3099-3119 | answers are given once for each request and in order, and the process receives what was said |
| BlockRpc.InterruptsOnlyItsOwn | guc/kernel.js:2990-2996 | a krpc-intr that cancels a parked request was sent by that request |
| BlockRpc.InterruptedBySelf | guc/kernel.js:1328-1331 | every EINTR a process receives is its own request's doing |
| BlockRpc.SleepsOnlyWithReason | guc/kernel.js:1319-1333 | a sleeping process has nothing to wake for, or the kernel is between its store and its ring, or the doorbell word went round |
| BlockRpc.OversleepsExactly | guc/kernel.js:1319-1333 | a process that compares with its wake due and no ring to come falls asleep exactly when the doorbell was rung a whole number of rounds since its load |
| BlockRpc.QuietSleep | guc/kernel.js:1319-1333 | with kernel and channel at rest a sleeper's request is in the kernel, and if parked no deliverable signal is unannounced |
| BlockRpc.InterruptionQueued | guc/kernel.js:2990-2996 | the interruption of a request still parked is still queued |
| BlockRpc.SignalsConserved | guc/kernel.js:1399-1408 | signals posted are those claimed and those pending |
| BlockRpc.PollClaims | guc/kernel.js:1399-1408 | a poll claims exactly what is pending and not blocked, leaves none of that behind, and ends empty-handed only when it loaded none; nothing else claims or clears a signal |
| BlockRpc.RoundTripLosesWake | guc/kernel.js:1319-1333 | from any state about to sleep, 2^32 rings lead to a process asleep with its answer there and the kernel at rest |
| BlockRpc.OversleepsUntilRung | guc/kernel.js:1319-1333 | it sleeps on until some other event rings |
| BlockRpc.SomeProcessIsAboutToSleep | guc/kernel.js:1313-1333 | such a state is reachable |
| Seqlock.WriterKeepsInv | guc/kernel.js:7879-7892 | every store of the writer leaves the words a mix of two adjacent versions, marked odd |
| Seqlock.ReaderKeepsInv | guc/kernel.js:1423-1434 | every load of the reader extends a copy of one version unless the writer has moved |
| Seqlock.ReadsOneVersion | guc/kernel.js:1423-1434 | values returned are those of one version, published before the read looked and current when it returns, unless the word went round |
| Seqlock.AcceptedExactly | guc/kernel.js:1423-1434 | a completed read is accepted exactly when the sequence word has gone round a whole number of times since it looked |
| Seqlock.UndisturbedReadSucceeds | guc/kernel.js:1423-1434 | a read with no write beside it never retries and is empty only on a zero sequence word |
| Seqlock.GivesUpExactly | guc/kernel.js:1423-1434 | a spoilt try is followed by another, up to the sixty-fourth; a read comes back empty exactly when that one is spoilt or the sequence word is 0 |
| Seqlock.ReadEnds | guc/kernel.js:1423-1434 | whatever is published meanwhile, a read can always go on and ends within 64 times two steps more than the words it asks for |
| Seqlock.RoundTripTearsRead | guc/kernel.js:1423-1434 | 2^31 publications inside one read can tear it |
| ProcessTree.ReapKeepsTree | guc/kernel.js:7980-7984 | reaping a childless process keeps everyone else listed by one living, older parent |
| ProcessTree.AdoptKeepsTree | guc/kernel.js:8030-8040 | so does giving a dying process's child to init |
| ProcessTree.AdoptedStep | guc/kernel.js:8030-8049 | a zombie that reaches a waiting init is answered at once, so nobody is missed |
| ProcessTree.AnsweredInv | guc/kernel.js:8068-8072 | answering a parked wait keeps the table's invariant and reports the status once |
| ProcessTree.Processes.Exit | guc/kernel.js:7988-8084 | children go to init, which is told of a zombie among them if it waits for it; the status goes to a parent exactly if it waits for any child, this one or its group, stays in a zombie otherwise, and an orphan is reaped; nobody else is told and nobody else's wait changes |
| ProcessTree.Processes.Wait | guc/kernel.js:7919-7955 | which children a wait concerns, selector by selector; the first of them that has died is reported and reaped, in the order of their coming; ECHILD exactly without any, WNOHANG and parking otherwise |
| ProcessTree.SelectorMeans | guc/kernel.js:7912-7917 | any child, one child, the caller's group or a given group |
| ProcessTree.Processes.Spawn | guc/kernel.js:2745-2752 | a new pid, listed by its parent, in the right group |
| ProcessTree.Processes.SetPgid | guc/kernel.js:7900-7908 | when regrouping is allowed, that it keeps the tree, and exactly when it makes the process miss a child |
| ProcessTree.Processes.InterruptWait | guc/kernel.js:2990-2996 | a signal ends a parked wait and nothing else |
| ProcessTree.Regrouped | guc/kernel.js:7900-7908 | everybody is still answered exactly unless the process waits for its own group and has a zombie child in the new one |
| ProcessTree.RegroupingMisses | guc/kernel.js:7900-7908 | a run of spawns, a wait, an exit and a regrouping after which a zombie child is missed |
| Tty.BurstsDoNotMatter | guc/kernel.js:1838-1915 | any division of input into bursts gives the same line, readable bytes, end-of-file flag, echo and signals |
| Tty.FedConcat | guc/kernel.js:1838-1915 | two bursts are as good as one |
| Tty.Terminal.Input | guc/kernel.js:1838-1915 | a burst has the effect of its bytes one after the other, although raw bytes are held back |
| Tty.Terminal.Edit | guc/kernel.js:1878-1908 | erase, kill, end of file, newline and ordinary characters in canonical mode |
| Tty.TypesLine | guc/kernel.js:1900-1908 | text and the key that ends a line give readers the line and its newline, and the screen the text and a line end |
| Tty.TypesEof | guc/kernel.js:1895-1899 | the end-of-file key gives readers the line without a newline, or an end of file |
| Tty.TypesKill | guc/kernel.js:1886-1894 | the kill key takes the line away, rubbing each character out |
| Tty.TypesSignal | guc/kernel.js:1851-1876 | a signal key gives its signal, discards input unless it must not, and shows its name |
| Tty.TypesRaw | guc/kernel.js:1909-1912 | without line editing bytes are readable as typed |
| Tty.TranslatesRaw | guc/kernel.js:1843-1849 | the translation of line ends |
| Tty.SomeWidths | guc/kernel.js:1754-1769 | wide and narrow characters |
| Tty.EncodedCells | guc/kernel.js:1789-1805 | the code point of a character is read from the low bits of its bytes |
| Tty.MalformedCells | guc/kernel.js:1789-1805 | bytes that begin no character, and characters cut short or too long, take one cell |
| Tty.Terminal.PopChar | guc/kernel.js:1789-1806 | the loop removes the last character as the tail function defines it, and its cells |
| Tty.CellsOfScalar | guc/kernel.js:1797-1805 | the bytes of a Unicode scalar value decode back to it |
| Tty.EraseTakesOneCharacter | guc/kernel.js:1781-1806 | on UTF-8 text an erase removes exactly the last character and counts its cells |
| Tty.EraseOnText | guc/kernel.js:1879-1886 | so does the erase character, with the echo a user sees |
| ZOrder.TreeMembers | guc/kernel.js:6354-6366 | the depth-first walk lists everything under a surface, once |
| ZOrder.SiblingsInOrder | guc/kernel.js:6354-6366 | what is under an elder sibling is stacked below what is under a younger one, and all of it above what they are anchored to |
| ZOrder.SortedByLayer | guc/kernel.js:6342-6347 | sorting by layer permutes, sorts, and keeps the order in each layer |
| ZOrder.NormalizedIsNormal | guc/kernel.js:6342-6377 | normalising gives a normal stacking that keeps the order of top-level surfaces in each layer |
| ZOrder.NormalizeTwice | guc/kernel.js:6342-6377 | normalising a normal stacking changes nothing |
| ZOrder.NormalMeans | guc/kernel.js:6348-6353 | in a normal stacking layers never go down, and every surface is directly followed by its whole anchored tree |
| ZOrder.LostNormal | guc/kernel.js:4952-4981 | taking a surface without children away keeps a stacking normal |
| ZOrder.LostTrees | guc/kernel.js:4952-4981 | the depth-first walks of what remains are the old ones without that surface |
| ZOrder.Wm.Emit | guc/kernel.js:6355-6366 | a surface's tree is appended and put on its layer, nothing else changes |
| ZOrder.Wm.ZNormalize | guc/kernel.js:6340-6377 | the stacking becomes the normalised one, with every anchored surface on its root's layer |
| ZOrder.Wm.AnchorRoot | guc/kernel.js:5094-5101 | the loop finds the top-level surface |
| ZOrder.Wm.CreateSurface | guc/kernel.js:4660-4760 | a new surface comes to the top of the middle layer, or last in its anchor's tree; the others keep their order and layers, and refusals change nothing |
| ZOrder.Wm.Focus | guc/kernel.js:6403-6427 | the root comes to the top of its layer's top-level surfaces, the others keep their order, and the stacking is normal |
| ZOrder.Wm.Restack | guc/kernel.js:6604-6617 | the surface comes to the top, or the bottom, of its layer and the others keep their order; anchored surfaces are refused |
| ZOrder.Wm.SetLayer | guc/kernel.js:6386-6399 | exactly the tree of that surface changes layer, coming from below to its bottom and from above to its top, and the others keep their order |
| ZOrder.Wm.DestroySurface | guc/kernel.js:4952-4985 | exactly what is under the surface goes, the rest keeps its order, and the stacking stays normal |
| Stacking.RaisedIsOnTop | guc/kernel.js:6403-6427 | after a focus or a raise everything under the root stands above everything else on its layer |
| Stacking.LoweredIsAtBottom | guc/kernel.js:6604-6617 | after a lowering it stands below everything else on its layer |
| Stacking.EntersLayer | guc/kernel.js:6386-6399 | a tree that changes layer comes to stand below everything on a higher one and above everything on a lower one |
| Stacking.TreesInOrder | guc/kernel.js:6342-6377 | surfaces stand in the order of the top-level surfaces they are anchored to |
| CloseWatchdog.AheadIs | guc/kernel.js:5557-5560 | positions modulo twice the capacity tell counts less than a round apart |
| CloseWatchdog.StepKeepsInv | guc/kernel.js:5555-5576 | every step of kernel and consumer keeps the ring's and the watchdog's invariant |
| CloseWatchdog.OccupancyBounded | guc/kernel.js:5555-5576 | the ring never holds more than its capacity, and equal positions mean it is empty |
| CloseWatchdog.DropsExactly | guc/kernel.js:5555-5576 | a record is dropped exactly when the ring was full as the kernel looked |
| CloseWatchdog.QuitIsCounted | guc/kernel.js:5651-5658 | the watchdog starts from the count of records up to the QUIT, keeps it, and ends only when it has called the request consumed |
| CloseWatchdog.DoneIsSound | guc/kernel.js:5660-5670 | a request counts as consumed only when the consumer has passed it |
| CloseWatchdog.DoneExactly | guc/kernel.js:5660-5670 | what the watchdog answers in every run, and that it is wrong exactly when the consumer has passed the QUIT by fewer records than went unseen in whole rounds |
| CloseWatchdog.DoneIsExact | guc/kernel.js:5660-5670 | in every run with fewer than twice the capacity consumed between looks the answer is right |
| CloseWatchdog.NoRoundNoMiss | guc/kernel.js:5609-5614 | nothing goes unseen while fewer than a round is consumed between looks |
| CloseWatchdog.LappingIsMissed | guc/kernel.js:5609-5614 | a run in which a whole round goes unnoticed |
| HSearch.ProbesDistinct | guc/libc-ext.js:7 | hsearch.c: the first 2^k probes of a table of 2^k slots never meet |
| HSearch.ProbesCoverTable | guc/libc-ext.js:7 | hsearch.c: so they visit every slot |
| HSearch.WrappedProbe | guc/libc-ext.js:7 | hsearch.c: the wrapping size_t index, masked, is the unwrapped probe |
| HSearch.AbsentIfFreeFirst | guc/libc-ext.js:7 | hsearch.c: a free slot before the key proves the key absent |
| HSearch.FillKeepsWellformed | guc/libc-ext.js:7 | hsearch.c: filling the first free slot of a key's path keeps every key reachable |
| HSearch.Table.ProbeFor | guc/libc-ext.js:7 | hsearch.c: lookup ends, at the key's slot or at the first free one |
| HSearch.Table.Rehash | guc/libc-ext.js:7 | hsearch.c: one entry moves to the new table |
| HSearch.Table.RehashAll | guc/libc-ext.js:7 | hsearch.c: the new table holds the same map |
| HSearch.Table.Resize | guc/libc-ext.js:7 | hsearch.c: resize keeps the map, or fails and changes nothing |
| HSearch.Table.Search | guc/libc-ext.js:7 | hsearch.c: hsearch_r finds and enters as a finite map does, with its failures |
| HSearch.Create | guc/libc-ext.js:7 | hsearch.c: hcreate_r makes an empty map |
| Fnmatch.LeftmostPlacement | guc/libc-ext.js:7 | fnmatch.c: after a star, taking a component at its leftmost place loses no match |
| Fnmatch.TailMatches | guc/libc-ext.js:7 | fnmatch.c: the tokens after the last star match exactly the last characters, independently of the rest |
| Fnmatch.FrontMatches | guc/libc-ext.js:7 | fnmatch.c: tokens before the first star match exactly as many characters |
| Fnmatch.SkipOne | guc/libc-ext.js:7 | fnmatch.c: when a component does not fit at the front, the star may take one character |
| Fnmatch.TooShort | guc/libc-ext.js:7 | fnmatch.c: a component longer than the string cannot be placed |
| Fnmatch.NextStable | guc/libc-ext.js:7 | fnmatch.c: pat_next reads the same token with or without a limit beyond it |
| Fnmatch.NextBracket | guc/libc-ext.js:7 | fnmatch.c: what pat_next calls a bracket expression is well formed |
| Fnmatch.PatNext | guc/libc-ext.js:7 | fnmatch.c: pat_next's loops find the token the grammar defines |
| Fnmatch.MatchBracket | guc/libc-ext.js:7 | fnmatch.c: match_bracket is true exactly when some element covers the character, negation aside |
| Fnmatch.Head | guc/libc-ext.js:7 | fnmatch.c: the head loop decides the match or leaves an equivalent one after a star |
| Fnmatch.FindTail | guc/libc-ext.js:7 | fnmatch.c: the tail is everything after the last star, counted |
| Fnmatch.MatchTail | guc/libc-ext.js:7 | fnmatch.c: the tail loop compares it position by position |
| Fnmatch.TryComponent | guc/libc-ext.js:7 | fnmatch.c: one component is placed, misfits, or cannot be placed anywhere |
| Fnmatch.Sea | guc/libc-ext.js:7 | fnmatch.c: the greedy loop over the components decides the match |
| Fnmatch.FnmatchInternal | guc/libc-ext.js:7 | (fnmatch.c, fnmatch_internal) 0 exactly when the string is accepted by the pattern and the period rule holds |
| Wildcards.Nothing | guc/libc-ext.js:7 | (fnmatch.c, pat_next) the empty pattern accepts the empty string only |
| Wildcards.AtomThen | guc/libc-ext.js:7 | (fnmatch.c, fnmatch_internal) a pattern for one character followed by another pattern: the first character matches the one by itself, the rest the other |
| Wildcards.AtomTakesOne | guc/libc-ext.js:7 | (fnmatch.c, fnmatch_internal) such a pattern accepts strings of one character only |
| Wildcards.StarThen | guc/libc-ext.js:7 | (fnmatch.c, fnmatch_internal) '*' before a pattern lets it accept from anywhere on |
| Wildcards.AnyCharacter | guc/libc-ext.js:7 | (fnmatch.c, pat_next) '?' accepts every character |
| Wildcards.Ordinary | guc/libc-ext.js:7 | (fnmatch.c, pat_next) an ordinary character accepts itself and, with case folding, its other case |
| Wildcards.Escaped | guc/libc-ext.js:7 | (fnmatch.c, pat_next) so does an escaped character, special or not |
| Wildcards.LoneBracket | guc/libc-ext.js:7 | (fnmatch.c, pat_next) an opening bracket that nothing closes accepts itself |
| Wildcards.Members | guc/libc-ext.js:7 | (fnmatch.c, match_bracket) a bracket expression that lists characters accepts exactly those |
| Wildcards.RangeOf | guc/libc-ext.js:7 | (fnmatch.c, match_bracket) one of a range accepts what lies in it, and its ends even if it is empty |
| Wildcards.InRange | guc/libc-ext.js:7 | (fnmatch.c, match_bracket) a range that is not empty, without case folding |
| Wildcards.Union | guc/libc-ext.js:7 | (fnmatch.c, match_bracket) two lists together accept what one of them does |
| Wildcards.ClassThen | guc/libc-ext.js:7 | (fnmatch.c, match_bracket) a class in front adds its characters |
| Wildcards.Negation | guc/libc-ext.js:7 | (fnmatch.c, match_bracket) negated, a bracket expression accepts a character exactly when it does not otherwise, if no range right after leading classes takes its start from before the list |
| Wildcards.NegationExactly | guc/libc-ext.js:7 | (fnmatch.c, match_bracket) for every list and character: the negation accepts the character exactly when the list does not, exactly when it is listed otherwise or lies in such a range whether that starts at the bracket or at the sign, or in neither case |
| Wildcards.StartlessDiffers | guc/libc-ext.js:7 | (fnmatch.c, match_bracket) with such a range neither of the two accepts some character |
| AvlTree.BalanceAvl | guc/libc-ext.js:7 | tsearch.c: one rebalancing step restores the balance of a node off by two |
| AvlTree.RotateOrdered | guc/libc-ext.js:7 | tsearch.c: a rotation, single or double, keeps the search order |
| AvlTree.InsertAvl | guc/libc-ext.js:7 | tsearch.c: insertion keeps balance and stored heights |
| AvlTree.InsertKeys | guc/libc-ext.js:7 | tsearch.c: insertion adds exactly that key, in order |
| AvlTree.DeleteAvl | guc/libc-ext.js:7 | tdelete.c: deletion keeps balance and stored heights |
| AvlTree.DeleteKeys | guc/libc-ext.js:7 | tdelete.c: deletion removes exactly that key, in order |
| AvlTree.AvlSize | guc/libc-ext.js:7 | tsearch.h: a balanced tree of height h has at least as many nodes as the Fibonacci bound |
| AvlTree.MinNodes46 | guc/libc-ext.js:7 | tsearch.h: at height 46 that is more than memory holds |
| TSearch.HeightBound | guc/libc-ext.js:7 | tsearch.h: trees that fit a 32-bit address space are at most 45 high, so the path arrays never overflow |
| TSearch.StopEarly | guc/libc-ext.js:7 | tsearch.c: once a subtree's height is unchanged, nothing above it needs rebalancing |
| TSearch.InsertUp | guc/libc-ext.js:7 | tsearch.c: insertion is a leaf and rebalancing up the path |
| TSearch.DeleteUp | guc/libc-ext.js:7 | tdelete.c: deletion is a local change and rebalancing up the path |
| TSearch.DeletePredecessor | guc/libc-ext.js:7 | tdelete.c: with two children the predecessor's key takes the node's place |
| TSearch.Rekey | guc/libc-ext.js:7 | tdelete.c: storing that key in place leaves the heap a tree with the new key |
| TSearch.Freed | guc/libc-ext.js:7 | tdelete.c: freeing and bypassing a node leaves the rest of the heap a tree |
| TSearch.SearchTree.Rot | guc/libc-ext.js:7 | tsearch.c: rot on the heap stores the rotated tree |
| TSearch.SearchTree.BalanceAt | guc/libc-ext.js:7 | tsearch.c: __tsearch_balance stores the balanced tree and returns the change of height |
| TSearch.SearchTree.Rebalance | guc/libc-ext.js:7 | tsearch.c: the loop up the path array, stopping early, completes the insertion or deletion |
| TSearch.SearchTree.TSearch | guc/libc-ext.js:7 | tsearch.c: the heap holds the tree with the key inserted, found, or out of memory unchanged |
| TSearch.SearchTree.TDelete | guc/libc-ext.js:7 | tdelete.c: the heap holds the tree with the key deleted, and the answer is the parent |
| CfgStore.Write | guc/os/cfgstore.h:325-372 | the chunked stream writes the line-level edit, for lines of any length; a key too long for the buffer fails |
| CfgStore.StaysOnTrack | guc/os/cfgstore.h:338-356 | each chunk, whole line or piece, contributes what the edit needs |
| CfgStore.ChunkShowsKey | guc/os/cfgstore.h:341-346 | a line's first chunk is enough to tell whether it is the key's |
| CfgStore.CfgFind | guc/os/cfgstore.h:123-145 | the first line that answers is found |
| CfgStore.SetThenFind | guc/os/cfgstore.h:325-376 | after a set the value is found exactly when it is clean and the key one a line can be for |
| CfgStore.UnsetThenFind | guc/os/cfgstore.h:378-382 | after an unset nothing is found |
| CfgStore.EditKeepsOthers | guc/os/cfgstore.h:325-372 | every key that shares no line with the edited one is answered as it was |
| CfgStore.OthersExactly | guc/os/cfgstore.h:325-372 | edits of one key never change another's answer exactly when no line can be for both |
| CfgStore.PlainApart | guc/os/cfgstore.h:130-135 | keys without blanks share a line only when they are the same but for case |
| CfgStore.FindIsClean | guc/os/cfgstore.h:130-140 | whatever a lookup gives is one non-empty line without blanks around it |
| CfgStore.FindConcat | guc/os/cfgstore.h:121-145 | after an ended text a lookup goes on into what follows |
| CfgStore.Load | guc/os/cfgstore.h:82-118 | the loaded text answers as the layers do in order, each whole or cut at a line; overflow is reported exactly when one is cut, and otherwise the layers are whole |
| CfgStore.LayerPrecedence | guc/os/cfgstore.h:71-82 | user before administrator before baked, per key |
| CfgStore.SetThenLookup | guc/os/cfgstore.h:71-145 | the same through all three layers: the value set is found exactly when it and its key are usable, an unset uncovers the lower layers, keys that share no line answer as before |
| CfgStore.ParseAgrees | guc/os/cfgstore.h:164-178 | splitting a line agrees with comparing in place, for keys that fit |
| CfgStore.FirstCandidate | guc/os/cfgstore.h:209-215 | the first candidate for a key is what a lookup answers |
| StoreText.FoldMeans | guc/os/cfgstore.h:130-131 | a letter answers for itself in either case, any other byte for itself alone |
| StoreText.LineGives | guc/os/cfgstore.h:123-145 | a line of a word, blanks, a value and trailing blanks and returns gives the value, if it is there and fits, to every key that is the word in some case; otherwise the lookup goes on |
| StoreText.CommentGivesNothing | guc/os/cfgstore.h:130 | a comment answers nothing |
| StoreText.OtherWordGivesNothing | guc/os/cfgstore.h:130-131 | nor does a line whose first word is another, or a word alone |
| StoreText.CandidatesConcat | guc/os/cfgstore.h:181-215 | the candidates of a text are those of its lines, in order |
| StoreText.AddsLine | guc/os/cfgstore.h:357-372 | without a line for the key an unset leaves the text as it is, and a set adds one at the end, ending the last line first if need be |
| StoreText.ReplacesLine | guc/os/cfgstore.h:338-356 | otherwise the first line for the key gives way to the new one, or goes, and the later ones go; all other text stays |
| MergeTree.Start | guc/os/fileops.h:179-210 | a tree is on the way to its own merge |
| MergeTree.PlantedAs | guc/os/fileops.h:115-118 | a planted node has the source's contents and, of its permissions, exactly those the mask leaves |
| MergeTree.Onwards | guc/os/fileops.h:203-206 | a run begun where another stopped is on the way from the first tree |
| MergeTree.Converges | guc/os/fileops.h:203-206 | completing the merge from wherever runs have come adds everything missing, exactly as one run would when everything was left as planned |
| MergeTree.StoppedRunsConverge | guc/os/fileops.h:203-206 | any number of stopped runs and a complete one give the tree of one complete run exactly when they left everything as planned |
| MergeTree.ConvergesExactly | guc/os/fileops.h:203-206 | whatever runs stopped or failed before it, a complete run gives the tree of one complete run, exactly when no temporary file of another mode waits for a missing file |
| MergeTree.FailedRunChangesMode | guc/os/fileops.h:258-270 | a failing run and a complete one that give another tree than the complete one alone |
| MergeTree.StoppedCalmlyConverge | guc/os/fileops.h:203-206 | runs that leave everything as planned, as those do that nothing fails in, always converge |
| MergeTree.PlannedOnwards | guc/os/fileops.h:203-206 | runs that leave everything as planned do so together |
| MergeTree.FinishedIsMerged | guc/os/fileops.h:115-118 | a run that succeeds is the merge exactly when no temporary file of a missing file has another mode |
| MergeTree.StaleModeStays | guc/os/fileops.h:115-118 | a tree on which it is not |
| MergeTree.OneResult | guc/os/fileops.h:317-346 | complete runs on one tree give one result |
| MergeTree.MergeAgain | guc/os/fileops.h:203-206 | a second complete run changes nothing |
| MergeTree.MergeIsAdditive | guc/os/fileops.h:179-195 | nothing there is changed, only source nodes are new, and no planted file leaves a temporary one |
| MergeTree.CanRunAgain | guc/os/fileops.h:252-257 | a tree left behind by a run is fit for another one |
| MergeTree.Disk.CopyFileAtomic | guc/os/fileops.h:258-270 | stopped anywhere, the file is either not there or whole, with at most its own temporary file new; it fails exactly on what cannot be read or written |
| MergeTree.Disk.Plant | guc/os/fileops.h:273-315 | a missing node and everything under it comes, or the tree is on the way there; it fails exactly when something in it cannot be read or made |
| MergeTree.Disk.Merge | guc/os/fileops.h:317-346 | the same for a merge, which goes on past what fails |
| MergeTree.Disk.Run | guc/os/fileops.h:317-346 | a run that is not stopped succeeds exactly when nothing it needs fails, and is then complete; stopped or failing anywhere, the tree is on the way, with at most one new temporary file |

## Left out

- PipeRing: sharing is sequentially consistent, as JavaScript's atomics and the copies between them are taken to be; a copy is modelled byte by byte.
- Doorbell: one waiter for each end; the flags are booleans that any waiter's cancellation clears. Index words are not wrapped here (PipeRing covers that). A wait that times out is cancelled as by an interruption. Demotion is ModeLadder's subject.
- Doorbell: a small write that does not fit but finds some room goes through FS_WAIT again and again, since the scan calls the end ready; what is proved is about sleeping, not about progress against such spinning.
- ModeLadder: spawn, release and exit are single steps of the kernel, and terminate() takes effect at once.
- FdTable.Kernel.Spawn: the image load, and a worker that cannot be created after the table is set up, are not modelled; spawn is one operation.
- FdTable: the standard descriptions of parentless processes, sockets, ptys, watches and transfers are left out; files and pipes are the two kinds of description. Embedder-held pipes have no ring and are left out.
- Streams: the kernel-held read end with its drain hook is not modelled, and a SIGPIPE is recorded with the EPIPE answer rather than delivered inside the loop. A stream whose bytes live in a shared ring is PipeRing's subject.
- Streams: _pipeNotify's removal of queued pids that no longer wait is left out; the invariant shows that there are none.
- BlockRpc: stop and continue, process exit, and the contents of requests are left out; a request is answered at once, parked, or completed later without being cancellable.
- Seqlock: one reader at a time.
- ProcessTree: what happens once a process has missed a child, stopped processes, WUNTRACED and WCONTINUED, SIGCHLD, and what happens after init has exited are left out. A session is a parameter of SetPgid.
- Tty: the ring of a page without a kernel, window size, and reads parked while input arrives are left out. Settings do not change. Signals are recorded, not routed.
- ZOrder: geometry, mapping, focus, minimising, grabs and events are left out; so are the two guards of _wmZNormalize that the invariant makes idle.
- CloseWatchdog: deadlines, escalation and redelivery into a full ring are left out.
- HSearch: keys are byte strings; calloc's answer is a parameter. Entries are 8 bytes and size_t has 32 bits, as in the system's C.
- Fnmatch: the pathname and leading-directory handling of fnmatch() around fnmatch_internal, multibyte characters and locales are left out; character classes are a parameter.
- TSearch: keys are numbers in the order of the caller's comparison, malloc's answer is a parameter, and tfind, twalk and tdestroy would add nothing new.
- CfgStore: input and output errors, NUL bytes in a file, the choice of paths, splitting a value into words, and cfg_keys are left out.
- MergeTree: callbacks, path lengths and modes of directories that forbid writing are left out. What stands at the path of a temporary file is taken to be a file, and no source name begins with the prefix of temporary files. The mask is the same in every run, and the source is not under the destination.
- MergeTree.Disk.Run: the way to the destination is taken to go through no symbolic link, which the file system would follow. What a failing run leaves behind depends on the order of reading a directory and is stated only as being on the way to the merge.
- The regular expression engine, glob, HTTP transfers, the audio mixer, the compositor, the file system itself, the service worker and the page are left out: they are large, or input and output.
