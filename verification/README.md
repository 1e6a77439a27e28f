# Terminal Canvas: verified models of its stateful cores

A Dafny 4.11 project that models the parts of the terminal manager whose correctness rests on state,
interleaving or arithmetic, and proves what they promise. `dafny verify dfyconfig.toml` checks all of it.

## What is modelled

**Births and their retirement.** A terminal leaf lives through successive *births*. Each birth has a gate
that admits tickets and counts the effects in flight, a claim in a durable ledger, and entries in several
in-memory registries, each behind its own lock.

- `Authority.dfy` states the gates and their registry as functions over an abstract state and proves, over
  every run, that a gate counts exactly its live permits, never reopens, stays drained once drained, and
  that two live permits of a leaf always belong to its one registered gate. `AuthorityObjects.dfy` is the
  mutable form (`Gate`, `HookAuthority`), each method proved equal to its function through `Abstract()`. The
  other modules rely on the functions: their states hold that abstract value, and so their theorems cover
  `HookAuthority` objects as well.
- `Ledger.dfy` reduces the durable ledger to its compare-and-swap transitions over claims and birth rows.
- `Protocol.dfy` is the close and retirement protocol as a transition system: one action per lock-held
  section or ledger transaction. What a thread carries from one section to its next is a *fact*; facts stay
  available, so any number of threads with any number of retries is a run of the system.
  `ProtocolSafety.dfy` proves the invariant and the safety properties over every run. A runtime id may stand
  for any number of births of its leaf, one after another (`ProtocolRuns.dfy` exhibits such a run); what keeps
  them apart is that a cancelled id is never handed out again and that fencing, confirming and retiring each
  find every other birth under the id retired or never received. `Endpoints.dfy` puts any number of endpoints
  over one ledger and proves that each of them does what the others assume of it.
- `HookRuntime.dfy` is the runtime object itself, with its registries updated in place. A *section* method
  is one lock-held section and is proved to be exactly one protocol action. An *operation* is a sequence of
  sections with arbitrary actions of the other threads in every gap; its contract says what holds whatever
  they do, and, for a quiet run (nobody else acts), the exact new state.
- `BoundClose.dfy` proves what a binding-checked close may touch and that retries and stale refreshes are
  harmless. `Publication.dfy` is the claim/abandon handshake with the UI over all retries of a job, and the
  worker with its bounded retry ring, driven by these handshakes. `Retirement.dfy` is the coordinator that
  moves the raw output of a closing terminal into a journal while the reader keeps producing; the disk may
  fail at any point and leave torn frames. `ProvedClose.dfy` puts coordinator and registries together: a birth
  is proved closed only with its whole output in the journal.

**Parsers and documents.** `ZipFormat.dfy` is a layout writer for single-disk ZIP tails (APPNOTE.TXT
sections 4.3.12 and 4.3.14 to 4.3.16) and `ZipPreflight.dfy` the bounded preflight, proved to accept exactly
the writer's layouts. `Utf8.dfy` (section 4 of RFC 3629), `Fragments.dfy` and `SourceDocument.dfy` are the
file viewer's document: logical lines, byte-capped grapheme-aware rows, selections and cursors.

**Worker protocols and arithmetic cores.** `ShutdownBarrier.dfy` (the conversation flush over two bounded
queues), `HighlightText.dfy` and `HighlighterSlots.dfy` (line-length guard, shown spans, latest-wins slots),
`ReviewRows.dfy` (row plan and drawn window), `ConfigReader.dfy` (bounded reader and fallback),
`RepaintPolicy.dfy`. `Identity.dfy`, `Octets.dfy` and `TextLines.dfy` hold shared vocabulary.

Interleavings are inputs: a `Gaps` value, a schedule or a script says what everybody else does, and every
statement is for all of them. Where a promise does not hold of the code as it stands, the model keeps the
code and states exactly when the promise holds, with a concrete input where it fails:

- The journal limit of 16 MiB (`JournalLimitExact`, `FirstBatchDecides`) is exceeded by the header when a
  first batch fills it exactly, as 256 reads do while nothing drains the log (`FirstAppendOvershoots`).
- The drawn rows (`DrawnRows`) include an invisible last row for a viewport at the end of the content
  (`EndOfContentDrawsLastRow`).
- The repaint delay (`DelayIsExact`) is wrong while the clock is behind the last repaint
  (`DelayFailsBehindTheClock`).
- The row plan shows a note twice when two lines carry its number (`DuplicateLineRepeatsNote`) and loses an
  unanchored note whose id an anchored one shares (`DuplicateIdLosesNote`). A note is shown exactly once
  precisely when it is `Singular` (`NoteShownOnce`), and the whole plan is exact precisely when all notes of
  the file are and at most one line takes the editor (`PlanIsExact`).

## Model

| member | source | states |
|---|---|---|
| `Authority.NextIsSafe` | src/hook_authority.rs:204-344 | every lock-held section keeps: `in_flight` equals the live permits, every gate but the registered one is closed and idle, epochs of a leaf increase; and no section reopens a gate or admits work on a closed one |
| `Authority.RunIsSafe` | src/hook_authority.rs:204-344 | the same over every finite interleaving |
| `Authority.EffectsNeverOverlap` | src/hook_authority.rs:252-260 | two live permits of one leaf belong to the same gate, the registered one |
| `Authority.ReplacedBirthStaysSilent` | src/hook_authority.rs:252-271 | once a later birth is installed, the earlier one never has effects again and its epoch stays smaller |
| `Authority.ClosedTicketNeverValidates` | src/hook_authority.rs:303-324 | a ticket whose gate was closed or replaced never passes the UI validation again |
| `Authority.DrainedStaysDrained` | src/hook_authority.rs:217-225 | a retire fence that has drained stays drained |
| `Authority.ValidatesExactly` | src/hook_authority.rs:303-324 | on the fields of the gates: a ticket passes exactly when the registered gate of its leaf is its own, of the same authority, open and installed, and the value is that gate's claim as active; each denial exactly when the first of these fails |
| `Authority.PendingUntilMarked` | src/hook_authority.rs:235-344 | over every run, a gate installed for an authorized birth passes no ticket before its authority is marked installed; while it is registered and open the reply is PendingBirth |
| `Authority.MarkedPasses` | src/hook_authority.rs:303-344 | after a successful mark every ticket of that gate passes, with the active claim |
| `Authority.MarksExactly` | src/hook_authority.rs:329-344 | only an active claim whose own open gate is registered is marked |
| `Authority.InstalledIsAdmitted` | src/hook_authority.rs:235-324 | an installed claim gets its ticket and may begin work at once; the UI validation passes exactly if it was active already |
| `Authority.InstallsExactly` | src/hook_authority.rs:235-273 | a claim is installed exactly if it is owned, admissible and bound as required, and every earlier gate of its leaf is closed, without live permits and of a smaller epoch |
| `Authority.AdmitsExactly` | src/hook_authority.rs:366-376 | work is admitted exactly on an open gate whose counter has room |
| `Authority.TicketsExactly` | src/hook_authority.rs:275-290 | a ticket exactly for the open registered gate of the very authority, otherwise which denial |
| `Authority.FenceCloses` | src/hook_authority.rs:292-300 | the fence closes the registered gate of the very authority and nothing else; from then on it admits neither tickets nor work |
| `Identity.AuthorityIgnoresTheStep` | src/hook_authority.rs:351-360 | two claims are the same authority exactly when they differ at most in the step from authorized to active |
| `Identity.ProvesExactly` | src/hook_authority.rs:81-86 | a host proves exactly the bound claim it names in runtime, generation and target |
| `AuthorityObjects.HookAuthority.LocallyDrained` | src/hook_authority.rs:219-224 | true exactly when no effect permit on the gate is live and every further one is denied |
| `AuthorityObjects.HookAuthority.Install` | src/hook_authority.rs:235-273 | replaces only a closed, idle gate with a smaller epoch; all refusals; registry and gates afterwards |
| `AuthorityObjects.HookAuthority.Ticket` | src/hook_authority.rs:275-290 | a ticket for exactly the registered open gate, else the denial |
| `AuthorityObjects.HookAuthority.BeginRetire` | src/hook_authority.rs:292-300 | closes the gate of exactly this authority and returns it |
| `AuthorityObjects.HookAuthority.ValidateUi` | src/hook_authority.rs:303-324 | the claim only for the same, open, installed gate, else the denials in order; `Authority.ValidatesExactly` states this reply on the fields of the gates |
| `AuthorityObjects.HookAuthority.MarkInstalled` | src/hook_authority.rs:329-344 | activates the very gate, never a closed one |
| `AuthorityObjects.HookAuthority.Invalidate` | src/hook_authority.rs:346-348 | closes the gate of this authority if it is registered, else changes nothing |
| `AuthorityObjects.HookAuthority.BeginEffects` | src/hook_authority.rs:366-376 | one more live permit on an open gate, with the overflow check |
| `AuthorityObjects.HookAuthority.DropPermit` | src/hook_authority.rs:204-210 | exactly one live permit fewer |
| `Ledger.CommitKeeps` | src/memory/hook_ledger.rs:403-540 | every transition leaves at most the current birth of a leaf unretired and claim and row agree; rows keep their identity, retired and consumed rows stay so, epochs never fall, and a new birth is born above every epoch its leaf has had |
| `Ledger.ConsumeKeeps` | src/memory/hook_ledger.rs:762-778 | the one-shot consumption, with its owner, epoch, runtime and phase checks, keeps the same |
| `Ledger.ConsumesExactlyOnce` | src/memory/hook_ledger.rs:762-778 | the current authorized claim is consumed exactly when its permit was not consumed before: the compared owner and epoch can never differ |
| `Ledger.OthersLeaveUnconsumed` | src/memory/hook_ledger.rs:403-540 | no other endpoint can move a birth whose permit was not consumed |
| `Ledger.OneLiveBirthPerLeaf` | src/memory/hook_ledger.rs:147-183 | a leaf has at most one unretired birth |
| `Ledger.ReserveFindsNoLiveBirth` | src/memory/hook_ledger.rs:405-441 | a reservation succeeds only when every earlier birth of the leaf is retired |
| `Ledger.InstallsExactly` | src/memory/hook_ledger.rs:442-457 | the owner installs its proved authorized birth exactly once its permit is consumed; claim and row become active within the epoch, nothing else changes |
| `Ledger.AdoptsExactly` | src/memory/hook_ledger.rs:516-540 | a proved, consumed birth that is authorized, active or detached is adopted exactly below the last epoch; at the next epoch the actor owns the active claim |
| `Ledger.ClosesExactly` | src/memory/hook_ledger.rs:458-515 | exactly when the owner's claim is fenced, retired or released, and the claim and row afterwards |
| `Ledger.ClosesUnbound` | src/memory/hook_ledger.rs:458-515 | the same for a claim without a birth, which no host can prove |
| `Ledger.ReservesExactly` | src/memory/hook_ledger.rs:405-441 | a birth is reserved exactly over no claim or a retired one, with an unused id while there is room; its epoch follows the one before |
| `Ledger.StaleIsRefused` | src/memory/hook_ledger.rs:139-145 | a transition from anything but the current claim fails |
| `Ledger.SpawnsExactly` | src/memory/hook_ledger.rs:685-692 | the factory may run exactly for the current authorized claim whose permit was consumed |
| `Ledger.ConsumesOnly` | src/memory/hook_ledger.rs:762-778 | the consumption marks the row and changes nothing else |
| `ProtocolSafety.StepIsSafe` | src/hook_runtime.rs:198-1188 | every action keeps the invariant of registries, ledger, gates and thread-carried facts, and only moves them forward |
| `ProtocolSafety.RunIsSafe` | src/hook_runtime.rs:198-1188 | the same over every interleaving of any number of threads |
| `Endpoints.MirrorAgrees` | src/memory/hook_ledger.rs:403-540 | whatever one endpoint commits, every other endpoint allows for, and afterwards all see the same ledger and world |
| `Endpoints.RunAllIsSound` | src/hook_runtime.rs:198-1188 | every run of any number of endpoints, joining at any time, keeps each of them sound, with no assumption about any |
| `Endpoints.RunningBirthsNeverOverlap` | src/hook_runtime.rs:229-309 | in no run of any number of endpoints do two births of one leaf run at the same time |
| `ProtocolSafety.ReservesOnlyOverTheDead` | src/hook_runtime.rs:274-291 | a birth is reserved only over an absent or retired claim, when no earlier birth of the leaf runs |
| `ProtocolSafety.RetiresOnlyWhatIsOver` | src/hook_runtime.rs:840-863 | the finish retires only a birth whose process does not run and never will, under a cancelled id, and whose own gate is closed without live permits |
| `ProtocolSafety.RetiresNothingRunning` | src/hook_runtime.rs:854-863 | of all actions of this endpoint only the finish retires, and never a running birth: what it assumes of other endpoints it keeps itself |
| `ProtocolSafety.CancelledIsNeverHandedOut` | src/hook_runtime.rs:235-307 | over every run, a birth that becomes known under an already cancelled runtime id is never received by anyone |
| `ProtocolSafety.FencedBirthIsAlone` | src/hook_runtime.rs:382-408 | over every run, once the gate of a local claim is fenced, every other birth known under its runtime id is retired or was never received |
| `ProtocolSafety.OnlyOneLeft` | src/hook_runtime.rs:545-575 | a current unretired claim leaves no other unretired birth under its runtime id |
| `ProtocolRuns.SecondBirthUnderOneRuntime` | src/hook_runtime.rs:262-291 | a concrete run in which one runtime id stands for a second birth after another endpoint adopted and retired the first |
| `ProtocolSafety.RunKeeps` | src/hook_runtime.rs:117-131 | what no other thread can undo in a gap: learned facts, cancellations, closed admission, finished lives, what a held lock protects |
| `ProtocolSafety.NoFactoryPending` | src/hook_runtime.rs:604-608 | with no pending factory, every accepted birth was observed or proved closed |
| `ProtocolSafety.NoHandleObserved` | src/hook_runtime.rs:1179-1184 | with no observed handle left, every observed birth was proved closed |
| `ProtocolSafety.NoPermanentClosing` | src/hook_runtime.rs:704-709 | with no permanent closing entry, every accepted local birth that was proved closed is retired in the ledger |
| `ProtocolRuns.ScanOrderMatters` | src/hook_runtime.rs:682-709 | reading handles before factories would let the barrier pass over an unretired birth |
| `HookRuntime.HookRuntime.Interfere` | src/hook_runtime.rs:117-131 | any schedule of the other threads keeps the registries sound |
| `HookRuntime.HookRuntime.CloseBoundSection` | src/hook_runtime.rs:453-499 | granted exactly when the protocol action is enabled, and then exactly that action; refused without any change |
| `HookRuntime.HookRuntime.BeginClose` | src/hook_runtime.rs:382-408 | the runtime id is cancelled; alone, the registered claim moves to the closing registry with its gate fenced, or nothing else moves |
| `HookRuntime.HookRuntime.BeginCloseBound` | src/hook_runtime.rs:453-505 | closes exactly the birth the host proves; a refusal changes nothing |
| `HookRuntime.HookRuntime.AwaitDrained` | src/hook_runtime.rs:516-538 | returns only the proven claim of a drained gate; alone, exactly when there is one |
| `HookRuntime.HookRuntime.FencePrior` | src/hook_runtime.rs:539-576 | success is a durable fence; alone, exactly when it is granted, and then ledger and closing entry hold the retiring claim of the next epoch |
| `HookRuntime.HookRuntime.PreparePhysicalClose` | src/hook_runtime.rs:447-577 | success means a birth under the id is fenced, with evidence exactly the proven one, closed and drained; a refused binding changes nothing; alone, an entered idle birth is fenced at once |
| `HookRuntime.HookRuntime.PhysicalCloseConfirmed` | src/hook_runtime.rs:411-421 | the confirmation is recorded, any closing entry under the id is confirmed, and a finish goes to the worker if its queue had room |
| `HookRuntime.HookRuntime.PreparedIsLast` | src/hook_runtime.rs:411-442 | a prepared birth that is over is the last one under its id, so confirming the id confirms no other birth |
| `HookRuntime.HookRuntime.VoidIsLast` | src/hook_runtime.rs:293-307 | a fresh birth cancelled before it was received is the last one under its id |
| `HookRuntime.HookRuntime.ConfirmNoChildBirth` | src/hook_runtime.rs:422-442 | refuses another owner's proof; success lets the pending factory go only after the close was proved; alone, an entered idle birth is confirmed at once |
| `HookRuntime.HookRuntime.CompleteRetirement` | src/hook_runtime.rs:1168-1185 | the registries let go of a birth one by one, each after the next has it; alone, factory and handle are gone, the queue entry is done, nothing else of them changes |
| `HookRuntime.HookRuntime.ObserveLocal` | src/hook_runtime.rs:579-610 | a managed local handle is registered before its pending factory leaves; others change nothing; the limit refuses; alone, the registries afterwards |
| `HookRuntime.HookRuntime.BeginLocalFactory` | src/hook_runtime.rs:628-643 | accepted exactly with admission open and the same owner |
| `HookRuntime.HookRuntime.RequestLocalClose` | src/hook_runtime.rs:770-804 | exactly when it succeeds, what the queue registry holds afterwards, and that refusals and repeats change nothing |
| `HookRuntime.HookRuntime.Finish` | src/hook_runtime.rs:832-876 | waits exactly while not drained or not confirmed; a finished permanent close has its ledger receipt; alone, exactly when it succeeds and the new ledger |
| `HookRuntime.FinishesExactly` | src/hook_runtime.rs:840-863 | a finish is accepted exactly for the closing claim, fenced or not, while this owner still has it below the last epoch, a release only while it is active; the claim and row afterwards |
| `HookRuntime.HookRuntime.FinishRound` | src/hook_runtime.rs:933-952 | with everybody else running between any two finishes, the worker's pending list only ever retries finishes whose birth is confirmed; alone, what leaves the list has ended, and a single closing that the ledger lets end is found and ended |
| `HookRuntime.HookRuntime.RefreshClaim` | src/hook_runtime.rs:965-983 | alone, exactly which entry and gate an outdated snapshot removes |
| `HookRuntime.HookRuntime.Register` | src/hook_runtime.rs:198-225 | alone, exactly when a claim is entered and the gates afterwards |
| `HookRuntime.HookRuntime.AuthorizeBirth` | src/hook_runtime.rs:229-309 | a birth is handed out only registered, uncancelled and with admission open; alone, on the fields: a vacant leaf gets a fresh birth at its next epoch, entered with an open gate that is not installed; a birth reserved here is handed out again unchanged; closed admission, a cancelled id, a closing entry of the leaf or a foreign unretired birth refuse without change |
| `HookRuntime.HookRuntime.Attach` | src/hook_runtime.rs:310-381 | nothing happens under a cancelled id or another target; alone, on the fields: an own birth that is entered becomes the ledger's active claim within its epoch and its gate is installed; a proved birth of another owner, or of none, on an idle leaf is owned by this endpoint at the next epoch, with a new installed gate; without a proved claim nothing changes |
| `HookRuntime.HookRuntime.RequestEveryClose` | src/hook_runtime.rs:670-681 | keeps the registries sound with everybody else running between two requests; a single observed handle that the closer can take is queued afterwards, and nothing observed means nothing happens to the registries the barrier reads |
| `HookRuntime.HookRuntime.ScanRegistries` | src/hook_runtime.rs:682-716 | a clear scan, one lock at a time, means every accepted local birth is retired; alone, clear exactly when every registry is |
| `HookRuntime.HookRuntime.DrainLocalForShutdown` | src/hook_runtime.rs:648-727 | the exit barrier: success means every accepted local birth has its durable receipt, whatever the other threads do in every gap, also between two close requests of a round; with clear registries and nobody else running it succeeds |
| `BoundClose.TouchesOnlyTheProvenBirth` | src/hook_runtime.rs:453-499 | no other leaf, runtime id, generation or gate changes |
| `BoundClose.GrantsExactly` | src/hook_runtime.rs:453-499 | granted exactly for an entered birth with its own gate and nothing closing under its id, or for one that is closing already; the new gate, claim and closing registries on the fields |
| `BoundClose.CloseIsIdempotent` | src/hook_runtime.rs:487-499 | asking again for a granted close changes nothing |
| `BoundClose.RetryAfterFullQueue` | src/hook_runtime.rs:796-803 | a request refused by a full queue and retried ends in the state of one accepted request |
| `BoundClose.RefreshKeepsSuccessor` | src/hook_runtime.rs:971-980 | over every interleaving of any number of refreshes of outdated snapshots, the successor's claim and gate stay as they are |
| `BoundClose.RefreshIsThorough` | src/hook_runtime.rs:965-983 | whatever the other threads do between its sections, a refresh of an outdated snapshot ends with the entry of that snapshot gone and no ticket for it, then or later |
| `BoundClose.RefreshedStaysDenied` | src/hook_runtime.rs:965-983 | once invalidated, a snapshot gets no ticket in any later run |
| `Publication.StepIsSafe` | src/hook_runtime.rs:91-115 | only the newest envelope can be offered or claimed, and the transaction is open exactly while the worker waits for it |
| `Publication.ClaimedAtMostOnce` | src/hook_runtime.rs:1015-1067 | over all retries at most one claim; the transaction spans it; a queued job was never claimed |
| `Publication.ClaimIsFinal` | src/hook_runtime.rs:71-115 | a claimed job is never offered or queued again; abandoned envelopes stay abandoned and unclaimed |
| `Publication.ClosedTicketIsNeverClaimed` | src/hook_runtime.rs:92-104 | once the ticket's gate is closed, no retry is ever claimed |
| `Publication.PublicationJob.BeginPublication` | src/hook_runtime.rs:92-104 | claims exactly an offered envelope whose own gate is registered, open and installed at that moment |
| `Publication.PublicationJob.Drop` | src/hook_runtime.rs:106-115 | a drop finishes the envelope unless it was abandoned |
| `Publication.PublicationJob.PublicationAttempt` | src/hook_runtime.rs:1015-1037 | the outcome of every attempt: a pending birth requeues, any other denial settles, a store that does not answer fails, a full channel requeues and a closed one settles if the transaction commits and both fail if not; a delivery adds one offered, held envelope at the end and is then requeued only abandoned, settled only finished |
| `Publication.PublicationJob.Invalidate` | src/hook_runtime.rs:1004-1008 | an error closes the gate of the job's claim if it is still the registered one |
| `Publication.PublicationJob.AwaitUi` | src/hook_runtime.rs:1038-1064 | waits through a claim and keeps waiting exactly until the UI has finished or the time is up on an envelope still offered; the outcome of both, with and without a commit |
| `Publication.PublicationWorker.Round` | src/hook_runtime.rs:984-1014 | the ring never exceeds 256; after a round it holds exactly the jobs whose attempt left them queued, in their order; the rest of the channel is untouched |
| `Publication.PublicationWorker.NothingIsClaimedTwice` | src/hook_runtime.rs:984-1067 | at any time, every job ever accepted was claimed at most once, and what waits in ring or channel never |
| `Publication.PublicationWorker.Serve` | src/hook_runtime.rs:984-1014 | the same over arrivals and rounds: an accepted job is queued, being published, or done for good |
| `Retirement.RunAppends` | src/terminal/reader_retirement.rs:31-51 | the reader only appends, to history and pending log alike, and is silent after EOF |
| `Retirement.CompleteIsFinal` | src/terminal/pty.rs:1658-1671 | nothing is produced after physical completion |
| `Retirement.PausedIsSilent` | src/terminal/reader_retirement.rs:31-61 | a paused reader produces nothing in any run |
| `Retirement.ClaimPauses` | src/terminal/reader_retirement.rs:42-61 | claiming the log pauses an idle reader at once and a reading one after its read, which is retained |
| `Retirement.JournalLimitExact` | src/hook_runtime.rs:1099-1104 | a checked append stays within 16 MiB, however the disk behaves, exactly when the file existed or its nine-byte header still fitted |
| `Retirement.FirstBatchDecides` | src/hook_runtime.rs:1091-1107 | over all later attempts and disk behaviours the file stays within 16 MiB exactly when the batch that created it left room for the header |
| `Retirement.FirstAppendOvershoots` | src/hook_runtime.rs:1099-1104 | 256 reads of at most one buffer each fill the limit exactly; the batch is accepted and leaves the file nine bytes too large |
| `Retirement.ReadsProduce` | src/terminal/pty.rs:725-787 | any sequence of reads is retained frame by frame while nobody drains the log |
| `Retirement.AppendFits` | src/hook_runtime.rs:1091-1107 | the file never passes the limit by more than its header, whatever the disk does |
| `Retirement.SampleAfterTailLosesOutput` | src/hook_runtime.rs:1155-1166 | sampling the physical boundary after the tail transfer could hide output |
| `Retirement.ResidueBlocks` | src/state/scrollback_log.rs:178-236 | frames left by a failed rollback make every later append fail, never duplicate |
| `Retirement.LocalRetirement.Transfer` | src/terminal/pty.rs:1531-1579 | moves the whole pending log, renumbered, or nothing |
| `Retirement.LocalRetirement.Append` | src/hook_runtime.rs:1091-1107 | a complete append acknowledges the batch, anything else keeps it; exactly when it succeeds and the file afterwards |
| `Retirement.LocalRetirement.TakePrefix` | src/terminal/pty.rs:1502-1513 | ready exactly with the reader paused or at EOF, no restore under way and the pending log taken |
| `Retirement.LocalRetirement.Advance` | src/hook_runtime.rs:1108-1188 | at every step produced = journal ++ durable ++ pending; confirmed only when the journal holds everything, in order, and no more can come; and confirmed when the terminal has ended, the journal has room and nothing goes wrong |
| `Retirement.LocalRetirement.Retire` | src/hook_runtime.rs:932-932 | the same over every sequence of polls, with the file within its limit if the batch that created it left room for the header |
| `ProvedClose.Advance` | src/hook_runtime.rs:1108-1188 | one poll together with the registries: the close is proved and the handle let go only after the sampled boundary showed the process ended, with the whole output in the journal |
| `ProvedClose.Retire` | src/hook_runtime.rs:932-932 | the same over every sequence of polls with everybody else running in between |
| `ZipFormat.ValueOfField` | scripts/package-verify.py:96-97 | reading a little-endian field returns the value written |
| `ZipFormat.FieldOfValue` | scripts/package-verify.py:96-97 | writing back a field that was read returns its bytes |
| `ZipFormat.FooterChoice` | scripts/package-verify.py:76-97 | an end record without a comment at the very end is taken, otherwise the last signature of the tail, and none exactly when it has none |
| `ZipPreflight.ScanDirectory` | scripts/package-verify.py:136-147 | the header loop, at most `maximum` iterations |
| `ZipPreflight.PreflightZip` | scripts/package-verify.py:76-147 | every read in bounds, at most `maximum` headers inspected, each rejection, and acceptance exactly of the admissible layouts |
| `ZipPreflight.ScanTiles` | scripts/package-verify.py:136-147 | an accepted directory is tiled by exactly `members` headers |
| `ZipPreflight.ScanAccepts` | scripts/package-verify.py:136-147 | a directory written by the writer is scanned to its end |
| `ZipPreflight.AcceptedIsALayout` | scripts/package-verify.py:76-147 | an accepted file is prefix, directory, optional record and locator, footer and comment, with nothing left over |
| `ZipPreflight.AcceptsEveryLayout` | scripts/package-verify.py:76-147 | every admissible layout that describes the file is accepted |
| `ZipPreflight.AcceptsExactlyTheLayouts` | scripts/package-verify.py:76-147 | both directions for every file |
| `ZipPreflight.AcceptsCleanArchives` | scripts/package-verify.py:89-116 | a writer's archive is accepted when its tail has the footer signature only at the footer and no accidental locator |
| `Utf8.BoundaryStartsChar` | src/app/file_viewer_document.rs:222-228 | a byte test finds exactly the character boundaries of valid text |
| `Utf8.BoundaryWithinFour` | src/app/file_viewer_document.rs:267-272 | four consecutive positions hold a boundary |
| `Utf8.BoundaryIsNotInside` | src/app/file_viewer_document.rs:222-228 | the byte test rejects exactly the offsets inside a character |
| `Utf8.ValidIsEncoded` | src/app/file_viewer_document.rs:155-160 | valid bytes are the encoding of a sequence of scalar values (section 3 of RFC 3629) |
| `Utf8.EncodedIsValid` | src/app/file_viewer_document.rs:155-160 | the encoding of any sequence of scalar values is valid |
| `Fragments.ChunkGrapheme` | src/app/file_viewer_document.rs:258-282 | the chunks of an oversized grapheme tile it, progress, and non-final ones have at least 1021 bytes |
| `Fragments.FragmentLine` | src/app/file_viewer_document.rs:244-298 | rows tile the line, are aligned and within the cap, flags are set exactly at cuts inside a grapheme, one empty row for an empty line only, rows are as full as possible |
| `Fragments.GreedyStaysAhead` | src/app/file_viewer_document.rs:283-286 | the j-th row reaches at least as far as in any other cutting |
| `Fragments.FewestRows` | src/app/file_viewer_document.rs:283-286 | without an oversized grapheme no grapheme-respecting cutting needs fewer rows |
| `SourceDocument.PrepareCancellable` | src/app/file_viewer_document.rs:73-118 | cancelled or the whole document: lines cover the source, endings are LF, CRLF or empty at the end only, rows cover each line, the long-line flag is exact |
| `SourceDocument.LongMeansSeveralRows` | src/app/file_viewer_document.rs:108-118 | a document has long lines exactly when some line takes more than one row |
| `SourceDocument.CopyIsTheTextBetween` | src/app/file_viewer_document.rs:164-167 | a selection in either direction copies the bytes between its two offsets; it is refused exactly when one is past the end or inside a character |
| `SourceDocument.RowShowsTheTextBetween` | src/app/file_viewer_document.rs:172-189 | a row shows the bytes whose offsets lie both in the row and between the two ends; which error otherwise |
| `SourceDocument.ShownIsTheTextBetween` | src/app/file_viewer_document.rs:164-189 | the rows' selected texts with the selected parts of the endings concatenate to the text between the two offsets |
| `SourceDocument.CopyEqualsWhatIsShown` | src/app/file_viewer_document.rs:164-189 | for any valid selection in either direction, the rows' selected texts with the selected parts of the endings concatenate to the copied text |
| `SourceDocument.RowsAndEndingsAreTheSource` | src/app/file_viewer_document.rs:155-160 | all rows and endings concatenate to the source |
| `SourceDocument.CursorsAreInverse` | src/app/file_viewer_document.rs:193-229 | the two cursor mappings are inverse on the scalar positions of a row and reject everything else |
| `SourceDocument.CountsScalars` | src/app/file_viewer_document.rs:228-228 | a cursor is the number of scalar values between the start of its row and its offset |
| `SourceDocument.PreparedIsAligned` | src/app/file_viewer_document.rs:267-272 | every row of a prepared document starts and ends at a character boundary |
| `ShutdownBarrier.StepKeeps` | src/conversation/worker.rs:102-244 | while the UI waits, no worker step, resolutions by the user included, loses a receipt or breaks the barrier |
| `ShutdownBarrier.RunReports` | src/conversation/worker.rs:230-238 | over every run of the worker, a failure is remembered or on its way to the UI, and in the queue once an acknowledgement follows it |
| `ShutdownBarrier.FailuresHappened` | src/conversation/worker.rs:230-238 | the worker never reports a failure that did not happen |
| `ShutdownBarrier.FlushTellsTheTruth` | src/conversation/worker.rs:126-192 | over every run, a flush answers that all is well exactly when no receipt is missing: none that could not be stored and was not stored afterwards |
| `ShutdownBarrier.ConversationUi.DrainShutdownEvents` | src/app/conversation_ui.rs:150-164 | every drained Deliver becomes a receipt, in order; the result is failed exactly if it was before or a Failure was drained; with empty gaps exactly the queued events are drained |
| `ShutdownBarrier.ConversationUi.SendReceipts` | src/app/conversation_ui.rs:175-187 | receipts move into the bounded queue in order, as far as it has room; what is left, whether any was sent, and that only a stopped worker disconnects |
| `ShutdownBarrier.ConversationUi.Finish` | src/app/conversation_ui.rs:165-228 | success means every transfer sent out before the last acknowledgement had its receipt stored before it, including all sent out before the call; no drained event was a Failure, everything queued at the call was drained, and nothing failed between the call and the acknowledgement; with nothing under way it succeeds |
| `HighlightText.ContainsOversizedLine` | src/app/code_highlight.rs:158-175 | the chunked scan is true exactly when some line with its terminator exceeds 1024 bytes |
| `TextLines.LinesAreTheText` | src/app/code_highlight.rs:189-189 | the lines are the text, cut after every LF and nowhere else |
| `TextLines.VisibleDropsTerminator` | src/app/code_highlight.rs:177-181 | a line is what it shows followed by exactly its terminator, LF, CRLF or nothing |
| `HighlightText.HighlightLine` | src/app/code_highlight.rs:234-252 | the spans of a parsed line join to its visible text and give every byte the parser's style |
| `HighlightText.PlainLines` | src/app/code_highlight.rs:183-196 | one span per line in the foreground style, the first 20000 visible lines |
| `HighlightText.HighlightLines` | src/app/code_highlight.rs:212-260 | the same text whatever the parser's spans or failures; every byte has the parser's style, or the foreground where the parser failed on the line |
| `HighlightText.HighlightGuarded` | src/app/code_highlight.rs:198-209 | plain or parsed, the shown text is the visible lines; the parser sees no long line; the styles of both paths |
| `HighlighterSlots.StepIsSafe` | src/app/code_highlight.rs:280-486 | the newest request is in at most one of pending, active and completed; results and notifications are genuine and unique |
| `HighlighterSlots.PublishesOnlyTheNewest` | src/app/code_highlight.rs:357-486 | over every interleaving a poll returns the newest request's own result or nothing, and no result twice |
| `HighlighterSlots.OlderWorkIsDropped` | src/app/code_highlight.rs:418-474 | after a request or a cancellation, whatever else happens, no result of older work is ever polled |
| `HighlighterSlots.NothingAfterClosing` | src/app/code_highlight.rs:489-506 | after closing nothing is stored, kept or polled in any run |
| `HighlighterSlots.LoneRequestIsServed` | src/app/code_highlight.rs:357-486 | a request that nobody supersedes is computed, notified once and polled |
| `HighlighterSlots.Highlighter.RequestWithNotify` | src/app/code_highlight.rs:418-451 | a fresh token replaces the pending request and any result |
| `HighlighterSlots.Highlighter.CancelAll` | src/app/code_highlight.rs:459-474 | cancelling invalidates pending, active and completed work |
| `HighlighterSlots.Highlighter.PollResult` | src/app/code_highlight.rs:476-486 | takes the completed result, which is always the newest |
| `HighlighterSlots.Highlighter.CloseDown` | src/app/code_highlight.rs:489-506 | closing empties both slots |
| `HighlighterSlots.Highlighter.Publish` | src/app/code_highlight.rs:383-395 | stores a result only if its request is still the newest |
| `HighlighterSlots.Highlighter.WorkerTurn` | src/app/code_highlight.rs:357-399 | one turn notifies at most once, for the request it took, after storing its result; undisturbed it does store it |
| `ReviewRows.PlanTimes` | src/app/code_review_ui.rs:1776-1818 | for any diff and any notes: a note of the file occurs once per line it belongs to and once more at the end exactly when no anchored note of the file has its id; the editor occurs once per line it belongs to, or once at the end |
| `ReviewRows.NoteShownOnce` | src/app/code_review_ui.rs:1792-1815 | a note is shown exactly once precisely when one line takes it, or none does and its id is free; and never precisely when no line takes it and its id is taken |
| `ReviewRows.PlanIsExact` | src/app/code_review_ui.rs:1776-1818 | every line, every note of the file and its editor are shown exactly once precisely when all notes are singular and at most one line takes the editor |
| `ReviewRows.DuplicateIdLosesNote` | src/app/code_review_ui.rs:1810-1815 | with two notes of one id, the one no line takes is not shown |
| `ReviewRows.DuplicateLineRepeatsNote` | src/app/code_review_ui.rs:1792-1804 | with two lines of one number, a note anchored there is shown twice |
| `ReviewRows.PlanIsComplete` | src/app/code_review_ui.rs:1776-1818 | in particular, with distinct line numbers and note ids: every line, every note of the file and its editor exactly once, and nothing else |
| `ReviewRows.PlanKeepsOrder` | src/app/code_review_ui.rs:1792-1793 | the diff lines appear in their order |
| `ReviewRows.PlanIsInBlocks` | src/app/code_review_ui.rs:1792-1818 | every note stands in the block below a line with its number and side, in the order of the notes and before the editor opened there; behind the last block only notes whose id is not taken, then the editor if no line took it |
| `ReviewRows.BuildReviewRows` | src/app/code_review_ui.rs:1776-1827 | the rows of the plan, offsets as prefix sums of heights, the total height |
| `ReviewRows.DrawnRows` | src/app/code_review_ui.rs:781-789 | the drawn rows are exactly those intersecting the viewport, precisely when it starts above the end of the content or the last row lies below it; visible rows are always drawn |
| `ConfigReader.Reader.RetryInterrupted` | src/config.rs:366-373 | interruptions drop nothing |
| `ConfigReader.ReadConfigBytes` | src/config.rs:460-484 | success is the whole rest of the file within the limit; at most limit + 1 bytes are consumed; without faults exactly when it succeeds; which errors otherwise |
| `ConfigReader.LoadCandidatesWith` | src/config.rs:293-352 | the first candidate neither absent nor invalid decides, in the order primary, backup 0 to 4; nothing later is read; otherwise the last invalid one is reported |
| `RepaintPolicy.RepaintsAreSpaced` | src/update.rs:59-77 | repaints keep the smaller window between them |
| `RepaintPolicy.RateIsBounded` | src/update.rs:59-77 | any span of time, wherever it begins and ends, holds at most one repaint more than the windows that fit into it |
| `RepaintPolicy.PendingUntilRepaint` | src/update.rs:46-77 | a noted event stays pending until a repaint |
| `RepaintPolicy.FocusShortensTheWait` | src/update.rs:46-97 | after any series of events the next repaint is due 16 ms after the last one if any of them was focused, else after the batch window |
| `RepaintPolicy.RepaintStartsAfresh` | src/update.rs:59-77 | a repaint forgets the focus: only what is noted after it counts |
| `RepaintPolicy.NoEventNoRepaint` | src/update.rs:59-62 | without an event there is no repaint |
| `RepaintPolicy.DelayIsExact` | src/update.rs:79-91 | the delay is the exact least wait, precisely when the clock has not run behind the last repaint |
| `RepaintPolicy.RepaintScheduler.ShouldRepaintNowAt` | src/update.rs:59-77 | the answer and the new state of the policy |
| `RepaintPolicy.RepaintScheduler.NextRepaintDelay` | src/update.rs:79-91 | the delay as a function of the state |

## Left out

- Runtime ids: an endpoint is taken to use a runtime id for one leaf only (`leafOf`), for any number of births of that leaf; `AuthorizeBirth` requires it of its caller, and reservations and attachments in `Protocol` carry it as a guard.
- Other endpoints: `Endpoints` takes every process that uses the ledger to run this same protocol under an owner id of its own. A single endpoint's `ProtocolSafety.RunningBirthsNeverOverlap` assumes that the others do not retire a running birth; `RetiresNothingRunning` and `Endpoints.MirrorAgrees` prove it of each of them.
- Host evidence: an endpoint attaches only to a recorded birth that it reserved itself or that runs in another host (`Genuine`), and works under an owner id that nobody has used before, as src/daemon/backend.rs:45 and src/app.rs:272 make it.
- Endpoint release: only runtimes whose process lives in another host (`remote`) are closed without permanence. The source calls `release_endpoint` for such endpoints; nothing in the type system enforces it.
- `HookRuntime.HookRuntime.Attach`: an attachment to a leaf without a claim fails here; the source observes the existing host or imports a legacy claim.
- Legacy claims (import, adoption of unbound claims, alias closure, observation of existing hosts), cached operation receipts and identity parsing (`classify`) are not modelled.
- `HookRuntime.HookRuntime.PhysicalCloseConfirmed`: requires the caller's proof that no birth under the id is left; `PreparedIsLast` and `VoidIsLast` derive it for both kinds of caller, and for a local terminal `ProvedClose.Advance` supplies the physical part. That a remote close command ended its process is not modelled.
- `HookRuntime.HookRuntime.DrainLocalForShutdown`: deadlines are a number of rounds; that the barrier is eventually reached is not stated.
- Liveness in general: a registration racing with a close can leave an entry that is never finished; only safety is proved.
- `ProvedClose.Advance`: the operating system is taken to report a child as reaped only after its process ended (`Reapable`).
- Mutex poisoning, condition-variable wake-ups, sleeps and wall-clock time; a wait is a bounded number of tries.
- SQL, the file system, process control and the terminal emulator; they appear as parameters with the contract stated at their type.
- `local_close_completed` and `observed_local_handles`, which only read registries.
- Journal frames are records with their encoded size; the byte format of a frame is not modelled. Resize and clear frames are retained only before the retirement owns the log, so `Retain` produces output frames.
- Grapheme segmentation, syntax grammars and TOML are parameters; the first two with the contract that their pieces concatenate to the text.
- `SourceDocument.PrepareCancellable`: the reader's own limits on source bytes and lines are not part of this model.
- Highlighter tokens are unbounded, so their wrap-around at 2^64 is not modelled; worker start failure is the closed state.
- Offsets of diff rows are real numbers; the source adds small whole 32-bit floats.
- `ConfigReader.LoadCandidatesWith`: building the configuration value from a parsed file, the privacy check of the directory and the opening of candidates are left to the parameters; an endless stream of interruptions is excluded.
- Archive extraction after the preflight (member paths, the manifest, checksums and signatures), the export worker, the update checker and version parsing, egui rendering and the browser extension: left out as easier members or external tools.
