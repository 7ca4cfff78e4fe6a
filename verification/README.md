# Fleet kernel: admission, ledger, evidence and licence models

This project models eight components of the fleet kernel repository and proves what they promise.
`dafny verify dfyconfig.toml` checks all of it.

## What is modelled

**Admission, fencing and recovery of one writable agent** (`LaneRecords`, `Role*`, `Scribe*`,
`RestartChain`). A supervisor tick renews a live admission or fences it: it revokes the rows, archives
the binding, leaves a revoked pointer, writes a rollback receipt and a restart intent. A recovery opens
the next epoch from that intent. The generic role lane and the Scribe lane have parallel code that
differs in small ways, so each has its own model. A database transaction is one atomic step and so is
each write of a private file; `fuel` counts the steps a process still lives to take, so a crash may
fall between any two. The `Supervisor` classes keep rows and files as fields and update them step by
step; each method is proved equal to the function that the lemmas are about.

**Handoff ledger and request drain** (`TextLines`, `HandoffLedger`, `LedgerFile`, `RequestLog`,
`RequestDrain`, `DrainRuns`, `RequestDrainer`). Many writers compare and swap the status of a row. Every
operation reads the whole file and rewrites it: `HandoffLedger` says what the next reader finds, rows and
what is left of rows that were broken, and `LedgerFile` proves that of the text of the file. One consumer
drains a log of bytes into it through a cursor made of a line number and an anchor of the last line
drained.

**Legacy cursor migration** (`Utf8`, `CursorMigration`). A receipt over a queue that keeps growing.

**Evidence tokens** (`Json`, `Base64`, `EvidenceToken`). Canonical JSON, unpadded base64url, a
signature, a validity window and key rotation.

**Identity keys** (`Json`, `IdentityKey`). A recursive filter and a canonical writer.

**Licence bundles** (`Jsonc`, `LicenseNotice`). Index loops over a character buffer that blank comments
and trailing commas, and a notice printer with its parser.

**Fleet identity** (`FleetIdentity`). Manifests, workers and sessions, with an invariant across the
three tables.

## What the proofs found

Each of these is proved with the exact condition, or as a dead end for every later event.

- A ledger row is read back exactly when none of its texts holds U+0085, U+2028 or U+2029
  (`LedgerFile.SurvivesIff`): JSON leaves those as they are and reading splits lines at them. A request
  with one is passed and has no row (`DrainRuns.SeparatorLosesRequest`); if it leaves nothing behind, the
  next write erases it (`LedgerFile.NextWriteErases`); and a note with one lets an id escalate twice
  (`HandoffLedger.SeparatorEscalatesTwice`).
- A row can leave more than that. A part of a text between two separators that is a JSON value, such as a
  number, is read as an item without fields, and every later append, removal and query fails on it, for
  ever (`HandoffLedger.SpoiledForEver`, `DrainRuns.RequestSpoilsLedger`). A part that the parser raises a
  ValueError on makes the drain skip every later request instead (`DrainRuns.ValueErrorSkips`). A written
  row leaves the file usable exactly when its texts hold no such part (`LedgerFile.FreeIff`,
  `HandoffLedger.TameIff`); the opening theorems carry that condition.
- Bad data never blocks the drain. What does, for ever, is a line that raises an error nobody catches (a
  whole number too large for a float, too many digits, too deep a nesting), one dated past the calendar,
  and any request of a new id once the ledger holds a stray value (`DrainRuns.BlocksForEver`); and a log
  torn inside a character and then written to again (`DrainRuns.TornLogBlocks`).
- A role tick that finds the process gone revokes the rows in every case, and then refuses exactly when
  the stored binding bytes are not canonical (`RoleRuns.RowsRevokedYetRefused`). The Scribe lane takes a
  predecessor's bytes over once; repeating the archive is accepted exactly when they were canonical
  (`ScribeRuns.ArchiveAgain`).
- A role candidate whose lease ends before it is admitted can neither be admitted nor replaced
  (`RoleRuns.ExpiredCandidateDeadEnds`), and a role admission that dies between the insert and the
  binding file can never be finished (`RoleRuns.TornAdmissionDeadEnds`). The Scribe lane abandons the
  first (`ScribeEpochs.AbandonReturns`) and finishes the second (`ScribeCycles.TornAdmissionRetried`).
- From a complete fence a new Scribe recovery opens only while no admission of another role of the company
  is live (`ScribeCycles.RecoveryOpensIff`). It may stand on a completed mandate, which never serves a role
  recovery (`RoleCycles.LaunchPreparedIff`).
- After a Scribe restart every renewal renews its leases, and until the restart is completed it then
  refuses exactly when the company snapshot is not the one in the rollback receipt, or the process is not
  in place (`ScribeRestart.RenewalRestarts`). A crash between receipt and completed request is made good
  by the next tick that finds both in place (`ScribeRestart.RestartConverges`).
- A cursor migration that dies between its two writes is a dead end (`CursorMigration.TornMigrationDeadEnds`),
  and so is one from a file whose name writes its process id with a leading zero
  (`CursorMigration.MisnamedCursorDeadEnds`). A receipt stops being accepted once the queue grows past
  64 MiB, and while a cursor is out of order or its process id in use again
  (`CursorMigration.GrownQueueVerifiesIff`).
- A log rewritten under the same last line loses a request (`DrainRuns.RewriteUnderSameLineLoses`).
- The comma pass is idempotent exactly on texts without a comma that stands before a trailing comma
  (`Jsonc.CommaPassIdempotentIff`, and `Jsonc.CommaPassNotIdempotent` for an input).
- Printing and parsing a notice undo each other exactly when no printed line ends with a marker and the
  body holds none (`LicenseNotice.SplitUndoesRenderIff`).

Two behaviours differ from what the surrounding comments suggest, and the model follows the code. The
role tick takes an inspection that cannot be proved for a lost authority, and leaves the refusal to the
inspection inside the rollback. Role recovery accepts a completed mandate in its checks, and then
refuses it where the activation subject is registered (`RoleCycles.LaunchPreparedIff`).

## Parameters

What the operating system, the database queries and foreign libraries answer is a parameter: process
and lock probes, the quiescence outcome, the company snapshot, clocks, uuid values, lease tokens, query
results (`found`, `package`, `previous`), digests and HMAC, Python's JSON reader and its case folding.
A digest is an arbitrary function; it is injective only where a lemma says so. `EvidenceToken.Faithful`
states what is asked of the texts of uuids and instants and of the HMAC, and `LedgerFile.Faithful` what is
asked of Python's JSON: a written line reads back, what a row begins with is no JSON, neither is a piece
that runs past the closing quote of a text, and a value without quotes is written as it reads.

## Model

| member | source | states |
|---|---|---|
| RolePhases.RevokeLive | fleet_kernel/company_scribe_admission.py:3693-3849 | from live rows the role rollback commits exactly unless a process holds the lock while the worker is active and all three leases run, and then revokes the admission, ends the session at that time and frees the worker, and changes no other row |
| RolePhases.RevokeSuperseded | fleet_kernel/company_scribe_admission.py:3831-3849 | once the worker serves a later session, the rollback of the old epoch refuses |
| RolePhases.FenceAdvances | fleet_kernel/company_scribe_admission.py:3850-4011 | from fenced rows the rest of the fence reaches exactly the stage its remaining steps allow, and changes no row |
| RolePhases.FenceLive | fleet_kernel/company_scribe_supervisor.py:1305-1432 | fencing a live admission refuses with nothing changed, or revokes the rows first and writes the files in order |
| RolePhases.FenceAgain | fleet_kernel/company_scribe_supervisor.py:1305-1432 | fencing again after a crash keeps the rows and only adds the missing files |
| RolePhases.TickLive | fleet_kernel/company_scribe_supervisor.py:1290-1458 | every tick on a live admission renews the three leases to one common expiry, or fences, or leaves rows and files as they were |
| RolePhases.TickLiveIff | fleet_kernel/company_scribe_supervisor.py:1290-1458 | a whole tick on a live admission renews exactly when the exact process holds the lock, the worker is active and the lease is 30 to 300 seconds; fences exactly when not, unless the lock is unsafe, the second inspection tells nothing, or it finds the exact process holding the lock and either the first had found no authority lost or the three leases still run; and refuses otherwise |
| RolePhases.TickRenews | fleet_kernel/company_scribe_supervisor.py:1433-1458 | a renewing tick ends renewed, refused with nothing changed, or dead after the committed renewal |
| RolePhases.NeverFencesLiveAuthority | fleet_kernel/company_scribe_admission.py:3693-3762 | an admission whose exact process holds the lock while all three leases are unexpired is never revoked |
| RolePhases.TickFenced | fleet_kernel/company_scribe_supervisor.py:1305-1432 | a tick after the revocation keeps every row and never loses a stage |
| RolePhases.TickFencedIff | fleet_kernel/company_scribe_supervisor.py:1305-1432 | a whole tick after the revocation completes the fence exactly unless it still reads the live binding and finds the lock unsafe, the second inspection tells nothing, or that finds the exact process holding the lock while the first had found no authority lost |
| RolePhases.DeadProcessTick | fleet_kernel/company_scribe_supervisor.py:1305-1432 | a tick whose process is gone completes the fence from any stage |
| RoleRuns.TicksFenced | fleet_kernel/company_scribe_supervisor.py:1290-1432 | any number of ticks after the revocation, dying anywhere, keep every row and only add files of that epoch |
| RoleRuns.CrashConverges | fleet_kernel/company_scribe_supervisor.py:1305-1432 | a crash at any step followed by any ticks and one complete tick leaves the rows, archive, pointer, receipt and intent bytes of a run that never crashed |
| RoleRuns.RowsRevokedYetRefused | fleet_kernel/company_scribe_admission.py:3579-3633 | with the process gone the rows are revoked, and the tick then refuses exactly when the stored binding bytes are not canonical |
| RoleRuns.ReplayTouchesOnlyItsEpoch | fleet_kernel/company_scribe_admission.py:3763-3849 | against any database the rollback of an epoch refuses or touches only rows of that epoch, and the worker only while it serves that session |
| RoleRuns.OtherRolesUntouched | fleet_kernel/company_scribe_supervisor.py:1208-1272 | neither renewal nor rollback of one role reaches a row of another role |
| RoleRuns.TickMoves | fleet_kernel/company_scribe_supervisor.py:1290-1458 | in every phase of the lane a tick ends in a phase that one may move to; with a next epoch open it changes nothing |
| RoleRuns.PrepareMoves | fleet_kernel/company_scribe_supervisor.py:822-1128 | preparing changes the world only from a complete fence and under an active, verified mandate, and then opens exactly the next epoch |
| RoleRuns.AdmitMoves | fleet_kernel/company_scribe_supervisor.py:1170-1205 | only the prepared candidate of the latest epoch can be admitted |
| RoleRuns.RunStaysInLane | fleet_kernel/company_scribe_supervisor.py:822-1458 | over every run of ticks, preparations and admissions, dying anywhere: one root, release, host and fence, epochs that never go back, at most one live admission |
| RoleRuns.AtMostOneLive | fleet_kernel/company_scribe_admission.py:3836-3849 | every phase has at most one live admission of the role |
| RoleRuns.ExpiredCandidateDeadEnds | fleet_kernel/company_scribe_supervisor.py:956-974 | a prepared role candidate past its lease blocks the lane: no event changes anything any more |
| RoleRuns.TornAdmissionDeadEnds | fleet_kernel/company_scribe_admission.py:1111-1169 | a role admission that died before its binding file can never be completed |
| RoleCycles.FenceCompletes | fleet_kernel/company_scribe_supervisor.py:1305-1432 | after any ticks a tick that finds the process gone leaves a complete fence whose request is of this binding, its root and the next epoch, with paths and digests of the receipt and the intent that are there |
| RoleCycles.LaunchPreparedIff | fleet_kernel/company_scribe_supervisor.py:822-1128 | from a complete fence a launch is prepared exactly when the mandate is active, verified and of its artifact, the package installed for this role with the digests of the release, worker and manifest active, profile, release and host kept, and the lease 30 to 300 seconds |
| RoleCycles.PreparedExactly | fleet_kernel/company_scribe_supervisor.py:797-1128 | such a preparation ends exactly the own sessions that ran out, opens one session that the worker serves until the lease ends, records and hands out the next candidate of the lineage, and changes nothing else |
| RoleCycles.HandedOutAgainIff | fleet_kernel/company_scribe_supervisor.py:954-977 | a prepared candidate is handed out again exactly to its own request, on the same terms, while its lease runs; nothing changes |
| RoleCycles.AdmittedWithinLease | fleet_kernel/company_scribe_supervisor.py:1170-1205 | a recovered candidate is admitted exactly when it is the prepared one, its lease runs and the launch is the one it was prepared for; then row, binding file and consumed recovery are there, and otherwise nothing changes |
| RoleCycles.CyclesNeverDeadEnd | fleet_kernel/company_scribe_supervisor.py:822-1128 | for every n, n cycles of fence, prepare and admit go through, and the live binding has epoch start+n, the same root, worker, mandate, release, host and fence, and a chain of priors |
| RoleCycles.InitialAdmission | fleet_kernel/company_scribe_supervisor.py:599-795 | in a clean lane a prepared initial candidate admitted within its lease is live and starts its own chain, with mandate, package, worker and manifest as a recovery needs them |
| RoleSupervisor.Supervisor.constructor | fleet_kernel/company_scribe_supervisor.py:1290-1303 | a supervisor starts from the rows and files it is given |
| RoleSupervisor.Supervisor.RevokeRows | fleet_kernel/company_scribe_admission.py:3693-3849 | the revocation transaction as step 0 of the specified fence |
| RoleSupervisor.Supervisor.ArchiveBinding | fleet_kernel/company_scribe_admission.py:3579-3633 | archive and pointer as steps 1 and 2 of the specified fence |
| RoleSupervisor.Supervisor.WriteReceipt | fleet_kernel/company_scribe_admission.py:3856-3905 | the rollback receipt as step 3, written once or found equal |
| RoleSupervisor.Supervisor.CreateRestartIntent | fleet_kernel/company_scribe_admission.py:3908-4011 | the restart intent as step 4, written once or found equal |
| RoleSupervisor.Supervisor.Announce | fleet_kernel/company_scribe_supervisor.py:1387-1432 | restart request and heartbeat as the last two steps |
| RoleSupervisor.Supervisor.FenceAdmission | fleet_kernel/company_scribe_supervisor.py:1359-1432 | the whole fence, stopped where the specified one stops |
| RoleSupervisor.Supervisor.SuperviseOnce | fleet_kernel/company_scribe_supervisor.py:1290-1458 | one tick with its crash point is the specified tick |
| RoleSupervisor.Supervisor.AdmitCandidate | fleet_kernel/company_scribe_supervisor.py:1170-1205 | admission is the specified insert, then the binding file |
| RoleSupervisor.Supervisor.PrepareCandidate | fleet_kernel/company_scribe_supervisor.py:822-1128 | the steps of preparation make the specified transaction: no file and no admission row changes, a refusal changes nothing at all, rows change only under an active, verified mandate, and a candidate that is handed out is the one recorded as open for exactly this request |
| ScribePhases.RevokeFenced | fleet_kernel/company_scribe_admission.py:1878-2036 | replayed on fenced rows it changes nothing |
| ScribePhases.RevokeLive | fleet_kernel/company_scribe_admission.py:1878-2036 | from live rows the Scribe rollback always commits, revokes the admission, ends the session and frees the worker, and changes no other row |
| ScribePhases.FileStepKeeps | fleet_kernel/company_scribe_admission.py:4419-4621 | every step after the revocation keeps the rows and every exact file, whatever the probes say |
| ScribePhases.FenceRest | fleet_kernel/company_scribe_supervisor.py:2237-2290 | the rest of a fence keeps rows and written files, ends fenced with every file in place, and does end so when the process is gone and no row is live |
| ScribePhases.FenceRevoked | fleet_kernel/company_scribe_admission.py:4419-4493 | fencing a revoked epoch again changes no row, and succeeds only while no Scribe row is live |
| ScribePhases.FenceLive | fleet_kernel/company_scribe_supervisor.py:2237-2290 | fencing a live admission revokes its rows in the first step, and completes when the process is gone |
| ScribePhases.TickLive | fleet_kernel/company_scribe_supervisor.py:2376-2546 | every tick on a live admission renews three leases to one expiry, rolls back, or leaves the rows |
| ScribePhases.TickLiveIff | fleet_kernel/company_scribe_supervisor.py:2376-2546 | a whole tick on a live admission renews exactly when the exact process holds the lock, the worker is active, the lease is 30 to 300 seconds and a restart under way can be receipted; fences exactly when the process is known not to be the exact one, or the worker is not active, and it is known how the process was stopped; and refuses otherwise |
| ScribePhases.NeverFencesLiveAuthority | fleet_kernel/company_scribe_supervisor.py:2448-2493 | an admission with rows in order and its exact process answering is never rolled back, whatever became of its binding file |
| ScribePhases.TickRevoked | fleet_kernel/company_scribe_supervisor.py:2376-2485 | a tick on a revoked epoch keeps every row and written file, and completes the fence when the process is gone |
| ScribePhases.TickFencedIff | fleet_kernel/company_scribe_supervisor.py:2237-2290 | a whole tick on a fenced epoch completes the fence exactly when the process is gone beside an existing receipt, or, without one, it is known how it was stopped, and an inspection tells unless the binding file says already that it is revoked |
| ScribeRuns.TickKeepsWritten | fleet_kernel/company_scribe_admission.py:3368-3396 | in any world under any answers a tick loses or alters no archive, receipt or intent |
| ScribeRuns.WrittenForever | fleet_kernel/company_scribe_admission.py:4395-4621 | over every run from every world the first receipt of an epoch is the only one it ever has, and so its archive and next intent |
| ScribeRuns.FenceConverges | fleet_kernel/company_scribe_supervisor.py:2237-2290 | any ticks dying anywhere and any losses of the binding file, then one tick that finds the process gone: revoked, ended, archived, pointed to, one receipt, one intent that continues it |
| ScribeRuns.ArchiveAgain | fleet_kernel/company_scribe_admission.py:3399-3508 | repeating the archive step succeeds exactly when the archived bytes were canonical |
| ScribeRuns.ReplayTouchesOnlyItsEpoch | fleet_kernel/company_scribe_admission.py:1878-2036 | against any database the Scribe rollback refuses or touches only rows of that epoch |
| ScribeEpochs.TornTickRestores | fleet_kernel/company_scribe_supervisor.py:2389-2416 | after a torn admission a lost binding file is restored from the live row, which completes the admission |
| ScribeEpochs.TornTickStays | fleet_kernel/company_scribe_supervisor.py:2417-2438 | a tick on the old pointer during a torn admission refuses and changes no row |
| ScribeEpochs.PrepareMoves | fleet_kernel/company_scribe_supervisor.py:1752-2064 | preparing changes the world only for the intent of the latest epoch, opening the next one or replacing its lapsed candidate |
| ScribeEpochs.AbandonReturns | fleet_kernel/company_scribe_supervisor.py:1873-1896 | abandoning a lapsed candidate ends its session, frees the worker and keeps its row among the abandoned ones, changes nothing else, and returns the lane to the complete fence |
| ScribeEpochs.NewRecoveryOpens | fleet_kernel/company_scribe_supervisor.py:1901-2064 | a new recovery from a complete fence is a candidate of the next epoch with the same lineage |
| ScribeEpochs.AdmitMoves | fleet_kernel/company_scribe_supervisor.py:2093-2128 | an admission, stopped anywhere, leaves the lane in a phase it may move to; one that ends has its candidate live |
| ScribeEpochs.AdmitFromPrepared | fleet_kernel/company_scribe_supervisor.py:2093-2128 | where an admission stops says exactly which phase it leaves |
| ScribeEpochs.EventMoves | fleet_kernel/company_scribe_supervisor.py:2376-2546 | every event from every phase ends in a phase one may move to |
| ScribeEpochs.RunStaysInLane | fleet_kernel/company_scribe_supervisor.py:1752-2546 | over every run of ticks, losses, preparations and admissions: one lineage, epochs that never go back, at most one live admission |
| ScribeEpochs.AtMostOneLive | fleet_kernel/company_scribe_supervisor.py:2293-2312 | every phase has at most one live Scribe admission, so the duplicate check never fires |
| ScribeCycles.FenceCompletes | fleet_kernel/company_scribe_supervisor.py:2376-2485 | after any disturbances a cooperative tick leaves a complete, announced fence |
| ScribeCycles.PreparesGo | fleet_kernel/company_scribe_supervisor.py:1752-2064 | any number of launches that prepare and lapse are followed by one that is prepared |
| ScribeCycles.TornAdmissionRetried | fleet_kernel/company_scribe_admission.py:1744-1875 | an admission that died at any step is completed by repeating it |
| ScribeCycles.CyclesNeverDeadEnd | fleet_kernel/company_scribe_supervisor.py:1752-2546 | for every n, n cycles with crashes, losses, lapsed candidates and torn admissions go through, with epoch start+n, the same lineage and a chain of priors whose receipts and intents are all still there |
| ScribeCycles.RecoveryOpensIff | fleet_kernel/company_scribe_supervisor.py:1901-2064 | over the rows of a complete fence a new recovery for a request that keeps release and host opens exactly while the mandate is active, or completed and verified, package, worker and manifest are in place, and no admission of another role of the company is live |
| ScribeCycles.LaunchPreparedIff | fleet_kernel/company_scribe_supervisor.py:1752-2064 | from a complete fence, or over a lapsed candidate, a launch is prepared exactly under those conditions and when it names the mandate, keeps release and host, and asks for 30 to 300 seconds |
| ScribeCycles.PreparedExactly | fleet_kernel/company_scribe_supervisor.py:1752-2064 | such a preparation abandons the lapsed candidate if there is one, opens one session that the worker serves until the lease ends, records and hands out the next candidate of the lineage, and changes nothing else |
| ScribeCycles.HandedOutAgainIff | fleet_kernel/company_scribe_supervisor.py:1835-1872 | a prepared candidate whose lease runs is handed out again exactly to its own request, on the same terms; nothing changes |
| ScribeCycles.AdmittedWithinLease | fleet_kernel/company_scribe_supervisor.py:2093-2128 | a recovered candidate is admitted exactly when it is the prepared one, its lease runs, and launch and mandate are those it was prepared for; then row, lease pointer, binding file and consumed recovery are there, and otherwise nothing changes |
| ScribeCycles.InitialAdmission | fleet_kernel/company_scribe_supervisor.py:1605-1749 | in a clean lane a prepared initial candidate admitted within its lease is live and starts its own chain, with mandate, package, worker and manifest as a recovery needs them |
| ScribeRestart.ReceiptRestartIff | fleet_kernel/company_scribe_supervisor.py:2498-2525 | the restart is receipted exactly when its process holds the lock and the snapshot is unchanged, and always with the same bytes |
| ScribeRestart.CompletedLoads | fleet_kernel/company_scribe_supervisor.py:2131-2234 | the completed request is accepted by its own reader from then on |
| ScribeRestart.RenewalRestarts | fleet_kernel/company_scribe_supervisor.py:2490-2546 | a renewal of the restarted epoch that dies anywhere, between receipt and request too, leaves the restart under way; run to its end it renews in any case, and completes the request exactly if it was completed before or the process is in place with the snapshot unchanged |
| ScribeRestart.RestartConverges | fleet_kernel/company_scribe_supervisor.py:2376-2546 | any ticks that die anywhere, refuse or renew and any losses of the binding file, then, unless one rolled the epoch back, a tick with the process in place and the snapshot unchanged: the request is completed by the same receipt bytes as without a crash; ticks that find the exact process or cannot tell never roll it back |
| ScribeRestart.CycleRestarts | fleet_kernel/company_scribe_supervisor.py:1752-2546 | every good cycle of fence, preparation and admission, while no later restart has a receipt, ends with its restart under way, and again without receipts of later ones |
| ScribeRestart.CyclesRestart | fleet_kernel/company_scribe_supervisor.py:1752-2546 | after any number of cycles the restart of the last one is under way in the live epoch |
| ScribeSupervisor.Supervisor.RevokeRows | fleet_kernel/company_scribe_admission.py:4419-4512 | taking over an existing receipt, or the revocation transaction, as step 0 of the specified fence |
| ScribeSupervisor.Supervisor.Quiesce | fleet_kernel/company_scribe_admission.py:4508-4513 | stopping the bound process as step 1 |
| ScribeSupervisor.Supervisor.ArchiveBinding | fleet_kernel/company_scribe_admission.py:3399-3500 | the archive as step 2, canonical or a predecessor's bytes |
| ScribeSupervisor.Supervisor.WritePointer | fleet_kernel/company_scribe_admission.py:3493-3508 | the revoked pointer as step 3 |
| ScribeSupervisor.Supervisor.WriteReceipt | fleet_kernel/company_scribe_admission.py:4518-4621 | the receipt as step 4, or the check beside an existing one |
| ScribeSupervisor.Supervisor.CreateRestartIntent | fleet_kernel/company_scribe_admission.py:4184-4277 | the restart intent as step 5 |
| ScribeSupervisor.Supervisor.Announce | fleet_kernel/company_scribe_supervisor.py:2267-2290 | restart request and heartbeat as the last two steps |
| ScribeSupervisor.Supervisor.FenceAdmission | fleet_kernel/company_scribe_supervisor.py:2237-2290 | the whole fence, stopped where the specified one stops |
| ScribeSupervisor.Supervisor.PublishRenewal | fleet_kernel/company_scribe_supervisor.py:2493-2546 | lease pointer, restart receipt and heartbeat after a renewal, as specified |
| ScribeSupervisor.Supervisor.RenewAdmission | fleet_kernel/company_scribe_admission.py:2039-2130 | the renewal transaction and its publication, as specified |
| ScribeSupervisor.Supervisor.Inspect | fleet_kernel/company_scribe_supervisor.py:2448-2493 | inspecting the bound process, then fencing, renewing or refusing, as specified |
| ScribeSupervisor.Supervisor.Perform | fleet_kernel/company_scribe_supervisor.py:2386-2447 | acting on what the tick found, restoring a lost binding file first |
| ScribeSupervisor.Supervisor.SuperviseOnce | fleet_kernel/company_scribe_supervisor.py:2376-2546 | one tick with its crash point is the specified tick |
| ScribeSupervisor.Supervisor.AdmitCandidate | fleet_kernel/company_scribe_supervisor.py:2093-2128 | insert, lease pointer and binding file, as specified |
| ScribeSupervisor.Supervisor.PrepareCandidate | fleet_kernel/company_scribe_supervisor.py:1752-2064 | the steps of preparation make the specified transaction: no file and no admission row changes, a refusal changes nothing at all, and a candidate that is handed out is the one recorded as open for exactly this request |
| ScribeSupervisor.Supervisor.OpenRecovery | fleet_kernel/company_scribe_supervisor.py:1901-2064 | opening a recovery over given rows records its candidate, prepared, for this request, or changes nothing |
| ScribeSupervisor.Supervisor.AbandonCandidate | fleet_kernel/company_scribe_supervisor.py:1873-1896 | the rows in which a lapsed candidate is given up are the specified ones |
| RestartChain.DigestFixesLink | fleet_kernel/company_scribe_admission.py:4014-4099 | under a hash without collisions the digest of an intent fixes the intent, its receipt and the binding behind it |
| RestartChain.DigestFixesHistory | fleet_kernel/company_scribe_admission.py:3995-3998 | two accepted histories with the same newest digest are the same back to the root |
| RestartChain.RoleIntentsAgree | fleet_kernel/company_scribe_admission.py:4014-4099 | under a hash without collisions two intents of one digest that role loaders accept, on any hosts, are the same intent of the same receipt, exact with the binding it names |
| RestartChain.ScribeIntentsAgree | fleet_kernel/company_scribe_admission.py:4280-4392 | the same for intents that the Scribe loader accepts |
| RestartChain.ScribeHistoryAccepted | fleet_kernel/company_scribe_admission.py:4184-4392 | the receipts and intents that cycles of the Scribe leave are such an accepted history, newest digest in the live binding |
| RestartChain.SameDigestSameChain | fleet_kernel/company_scribe_admission.py:4280-4392 | two Scribe chains whose live bindings carry the same intent digest have the same bindings back to the root |
| RestartChain.RoleHistoryAccepted | fleet_kernel/company_scribe_admission.py:3856-4011 | the receipts and intents that cycles of a role leave are an accepted history, newest digest in the live binding |
| RestartChain.SameDigestSameRoleChain | fleet_kernel/company_scribe_admission.py:3995-3998 | two role chains whose live bindings carry the same intent digest have the same bindings back to the root |
| HandoffLedger.Clamp | scripts/handoff_ledger.py:136-138 | the lifetime lies between two sweeps and four hours; one already there is kept, a shorter one becomes the least and a longer one the most |
| HandoffLedger.AfterKeepsSound | scripts/handoff_ledger.py:164-203 | after every operation of any writer, ids are unique, deadlines within bounds, and the rows read back hold no line separator |
| HandoffLedger.RereadIsIff | scripts/handoff_ledger.py:255-267 | what is read after a write is what was written exactly when no row of it holds U+0085, U+2028 or U+2029 |
| HandoffLedger.TameIff | scripts/handoff_ledger.py:255-267 | a written row leaves nothing that stops the ledger exactly when no text of it holds, between two separators, a JSON value other than an object or a part the parser raises on, nor such a part after its last one |
| HandoffLedger.FreeWorks | scripts/handoff_ledger.py:353-369 | with no stray value and no raising line in the file no operation fails: an append writes exactly if the row is valid and its id new, a swap exactly if a row has that id and status |
| HandoffLedger.FreeAfterIff | scripts/handoff_ledger.py:335-350 | an operation leaves the file so exactly when every row it writes is tame |
| HandoffLedger.SpoiledForEver | scripts/handoff_ledger.py:255-267 | once a stray value or a raising line is in the file it is there for ever: over every run no id that has no row gets one |
| HandoffLedger.AfterToRow | scripts/handoff_ledger.py:353-369 | what any operation, whether it writes, keeps or fails, does to the row of one id: nothing, open it, or a winning swap of that id; what it writes is lost exactly when a text of it holds a line separator |
| HandoffLedger.RunsEscalateOnce | scripts/handoff_ledger.py:561-603 | over every run of appends, of the three forward swaps and of canary removals that writes no line separator into the row of an id, whatever else the file comes to hold, the id is escalated at most once, its row is never lost and never set back, and its closing time is that of its last winning swap |
| HandoffLedger.SwapSets | scripts/handoff_ledger.py:578-601 | a winning swap changes the first row of that id and status and nothing else: the status; the closing time, on exactly the transitions open to closed, open to escalated and escalated to closed, when a time is given; and the note when one is given |
| HandoffLedger.SeparatorEscalatesTwice | scripts/handoff_ledger.py:561-603 | a swap whose tame note holds a line separator loses the row, and the id can be opened and escalated again |
| HandoffLedger.SelectedExactly | scripts/handoff_ledger.py:630-650 | the open query returns exactly the open rows, and past a time exactly those past their deadline that no founder owns |
| HandoffLedger.SelectedInOrder | scripts/handoff_ledger.py:630-650 | the query keeps the order of the ledger |
| LedgerFile.LineUnbrokenIff | scripts/handoff_ledger.py:343 | a written line stays one line for the reader exactly when no text of its row holds a line separator |
| LedgerFile.FollowingReads | scripts/handoff_ledger.py:259-266 | from right after a separator inside a text, reading finds exactly what the parts of that text and of the fields after it leave, wherever the breaks are |
| LedgerFile.LineReads | scripts/handoff_ledger.py:255-267 | a line reads as its row when it is whole, and as what is left of it when it is broken |
| LedgerFile.FileReads | scripts/handoff_ledger.py:335-350 | the write and read round trip: clean rows and values come back, in their order, and in the place of each other row what is left of it |
| LedgerFile.SurvivesIff | scripts/handoff_ledger.py:255-267 | a written row is read back exactly when none of its texts holds a line separator |
| LedgerFile.FreeIff | scripts/handoff_ledger.py:255-267 | a written file leaves later operations free exactly when every text of each of its rows is tame |
| LedgerFile.RunReads | scripts/handoff_ledger.py:353-619 | over every run of operations, failing ones included, what is read from the file is what the model of items says |
| LedgerFile.FileEscalatesOnce | scripts/handoff_ledger.py:561-603 | the escalation theorem about the file: sound rows, at most one escalation, no row of the id lost or set back |
| LedgerFile.UncleanAppendIsLost | scripts/handoff_ledger.py:353-369 | a row with a line separator is appended without an error and is in the file, and what is read is what was there before and what is left of the row, which is no row |
| LedgerFile.NextWriteErases | scripts/handoff_ledger.py:335-350 | if it leaves nothing, the next operation that writes leaves the file as if the row had never been appended |
| LedgerFile.Ledger.constructor | scripts/handoff_ledger.py:255-257 | a ledger without a file is empty |
| LedgerFile.Ledger.ReadItems | scripts/handoff_ledger.py:255-267 | the loop over the pieces reads the specified rows and values, or raises at the first line that the parser raises on |
| LedgerFile.Ledger.WriteItems | scripts/handoff_ledger.py:335-350 | the loop writes the specified file |
| LedgerFile.Ledger.AppendHandoff | scripts/handoff_ledger.py:353-371 | append writes the validated row at the end, finds it there already, refuses it, or fails at a stray value or an unreadable line, and leaves the specified file |
| LedgerFile.Ledger.CasStatus | scripts/handoff_ledger.py:561-603 | the loop swaps exactly the first row with that id and status unless it meets a stray value before, and leaves the specified file |
| LedgerFile.Ledger.RemoveHandoff | scripts/handoff_ledger.py:606-619 | the file is rewritten without that id exactly when a row had it and nothing stopped the filter |
| LedgerFile.Ledger.QueryOpen | scripts/handoff_ledger.py:630-650 | the query returns the specified selection of the rows in the file, and fails exactly when the file holds a stray value or cannot be read |
| RequestLog.AppendExtendsLines | scripts/handoff_ledger.py:430-439 | appending any text, torn or not, only adds lines after the complete ones |
| RequestLog.LogGrowsIff | scripts/handoff_ledger.py:430-439 | a log of bytes that only grows can be read exactly when the bytes after any readable beginning can, and then its first lines are those that were complete there |
| RequestDrain.ToolsAreValid | scripts/handoff_ledger.py:374-427 | whatever a log holds, every row a line asks for is the one of its request, field by field, and is open, within bounds and no canary's |
| RequestDrain.AsksIff | scripts/handoff_ledger.py:519-542 | a line asks for a row exactly when it is a request with an id, a time, a declared artifact and a known owner, whose deadline has a float and is a date, with no blank text and no surrogate; and then for the row with that id, sender, owner, action, stripped artifact and opening time, due after the declared lifetime brought within bounds |
| RequestDrain.OtherLinesIff | scripts/handoff_ledger.py:512-550 | which of the other lines raise, wait for a date past the calendar, or cannot be written; the rest is bad data |
| RequestDrain.FateIff | scripts/handoff_ledger.py:528-553 | a line ends the tick exactly when it raises; it is held exactly when its date is past the calendar, or lock, disk or the ledger itself keep its row out, which the ledger does when its first unparsable line is no ValueError, or a stray value stands before any row of that id; every other line is passed |
| RequestDrain.DrainKeeps | scripts/handoff_ledger.py:510-553 | a drain keeps everything in the ledger and opens no row that no line it passes asks for |
| RequestDrain.DrainOpens | scripts/handoff_ledger.py:510-553 | a drain opens every request it passes that holds no line separator, unless the ledger comes to hold a line its parser raises a ValueError on |
| RequestDrain.DrainExact | scripts/handoff_ledger.py:510-553 | a drain that ends on a free ledger opens exactly the requests it passes that had no row and hold no line separator |
| RequestDrain.DrainFreeIff | scripts/handoff_ledger.py:510-553 | a drain leaves a free ledger free exactly when it passes no request of a new id whose row is not tame |
| RequestDrain.DrainPassesIff | scripts/handoff_ledger.py:512-553 | a drain stops at the first line that it may not pass as the ledger is then, holding it or ending in an error as that line says, and gets to the end if there is none |
| RequestDrain.WorkingDrain | scripts/handoff_ledger.py:512-553 | with working lock and disk and a free ledger a drain passes every line, bad ones included, up to the first that raises or is dated past the calendar, and leaves the ledger free, exactly unless a request of a new id whose row is not tame stands before it |
| DrainRuns.BlocksForEver | scripts/handoff_ledger.py:510-553 | a line that raises or is dated past the calendar, or one that asks for a new id on a ledger with a stray value, blocks for ever: over every run that only appends bytes to the log the cursor never passes it, and no request after it is opened by the drain |
| DrainRuns.HugeDeadlineBlocks | scripts/handoff_ledger.py:526-527 | a deadline of a whole number of seconds that has no float is such a line |
| DrainRuns.CoveredOpenedOnce | scripts/handoff_ledger.py:469-558 | over every run of bytes, replaced logs the cursor notices, failing or spoiled ledgers, lines that raise, lost cursors and other writers, in which no row leaves a line the parser raises a ValueError on, every request before the cursor that holds no line separator has exactly one row |
| DrainRuns.ValueErrorSkips | scripts/handoff_ledger.py:543-548 | on a ledger with such a line a working tick passes every request up to the first line that blocks, and opens none |
| DrainRuns.ExactlyOnce | scripts/handoff_ledger.py:469-558 | while bytes are only appended to the log and all requests and rows are tame, the ledger stays free and the cursor in step, and the next working tick on a readable log leaves every request before the first line that blocks, if it holds no line separator, with exactly one row |
| DrainRuns.CleanTickOpensAll | scripts/handoff_ledger.py:469-558 | a working tick on a free ledger and a log the cursor is in step with or notices does that, and leaves the ledger free, exactly when no request of a new id before that line leaves something that stops the ledger; its cursor ends at that line, and stays where it was when the line raises |
| DrainRuns.SpoiledLedgerOpensNothing | scripts/handoff_ledger.py:353-369 | over every run whatsoever a spoiled ledger stays spoiled, and no id that has no row gets one |
| DrainRuns.RequestSpoilsLedger | scripts/handoff_ledger.py:255-267 | a good request whose action is a, U+2028, 1, U+2028, b is passed and spoils the ledger for ever |
| DrainRuns.TornLogBlocks | scripts/handoff_ledger.py:430-439 | a log torn inside a character and written to again is never read any more: whatever is appended, no tick changes anything |
| DrainRuns.SeparatorLosesRequest | scripts/handoff_ledger.py:353-369 | a good request whose action is a, U+2028, b is passed by the cursor and has no row |
| DrainRuns.NoticesIff | scripts/handoff_ledger.py:496-508 | with anchors that tell lines apart, a replaced log is noticed exactly when it is shorter or has another line under the cursor |
| DrainRuns.UnnoticedIff | scripts/handoff_ledger.py:496-508 | when nothing is noticed and no request spoils the ledger, exactly the requests from the cursor up to the first line that blocks are opened |
| DrainRuns.RewriteUnderSameLineLoses | scripts/handoff_ledger.py:496-508 | a log rewritten before the cursor, with the same line under it, loses a request |
| RequestDrainer.Drainer.constructor | scripts/handoff_ledger.py:454-459 | a missing cursor counts as line 0 without an anchor |
| RequestDrainer.Drainer.DrainLine | scripts/handoff_ledger.py:513-553 | one line is passed, held, or ends the tick in an error, as the ledger file is at that moment, with its items and the count as specified |
| RequestDrainer.AddedIff | scripts/handoff_ledger.py:551-553 | the reported number is that of the new rows exactly when no row taken holds a line separator, and otherwise larger |
| RequestDrainer.Drainer.DrainLines | scripts/handoff_ledger.py:510-553 | the loop over the lines is the specified drain, and counts the rows the ledger took |
| RequestDrainer.Drainer.DrainOpenRequests | scripts/handoff_ledger.py:469-558 | one tick is the specified tick; an error from a line or from reading the log leaves the cursor unsaved |
| Utf8.DecodeEncode | fleet_kernel/company_scribe_runtime.py:241-252 | UTF-8 decoding undoes encoding, for every text |
| Utf8.EncodeInjective | fleet_kernel/identity_key.py:139-148 | different texts have different bytes |
| Utf8.DecodeAppended | fleet_kernel/company_scribe_runtime.py:241-252 | bytes after a decodable prefix decode on their own exactly when the whole does |
| Utf8.TornNeverDecodes | scripts/handoff_ledger.py:433 | a character torn in the middle with another one after it can never be decoded again |
| CursorMigration.GrownQueueVerifiesIff | fleet_kernel/company_scribe_runtime.py:337-484 | after a migration, with the role checkpoint unchanged and whatever became of the process cursors, a grown queue verifies exactly when it is within 64 MiB, ends in whole records and holds the target line, and the cursors there now are in order and hold the selected one |
| CursorMigration.SameCursorsHoldIff | fleet_kernel/company_scribe_runtime.py:281-334 | cursors that are as they were do so exactly while none of their process ids is alive again and the selected file has the name rebuilt from its process id |
| CursorMigration.AcceptedMeansPrefix | fleet_kernel/company_scribe_runtime.py:337-484 | whatever is accepted is the same queue file, begins with the migrated queue, loses no line of it, has migrated line <= target <= length, and its cursors are anchored and hold the selected one |
| CursorMigration.TornMigrationDeadEnds | fleet_kernel/company_scribe_runtime.py:487-583 | a migration that died between its two writes left the line of the role checkpoint, and can be neither repeated nor verified |
| CursorMigration.MigratedVerifiesIff | fleet_kernel/company_scribe_runtime.py:487-583 | a completed migration has written the line of the role checkpoint, and verifies at once over the queue as last read exactly when the selected file has the name rebuilt from its process id |
| CursorMigration.MisnamedCursorDeadEnds | fleet_kernel/company_scribe_runtime.py:281-334 | a selected file of another name (`cursor_scribe_0123.json`) migrates and is then a dead end: nothing verifies and nothing migrates again |
| CursorMigration.RecordsStay | fleet_kernel/company_scribe_runtime.py:281-334 | process cursors anchored in a queue stay valid while it grows, exactly while none of their process ids is alive again |
| CursorMigration.MigrationIff | fleet_kernel/company_scribe_runtime.py:281-583 | there is something to migrate exactly when every process cursor is of the Scribe, of the dead process in its name, and holds the anchor of its line in the queue, one of them is at the line of the role checkpoint unless that is 0, and between two readings the queue only grew and neither checkpoint nor cursors changed |
| CursorMigration.StateDir.constructor | fleet_kernel/company_scribe_runtime.py:487-507 | a new state directory has neither checkpoint nor receipt |
| CursorMigration.StateDir.LegacyCursorRecords | fleet_kernel/company_scribe_runtime.py:281-334 | the loop collects the specified records or refuses |
| CursorMigration.StateDir.MigrateLegacyCursor | fleet_kernel/company_scribe_runtime.py:487-583 | checkpoint then receipt, stopped where the specified migration stops |
| Base64.Base64Bijection | fleet_kernel/evidence_keys.py:383-406 | base64url is a bijection between non-empty bytes and accepted strings, and which strings are accepted, exactly (sections 3.2, 3.5 and 5 of RFC 4648) |
| Base64.Length64 | fleet_kernel/evidence_keys.py:383-385 | n bytes take at most (4n+2)/3 characters of the alphabet |
| Json.WritesDiffer | fleet_kernel/evidence_keys.py:373-380 | texts of different values differ whatever follows them, so no text is the beginning of another |
| Json.WriteInjective | fleet_kernel/evidence_keys.py:373-380 | the writer maps different values to different texts (sections 4 to 7 of RFC 8259) |
| IdentityKey.NormKeeps | fleet_kernel/identity_key.py:139-148 | sorting keys at every depth gives one normal form and keeps the meaning |
| IdentityKey.NormalInjective | fleet_kernel/identity_key.py:139-148 | two normal forms with the same meaning are the same |
| IdentityKey.SortedTextIff | fleet_kernel/identity_key.py:139-148 | two values have the same canonical bytes exactly when they mean the same |
| IdentityKey.SameKeyIff | fleet_kernel/identity_key.py:121-148 | two accepted contents have the same key exactly when subject and content are equal as JSON values, whatever key order or list form |
| IdentityKey.RegisteredKeyIff | fleet_kernel/identity_key.py:77-148 | the same for the registered contracts, none of which repeats a field |
| IdentityKey.KeyBuiltIff | fleet_kernel/identity_key.py:121-148 | a key is built exactly for a registered subject with exactly its fields, all of them stable at every depth |
| IdentityKey.ScanIff | fleet_kernel/identity_key.py:98-118 | a value is accepted exactly when nothing inside it, at any depth, is a float, a date or a mapping with a banned or non-text name |
| EvidenceToken.CanonicalInjective | fleet_kernel/evidence_keys.py:347-380 | different documents have different payload bytes |
| EvidenceToken.ClaimsOfDoc | fleet_kernel/evidence_keys.py:444-478 | reading the document of valid claims gives them back in UTC form |
| EvidenceToken.DocOfClaims | fleet_kernel/evidence_keys.py:444-478 | a document that is accepted is the one its claims and key id make |
| EvidenceToken.VerifyUndoesMint | fleet_kernel/evidence_keys.py:562-653 | verify gives back the minted claims in UTC form at every later moment of their window |
| EvidenceToken.AcceptedIsTheToken | fleet_kernel/evidence_keys.py:581-653 | an accepted token is, character for character, the one that valid claims of this context, in their window, and a usable key of the ring determine |
| EvidenceToken.VerifyIff | fleet_kernel/evidence_keys.py:581-653 | verify answers with these claims exactly when the ring is in order and the token is the one that they, valid, in UTC form, in their window and of exactly this context, and the active key or the prior one before its expiry, of at least 32 bytes, determine |
| EvidenceToken.GrantedByToken | fleet_kernel/evidence_keys.py:268-344 | an accepted token grants, for at most ten minutes from its issue, an operator action other than a download and no artifact, or the download of one artifact, with the approval receipt exactly for a superseded one |
| EvidenceToken.RotationLosesNoToken | fleet_kernel/evidence_keys.py:229-265 | whatever prior key the ring held before, a rotation that keeps the old key ten to thirty minutes lets every token minted under it verify at each later moment of its lifetime |
| EvidenceToken.NothingAfterExpiry | fleet_kernel/evidence_keys.py:606-632 | from the prior key's expiry on no token that names it verifies |
| EvidenceToken.TokensAreShort | fleet_kernel/evidence_keys.py:347-380 | every token built from valid claims is at most 2048 characters |
| EvidenceToken.MintIff | fleet_kernel/evidence_keys.py:562-579 | mint refuses exactly for the ring, the claims, the window or the key, never for length |
| Jsonc.UncommentedExactly | tools/license_bundles.py:53-82 | blanking comments keeps every character outside them and every newline, and refuses exactly an unterminated comment |
| Jsonc.CleanIsClean | tools/license_bundles.py:53-82 | afterwards no comment is left outside strings, every literal is where it was, and a second pass changes nothing |
| Jsonc.DecommaedExactly | tools/license_bundles.py:83-102 | exactly the commas outside strings whose next solid character closes a bracket are blanked |
| Jsonc.CleanedKeeps | tools/license_bundles.py:53-103 | the cleaner keeps the length, every newline and every string literal |
| Jsonc.CleanTextUnchanged | tools/license_bundles.py:53-103 | a text with neither comments nor trailing commas is left as it is |
| Jsonc.CommentPassIdempotent | tools/license_bundles.py:53-82 | the comment pass twice is the comment pass once |
| Jsonc.CommaPassAgainIff | tools/license_bundles.py:83-102 | a second comma pass changes a position exactly when the text holds there a comma outside strings whose next solid character is itself a trailing comma |
| Jsonc.CommaPassIdempotentIff | tools/license_bundles.py:83-102 | the comma pass is idempotent on exactly the texts without such a comma |
| Jsonc.CommaPassNotIdempotent | tools/license_bundles.py:83-102 | the comma pass is not idempotent on a list that ends with two commas |
| Jsonc.SkipString | tools/license_bundles.py:58-67 | the inner loop stops one past the literal |
| Jsonc.LiteralEnds | tools/license_bundles.py:58-67 | a string literal ends after the first quote that an even number of backslashes stands before, or with the text |
| Jsonc.PieceExactly | tools/license_bundles.py:57-79 | a quote begins a literal, two slashes a comment up to the next newline, slash and star one up to the next star and slash, which have to be there, and every other character is code |
| Jsonc.NextSolid | tools/license_bundles.py:97-99 | the inner loop stops at the next character that is no white space |
| Jsonc.BlankComment | tools/license_bundles.py:68-79 | one comment in the buffer is blanked, newlines kept, nothing else touched |
| Jsonc.PassPiece | tools/license_bundles.py:55-81 | one round of the first loop: a literal passed by its scanned end, a comment blanked, or one character passed |
| Jsonc.BlankComments | tools/license_bundles.py:53-82 | the first loop leaves the buffer as specified, or refuses |
| Jsonc.BlankComma | tools/license_bundles.py:96-101 | one character of the buffer is blanked if it is a trailing comma |
| Jsonc.PassOne | tools/license_bundles.py:84-102 | one round of the second loop: a whole literal passed, or one character dealt with |
| Jsonc.BlankCommas | tools/license_bundles.py:82-102 | the second loop leaves the buffer as specified |
| Jsonc.Clean | tools/license_bundles.py:53-103 | both loops one after the other |
| LicenseNotice.CountsAdd | tools/license_bundles.py:169-171 | occurrences of a marker in whole lines and in what follows them add up |
| LicenseNotice.CommentsContain | tools/license_bundles.py:244-246 | a marker occurs in the printed comments exactly when a printed line ends with it |
| LicenseNotice.SplitUndoesRenderIff | tools/license_bundles.py:159-175 | parsing shebang, printed notice and body returns those three exactly when no printed line ends with a marker and the body holds none |
| LicenseNotice.ParsedBodyIsFree | tools/license_bundles.py:159-175 | the body of a parsed bundle never holds a marker |
| LicenseNotice.SplitExactlyIff | tools/license_bundles.py:159-175 | parsing answers with exactly the parts that make up the file: its `#!` line if it begins with one, then, when no marker stands anywhere, only code, and otherwise a notice of comment lines that begins with the one opening marker and ends with the one closing marker, then code |
| LicenseNotice.PrintedLines | tools/license_bundles.py:244-246 | the printed notice is, line by line, the opening marker, the given texts in their order, each after two slashes and a space if it is not empty, and the closing marker |
| LicenseNotice.DesiredIff | tools/license_bundles.py:265-286 | a bundle has a desired content exactly when it can be parsed, its code is in order and an intrinsic notice is not doubled, and that content is its own shebang and code around the printed notice, or the file itself |
| LicenseNotice.WrittenIsSettled | tools/license_bundles.py:270-291 | a written bundle is the shebang line and the code of the file it was, around the printed notice, and is its own desired content |
| LicenseNotice.WriteThenCheckPasses | tools/license_bundles.py:249-296 | after a write a check of the same bundles passes, and a second write changes nothing |
| LicenseNotice.Checkout.constructor | tools/license_bundles.py:249-251 | a checkout is the files it is given |
| LicenseNotice.Checkout.Prepare | tools/license_bundles.py:265-287 | the desired content of every selected bundle, or a refusal before anything is written |
| LicenseNotice.Checkout.FindStale | tools/license_bundles.py:288-291 | the loop reports exactly the paths whose file is not as desired, in order |
| LicenseNotice.StaleInOrder | tools/license_bundles.py:288-291 | whether a bundle is reported depends on nothing but that bundle, and the reports keep the order |
| LicenseNotice.Checkout.Process | tools/license_bundles.py:249-296 | a check changes nothing and passes exactly when nothing is stale; a write leaves every bundle as desired and reports the stale paths |
| LicenseNotice.Checkout.WriteAll | tools/license_bundles.py:292-295 | writing only the stale bundles leaves the tree with every desired content |
| FleetIdentity.ProvisionKeeps | fleet_kernel/identity.py:673-920 | provisioning and replacing keep the invariant of the three tables |
| FleetIdentity.RunKeepsInv | fleet_kernel/identity.py:673-1104 | over every run: one active manifest per tenant and fleet, every active worker and open session on an active manifest of its tenant, no manifest changed, removed or brought back |
| FleetIdentity.ActiveVersionsIncrease | fleet_kernel/identity.py:731-795 | the manifest active later is the one active before, or has a higher version |
| FleetIdentity.ProvisionAgainIff | fleet_kernel/identity.py:731-795 | the active content again changes nothing; other content is accepted exactly as a replacement of a higher version, which leaves no session open on the old one |
| FleetIdentity.ProvisionCreates | fleet_kernel/identity.py:673-795 | provisioning that changes anything adds the active manifest of this content under its own id, and besides only retires the manifest it replaces, suspends that one's active workers and ends its open sessions |
| FleetIdentity.SessionOpensIff | fleet_kernel/identity.py:1017-1104 | a session opens exactly for an active, admitted worker of the tenant, under a new id and for some time; it then runs until that time is over, on the active manifest, and the worker holds its token for as long |
| FleetIdentity.RunKeepsLeased | fleet_kernel/identity.py:673-1104 | over every run a worker that holds a token got it with a session of its own, and until the same time |
| FleetIdentity.Registry.constructor | fleet_kernel/identity.py:673-684 | a registry starts with empty, sound tables |
| FleetIdentity.Registry.ProvisionManifest | fleet_kernel/identity.py:731-795 | the updates of a replacement and the insert all happen, or none |
| FleetIdentity.Registry.RegisterWorker | fleet_kernel/identity.py:944-1011 | a worker is inserted, found equal, or refused with nothing changed |
| FleetIdentity.Registry.OpenWorkerSession | fleet_kernel/identity.py:1041-1104 | session row and worker lease are written together, or nothing is |

## Left out

- RoleRuns.CrashConverges: the restart request and the heartbeat are not compared, because they name the last tick's own finding.
- RoleRuns.RunStaysInLane: a second initial admission is not an event of the run, because it would start another chain; ScribeEpochs.RunStaysInLane is stated the same way.
- ScribeRuns.FenceConverges: the last tick finds the process gone and quiesced; while the process cannot be stopped the source refuses, and so does the model.
- CursorMigration.AcceptedMeansPrefix: needs a digest without collisions, as the source relies on SHA-256; so do IdentityKey.SameKeyIff and the lemmas of RestartChain.
- EvidenceToken.VerifyUndoesMint: rests on `Faithful`: uuid and timestamp texts that read back, and an HMAC of thirty-two bytes.
- HandoffLedger.RunsEscalateOnce: ids of canaries, which may be removed and opened again, are outside the statement, and so are runs that write a line separator for the id, for which it is false (HandoffLedger.SeparatorEscalatesTwice).
- DrainRuns.CoveredOpenedOnce: a replaced log that the cursor cannot notice is outside the run, and DrainRuns.UnnoticedIff says what happens then; so are rows that leave a line the parser raises a ValueError on, for which it is false (DrainRuns.ValueErrorSkips).
- DrainRuns.ExactlyOnce: requests that are not tame are outside the run; DrainRuns.RequestSpoilsLedger is what one of them does.
- LedgerFile.FileReads: is about files that the ledger has written; lines of other writers that are objects with some fields of a row, or values that hold texts, are outside it.
- A write of a private file that is torn in the middle; every write of a file is one step.
- The insert triggers and constraints of the SQL: `Insertable` states session active, lease unexpired, no other live row, and the recovery prepared. Times at which rows are closed or ended, uuid5 ids and the table of activation subjects are not rows of the model; the seal on a completed mandate is the flag `verified`.
- Lease tokens are compared as tokens where the admission row stores their digest.
- Reading a binding from a mapping and writing it back: a binding is a value, and its file holds the canonical bytes of it, those bytes without a newline, or other bytes with what they parse to.
- Host identity, boot identity, executable digests and the process tables behind the probes; quiescing by signals; advisory locks.
- Packages: building, signing, installing and registering them. A package row is a parameter of preparation.
- The founder's step tables and constants: only what the activation subjects cover.
- The kernel mirror of the ledger. In that mode an error of the kernel pointer is taken for bad data, so the drain's results are about the plain ledger.
- Limits of the calendar in the ledger's own operations, where an error changes nothing; in the drain they are the parameter `dated`. Ledger lines that hold other fields than those of a row, or write a deadline in another way; lone surrogates outside requests; a ledger file that is not UTF-8, and newline translation on reading.
- Lone surrogates and integers too long to print in identity keys; the pattern of banned names is a parameter.
- The token document's reader is specified as the document whose canonical bytes are the payload; the steps of Python's JSON reader are not modelled.
- The licence manifest, the component scan and the lockfile comparison are one parameter of processing a bundle; bytes of a bundle are characters; path handling is left out.
- Capability grants, the role release table, model and effort rules and database principals of the fleet; uniqueness constraints other than that of ids.
- Kernel DDL, message planes, channel servers, OAuth and launch plumbing, git, Python and Bun packaging, content lint and the web UI.
