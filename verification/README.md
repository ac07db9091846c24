# A verified model of the FOCAS tooling services

This Dafny project models the stateful core of the repository and proves what it keeps over whole runs.
`dafny verify dfyconfig.toml` checks all of it. Each class does in place what the repository's object or
function does in place; the function it is proved against carries the run theorems.

| component | files | repository |
|---|---|---|
| mirror and audit ledger | KeyedLedger, FocasModels, SnapshotStore, SnapshotHistory, PresetterHistory, PotReinit | `shared/focas/snapshot.py`, `shared/focas/snapshot_diff.py` |
| views over it | OffsetViews, Occupancy | `machines.py` (`offset_changes`), `occupancy.py` |
| assignment registry | Assignments | `assignments.py` |
| G10 printer and parser | DecimalText, PlainText, G10Text, G10Grammar, G10, G10Program, G10Control | `g10.py` |
| poll supervisor | FocasService, FocasServiceRuns, FocasServiceLog, FocasServicePace, FocasServiceTier, FocasSupervisor | `shared/focas/service.py` |
| offset writes | OffsetWrite | `offset_write.py`, `write_safety.py`, `offset_math.py`, `mock.py` |
| TechDB planner | TechDbPlan, TechDbRuns, TechDbInsert | `src/techdb_insert.py` |
| program upload | ProgramUpload | `shared/focas/programs.py` |
| asynchronous poller | Poller | `shared/focas/poller.py` |

Everything outside — database, control, clock, sleeps, other programs — is a parameter: a script of
replies, a function from call numbers to replies, a sequence of steps, or rows another writer appends.
Offsets are whole numbers of 0.0001, times are whole numbers, and `polled_at` increases per machine.

## What the code does that its documentation does not say

- `offset_write.py:20-21` says every attempt is audited. A permitted attempt refused because a change over
  0.5 mm was not acknowledged (lines 213-219) leaves the request pending and no audit row; the bounds refusal
  before it (lines 211-212) would too, but never fires, since create has bounded the value. Exactly when a row
  is written is `OffsetWrite.AuditedIff`; see also `OffsetWrite.BoundsHoldAtExecute` and
  `OffsetWrite.UnauditedAttempt`.
- Optimistic drift detection does not make requests staged at one value exclude each other: after a write
  back to that value a second one succeeds (`OffsetWrite.StagedTwiceWrittenTwice`). What holds is a conservation
  law and the return it forces (`OffsetWrite.DeparturesBalance`, `OffsetWrite.SecondDepartureNeedsReturn`); they
  do exclude each other when no request intends that value (`OffsetWrite.AtMostOneUnlessIntended`).
- Nothing validates that tool-life and work-offset keys are distinct (`shared/focas/models.py:203-225` covers
  the other three domains). The work-offset reader names each key once (`shared/focas/lathe.py:130-169`), but the
  tool-life reader appends every slot of every group (`shared/focas/client_reads.py:211-238`), so a tool in two
  groups is read twice: its audit chain breaks, and where the groups disagree every poll logs a change that never
  happened (`SnapshotHistory.DuplicateKeyBreaksReplay`). Exactly when log and mirror agree is
  `SnapshotHistory.LogReplaysToMirror`; the other three domains' histories do not depend on it.
- `service.py:336`: after a trip the count is already reset, so the rest of the interval is always slept on
  top of the cooldown (`FocasServiceRuns.TrippedCycleAlsoWaitsInterval`); and a storm of stale handles never
  trips a breaker of two or more (`FocasServiceRuns.StaleHandlesNeverTrip`).
- `poller.py:275-277` says a run always ends in SHUTDOWN. A task cancelled when its FOCAS thread has begun to connect
  ends DEGRADED or CIRCUIT_OPEN when that connect then fails (`Poller.EndsShutdownIff`).
- `programs.py:53-55` promises the full text. A leading `%` line in a chunk of its own ends the upload, and so
  loses the program (`ProgramUpload.LeadingPercentLineEndsUpload`); exactly when the text is whole is
  `ProgramUpload.WholeProgramIff`.
- `techdb_insert.py`: a dry run differs from the real one when a missing template row has an ID the run itself
  would insert (`TechDbRuns.DryRunPredictsIff`), and a run that dies between its two commits is repeated with
  duplicates (`TechDbInsert.CrashedRunRepeats`).
- `g10.py:15-18`: the full and the sparse export agree only if every non-empty register is within the register
  count (`G10Program.FullIsSparseOnCleared`).

## Model

| member | source | states |
|---|---|---|
| KeyedLedger.DiffReadings | shared/focas/snapshot_diff.py:119-147 | One domain of a poll, as the loop runs: the events are the readings that differ from the stored map, in reading order, each with the stored value before it. |
| KeyedLedger.UpsertReadings | shared/focas/snapshot.py:197-214 | The upserts of one domain, in place: last poll time always moves, last change time only when the value does. |
| KeyedLedger.LedgerReplaysIff | shared/focas/snapshot.py:360-377 | From empty, over any polls: folding the events rebuilds the value map, with each key's events a chain from absent that never repeats a value, exactly if every poll was steady: none of its keys reverts to the value it found and none moves twice. |
| KeyedLedger.ReplayKeptIff | shared/focas/snapshot.py:360-377 | With duplicate keys allowed: one poll keeps the replay equal to the map exactly if no key's last reading goes back to the stored value after another reading left it. |
| KeyedLedger.ChainKeptIff | shared/focas/snapshot.py:360-377 | Likewise for the chain: kept exactly if no key moves twice against the stored value in one poll. |
| KeyedLedger.AccountedIff | shared/focas/snapshot.py:360-377 | After one poll replay and chain are right exactly if they were before and the poll was steady: no later poll mends a broken ledger. |
| KeyedLedger.DistinctSteady | shared/focas/models.py:203-225 | Polls that name each key once are steady. |
| KeyedLedger.StampKeptIff | shared/focas/snapshot.py:197-214 | One poll keeps a row the value and time of its latest event exactly if it does not leave the stored value and come back to it. |
| KeyedLedger.RowTellsSightings | shared/focas/snapshot.py:197-214 | A row's value and two times are a function of when the key was seen at what value: latest value, when it started to hold, when last seen. |
| KeyedLedger.HistoryTellsSightings | shared/focas/snapshot_diff.py:119-164 | A key's events are exactly the turns in what was seen of it. |
| KeyedLedger.ChangedLastCycleIff | shared/focas/snapshot.py:121-139 | The two-table test (changed at last poll, and an event with a before at that time) holds exactly if the key's last two sightings differ. |
| SnapshotStore.MirrorStore.PersistSnapshot | shared/focas/snapshot.py:318-411 | `persist` in place: the new mirror and log are the specified ones; every count reported is that domain's readings or moved readings, and they add up to the rows appended. |
| SnapshotStore.MirrorStore.SkipChanged | shared/focas/snapshot.py:121-139 | The two nested look-ups with early return decide the specified condition on the stored rows and log. |
| SnapshotStore.MirrorStore.AnySkipMoves | shared/focas/snapshot.py:331-345 | Whether a skip variable in this snapshot makes a non-baseline transition. |
| SnapshotStore.DetectPotReinit | shared/focas/snapshot_diff.py:201-213 | The pots that fell back to their own number, sorted. |
| SnapshotStore.SortedSorts | shared/focas/snapshot_diff.py:201-213 | The order of that list: ascending, same pots, same multiplicity. |
| PotReinit.ReinitAlarmIff | shared/focas/snapshot.py:379-396 | Over every run: a poll writes a reset alarm exactly if at least four pots read their own ordinal and were last seen with another tool; it is one row, the last, not a success, and lists those pots in ascending order with their number. |
| PotReinit.SummaryCountsRows | shared/focas/snapshot.py:398-411 | What a poll reports, per domain: the readings it took and the rows of that kind it wrote; the alarm flag exactly if it wrote one; the status flag. |
| SnapshotHistory.LogReplaysToMirror | shared/focas/snapshot.py:318-411 | For every run of validated polls, with other writers' rows in between: offsets, pots and macros always fold back from the log to exactly the mirrored values with each entity's rows chained; tool life and work offsets do exactly if every poll was steady in them. |
| SnapshotHistory.StampsMatchLog | shared/focas/snapshot.py:197-257 | Offsets, pots, macros, in every run: a row exists exactly if it has an audit row; `last_changed_at` is the time of the latest and at most `last_polled_at`. Work offsets likewise in every run whose polls revert no key. |
| SnapshotHistory.WorkOffsetStampsIff | shared/focas/snapshot.py:150-166 | One poll keeps the work offsets' stamps right exactly if it reverts no key. |
| SnapshotHistory.ToolLifeAccountsIff | shared/focas/snapshot_diff.py:290-327 | Tool life has no key validator: after one poll the log accounts for the mirror exactly if it did before and no tool's readings revert or move twice within the poll. |
| SnapshotHistory.WorkOffsetsAccountIff | shared/focas/snapshot_diff.py:251-287 | The same for work offsets. |
| SnapshotHistory.DuplicateKeyBreaksReplay | shared/focas/client_reads.py:211-238 | A tool in two life groups: its first poll writes two baseline rows and breaks the chain for good; where the groups disagree, each further poll of the same readings writes a change that never happened, and log and mirror hold different lives. |
| SnapshotHistory.PartialSnapshotKeepsRest | shared/focas/snapshot.py:360-377 | A key a snapshot does not read keeps its row, times included. |
| SnapshotHistory.RepeatedPollIsSilent | shared/focas/snapshot.py:318-411 | The same readings again, at any later time, append no row exactly if each tool and each work offset was read as one value; stamps alone then move: the poll times of the rows read, and of the status row, and the time of a real T word if it has one. |
| SnapshotHistory.StatusRowIsLastPoll | shared/focas/snapshot.py:277-315 | After any run the status row holds what the last poll saw. |
| SnapshotHistory.StatusRowRemembersTool | shared/focas/snapshot_diff.py:330-339 | After any run its tool memory is the last observed T word of the form station*100 + offset, station at least 1 and offset 1 to 99, and the time it was seen. |
| SnapshotHistory.CancelKeepsMemory | shared/focas/snapshot_diff.py:330-339 | A poll whose word is absent, below 100 or ends in 00 leaves both memory fields alone. |
| SnapshotHistory.StatusChangedIffMoved | shared/focas/snapshot.py:277-315 | After any run a poll reports a change exactly if it is the first or differs from the poll before it in head, next, mode, running, emergency stop, work coordinate system or program number. |
| SnapshotHistory.StatusHeldSince | shared/focas/snapshot.py:277-315 | After any run `last_changed_at` is the time of the poll that began the stretch of alike polls the last one belongs to. |
| SnapshotHistory.StatusChangedIffStampMoves | shared/focas/snapshot.py:277-315 | The flag computed in Python and the SQL CASE agree after any polls in order of time, whatever keys they repeat. |
| PresetterHistory.PresetterActiveIffFired | shared/focas/snapshot.py:331-345 | After any run the flag holds exactly if some skip variable really moved in this cycle or at its own last observed cycle. |
| PresetterHistory.EveryOffsetRowTaggedRight | shared/focas/snapshot_diff.py:150-163 | In every reachable log each offset row carries exactly the tag its cycle called for; only non-baseline H geometry rows carry one. |
| PresetterHistory.FiredThisOrPreviousCycle | shared/focas/snapshot.py:97-120 | When every cycle reads all three variables: fired means a skip moved in cycle k or k-1. |
| OffsetViews.OffsetChanges | apps/tooling/api/services/machines.py:201-237 | An error exactly for an unknown machine; else the newest row per offset text, sorted by register and bank, malformed texts left out. |
| OffsetViews.ListedAreNewest | apps/tooling/api/services/machines.py:201-237 | For every successful offset change of the machine, whoever wrote it, the listing holds its text with a row that is no older, and of equally old ones the one written last. |
| OffsetViews.ListedAreGenuine | apps/tooling/api/services/machines.py:201-237 | Every row the listing takes is a successful offset change of the machine under its own text. |
| OffsetViews.ShapedIff | apps/tooling/api/services/machines.py:201-237 | A text is listed exactly if it is a digit string, a slash and something. |
| OffsetViews.OffsetChangesMatchMirror | apps/tooling/api/services/machines.py:201-237 | In every reachable state: one entry per mirrored offset and no other, with the mirrored value and the row's change time. |
| OffsetViews.NewestIsLatest | apps/tooling/api/services/machines.py:201-237 | Newest by time and latest in the log pick the same row. |
| OffsetViews.OffsetIdInjective | shared/focas/snapshot_diff.py:119-147 | The entity text identifies register and bank. |
| OffsetViews.LikeHGeomIff | apps/tooling/api/services/occupancy.py:101-122 | The LIKE pattern matches H geometry texts and no other bank's. |
| OffsetViews.LatestHGeomSource | apps/tooling/api/services/occupancy.py:101-122 | The look-up built in the loop: per register, the tag of its newest H geometry row. |
| OffsetViews.RegisterIff | apps/tooling/api/services/occupancy.py:101-122 | The register of a text is the numeral before its first slash, or the whole text. |
| OffsetViews.SourceIsLatestTag | apps/tooling/api/services/occupancy.py:101-122 | In every reachable state it knows a register exactly if its H geometry is mirrored, and gives the latest change's tag; that change's value is the mirrored one. |
| Assignments.AssignmentTable.ValidateRegisters | apps/tooling/api/services/assignments.py:89-114 | The checks in order: what the error is, if any. |
| Assignments.ValidateIff | apps/tooling/api/services/assignments.py:78-114 | The gate accepts a row exactly if it keeps T, H and D unique among active rows, off the probe, and TSC tools on TSC machines. |
| Assignments.CreateSucceedsIff | apps/tooling/api/services/assignments.py:137-151 | A create succeeds exactly if tool and machine are usable and the new row keeps the invariant. |
| Assignments.UpdateSucceedsIff | apps/tooling/api/services/assignments.py:154-173 | A move succeeds exactly if the row is active, keeps its T and H, and keeps the invariant; its own slots never conflict. |
| Assignments.CreateLeaves | apps/tooling/api/services/assignments.py:137-151 | After a successful create the id is held by an active row with the asked tool, machine, T, H and D, pending review and unconfirmed; every other row is as it was; each of its slots conflicts for everyone else. |
| Assignments.UpdateLeaves | apps/tooling/api/services/assignments.py:154-173 | After a move each register is the one asked for, or its own where none was; tool, machine and last confirmation stay, the review is open again, the new slots are held, and no other row moves. |
| Assignments.SettleLeaves | apps/tooling/api/services/assignments.py:176-200 | A confirmation closes the review and names the user, a deletion marks the row deleted; nothing else in the row or the table moves. |
| Assignments.CreateRefusedIff | apps/tooling/api/services/assignments.py:78-151 | Which error a create raises: tool, machine, then the first register rule broken, in order. |
| Assignments.UpdateRefusedIff | apps/tooling/api/services/assignments.py:78-173 | Which error a move raises: missing, deleted, the first register rule broken against the other active rows, or a null T or H. |
| Assignments.SettleRefusedIff | apps/tooling/api/services/assignments.py:176-200 | A confirmation or deletion is refused exactly for a missing row or a deleted one. |
| Assignments.ReviewedIff | apps/tooling/api/services/assignments.py:137-200 | Over every run from an empty table a row exists exactly if it was created, and awaits review exactly unless the last accepted operation on it, deletion apart, was a confirmation, which it names. |
| Assignments.OperationKeepsSound | apps/tooling/api/services/assignments.py:137-200 | Each operation keeps the invariant. |
| Assignments.EveryRunSound | apps/tooling/api/services/assignments.py:78-200 | So does every sequence of operations, refused ones included. |
| Assignments.DeleteFreesOwnSlots | apps/tooling/api/services/assignments.py:191-200 | Deleting frees exactly the row's own slots. |
| Assignments.AssignmentTable.CreateAssignment | apps/tooling/api/services/assignments.py:137-151 | The insert in place; a refused create changes nothing. |
| Assignments.AssignmentTable.UpdateAssignment | apps/tooling/api/services/assignments.py:154-173 | The register move in place; a refused one changes nothing. |
| Assignments.AssignmentTable.ConfirmAssignment | apps/tooling/api/services/assignments.py:176-188 | Only the confirmation of an active row changes; a missing or deleted row is the specified error. |
| Assignments.AssignmentTable.SoftDeleteAssignment | apps/tooling/api/services/assignments.py:191-200 | Only the row's deleted mark changes; a missing or deleted row is the specified error. |
| Occupancy.BuildTToH | apps/tooling/api/services/occupancy.py:172-182 | The T-to-H dictionary holds exactly the active assignments. |
| Occupancy.ListPots | apps/tooling/api/services/occupancy.py:151-216 | One entry per mirrored pot, in pot order, each as specified; a missing machine is an error. |
| Occupancy.AssignmentsAreOneToOne | apps/tooling/api/services/assignments.py:78-114 | Under the assignment invariant the T-to-H map is injective. |
| Occupancy.VerdictIff | apps/tooling/api/services/occupancy.py:69-98 | Each of the four verdicts, and `verified`, exactly by tool, assignment, mirrored length and tag. |
| Occupancy.EntryShows | apps/tooling/api/services/occupancy.py:151-216 | What an entry shows besides its verdict: tool and times as mirrored, the assigned register and its length but not for the probe, and spindle or next exactly as the status row names the tool. |
| Occupancy.VerifiedMeansMeasured | apps/tooling/api/services/occupancy.py:151-216 | In every reachable state a pot is reported loaded and verified exactly if its T is not the probe's, an active assignment maps it to an H and no other T to that H, the H has a mirrored non-zero length, and its latest offset row wrote that length over an earlier one in a poll in which the presetter had fired. |
| G10Text.RoundedClose | apps/tooling/api/services/g10.py:71-76 | Inch values are exact, millimetre values within half a step of the third place. |
| G10Text.TiesToEven | apps/tooling/api/services/g10.py:71-76 | A millimetre value half-way between two steps goes to the even one. |
| G10Text.FormatSays | apps/tooling/api/services/g10.py:71-76 | A printed value has a minus sign exactly if it is negative, and four decimals in inches, three in millimetres. |
| DecimalText.NatTextDigits | apps/tooling/api/services/g10.py:71-76 | A printed number's last digit is its units, and those before it print the rest. |
| G10Text.CommentReads | apps/tooling/api/services/g10.py:66-68 | A comment is its text in capitals between parentheses, with a dash for each character outside the punch set. |
| G10Text.UpperIs | apps/tooling/api/services/g10.py:66-68 | Capitals are made letter by letter. |
| G10Text.ReadNumberFinds | apps/tooling/api/services/g10.py:149-154 | A printed value is read back as the number that was printed, whatever follows it. |
| G10Text.SplitJoined | apps/tooling/api/services/g10.py:163-170 | Splitting a joined text gives its lines back. |
| G10Text.UnfinishedLine | apps/tooling/api/services/g10.py:163-167 | And a last line without its break is a line too. |
| G10Text.BreakIff | apps/tooling/api/services/g10.py:163-167 | The ten characters that end a line. |
| G10.MillLineParses | apps/tooling/api/services/g10.py:149-154 | A mill line reads back as its bank, register and value. |
| G10.LatheLineParses | apps/tooling/api/services/g10.py:149-154 | A lathe line reads back as its register, half, three values and tip. |
| G10.NegativeMillLine | apps/tooling/api/services/g10.py:149-154 | A negative register number is not accepted. |
| G10Grammar.ParseLineIff | apps/tooling/api/services/g10.py:149-202 | The grammar, exactly: a line is quiet, a mill block or a lathe block of given values if and only if it is the concatenation that form prescribes, with the manual's L codes; nothing else is accepted. |
| G10.GoodBlocksParse | apps/tooling/api/services/g10.py:163-195 | Blocks of one class parse to that class and exactly what they assign. |
| G10.BadBlockFails | apps/tooling/api/services/g10.py:163-202 | One bad block fails the parse wherever it stands. |
| G10.ParsesIff | apps/tooling/api/services/g10.py:163-202 | A program parses exactly if all its blocks are of one form and each is complete. |
| G10.BlockRefusedIff | apps/tooling/api/services/g10.py:163-202 | Which error a block raises, by the class met so far and the tip. |
| G10Program.SelectRegisters | apps/tooling/api/services/g10.py:83-88 | Ascending and exactly the non-empty registers, or exactly 1 to the count. |
| G10.SelectionIs | apps/tooling/api/services/g10.py:83-88 | Ascending; sparse exactly the registers with some bank not zero, full exactly 1 to the count. |
| G10Program.BuildG10 | apps/tooling/api/services/g10.py:104-144 | The program of the selected registers, or the error for an unknown class, or for a value in an unknown unit. |
| G10Control.ModesStand | apps/tooling/api/services/g10.py:117-119 | Exactly one line of the text is G20 or G21, G20 exactly for inches, before every block that writes; G90 is there exactly for a mill, and before them too. |
| G10Control.HeaderSays | apps/tooling/api/services/g10.py:104-144 | What the text says at its head and end: tape marks, a program number of at least four digits, machine, time, freshness, scope note, the warning if the form is unverified, unit, M30. |
| G10Program.ParsedG10.SetClass | apps/tooling/api/services/g10.py:198-202 | The first form fixes the class; a second one is refused. |
| G10Program.ParsedG10.TakeBlocks | apps/tooling/api/services/g10.py:163-195 | Line by line up to the first refused one. |
| G10Program.ParseG10 | apps/tooling/api/services/g10.py:163-195 | The parser in place computes the specified result. |
| G10Program.RoundTripIff | apps/tooling/api/services/g10.py:104-202 | A built program parses exactly if it is printable (registers 1 to 10000 and tips non-negative on a lathe, registers non-negative on a mill, program number non-negative), for any machine name, and then to the class and the assignments of the selected registers. |
| G10Program.ProgramWrites | apps/tooling/api/services/g10.py:104-144 | What the text assigns, in order. |
| G10Program.ParsedIsExport | apps/tooling/api/services/g10.py:119-138 | Parsed registers are exactly the selected ones, with exactly the class's banks, each at its exported value; missing ones zero; both lathe halves under one register. |
| G10Program.WrittenOnce | apps/tooling/api/services/g10.py:119-138 | No (register, bank) is assigned twice. |
| G10Program.WritesAreExported | apps/tooling/api/services/g10.py:119-138 | Every assignment is a bank of a selected register at its exported value. |
| G10Program.ExportedClose | apps/tooling/api/services/g10.py:71-76 | Exported values against stored ones: exact, or within 0.0005 mm. |
| G10Program.RunProgramCell | apps/tooling/api/services/g10.py:15-18 | Running the text overwrites every bank of every listed register and no other cell. |
| G10Control.ProgramLeaves | apps/tooling/api/services/g10.py:104-144 | On a control with modes, whatever unit, mode and table it starts in: the program ends in the export's unit, a mill in absolute mode, a lathe without a turning cycle, every bank of a selected register at its exported value in that unit, every other cell as it was. |
| G10Control.LengthsArrive | apps/tooling/api/services/g10.py:71-138 | So every bank of a chosen register but the tip ends at its stored value: in inches exactly, in millimetres within half a micrometre. |
| G10Program.TipIsWhole | apps/tooling/api/services/g10.py:128-138 | A tip is cut to its whole part. |
| G10.TipIs | apps/tooling/api/services/g10.py:135-137 | And a negative one towards zero. |
| G10Program.FullIsSparseOnCleared | apps/tooling/api/services/g10.py:15-18 | Running the full export on any table equals running the sparse one on a table cleared over 1..count, for every table, exactly if every non-empty register lies within the count. |
| FocasServiceRuns.HandlesBalance | shared/focas/service.py:257-281 | Over every run, crashes included: sources are opened one at a time and every one opened is closed by the end. |
| FocasServiceLog.EveryHeadTold | shared/focas/service.py:257-485 | At every loop head failure count, state, source, cycle and tick counts, persists and crash flag are a replay of the log, clock and stop event a replay of the script along it, and the log is lawful: each event is what the next reply answers at the time it says, and every close and trip that is due comes at once and no other. |
| FocasServiceLog.EveryRunLawful | shared/focas/service.py:257-281 | The log of every run is lawful, but that at the end the source still held is closed. |
| FocasServiceLog.StaleHandleReleased | shared/focas/service.py:315-326 | In every run a source whose handle proves stale, in a full read or a light one, is closed by the very next event and never named again. |
| FocasServiceLog.DroppedOnlyWhenDue | shared/focas/service.py:387-470 | In every run, before its end, a source is closed only after a stale read of it or a trip, and a trip comes only after a failed full read that reached the threshold: a light read that merely fails keeps the source. |
| FocasServiceTier.NoTierNoReads | shared/focas/service.py:424-449 | A run without a positive status interval, or on a source that cannot be read lightly, takes no light read. |
| FocasServiceTier.TierFillsWait | shared/focas/service.py:424-449 | With exact sleeps a wait of the tier that is not stopped, crashed or dropped leaves no room for another tick: its ticks, their time and one more interval cover what is left of the cycle's interval. |
| FocasServiceRuns.EveryHeadTruthful | shared/focas/service.py:315-403 | At every loop head failures are below the threshold, HEALTHY means none, DEGRADED some, and with the circuit open no source is held. |
| FocasServiceRuns.EveryCycleCounted | shared/focas/service.py:315-403 | At every loop head and after a crash: ok + failed is the number of full reads, one more exactly if the run crashed in a full read; a crash is always in the read logged last. |
| FocasServiceRuns.ReadsWaitOutCooldown | shared/focas/service.py:387-403 | After a trip the next read is on a source opened since, at least the cooldown later, unless stopped. |
| FocasServiceRuns.FastTierKeepsState | shared/focas/service.py:424-470 | However many ticks, the fast tier leaves failure count, cycle counts and state alone and at most drops the source. |
| FocasServiceRuns.TrippedCycleAlsoWaitsInterval | shared/focas/service.py:331-338 | With a threshold of one or more the guard after a failed read never spares the wait: a trip has reset the count before it is looked at. |
| FocasServiceRuns.StaleHandlesNeverTrip | shared/focas/service.py:315-327 | With a threshold of two or more, stale handles alone never trip the breaker, however many follow one another. |
| FocasServiceRuns.StaleHandleTripsAtOne | shared/focas/service.py:387-403 | With a threshold of one or less each stale handle opens the circuit and waits the cooldown. |
| FocasServiceRuns.PersistenceDoesNotInterfere | shared/focas/service.py:379-385 | Two runs that differ only in how their persists turn out have the same state, counters, source and events at every loop head and at the end. |
| FocasServiceRuns.SleepTakesChunks | shared/focas/service.py:476-485 | Chunks of at most a second, none after stop, never more than was asked for. |
| FocasServiceRuns.SleepExactly | shared/focas/service.py:476-485 | With exact sleeps, exactly what was asked for. |
| FocasServiceRuns.TicksFitWindow | shared/focas/service.py:424-449 | However long reads and sleeps take, n ticks mean n * fast < the window. |
| FocasServiceRuns.FastTierOnTime | shared/focas/service.py:424-449 | With exact sleeps every tick starts before the deadline, and unless stopped, crashed or dropped the wait ends exactly at the later of the deadline and the end of its last tick (its own start if there was none). |
| FocasServicePace.EveryHeadCountsConnects | shared/focas/service.py:285-313 | At every loop head the connect-failure count is the number of failed connects in a row. |
| FocasServicePace.FailedConnectBacksOff | shared/focas/service.py:291-307 | The k-th failed connect in a row waits k times the back-off, up to the maximum, unless stopped. |
| FocasServicePace.CyclesKeepInterval | shared/focas/service.py:315-359 | Unless stopped, crashed or dropped, a cycle on a source ends no sooner than an interval after it began. |
| FocasSupervisor.Supervisor.SleepFor | shared/focas/service.py:476-485 | The chunked loop, in place. |
| FocasSupervisor.Supervisor.TryConnect | shared/focas/service.py:285-313 | One connect attempt, in place. |
| FocasSupervisor.Supervisor.ReadFailed | shared/focas/service.py:387-403 | The breaker, in place. |
| FocasSupervisor.Supervisor.Tick | shared/focas/service.py:451-470 | One status tick, in place. |
| FocasSupervisor.Supervisor.WaitBetweenCycles | shared/focas/service.py:424-449 | The fast-tier loop, in place. |
| FocasSupervisor.Supervisor.Cycle | shared/focas/service.py:315-359 | One full cycle, in place. |
| FocasSupervisor.Supervisor.RunService | shared/focas/service.py:257-281 | The main loop and its clean-up bring the object to the state the run theorems speak of. |
| OffsetWrite.EveryWriteSafe | apps/tooling/api/services/offset_write.py:165-244 | Over every run, with rejecting or corrupting targets and other hands on the control: each request reaches the target's write at most once and is terminal from then on; every value written is the value its request intended, an in-bounds H geometry off the probe register, with a reason, in a safe idle mode, asked for with the password, at the staged value, and within 0.5 mm of the live value unless acknowledged; success means the read-back was the intended value. |
| OffsetWrite.ExecutedStays | apps/tooling/api/services/offset_write.py:179-184 | What a request ended with is final over every later run of calls, faults and other hands, and every later attempt on it is refused and changes nothing. |
| OffsetWrite.WrongPasswordWritesNothing | apps/tooling/api/services/write_safety.py:73-105 | Without the configured password, in any world: target, trace and requests are unchanged, an open request's attempt is blocked, and by the password wall itself when the others are open. |
| OffsetWrite.WallsBlock | apps/tooling/api/services/write_safety.py:62-105 | The walls in order and in plain terms: probe register, running, a mode other than MDI, EDIT, HND, JOG, REF, no ask, no or another password; a blocked request stays pending with one row in the ledger. |
| OffsetWrite.OutcomeIff | apps/tooling/api/services/offset_write.py:165-244 | Every other outcome, exactly by request, staged and live value, size of the change, acknowledgement and the target's faults. |
| OffsetWrite.UnboundedRefused | apps/tooling/api/services/offset_write.py:211-212 | A value out of bounds would be refused after the gate and before the write, and change nothing. |
| OffsetWrite.OutcomeLeaves | apps/tooling/api/services/offset_write.py:137-244 | What each outcome leaves: the request as it was, or executed by the user with success, error and read-back; the register at the intended value, at the corrupted one, or untouched. |
| OffsetWrite.AuditRowTells | apps/tooling/api/services/offset_write.py:132-155 | What the one new row says: register, machine, user, staged value, read-back after a success, reason and error. |
| PlainText.StripTrims | apps/tooling/api/services/offset_write.py:101-122 | What stripping removes is white space at the two ends, and all of it. |
| PlainText.SpaceIff | apps/tooling/api/services/offset_write.py:100 | Which characters those are. |
| OffsetWrite.StagedIff | apps/tooling/api/services/offset_write.py:75-125 | When staging is refused and how, and what a staged request holds: the register's live value beside the intended one. |
| OffsetWrite.WrittenIff | apps/tooling/api/services/offset_write.py:181-244 | In every reachable world the target is written, with the intended value, exactly if the request is open, its register not the probe's, the machine not running and in MDI, EDIT, HND, JOG or REF, the write asked for, the typed password not empty and the configured one, the register at its staged value, and a change over 0.5 mm acknowledged; no other request changes, and no other register. |
| OffsetWrite.AuditedIff | apps/tooling/api/services/offset_write.py:132-244 | In every reachable world an attempt on an open request leaves one audit row, except exactly one that the gate lets through, that finds the register at its staged value, and whose change over 0.5 mm is not acknowledged; an attempt without a row changes nothing. |
| OffsetWrite.BoundsHoldAtExecute | apps/tooling/api/services/offset_write.py:211-212 | No execute ever refuses for bounds: create has bounded every value. |
| OffsetWrite.UnauditedAttempt | apps/tooling/api/services/offset_write.py:213-219 | A concrete request, created in an empty world, whose permitted attempt leaves no row. |
| OffsetWrite.SuccessesChain | apps/tooling/api/services/offset_write.py:203-244 | With a faithful target and no outside writes, a register's successful audits chain from its first value to its live one. |
| OffsetWrite.DeparturesBalance | apps/tooling/api/services/offset_write.py:203-244 | Conservation: successful value-changing writes of requests staged at a value are as many as the writes that brought the register to it, plus one if it started there, less one if it is there. |
| OffsetWrite.SecondDepartureNeedsReturn | apps/tooling/api/services/offset_write.py:203-244 | Between two successful writes of requests staged at one value, the first of which changed it, some other successful write put that value back. |
| OffsetWrite.AtMostOneUnlessIntended | apps/tooling/api/services/offset_write.py:203-244 | If no request created for the register intends the value, at most one of the requests staged at it changes the register. |
| OffsetWrite.NextDepartureIff | apps/tooling/api/services/offset_write.py:181-244 | And an attempt on a request staged at a value changes the register away from it exactly if every guard is open, the register back at that value among them, and the target takes the write. |
| OffsetWrite.StagedTwiceWrittenTwice | apps/tooling/api/services/offset_write.py:203-210 | And then it does happen: a concrete run in which two requests staged at the same value both change it. |
| OffsetWrite.DriftIff | apps/tooling/api/services/offset_write.py:203-210 | A request that reaches the drift check fails by drift exactly if the live value has left its staged value. |
| OffsetWrite.LaterRequestsDrift | apps/tooling/api/services/offset_write.py:203-210 | As long as no write restores the value, every later request staged at it fails by drift. |
| OffsetWrite.LiveIsLastSuccess | apps/tooling/api/services/offset_write.py:220-244 | The register holds what its latest successful write left. |
| OffsetWrite.BatchesJoin | apps/tooling/api/services/offset_write.py:247-273 | Splitting a batch changes nothing: the second part runs where a complete first part left off. |
| OffsetWrite.ItemIsolated | apps/tooling/api/services/offset_write.py:247-273 | Whatever an item of a batch came to (written, refused, rejected by the control, read back wrong, but not missing): every other item has the result it would have without it, unless it is on a register whose value that item moved; and the two worlds end the same but for that register, the item's own request and the batch's requests on that register. |
| OffsetWrite.RefusedItemIsolated | apps/tooling/api/services/offset_write.py:247-273 | Wherever in a batch an item is refused before its write, every other item, on the same register too, fares, and the target ends, as if it had not been in the batch. |
| OffsetWrite.MockOffsetWriter.WriteOffset | shared/focas/mock.py:300-310 | The mock target's write, its rejection and its corruption, in place. |
| OffsetWrite.OffsetWriteService.CreateOffsetRequest | apps/tooling/api/services/offset_write.py:75-125 | Staging in place, with the live value captured and the reason stripped, or the error and no change. |
| OffsetWrite.OffsetWriteService.ExecuteRequest | apps/tooling/api/services/offset_write.py:165-244 | One execute in place: request, target, audit trail and error are the specified ones. |
| OffsetWrite.OffsetWriteService.ExecuteBatch | apps/tooling/api/services/offset_write.py:247-273 | The batch loop in place; a missing id escapes it with earlier effects kept. |
| TechDbPlan.NextFreeId | src/techdb_insert.py:120-124 | Above every ID in the table, and one above the greatest. |
| TechDbRuns.PlannedIff | src/techdb_insert.py:81-178 | A row is planned exactly if its class has a confirmed, unprotected template that is in the copy, it has a label, and every override has a column. |
| TechDbRuns.RefusedIff | src/techdb_insert.py:81-178 | And which refusal it is otherwise: the first check that fails, in order. |
| TechDbPlan.ProtectedIff | src/techdb_insert.py:74-78 | A table is protected exactly if its name is the version table's or ends in desc, in any case of its letters. |
| TechDbRuns.ProtectedUntouched | src/techdb_insert.py:74-178 | No run, dry or real, failed or not, plans a row for a protected table or touches one. |
| TechDbRuns.ClonedRow | src/techdb_insert.py:149-178 | A planned row has every column but the ID and is its template's with the trimmed label, vendor and part number and the explicit values written over it, explicit values last. |
| TechDbRuns.PlansAreFresh | src/techdb_insert.py:302-328 | Dry or real: IDs are positive, above all the table had, ascending per table; a real run adds exactly the planned rows and leaves the others as they were. |
| TechDbRuns.NoGaps | src/techdb_insert.py:120-124 | Planned IDs leave no gap: each is 1 or follows one the table had or the run has planned in it. |
| TechDbRuns.AttemptIff | src/techdb_insert.py:302-328 | A real insert fails exactly if the database refuses it or stores another override value; else the table has one row more under the planned ID and the rest is as it was. |
| TechDbRuns.SkipsIff | src/techdb_insert.py:302-318 | A run records a skip exactly if some row was refused when its turn came. |
| TechDbRuns.InsertsReadBack | src/techdb_insert.py:260-271 | Every insert of a completed run is there at the end with every override as written. |
| TechDbRuns.DryRunPredictsIff | src/techdb_insert.py:302-328 | A dry run decides every row as the real run does exactly if no row's missing template row has an ID planned earlier in the same run; and it predicts a failing run up to its failure. |
| TechDbRuns.TemplatesPresentPredict | src/techdb_insert.py:302-328 | In particular if all template rows exist at the start. |
| TechDbRuns.BorrowedTemplateMispredicts | src/techdb_insert.py:104-124 | A concrete copy and two rows on which the dry run is wrong. |
| TechDbInsert.WriteAllLinks | src/techdb_insert.py:330-344 | A completed write-back changes exactly the planned registry rows and gives each its planned identity. |
| TechDbInsert.PendingArePicked | src/techdb_insert.py:226-239 | The pending rows are those without an identity, and with the label asked for if one was, each once, in the registry's order. |
| TechDbInsert.WriteBackSucceedsIff | src/techdb_insert.py:330-344 | It completes exactly if every planned row is still there. |
| TechDbInsert.RerunTakesUnplanned | src/techdb_insert.py:226-239 | The next run finds pending exactly what this one did not plan. |
| TechDbInsert.WrittenLinksCommitted | src/techdb_insert.py:330-346 | Every registry row newly given an identity names a committed TechDB row. |
| TechDbInsert.CrashedRunRepeats | src/techdb_insert.py:330-346 | Dying between the two commits: the next run inserts every planned row once more, under another ID. |
| TechDbInsert.DecideRow | src/techdb_insert.py:302-318 | The checks of one row in order, in place. |
| TechDbInsert.Inserter.PlanAll | src/techdb_insert.py:297-328 | The planning loop, in place: planned rows, skips and failure are the specified ones. |
| TechDbInsert.Inserter.WriteBackAll | src/techdb_insert.py:332-344 | The registry transaction; a row that does not match exactly once rolls it back. |
| TechDbInsert.Inserter.Run | src/techdb_insert.py:274-355 | A whole run: what each database holds after it, the exit, and that at every moment it could die no new registry link is dangling; a dry or failed run leaves both files alone. |
| ProgramUpload.EndsInPercentIff | shared/focas/programs.py:88-91 | The end test means a `%` with only white space after it. |
| ProgramUpload.GotIs | shared/focas/programs.py:84-86 | What a call brings: the reported number of bytes from the front of the 1440-byte buffer. |
| ProgramUpload.VerdictIff | shared/focas/programs.py:67-95 | When a call decides, and how: 251 empty replies in a row, a refusal, more than 2,000,000 bytes, or a chunk ending in `%` with more than one byte in hand. |
| ProgramUpload.DecidedIff | shared/focas/programs.py:67-95 | The upload ends with the first call that decides, or the 5000th if none does. |
| ProgramUpload.ReadProgramText | shared/focas/programs.py:52-101 | The first call with a verdict decides, within 5000 calls; the upload is ended exactly once if it was started, and never otherwise. |
| ProgramUpload.ReturnedProgram | shared/focas/programs.py:67-101 | What is returned: the chunks in order through the first that looks last, 2 to 2,000,000 bytes, never more than 250 empty replies in a row. |
| ProgramUpload.ServedUpload | shared/focas/programs.py:67-101 | A control that serves a program within the caps always has an upload succeed, at the first chunk that looks last. |
| ProgramUpload.WholeProgramIff | shared/focas/programs.py:53-55 | The text is the whole program exactly if every chunk after the first that looks last is empty. |
| ProgramUpload.LeadingPercentLineEndsUpload | shared/focas/programs.py:88-91 | A control that sends the leading `%` line as a chunk of its own, in the 1440-byte buffer: the upload returns that line only. |
| Poller.EveryRunAccounted | shared/focas/poller.py:403-419 | Over every interleaving: the queue is within its bound and holds the latest snapshots; yielded and in-flight ones are, in order, those handed over and not dropped. |
| Poller.NothingLostIff | shared/focas/poller.py:403-419 | Produced = delivered + dropped; nothing was dropped exactly if what was delivered is everything, in order. |
| Poller.DropsOnlyOldestWhenFull | shared/focas/poller.py:413-419 | A drop happens only on a successful poll with a full queue, and takes the oldest. |
| Poller.EveryRunTracked | shared/focas/poller.py:275-455 | Over every interleaving, late work of the FOCAS thread included: state and counters are those of the handler calls; sources opened are closed or held, none once the run is over. |
| Poller.ReadLeaves | shared/focas/poller.py:370-443 | What a read comes to: a snapshot clears the failures, goes to the back of the queue and keeps the source; a stale handle closes it, any other error keeps it, and both count one failure. |
| Poller.FreshSourceAfterStale | shared/focas/poller.py:370-455 | In every run whatever source is held after a stale read is a newly opened one. |
| Poller.StopIff | shared/focas/poller.py:252-358 | Over every run the stop event is set exactly if it was asked for, or the loop left, since the last start. |
| Poller.EndsOnlyWhenStopped | shared/focas/poller.py:466-486 | The iteration begins to end only once stop has been set. |
| Poller.StartsPolling | shared/focas/poller.py:274-300 | A started poller, its first connect over, is ready to poll whether it connected or not. |
| Poller.EndsShutdownIff | shared/focas/poller.py:275-277 | A run ends in SHUTDOWN exactly if leaving it did not interrupt a connect that, already begun on the FOCAS thread, then failed; otherwise it ends with that failure counted, DEGRADED or CIRCUIT_OPEN by the threshold. |
| Poller.CancelledConnectEndsDegraded | shared/focas/poller.py:275-277 | Such a run: cancelled during the first connect. |
| Poller.OutageOpensBreaker | shared/focas/poller.py:390-443 | A poll that cannot reconnect fails twice, so an outage of n polls opens the breaker exactly once 2n failures reach the threshold. |
| Poller.ConsumerMoves | shared/focas/poller.py:466-486 | The consumer is never stuck with something queued or stop set. |
| Poller.StopEndsIteration | shared/focas/poller.py:466-486 | Once stop is set the iteration ends in boundedly many consumer steps, whichever event wins the race and whatever the task and its thread still do; it has yielded everything held or queued, and only a snapshot of the poll in flight can push the oldest out or be left behind. |
| Poller.Create | shared/focas/poller.py:159-180 | The settings checks in order; bad settings raise, good ones give a fresh poller. |
| Poller.SettingsRefusedIff | shared/focas/poller.py:159-180 | Which setting is refused, by its bound. |
| Poller.PollerTask.Succeeded | shared/focas/poller.py:403-419 | The success handler, in place. |
| Poller.PollerTask.Failed | shared/focas/poller.py:421-443 | The failure handler, in place. |
| Poller.PollerTask.Poll | shared/focas/poller.py:370-399 | One poll, in place. |
| Poller.PollerTask.Leave | shared/focas/poller.py:341-368 | The `finally` block in place: a connect still pending on the FOCAS thread, if it had begun, runs before the source is closed. |
| Poller.PollerTask.DrainQueue | shared/focas/poller.py:482-486 | The drain after stop yields what is queued, in order, and ends. |

## Left out

- Alarms: read but never persisted.
- Text scale of macro values: a macro value is a real number; the scale of the stored text is not modelled.
- Multi-row upserts: the rows of one call take effect one after the other, as a driver that sends a statement per row runs them; joined into one statement, PostgreSQL would refuse a repeated key.
- Concurrent database sessions: one poller per machine and one API session at a time; the partial unique indexes that back the assignment checks up are not part of this model.
- Machine and tool rows: fixed while assignments change, since `machines.update` can move the probe without rechecking.
- API dependency's rollback on exception: the session's in-memory effects are modelled, not what a caller does with a raised error.
- Several write targets: one target serves every call, as its protocol's read and write name no machine; requests of several machines therefore share its registers.
- Request timestamps, heartbeats, log text and slow-cycle warnings: nothing depends on them.
- Password comparison: equality, not its constant-time form.
- Decimal inputs with a negative zero, digits outside ASCII and lines ended by a carriage return and a line feed: the G10 grammar is modelled over ASCII digits and single line breaks.
- The control that runs a G10 program: its unit, absolute and cycle modes and its offset cells, nothing else of it.
- Conversion between millimetres and counts: the write path is modelled on the 0.0001 mm grid, on which it is the identity.
- Sleeps that return early: a sleep may overshoot but not undershoot.
- SQLite's own rules: what the database stores of an inserted row is a function given with the table, IDs are unique integers, and table names are taken as spelled, though SQLite ignores their case; automatic detection of the registry table, `--set` number parsing and rendering of SQL text are not modelled.
- Numbers in TechDB values: integers and floats are one number type, as in the comparison that verifies an insert.
- Thread affinity of the asynchronous poller: the stale-handle path disconnects on the event-loop thread, so it is not kept by the code.
- Consumer steps of the asynchronous poller: modelled as steps on values, interleaved with the producer's; only the drain is also a loop in place.
- Second cancellation: one that arrives while the poller's clean-up awaits the disconnect.
- Abandoned iteration: a consumer that leaves `snapshots()` early, and more than one consumer.
- FOCAS calls, decoders and type-code maps, the single-instance lock and the fleet launcher, routers, schemas, authentication, migrations, scripts and the web client: calls into code outside the repository, or presentation.
