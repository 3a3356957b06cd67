# Verified models of the workflow door

Dafny models of the protocols and graph transforms that the workflow plugin's door, its small
stateful modules and its two layout programs are built on, and proofs of what they promise. Check
the whole project with `dafny verify dfyconfig.toml`.

The files follow the program's parts. Where the program changes state step by step, the model is
either a class whose methods are proved against specification functions (the ledger, the gate
index, the finalize pass, the approval tables, the depth searches), a method with its loops
(freeze, pruning, replay, packing, fence walks), or, where several processes or threads interleave,
a step system over which every run is quantified (amends, lane claims, card hooks, watchdogs, the
approval bridge). Pure code is functions and lemmas.

| part | files |
|---|---|
| graph-revision compare-and-set and amend | `GraphRevision.dfy` |
| lane registry | `LaneRegistry.dfy` |
| card ledger and its refinement | `CardLedger.dfy`, `LedgerRefinement.dfy` |
| card enforcement, whole card runs, what covers a card, draining, card text | `CardEnforcement.dfy`, `CardShipping.dfy`, `CardCoverage.dfy`, `CardDraining.dfy`, `CardText.dfy`, `TextLines.dfy` |
| dead-run finalize, watchdog respawn, journal replay | `DeadRunFinalize.dfy`, `RespawnGuard.dfy`, `JournalReplay.dfy` |
| open-gate index: its log, and the file with its cache | `GateIndex.dfy`, `GateIndexFile.dfy` |
| approval bridge, its tables, its runs and the life of a hold | `ApprovalBridge.dfy`, `ApprovalRuns.dfy`, `ApprovalLife.dfy` |
| replay freeze, launch parameters, seed binder | `ReplayFreeze.dfy`, `LaunchParams.dfy`, `LaunchLaws.dfy`, `SeedBinder.dfy` |
| depth searches, depth columns, band packing | `DiagramDepth.dfy`, `DesktopDepth.dfy`, `DepthAgreement.dfy`, `ColumnGroups.dfy`, `BandRows.dfy` |
| shared vocabulary | `Wrappers.dfy`, `Collections.dfy`, `Finite.dfy`, `Graphs.dfy`, `Depths.dfy`, `Ascending.dfy` |

What the proofs assume of the outside world is visible in each model: hashes that stand for content
are injective, event logs only grow, a kernel lock is dropped when its holder dies, and helpers of
the engine (record validity, spawn verification, whitespace-flexible matching, which slots a text
refers to) are arguments.

## Where the code does less than one might read into it

Each of these is a proved statement, not a remark; the lemma named first gives the condition.

- A revision token is assembled from two unlocked reads. It always pins the graph that is replaced,
  and the freeze and the preview see that very graph. The patch base is a third unlocked read made
  before the first check: it is the replaced graph if and only if no writer was between its append
  and its replace at that read, or that writer was putting back the very graph the patch read, or it
  died there (`PatchBaseOfReadToken`; `TornTokenCanPatchAnotherGraph` is a run where it is not).
- The amend log is a chain if and only if no writer died between append and replace of a row that
  was to change the graph (`NoLostUpdate`; `CrashedWriterBreaksTheChain` is such a run).
- A call that cannot read the ledger goes on from an empty one, so a landed add forgets the other
  entries; it does what the plain map asks if and only if there was nothing to forget
  (`BlindAddForgets`).
- Between a hook's reconcile and its read of the owed cards, an outstanding card is hidden if and
  only if a worker of an earlier turn proposed it in between (`OwedReadMissesOnlyLateProposals`;
  `AbandonedWorkerHidesACard` is such a run). The next turn's hook owes it (`OwedAtTheNextHook`).
- While a selected card is being confirmed it becomes owed again if and only if it is outstanding
  and a reconcile of another turn, the death of the text holding the claim, or a copy of a text
  that shipped the card before takes its claim (`ConfirmationStaysCovered`; `LateReconcileUncovers`
  is such a run). What bounds the number of times it ships is the host's one selection per turn
  (`OneShipPerAdd`).
- A deep copy of a shipped text confirms its cards once more when it is touched. An entry that a
  launch added again in between is dropped unshipped (`CopyDropsARelaunch`), and whatever claim
  stands on the card is released (`ClaimStandsUntilTaken`).
- The gate index's cache is stamped after the read it caches, so another process's write in between
  leaves it trusted but stale exactly when the write changed the set of open gates
  (`Index.Remember`).
- The gate index is exact as long as the file fits the scan bound together with each line that comes
  in (`IndexIsExactWithinBound`). Compaction sees to that for ever when rows have at most 2092 bytes
  and at most 500 gates are open at a time (`CompactionKeepsItSmall`); past the bound a reader may
  miss an open gate, never invent one (`IndexInventsNothing`). `note_close` closes what it saw open:
  a gate another process opens again after the close row is open, and one it opens in between that
  was not seen stays open (`Index.NoteClose`).
- The guard remembers one fingerprint. A fingerprint is respawned at most once if and only if no
  spawn is confirmed for a fingerprint that already has its receipt while the guard names another,
  as long as nobody dies between its spawn and its receipt (`OnceExactlyWhen`). It never comes to
  that when no caller dies inside, none enters with a fingerprint the run has left, and no amend
  brings an earlier fingerprint back (`OncePerFingerprint`). None of the three can go:
  `DeadCallerRespawnsAgain`, `StaleCallersRespawnAgain` and `AmendedBackRespawnsAgain` break one
  each and respawn a fingerprint twice. A run that was never amended is respawned at most once.
- A hold row between the offset a forgotten run was read up to and the end it is seeded at when it
  is seen again is never minted (`ForgottenRowsAreNeverMinted`); every complete row since the last
  first sight is, exactly once (`EveryRowIsMintedOnce`).
- A retried finalize pass never rewrites an id list. Retries end with the records a clean pass alone
  would have left if and only if none of them wrote an aggregate while an item of it was lost, and
  with its verdict if and only if none wrote a verdict missing a node (`RetriesRestoreIff`;
  `RetryLosesAnItem` and `RetryLosesABlocker` are passes that lose one).
- A journaled path that begins with exactly two slashes is restored outside the output directory;
  every other path is restored below it (`RestoredBelowIff`; `TwoSlashesEscape` is such a path).
- The launch contract refuses an unbound pin, not an unbound knob without a default
  (`EveryValueIsUsed`). A patch that sets `after` can make a shipped node depend on a removed one;
  it does not exactly when the deciding patch names none (`DependenciesShipToo`).

## Model

| member | source | states |
|---|---|---|
| GraphRevision.RunKeepsInv | __init__.py:4282-4323 | in every interleaving the lock is held by one live client, every token is bounded by the log, and what a client read since its token is what the log says was there |
| GraphRevision.GoodTokensAreAdmitted | __init__.py:4297-4310 | over every run, at either check: no token is let through, a token that was read is let through if and only if the log has as many rows as it counts and graph.json holds its bytes, which for one read whole with no writer in flight means no row was added since, zero rows included; a refused client has written nothing and holds no lock |
| GraphRevision.SoloAmendCommits | __init__.py:4619-4791 | from any state with the lock free, a client that reads its token and runs alone commits: its graph is graph.json, its row the last of the log, no other client touched |
| GraphRevision.AnySubmissionIsChecked | __init__.py:4297-4310 | a client alone that submits no token, or the pair of the log's row count and the hash of graph.json, is admitted, with the patch base it read; any other token is refused, and nothing but the client changes |
| GraphRevision.TokenedAmendReplacedWhatItRead | __init__.py:4640-4791 | a finished amend with any token (read, torn, invented) froze and diffed against exactly the graph it replaced, and its row stands at the position the token counted |
| GraphRevision.TokenIsSpentOnce | __init__.py:4297-4310 | no two amends commit on one token |
| GraphRevision.PatchBaseOfReadToken | __init__.py:4619-4643 | in every run the patch was applied to the replaced graph if and only if no writer stood between append and replace at the patch read, or it put back the graph the patch read, or it died there; for an untorn token always |
| GraphRevision.TornTokenCanPatchAnotherGraph | __init__.py:4282-4295 | a run in which a torn token commits a patch made on another graph |
| GraphRevision.NoLostUpdate | __init__.py:4776-4790 | tokened and tokenless commits form one chain from the first graph to graph.json if and only if no writer died between append and replace of a row that was to change the graph |
| GraphRevision.CrashedWriterBreaksTheChain | __init__.py:4781-4790 | a run in which a writer dying there breaks the chain |
| GraphRevision.RevisionNeverReturns | __init__.py:4270-4295 | log rows are only added, and a head revision is never the head again after a later commit, even if the bytes return |
| LaneRegistry.RunKeepsInv | __init__.py:3552-3806 | doors, entry and directories stay consistent, and unfinished registered runs beyond one are paid for by reopenings, whatever crashes |
| LaneRegistry.EntryNamesACompleteRun | __init__.py:3606-3806 | an entry never names a directory without graph.json, run.json and wake_protocol, and no runner starts for a run no entry named |
| LaneRegistry.CreatesOnlyOverAFinishedRun | __init__.py:3552-3576 | a door may create if and only if there is no entry, or its own key's run is finished at that moment; losers get the incumbent, another key's entry is a collision; only such a door makes a directory, under the lock |
| LaneRegistry.AnswersNameRegisteredRuns | __init__.py:3654-3806 | a caller is only handed a run that some entry named |
| LaneRegistry.LaunchedRunHasARunner | __init__.py:3700-3806 | over every run: who is told that it launched finds its directory, unless removed from outside, complete and with a runner spawned into it |
| LaneRegistry.ProvedDoorLaunches | __init__.py:3780-3806 | whatever others do, a proved door that does not crash and whose directory stays is answered with its own run |
| LaneRegistry.LaunchWasSynced | __init__.py:3700-3806 | in every run nobody launches whose directory was not proved with a sync that worked |
| LaneRegistry.DoorWithoutProofFails | __init__.py:3804-3812 | a failed sync, or a directory that is gone at the proof or at the return, is answered as a failed proof, for good |
| LaneRegistry.SoloDoorLaunches | __init__.py:3552-3806 | from any state with the lock free and a vacant lane, a door that runs alone leaves exactly: the entry naming the new run, its complete directory with a runner, the caller's answer, the lock free |
| LaneRegistry.AtMostOneUnfinishedRun | __init__.py:3098-3122 | at most one unfinished registered run per lane, plus one for each reopening |
| LaneRegistry.ReopenedRunMakesTwo | __init__.py:3098-3122 | the bound is reached: two doors in turn and one reopening leave two unfinished runs |
| LaneRegistry.RemovedRunKeepsTheLane | __init__.py:3098-3122 | a run whose directory is deleted still reads as unfinished: the next door is handed its id |
| CardLedger.Ledger.Load | card_ledger.py:75-101 | a read answers the decoded file or, when it cannot be read or has the wrong shape, empty; a mirror is trusted only under its own stamp and always agrees with it |
| CardLedger.NextReadServes | card_ledger.py:75-101 | what one read leaves in the mirror decides exactly when a next read that cannot read the file still answers it |
| CardLedger.EditsNothingIff | card_ledger.py:192-212 | a call writes nothing if and only if it moves or drops an entry that is not there, or moves one to the state it is in |
| CardLedger.Ledger.Save | card_ledger.py:104-119 | a failed write changes neither file nor mirror; a landed one leaves the file with the new data and the mirror with the same, or no mirror when the file cannot be stat'ed |
| CardLedger.Ledger.Add | card_ledger.py:179-189 | the file and mirror after an add, whatever the read and the write do; when the read works, the first timestamp and a known name are kept and empty sessions pruned |
| CardLedger.Ledger.SetState | card_ledger.py:192-202 | the file and mirror after a move, whatever the read and the write do; a move touches an existing entry of another state only, else writes nothing |
| CardLedger.Ledger.Drop | card_ledger.py:205-212 | the file and mirror after a drop, whatever the read and the write do; a drop removes one entry, and writes nothing when it sees none |
| CardLedger.Ledger.Entries | card_ledger.py:215-226 | the session's runs, newest first |
| CardLedger.NewestLists | card_ledger.py:215-226 | the listing has every run once, ordered by timestamp then run id, descending |
| CardLedger.NewestWithout | card_enforcement.py:153-161 | leaving runs out keeps the order of the rest |
| LedgerRefinement.PrunedIsFlat | card_ledger.py:166-168 | pruning removes empty sessions and nothing else |
| LedgerRefinement.FlatIsFaithful | card_ledger.py:150-169 | without empty sessions the file is determined by the plain map (session, run) to entry |
| LedgerRefinement.EditRefines | card_ledger.py:184-212 | an edit of the data is that edit of the plain map, and a call that edits nothing asks nothing of it |
| LedgerRefinement.LedgerRefinesPlainMap | card_ledger.py:75-226 | every history of adds, moves, drops, reads and foreign writes, over file and mirror with any reads and writes failing, refines the plain map on which a failed write does nothing and a blind read starts from nothing |
| LedgerRefinement.SavedFileHasNoEmptySession | card_ledger.py:166-168 | whatever the file held before and whatever others put there: it is untouched since somebody else put it there, or it holds no empty session |
| LedgerRefinement.BlindAddForgets | card_ledger.py:83-99 | a landed add that could not read does what the plain map asks if and only if there was nothing else in the file |
| CardEnforcement.Enforcement.ReadOwed | card_enforcement.py:153-161 | the session's entries, newest first, without retired and claimed ones |
| CardEnforcement.Enforcement.Reconcile | card_enforcement.py:249-281 | removes exactly this session's claims of other turns |
| CardEnforcement.Enforcement.Die | card_enforcement.py:284-288 | removes exactly the claims that name the dying text |
| CardEnforcement.Enforcement.Propose | card_enforcement.py:364-378 | claims what is unclaimed, marks the turn, re-arms full tables |
| CardEnforcement.Enforcement.CardHook | card_enforcement.py:381-416 | one hook call: stale claims of the session go; pasted cards are retired, unclaimed and out of the ledger where the drop landed, and nothing else is; without a paste, once a turn, the newest eligible cards, three at most, are claimed for the text and nothing else changes |
| CardShipping.OneShipPerAdd | card_enforcement.py:234-351 | over every run, counted step by step: a card is selected at most once for an entry there at the start, once for each time its entry comes into the ledger, and once for each confirmation whose drop did not land |
| CardShipping.ReadTakes | card_enforcement.py:405-412 | a hook takes the newest owed cards, three at most, if and only if its turn has begun and not yet proposed and some card is owed; else nothing changes |
| CardCoverage.NothingOwedIsLost | card_enforcement.py:153-288 | at every instant of every run an outstanding card is owed or on a living text of this turn if and only if no claim of an earlier turn stands on it, and after a reconcile of this turn none does |
| CardCoverage.OwedReadMissesOnlyLateProposals | card_enforcement.py:397-408 | between the hook's reconcile and its read of the owed cards a card gets hidden if and only if a worker of an earlier turn proposes it; when none does the read finds every outstanding card covered |
| CardCoverage.OwedAtTheNextHook | card_enforcement.py:249-281 | a new turn's hook owes every card still outstanding |
| CardCoverage.AbandonedWorkerHidesACard | card_enforcement.py:43-50 | a run in which an abandoned worker hides an outstanding card from the hook of the turn after |
| CardCoverage.ClaimStandsUntilTaken | card_enforcement.py:234-371 | through any run a claim stands unchanged if and only if its text does not die, no reconcile of another turn and no paste of the card comes, and neither its confirmation nor that of a copy of a text that shipped the card reaches the second half |
| CardCoverage.ConfirmationStaysCovered | card_enforcement.py:234-246 | in every run, while a claimed card is being confirmed, a step makes it owed again if and only if it is outstanding and the step is a late reconcile, the death of the claim's text or the release by such a copy |
| CardCoverage.LateReconcileUncovers | card_enforcement.py:249-281 | a run in which a reconcile of the turn before makes a selected card owed before its entry is dropped |
| CardCoverage.EntryMoves | card_enforcement.py:234-403 | a step puts an entry into the ledger exactly when it is the card's launch, and takes it out exactly when it is its terminal, a landed paste, or a landed drop of its confirmation or of a copy's |
| CardCoverage.PastedIsNotOwed | card_enforcement.py:397-404 | a pasted card whose drop landed is retired, unclaimed and out of the ledger, and never owed before it is launched again, whatever happens |
| CardCoverage.CopyDropsARelaunch | card_enforcement.py:308-326 | a run in which a copy of a shipped text drops an entry added again, so that this add never ships |
| CardCoverage.CopyReleasesOnce | card_enforcement.py:234-246 | the second half of such a confirmation releases whatever claim stands on the card, however late, and once per attempt |
| CardShipping.OwedIsOwed | card_enforcement.py:153-161 | a card is owed if and only if it is in the ledger, not retired and not claimed |
| CardDraining.FullTurnIsARun | card_enforcement.py:381-413 | a turn on the tables is a run of the protocol: reconcile, read, propose, select, confirm each card, next turn |
| CardDraining.FullTurnTakesThree | card_enforcement.py:397-413 | a selected turn ships the three newest outstanding cards and leaves the rest in order |
| CardDraining.QueueDrains | card_enforcement.py:381-413 | from any state of the protocol whose session is between turns, pasted cards or not: when every proposal is selected, n outstanding cards ship in order and are gone after exactly ceil(n/3) turns |
| CardText.StripCode | card_enforcement.py:109-125 | the loop computes the fence walk every other recogniser is stated over |
| CardText.BareDirectiveIds | card_enforcement.py:128-132 | the directives outside fences and inline code, in order |
| CardText.OpenFence | card_enforcement.py:135-146 | the fence the same walk ends inside |
| CardText.FenceHides | card_enforcement.py:109-146 | from a line that begins with a fence mark to the next that begins with the same mark, or to the end, no directive is live, and the fence is open exactly in between |
| CardText.PlainLineShows | card_enforcement.py:109-125 | outside every fence a line that begins with no mark is read but for its inline code |
| CardText.FindsExactlyTheDirectives | card_enforcement.py:128-132 | an id is found in a text if and only if a directive of it starts somewhere in the text |
| CardText.InlineGoes | card_enforcement.py:109-125 | the first pair of backticks goes with all between, and the rest of the line is read on from there |
| CardText.LoneTickStays | card_enforcement.py:109-125 | a line with no pair of backticks stays as it is |
| CardText.FindIdsStops | card_enforcement.py:128-132 | no directive reaches across a blank or a line break |
| CardText.IdsLineByLine | card_enforcement.py:109-132 | recognition of the whole text is recognition line by line |
| CardText.StrippedEnd | card_enforcement.py:358-361 | stripping trailing blanks changes neither the directives nor the open fence |
| CardText.CardsAreRecognised | card_enforcement.py:358-362 | appended cards are read back as exactly themselves, in order |
| CardText.AugmentedTextShipsExactlyTheCards | card_enforcement.py:354-362 | on every reply the live directives of the augmented text are the reply's own followed by exactly the cards taken, and it ends outside every fence |
| DeadRunFinalize.RunDir.CloseRecords | scripts/lane_recover.py:429-462 | closes exactly the unverifiable running records of graph nodes whose write lands |
| DeadRunFinalize.RunDir.WriteAggregates | scripts/lane_recover.py:473-489 | adds a record for exactly the fan-outs with a current closed item and none yet, failed, under the graph's fingerprint, naming exactly the closed items; touches no standing record |
| DeadRunFinalize.RunDir.Finalize | scripts/lane_recover.py:424-513 | one pass with any writes failing: its new run directory and its exit code |
| DeadRunFinalize.PassClosesExactly | scripts/lane_recover.py:429-462 | a standing record is rewritten if and only if it is an unfinalized running record of a graph node with no live child and the write lands; then it is failed and keeps its fingerprint, pid and items |
| DeadRunFinalize.PassMakesExactly | scripts/lane_recover.py:473-489 | a missing record is made if and only if it is that of a fan-out of the graph with a closed item of the current fingerprint and the write lands; then it is failed and names exactly the closed items |
| DeadRunFinalize.PassTellsWhatItClosed | scripts/lane_recover.py:464-471 | one event more naming exactly the nodes of the records closed now, if there are any and the write lands, else none |
| DeadRunFinalize.PassJudges | scripts/lane_recover.py:490-513 | the verdict is written if and only if something is closed, none stands that may not be replaced and the write lands; it blames exactly the nodes with closed records |
| DeadRunFinalize.FourMeansLost | scripts/lane_recover.py:424-513 | a pass reports failure if and only if a record, aggregate or verdict write it needed was lost |
| DeadRunFinalize.PassesOnlyFail | scripts/lane_recover.py:429-489 | after any passes a committed record is one that stood before, unchanged; every other new or changed record is failed and closed, a changed one with its own fingerprint, pid and items, a new one a fan-out's naming exactly the items closed when it was written |
| DeadRunFinalize.ZeroMeansClosed | scripts/lane_recover.py:375-513 | exit code 0 leaves no unverifiable running record, an aggregate wherever one is due, and a standing verdict if anything is closed |
| DeadRunFinalize.ZeroIsFinal | scripts/lane_recover.py:396-513 | after a 0 one more pass changes nothing and reports 0 |
| DeadRunFinalize.PassesKeepFacts | scripts/lane_recover.py:440-500 | no sequence of passes alters a committed, live, torn or aggregate record or a standing verdict; a closed record keeps its fingerprint and pid |
| DeadRunFinalize.RetryRepairs | scripts/lane_recover.py:394-513 | a lossy pass followed by a clean one ends where the clean one alone would, except that id lists already written may name fewer |
| DeadRunFinalize.RetryRestoresRecordsIff | scripts/lane_recover.py:473-489 | with the very records if and only if the lossy pass wrote no aggregate while an item of it was lost |
| DeadRunFinalize.RetryRestoresVerdictIff | scripts/lane_recover.py:490-509 | and with the very verdict if and only if it wrote none that misses a node with a lost record |
| DeadRunFinalize.RetryLosesAnItem | scripts/lane_recover.py:478-486 | a lost item write after which the aggregate misses the item for good |
| DeadRunFinalize.RetryLosesABlocker | scripts/lane_recover.py:490-509 | a lost record write after which the verdict misses the node for good |
| DeadRunFinalize.AnyRetriesRepair | scripts/lane_recover.py:394-513 | so do any number of lossy passes, and the clean one reports 0 |
| DeadRunFinalize.RetriesRestoreIff | scripts/lane_recover.py:394-513 | any number of lossy passes: records and verdict are those of a clean pass alone if and only if each pass kept its lists whole |
| RespawnGuard.RunKeepsInv | scripts/lane_recover.py:245-321 | callers inside the lock, receipts and guard stay consistent over every run |
| RespawnGuard.GuardFollowsReceipts | scripts/lane_recover.py:280-321 | receipts only for confirmed spawns; the guard is the last receipt's fingerprint and adjacent receipts differ |
| RespawnGuard.RespawnsOnlyOverACrash | scripts/lane_recover.py:280-321 | over every run: each confirmed spawn's caller saw the crash signature while it held the lock and its spawn was confirmed live; receipts and respawn answers are of confirmed spawns |
| RespawnGuard.LiveRunIsLeftAlone | scripts/lane_recover.py:287-288 | a run whose runner never dies is never respawned |
| RespawnGuard.SoloCallerRespawnsIff | scripts/lane_recover.py:280-321 | from any state with the lock free, a caller alone respawns if and only if the guard does not name the fingerprint, the signature stands and the spawn is confirmed; then it leaves one receipt and the guard, else neither |
| RespawnGuard.UnamendedRunRespawnsOnce | scripts/lane_recover.py:269-321 | a run whose fingerprint never changed is respawned at most once |
| RespawnGuard.OnceExactlyWhen | scripts/lane_recover.py:283-321 | in every run, crashes included: all receipts have different fingerprints if no spawn was confirmed for a fingerprint that already had one, which the guard, naming another, let through; and only if, as long as nobody died or stands between spawn and receipt |
| RespawnGuard.OncePerFingerprint | scripts/lane_recover.py:269-321 | which never comes up in a run in which no caller dies inside, none enters with a fingerprint gone by and no amend brings one back |
| RespawnGuard.StaleCallersRespawnAgain | scripts/lane_recover.py:280-286 | a run in which only the second fails and a fingerprint is respawned twice |
| RespawnGuard.AmendedBackRespawnsAgain | scripts/lane_recover.py:283-286 | a run in which only the third fails and a fingerprint is respawned twice |
| RespawnGuard.DeadCallerRespawnsAgain | scripts/lane_recover.py:312-320 | a run in which only the first fails and a fingerprint is respawned twice |
| JournalReplay.PiecesAreTheText | scripts/lane_recover.py:747-753 | cutting at the anchor leaves anchor-free pieces that glue back to the text |
| JournalReplay.PatchIsExact | scripts/lane_recover.py:737-764 | a refused patch leaves the text alone; a single exact one replaces the only cut occurrence; an anchor patched by itself changes nothing |
| JournalReplay.PatchDecides | scripts/lane_recover.py:737-764 | the whole decision of a patch: refused without anchor, appended on an empty one, every occurrence or the only one replaced, refused when ambiguous, the flexible matcher asked only when the anchor is nowhere |
| JournalReplay.SubstitutedKeepsGaps | scripts/lane_recover.py:754-764 | replacing the matcher's hits keeps exactly the text between them |
| JournalReplay.RestoredPathIsRelativeIff | scripts/lane_recover.py:767-772 | a restored path has no parent or empty component, and is relative if and only if the journaled path does not begin with exactly two slashes |
| JournalReplay.RestoredPathIs | scripts/lane_recover.py:767-772 | the restored path is the path's names in order, less a drive, and `_unnamed` when none is left |
| JournalReplay.RestoredBelowIff | scripts/lane_recover.py:836-839 | the file is written below the output directory if and only if the path does not begin with exactly two slashes |
| JournalReplay.TwoSlashesEscape | scripts/lane_recover.py:767-772 | such a path restores to itself |
| JournalReplay.ReplayOne | scripts/lane_recover.py:783-834 | one call against the files so far: the new files and its list |
| JournalReplay.Replay | scripts/lane_recover.py:775-834 | the restored files are the fold of the journal and the lists are its calls by outcome |
| JournalReplay.ReplayPartitionsTheJournal | scripts/lane_recover.py:782-834 | every call lands in exactly one of the four lists |
| JournalReplay.CallIsReportedAs | scripts/lane_recover.py:783-834 | the exact condition under which a call is unmatched, skipped, written or applied |
| JournalReplay.ListsTellWhatHappened | scripts/lane_recover.py:783-834 | an index stands in a list if and only if a call of that index had that outcome on the files the earlier calls left |
| JournalReplay.RefusedCallsAreNoWrites | scripts/lane_recover.py:785-800 | without all refused, unparsed and pathless calls the same files, writes and patches result |
| JournalReplay.FilesAreIndependent | scripts/lane_recover.py:804-834 | each restored file is the fold of only its own calls |
| JournalReplay.FileIsRestoredIffNamed | scripts/lane_recover.py:804-840 | a file is restored if and only if a live call names it |
| JournalReplay.LastCallDecides | scripts/lane_recover.py:800-834 | the last live call that names a file decides it: a write its content whatever stood there, a patch what it makes of the text left by the earlier calls or of the seed |
| JournalReplay.UnappliedPatchOnlySeeds | scripts/lane_recover.py:809-831 | a patch that is not applied changes no file, it only seeds a missing one |
| GateIndex.Fold | gate_index.py:76-85 | the loop computes the fold the laws below are about |
| GateIndex.CompactionIsInvisible | gate_index.py:127-140 | the compacted log and the old one fold to the same rows in the same order, whatever is appended to both |
| GateIndex.AppendWithinBound | gate_index.py:110-132 | within the scan bound an append, compacting or not, adds exactly its row and grows the file by no more |
| GateIndex.TailReadInventsNothing | gate_index.py:53-73 | a tail-bounded read may miss an open gate but shows none the whole log does not, with the same row |
| GateIndex.IndexInventsNothing | gate_index.py:53-160 | from any log, no history of appends, junk lines and lossy compactions, forced or not, shows a gate open that the complete history does not |
| GateIndex.IndexIsExactWithinBound | gate_index.py:53-160 | however long the history: as long as the file fits the scan bound together with each line that comes in, the index shows exactly the open gates of the complete history, in order |
| GateIndex.CompactionKeepsItSmall | gate_index.py:28-29 | from an empty log, rows of at most 2092 bytes and at most 500 gates open at a time keep the file at 500 lines and within the bound for ever, so that it shows exactly the open gates of everything ever written |
| GateIndex.LastRowDecides | gate_index.py:76-85 | a gate is open if and only if the last row naming it opens it, with that row |
| GateIndex.FoldOfDict | gate_index.py:135-140 | a log of distinct open rows folds to itself |
| GateIndexFile.ClosingLeavesOthers | gate_index.py:203-221 | a run's close rows take out exactly its gates |
| GateIndexFile.Index.IsOpen | gate_index.py:163-172 | the answer is that of a fresh read, cached or not |
| GateIndexFile.Index.Remember | gate_index.py:175-178 | the refreshed cache is right if and only if what others did to the file meanwhile, compactions included, left the open keys as they were |
| GateIndexFile.Index.Append | gate_index.py:110-132 | the log after an append and its possible compaction |
| GateIndexFile.Index.Compact | gate_index.py:143-160 | every reader sees the same rows, the file holds nothing else, and the count is theirs |
| GateIndexFile.Index.NoteOpen | gate_index.py:181-200 | a gate seen open is not appended again; any other is, and within the bound the new row opens it whatever other processes wrote since the look, and every other gate is as they left it |
| GateIndexFile.CloseCloses | gate_index.py:203-221 | with rows of other processes before each close row, a gate closed is closed unless one of theirs after its close row opens it |
| GateIndexFile.CloseSparesOthers | gate_index.py:203-221 | and any gate not closed is as their rows alone leave it |
| GateIndexFile.Index.NoteClose | gate_index.py:203-221 | the file is the old one with one close row per gate of the run seen open, others writing in between and compactions running; within the bound each is closed unless opened again after its close row, every other gate is as the others left it, and alone the remaining rows keep their order |
| ApprovalBridge.Bridge.Push | approval_bridge.py:179-181 | the queue keeps its 256 newest tokens, and exactly the instances of those pushed out are gone |
| ApprovalBridge.Bridge.Mint | approval_bridge.py:278-299 | an unknown token is minted and a known one is not, it stands at once unless the queue is full; the bound on those in flight holds if it held; no other instance is new or changes |
| ApprovalBridge.Bridge.PostApproval | approval_bridge.py:160-188 | the door is asked at most once, exactly for a known unresolved token and an approve-shaped choice, and the token is no longer unresolved |
| ApprovalBridge.Bridge.Tick | approval_bridge.py:211-245 | every hold row that starts a complete line at or after the offset is minted under its own offset unless it stands already, and nothing else is; the offset moves past the last complete line, to the end on a first sight |
| ApprovalBridge.TickReadsEveryRow | approval_bridge.py:227-245 | the rows a tick reads are exactly the hold rows that start a complete line at or after the offset |
| ApprovalBridge.TickMintsInOrder | approval_bridge.py:227-299 | rows none of which stands are minted once each in the order of the log, and while the queue has room for them they all stand afterwards, pending until eight are in flight and skipped beyond |
| ApprovalRuns.StepKeepsInv | approval_bridge.py:160-403 | every step of tailer, emitters, hooks and sweep keeps the tables, bounds and history consistent |
| ApprovalRuns.OneReleasePerHold | approval_bridge.py:160-301 | in every interleaving each release is for a hold row that stands in the log, for that row's run and gate, on an approve-shaped choice, and no token is released twice |
| ApprovalRuns.BoundsHold | approval_bridge.py:278-298 | at most eight unresolved unskipped instances and at most 256 queued tokens, always |
| ApprovalRuns.EveryRowIsMintedOnce | approval_bridge.py:203-301 | in every run, between the offset a run was first seen with and the one it is read up to, the tokens minted are exactly the complete hold rows that start a line there, and no token is minted twice |
| ApprovalRuns.TickLeavesNoRow | approval_bridge.py:203-245 | right after a tick every complete hold row of the run since its first sight has been minted |
| ApprovalLife.InstancesMoveJust | approval_bridge.py:139-403 | presenting, skipping, hooks and sweep move exactly the instance they name, and only from the phase they apply to; an instance is lost exactly when it heads a full queue into which a token enters |
| ApprovalLife.AnsweredNeverCounts | approval_bridge.py:160-276 | a response or a sweep frees the hold's slot among those in flight, and in no continuation does the hold take one again |
| ApprovalLife.PresentedOnce | approval_bridge.py:338-403 | in every run a hold is presented at most once |
| ApprovalLife.AppendedHoldIsPresented | approval_bridge.py:203-391 | a hold row appended to a log read to its end, with fewer than eight holds in flight, is minted by the next tick, and whatever follows that does not name it, its emitter then presents it |
| ApprovalLife.TurnedAwayIsNeverPresented | approval_bridge.py:338-375 | a hold skipped by its emitter, or no longer pending at its emitter's turn, is never presented |
| ApprovalLife.ForgottenRowsAreNeverMinted | approval_bridge.py:203-245 | after a run was forgotten and seen again it is read from its end, and no row that stood in its log unminted is ever minted |
| ApprovalRuns.SecondResponseIsInert | approval_bridge.py:168-188 | a second response to a token, whatever its choice, changes nothing |
| ReplayFreeze.FrozenCommitted | __init__.py:4555-4586 | terminates, and an id is frozen if and only if it and every transitive ancestor pass the local test, for any node order, repeated or dangling ids and cycles |
| ReplayFreeze.UnchangedIffRespelled | __init__.py:4555-4577 | a node passes the local test if and only if it is the last committed definition of its id written again, as it was, under the tier it was baked from, or as the one literal of an untiered bake, and that definition's record is done, partial or skipped |
| ReplayFreeze.CloseUnderAfter | __init__.py:4579-4585 | the loop drops ids until the set is closed under `after` and drops none of a closed set |
| ReplayFreeze.FrozenIsLargest | __init__.py:4560-4561 | any set of locally unchanged nodes closed under `after` is frozen |
| ReplayFreeze.SameWalks | __init__.py:4566-4569 | the walks up from a frozen node are the same in the committed graph and the amended one |
| ReplayFreeze.FrozenAncestryIsCommitted | __init__.py:4555-4586 | a frozen node has exactly its committed ancestors, each with a replayable committed record |
| LaunchParams.Bind | __init__.py:2939-2953 | usable supplied values over defaults, and exactly the defective keys listed |
| LaunchParams.Cascade | __init__.py:2961-2968 | the cascade closes the removed set under children and removes nothing it need not |
| LaunchParams.Prune | __init__.py:2958-2968 | removed are exactly the nodes whose `where` fails and their descendants, on any graph |
| LaunchParams.ApplyCases | __init__.py:2974-2981 | one survivor with its chosen patches in slot order and its seams popped |
| LaunchParams.Materialize | __init__.py:2969-2981 | the survivors, concrete, in order |
| LaunchParams.CheckTotality | __init__.py:2983-2990 | exactly the values never bound and the referenced pins left unbound are listed |
| LaunchParams.Resolve | __init__.py:2902-3000 | a launch succeeds if and only if nothing is wrong with it, and a refusal lists every defect and only those |
| LaunchLaws.ShipsTheSurvivors | __init__.py:2969-2981 | the shipped nodes are the surviving positions in their order, each concrete |
| LaunchLaws.StaysIffAllowed | __init__.py:2958-2968 | a node stays if and only if every `where` at it and above it allows what its slot stands for: the supplied text the declaration takes, else the knob's default |
| LaunchLaws.SurvivorsStandOnSurvivors | __init__.py:2958-2969 | a survivor's own gate and those of all its ancestors pass, and none of them is removed |
| LaunchLaws.HighestSlotDecidesField | __init__.py:2974-2979 | a field is the one the highest slot's chosen patch sets, else untouched |
| LaunchLaws.HighestSlotDecidesAfter | __init__.py:2974-2979 | so are the dependencies |
| LaunchLaws.HighestSlotDecidesId | __init__.py:2974-2979 | and the id |
| LaunchLaws.DependenciesShipToo | __init__.py:2961-2981 | a shipped node depends on no removed one if and only if the patch deciding its `after`, if any, names none |
| LaunchLaws.KeyIsRefusedFor | __init__.py:2942-2953 | a key is refused exactly for being undeclared, for being no text, or for a text outside its knob's domain |
| LaunchLaws.ValueIsRefusedFor | __init__.py:2983-2988 | a slot with a value is refused exactly when something ships, no text that ships refers to it, and it is no knob that drives a `where` or a `by` |
| LaunchLaws.PinIsRefusedFor | __init__.py:2989-2990 | a pin is refused exactly when a text that ships refers to it and no usable text was passed |
| LaunchLaws.NothingElseIsRefused | __init__.py:2931-2973 | beyond keys and slots a map is refused exactly when every node is removed |
| LaunchLaws.StampIsTotal | __init__.py:2939-2953 | a sound launch stamps every supplied value as supplied, fills only defaults, and keeps knobs in their domains |
| LaunchLaws.EveryValueIsUsed | __init__.py:2970-2992 | a sound launch ships a node, binds every referenced pin, leaves unbound only knobs without default, and uses every bound slot |
| LaunchLaws.ConcreteIsFinal | __init__.py:2980-3000 | the concrete graph materializes to itself under any binding |
| SeedBinder.DecidesOtherAgentAbove | __init__.py:2785-2792 | the path-local recursion terminates and decides exactly whether another agent is a transitive ancestor, cycles included |
| SeedBinder.BindSeed | __init__.py:2784-2803 | exactly the agents no other agent stands above get the seed, at the end of their context, after their own and a blank line; every other node is as it was; refused if and only if there is none |
| SeedBinder.LastOfIdCounts | __init__.py:2783-2784 | of nodes that share an id the last one is the parent that is looked up |
| SeedBinder.RefusedOnlyWithoutAgents | __init__.py:2795-2802 | on an acyclic graph the refusal happens exactly when there is no agent |
| DiagramDepth.Search.D | scripts/graph_diagram.py:84-91 | the memoised recursion memoises only true longest-path lengths, and raises only on a cycle or an unknown dependency |
| DiagramDepth.Search.DepthMap | scripts/graph_diagram.py:80-95 | every node gets its depth unless something raises |
| DiagramDepth.RaisesExactlyWhen | scripts/graph_diagram.py:84-95 | it raises if and only if a dependency is unknown or there is a cycle; with known dependencies, a cycle error exactly on cyclic graphs |
| DesktopDepth.Search.Depth | desktop/plugin.js:370-379 | terminates on every graph with its guard restored, answers the length of a real walk, and of a longest one on acyclic graphs |
| DesktopDepth.Search.DepthMap | desktop/plugin.js:367-381 | every node gets such a depth |
| DepthAgreement.SearchesAgree | scripts/graph_diagram.py:80-95 | on every acyclic graph with known dependencies the two searches give the same depths |
| DepthAgreement.RunBoth | desktop/plugin.js:367-381 | both searches from one node list: the first raises exactly off acyclic known graphs, otherwise both give the longest-path length |
| ColumnGroups.Group | desktop/plugin.js:385-393 | one column for each depth that occurs, ascending, its nodes in list order |
| ColumnGroups.EveryNodeIsDrawnOnce | desktop/plugin.js:385-393 | over all columns each node is drawn as often as it is listed |
| ColumnGroups.DependenciesLieLeft | desktop/plugin.js:366-393 | a dependency always lies in a column further left |
| ColumnGroups.ColumnsAreContiguous | desktop/plugin.js:366-393 | the columns are the depths 0, 1, 2, ... without a gap |
| BandRows.Pack | desktop/plugin.js:403-417 | every column once and in order, every band fits or holds one column, no band had room for the next column, offsets are exact prefix sums with gaps |
| BandRows.WidestNodeDecides | desktop/plugin.js:408 | a column is as wide as its widest node, and an unmeasured node counts nothing |
| BandRows.StaysAhead | desktop/plugin.js:406-414 | a greedy packing of any tail of the columns needs no more bands than any packing of all of them |
| BandRows.FewestBands | desktop/plugin.js:395-417 | no order-preserving packing has fewer bands |

## Left out

- Process spawning, signals, pid and `/proc` liveness, real fsync: steps of the environment or predicates.
- The runner, node fingerprints, record validity, the shared graph validator and include expansion: arguments of the models; ids are assumed unique only where a lemma says so.
- Model routing, liveness pings, quotas and seat configuration around an amend or a launch.
- A run without graph.json, which has no revision and takes no amend; an amend that returns early for any other reason is a client that stops at that step.
- The dashboard's release path, which writes gate answers without the graph lock.
- Hash collisions: a revision digest and an approval token stand for the content they are taken of.
- Several clients' file writes as bytes: a read of graph.json sees one whole replaced file, and an appended log row is whole.
- Durable-row witnesses of the card hook: without one bound, which is the shipped case, every earlier turn's claim is denied; a bound witness is not part of the model.
- A deep copy of a text that was not selected: a host that touches one confirms cards that did not ship.
- `_post_tool_call` and the reminder before a model call: their ledger effects are the launch and terminal steps of the card runs.
- LedgerRefinement.LedgerRefinesPlainMap: every write leaves a stamp the file never showed before; a foreign write under an unchanged stamp, between a save and its stat, or where the platform has no file lock is not modelled.
- CardDraining.QueueDrains: a session is between turns when its claims and marks are of earlier turns; with more than 4096 retired cards it also needs that none of its retired cards is still in the ledger, because the first proposal then clears the table and owes them again.
- RespawnGuard.OncePerFingerprint: one way only, each of its three conditions shown necessary by a run; the exact condition is that of RespawnGuard.OnceExactlyWhen.
- The other critical sections of the bridge (`_on_pre_approval`, the sweep, the emitter's steps) are in the model and every run of ApprovalRuns takes them; they have no row of their own because what they are for is a law over runs.
- ApprovalBridge.Bridge.Tick: reads ASCII text by characters, so a byte offset is a character offset; a log that shrinks never occurs in the runs, though the method models the branch.
- ApprovalRuns.OneReleasePerHold: the door's own refusal of an already answered gate, the second net, is not part of it; what text is presented to which session is not either.
- ApprovalRuns.BoundsHold: emitters run for minted pending tokens only; the thread scheduler is any interleaving.
- CardText.AugmentedTextShipsExactlyTheCards: lines end at `\n` and blanks are ASCII; Unicode line breaks and the regular-expression engine are replaced by the grammar the expressions spell out.
- GateIndexFile.Index.NoteClose: past the scan bound a close row can compact away gates the reader did not see; there only the rows written are stated, and IndexInventsNothing still holds.
- GateIndex.CompactionKeepsItSmall: of the index's own calls alone; lines that no reader parses, which the module never writes, are part of the other laws.
- GateIndex: expiry times and session filters of `open_rows`, and the dispatch witness file.
- DeadRunFinalize.ZeroIsFinal: timestamps of closed records are not modelled, and the event log's content is the set of ids alone.
- DeadRunFinalize: the refusals before the pass (no usable graph, no pid file, runner alive), which read and return.
- JournalReplay.PatchIsExact: whitespace-flexible matching is a given list of hits.
- JournalReplay.RestoredBelowIff: paths are POSIX paths; the output directory is named by its parts and does not itself begin with exactly two slashes.
- JournalReplay.Replay: the report's reasons and heads, the list of unconfirmed calls (which changes no file), and the flush to disk.
- LaneRegistry.AtMostOneUnfinishedRun: a finished run that an amend reopens is counted, because the code does not prevent it; a directory name reused after an outside deletion is not modelled.
- LaunchParams.Resolve: a field's value is a text; slot names are numbered in sorted order, so which order `sorted` gives is the numbering.
- SeedBinder.BindSeed: the refusals before it (blank seed, JSON object passed as a string, dangling run references) and the map form of the binding.
- ReplayFreeze.FrozenCommitted: budget, route and policy keys are dropped by the split of a definition into its route keys and the rest; what else is in the rest is opaque.
- BandRows.FewestBands: needs a gap and widths that are not negative, as measured rectangles give; a column without nodes, which grouping never makes, counts width zero.
- BandRows: pixel rounding; widths are reals.
- SVG routing, rendering and the desktop's run-list models.
- The remaining modules (`park_watch.py`, `orphan_watch.py`, `hooks_outbound.py`, `outcome.py`, `cron_bridge.py`, `runner_watchdog.py`, `wake_native.py`, `node_telemetry.py`, `subagent_accounting.py`) and scripts: thin adapters, small folds and file plumbing.
