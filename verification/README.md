# Verified model of the ODIN governance registry, slot lease, pane delivery and closure rules

The repository coordinates several processes and agents through files and terminal panes. This
project models its stateful core in Dafny and proves what that core is for:

* **Event registry.** Processes append governance events to one JSONL log under a `mkdir` lock; a
  compactor replaces old lines by one TERMINAL summary that carries their hashes. `Log` is the text
  format, `Compaction` the plan, `RegistryStore` one process's calls, `RegistryProtocol` any number
  of appenders and compactors interleaved at every file-system step, `LockWait` the lock's wait
  policy.
* **Slot lease.** Tenures with expiry, clock skew and a fencing token in one record file per slot.
  `LeaseRecords` has the operations as atomic steps and the safety of all their runs;
  `LeaseProtocol` the fine-grained steps (lock, read, temp file, rename, unlock, readers without a
  lock, death anywhere) and their linearisation; `LeaseStore` the calls, the two-pass any-of
  acquire among them.
* **Governance derivations.** Stateless folds over the log that ration attempts and overhead
  (`Governance`), bound audits of audits (`AuditDepth`) and track findings (`Findings`), and how
  they live with compaction; `GuardRace` lets several processes run the two guards at once.
* **Pane delivery.** `PaneScreen` reads a terminal pane, `Typing` says what is typed where as a
  function of what the pane shows, `Delivery` types the line against an adversarial pane and clock,
  `DeliveryProof` is the record one program writes and another judges,
  `UtcTime` prints the record's time stamp.
* **Closure independence.** `RoleSlots` gives each seat one spelling, `Closure` accepts a closure
  claim exactly when its four parties are separate.

`Wrappers`, `Arithmetic`, `Sequences`, `Text`, `Events` and `JsonValues` are shared vocabulary.

Assumptions are parameters with a stated law, never axioms: JSON text (`Codec`, `Lawful`) is free of
raw newlines and decodes to what was encoded, digests are non-empty, `Date.parse` is any partial
function that rejects the empty string; slot folding (`LawfulFold`) is the identity on canonical
text and empties blank text; `mkdir`, `rename` and one append are atomic, a temp-file write is not.
Disks, panes, clocks and other processes may otherwise do anything; where a contract says that
something does succeed it is for a disk that is `calm`, a store that `accepts`, or a process that is
`alone`.

Where code and promise part, the project says exactly when:

* On one's own expired lease the single-slot acquire revives the tenure under the same token, while
  the any-of acquire starts a new tenure; the comment on the former promises an incremented token
  for every expired lease. It raises the token exactly when the lease was somebody else's
  (`LeaseRecords.ExpiredTokens`).
* The overhead guard looks at the terminal block and never at the budget: by themselves the guards
  let an objective reach any overhead count without a block (`Governance.OverheadIsUnbounded`). It
  also stores a ready-made TERMINAL_BLOCKED unchecked. "At most one block, after the budget, and
  for good" holds of a run through the guards if and only if no such block reached the overhead
  guard while the objective was blocked or its budget unspent (`Governance.GuardedRunEndsOnce`).
* The exhaustion guard derives and then appends, and calls that race-tolerant. "Exactly one"
  TERMINAL_BLOCKED survives races if and only if one process uses the log
  (`GuardRace.RaceFreeIffAlone`); otherwise there are at most as many as processes, and there can be
  as many (`GuardRace.BlocksBounded`, `GuardRace.EachWritesABlock`).
* Compaction forgets overhead: a spent budget can be unspent again, although a recorded block stays
  (`Governance.CompactionForgetsOldOverhead`, `Governance.CompactionKeepsBlocks`).
* "Nothing is typed into" a capped pane fails in exactly two cases: a queue harness is busy and
  capped at once, or clearing stale input uncovers the cap, because the sender then looks again only
  for a block and for stale input (`Typing.CappedIsTypedInto`, `Typing.TypedIdle`).
  `Typing.QueueIgnoresCap` and `Typing.ClearingUncoversCap` are panes where these happen.
* Compaction can reopen a closed finding, exactly when its owner and delivery are recent and no
  closure is (`Findings.CompactionChangesActive`).
* Printed time stamps sort as their instants below the year 10000 and below no later bound
  (`UtcTime.OrderedExactlyBelow10000`).
* Of the attempts that submitted nothing, exactly those whose pane could not be read leave a record
  that does not validate, because the validator does not know their state
  (`DeliveryProof.ProgramsAgree`).

## Model

| member | source | states |
|---|---|---|
| Log.AppendIsSnoc | src/protocol/event-registry/storage.ts:612-615 | Appending `line\n` to a file adds exactly that line to its lines if and only if the file was newline-terminated, and leaves it newline-terminated. |
| Log.RenderRoundTrip | src/protocol/event-registry/compact.ts:137-142 | Newline-free lines printed one per line split back into the same lines. |
| Log.LinesRoundTrip | src/protocol/event-registry/compact.ts:137-142 | A newline-terminated file is, byte for byte, the rendering of its own lines. |
| Log.ReadRegistryEvents | src/protocol/event-registry/storage.ts:597-651 | An unsafe scope is refused; otherwise the reader returns every event in append order, or, if any line is corrupt, a fault for every bad line and no event; a missing file reads as empty. |
| Log.FaultsMeanUnreadable | src/protocol/event-registry/storage.ts:619-649 | The reader refuses exactly when some line fails to decode to a valid event. |
| Log.ReadAfterAppend | src/protocol/event-registry/storage.ts:518-550 | Reading after an append is the old read plus the appended event; an unreadable log stays unreadable with the same faults. |
| Log.PreparedAppendReadsBack | src/protocol/event-registry/storage.ts:450-490 | Whatever passes the append choke point (scope, shape, size) can be read back, last, from any readable log it is appended to. |
| Log.PreparedExactly | src/protocol/event-registry/storage.ts:450-490 | Exactly the schema-valid events of a safe scope whose line, newline included, is within the byte cap pass, unchanged; the first thing wrong names the refusal. |
| Events.NoEmptyStrings | src/protocol/schemas.ts:1018-1098 | The schema rejects an event for an empty string anywhere in it, an attempt number below one, or a terminal event without hashes, and for nothing else. |
| Text.PathSegmentIsFileName | src/protocol/event-registry/storage.ts:158-162 | A safe scope or slot name is one plain file name: no separator, drive, blank or line break, no leading dot. |
| Log.LexTotal | src/protocol/event-registry/storage.ts:744-745 | The string order of the query window is total, and a proper prefix comes first. |
| Log.RankIsUnitOrder | src/protocol/event-registry/storage.ts:744-745 | Characters rank as their UTF-16 code units do, surrogate pairs included. |
| Log.QueryIsExact | src/protocol/event-registry/storage.ts:740-748 | A query selects exactly the events of the stated objective and class whose time stamp is in the window, both ends included. |
| Compaction.FaultFreeMeansDatable | src/protocol/event-registry/compact.ts:197-234 | The plan is free of line faults exactly when every line decodes to a valid event whose time stamp parses. |
| Compaction.Partition | src/protocol/event-registry/compact.ts:236-252 | One pass splits the lines into the surviving and the strictly-older-than-cutoff ones, in order, never touching a TERMINAL line. |
| Compaction.CutoffIsExact | src/protocol/event-registry/compact.ts:236-252 | A line is taken out exactly if it records a non-TERMINAL event strictly more than its class's own days (else the policy's) of 86400000 ms before now; at exactly that age it stays. |
| Compaction.SameDaysSameFate | src/protocol/event-registry/compact.ts:236-252 | Two policies with the same days for a class treat the lines of that class alike. |
| Compaction.PlanCompaction | src/protocol/event-registry/compact.ts:185-300 | The planning loops compute the plan the theorems below are about. |
| Compaction.SummaryIsValid | src/protocol/event-registry/compact.ts:278-283 | For a validated request the defensive re-validation of the summary never fails: the plan refuses exactly when some line is undatable. |
| Compaction.RewriteConserves | src/protocol/event-registry/compact.ts:236-252 | The old lines are an order-preserving merge of the kept and the removed lines, with multiplicity. |
| Compaction.SummaryRecordsRemoved | src/protocol/event-registry/compact.ts:262-277 | The summary is a TERMINAL_COMPLETED of the scope at the evaluation instant, named after the digest of all its hashes, whose i-th content hash is the event id and digest of the i-th removed line. |
| Compaction.RewriteLines | src/protocol/event-registry/compact.ts:285-288 | The new text is newline-terminated and its lines are the kept ones, byte for byte, followed by the summary's line, which decodes to the summary. |
| Compaction.RewriteReadsBack | src/protocol/event-registry/compact.ts:285-288 | The registry reader reads the rewritten log as exactly the surviving events, in order, followed by the one summary. |
| Compaction.SeriesKeepsAsOne | src/protocol/event-registry/compact.ts:185-300 | After any series of compactions in time order the log is what one compaction at the last instant would keep, followed by the summaries. |
| Compaction.SeriesHashesAsOne | src/protocol/event-registry/compact.ts:262-277 | The hashes recorded by such a series are together a permutation of those one compaction at the last instant would record. |
| Compaction.RecompactionIsNoOp | src/protocol/event-registry/compact.ts:255-260 | Compacting again at the same instant leaves the text unchanged. |
| Compaction.RemovedPerClass | src/protocol/event-registry/compact.ts:311-314 | The report's counter holds, for each class with removed lines and no other, how many there are. |
| RegistryStore.RegistryDir.AppendRegistryEvent | src/protocol/event-registry/storage.ts:518-550 | An append adds one whole line and reports it, or changes nothing and says why; a rejected candidate never reaches the disk; on a calm disk with a free lock every accepted candidate is appended; the lock is always released. |
| RegistryStore.RegistryDir.CompactUnderLock | src/protocol/event-registry/compact.ts:395-441 | The log is replaced by exactly the planned text in one rename or not touched at all, whatever read, write or rename does, and the lock is released; on a calm disk with a free lock the plan is carried out. |
| RegistryStore.RegistryDir.CompactRegistryEvents | src/protocol/event-registry/compact.ts:344-442 | The first wrong argument is named; a dry run changes nothing and reports what the real run would do; the answer is the report on the plan unless the disk fails or the lock is taken. |
| RegistryStore.ReportAddsUp | src/protocol/event-registry/compact.ts:302-325 | Removed and kept lines of a report add up to the lines of the log, and it says compacted, with a summary, exactly if some line went. |
| RegistryProtocol.NoAppendIsLost | src/protocol/event-registry/compact.ts:395-441 | In every interleaving of appenders and compactors, with failures and crashes at any step, each line whose append returned ok is in the log or its hash is in a TERMINAL summary in the log. |
| RegistryProtocol.EveryAppendCountedOnce | src/protocol/event-registry/storage.ts:541-549 | Live lines and lines behind summaries are together, with multiplicity, the lines ever appended; each summary's hashes are those of exactly the lines it replaced. |
| RegistryProtocol.AppendOrderKept | src/protocol/event-registry/compact.ts:236-252 | In every interleaving, with failures and crashes, the lines of the log that are not summaries stand in the order in which they were appended. |
| RegistryProtocol.ExclusiveAndReadable | src/protocol/event-registry/storage.ts:536-548 | At most one process is in the critical section, and a reader without the lock always meets a newline-terminated, readable log. |
| RegistryProtocol.TerminalLinesStay | src/protocol/event-registry/compact.ts:238-243 | In every interleaving, with failures and crashes, an acknowledged line that records a TERMINAL event is itself still in the log, byte for byte. |
| RegistryProtocol.StepInv | src/protocol/event-registry/compact.ts:411-441 | Every file-system step of every process keeps the protocol invariant: lock ownership, validity of what was read, and the line accounting. |
| RegistryProtocol.DeadHolderOnlyBlocks | src/protocol/event-registry/storage.ts:536-548 | A process that dies holding the lock freezes log and lock for ever and corrupts nothing. |
| RegistryProtocol.UndisturbedAppend | src/protocol/event-registry/storage.ts:518-550 | A process that meets nobody gets its append done: one more line, acknowledged, nothing else changed. |
| RegistryProtocol.UndisturbedCompaction | src/protocol/event-registry/compact.ts:395-441 | A compactor that meets nobody puts exactly the planned text in place of the log, or changes nothing if there is no such plan. |
| LockWait.AcquireRegistryLock | src/protocol/event-registry/storage.ts:336-378 | With attempts or a delay given it tries at most that often and sleeps that delay between two attempts; else the requested sleeps sum to at most the budget, there are at most 8 + ceil(budget/100) attempts for every jitter, and it gives up only once the budget is spent. Every attempt is one mkdir; locked means that the last of them created the directory, and giving up that each found it taken. |
| LockWait.JitterBounds | src/protocol/event-registry/storage.ts:331-334 | Jitter only shortens a delay, to no less than half unless the budget clamps it, and a positive delay stays positive. |
| LockWait.LeastSleepGrows | src/protocol/event-registry/storage.ts:361-376 | After six doublings, costing at least 158 ms, every further attempt costs at least 100 ms of sleep. |
| LeaseRecords.WritesMoveForward | src/protocol/lease/store.ts:302-353 | Every write moves the slot to a newer tenure or keeps the tenure's holder (or frees it); a new holder is granted only under a token one higher and only over a free or expired record. |
| LeaseRecords.WritesAreRecords | src/protocol/lease/store.ts:117-171 | What an operation writes passes the record check again and reads back as written; a corrupt file is never overwritten and read-only operations never write. |
| LeaseRecords.CorruptFiles | src/protocol/lease/store.ts:117-171 | Exactly these files are corrupt: not JSON, another schema or slot, a negative token, a half-set lease, an expiry that is no date; a missing file is a free slot at token 0. |
| LeaseRecords.LockedAnswers | src/protocol/lease/store.ts:319-530 | Acquire is granted exactly over a free slot, one's own lease or an expired one, under the next token unless it is one's own; renew and release name the first thing wrong, and a release leaves the token without a holder; what is answered is what is written. |
| LeaseRecords.ReleasedIsFree | src/protocol/lease/store.ts:319-331 | A slot without a record, and a released one however long it is left alone, is granted to the next comer under the next token. |
| LeaseRecords.OwnExpiredLease | src/protocol/lease/store.ts:334-346 | On one's own expired lease the single-slot acquire keeps the token, the any-of acquire raises it, and renew refuses. |
| LeaseRecords.ExpiredTokens | src/protocol/lease/store.ts:334-352 | Over any expired record both acquires succeed; the single-slot one raises the token exactly when the lease was somebody else's, the any-of one always. |
| LeaseRecords.HeldForItsTerm | src/protocol/lease/store.ts:173-178 | After an acquire or renew the check succeeds at exactly the clocks before expiry plus skew, and a rival can acquire at exactly the others. |
| LeaseRecords.RunsMoveForward | src/protocol/lease/store.ts:302-530 | Over any run of operations by anyone, at any clocks, a slot's token never falls, and at an unchanged token the holder is unchanged or gone. |
| LeaseRecords.OneHolderPerToken | src/protocol/lease/store.ts:319-352 | No (slot, token) ever has two different holders. |
| LeaseRecords.CheckedTwiceHeldThroughout | src/protocol/lease/store.ts:538-561 | If the same check succeeds at two points of a run, whatever the clocks, that holder held that tenure at every point between. |
| LeaseRecords.SupersededStays | src/protocol/lease/store.ts:593-607 | The fence of a slot never falls: a superseded token stays superseded and a current one is never called unknown later. |
| LeaseRecords.NewHolderFencesOld | src/protocol/lease/store.ts:593-607 | Once a new holder is granted, the previous token is superseded at every later point. |
| LeaseProtocol.Linearizable | src/protocol/lease/store.ts:255-295 | Every fine-grained interleaving, with crashes and disk errors, linearises in rename order to an atomic run that ends in the present files, in which each step is a call as it was made and gives the answer it gave, each call at most once. |
| LeaseProtocol.RunExtends | src/protocol/lease/store.ts:255-282 | From any point of a run to a later one, effects, answers and calls are only added at the end. |
| LeaseProtocol.RealTimeOrder | src/protocol/lease/store.ts:255-282 | A call takes effect while it runs: after every call that had returned before it was made, and never before it was made. |
| LeaseProtocol.ChecksBracketTenure | src/protocol/lease/store.ts:538-561 | In the fine-grained system two successful checks of one (holder, token) bracket an uninterrupted tenure. |
| LeaseProtocol.DeadHolderOnlyBlocks | src/protocol/lease/store.ts:255-282 | A process that dies holding a slot's lock leaves that slot's file unchanged for ever. |
| LeaseProtocol.UndisturbedCall | src/protocol/lease/store.ts:255-282 | A locked call that meets nobody, on a free lock, is exactly its atomic step, and returns that step's answer. |
| LeaseProtocol.UndisturbedLook | src/protocol/lease/store.ts:538-561 | A look answers from the file that is there, whoever holds the lock, and changes nothing. |
| LeaseStore.LeaseDir.WithSlotLock | src/protocol/lease/store.ts:255-282 | Under any interference a locked operation takes exactly one lock, or none and says so, is one atomic step on the file and clock it finds, leaves in the slot's file what that step writes, writes at most once and drops the lock. |
| LeaseStore.RefusalsInOrder | src/protocol/lease/store.ts:311-319 | Every refusal before the lock, when it is given and which comes first: slot name, holder, time to live, allow-list; the readers look at the allow-list before the name. |
| LeaseStore.AnyRefusals | src/protocol/lease/store.ts:377-410 | The any-of call is let through exactly if there is a slot, every slot may be used and holder and time to live are good; for one slot its refusals are those of the single-slot acquire. |
| LeaseStore.LeaseDir.AcquireLease | src/protocol/lease/store.ts:302-353 | The first failing argument or allow-list check is named and nothing is touched; otherwise, under any interference, the lock is unavailable, or in terms of the record found: granted exactly over a free slot, one's own lease or an expired one (slot_held otherwise), with the token raised unless it is one's own, and the flags say which; the record answered is in the slot's file. |
| LeaseStore.LeaseDir.RenewLease | src/protocol/lease/store.ts:477-506 | The first failing argument or allow-list check is named and nothing is touched; otherwise, under any interference, the lock is unavailable, or in terms of the record found: the holder's unexpired lease begins anew under its token, else the first thing wrong is named; the record answered is in the slot's file. |
| LeaseStore.LeaseDir.ReleaseLease | src/protocol/lease/store.ts:509-530 | The first failing argument or allow-list check is named and nothing is touched; otherwise, under any interference, the lock is unavailable, or in terms of the record found: the holder's lease is given up and its token stays, else the first thing wrong is named; the record answered is in the slot's file. |
| LeaseStore.LeaseDir.CheckLease | src/protocol/lease/store.ts:538-561 | Without a lock: the first thing wrong is named (allow-list, slot name, corrupt, missing, holder, token, expiry, in this order), and held means that none is, in the record and at the clock read. |
| LeaseStore.LeaseDir.LeaseStatus | src/protocol/lease/store.ts:564-580 | Without a lock: the record read, whether it has no holder, and whether its lease has run out at the clock read, skew included. |
| LeaseStore.LeaseDir.FenceAction | src/protocol/lease/store.ts:593-607 | After the allow-list and slot-name checks the verdict compares the presented token with the one read: current, superseded exactly when lower, never issued exactly when higher. |
| LeaseStore.LeaseDir.AcquireAnyLease | src/protocol/lease/store.ts:377-474 | Under any interference it never holds two locks and writes at most one record, the record it grants is in the slot's file when it returns, and a refusal lists every requested slot exactly once, each held by somebody else when tried; undisturbed it returns the first own unexpired slot unwritten, else takes the first free or expired one, else refuses, and reports every held slot with the holder and expiry on its record. |
| LeaseStore.GrantTryAlone | src/protocol/lease/store.ts:421-440 | A slot that did not end the first pass is, undisturbed, granted in the second exactly when free or expired, and otherwise left alone. |
| Governance.DeriveOverheadAccounting | src/protocol/governance.ts:1069-1113 | One pass counts exactly the objective's countable events, in total and per class, and lists its TERMINAL_BLOCKED ids in log order. |
| Governance.OneMoreCounts | src/protocol/governance.ts:1069-1113 | One more event adds to its own objective's overhead exactly if it is an attempt, finding, break-glass or audit event, to the attempts exactly if it started or counted one, and to the block ids exactly if it is a TERMINAL_BLOCKED. |
| Governance.DeriveAttemptAccounting | src/protocol/governance.ts:505-538 | Every attempt increment of the objective counts once, in total and under its trigger; refused attempts do not count. |
| Governance.RelabellingCannotReset | src/protocol/governance.ts:550-596 | Retelling the same history with other triggers, indexes, ids, times or actors changes neither the attempt count nor the ceiling's verdict. |
| Governance.AppendsNeverReset | src/protocol/governance.ts:493-503 | Over any run without compaction the attempt count never falls, so an objective at its ceiling stays refused. |
| Governance.CompactionForgetsOldAttempts | src/protocol/event-registry/compact.ts:236-252 | After a compaction the ceiling counts exactly the increments that were not yet old, so an attempt may be permitted again. |
| Governance.Registry.RecordBudgetExhaustion | src/protocol/governance.ts:1185-1255 | On a non-blank objective with 25 countable events and no block exactly one TERMINAL_BLOCKED is offered to the store and reported as the store took it; otherwise nothing is offered and the refusal names, in this order, a blank objective, the earlier block, the unspent budget. |
| Governance.Registry.AppendGovernanceOverheadEvent | src/protocol/governance.ts:1271-1318 | A countable event of a blocked objective is refused with the first block's id and not offered to the store; every other event is offered once and reported as the store took it. |
| Governance.GuardedRunEndsOnce | src/protocol/governance.ts:1185-1318 | In every run whose objective is written only through the two guards, with any other traffic and any failed appends: at most one TERMINAL_BLOCKED, at least 25 countable events before it and none after it, if and only if no step hands the overhead guard a ready-made block while the objective is blocked or its budget unspent. |
| Governance.UnguardedBlockPasses | src/protocol/governance.ts:1293-1312 | Such a block, a first one on an unspent budget or a second one, is stored, and the guarantee is lost at once. |
| Governance.BlockOfFreshObjective | src/protocol/governance.ts:1293-1312 | A concrete such block: a ready-made TERMINAL_BLOCKED of an objective that has no event yet. |
| Governance.GuardedStep | src/protocol/governance.ts:1185-1318 | One step through the guards keeps the guarantee exactly when it is not such a block. |
| Governance.EndsOnceBefore | src/protocol/governance.ts:1206-1312 | A guarantee that holds at the end of an append-only run held at every point of it: nothing appended later repairs it. |
| Governance.OverheadIsUnbounded | src/protocol/governance.ts:1293-1312 | For every n the overhead guard alone, given countable events of one objective, reaches overhead count n with no block recorded. |
| Governance.CompactionKeepsBlocks | src/protocol/event-registry/compact.ts:238-277 | Compaction keeps every objective's TERMINAL_BLOCKED ids, raises no overhead or attempt count, and its summary counts toward nothing, whatever objective it is named after. |
| Governance.CompactionForgetsOldOverhead | src/protocol/event-registry/compact.ts:236-252 | After a compaction the overhead count is that of the countable events not yet old, so a spent budget can be unspent again: the exhaustion guard fires exactly when these alone spend it. |
| Governance.CompactedFileReadsAsCompacted | src/protocol/event-registry/compact.ts:285-300 | Compacting the log file is, to every reader, exactly the compaction of the events. |
| Governance.CompactedFileKeepsBlocks | src/protocol/governance.ts:1089-1100 | What is blocked before the log file is compacted is blocked after it, and no count rises. |
| Governance.BlocksAreForEver | src/protocol/governance.ts:1089-1100 | Under any sequence of appends, guard calls and compactions the block ids of every objective only grow at the end. |
| Governance.BlockedAtMostOnce | src/protocol/governance.ts:1206-1230 | With any compactions along the way, an objective written only through the guards is blocked at most once if and only if no ready-made TERMINAL_BLOCKED is handed to the overhead guard while it is blocked already. |
| Governance.RefusedStaysRefused | src/protocol/governance.ts:1293-1312 | An objective once refused stays refused by both guards after any later history, compactions included. |
| GuardRace.UninterruptedCall | src/protocol/governance.ts:1185-1318 | A guard call whose derivation and append nobody comes between is the single step of the guarded runs. |
| GuardRace.BlocksBounded | src/protocol/governance.ts:1165-1184 | With derivation and append as separate steps of any number of processes, compactions and failed appends included, an objective without a block gets at most one per process, and a blocked one at most as many more as processes had already passed the guard; only ready-made blocks come on top. |
| GuardRace.OverheadAfterBlock | src/protocol/governance.ts:1256-1270 | In every such interleaving a blocked objective stays blocked and gains at most the overhead events that had already passed the guard. |
| GuardRace.EachWritesABlock | src/protocol/governance.ts:1206-1253 | The bound is reached: any processes that all derive before the first of them appends record one block each. |
| GuardRace.RaceFreeIffAlone | src/protocol/governance.ts:1165-1184 | On a spent budget no interleaving of the exhaustion guard records two blocks if and only if at most one process uses the log. |
| AuditDepth.DeriveMetaGovernanceDepth | src/protocol/governance.ts:717-780 | On every log, cyclic or dangling, the walk ends with the one audit chain of the target; the depth is one more than the chain and at most two more than the number of distinct audit ids. |
| AuditDepth.ChainUnique | src/protocol/governance.ts:757-766 | A target has only one audit chain, so the derivation is a function of the log. |
| AuditDepth.AcyclicChainDepth | src/protocol/governance.ts:757-766 | Without cycles the walk computes the recursive depth, one more than the depth of what is audited, and no id repeats. |
| AuditDepth.CycleStopsTheWalk | src/protocol/governance.ts:757-766 | From any audit on a cycle the walk goes round once and stops at the first id met again; if the cycle is all there is, the bound on the depth is reached. |
| AuditDepth.EvaluateMetaGovernanceDepth | src/protocol/governance.ts:797-889 | Without an offer an audit is permitted exactly when its target is ordinary work or a BREAK_GLASS event is on record; an offered artifact permits exactly when it is itself such a recorded event, and anything else offered refuses. |
| AuditDepth.CompactionNeverAllows | src/protocol/governance.ts:820-880 | Compacting the log never makes an audit permitted that was not. |
| Findings.SummarizeFindingEvents | src/protocol/governance.ts:1428-1467 | One pass sorts a finding's own events by stage in log order and collects its non-blank owner roles. |
| Findings.OnlyOwnEventsMatter | src/protocol/governance.ts:1436-1447 | Two logs with the same events of a finding, in order, give it the same state. |
| Findings.SwapOthers | src/protocol/governance.ts:1436-1447 | Swapping neighbouring events of different findings changes no finding's state. |
| Findings.StagesCountAll | src/protocol/governance.ts:1456-1466 | The reported event count is the number of the finding's events: each is at exactly one stage. |
| Findings.DeriveFindingState | src/protocol/governance.ts:1478-1494 | A blank id is refused; any other gets the state of its own events in the whole log. |
| Findings.EvaluateFindingClosure | src/protocol/governance.ts:1507-1535 | A closure may stand exactly when an owner and a delivery are on record, and a refusal names exactly the missing ones. |
| Findings.CountActiveFindings | src/protocol/governance.ts:1546-1583 | Grouping and folding yields the active and the inactive ids, each in first-seen order. |
| Findings.IndexAgreesWithFold | src/protocol/governance.ts:1546-1583 | The two lists are duplicate-free and disjoint, merge to the first-seen ids, and an id is active exactly when it is owned, delivered and not closed. |
| Findings.CompactionChangesActive | src/protocol/event-registry/compact.ts:236-252 | Compaction makes an inactive finding active exactly when its owner and delivery are recent and it is closed but not recently, and an active one inactive exactly when owner or delivery is not recent. |
| Findings.ClosureDatedTooEarly | src/protocol/event-registry/compact.ts:236-252 | A finding closed by an event dated before its owner and delivery is inactive before a compaction between those dates and active after it. |
| Findings.ClosedInOrderStaysClosed | src/protocol/event-registry/compact.ts:236-252 | If no closure is dated before an ownership event of the finding, a closed finding stays closed through compaction. |
| UtcTime.CivilIsCalendar | crates/odin-say/src/timeutil.rs:13-25 | For every day the printed date is a valid Gregorian date and the calendar (leap rule, month lengths, sum of years) counts exactly that many days to it. |
| UtcTime.CalendarIsCivil | crates/odin-say/src/timeutil.rs:13-25 | Every calendar date from 1970 on is the date its day number prints as. |
| UtcTime.YearOfEraIs | crates/odin-say/src/timeutil.rs:19-19 | The quotient formula names the year of the era that contains the day. |
| UtcTime.CivilOrder | crates/odin-say/src/timeutil.rs:13-25 | Days are ordered exactly as their printed dates. |
| UtcTime.PrintedOrder | crates/odin-say/src/timeutil.rs:26-31 | Up to the year 9999 the printed strings sort exactly as the instants, and no two instants print alike. |
| UtcTime.YearsBefore10000 | crates/odin-say/src/timeutil.rs:26-31 | The year has at most four digits exactly before second 253402300800. |
| UtcTime.Year10000BreaksOrder | crates/odin-say/src/timeutil.rs:26-31 | The first second of the year 10000 prints before every earlier instant. |
| UtcTime.OrderedExactlyBelow10000 | crates/odin-say/src/timeutil.rs:26-31 | The printed strings of all instants below n sort as the instants if and only if n is at most second 253402300800. |
| UtcTime.PrintedReadsBack | crates/odin-say/src/timeutil.rs:26-31 | An independent reader of RFC 3339 time stamps gets back the second that was printed, in every year. |
| PaneScreen.TailIsShort | crates/odin-say/src/say.rs:125-129 | The sender reasons about at most fourteen lines, which are the last lines of the raw text. |
| PaneScreen.LineEndings | crates/odin-say/src/say.rs:125-129 | A line counts the same whether it ends in a newline or in a carriage return and a newline. |
| PaneScreen.LastLineCounts | crates/odin-say/src/say.rs:125-129 | What follows the last newline is a line as well, unless it is empty. |
| PaneScreen.Flatten | crates/odin-say/src/say.rs:355-380 | The character loop computes the collapsed text. |
| PaneScreen.FlattenIsOneLine | crates/odin-say/src/say.rs:355-380 | The flattened text has no newline, return, tab or double space, has the same words (maximal runs of visible characters) in the same order and a blank at the same ends, and flattening again changes nothing. |
| PaneScreen.OneLineIsItsWords | crates/odin-say/src/say.rs:355-380 | No other line without breaks and double spaces has these words and ends. |
| PaneScreen.LiveLineIndexes | crates/odin-say/src/say.rs:148-162 | The scan from the bottom finds exactly the last N lines that are not blank. |
| PaneScreen.IsBusy | crates/odin-say/src/say.rs:174-183 | A pane is busy exactly when some line, not excluded, has a spinner, or has a busy word and is live or carries a status marker. |
| PaneScreen.BusyLineExactly | crates/odin-say/src/say.rs:164-183 | What makes one line busy, character by character: no exclusion, and a glyph before a blank or a busy word that is live or marked. |
| PaneScreen.ScrollbackIsNotBusy | crates/odin-say/src/say.rs:170-183 | Lines above a full set of live lines change nothing if they have no spinner and no status marker, busy words or not. |
| PaneScreen.BlockedExactly | crates/odin-say/src/say.rs:185-192 | A pane is blocked exactly when one of its lines names a prompt and no excluded status text. |
| PaneScreen.CollectBlocks | crates/odin-say/src/say.rs:243-262 | The loop with its open block collects the output blocks. |
| PaneScreen.BlocksAreRuns | crates/odin-say/src/say.rs:242-262 | The blocks are the maximal runs of lines that are not blank, in order, and every such line is in one. |
| PaneScreen.FindCap | crates/odin-say/src/say.rs:277-306 | The scan that overwrites its hit finds the cap of the last matching block. |
| PaneScreen.CappedMeansLiveCap | crates/odin-say/src/say.rs:275-306 | A seat is capped exactly when the newest block with a cap marker has no turn output after its first line. |
| PaneScreen.OutputExactly | crates/odin-say/src/say.rs:275-306 | A line counts as turn output exactly if an output marker stands at its first ink. |
| PaneScreen.FirstMarker | crates/odin-say/src/say.rs:285-300 | A cap is named by the first marker, in file order, that matches. |
| PaneScreen.FindIsFirst | crates/odin-say/src/say.rs:266-273 | The header is looked up at its first occurrence. |
| PaneScreen.ParsesDecimal | crates/odin-say/src/say.rs:266-273 | Printed decimal numbers parse, signed or not, exactly below 2 to the 64. |
| PaneScreen.ResetAtRead | crates/odin-say/src/say.rs:266-273 | The epoch milliseconds quoted after the header are the instant that the cap reports, to the second. |
| PaneScreen.FindAnswer | crates/odin-say/src/say.rs:326-338 | The text counts as answered exactly when a response or fresh prompt comes after a line that echoes it. |
| PaneScreen.AnsweredExactly | crates/odin-say/src/say.rs:326-352 | Answered means that a bullet line or an empty fresh prompt, without the text, comes below a line with it. |
| PaneScreen.BarIsLastPrompt | crates/odin-say/src/say.rs:213-220 | The input bar is the last prompt line of the screen, whatever is above it. |
| PaneScreen.InBarExactly | crates/odin-say/src/say.rs:213-220 | A text is in the input bar exactly if the last line that begins with a prompt glyph and a blank contains it. |
| PaneScreen.StaleExactly | crates/odin-say/src/say.rs:222-233 | Input is stale exactly if that line has ink at its third character and shows neither known hint. |
| PaneScreen.QueuedExactly | crates/odin-say/src/say.rs:194-211 | The text counts as queued exactly if it is not blank and one line has both its head and an evidence marker. |
| PaneScreen.QueueIsProvable | crates/odin-say/src/rules.rs:117-153 | Under accepted rules only a named harness with evidence markers has the queue policy. |
| PaneScreen.FlagBeforeEnvBeforeScreen | crates/odin-say/src/identity.rs:57-83 | A named flag decides the harness, else a named environment variable, and the screen only without both. |
| Text.TrimIs | crates/odin-say/src/identity.rs:63-74 | The name that counts is the given one less white space at both ends, and nothing else is taken off. |
| PaneScreen.DetectsFirst | crates/odin-say/src/rules.rs:156-164 | On the screen the first harness in file order that it names is detected. |
| Delivery.Pane.ReadTail | crates/odin-say/src/cmux.rs:15-21 | The k-th read shows the pane's k-th screen or fails, takes any time, and is recorded in the attempt's history. |
| Delivery.ClearOverlay | crates/odin-say/src/say.rs:495-537 | Escape is pressed once at most, only on the dismissible overlay; the attempt goes on only with an unblocked screen. |
| Delivery.SendIntoQueue | crates/odin-say/src/say.rs:542-587 | A queue send presses exactly one Enter, and exits with zero if and only if the read-back shows the text queued. |
| Delivery.NextPoll | crates/odin-say/src/say.rs:592-599 | Each poll uses up one of the polls that the rest of the budget has room for, however long its read takes. |
| Delivery.PollsInAll | crates/odin-say/src/say.rs:592-599 | The budget has room for at most ceil(budget/poll) polls. |
| Delivery.WaitForIdle | crates/odin-say/src/say.rs:588-641 | For every screen sequence and read cost the wait ends, asks for at most the budget in sleeps, polls at most ceil(budget/poll) times, gives up only once the budget is spent, and goes on only with a screen neither busy nor blocked. |
| Delivery.ClearStale | crates/odin-say/src/say.rs:645-697 | A capped pane refuses; stale input gets one Enter and must be gone and unblocked on the next read. |
| Delivery.SendAndVerify | crates/odin-say/src/say.rs:699-775 | One text, one Enter, a second exactly if the first read-back still shows the text in the input bar; with a last read-back the exit is zero if and only if the bar no longer shows the text or it was answered after the second Enter. |
| Delivery.Deliver | crates/odin-say/src/say.rs:445-782 | For every pane: at most one text, the flattened one, typed exactly on the read that the plan names (or not at all when it names none), into a pane last read unblocked and (off the queue path) without stale input; submitted exactly when that send succeeded; one read-back per Enter, a second Enter exactly if the bar still shows the text, one only into a queue; each exit code is given exactly when the last read and what was done before it call for it; the polls are counted exactly, every key gets its settle time, and the busy wait and the polls are bounded. |
| Delivery.ExitZeroIsDelivered | crates/odin-say/src/say.rs:387-439 | Of the possible outcomes exactly the delivered and the shown-as-queued ones exit with zero. |
| Typing.TypedUnblocked | crates/odin-say/src/say.rs:494-697 | Wherever the text is typed the last read succeeded and was not blocked; off the queue path it showed no stale input, and that read, or the one before the single clearing Enter, was idle and uncapped. |
| Typing.EyesSee | crates/odin-say/src/say.rs:728-747 | What the sender looks for in a read, in terms of the screen lines and the first forty characters of the text. |
| Typing.TypedIdle | crates/odin-say/src/say.rs:645-697 | Off the queue path the text goes into an idle, uncapped pane if and only if nothing stale had to be cleared or the read after the clearing shows such a pane. |
| Typing.CappedIsTypedInto | crates/odin-say/src/say.rs:275-276 | The text goes into a capped pane in exactly two cases: after the overlay the pane of a queue harness is busy and capped, or the first idle read within the wait's patience shows stale input and no cap and the next one is readable, unblocked, clean and capped. |
| Typing.ClearingUncoversCap | crates/odin-say/src/say.rs:645-710 | Under rules the sender accepts there is a pane, idle with stale input, that the sender clears and then types into although it now shows a cap. |
| Typing.QueueIgnoresCap | crates/odin-say/src/say.rs:542-587 | Under the same rules there is a busy pane of a queue harness that shows a cap and is typed into. |
| Typing.ReadyIsPlanned | crates/odin-say/src/say.rs:588-697 | Off the queue path the plan goes on from exactly the first idle read after the overlay that the wait has patience for. |
| Typing.WaitedPast | crates/odin-say/src/say.rs:588-641 | Busy polls behind it do not change where the busy wait ends. |
| Typing.WaitedIsIdle | crates/odin-say/src/say.rs:588-641 | The busy wait ends well on a read exactly if that read is within its patience, succeeded and was neither blocked nor busy, and every read before it was busy and unblocked. |
| JsonValues.RequiredText | src/protocol/validators.ts:45-65 | A required string field passes both field checks exactly when it holds a non-blank string. |
| JsonValues.NullIsAbsent | src/protocol/validators.ts:12-65 | A null field is judged as an absent one. |
| DeliveryProof.ValidateDeliveryRecord | src/protocol/service.ts:867-947 | The delivery validator accepts exactly the fully stated, submitted records of a known kind with a good state and no newline fault, and dry-run plans. |
| DeliveryProof.ValidateSendRefusal | src/protocol/service.ts:956-996 | The refusal validator accepts exactly fully stated records with submitted false and a state in which a pane cannot take the message. |
| DeliveryProof.ValidateCmuxDeliveryProof | src/protocol/service.ts:1026-1050 | An invalid record proves nothing; registry authority can make a record valid but never a delivery that the record does not attest. |
| DeliveryProof.RecordTells | crates/odin-say/src/proof.rs:57-87 | The record of an outcome says its kind, state, submission, sender and time, and states where and how it was verified. |
| DeliveryProof.LocatorNamesSurface | crates/odin-say/src/say.rs:382-385 | Two surfaces have one locator exactly if they are the same id, with the prefix or without. |
| DeliveryProof.RecordDeterminesAttempt | crates/odin-say/src/proof.rs:57-87 | Equal records come from equal attempts on the same surface, the exit code aside. |
| DeliveryProof.ProgramsAgree | crates/odin-say/src/proof.rs:57-87 | For every outcome an attempt can report, the validator finds a delivery exactly when the exit code is zero and sender and time are named, an acknowledged one exactly when the text was seen echoed, and a refusal exactly when nothing was submitted and the pane was read. |
| RoleSlots.ParseRoleSlot | src/protocol/role-identity.ts:126-146 | The loop that stops at the first unreadable component computes the parsed slot. |
| RoleSlots.CanonicalRoundTrip | src/protocol/role-identity.ts:126-151 | A slot printed canonically parses back to the same team and role. |
| RoleSlots.ComponentIsItsWords | src/protocol/role-identity.ts:126-146 | A component is readable exactly if its trimmed text has alphabet characters at both ends and only these and separators between, and is then its words joined by hyphens. |
| RoleSlots.AnySeparator | src/protocol/role-identity.ts:126-146 | Any run of blanks, tabs, underscores and hyphens between two letters is as good as any other. |
| RoleSlots.SlotIsItsParts | src/protocol/role-identity.ts:126-146 | A string names a slot exactly if its folded text is one readable component, or two with a slash between them, the team first. |
| RoleSlots.CanonicalizingTwice | src/protocol/role-identity.ts:149-151 | A canonical slot string is its own canonical form. |
| RoleSlots.SameSeat | src/protocol/role-identity.ts:158-162 | Two strings are equal slots exactly when both parse, to the same team and role. |
| Closure.ValidateEvidenceClassification | src/protocol/service.ts:2810-2856 | Whatever evidence class, source or artifact class is stated must be legal, and a verdict-class payload must state the first two; nothing else is refused. |
| Closure.JudgeVerdicts | src/protocol/service.ts:2946-3008 | The loop with its early continues finds a fault exactly when some verdict is unsound, and collects exactly the seats with an independent pass in each lane. |
| Closure.ValidateClosureIndependence | src/protocol/service.ts:2895-3035 | A claim is valid exactly when it names its task, a readable implementer and closer, every verdict is soundly typed, of a known kind and from a readable third party, both lanes are passed and no seat passed both; stated also on the claim's own fields. |
| Closure.AcceptedOnClaim | src/protocol/service.ts:2895-3035 | On the JSON itself: there is an entry of kind SLICE_QA_PASS and one of kind HOLDOUT_ACCEPTED whose result is PASS, no seat has one of each, and every entry is sound and from neither party. |
| Closure.FailedLaneRejects | src/protocol/service.ts:3019-3030 | A claim without an entry of one of the two kinds whose result is PASS is never accepted, whatever its other entries are. |
| Closure.RespelledParty | src/protocol/service.ts:2913-2926 | Writing the implementer's or the closer's seat another way changes nothing the rule sees. |
| Closure.RespelledVerdict | src/protocol/service.ts:2972-2990 | Writing any verdict's emitter another way changes nothing the rule sees. |
| Closure.CanonicalFoldingIsLawful | src/protocol/role-identity.ts:149-151 | The validator's own canonicalizer meets the law the closure theorems assume: only non-blank strings name a seat. |

## Left out

- Log.QueryIsExact: does not model the `event_type` filter, which selects like the class filter.
- Closure.ValidateClosureIndependence: does not model the lists of missing and invalid fields behind the verdict; nor do the delivery validators.
- Log.ReadRegistryEvents: does not model symlink refusals, and an invalid line has one fault, not one per schema issue.
- JSON numbers beyond 2^53, at which a fencing token would stop counting exactly: tokens and counters are unbounded integers.
- Message texts and warnings, throughout.
- Symlink checks, directory creation, the asynchronous append and lock: the same policy or plumbing around it.
- A failing `rmdir` when the lock is released: the lock is then left behind as after a crash.
- `buildReport`'s byte counts and echo of its arguments.
- The slot allow-list is one file that no modelled operation changes; in `LeaseProtocol` it is absent.
- Time stamps outside the range of a JavaScript date, which make the lease writer throw.
- `evaluateOverheadBudget`, registry-mode flags and `adjudicateRegistryAuthority` beyond its yes or no.
- The guards on a log that cannot be read, which return the reader's rejections.
- The notes in an outcome, the width of the poll counter and `ODIN_SAY_TIME_SCALE` below one, which lets sleeps end early.
- NFKC and the format-character list behind slot folding, and artifact-class normalisation: parameters with a law.
- MCP registration, command-line parsing, telemetry, surface layout, startup packets, the single-branch validators, the watch classifier: plumbing, or members with one-branch claims.
