# StromaDB's state engine: a verified model

StromaDB keeps facts as an append-only log of versioned writes. Everything a reader sees is derived from
that log: a fold turns it into per-key state, an observation turns the state into a snapshot, a label mask
hides rows at read time, and incremental views (the cached snapshot, maintained rule verdicts, the change
feed) follow the log without recomputing. Each of these is fast because it is not the simple definition of
itself. This project states the simple definitions and proves that the fast forms agree with them.

The model follows the source's form. Objects whose methods update fields are classes (`Fold`,
`SnapshotCache`, `Changelog`, `Engine`, `Gaps`, `MaintainedConformance`, `LiveRule`, `Watched`,
`WriteState`, `Journal`, `Pending`, `Buffer`, `Reader`), loops are loops with invariants, and each method is
proved against a function whose own laws are proved as lemmas. What the source writes as expressions stays
functions.

| files | what they model |
|---|---|
| `Types`, `Rows` | identifiers, values, order keys, version rows, sorted row lists |
| `Folds`, `FoldLaws`, `Collection` | the fold: ops into CRDT state, merge, garbage collection; convergence and why collecting is invisible |
| `Snapshots`, `Refresh` | the full observation, and the cached snapshot refreshed key by key with its label counts and reverse value index |
| `Changelogs`, `Engines`, `Runs` | the write log with its files, the engine, and whole runs with crashes |
| `Interpreter` | the snapshot as a plain interpreter of the log would compute it |
| `Mask`, `Views` | label masks as non-interference; masked views; exact-value reverse lookup |
| `Queries`, `Reach` | as-of reads, timelines, timelines through chains of hops; property-aware expansion |
| `Conformance`, `Judging`, `RuleMeaning`, `RuleGaps`, `Verdicts` | the rule evaluator with its read trace, as functions and as it runs; what its outcomes, paths, tests and assumptions mean, and what it reports missing; masked verdicts |
| `Incremental`, `Live` | maintained verdicts; a watched rule on a running engine with its bounded diff journal |
| `MaskedChanges`, `MaskedRuns`, `Overlooked` | the changes a masked reader is told: when they lead to what it would be shown, over whole runs, and the histories in which they do not |
| `Faces`, `Ledger`, `Ingest`, `Suppression`, `Answers`, `WriteStates` | ingest that skips no-op writes, compared with an ingest that appends everything |
| `Resending` | the same facts sent again: what a call wrote is recognised, and nothing is appended |
| `Losses`, `QuietCalls`, `LostGrants`, `StoppedCalls`, `ManySkips` | which skipped writes change an answer about a Many key: elements lost by a call, calls that an error stops, as-of and masked reads |
| `Feed` | the bounded change feed |
| `Encoding`, `Wal`, `Recovery`, `LogFiles` | the record codec, frames, recovery of a torn log file |
| `FoldCodec`, `SnapshotFiles`, `Durability` | the fold's byte form and the compaction snapshot file; an engine opened on the bytes a crash left |
| `Calendar` | civil dates and day numbers |

Standing conditions, all from the source: order keys are unique; a key has one cardinality (the fold panics
otherwise); labels are at most 31 where a proof needs it; sequence numbers fit in 64 bits; the texts of
values are UTF-8. The value hash, the frame checksum, the UTF-8 check, the comparison of floats and the
order in which sorted maps are walked by the codec are parameters, so every statement holds for any of them.
A label bitmask is the set of its bits. A rule's names are looked up in a fixed map.

## Where the code does less than its documentation says

* **An ingest call can lose a re-assertion of a Many key.** The documentation of `ingest`
  (`crates/stroma-db/src/lib.rs:1104-1110`) says that a key outside the dirty set is current, because a flush
  materializes everything appended so far. A flush of an empty batch does nothing
  (`crates/stroma-db/src/lib.rs:1485-1488`), yet a retract line clears the dirty set after it
  (`crates/stroma-db/src/lib.rs:1359-1360`). So the second of two retract lines forgets that the first one's
  key still has an undrained removal, and a fact line that grants the element again is compared with the stale
  base and skipped: `LostGrants.TwoRetractsLose`. A call that an error stops leaves its removals in the tail
  as well, and the next call starts with an empty dirty set: `LostGrants.StoppedCallLoses` loses an element
  without a retract line in the losing call. A drain in between, as every read of a rule's changes starts with
  (`crates/stroma-db/src/lib.rs:688`), takes that risk away (`StoppedCalls.TurnsLossless`). The exact condition: a
  skipped assertion meets an absent element if and only if its key is not marked, the drained state has a
  matching live row, and a removal of the element waits in the undrained tail (`Losses.LosesIff`); a call leaves
  the element missing if and only if
  one of its lines does that and no later line names the element (`Answers.MissingIff`). Told from the lines
  before the call: on a drained store nothing is lost unless some element is asserted after it was retracted
  and some line in between is a further retract line (`Answers.SafeCall`), so a call with at most one retract
  line loses nothing on a drained store (`Answers.OneRetractPerCall`); on a store with an undrained tail also
  the elements whose removal waits there are at risk. When the lines before the assertion would be skipped by
  the store as it rests, `LostGrants.QuietMissingIff` says in advance, both ways, whether the element will be
  missing.
* **For Many keys the suppression compares with any live row, not with the head**
  (`crates/stroma-core/src/fold.rs:700-710`), so a skipped assertion can change as-of and masked answers:
  `ManySkips.SkipChangesAsOf` and `ManySkips.SkipChangesMasked` are the two cases. An as-of read notices the
  skip if and only if the mask shows the asserted row, the instant lies in its interval and a close with the
  same start decides the read (`ManySkips.SkipNoticedAsOf`); a read of the present set, if and only if the mask
  shows the asserted row but not the element (`ManySkips.SkipNoticedNow`); nobody notices when the matching row
  is the element's head (`ManySkips.HeadRepeatUnnoticed`). A skipped close is compared with the head only, and
  changes no read (`ManySkips.SkippedCloseUnnoticed`).
* **A reader of verdict changes misses what was drained before it was synced.** A read of the changes drains the
  engine's tail first (`crates/stroma-db/src/lib.rs:688`), also a tail that a stopped ingest left unsynced, and
  journals it at the durable head, which has not moved; a client whose cursor is that head never reads it.
  `Live.UnsyncedWriteMissed` is such a run of the engine: a node gets the rule's type by an unsynced write, the
  client reads, is answered with nothing, and lacks the node's verdict. `Live.RunThenRead` says exactly when the
  client's map is right all the same.
* **A masked reader of verdict changes is not told of everything it would be shown.** Both sides of every change
  are masked as of the present view (`crates/stroma-db/src/lib.rs:717-757`), and only changes of a verdict or of
  the labels on its rows are journaled (`crates/stroma-core/src/incremental.rs:163-218`). So a reader may go wrong
  about a subject in three ways. The label of the subject, or of a node on which its judgment misses something,
  changes: this is not journaled (`Overlooked.RelabeledSubjectMissed`, `Overlooked.RelabeledEndMissed`). A
  judgment comes to the same verdict but starts or stops reading a predicate whose floor the reader is not
  allowed: this is not journaled either (`Overlooked.EnteredFloorMissed`). The last row hidden from the reader
  goes away: the mask then hides nothing of the present view, so both sides of the journaled change look alike
  and it is dropped (`Overlooked.LastHiddenRowMissed`). The exact condition, subject by subject, for any number of
  batches read at once: what the reader last learned meets the guards of the mask as the present judgment does
  (`MaskedChanges.ReachedIff`; `MaskedChanges.OneBatchIff` for one batch, where those guards alone decide). When
  none of the three happens the reading is right throughout (`MaskedChanges.MaskedReaderFollows`). Both hold of
  every run of the engine in which appends are flushed before they are drained (`MaskedRuns.RunThenReadMasked`).
* **`parse_date` accepts day 31 in every month** (`crates/stroma-cli/src/import.rs:82`).
  `Calendar.DateRoundTrip` says that a date survives exactly when its month has that day, and
  `Calendar.OverflowingDay` what the others become.

## Model

| member | source | states |
|---|---|---|
| Folds.Fold.ApplyOp | crates/stroma-core/src/fold.rs:376-538 | folding one diff in place is one application of the fold's specification, for every kind of op the fold takes; a hard delete raises the floor whatever cardinality it names |
| Folds.Fold.ApplyLabeledOp | crates/stroma-core/src/fold.rs:361-372 | the row's label is stored beside the row, and only row-writing ops store one |
| Folds.Fold.Merge | crates/stroma-core/src/fold.rs:541-611 | the four merge loops compute the least upper bound of the two states |
| Folds.Fold.Collect | crates/stroma-core/src/fold.rs:617-649 | collection drops exactly the rows, tombstones and labels at or below each key's floor |
| FoldLaws.JoinAssociative | crates/stroma-core/src/fold.rs:541-611 | merging is associative |
| FoldLaws.JoinIdempotent | crates/stroma-core/src/fold.rs:541-611 | merging a fold with itself changes nothing |
| FoldLaws.JoinCommutative | crates/stroma-core/src/fold.rs:541-611 | merging is commutative on folds written with unique order keys |
| FoldLaws.ApplyIsJoin | crates/stroma-core/src/fold.rs:361-538 | folding an op in is merging in the fold of that op alone |
| FoldLaws.FoldIntoJoin | crates/stroma-core/src/fold.rs:1129-1145 | folding a log into a state is merging the state with the log's own fold |
| FoldLaws.Convergence | crates/stroma-core/src/fold.rs:361-538 | two logs of the same ops, in any order and with any duplicates, fold to the same state |
| FoldLaws.ReplicasConverge | crates/stroma-core/src/fold.rs:541-611 | any partition of the ops over replicas, merged in any tree, gives the state of any other |
| Snapshots.ObserveEqual | crates/stroma-core/src/fold.rs:714-730 | folds that show the same for every key and node have the same whole snapshot, indexes included |
| Collection.GcObserve | crates/stroma-core/src/fold.rs:617-649 | collecting changes no part of the snapshot |
| Collection.GcJoin | crates/stroma-core/src/fold.rs:617-649 | collecting before or after a merge gives the same collected state, even for rows redelivered below the floor |
| Collection.GcExact | crates/stroma-core/src/fold.rs:617-649 | a collection keeps of every key exactly the rows, tombstones and labels above its floor, and leaves nothing empty |
| Collection.GcInvisible | crates/stroma-core/src/fold.rs:617-649 | after any later ops, merges and collections a collected fold and an uncollected one observe alike |
| Refresh.CountOneMore | crates/stroma-core/src/fold.rs:735-838 | one more or one fewer labeled row moves exactly its own label's count, dropping it at zero |
| Refresh.SnapshotCache.DropLabels | crates/stroma-core/src/fold.rs:735-838 | dropping a key's labels row by row keeps the counts equal to a full count |
| Refresh.SnapshotCache.AddOne | crates/stroma-core/src/fold.rs:735-838 | listing a One key's rows extends the reverse value index by exactly their values |
| Refresh.SnapshotCache.ObserveKey | crates/stroma-core/src/fold.rs:735-838 | re-observing a key replaces exactly that key's entries by what the fold shows, counts and index kept right |
| Refresh.SnapshotCache.ObserveNode | crates/stroma-core/src/fold.rs:845-858 | re-observing a node replaces its type and label only |
| Refresh.SnapshotCache.Refresh | crates/stroma-core/src/engine.rs:186-209 | refreshing only what changed makes the cache show the new fold everywhere |
| Refresh.SnapshotCache.ShowsIsObserve | crates/stroma-core/src/fold.rs:714-858 | a cache that shows every key and node is the full observation |
| Changelogs.Changelog.Append | crates/stroma-core/src/changelog.rs:426-446 | the next seqno and one more record, or backpressure exactly at the limit, with its depth and limit, and nothing changed |
| Changelogs.Changelog.AppendBatch | crates/stroma-core/src/changelog.rs:458-481 | all of the chunk with consecutive seqnos, or nothing |
| Changelogs.Changelog.MarkMaterialized | crates/stroma-core/src/changelog.rs:493-496 | the mark reaches the given seqno or the head, passes neither, and never moves back |
| Changelogs.Changelog.ReplayRangeInto | crates/stroma-core/src/changelog.rs:520-543 | the records from a seqno on are folded in and exactly the keys and nodes they touch are reported |
| Engines.CatchUp | crates/stroma-core/src/engine.rs:40-58 | a collected fold of a prefix that replays the rest is, up to collection, the fold of everything |
| Engines.Engine.Load | crates/stroma-core/src/engine.rs:40-58 | after loading the files the base is a fold of what the snapshot covers and the log is the rest |
| Engines.Open | crates/stroma-core/src/engine.rs:40-58 | a reopened engine holds exactly the synced writes, in order, all materialized |
| Engines.Engine.Write | crates/stroma-core/src/engine.rs:87-100 | one more write in the history, or backpressure and none; nothing becomes durable |
| Engines.Engine.WriteBatch | crates/stroma-core/src/engine.rs:102-115 | a chunk appended atomically with consecutive seqnos, or backpressure and nothing |
| Engines.Engine.Sync | crates/stroma-core/src/engine.rs:76-78 | everything appended is on disk and recoverable |
| Engines.Engine.Materialize | crates/stroma-core/src/engine.rs:186-209 | drains the tail, keeps the cache the full observation, and reports every key and node that may have changed |
| Engines.Engine.Compact | crates/stroma-core/src/engine.rs:64-72 | the log restarts empty at the covered seqno and no write is lost |
| Engines.Engine.CommitSnapshot | crates/stroma-core/src/changelog.rs:335-372 | with the snapshot in place and the log not yet truncated the files still hold the same history |
| Engines.Engine.Truncate | crates/stroma-core/src/changelog.rs:374-392 | archiving the covered log leaves files that hold the same history |
| Engines.Engine.TornSync | crates/stroma-core/src/changelog.rs:394-409 | a crash after some whole frames leaves files holding the writes up to that frame |
| Engines.Engine.Snapshot | crates/stroma-core/src/engine.rs:212-226 | the read-merge is the observation of the fold of every write ever appended |
| Engines.Engine.SnapshotArc | crates/stroma-core/src/engine.rs:228-230 | the cached snapshot is the observation of the drained writes |
| Engines.Engine.RetractEdge | crates/stroma-core/src/engine.rs:121-142 | nothing for an absent element, else one removal of exactly its live tags over the whole history |
| Engines.CompactQuietly | crates/stroma-core/src/engine.rs:64-72 | compacting a drained engine changes nothing that a reader sees |
| Runs.RunEngine | crates/stroma-core/src/engine.rs:40-72 | every run of writes, batches, retractions, materializations, syncs, compactions and crashes refines a list of writes, and its snapshot is the observation of that list's fold |
| Runs.SyncedSurvives | crates/stroma-core/src/changelog.rs:293-407 | no run loses or changes a synced write |
| Interpreter.RetractRemovesOne | crates/stroma-core/src/engine.rs:121-142 | a retraction makes exactly its own element absent |
| Interpreter.TagsAreAdds | crates/stroma-core/src/fold.rs:656-671 | the tags a retraction observes are the element's live add rows |
| Interpreter.SnapshotIsInterpretation | crates/stroma-core/src/changelog.rs:115-216 | current values, present sets, properties and attributes are what overwriting, inserting and deleting in log order gives |
| Mask.MaskedReads | crates/stroma-core/src/mask.rs:257-330 | every masked read of a key is the read of the store in which the hidden rows were never written |
| Mask.MaskedEnumerations | crates/stroma-core/src/mask.rs:333-382 | every masked enumeration visits exactly what one of that store visits, elements whose close is hidden included |
| Mask.UnaffectedShowsAll | crates/stroma-core/src/mask.rs:96-116 | the shortcut for unaffected keys never shows a hidden row |
| Views.MaskedViewIsVisibleStore | crates/stroma-core/src/mask.rs:11-17 | a masked view is the plain view of the store without the hidden rows, so every query over it answers as there |
| Views.LookupOne | crates/stroma-core/src/query.rs:56-73 | the indexed lookup lists, ascending, exactly the subjects whose point read gives the value, now or as of an instant, for any hash and any view |
| Queries.WinnerCorrect | crates/stroma-core/src/query.rs:29-42 | the as-of winner covers the instant and no covering row starts later, or as late and written later |
| Queries.PointOneTimeline | crates/stroma-core/src/query.rs:130-161 | the timeline is sorted, disjoint, coalesced, and agrees with the as-of read at every instant |
| Queries.DerivedTimeline | crates/stroma-core/src/query.rs:178-234 | for every non-empty chain the derived timeline is that of composing the as-of reads hop by hop |
| Reach.ReverseAdjacency | crates/stroma-core/src/query.rs:444-464 | the reverse adjacency is exactly the converse of the one-hop expansion |
| Reach.StepSymmetric | crates/stroma-core/src/query.rs:547-627 | the one-hop relation of a symmetric predicate is symmetric if and only if it declares no inverse or every stored edge of the inverse is mirrored |
| Reach.InverseBreaksSymmetry | crates/stroma-core/src/query.rs:547-627 | an edge of the inverse alone is expanded in one direction only |
| Reach.InversesConverse | crates/stroma-core/src/query.rs:575-600 | of two predicates declared as each other's inverse, one steps forward exactly where the other steps back, now and at an instant |
| Reach.InverseWalked | crates/stroma-core/src/query.rs:575-600 | every stored edge of a declared inverse is walked backwards, symmetric or not |
| Reach.InversesReach | crates/stroma-core/src/query.rs:547-627 | and two transitive inverses reach each other's subjects within the same number of hops |
| Reach.NeighbourAsOf | crates/stroma-core/src/query.rs:501-520 | as of an instant a node is a neighbour exactly when the row in effect of the One key names it or a row in effect of its element is no close |
| Reach.ExpandRel | crates/stroma-core/src/query.rs:547-627 | a transitive expansion returns exactly the nodes reachable by a walk of 1 to the bound's number of property-aware hops |
| Conformance.JudgeFrame | crates/stroma-core/src/conformance.rs:811-929 | any view that answers alike on every key a judgment read gives the same verdict and reads the same keys |
| Judging.Gaps.AnchorInstant | crates/stroma-core/src/conformance.rs:688-723 | an anchor is the graph's value, else the assumption, else a recorded gap |
| Judging.Gaps.WalkTraced | crates/stroma-core/src/conformance.rs:737-787 | the walk loop stops, records and reports as the recursive walk does, whose meaning is `RuleMeaning.PathMeans` |
| Judging.JudgeTraced | crates/stroma-core/src/conformance.rs:796-929 | the evaluator's loops give the specified verdict and read trace |
| RuleMeaning.PathMeans | crates/stroma-core/src/conformance.rs:737-787 | a path of timeless and anchored hops in any order ends at what its last hop gives where the others lead, reports the instant of the last anchored hop it reached, and probes its last hop for a stale value exactly when that hop is anchored |
| RuleMeaning.OutcomeMeans | crates/stroma-core/src/conformance.rs:811-929 | what the verdict of a whole judgment says: out of scope exactly when the scope fails, no matching case exactly when none holds, else each outcome in exactly one situation of the first matching case's path; stale exactly when the last hop is anchored and a row where it is read once had the actual value; the required path's instant goes first |
| RuleMeaning.TestsMean | crates/stroma-core/src/conformance.rs:147-215 | a range holds of exactly the numbers between its bounds, inclusive ones included, and of nothing else |
| RuleGaps.GapsMean | crates/stroma-core/src/conformance.rs:683-929 | exactly the anchors consulted that the graph lacks are reported, as assumed or as missing, and exactly the hops that gave nothing; a subject out of scope or without a case gets no values |
| RuleMeaning.WalkIsCompose | crates/stroma-core/src/conformance.rs:737-787 | a path read as of one anchor ends at what the derived timeline of the same chain shows at that instant |
| RuleMeaning.AssumptionsFillGaps | crates/stroma-core/src/conformance.rs:495-504 | assumptions change nothing unless the judgment reports one of the assumed anchors missing |
| Verdicts.SubjectsAgree | crates/stroma-core/src/conformance.rs:617-660 | every listed id answers once: as in the full evaluation, as unknown when it is no node or hidden, as no subject when it is a visible node of another type, without values |
| Verdicts.HiddenIsAbsent | crates/stroma-core/src/conformance.rs:617-660 | no answer changes when a hidden node is taken away |
| Verdicts.UnwithheldVerdict | crates/stroma-core/src/conformance.rs:530-591 | every verdict not withheld is the verdict judged over the store without the hidden rows |
| Incremental.UntouchedSame | crates/stroma-core/src/incremental.rs:163-218 | a subject none of whose reads was touched is judged as before, row labels included |
| Incremental.MaintainedConformance.constructor | crates/stroma-core/src/incremental.rs:123-145 | seeding gives a fresh traced judgment of every subject |
| Incremental.MaintainedConformance.ClearSupports | crates/stroma-core/src/incremental.rs:250-262 | the inverted index stays the exact inverse of the supports |
| Incremental.MaintainedConformance.JudgeInto | crates/stroma-core/src/incremental.rs:222-243 | one subject is replaced by its fresh judgment and no other changes |
| Incremental.MaintainedConformance.Apply | crates/stroma-core/src/incremental.rs:163-218 | after a batch every subject is as freshly judged, and there is exactly one diff per subject whose verdict or row labels changed |
| Incremental.MaintainedConformance.ShownIsEvaluate | crates/stroma-db/src/lib.rs:597-615 | masking the maintained verdicts is a one-shot evaluation, under any mask |
| Live.LiveRule.Push | crates/stroma-db/src/lib.rs:254-262 | a batch joins the ring, which keeps every batch it has room for and remembers the head of the last one dropped |
| Live.LiveRule.ForgottenIff | crates/stroma-db/src/lib.rs:254-262 | a cursor lies behind what the ring forgot exactly when more batches came after it than the ring has room for |
| Live.LiveRule.Changes | crates/stroma-db/src/lib.rs:711-741 | every batch after the cursor, or resync exactly when some may have been dropped |
| Live.TouchedIsEnough | crates/stroma-core/src/engine.rs:186-209 | keys and nodes the drain did not report look the same in both snapshots |
| Live.RunWatched | crates/stroma-db/src/lib.rs:1501-1526 | over every run of writes, flushes, drains and compactions the shown verdicts are a one-shot evaluation of the drained writes under every mask, and the journal only grows, at heads never below the one at the start |
| Live.RunThenRead | crates/stroma-db/src/lib.rs:678-757 | a client that held the maintained map at its cursor is told to resync exactly when more batches came than the journal has room for; else what it reads after any run leads to the present map exactly when every subject changed by a batch at its own cursor's head is named again, and always when appends are flushed before they are drained |
| Live.Watched.ReadChanges | crates/stroma-db/src/lib.rs:678-757 | a read drains what is left, then answers with every batch after the cursor up to the durable head, or resync |
| Live.MissedIff | crates/stroma-db/src/lib.rs:711-741 | a client that missed some batches still ends right exactly when every subject they changed is named again by what it read |
| Live.UnsyncedWriteMissed | crates/stroma-db/src/lib.rs:681-690 | a run of the engine in which a write drained before its sync gives a node a verdict, while the client's next read answers with nothing |
| MaskedChanges.ReachedIff | crates/stroma-db/src/lib.rs:717-757 | reading several batches, all masked as of the present, is right about a subject exactly when the judgment last told, or else the first, meets the guards of the mask as the present one does |
| MaskedChanges.OneBatchIff | crates/stroma-db/src/lib.rs:717-757 | one batch is right about a subject exactly when it is told, or it was as visible before as it is now and the mask withholds its verdict now if and only if it did before |
| MaskedChanges.MaskedReaderFollows | crates/stroma-db/src/lib.rs:717-757 | reading any number of batches leads from the verdicts shown before to those a one-shot evaluation shows now, when no node comes in sight or leaves it, no hidden floor silently enters or leaves what is read, and a store that held something hidden still does |
| MaskedChanges.UnhiddenSubjectMissed | crates/stroma-db/src/lib.rs:717-745 | a subject that comes in sight while its judgment stays as it was is not told |
| Overlooked.RelabeledSubjectMissed | crates/stroma-db/src/lib.rs:740-745 | a history in which a new label brings a subject of any rule in sight and the reader is told nothing |
| Overlooked.RelabeledEndMissed | crates/stroma-core/src/conformance.rs:593-612 | a history in which a node on which a judgment misses a value comes in sight: nothing is told, and the reader keeps a withheld verdict that is shown now |
| Overlooked.EnteredFloorMissed | crates/stroma-core/src/incremental.rs:163-218 | a history in which a walk reads on to a predicate whose floor is hidden, to the same verdict: nothing is told, and the reader keeps a verdict that is withheld now |
| Overlooked.LastHiddenRowMissed | crates/stroma-db/src/lib.rs:717-757 | a history in which the last hidden row is retracted: the journaled change looks alike on both sides and the reader keeps a withheld verdict that is shown now |
| MaskedRuns.RunThenReadMasked | crates/stroma-db/src/lib.rs:681-765 | after any run whose appends are flushed before they are drained, a masked client is told to resync exactly when the run journaled more batches than the journal has room for, else it is right about exactly the subjects whose guards agree, and about all when nothing hidden changes untold |
| Faces.SameAnswers | crates/stroma-core/src/query.rs:29-42 | every read of a One key, through any mask, depends only on its rows with repeats dropped |
| Faces.CollapseAnswers | crates/stroma-core/src/query.rs:29-42 | repeating a row changes neither the current value nor the value at any instant |
| Faces.TimelineUnique | crates/stroma-core/src/query.rs:130-161 | a value has only one sorted, disjoint, coalesced timeline |
| Ledger.FacesOfHistory | crates/stroma-core/src/fold.rs:735-838 | the rows a snapshot lists for a One key are the key's records in write order, each with its own label |
| Ledger.PresenceOfHistory | crates/stroma-core/src/fold.rs:735-838 | presence and edge properties read off record by record are what the fold shows |
| Suppression.CleanIsDrained | crates/stroma-db/src/lib.rs:1104-1110 | for a key outside the dirty set the drained snapshot lacks nothing but retractions, so no stale head or property decides |
| Suppression.OneRowAgrees | crates/stroma-db/src/lib.rs:1187-1212 | skipping an assertion or a close equal to the head leaves a One key's answers as appending it would |
| Suppression.PropsAgree | crates/stroma-db/src/lib.rs:1240-1267 | skipping properties equal to their current value changes none |
| Suppression.TakeFollows | crates/stroma-db/src/lib.rs:1157-1409 | every line of every kind keeps the suppressed store following the append-all store, but for what it loses |
| Suppression.TakeAllFollows | crates/stroma-db/src/lib.rs:1098-1424 | so does every list of lines |
| Resending.LineTwice | crates/stroma-db/src/lib.rs:1157-1357 | a fact or close that a call has taken is found repeated afterwards, unless it is a fact that was itself skipped while a removal of its element waited |
| Resending.RepeatedShows | crates/stroma-db/src/lib.rs:1179-1231 | the snapshot then shows the line: its object, interval, source and label in the current row of the One key, or in a row of the present element |
| Resending.ResendAppendsNothing | crates/stroma-db/src/lib.rs:1098-1424 | a call of facts and closes, none on the key or element of one before it, sent again to a store that took it appends nothing, properties included |
| Resending.LineProvenance | crates/stroma-db/src/lib.rs:1157-1482 | a line loses nothing that waited and adds only records with its own source, key, content and label; the batch is flushed when full and before a retraction |
| Resending.RetractTwice | crates/stroma-db/src/lib.rs:1358-1409 | a retracted element has no live tag left, and retracting it again writes nothing |
| Resending.NodeTwice | crates/stroma-db/src/lib.rs:1429-1482 | node attributes sent again are not written again |
| Answers.CallFollows | crates/stroma-db/src/lib.rs:1098-1424 | a whole call, even one that meets an undrained tail, leaves a drained store that follows the append-all store |
| Answers.OneAnswers | crates/stroma-db/src/lib.rs:1179-1211 | under every mask a One key has the same value now and at every instant as if nothing had been skipped |
| Answers.OneTimelines | crates/stroma-db/src/lib.rs:1179-1211 | and the same timeline, segment by segment |
| Answers.OtherAnswers | crates/stroma-db/src/lib.rs:1213-1231 | properties and node attributes are the same, and of a Many key's present elements exactly the lost ones are missing |
| Losses.LosesIff | crates/stroma-db/src/lib.rs:1213-1231 | a skipped assertion meets an absent element exactly when its key is not marked, the drained state has a matching live row and a removal of the element waits in the tail |
| Losses.LostAllIff | crates/stroma-db/src/lib.rs:1098-1424 | what a list of lines loses, element by element: some line loses it and no later line names it |
| Losses.NotLost | crates/stroma-db/src/lib.rs:1358-1409 | lines that never assert an element after retracting it and then retracting something lose it only if its removal was waiting before |
| Answers.MissingIff | crates/stroma-db/src/lib.rs:1098-1424 | a call takes nothing into a present set that the append-all store lacks, and leaves an element missing exactly when it loses it at some line |
| Answers.ManyAnswersIff | crates/stroma-db/src/lib.rs:1213-1231 | a Many key has the present set of the append-all store if and only if no line of the call loses an element of it for good |
| Answers.SafeCall | crates/stroma-db/src/lib.rs:1358-1409 | told from the lines and the undrained removals alone: such a call loses nothing |
| QuietCalls.QuietRun | crates/stroma-db/src/lib.rs:1157-1409 | lines that the resting store would skip drain nothing: only retractions and node attributes are appended, and the marked key is the last retraction's |
| LostGrants.QuietMissingIff | crates/stroma-db/src/lib.rs:1358-1409 | after such lines an assertion is lost exactly when the store has a matching row, an earlier line retracts the element and the last retract line does not mark its key |
| LostGrants.TwoRetractsLose | crates/stroma-db/src/lib.rs:1358-1409 | two retract lines and a re-assertion in one call lose the element |
| LostGrants.StoppedCallLoses | crates/stroma-db/src/lib.rs:1098-1110 | a call that an error stops after a retraction makes the next call lose the element, with no retract line in it |
| StoppedCalls.CallKeeps | crates/stroma-db/src/lib.rs:1098-1424 | however a call ends, its store follows the history of everything that reached the engine, which is everything unless the call is stopped |
| StoppedCalls.TurnsKeep | crates/stroma-db/src/lib.rs:1098-1424 | so do any number of calls, stopped or not, and drains between them; and when all calls go through, everything is there |
| StoppedCalls.TurnsLossless | crates/stroma-db/src/lib.rs:1098-1424 | from a drained store nothing is lost, stopped calls or not, unless a call asserts an element after retracting it and then retracting something, or what a stopped call leaves is not drained before the next |
| ManySkips.SkipNoticedAsOf | crates/stroma-core/src/fold.rs:678-711 | a skipped assertion changes a masked as-of read exactly when the mask shows its row, the instant lies in its interval and a close of the same start decides the read |
| ManySkips.SkipNoticedNow | crates/stroma-core/src/fold.rs:678-711 | it changes a masked present set exactly when the mask shows its row but not the element |
| ManySkips.HeadRepeatUnnoticed | crates/stroma-db/src/lib.rs:1213-1231 | a repeat of the element's head is noticed by no read under any mask |
| ManySkips.SkippedCloseUnnoticed | crates/stroma-db/src/lib.rs:1315-1340 | a skipped close changes no present set and no as-of read under any mask |
| ManySkips.SkipChangesAsOf | crates/stroma-core/src/fold.rs:700-710 | granted from 5, ended at 5, granted from 10: skipping the first grant again changes the read as of 7 |
| ManySkips.SkipChangesMasked | crates/stroma-core/src/fold.rs:700-710 | with the later grant hidden, skipping the first grant again changes the present set |
| WriteStates.ManyLiveAsserted | crates/stroma-core/src/fold.rs:678-711 | the probe finds a matching live add row of a present element |
| WriteStates.AssertedSame | crates/stroma-core/src/engine.rs:143-165 | collecting the base does not change what the probe finds |
| WriteStates.WriteState.constructor | crates/stroma-db/src/lib.rs:345-364 | on a drained engine the mirrors are the snapshot's attributes and the store follows its own history |
| WriteStates.WriteState.Flush | crates/stroma-db/src/lib.rs:1485-1495 | append, sync and drain the batch; an empty batch leaves even an undrained tail alone |
| WriteStates.WriteState.TakeFact | crates/stroma-db/src/lib.rs:1157-1271 | a fact line queues what is not a no-op and flushes a full batch |
| WriteStates.WriteState.TakeClose | crates/stroma-db/src/lib.rs:1272-1357 | a close line is an error on the wrong cardinality, a no-op against an equal close, else queued |
| WriteStates.WriteState.TakeRetract | crates/stroma-db/src/lib.rs:1358-1409 | a retract line flushes, forgets the dirty set, and resolves its element over every write before it |
| WriteStates.WriteState.TakeNode | crates/stroma-db/src/lib.rs:1429-1482 | node attributes are written unless the mirror shows them, and the mirror moves only with the engine |
| WriteStates.WriteState.IngestLines | crates/stroma-db/src/lib.rs:1098-1424 | the loop over the lines computes the specified call, errors and backpressure included |
| WriteStates.SendTwice | crates/stroma-db/src/lib.rs:1098-1424 | two calls with the same independent facts and closes leave the engine as the first one left it |
| WriteStates.WriteState.DrainTail | crates/stroma-db/src/lib.rs:1501-1526 | a drain between calls folds in the whole tail and leaves the store otherwise as it was |
| WriteStates.TakeTurns | crates/stroma-db/src/lib.rs:1098-1424 | any number of calls, some perhaps stopped, with drains between them, end where the specified turns end: the store follows all that reached it, and lacks nothing under the condition of `TurnsLossless` |
| Feed.Pending.Note | crates/stroma-db/src/feed.rs:36-41 | the row's label joins those noted for its key |
| Feed.Journal.Gather | crates/stroma-db/src/feed.rs:196-214 | a batch's changes are exactly the touched nodes with their predicates, noted labels, attribute and newness marks |
| Feed.Journal.Record | crates/stroma-db/src/feed.rs:189-231 | every non-empty batch joins the journal, oversized ones as a marker; the retained weight equals its counter and stays within the cap, and nothing was dropped that would have fitted |
| Feed.RecordWrites | crates/stroma-db/src/feed.rs:189-231 | a recorded batch tells, node by node, exactly the predicates touched with the labels of the rows written on them, and newness, from the writes noted since the last one |
| Feed.Journal.Read | crates/stroma-db/src/feed.rs:236-303 | every non-empty visible batch ever recorded after the cursor up to the head; or resync, exactly when the cursor is ahead, older than the journal, followed by more than the cap holds, or an oversized batch is in range |
| Feed.OwnHeadUnread | crates/stroma-db/src/feed.rs:236-303 | a batch recorded at the reader's own head is never read |
| Feed.Journal.TruncationIsTight | crates/stroma-db/src/feed.rs:221-230 | a cursor resyncs for truncation exactly when a batch after it was dropped, and that is when the batches after it weigh more than the cap |
| Feed.ReadsCompose | crates/stroma-db/src/feed.rs:236-303 | reading up to a head and on from there is reading it all at once |
| Feed.HiddenRowsUnseen | crates/stroma-db/src/feed.rs:272-283 | further hidden rows in a batch change nothing a principal sees of it |
| Feed.FloorUnseen | crates/stroma-db/src/feed.rs:272-283 | a predicate whose floor is hidden never shows, whatever was written or removed on it |
| Feed.UnnotedShown | crates/stroma-db/src/feed.rs:277-278 | a predicate touched without a noted label shows exactly when no floor or live row of it is hidden |
| Feed.OpenReaderSees | crates/stroma-db/src/feed.rs:254-303 | a reader from whom nothing is hidden is told of every touched node: its type, the names of its touched predicates, and whether it is new |
| Feed.HiddenNodeUnseen | crates/stroma-db/src/feed.rs:254-271 | a node the principal may not see never appears |
| Encoding.ObjBack | crates/stroma-core/src/wal.rs:310-319 | every value reads back from its bytes, whatever follows |
| Encoding.Buffer.PutLE | crates/stroma-core/src/wal.rs:38-46 | integers are written least significant byte first |
| Encoding.Reader.TakeN | crates/stroma-core/src/wal.rs:284-289 | the reader takes exactly the next bytes or fails without moving past the end |
| Wal.RecordRoundTrip | crates/stroma-core/src/wal.rs:93-487 | every record of every kind reads back, its label included where it writes a row |
| Wal.OldRecordsDecode | crates/stroma-core/src/wal.rs:329-364 | records from before intervals and labels were kept still decode |
| Recovery.FrameBack | crates/stroma-core/src/wal.rs:249-268 | a frame reads back to its payload |
| Recovery.FrameOnly | crates/stroma-core/src/wal.rs:249-268 | a frame reads only from its own bytes: with any other stored sum, length or payload it does not |
| Recovery.TornFrame | crates/stroma-core/src/wal.rs:494-539 | a frame cut anywhere reads as nothing |
| Recovery.StartRoundTrip | crates/stroma-core/src/wal.rs:226-243 | a start frame reads back and is never taken for a record |
| Recovery.RecordIsNoStart | crates/stroma-core/src/wal.rs:236-243 | a record is never taken for a start frame |
| Recovery.RecoverPrefix | crates/stroma-core/src/wal.rs:494-539 | recovering any prefix of any file gives the right first seqno and exactly the records whose frames are whole |
| Recovery.CountExists | crates/stroma-core/src/wal.rs:494-539 | wherever a file is cut, some number of its frames is whole |
| LogFiles.EncodePayload | crates/stroma-core/src/wal.rs:93-216 | the imperative encoder writes the specified payload |
| LogFiles.FinishFrame | crates/stroma-core/src/wal.rs:263-268 | the header is filled in behind the payload |
| LogFiles.WriteFile | crates/stroma-core/src/wal.rs:226-260 | start frame and records, framed one after another |
| LogFiles.DecodeRecord | crates/stroma-core/src/wal.rs:368-487 | the reader-based decoder computes the specified decoding, leftovers rejected |
| LogFiles.Recover | crates/stroma-core/src/wal.rs:494-539 | the recovery loop computes the specified recovery of any bytes |
| FoldCodec.MapBack | crates/stroma-core/src/fold.rs:906-1125 | a map reads back whole in whatever order its entries were written |
| FoldCodec.KeyStateInverts | crates/stroma-core/src/fold.rs:1011-1069 | a key's rows, tombstones and floor read back |
| FoldCodec.EdgesInvert | crates/stroma-core/src/fold.rs:1070-1086 | edge properties read back with their order keys |
| SnapshotFiles.DecodeUndoesEncode | crates/stroma-core/src/fold.rs:906-1125 | decoding undoes encoding, with or without the label section |
| SnapshotFiles.ReachableRoundTrip | crates/stroma-core/src/fold.rs:906-1125 | for every fold that ops, merges and collections can build |
| SnapshotFiles.UnlabeledFormat | crates/stroma-core/src/fold.rs:982-1000 | bytes in the layout from before labels existed still decode, to the fold without its labels, and a fold is written in that layout exactly when it has none |
| SnapshotFiles.SnapshotRoundTrip | crates/stroma-core/src/changelog.rs:226-254 | through the header the fold and the seqno it covers both come back |
| SnapshotFiles.EncodeInto | crates/stroma-core/src/fold.rs:906-1000 | the encoder's loops write the specified bytes |
| SnapshotFiles.Decode | crates/stroma-core/src/fold.rs:1005-1125 | the decoder's loops compute the specified decoding, malformed input refused |
| Durability.NormalFold | crates/stroma-core/src/wal.rs:245-248 | a label that the log does not keep never mattered to the fold |
| Durability.TornFilesHold | crates/stroma-core/src/changelog.rs:293-316 | the bytes of the log, cut anywhere past what the snapshot covers, and of the snapshot read back to files that hold exactly the whole-frame history |
| Durability.OpenFiles | crates/stroma-core/src/engine.rs:40-58 | an engine opened on those bytes shows the observation of the fold of every write whose frame is whole |
| Calendar.DaysRoundTrip | crates/stroma-core/src/calendar.rs:32-43 | every integer day number has a valid date, whose day count it is |
| Calendar.DateRoundTrip | crates/stroma-cli/src/import.rs:82-91 | a parsed date comes back from its day count exactly when its month has that day |
| Calendar.YearHolds | crates/stroma-core/src/calendar.rs:33-38 | the year-of-era formula is in range and finds the year that holds the day |
| Calendar.TomorrowIsNext | crates/stroma-cli/src/import.rs:85-91 | the day count of the next Gregorian date is one more |
| Calendar.DaysAreConsecutive | crates/stroma-core/src/calendar.rs:32-43 | consecutive day numbers have consecutive Gregorian dates |
| Calendar.EpochIsZero | crates/stroma-core/src/calendar.rs:32-43 | day zero is 1970-01-01 |
| Calendar.OverflowingDay | crates/stroma-cli/src/import.rs:82-91 | a day past the end of its month counts into the next one |

## Left out

- Records synced after reopening over a torn tail: `open` drops the torn bytes in memory but appends after
  them on disk (`crates/stroma-core/src/changelog.rs:293-305`), so torn recovery is stated for one generation.
- A crash between the archive rename and the synced start frame: a missing or empty log recovers with base 0
  (`crates/stroma-core/src/changelog.rs:374-382`), so the snapshot's seqno is taken to lie between the log's
  base and its head.
- I/O errors, partial writes that return an error, fsync, file names and directory locking: a file is its
  whole frames in `Engines` and its bytes in `Recovery`; `Durability` joins the two.
- Mask.MaskedReads: edge properties are not covered, because they follow the visibility of their edge's rows
  (`crates/stroma-core/src/mask.rs:319-331`).
- Answers.OneAnswers: as-of, timeline and mask answers of Many keys are covered skip by skip in `ManySkips`,
  not over whole runs, because the probe may match a row that is not the head; their present sets are.
- WriteStates.WriteState.IngestLines: JSON parsing, schema, source and rule lines, name resolution, the
  JSONL copies, the headline counters and the embedding index are not part of the model.
- Live.RunWatched: one watched rule at a time, on a durable engine; the JSON form of verdicts and changes is
  not modelled.
- MaskedRuns.RunThenReadMasked: a reading up to an earlier head than the present one is masked with the present
  view all the same (`crates/stroma-db/src/lib.rs:690`); only readings up to the present head are related to what
  is shown.
- Incremental.MaintainedConformance.Apply: the order of the diffs within a batch is not fixed, because the
  subjects are walked as a set.
- Queries.DerivedTimeline: the stable sort before coalescing is the identity on what reaches it and is not
  modelled.
- SnapshotFiles.Decode: the loops inside an entry are functions, only the loops over the four stores are
  methods.
- Calendar.DaysRoundTrip: integers are unbounded, so overflow at the ends of the 64-bit range is not modelled;
  the time of day and the rendering of stamps are not either.
- Feed.Journal.Read: names, types and predicates only, as sets; the merged JSON form is not modelled.
- Row-writing and removing ops of the wrong cardinality, on which the source panics, leave the specification's
  state unchanged; every method that folds one requires the cardinality to match. A hard delete only raises the
  floor, whatever cardinality it names.
- Vector search and everything about embeddings, drift and hybrid ranking: float-bound and approximate.
- HTTP, console, command line, CSV import, catalog validation, completeness rules, the live registry: plumbing.
