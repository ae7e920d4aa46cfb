# snipe: proofs about its layouts, protocols and caches

snipe indexes a Go repository and answers questions about it. This project models the parts of it
whose correctness is not plain from reading them, as Dafny code in the shape of the Go code, and
proves what they promise.

| file | what it models |
|---|---|
| `Treemap.dfy` | the squarified treemap of the report, over the reals |
| `Levenshtein.dfy` | the two-row edit distance of the doc-comment checks |
| `BatchProtocol.dfy`, `BatchOutcomes.dfy`, `BatchSession.dfy`, `BatchResults.dfy` | batch embedding: the state file, the billed batches, recovery after a crash anywhere; what may never happen, and what does when nothing fails |
| `EmbedText.dfy`, `EmbedRefresh.dfy` | the text a symbol is embedded as, and the refresh of stored embeddings after incremental index runs |
| `FlowDiagram.dfy` | the bounded walk of the call graph and the trim of the diagram |
| `WatchLoop.dfy` | the watch loop: debounce timer, background reindex, drain on cancel |
| `DdlScan.dfy`, `DdlText.dfy`, `DdlCompact.dfy` | DDL found in Go source, dedented and compacted |
| `DriverPath.dfy`, `C4Facts.dfy` | datastores and external systems of the architecture facts |
| `PlanSites.dfy` | the call-site sections of a plan |
| `Ordering.dfy`, `Text.dfy`, `SymbolIds.dfy` | sorting, string splitting and joining, symbol IDs |

Where the code changes variables in loops, so does the model: a method with loop invariants, proved
against a specification that is not its body (a tiling, a shortest chain of edits, the least names
of a set, the lines of a text), about which the lemmas then prove the rest. The batch protocol and
the watch loop are state machines, one step for each durable effect or each case of the select;
`BatchSession.Session` and `WatchLoop.Loop` hold the control flow of the Go functions, and each of
their operations is shown to be a step of its machine, so what every run of the machine keeps, they
keep. Map iteration, query results without an order, and answers of the server are arbitrary.

## What came out differently from the comments

* `cmd/diagram.go:547-549` speaks of keeping n+1 nodes; the trim never does, for any n of at least 1
  (`FlowDiagram.TopNWithinFrontier`).
* `cmd/watch.go:238-240` says that the files of a reindex in flight are pending again when the drain
  starts. They are not: the drain itself adds them, from the failed result it receives. Two things
  can go wrong. If the select takes a failed result after the cancellation, the failure (killed or by
  itself) is not reported and its files are not tried again (`WatchLoop.LastChangeLost`,
  `WatchLoop.FailureLost`). If the drain gives up waiting, the final reindex is to run under the
  context that has just expired, so nothing is indexed, not even what is pending
  (`WatchLoop.PendingLost`). Otherwise the drain loses no change (`WatchLoop.DrainCoversExactly`,
  `WatchLoop.DrainCoversAll`, `WatchLoop.DrainDrops`). As a reindex goes over the whole directory,
  a later one for other files makes up for a lost change (`WatchLoop.DrainReachesExactly`). A failure
  taken before the cancellation is reported, and its files are not tried again.
* `cmd/watch.go:97-100` means to skip temporary files. It looks for a tilde in the whole absolute path,
  so under a directory with one in its name no change counts at all (`WatchLoop.EventExactly`).
* A status that embed-status writes and the program has no name for falls past the guards of the next
  index run, which overwrites the state file and so forgets the batch (`BatchProtocol.PassesGuards`,
  `BatchProtocol.UnknownStatusOrphans`). A batch that a failed CreateBatch left on the server is
  forgotten too (`BatchProtocol.FailedCreateOrphans`), against `cmd/index.go:647`. Runs of the two
  commands get there (`BatchProtocol.OrphansReached`).
* A refresh of embeddings that fails is a warning, and the next run's snapshot already has the new
  texts, so what it did not reach stays stale exactly until it is touched again
  (`EmbedRefresh.FreshExactly`, `EmbedRefresh.MissedRefreshStays`, `EmbedRefresh.RefreshMissed`).
* `compactDDL` never leaves two blank lines in a row, unless it cuts the text off right after a blank
  line (`DdlCompact.CompactNoTwoBlank`, `DdlCompact.CutAfterBlankLine`).
* `cmd/plan.go:384-386` takes references sorted by file to have contiguous packages. A subdirectory
  sorts between the files of its parent, so the groups may change the order of the references
  (`PlanSites.OrderKeptExactly`, `PlanSites.SortedNotContiguous`).
* `internal/c4/facts.go:104-106` says that the order of the driver list does not matter. The scan stops
  at the first match, so it does for an import path that matches drivers of different names, and only
  then (`C4Facts.ListOrderMatters`); there are such paths (`C4Facts.AllowlistDisagrees`).

## Model

| member | source | states |
|---|---|---|
| `Treemap.LayoutTreemap` | cmd/report_treemap.go:36-71 | For non-negative sizes, or sizes that sum to nothing: the boxes tile the 100x100 canvas exactly, in some order with larger items first and ties by path, and each box has its item's share of the area (an equal share when the sizes sum to nothing) |
| `Treemap.Squarify` | cmd/report_treemap.go:79-106 | For any sizes, one box per item; whenever non-negative sizes add up to the area of the canvas, the boxes tile it (every point in exactly one half-open box, every box inside), match the items one to one with the right areas, and every row is the greedy choice for the shorter side of what was left |
| `Treemap.GrowRow` | cmd/report_treemap.go:84-101 | The row committed to is a non-empty prefix of what remains, no worse than any shorter prefix, and strictly better than its extension by one item if there is one |
| `Treemap.WorstRatio` | cmd/report_treemap.go:112-133 | The value computed from sum, least and largest size is the largest aspect ratio of the boxes of the band, +Inf for a degenerate band |
| `Treemap.Measure` | cmd/report_treemap.go:116-124 | The sum, and the least and the largest size of the row |
| `Treemap.WorstIsMinOrMax` | cmd/report_treemap.go:125-132 | The worst box of a band is its largest or its smallest one, so two sizes are enough |
| `Treemap.BoxAspectFormula` | cmd/report_treemap.go:125-132 | The closed form in side squared and sum squared is the aspect ratio of the box that the band geometry gives |
| `Treemap.LayoutRow` | cmd/report_treemap.go:138-184 | For a row that fits: the boxes tile the rectangle but for the rectangle handed back, whose area is exactly what the row leaves; each box has its item's size as area and the aspect ratio that worstRatio reckons with |
| `Treemap.BandDone` | cmd/report_treemap.go:138-184 | A row laid along the shorter side fills a band from end to end and leaves the rest of the rectangle |
| `Treemap.ProgressStep` | cmd/report_treemap.go:82-105 | Between rows the boxes so far tile the canvas but for the remaining rectangle, whose area is the sum of the remaining sizes; one more row keeps this |
| `Treemap.CountMeansDisjoint` | cmd/report_treemap.go:79-106 | Counting boxes per point says what a tiling should: where the count is one, exactly one box holds the point |
| `Treemap.SharesExactly` | cmd/report_treemap.go:40-68 | Areas are as the sizes, so larger items have the larger boxes and come first, equal ones by path; sizes that sum to nothing get equal boxes |
| `Levenshtein.LevenshteinDistance` | internal/analyze/docstatus.go:188-224 | With two rolling rows and the shorter string first, the result is the length of a shortest chain of one-character insertions, deletions and replacements between the arguments |
| `Levenshtein.DistIsEditDistance` | internal/analyze/docstatus.go:188-224 | The recurrence has the value of the shortest chain: some chain is that long and none is shorter |
| `Levenshtein.ChainReached` | internal/analyze/docstatus.go:207-221 | A chain of exactly as many edits exists |
| `Levenshtein.ChainLowerBound` | internal/analyze/docstatus.go:207-221 | No chain of edits is shorter than the recurrence says |
| `Levenshtein.DistSymmetric` | internal/analyze/docstatus.go:195-198 | The distance is symmetric, which the swap of the arguments rests on |
| `Levenshtein.DistZeroIffEqual` | internal/analyze/docstatus.go:188-224 | It is zero exactly for equal strings |
| `Levenshtein.DistTriangle` | internal/analyze/docstatus.go:188-224 | It satisfies the triangle inequality |
| `Levenshtein.DistBounds` | internal/analyze/docstatus.go:189-194 | It lies between the difference of the lengths and the longer length |
| `Levenshtein.RowStep` | internal/analyze/docstatus.go:207-221 | A cell of the table is the distance of two prefixes, from its three neighbours in two rows |
| `BatchProtocol.EveryBatchNamed` | cmd/index.go:490-678 | Whatever index and embed-status runs there were and wherever they crashed, every batch the server has is settled or named in the state file, by its ID or by its input file under the breadcrumb, and at most one batch is unsettled |
| `BatchProtocol.CreatedWithBreadcrumb` | cmd/index.go:627-645 | A batch comes into being only with its own breadcrumb on disk, no other batch unsettled, and by a run whose loaded state was no fresh in-progress batch of the same index, no old one the API still reported running, and no completed one of the same index |
| `BatchProtocol.StoredOnlyWhole` | cmd/embed.go:116-137 | A batch counts as stored only when it is completed and the store holds every row the parser yielded |
| `BatchProtocol.StepKeeps` | cmd/index.go:490-678 | Each single step of a run, of the server, or a crash keeps the invariant behind these results |
| `BatchProtocol.RunKeeps` | cmd/index.go:490-678 | So does every sequence of steps from the empty start |
| `BatchProtocol.DecideKeeps` | cmd/index.go:497-602 | The guards on the loaded state start a batch, clear the file or recover only where that is safe |
| `BatchProtocol.SavingKeeps` | cmd/embed.go:301-329 | Saving row by row, with failed rows counted, reaches the clearing of the file only with every row stored |
| `BatchProtocol.BatchAdded` | cmd/index.go:640-660 | A batch created for the uploaded file is named by the breadcrumb until its ID is written |
| `BatchProtocol.ServerKeeps` | internal/embed/batch.go:430-448 | Whatever the server does to its batches meanwhile, the state file stays true of its batch |
| `BatchProtocol.OnlyCreateAdds` | cmd/index.go:640-650 | No other step than CreateBatch makes a batch |
| `BatchProtocol.PassesGuards` | cmd/index.go:506-602 | A loaded state passes every guard and is overwritten exactly when its status is failed, cancelled, expired, or one the program has no name for |
| `BatchProtocol.UnknownStatusOrphans` | cmd/embed.go:90-110 | After embed-status wrote a status without a name, the next index run leaves the batch unsettled and named nowhere: from any state with a batch under way |
| `BatchProtocol.FailedCreateOrphans` | cmd/index.go:641-648 | A batch that a failed CreateBatch left on the server all the same is named nowhere once the breadcrumb is cleared |
| `BatchProtocol.OrphansReached` | cmd/index.go:490-678 | Runs of the two commands from nothing that forget a batch in each of these ways |
| `BatchProtocol.ReportedDeadIsDead` | cmd/index.go:553-566 | In every run a batch counts as reported dead only if the server has it as failed, cancelled or expired |
| `BatchProtocol.DiscardedOnlyLogged` | cmd/index.go:506-600 | In every run a batch is discarded only on a logged branch: by an index run that clears the state file it loaded, which names the batch, and that this state allows to start another |
| `BatchOutcomes.DecidesExactly` | cmd/index.go:506-602 | The five ways a loaded state can go, each exactly when, by status, age, fingerprint and output file |
| `BatchOutcomes.MayCreateExactly` | cmd/index.go:506-602 | Which loaded states allow a new batch, and what the API must have said of a stale one |
| `BatchOutcomes.AskedExactly` | cmd/index.go:546-583 | What becomes of a stale batch for each status the API reports |
| `BatchOutcomes.IndexRecovers` | cmd/index.go:456-483 | From any state with a completed batch of the same index that has output: when nothing fails an index run stores every row, settles the batch, clears the file, and touches no other embedding |
| `BatchOutcomes.StaleRecovers` | cmd/index.go:561-578 | So does one that finds the batch stale and hears that it is completed |
| `BatchOutcomes.StatusRecovers` | cmd/embed.go:112-137 | So does embed-status for a batch the server has completed, whatever the file said of it |
| `BatchOutcomes.WholeLifeReached` | cmd/index.go:490-678 | From nothing: an index run makes a batch, the server completes it with any rows, and embed-status stores exactly those, settles it and clears the file |
| `BatchOutcomes.NothingToDownload` | cmd/embed.go:281-283 | A completed batch without output ends an index run with everything as it was, and embed-status with the answer noted |
| `BatchOutcomes.StatusEnds` | cmd/embed.go:90-203 | A failed or cancelled batch is forgotten; one still under way stays named with the answer noted, and is polled again or not |
| `BatchOutcomes.RowsSaved` | cmd/embed.go:301-329 | The machine saves row by row as persistEmbeddings is specified to, for any pattern of failures |
| `BatchOutcomes.FailedRowKeepsFile` | cmd/embed.go:322-326 | The file is cleared after the rows exactly if none of them failed |
| `BatchOutcomes.BatchNoted` | cmd/index.go:619-672 | A run past the guards makes its batch and notes it with its own clock and fingerprint |
| `BatchOutcomes.NotedBatchStands` | cmd/index.go:536-602 | A batch noted as running at some time is left alone by every run of the same index within twelve hours, asked about after them, and discarded by a run of another index within them |
| `BatchSession.StartedStands` | cmd/index.go:536-602 | After a run that started a batch, the next one of the same index within twelve hours ends at once with everything as it is |
| `BatchSession.NamedAtEveryStep` | cmd/index.go:490-678 | A crash may come after any prefix of the steps of the commands: the unsettled batches are named there too |
| `BatchSession.Session.StartBatchEmbeddings` | cmd/index.go:490-678 | What each answer of the command means: in progress for sure, with nothing changed, while a batch of the same index heard of lately is under way, and only then or while an old one still runs; no symbols only when there is nothing to embed; started only with one new batch, named in the state file with the fingerprint and the time, and none other unsettled; neither of these two unless the loaded state allowed a new batch; recovered only with the batch stored whole, and the file cleared unless something failed; an error only when an operation failed or a completed batch has no output; all its effects are steps of the machine |
| `BatchSession.Session.PassGuards` | cmd/index.go:497-602 | The guards never make a batch; they let a run past exactly with the loaded state it was judged by, and end it in progress, recovered, or with an error that has a cause |
| `BatchSession.Session.RecoverCompletedBatch` | cmd/index.go:456-483 | Handled if the fingerprint matches, and without error only with every row stored; not handled only with the file cleared for another fingerprint; an error leaves the file alone, and comes only when an operation failed or there is no output file, which leaves everything alone |
| `BatchSession.Session.CreateBatch` | cmd/index.go:640-672 | A batch that is made and noted is the one new batch, of the uploaded file, and the state file names it with the fingerprint and the time; an error only when an operation failed |
| `BatchSession.Session.DownloadAndSave` | cmd/embed.go:280-294 | No error only with every row of the batch in the store; an error exactly when there is no output file, or some operation failed; the state file and the server are left alone |
| `BatchSession.Session.EmbedStatus` | cmd/embed.go:57-203 | No batch is made; without a state file nothing changes; with one it goes on naming the same batch unless it is cleared, which an error never does, and which needs the batch completed and stored whole, or failed, or cancelled; if nothing failed, it is cleared exactly then, and otherwise holds the status the server has; an error only when an operation failed or a completed batch has no output; for any number of polls |
| `BatchSession.Session.ActOn` | cmd/embed.go:112-203 | It returns exactly on completed, failed or cancelled, or when not waiting; a completed batch ends without error only stored whole, and these three clear the file unless something fails; an error leaves the state file alone and has a cause |
| `BatchSession.Session.Poll` | cmd/embed.go:90-110 | One round notes a status the server really has for the same batch, or leaves the state file as it was |
| `BatchSession.Session.CheckInProgress` | cmd/index.go:536-602 | A fresh batch of the same index ends the run and changes nothing; an old one ends it only if it still runs, and leaves the file alone; a dead one, one that cannot be asked about, or one of another index lets the run go on |
| `BatchResults.PersistEmbeddings` | cmd/embed.go:301-329 | saved + failed is the number of rows the parser yields; the store is the old one with the saved rows; no error exactly when every line could be read and none failed, and then every row is stored |
| `BatchResults.ReadNext` | internal/embed/batch.go:378-427 | What a line of the output adds to the rows: a row, nothing, or the end of the reading |
| `BatchResults.LineEffect` | internal/embed/batch.go:378-427 | A line anywhere in readable output: blank ones and failed answers are passed over, a line that is not JSON or a good answer without an embedding ends the reading with an error, any other adds its first embedding |
| `BatchResults.AllSaved` | cmd/embed.go:301-329 | With no failure the store is the old one overridden by the rows, the last row of an ID winning |
| `BatchResults.SavedExactly` | cmd/embed.go:301-329 | With any failures the store is the old one overridden by exactly the rows that were saved, and the others are counted |
| `BatchResults.RowMapLast` | cmd/embed.go:301-329 | Of two rows of an ID the later one counts |
| `BatchResults.SavedOnlyRows` | cmd/embed.go:301-329 | Saving touches no other ID and loses none |
| `BatchResults.RecoveryRepeats` | cmd/index.go:456-483 | Recovery repeated after a crash or failure part of the way leaves the same store as one full save |
| `BatchResults.WriteJSONL` | internal/embed/batch.go:493-529 | Refused exactly when an ID repeats; otherwise one request per symbol in order |
| `EmbedText.BuildEmbedContext` | cmd/embedtext.go:33-73 | Each callee's list is the three least of its distinct non-test, non-self, non-empty caller names, for every order of the edges; the narratives are the first sentences of the package docs |
| `EmbedText.CallerLists` | cmd/embedtext.go:50-72 | The same for the caller maps alone |
| `EmbedText.ListedExactly` | cmd/embedtext.go:48-73 | A name is listed only for a call from another known and named symbol outside the tests; a callee with such a call has a list, and with fewer than three names every one is in it |
| `EmbedText.ByIdLast` | cmd/embedtext.go:44-47 | Of two copies of a symbol the later one counts |
| `EmbedText.NarrativeLast` | cmd/embedtext.go:38-43 | A package has the last narrative found for it |
| `EmbedText.LeastUnique` | cmd/embedtext.go:65-71 | The least n names of a set leave no choice of list |
| `EmbedText.LeastBySorting` | cmd/embedtext.go:66-69 | Sorting the names and cutting the list gives them |
| `EmbedText.SameRowsSameText` | cmd/embedtext.go:33-106 | With unique IDs, two readings of the same rows in any two orders compose the same text for every symbol |
| `EmbedText.ShortPkgPathIsTail` | cmd/embedtext.go:77-83 | The short path is the tail of the package path after a slash, of two segments, or the whole path if it has no more |
| `EmbedText.TextNotEmpty` | cmd/embedtext.go:88-106 | An embeddable symbol's text is never empty, so a key that is absent from a map of texts differs from it |
| `EmbedText.TextShows` | cmd/embedtext.go:88-106 | The text starts with name, signature and doc, has the package with its narrative, and ends in the callers |
| `EmbedText.TextTellsApart` | cmd/embedtext.go:88-106 | For narratives without line breaks and caller names without commas, a symbol's texts are equal exactly if the callers are and, with a package known, the narratives are |
| `EmbedText.FilterEmbeddableSymbols` | cmd/embedtext.go:186-208 | The embeddable first copies in their order, each with its text |
| `EmbedText.FirstCopyKept` | cmd/embedtext.go:186-208 | The first copy of an ID is kept if it is embeddable |
| `EmbedText.KeptIsFirstCopy` | cmd/embedtext.go:186-208 | Nothing else is kept |
| `EmbedText.FirstCopiesOnce` | cmd/embedtext.go:183-208 | No ID is kept twice, so writing the request file never fails for a repeated one |
| `EmbedText.EmbeddedExactly` | cmd/embedtext.go:186-208 | With unique IDs, kept are exactly the functions, methods and types with a signature or a doc |
| `EmbedRefresh.RunIncrementalIndex` | cmd/index.go:681-794 | What each way of ending leaves of the tables; a refresh follows every complete write exactly if one is asked for and the state before could be read, it is a full one if nothing failed, and a run stops short only if a write failed; a full refresh keeps every embeddable symbol's embedding equal to that of a rebuild |
| `EmbedRefresh.RunDeleteOnlyIndex` | cmd/index.go:798-827 | The same for a run that only deletes files |
| `EmbedRefresh.RefreshEmbeddings` | cmd/embedtext.go:160-180 | It embeds anew exactly the embeddable symbols that changed files hold or whose text moved, or, exactly if some operation failed, stops after some of them; the count says how many |
| `EmbedRefresh.StoredEmbedState` | cmd/embedtext.go:112-124 | The texts are those the tables determine, whatever order the rows were read in |
| `EmbedRefresh.BeginEmbedRefresh` | cmd/embedtext.go:132-142 | A snapshot is taken exactly in realtime mode and when the stored state can be read, and is that of the tables before the write |
| `EmbedRefresh.FinishEmbedRefresh` | cmd/embedtext.go:146-153 | An error of the refresh is a partial refresh, not an error of the run; without one it is full |
| `EmbedRefresh.GenerateEmbeddings` | cmd/index.go:342-393 | Requests of at most 64 texts embed the symbols in order; what was stored before an error is a prefix, and its length is returned; an error exactly when some operation failed |
| `EmbedRefresh.EmbedBatch` | cmd/index.go:363-388 | One request: its embeddings stored one by one up to the first failure |
| `EmbedRefresh.FreshExactly` | cmd/embedtext.go:155-180 | After a successful refresh a symbol's embedding is that of a rebuild exactly if a changed file holds the symbol, or its text moved, or its embedding was so before |
| `EmbedRefresh.CallersExactly` | cmd/embedtext.go:48-73 | In terms of the tables: a caller is shown for a call from another known and named symbol outside the tests, somebody is if there is such a call, and with fewer than three shown everybody is |
| `EmbedRefresh.TextMovesExactly` | cmd/embedtext.go:155-180 | A symbol of an unchanged file is embedded anew exactly if its three least caller names or its package's narrative differ from before the write |
| `EmbedRefresh.UpdateKeepsFresh` | cmd/embedtext.go:155-180 | If every embedding agreed with a rebuild before an update, so does every one after it, for changed files and for symbols elsewhere |
| `EmbedRefresh.RunKeepsFresh` | cmd/index.go:681-827 | So over any sequence of updates |
| `EmbedRefresh.MissedRefreshStays` | cmd/embedtext.go:144-153 | A symbol that a failed refresh did not reach is stale after any sequence of successful updates exactly if none of them holds it or moves its text |
| `EmbedRefresh.FreshAfterOne` | cmd/embedtext.go:155-180 | One update leaves an embedding fresh exactly if it was fresh, or the update holds the symbol or moves its text |
| `EmbedRefresh.RefreshMissed` | cmd/embedtext.go:144-153 | An index for which this happens: fresh, then an update whose refresh fails at once, then one that succeeds, and the symbol is stale |
| `EmbedRefresh.WriteKeeps` | internal/store/write.go:576-623 | A symbol the write did not bring keeps its row and its embedding |
| `EmbedRefresh.WriteExactly` | internal/store/write.go:576-669 | What an incremental write leaves: symbols of no affected file and the new ones, calls of no affected file and the new ones with both ends there, embeddings of symbols of no affected file |
| `EmbedRefresh.InsertedFirst` | internal/store/write.go:223-226 | Of the rows inserted under an ID the first one counts |
| `EmbedRefresh.DocTableLast` | internal/store/write.go:804-860 | Of two docs of a package the later one counts |
| `EmbedRefresh.ContextOfLoad` | internal/store/embed.go:16-73 | A context built from rows read in any order composes each symbol's text as the tables determine it |
| `FlowDiagram.BfsCallees` | cmd/diagram.go:573-600 | The nodes visited are exactly those within depth calls of the root in the fanout-truncated graph; each leaves the queue once, at its true distance, nearer ones first; the walk ends on cyclic graphs |
| `FlowDiagram.EdgesExact` | cmd/diagram.go:581-597 | The edges drawn are exactly the truncated calls out of nodes nearer than depth |
| `FlowDiagram.WithinIsPathLength` | cmd/diagram.go:573-600 | Within a distance means reached by a call path of at most that length |
| `FlowDiagram.FanIsFirst` | cmd/diagram.go:586-589 | The callees followed are the first ones, as many as the fanout, or all |
| `FlowDiagram.WithinBounded` | cmd/diagram.go:573-600 | With a fanout the walk meets at most 1 + fanout + ... + fanout^depth nodes |
| `FlowDiagram.NearIsVisited` | cmd/diagram.go:579-598 | Once all nearer nodes are expanded, everything within the distance has been visited |
| `FlowDiagram.TopNWithinFrontier` | cmd/diagram.go:519-551 | For n of at least 1 exactly min(n, visited) nodes are kept: the entry, if visited, and the best of the rest by score, ties by ID; never n+1; for n below 1 all |
| `FlowDiagram.TopNUnique` | cmd/diagram.go:519-551 | That leaves no choice of set |
| `FlowDiagram.KeptRankHigher` | cmd/diagram.go:525-545 | Every node kept but the entry has a higher score than every node dropped, or the same and a smaller ID |
| `FlowDiagram.FilterFlow` | cmd/diagram.go:555-569 | The kept nodes that were visited, and exactly the edges between two of them, as often as before and in their order |
| `WatchLoop.RunKeepsInv` | cmd/watch.go:77-200 | Over every run: at most one reindex outstanding and indexing says whether; no pending file twice; while files are pending a timer is armed or fired or a reindex is outstanding; every accepted change is pending, or in a reindex started after it that is outstanding, was answered (a success, or a failure taken before the cancellation, which the loop reports), or failed and was taken by the loop after the cancellation, silently; the outstanding reindex was started after every change that is not pending |
| `WatchLoop.KeptTrackStep` | cmd/watch.go:77-200 | Each step keeps track of each accepted change by itself, whatever befell others: pending, in the outstanding reindex, answered, or in a failed one that was taken silently |
| `WatchLoop.DrainCoversExactly` | cmd/watch.go:187-278 | Over every run, every outcome of the wait and every accepted change: after the drain it is answered for or in the final reindex exactly if it was answered before, or the drain does not give up waiting and the change is pending or in the outstanding reindex |
| `WatchLoop.DrainCoversAll` | cmd/watch.go:224-278 | A change is covered unless the drain gives up waiting, or the loop took the failed result of its reindex after the cancellation |
| `WatchLoop.DrainDrops` | cmd/watch.go:147-278 | A change that nothing answered for is lost, pending or not, when the drain gives up; otherwise, if it is not in the outstanding reindex, it is in the final one exactly if its file is pending |
| `WatchLoop.DrainReachesExactly` | cmd/watch.go:224-324 | A reindex goes over the whole directory: by name or not, a change has a reindex after it that is answered for, or is the final one, exactly if it had one answered for before, or the drain does not give up waiting and finds a reindex outstanding or a file pending |
| `WatchLoop.LastChangeLost` | cmd/watch.go:147-198 | A run that loses its last change: its reindex is killed, the select takes the result before the cancellation, and the drain starts nothing |
| `WatchLoop.FailureLost` | cmd/watch.go:147-198 | The same with a reindex that failed before the cancellation and whose result is taken after it: neither reported nor tried again |
| `WatchLoop.PendingLost` | cmd/watch.go:224-278 | A run that loses a pending change: the drain gives up waiting for the reindex of another file |
| `WatchLoop.EventExactly` | cmd/watch.go:79-135 | For every state and name: an event counts as a change exactly if the name ends in .go, has no tilde, and its last part between slashes does not start with a dot; the file is then pending, once, under its relative path, and the timer armed; any other event changes nothing |
| `WatchLoop.PendingStarts` | cmd/watch.go:137-175 | From any state the loop can be in with files pending, the timer running out and the outstanding reindex ending start a reindex of all of them |
| `WatchLoop.Loop.OnEvent` | cmd/watch.go:79-135 | The event case does what the machine's file event does |
| `WatchLoop.Loop.OnTimer` | cmd/watch.go:137-145 | The timer starts a reindex of all pending files unless there are none or one is running |
| `WatchLoop.Loop.OnResult` | cmd/watch.go:147-175 | A result ends the outstanding reindex and re-arms the timer if files are pending |
| `WatchLoop.Loop.Drain` | cmd/watch.go:224-278 | The drain leaves the history that the specification says, from every state the loop can be in; after a wait that used up the context no final reindex starts |
| `WatchLoop.Loop.Watch` | cmd/watch.go:77-200 | The loop over any sequence of ready cases is a run of the machine, and the invariant holds after it |
| `DdlScan.ScanFindsRawLiterals` | internal/dbschema/dbschema.go:189-257 | Over every sequence of Go comments, string, rune and raw literals, literals broken off by their line, elements open at the end, and other characters, the scan examines exactly the raw literals' bodies, in order |
| `DdlScan.EverySource` | internal/dbschema/dbschema.go:189-257 | Every text is such a sequence, so on any source whatever the scan examines exactly its raw literals' bodies |
| `DdlScan.OneToken` | internal/dbschema/dbschema.go:194-252 | From the start of a token the scan goes to its end and examines just a raw literal's body |
| `DdlScan.OverBlockComment` | internal/dbschema/dbschema.go:203-209 | A block comment ends at its own first end mark, also after a star |
| `DdlScan.OverQuoted` | internal/dbschema/dbschema.go:210-238 | A quoted literal ends at its quote, over escaped quotes and backslashes |
| `DdlScan.ExtractGoDDL` | internal/dbschema/dbschema.go:189-257 | The result joins, dedented and in order, exactly the examined literals that hold DDL; the scan always advances |
| `DdlScan.PartsExactly` | internal/dbschema/dbschema.go:239-252 | A part comes from a literal that holds DDL, and each such literal gives its part, in order |
| `DdlScan.DedentStringLines` | internal/dbschema/dbschema.go:260-262 | The lines of a dedented literal are its lines, dedented |
| `DdlScan.DedentStringTwice` | internal/dbschema/dbschema.go:260-262 | Dedenting a literal again changes nothing |
| `DdlScan.SkipQuoted` | internal/dbschema/dbschema.go:212-222 | The skip stops where the scan function says |
| `DdlText.DedentLines` | internal/dbschema/dbschema.go:302-328 | Every line loses the common indent of the non-blank lines if it starts with it |
| `DdlText.CommonIndentIndents` | internal/dbschema/dbschema.go:303-320 | The common indent is spaces and tabs, and every non-blank line starts with it |
| `DdlText.CommonIndentLongest` | internal/dbschema/dbschema.go:303-320 | No longer run of spaces and tabs is common to all non-blank lines |
| `DdlText.DedentRestores` | internal/dbschema/dbschema.go:321-328 | Putting the indent back restores every line that starts with it, so every non-blank one; other lines are as they were, and blank lines stay blank |
| `DdlText.DedentTwice` | internal/dbschema/dbschema.go:302-328 | A second pass changes nothing |
| `DdlText.CommonPrefix` | internal/dbschema/dbschema.go:339-350 | The loop computes the common prefix |
| `DdlText.CommonLongest` | internal/dbschema/dbschema.go:339-350 | No common prefix is longer |
| `DdlText.LeadingWhitespace` | internal/dbschema/dbschema.go:330-337 | The loop computes the leading spaces and tabs |
| `DdlText.IndentLongest` | internal/dbschema/dbschema.go:330-337 | No longer run of spaces and tabs starts the line |
| `DdlCompact.CompactDDL` | internal/dbschema/dbschema.go:265-297 | The loop with its flag computes the specification that the next rows are about |
| `DdlCompact.CodeKept` | internal/dbschema/dbschema.go:269-291 | Every line's code survives, in order, but for blank ones: the code is what comes before the first double dash, less the spaces and tabs that end it, or the whole line if it starts with a double dash |
| `DdlCompact.StrippedExactly` | internal/dbschema/dbschema.go:270-281 | What is kept of a line is its code, and no other text is |
| `DdlCompact.TrimSpaceExactly` | internal/dbschema/dbschema.go:292-292 | White space is taken from both ends, all of it, and nothing else |
| `DdlCompact.TidiedLines` | internal/dbschema/dbschema.go:269-292 | The tidied text has clean lines, no two blank ones in a row, none at either end |
| `DdlCompact.CompactNoTwoBlank` | internal/dbschema/dbschema.go:265-297 | The result has two blank lines in a row exactly if it was cut off in the white space that follows a blank line |
| `DdlCompact.CutAfterBlankLine` | internal/dbschema/dbschema.go:293-296 | A text for which that happens |
| `DdlCompact.CompactTwice` | internal/dbschema/dbschema.go:265-297 | A second pass leaves text that is not cut off unchanged |
| `DdlCompact.CompactBounded` | internal/dbschema/dbschema.go:293-296 | At most 6000 bytes and the note |
| `DriverPath.MatchesWholeSegments` | internal/c4/facts.go:128-139 | The four string tests hold exactly when the segments of match are a contiguous run of the segments of the path |
| `DriverPath.MatchIsRun` | internal/c4/facts.go:128-139 | Each test that holds gives such a run |
| `DriverPath.RunIsMatch` | internal/c4/facts.go:128-139 | Each such run makes one of the tests hold |
| `C4Facts.FindDatastores` | internal/c4/facts.go:338-412 | One datastore per technology some row is evidence of, by name; each has the driver of its first row, its distinct importers in order, the earliest place, and for each importer the earliest place of its own rows |
| `C4Facts.ScanRows` | internal/c4/facts.go:356-384 | The groups after the scan are those of the rows of each technology |
| `C4Facts.NamedExactly` | internal/c4/facts.go:356-384 | A datastore comes out exactly if there is a row for it |
| `C4Facts.EarliestIsFirst` | internal/c4/facts.go:700-708 | With every file named, the evidence kept is the first place by file and line |
| `C4Facts.EarliestOrderFree` | internal/c4/facts.go:700-708 | So the order of the rows does not matter |
| `C4Facts.UnnamedStartsOver` | internal/c4/facts.go:700-708 | A row with an empty file makes the search start over after it |
| `C4Facts.DatastoreOrderFree` | internal/c4/facts.go:338-412 | Evidence and places of a datastore are the same for every order of the import rows |
| `C4Facts.ListOrderMatters` | internal/c4/facts.go:102-115 | The order of the driver list makes no difference for a path exactly if all drivers it matches have one name |
| `C4Facts.AllowlistDisagrees` | internal/c4/facts.go:102-115 | For the list as it is there is an import path, matching a Redis and a Badger driver, that another order of the list makes evidence of another datastore |
| `C4Facts.MergeExternalSystems` | internal/c4/facts.go:633-680 | Every env system comes out once, merged with the first correlating import not yet taken if there is one; no import is taken twice; of the rest exactly the known services come out; all by name |
| `C4Facts.FirstPartner` | internal/c4/facts.go:638-651 | The first unused import whose token is the name and not empty, if any |
| `C4Facts.CombinedExactly` | internal/c4/facts.go:658-665 | A merged system has the env system's name, the evidence of both, and the earlier of their places |
| `PlanSites.PlanSignature` | cmd/plan.go:268-276 | Production and test sections together emit min(cap, all) sites, each section says what it dropped, tests come only when no production site was dropped, and each section groups a prefix of its references |
| `PlanSites.PlanPartitionRefs` | cmd/plan.go:355-364 | The two parts in their order |
| `PlanSites.PartsAddUp` | cmd/plan.go:355-364 | Each reference is in its part, and the parts add up |
| `PlanSites.PlanBuildCallSites` | cmd/plan.go:390-425 | The groups are those of the first references up to the cap; dropped, total and distinct packages are counted before the cut |
| `PlanSites.PkgsOnce` | cmd/plan.go:403-413 | No package is listed twice and none is left out |
| `PlanSites.SiteShows` | cmd/plan.go:404-424 | What is shown of a reference: its file, relative if known, its place and names, and its snippet trimmed of all white space around it |
| `PlanSites.GroupedKeepsAll` | cmd/plan.go:403-424 | Every shown reference is emitted exactly once |
| `PlanSites.OrderKeptExactly` | cmd/plan.go:384-424 | The groups read in turn give the references in their own order exactly if the references of each package stand together |
| `PlanSites.SortedNotContiguous` | cmd/plan.go:384-389 | References sorted by file where they do not: a file of a subdirectory between two files of its parent |

## Left out

- BatchProtocol.EveryBatchNamed: for runs in which the server reports only statuses the program knows and a CreateBatch that fails leaves nothing behind, as the code takes for granted; `UnknownStatusOrphans` and `FailedCreateOrphans` show what happens otherwise.
- BatchProtocol.CreatedWithBreadcrumb: index and embed-status runs do not overlap; the code does not lock the state file between processes.
- BatchSession.Session.Poll: embed-status on a breadcrumb asks the server for the empty ID (internal/embed/batch.go:311), which is taken to be answered with an error; an answer of any other body would overwrite the breadcrumb's status.
- BatchSession.Session.EmbedStatus: polls a given number of times and no more; waiting forever is every such number.
- BatchOutcomes.NotedBatchStands: an index run has one clock reading; the code notes the time anew when it writes the state, some moments later than its guards read it.
- Treemap.LayoutTreemap: says nothing about sizes of mixed sign whose sum is positive, which the report never passes; rounding of float64 is not modelled, nor the colour of a box.
- EmbedRefresh.GenerateEmbeddings: an embedding is known by the text it was made from; the client places each answer by its index and refuses an answer with gaps, so its skip of empty embeddings has no case here.
- EmbedRefresh.RunIncrementalIndex: the fallback to relative paths when no symbol has a changed file's absolute path, the other tables, and full index runs are not modelled.
- EmbedText.BuildEmbedContext: the first sentence of a package doc is a parameter.
- WatchLoop.RunKeepsInv: file events and timers come in any order; watching new directories, errors of the watcher and the events printed are not modelled.
- WatchLoop.DrainCoversExactly: whether the final reindex itself succeeds in what is left of the time; and a reindex that the loop starts after the cancellation may succeed here, though its subprocess cannot start then.
- C4Facts.FindDatastores: the representative driver of a datastore is that of its first row, so it does depend on the order of the rows.
- DdlScan.ExtractGoDDL: whether a literal holds DDL is a predicate; the regular expression is not modelled.
- DdlText.DedentLines: one char is one byte and white space is ASCII's six characters; Go's TrimSpace also takes Unicode white space.
- PlanSites.PlanBuildCallSites: filepath.Dir is a parameter.
- BatchState files that cannot be parsed (renamed or removed on loading), JSON encoding, atomic renames and lost writes of the file system.
- The status, counts and messages that commands print.
- `walk` in cmd/diagram.go: that each node is printed at most once would only add an easy member, and that each is printed is not so.
- `CheckDocStatus`: a near match makes no difference to its result, so the edit distance has no consequence there.
- SQL, HTTP, the keychain, fsnotify and the Go loader: their results are parameters or arbitrary.
- System-map edges, coupling counts, role and purpose heuristics, edits, and rendering: tables and plumbing without a deep invariant.
