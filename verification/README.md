# Verified model of ragrep

ragrep keeps a search index of a workspace that is being edited. Files on disk
become rows of a live overlay which hide the durable symbols extracted earlier;
confirmations and index runs later turn those rows into durable symbols. A
daemon shares workspaces, language servers, an embedder and document stores
between callers by leases. This project models that machinery in Dafny and
proves what it keeps. `dafny verify dfyconfig.toml` checks everything.

## What is modelled

- **The store** (`Codestore`, `UpsertOutcome`, `Postings`, `StoreObject`): the symbols
  table with its full-text, vector and edge shadows and the live overlay. Each SQL
  transaction is one step on a value; the class `Store` changes the same tables in
  place, may fail at any transaction or query, and counts its failures.
- **The live-overlay protocol** (`Overlay`, `OverlayProgress`, `RefreshRuns`,
  `Workspace`, `Commits`, `Barrier`): refreshes, confirmations, Index runs and the
  full-refresh barrier. Every critical section and every transaction is one step, in
  any interleaving. The abstract state is one map from path to visible content hash.
- **Search keys and rankings** (`LiveKeys`, `Ranking`, `Sorting`): what a search
  hands out and a get takes back, and how ranked lists are fused, pinned and
  greedily selected whatever order Go iterates its maps in.
- **Context packs** (`Overlaps`, `Packs`, `EndToEnd`): merging overlapping ranges,
  the character budget, the manifest and its later verification.
- **Lifecycles** (`Registry`, `RegistryGrants`, `RegistryRuns`, `RegistryObject`, `EmbeddingPool`,
  `LspPool`, `DocumentService`, `LspClient`): leases, epochs, stale timers,
  single-flight restores, close-once shutdown and pending requests.
- **Text** (`LineIndex`, `Declaration`, `SplitLines`,
  `Paragraphs`): UTF-16 positions and byte
  offsets, declaration names, paragraphs and frontmatter.
- **The evaluation ledgers** (`Ledger`, `LedgerObject`, `Dispatch`): the claims log
  and its replay, the hash chain and its repair after a crash, and the run keys.

Each state machine has a step function, an invariant every step keeps, and
theorems over all runs. Classes carry the same fields and change them step by
step; their methods are proved equal to the step functions, and the two refreshes
of `WorkspaceState`, which are many steps, to be runs of the protocol.

## Where the code falls short of its documentation

The model follows the code. Where a promise fails, the condition under which it
holds is proved, with an input outside it.

- A document with frontmatter is normalised twice before it is split but once for
  a reader, so a paragraph with a line ended by CR CR LF does not equal its
  fetched lines (`Paragraphs.TextIsFetchedIff`, `Paragraphs.MangledParagraph`).
- `assign_claim` looks for a thread among the results, not in the claims log: one
  thread assigned to two keys leaves a log that no longer replays
  (`Ledger.AssignReplaysIff`, `Ledger.SharedThreadCorrupts`).
- When the registry's `Add` waited for a restore and then cannot persist, it closes
  the workspace even if another caller has leased it meanwhile
  (`RegistryRuns.WakeGivesUpIff`, `RegistryRuns.LeasedWorkspaceClosed`).
- A declaration's position counts lines at LF only, the line index also at a lone
  CR (`Declaration.PositionMapsBackIff`, `Declaration.LoneCRMisplacesName`).
- Skipping the embedder on an unchanged body is right only while the container is
  unchanged (`Codestore.RenderFixedIffContainerFixed`,
  `Codestore.DottedNameBreaksSkip`), and declarations under one stored key leave
  a stale posting unless each has the columns of the stored row or of the last of
  them (`Postings.UpsertIndexesIff`, `Postings.SecondInitLeavesPosting`).
- Promoting a file makes its path disappear unless it has a symbol or its durable
  rows already carry the hash (`Overlay.PromotionVisibleIff`), and this is the only
  way in which a step fails to refine the view (`Overlay.StepRefinesViewIff`).
- A refresh that fails half way leaves a row that nobody confirms exactly when it
  had written that row and no confirmation of it is pending or running
  (`Overlay.StepTendsIff`, `Overlay.FailedWriteForgetsRow`). Its generation is used
  again, so a live key that is no longer valid can come back, exactly while its
  generation is above the workspace's (`Overlay.DeadKeyRevivesIff`,
  `Overlay.FailedWriteRevivesKey`).
- Index moves the view of a path exactly when no live row covers it and it is not
  yet what the prepared file makes of it (`Overlay.IndexMovesViewIff`), so a run
  that read a file before its deletion brings it back once the tombstone is gone
  (`Overlay.StaleIndexResurrects`).

## Hypotheses

- Language-server answers and embeddings are functions of the content; an embedder
  that answers, answers as one fixed model of the rendered text.
- Stable keys are an injective digest of their five fields, written in hexadecimal.
- The incoming symbols of one file have distinct keys, belong to that file, and
  have the container stored under an equal key. A path keeps its view through a
  promotion if its own file has a symbol; nothing is asked of other paths.
- The claim about confirmation coverage of a path is for runs in which no refresh
  fails after writing that path; runs whose store writes succeed are among them
  (`Overlay.SuccessSpares`). The view is refined, and a key whose generation has
  been reached stays dead, whatever fails.
- Merged ranges run forward, as extraction makes them (`LineIndex.ExtractBody`);
  `Overlaps.BackwardItemBreaksComponents` is three ranges, one of them backwards,
  for which no output is free of overlaps and the components.
- Ledger hashes have 64 characters and the canonical rendering tells rows apart;
  nothing is assumed about collisions.
- Scores are real numbers. Generations, epochs and ids are unbounded, except that
  a live key's generation is below 2^64.

## Model

| member | source | states |
|---|---|---|
| `Codestore.RenderFixedIffContainerFixed` | src/internal/codeindex/render.go:14-34 | under one key and one documentation, two symbols render to the same embedding text if and only if their containers are equal: when skipping the re-embed is right |
| `Codestore.DottedNameBreaksSkip` | src/internal/codestore/symbols.go:241-265 | two symbols with one key, documentation and body hash but different containers, for which the skipped embedding would be of another text |
| `Codestore.DeleteRowsAgree` | src/internal/codestore/symbols.go:197-214 | deleting any set of rows with their shadows keeps every shadow in agreement |
| `Codestore.InsertRowAgrees` | src/internal/codestore/symbols.go:216-239 | an inserted symbol has its columns in the text index and the model vector of its rendered text, and no other row moves |
| `Codestore.UpdateRowAgrees` | src/internal/codestore/symbols.go:241-278 | an updated symbol keeps its row id, gets exactly its new columns and the right vector even when the embedder is skipped |
| `Codestore.WriteRowsAgree` | src/internal/codestore/symbols.go:147-158 | writing a list of symbols diffed against rows read beforehand keeps the shadows in agreement, given distinct keys |
| `Codestore.UpsertRows` | src/internal/codestore/symbols.go:109-164 | a committed upsert leaves a path with exactly the incoming rows under the new hash, moves no row of another path, and keeps the shadows in agreement |
| `Codestore.UpsertDurable` | src/internal/codestore/symbols.go:109-164 | seen as a map from path to file hash, an upsert sets the path, or removes it when the file has no symbols and was not up to date |
| `Codestore.UpsertEdges` | src/internal/codestore/symbols.go:133-145 | an upsert drops the edges of the path's symbols that are gone, and no others |
| `Codestore.UpToDateIsDurable` | src/internal/codestore/symbols.go:114-125 | the fast path is taken exactly when the path is already shown at that hash |
| `UpsertOutcome.UpsertSucceeds` | src/internal/codestore/symbols.go:109-164 | an upsert of distinct symbols of the path fails only where a symbol cannot be embedded |
| `UpsertOutcome.EmbedsIff` | src/internal/codestore/symbols.go:216-278 | an update with the documentation and body it had keeps the vector without asking the embedder; every other write stores what the embedder gives, and fails without it |
| `UpsertOutcome.RenderIs` | src/internal/codeindex/render.go:14-34 | the text embedded is the declaration's fields that have a value, in their order, joined by line feeds |
| `Codestore.DeleteForPathDurable` | src/internal/codestore/symbols.go:476-496 | deleting a path removes it, and nothing else, from the durable view and keeps the shadows in agreement |
| `Codestore.DeleteIfLiveAgrees` | src/internal/codestore/symbols.go:502-538 | removing durable rows together with a matching tombstone keeps the shadows in agreement; otherwise nothing moves |
| `Codestore.RelateAgrees` | src/internal/codestore/symbols.go:620-653 | replacing edges of some kinds keeps every edge attached to a stored symbol |
| `Codestore.PutLiveFts` | src/internal/codestore/symbols.go:338-372 | after a live put the live index holds exactly the non-deleted live rows |
| `Codestore.ApplyAgrees` | src/internal/codestore/symbols.go:109-653 | each of the six transactions, a failed upsert included, keeps all shadows in agreement |
| `Codestore.RunsAgree` | src/internal/codestore/symbols.go:109-653 | after any sequence of transactions the text index, the vectors, the edges, the live index and the one hash per path all agree with the rows |
| `Postings.UpsertIndexesIff` | src/internal/codestore/symbols.go:109-158 | after an upsert the text index agrees with the rows if and only if each incoming symbol under a stored key has the columns of the row that was read or of the last incoming symbol with its key |
| `Postings.WritesHold` | src/internal/codestore/symbols.go:147-158 | at each point of the write loop the index holds every row's columns and those that earlier writes under the same key left behind |
| `Postings.SecondInitLeavesPosting` | src/internal/codestore/symbols.go:133-158 | a Go file whose one init function becomes two leaves a posting that no row has |
| `StoreObject.Store.PutLiveFile` | src/internal/codestore/symbols.go:324-372 | a successful put is the live-row write of the specification, a failed one changes nothing |
| `StoreObject.Store.PutLiveDeletion` | src/internal/codestore/symbols.go:332-372 | the same for a tombstone, whose body is empty |
| `StoreObject.Store.RemoveLiveFileIfHash` | src/internal/codestore/symbols.go:379-410 | removes the row exactly when it is live with that hash, and says so |
| `StoreObject.Store.DeleteSymbolsForPath` | src/internal/codestore/symbols.go:476-496 | the rows of the path go with their shadows, or nothing does |
| `StoreObject.Store.DeleteSymbolsForPathIfLiveHash` | src/internal/codestore/symbols.go:502-538 | acts, and reports acting, exactly when the path has a tombstone of that hash |
| `StoreObject.Store.UpsertSymbols` | src/internal/codestore/symbols.go:109-164 | on success the tables are the specification's upsert and `changed` is false exactly on the fast path; otherwise nothing changed, and the transaction failed or the upsert has no result |
| `StoreObject.Store.ExistingByKey` | src/internal/codestore/symbols.go:170-195 | the rows of a path indexed by key |
| `StoreObject.Store.ReplaceRelations` | src/internal/codestore/symbols.go:620-653 | replaces the edges of the given kinds, and does nothing for no kinds |
| `StoreObject.Store.DurableHashes` | src/internal/codestore/symbols.go:442-455 | one pass over the rows yields the path-to-hash map, given one hash per path, unless the query fails |
| `StoreObject.Store.ListPaths` | src/internal/codestore/symbols.go:297-313 | lists exactly the paths with a durable row, unless the query fails |
| `Workspace.RefreshReachesDisk` | src/cmd/ragrep/workspace.go:225-296 | from any store, a completed full refresh shows the disk under the roots, and a second one over the same files plans nothing |
| `Workspace.FullPlanIdempotent` | src/cmd/ragrep/workspace.go:253-271 | after a full refresh nothing counts as changed or deleted |
| `Workspace.RefreshWritesRows` | src/cmd/ragrep/workspace.go:253-285 | a completed full refresh gives every file that looked different a live row with its hash, its text and the new generation, every file that is gone a tombstone, and leaves all other live rows; a failed one did so for some paths |
| `Workspace.PathsWriteRows` | src/cmd/ragrep/workspace.go:539-575 | the same for the given paths, generated files counting as gone |
| `Workspace.PathsRefineFullIff` | src/cmd/ragrep/workspace.go:521-584 | refreshing given paths yields the full refresh's view if and only if every out-of-date path is among the arguments and no argument is a file enumeration skips |
| `Workspace.WorkspaceState.RefreshAll` | src/cmd/ragrep/workspace.go:225-296 | it completes exactly when the disk was read and no query or transaction failed; what it does is a run of the protocol that ends with the token free; on success the store has the planned rows and nothing else, the generation moved only if something was written, and each row is scheduled; otherwise only some planned rows were written |
| `Workspace.WorkspaceState.RefreshPaths` | src/cmd/ragrep/workspace.go:521-584 | the same for given paths, refused while a full refresh is required and failing on an argument that cannot be read |
| `RefreshRuns.RefreshIsRun` | src/cmd/ragrep/workspace.go:270-296 | writing rows in order, moving the generation and scheduling their confirmations in any order is a run of the protocol, whose end state is given |
| `RefreshRuns.FailedRefreshIsRun` | src/cmd/ragrep/workspace.go:275-285 | so is a refresh that stops at any failed write |
| `Workspace.PutsWritePlan` | src/cmd/ragrep/workspace.go:270-286 | the rows in whatever order amount to the plan, and a prefix of them to part of it |
| `Workspace.UnderIff` | src/cmd/ragrep/code.go:416-423 | a path is under a root exactly when the root is the workspace, the path itself or a directory above it |
| `Workspace.WorkspaceState.SortPaths` | src/cmd/ragrep/workspace.go:539-572 | the loop over path arguments sorts them into exactly the changed and the deleted ones, unless one under the roots cannot be read |
| `Workspace.WorkspaceState.PutFiles` | src/cmd/ragrep/workspace.go:275-280 | writes the changed files' rows in order, all of them or those before the first failure |
| `Workspace.WorkspaceState.PutTombstones` | src/cmd/ragrep/workspace.go:281-285 | writes the deleted paths' tombstones in order, all of them or those before the first failure |
| `Workspace.WorkspaceState.WriteAndSchedule` | src/cmd/ragrep/workspace.go:270-296 | writes the planned rows, then moves the generation, then schedules each row |
| `Workspace.WorkspaceState.ScheduleConfirmation` | src/cmd/ragrep/workspace.go:467-484 | queues or starts one confirmation of that path and hash, unless closed |
| `Workspace.WorkspaceState.SetConfirmation` | src/cmd/ragrep/workspace.go:452-465 | is the protocol's connecting step: starts everything pending and empties the pending set |
| `Workspace.WorkspaceState.constructor` | src/cmd/ragrep/workspace.go:100-150 | a new workspace is an opened state of the protocol, with a pending confirmation for every live row found |
| `Overlay.TransactionsRefineStore` | src/internal/codestore/symbols.go:109-538 | each SQL transaction, seen as live rows over durable hashes, is the protocol's atomic step of the same purpose |
| `Overlay.StepKeepsTidy` | src/cmd/ragrep/workspace.go:225-503 | every step, failures included, keeps the commit in progress tied to its job and to the row it saw |
| `Overlay.RunKeepsTidy` | src/cmd/ragrep/workspace.go:225-503 | so does every run |
| `Overlay.StepTendsIff` | src/cmd/ragrep/workspace.go:225-503 | every step keeps a path's row covered by a confirmation, except a refresh that fails, exactly when it wrote that row and no confirmation of it is pending or running |
| `Overlay.SuccessSpares` | src/cmd/ragrep/workspace.go:275-286 | in a run whose store writes succeed no refresh fails after writing any path |
| `Overlay.NoRowForgotten` | src/cmd/ragrep/workspace.go:452-503 | in every run before Close in which no refresh fails after writing the path, whenever the update token is free its live row or tombstone has a matching confirmation that is pending, or running and still bound to act on the row as it is |
| `Overlay.FailedWriteForgetsRow` | src/cmd/ragrep/workspace.go:275-286 | a run of an opened workspace in which a refresh fails at its second write and its first row is left with nobody to confirm it |
| `Overlay.StepRefinesViewIff` | src/cmd/ragrep/code_service.go:664-751 | the machine refines the map from path to visible hash at every transaction boundary, failed writes included: promotion and tombstone removal are invisible, a stale promotion is dropped; a step deviates if and only if it uncovers a path that has no durable rows of that content |
| `Overlay.StepKeepsBacked` | src/cmd/ragrep/code_service.go:744-751 | a commit whose promotion of the path yields rows has them when it uncovers the path |
| `OverlayProgress.ConfirmationPromotes` | src/cmd/ragrep/code_service.go:664-751 | an undisturbed confirmation of a live row promotes it, uncovers it, ends, and leaves the token free |
| `OverlayProgress.ConfirmationBuries` | src/cmd/ragrep/code_service.go:678-688 | an undisturbed confirmation of a tombstone removes it with the durable rows |
| `OverlayProgress.StaleConfirmationEnds` | src/cmd/ragrep/code_service.go:671-743 | a confirmation whose row is gone or changed ends at its first read, or at the second one under the token, without touching the store |
| `OverlayProgress.FailureRequeues` | src/cmd/ragrep/workspace.go:467-515 | a confirmation that fails, wherever it stands, gives the token back and waits again under its path and hash, unless the workspace is closed |
| `OverlayProgress.IndexTurn` | src/cmd/ragrep/code_service.go:498-538 | Index's turn for a file leaves a tombstone of its hash alone and otherwise promotes and uncovers it |
| `OverlayProgress.OtherSections` | src/cmd/ragrep/workspace.go:182-202 | a snapshot holds the token and changes nothing, pruning drops one path's durable rows, Close is for good, and a scheduled confirmation is started, or queued before the connection, or dropped once closed |
| `Overlay.LivePathKeepsView` | src/cmd/ragrep/code_service.go:498-538 | over any run of confirmations, Index runs, prunes and other refreshes, failed ones included, a path with a live row or tombstone looks the same up to and past the step that ends its row, if its own promotions yield rows |
| `Overlay.OpenedWorkspaceKeepsView` | src/cmd/ragrep/code_service.go:664-751 | after any run of an opened workspace that leaves the token free, and over any run from there that leaves the path alone, its view stays |
| `Overlay.PromotionVisibleIff` | src/cmd/ragrep/code_service.go:744-751 | promoting a file keeps its path visible if and only if it has a symbol or its durable rows already carry the hash |
| `Overlay.IndexMovesViewIff` | src/cmd/ragrep/code_service.go:510-530 | an Index upsert changes the view of its path if and only if no live row covers it, it does not show that hash yet, and the file has symbols or something was shown; no other path moves |
| `Overlay.StaleIndexResurrects` | src/cmd/ragrep/code_service.go:498-530 | once a tombstone is gone, an Index run that read the file before its deletion brings the path back exactly when the file has symbols |
| `Overlay.OverwrittenKeyStaysDead` | src/cmd/ragrep/workspace.go:270-286 | within one workspace lifetime a live key that is not valid and whose generation the workspace has reached is never valid again, whatever fails before or after |
| `Overlay.DeadKeyRevivesIff` | src/cmd/ragrep/workspace.go:270-286 | with the token free, a key that was valid and is not can become valid again on some continuation if and only if its generation is above the workspace's |
| `Overlay.SparedKeyStaysDead` | src/cmd/ragrep/workspace.go:270-286 | at any point, a key that stopped being valid stays so in runs in which no refresh fails after writing its path |
| `Overlay.FailedWriteRevivesKey` | src/cmd/ragrep/workspace.go:274-286 | a run in which two failed refreshes share a generation and a key becomes invalid and valid again |
| `Commits.ConfirmLive` | src/cmd/ragrep/code_service.go:728-751 | the commit of a confirmation promotes and uncovers a row that is still live with its hash, does nothing otherwise, fails only for a failed transaction or a symbol without a vector, and changes what a reader sees, failures included, of no path but its own and of that one only if the file has no symbols |
| `Commits.ConfirmTombstone` | src/cmd/ragrep/code_service.go:678-688 | the commit for a tombstone drops it with the durable rows, invisibly |
| `Commits.IndexFiles` | src/cmd/ragrep/code_service.go:510-533 | Index's loop is the protocol's skip, promote and uncover for each prepared file in order, repeated paths included, and fails only for a failed transaction or a symbol that cannot be embedded; it reports the paths it changed; at each point, failures included, a path with a live row whose preparations agree and have symbols looks as before |
| `Commits.IndexKeepsLiveView` | src/cmd/ragrep/code_service.go:510-533 | a path with a live row looks the same after any number of prepared files and half way through the next |
| `Commits.IndexMovesOthers` | src/cmd/ragrep/code_service.go:510-533 | a path without a live row gets what its preparations make of it, in order |
| `Commits.IndexSkipsTombstone` | src/cmd/ragrep/code_service.go:514-517 | a file deleted since it was prepared keeps its tombstone and its durable rows as they are |
| `Commits.ReindexedIff` | src/cmd/ragrep/code_service.go:514-530 | a file prepared once is reported, at its place in the order, if and only if it was not deleted since and the table does not already hold its content |
| `Commits.LastFileDecides` | src/cmd/ragrep/code_service.go:510-533 | which is the hash of its last preparation if that has symbols |
| `Commits.Prune` | src/cmd/ragrep/code.go:385-410 | of the durable paths the store lists, pruning removes exactly the unseen ones under the roots, or on a failed query or transaction exactly those it reports, and does not change the view of any other path or of one with a live row |
| `Commits.OthersPromotable` | src/internal/codestore/symbols.go:109-164 | promoting one file leaves the conditions for promoting any other, or the same one again, as they were |
| `Barrier.RequiredIffStale` | src/cmd/ragrep/workspace.go:204-223 | over every run the full-refresh flag is set exactly when the epoch exceeds the last cleanly refreshed one, and at most one refresh is in flight |
| `Barrier.BarrierMeansRefreshed` | src/cmd/ragrep/workspace.go:152-180 | a successful Barrier waited on a refresh created after the last requirement and completed cleanly; nothing is required at the check, and the reported generation lies between creation and check |
| `Barrier.AcceptedIffNothingRequiredSince` | src/cmd/ragrep/workspace.go:170-176 | a cleanly completed refresh is accepted if and only if no full refresh was required since it was created |
| `Barrier.CreationOf` | src/cmd/ragrep/workspace.go:160-166 | every refresh was created by one earlier Barrier call, which fixed its epoch |
| `Barrier.CompletionOf` | src/cmd/ragrep/workspace.go:204-223 | every finished refresh was finished by one earlier step, with its outcome and generation |
| `Barrier.EnterJoinsOrStarts` | src/cmd/ragrep/workspace.go:153-168 | Barrier joins the refresh in flight or starts one at the current epoch, and does nothing when closed |
| `Barrier.FinishSettles` | src/cmd/ragrep/workspace.go:204-223 | a refresh ends with its outcome and generation and frees its place; only a clean one of the current epoch clears the flag |
| `Barrier.OtherSections` | src/cmd/ragrep/workspace.go:445-450 | a requirement raises the epoch and makes earlier refreshes unacceptable, and Close is for good |
| `Barrier.RefreshGate.EnterBarrier` | src/cmd/ragrep/workspace.go:153-168 | joins the refresh in flight or starts one; refused exactly when closed |
| `Barrier.RefreshGate.CheckBarrier` | src/cmd/ragrep/workspace.go:170-178 | returns cleanly exactly on an accepted refresh, returns a failure at once, and otherwise goes round again |
| `Barrier.RefreshGate.FinishRefresh` | src/cmd/ragrep/workspace.go:210-222 | records the outcome, clears the flag only on a clean refresh of the current epoch, and frees the slot |
| `Barrier.RefreshGate.RequireFullRefresh` | src/cmd/ragrep/workspace.go:445-450 | after it no earlier refresh is acceptable |
| `LiveKeys.ParseInvertsFormatIff` | src/internal/codestore/symbols.go:881-895 | parsing inverts formatting, colons in the path included, if and only if the hash is non-empty and colon-free and the path non-empty |
| `LiveKeys.AcceptedKeysAreCanonical` | src/internal/codestore/symbols.go:885-895 | every key that parses names the same generation, hash and path as its canonical spelling |
| `LiveKeys.LiveKeyAcceptedIff` | src/internal/codestore/symbols.go:577-594 | a live key is accepted exactly while the row it was made from is in place and not deleted, and then answered with all of its text and one line more than it has line feeds |
| `LiveKeys.DurableKeyAccepted` | src/internal/codestore/symbols.go:561-573 | the key of a visible symbol is served with that symbol |
| `LiveKeys.SearchedKeysAreServed` | src/cmd/ragrep/code_service.go:126-191 | every hit of a search is served by a get under the same snapshot, by the file or symbol with the hit's path and lines |
| `LiveKeys.BodiesStayHashed` | src/internal/codestore/symbols.go:338-410 | any sequence of transactions keeps each live row's hash that of its body |
| `LiveKeys.LiveKeyKeepsBody` | src/internal/codestore/symbols.go:577-594 | two answers to one live key at any two points of a sequence of transactions have the same path and body, or the bodies collide under the file hash |
| `LiveKeys.SearchLiveText` | src/internal/codestore/symbols.go:833-879 | the live file the query names, exact, then the matches in their order, each exact as the token test says and naming the whole row; at most k hits with distinct paths |
| `LiveKeys.LineCountIs` | src/internal/codestore/symbols.go:895-922 | the line feeds of a text, which fix the last line of a live file, are counted |
| `LiveKeys.SearchHybrid` | src/internal/codestore/symbols.go:1191-1209 | each hit is a visible row by key, file, lines and fused score; exact matches come first, each half is ordered by score and then row id, and a listed row is left out only for k hits that come before it |
| `LiveKeys.SymbolHitsByIds` | src/internal/codestore/symbols.go:1090-1109 | the i-th hit is the i-th id's row: its key, file, lines, exactness and score |
| `Ranking.RrfMerge` | src/internal/codestore/symbols.go:1037-1055 | every listed id once with its reciprocal-rank score, by descending score and then id, whatever the map order |
| `Ranking.VotesByRank` | src/internal/codestore/symbols.go:1037-1055 | an item at rank r of a list gives it 1/(60 + r), and an item not listed nothing |
| `Ranking.PrioritizeExact` | src/internal/codestore/symbols.go:1057-1085 | the exact ids in score order, then the other candidates in theirs, cut to k |
| `Ranking.PinnedFirst` | src/internal/codestore/symbols.go:1057-1085 | no id twice, exact ids first and in order, and an exact id missing only when all k places went to exact ids |
| `Ranking.RestInOrder` | src/internal/codestore/symbols.go:1057-1085 | the candidates that are not exact keep their ranking, and an id is left out only for k ids that come before it |
| `Ranking.PinnedOrderIrrelevant` | src/internal/codestore/symbols.go:1002-1010 | the order in which the database lists exact matches does not show in the result |
| `Ranking.RankingIsStrict` | src/cmd/ragrep/code_service.go:799-807 | the ranking by exactness, score and key is a strict total order on candidates with distinct keys |
| `Ranking.LexLessIff` | src/cmd/ragrep/code_service.go:799-807 | keys compare by their first difference, and a prefix comes first |
| `Ranking.MergedMeans` | src/cmd/ragrep/code_service.go:781-794 | one candidate per key, its first hit with durable before live, scored by its ranks in both lists |
| `Ranking.MergeServiceHits` | src/cmd/ragrep/code_service.go:781-819 | the hits are a selection of the ranked candidates: ranked order, no overlaps, at most k, and every one left out overlaps a better-ranked hit or comes after k were chosen |
| `Ranking.MergeDetermined` | src/cmd/ragrep/code_service.go:781-819 | the same two lists give the same hits whatever the map iteration order |
| `Ranking.HitsAreDistinct` | src/cmd/ragrep/code_service.go:781-819 | the hits come from the lists, have distinct keys, do not overlap, and are ordered by exactness, then score, then key |
| `Ranking.OverlapsServiceHit` | src/cmd/ragrep/code_service.go:821-828 | true exactly when some hit of the same path shares a line span |
| `Ranking.OverlappingIff` | src/cmd/ragrep/code_service.go:821-828 | two hits that span lines overlap if and only if some line of one file is in both, ends not counting |
| `Ranking.Select` | src/cmd/ragrep/code_service.go:809-818 | the greedy loop computes such a selection |
| `Sorting.SortedUnique` | src/cmd/ragrep/code_service.go:799-807 | under an asymmetric order there is one sorted arrangement of a set of elements |
| `Overlaps.CollapseOverlaps` | src/internal/coderetrieval/context.go:190-216 | the fixpoint loop ends with no two survivors overlapping and, for ranges that run forward, keeps each survivor the hull of a connected group |
| `Overlaps.MergeOverlapping` | src/internal/coderetrieval/context.go:181-188 | the survivors never overlap; for ranges that run forward they are exactly the connected components, first-seen value, hull range, first-seen order |
| `Overlaps.MergedDetermined` | src/internal/coderetrieval/context.go:181-188 | that specification determines the output |
| `Overlaps.CoverageKept` | src/internal/coderetrieval/context.go:169-180 | merging neither adds nor loses a covered line of any path |
| `Overlaps.BackwardItemBreaksComponents` | src/internal/coderetrieval/context.go:190-216 | for one list of three ranges, one of them backwards, no output is both free of overlaps and the components |
| `Overlaps.HullMeetsMember` | src/internal/coderetrieval/context.go:190-216 | a range that meets the hull of a connected group meets one of its members |
| `Overlaps.ComponentUnique` | src/internal/coderetrieval/context.go:169-180 | components that share an item are equal |
| `Registry.StepKeepsInv` | src/cmd/ragrep/daemon.go:253-879 | every critical section, timer firing, restore step and close keeps the ownership, lease-count, restore and timer invariants |
| `RegistryGrants.AcquireCodeLeases` | src/cmd/ragrep/daemon.go:589-650 | AcquireCode leases an open, listed workspace, the one there was if any, exactly when the registry is open and it is there or opens: one new holder counted, nobody else's changed, and no timer able to evict it |
| `RegistryGrants.ResolveCodeServes` | src/cmd/ragrep/daemon.go:493-529 | ResolveCode gives an open, listed workspace in the same cases, and no lease |
| `RegistryGrants.AcquireLeases` | src/cmd/ragrep/daemon.go:531-586 | Acquire waits for a pending restore, and otherwise leases an open, listed workspace exactly when the root is not being removed and the workspace is there or opens |
| `RegistryGrants.ResolveServes` | src/cmd/ragrep/daemon.go:431-491 | Resolve waits, or gives an open, listed workspace, without a lease |
| `RegistryGrants.WakeLeasesIff` | src/cmd/ragrep/daemon.go:548-570 | a caller parked in Acquire gets its lease exactly when the restore succeeded, the registry is open, the entry is still listed and wanted, and the workspace is there or opens |
| `RegistryGrants.AddPins` | src/cmd/ragrep/daemon.go:253-330 | Add leaves an open, listed, pinned workspace when it opens and the list of roots persists, and gives no lease |
| `RegistryGrants.RootRefusals` | src/cmd/ragrep/daemon.go:548-585 | a root being removed is refused without any change, and one that does not open is forgotten unless pinned |
| `RegistryGrants.CodeRefusals` | src/cmd/ragrep/daemon.go:617-627 | a code workspace that does not open is forgotten |
| `RegistryGrants.AddRefused` | src/cmd/ragrep/daemon.go:253-330 | an Add that cannot open forgets an entry it made and leaves one it found |
| `RegistryGrants.NobodyElseLeases` | src/cmd/ragrep/daemon.go:253-879 | no removal, release, timer, restore or shutdown section hands out a lease |
| `RegistryGrants.FireClosesIff` | src/cmd/ragrep/daemon.go:732-776 | a timer's callback closes its entry exactly when that is listed, unleased, unpinned and at the timer's epoch in an open registry, and otherwise changes nothing |
| `RegistryGrants.CloseTakesAll` | src/cmd/ragrep/daemon.go:822-850 | Close hands over every listed entry, and each is then closed in its turn |
| `RegistryRuns.OpenedExactlyOnce` | src/cmd/ragrep/daemon.go:253-879 | in every reachable state each opened workspace is in use by one listed entry, in flight, about to be closed or closed, exactly one of the four, and is closed at most once |
| `RegistryRuns.NothingStaysOpen` | src/cmd/ragrep/daemon.go:822-850 | once closed and drained, every workspace the registry opened has been closed exactly once |
| `RegistryRuns.IdleIsScheduled` | src/cmd/ragrep/daemon.go:732-754 | a listed open workspace nobody pinned or leases always has a current eviction due |
| `RegistryRuns.RestoreIsSingleFlight` | src/cmd/ragrep/daemon.go:397-429 | at most one restore is in flight for an entry, and nothing else opens it meanwhile |
| `RegistryRuns.LeasedIsKept` | src/cmd/ragrep/daemon.go:335-372 | eviction, Remove, release and every other step but Close and Add's rollback give up a workspace in use only when nobody else holds a lease on it |
| `RegistryRuns.WakeGivesUpIff` | src/cmd/ragrep/daemon.go:303-330 | the section after a wait gives up the entry's workspace if and only if it is an Add that pins nothing and cannot persist; the lease count plays no part |
| `RegistryRuns.AddTailGivesUpIff` | src/cmd/ragrep/daemon.go:288-333 | Add gives up its entry's workspace if and only if it cannot persist a new pin and either made the entry or found it unopened |
| `RegistryRuns.LeasedWorkspaceClosed` | src/cmd/ragrep/daemon.go:303-330 | a run in which a leased workspace is handed to be closed by another caller's failed Add |
| `RegistryRuns.EvictedOnlyAfterIdling` | src/cmd/ragrep/daemon.go:732-776 | a timer that evicts was armed when its entry was idle, and the entry stayed listed, unpinned, unleased and at that epoch until it fired |
| `RegistryRuns.LoadedInv` | src/cmd/ragrep/daemon.go:183-220 | the registry read from its file satisfies the invariant |
| `RegistryObject.AcquireGrants` | src/cmd/ragrep/daemon.go:548-586 | an acquire yields one counted lease on a listed open workspace and makes every earlier timer stale |
| `RegistryObject.ReleaseSettles` | src/cmd/ragrep/daemon.go:648-667 | returning a lease closes the entry exactly when it was being removed and this was the last; otherwise it stays listed with the right count |
| `RegistryObject.RemoveSettles` | src/cmd/ragrep/daemon.go:335-372 | a removed root is closed at once if unleased, and otherwise keeps its holders and refuses new leases |
| `RegistryObject.WorkspaceRegistry.AddLocked` | src/cmd/ragrep/daemon.go:288-333 | Add's section on the object, with its success exactly when open and pin both succeed |
| `RegistryObject.WorkspaceRegistry.RollBack` | src/cmd/ragrep/daemon.go:311-330 | the rollback leaves the state the specification gives, detaching a workspace it opened |
| `RegistryObject.WorkspaceRegistry.AcquireLocked` | src/cmd/ragrep/daemon.go:565-586 | grants exactly when the entry is not being removed and is or can be opened |
| `RegistryObject.WorkspaceRegistry.AcquireCodeLocked` | src/cmd/ragrep/daemon.go:617-634 | the section of AcquireCode for its own database, with the lease it grants or refuses |
| `RegistryObject.WorkspaceRegistry.ReleaseLease` | src/cmd/ragrep/daemon.go:648-667 | the release section on the object |
| `RegistryObject.WorkspaceRegistry.Remove` | src/cmd/ragrep/daemon.go:335-372 | unpins exactly a pinned root whose new list persists |
| `RegistryObject.WorkspaceRegistry.Evict` | src/cmd/ragrep/daemon.go:756-776 | acts exactly when its epoch is current and the entry is listed, unleased, unpinned and the registry open |
| `RegistryObject.WorkspaceRegistry.ScheduleEviction` | src/cmd/ragrep/daemon.go:732-754 | arms a timer with a new epoch unless the entry is pinned, leased or being removed |
| `RegistryObject.WorkspaceRegistry.BeginRestore` | src/cmd/ragrep/daemon.go:397-407 | claims the entry's restore slot exactly when there is something to restore |
| `RegistryObject.WorkspaceRegistry.FinishRestore` | src/cmd/ragrep/daemon.go:409-429 | keeps the opened workspace exactly when the root still wants it, and hands it to be closed otherwise |
| `RegistryObject.WorkspaceRegistry.Close` | src/cmd/ragrep/daemon.go:822-850 | takes every entry to be closed and leaves none listed |
| `LineIndex.NewLineIndex` | src/internal/codeindex/extract.go:192-206 | the starts are exactly the positions after a line break, in order |
| `LineIndex.LineShape` | src/internal/codeindex/extract.go:241-261 | a line is its bytes, free of line breaks, followed by one terminator or, on the last line, none |
| `LineIndex.LinesPartitionContent` | src/internal/codeindex/extract.go:192-261 | lines and terminators in order are the content |
| `LineIndex.DecodeInvertsEncode` | src/internal/codeindex/extract.go:225-233 | decoding inverts UTF-8 encoding of every scalar value, whatever follows |
| `LineIndex.UnitsOfText` | src/internal/codeindex/extract.go:225-233 | the units counted over a well-formed text are its UTF-16 length |
| `LineIndex.Column` | src/internal/codeindex/extract.go:220-236 | the loop finds the first rune boundary with that many units before it, or the end of the line |
| `LineIndex.Offset` | src/internal/codeindex/extract.go:212-238 | fails exactly on a line out of range or a negative character, and otherwise gives that column's offset |
| `LineIndex.OffsetInvertsUnits` | src/internal/codeindex/extract.go:212-238 | asking for the column that counts the units before a rune boundary gives the boundary back, on any bytes |
| `LineIndex.OffsetOfText` | src/internal/codeindex/extract.go:212-238 | on well-formed text the offset of a UTF-16 column is the UTF-8 length of the characters before it |
| `LineIndex.OffsetMonotone` | src/internal/codeindex/extract.go:212-238 | offsets follow the order of positions |
| `LineIndex.ExtractBody` | src/internal/codeindex/extract.go:108-121 | fails exactly on a position out of range or an end before the start, which ordered positions never are; otherwise the bytes between the two offsets |
| `Declaration.IndexWholeWord` | src/cmd/ragrep/code.go:668-688 | the first whole-word occurrence, or none when there is none |
| `Declaration.IdentBytes` | src/cmd/ragrep/code.go:690-692 | identifiers are made of ASCII letters, digits and the underscore |
| `SplitLines.SplitJoins` | src/cmd/ragrep/code.go:655-670 | the lines searched hold no line feed and joined by line feeds are the content |
| `Declaration.DeclarationPosition` | src/cmd/ragrep/code.go:645-663 | the first whole-word occurrence of the name's last segment on the declaration's lines, counted in UTF-16 units, or the fallback |
| `Declaration.PositionMapsBackIff` | src/cmd/ragrep/code.go:645-663 | the position resolves back to the name's byte if and only if no lone carriage return comes before it, for a name that starts a rune |
| `Declaration.LoneCRMisplacesName` | src/cmd/ragrep/code.go:645-699 | in a CR b the name b is byte 2 and its position leads to byte 1 |
| `Declaration.PositionResolves` | src/cmd/ragrep/code.go:645-663 | the line of such a position is always one the index has |
| `Declaration.TrimCRIs` | src/cmd/ragrep/code.go:655-660 | one carriage return at the end of a line, if there is one, is not part of it |
| `Ledger.ReclaimedOnlyAfterRelease` | tools/unity_eval/measure_cases.py:519-545 | in a log that replays, a key claimed twice was recovered or closed in between |
| `Ledger.ThreadAssignedOnce` | tools/unity_eval/measure_cases.py:531-535 | in a log that replays, a thread is assigned once |
| `Ledger.RunsStaySound` | tools/unity_eval/measure_cases.py:548-890 | under any sequence of claims, fresh assignments, recoveries, records cut short after any append, verifications and archivings, the log replays, no key or thread has two results that count, and the chain lacks at most its last row |
| `Ledger.StepKeepsSound` | tools/unity_eval/measure_cases.py:548-890 | each operation, refused or cut short, keeps that |
| `Ledger.VerifyRestoresChain` | tools/unity_eval/measure_cases.py:694-716 | verification then succeeds and leaves the full chain, only ever adding to it |
| `Ledger.RecordKeepsSound` | tools/unity_eval/measure_cases.py:834-843 | a crash after any of the three appends of a record leaves ledgers that verify |
| `Ledger.AssignReplaysIff` | tools/unity_eval/measure_cases.py:568-580 | an accepted assignment keeps the log replayable if and only if its thread is non-empty and was never assigned |
| `Ledger.SharedThreadCorrupts` | tools/unity_eval/measure_cases.py:568-580 | assigning one fresh thread to two claimed keys is accepted twice and leaves a log that no longer replays |
| `Ledger.DoneIsNotReclaimed` | tools/unity_eval/measure_cases.py:847-866 | a key with a result that counts is never handed out again |
| `Ledger.TipPinsLedger` | tools/unity_eval/measure_cases.py:597-605 | ledgers ending in the same chain hash are equal, or exhibit a digest collision or a preimage of the genesis value |
| `Ledger.VerifiedChainPinsResults` | tools/unity_eval/measure_cases.py:694-722 | two sets of results that verify against one complete chain are equal, or breach the digest |
| `Ledger.ClaimsReplay` | tools/unity_eval/measure_cases.py:560-565 | claiming distinct inactive keys keeps the log replayable |
| `Ledger.PendingIs` | tools/unity_eval/measure_cases.py:857-866 | the pending keys are the dispatched ones that are neither done nor active, each once |
| `Ledger.PendingInOrder` | tools/unity_eval/measure_cases.py:847-866 | the rows handed out stand at increasing positions of the dispatch list, are free of counting results and claims in force, and one that could be handed out is left out only for `limit` rows before it |
| `Ledger.ReplaysIff` | tools/unity_eval/measure_cases.py:519-548 | the claims log replays if and only if every event is legal after the latest earlier one about its key: claims of new or given-up keys, assignments of unused threads to claimed keys, recoveries of claimed keys, closings by the assigned thread |
| `Ledger.StandsAtIff` | tools/unity_eval/measure_cases.py:519-548 | the state of a key after replay is the latest event about it |
| `LedgerObject.RunLedger.ClaimStates` | tools/unity_eval/measure_cases.py:519-545 | the replay loop accepts exactly the logs the specification accepts and returns the same states |
| `LedgerObject.RunLedger.VerifyResults` | tools/unity_eval/measure_cases.py:694-747 | succeeds exactly on readable ledgers with unique results and matching archive, repairing a lost chain row |
| `LedgerObject.CompareChain` | tools/unity_eval/measure_cases.py:703-715 | accepts exactly a prefix of the results' chain with known rows, and completes it |
| `LedgerObject.RunLedger.PendingRuns` | tools/unity_eval/measure_cases.py:847-866 | the first available keys in dispatch order, at most `limit` |
| `LedgerObject.RunLedger.ClaimRuns` | tools/unity_eval/measure_cases.py:551-571 | hands out those keys and appends one claim event for each, in order |
| `LedgerObject.RunLedger.AssignClaim` | tools/unity_eval/measure_cases.py:574-588 | accepted exactly when the log is legal, the key's latest event is a claim and no result has the thread; appends the assignment |
| `LedgerObject.RunLedger.RecoverClaim` | tools/unity_eval/measure_cases.py:591-605 | accepted exactly when the log is legal and the key's latest event is a claim; appends the recovery |
| `LedgerObject.RunLedger.RecordResult` | tools/unity_eval/measure_cases.py:750-844 | accepted exactly for an assigned key without a result that counts; whichever of its appends reach the disk are the specification's |
| `LedgerObject.RunLedger.MarkArchived` | tools/unity_eval/measure_cases.py:869-890 | accepted exactly for a recorded pair whose thread is not archived yet |
| `Dispatch.BuildDispatch` | tools/unity_eval/measure_cases.py:73-102 | every item stands where its condition, repetition and shuffled position put it, and there is one for each |
| `Dispatch.EveryRunDispatched` | tools/unity_eval/measure_cases.py:97-102 | every condition runs every repetition of every shuffled question, at that place |
| `Dispatch.RunKeyInjective` | tools/unity_eval/measure_cases.py:93 | a run key determines its condition, repetition and question id |
| `Dispatch.DispatchKeysDistinct` | tools/unity_eval/measure_cases.py:73-102 | with distinct question ids all run keys are distinct |
| `EmbeddingPool.ClosedOutsideEmbed` | src/cmd/ragrep/resource_pool.go:44-122 | an embedder is never closed during its own Embed, nor twice, nor used after |
| `EmbeddingPool.NothingStaysOpen` | src/cmd/ragrep/resource_pool.go:104-122 | once closed and quiet, the one embedder ever constructed has been closed |
| `EmbeddingPool.StepKeepsInv` | src/cmd/ragrep/resource_pool.go:44-122 | each section keeps every embedder in one place: in the pool, on its way to be closed, or closed |
| `EmbeddingPool.EmbedStartsIff` | src/cmd/ragrep/resource_pool.go:57-80 | Embed runs an embedder exactly when the pool is open and has or makes one |
| `EmbeddingPool.WhoCloses` | src/cmd/ragrep/resource_pool.go:82-122 | the embedding goroutine closes its embedder exactly when Close came meanwhile, Close exactly when it found it idle |
| `EmbeddingPool.LockAndUnlock` | src/cmd/ragrep/resource_pool.go:57-122 | the pool's lock is had by one call at a time and given back with nothing else changed |
| `EmbeddingPool.EmbedderPool.BeginEmbed` | src/cmd/ragrep/resource_pool.go:57-74 | starts an embedding exactly when not closed and an embedder exists or can be made |
| `EmbeddingPool.EmbedderPool.EndEmbed` | src/cmd/ragrep/resource_pool.go:82-94 | the finishing goroutine closes the embedder exactly when the pool was closed meanwhile |
| `EmbeddingPool.EmbedderPool.Close` | src/cmd/ragrep/resource_pool.go:104-122 | leaves an active embedder to its goroutine and takes an idle one |
| `LspPool.IdleClosesUnleased` | src/cmd/ragrep/resource_pool.go:239-250 | closeIdle closes a server only when nobody holds it, and none twice |
| `LspPool.ClosedOnlyAfterIdling` | src/cmd/ragrep/resource_pool.go:225-250 | a callback that closes a server was armed by the release that left it idle, with no lease granted since |
| `LspPool.NothingStaysOpen` | src/cmd/ragrep/resource_pool.go:252-273 | once closed and drained, every server started has been closed exactly once |
| `LspPool.StepKeepsInv` | src/cmd/ragrep/resource_pool.go:186-273 | each section keeps every server listed, about to be closed or closed, with leases counted by their holders |
| `LspPool.AcquireGrantsIff` | src/cmd/ragrep/resource_pool.go:198-223 | Acquire grants one counted lease on a listed server, the one there was if any, exactly when the pool is open and the server is there or starts; no timer can close it then |
| `LspPool.ReleaseGivesBack` | src/cmd/ragrep/resource_pool.go:225-237 | a release removes its holder; the last one arms a timer and makes all earlier ones stale |
| `LspPool.CloseIdleIff` | src/cmd/ragrep/resource_pool.go:239-250 | a callback closes its server exactly when that is listed, unleased and at the timer's generation |
| `LspPool.CloseTakesAll` | src/cmd/ragrep/resource_pool.go:252-273 | Close takes every listed server, and each is closed in its turn |
| `LspPool.ServerPool.AcquireServer` | src/cmd/ragrep/resource_pool.go:198-223 | grants exactly when open and the server is there or starts |
| `LspPool.ServerPool.ReleaseServer` | src/cmd/ragrep/resource_pool.go:225-237 | gives the lease back, arming a new timer at zero |
| `LspPool.ServerPool.CloseIdleServer` | src/cmd/ragrep/resource_pool.go:239-250 | closes exactly a listed, unleased entry at the timer's generation |
| `DocumentService.ClosedAfterLastLease` | src/cmd/ragrep/document_service.go:180-214 | a store is closed only when its last lease is back, once, and no lease is granted afterwards |
| `DocumentService.NothingStaysOpen` | src/cmd/ragrep/document_service.go:180-214 | when Close is done, every store ever opened has been closed exactly once |
| `DocumentService.LastReleaseOpensTheWay` | src/cmd/ragrep/document_service.go:148-158 | a release never closes a closed channel, and the last one closes it |
| `DocumentService.StepKeepsInv` | src/cmd/ragrep/document_service.go:70-214 | each section keeps leases counted by holders and the channel closed exactly without leases |
| `DocumentService.LookJoinsOrOpens` | src/cmd/ragrep/document_service.go:79-96 | a caller joins its key's entry or makes one to open, and is refused once Close has begun |
| `DocumentService.OpenPublishes` | src/cmd/ragrep/document_service.go:98-109 | the creator publishes its store or its failure, and a failed entry is forgotten |
| `DocumentService.GrantIff` | src/cmd/ragrep/document_service.go:129-146 | a lease is granted exactly on an opened store of an open service to a caller that has not given up |
| `DocumentService.WakeGoesOn` | src/cmd/ragrep/document_service.go:111-127 | a waiting caller goes on to its grant once its entry is ready, or is gone when it gave up |
| `DocumentService.ReleaseReturns` | src/cmd/ragrep/document_service.go:148-158 | a release removes its holder, and the channel is closed exactly without holders |
| `DocumentService.CloserGoesOn` | src/cmd/ragrep/document_service.go:180-214 | Close takes every listed entry, waits for each in turn and closes each opened store in turn |
| `DocumentService.Stores.LookUp` | src/cmd/ragrep/document_service.go:79-96 | creates the entry for the first caller and refuses everyone once closed |
| `DocumentService.Stores.FinishOpen` | src/cmd/ragrep/document_service.go:98-109 | publishes the opened store, or its failure, and forgets a failed entry |
| `DocumentService.Stores.GrantLease` | src/cmd/ragrep/document_service.go:129-146 | grants only an open store of an open service |
| `DocumentService.Stores.ReleaseLease` | src/cmd/ragrep/document_service.go:148-158 | gives the lease back, closing the channel exactly at zero |
| `Paragraphs.SplitParas` | src/internal/store/split.go:32-61 | exactly the maximal runs of non-blank lines, numbered in order, each with the join of its lines and the heading trail at its end |
| `Paragraphs.EachLineOnce` | src/internal/store/split.go:32-61 | every non-blank line is in exactly one paragraph and a blank line in none |
| `Paragraphs.SplitIsUnique` | src/internal/store/split.go:32-61 | a document has one such split |
| `Paragraphs.CrumbsBounded` | src/internal/store/split.go:16-30 | the heading trail is never deeper than six, nor than its last heading's level |
| `Paragraphs.HeadingUpdateIs` | src/internal/store/split.go:16-30 | a heading of level n cuts the trail to n - 1 and adds its trimmed text; any other line leaves it alone |
| `Paragraphs.TrimSpaceIs` | src/internal/store/split.go:23-25 | trimming cuts the spaces at both ends and nothing else |
| `Paragraphs.FrontmatterEnd` | src/internal/store/frontmatter.go:8-18 | the first closing delimiter of a leading block, or none |
| `Paragraphs.BlankLines` | src/internal/store/frontmatter.go:36-42 | the first n lines become empty and the others stay |
| `Paragraphs.SourceLines` | src/internal/store/store.go:171-180 | blanking the frontmatter keeps the number of lines and which later lines are blank |
| `Paragraphs.RejoinedLines` | src/internal/store/frontmatter.go:36-42 | lines joined and read again have lost a trailing carriage return each, all but the last |
| `Paragraphs.TextIsFetchedIff` | src/cmd/ragrep/main.go:686-698 | a paragraph's text is what its line range fetches if and only if the document has no frontmatter or no line of the paragraph is ended by CR CR LF |
| `Paragraphs.MangledParagraph` | src/internal/store/store.go:171-180 | a document whose paragraph text differs from its fetched lines |
| `LspClient.IdsNeverReused` | src/internal/lsp/client.go:226-237 | a request id is given out once, and none on a dead connection |
| `LspClient.SendNeverBlocks` | src/internal/lsp/client.go:161-184 | whenever the read loop sends on a call's channel its one slot is empty, and no second send follows |
| `LspClient.NobodyLeftWaiting` | src/internal/lsp/client.go:99-134 | when the read loop has ended every call still waiting has one result to receive, every call pending at death was failed exactly once, and none is registered later |
| `LspClient.ReplyReachesCall` | src/internal/lsp/client.go:161-184 | a reply to a pending call is the read loop's next send: to that call and no other, which then has its value to receive and is never failed |
| `LspClient.UnknownReplyIsDropped` | src/internal/lsp/client.go:161-178 | a reply nobody waits for changes nothing |
| `LspClient.CallEnds` | src/internal/lsp/client.go:239-267 | receiving a result ends a call, and giving up forgets it; no other call is touched |
| `LspClient.DeathFailsPending` | src/internal/lsp/client.go:116-134 | at death exactly the pending calls are failed, one send each |
| `LspClient.StepKeepsInv` | src/internal/lsp/client.go:99-267 | every step keeps each waiting call owed exactly one value |
| `LspClient.Connection.BeginCall` | src/internal/lsp/client.go:226-237 | registers a fresh id, or none once dead |
| `LspClient.Connection.TakePending` | src/internal/lsp/client.go:161-184 | finds the call exactly when it is pending, and takes it out |
| `LspClient.Connection.GiveUp` | src/internal/lsp/client.go:239-266 | a call that gives up is no longer pending |
| `LspClient.Connection.FailPending` | src/internal/lsp/client.go:116-133 | the loop fails each pending call once and changes nothing else |
| `Packs.StageCharges` | src/internal/coderetrieval/context.go:81-139 | a stage charges exactly what it keeps, never beyond the budget, and records everything it leaves out |
| `Packs.KeptIffFits` | src/internal/coderetrieval/context.go:81-139 | an item is kept exactly when it fits beside what was kept of the items before it |
| `Packs.ContextPack.TryAdd` | src/internal/coderetrieval/context.go:129-139 | adds the cost, or records the item as skipped, exactly by whether it fits |
| `Packs.ContextPack.AddAll` | src/internal/coderetrieval/context.go:84-121 | a stage's loop computes that selection |
| `Packs.MergedFromSnapshot` | src/internal/coderetrieval/context.go:101-108 | merging overlapping selected symbols keeps each survivor one the snapshot served |
| `Packs.BuildManifest` | src/cmd/ragrep/code.go:963-989 | one entry per symbol in order, the live hash for live keys and the stored hash for the others, failing exactly on a missing stored hash |
| `Packs.RunCodeVerify` | src/cmd/ragrep/code.go:1110-1156 | one entry per reference, each file read once, and clean exactly when every entry is fresh and resolved |
| `Packs.ResolveRefIs` | src/internal/coderetrieval/manifest.go:110-132 | a reference whose key is stored stays as it is; otherwise it moves to the one symbol of its name in its file, and to none when there is not exactly one |
| `Packs.ResolveLiveIs` | src/cmd/ragrep/code_service.go:300-310 | a live key resolves to the whole file it still names, or to nothing |
| `Packs.CheckStale` | src/internal/coderetrieval/manifest.go:65-95 | one entry per reference, each file read once, stale exactly when its file is unreadable or hashes otherwise |
| `Packs.PackThenVerifyIsClean` | src/cmd/ragrep/code_service.go:237-313 | the whole manifest of such symbols comes back clean |
| `Packs.VerifiedCleanIff` | src/cmd/ragrep/code_service.go:272-313 | a packed symbol verified on any later store and disk is clean if and only if its file still has the recorded content and its live row is in place, or its stored symbol or one namesake is there |
| `EndToEnd.RefreshPackVerify` | src/cmd/ragrep/code_service.go:237-313 | after a completed full refresh, whatever was packed from files under the roots verifies clean |
| `EndToEnd.RefreshKeepsBodiesHashed` | src/cmd/ragrep/workspace.go:225-286 | a full refresh, completed or failed half way, keeps each live row's hash that of its text |
| `EndToEnd.PathsKeepBodiesHashed` | src/cmd/ragrep/workspace.go:521-576 | so does a refresh of given paths |
| `EndToEnd.RefreshPutsHashed` | src/cmd/ragrep/workspace.go:275-285 | as store transactions, its writes carry the hash of their text |
| `EndToEnd.RefreshedTextIsServed` | src/cmd/ragrep/workspace.go:275-280 | a get of the key of a refreshed row answers with the file's text |

## Left out

- SQLite, FTS5, bm25 and vec0: tables are maps and sets, a transaction is atomic,
  a full-text index is a set of postings, and query results are arbitrary
  duplicate-free sequences that satisfy the query's WHERE clause.
- HTTP, MCP tools, command-line parsing, configuration, path and symlink
  resolution, file watching and wall-clock time: paths are taken as normalised,
  and a timer may fire at any moment after it was armed, stopped or not.
- Daemon discovery files, document mutation and converters, embedding and ONNX,
  language-server processes, transcript parsing and grading.
- Context cancellation, except where it changes shared state: in the language
  server client, in the document service and as failure of a confirmation.
- The disk is one snapshot during a refresh; a file edited while a refresh reads
  it is a later snapshot.
- Sorting of the paths a refresh writes: they are taken in some order.
- Commits.IndexFiles: files prepared twice, under overlapping roots, are assumed to give equal keys equal containers.
- Commits.ConfirmLive: the vectors prepared before the lock are one embedding function; a vector missing because the row changed meanwhile is a failed transaction.
- Registry.StepKeepsInv: the two maps of the registry are one map over two kinds of key, and which entry a code database resolves to is any choice.
- RegistryObject.WorkspaceRegistry.AddLocked: entries are indices rather than objects, so aliasing between them is not captured.
- Registry shutdown's bounded wait for restores, which changes no state.
- DocumentService.Stores.LookUp: the waiters counter, which nothing reads, is left out, and two paths to one database file count as the same key.
- Overlaps.MergeOverlapping: nothing but the absence of overlaps is stated for ranges that run backwards.
- LineIndex.Offset: a column inside a surrogate pair resolves to the end of that rune, as in the code; the protocol leaves it open.
- Paragraphs.SplitParas: content is a sequence of Unicode scalar values, so invalid UTF-8 is not covered.
- Packs.BuildManifest: the index identity fields and the length limits on manifest text are left out, and so is the rejection of an empty manifest.
- Packs.RunCodeVerify: operational errors of the store and of file reading other than absence abort the verification and are left out.
- LiveKeys.SearchHybrid: the text-only and vector-only variants differ in which lists are merged and are left out.
- LiveKeys.SearchLiveText: the exact-token test on a live body is any function.
- LiveKeys.SymbolHitsByIds: the text and vector rank fields of a hit, which nothing here reads, are left out.
- Ledger.RunsStaySound: field checks of a result row are reduced to its key, thread and status, input verification and file locking are left out, and operations run one at a time.
- Ledger.StepKeepsSound: leaves out what Ledger.RunsStaySound does.
- LedgerObject.RunLedger.RecordResult: the record's field checks are left out, and its closing verification is a verification action of its own.
- Dispatch.BuildDispatch: the seeded shuffle is any rearrangement for each condition and repetition.
- Symbol flattening, documentation comments, signatures and relation builders, which would only add easy members.
