# Market comparison and price monitoring, verified

This project models the parts of the service that are hard to get right, and proves what they are for. It has
eleven parts, each a group of modules. Where the code updates things step by step there is a class or a method
with the loops of the code, proved against functions; what the code promises is proved about those functions, over
all inputs and, for the protocols, over all runs.

- **Publishing an assignment** (`MatchLifecycle`, `AliasComponents`, `CandidateCap`, `AssignmentNetwork`,
  `ResidualNetwork`, `ShortestPaths`, `MinCostFlow`, `OptimalAssignment`, `PublishedMerge`, `Sums`). Candidates are ranked, joined into
  alias components by union-find, capped at twenty components a row, and assigned by successive shortest paths on
  a residual graph with negative costs. The proof follows node prices: they certify that no residual cycle is
  negative, which gives termination of the queue search, optimality among assignments of the same size, and, when the
  sink is out of reach, optimality in size. The pair mode is a greedy scan over the same components.
- **Price-watch credits** (`PriceWatchLedger`, `PriceWatchInvariants`, `PriceWatchClaims`, `PriceWatchRuns`,
  `PriceWatchKeys`, `PriceWatchPreview`, `PriceWatchDue`, `PriceWatchEffects`, `PriceWatchOutcomes`, `PriceWatchStore`,
  `PriceWatchCheck`, `RowOrder`). Watchers, reservations, leases,
  entitlements and observations as tables; every exported operation is one atomic step. `PriceWatchRuns` lets
  customers, billing, workers and clocks interleave in any way; `PriceWatchDue`, `PriceWatchEffects` and
  `PriceWatchOutcomes` say what each transaction leaves every watcher and reservation as.
- **Confirmed commands** (`McpCommands`, `McpCommandStore`, `McpRuns`). Confirmation tokens with leases, and command
  receipts that make effects happen once. `McpRuns` lets any number of workers stall, crash and race.
- **Rate limits** (`McpRateLimit`), **webhooks** (`BillingWebhooks`), **the batch scheduler** (`BatchScheduler`,
  `BatchRunner`), **the resumable search** (`SearchFold`, `SearchRows`, `SearchRunner`), **judge batches** (`BatchPacking`),
  **the markup stripper** (`MarkupReading`, `HtmlMarkup`, `HtmlMeaning`, `HtmlStripper`) and **the bounded document**
  (`ExtractionDocument`, `LowerCasing`, `Utf8`).

Eight expected properties turn out to hold only under a condition. Seven are stated as an if-and-only-if, the last with both sides:

- A preview followed at once by its activation is rejected exactly when the activation opens a new billing period for a
  selected watcher that is paused for want of credits, because the preview does not reconcile and the activation does
  (`PriceWatchPreview.FreshPreviewIsAccepted`, and `PausedPreviewIsRejected` for the failing half). The rejection
  rolls the reconciliation back, so it repeats until something else reconciles the workspace.
- A mutation that its own preview lets pass fails exactly when it resumes a watcher that ran out of credits although a
  price is stored, while no credit is left (`PriceWatchPreview.PassedMutationFails`, and `PricedResumeFails` for the
  failing half).
- A mutation reserves what its preview says exactly when it does not resume a watcher that ran out of credits before it
  had a price: the preview asks for one credit and nothing is reserved
  (`PriceWatchPreview.MutationReservesPreviewed`, and `UnpricedResumeHappens`).
- A recorded failure means that nothing happened exactly for commands claimed at most once
  (`McpRuns.FailureMeansUnmade`). Within a retention period the receipt tells in every case, and no longer
  (`McpRuns.ReceiptsTellExactlyWithinRetention`).
- A command is carried out at most once exactly over spans of at most the retention period, because its receipt is purged
  up to five minutes before its unfinished confirmation (`McpRuns.OnceExactlyWithinRetention`).
- Webhooks converge exactly when the latest event is active or all events name its subscription
  (`BillingWebhooks.ConvergesExactly`).
- The rate limiter follows its history exactly when the window is at most a day and no client is called "*", except
  where "*" alone may call, once a window (`McpRateLimit.LimiterIsExact`).
- The extraction document is within its limit whenever lower-casing keeps the document's length, that is, without the
  capital U+0130 (`LowerCasing.PlainIsBounded`). With it the scripts are cut out of the wrong place, and for every limit
  there is a document whose bounded form is longer (`LowerCasing.TheBoundCanFail`). Such a document
  is itself more than forty times as long as the limit.

Conventions. Scores are integers scaled by 10000, prices integers of millionths, timestamps integers of milliseconds with -1 for
the empty string. Hashes are taken to be injective and stand for their input; random ids are drawn from a counter. Sorted
queries break ties by id.

`dafny verify dfyconfig.toml` checks everything.

## Model

| member | source | states |
|---|---|---|
| `PublishedMerge.MergeProducts` | app/lib/product-match-lifecycle.ts:798-960 | The one-per-primary merge, end to end, for every list of rows and every target: no two published rivals are aliases; the number published is at most the target clamped to 1 to 20, and is that number unless no alias-free selection is larger; and no selection of the same size has more exact products, or as many and a larger score sum. |
| `PublishedMerge.MergePairs` | app/lib/product-match-lifecycle.ts:642-707 | Greedy pair mode publishes exactly the first entries of the first-of-component positions in row order, as many as the target clamped to 1 to 1000 or all of them, and no component twice. |
| `PublishedMerge.FirstsAreMost` | app/lib/product-match-lifecycle.ts:685-707 | No set of pairwise unrelated candidates is larger than the list of components that the greedy mode publishes from. |
| `PublishedMerge.GreedyRows` | app/lib/product-match-lifecycle.ts:697-707 | The greedy scan over whole rows, early exits included, visits labels in flat order and picks exactly the new ones until the target is met. |
| `PublishedMerge.CappedIsOptimal` | app/lib/product-match-lifecycle.ts:885-896 | An optimum of the capped graph is an optimum of the uncapped graph, in size and in benefit, for every target of at most twenty. |
| `PublishedMerge.NumberedIsOptimal` | app/lib/product-match-lifecycle.ts:899-911 | Renaming components to node numbers loses no assignment and changes no benefit, so an optimum over node numbers is one over components. |
| `PublishedMerge.FlowTarget` | app/lib/product-match-lifecycle.ts:800-912 | The target of the flow is the request clamped to 1 to 20, or the number of rows where that is smaller. |
| `AliasComponents.Components` | app/lib/product-match-lifecycle.ts:836-851 | After the constraint pass two candidates have the same root exactly when a chain of shared constraint keys connects them. |
| `AliasComponents.MergedIsAlias` | app/lib/product-match-lifecycle.ts:844-851 | A finished pass leaves equal labels exactly on chains of shared keys. |
| `AliasComponents.Forest.FindRoot` | app/lib/product-match-lifecycle.ts:838 | Path compression returns the root, changes nobody's root and ends, although unions are unranked and roots are not ordered by index. |
| `AliasComponents.Forest.Union` | app/lib/product-match-lifecycle.ts:839-843 | A union merges two classes into one, keeps the root of the left one and touches no other class. |
| `MatchLifecycle.RankOrders` | app/lib/product-match-lifecycle.ts:829-835 | Ranking keeps exactly the eligible matches, as often as they occur: exact products first, then falling scores, then rising identity keys. |
| `MatchLifecycle.RankedDescending` | app/lib/product-match-lifecycle.ts:829-921 | In a ranked row benefits never rise, which is what cutting the row from the front relies on. |
| `MatchLifecycle.WorthIsLexicographic` | app/lib/product-match-lifecycle.ts:912-921 | Because the exact bonus exceeds any score sum within the target, larger benefit means more exact products, or as many and no smaller score sum. |
| `MatchLifecycle.ChoiceIsDisjoint` | app/lib/product-match-lifecycle.ts:885-925 | Taking each row and each component at most once never publishes two aliases. |
| `MatchLifecycle.DisjointIsChoice` | app/lib/product-match-lifecycle.ts:885-925 | Every alias-free selection is such a choice, so the graph loses none. |
| `MatchLifecycle.KeepRow` | app/lib/product-match-lifecycle.ts:888-896 | The filter loop keeps the first candidate of every component and then at most twenty of them. |
| `MatchLifecycle.Number` | app/lib/product-match-lifecycle.ts:899-911 | Components are numbered one to one in the order they first appear. |
| `CandidateCap.CapLosesNothing` | app/lib/product-match-lifecycle.ts:885-896 | Every assignment of at most `cap` rows has one of the same size and no smaller benefit that uses only each row's best `cap` distinct components. |
| `CandidateCap.Exchange` | app/lib/product-match-lifecycle.ts:885-896 | Row by row, a taken link outside the cap can be exchanged for a free one inside it without losing size or benefit. |
| `CandidateCap.MoveIntoCap` | app/lib/product-match-lifecycle.ts:885-896 | A full cap of survivors before a link always holds one that no other row uses, worth no less. |
| `CandidateCap.KeptFacts` | app/lib/product-match-lifecycle.ts:888-894 | The survivors of a row are, in rising order, exactly the first candidates of their components. |
| `AssignmentNetwork.Build` | app/lib/product-match-lifecycle.ts:898-925 | The residual graph holds, for every row, candidate and component, its edge and the reverse edge at the recorded positions, and nothing else. |
| `ShortestPaths.FindShortest` | app/lib/product-match-lifecycle.ts:928-950 | The queue-based search ends on every graph that arises, negative costs included, with shortest distances and a predecessor tree. |
| `ShortestPaths.Scan` | app/lib/product-match-lifecycle.ts:936-949 | Scanning one node settles it, keeps the tree, and the queue grows only when distances fall: the reason that the search ends. |
| `ShortestPaths.Offer` | app/lib/product-match-lifecycle.ts:939-948 | One residual edge improves its end or changes nothing, and nobody else's finished edges become unfinished. |
| `ShortestPaths.ImproveKeepsTree` | app/lib/product-match-lifecycle.ts:942-944 | An improvement never closes a cycle of predecessors, so walking back from any reached node ends at the source. |
| `MinCostFlow.Augment` | app/lib/product-match-lifecycle.ts:952-956 | Walking back from the sink sends exactly one more unit, keeps capacities in step with their reverses, conserves flow at every row and component, and leaves no negative residual cycle. |
| `MinCostFlow.RaisedFeasible` | app/lib/product-match-lifecycle.ts:928-956 | Raising the node prices by the distances, up to that of the sink, keeps every residual edge at a non-negative reduced cost. |
| `MinCostFlow.StepBack` | app/lib/product-match-lifecycle.ts:952-956 | Every step of the walk back is over an open edge to a node that lies nearer the source, at reduced cost zero. |
| `OptimalAssignment.Solve` | app/lib/product-match-lifecycle.ts:898-960 | For every table of candidates and every target: the selection uses each row and component at most once, is as large as the target or as large as any, and has the greatest benefit of its size. |
| `OptimalAssignment.Saturate` | app/lib/product-match-lifecycle.ts:927-957 | The augmentation loop ends with a flow of the target size, or with the sink out of reach, and no negative residual cycle either way. |
| `OptimalAssignment.FeasibleIsBest` | app/lib/product-match-lifecycle.ts:927-957 | A flow without negative residual cycles carries the best assignment of its size. |
| `OptimalAssignment.UnreachableIsLargest` | app/lib/product-match-lifecycle.ts:951 | When the sink cannot be reached, no assignment of any kind is larger. |
| `OptimalAssignment.SaturatedIsAnswer` | app/lib/product-match-lifecycle.ts:927-960 | How the loop ends decides that its assignment is largest within the target and best of its size. |
| `OptimalAssignment.RowFlow` | app/lib/product-match-lifecycle.ts:915-922 | A row passes on what reaches it: one candidate or none. |
| `OptimalAssignment.ComponentFlow` | app/lib/product-match-lifecycle.ts:925 | A component sends on what reaches it, so no two rows use it. |
| `OptimalAssignment.Select` | app/lib/product-match-lifecycle.ts:959-960 | Reading the edges whose capacity is used up gives exactly the assignment that the flow carries. |
| `PriceWatchRuns.EveryStepIsSafe` | app/lib/price-watch-store.ts:330-1288 | Every transaction, by whomever and at whatever time, keeps the tables in order, ends with used credits at most where they were or within the current allocation, never lowers spent credits, and moves reservations only forward. |
| `PriceWatchRuns.ReachableStatesAreSafe` | app/lib/price-watch-store.ts:658-1288 | The same in every state that any interleaving of customers, billing, workers and clock readings can reach; and the throw that guards deletion is unreachable there. |
| `PriceWatchRuns.SpentNeverFalls` | app/lib/price-watch-store.ts:900-929 | For every workspace and period, attempted, committed and purged credits never decrease in any run, permanent deletions included. |
| `PriceWatchRuns.EnteredOnce` | app/lib/price-watch-store.ts:1034-1222 | Over any run a reservation enters an attempt at most once and is committed at most once, by a completion or by the reaper; an attempt is never refunded. |
| `PriceWatchRuns.LostClaimStaysLost` | app/lib/price-watch-store.ts:1171-1179 | A worker whose claim was reaped, disabled, re-issued or has run out can never begin with it, however late it tries, and its attempt to do so changes nothing. |
| `PriceWatchRuns.LateCompletionIsIdle` | app/lib/price-watch-store.ts:1211-1222 | After a reservation is committed every later completion for it, under whatever claim, changes nothing. |
| `PriceWatchRuns.ObservationStays` | app/lib/price-watch-store.ts:1211-1288 | There is at most one observation per reservation, and it never changes while the reservation is stored. |
| `PriceWatchRuns.GoneForGood` | app/lib/price-watch-store.ts:900-939 | A deleted reservation never comes back. |
| `PriceWatchRuns.EveryStepKeepsLeases` | app/lib/price-watch-store.ts:1111-1169 | Only a claim under an owner's own name can create a lease in that name; every other lease is as it was before. |
| `PriceWatchInvariants.DeletionNeverStuck` | app/lib/price-watch-store.ts:917-928 | Every spent credit's period has an entitlement row, so deleting an existing watcher of the workspace always succeeds and nothing else is deleted. |
| `PriceWatchInvariants.DeletionConserves` | app/lib/price-watch-store.ts:917-929 | Deletion moves a watcher's spent credits into its entitlements: spent credits of every workspace and period stay exactly the same and used ones do not rise. |
| `PriceWatchInvariants.ReconcileKeeps` | app/lib/price-watch-store.ts:384-404 | Reconciling never makes a credit count that did not count before, keeps purged debits, and leaves a row for the current period. |
| `PriceWatchInvariants.ActivateItemsCosts` | app/lib/price-watch-store.ts:679-722 | Activating a list of targets adds exactly its baseline credits as reservations and raises use by no more. |
| `PriceWatchInvariants.ActivateProper` | app/lib/price-watch-store.ts:658-744 | An activation spends only within the current allocation and moves no spent credit. |
| `PriceWatchInvariants.MutateProper` | app/lib/price-watch-store.ts:805-872 | So does disabling, resuming and changing cadence. |
| `PriceWatchClaims.ClaimDueProper` | app/lib/price-watch-store.ts:1111-1169 | So does a worker's whole claim, reaping included: each claimed watcher costs one credit that was free when it was taken. |
| `PriceWatchClaims.ReapKeeps` | app/lib/price-watch-store.ts:1060-1082 | Reaping releases unattempted reservations, commits attempted ones, and makes nothing count anew. |
| `PriceWatchClaims.CompleteShape` | app/lib/price-watch-store.ts:1211-1288 | A completion changes nothing, or commits one attempt, settles its watcher and stores at most one observation for it. |
| `PriceWatchPreview.PreviewedIsDone` | app/lib/price-watch-store.ts:561-744 | However much later it runs: an activation that still finds the previewed fingerprint creates, reuses and reserves exactly the previewed counts, and leaves use at most at the previewed value. |
| `PriceWatchPreview.FreshPreviewIsAccepted` | app/lib/price-watch-store.ts:561-682 | Activated at once on the very tables that were previewed, a preview is accepted exactly when it does not open a new period for a selected watcher that is paused for want of credits; in that case it is always rejected as changed. |
| `PriceWatchPreview.PausedPreviewIsRejected` | app/lib/price-watch-store.ts:561-682 | For every workspace, time and selection of one target there are tables in good order on which that rejection happens. |
| `PriceWatchPreview.PassedMutationFails` | app/lib/price-watch-store.ts:748-872 | A mutation that its preview lets pass fails exactly when it resumes a watcher that ran out of credits with a price stored, which the preview takes to be free, and no credit is left. |
| `PriceWatchPreview.PricedResumeFails` | app/lib/price-watch-store.ts:768-842 | For every workspace, time and positive price there are tables in good order on which that failure happens, previewed at no credit. |
| `PriceWatchPreview.MutationReservesPreviewed` | app/lib/price-watch-store.ts:768-851 | A mutation that succeeds reserves exactly the previewed credits, if and only if it does not resume a watcher that ran out of credits without a price stored; such a resume is previewed at one credit and leaves exactly the reservations of a reconciliation. |
| `PriceWatchPreview.UnpricedResumeHappens` | app/lib/price-watch-store.ts:768-842 | For every workspace and time there are tables in good order on which such a resume succeeds. |
| `PriceWatchPreview.PreviewedMutationIsDone` | app/lib/price-watch-store.ts:748-872 | However much later and in whatever period it runs, a mutation that still finds the previewed fingerprint leaves use at most at the previewed value. |
| `PriceWatchPreview.ImpactCounts` | app/lib/price-watch-store.ts:588-612 | The data behind the fingerprint determine the numbers of targets, new watchers and credits. |
| `PriceWatchStore.Store.Reconcile` | app/lib/price-watch-store.ts:384-404 | The bulk updates, in place, leave exactly the specified tables and return the current entitlement. |
| `PriceWatchStore.Store.DisableWorkspace` | app/lib/price-watch-store.ts:330-366 | Disabling a workspace in place matches its specification and returns how many watchers it disabled and reservations it released. |
| `PriceWatchStore.Store.Plan` | app/lib/price-watch-store.ts:570-620 | The grouping and counting loops find the specified items, credits and fingerprint. |
| `PriceWatchStore.Store.Activate` | app/lib/price-watch-store.ts:658-744 | The activation transaction in place matches its specification; on every error the tables are as before. |
| `PriceWatchStore.Store.Mutate` | app/lib/price-watch-store.ts:805-872 | The mutation transaction in place, guarded by a preview's fingerprint, matches its specification and returns the watcher and the usage; on every error the tables are as before. What each action leaves behind is stated by DisablingSets, ResumingSets, CadenceSets and MutationElsewhere. |
| `PriceWatchStore.Store.Delete` | app/lib/price-watch-store.ts:900-939 | The deletion transaction in place, guarded by a preview's fingerprint, matches its specification; a debit without an entitlement rolls everything back. |
| `PriceWatchStore.Store.ChargeDebits` | app/lib/price-watch-store.ts:921-928 | Rolling debits up period by period, in any order, charges every entitlement exactly its debits, and fails exactly when a period has no entitlement. |
| `PriceWatchStore.Store.Reap` | app/lib/price-watch-store.ts:1060-1082 | The reaper's loop over rows read beforehand matches its specification, and counts exactly the expired reservations that it released and the expired attempts that it committed. |
| `PriceWatchStore.Store.ClaimDue` | app/lib/price-watch-store.ts:1111-1169 | The claiming loop, its early end included, matches its specification; whom it claims and whom not is stated by ClaimsAreOfReady and ReadyAreClaimed. |
| `PriceWatchStore.Store.Begin` | app/lib/price-watch-store.ts:1171-1179 | Beginning an attempt in place matches its specification. |
| `PriceWatchStore.Store.Release` | app/lib/price-watch-store.ts:1181-1193 | Giving a claim back in place matches its specification. |
| `PriceWatchStore.Store.Complete` | app/lib/price-watch-store.ts:1211-1288 | Completing an attempt in place matches its specification; a change without a stored price rolls back. |
| `PriceWatchKeys.ReachableKeysAreUnique` | app/lib/price-watch-store.ts:189-227 | In every reachable state a target has at most one watcher in its workspace and a due slot at most one reservation of its watcher, so neither unique key ever refuses a row. |
| `PriceWatchKeys.EveryStepKeepsKeys` | app/lib/price-watch-store.ts:330-1288 | Every transaction keeps both keys unique. |
| `PriceWatchKeys.ActivateItemsKeyed` | app/lib/price-watch-store.ts:679-722 | A watcher is created only for a target without one, however many targets one activation has. |
| `PriceWatchKeys.ForSlotKeyed` | app/lib/price-watch-store.ts:1084-1109 | A slot is inserted only when its watcher has no reservation for it. |
| `PriceWatchKeys.ExistingIsTheOnlyOne` | app/lib/price-watch-store.ts:570-600 | Looking up the watcher of a target finds the only one. |
| `PriceWatchDue.ClaimsAreOfReady` | app/lib/price-watch-store.ts:1111-1169 | For any worker, limit and time, on the tables as reaped: everything claimed was active or waiting for a first price, due, and unclaimed or its claim over; claims number at most the limit clamped to 1 to 50, are of different watchers, and come in rising due time. Each is a lease of ten minutes on the watcher and on a reservation of the running period that is for the slot it was due for, or for its first price, and is the oldest credit set aside for that, if there is one. |
| `PriceWatchDue.ReadyAreClaimed` | app/lib/price-watch-store.ts:1111-1169 | And every watcher that was so and is not claimed has no current plan, or has used the slot that it is due for, or is paused with all credits of its period used; or the limit was met by watchers due no later, or four times as many as the limit were due no later. |
| `PriceWatchDue.DueIs` | app/lib/price-watch-store.ts:1120-1121 | The candidates are ready watchers in rising due time, each once; a ready watcher is missing only when the limit is filled by others that are due no later. |
| `PriceWatchDue.ClaimOneGives` | app/lib/price-watch-store.ts:1123-1165 | One candidate gets a lease as described, or one of these reasons applies. |
| `PriceWatchDue.ClaimOneTurns` | app/lib/price-watch-store.ts:1123-1165 | One candidate's turn leaves other watchers and their rows alone, but for what reconciling does, and frees nothing that counts in a running period. |
| `PriceWatchDue.BaselineTakenUp` | app/lib/price-watch-store.ts:1084-1095 | A watcher that waits for its first price, all of whose baseline credits were given back, gets the newest of them again and no new one. |
| `PriceWatchDue.ClaimedCanBegin` | app/lib/price-watch-store.ts:1111-1179 | A worker can begin with what it was just given exactly until ten minutes are over. |
| `PriceWatchEffects.GrantIs` | app/lib/price-watch-store.ts:368-377 | A workspace has credits exactly while an active subscription with a known plan is in its period: 1000, 5000, 25000 or 100000 of them. |
| `PriceWatchEffects.UsedIs` | app/lib/price-watch-store.ts:406-421 | Used are reserved, attempted, committed and purged credits; spent are the same without those only reserved. |
| `PriceWatchEffects.ReconcileWithoutGrant` | app/lib/price-watch-store.ts:384-392 | Without a plan every running watcher, and every one that ran out of credits, is paused and nobody's, and nothing stays reserved. |
| `PriceWatchEffects.ReconcileWithGrant` | app/lib/price-watch-store.ts:393-404 | With a plan nothing stays reserved outside its period; the first time in a period the watchers that ran out of credits are due at once, active or waiting for a first price as they have one or not; nothing else about a watcher changes. |
| `PriceWatchEffects.ReconcileElsewhere` | app/lib/price-watch-store.ts:384-404 | No other workspace is touched, and no row that is not reserved. |
| `PriceWatchEffects.WorkspaceIsDisabled` | app/lib/price-watch-store.ts:330-366 | Every watcher of a disabled workspace is disabled and nobody's and nothing of it stays reserved; no other workspace is touched. |
| `PriceWatchEffects.DisablingSets` | app/lib/price-watch-store.ts:830-832 | After Disable the watcher is disabled and nobody's, has no reserved row, keeps its price, and has the requested cadence. |
| `PriceWatchEffects.ResumingSets` | app/lib/price-watch-store.ts:833-851 | After Resume it runs. If it ran before, it keeps state, price and failures; otherwise it has no failures, is due at once and nobody's. One that ran out of credits keeps its price and is active exactly with a positive one; any other waits for a first price, with a credit of the period set aside. |
| `PriceWatchEffects.CadenceSets` | app/lib/price-watch-store.ts:852-855 | After a change of cadence it has the requested one, is due one cadence from now if it was active, and keeps price and failures; its state is what the closing reconciliation makes it. |
| `PriceWatchEffects.MutationElsewhere` | app/lib/price-watch-store.ts:805-872 | No mutation does more to another watcher than a reconciliation. |
| `PriceWatchEffects.ActivationSets` | app/lib/price-watch-store.ts:679-722 | After an activation every selected target has a watcher that runs at the requested cadence, the one it had if it had one: one that ran goes on with its price, any other waits for its first price, due at once, nobody's, a credit set aside. |
| `PriceWatchEffects.ActivationElsewhere` | app/lib/price-watch-store.ts:679-722 | A watcher whose target is not selected is only reconciled. |
| `PriceWatchEffects.ActivationTells` | app/lib/price-watch-store.ts:679-744 | What an activation reports is so: created and reused add up to the different targets selected, the tables grew by as many watchers and reservations as it says, and the usage is theirs. |
| `PriceWatchEffects.GroupsCover` | app/lib/price-watch-store.ts:574-587 | Every selected comparison is in the group of its target. |
| `PriceWatchEffects.DeletionSets` | app/lib/price-watch-store.ts:917-938 | A deletion takes the watcher, its reservations and its history, and nothing else. |
| `PriceWatchEffects.MutationFails` | app/lib/price-watch-store.ts:750-851 | Every way in which a mutation fails, each exactly: no such watcher in the workspace; nothing to change; resuming without a plan; or resuming one that does not run with all credits used. |
| `PriceWatchEffects.ActivationFails` | app/lib/price-watch-store.ts:558-677 | And an activation without a fingerprint: nothing selected; no plan; or the selected targets that no running watcher watches are more than the credits left. |
| `PriceWatchEffects.SelectionCosts` | app/lib/price-watch-store.ts:588 | A selection costs one credit for each of its targets that no running watcher of the workspace watches, and none for the others. |
| `PriceWatchEffects.ActivationPreviewTells` | app/lib/price-watch-store.ts:613-657 | A preview counts the different targets, new and known, and the credits they cost; use before and after it adds up to the allocation with what is left. |
| `PriceWatchEffects.MutationPreviewTells` | app/lib/price-watch-store.ts:750-803 | A mutation is previewed at one credit exactly when it resumes a watcher that does not run, but for one with a price that ran out of credits; use and rest move by that. |
| `PriceWatchEffects.SubscriptionSettles` | app/lib/billing-store.ts:221-226 | After billing has told of a subscription: with a plan its period has a row, and nothing is reserved for another; without one nothing of the workspace runs or is reserved. No other subscription changes. |
| `PriceWatchEffects.FingerprintCovers` | app/lib/price-watch-store.ts:595-612 | Two activations with the same fingerprint have the same report, cadence, selection, period and usage, and each comparison of the one is selected by the other, its target's watcher seen in the same state, cadence and time of change. |
| `PriceWatchEffects.MutationFingerprintCovers` | app/lib/price-watch-store.ts:782-803 | And two mutations the same watcher, unchanged in between, the same action, cadence, price and usage. |
| `PriceWatchOutcomes.CompletionSets` | app/lib/price-watch-store.ts:1211-1288 | Completing an attempt commits its reservation and touches no other watcher. A price read makes a running watcher active without failures, with the price read as its new one for a first price or a change; a failure or an inconclusive check keeps the price, and the third in a row pauses it. It is due one cadence later and nobody's; the event names the direction of the change. |
| `PriceWatchOutcomes.CompletionStores` | app/lib/price-watch-store.ts:1240-1270 | Exactly first prices and changes are stored as observations, under the reservation. |
| `PriceWatchOutcomes.ReleaseSets` | app/lib/price-watch-store.ts:1181-1193 | A claim given back frees its reservation and makes the watcher due at once, unless it is somebody else's by now; nothing else changes. |
| `PriceWatchOutcomes.ReapSets` | app/lib/price-watch-store.ts:1060-1082 | A lease that ran out: an attempt begun is committed and counts as a failure, the third in a row pausing the watcher; one not begun is released and the watcher due at once. |
| `PriceWatchOutcomes.ReapingLeavesNone` | app/lib/price-watch-store.ts:1060-1082 | In a state in good order reaping leaves no lease that has run out, finished rows included. |
| `PriceWatchOutcomes.DisabledStays` | app/lib/price-watch-store.ts:330-1288 | Over any run a disabled watcher stays disabled until it is deleted, a resumption names it, or an activation names its target. |
| `PriceWatchOutcomes.DisabledIsNotClaimed` | app/lib/price-watch-store.ts:1111-1169 | And until then no worker's claim has it. |
| `RowOrder.OrderBy` | app/lib/price-watch-store.ts:1120-1121 | The rows of a sorted query: all of them, once each, in order. |
| `PriceWatchCheck.ChangeMeansTwoReadings` | app/lib/price-watch-runner.ts:112-158 | A change is reported exactly when the last two readings agree on a price that differs from the stored one. |
| `PriceWatchCheck.DecisionIs` | app/lib/price-watch-runner.ts:112-158 | A check fails exactly when its first reading, or the one retry of a miss that may pass, is a miss; it is a first price exactly without a stored one; unchanged exactly when the first or the confirming reading shows the stored price; and a confirming reading is taken exactly for a price other than the stored one. |
| `PriceWatchCheck.CheckNeverThrows` | app/lib/price-watch-runner.ts:112-158 | Whatever transactions run while the page is read, a begun check ends in a commit of its reservation unless that was deleted, finds it committed already exactly when the reaper was first and changes nothing then, never wakes a watcher that was disabled or paused meanwhile, and never meets a change without a stored price; when beginning throws, the claim is given back. |
| `PriceWatchCheck.AttemptLasts` | app/lib/price-watch-store.ts:1060-1222 | An attempt keeps its owner, watcher and period over any run until it is committed or deleted. |
| `PriceWatchCheck.CheckRecordsWhatWasSeen` | app/lib/price-watch-runner.ts:112-158 | What a check adds to the history is a price that a reading showed, and for a change one that two successive readings showed. |
| `PriceWatchCheck.ProcessClaim` | app/lib/price-watch-runner.ts:112-158 | Begin or give back, read, read again, complete, with any transactions of others on the store in between, matches its specification. |
| `PriceWatchCheck.Play` | app/lib/price-watch-store.ts:330-1288 | Any sequence of the in-place transactions leaves the tables that the run specifies. |
| `McpRuns.AppliedAtMostOnce` | app/lib/mcp-command-store.ts:280-401 | Within one retention period a command's change is made at most once, however many workers confirm it, stall, crash, reclaim it or race on whatever clocks. |
| `McpRuns.ClaimGivesWhatWasIssued` | app/lib/mcp-command-store.ts:255-331 | In every reachable state a claim that is granted hands out exactly the input and the impact that the confirmation was issued with, to the one it was issued to and for its tool; and a first claim is granted only within five minutes of the issue. |
| `McpRuns.LeaseExcludes` | app/lib/mcp-command-store.ts:318-323 | For sixty seconds from a claim nobody else is given the command, whatever else runs. |
| `McpRuns.OnceExactlyWithinRetention` | app/lib/mcp-command-store.ts:255-401 | For every span of time: all runs whose clocks lie within that span make each change at most once, if and only if the span is at most the retention period. |
| `McpRuns.ReceiptsTellExactlyWithinRetention` | app/lib/mcp-command-store.ts:369-401 | For the same spans and no longer, a reader can tell from the receipt table whether the change of a stored command was made, whatever its record says. |
| `McpRuns.PurgedReceiptRepeatsAChange` | app/lib/mcp-command-store.ts:255-259 | One millisecond past the retention period the receipt is purged, the unfinished confirmation that it guards is not, and the change is made twice. |
| `McpRuns.SuccessHappened` | app/lib/mcp-write-service.ts:300-320 | A success on record is the outcome of a change that was made. |
| `McpRuns.FailureMeansUnmade` | app/lib/mcp-write-service.ts:300-325 | For every number n: no run records a failure for a command that was claimed n times and whose change was made, if and only if n is at most one, that is, no lease on it ran out. |
| `McpRuns.FailureCanHideAChange` | app/lib/mcp-command-store.ts:316-322 | For every n of two or more, a run of n claims within n leases in which the first worker records a failure and the second then makes the change. |
| `McpRuns.TerminalStays` | app/lib/mcp-command-store.ts:297-366 | Success and failure are absorbing: whatever runs later, stage and outcome stay until the row is purged. |
| `McpRuns.LaterCallersAgree` | app/lib/mcp-command-store.ts:297-304 | Everyone who claims a finished command is told its stored outcome, and changes nothing. |
| `McpRuns.EveryAnswerAgrees` | app/lib/mcp-command-store.ts:280-366 | Over any run, every caller who gets a final answer for a command gets the same one. |
| `McpRuns.StepKeeps` | app/lib/mcp-command-store.ts:234-401 | Every step keeps the protocol invariant: ready means unclaimed, receipts and successes stand for changes that were made, workers hold commands of their own principal and tool; history only grows. |
| `McpCommands.FallbackStoresNothing` | app/lib/mcp-write-service.ts:300-325 | The failure stored when storing a success throws never takes effect: a success is not turned into a recorded failure. |
| `McpCommands.IssuedCanBeClaimed` | app/lib/mcp-command-store.ts:234-334 | A confirmation can be claimed by the one it was issued to, with its tool, exactly within five minutes, and hands out what was shown; later it has failed, and anybody else is refused. |
| `McpCommands.FortyAtMost` | app/lib/mcp-command-store.ts:259-277 | A well-formed request is granted exactly while fewer than forty confirmations of the client in its workspace are open, and is then one of them. |
| `McpCommands.WaitingIs` | app/lib/mcp-command-store.ts:259-260 | Open are those that are ready or in progress and not expired. |
| `McpCommands.RunAgain` | app/lib/price-watch-store.ts:667-744 | An operation that went well is never made again but answers as before, whatever it would do now; without a receipt it is made; one that fails leaves nothing behind. |
| `McpCommands.ReceiptsStay` | app/lib/mcp-command-store.ts:382-401 | A receipt is written once: the same one is accepted again, any other for its command is refused, and no other row is touched. |
| `McpCommands.KeptForThirtyDays` | app/lib/mcp-command-store.ts:255-258 | A confirmation is purged exactly thirty days after it was completed or, unfinished, expired, a receipt thirty days after it was made. |
| `McpCommandStore.CommandStore.Issue` | app/lib/mcp-command-store.ts:234-278 | Issuing in place, purge and limit included, matches its specification; a refusal rolls the purge back. |
| `McpCommandStore.CommandStore.ClaimIntent` | app/lib/mcp-command-store.ts:280-334 | Claiming in place matches its specification: terminal replay, expiry, busy lease, claim or reclaim; what a claim hands out is stated by ClaimGivesWhatWasIssued. |
| `McpCommandStore.CommandStore.Complete` | app/lib/mcp-command-store.ts:336-367 | Completing in place matches its specification: the first stored outcome wins. |
| `McpCommandStore.CommandStore.Record` | app/lib/mcp-command-store.ts:382-401 | Recording a receipt inserts it, accepts the same one again and refuses a different one. |
| `McpCommandStore.CommandStore.Run` | app/lib/price-watch-store.ts:667-744 | The effect transaction replays a receipt or makes the change and records it, never both. |
| `McpCommandStore.CommandStore.Confirm` | app/lib/mcp-write-service.ts:289-326 | One uninterrupted confirm call is claim, effect, completion, with the exception branches. |
| `McpRateLimit.LimiterIsExact` | app/lib/mcp-command-store.ts:195-232 | For every bucket, its limit and window, and any non-empty set of client ids that may call it: over all runs on one clock, with any calls to other buckets in between, every call is let through exactly when its client has fewer than the limit, and its workspace fewer than three times the limit, of accepted calls in the aligned window, and is told what remains, if and only if the window is at most a day and "*" is not a client (or is the only one, with a limit of one). |
| `McpRateLimit.SoundIsExact` | app/lib/mcp-command-store.ts:195-232 | In such a configuration each decision follows the history, deletion of stale rows notwithstanding. |
| `McpRateLimit.QuotaResets` | app/lib/mcp-command-store.ts:195-232 | A call that is let through is told the first instant of the next window, which is after now and at most a window away. |
| `McpRateLimit.UnsoundIsInexact` | app/lib/mcp-command-store.ts:206-228 | In every other configuration a run exists whose last decision does not. |
| `McpRateLimit.CountersTrackHistory` | app/lib/mcp-command-store.ts:195-232 | In a sound configuration stored counters equal the number of accepted calls (twice that number where "*" is the only client) for as long as their window is open. |
| `McpRateLimit.IntervalBound` | app/lib/mcp-command-store.ts:195-232 | Any interval no longer than the window lets through at most 2 * limit calls of a client and 6 * limit of a workspace. |
| `McpRateLimit.StarIsCheated` | app/lib/mcp-command-store.ts:214-228 | A client called "*" shares its row with its workspace and is counted twice: for every limit of two or more it is refused after half of its quota. |
| `McpRateLimit.StarIsBlamed` | app/lib/mcp-command-store.ts:214-228 | With a limit of one it is refused its only call because another client of its workspace has called. |
| `McpRateLimit.LongWindowForgets` | app/lib/mcp-command-store.ts:206-214 | For every window longer than a day and every limit: a full quota at time 0 is swept a day later while its window is open, and one more call is let through. |
| `McpRateLimit.RateLimiter.Take` | app/lib/mcp-command-store.ts:195-232 | The transaction in place matches its specification; a refusal undoes the sweep. |
| `BillingWebhooks.ConvergesExactly` | app/lib/billing-store.ts:190-226 | Every order of delivery, with any repeats, leaves the row at the latest event, if and only if the latest event is active or all events name its subscription. |
| `BillingWebhooks.TiesFavourActive` | app/lib/billing-store.ts:190-226 | For one subscription id, in any order with repeats and ties: the row ends at the largest time and is active exactly when some event of that time is. |
| `BillingWebhooks.OutcomeTells` | app/lib/billing-store.ts:190-226 | An event is seen once and is applied whole or not at all: a first subscription always; not if stale, which a later event, or an active one of the same time, makes it; and not if it ends another subscription than the one on record. |
| `BillingWebhooks.LastEventNeverGoesBack` | app/lib/billing-store.ts:195-219 | The time of the last applied event never goes down, whatever is delivered. |
| `BillingWebhooks.DefeatingOrder` | app/lib/billing-store.ts:196 | When the condition fails, an order of delivery that misses the latest event. |
| `BillingWebhooks.BillingStore.ApplySubscriptionUpdate` | app/lib/billing-store.ts:190-226 | The transaction in place matches its specification: duplicate, stale, ignored or applied. |
| `BatchScheduler.EveryBatchIsSafe` | app/lib/price-watch-runner.ts:160-194 | Whatever order callbacks come in: both limits hold, each item starts once and in order within its domain, no usable slot stays idle, and the batch is never stuck. |
| `BatchScheduler.NothingLaunchesAfterFailure` | app/lib/price-watch-runner.ts:178 | Once an error is kept nothing more starts and the error stays. |
| `BatchScheduler.EveryBatchEnds` | app/lib/price-watch-runner.ts:172-191 | A batch takes at most two callbacks per item and is open exactly while somebody runs, so it always ends. |
| `BatchScheduler.ResolvedMeansAllDone` | app/lib/price-watch-runner.ts:167-190 | A batch that resolves ran every item to its end and has result i at place i. |
| `BatchScheduler.ResolvesUnlessFailed` | app/lib/price-watch-runner.ts:174-175 | A finished batch resolves exactly when no worker failed with a reason; otherwise it rejects with a reason that some worker gave. |
| `BatchScheduler.ScheduleIsQuiet` | app/lib/price-watch-runner.ts:173-191 | Scheduling leaves no usable slot idle; the branch that reports no progress is unreachable. |
| `BatchScheduler.LaunchOrdered` | app/lib/price-watch-runner.ts:179-184 | Taking the first pending item with a free domain never lets an item overtake one of its own domain. |
| `BatchRunner.Batch.Schedule` | app/lib/price-watch-runner.ts:173-191 | The loop over the shared variables matches its specification. |
| `BatchRunner.Batch.Settle` | app/lib/price-watch-runner.ts:185 | Storing a result or the first error matches its specification. |
| `BatchRunner.Batch.Finish` | app/lib/price-watch-runner.ts:185-189 | Giving a slot back and rescheduling matches its specification. |
| `SearchFold.InterruptionsDoNotMatter` | app/lib/direct-product-search.ts:279-397 | However often the work is cut short, by budget or by crash, a run that reaches the end returns the rows of one uninterrupted pass, and the finished checkpoints are always a prefix of the searchable order. |
| `SearchFold.SavedSearchesAreKept` | app/lib/direct-product-search.ts:325-363 | A search whose checkpoint was saved is never made again in any later run. |
| `SearchFold.RunStands` | app/lib/direct-product-search.ts:318-397 | One run, from any prefix of finished checkpoints, folds exactly the prefix that it leaves. |
| `SearchFold.RunCounts` | app/lib/direct-product-search.ts:318-397 | A run that does not crash finishes every product that it begins. |
| `SearchFold.RunNeverRepeats` | app/lib/direct-product-search.ts:325-363 | Within a run no product is searched twice, and none that was saved. |
| `SearchFold.RunKeepsStore` | app/lib/direct-product-search.ts:351-390 | A run loses no checkpoint and never changes a finished one. |
| `SearchFold.EnoughIsEnough` | app/lib/direct-product-search.ts:261-397 | Once the budgets of the uncrashed runs, its own included, add up to the searchable products of the catalog, a run that does not crash returns the rows of the whole catalog: with a budget of b each, ceil(n / b) such runs reach the end, whatever crashes come in between. |
| `SearchFold.EnoughLife` | app/lib/direct-product-search.ts:261-397 | The same for a process that lives to make two saves for each product of its budget. |
| `SearchFold.SeriesAdvances` | app/lib/direct-product-search.ts:318-397 | After any series of runs the finished prefix is as long as the budgets of its uncrashed runs, unless there is no more to do; no crash takes anything back. |
| `SearchFold.PublishedApart` | app/lib/direct-product-search.ts:285-316 | Published rivals never share a constraint key and number at most the target; a longer fold only adds rows. |
| `SearchRows.FoldIsAccounted` | app/lib/direct-product-search.ts:285-397 | For every plan and prefix: each row holds rivals of its own searchable product in the order of its outcome, rows in the order of products; and a rival of a searchable product that is not published finds the target reached, or a rival with its address published for the product, or shares a key with one published before it. |
| `SearchRows.PicksAreExplained` | app/lib/direct-product-search.ts:285-316 | The same for one outcome: matches keep its order, and whatever is not among them has one of these reasons. |
| `SearchRunner.Builder.AddOutcome` | app/lib/direct-product-search.ts:285-316 | The loop over the rivals of one product, its break and continues included, matches its specification; which rivals it publishes is stated by PicksAreExplained. |
| `SearchRunner.Builder.Build` | app/lib/direct-product-search.ts:318-397 | The loop over the products, checkpoints saved on the way, matches its specification; what its rows hold is stated by FoldIsAccounted. |
| `BatchPacking.PackJudgeBatches` | app/lib/ai-product-matching.ts:588-608 | Batches hold exactly the pairs of the groups, in order; each has 1 to maxPairs pairs in at most maxGroups chunks, none empty, and names a primary at most once. |
| `BatchPacking.CompleteExactlyWhenAssessedOnce` | app/lib/ai-product-matching.ts:1001-1053 | For groups with different primaries and different candidates, packed, judged and recorded: completed chunks of a primary equal its expected ones exactly when each of its candidates was assessed exactly once. |
| `BatchPacking.AssessedAtMostOnce` | app/lib/ai-product-matching.ts:1007-1053 | Nothing is ever assessed twice, or without having been asked. |
| `BatchPacking.JudgeAll` | app/lib/ai-product-matching.ts:1007-1053 | Packing, judging and recording in whatever order the callbacks come gives those counters and assessments. |
| `BatchPacking.CompleteExactlyWhenAssessed` | app/lib/ai-product-matching.ts:1007-1053 | For any batches of distinct chunks, however each fared, completed chunks equal expected chunks exactly when every candidate pair of the primary was given as often as it was asked. |
| `BatchPacking.ContributionCounts` | app/lib/ai-product-matching.ts:493-571 | A batch, replayed or judged, contributes all pairs of an assessed chunk once and none of any other. |
| `BatchPacking.AnswerIsWorth` | app/lib/ai-product-matching.ts:493-571 | A pair asked in a batch is replayed from its checkpoint exactly when that holds the pairs of the batch, and otherwise assessed once exactly when the judge answered every candidate of its chunk exactly once. |
| `BatchPacking.ReplaysExactly` | app/lib/ai-product-matching.ts:493-520 | A checkpoint is replayed exactly when it holds the pairs of the batch, each as often, in whatever order. |
| `BatchPacking.ChunkAnswered` | app/lib/ai-product-matching.ts:1024-1043 | And its chunk counts as assessed exactly then. |
| `BatchPacking.RecordAll` | app/lib/ai-product-matching.ts:1016-1049 | Counters and assessments depend only on which batches ended, not on the order. |
| `BatchPacking.ChunkTally.Record` | app/lib/ai-product-matching.ts:1024-1043 | One batch's callback adds its assessed chunks to their primaries and its assessments to the list. |
| `HtmlMarkup.StripHtmlIsIdempotent` | app/lib/active-html-markup.ts:53-75 | Stripping twice is stripping once; reading the output finds the same tag tokens, no comment and no opening inert element. |
| `HtmlMarkup.TagsReadAgain` | app/lib/active-html-markup.ts:4-51 | A tag that was kept is read as the same tag with other text behind it, quotes and unterminated tags included. |
| `MarkupReading.UnchangedExactlyWhenInactive` | app/lib/active-html-markup.ts:53-75 | Stripping changes nothing exactly when there is nothing to leave out. |
| `MarkupReading.OutputIsInactive` | app/lib/active-html-markup.ts:53-75 | For any way of reading tags that reads kept tokens again: the output has exactly the kept tokens and nothing to leave out. |
| `MarkupReading.OnlyDeletes` | app/lib/active-html-markup.ts:53-75 | The output is the input with characters deleted. |
| `HtmlStripper.StripInactiveHtmlMarkup` | app/lib/active-html-markup.ts:53-75 | The cursor loop terminates and computes the specified text. |
| `HtmlMeaning.StripsPieces` | app/lib/active-html-markup.ts:53-75 | Every text falls into stretches without a tag, tags that stay, and stretches left out, each read as such where it stands; the output is all but the last, in order. |
| `HtmlMeaning.DropsExactly` | app/lib/active-html-markup.ts:53-72 | Left out are exactly comments, and what begins with an opening tag of one of the eight names that does not close itself. |
| `HtmlMeaning.CommentEnds` | app/lib/active-html-markup.ts:58-62 | A comment ends behind the first "-->" that follows its opening, or with the text. |
| `HtmlMeaning.TagEnds` | app/lib/active-html-markup.ts:4-16 | A tag ends behind its first ">" outside quotes, or with the text. |
| `HtmlMeaning.RawTextEnds` | app/lib/active-html-markup.ts:24-31 | A raw-text element ends behind the first closing tag of its name, in any case and with room inside, or with the text. |
| `HtmlMeaning.TagIsClosing` | app/lib/active-html-markup.ts:26-30 | Every closing tag of the name is found where it stands. |
| `HtmlMeaning.TemplateEnds` | app/lib/active-html-markup.ts:32-51 | A template is left out together with all that is nested in it, for every balanced content, comments and stray closing tags included, and whatever follows, up to its own closing tag and no further. |
| `HtmlMeaning.OpeningIsRead` | app/lib/active-html-markup.ts:18-22 | A tag's name is read in any case and behind any room. |
| `HtmlMeaning.ClosingIsRead` | app/lib/active-html-markup.ts:18-22 | So is a closing tag's. |
| `HtmlMeaning.ClosingItself` | app/lib/active-html-markup.ts:18-22 | A tag closes itself exactly when, but for room, it ends in "/>". |
| `HtmlStripper.InertElementEnd` | app/lib/active-html-markup.ts:24-51 | The search for a closing tag and the stack of nested elements end where specified. |
| `HtmlStripper.TagEnd` | app/lib/active-html-markup.ts:4-16 | The quote-aware scan ends a tag where specified. |
| `ExtractionDocument.BoundedDocument` | app/lib/crawl-runtime.ts:117-139 | For any lower-cased text beside the document: a short document is unchanged; of a long one as many whole characters as fit are kept of head and tail, which never overlap, around the marker; a marker over the limit takes the whole place. If lower-casing keeps the length, the result is within the limit, markers, retained fragments and their newlines included. |
| `ExtractionDocument.BoundedExtractionDocument` | app/lib/crawl-runtime.ts:117-139 | The same with the marker texts in use and a limit of at least 1024. |
| `ExtractionDocument.MarkerFits` | app/lib/crawl-runtime.ts:123-126 | For any lower-casing that keeps the length, marker texts, fragments and the newlines that join them leave room within the limit. |
| `LowerCasing.PlainIsBounded` | app/lib/crawl-runtime.ts:90-126 | Lower-casing lengthens exactly the documents with the capital U+0130; the others are always kept within the limit. |
| `LowerCasing.LoweredSize` | app/lib/crawl-runtime.ts:91 | It keeps the length exactly of the documents without that capital. |
| `LowerCasing.TheBoundCanFail` | app/lib/crawl-runtime.ts:90-126 | For every limit there is a document with that capital, followed by empty structured-data scripts, whose marker alone is over the limit. |
| `LowerCasing.HtmlIsLowerCase` | app/lib/crawl-runtime.ts:97-103 | The tag texts in use meet the conditions of that document. |
| `ExtractionDocument.CutFits` | app/lib/crawl-runtime.ts:127-138 | Any such cut is within the limit. |
| `ExtractionDocument.StructuredFragments` | app/lib/crawl-runtime.ts:90-115 | For any lower-cased text: the scan keeps exactly the slices of the document at the structured-data scripts that still fit, in order. |
| `ExtractionDocument.LeftOutIsTooLarge` | app/lib/crawl-runtime.ts:90-115 | A structured-data script that is not kept is larger than the room that the kept ones leave. |
| `ExtractionDocument.KeptAreScripts` | app/lib/crawl-runtime.ts:90-115 | What is kept are structured-data scripts, in the order of the document. |
| `ExtractionDocument.HeadEnd` | app/lib/crawl-runtime.ts:130-131 | Moving back over continuation bytes ends at the largest whole number of characters that fits. |
| `ExtractionDocument.TailStart` | app/lib/crawl-runtime.ts:132-134 | Moving forward over them ends at the first whole character. |
| `Utf8.RoundTrip` | app/lib/crawl-runtime.ts:118-138 | Decoding undoes encoding (section 3 of RFC 3629). |
| `Utf8.BoundaryIsCut` | app/lib/crawl-runtime.ts:130-134 | A position that does not hold a continuation byte is the end of a whole number of characters. |
| `Utf8.CutIsBoundary` | app/lib/crawl-runtime.ts:130-134 | And the end of a whole number of characters never holds one. |

## Left out

- PublishedMerge.MergeProducts: merging of current and earlier rows, prose, audit fields, component hashes and the byte budget of the published record are not modelled; scores are scaled integers, so floating-point rounding of costs is not either.
- MatchLifecycle.RankOrders: the locale order of identity keys is any total order on numbers.
- OptimalAssignment.Solve: infinite distances are an option type; nothing else of the graph is abstracted.
- PriceWatchRuns.EveryStepIsSafe: notifications, events, audit rows, report links, the email outbox, pause reasons, resolved addresses, last-check times and the projected number of checks are not modelled.
- PriceWatchStore.Store.Activate: the eligible comparisons of a report are an input, since the report store is not part of this model; command receipts are modelled in McpCommands instead.
- PriceWatchStore.Store.Mutate: command receipts are modelled in McpCommands instead.
- PriceWatchStore.Store.Delete: of what its fingerprint counts, report links, notifications and emails are not modelled; observations are.
- PriceWatchStore.Store.DisableWorkspace: an empty workspace id or reason, and a database without these tables, are not modelled.
- PriceWatchRuns.LostClaimStaysLost: owner names are taken to be used for one claim, as the runner does.
- McpRuns.AppliedAtMostOnce: what the operation answers is any outcome or error; the audit log, size limits of JSON and database errors between the transactions are not modelled, a crash is. Confirming a report is not modelled, since its effect runs in a service that is not part of this model.
- McpRateLimit.LimiterIsExact: one clock that does not go back, and one limit and window for the bucket in question, as every caller uses.
- BillingWebhooks.ConvergesExactly: customer and subscription ids that belong to two workspaces, which the table refuses, are not modelled. The reconciliation that follows an update is a step of the ledger.
- Report reservations and internal report quotas are not modelled: the ledger has the harder form of the same accounting.
- BatchScheduler.EveryBatchIsSafe: the promise machinery is two kinds of callbacks that come in any order; a falsy rejection is an empty reason.
- SearchFold.InterruptionsDoNotMatter: what a search and an enrichment yield is fixed per product, the clock does not go back, and a checkpoint that was saved loads as valid; the validators themselves are not modelled.
- BatchPacking.CompleteExactlyWhenAssessedOnce: candidates of one group have different ids and every primary has one group; verdicts and their texts are not modelled.
- HtmlMarkup.StripHtmlIsIdempotent: text is a sequence of characters rather than of UTF-16 units. The extraction of script contents is not modelled.
- ExtractionDocument.BoundedExtractionDocument: text is a sequence of characters rather than of UTF-16 units, the test of a script's type is any predicate on its opening tag, and a document has no lone surrogates.
- Candidate retrieval, prompts, answers of language models, address parsing, storage schemas, pages and outside services are not modelled.
