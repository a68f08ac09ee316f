# Verified model of the CORTEX memory engine and its outbound-call schedulers

A Dafny model of the parts of the backend whose state is changed step by step: the CORTEX tree
store with its self-reclustering viewports, the semantic graph over its nodes, the lead queue,
the campaign dial loop, and the clustering, chunking and viewport-rendering algorithms. The
central claims are stated over every reachable store, every interleaving or every input. What
interleaves are the calls of the CORTEX services, each taken as one step of the database; the
steps of the queue's pollers and call tasks; and the single database accesses of the dial loop
with everything around it.

`dafny verify dfyconfig.toml` checks the whole project.

## How it is laid out

| file | what it holds |
|---|---|
| Basics | small notions the components share |
| CortexModel | nodes, the forest of parent links, sibling order, breadcrumbs, depth-first collection |
| CortexMoves | what inserting a leaf does to children, breadcrumbs and collections |
| CortexRegroup | what reclustering does to them |
| CortexState | trees, services, policies and each operation as a function on the store |
| CortexInvariant, CortexGrowth | the invariant of the store, and how each kind of change keeps it |
| CortexRuns | runs of any number of services; what never changes about an old node |
| CortexWrites | where a written section lands in the assembled output |
| CortexScope | the scope cache, write isolation, navigation and checkpoints, reachable stores |
| CortexEffects | what each operation does to the rows and answers, field by field |
| CortexService | the service as a class over a shared database object, proved against the functions, and any number of them together as a run |
| CortexTallies | the tallies of the proof as counts over runs |
| ViewportText | rendering a viewport within a character budget |
| SemanticGraph | weighted path search and loop erasure |
| EdgeWeights | the life cycle of edge weights |
| LeadQueue | the queue rows, the service on them, and the protocol of pollers and call tasks |
| DialLoop | one campaign executor in a hostile environment |
| Clustering | cosine similarity and greedy clustering |
| Chunker | overlapping chunks |

Node, tree, lead and call ids are counters, so an id is also an insertion number; it stands in
for `created_at` and breaks ties between equal `sibling_order` values, which the SQL leaves open.
The store keeps a tally per node (writes, groups created, moves). In the class it is a ghost
field; `WriteTallies` and `RunTallies` say that it counts what it claims to count.

## Where the code does not do what it says

Each point names the members that prove it: the exact condition where there is one, and where it
can fail an input, a run or a reachable store in which it does.

- A write is meant to append. The order query reads a maximum of 0 as "no children"
  (service.py:523), so children written with automatic orders all get order 0, and the first
  reclustering below them puts the newcomer in front of every child that stayed. A write appends
  exactly when nothing is reclustered or its stale order is at least n − n/2 (`WriteAppendsIff`);
  any distinct non-negative orders are enough (`DistinctOrdersLandLast`). Its section is printed
  last below its parent exactly when it prints nothing or nothing behind it does
  (`WritePrintsLastIff`). Automatic orders fail in both ways for every `max_children` of at least
  2, from the empty store on (`FullNodeBreaksAppend`, `FullNodeBreaksPrinting`, `ReachedFailures`).
- A write whose type or status string is unknown fails, but only after it has reclustered: its
  store has changed exactly when a reclustering was due (`BadEnumReclustersIff`, `ReachedFailures`).
- `child_recursion_default` is documented as "never write up". Nothing enforces
  `can_write_outside`: a write succeeds exactly where a read would (`WriteSucceedsIff`,
  `ChildRecursionWritesUp`).
- `navigate` fetches the parent, so it needs the right to read that as well: a confined service
  cannot navigate to its own scope root unless that is the root of the tree; the cursor has moved
  there by then (`NavigateSucceedsIff`).
- A checkpoint is written below the cursor, so it needs that node's summary
  (`CheckpointSucceedsIff`): after a write without one it fails (`SilentWriteBlocksCheckpoint`).
  After `suspend_tree` the cursor is the checkpoint itself, so `resume_tree` never returns its data
  (`ResumeFindsNoCheckpoint`); it does once someone has navigated back above the checkpoint
  (`CheckpointComesBack`, `ResumeAnswers`).
- `assemble_output` asks for one bridge fewer than there are sections, accepts more, and then ends
  the text with a bridge (`InterleavedShape`).
- `to_prompt_text` says that `max_chars` bounds its output. The loop over the children tests their
  lines, but not the line breaks, the blank lines and the notice: the bound holds exactly when the
  last listed line would have passed the loop's own test with room for those (`FullListWithinIff`,
  `ShortListWithinIff`, `CutLineWithinIff`; `LeafWithinBudgetIff` without children), and even a
  full list can overrun it, by five characters at a tree's root (`FullListOverruns`). The "more
  children" notice counts a child that is shown cut (`CutChildCountedTwice`).
- The graph search explores cycle-free paths only. From a node it reports true maxima at every
  depth exactly when no walk from that node can gain weight by running around a closed stretch on
  its way to another one (`SearchExactIff`, `HeavyLoopGains`); weights in [0, 1] are enough
  (`UnitWeightsNoGain`). Its base term is not subject to `max_depth` (`DepthExceededIff`).
- `mark_failed` looks at no status: when a call is reported completed while its placement is still
  awaited and the placement then raises, the completed lead goes back into the queue (`RevivedIff`,
  `RevivedRun`). While that does not happen completed is final (`CompletedIsFinal`).
- `_active_calls` is meant to hold at most 5 calls. With k pollers it holds at most 5 + (k − 1),
  which some run attains (`ActiveSetBounded`, `CapIsExceeded`). It loses a running call exactly when
  a task ends after its lead was picked again (`CountedIff`, `ActiveSetCountsIff`), and some
  run gets there (`UncountedRun`).
- A stop that arrives after the last status read is overwritten with "completed": the loop comes
  to its end exactly when its last look saw the campaign running, and completion overwrites
  exactly what the moves since then made of the status (`DialLoop.Campaign.Start`, `StopIsLost`).
  Each call is dialled on a look of its own, so no earlier stop is lost unless it was taken back
  (`AttemptsAreLicensed`, `EarlyStopsAreHeeded`). Starting a campaign from any other status than
  draft, scheduled, paused or running marks it failed (`Start`). A campaign without credit has its
  calls marked failed, not skipped as the comment says (campaign_executor.py:158-168,
  `DialLoop.Campaign.Open`).
- The chunk overlap of 50 characters keeps stretches of up to 51 characters whole
  (`ShortStretchSurvives`); any stretch survives exactly when it ends before its own window does
  (`CoveredIff`), and from 52 characters on some do not (`LongerStretchesCanFail`).

## Model

| member | source | states |
|---|---|---|
| `CortexService.CortexService.constructor` | backend/cortex_memory_moved_to_pypi_repo/service.py:206-236 | a service starts with a cache holding its scope root only, and is valid on any reachable store |
| `CortexService.CortexService.FetchNode` | backend/cortex_memory_moved_to_pypi_repo/service.py:939-971 | cache, ancestry query and policy in that order, equal to `GetNode`; the cache grows by the node just found inside |
| `CortexService.CortexService.InsertNode` | backend/cortex_memory_moved_to_pypi_repo/service.py:885-927 | one new row under a fresh id, nothing else changed |
| `CortexService.CortexService.AdoptFirstHalf` | backend/cortex_memory_moved_to_pypi_repo/service.py:1133-1136 | the first loop re-parents and numbers exactly the first half; every other row is untouched |
| `CortexService.CortexService.RenumberSecondHalf` | backend/cortex_memory_moved_to_pypi_repo/service.py:1138-1140 | the second loop renumbers exactly the second half from 1, keeping parents |
| `CortexService.CortexService.ScheduleReclustering` | backend/cortex_memory_moved_to_pypi_repo/service.py:1095-1147 | in-place surgery equals `Recluster`, including the swallowed failure below two children |
| `CortexService.CortexService.WriteNode` | backend/cortex_memory_moved_to_pypi_repo/service.py:470-567 | the whole new store, cache and result equal `Write` in every branch, errors included; the new row has the parent, type, status, summary and content asked for; the invariant holds after it |
| `CortexService.CortexService.ReadNode` | backend/cortex_memory_moved_to_pypi_repo/service.py:435-468 | pending becomes active, the cursor moves, store and cache equal `Read`; the invariant holds after it |
| `CortexService.CortexService.NavigateTo` | backend/cortex_memory_moved_to_pypi_repo/service.py:384-429 | cursor, children, parent check and breadcrumb equal `Navigate`, also when the parent fetch raises |
| `CortexService.CortexService.RecurseInto` | backend/cortex_memory_moved_to_pypi_repo/service.py:573-612 | a pending task node is written below the node, equal to `Recurse` |
| `CortexService.CortexService.SaveCheckpoint` | backend/cortex_memory_moved_to_pypi_repo/service.py:663-706 | a checkpoint node is written below the cursor, equal to `WriteCheckpoint` |
| `CortexService.CortexService.SuspendTree` | backend/cortex_memory_moved_to_pypi_repo/service.py:360-378 | checkpoint first, then the status, equal to `Suspend`; after a success the tree is suspended and the cursor is on the checkpoint |
| `CortexService.CortexService.ResumeTree` | backend/cortex_memory_moved_to_pypi_repo/service.py:338-358 | status test, activation, navigation to the cursor and the text of the newest checkpoint below it, equal to `Resume`; an active or suspended tree is never refused for its status and is active afterwards |
| `CortexService.CortexService.PlantTree` | backend/cortex_memory_moved_to_pypi_repo/service.py:242-336 | root and three anchors and a record counting four nodes, equal to `CreateTree`; the invariant holds after it |
| `CortexService.CortexService.DfsCollect` | backend/cortex_memory_moved_to_pypi_repo/service.py:1041-1057 | the appending recursion returns the given list followed by the sections of the subtree, or the scope error exactly when its start lies outside a confining scope; the cache grows by exactly the scoped nodes of the subtree |
| `CortexService.CortexService.AssembleOutput` | backend/cortex_memory_moved_to_pypi_repo/service.py:744-775 | the printed text holds the depth-first sections of the output root in order, woven with bridges when enough arrived, blank lines between the parts and nothing else; the store stays as it was and the cache equals that of the action `DoAssemble` |
| `CortexService.WeaveBridges` | backend/cortex_memory_moved_to_pypi_repo/service.py:761-775 | the interleaving loop equals the recursive weaving, and falls back to plain joining; part by part the text holds what it should |
| `CortexService.InterleavedShape` | backend/cortex_memory_moved_to_pypi_repo/service.py:765-771 | section i stands at place 2i and bridge i behind it; with surplus bridges the last part is a bridge |
| `CortexService.AssembledReads` | backend/cortex_memory_moved_to_pypi_repo/service.py:758-775 | every section and every woven bridge stands at its offset in the printed text, with or without bridges, and nothing else does |
| `CortexService.SectionsAre` | backend/cortex_memory_moved_to_pypi_repo/service.py:1045-1047 | the i-th section is the content of the i-th collected node |
| `CortexModel.JoinLaysOut` | backend/cortex_memory_moved_to_pypi_repo/service.py:771-775 | joining puts each part at the lengths of the parts before it plus the separators between them, and adds nothing |
| `CortexService.ThroughStep` | backend/cortex_memory_moved_to_pypi_repo/service.py:1056-1057 | each child visited adds exactly its own collection to what was gathered so far |
| `CortexService.CortexService.LoadViewport` | backend/cortex_memory_moved_to_pypi_repo/service.py:406-429 | children, parent fetch and breadcrumb after the cursor has moved |
| `CortexService.NavigateAnyStatus` | backend/cortex_memory_moved_to_pypi_repo/service.py:347-351 | navigation and setting the tree status commute |
| `CortexService.Host.Perform` | backend/cortex_memory_moved_to_pypi_repo/service.py:191-775 | one call of any of the services on one database does what `Act` says, and leaves all of them valid |
| `CortexService.Host.PerformAll` | backend/cortex_memory_moved_to_pypi_repo/service.py:191-775 | any calls of any services in any order, new services and trees included, are a `Run` of the model |
| `CortexEffects.WrittenRow` | backend/cortex_memory_moved_to_pypi_repo/service.py:539-559 | field by field: after a successful write the new row has the type, status, content, summary and order asked for, its parent, the tree and one more than the depth of the parent |
| `CortexEffects.AutomaticOrder` | backend/cortex_memory_moved_to_pypi_repo/service.py:517-523 | an automatic order is one more than the largest below the parent, but 0 if that is 0 |
| `CortexEffects.FirstOrder` | backend/cortex_memory_moved_to_pypi_repo/service.py:517-523 | the first child gets order 0 |
| `CortexEffects.WriteOutcome` | backend/cortex_memory_moved_to_pypi_repo/service.py:503-541 | which error a write raises, and that it otherwise succeeds: missing parent, scope, missing summary, unknown names, in this order |
| `CortexEffects.WriteRecords` | backend/cortex_memory_moved_to_pypi_repo/service.py:525-564 | the cursor is on the new node, the count grows by it and by the group if one was due, no other record changes |
| `CortexEffects.SummaryDecides` | backend/cortex_memory_moved_to_pypi_repo/service.py:509-515 | the next write below the new node passes the summary test, and the next checkpoint succeeds, if and only if the write gave a summary |
| `CortexEffects.GroupRows` | backend/cortex_memory_moved_to_pypi_repo/service.py:1114-1140 | field by field: the group takes its type from the first child and stands in front, the first half hangs below it numbered from 0, the others follow numbered from 1, no other row changes |
| `CortexEffects.DigitsRead` | backend/cortex_memory_moved_to_pypi_repo/service.py:1119 | the number in the group summary reads as the number of moved children |
| `CortexEffects.ReadEffect` | backend/cortex_memory_moved_to_pypi_repo/service.py:444-450 | reading turns pending into active, moves the cursor and changes nothing else |
| `CortexEffects.NavigateShows` | backend/cortex_memory_moved_to_pypi_repo/service.py:396-429 | the viewport lists exactly the children, by order and age, the parent, and the path from the root; the store changes in the cursor alone |
| `CortexEffects.AncestryIs` | backend/cortex_memory_moved_to_pypi_repo/service.py:1059-1080 | the only path of parent links from a root to a node decides ancestry and scope |
| `CortexEffects.TaskRow` | backend/cortex_memory_moved_to_pypi_repo/service.py:592-606 | the task node is a pending task below the node with the request as content and the first 500 characters of the task as summary |
| `CortexEffects.CheckpointRow` | backend/cortex_memory_moved_to_pypi_repo/service.py:690-706 | the checkpoint is a complete node below the old cursor with the given content; the cursor moves to it |
| `CortexEffects.SuspendEffect` | backend/cortex_memory_moved_to_pypi_repo/service.py:360-378 | suspending differs from a checkpoint in the status alone, which becomes suspended |
| `CortexEffects.ResumeSucceedsIff` | backend/cortex_memory_moved_to_pypi_repo/service.py:338-358 | resume answers if and only if the tree is active or suspended and the cursor can be navigated to, and leaves it active |
| `CortexEffects.SuspendedIsResumable` | backend/cortex_memory_moved_to_pypi_repo/service.py:338-378 | after a suspend no resume fails for the status; it succeeds exactly when its service may navigate to the checkpoint |
| `CortexEffects.ResumeAnswers` | backend/cortex_memory_moved_to_pypi_repo/service.py:1022-1039 | resume returns a text if and only if the newest checkpoint below the cursor has it |
| `CortexEffects.CheckpointComesBack` | backend/cortex_memory_moved_to_pypi_repo/service.py:1022-1039 | after a checkpoint and a navigation back above it, by any service, resume returns what was saved |
| `CortexEffects.TreeRows` | backend/cortex_memory_moved_to_pypi_repo/service.py:262-336 | field by field: the four rows of a new tree and its record |
| `CortexEffects.CollectExactly` | backend/cortex_memory_moved_to_pypi_repo/service.py:1041-1057 | collected are exactly the complete nodes with a text on whose path the start lies |
| `CortexEffects.CollectOrdered` | backend/cortex_memory_moved_to_pypi_repo/service.py:1041-1057 | a collected node comes before what is below it, and of two siblings all that is below the first comes before all that is below the second |
| `CortexModel.Path` | backend/cortex_memory_moved_to_pypi_repo/service.py:1002-1020 | the breadcrumb ends at the node and names existing nodes only |
| `CortexModel.PathFollowsParents` | backend/cortex_memory_moved_to_pypi_repo/service.py:1008-1018 | it starts at a node without parent, follows parent links, and repeats no node |
| `CortexModel.WithinTransitive` | backend/cortex_memory_moved_to_pypi_repo/service.py:1059-1080 | ancestry is transitive |
| `CortexModel.SiblingsOnPath` | backend/cortex_memory_moved_to_pypi_repo/service.py:1059-1080 | no breadcrumb holds two children of one node |
| `CortexModel.ChildrenListed` | backend/cortex_memory_moved_to_pypi_repo/service.py:407-411 | the child query lists exactly the children, strictly in sibling order |
| `CortexModel.ListingUnique` | backend/cortex_memory_moved_to_pypi_repo/service.py:407-411 | sibling order with the insertion tie-break admits one listing only |
| `CortexModel.CollectFinds` | backend/cortex_memory_moved_to_pypi_repo/service.py:1041-1057 | the depth-first walk finds exactly the complete nodes with content in the subtree |
| `CortexModel.CollectDistinct` | backend/cortex_memory_moved_to_pypi_repo/service.py:1041-1057 | it collects no node twice |
| `CortexRegroup.RegroupForest` | backend/cortex_memory_moved_to_pypi_repo/service.py:1121-1140 | re-parenting under the group keeps the parent links acyclic |
| `CortexRegroup.RegroupChildren` | backend/cortex_memory_moved_to_pypi_repo/service.py:1114-1140 | afterwards the parent lists the group and the second half, the group lists the first half, every other node what it did |
| `CortexRegroup.RegroupPath` | backend/cortex_memory_moved_to_pypi_repo/service.py:1133-1136 | erasing the group from any breadcrumb gives the old breadcrumb |
| `CortexRegroup.RegroupWithin` | backend/cortex_memory_moved_to_pypi_repo/service.py:1133-1136 | ancestry among old nodes is unchanged, and the group has its parent's ancestors |
| `CortexRegroup.RegroupCollect` | backend/cortex_memory_moved_to_pypi_repo/service.py:1103-1143 | every depth-first collection is what it was before the surgery |
| `CortexWrites.ReclusterKeepsMeaning` | backend/cortex_memory_moved_to_pypi_repo/service.py:1095-1147 | for any parent and any node: same sections in the same order, same text, same ancestors, before and after `_schedule_reclustering` |
| `CortexMoves.InsertChildren` | backend/cortex_memory_moved_to_pypi_repo/service.py:546-559 | a new row enters its parent's listing at its slot and no other listing changes |
| `CortexMoves.InsertSplices` | backend/cortex_memory_moved_to_pypi_repo/service.py:546-559 | it splices its section into every enclosing collection and changes nothing around it |
| `CortexMoves.InsertElsewhere` | backend/cortex_memory_moved_to_pypi_repo/service.py:546-559 | collections that do not enclose it are unchanged |
| `CortexWrites.MaxOrderIsMaximum` | backend/cortex_memory_moved_to_pypi_repo/service.py:519-522 | the order query yields the maximum of the children's orders, −1 without children |
| `CortexWrites.RoomyChildren` | backend/cortex_memory_moved_to_pypi_repo/service.py:526-537 | the children right before the newcomer: the group and the second half numbered 0, 1, 2, …, or the old children |
| `CortexWrites.WritePosition` | backend/cortex_memory_moved_to_pypi_repo/service.py:517-559 | the newcomer's exact place among its siblings, given the order computed before reclustering |
| `CortexWrites.WriteAppendsIff` | backend/cortex_memory_moved_to_pypi_repo/service.py:517-559 | a write without explicit order becomes the last child if and only if nothing is reclustered or the stale order is at least n − n/2 |
| `CortexWrites.WriteSplices` | backend/cortex_memory_moved_to_pypi_repo/service.py:470-567 | for every node, the assembled list changes only by the new section; landing last, it follows everything collected from the parent |
| `CortexWrites.DistinctOrdersLandLast` | backend/cortex_memory_moved_to_pypi_repo/service.py:517-537 | distinct non-negative orders are enough to land last |
| `CortexWrites.AutomaticOrdersStayZero` | backend/cortex_memory_moved_to_pypi_repo/service.py:519-523 | children written with automatic orders all have order 0, because a maximum of 0 is taken for none |
| `CortexWrites.ZeroOrdersBreakAppend` | backend/cortex_memory_moved_to_pypi_repo/service.py:519-537 | their first reclustering puts the newcomer between the group and the children that stayed |
| `CortexWrites.FullNodeBreaksAppend` | backend/cortex_memory_moved_to_pypi_repo/service.py:519-537 | for every max_children M of at least 2: a node with M such children puts the next one in front of the half written last |
| `CortexWrites.WritePrintsLastIff` | backend/cortex_memory_moved_to_pypi_repo/service.py:517-559 | the new section is printed last of all below its parent if and only if it prints nothing or nothing behind its place prints |
| `CortexWrites.FullNodeBreaksPrinting` | backend/cortex_memory_moved_to_pypi_repo/service.py:519-559 | for every M of at least 2: below a node with M such children, the last of which prints, the next section to print comes out of turn |
| `CortexWrites.BadEnumReclustersIff` | backend/cortex_memory_moved_to_pypi_repo/service.py:526-541 | an unknown type or status fails the write, with a changed store if and only if a reclustering was due |
| `CortexScope.FillsWithZeros` | backend/cortex_memory_moved_to_pypi_repo/service.py:470-567 | a run of n automatic writes below a node with k children of order 0 leaves it with k + n of them, as long as they fit |
| `CortexScope.ReachedFailures` | backend/cortex_memory_moved_to_pypi_repo/service.py:517-541 | for every M of at least 2 a run from the empty store reaches an anchor whose next automatic write does not append, fails with a changed store when its type is unknown and, if the written sections print, prints out of turn |
| `CortexInvariant.ReclusteredMoves` | backend/cortex_memory_moved_to_pypi_repo/service.py:1129-1136 | each node sinks by exactly the number of its ancestors-or-self that were moved |
| `CortexInvariant.ReclusteredCounts` | backend/cortex_memory_moved_to_pypi_repo/service.py:1114-1140 | child counts after reclustering: k − k/2 + 1 at the parent, k/2 at the group, the rest unchanged |
| `CortexInvariant.AbsorbedProduct` | backend/cortex_memory_moved_to_pypi_repo/service.py:1114-1140 | g groups have absorbed g · (⌊M/2⌋ − 1) children |
| `CortexInvariant.BalancedAfterGroup` | backend/cortex_memory_moved_to_pypi_repo/service.py:1111-1140 | one reclustering of a full viewport keeps the account of children, writes and groups balanced |
| `CortexRuns.MakeRoomKeeps` | backend/cortex_memory_moved_to_pypi_repo/service.py:526-537 | the count test and reclustering leave room for one more child, keep the invariant and every collection |
| `CortexRuns.WriteUnderKeeps` | backend/cortex_memory_moved_to_pypi_repo/service.py:509-567 | a write, whatever its outcome, keeps the invariant and what is permanent about old nodes |
| `CortexRuns.EvolvedTransitive` | backend/cortex_memory_moved_to_pypi_repo/service.py:1041-1057 | permanence composes: old sections of old sections |
| `CortexRuns.CreateTreeKeeps` | backend/cortex_memory_moved_to_pypi_repo/service.py:242-336 | a new tree keeps the invariant and leaves every other tree alone |
| `CortexRuns.ReadKeeps` | backend/cortex_memory_moved_to_pypi_repo/service.py:435-468 | reading keeps the invariant and every collection |
| `CortexRuns.ResumeKeeps` | backend/cortex_memory_moved_to_pypi_repo/service.py:338-358 | resuming keeps them |
| `CortexRuns.ActKeeps` | backend/cortex_memory_moved_to_pypi_repo/service.py:191-710 | any one operation of any service keeps them |
| `CortexRuns.RunKeeps` | backend/cortex_memory_moved_to_pypi_repo/service.py:191-710 | any run of any services keeps the invariant; old nodes keep text, ancestry and every collected section in order |
| `CortexScope.CacheAgrees` | backend/cortex_memory_moved_to_pypi_repo/service.py:948-971 | with a correct cache the fetch answers exactly as the ancestry query and the policy say, and the cache stays correct |
| `CortexScope.CacheSurvives` | backend/cortex_memory_moved_to_pypi_repo/service.py:232-236 | whatever any service does, a correct cache stays correct |
| `CortexScope.RunKeepsWorld` | backend/cortex_memory_moved_to_pypi_repo/service.py:232-236 | in every run, assembling included, all caches agree with the ancestry query, whoever reclusters |
| `CortexScope.WritesStayInside` | backend/cortex_memory_moved_to_pypi_repo/service.py:503-507 | under a confining policy a write, failed ones included, changes no node outside the subtree and creates none there |
| `CortexScope.WriteSucceedsIff` | backend/cortex_memory_moved_to_pypi_repo/service.py:973-987 | a well-formed write succeeds if and only if its parent may be read; the write flag plays no part |
| `CortexScope.ChildRecursionWritesUp` | backend/cortex_memory_moved_to_pypi_repo/scope_policy.py:32-40 | a child run under its default policy writes to the root above its scope |
| `CortexScope.NavigateSucceedsIff` | backend/cortex_memory_moved_to_pypi_repo/service.py:396-418 | any service can navigate to a node if and only if it may read it and its parent, so a confined one to the proper descendants of its scope root, and to that root if it has no parent; the cursor moves to every node that may be read and to no other |
| `CortexScope.CheckpointSucceedsIff` | backend/cortex_memory_moved_to_pypi_repo/service.py:675-706 | for any service a checkpoint succeeds if and only if the cursor node has a summary and may be read |
| `CortexScope.SilentWriteBlocksCheckpoint` | backend/cortex_memory_moved_to_pypi_repo/service.py:561-564 | after a write without summary by any service its next checkpoint fails |
| `CortexScope.ResumeFindsNoCheckpoint` | backend/cortex_memory_moved_to_pypi_repo/service.py:350-354 | suspend then resume never returns the checkpoint just written |
| `CortexScope.ReachedBreadcrumbs` | backend/cortex_memory_moved_to_pypi_repo/service.py:511-515 | in every reachable store each breadcrumb leads from the only root of the tree to the node, inside the tree, through nodes with a summary when the task was described |
| `CortexScope.ReachedTrees` | backend/cortex_memory_moved_to_pypi_repo/service.py:561-564 | `total_nodes` is the number of nodes and the cursor names a node of the tree |
| `CortexScope.ReachedViewports` | backend/cortex_memory_moved_to_pypi_repo/service.py:525-537 | no node, groups included, ever has more than max(max_children, 4) children |
| `CortexScope.ReachedGroupsArePaid` | backend/cortex_memory_moved_to_pypi_repo/service.py:1111-1142 | groups created under a node times (⌊M/2⌋ − 1) never exceed the writes to it |
| `CortexScope.ReachedDepths` | backend/cortex_memory_moved_to_pypi_repo/service.py:1129-1136 | true depth is stored depth plus the moves along the breadcrumb, so stored depth never exceeds it |
| `CortexScope.SectionsSurvive` | backend/cortex_memory_moved_to_pypi_repo/service.py:744-775 | a longer run never drops or reorders a section that was collected before |
| `CortexScope.OperationsStayInside` | backend/cortex_memory_moved_to_pypi_repo/service.py:939-971 | no operation of a confined service changes a node outside its subtree or creates one there |
| `CortexScope.RunsStayInside` | backend/cortex_memory_moved_to_pypi_repo/service.py:939-971 | however many confined services interleave, opened before or during the run, and whatever trees are created, a node outside all their subtrees keeps its row and its breadcrumb |
| `CortexScope.ReachedStayInside` | backend/cortex_memory_moved_to_pypi_repo/service.py:939-971 | isolation of every operation in every reachable world |
| `CortexTallies.WriteTallies` | backend/cortex_memory_moved_to_pypi_repo/service.py:509-564 | writes, groups and moves are tallied exactly, by failed writes that recluster as well |
| `CortexTallies.RunTallies` | backend/cortex_memory_moved_to_pypi_repo/service.py:191-710 | over any run each tally grows by the successful writes, the reclusterings and the changes of parent of the run |
| `CortexTallies.GroupsArePaidByRun` | backend/cortex_memory_moved_to_pypi_repo/service.py:1111-1142 | counted over a whole run: groups under a node times (⌊M/2⌋ − 1) never exceed the successful writes to it |
| `CortexTallies.DepthLagsByRun` | backend/cortex_memory_moved_to_pypi_repo/service.py:1129-1136 | true depth is stored depth plus the changes of parent counted over the run along the breadcrumb |
| `ViewportText.ListChildren` | backend/cortex_memory_moved_to_pypi_repo/service.py:127-145 | the loop shows the longest prefix of children that fits, a cut first line if none does, and a notice for the rest |
| `ViewportText.ToPromptText` | backend/cortex_memory_moved_to_pypi_repo/service.py:87-157 | the rendered text, part by part, for that longest prefix |
| `ViewportText.NodeReads` | backend/cortex_memory_moved_to_pypi_repo/service.py:89-125 | the pieces of the block about a node and of the line of a child, each at its place |
| `ViewportText.CrumbReads` | backend/cortex_memory_moved_to_pypi_repo/service.py:111-140 | the navigation path names every node on the way in order; the notice names the number of the others |
| `ViewportText.BlockReads` | backend/cortex_memory_moved_to_pypi_repo/service.py:127-145 | the block of children shows the first lines in order and a notice, or a piece of the first one and a notice |
| `ViewportText.TextReads` | backend/cortex_memory_moved_to_pypi_repo/service.py:87-157 | which parts the text has, decided by their joined lengths, in which order, and nothing between them but blank lines |
| `ViewportText.FitsIff` | backend/cortex_memory_moved_to_pypi_repo/service.py:108-109 | the fitting test is exact: it passes just when the joined text stays within budget |
| `ViewportText.HelpIsSafe` | backend/cortex_memory_moved_to_pypi_repo/service.py:153-155 | the operations text neither breaks a budget that was kept nor mends one that was not |
| `ViewportText.LeafWithinBudgetIff` | backend/cortex_memory_moved_to_pypi_repo/service.py:147-150 | without children the output is within budget if and only if the node's own block is |
| `ViewportText.RenderedIs` | backend/cortex_memory_moved_to_pypi_repo/service.py:111-157 | with children the text is head, block of children and perhaps the help, for the longest fitting prefix of lines |
| `ViewportText.FullListWithinIff` | backend/cortex_memory_moved_to_pypi_repo/service.py:127-145 | all children listed: within budget if and only if help was asked for or the last line would have passed the loop's test with room for the line breaks and blank lines |
| `ViewportText.ShortListWithinIff` | backend/cortex_memory_moved_to_pypi_repo/service.py:127-145 | some left out: within budget if and only if the last listed line would have passed with room for the notice as well |
| `ViewportText.CutLineWithinIff` | backend/cortex_memory_moved_to_pypi_repo/service.py:137-142 | first line cut: within budget if and only if head, notice and at most max(80, budget/4) characters of it fit |
| `ViewportText.OverrunBounded` | backend/cortex_memory_moved_to_pypi_repo/service.py:127-157 | once the first child fits, the overrun is at most 5 characters, or the notice and 6, less the headroom |
| `ViewportText.CutChildCountedTwice` | backend/cortex_memory_moved_to_pypi_repo/service.py:138-142 | lines and notice add up to the children if and only if the first line fits |
| `ViewportText.FullListOverruns` | backend/cortex_memory_moved_to_pypi_repo/service.py:99-106 | for every budget of at least 256 the viewport of a tree root with one child, listed in full, that is five characters over it |
| `SemanticGraph.RowHasWalk` | backend/cortex_memory_moved_to_pypi_repo/graph.py:119-148 | every row of the recursive query is a cycle-free walk with its product, length and path |
| `SemanticGraph.WalkHasRow` | backend/cortex_memory_moved_to_pypi_repo/graph.py:119-148 | every cycle-free walk is a row |
| `SemanticGraph.RowsAreWalks` | backend/cortex_memory_moved_to_pypi_repo/graph.py:113-148 | edge by edge: a row is a walk of edges that are heavy enough and of a wanted type, never coming back to a node, within the bound or of one edge; and each such walk is a row, with its type, product, length and path |
| `SemanticGraph.ReportedRows` | backend/cortex_memory_moved_to_pypi_repo/graph.py:149-154 | each node with a row is reported once, with a row no lighter than any of them |
| `SemanticGraph.ProductOfSum` | backend/cortex_memory_moved_to_pypi_repo/graph.py:139 | the weight of a walk is the product of the weights of its parts |
| `SemanticGraph.LoopErasure` | backend/cortex_memory_moved_to_pypi_repo/graph.py:143-147 | cutting loops out of a walk makes it no longer and, unless a loop multiplies weights, no lighter |
| `SemanticGraph.ReportExists` | backend/cortex_memory_moved_to_pypi_repo/graph.py:149-154 | some answer always meets the rules of the query |
| `SemanticGraph.BestPathSearch` | backend/cortex_memory_moved_to_pypi_repo/graph.py:118-154 | each reported weight is attained by a walk, and is the maximum over all walks within the depth bound unless one of them gains weight on a closed stretch |
| `SemanticGraph.UnitWeightsNoGain` | backend/cortex_memory_moved_to_pypi_repo/graph.py:139 | weights in [0, 1] leave no such stretch |
| `SemanticGraph.FoundIffReachable` | backend/cortex_memory_moved_to_pypi_repo/graph.py:118-154 | a node other than the start is reported if and only if such a walk exists, whatever the weights |
| `SemanticGraph.FoundIffConnected` | backend/cortex_memory_moved_to_pypi_repo/graph.py:113-154 | the same edge by edge: a node is found if and only if edges that are heavy enough and of a wanted type lead to it within the bound |
| `SemanticGraph.StartFoundIffSelfLoop` | backend/cortex_memory_moved_to_pypi_repo/graph.py:146 | the start is reported if and only if it has a usable edge to itself |
| `SemanticGraph.GainIsMissed` | backend/cortex_memory_moved_to_pypi_repo/graph.py:139-146 | a closed stretch that multiplies weights makes every answer from some depth on report less than the maximum for a node |
| `SemanticGraph.SearchExactIff` | backend/cortex_memory_moved_to_pypi_repo/graph.py:118-154 | the search from a node is exact at all depths if and only if no walk from it gains weight on a closed stretch on the way to another node |
| `SemanticGraph.HeavyLoopGains` | backend/cortex_memory_moved_to_pypi_repo/graph.py:139-146 | a graph of two edges where it is not |
| `SemanticGraph.DepthExceededIff` | backend/cortex_memory_moved_to_pypi_repo/graph.py:120-132 | a row deeper than `max_depth` comes out if and only if the bound is below 1 and a usable edge leaves the start |
| `EdgeWeights.EdgeStore.CreateEdge` | backend/cortex_memory_moved_to_pypi_repo/graph.py:57-95 | upsert: a known edge gains 0.05, up to 1.0, and one traversal; a new one gets the weight it was given; no other edge moves |
| `EdgeWeights.EdgeStore.TrackCoAccess` | backend/cortex_memory_moved_to_pypi_repo/graph.py:334-355 | the nested loops upsert exactly the pairs of the list, in order, and count them |
| `EdgeWeights.EdgeStore.DecayWeights` | backend/cortex_memory_moved_to_pypi_repo/graph.py:361-376 | one sweep leaves 95 hundredths, rounded, of each stale weight above 0.01, at least 0.01, and touches nothing else; the number of rows it changed |
| `EdgeWeights.EdgeStore.PruneWeakEdges` | backend/cortex_memory_moved_to_pypi_repo/graph.py:378-386 | exactly the edges below 0.01 go, and are counted |
| `EdgeWeights.Perform` | backend/cortex_memory_moved_to_pypi_repo/graph.py:57-386 | each action of a run is what the store does |
| `EdgeWeights.RunKeepsRange` | backend/cortex_memory_moved_to_pypi_repo/graph.py:76-83 | an edge once in [0.01, 1.0] stays in the table and in that range under any mix of operations |
| `EdgeWeights.PruneDeletesIff` | backend/cortex_memory_moved_to_pypi_repo/graph.py:378-386 | pruning deletes an edge if and only if it lies below 0.01, decayed before or not |
| `EdgeWeights.FadeStep` | backend/cortex_memory_moved_to_pypi_repo/graph.py:363-369 | one sweep takes at least 0.0005 off or lands on 0.01, the latter exactly from 0.0105 down |
| `EdgeWeights.FadesAway` | backend/cortex_memory_moved_to_pypi_repo/graph.py:361-376 | n sweeps leave at most w − 0.0005 n, and exactly 0.01 once that bound gets there |
| `EdgeWeights.UntouchedFades` | backend/cortex_memory_moved_to_pypi_repo/graph.py:361-376 | in any run an untouched edge is faded once for each sweep and by nothing else |
| `EdgeWeights.UntouchedRestsAtFloor` | backend/cortex_memory_moved_to_pypi_repo/graph.py:361-376 | after enough sweeps it rests at exactly 0.01 and is still there |
| `EdgeWeights.PairsHave` | backend/cortex_memory_moved_to_pypi_repo/graph.py:344-345 | the pairs are exactly (earlier, later) |
| `EdgeWeights.PairsCount` | backend/cortex_memory_moved_to_pypi_repo/graph.py:343-355 | the returned count is n(n − 1)/2 |
| `EdgeWeights.CoAccessOnce` | backend/cortex_memory_moved_to_pypi_repo/graph.py:344-354 | without repeated ids each pair is created at 0.3 or boosted by 0.05 once, and no other edge moves |
| `LeadQueue.LeadQueueService.EnqueueLead` | backend/src/ai/lead_queue_service.py:27-77 | a known lead changes nothing and returns none; a new one becomes a pending row |
| `LeadQueue.LeadQueueService.PickNextLead` | backend/src/ai/lead_queue_service.py:79-124 | the waiting row with the lowest priority number, of several the oldest, that is not locked becomes queued with one more attempt; none only if there is none |
| `LeadQueue.LeadQueueService.MarkCalling` | backend/src/ai/lead_queue_service.py:126-140 | status calling, whatever it was |
| `LeadQueue.LeadQueueService.MarkCompleted` | backend/src/ai/lead_queue_service.py:142-157 | status completed, whatever it was |
| `LeadQueue.LeadQueueService.MarkFailed` | backend/src/ai/lead_queue_service.py:159-193 | pending while attempts remain, else failed; a missing row is left missing |
| `LeadQueue.DoKeeps` | backend/src/ai/lead_queue_worker.py:28-129 | every step of the protocol keeps ownership, attempts and status consistent |
| `LeadQueue.StepRows` | backend/src/ai/lead_queue_service.py:100-193 | what each protocol step does to each row: queued with one more attempt, calling, pending or failed by the attempts left, completed, or nothing |
| `LeadQueue.StepSets` | backend/src/ai/lead_queue_worker.py:28-129 | which rows there are, which pick a poller may make, the cap of 5 at the check, and who enters and leaves the active set |
| `LeadQueue.StepTasks` | backend/src/ai/lead_queue_worker.py:28-108 | the phases a call task goes through, and which step takes it where |
| `LeadQueue.RevivedIff` | backend/src/ai/lead_queue_worker.py:96-98 | a step takes a lead out of completed if and only if it reports the failed placement of a call whose completion was reported first; it waits again if and only if attempts remain |
| `LeadQueue.CompletedRevives` | backend/src/voice/websocket_handler.py:1672 | from any linked task: completion by the voice session, then the failure report, revive the lead if and only if attempts remain |
| `LeadQueue.RevivedRun` | backend/src/ai/lead_queue_worker.py:81-98 | a run from the empty queue in which a completed lead goes back to pending |
| `LeadQueue.CompletedIsFinal` | backend/src/ai/lead_queue_service.py:142-157 | while no completion overtakes a placement, completed is final |
| `LeadQueue.OneOwner` | backend/src/ai/lead_queue_service.py:79-111 | in every interleaving a lead has at most one owner, exactly one while queued or calling, and pending implies attempts left |
| `LeadQueue.LeadsStayUnique` | backend/src/ai/lead_queue_service.py:59-61 | no two rows share company and lead |
| `LeadQueue.PicksBounded` | backend/src/ai/lead_queue_service.py:101-111 | `attempt_count` is the number of picks and never exceeds `max_attempts` |
| `LeadQueue.StepSpends` | backend/src/ai/lead_queue_service.py:100-193 | each pick and each mark uses up credit, a new lead brings in twelve |
| `LeadQueue.NoEndlessRetries` | backend/src/ai/lead_queue_service.py:100-193 | a run holds at most twelve picks and marks for each accepted lead |
| `LeadQueue.ActiveSetBounded` | backend/src/ai/lead_queue_worker.py:117-127 | with k pollers the active set holds at most 5 + (k − 1) leads |
| `LeadQueue.CapIsExceeded` | backend/src/ai/lead_queue_worker.py:117-127 | for every number of pollers a run attains that bound |
| `LeadQueue.RetriedTaskUncounted` | backend/src/ai/lead_queue_worker.py:96-108 | from any state with a failing task whose lead is next, a run leads to a live task missing from the active set |
| `LeadQueue.UncountedRun` | backend/src/ai/lead_queue_worker.py:96-129 | a run from the empty queue to a call task that has just started and whose lead is not in the active set |
| `LeadQueue.CountedIff` | backend/src/ai/lead_queue_worker.py:96-129 | if the active set knows the lead of every task, it does so after a step if and only if the step is not the end of a task whose lead another task has picked again |
| `LeadQueue.ActiveSetCountsIff` | backend/src/ai/lead_queue_worker.py:96-129 | in a run from the empty queue the set knows every task all the time if and only if no such end occurs |
| `DialLoop.Campaign.WaitForSlot` | backend/src/ai/campaign_executor.py:300-343 | at most 60 rounds, none if a slot is free or there is no limit; it ends without a slot only when the campaign was seen not running or all 60 rounds are over; meanwhile only the surroundings move |
| `DialLoop.Campaign.PlaceCall` | backend/src/ai/campaign_executor.py:345-512 | one attempt, with at most one more call in calling than before; the call ends up failed when it was refused, had no number or broke, and otherwise in calling or in what the surroundings reported of it since; it is linked once it has a voice session |
| `DialLoop.Campaign.DialNext` | backend/src/ai/campaign_executor.py:190-217 | one round looks at the status once and dials its call if and only if it saw running; nothing else undialled is touched |
| `DialLoop.Campaign.DialRound` | backend/src/ai/campaign_executor.py:190-217 | each round keeps what the loop has promised so far: the dialled prefix, the untouched rest, the limit, the time it takes, and the look that came last |
| `DialLoop.Campaign.DialNow` | backend/src/ai/campaign_executor.py:203-217 | between status read, count and placement the surroundings may move; still one call goes out, past the limit only after an interrupted or capped wait, and soon if a slot is free |
| `DialLoop.Campaign.ReadySlot` | backend/src/ai/campaign_executor.py:206-208 | a slot that was free is still free after the surroundings have moved; without one the wait was interrupted or as long as waits can be, by the log |
| `DialLoop.Campaign.Dial` | backend/src/ai/campaign_executor.py:188-217 | a prefix of the snapshot is dialled in order, each call once and each after a look of its own that saw the campaign running; the last look saw running, or the reason of the break; calls in calling exceed the limit and their earlier peak by no more than the attempts which the log shows right after an interrupted or capped wait; n calls take at most 126 n moves, whatever gets stuck |
| `DialLoop.Campaign.SkipPending` | backend/src/ai/campaign_executor.py:220-235 | exactly the pending calls become skipped |
| `DialLoop.Campaign.TakeSnapshot` | backend/src/ai/campaign_executor.py:97-108 | the snapshot is ordered by creation and holds every undialled call |
| `DialLoop.Campaign.Open` | backend/src/ai/campaign_executor.py:69-178 | when a start is refused, ignored, blocked for credit or goes ahead, and what it leaves; the surroundings move between the refusing status read and its consequence as well |
| `DialLoop.Campaign.Halt` | backend/src/ai/campaign_executor.py:219-237 | after the break undialled calls are skipped or kept by the status that was read, whatever it is by then |
| `DialLoop.Campaign.End` | backend/src/ai/campaign_executor.py:219-250 | after a break the calls go by its reason, otherwise the campaign is completed and nothing else moves |
| `DialLoop.Campaign.Launch` | backend/src/ai/campaign_executor.py:89-108 | the campaign is set running and the snapshot taken, with moves of the surroundings in between |
| `DialLoop.Campaign.RunCalls` | backend/src/ai/campaign_executor.py:188-250 | from the snapshot to the end: prefix dialled, which look decided, what becomes of the rest, by how much the limit can be exceeded, what completion overwrites |
| `DialLoop.Campaign.Start` | backend/src/ai/campaign_executor.py:58-266 | at exit: undialled calls are all skipped after a stop, all pending after a pause, none left after completion; the loop came to its end if and only if its last look saw the campaign running; calls in calling exceed the limit and their earlier peak by no more than the attempts which the log shows right after an interrupted or capped wait, so a campaign that starts within its limit keeps it if from the moment it was set running it runs on until the last attempt and no wait is capped; n calls take at most 126 n + 4 moves; completion overwrites what the moves since the last look made of the status |
| `DialLoop.StopIsLost` | backend/src/ai/campaign_executor.py:239-250 | a draft with one call, started and placed while a single move, a stop after the last look, is seen by no one: the run ends up completed |
| `DialLoop.NoneBypassedUndisturbed` | backend/src/ai/campaign_executor.py:300-343 | over any stretch of the log in which the campaign runs on until the last attempt and no attempt follows a wait as long as waits can be, no call bypassed the wait |
| `DialLoop.AttemptsAreLicensed` | backend/src/ai/campaign_executor.py:190-217 | every attempt follows a look of its own: it saw the campaign running, the campaign was running just then, and neither a look nor an attempt lies between |
| `DialLoop.EarlyStopsAreHeeded` | backend/src/ai/campaign_executor.py:190-201 | a pause or stop that a later look did not see had been taken back by then, so only those after the last look can be lost |
| `DialLoop.AskedLast` | backend/src/ai/campaign_executor.py:190-201 | the look that the loop remembers is the last one of the log |
| `DialLoop.QuietStretch` | backend/src/ai/campaign_executor.py:190-201 | over any stretch in which the campaign is not running at most one more call is placed |
| `DialLoop.TrailingCounts` | backend/src/ai/campaign_executor.py:190-212 | the monitor behind it counts attempts since the campaign last ran |
| `DialLoop.PromptIs` | backend/src/ai/campaign_executor.py:190-212 | prompt means that at no moment more than one call had been attempted since the campaign last ran |
| `DialLoop.Beginnings` | backend/src/ai/campaign_executor.py:320-329 | what an empty log adds up to, and that in calling are exactly the calls with that status |
| `DialLoop.InOrderLists` | backend/src/ai/campaign_executor.py:98-107 | the snapshot order lists each pending call once, oldest first |
| `Clustering.CauchySchwarz` | backend/cortex_memory_moved_to_pypi_repo/dreaming.py:553-555 | Cauchy–Schwarz for the three sums, over real vectors of any length |
| `Clustering.DotOfSum` | backend/cortex_memory_moved_to_pypi_repo/dreaming.py:553 | the dot product is the sum of the products, additive over any split of the vectors |
| `Clustering.CosineSimilarity` | backend/cortex_memory_moved_to_pypi_repo/dreaming.py:542-558 | the loop form equals the quotient of sums: times the two norms it gives the dot product; it lies in [−1, 1]; degenerate vectors score 0 |
| `Clustering.CosineBounded` | backend/cortex_memory_moved_to_pypi_repo/dreaming.py:551-558 | similarity lies in [−1, 1] |
| `Clustering.CosineSymmetric` | backend/cortex_memory_moved_to_pypi_repo/dreaming.py:551-558 | similarity is symmetric |
| `Clustering.Gather` | backend/cortex_memory_moved_to_pypi_repo/dreaming.py:525-536 | the inner loop takes exactly the later positions whose earliest leader is i |
| `Clustering.Greedy` | backend/cortex_memory_moved_to_pypi_repo/dreaming.py:519-538 | the nested loops produce one rising cluster for each leader, in order |
| `Clustering.ClusterObservations` | backend/cortex_memory_moved_to_pypi_repo/dreaming.py:505-540 | the same for the embedded observations, the short cuts below two included; members are more than 0.75 similar to the first of their cluster, first ones at most 0.75 to each other |
| `Clustering.ClustersPartition` | backend/cortex_memory_moved_to_pypi_repo/dreaming.py:505-540 | each embedded observation is in exactly one cluster |
| `Clustering.ClustersFitLeaders` | backend/cortex_memory_moved_to_pypi_repo/dreaming.py:527-536 | a member is more than 0.75 similar to its leader and to no earlier leader; leaders are at most 0.75 similar |
| `Clustering.ClusteringUnique` | backend/cortex_memory_moved_to_pypi_repo/dreaming.py:505-540 | these rules determine the clustering |
| `Clustering.EmbeddedOfSum` | backend/cortex_memory_moved_to_pypi_repo/dreaming.py:505-518 | the embedded observations are those with a vector, in order |
| `Clustering.EmbeddedOne` | backend/cortex_memory_moved_to_pypi_repo/dreaming.py:514-518 | an observation with a vector counts, one without does not |
| `Chunker.SplitIntoChunks` | backend/cortex_memory_moved_to_pypi_repo/knowledge_tree.py:400-416 | the loop ends and yields the stripped, non-blank windows in order |
| `Chunker.WindowAt` | backend/cortex_memory_moved_to_pypi_repo/knowledge_tree.py:407-414 | there is a window for every multiple of 450 inside the text, and it is that slice |
| `Chunker.WindowsAre` | backend/cortex_memory_moved_to_pypi_repo/knowledge_tree.py:407-414 | character by character: window k holds the characters from 450 k on, 500 or as many as there are |
| `Chunker.TrimmedOfSum` | backend/cortex_memory_moved_to_pypi_repo/knowledge_tree.py:407-414 | chunks are made window by window, in order |
| `Chunker.TrimmedOne` | backend/cortex_memory_moved_to_pypi_repo/knowledge_tree.py:410-411 | a window yields its stripped text, or nothing if it is blank |
| `Chunker.WindowsRebuild` | backend/cortex_memory_moved_to_pypi_repo/knowledge_tree.py:407-414 | windows with their overlaps dropped rebuild the text |
| `Chunker.StripShape` | backend/cortex_memory_moved_to_pypi_repo/knowledge_tree.py:410-411 | stripping leaves a middle stretch with blank surroundings and no white space at its ends |
| `Chunker.StripEmptyIff` | backend/cortex_memory_moved_to_pypi_repo/knowledge_tree.py:410 | a window is dropped if and only if it is blank |
| `Chunker.ChunkIsStretch` | backend/cortex_memory_moved_to_pypi_repo/knowledge_tree.py:407-414 | every chunk is a stretch of the text of at most 500 characters inside one window |
| `Chunker.ShortStretchSurvives` | backend/cortex_memory_moved_to_pypi_repo/knowledge_tree.py:52-53 | every stretch of at most 51 characters with non-white ends lies wholly in one chunk |
| `Chunker.SurvivesIff` | backend/cortex_memory_moved_to_pypi_repo/knowledge_tree.py:400-416 | where characters do not repeat, a stretch lies in a chunk if and only if it ends before its own window does |
| `Chunker.CoveredIff` | backend/cortex_memory_moved_to_pypi_repo/knowledge_tree.py:400-416 | for every text: some window keeps the stretch at i whole if and only if i mod 450 plus its length is at most 500 |
| `Chunker.LongerStretchesCanFail` | backend/cortex_memory_moved_to_pypi_repo/knowledge_tree.py:52-53 | from 52 characters on: if the text is long enough and its characters 449 and 448 + length are not white space, a stretch of that length with non-white ends is kept whole by no window |

## Left out

- Rows of the database are entries of maps that the classes reassign; SQL text, ORM sessions,
  flushes, rollbacks and database failures are not modelled.
- ReachedViewports: like every claim about runs of CORTEX services, takes each call of a service as
  one step of the database. Two writes to one node that both count its children before either
  inserts (service.py:526-559) can put one child more there than the bound says.
- Ids are counters instead of random UUIDs, so that two ids never collide and order stands for age.
- `max_children` and `sibling_order` are never null.
- ReadNode: does not split the returned text into pages.
- RecurseInto: ends with the task node; the child run it requests and `await_children` are host
  calls.
- AssembleOutput: takes the bridge paragraphs as an argument, because a language model writes them.
- SaveCheckpoint: takes the JSON text as an argument; its clock and list of recent nodes only feed
  that text.
- ResumeTree: returns the text of the newest checkpoint, not the JSON parsed from it.
- Titles, metadata, provenance, token counts and timestamps of nodes: nothing that is modelled
  reads them.
- ToPromptText: takes the text of the operations help as an argument.
- ReachedGroupsArePaid: says nothing below `max_children` 4, where a group absorbs no child.
- WritesStayInside: covers policies that raise on reading outside; under the others writes go
  anywhere, as `WriteSucceedsIff` says.
- BestPathSearch: speaks of the query before LIMIT, which cuts by node id and not by weight; the
  join with the node table is assumed to find every target.
- `semantic_graph_search`, `create_similarity_edges` and `get_graph_stats`: ranking and reporting
  on top of these queries.
- CreateEdge: takes the weight in whole ten-thousandths, as the column stores it; an insertion
  outside [0, 1] is stored as given. Boosting a row that the same session inserted and has not
  reloaded is modelled as a boost, although its weight is still the float it was given and adding
  a Decimal to it raises a TypeError (graph.py:76-92).
- TrackCoAccess: for the same reason speaks of lists with repeated pairs as if each call reloaded
  its rows; for lists without repeated ids `CoAccessOnce` needs no such reading.
- OneOwner: assumes the marks of the worker and of the voice session in the orders the code can
  produce for one call, a completion before a late failure included; a completion reported after
  the failure of the same placement is left out, because the lead may be in another call by then.
- ActiveSetBounded: is about one process; other processes have their own active sets.
- SearchExactIff: takes the weights of usable edges as non-negative.
- Start: has one executor per campaign, and status reads do not fail; which placement outcome each
  call gets is an arbitrary argument, as is everything the surroundings do.
- Twilio, Tata and HTTP placement, number routing, credit accounts and agent warm-up are such
  outcomes.
- CosineSimilarity: computes over reals with exact square roots handed in; floating-point rounding
  is not modelled.
- SplitIntoChunks: takes the set of white-space characters as an argument.
- Section parsing, document ingestion, embeddings, the language-model phases of dreaming, and the
  episodic, experience and intelligence trees, which repeat the counting already covered.
- Deletion of nodes and trees, migrations, routers and the frontend.
