# A verified model of Nexus's layout, upload, transform and import logic

This project models the deterministic core of the Nexus investigation board in Dafny and proves what that core is for.
`dafny verify dfyconfig.toml` checks all of it.

Code that works step by step in the source is a method or a class here, proved against a specification function; the
theorems are about those functions. Code made of expressions is a function. One module per file:

- **Layout kernel** (`packages/layout`). `LayoutGraph` builds the adjacency view (`ViewOrder` says in which order),
  `Connectivity` finds components (the order of whose members is the subject of `BreadthFirst`), `CycleRemoval` drops
  the edges its explicit-stack search finds (`DepthFirst` determines the order in which it goes, and `SearchTree`
  shows that none is dropped needlessly), `Ranking` layers by Kahn's algorithm, `SpanningForest` grows the tree
  layout's forest (whose trees `BreadthTrees` describes), and `Layering` puts these passes together for any graph.
  `Scope` cuts a board down before a layout. `Overlap` is the grid-bucketed relaxation, `Pushes` says how far it moves
  cards, `Remaining` and `Squeeze` say what its result counts, `RunLayout` (with `Placements`) is the shared
  post-processing and the diff, `Landing` says where every card ends, and `Reported` what the finished arrangement
  keeps of the separation. `Walks` holds the graph theory: a numbering that falls along every arc, and a finite set in
  which everything has a predecessor.
- **Upload queue** (`apps/web/src/files/upload.ts`). `UploadQueue` is a step system: one event is a call from the page
  or the settlement of the promise a suspended run waits for. The invariant is proved over every sequence of events,
  and a class with the source's shared variables is proved to take exactly these steps. `UploadOrder` says what each
  event does to each run and follows a file until it is sent, `UploadDrain` weighs the work left and shows that the
  queue comes to rest, and `UploadRuns` follows some whole runs.
- **Transforms** (`packages/transforms`). `Modes`, `Router`, `Menu` and `Planner` follow a transform from mode filter
  to plan, `Routing` and `Decisions` say every route, menu and plan to the last detail, and `Overrun` finds the
  budgets that a plan can exceed (with manifests from `Samples`); `ResultCache` is the cache with its joined key.
  `Sorting` is the stable sort they use.
- **Imports** (`packages/integrations`). `JsonText` and `CanonicalJson` show the canonical text to be uniquely
  decodable, and `JsonReader` reads it as JSON. `Proposals` maps extracted entities and relations to a reviewable
  proposal, entry by entry as `Mapping` says, `EdgeIds` shows two relations that share an id, `Applier` writes the
  selected items to the board, and `Imports` and `EdgeEnds` prove what that amounts to from extraction to board, and
  when it is done again; `ImportExact` and `FieldHistory` read it off the items alone.
- **Counters.** `EgressBucket` (token bucket, whose grants `EgressExact` decides), `RateLimit` (fixed windows),
  `Base62`, `Selection` and `StreamBuffer`.

Where the code does not do what its comments say, the model follows the code:

- Members of one component come in breadth-first order, not input order: `Connectivity.InputOrderIsNotKept` is a graph
  where the two differ, and `Connectivity.AllInInputOrderExactlyWhen` says for which graphs they agree
  (`packages/layout/src/graph.ts:53`).
- Edge keys join ids with a NUL, so ids that contain one can lose edges (`LayoutGraph.NulIdsCollide`).
- `separate` does not always return the pairs still left (`packages/layout/src/overlap.ts:30-31`): on its last pass it
  counts the pairs it has just pushed apart. `Squeeze.ResultMayMiscount` has it return 2 with one pair left, at every
  clearance. The result is right when only pinned cards overlap (`Remaining.PinnedOverlapsAreCounted`), it is 0 only
  if nothing overlaps (`Overlap.ZeroMeansClear`), and it is right for every arrangement of n cards exactly when n is
  at most 2 (`Squeeze.CountedExactlyUpToTwo`).
- A layout does not always "report what is actually true" of its overlaps (`packages/layout/src/runLayout.ts:153`): it
  does for all layouts of n nodes exactly when n is at most 2 (`Reported.ReportIsTrueExactlyUpToTwo`), and for all
  that separate exactly when n is at most 512 (`Reported.ReportIsTrueOnceSeparatedExactly`).
- Running a layout on its own output moves nothing with pinned nodes as well, not only without
  (`RunLayout.LayoutIsIdempotent`).
- The menu can put an unusable entry before a usable one (`packages/transforms/src/planner.ts:39-43`): it does so on
  the registry of `Menu.UnusableMayComeFirst`, and exactly when coverage splits a menu
  (`Menu.UsableFirstExactlyUnless`).
- The planner admits each step against the runtime left, but a layer of several batches adds up to more, under the
  budget shipped as well (`Overrun.BudgetIsKeptExactlyWhen`, `Overrun.DefaultBudgetMayOverrun`).
- Cancelling an upload is not final while a run of the task can still write to it
  (`UploadQueue.CancelIsFinalExactlyWhen`, `UploadRuns.CancelMayNotBeFinal`), and an upload queue makes no progress
  without a slot or without an attempt (`UploadRuns.NoSlotNoProgress`, `UploadRuns.NoAttemptGetsStuck`).
- The number of attempts bounds what one run does, not what is done for a file: while a run sleeps before its next
  attempt the pump can start another for the same file, and both make that attempt
  (`UploadRuns.RetriedTwiceExactlyWhen`).
- Temporary ids of edges can coincide for different relations, whatever the hash (`EdgeIds.JoinedIdsBreakClosure`).
- Applying a proposal again repeats its enrichments and settled conflicts: the id map records created nodes and edges
  only (`Imports.ReapplyIsNoOpExactlyWhen`).
- A field history grows to one entry more than its cap (`Applier.ProvenanceIsKept`), and the entry that stands for
  those dropped counts only what the last addition dropped, one or two, and not all that went
  (`FieldHistory.HistoryIsKept`, `packages/integrations/src/apply.ts:98-111`).

Coordinates, scores and tokens are real numbers, times whole milliseconds. `Math.round(x)` is `floor(x + 1/2)`.
JavaScript strings are sequences of characters; in the canonical JSON they are sequences of UTF-16 code units.

## Model

| member | source | states |
|---|---|---|
| `LayoutGraph.BuildAdjacency` | packages/layout/src/graph.ts:19-51 | the loop builds the three neighbour tables and the kept edge list of the declarative view |
| `LayoutGraph.ViewArcs` | packages/layout/src/graph.ts:33-48 | an arc is in `out`, in `in` and (either way round) in `neighbours` exactly when a kept edge has it; kept edges are real, join listed nodes and are no loops |
| `LayoutGraph.ViewTransposed` | packages/layout/src/graph.ts:26-50 | `in` is `out` reversed arc for arc over exactly the listed ids, and no list repeats |
| `LayoutGraph.ViewNeighbours` | packages/layout/src/graph.ts:44-47 | `neighbours` is symmetric, repeats nothing, and is the undirected closure of `out` |
| `LayoutGraph.ViewIsCompleteExactlyWhen` | packages/layout/src/graph.ts:35-41 | no edge between two different listed nodes is lost, exactly when the joined keys tell those edges apart |
| `LayoutGraph.PlainIdsTellApart` | packages/layout/src/graph.ts:38 | they do when no id holds a NUL |
| `LayoutGraph.ViewKeysAreUnique` | packages/layout/src/graph.ts:38-40 | within the view a key names one arc, whatever the ids |
| `LayoutGraph.NulIdsCollide` | packages/layout/src/graph.ts:38-39 | with a NUL in an id two different edges can get one key, and then one is lost: a concrete graph |
| `ViewOrder.EdgesAreInOrder` | packages/layout/src/graph.ts:35-41 | of the edges between two different listed nodes the first with each key is kept, in the order of the board |
| `ViewOrder.ViewIsInOrder` | packages/layout/src/graph.ts:26-45 | what a node leads to, and what leads to it, comes in the order of the edges kept |
| `ViewOrder.NeighboursAreInOrder` | packages/layout/src/graph.ts:44-47 | neighbours come in the order in which the edges kept first join them to the node |
| `Connectivity.Components` | packages/layout/src/graph.ts:54-74 | the groups are exactly the classes of undirected reachability, each non-empty and without repeats, opened in input order at their earliest member, and each listed breadth-first: every later member is a neighbour of an earlier one, and members come in the order in which they are found |
| `Connectivity.MembersComeByDistance` | packages/layout/src/graph.ts:60-71 | members come by nondecreasing distance from the first: whatever path leads to a later one, a path no longer leads to an earlier one |
| `BreadthFirst.OrderIsDetermined` | packages/layout/src/graph.ts:60-71 | the first member and the members determine the list, so `Components` has no freedom left |
| `Connectivity.AllInInputOrderExactlyWhen` | packages/layout/src/graph.ts:53 | the comment that members come in input order is kept exactly by the graphs whose classes, listed in input order, are breadth-first |
| `Connectivity.InputOrderIsNotKept` | packages/layout/src/graph.ts:53 | it is not kept by three cards in a row of which the middle one is listed last: their component is A, C, B |
| `Connectivity.FloodIsClass` | packages/layout/src/graph.ts:58-71 | when the queue of one flood runs dry, what was found is a whole reachability class |
| `Connectivity.ReachSymmetric` | packages/layout/src/graph.ts:44-47 | undirected reachability is symmetric |
| `Connectivity.ReachTransitive` | packages/layout/src/graph.ts:54-74 | reachability is transitive, so the classes are equivalence classes |
| `CycleRemoval.FeedbackEdges` | packages/layout/src/graph.ts:80-109 | the explicit-stack search enters the nodes depth-first, roots and arcs in input order, and returns the keys of exactly the arcs to a node that is still open; each lies on a cycle, finish order falls along every other arc, and the others lead from the target of every returned one back to its source |
| `DepthFirst.OrderIsDetermined` | packages/layout/src/graph.ts:80-109 | ids and arcs determine the depth-first listing, so which arc of a cycle is dropped is settled as well |
| `CycleRemoval.BackEdgeCloses` | packages/layout/src/graph.ts:100-101 | an arc to a node that is on the stack closes a cycle |
| `CycleRemoval.CutIsAcyclic` | packages/layout/src/graph.ts:112-131 | without the returned arcs the graph has no cycle; the finish order is the witness |
| `CycleRemoval.CutLiesOnCycle` | packages/layout/src/graph.ts:80-131 | every arc that is dropped lies on a cycle of the original graph |
| `CycleRemoval.NoArcCanReturn` | packages/layout/src/graph.ts:80-131 | the cut is irredundant: the acyclic view itself leads from the target of a dropped arc to its source, so putting any of them back closes a cycle |
| `SearchTree.SpannedIsIrredundant` | packages/layout/src/graph.ts:100-105 | the arcs along which the search descends are never returned, and they alone lead from the target of every returned arc back to its source |
| `CycleRemoval.NothingToCut` | packages/layout/src/graph.ts:112-131 | an acyclic graph comes back unchanged |
| `CycleRemoval.AcyclicView` | packages/layout/src/graph.ts:112-131 | `out` is acyclic, is the original with exactly the returned arcs left out in order, `in` is its transpose, and the returned arcs are those that the depth-first search finds to close a cycle |
| `Ranking.RankNodes` | packages/layout/src/graph.ts:137-167 | every node gets a rank; on an acyclic view the queue reaches every node, so the fallback never fires, and ranks follow the longest-path rule |
| `Ranking.QueueReachesAll` | packages/layout/src/graph.ts:153-163 | on an acyclic view no node is missed by the queue: a missed node would have a missed parent, and so on around a cycle |
| `Ranking.ArcsClimb` | packages/layout/src/graph.ts:157 | every arc goes strictly up in rank |
| `Ranking.RankIsLongestWalk` | packages/layout/src/graph.ts:133-136 | a rank is the length of the longest directed path that ends at the node: no path is longer and one is as long |
| `SpanningForest.BuildForest` | packages/layout/src/graph.ts:173-212 | a forest over every node, each tree grown breadth-first over the nodes that the trees before it left, with children in the order in which they are found; on an acyclic view the roots are exactly the nodes without incoming arcs, in input order |
| `BreadthTrees.GrownIsTree` | packages/layout/src/graph.ts:182-202 | a finished tree holds just what can be reached from its root past the earlier trees, listed breadth-first, each node under the first that leads to it |
| `SpanningForest.ParentsEndAtRoot` | packages/layout/src/graph.ts:184-202 | following parents from any node ends at a root, in as many steps as its depth |
| `SpanningForest.SourcesReachAll` | packages/layout/src/graph.ts:204-205 | on an acyclic view visiting from the sources alone places every node |
| `Layering.LayerGraph` | packages/layout/src/algorithms/hierarchical.ts:14-20 | the passes composed for any graph with distinct ids: an irredundant cut, an acyclic view, layered ranks, and the rows of equal rank in input order |
| `Layering.RowsPartition` | packages/layout/src/algorithms/hierarchical.ts:18-20 | every node is in exactly one row, and no row is empty |
| `Layering.RowIsInOrder` | packages/layout/src/algorithms/hierarchical.ts:18-20 | a row lists exactly the nodes of its rank, in the order of the graph |
| `Layering.ArcsLeadDown` | packages/layout/src/algorithms/hierarchical.ts:14-20 | every arc of the view leads to a later row, unless it lies on a cycle of the graph |
| `Layering.EdgesLeadDown` | packages/layout/src/algorithms/hierarchical.ts:14-20 | so does every edge between two different nodes, when the keys tell the edges apart |
| `Layering.AcyclicGraphsAreLayered` | packages/layout/src/algorithms/hierarchical.ts:14-15 | on a graph without cycles the row of a node is the length of the longest chain of edges ending there |
| `Layering.ForestOf` | packages/layout/src/algorithms/tree.ts:11-13 | the forest of the tree layout, end to end: all nodes in breadth-first trees, rooted at exactly the nodes nothing points at once the cycles are cut |
| `Scope.Reachable` | packages/layout/src/scope.ts:28-40 | the bounded search keeps exactly the nodes within `depth` undirected steps of the seeds |
| `Scope.OneMoreStep` | packages/layout/src/scope.ts:31-38 | within k + 1 steps means within k, or one arc from such a node |
| `Scope.ApplyScope` | packages/layout/src/scope.ts:19-46 | kept nodes are those the scope asks for, kept edges are the induced ones, the rest is returned as excluded; the board scope changes nothing |
| `Scope.Partition` | packages/layout/src/scope.ts:42-43 | kept and excluded divide the nodes between them, unchanged and each in the order of the graph |
| `Scope.InducedFrom` | packages/layout/src/scope.ts:44 | exactly the edges with both ends kept stay, each as often as it was there, in the order of the graph |
| `Overlap.CountOverlaps` | packages/layout/src/overlap.ts:89-101 | the counting loop returns the number of overlapping pairs |
| `Overlap.Separate` | packages/layout/src/overlap.ts:33-86 | the in-place method, grid and all, leaves the array and the count that the specification function gives |
| `Overlap.PitchCovers` | packages/layout/src/overlap.ts:35-37 | any card overlapping a card sits in its 3x3 cell neighbourhood, wherever they are |
| `Overlap.ZeroMeansClear` | packages/layout/src/overlap.ts:33-86 | when 0 is returned the all-pairs check finds no overlap either: the cell scan misses no pair |
| `Overlap.PushClears` | packages/layout/src/overlap.ts:60-78 | a push separates its pair with two units to spare, unless both are pinned, and then moves neither; along which axis and how far each goes is the subject of `Pushes` |
| `Pushes.PushParts` | packages/layout/src/overlap.ts:60-78 | a pair that is not pinned on both sides parts along the axis on which it overlaps less, along x if as much on both: the other coordinate of both stays, neither moves towards the other, each goes half the way if both are free, and what remains of the overlap is a gap of two |
| `Pushes.PartsOneWay` | packages/layout/src/overlap.ts:60-78 | there is no other way to part so |
| `Pushes.TwoCardsPart` | packages/layout/src/overlap.ts:33-86 | two overlapping cards, not both pinned, are separated by just this one push |
| `Pushes.PartingDistance` | packages/layout/src/overlap.ts:66-75 | together the two are moved by exactly the lesser overlap and two units |
| `Pushes.AroundIsExact` | packages/layout/src/overlap.ts:46-60 | a card looks at exactly the cards in the nine cells around it, column by column and in a column row by row |
| `Overlap.SeparationKeepsCards` | packages/layout/src/overlap.ts:67-68 | pinned cards never move, and nothing but positions changes |
| `Overlap.SeparationBalances` | packages/layout/src/overlap.ts:66-75 | with nothing pinned the sums of x and of y are unchanged |
| `Overlap.ClearIsLeftAlone` | packages/layout/src/overlap.ts:33-86 | an arrangement without overlaps is returned as it is |
| `Overlap.SeparationIsIdempotent` | packages/layout/src/overlap.ts:33-86 | separating a separated arrangement changes nothing |
| `Overlap.PinnedOverlapRemains` | packages/layout/src/overlap.ts:33-86 | two overlapping pinned cards keep the result above 0 for ever |
| `Remaining.PinnedOverlapsAreCounted` | packages/layout/src/overlap.ts:30-86 | when only pinned cards overlap, nothing moves and the result is the number of overlapping pairs: the grid scan meets each pair once |
| `Remaining.ZeroExactlyWhen` | packages/layout/src/overlap.ts:39-86 | the result is 0 exactly when one of the 64 passes begins without an overlap |
| `Remaining.TwoCardsAreCounted` | packages/layout/src/overlap.ts:30-86 | with at most two cards the result is the number of overlapping pairs in the arrangement left behind |
| `Squeeze.ResultMayMiscount` | packages/layout/src/overlap.ts:30-31 | the comment that the result counts the pairs still left is not kept, at whatever clearance: a free card between two pinned ones is pushed to and fro, 2 is returned and one pair is left, beside any number of further cards |
| `Squeeze.CountedExactlyUpToTwo` | packages/layout/src/overlap.ts:30-31 | so at every clearance the result is that count for all arrangements of n cards exactly when n is at most 2 |
| `RunLayout.Run` | packages/layout/src/runLayout.ts:73-181 | the in-place post-processing yields the specified arrangement, and the statistics give the smallest box around it and say how many of the placed nodes move, are where they were, and are pinned |
| `RunLayout.BoundsOf` | packages/layout/src/runLayout.ts:58-71 | the loop returns a box that no card sticks out of and that is touched on each side, or the empty one |
| `Reported.SeparatedStaysClear` | packages/layout/src/runLayout.ts:131-152 | when the separation finds nothing left, snapping and re-centring leave no two cards closer than half the clearance |
| `Reported.ClearanceKeptExactly` | packages/layout/src/runLayout.ts:131-152 | and no more than that: a clearance is kept by all layouts of n >= 2 nodes that separate exactly when it is at most 8 |
| `Reported.PinnedIsTrue` | packages/layout/src/runLayout.ts:153-155 | with pinned nodes only, the number reported is the number of overlapping pairs in the arrangement handed out |
| `Reported.SqueezedLayout` | packages/layout/src/runLayout.ts:153-155 | the comment that what is reported is what is true is not kept: on a board of three nodes or more, already arranged as the algorithm proposes, 2 is reported and one pair overlaps |
| `Reported.ReportIsTrueExactlyUpToTwo` | packages/layout/src/runLayout.ts:153-155 | so the report is true of all layouts of n nodes exactly when n is at most 2, with and without centroid preservation |
| `Reported.ReportIsTrueOnceSeparatedExactly` | packages/layout/src/runLayout.ts:153-155 | of those that separate it is true of all with n nodes exactly when n is at most 512: beyond that an overlap brought in by snapping goes unreported |
| `RunLayout.PinnedStayPut` | packages/layout/src/runLayout.ts:122-129 | pinned nodes end exactly where they started |
| `RunLayout.OthersOnGrid` | packages/layout/src/runLayout.ts:131-153 | every node that is not pinned ends on the 8-unit grid |
| `RunLayout.AlignedOnPins` | packages/layout/src/runLayout.ts:105-120 | with something pinned, the alignment moves the arrangement so that the centroid of the pinned nodes falls where it is on the board |
| `Landing.FallbacksComplete` | packages/layout/src/runLayout.ts:92-98 | the placements of the algorithm come first, and then every node that it left out, where it is on the board, in the order of the graph |
| `Landing.PreparedIsMeant` | packages/layout/src/runLayout.ts:105-129 | before the separation every card is where it is meant to be: pinned ones at home, the others moved by the difference of the two centroids, or not at all if the centre need not be kept or nothing is pinned |
| `Landing.LayoutLands` | packages/layout/src/runLayout.ts:85-155 | the whole of the finished arrangement: the cards where they are meant to be, separated at 16 units and snapped, and, with nothing pinned and the centre to be kept, moved by the whole grid cells that bring it nearest to the board |
| `Landing.ClearLayoutLands` | packages/layout/src/runLayout.ts:105-136 | if something is pinned and no two cards overlap where they are meant to be, every free card ends at the nearest grid point to its placement moved by the centroid of the pinned nodes on the board less that of their placements |
| `Landing.SnapIsNearest` | packages/layout/src/runLayout.ts:132-136 | snapping is to the nearest of the 8-unit grid lines, from halfway up |
| `RunLayout.CentroidIsKept` | packages/layout/src/runLayout.ts:138-152 | with nothing pinned, the finished arrangement is centred where the board was, to within half a grid cell |
| `RunLayout.LayoutIsIdempotent` | packages/layout/src/runLayout.ts:138-153 | when the algorithm ignores current positions, laying out its own accepted output moves nothing, with and without pins |
| `RunLayout.AllKnown` | packages/layout/src/runLayout.ts:85-98 | every placement belongs to a node of the graph |
| `RunLayout.ToLayoutDiff` | packages/layout/src/runLayout.ts:188-207 | the diff loop produces the specified moves |
| `RunLayout.DiffIsExact` | packages/layout/src/runLayout.ts:188-207 | accepting the diff puts every node at its position, and undoing it restores the node |
| `RunLayout.DiffIsMinimal` | packages/layout/src/runLayout.ts:190-193 | each listed move takes a known, unpinned node from its own position to another, and no node is listed twice |
| `Landing.DiffIsInOrder` | packages/layout/src/runLayout.ts:188-207 | there is one move for each placement of a known, unpinned node that is elsewhere, in the order of the placements, from and to the right points and with the size of the node |
| `Placements.SumsAgree` | packages/layout/src/runLayout.ts:44-56 | a centroid does not depend on the order of the cards |
| `Placements.GridIsFixed` | packages/layout/src/runLayout.ts:132-136 | snapping leaves grid points where they are |
| `UploadQueue.EveryInterleaving` | apps/web/src/files/upload.ts:190-335 | after every interleaving of calls and settlements the invariant holds: slots count live runs, shown progress has a run, no queued task is forgotten, no waiter is stranded |
| `UploadQueue.StepKeepsInv` | apps/web/src/files/upload.ts:190-335 | any single call or settlement keeps that invariant |
| `UploadQueue.LiveRunsAreBounded` | apps/web/src/files/upload.ts:190-261 | live runs are what `running` counts and never exceed `concurrency` |
| `UploadQueue.QueuedMeansRunning` | apps/web/src/files/upload.ts:252-261 | with at least one slot a queued task means something is running |
| `UploadRuns.NoSlotNoProgress` | apps/web/src/files/upload.ts:252-335 | with no slot a valid file waits for ever: whatever follows, short of cancelling it, it is still queued, nothing runs, and no promise of idleness was kept |
| `UploadQueue.IdleIsFinished` | apps/web/src/files/upload.ts:160-163 | when nothing is queued or running every task is done, failed or cancelled and nobody waits |
| `UploadQueue.IdleIsHonest` | apps/web/src/files/upload.ts:160-163 | an idle promise resolves only in a state where every task is finished |
| `UploadQueue.EveryStatusIsEarned` | apps/web/src/files/upload.ts:190-335 | in every step a task is done only when the server has the file or says it is ready, failed only when refused or out of attempts, cancelled only by a call or an aborted run |
| `UploadOrder.EverySettlementTells` | apps/web/src/files/upload.ts:165-250 | what each settlement does to its run, whatever the state: `put` is awaited only after a presigned file without chunks or the read of the last chunk, the answer of the server only after `put` and `complete`, chunk after chunk is read in between, a rejection ends the run or sends it to sleep before its next attempt, and all other runs stay as they are |
| `UploadOrder.CallsMoveNoRun` | apps/web/src/files/upload.ts:263-335 | no call moves a run: it can only abort it, ask for a file, or start runs that were due |
| `UploadOrder.PumpStarts` | apps/web/src/files/upload.ts:252-261 | the pump starts the queued tasks in the order in which they were added, each with its next attempt, and passes over none |
| `UploadOrder.EveryRunIsToldRight` | apps/web/src/files/upload.ts:165-250 | over every interleaving: what a run was told since its last attempt began is just what brings it to the await it is at, every chunk of its file read in order and then the put fulfilled |
| `UploadOrder.DoneMeansSent` | apps/web/src/files/upload.ts:165-223 | a task is made done only by an answer that the server has the file already, or, if it says that it is ready, in an attempt in which every chunk of the file as it was added was read and the put was fulfilled, in this order |
| `UploadOrder.FilesAreAsAdded` | apps/web/src/files/upload.ts:263-290 | tasks are numbered in the order of the files added, and keep their files |
| `UploadOrder.AskedIsTaken` | apps/web/src/files/upload.ts:263-310 | an accepted file, and one that is to be tried again, is queued from its first attempt on, or starts with it at once |
| `UploadOrder.EveryPromiseIsKept` | apps/web/src/files/upload.ts:160-163 | every promise of idleness is pending or kept, once, and when the queue is not busy all have been kept |
| `UploadRuns.NoAttemptGetsStuck` | apps/web/src/files/upload.ts:190-335 | with no attempt allowed a valid file shows as hashing for ever although nothing runs, whatever follows short of cancelling it |
| `UploadQueue.CancelIsFinalExactlyWhen` | apps/web/src/files/upload.ts:291-297 | a cancelled task stays cancelled without a retry exactly when no live run of it can still write to it |
| `UploadDrain.SettlingIsProgress` | apps/web/src/files/upload.ts:190-250 | whatever a live run waits for settles with, there is less work left than before |
| `UploadDrain.PumpKeepsWork` | apps/web/src/files/upload.ts:252-261 | pumping neither makes work nor loses any: what a started run weighs is taken from its task |
| `UploadDrain.SettlementsAreBounded` | apps/web/src/files/upload.ts:190-335 | in every interleaving the settlements of live runs, and the work left at the end, come to no more than the work at the start and what adding and retrying asked for |
| `UploadDrain.EverySettlementWasAskedFor` | apps/web/src/files/upload.ts:190-335 | from an empty queue on, files added and tried again bound the settlements there can be |
| `UploadDrain.TokenDoubles` | apps/web/src/files/upload.ts:203-244 | for one file that bound is its chunks and three more with one attempt, and doubles with each further one |
| `UploadDrain.BusyExactlyWhenDue` | apps/web/src/files/upload.ts:160-163 | with a slot the queue is busy exactly as long as a live run has a settlement to come |
| `UploadDrain.EveryDrainEnds` | apps/web/src/files/upload.ts:190-335 | if the page asks for nothing more, every run of settlements is bounded, can go on exactly as long as the queue is busy, and when it cannot every task is done, failed or cancelled and nobody waits |
| `UploadDrain.CanDrain` | apps/web/src/files/upload.ts:190-335 | any run of settlements can be carried on until the queue is idle |
| `UploadRuns.RetriedTwiceExactlyWhen` | apps/web/src/files/upload.ts:232-261 | with nothing cancelled or tried again by the page, two live runs can make the same further attempt at one file exactly when there are two slots and two attempts: the file of a sleeping run shows as queued |
| `UploadRuns.CancelMayNotBeFinal` | apps/web/src/files/upload.ts:203-215 | adding a file and cancelling it reaches such a state: an answer that the server has the file already makes the task done |
| `UploadQueue.Queue.PumpQueue` | apps/web/src/files/upload.ts:252-261 | the pumping loop does to the fields what the step system says |
| `UploadQueue.Queue.StartRun` | apps/web/src/files/upload.ts:190-201 | starting a run, up to its first await, leaves the launched state, or with its attempts used up the state after its `finally` |
| `UploadQueue.Queue.Resume` | apps/web/src/files/upload.ts:201-250 | what a run does from one await to the next, with the settlement it got, is the continue step |
| `UploadQueue.Queue.AddFile` | apps/web/src/files/upload.ts:264-289 | `add` is the add step |
| `UploadQueue.Queue.CancelTask` | apps/web/src/files/upload.ts:291-297 | `cancel` is the cancel step |
| `UploadQueue.Queue.RetryTask` | apps/web/src/files/upload.ts:299-315 | `retry` is the retry step |
| `UploadQueue.Queue.WaitIdle` | apps/web/src/files/upload.ts:329-334 | `idle` is the idle step |
| `Modes.RelaxingKeepsEngine` | packages/transforms/src/modes.ts:31-66 | relaxing the mode, configuring providers or granting permissions never takes an engine away |
| `Modes.UsableRespectsMode` | packages/transforms/src/modes.ts:40-64 | a usable engine keeps to the mode, the granted permissions and the configured providers |
| `Modes.RespectingModeIsUsable` | packages/transforms/src/modes.ts:31-66 | an engine in good standing that keeps to them is usable |
| `Routing.RefusalIsFirstComplaint` | packages/transforms/src/modes.ts:31-66 | an engine is refused exactly if there is something against it, and for the reason that comes first among those |
| `Modes.ScoreIsUnit` | packages/transforms/src/score.ts:55-72 | with schema-valid quality an engine score lies between 0 and 1 |
| `Routing.ScoreResponds` | packages/transforms/src/score.ts:55-72 | a change in quality, reliability or maintenance counts for 30, 20 and 10 hundredths of it |
| `Routing.SignalsRespond` | packages/transforms/src/score.ts:8-35 | what data flow, speed and provider status are worth, each against each |
| `Routing.BestScoreIsOne` | packages/transforms/src/score.ts:55-72 | a local, fast engine of a configured provider with full marks scores 1, so these theorems leave the score no freedom |
| `Router.RouteTransform` | packages/transforms/src/router.ts:39-77 | the loop and the sort produce the specified route |
| `Router.BestReason` | packages/transforms/src/router.ts:32-37 | the scan with early return finds the most actionable reason |
| `Router.ChainMembers` | packages/transforms/src/router.ts:47-60 | the chain holds exactly the declared engines with a known provider that are not excluded |
| `Router.RejectedMembers` | packages/transforms/src/router.ts:47-60 | the refused engines are exactly the excluded ones, each with its reason |
| `Router.ReasonIsMostActionable` | packages/transforms/src/router.ts:68-75 | a route that cannot execute names the most actionable reason that occurs among the refused engines, and the generic one only when none is listed; others name none |
| `Routing.ReasonIsNamed` | packages/transforms/src/router.ts:20-37 | the reason is the first, in the order of the list, that some refused engine has |
| `Routing.EnginesAreInOrder` | packages/transforms/src/router.ts:47-60 | usable and refused engines are listed in the order of declaration, each with its provider, score and reason |
| `Router.ChainIsOrdered` | packages/transforms/src/router.ts:62-66 | the chain is a permutation of the usable engines, terminals last, scores non-increasing before them |
| `Routing.ChainIsStable` | packages/transforms/src/router.ts:62-66 | engines that rank the same stay in the order of declaration |
| `Router.ScoreIsOfBest` | packages/transforms/src/router.ts:68-71 | the score is that of the best engine of the chain that can execute, weighed by priority, and 0 without one |
| `Routing.PriorityWeighs` | packages/transforms/src/score.ts:37-44 | the score is that of the best engine times ten, nine, seven, five, three or no tenths, by priority |
| `Router.RelaxingKeepsChain` | packages/transforms/src/router.ts:39-77 | relaxing the context never removes an engine from a chain |
| `Router.RelaxingKeepsScore` | packages/transforms/src/router.ts:68-69 | relaxing the context never lowers the score of a transform |
| `Router.RoutedForInput` | packages/transforms/src/router.ts:80-88 | exactly the transforms that accept the kind are routed, best score first |
| `Routing.RoutesAreStable` | packages/transforms/src/router.ts:80-88 | transforms that score the same stay in the order of declaration |
| `Routing.InputsAreInOrder` | packages/transforms/src/registry.ts:39-51 | the transforms for a kind come in the order of declaration, once for each time they list it |
| `Routing.FindsLast` | packages/transforms/src/registry.ts:36-37 | of manifests with one id the last is found |
| `Sorting.SortIsStable` | packages/transforms/src/router.ts:62-66 | sorting is a stable permutation |
| `Planner.Expand` | packages/transforms/src/planner.ts:104-230 | the imperative planner produces the specified plan |
| `Planner.EveryCandidateIsAccountedFor` | packages/transforms/src/planner.ts:120-161 | every non-deprecated candidate appears exactly once, as a step or as an exclusion |
| `Planner.SecondLayerIsAccountedFor` | packages/transforms/src/planner.ts:168-187 | so does every candidate for a kind that the first layer produces, when a second layer is looked for |
| `Planner.EveryExclusionIsTrue` | packages/transforms/src/planner.ts:120-145 | every exclusion names a candidate with the refusal the router gave, a capability that is covered, or a budget without room for it |
| `Decisions.EveryDecisionIsExact` | packages/transforms/src/planner.ts:120-161 | each transform is decided on when it is first met: which of the refusals holds first, with the capabilities, steps, results and runtime that the candidates before it left, or else that it becomes a step |
| `Decisions.EverySecondDecisionIsExact` | packages/transforms/src/planner.ts:165-187 | so is each candidate of the second layer, which is looked at exactly when more than one layer is asked for and allowed and runtime is left |
| `Decisions.EveryStepIsExact` | packages/transforms/src/planner.ts:139-156 | each step has the runtime of its manifest, the engines of its route in order, and as results the least of the limit in its manifest and the node budget less the results of the steps before it |
| `Planner.BudgetsHold` | packages/transforms/src/planner.ts:127-156 | step and node budgets hold, capabilities are distinct and were not covered before, and `maxEntities` is the exact sum exactly when the node budget is not negative |
| `Planner.DependenciesAreProducers` | packages/transforms/src/planner.ts:168-187 | a depth-2 step depends on exactly the depth-1 transforms whose outputs include its input kind, and on at least one |
| `Decisions.ProducersAreInOrder` | packages/transforms/src/planner.ts:168-187 | the second layer takes kinds in the order in which steps first output them, each with its producers in order |
| `Planner.ProducersAreExact` | packages/transforms/src/planner.ts:170-179 | the producer table lists a transform under a kind exactly when it produces it |
| `Planner.RuntimeFitsInBatches` | packages/transforms/src/planner.ts:74-79 | when each layer fits one parallel batch the estimate stays within `maxRuntimeMs` |
| `Decisions.EstimateIsExact` | packages/transforms/src/planner.ts:74-79 | the estimate is the time of the two layers, each in batches as long as its slowest step, one entity at least for each step of the first, and at most the sum of the results |
| `Overrun.BudgetIsKeptExactlyWhen` | packages/transforms/src/planner.ts:74-79 | over registries that validate and have schema-valid runtimes, every plan under a budget stays within its runtime exactly when it allows no runtime, or some and the lesser of its steps and nodes fits one parallel batch |
| `Overrun.SlowPlanOverruns` | packages/transforms/src/planner.ts:127-161 | under any other budget that allows some runtime a registry of slow transforms, one more than a batch, gets a plan estimated at twice the runtime allowed |
| `Overrun.DefaultBudgetMayOverrun` | packages/transforms/src/planner.ts:23-29 | the budget that is shipped is such a budget |
| `Planner.NeedsAreMet` | packages/transforms/src/planner.ts:189-201 | in strict-local mode no network is needed, and in every mode only configured providers are asked for credentials |
| `Decisions.NeedsAreExact` | packages/transforms/src/planner.ts:189-201 | providers used, credentials needed and the need of a network are those of the first engine in the chain of each step that can execute, in order and each once |
| `Menu.ActionsFor` | packages/transforms/src/planner.ts:44-72 | the picking loop produces the specified menu |
| `Menu.MenuIsSmall` | packages/transforms/src/planner.ts:64-71 | at most `limit` entries, one per capability, none deprecated, each on offer for the kind |
| `Menu.PickedIsComplete` | packages/transforms/src/planner.ts:64-71 | a menu with room left has an entry for every capability on offer |
| `Routing.MenuIsStable` | packages/transforms/src/planner.ts:53-62 | entries that rank the same stay in the order of the route |
| `Routing.PickedIsExact` | packages/transforms/src/planner.ts:64-71 | the menu takes the first entry of each capability that is not deprecated, in order, until it is full |
| `Menu.MenuOrderMeaning` | packages/transforms/src/planner.ts:53-62 | what precedes what: an unusable entry precedes a usable one only across the covered boundary |
| `Menu.UnusablePrecedesExactlyWhen` | packages/transforms/src/planner.ts:53-62 | of an unusable and a usable entry the unusable one comes first exactly when it is not covered and the usable one is |
| `Menu.UsableFirstExactlyUnless` | packages/transforms/src/planner.ts:39-43 | the comment that unusable entries never precede usable ones is kept exactly by the menus without an uncovered unusable entry beside a covered usable one |
| `Menu.SplitRegistryValidates` | packages/transforms/src/registry.ts:72-132 | the registry of the next row has no issue to report: known engines and providers, capabilities that fit, a terminal engine in each chain |
| `Menu.UnusableMayComeFirst` | packages/transforms/src/planner.ts:39-72 | it is not kept by the menu of a registry that validates, with two transforms, of which the covered one can run and the other needs an account that is not configured |
| `ResultCache.KeyIsIdentity` | packages/transforms/src/cache.ts:14-26 | for schema-valid manifests two keys are equal exactly when transform, engine, versions, provider, kind and normalised value are |
| `ResultCache.PartsAreClean` | packages/transforms/src/manifest.ts:20-21 | no id, version or kind that the schemas accept holds a separator |
| `ResultCache.HitIsLastStored` | packages/transforms/src/cache.ts:79-100 | after any history a lookup answers with the last results stored for that subject and not deleted, exactly until they expire; key and lazy deletion cannot be told |
| `ResultCache.HitIsFresh` | packages/transforms/src/cache.ts:29-33 | a hit was stored for this subject where storing is allowed, and is younger than its time to live |
| `ResultCache.LookupIsExact` | packages/transforms/src/cache.ts:79-100 | the last call that stored for good or deleted settles a lookup: a hit with those results, run and age for exactly the time to live in seconds, a miss otherwise |
| `ResultCache.Cache.Get` | packages/transforms/src/cache.ts:79-89 | `get` answers by the map and drops an expired entry in passing |
| `ResultCache.Cache.Set` | packages/transforms/src/cache.ts:90-100 | `set` stores only what may be stored |
| `JsonText.QuoteInjective` | packages/integrations/src/consent.ts:207 | a quoted string is uniquely decodable in front of any text |
| `CanonicalJson.CanonReadsBack` | packages/integrations/src/consent.ts:206-213 | the bracketed printing is uniquely decodable: text and remainder determine the printed structure and the remainder |
| `CanonicalJson.CanonIsPrinting` | packages/integrations/src/consent.ts:206-213 | two texts are equal exactly when the printed structures are |
| `CanonicalJson.CanonicalTextIsIdentity` | packages/integrations/src/consent.ts:206-213 | two values have one canonical text exactly when they are equal up to object key order |
| `JsonReader.CanonicalTextIsJson` | packages/integrations/src/consent.ts:206-213 | a reader after the grammar of RFC 8259 accepts every canonical text, and finds the value in it, undefined as null |
| `JsonReader.MembersAreInOrder` | packages/integrations/src/consent.ts:209-212 | an object reads as its defined members, each once, in ascending order of their names by code unit |
| `JsonReader.EscapesAreFew` | packages/integrations/src/consent.ts:207 | which characters of a string are escaped, and how |
| `CanonicalJson.DedupeTextIsIdentity` | packages/integrations/src/consent.ts:202-204 | two runs share the text that is hashed exactly when integration and input are the same; it is the integration, a line feed, and the canonical text |
| `Proposals.MapNodes` | packages/integrations/src/pipeline.ts:732-758 | the node mapper loop produces the specified nodes |
| `Proposals.OneNodePerNewIdentity` | packages/integrations/src/pipeline.ts:737-755 | a node is proposed for an identity exactly when an entity has it and the board does not, never twice, and from the first such entity |
| `Mapping.NodesAreExact` | packages/integrations/src/pipeline.ts:732-758 | the nodes are those of the first entity of each new identity, in order, with its identity, type, title, fields, temporary id and provenance each in its place |
| `Proposals.MapRelations` | packages/integrations/src/pipeline.ts:761-783 | the relationship mapper loop produces the specified edges |
| `Proposals.EdgesAreClosed` | packages/integrations/src/pipeline.ts:785-795 | every proposed edge joins proposed nodes or nodes the board has |
| `Proposals.RelationIsDroppedWhen` | packages/integrations/src/pipeline.ts:767-769 | a relation is dropped exactly when one of its identities was neither extracted nor on the board |
| `Mapping.EdgesAreExact` | packages/integrations/src/pipeline.ts:761-795 | the edges are those of the relations with two known identities, in order, each with its temporary id, kind and ends |
| `Proposals.BuildProposal` | packages/integrations/src/pipeline.ts:816-933 | the loops produce the specified items, summary and expiry |
| `Proposals.BuiltIsWellFormed` | packages/integrations/src/pipeline.ts:820-912 | item ids tell the kinds apart, name nodes and edges by their temporary ids, and edges refer to nodes only |
| `Mapping.ItemsAreExact` | packages/integrations/src/pipeline.ts:820-850 | node items in order, ticked from a confidence of 0.6, then edge items in order, ticked if the nodes they need are, then the items of known entities |
| `Mapping.FieldsAreExact` | packages/integrations/src/pipeline.ts:852-912 | conflicts in the order of the fields, then one enrichment that writes the other fields in order, if any |
| `Mapping.MergedIsInOrder` | packages/integrations/src/pipeline.ts:852-860 | entity after entity, those that the board has bring their items |
| `Proposals.SummaryIsTrue` | packages/integrations/src/pipeline.ts:914-920 | the summary counts the proposed nodes and edges; duplicates, conflicts and patches add up to the fields compared |
| `Proposals.EveryFieldIsAccountedFor` | packages/integrations/src/pipeline.ts:852-912 | every incoming field of an entity the board has is counted as a duplicate, raised as a conflict, or patched |
| `Proposals.EachFieldIsDecided` | packages/integrations/src/pipeline.ts:861-898 | each field goes where the merge policy sent it, with its value, and as many are counted as duplicates as the policy leaves alone |
| `Proposals.EachPatchWasDecided` | packages/integrations/src/pipeline.ts:892-897 | nothing is patched that the policy did not ask for |
| `Proposals.DefaultSelectionIsClosedExactlyWhen` | apps/web/src/integrations/ProposalReview.tsx:44-48 | the default selection contains the proposed ends of every edge it contains, exactly when edges sharing a temporary id are ticked together |
| `Proposals.NoCollisionsAgree` | packages/integrations/src/pipeline.ts:770-772 | edges sharing a temporary id agree on their ends when such ids collide only for relations between the same identities |
| `Proposals.AgreeingEdgesTickTogether` | packages/integrations/src/pipeline.ts:837-840 | and edges that agree on their ends are ticked together |
| `EdgeIds.JoinedIdsBreakClosure` | packages/integrations/src/pipeline.ts:770-772 | identities that hold the joining sign make two relations share an id whatever the hash, and then closure fails: a concrete extraction |
| `Applier.Board.ApplyProposal` | packages/integrations/src/apply.ts:142-329 | expired proposals are refused, and then those with a selected node item that names no tool or no run, by the first such item, with the board unchanged; otherwise the result and the board are those of the collected changes |
| `Applier.Board.Commit` | packages/integrations/src/apply.ts:302-317 | the transaction adds the nodes, adds the edges and writes the patched data |
| `Applier.ProvenanceIsKept` | packages/integrations/src/apply.ts:98-111 | below fifty entries the new one is added to those there are; from fifty on the last forty-nine stay behind the number of those that went |
| `FieldHistory.EveryFieldFollowsItsWrites` | packages/integrations/src/apply.ts:113-135 | on every node that was on the board every field ends with its old value and, one after the other, the writes of the selected items to it, and nothing else |
| `FieldHistory.HistoryIsKept` | packages/integrations/src/apply.ts:98-111 | the history of a node is its old one with one entry for each item that writes to it, in order, as long as there is room, and the last fifty of these otherwise |
| `Applier.PatchMeaning` | packages/integrations/src/apply.ts:115-135 | `set` writes the value; the others extend the list that was there and hold the value, `addToSet` once only; other fields stay |
| `Applier.CreatedNodeMeaning` | packages/integrations/src/apply.ts:207-227 | a created node carries the proposed type, title, fields and identity, one provenance entry, and no other field |
| `Imports.EveryItemIsAccountedFor` | packages/integrations/src/apply.ts:175-295 | the k-th node item is the k-th created node; edges with known ends are created joining them; all else is reported with its reason or patches its target |
| `Imports.NothingIsDropped` | packages/integrations/src/apply.ts:137-141 | the items that take part are as many as those created, reported, patching or applied before |
| `ImportExact.CreationsAreExact` | packages/integrations/src/apply.ts:157-256 | the nodes created are those of the selected node items, in order and under the ids first asked for, the edges those of the selected edge items with both ends there, in order and under the next ids; the outcome lists these ids and counts what was created and patched |
| `ImportExact.SkipsAreExact` | packages/integrations/src/apply.ts:231-285 | the report names exactly the selected edges with an end missing, enrichments and conflicts whose node is gone, and conflicts that keep what is there by the choice of the user or else of the proposal, in this order and with that reason |
| `ImportExact.PatchesAreExact` | packages/integrations/src/apply.ts:258-317 | the nodes patched are those that a selected item writes to, in the order of the first that does |
| `ImportExact.LaterFrom` | packages/integrations/src/apply.ts:165-170 | enrichments are worked on before conflicts, and either in order |
| `ImportExact.EdgeIdsAreListed` | packages/integrations/src/apply.ts:241-243 | the id map that is handed back has every created edge under its temporary id |
| `ImportExact.EdgesAreStored` | packages/integrations/src/apply.ts:302-308 | the board keeps its edges and has every created one |
| `Imports.ClosedSelectionSkipsNoEdge` | packages/integrations/src/apply.ts:231-256 | a dependency-closed selection whose existing nodes are present skips no edge |
| `Imports.CreatedEdgesJoinNodes` | packages/integrations/src/apply.ts:340-348 | an end of a created edge is on the resulting board exactly unless it refers to a node applied before that has left the board |
| `Imports.DefaultImportIsComplete` | packages/integrations/src/apply.ts:142-329 | from extraction to board: the first application of the default selection creates every selected edge, each joining two nodes of the resulting board |
| `EdgeEnds.EdgesJoinTheirIdentities` | packages/integrations/src/apply.ts:186-256 | the ends of an imported edge carry the identities of its relation, or are the nodes the board has for them, when temporary ids tell the proposed nodes apart; otherwise either end is right exactly when the last selected node with that temporary id has the identity |
| `EdgeEnds.CreatedEdgeEnds` | packages/integrations/src/apply.ts:231-256 | for any proposal: an end is the existing node referred to, the node applied before, or the created node of the last selected item with that temporary id |
| `EdgeEnds.IdMapKeepsLast` | packages/integrations/src/apply.ts:186-188 | of node items with one temporary id the id map keeps the last |
| `Imports.BoardIsKept` | packages/integrations/src/apply.ts:302-317 | no node is lost, unpatched nodes keep everything, patched ones change data and version only, and created nodes hold what was proposed |
| `Imports.OnlyNamedFieldsChange` | packages/integrations/src/apply.ts:115-135 | on a patched node only the fields named by selected items, and the provenance, change |
| `Imports.LastConflictWins` | packages/integrations/src/apply.ts:273-294 | a conflict resolved by replacing ends with the incoming value in its field, one that keeps both with the value in the list, unless a later item writes the field |
| `Imports.ReapplyCreatesNothing` | packages/integrations/src/apply.ts:142-329 | applying again with the returned id map creates no node and no edge and patches the same nodes |
| `Imports.ReapplyIsNoOpExactlyWhen` | packages/integrations/src/apply.ts:49-50 | applying again leaves the board alone exactly when no selected item writes to an existing node |
| `EgressBucket.EgressPolicyStore.Take` | apps/runner/src/sandbox/egress-proxy.ts:99-110 | the in-place bucket update is the specified one, and the answer says whether a token was there |
| `EgressBucket.TokensStayInside` | apps/runner/src/sandbox/egress-proxy.ts:99-110 | in every reachable state, with any clock, tokens lie between 0 and the minute plus the burst |
| `EgressBucket.RunsAreIndependent` | apps/runner/src/sandbox/egress-proxy.ts:70-110 | however calls about different runs interleave, a run is granted what it would be granted alone |
| `EgressBucket.GrantsSinceRegistration` | apps/runner/src/sandbox/egress-proxy.ts:76-110 | from registration on at most the minute plus its share of the time passed is granted |
| `EgressBucket.GrantsInAnyWindow` | apps/runner/src/sandbox/egress-proxy.ts:99-110 | in any stretch of time at most the minute, the burst, and the share of its length is granted |
| `EgressBucket.PacedRunIsGranted` | apps/runner/src/sandbox/egress-proxy.ts:99-110 | a run that waits its share of the minute before every request is granted all of them, whatever other runs do in between |
| `EgressExact.GrantedExactlyWhen` | apps/runner/src/sandbox/egress-proxy.ts:76-110 | since registration a request is granted exactly when no stretch of time up to it, from registration or from a request on, would get more than its due: the minute, or the minute and the burst, and the share of its length |
| `EgressExact.BurstIsFifth` | apps/runner/src/sandbox/egress-proxy.ts:103 | the burst is a fifth of the minute, rounded up, and at least one request |
| `EgressExact.MinuteIsWorth` | apps/runner/src/sandbox/egress-proxy.ts:104 | a minute is worth the requests of one minute |
| `EgressExact.UnregisteredIsRefused` | apps/runner/src/sandbox/egress-proxy.ts:82-102 | a run that was revoked is granted nothing until it is registered again |
| `EgressBucket.FirstMinuteIsGranted` | apps/runner/src/sandbox/egress-proxy.ts:76-80 | the first requests after registration, as many as the minute allows, are granted however fast they come |
| `EgressBucket.FirstTwentyRedirects` | apps/runner/src/sandbox/egress-proxy.ts:92-96 | since registration exactly the first twenty redirects are allowed |
| `RateLimit.FixedWindowLimiter.HitKey` | apps/api/src/auth/rate-limit.ts:44-59 | the in-place update and the reply are the specified ones, eviction included |
| `RateLimit.FixedWindowLimiter.Evict` | apps/api/src/auth/rate-limit.ts:65-69 | the deletion loop keeps exactly the windows still live |
| `RateLimit.EvictionIsUnobservable` | apps/api/src/auth/rate-limit.ts:51-69 | with a clock that does not go back no answer ever differs from a limiter that never evicts |
| `RateLimit.AtMostTwiceTheLimit` | apps/api/src/auth/rate-limit.ts:44-59 | in any stretch of time as long as the window at most twice the limit is allowed, whatever came before and whatever other keys do |
| `RateLimit.ExactlyTheFirstAreAllowed` | apps/api/src/auth/rate-limit.ts:44-59 | of the hits that fall into one window exactly the first `limit` are allowed |
| `RateLimit.EveryReplyIsExact` | apps/api/src/auth/rate-limit.ts:44-59 | every reply of a limiter that evicts as it goes follows from the hits alone: allowed exactly among the first `limit` since the hit that opened the window, with what is left of them, and the least whole number of seconds, one at least, until that window is over |
| `RateLimit.ForgottenExactlyWhen` | apps/api/src/auth/rate-limit.ts:51-69 | a hit makes the limiter forget another key exactly when its window is over and more than ten thousand are held |
| `RateLimit.RetryAfterIsLeast` | apps/api/src/auth/rate-limit.ts:53 | waiting the seconds named reaches the end of the window, and one second less does not |
| `Base62.Print` | apps/api/src/auth/apiToken.ts:33-43 | the two loops print the specified text |
| `Base62.RoundTrip` | apps/api/src/auth/apiToken.ts:33-43 | decoding the text gives the big-endian value of the bytes |
| `Base62.TextIsCanonical` | apps/api/src/auth/apiToken.ts:36-42 | the text is never empty, uses the alphabet only, and starts with the zero digit only when it is "0" |
| `Base62.TextIsIdentity` | apps/api/src/auth/apiToken.ts:33-43 | texts are equal exactly when the values are; for byte strings of one length exactly when the bytes are |
| `Base62.EveryDigitIsExact` | apps/api/src/auth/apiToken.ts:30-43 | each digit is the one that the alphabet lists for its place, and there are no more than needed |
| `Base62.EveryByteIsExact` | apps/api/src/auth/apiToken.ts:34-35 | the value has the bytes as its digits to the base 256, the first one foremost |
| `Base62.LeadingZeros` | apps/api/src/auth/apiToken.ts:35 | leading zero bytes do not show, which is why the length must be fixed |
| `Selection.Selection.Set` | packages/canvas-engine/src/selection.ts:76-78 | an edit makes the specified selection, and the listener hears it exactly when the order changed |
| `Selection.Selection.Apply` | packages/canvas-engine/src/selection.ts:44-64 | the loop over the incoming ids, with its splices and pushes, makes the specified list |
| `Selection.SessionHasNoDuplicates` | packages/canvas-engine/src/selection.ts:38-84 | no session of edits leaves a duplicate, if the scene lists no node twice |
| `Selection.AddReanchors` | packages/canvas-engine/src/selection.ts:50-63 | `add` yields the old ids not named, followed by the named ids at their last occurrences |
| `Selection.ToggleFlips` | packages/canvas-engine/src/selection.ts:50-63 | after `toggle` membership is the old one, flipped once for every occurrence |
| `Selection.ToggleTwice` | packages/canvas-engine/src/selection.ts:50-63 | toggling the same ids again restores the members |
| `Selection.EditIsExact` | packages/canvas-engine/src/selection.ts:44-64 | what every edit leaves selected, and in which order: ids not named stay in front in order, and those named follow by where they are named last |
| `Selection.FirstsMeaning` | packages/canvas-engine/src/selection.ts:45 | `replace` keeps each id once, in the order of first occurrence |
| `Selection.ListenerIsUpToDate` | packages/canvas-engine/src/selection.ts:38-42 | the last thing the listener heard is what is selected, and it never hears the same thing twice in a row |
| `Selection.Drive` | packages/canvas-engine/src/selection.ts:76-84 | a whole session on the object ends in the specified selection and notifications |
| `StreamBuffer.StreamRingBuffer.Push` | apps/runner/src/artifacts.ts:23-37 | pushing keeps the division of the stream into head, elided middle and tail, with exact byte counts |
| `StreamBuffer.PartsAreTheStream` | apps/runner/src/artifacts.ts:23-49 | head, elided bytes and tail are the stream in order; the kept parts are all of it exactly when no byte was elided |
| `StreamBuffer.SmallStreamsAreWhole` | apps/runner/src/artifacts.ts:12-14 | a stream within the cap is kept whole |
| `StreamBuffer.DivisionIsUnique` | apps/runner/src/artifacts.ts:23-37 | the chunks alone decide what is kept: shortest sufficient head, longest fitting tail |
| `StreamBuffer.EveryChunkIsPlaced` | apps/runner/src/artifacts.ts:23-37 | a chunk is in the head exactly if less than a mebibyte came before it, and in the tail exactly if it is not, and is the last one or no more than a mebibyte came from it on |

## Left out

- Floating point: rounding, `NaN` and infinities are not modelled; reals stand in, and `Math.ceil` of a fifth of the
  budget is the exact one.
- CanonicalJson.CanonicalTextIsIdentity: numbers are taken as the text `JSON.stringify` prints, so that two numbers
  with one text are one number; how a number is printed is not modelled, nor are `toJSON` methods and cyclic values.
- SHA-256: claims about hashed keys are about the text that is hashed.
- RunLayout.LayoutIsIdempotent: the layout algorithms are a parameter, assumed to return at most one placement per
  node with its size and pin and, for this theorem, to place every node and to ignore current positions; their own
  geometry is not modelled.
- RunLayout.Run: seeds, progress and cancellation checkpoints are not modelled.
- SpanningForest.BuildForest: which nodes become further roots when the arcs handed in have cycles is not stated; the
  tree layout hands in none.
- UploadQueue.EveryInterleaving: `sleep` never rejects and listeners do not call back into the queue; hashes,
  progress, file ids and error texts are not part of the state.
- UploadQueue.CancelIsFinalExactlyWhen: the abort signal is only read between chunks; `put` is taken to be able to
  fulfil after an abort, as `presign` and `complete`, which get no signal, certainly are.
- Applier.Board.ApplyProposal: positions of created nodes, tags, layout hints, excerpts, labels of edges and time
  stamps are not modelled, and the limit on creating nodes and the schema checks of the document are taken to pass.
  New ids come from a function that the caller supplies.
- Proposals.MapNodes: tags and layout hints of proposed nodes are not modelled; `decideField`, the identity resolver,
  the provenance of a record and the hash behind temporary ids are parameters; extraction itself, `jsonPointer`
  included, is not modelled.
- Proposals.MapRelations: labels and props of proposed edges are not modelled.
- Proposals.BuildProposal: explanations, previous values and confidences of items are not modelled.
- Menu.SplitRegistryValidates: `alternatives` of a provider, which `validate` also checks, are not modelled: they are
  taken to be empty.
- UploadDrain.EveryDrainEnds: every promise settles at last; how long that takes, and the back-off, are not modelled.
- ResultCache.KeyIsIdentity: trimming and lower-casing of the input value is a parameter; `ageLabel` is not modelled.
- EgressBucket.EgressPolicyStore.Take: the order of the checks around it in `authorize`, host matching, policy expiry
  and the log are not modelled; `maxRequestsPerMinute` is a whole number.
- RateLimit.AtMostTwiceTheLimit: for keys that are always used with one rule; the texts of the keys and the
  environment overrides are not modelled.
- Selection.Selection.SelectAll: keeps whatever the scene query lists, so it is free of duplicates only if the query
  is; `bounds` is not modelled.
- StreamBuffer.StreamRingBuffer.Push: decoding to text and the elision marker are not modelled, nor is
  `collectArtifact`.
- The reaper sweep, consent checks, rate-limit key builders and token scopes: they would add only easy members.
- Everything with I/O or a user interface: databases, sockets, containers, canvas painting, React.
