# Verified models of the reverse-mcp analysis core

reverse-mcp is a server that lets an agent analyse binaries: a broker starts worker
processes around a disassembler database, cuts very large functions into regions,
walks call graphs under a budget, reads WebAssembly bodies and compares functions.
This project models the parts of it whose correctness is not visible from one
function body, and proves what they promise for every input, every run and every
interleaving.

* **Large functions** (`Walks`, `Sorting`, `Selections`, `Texts`, `Tarjan`, `CfgIndex`, `RegionIds`, `Regions`,
  `RegionGraph`, `RegionLaws`, `RegionEntries`, `RegionCycles`, `Dataflow`, `Pipeline`). The worker's
  graph becomes a block index; an iterative Tarjan search finds its components in exactly blocks
  plus edges steps; the region partition built on them is the exact quotient of the worker's edges;
  the bounded worklist completes exactly the regions that end no walk of `max_iterations` edges, in
  a determined order and with determined facts; and when the whole pipeline converges is told
  exactly by the worker's graph and the chunk size.
* **Resumable deep walk** (`DeepWalk`, `DeepResume`, `DeepBounds`). A chain of budgeted runs that ends, wherever
  it was cut, ends with what one unbudgeted run finds, and decompiles no function twice, address 0
  aside; what a resumed run decompiles, and whether it decompiles anything, is told exactly by its
  token, its budgets and the database; depth, function and time budgets bound every run.
* **WebAssembly** (`WasmCfg`, `WasmScan`, `WasmSsa`, `WasmTables`, `WasmSound`, `WasmSites`, `WasmExamples`). Recovering
  structured control flow undoes the flattening of any nested program; the stack-to-SSA pass is
  a sound abstraction of WebAssembly execution on straight-line code: constants, side tables, and
  use by use the chains of every value. What both passes list is told for any operators at all.
* **Block diff** (`ShapeHash`, `BlockDiff`, `DiffReport`, `DiffOrder`). A two-pass matching, determined
  pair by pair, that is one-to-one, maximal and order-independent in its first pass; its report
  accounts for every block exactly when it is not cut.
* **Analysis index** (`IndexReach`). The level-bounded search with a seen set decides
  bounded path existence.
* **Protocols** (`Isolation`, `Pump`, `Revision`, `Rollback`, `WorkerLaws`, `WorkerState`). The ledger of disposable
  workers, the pump that routes replies, and revision-guarded mutations with the
  revision-keyed index, over every interleaving.

Code that works by changing things is modelled by classes and loops (`Tarjan.Search`,
`Dataflow.Worklist`, `WasmCfg.Analyzer`, `WasmSsa.Interpreter`, `WorkerStates.MockBackend`,
`WorkerStates.WorkerState`, and the methods of the other modules), each proved against a
function or a predicate; the theorems are about those. The interleavings of
`Isolation` and `Pump` are runs of an atomic-step machine on values.

## What turned out false

Each of these has a lemma with a failing input, or one that says that all inputs of a kind fail,
and one with the exact condition.

* A region graph built with the default chunk size can have cycles that the block graph
  does not force: on a four-block loop every run completes nothing and does not converge
  (`Pipeline.DefaultChunksCanCycle`, `Pipeline.DefaultChunksNeverStart`). With facts for all
  regions and enough rounds a run converges if and only if the region graph is acyclic
  (`Pipeline.ConvergedIffAcyclic`). It is so if and only if no walk along block edges and between
  blocks that go together (mutually reachable, or outside every loop with ranks in the same chunk)
  leaves such blocks and returns to them (`RegionCycles.AcyclicIffNoReturn`); when the blocks
  outside every loop fit one chunk, if and only if no loop has such a block before it and another
  after it (`RegionCycles.OneChunkIff`); and always with chunks of one block
  (`RegionCycles.SingletonChunksAcyclic`). The end-to-end call states both on the worker's graph.
* The entry blocks of a region are documented as those with a predecessor outside it or none at
  all. In a function of two blocks, one after the other, the return block is listed and the
  function's first block is not (`RegionEntries.ReturnListedAsEntry`). The list is the documented
  one if and only if each block without outside predecessor has an inside predecessor exactly when
  it has an inside successor and is not alone (`RegionEntries.EntriesAsDocumentedIff`), as is
  always the case in loop and dispatcher regions (`RegionEntries.LoopEntriesAsDocumented`).
* A resumed deep walk is documented to continue where the run stopped. It decompiles something if
  and only if the topmost pending entry that is indexed and not restored is within the depth
  budget, the restored dossiers leave room in the function budget and the clock has not run out
  (`DeepResume.ResumeProgressIff`). With one function allowed and two to walk the resumed run does
  nothing (`DeepResume.ResumeCanStandStill`), and resuming under unchanged budgets never ends a run that no
  clock cut and that holds no dossier at address 0: every later run stops at once with the same
  functions and pending entries (`DeepResume.EqualBudgetsNeverEnd`).
* A resumed deep walk drops the dossier of address 0 (`DeepWalk.ZeroIsLostOnResume`). A chain
  that ends without `budget_hit` has it if and only if the last token's pending entries lead to
  it along calls between functions without a restored dossier, or, for a single run, the root
  reaches it (`DeepResume.ZeroIsKeptIff`); the same decides whether it is decompiled again
  (`DeepResume.ZeroAgainIff`).
* Passing a token back restores dossiers without their callee lists, since they are written under
  one name and read under another. In every run of a chain a dossier has its callee list if and only
  if this run decompiled the function or there are no direct calls to list
  (`DeepBounds.CalleesKeptIff`).
* The symbolic stack falls behind the concrete one at a `local.get` of a declared local
  that was never set (`WasmExamples.UnsetReadExample`), and a later fold can then record a false
  constant (`WasmExamples.FalseConstantExample`). The heights agree throughout if and only if
  there is no such read (`WasmSound.HeightsAgreeIff`), and no constant but that of a fold after
  such a read can be false (`WasmSites.ConstantTrueUnlessLateFold`). Whatever was read, a fold's
  constant is true if and only if the constants taken for its operands give the result, modulo
  2^32, of the operands the run had (`WasmSites.FoldTrueIff`).
* A value's definition offset is documented as that of the producing instruction and its uses as
  those of the consuming ones. Every definition by an operator carries the offset after it
  (`WasmSites.DefinitionOffset`), and a use carries its own operator's offset if and only if it is a
  local read or the second use of a stored value, otherwise the offset after
  (`WasmSites.UseOffsetIff`).
* A list diffed with itself is not always equal throughout: pass 1 pairs equal shapes last in,
  first out, and shapes collide (`ShapeHash.ShapesCollide`, `DiffReport.SelfDiffCanDiffer`). It gives only equal rows if and only if each bucket of equal shapes reads alike from
  both ends (`DiffReport.SelfDiffIff`), as in every list without collisions (`DiffReport.SelfDiff`).
* Rows of a block diff are said to be ordered by address. Equal, modified and removed rows are
  ordered by the hexadecimal text of their address in the first function, so 0x1000 precedes
  0x200 (`DiffOrder.RemovedRowsOutOfOrder`); they are in address order if and only if each
  shorter address among them is at most the leading digits of each longer one
  (`DiffOrder.ReportOrderIff`), and in every report of a list if and only if all its addresses
  are so (`DiffOrder.AlwaysInOrderIff`). Added rows have no such text and keep the order of the
  second list (`DiffOrder.AddedRowsOutOfOrder`), so they are in address order in every report
  against every first list if and only if that list ascends (`DiffOrder.AlwaysAddedInOrderIff`),
  and in one uncut report if and only if its unused part does (`DiffOrder.AddedOrderIff`).
* The plain ledger equation of the disposable workers is off inside two short windows
  (`Isolation.WindowIsReachable`); it holds if and only if no call is inside one
  (`Isolation.PlainLedgerIff`).
* A rollback reuses revision numbers, so an index or a guard read before it can be taken for
  current after it (`Rollback.RestoreCanMislead`). Every later query is right if and only if
  there was no index, or it was of a revision up to the snapshot's, or of the next one with the
  snapshot's names (`Rollback.QueriesAfterRestoreIff`); the same for guards
  (`Rollback.GuardsAfterRestoreIff`), and for a newly selected backend, which keeps the old
  index (`Rollback.QueriesAfterSelectIff`, `Rollback.GuardsAfterSelectIff`).
* `plan.apply` treats a malformed `expected_revision` as no guard at all, where a single
  mutation refuses it (`Revision.MalformedGuard`).
* Every mutation is said to be audited, rollback included. Creating a structure is not
  (`Revision.StructIsNotAudited`), nor is a rollback (`Rollback.RestoreIsNotAudited`). Over every
  run the audit trail gains one entry for each state change (operation applied or snapshot
  restored) if and only if no structure was created and no snapshot was restored
  (`Rollback.AuditCompleteIff`). Selecting a backend sets the revision back to 0 and keeps the
  trail (`Rollback.SelectKeepsTrail`), so it is in runs without either that the trail also counts
  revisions, if and only if no structure was created (`Revision.AuditCountsRevisionsIff`).

## Model

| member | source | states |
|---|---|---|
| `Tarjan.TarjanSccs` | crates/rmcp-broker/src/preflight.rs:119-177 | For every graph with in-range successors: the components are non-empty, pairwise disjoint and cover every block, two blocks share one exactly when each reaches the other, largest first, and of two of the same size the first does not reach the second; each block is entered once, each successor slot read once, and the inner loop takes exactly blocks plus edges steps; both stacks are empty whenever the outer loop advances |
| `Tarjan.Search.Enter` | crates/rmcp-broker/src/preflight.rs:134-150 | Giving an unseen block the next index and pushing it keeps the search invariant (stack order, reachability along the call stack, low-links) |
| `Tarjan.Search.ReadSlot` | crates/rmcp-broker/src/preflight.rs:141-153 | Reading one successor slot keeps the invariant and is charged exactly once |
| `Tarjan.Search.Emit` | crates/rmcp-broker/src/preflight.rs:161-171 | What is popped at a root is a whole component, disjoint from those already emitted |
| `Tarjan.Search.Finish` | crates/rmcp-broker/src/preflight.rs:154-172 | Leaving a block folds its low-link into its parent and emits its component exactly at a root, keeping the invariant |
| `Tarjan.PopComponent` | crates/rmcp-broker/src/preflight.rs:162-170 | Pops exactly the part of the stack from the root up and clears exactly those flags |
| `Tarjan.SortKeepsPartition` | crates/rmcp-broker/src/preflight.rs:175-176 | Sorting largest first changes neither the components nor their coverage |
| `Tarjan.SortKeepsTies` | crates/rmcp-broker/src/preflight.rs:175-176 | Components of the same size stay in the order of emission, in which none reaches a later one |
| `Tarjan.PoppedConnected` | crates/rmcp-broker/src/preflight.rs:151-163 | Everything stacked from a finished root up is mutually reachable with the root |
| `Tarjan.PoppedMaximal` | crates/rmcp-broker/src/preflight.rs:161-171 | Whatever is mutually reachable with a popped block is popped with it |
| `CfgIndexes.CfgIndexFromGraph` | crates/rmcp-broker/src/largefn.rs:49-113 | Whatever the worker sent, the index is well formed, its blocks are exactly the numeric node addresses in ascending order, and each successor list holds exactly the rows between known blocks, once each |
| `CfgIndexes.IndexEas` | crates/rmcp-broker/src/largefn.rs:57-61 | The address table inverts the block list |
| `CfgIndexes.BlockEasSpec` | crates/rmcp-broker/src/largefn.rs:50-55 | The block list is the set of numeric node addresses, strictly ascending |
| `CfgIndexes.MissingEndsLoopAtZero` | crates/rmcp-broker/src/largefn.rs:65-82 | A row without ends is a loop at the block with address 0, if there is one |
| `RegionIds.RegionIdInjective` | crates/rmcp-broker/src/regions.rs:102-106 | Different counters give different region ids |
| `Texts.DecimalReads` | crates/rmcp-broker/src/regions.rs:102-106 | The decimal text of a counter reads back as its number, without leading zeros |
| `Regions.EntryExitBlocks` | crates/rmcp-broker/src/regions.rs:215-239 | The loop computes the sorted addresses of the blocks meeting the entry and exit rules; what the two rules mean is stated in `RegionEntries` |
| `Regions.MarkLoops` | crates/rmcp-broker/src/regions.rs:89-99 | Marks exactly the blocks of multi-block components |
| `Regions.LoopRegions` | crates/rmcp-broker/src/regions.rs:101-134 | One region per multi-block component, sorted, with its role and consecutive id; the block table inverts them |
| `Regions.CollectSingles` | crates/rmcp-broker/src/regions.rs:138-138 | Lists exactly the remaining blocks, ascending |
| `Regions.ChunksSpec` | crates/rmcp-broker/src/regions.rs:139-139 | Chunks cut the list into consecutive pieces within the bound, all but the last full |
| `Regions.ChunkRegions` | crates/rmcp-broker/src/regions.rs:136-160 | The remaining blocks become chunk regions and every block is then placed |
| `Regions.CrossEdges` | crates/rmcp-broker/src/regions.rs:162-180 | The two tables hold exactly the crossings of the block graph, seen from both ends |
| `Regions.LinkOfSpec` | crates/rmcp-broker/src/regions.rs:206-211 | Sorting and removing repeats keeps exactly the members |
| `Regions.LinkRegions` | crates/rmcp-broker/src/regions.rs:181-188 | Only the links of the regions change, and they become the crossings |
| `Regions.MakePartition` | crates/rmcp-broker/src/regions.rs:79-204 | For every valid index and positive chunk size the result is a partition: loops in the order of the components, chunks, placement, entry and exit lists and links all as specified |
| `RegionLaws.IdsUnique` | crates/rmcp-broker/src/regions.rs:102-106 | Region ids are unique |
| `RegionLaws.BlockRegionAgrees` | crates/rmcp-broker/src/regions.rs:114-116 | A block lies in a region exactly when the block table gives it that region's id |
| `RegionLaws.EveryBlockInOneRegion` | crates/rmcp-broker/src/regions.rs:79-160 | Every block lies in exactly one region |
| `RegionLaws.LoopRegionIsComponent` | crates/rmcp-broker/src/regions.rs:107-134 | Each loop or dispatcher region is a whole multi-block component, the role decided by the size threshold |
| `RegionLaws.LoopRegionsInOrder` | crates/rmcp-broker/src/regions.rs:101-134 | Loop and dispatcher regions are numbered by size, and of two of the same size the first does not reach the second |
| `RegionLaws.EveryLoopHasRegion` | crates/rmcp-broker/src/regions.rs:107-134 | Conversely every multi-block component is one such region |
| `RegionLaws.ChunkRegionIsChunk` | crates/rmcp-broker/src/regions.rs:136-160 | Chunk regions hold only blocks that are components by themselves, within the bound |
| `RegionLaws.QuotientGraph` | crates/rmcp-broker/src/regions.rs:162-188 | Distinct regions are successor and predecessor if and only if a block edge crosses between them |
| `RegionLaws.CrossingUsesExitAndEntry` | crates/rmcp-broker/src/regions.rs:215-239 | Each crossing edge leaves by an exit block and enters by an entry block |
| `RegionLaws.EdgeProjects` | crates/rmcp-broker/src/regions.rs:163-188 | A block edge is no step or one step of the region graph |
| `RegionLaws.PathProjects` | crates/rmcp-broker/src/regions.rs:163-188 | Every block path projects to a region path that is no longer |
| `RegionLaws.PartitionConsistent` | crates/rmcp-broker/src/regions.rs:181-188 | Predecessor and successor lists mirror each other, stay inside the partition and hold no self link |
| `RegionEntries.EntriesAsDocumentedIff` | crates/rmcp-broker/src/regions.rs:213-239 | For any set of blocks the entry list is the documented one (predecessor outside, or none) if and only if every block without outside predecessor has an inside predecessor exactly when it has an inside successor and is not alone |
| `RegionEntries.LoopEntriesAsDocumented` | crates/rmcp-broker/src/regions.rs:101-134 | In every partition the loop and dispatcher regions list exactly the documented entries |
| `RegionEntries.ReturnListedAsEntry` | crates/rmcp-broker/src/regions.rs:213-239 | In every default partition of a two-block function the only region lists the return block as its entry, where the documented entry is the first block |
| `RegionEntries.ExitsAre` | crates/rmcp-broker/src/regions.rs:213-239 | In every partition with distinct addresses a block is listed as an exit of a region if and only if it belongs to it and has a successor in another region or none at all |
| `RegionEntries.BoundariesAscend` | crates/rmcp-broker/src/regions.rs:236-238 | Entry and exit lists are ascending, without repeats, and of the region's own blocks |
| `RegionCycles.TogetherIff` | crates/rmcp-broker/src/regions.rs:79-160 | In every partition two blocks share a region if and only if they reach each other, or both are outside every loop and their ranks fall into the same chunk |
| `RegionCycles.LeavesAndReturns` | crates/rmcp-broker/src/regions.rs:162-188 | In every partition a region that some block path leaves and comes back to lies on a cycle of the region graph |
| `RegionCycles.AcyclicIffNoReturn` | crates/rmcp-broker/src/regions.rs:79-188 | In every partition the region graph is acyclic if and only if no walk along block edges and between blocks that go together leaves such blocks and returns |
| `RegionCycles.OneChunkIff` | crates/rmcp-broker/src/regions.rs:136-160 | If the blocks outside every loop fit one chunk, that is so if and only if no loop block is both reached from and reaches a block outside every loop |
| `RegionCycles.FewRegions` | crates/rmcp-broker/src/regions.rs:101-160 | There are no more regions than blocks |
| `Dataflow.AddFacts` | crates/rmcp-broker/src/dataflow.rs:151-164 | Adding a predecessor's facts gives the first of the distinct facts up to the cap, in order, and reports the cap if and only if there are more |
| `Dataflow.Worklist.Deliver` | crates/rmcp-broker/src/dataflow.rs:143-179 | Serving one successor keeps the invariant, so the facts and the report of every region are exact afterwards, and releases it exactly when its last predecessor is completed |
| `Dataflow.Worklist.Process` | crates/rmcp-broker/src/dataflow.rs:137-180 | Completing one region keeps the invariant, also when it has no facts and serves nobody |
| `Dataflow.Worklist.NextRound` | crates/rmcp-broker/src/dataflow.rs:181-181 | Between rounds the split of the regions is kept |
| `Dataflow.RunDataflow` | crates/rmcp-broker/src/dataflow.rs:85-208 | In every run, however stopped: each region completes at most once and after all its predecessors, roots in partition order first and the others in the order of their release; its in-facts never change afterwards and are exactly the first distinct facts of its completed predecessors up to the cap, in order of completion; completed and frontier partition the regions. Rounds are counted until nothing is ready, the budget is used up or the clock has run out. With facts for all, after the rounds counted a region is completed if and only if no walk of so many edges ends there, and the last round completed something; without deadline the same for `max_iterations`. Whatever facts there are, only roots and released regions complete, and once nothing is ready exactly those: a region is released if all its predecessors are completed and the one completed last has facts |
| `Dataflow.CappedIff` | crates/rmcp-broker/src/dataflow.rs:151-164 | In every run a region is reported as capped if and only if its completed predecessors have more facts for it than the cap, counted without repeats, and it has as many of them as the cap allows |
| `Dataflow.LevelStep` | crates/rmcp-broker/src/dataflow.rs:134-182 | One round completes exactly the regions that end walks one edge shorter than the limit |
| `Dataflow.LevelSettled` | crates/rmcp-broker/src/dataflow.rs:184-194 | Once nothing is ready, more rounds would change nothing |
| `Pipeline.CompletedIffBelowNoCycle` | crates/rmcp-broker/src/dataflow.rs:107-182 | With at least as many rounds as regions, the completed regions are exactly those with no ancestor-or-self on a cycle |
| `Pipeline.ConvergedIffAcyclic` | crates/rmcp-broker/src/dataflow.rs:184-206 | Then the run converges if and only if the region graph is acyclic |
| `Pipeline.BlocksUpstreamCompleted` | crates/rmcp-broker/src/dataflow.rs:165-178 | In every run, if a block's region is completed so is the region of every block that reaches it |
| `Pipeline.CompletedBelowNoCycle` | crates/rmcp-broker/src/dataflow.rs:165-178 | In every run, whatever facts there are, no completed region lies below a cycle |
| `Pipeline.UpstreamFactsComplete` | crates/rmcp-broker/src/dataflow.rs:139-178 | In a run that was not stopped, a region below no cycle with facts for everything upstream is completed |
| `RegionCycles.ConnectedRegionsAcyclic` | crates/rmcp-broker/src/regions.rs:101-160 | If every region is connected, the region graph is acyclic |
| `RegionCycles.SingletonChunksAcyclic` | crates/rmcp-broker/src/regions.rs:136-160 | With chunks of one block the region graph is acyclic for every function |
| `Pipeline.DefaultChunksCanCycle` | crates/rmcp-broker/src/regions.rs:136-160 | With the default chunk size a simple loop gives a cyclic region graph |
| `Pipeline.DefaultChunksNeverStart` | crates/rmcp-broker/src/dataflow.rs:107-119 | On that loop every run, whatever its facts and limits, completes nothing and does not converge |
| `Pipeline.QuotientOfWorkerRows` | crates/rmcp-broker/src/largefn.rs:65-82 | Distinct regions are linked if and only if some edge row of the worker between known nodes crosses them |
| `Pipeline.GatherFacts` | crates/rmcp-broker/src/largefn_tools.rs:113-185 | Exactly the first `max_regions` regions get an (empty) fact entry |
| `Pipeline.Anchor` | crates/rmcp-broker/src/largefn.rs:116-122 | Anchoring the function address keeps the partition |
| `Pipeline.GraphConvergesIff` | crates/rmcp-broker/src/largefn_tools.rs:107-112 | For every worker graph: the region graph is acyclic if and only if nobody returns along the worker's rows between known blocks; if the blocks outside every loop fit one chunk, if and only if no loop lies between two of them; always with chunks of one block |
| `Pipeline.HierarchicalDataflow` | crates/rmcp-broker/src/largefn_tools.rs:107-187 | End to end from the worker's graph: a partition of exactly its nodes into at most as many regions, facts for exactly the first `max_regions` regions, a safe data-flow outcome that completes exactly the roots and the released regions; when regions and rounds suffice, convergence if and only if nobody returns in the worker's graph, which for one chunk means that no loop lies between two blocks outside every loop |
| `DeepWalk.ExtractCallSites` | crates/rmcp-worker/src/deep.rs:448-463 | Every call is listed once, in order: exactly the direct ones with their targets, exactly the indirect ones with their sites |
| `DeepWalk.VisitState` | crates/rmcp-worker/src/deep.rs:201-219 | One visit files the dossier and pushes exactly the indexed callees without one |
| `DeepWalk.WalkLoop` | crates/rmcp-worker/src/deep.rs:187-220 | The loop computes the walk of the specification and decompiles exactly what that walk lists |
| `DeepWalk.Converge` | crates/rmcp-worker/src/deep.rs:230-290 | The convergence loop stops in its first round, asks the backend nothing and changes nothing |
| `DeepWalk.DeepFunction` | crates/rmcp-worker/src/deep.rs:113-300 | The whole call, fresh or resumed: the result of the specification, and no decompilation beyond those of the walk |
| `DeepWalk.FreshRunIsReachable` | crates/rmcp-worker/src/deep.rs:187-220 | In every fresh run each function is decompiled at most once; without `budget_hit` the dossiers are exactly the functions reachable by direct calls, with their true names, prototypes and indirect sites |
| `DeepWalk.ChainSane` | crates/rmcp-worker/src/deep.rs:129-220 | Every run of a chain leaves a sane state: walked functions reachable, dossiers true, whoever is still to be walked on the frontier |
| `DeepWalk.ChainRemembers` | crates/rmcp-worker/src/deep.rs:156-167 | A function decompiled by one run stays in the dossiers of all later runs (address 0 aside) |
| `DeepWalk.ChainDecompilesOnce` | crates/rmcp-worker/src/deep.rs:105-112 | Over a whole chain no function other than that at address 0 is decompiled twice |
| `DeepWalk.ChainPendingIsExact` | crates/rmcp-worker/src/deep.rs:546-557 | After any run of a chain every indexed callee of a walked function was walked or is pending |
| `DeepWalk.ChainFindsReachable` | crates/rmcp-worker/src/deep.rs:129-220 | A chain that ends without `budget_hit` has found exactly the reachable functions, address 0 aside, with true dossiers, and has decompiled exactly the reachable ones |
| `DeepWalk.ChainEqualsOneRun` | crates/rmcp-worker/src/deep.rs:129-220 | Such a chain yields the functions, names, prototypes and indirect sites of one unbudgeted run, address 0 aside, wherever budgets or deadline cut it |
| `DeepWalk.ZeroIsLostOnResume` | crates/rmcp-worker/src/deep.rs:134-138 | A concrete database whose root at address 0 is lost by a resumed run |
| `DeepResume.ResumeDecompiles` | crates/rmcp-worker/src/deep.rs:130-220 | Whatever the token: a resumed run decompiles only functions reached from an indexed pending entry along calls between functions without a restored dossier, and exactly those if it ends without `budget_hit` |
| `DeepResume.ChainRunDecompiles` | crates/rmcp-worker/src/deep.rs:130-220 | The same for every run of a chain, by the token it resumes from |
| `DeepResume.ZeroIsKeptIff` | crates/rmcp-worker/src/deep.rs:134-138 | When a chain that ends without `budget_hit` keeps address 0: for one run, if and only if the root reaches it; for more, if and only if the last token leads to it |
| `DeepResume.ZeroAgainIff` | crates/rmcp-worker/src/deep.rs:134-138 | When address 0 is decompiled again: only if the token leads there, and by a last run without `budget_hit` exactly then |
| `DeepResume.ResumeProgressIff` | crates/rmcp-worker/src/deep.rs:130-220 | Whatever the token: a resumed run decompiles something if and only if the topmost pending entry that is indexed and not restored is within the depth budget, the restored dossiers leave room and the clock has not run out; that entry is then first, and otherwise the run hands back what it was given |
| `DeepResume.ResumeUnchangedIff` | crates/rmcp-worker/src/deep.rs:187-200 | A run stopped by its function or depth budget and resumed under the same budgets decompiles something if and only if the dossier of address 0 was the one too many, the next entry is not too deep and the clock has not run out |
| `DeepResume.EqualBudgetsNeverEnd` | crates/rmcp-worker/src/deep.rs:105-112 | In a chain no clock cuts, from a run with `budget_hit` and no dossier at address 0 on, equal budgets give only runs with `budget_hit` that decompile nothing and keep functions and pending entries, and so would one more |
| `DeepResume.ResumeCanStandStill` | crates/rmcp-worker/src/deep.rs:187-200 | A concrete database on which a run resumed under the same budgets decompiles nothing and stops again |
| `DeepBounds.ChainWithin` | crates/rmcp-worker/src/deep.rs:187-200 | In every run of a chain: functions are decompiled only at fewer calls from the root than the depth budget, each pending entry carries the length of a chain of calls that leads to it, there are no more functions than the budget unless more were restored, and nothing is decompiled after the clock has run out |
| `DeepBounds.RefusedIff` | crates/rmcp-worker/src/deep.rs:120-136 | A call is refused for an unknown root, and then for a token without dossiers, and for nothing else before it walks |
| `DeepBounds.FailsIff` | crates/rmcp-worker/src/deep.rs:201-204 | A fresh run on an indexed root fails only if direct calls lead to a function that cannot be decompiled, and an unbudgeted one exactly then |
| `DeepBounds.CalleesKeptIff` | crates/rmcp-worker/src/deep.rs:131-167 | In every run of a chain a dossier has exactly its direct calls, in order, if and only if this run decompiled the function or there are none |
| `DeepBounds.PushesPicked` | crates/rmcp-worker/src/deep.rs:215-219 | Exactly the indexed callees without a dossier are pushed, in call order |
| `DeepBounds.DepthFirst` | crates/rmcp-worker/src/deep.rs:187-219 | The walk goes depth first: after a function comes the last of its calls that is still to be walked |
| `WasmCfg.ResolveIsLookup` | crates/rmcp-wasm/src/cfg.rs:53-58 | Resolving a depth on the label stack finds the lexically enclosing label, or nothing |
| `WasmCfg.Analyzer.Enter` | crates/rmcp-wasm/src/cfg.rs:82-126 | Opening a construct lists its region under the innermost open one, or refuses a `block` beyond the region budget |
| `WasmCfg.Analyzer.MarkIf` | crates/rmcp-wasm/src/cfg.rs:127-134 | `else` marks the innermost region if it is an `if` and nothing else |
| `WasmCfg.Analyzer.RecordBranch` | crates/rmcp-wasm/src/cfg.rs:224-228 | A branch adds its offset to the sources of its target only |
| `WasmCfg.Analyzer.BranchTo` | crates/rmcp-wasm/src/cfg.rs:152-163 | `br` and `br_if` are recorded at the resolved label or reported out of range |
| `WasmCfg.Analyzer.BranchTable` | crates/rmcp-wasm/src/cfg.rs:164-178 | Every in-range target of a `br_table` is listed, the default last, and recorded |
| `WasmCfg.Analyzer.PlainOp` | crates/rmcp-wasm/src/cfg.rs:152-198 | An operator without structure has exactly the effect of the scan function |
| `WasmCfg.Analyzer.Exit` | crates/rmcp-wasm/src/cfg.rs:199-209 | `end` closes the innermost region at its offset, and the function at the outermost level |
| `WasmCfg.Analyzer.Turn` | crates/rmcp-wasm/src/cfg.rs:81-211 | One turn of the loop is one step of the scan |
| `WasmCfg.AnalyzeBody` | crates/rmcp-wasm/src/cfg.rs:62-222 | The loop, for any operator sequence, malformed ones included, returns what the scan says |
| `WasmCfg.AnalyzeUndoesFlatten` | crates/rmcp-wasm/src/cfg.rs:62-222 | Flattening any nested program and scanning it recovers it: regions in preorder, parents, `has_else`, offsets, and every branch at its lexical label |
| `WasmCfg.AnalyzeAcceptsIff` | crates/rmcp-wasm/src/cfg.rs:76-87 | A flattened program is accepted if and only if it fits the operator budget and no `block` exceeds the region budget |
| `WasmCfg.RegionsLaminar` | crates/rmcp-wasm/src/cfg.rs:199-209 | The recovered regions come in order of their start, and any two are nested or apart |
| `WasmCfg.ParentContains` | crates/rmcp-wasm/src/cfg.rs:88-97 | Each region's parent is the function or an earlier region that strictly contains it |
| `WasmScan.ListsAre` | crates/rmcp-wasm/src/cfg.rs:82-198 | For any operators at all, as far as the scan reads, it lists exactly the calls and tail calls with their functions, the indirect calls with type and table, the branch tables and the opened regions, each in order with its offset |
| `WasmScan.TableTargets` | crates/rmcp-wasm/src/cfg.rs:164-178 | A branch table is listed with exactly its targets in scope, in order and the default last, and branches to each |
| `WasmScan.BranchNotedIff` | crates/rmcp-wasm/src/cfg.rs:152-178 | As far as the scan reads, a branch to a region is noted at an offset if and only if an operator there branches to a label in scope that is that region |
| `WasmScan.SourcesAre` | crates/rmcp-wasm/src/cfg.rs:224-228 | The branch sources of a region are, in order, the offsets of the branches noted to it |
| `WasmScan.HeightMoves` | crates/rmcp-wasm/src/cfg.rs:82-209 | Each construct opened adds one label and each `end` takes one; the scan is done exactly at the `end` of the function |
| `WasmScan.QuietIff` | crates/rmcp-wasm/src/cfg.rs:135-194 | As far as the scan reads, nothing is reported if and only if there is no `try`, no tail call and no branch deeper than the labels in scope |
| `WasmScan.UnclosedIff` | crates/rmcp-wasm/src/cfg.rs:213-219 | A body is reported unclosed, with the number of labels left, if and only if more than the function's own is left |
| `WasmSsa.Interpreter.DefVal` | crates/rmcp-wasm/src/ssa.rs:82-98 | Defines one value under the next version, with its type and producer texts and an empty use chain, and pushes its name |
| `WasmSsa.Interpreter.PopUse` | crates/rmcp-wasm/src/ssa.rs:100-116 | Pops the top name and adds the offset to its use chain, or reports an underflow and leaves the stack |
| `WasmSsa.Interpreter.AddUse` | crates/rmcp-wasm/src/ssa.rs:105-107 | The search loop finds the first fact with the name and appends the offset to its chain only |
| `WasmSsa.Interpreter.Binary` | crates/rmcp-wasm/src/ssa.rs:197-219 | Folds add, sub and mul of two constants to 32 bits and nothing else |
| `WasmSsa.Interpreter.LocalOp` | crates/rmcp-wasm/src/ssa.rs:140-161 | Reads push only known locals, with a use and a load entry; writes bind the popped name, with a use and a store entry |
| `WasmSsa.Interpreter.MemoryAccess` | crates/rmcp-wasm/src/ssa.rs:173-196 | Loads and stores record their operands and one memory entry naming the address; a stored value is used twice |
| `WasmSsa.Interpreter.Consume` | crates/rmcp-wasm/src/ssa.rs:168-172 | Writes to globals, conditions and table indices record the popped name; `return` and `drop` only pop |
| `WasmSsa.Interpreter.Compare` | crates/rmcp-wasm/src/ssa.rs:220-236 | Tests pop their operands with a use each and define an unknown value |
| `WasmSsa.Interpreter.GlobalRead` | crates/rmcp-wasm/src/ssa.rs:162-167 | A global read defines an unknown value and records it |
| `WasmSsa.Interpreter.Turn` | crates/rmcp-wasm/src/ssa.rs:131-265 | One turn of the loop is one step of the symbolic function and of the recording function |
| `WasmSsa.AnalyzeValues` | crates/rmcp-wasm/src/ssa.rs:59-270 | The loop returns the symbolic state, the use chains, the side tables and the operator count at the first `end`, or refuses bodies beyond the operator budget |
| `WasmTables.StackMoves` | crates/rmcp-wasm/src/ssa.rs:82-116 | Every operator pops what it takes, as far as there is anything, and pushes its value; only `local.set` and `local.tee` write a local |
| `WasmTables.SilentIff` | crates/rmcp-wasm/src/ssa.rs:108-116 | In every body the pass is silent if and only if it met no opaque operator and no operator without its operands |
| `WasmTables.TextsAre` | crates/rmcp-wasm/src/ssa.rs:22-28 | In every body the type and producer texts are those of the parameters and then of the operators that define values, in order |
| `WasmTables.ConstantsAre` | crates/rmcp-wasm/src/ssa.rs:136-139 | In every body a constant operator's value has that constant, and nothing but a fold has one besides |
| `WasmTables.SitesAre` | crates/rmcp-wasm/src/ssa.rs:131-265 | In every body the side tables hold, in order, exactly what each operator enters by the stack it meets |
| `WasmTables.CallListedIff` | crates/rmcp-wasm/src/ssa.rs:247-251 | In every body a call is listed if and only if there is a call of that function at that offset |
| `WasmTables.TableIndexListedIff` | crates/rmcp-wasm/src/ssa.rs:241-246 | In every body a table index is listed if and only if a `br_table` at that offset met it on top of the stack |
| `WasmTables.ReadCountIs` | crates/rmcp-wasm/src/ssa.rs:130-134 | All operators are counted up to and including the first `end` |
| `WasmSound.FoldIsWrapAround` | crates/rmcp-wasm/src/ssa.rs:208-217 | Folding signed constants agrees with modulo 2^32 arithmetic on bit patterns for add, sub and mul |
| `WasmSound.ConstOfFinds` | crates/rmcp-wasm/src/ssa.rs:118-122 | Looking up a name finds its own fact, because versions are unique |
| `WasmSound.VersionsUnique` | crates/rmcp-wasm/src/ssa.rs:82-98 | In every body at all the i-th value has version i |
| `WasmSound.NeverStuck` | crates/rmcp-wasm/src/ssa.rs:124-265 | A validated straight-line body never lacks operands and its stack has the validated types |
| `WasmSound.StepRel` | crates/rmcp-wasm/src/ssa.rs:131-219 | Each operator keeps the symbolic and the concrete state related |
| `WasmSound.AnalysisSound` | crates/rmcp-wasm/src/ssa.rs:59-219 | On every run of a validated straight-line body reading only parameters and set locals, at every step: equal heights, each name stands for the value in its slot or local, every recorded constant is that value, nothing is reported |
| `WasmSound.BadReadFallsBehind` | crates/rmcp-wasm/src/ssa.rs:140-148 | At the first read of an unset local the symbolic stack falls exactly one behind |
| `WasmExamples.UnsetReadExample` | crates/rmcp-wasm/src/ssa.rs:140-148 | A one-operator body on which the heights differ |
| `WasmSound.HeightsAgreeIff` | crates/rmcp-wasm/src/ssa.rs:140-148 | Heights agree at every step if and only if every read is of a parameter or a set local |
| `WasmSound.AnalyzeIsSound` | crates/rmcp-wasm/src/ssa.rs:59-270 | The returned facts hold of the run of a body and its closing `end` |
| `WasmSites.SitesSound` | crates/rmcp-wasm/src/ssa.rs:31-57 | On every such run each side-table entry names exactly the value the operator at its site read, wrote, addressed with or tested, in order |
| `WasmSites.UsesAreFiled` | crates/rmcp-wasm/src/ssa.rs:100-116 | In every body at all the use chain of each value is, in order, the offsets recorded for exactly those uses whose slot or local was named by that value |
| `WasmSites.UsesSound` | crates/rmcp-wasm/src/ssa.rs:100-116 | On every such run the value consumed at each use, use by use, is the one its name stands for |
| `WasmSites.UseOffsetIff` | crates/rmcp-wasm/src/ssa.rs:24-25 | A use carries its own operator's offset if and only if it is a local read or the second use of a stored value; otherwise the offset after |
| `WasmSites.DefinitionOffset` | crates/rmcp-wasm/src/ssa.rs:13-14 | In every body the definition offset of an operator's value is the offset after the operator |
| `WasmSites.Aligned` | crates/rmcp-wasm/src/ssa.rs:82-98 | In any validated run, bad reads or not, facts and values stay aligned |
| `WasmSites.ConstantTrueUnlessLateFold` | crates/rmcp-wasm/src/ssa.rs:208-217 | In any validated run the constant of every value is true unless its operator is a fold after a read of an unset local |
| `WasmSites.FoldTrueIff` | crates/rmcp-wasm/src/ssa.rs:208-217 | In any validated run the constant recorded for a fold is true if and only if the constants taken for its operands give the result, modulo 2^32, of the operands the run had |
| `WasmExamples.FalseConstantExample` | crates/rmcp-wasm/src/ssa.rs:140-148 | A body on which the pass records 10 where the run leaves 3 |
| `WasmExamples.OverflowIsFolded` | crates/rmcp-wasm/src/ssa.rs:208-217 | A body the theorems apply to: one added to the largest 32-bit integer runs to the smallest, and that constant is recorded |
| `ShapeHash.ShapeOf` | crates/rmcp-worker/src/blockdiff.rs:47-59 | The loop computes the four-word FNV-1a hash |
| `ShapeHash.WordsInOrder` | crates/rmcp-worker/src/blockdiff.rs:47-59 | Where the mnemonic hash cancels the start value, constants, out-degree and in-degree count with the third, second and first power of the prime |
| `ShapeHash.MixInjective` | crates/rmcp-worker/src/blockdiff.rs:55-56 | A mixing step loses nothing: with one argument fixed the result determines the other |
| `ShapeHash.OneChangeChangesShape` | crates/rmcp-worker/src/blockdiff.rs:44-59 | Blocks differing in exactly one hashed word never collide |
| `ShapeHash.ShapesCollide` | crates/rmcp-worker/src/blockdiff.rs:43-57 | Blocks whose constant hash cancels their mnemonic hash all have the same shape |
| `BlockDiff.BuildBuckets` | crates/rmcp-worker/src/blockdiff.rs:203-206 | The buckets hold exactly the positions of each hash |
| `BlockDiff.ExactPass` | crates/rmcp-worker/src/blockdiff.rs:202-213 | Pass 1 pairs one-to-one only equal shapes; the multiset of paired hashes is the intersection of the two hash multisets; no unpaired blocks share a shape; the first block of a shape takes the last of that shape on the other side, the second the last but one, and so on |
| `BlockDiff.BestMatch` | crates/rmcp-worker/src/blockdiff.rs:220-232 | Finds the first of the most similar unused blocks at or above the threshold, or none exists |
| `BlockDiff.ChosenAtTheMoment` | crates/rmcp-worker/src/blockdiff.rs:215-238 | Each pair of pass 2 is the first best choice among the blocks unused when it is made, and the pairs come in order |
| `BlockDiff.BestPass` | crates/rmcp-worker/src/blockdiff.rs:215-238 | Pass 2 keeps the pairs of pass 1, stays one-to-one, makes exactly the pairs of choosing the best unused block for each unpaired block in turn, and no left-over pair reaches the threshold |
| `BlockDiff.MapBlocks` | crates/rmcp-worker/src/blockdiff.rs:197-238 | Both passes together: the mapping is determined by the two lists and the threshold |
| `BlockDiff.EqualIffAlike` | crates/rmcp-worker/src/blockdiff.rs:61-80 | A pair is reported equal exactly when all four words agree, and then the shapes agree |
| `BlockDiff.SimilarIff` | crates/rmcp-worker/src/blockdiff.rs:61-80 | Blocks are similar enough for a threshold exactly by which of mnemonics, constants and edge shape agree |
| `BlockDiff.MoreSimilarIff` | crates/rmcp-worker/src/blockdiff.rs:61-80 | One block is more similar than another exactly if it alone has the same mnemonics or, these aside, more of constants and edge shape agree |
| `BlockDiff.SecondPassIff` | crates/rmcp-worker/src/blockdiff.rs:215-238 | In every mapping the pairs of pass 2 are alike enough for the threshold and no two blocks left over are |
| `BlockDiff.SecondPassKeepsMnemonics` | crates/rmcp-worker/src/blockdiff.rs:215-238 | Above 0.4 pass 2 pairs only blocks with the same mnemonics, and up to 0.6 it leaves no two of them over |
| `BlockDiff.SecondPassIsModified` | crates/rmcp-worker/src/blockdiff.rs:240-246 | Every pair of pass 2 is reported modified |
| `BlockDiff.FirstPassModifiedIsCollision` | crates/rmcp-worker/src/blockdiff.rs:240-246 | A pair of pass 1 is reported modified if and only if it is a collision in at least two words |
| `BlockDiff.FirstPassOrderFree` | crates/rmcp-worker/src/blockdiff.rs:190-213 | The number and hashes of the pairs of pass 1 are the same for every order of either input |
| `DiffReport.CollectRows` | crates/rmcp-worker/src/blockdiff.rs:240-256 | One row per pair and per unused block of either side |
| `DiffReport.ReportRows` | crates/rmcp-worker/src/blockdiff.rs:240-288 | Every row of a report shows a pair of the mapping, equal exactly if all words agree, or an unused block, and a report that is not cut shows all of them |
| `DiffReport.DiffBlocks` | crates/rmcp-worker/src/blockdiff.rs:197-288 | The report is that of a mapping as specified; whatever the mapping, it accounts for every block of both sides if and only if it is not truncated, its counts add up to its rows, and equal plus modified is at least the number of common shapes, up to the cut |
| `DiffReport.ReportCounts` | crates/rmcp-worker/src/blockdiff.rs:258-288 | The counts after sorting and cutting: the cut takes added rows first, then removed, then modified, exactly |
| `DiffReport.ConservedIffWhole` | crates/rmcp-worker/src/blockdiff.rs:275-288 | equal+modified+removed is the size of one side and equal+modified+added that of the other if and only if the report is not truncated |
| `DiffReport.SelfDiff` | crates/rmcp-worker/src/blockdiff.rs:190-246 | A collision-free list diffed with itself gives only equal rows, one per block |
| `DiffReport.SelfDiffIff` | crates/rmcp-worker/src/blockdiff.rs:202-246 | A list diffed with itself pairs every block, and all rows are equal if and only if every bucket of equal shapes reads alike from both ends |
| `DiffReport.SelfDiffCanDiffer` | crates/rmcp-worker/src/blockdiff.rs:202-246 | Two colliding blocks diffed with themselves give modified rows in every report with room for them |
| `DiffReport.RowOrder` | crates/rmcp-worker/src/blockdiff.rs:258-273 | The sort key is a total preorder |
| `DiffOrder.ReportOrderIff` | crates/rmcp-worker/src/blockdiff.rs:258-276 | In every report, cut or not, the rows of a kind other than added are in address order if and only if each shorter address among them is at most the leading digits of each longer one |
| `DiffOrder.AlwaysInOrderIff` | crates/rmcp-worker/src/blockdiff.rs:258-276 | The equal, modified and removed rows of a list are in address order against every other list if and only if its own addresses are so |
| `DiffOrder.AddedInInputOrder` | crates/rmcp-worker/src/blockdiff.rs:252-276 | Added rows come in the order of the second list, and a cut keeps the first of them |
| `DiffOrder.AddedOrderIff` | crates/rmcp-worker/src/blockdiff.rs:265-273 | In a report that is not cut the added rows are in address order if and only if the unused blocks of the second list are |
| `DiffOrder.AlwaysAddedInOrderIff` | crates/rmcp-worker/src/blockdiff.rs:252-276 | The added rows of a list are in address order against every first list, cut or not, if and only if the list ascends |
| `DiffOrder.RemovedRowsOutOfOrder` | crates/rmcp-worker/src/blockdiff.rs:265-273 | Two blocks against none: the report has the row of 0x1000 before that of 0x200 |
| `DiffOrder.AddedRowsOutOfOrder` | crates/rmcp-worker/src/blockdiff.rs:265-273 | None against two blocks: the report has the row of 0x2 before that of 0x1 |
| `Texts.TextOrder` | crates/rmcp-worker/src/blockdiff.rs:265-273 | The text order of two addresses compares the shorter with the leading digits of the longer |
| `Texts.HexReads` | crates/rmcp-worker/src/blockdiff.rs:258-273 | The hexadecimal text of an address reads back as its number, without leading zeros |
| `IndexReach.Reachable` | crates/rmcp-core/src/analysis_index.rs:200-221 | True if and only if the callee graph has a path of 1 to `levels` calls from root to target, cycles and root = target included |
| `IndexReach.ExpandCallees` | crates/rmcp-core/src/analysis_index.rs:208-215 | Finds the target among one function's callees, or adds exactly the new ones |
| `IndexReach.LevelStep` | crates/rmcp-core/src/analysis_index.rs:204-219 | Pruning by the seen set keeps: seen is everything within the level, the frontier everything exactly that far |
| `Isolation.StepKeepsLedger` | crates/rmcp-broker/src/isolation.rs:94-321 | Every atomic step of every call keeps: each counter counts calls, permits out are permits held |
| `Isolation.LedgerBalances` | crates/rmcp-broker/src/isolation.rs:109-123 | In every state of every interleaving: spawned plus calls inside a window equals the terminal counters plus unaccounted guards |
| `Isolation.PlainLedgerIff` | crates/rmcp-broker/src/isolation.rs:169-174 | spawned equals terminal counters plus unaccounted guards if and only if no call is inside a window |
| `Isolation.WindowIsReachable` | crates/rmcp-broker/src/isolation.rs:169-174 | Such a window is reachable |
| `Isolation.AtMostTwoUnkilled` | crates/rmcp-broker/src/isolation.rs:78-84 | At most two children exist to which no kill was sent, in every interleaving with early returns, panics and dropped futures |
| `Isolation.BalancedAtRest` | crates/rmcp-broker/src/isolation.rs:274-321 | When all calls have finished, all permits are back, no unkilled child is left, the ledger balances and every call is in exactly one place of it |
| `Isolation.OneTerminalEach` | crates/rmcp-broker/src/isolation.rs:109-123 | A finished call bumped exactly one terminal counter if it spawned a worker, and that worker was killed |
| `Isolation.FateIsFinal` | crates/rmcp-broker/src/isolation.rs:306-321 | No call ever bumps a second terminal counter |
| `Isolation.FateIff` | crates/rmcp-broker/src/isolation.rs:205-321 | In every run a call is in the timeout counter if and only if it timed out while talking to the worker, in the clean counter if and only if it finished there, and in the crash counter if and only if its guard was dropped unaccounted |
| `Isolation.CrashedWasAborted` | crates/rmcp-broker/src/isolation.rs:109-123 | A call in the crash counter was abandoned while talking to the worker |
| `Isolation.AcquireIff` | crates/rmcp-broker/src/isolation.rs:134-142 | A new call gets a permit if and only if fewer than two are out |
| `Isolation.WholeCall` | crates/rmcp-broker/src/isolation.rs:164-321 | A permitted call can end in each of the three ways, and then it has finished, its child was killed, its permit is back, and exactly `spawned` and the counter of its fate are one higher |
| `Isolation.OtherEnds` | crates/rmcp-broker/src/isolation.rs:134-167 | A refused call only counts its refusal; one whose spawn fails counts nothing and gives its permit back |
| `Isolation.AbortWhileReaping` | crates/rmcp-broker/src/isolation.rs:100-123 | Abandoned while the killed child is being reaped, a call leaves as if it had been reaped |
| `Pump.StepInv` | crates/rmcp-broker/src/worker_pool.rs:644-705 | Every event, whatever the worker sends, keeps: ids unique, each request in the channel or the map belongs to an unanswered caller, each waiting caller is held |
| `Pump.AnsweredAtMostOnce` | crates/rmcp-broker/src/worker_pool.rs:669-681 | Each caller's channel is sent to at most once in any run |
| `Pump.SettledForGood` | crates/rmcp-broker/src/worker_pool.rs:67-77 | What a caller has in hand never changes, whatever arrives later |
| `Pump.GotFromOwnFrame` | crates/rmcp-broker/src/worker_pool.rs:669-681 | An answer came from a frame carrying the caller's own id, with that value, while the caller waited and its request was held |
| `Pump.FrameAnswersOwner` | crates/rmcp-broker/src/worker_pool.rs:669-681 | A frame with a pending id answers its owner if it still waits and touches nobody else, so a late reply never reaches another caller |
| `Pump.FrameReachesOnlyItsWaiter` | crates/rmcp-broker/src/worker_pool.rs:669-681 | In any run a frame, whatever its id, changes what a caller has in hand if and only if the caller waits under that id with its request held, and then to the frame's value |
| `Pump.LateReplyReachesNobody` | crates/rmcp-broker/src/worker_pool.rs:669-681 | A late reply, to a caller that gave up or was answered, changes nobody's status |
| `Pump.NobodyWaitsAfterExit` | crates/rmcp-broker/src/worker_pool.rs:682-699 | Once the pump has exited no caller waits, and a request sent later fails at once |
| `Pump.FailAllPending` | crates/rmcp-broker/src/worker_pool.rs:701-705 | The drain loop answers exactly the callers in the map with a failure |
| `Pump.PendingDistinct` | crates/rmcp-broker/src/worker_pool.rs:113-117 | In every run the map holds distinct callers under their own ids |
| `Pump.CallStarts` | crates/rmcp-broker/src/worker_pool.rs:57-70 | A new call takes an id above all ids so far and has yet to send its request; nobody else is touched |
| `Pump.CallerMoves` | crates/rmcp-broker/src/worker_pool.rs:60-78 | Over every run and every next event, what a caller has in hand afterwards: it waits once its request is in the channel, and then gives up, is answered by the frame with its id, or fails when the worker dies with its request or when the pump returns |
| `Pump.PhaseMoves` | crates/rmcp-broker/src/worker_pool.rs:652-699 | Over every run the pump leaves its loop exactly when the worker is found dead (end of output, bad frame, failed write) or the channel is closed and empty, and then returns for good |
| `Pump.DeathEmptiesMap` | crates/rmcp-broker/src/worker_pool.rs:682-693 | Once the worker is found dead nobody's request is held any more |
| `Pump.DeathAnswersAll` | crates/rmcp-broker/src/worker_pool.rs:682-699 | Whatever has happened before, the death of the worker and the pump's return leave nobody waiting |
| `Pump.ReceiveHolds` | crates/rmcp-broker/src/worker_pool.rs:655-663 | The pump takes the request at the head of the channel and holds it, with all it held before |
| `Pump.FirstInFirstOut` | crates/rmcp-broker/src/worker_pool.rs:655-663 | In every run the channel holds exactly what was sent and not taken, in the order of sending, until the pump returns |
| `WorkerStates.MockBackend.Do` | crates/rmcp-ida/src/mock.rs:356-426 | Each mutator fails and changes nothing, or makes its change and bumps the revision by one |
| `WorkerStates.MockBackend.PatchBytes` | crates/rmcp-ida/src/mock.rs:356-367 | Writes the bytes, or fails on text that is not hexadecimal |
| `WorkerStates.MockBackend.SetComment` | crates/rmcp-ida/src/mock.rs:378-387 | Writes one comment slot |
| `WorkerStates.MockBackend.RenameFunction` | crates/rmcp-ida/src/mock.rs:389-401 | Renames an existing function or fails |
| `WorkerStates.MockBackend.SetTypeAt` | crates/rmcp-ida/src/mock.rs:418-426 | Bumps the revision only |
| `WorkerStates.MockBackend.FuncCreate` | crates/rmcp-ida/src/mock.rs:512-523 | Names a function that had no name, keeps one that had |
| `WorkerStates.MockBackend.FuncDelete` | crates/rmcp-ida/src/mock.rs:525-536 | Removes an existing function or fails |
| `WorkerStates.MockBackend.FuncResize` | crates/rmcp-ida/src/mock.rs:538-556 | Fails without bounds, else bumps the revision |
| `WorkerStates.MockBackend.RenameLocal` | crates/rmcp-ida/src/mock.rs:623-643 | Fails outside every function, else bumps the revision |
| `WorkerStates.MockBackend.ApplyPrototype` | crates/rmcp-ida/src/mock.rs:855-869 | Fails without a function or with a blank declaration, else bumps the revision |
| `WorkerStates.MockBackend.StructCreate` | crates/rmcp-ida/src/mock.rs:928-939 | Fails on a blank name or no fields, else bumps the revision |
| `WorkerStates.MockBackend.TakeSnapshot` | crates/rmcp-ida/src/mock.rs:708-721 | Pushes the current revision and content |
| `WorkerStates.MockBackend.RestoreSnapshot` | crates/rmcp-ida/src/mock.rs:723-743 | Pops a snapshot and sets the revision one above its own |
| `WorkerStates.MockBackend.BuildIndex` | crates/rmcp-ida/src/mock.rs:763-800 | The loops build the index of the current names and revision |
| `WorkerStates.WorkerState.CheckRevision` | crates/rmcp-worker/src/dispatch.rs:96-111 | Refuses a stale or malformed guard |
| `WorkerStates.WorkerState.DoMutate` | crates/rmcp-worker/src/dispatch.rs:297-430 | Guard, effect and audit entry of one mutation |
| `WorkerStates.WorkerState.DoPlan` | crates/rmcp-worker/src/plan.rs:198-248 | The loop applies operations until one fails, auditing each |
| `WorkerStates.WorkerState.DoQuery` | crates/rmcp-worker/src/dispatch.rs:583-606 | Rebuilds the index exactly when there is none of the current revision |
| `WorkerStates.WorkerState.Dispatch` | crates/rmcp-worker/src/dispatch.rs:113-606 | Every modelled request does what the function on values says |
| `Revision.PlanLeavesPrefix` | crates/rmcp-worker/src/plan.rs:198-248 | A plan leaves exactly the effects, revisions and audit entries of its first operations, up to the first that fails |
| `Revision.StepFollows` | crates/rmcp-worker/src/dispatch.rs:297-606 | Every request but a rollback leaves exactly the effects of the operations it applied |
| `Revision.RunIsItsLog` | crates/rmcp-worker/src/plan.rs:267-282 | Over any run without rollback the content is the replay of the applied operations, the revision counts them and the audit trail lists the audited ones in order |
| `Revision.AuditCountsRevisionsIff` | crates/rmcp-worker/src/plan.rs:267-282 | In any run without rollback or new backend the audit trail gains one entry for each revision if and only if no structure was created |
| `Revision.StructIsNotAudited` | crates/rmcp-worker/src/dispatch.rs:890-907 | A run that leaves a revision without an audit entry |
| `Revision.RevisionDeterminesContent` | crates/rmcp-ida/src/mock.rs:88-91 | A revision number determines the content and moves exactly when something was applied |
| `Revision.GuardIsExact` | crates/rmcp-worker/src/dispatch.rs:96-111 | A guarded mutation or plan is refused if and only if something was applied since its revision was read; refused it changes nothing, accepted it meets the content that was read |
| `Revision.RefusedChangesNothing` | crates/rmcp-worker/src/dispatch.rs:297-430 | Whatever stops a mutation or plan before its first operation leaves the worker as it was |
| `Revision.MalformedGuard` | crates/rmcp-worker/src/dispatch.rs:550-552 | A malformed guard is refused by a mutation and ignored by a plan |
| `Revision.QueryAnswersNow` | crates/rmcp-worker/src/dispatch.rs:583-606 | In every run without rollback a query answers from the index a rebuild would make now |
| `WorkerLaws.LastWriteWins` | crates/rmcp-ida/src/mock.rs:356-426 | Replaying operations leaves at each address the name last given to it, at each comment slot and patched address what was last written there, and everything else as it was |
| `WorkerLaws.RunLastWriteWins` | crates/rmcp-worker/src/dispatch.rs:297-606 | The same over any run without rollback, for the operations its requests applied |
| `WorkerLaws.AppliedIff` | crates/rmcp-worker/src/dispatch.rs:297-430 | A mutation is applied if and only if the database is open, the guard is absent or current and nothing it needs is missing; then the revision reported is the new one, and otherwise nothing changes |
| `WorkerLaws.PlanReports` | crates/rmcp-worker/src/plan.rs:198-248 | A plan reports a conflict exactly for a stale guard, all operations and the revision they made, or how many were applied before the one that was refused |
| `WorkerLaws.RunTrailIsExact` | crates/rmcp-worker/src/plan.rs:213-232 | Over any run without rollback the trail grows by one numbered entry for each operation applied but the creations of structures, in order, with the revision it made |
| `WorkerLaws.OpenAndClose` | crates/rmcp-worker/src/dispatch.rs:179-199 | Reading the revision, opening and closing do that and nothing else |
| `WorkerLaws.SnapshotRoundTrip` | crates/rmcp-ida/src/mock.rs:708-743 | After any run in which a snapshot stays on the stack and at whose end it is the last one, nested snapshots and rollbacks included, restoring gives the content it was taken of and the revision after its own |
| `WorkerLaws.IndexListsCalls` | crates/rmcp-ida/src/mock.rs:763-800 | The index holds exactly the functions named; one is a callee of another, and that one its caller, if and only if the call is listed |
| `Rollback.RestoreReusesNumbers` | crates/rmcp-ida/src/mock.rs:723-743 | A rollback gives a new number exactly when nothing was applied since its snapshot; one that changes the content always reuses a number |
| `Rollback.AlwaysAnswersNowIff` | crates/rmcp-worker/src/dispatch.rs:583-606 | For any worker: every query after every further run without rollback answers from the current state if and only if the index is of an earlier revision, or of the current one and content, or absent |
| `Rollback.QueriesAfterRestoreIff` | crates/rmcp-ida/src/mock.rs:723-743 | After a rollback every later query is right if and only if there was no index, or it was of a revision up to the snapshot's, or of the next one with the snapshot's names |
| `Rollback.QueriesAfterSelectIff` | crates/rmcp-worker/src/dispatch.rs:119-128 | After a new backend is selected, which keeps the index, every later query is right if and only if there was none or it equals that of the new database |
| `Rollback.NumberMeansIff` | crates/rmcp-ida/src/mock.rs:88-91 | For any worker: a revision number stands for given content whenever it is current later if and only if it is past, or current with that content |
| `Rollback.GuardsAfterRestoreIff` | crates/rmcp-ida/src/mock.rs:723-743 | A guard read before a rollback is never accepted on other content if and only if its number is up to the snapshot's, or the next one with the snapshot's content |
| `Rollback.RestoreCanMislead` | crates/rmcp-ida/src/mock.rs:728-734 | A run in which the query answers with a name that is gone and a guard read before the rollback is accepted after it |
| `Rollback.NewDbCanBeMisled` | crates/rmcp-ida/src/mock.rs:40-67 | The database every worker starts with meets the conditions of that run |
| `Rollback.GuardsAfterSelectIff` | crates/rmcp-worker/src/dispatch.rs:119-128 | After a new backend is selected a guard read before is never accepted on other content if and only if it is for revision 0 and the content a database starts with |
| `Rollback.AuditCompleteIff` | crates/rmcp-worker/src/plan.rs:267-282 | Over every run, rollbacks and new backends included, the audit trail gains one entry for each state change (operation applied or snapshot restored) if and only if no structure was created and no snapshot was restored |
| `Rollback.RestoreIsNotAudited` | crates/rmcp-worker/src/dispatch.rs:572-572 | A run in which a rollback moves the revision and leaves the trail empty |
| `Rollback.SelectKeepsTrail` | crates/rmcp-worker/src/dispatch.rs:119-128 | Selecting a backend sets the revision back to 0 and keeps the trail |

## Left out

- IDA itself, its foreign-function layers, the Job Object calls and the ABI probes: code that cannot be seen.
- The tool surface, prompts, resources, command line, discovery and configuration: argument plumbing and file system access.
- JSON and newline framing, hexadecimal and address parsing: requests, tokens and graphs are datatypes; a patch carries decoded bytes or none.
- WebAssembly module and operator decoding: bodies are operator sequences with their offsets.
- `workflow_cache`, transforms, signatures, rules, types, value analysis and `trace_dataflow`: not part of this model.
- Preflight classification (`mode`, `complexity_from_function_graph`), text fields such as `partition_reason` and diagnostics of the partition, `block_ends` and the `indirect` flags: easy or unused by the pipeline.
- Function pairing in `diff_binary_json`: its second stage never removes a matched candidate, so it is not one-to-one.
- Background jobs: a completing task overwrites a cancellation, and what remains is a counter bound.
- `Predicate::matches` and `query` of the analysis index beyond reachability: structural recursion over strings.
- Worker recovery and restart policy in the pool: process management.
- Real time: deadlines and `time_left` are arbitrary oracles; timeouts are events that may occur at any point.
- Tarjan.TarjanSccs: the marker `usize::MAX` is -1, and numbers are unbounded; no graph that fits in memory reaches the difference.
- Dataflow.RunDataflow: cap warnings, which the program appends to `completed`, are a separate list; the ignored `fact_of` closure has no counterpart; the walk-length claim is for runs with facts for every region, since a region without facts releases nobody.
- Regions.MakePartition: requires a positive chunk size, because slice chunking panics on zero.
- DeepWalk.ChainEqualsOneRun: callee lists are compared by `DeepBounds.CalleesKeptIff` instead; the `skipped` list, which is computed from them, is not modelled; dossiers in a token are a map and prototypes arrive rendered.
- WasmSound.AnalysisSound: loads, globals, bitwise and comparison operators have arbitrary meanings; calls, `br_table`, `return` and opaque operators end the straight-line part, where the pass does not follow the stack.
- WasmSsa.Interpreter.Turn: the eight side tables are one list of tagged entries, of which each table is the part with its tag; a value's constant, texts and uses are kept in parallel lists.
- WasmSsa.AnalyzeValues: the 128-bit overflow of a product of two ill-typed 64-bit constants is not modelled.
- BlockDiff.MapBlocks: similarity is exact; a threshold that is not a number is not modelled; instruction counts are dropped from the rows.
- DiffReport.SelfDiff: states the collision-free case; the exact condition is `DiffReport.SelfDiffIff`.
- Isolation.LedgerBalances: the sequence of frames with the child is one position in which a call can time out, finish or abort; a panic between spawning the child and making its guard, where the code calls nothing that panics, is not modelled; counters are read at one instant, not under relaxed ordering; the outcome handed to the caller, with its stage and detail text, is not kept.
- WasmCfg.AnalyzeBody: the operator count of the result is not kept.
- Pump.NobodyWaitsAfterExit: the crash report channel and the session's health field are not modelled; request ids do not wrap at 2^64; the bounded channel delays but never drops a request.
- Isolation.StepKeepsLedger: calls are records in a map rather than objects, because many of them change in one interleaving; update in place is not captured.
- Pump.StepInv: callers, channel and map are values for the same reason.
- WorkerStates.WorkerState.Dispatch: only the requests that touch revision, content, snapshots and index; deobfuscation edits (`deob.apply`) are left out, parameter errors are not distinguished, the decompiler is always available, and blank text means ASCII white space.
- Revision.QueryAnswersNow: the answer is the index consulted; evaluating the query on it is left out.
