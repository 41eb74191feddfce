# The flow engine and its streaming front-end: a Dafny model

The Go repository compiles a declarative flow (nodes, port-to-port edges, path mappings) into an engine that runs
it layer by layer, suspends on a human interrupt, snapshots itself through a codec and continues later, and puts
a typed graph front-end with data streaming on top. This project models that system and proves what its parts
promise, alone and together.

| part | files | what is modelled |
|---|---|---|
| values, paths, wires | `Prelude`, `FlowIr`, `Paths`, `Wiring`, `Firing` | the flow shape, value trees, the edge- and mapping-firing stage as the code steps through it and as a list of deliveries |
| compilation | `Topology`, `Cycles`, `Layering`, `Validation`, `Guard` | validation, the three-colour cycle search, Kahn layering, the structural descriptor, `Compile` |
| layered run | `State`, `LayeredEngine`, `Execution`, `Schedule`, `Events` | the run as a function, the same run as methods over mutable fields, every interleaving of sibling tasks, the event stream |
| meaning of a run | `Dataflow`, `Equations`, `NodeLaws`, `Lifecycle`, `Conditions` | dataflow equations, uniqueness of their solution, what nodes and State say in it, why each edge fired or died, when a node runs |
| suspend and resume | `Resume`, `Held`, `LateFiring`, `Legs`, `Resumption`, `LegChain`, `LegEdges`, `Visits`, `TwoWires`, `SharedPort`, `Overlap`, `OverlapRun`, `CodecRegistry` | checkpoints, one leg, the chain of legs, the life of an edge and exactly-once visits over a chain, which overlaps of siblings are harmless, the codec registry |
| other engines | `Listing`, `Relisting`, `ListingRun` | when the order nodes are listed in matters, what a checkpoint gives on another engine that admits it, a run handed from engine to engine |
| streaming | `StreamGraph`, `Streaming`, `StreamPlan`, `LinearPipeline`, `StreamWalk`, `StreamTail`, `StreamWiring`, `StreamLimits` | the typed graph, its lowering, the two stream planners, the walk without the engine, the returned readers, for which wirings walk and engine agree |
| stream combinators | `Transitions`, `RoundRobin`, `RoundRobinReader`, `Merge`, `MergeReader`, `Demux`, `Tee` | goroutines and one-place channels as transition systems, readers as methods, tag and drain |
| v0.1 | `Legacy`, `LegacyAgrees` | the older string engine and the `RunString` bridge |
| server | `EngineCache`, `FlowServer` | the LRU engine cache and the flow store in front of it |

Nodes, conditions, reducers and folders are arbitrary deterministic functions. State is part of the run: a node
sees the State committed at the last barrier. Loops of the source are methods, and each is proved equal to a
specification function or against a direct statement; the theorems are about those functions.

## Main results

* However often a run is suspended and resumed, it ends as the uninterrupted run in which each interrupt node
  returned the human's answer: same outputs, activation, ports, State and visits (`ResumedEqualsUninterrupted`).
  It is asked that codecs round-trip, that a run seeded with a State other than nil never commits nil (nothing is
  asked of State without a seed or with a nil one), and that no sibling writes after an interrupt node at a place
  that node writes. That last condition is exact in every compiled layer whose mapped ports feed one mapping each
  (`CompiledExactly`), and wire by wire in any (`LastWordByPart`); without it a compiled flow ends differently
  (`OverlapDiverges`).
* Over any chain of legs, with any answers, State options and codec, every node is run or skipped exactly once
  (`LegsVisitOnce`) and the pending edges are exactly those sourced after the suspend layer (`LegsKeepCursor`);
  with a codec that round-trips every edge ends in the state its source's activation and ports explain
  (`LegsExplainEdges`).
* The guard admits a checkpoint exactly on engines of the same flow or the same structure (`AdmitsExactly`), and its
  cursor means the same there (`AdmittedCursorIsMeaningful`). If that engine stores checkpoints, runs the same nodes
  and conditions and declares the same outputs, and no layer holds two nodes that write comparable places in one pass,
  it resumes there as on the engine that wrote it (`AdmittedResumeAgrees`); and a run handed from engine to engine,
  each resuming what the one before it wrote, either is refused by a guard or ends as on the first engine alone
  (`RelayAgrees`).
* A finished run is the unique solution of the dataflow equations, in which the writes to one port are ordered by
  layer and listing (`FinishedRunSolves`, `SolutionIsTheRun`). How the goroutines of a layer interleave does not
  matter (`RunIgnoresSchedule`). The listing does not matter where no two nodes of a layer write comparable places in
  one pass (`RunPermutes`), a condition that is exact for a layer's firing in the same two ways (`CompiledListing`,
  `OrderlessByPart`); without it two compiled engines with equal descriptors report different outputs
  (`ListingDiverges`).
* Read off a finished run: a node is active exactly when no edge and no mapping targets it, an input names it, an edge
  into it fired or a mapping into it found its value (`ActiveExactlyWhen`); each active node's function was run on what
  was delivered to it and the State of the barrier before it, and what it returned is on its ports and in the next State
  (`NodesReturn`, `StateFolds`); a conditional edge fired exactly when the evaluator says so (`EvaluatorDecides`).
* The cycle search and Kahn layering agree: a flow that passes validation is always fully layered, a layer index is
  a longest-path length, and the layers with their order are a function of the flow (`Validate`, `LayerValidated`,
  `LayerIsLongestPath`, `ListedIsUnique`).
* Where each chat model's stream folds to what its `Run` returns, draining `Stream` gives `Invoke`'s value for chains
  (`LinearStreamIsInvoke`) and for branch graphs whose walks end at the exit (`StreamIsInvoke`, `WalkedIsActivated`),
  on the inputs whose walk selects past no harmful route named `in`. For which wirings this holds whatever the nodes
  do and on every input is decided exactly: those in which every walk from the entry ends at the exit and a route
  named `in` leads where the branch's other routes lead anyway (`WiringDecides`).
* Round-robin merge has one output order whatever the goroutines do; `Merge` conserves every frame; `Copy` keeps
  its consumers within two frames of each other; every run of each of them ends (`ScheduleFree`,
  `MergeConserves`, `TeeIsFair`, `TeeDelivers`), and closing releases every source without anyone draining a channel
  (`CloseFrees`).
* v2's `RunString` equals the v0.1 run on the flows both can run (`RunStringIsRun`). Over any sequence of requests the
  engine caches are invisible but for lookups of an id whose last PUT failed after it wrote (`Server.ServeAll`).

## Where the code and its documentation part ways

* `v2/flow/engine.go:656-658` says an interrupt node cannot stage State on its suspending leg. It can: `SetState`
  before `Interrupt` stages a write that the barrier reduces. The model follows the code.
* A suspended layer sends its siblings' values first and the human's answer when it is resumed; run straight through
  it sends them in listing order, edges before mappings. So a sibling that would have written a port last is
  overwritten by the human instead (`OverlapDiverges`). Where a mapping and another wire read one port, a later wire
  of the interrupt node can cover such an overlap (`CoveredIsInterchangeable`), which is why the condition is exact
  wire by wire only.
* An interrupt node's out-edge whose port the human omits stays `EdgeDeferred` for good, where an uninterrupted
  run says `EdgeDeadNoPort`; the resume theorem compares edge states up to exactly that. If the omitted port is also
  an input port that holds a value, the edge fires with that value.
* A nil committed State is not written to the checkpoint, so a resume seeded with another value continues from
  that value; a State of another registered type than a seed that is not nil is refused (`StateSurvivesExactlyWhen`
  says exactly when State survives).
* The order nodes are listed in is outside the structural hash but decides which of two writes to one place stays
  (`ListingDiverges`), so an admitted checkpoint can resume differently.
* Validate recognises a repeated edge by a text that joins ids and ports with dots, so a dot in a node id can make
  two different edges look the same (`FalseRepetition`; `KeysTellApart` says among which names this cannot happen).
* The structural hash ignores the declared inputs and outputs, so a checkpoint is admitted by an engine that
  reports different outputs (`DescriptorForgets` says exactly what admission by structure fixes).
* `buildStreamPlan` accepts a graph with a second sink. `Stream` then yields the value found there and `Invoke`
  reports a missing output (`SecondSinkDiverges` on a concrete graph; `StreamIsInvokeExactly` input by input).
* A branch route named `in` always fires in the engine, because inputs and outputs share one port map, while the
  stream walk follows the selected route only. The two differ when the walk can miss the route's target
  (`InRouteDiverges` on a concrete graph) and agree when it cannot, or when the branch selects that route.
* `AddEdge` accepts a branch as its source. The edge leaves the port `out`, which a branch emits on only if `out` is
  one of its routes; otherwise it never fires, yet the planner follows it when it looks for unreachable nodes.
* The comment on `engineFor` says that PUT invalidates immediately. The SQLite store's `PutFlow` writes the row and
  then reads it back; when the read fails, the handler reports an error without evicting, and lookups keep getting
  the replaced engine (`Server.FailedPutShows`; `Server.PutFlow` says exactly when the caches stay unnoticed).

## Model

| member | source | states |
|---|---|---|
| Paths.SelectPath | v2/flow/mapping.go:76-125 | the loop computes path selection, first failing segment included |
| Paths.OneSegment | v2/flow/mapping.go:91-125 | one segment selects a map's entry, a string map's text or an exported field of a struct behind any number of pointers; a missing key, a field that is not exported, a nil pointer, an empty segment and anything else are told apart |
| Paths.SelectConcat | v2/flow/mapping.go:76-125 | a longer path goes on from what its beginning selects, and fails where that fails |
| Paths.PutsExactlyWhen | v2/flow/mapping.go:29-74 | a write succeeds exactly when no segment is empty and whatever the path meets on its way, the port itself first, is a map or unset |
| Paths.PutThenSelect | v2/flow/mapping.go:29-89 | selecting at a path just written gives the written value |
| Paths.PutFrame | v2/flow/mapping.go:29-89 | a write leaves the selection at every incomparable path as it was, present or absent |
| Paths.PutsCommute | v2/flow/mapping.go:29-74 | two writes at incomparable paths give the same value, or both orders fail |
| Paths.IncomparableMeaning | v2/flow/mapping.go:29-74 | incomparable means that neither path is a prefix of the other |
| Topology.Successors | v2/flow/validate.go:150-158 | the adjacency map lists, for every node, exactly the targets of its edges and node-sourced mappings |
| Topology.OrderRulesOutCycles | v2/flow/validate.go:162-196 | an order in which successors come first rules out every closed walk |
| Topology.NoEntryMeansCycle | v2/flow/engine.go:148-173 | a finite set in which every node has a predecessor in the set contains a cycle |
| Cycles.FindCycle | v2/flow/validate.go:140-196 | nonempty only if the edge and mapping graph has a cycle, and empty only if it has none when every source is declared; on nonempty node names the result is a genuine closed walk |
| Cycles.CycleSearch.Visit | v2/flow/validate.go:161-188 | true only with a cycle found; false leaves the node black, everything black closed under successors, the gray path restored and fewer whites |
| Cycles.CycleSearch.CloseCycle | v2/flow/validate.go:172-184 | the parent chain read back from a gray successor is a closed walk of the graph |
| Validation.Validate | v2/flow/validate.go:35-135 | accepts exactly the flows that are well named, reference only declared nodes, repeat no edge text and are acyclic; of any other it reports exactly the issues there are, and a cycle only if there is one |
| Validation.CheckNodes | v2/flow/validate.go:41-55 | no issue exactly when every id and type is nonempty and no id repeats; each empty id, empty type and repeated id is reported by its position |
| Validation.CheckEdges | v2/flow/validate.go:57-73 | no issue exactly when every edge joins two different declared nodes and repeats no earlier edge; what is reported of an edge is exactly which of these it breaks |
| Validation.CheckRefs | v2/flow/validate.go:75-84 | no issue exactly when every declared input and output names a declared node; each that does not is reported |
| Validation.CheckMapping | v2/flow/validate.go:86-125 | no issue exactly when the mapping has one kind of source, a declared target, nonempty ports and path segments, and no self-loop; what is reported is exactly which of these it breaks |
| Validation.KeysTellApart | v2/flow/validate.go:68 | among node ids without a dot and source ports without a space, two edges read the same exactly when they have the same ends |
| Validation.FalseRepetition | v2/flow/validate.go:68-72 | with a dot in a node id two different edges can read the same, so the second is reported as a repetition |
| Validation.LayerValidated | v2/flow/engine.go:126-173 | a validated flow is always fully layered, so the residual-cycle error is unreachable |
| Layering.InDegrees | v2/flow/engine.go:126-144 | in-degrees count edges and node-sourced mappings together |
| Layering.Round | v2/flow/engine.go:153-168 | one round keeps the degree counts right and hands on exactly the nodes it freed, each once, in the order in which the last arc into each was followed |
| Layering.Layer | v2/flow/engine.go:145-173 | the layers partition the nodes, every arc goes strictly forward, each later node has a predecessor in the layer just before, and inside a layer nodes stand in the order they were freed; an error only on a cyclic graph |
| Layering.LayerIsLongestPath | v2/flow/engine.go:126-173 | a node's layer index is the length of a longest path into it |
| Layering.LayersIgnoreListingOrder | v2/flow/engine.go:126-173 | listing the same nodes and arcs in another order gives the same layers as sets |
| Layering.ListedIsUnique | v2/flow/engine.go:145-173 | a flow has one layering in the order the loop lists it, so two compilations of it have equal layers |
| Layering.LayeringMeansAcyclic | v2/flow/engine.go:170-173 | a graph with a layering has no cycle, so the layering and the cycle search agree |
| Guard.Compile | v2/flow/engine.go:90-232 | success means a compiled engine for this flow with these options, whose condition on every conditional edge is the evaluator's for that edge's text; each error names its cause, an ambiguous-interrupt error a layer with two interrupt-capable nodes, and the residual-cycle error never happens |
| Guard.CompiledIsUnambiguous | v2/flow/engine.go:199-211 | a flow that compiles with a store has no layering in which a layer holds two interrupt-capable nodes |
| Guard.StructuralDescriptor | v2/flow/structhash.go:35-136 | the loops build the descriptor with nodes by id, and every edge and mapping with its position; it is missing exactly when a declared node was not resolved |
| Guard.DescriptorForgets | v2/flow/structhash.go:77-136 | two flows over the same ids have equal descriptors exactly when wires and their positions agree, nodes of one id have one type, and their port lists hold the same names; listing order, Config, inputs and outputs do not matter |
| Guard.AdmitsExactly | v2/flow/resume.go:69-81 | with injective hashes a checkpoint any leg wrote is admitted exactly by engines of the same flow and by those with the same nodes, types, ports and wires at the same positions, whatever their Config, node order, inputs and outputs |
| Guard.AdmittedCursorIsMeaningful | v2/flow/resume.go:69-81 | a checkpoint any leg wrote, admitted elsewhere by either hash, meets an engine with the same layers as sets and the same wire positions, and its pending edges are exactly those sourced after the suspend layer |
| Listing.FiringPermutes | v2/flow/engine.go:389-479 | where no two nodes of a layer write comparable places in one pass, the order they are listed in does not change a firing stage, whichever node is held back |
| Listing.OrderlessExactly | v2/flow/engine.go:389-479 | where no wire can rewrite what another wire of its port wrote, the listing never matters, for all states, conditions and held nodes, exactly when no two nodes of the layer write comparable places in one pass |
| Listing.OrderlessByPart | v2/flow/engine.go:389-479 | whatever wires the ports feed, that condition holds exactly when the listing matters for no choice among the wires |
| Listing.CompiledListing | v2/flow/engine.go:389-479 | in a compiled engine the condition is exact for every layer whose mapped ports feed one mapping each, however its edges fan out |
| ListingRun.ListingDiverges | v2/flow/structhash.go:77-136 | two compiled engines with the same nodes, wires and descriptor, whose runs of one input report different outputs because two siblings write one port and are listed in different orders |
| Relisting.RunPermutes | v2/flow/engine.go:481-646 | where no layer holds two nodes that write comparable places in one pass, engines that list nodes differently run alike, suspension and failure included |
| Relisting.FreshRunPermutes | v2/flow/engine.go:328-361 | with the same declared inputs their whole runs of one input are alike |
| Relisting.ChainAgrees | v2/flow/resume.go:54-236 | from matching checkpoints admitted where they are resumed, any number of resumes on two such engines ends alike |
| Relisting.AdmittedResumeAgrees | v2/flow/resume.go:54-236 | a checkpoint resumed any number of times on an engine that admits it, stores checkpoints, runs the same nodes and conditions and declares the same outputs ends as on the engine that wrote it, if that one has no layer with two nodes that write comparable places in one pass: same failure, same checkpoint but for the hashes, or same outputs, ports, activation, edge states and State |
| Relisting.RelayAgrees | v2/flow/resume.go:54-236 | under the same conditions a run handed from engine to engine, each resuming the checkpoint the one before it wrote, fails as a changed flow exactly where some guard refuses, and otherwise ends as on the first engine alone |
| Wiring.ApplyByPort | v2/flow/engine.go:389-479 | deliveries act on each port separately, failure included |
| Wiring.OrderPerPort | v2/flow/engine.go:389-479 | the result of deliveries depends only on the order in which each port gets its own |
| Firing.FireEdgesDelivers | v2/flow/engine.go:389-449 | firing a layer's edges is making a list of deliveries and settling each of its edges |
| Firing.FireMappingsDelivers | v2/flow/engine.go:451-479 | firing a layer's mappings is making their list of path writes |
| Firing.FireLayerDelivers | v2/flow/engine.go:389-479 | the firing stage fails exactly when a delivery cannot be made, and otherwise activates the recipients, writes the deliveries in order and settles every edge |
| State.ConflictExactlyWhenTwoWrote | v2/flow/state.go:79-114 | without a reducer a barrier fails exactly when two nodes of the layer staged a write |
| State.ReducedCases | v2/flow/state.go:79-114 | no write leaves State alone, a lone write replaces it, more fail without a reducer, and a reducer gets the writes in ascending order of ids, whichever way the ids were listed |
| Prelude.LessMeans | v2/flow/state.go:92-95 | the order of ids is that of sort.Strings: a proper prefix first, else the smaller character where two ids first differ |
| State.StateCell.Stage | v2/flow/state.go:56-62 | the last write of a node replaces its earlier one and leaves committed State alone |
| State.StateCell.Reduce | v2/flow/state.go:79-114 | committed State becomes the fold of the staged writes: the reducer gets the old State and the writes in ascending order of the nodes' ids; staged writes are dropped on success and nothing changes on failure |
| LayeredEngine.LayersAreAhead | v2/flow/engine.go:145-173 | a compiled layer never feeds itself |
| LayeredEngine.EdgeGoesForward | v2/flow/engine.go:126-173 | an edge's target sits in a strictly later layer than its source |
| Execution.Start | v2/flow/engine.go:331-361 | a fresh run starts as specified: active are exactly the nodes that no edge and no mapping targets or that an input names, every edge is pending, and a missing input is reported |
| Execution.BuildStateCell | v2/flow/state.go:214-226 | no cell exactly without an initial value and a reducer; an initial value is committed with or without a reducer, a reducer alone starts from nil |
| Execution.Execution.FireLayerEdges | v2/flow/engine.go:389-449 | the loops over layer and edges leave activation, ports and edge states as the firing function says |
| Execution.Execution.FireLayerMappings | v2/flow/engine.go:451-479 | the loops over layer and mappings write exactly what the firing function says |
| Execution.Execution.RunNodes | v2/flow/engine.go:491-553 | running the active nodes one after another gives the ports, staged writes and pending interrupts of the layer |
| Execution.Execution.RunLayer | v2/flow/engine.go:481-620 | fanout, barrier, suspend splice and firing together take the run to the specified state or outcome |
| Execution.Execution.RunLayers | v2/flow/engine.go:481-620 | the layer loop ends as the run function does |
| Execution.RunCore | v2/flow/engine.go:284-646 | the whole core from a given start layer ends as the run function does |
| Execution.RunToEnd | v2/flow/engine.go:235-250 | a plain run returns the declared outputs of the finished run, or its error |
| Execution.CollectOutputs | v2/flow/engine.go:622-642 | the output loop gathers the declared outputs of active nodes |
| Execution.RunResumable | v2/flow/resume.go:14-30 | the first leg, and the store holds its checkpoint exactly when it suspended |
| Execution.ResumeRun | v2/flow/resume.go:36-236 | a resume is determined by the stored checkpoint; the store changes exactly on a further suspension; a checkpoint of another flow hash without an equal, recorded structural hash is refused, and whoever is not refused has decodable ports, a known interrupt node and answers on its declared ports only |
| Resume.FirstLegHolds | v2/flow/engine.go:570-607 | the caller of a first leg gets the declared outputs, the run's error, or the checkpoint of where and for what it suspended, holding all that the run holds and was given |
| Resume.ResumeRefuses | v2/flow/resume.go:54-150 | a resume is refused without a store, on a changed flow, on a State seed of another or no registered type, or on a value that does not decode, in that order; one that is not refused meets none of these |
| Resume.ResumeContinues | v2/flow/resume.go:90-236 | a resume that is not refused goes on after the suspend layer from the checkpoint's ports with the answer on the interrupt node, and from the durable State if there is one, else the seed, and no State for a caller without State options |
| Execution.FireDeferred | v2/flow/resume.go:165-199 | the loop fires the deferred edges as specified |
| Execution.ReplayMappings | v2/flow/resume.go:200-224 | the loop replays the interrupt node's mappings as specified |
| Execution.MemoryCheckpointStore.SaveCheckpoint | v2/flow/checkpoint.go:177-182 | the checkpoint is stored under its run id and nothing else changes |
| Execution.MemoryCheckpointStore.LoadCheckpoint | v2/flow/checkpoint.go:184-192 | loading returns what was last saved under the token, or nothing |
| Schedule.ScheduleIndependent | v2/flow/engine.go:491-567 | every interleaving of sibling tasks ends a layer in the same ports and the same staged State |
| Schedule.RunIgnoresSchedule | v2/flow/engine.go:481-646 | whatever interleaving each layer runs under, the run ends in the same ports, activation, edge states, State, suspension or failure |
| Events.TraceShape | v2/flow/engine.go:488-553 | from any layer on, a node is skipped once, or starts once and then finishes once, or is not mentioned, and one terminal event comes last |
| Events.TraceCausal | v2/flow/engine.go:481-553 | a node starts only after each predecessor has finished or been skipped |
| Events.TracesAreOrdered | v2/flow/engine.go:289-299 | every interleaving's trace, that of a run that cannot start included, begins with FlowStarted, ends with its only terminal event and keeps both rules above |
| Dataflow.StartDelivers | v2/flow/engine.go:335-361 | the start of a run is the delivery of its inputs and input mappings |
| Dataflow.StartActive | v2/flow/engine.go:335-361 | a run starts with exactly the nodes that no edge and no mapping targets and those an input or input mapping names |
| Dataflow.StartNeeds | v2/flow/engine.go:347-361 | a run starts only if every declared input is given and every input mapping finds its value |
| Dataflow.StartGives | v2/flow/engine.go:347-354 | a port starts with the value of the last declared input that names it, or unset, unless an input mapping targets it |
| Dataflow.EarlierSendsDecide | v2/flow/engine.go:389-479 | what a node holds when its layer runs is decided by the layers before it |
| Equations.FinishedRunSolves | v2/flow/engine.go:335-646 | a finished run's activation, ports and State solve the dataflow equations, and no edge is pending |
| Equations.SolutionIsTheRun | v2/flow/engine.go:335-646 | any solution of the equations is the result of the run, which therefore finishes |
| NodeLaws.NodesReturn | v2/flow/engine.go:491-553 | in a solution each active node's function, given the ports delivered to the node and the State committed before its layer, returned outputs, and the node's final ports are the delivered ones overwritten by them |
| NodeLaws.SkippedHold | v2/flow/engine.go:488-498 | a skipped node holds no port |
| NodeLaws.StateFolds | v2/flow/engine.go:555-567 | State after a layer is State before it if none of its nodes wrote, else the reducer's value for the last write of each that did, in ascending order of ids, or the only write without a reducer |
| NodeLaws.StepByOutcome | v2/flow/engine.go:491-607 | a layer fails on a node exactly when an active one returns an error, or an interrupt that its type may not raise or that no caller waits for; it goes on only if none interrupts, and suspends only on the one that does, with that node's own request |
| NodeLaws.SuspensionAsks | v2/flow/engine.go:512-607 | a run that suspends was asked to by an active node of the layer it stopped in, whose type may interrupt and which still holds the ports on which it asked for what the caller is given |
| NodeLaws.RunMarks | v2/flow/engine.go:493-503 | a run reports as run exactly the nodes it leaves active among those it passed, and the others as skipped |
| Lifecycle.LayerSettlesItsEdges | v2/flow/engine.go:389-449 | running a layer takes exactly its own edges out of pending, and the pending guard never skips one |
| Lifecycle.ResumeTouchesDeferredOnly | v2/flow/resume.go:165-199 | a resume changes deferred edges only, and only to fired or dead-false |
| Lifecycle.RunExplains | v2/flow/checkpoint.go:13-25 | one leg, suspended or not, leaves every edge of the layers it passed in the state its source's activation and ports give, deferred where its source waits for a human |
| Lifecycle.FinalEdgesExplained | v2/flow/checkpoint.go:13-25 | at the end of an uninterrupted run the state of every edge names exactly why it fired or died |
| Conditions.EdgesEndAs | v2/flow/engine.go:407-446 | at the end of a run an edge is dead for a skipped source, dead for a port without a value, fired without a condition or when its condition fires on the source's text, and dead when it blocks; each exactly then |
| Conditions.EvaluatorDecides | v2/flow/engine.go:426-446 | in an engine with the evaluator's conditions a conditional edge from an active source that holds a value ends fired exactly when the evaluator fires on it and dead exactly when it blocks; in a finished run the value is a text and the evaluator did not break |
| Conditions.EdgesStopExactly | v2/flow/engine.go:407-446 | the edges of a layer stop the run exactly when one of them is conditional, leaves an active node that holds its port, and the value is not a text or the condition breaks on it |
| Conditions.LayerStops | v2/flow/engine.go:407-479 | such an edge, or a mapping of an active node whose path finds nothing in the value it holds, makes the layer's firing stage fail |
| LegChain.LegsKeepCursor | v2/flow/resume.go:226-231 | over any number of legs, whatever the answers, options and codec: suspended, exactly the edges sourced after the suspend layer are pending; done, none is; an edge moves from pending to any state or from deferred to fired or dead-false only |
| LegChain.DriveIsChain | v2/flow/resume.go:36-49 | driving a run to its end is one such chain of calls |
| LegEdges.ResumeExplains | v2/flow/resume.go:156-224 | after a resume every edge of the passed layers is explained again and the node holds the human's answer |
| LegEdges.LegsExplainEdges | v2/flow/checkpoint.go:13-25 | at the end of any chain of legs no edge is pending, one is deferred exactly when its source was suspended and its port never got a value, and every other names why it fired or died |
| Lifecycle.ActiveExactlyWhen | v2/flow/engine.go:328-361 | a node runs exactly when no edge and no mapping targets it, an input or input mapping names it, an edge into it fired, or a mapping into it found its value |
| Lifecycle.OutputsAreDeclared | v2/flow/engine.go:622-642 | the result map holds exactly the declared outputs of active nodes, each under its name or else its node and port, and the last one under a key; collecting fails exactly when an active node never filled a declared port |
| Lifecycle.DistinctOutputs | v2/flow/engine.go:622-642 | an output whose key no other active output has is reported with its own port's value |
| Visiting.RunVisitsOnce | v2/flow/engine.go:481-553 | a finished run has run or skipped every node exactly once |
| Visiting.LegsVisitOnce | v2/flow/resume.go:226-231 | over any chain of legs, whatever the answers, options and codec, the nodes of the layers passed have been run or skipped exactly once and no other node has; at the end every node has |
| Visiting.InterruptErrorsUnreachable | v2/flow/engine.go:199-211 | with a store configured the dynamic multiple-interrupts and no-store errors cannot occur |
| Held.LayerSplits | v2/flow/engine.go:572-592 | when an interrupt node has the last word, what its suspended layer delivers and what it still owes write what the whole layer writes |
| LateFiring.ResumeDelivers | v2/flow/resume.go:165-224 | a resume makes exactly the deliveries the interrupt node owed |
| LateFiring.HeldThenResumed | v2/flow/resume.go:156-224 | whenever the deliveries split so, firing a layer around its interrupt node and resuming later gives the activation and ports of firing it at once, failure included |
| Legs.FiringAdvances | v2/flow/engine.go:389-449 | firing layer k makes exactly the edges sourced after it pending and leaves earlier nodes' ports alone |
| Legs.QuietLayer | v2/flow/engine.go:481-620 | a layer without an interrupt keeps a resumable run in step with the uninterrupted one |
| Legs.InterruptedLayer | v2/flow/engine.go:569-606 | suspending in a layer and resuming brings the run back in step with the uninterrupted one |
| Resumption.StateSurvivesExactlyWhen | v2/flow/resume.go:83-116 | a checkpoint restores the State it was taken with exactly when, for nil State, the seed is nil too, and for any other State, the seed is nil, the checkpoint has no tag, or the seed has the same tag |
| Resumption.ResumeFromSnapshot | v2/flow/resume.go:54-236 | resuming a fresh snapshot is continuing from the state it was taken of, unless the State guard stops it, which takes a seed that is not nil; asked: values round-trip and State is nil only if the seed is |
| Resumption.LegAgainstRun | v2/flow/resume.go:54-236 | one leg from an agreeing state ends as the uninterrupted run, or suspends where resuming agrees with it again |
| Resumption.DriveAgrees | v2/flow/resume.go:54-236 | from any agreeing pair of states the chain of legs ends as the uninterrupted run, under the conditions of the next row |
| Resumption.ResumedEqualsUninterrupted | v2/flow/resume.go:10-236 | any number of suspend and resume legs equals one uninterrupted run; a leg that fails does so for a checkpoint-only reason or because that run fails too; asked: codecs round-trip, interrupt nodes have the last word, and a seed that is not nil is never replaced by nil |
| Paths.PutsCommuteExactly | v2/flow/mapping.go:29-74 | writes at two paths commute for all values exactly when the paths are incomparable |
| Overlap.LastWordExactly | v2/flow/engine.go:569-606 | where a mapping's port feeds nothing else and the edges of a port lead to different ports, suspending and resuming a layer equals running it through, for all states, conditions and answers, exactly when no sibling writes after the interrupt node at a place that node writes |
| Overlap.CompiledExactly | v2/flow/validate.go:57-73 | validation refuses repeated edges, so in a compiled engine the condition is exact for every layer whose mapped ports feed one mapping each, however its edges fan out |
| Overlap.LastWordByPart | v2/flow/engine.go:569-606 | whatever wires the ports feed, that condition holds exactly when every choice among the wires is interchangeable |
| Overlap.CrossingDiverges | v2/flow/engine.go:586-592 | when the ports of both wires feed mappings only alone and edges only to different ports, and all conditions fire, a sibling wire that writes a comparable place after a wire of the interrupt node makes the two orders end in different ports or differ in failure, in a state and with an answer that are given |
| Overlap.CoveredIsInterchangeable | v2/flow/engine.go:451-479 | an interrupt node's own later mapping can cover an overlap, so without the restriction on wires the condition is not necessary |
| OverlapRun.OverlapDiverges | v2/flow/engine.go:586-592 | a compiled flow whose interrupt node stands before a sibling that writes the same port: the resumed run reports the human's answer, the uninterrupted run the sibling's value |
| CodecRegistry.Registry.RegisterCodec | v2/flow/codec.go:20-32 | the registration leaves the tables as specified, inverse to each other, changes nothing registered, and takes effect exactly when it conflicts with none |
| CodecRegistry.RegistryRoundTrips | v2/flow/codec.go:43-78 | after any registrations the registry satisfies the round-trip hypothesis of the resume theorem, and what it encoded still decodes to the same value after any further registrations |
| CodecRegistry.RegisteredEncodes | v2/flow/codec.go:20-59 | a value whose type was registered, first of its name and type, encodes under that name exactly when it marshals, has it as its State tag, and decodes to itself after any further registrations |
| CodecRegistry.TextsEncode | v2/flow/codec.go:80 | a string that marshals encodes under "string" and has it as its State tag, whatever has been registered |
| CodecRegistry.UnregisteredRefused | v2/flow/codec.go:43-53 | nil, and a value of a type that no registration mentions, encode to nothing and have no State tag |
| CodecRegistry.EncodesExactly | v2/flow/codec.go:43-59 | after any registrations what can be encoded is exactly the values that are not nil, marshal, and whose type some name is registered for, and the tag is such a name |
| CodecRegistry.CheckpointsExactly | v2/flow/engine.go:659-735 | a run can be checkpointed exactly when every port value, every input and the State, unless it is nil, can be encoded |
| Resume.SnapshotExactlyWhen | v2/flow/engine.go:659-735 | a checkpoint is refused exactly when a port value or an input cannot be encoded, or a State that is not nil cannot be encoded or tagged; otherwise it holds the run value by value |
| StreamGraph.AdapterRuns | v2/flow/graph/branch.go:101-127 | an adapter needs a value on in; a branch passes it on unchanged on the route its key names and fails on any other, a lambda, passthrough or chat model puts its result on out |
| Streaming.NextIsLater | v2/flow/graph/streamgraph.go:434-440 | the next node of a walk sits in a later layer, so the walk ends |
| Streaming.EdgesCarry | v2/flow/engine.go:407-446 | a node whose connected ports all hold one value sends it along each of their edges and nothing else |
| Streaming.HearersAre | v2/flow/engine.go:306-313 | when a node has emitted on a port, that port's target hears from it, and so does the target of a route named in, which lies on every way from there |
| Streaming.CurLayer | v2/flow/engine.go:481-620 | in the layer of the current node the run fails with it, or moves to the next node of the walk, or the walk is over |
| Streaming.IdleLayer | v2/flow/engine.go:488-498 | a layer with no active node only settles its edges |
| Streaming.RunIsWalk | v2/flow/engine.go:481-646 | from any point of a walk on track the rest of the engine run is the rest of the walk, nodes activated early included |
| Streaming.InvokeIsWalk | v2/flow/graph/runnable.go:338-355 | Invoke gives the value the walk ends with if it ends at the exit; the nodes activated are the nodes walked |
| Streaming.RemeetsTracks | v2/flow/graph/branch.go:65-67 | where every route named in leads where the branch's other routes lead, every walk from a node that the entry can get to is on track |
| StreamWalk.WalkChain | v2/flow/graph/streamgraph.go:351-441 | the node-step loop ends where the walk function says, and it ends |
| StreamWalk.StopsAtSink | v2/flow/graph/streamgraph.go:373-398 | a branch always finds the edge of its selected route, so the missing-edge error is unreachable and the walk stops at ordinary sinks |
| StreamWalk.TurnIsRun | v2/flow/graph/streamgraph.go:400-431 | at every type that consumes a node, its carrier is worth the value Run emits, failure included |
| StreamWalk.WalkDrains | v2/flow/graph/streamdag.go:279-325 | from any node whose every way on ends at the exit the stream walk drains to what the value walk results in |
| StreamWalk.StreamIsInvoke | v2/flow/graph/streamdag.go:279-325 | where every walk from the entry ends at the exit, draining the branch-DAG stream equals Invoke for every input whose walk selects past no route named in, or past one whose target it meets anyway |
| StreamWalk.WalkedIsActivated | v2/flow/graph/streamdag.go:272-278 | on success the nodes walked are exactly the nodes the engine activates, for inputs on track |
| StreamWalk.StreamIsInvokeExactly | v2/flow/graph/streamdag.go:187-190 | for inputs on track, with any sinks and chat models, Stream and Invoke agree exactly when the input's walk ends at the exit or its stream fails |
| StreamWiring.WiringDecides | v2/flow/graph/streamdag.go:69-219 | for all node functions, folders and inputs of a wiring Stream and Invoke agree exactly when every walk along live edges from the entry ends at the exit and no other route of a branch on such a walk can miss the target of its route named in |
| StreamWiring.SteeredStreams | v2/flow/graph/streamdag.go:279-325 | along any path from the entry to a sink the nodes can be chosen so that Stream yields its input |
| StreamWiring.AstrayInvokes | v2/flow/engine.go:306-313 | along a path that ends at another sink, or that leaves the target of a route named in aside, the same nodes make Invoke fail |
| StreamLimits.InRouteDiverges | v2/flow/engine.go:306-313 | a compiled graph with a stream plan and a route named in on which Stream yields every input and Invoke fails |
| StreamLimits.SecondSinkDiverges | v2/flow/graph/streamdag.go:187-190 | a compiled graph with a stream plan and a second sink on which Stream yields every input and Invoke fails |
| StreamPlan.Reaches | v2/flow/graph/streamdag.go:158-183 | the reachability walk ends with a set closed under edges, all of it reachable; it gives up only on a cycle or a dangling edge |
| StreamPlan.BuildStreamPlan | v2/flow/graph/streamdag.go:69-219 | a plan exactly for branch graphs without tees or named inputs, all reachable, with a sink exit and every folder; a missing folder is the only error |
| StreamPlan.CheckEdges | v2/flow/graph/streamdag.go:113-124 | true exactly when no edge enters a named input and no port feeds two edges |
| StreamPlan.FoldersAre | v2/flow/graph/streamdag.go:193-216 | the folders a plan asks for are there exactly when no chat model's stream reaches a consumer, or leaves at the exit, at a type without one |
| StreamPlan.PlanFolds | v2/flow/graph/streamdag.go:24-32 | a walk of a planned graph never stops for want of a folder, whatever its nodes return |
| StreamPlan.PlannedIsSingleRoute | v2/flow/graph/streamdag.go:102-112 | in a planned graph every node but the entry is fed and every port's value goes to one place |
| LinearPipeline.BuildLinearPipeline | v2/flow/graph/runnable.go:241-336 | not linear exactly when no order of the nodes is a chain; otherwise that chain, or a missing folder |
| LinearPipeline.CountEdges | v2/flow/graph/runnable.go:242-261 | the maps hold every node's degrees and successor; refused exactly on an edge that uses another port |
| LinearPipeline.CheckDegrees | v2/flow/graph/runnable.go:262-266 | true exactly when no node has two edges in or two edges out |
| LinearPipeline.WalkOrder | v2/flow/graph/runnable.go:268-284 | the successor walk meets no node twice, and if the graph is a chain it is that chain |
| LinearPipeline.RunLinear | v2/flow/graph/runnable.go:435-487 | the carrier loop computes the fold of the nodes over the input |
| LinearPipeline.LineIsChain | v2/flow/graph/runnable.go:435-487 | running the list of a chain is walking the graph |
| LinearPipeline.InvokeComposes | v2/flow/graph/runnable.go:338-355 | on a chain Invoke is the composition of the nodes' own functions, asserted to the output type |
| LinearPipeline.LinearStreamIsInvoke | v2/flow/graph/runnable.go:406-513 | draining a linear stream equals Invoke, for every input |
| StreamTail.FoldTailReader.Next | v2/flow/graph/stream.go:256-280 | one folded value or error, then io.EOF; the upstream is released on every path |
| StreamTail.FoldTailReader.Close | v2/flow/graph/stream.go:282-292 | an early Close releases the upstream without folding it |
| StreamTail.FoldTailReader.Drain | v2/flow/graph/stream.go:234-292 | reading to the end gives the folded value of the output type, and the upstream is released |
| StreamTail.BoxReader.Next | v2/flow/graph/stream.go:54-63 | the value once, then io.EOF, and io.EOF at once after Close |
| StreamTail.InRouteAlwaysFires | v2/flow/engine.go:306-313 | an edge from a port named like the input fires and activates its target whenever its node runs, whichever route was selected |
| RoundRobin.BeforeIsPrefix | v2/flow/graph/combinators.go:297-313 | every position of the promised order is a prefix of the whole interleaving |
| RoundRobin.PlaceInTurn | v2/flow/graph/combinators.go:297-313 | frame r of source p stands in the output after exactly the frames of smaller index and those of index r from earlier sources |
| RoundRobin.Advance | v2/flow/graph/combinators.go:382-403 | passing over exhausted sources skips no frame |
| RoundRobin.TakeOne | v2/flow/graph/combinators.go:398-412 | the frame received is the one at the reader's position in the promised order |
| RoundRobin.EofMeansAll | v2/flow/graph/combinators.go:395-397 | io.EOF is reported only when every frame of every source has been returned |
| RoundRobin.ReachableInv | v2/flow/graph/combinators.go:314-438 | in every reachable state the output is a prefix of the promised order and each source is closed exactly when its puller has exited |
| RoundRobin.NeverWaitsForever | v2/flow/graph/combinators.go:371-414 | a reader neither closed nor at io.EOF always has a goroutine that can move |
| RoundRobin.ScheduleFree | v2/flow/graph/combinators.go:297-438 | every interleaving takes boundedly many moves and, left to run, returns exactly all frames by frame index and source index, closing each source once |
| RoundRobin.CloseFrees | v2/flow/graph/combinators.go:331-360 | after Close a puller exits and closes its source by at most two moves of its own, whatever its channel holds |
| RoundRobinReading.RoundRobinReader.Next | v2/flow/graph/combinators.go:371-414 | returns the next frame of the promised order whatever the pullers do, io.EOF exactly at its end; its loop ends; every call is a run of the system |
| RoundRobinReading.RoundRobinReader.PickNext | v2/flow/graph/combinators.go:386-394 | the scan finds the first source from the cursor that is not exhausted |
| RoundRobinReading.RoundRobinReader.Close | v2/flow/graph/combinators.go:416-438 | Close is idempotent and is the system's close move |
| Merging.MergeConserves | v2/flow/graph/combinators.go:185-295 | read, buffered, held and unread frames are together each source in order; io.EOF means all of them were read; every run ends, with each source closed once |
| Merging.EofMeansAll | v2/flow/graph/combinators.go:258-269 | the shared channel closes only after every source has been returned in full |
| Merging.InvKept | v2/flow/graph/combinators.go:198-295 | every move of every goroutine keeps the conservation law |
| Merging.StuckIsDone | v2/flow/graph/combinators.go:276-295 | when nobody can move, all pullers have exited, the channel is closed and drained, and the reader is closed or at io.EOF |
| Merging.CloseFrees | v2/flow/graph/combinators.go:222-250 | after Close a puller exits and closes its source by at most two moves of its own, whatever the shared channel holds |
| MergeReading.MergeReader.Next | v2/flow/graph/combinators.go:258-274 | appends one frame, or reports io.EOF with every source complete in its own order |
| Demux.DemuxInverts | v2/flow/graph/merge.go:380-401 | picking source i's frames out of the tagged round-robin merge gives source i |
| Demux.FaultsArrive | v2/flow/graph/merge.go:388-399 | the merge carries an error exactly when some source ends with one |
| Demux.DrainPerSource | v2/flow/graph/merge.go:341-369 | the zip fold gets every source's exact list, or the first error in the promised order; the range error cannot occur; the reader is closed |
| Demux.DrainFlat | v2/flow/graph/merge.go:319-339 | the unordered fold gets an interleaving of the sources, succeeding exactly when none ends with an error |
| Tee.NoEarlyEof | v2/flow/graph/combinators.go:147-153 | an open consumer's channel never ends before it has had the terminal frame |
| Tee.InvKept | v2/flow/graph/combinators.go:59-183 | every move keeps: an open consumer has received or has waiting exactly the frames sent to it |
| Tee.TeeIsFair | v2/flow/graph/combinators.go:44-58 | received and buffered frames are a prefix of the source, at most two short of what was pulled; two open consumers are at most two frames apart; the source is closed at most once |
| Tee.WaitsForASibling | v2/flow/graph/combinators.go:24-30 | a consumer that waits while the broadcaster cannot move waits for another one to read or be drained |
| Tee.TeeDelivers | v2/flow/graph/combinators.go:99-183 | every run ends; then every open consumer has had the whole source and the source has been closed exactly once |
| Tee.CloseFrees | v2/flow/graph/combinators.go:99-130 | once every consumer has closed, the broadcaster leaves and closes the source by at most four moves of its own |
| Transitions.RunKeeps | v2/flow/graph/combinators.go:59-126 | what every move of a system keeps, every run keeps |
| Transitions.RunIsBounded | v2/flow/graph/combinators.go:59-126 | a system whose every move uses up work makes boundedly many moves |
| Legacy.CompileV01 | flow/engine.go:67-142 | the v0.1 layers are the flow's layering in the order the loop lists it |
| Legacy.RunV01 | flow/engine.go:180-383 | the v0.1 loops compute the v0.1 result function, failures included |
| LegacyAgrees.BoxStrMap | v2/flow/shim.go:32-41 | boxing turns every entry into a string value and adds none |
| LegacyAgrees.UnboxStrMap | v2/flow/shim.go:43-53 | unboxing fails exactly when some value is not a string |
| LegacyAgrees.EdgesSame | flow/engine.go:329-356 | on string ports v2 fires the edges v0.1 fires, with the same conditions and failures |
| LegacyAgrees.LayerSame | flow/engine.go:250-357 | a v2 layer and a v0.1 layer succeed together and leave the same activation and texts |
| LegacyAgrees.SameLayering | flow/engine.go:103-142 | both engines compile a flow without mappings to the same layers |
| LegacyAgrees.RunStringIsRun | v2/flow/shim.go:16-22 | RunString equals the v0.1 Run on every input: same success, same outputs |
| EngineCaching.EngineCache.Get | cmd/flowd/server/lru.go:43-52 | a hit returns the cached value and makes the key the most recently used; contents stay |
| EngineCaching.EngineCache.Set | cmd/flowd/server/lru.go:56-70 | the key is cached; a key goes exactly when a new one finds the cache full, and it is the one not used for longest |
| EngineCaching.EngineCache.Delete | cmd/flowd/server/lru.go:73-82 | the key is gone, everything else stays |
| EngineCaching.EngineCache.EvictLRU | cmd/flowd/server/lru.go:93-101 | the last list element and its index entry go together |
| FlowServer.Lookup | cmd/flowd/server/server.go:159-177 | a lookup gives the cached engine or else what compiling the stored flow afresh gives; these are the same for every id but one whose last PUT failed after it wrote |
| FlowServer.HistoryTells | cmd/flowd/server/server.go:159-421 | without caches, every lookup is answered by the compilation of the body last written for its id, or not found, read off the earlier requests and their answers |
| FlowServer.MirrorsExactly | cmd/flowd/server/server.go:159-177 | a cache goes unnoticed at every lookup exactly when each cached engine is the compilation of the flow stored under its id |
| FlowServer.Server.EngineForV2 | cmd/flowd/server/server.go:190-209 | the v2 lookup answers as a server without caches exactly when what it sees is what compiling afresh gives, and always but for an id whose last PUT failed after it wrote |
| FlowServer.Server.CreateFlow | cmd/flowd/server/server.go:293-319 | a flow is created exactly when the request names an id that is not stored, the body compiles and the store writes; the body is then stored under that id, else the store stays as it was unless it failed after it wrote; answers are those without caches, and both caches stay faithful without evicting |
| FlowServer.Server.PutFlow | cmd/flowd/server/server.go:321-355 | an accepted body replaces what is stored under the id, else the store stays as it was; replacing evicts; a PUT that fails after it wrote evicts nothing, and then the caches stay unnoticed exactly when neither holds an engine for the id that the new body makes out of date |
| FlowServer.Server.FailedPutShows | flow/store/sqlite/flows.go:41-53 | after a lookup and a PUT that fails after it wrote, the next lookup still gets the engine of the replaced flow |
| FlowServer.Server.DeleteFlow | cmd/flowd/server/server.go:408-421 | a stored flow is removed from the store and evicted; an absent flow is reported and nothing changes |
| FlowServer.Server.ServeAll | cmd/flowd/server/server.go:159-421 | over any sequence of requests the store is that of a server without caches and so are the answers, but for lookups of an id whose last PUT failed after it wrote; with no such PUT all answers are; and if no write fails late, every lookup gets the compilation of the body last written for its id, or not found if there is none or it was deleted since |

## Left out

- Cancellation: no context is cancelled from outside; a node error that wraps context.Canceled is an ordinary failure.
- The fan-out library is taken to run every task it starts to its end; its fail-fast order and its concurrency cap only choose among the interleavings covered.
- Error texts, timestamps, run ids, checkpoint versions, metadata maps and the stored original inputs' use are not modelled; errors are compared as success or failure across runs, not by identity.
- Value trees are immutable, so maps shared below the first path level are not modelled; the source updates deeper maps in place.
- Ports are one map from node and port to value where the source nests two maps.
- A checkpoint whose edge list has another length than the flow's, which the source would index out of range, counts as a bad checkpoint.
- Hashes are taken as injective and JSON as round-tripping per registered type; the State fingerprint is a tag that matches or does not.
- Resumption.ResumedEqualsUninterrupted: asks that each interrupt node has the last word among its layer siblings, which is exact per wire; where a mapping shares its port with another wire it is sufficient only (`CoveredIsInterchangeable`).
- Resumption.ResumedEqualsUninterrupted: asks that a run seeded with a State other than nil never commits nil, which no checkpoint carries (`StateSurvivesExactlyWhen`).
- Resumption.ResumedEqualsUninterrupted: edge states are compared up to an edge the human left deferred, because the source leaves it so.
- Relisting.RunPermutes: asks that no two nodes of a layer write comparable places in one pass, which is exact layer by layer for all states (`CompiledListing`); whether nodes can bring about a state that shows the difference is not asked.
- Relisting.AdmittedResumeAgrees: the declared outputs must be equal, because no structural hash covers them.
- StreamWiring.WiringDecides: ordinary nodes are free to be any lambda, passthrough or chat model; a node the wiring forces to be a passthrough is not singled out.
- Streaming covers lambda-like, passthrough, chat-model and branch nodes; parallel, combine and copy nodes and the plans for copies and merges are not modelled, only the copy, merge and drain machinery they use.
- Concatenator lookup by assignability is a map from the consuming type to its folder; type checks at build time are not modelled.
- Live-stream bookkeeping during a walk (which stream to close on an error) is not modelled beyond the tail reader.
- Liveness of the combinators with infinite sources is not stated: sources are finite lists, and every run is shown to end.
- Close of a combinator may fall between two turns of Next's loop in the model, where the source's mutex delays it until Next returns.
- The server's handlers are single steps; a handler's store reads do not fail except the read PutFlow does after it wrote, a failing delete changes nothing, and run, stream, replay and listing handlers, auth and SSE are not modelled.
- MemoryCheckpointStore copies are values here, so the protection its deep copies give against aliasing is not visible.
