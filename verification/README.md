# Verified model of the agent platform's core

A Dafny model of the parts of the agent platform that decide what may run, what it may cost, and which bytes
count as the same value, with proofs of what those parts promise. `dafny verify dfyconfig.toml` checks it all.

Every file is one module.

* **Task graphs.** `TaskGraphDepth` is the longest-path pass, over any type of task IDs. `TaskGraphEdges` reads the
  edge list, `TaskGraphPlan` says what a valid plan is, and `TaskGraphCheck` holds the loops of the checker.
  `TaskGraphRun` is the execution of an admitted graph as a state machine: workers claim and finish tasks, and the
  reconciler resolves joins and promotes the answer of a Decision Desk; `TaskGraphCalls` says status by status what each
  of these actions does. `TaskGraphStops` is about the runs that wait
  for their deadline, `TaskGraphRounds` about running level by level. `TaskGraphProgress` joins all this with accepted
  plans, and `TaskGraphExamples` holds plans that show what accepted plans may do. `TaskGraphProposal` is the
  canonicalization of model advice, `TaskGraphAdvice` says character by character what advice is acceptable, and
  `TaskGraphPlanner` (with `TaskGraphStar`) is the compiler from proposals to admission commands. `TaskGraphTerms`
  says field by field which plans the checker accepts and what the compiler takes.
* **Budgets.** `Budget` is the 64-bit arithmetic of limits, aggregates and ledgers, with wrap-around.
* **Canonical JSON.** `Utf8` and `KeyOrder` treat bytes and orders, `JsonLex` the tokens, `JsonSpelling` all their
  spellings in the grammar of RFC 8259, `CanonicalText` the texts that are made of them, `JsonDoc` the documents and
  the reader both JSON consumers share, `JsonDecoder` the token interface of the Go decoder. `CanonicalJson` is the
  parser and printer, `CanonicalLaws` their laws and the digest preimage, `PythonInt`, `PythonReader` and
  `CanonicalPython` the second canonicalizer, from the text it reads to the bytes it writes. `OutputScan` and
  `SchemaPolicy` are the output contract's scan and its schema profile, and `SchemaPlaces` says which schemas that
  profile accepts, by the places of their subschemas.
* **Runtime protocol.** `RuntimeStates` is the transition graph and the event rule, `RuntimeLedger` the ledgers and
  their ancestry, `RuntimeProtocol` the fenced commands as atomic steps over the records. `RuntimeLog` and
  `RuntimeBudget` are what every step keeps, `RuntimeLaws` the consequences over whole runs and the exact deltas.
  `RuntimeCommands` says column by column when each command takes effect and what it changes, `RuntimeTables` holds the
  transition tables of the database beside those of the Go contract.
* **Blob store, governance, and two small pieces.** `BlobCopy` and `BlobStore`; `Governance`; `WakeDeduper` and
  `FreshnessClock`.
* `Collections`, `Text`, `Contracts` (with `ContractTerms`) and `Capability` hold what several of these share.

## What the proofs found

* The Go checker adds 64-bit limits unchecked: a meter whose true sum lies between 2^63 and 2^64 passes under every
  limit. It accepts a plan whose two tasks may read 2^63 tokens under an authorized limit of none
  (`TaskGraphExamples.OverflowAccepted`). An accepted plan is within its authorized limit exactly when its true sums
  fit 64 bits (`TaskGraphExamples.AcceptedPlanWithinIff`). The admission function of the database sums the same limits
  as `NUMERIC` (agent-platform/migrations/0065_cortex_task_graph_admission.sql:197-210) and refuses this plan.
* Some accepted plans have tasks that nothing ever starts. Only the join reconciler moves a task from blocked to ready,
  and joins exist only for tasks with two or more inputs; workers are told about a Decision Desk only when its join is
  ready; and one call of the reconciler looks at the first 32 unresolved joins only. A run may then wait with
  unfinished tasks until the Run's deadline, when the recovery of expired Runs dead-letters it. The smallest example is
  a chain of two Specialists (`TaskGraphExamples.AcceptedChainStops`). For every accepted plan
  `TaskGraphProgress.AcceptedPlanProgress` says exactly when that can happen, and with at most 32 joins
  `TaskGraphProgress.AcceptedPlanComesUp` when every task comes up: each Desk has a join, each Specialist with a tool
  may be told to workers, and no task has exactly one upstream task. `releaseSingle` is the assumed rule that such a
  task is released like a join over its one upstream task. With more joins their order in the plan matters: a graph in
  which `n` joins wait for one that is listed behind them stops exactly when `n` is 32 or more
  (`TaskGraphStops.CrowdedWaitsIff`).
* A Desk that fails ends nothing, so a run may also wait with nothing left to do. It can come to wait exactly when the
  Specialists alone satisfy every join that comes up. Plans the compiler makes never wait with unfinished tasks; they
  do wait for the deadline when their Desk fails, and only then (`TaskGraphPlanner.CompiledPlanWaits`,
  `TaskGraphPlanner.CompiledPlanStops`).
* The compiler tests only that two context IDs are not empty and never looks at the length of the record ID. The
  compiled plan passes its checker exactly when both IDs are valid and the record ID has at most 175 bytes.
* Governance heads are looked up by the key they are filed under; that key is not compared with the subject of
  the head (`Governance.MisfiledHeadAccepted`). Every allow rests on heads of its own effect and switches exactly when
  no request with an effect is allowed at all, or every open gate is filed under its own subject
  (`Governance.AllowsRestOnOwnIff`). An unset mode ranks below disabled, so a decision may report it.
* Lowering a ceiling never turns a denial into an allow, except that an unknown effect ceiling denies everything and
  lowering it to a known one lifts that (`Governance.ResolveMonotone`, `Governance.UnknownCeilingDenies`).
* A failed `Stage` leaves its name behind exactly when it had created the file and the removal failed too, an error
  the source discards. A retry then succeeds only with an exact grant and when the whole input had been written
  (`BlobStore.RetryOverLeftover`). Content names stay sound.
* A Run or Task may enter and leave waiting without end, so only the logs of Attempts, Turns and Sessions are bounded.
* A lone surrogate escape becomes U+FFFD in the Go canonicalizer, and the Python one refuses to encode it
  (`CanonicalPython.LoneSurrogateDiffers`). An integer of more digits than the limit of the Python interpreter (4300
  unless it is set otherwise) is kept by the Go canonicalizer and refused by the Python one
  (`CanonicalPython.LongIntegerDiffers`). On the texts the Go one accepts, nesting aside, the two agree exactly when no
  string holds such an escape and no integer is that long (`CanonicalPython.SameBytesIff`).

## Model

| member | source | states |
|---|---|---|
| `TaskGraphDepth.GraphDepths` | agent-platform/taskgraphcontract/validate.go:258-285 | the worklist returns true exactly when no closed walk of edges exists; then each depth is the number of nodes on a longest path ending at the task; it terminates because no task is queued twice |
| `TaskGraphDepth.CountIncoming` | agent-platform/taskgraphcontract/validate.go:258-269 | the first loop queues exactly the tasks without incoming edges, at depth 1, and counts the edges of the others |
| `TaskGraphDepth.WalkTargets` | agent-platform/taskgraphcontract/validate.go:271-283 | walking the edges of one task raises the depths and counts of its targets and queues exactly those that become ready |
| `TaskGraphDepth.SettledDecides` | agent-platform/taskgraphcontract/validate.go:258-285 | a table the worklist leaves behind is complete exactly when the graph is acyclic, and then holds longest-path lengths |
| `TaskGraphDepth.SettledUnique` | agent-platform/taskgraphcontract/validate.go:258-285 | any two final tables of one graph agree on every entry and on the flag: map iteration and queue order do not matter |
| `TaskGraphDepth.UnreadyWalk` | agent-platform/taskgraphcontract/validate.go:284 | a task that never became ready has walks of unready ancestors of every length |
| `TaskGraphDepth.LongWalkCycles` | agent-platform/taskgraphcontract/validate.go:284 | a walk longer than the number of tasks contains a cycle |
| `TaskGraphDepth.DepthAlongPath` | agent-platform/taskgraphcontract/validate.go:271-276 | depth grows by at least one along every edge of a path |
| `TaskGraphEdges.BuildTables` | agent-platform/taskgraphcontract/validate.go:126-148 | the edge loop accepts exactly edge lists between distinct known tasks without repeats, and builds both adjacency tables |
| `TaskGraphEdges.FanoutWithin` | agent-platform/taskgraphcontract/validate.go:149-153 | the fan-out loop accepts exactly when no task has more outgoing edges than the limit |
| `TaskGraphEdges.TablesMatchGraph` | agent-platform/taskgraphcontract/validate.go:124-148 | the adjacency tables list exactly the edges of the graph that the depth pass is about |
| `TaskGraphCheck.Validate` | agent-platform/taskgraphcontract/validate.go:90-185 | accepts exactly the plans that satisfy the declarative validity predicate: header, nodes, exact aggregate test, acyclic topology with longest-path depths, joins |
| `TaskGraphCheck.CheckNodes` | agent-platform/taskgraphcontract/validate.go:111-122 | the node loop accepts exactly when IDs are distinct and every node is valid; the table and the aggregate are those of all nodes |
| `TaskGraphCheck.CheckNode` | agent-platform/taskgraphcontract/validate.go:40-88 | one node is accepted exactly when its fields, role, limit and grants are valid |
| `TaskGraphCheck.CheckGrants` | agent-platform/taskgraphcontract/validate.go:77-87 | the grant loop accepts exactly when no tool is granted twice and the role owns every granted tool |
| `TaskGraphCheck.CheckRefs` | agent-platform/taskgraphcontract/validate.go:313-326 | record references are accepted exactly when each is valid and no record is named twice |
| `TaskGraphCheck.CheckTopology` | agent-platform/taskgraphcontract/validate.go:124-162 | edges, fan-out, acyclicity and stated depths are accepted exactly when the topology is valid |
| `TaskGraphCheck.CheckDepths` | agent-platform/taskgraphcontract/validate.go:158-162 | the stated depths are accepted exactly when each is the longest-path length and within the limit |
| `TaskGraphCheck.CheckJoins` | agent-platform/taskgraphcontract/validate.go:164-184 | joins are accepted exactly when their IDs and downstream tasks are distinct, each is valid, and every task with two or more inputs has one |
| `TaskGraphCheck.CheckJoin` | agent-platform/taskgraphcontract/validate.go:187-229 | one join is accepted exactly when it waits for precisely the incoming set of its task and its policy numbers fit |
| `TaskGraphCheck.CheckUpstream` | agent-platform/taskgraphcontract/validate.go:195-211 | the membership loop accepts exactly a repeat-free listing of the incoming set |
| `TaskGraphCheck.CheckMultiInput` | agent-platform/taskgraphcontract/validate.go:179-184 | the last loop accepts exactly when joined tasks are the tasks with several inputs |
| `TaskGraphTerms.PlanIff` | agent-platform/taskgraphcontract/validate.go:90-229 | the checker accepts exactly the plans described field by field with literals: header, distinct tasks, nodes, limits summed in 64 bits, edges, fan-out, no closed walk, depths as longest walks, joins |
| `TaskGraphTerms.NodeIff` | agent-platform/taskgraphcontract/validate.go:22-88 | a node is accepted exactly when it is a Decision Desk without tools or a Specialist with at most one read-only tool of its own, with sound references, limit, depth and times |
| `TaskGraphTerms.JoinIff` | agent-platform/taskgraphcontract/validate.go:187-229 | a join is accepted exactly when it lists each task with an edge to its own once, its policy is one of the two with fitting numbers, and its deadline lies within those of plan and task |
| `TaskGraphTerms.DepthsIff` | agent-platform/taskgraphcontract/validate.go:258-285 | acyclic with right depths means, along the edge list, that no walk returns to its start and every stated depth is that of a longest walk |
| `TaskGraphTerms.SharedIff` | agent-platform/taskgraphcontract/validate.go:179-184 | the rule that tasks with several inputs have a join is about any two different edges into one task |
| `TaskGraphTerms.CommandIff` | agent-platform/taskgraphcontract/validate.go:238-256 | which admission commands are acceptable, field by field |
| `TaskGraphTerms.InputsIff` | agent-platform/taskgraphplanner/planner.go:34-64 | the compiler succeeds exactly on a sound proposal and context, one sound objective for each branch and one for the Desk committed before the deadline, and a record ID of at most 175 bytes |
| `ContractTerms.IdentifierIff` | agent-platform/contracts/contracts.go:421-431 | an ID is 1 to 200 bytes of UTF-8 without white space and control characters |
| `ContractTerms.RecordIff` | agent-platform/contracts/contracts.go:231-238 | a record reference is sound exactly with a listed owner, a name, an ID, revision 1 and 64 lower-case hexadecimal digits |
| `ContractTerms.EnvelopeIff` | agent-platform/contracts/contracts.go:335-344 | a command envelope is sound exactly field by field |
| `Text.SeparatedInjective` | agent-platform/taskgraphcontract/validate.go:136 | a key joined with a separator that its first part lacks splits in one way only |
| `TaskGraphProgress.JoinsOneToOne` | agent-platform/taskgraphcontract/validate.go:164-184 | in an accepted plan the joins are one-to-one with the tasks having two or more incoming edges, each with exactly that incoming set |
| `TaskGraphProgress.JoinResolution` | agent-platform/migrations/0071_cortex_task_graph_join_resolution.sql:136-171 | a join the reconciler looks at, whose upstream tasks have ended, passes exactly when its minimum of them succeeded and otherwise dead-letters the Run; what the two policies mean for that |
| `TaskGraphProgress.AcceptedPlanProgress` | agent-platform/migrations/0071_cortex_task_graph_join_resolution.sql:79-393 | for every accepted plan, with and without the assumed release rule: a run can come to wait for the deadline exactly when the Specialists alone satisfy every join that comes up, and with unfinished tasks exactly when, besides, not every task comes up and is offered to workers |
| `TaskGraphProgress.AcceptedPlanComesUp` | agent-platform/migrations/0073_cortex_task_graph_decision_desk_discovery.sql:30-46 | for every accepted plan with at most one batch of joins: every task comes up and is offered exactly when each Desk has a join, each Specialist with a tool may be told to workers, and no task has exactly one upstream task |
| `TaskGraphProgress.AcceptedPlanLevels` | agent-platform/taskgraphcontract/validate.go:158-162 | for any outcomes an accepted plan whose tasks all come up has a level-by-level run of MaxDepth rounds; it is open at the end exactly when no Desk of a lower level succeeded and every join was satisfied, and then every task has ended with these outcomes |
| `TaskGraphProgress.AcceptedPlanRounds` | agent-platform/taskgraphcontract/validate.go:158-162 | after any MaxDepth rounds, at most eight, the Run of an accepted plan has ended or every task has |
| `TaskGraphProgress.AcceptedPlanRoundsIff` | agent-platform/taskgraphcontract/validate.go:158-162 | for every accepted plan with at most one batch of joins, and outcomes without a Desk that succeeds on a lower level: MaxDepth rounds in which every task ends exist exactly when the outcomes supply every task and every task is offered and released in its turn |
| `TaskGraphProgress.SuccessSupplies` | agent-platform/taskgraphcontract/validate.go:187-229 | when all tasks succeed every task gets the successes it waits for |
| `TaskGraphProgress.AcceptedPlanEnds` | agent-platform/taskgraphcontract/validate.go:90-185 | every run of an accepted plan takes at most 193 actions |
| `TaskGraphRun.RunKept` | agent-platform/migrations/0071_cortex_task_graph_join_resolution.sql:116-171 | in every reachable state a task is released only after all upstream tasks ended, the Run is dead-lettered exactly when some join found too few successes, and it is answered only by a Desk that succeeded |
| `TaskGraphRun.ReconcileOutcome` | agent-platform/migrations/0071_cortex_task_graph_join_resolution.sql:79-393 | what one call does, whatever the order inside the batch: it dead-letters the Run exactly when a join it can settle fails, answers it exactly when none fails and a Desk has succeeded, and otherwise readies exactly the joins it can settle |
| `TaskGraphCalls.CallReleases` | agent-platform/migrations/0071_cortex_task_graph_join_resolution.sql:79-393 | when every join the call settles passes, it releases exactly those: the first 32 unresolved ones, counted along the plan, whose upstream tasks have all ended; the Run is answered exactly when a Desk has succeeded |
| `TaskGraphCalls.CallFails` | agent-platform/migrations/0071_cortex_task_graph_join_resolution.sql:79-393 | when one of them has too few successes, the call dead-letters the Run; one such join fails its task, and every other task is as before or was released by a join that passed |
| `TaskGraphCalls.ClaimIff` | agent-platform/migrations/0006_ap1_command_leases.sql:1023-1053 | exactly when a task can be claimed, status by status |
| `TaskGraphCalls.ParallelismKept` | agent-platform/migrations/0006_ap1_command_leases.sql:621-640 | in every reachable state the running tasks number at most the slots of the run |
| `TaskGraphCalls.RulesFollowPlan` | agent-platform/migrations/0065_cortex_task_graph_admission.sql:640-800 | which depth, needs, strictness, Desk, discovery, parallelism and order of joins an accepted plan sets for the model of its run, field by field |
| `TaskGraphRun.JoinOutcomeStable` | agent-platform/migrations/0071_cortex_task_graph_join_resolution.sql:136-171 | the outcome of a join is the same whenever it is taken after its upstream tasks have ended |
| `TaskGraphRun.RunsEnd` | agent-platform/migrations/0065_cortex_task_graph_admission.sql:661-665 | every action but the last brings some task one stage further, so runs take at most three actions per task and one more |
| `TaskGraphRun.ReadyIsClaimable` | agent-platform/migrations/0006_ap1_command_leases.sql:1032-1053 | the dependency rule never refuses a ready task that workers are told about while a slot is free |
| `TaskGraphStops.MayWaitIff` | agent-platform/migrations/0071_cortex_task_graph_join_resolution.sql:79-393 | exactly when runs can come to wait for the deadline, with and without unfinished tasks: both directions, with the waiting run constructed |
| `TaskGraphStops.StuckShape` | agent-platform/migrations/0071_cortex_task_graph_join_resolution.sql:79-393 | wherever a run waits it has released exactly the tasks that come up, those that are offered have ended, and no Desk succeeded |
| `TaskGraphStops.AllComeUpIff` | agent-platform/migrations/0071_cortex_task_graph_join_resolution.sql:86-87 | with at most one batch of joins every task comes up exactly when all are offered and each task with inputs has a join |
| `TaskGraphStops.OnlyJoinsComeUp` | agent-platform/migrations/0071_cortex_task_graph_join_resolution.sql:79-87 | whatever the number of joins, nothing but join resolution unblocks a task |
| `TaskGraphStops.CrowdedWaitsIff` | agent-platform/migrations/0071_cortex_task_graph_join_resolution.sql:86-87 | a graph in which some joins wait for one listed behind them can stop with unfinished tasks exactly when these joins fill a batch |
| `TaskGraphRun.UnjoinedStaysBlocked` | agent-platform/migrations/0065_cortex_task_graph_admission.sql:661-665 | in every reachable state a task with inputs and no join, such as one with a single upstream task, is blocked |
| `TaskGraphRounds.RoundsFinish` | agent-platform/taskgraphcontract/validate.go:158-162 | after k rounds every task of depth at most k has ended, unless the Run has |
| `TaskGraphRounds.RoundsExact` | agent-platform/taskgraphcontract/validate.go:158-162 | run in step and while the Run is open, exactly the tasks of depth at most k have ended after k rounds |
| `TaskGraphRounds.RoundExists` | agent-platform/migrations/0071_cortex_task_graph_join_resolution.sql:79-393 | from an open Run with no attempt under way a round is possible with any outcomes, when the due joins are in the batch and the due tasks offered; the Run is open behind it exactly when no Desk had succeeded and every due join passes |
| `TaskGraphRounds.LevelRun` | agent-platform/taskgraphcontract/validate.go:158-162 | for any outcomes there is a level-by-level run; it is open after k rounds exactly when no Desk of a lower level succeeded and every join up to level k was satisfied |
| `TaskGraphRounds.LastCall` | agent-platform/migrations/0071_cortex_task_graph_join_resolution.sql:319-393 | when every task has ended the next call promotes an answer if a Desk succeeded, and otherwise the Run waits |
| `TaskGraphRounds.RoundsFinishIff` | agent-platform/taskgraphcontract/validate.go:158-162 | as many rounds as the deepest task is deep can end every task with exactly the outcomes that supply every task, when every task is offered and released in its turn, and never otherwise |
| `TaskGraphExamples.ChainAccepted` | agent-platform/taskgraphcontract/validate.go:90-185 | a chain of two Specialists with suitable limits is an accepted plan, whatever tools are installed |
| `TaskGraphExamples.ChainLimitsMet` | agent-platform/taskgraphcontract/validate.go:90-185 | such limits exist |
| `TaskGraphExamples.AcceptedChainStops` | agent-platform/migrations/0065_cortex_task_graph_admission.sql:661-665 | an accepted chain of two Specialists reaches an open Run with an unfinished task in which neither workers nor the reconciler can do anything |
| `TaskGraphExamples.OverflowAccepted` | agent-platform/taskgraphcontract/validate.go:287-311 | an accepted plan whose limits truly exceed its authorized limit |
| `TaskGraphExamples.AcceptedPlanWithinIff` | agent-platform/taskgraphcontract/validate.go:287-311 | an accepted plan is truly within its authorized limit exactly when its sums fit 64 bits |
| `Capability.CollectOwners` | agent-platform/capability/roles.go:72-87 | the loops collect, in table order, exactly the roles that list the category of the tool |
| `Capability.OwnerIsOnlyListing` | agent-platform/capability/roles.go:33-40 | every category is listed by at most one role of the table |
| `Capability.AtMostOneOwner` | agent-platform/capability/roles.go:72-87 | no tool has two owners, and an owner is an installed revision-1 role |
| `Capability.RoleTable` | agent-platform/capability/roles.go:52-61 | which role IDs the lookup finds and what they carry |
| `TaskGraphProposal.Canonicalize` | agent-platform/taskgraphproposal/proposal.go:88-125 | the rewriting loop equals the loop-free canonical form, fails exactly where that has a repeated lane, and its final check never rejects |
| `TaskGraphProposal.RewriteBranches` | agent-platform/taskgraphproposal/proposal.go:95-120 | the in-place loop with its seen map rewrites every branch by the branches before it, or stops exactly at a repeated lane |
| `TaskGraphProposal.RewriteBranch` | agent-platform/taskgraphproposal/proposal.go:96-113 | one branch moves to the owner of its tool and keeps the tool only when no earlier branch has it |
| `TaskGraphProposal.ValidateAdvice` | agent-platform/taskgraphproposal/proposal.go:127-159 | accepts exactly valid advice |
| `TaskGraphProposal.Validate` | agent-platform/taskgraphproposal/proposal.go:161-197 | accepts exactly valid proposals, whose lanes are pairwise distinct |
| `TaskGraphProposal.KeysAreLanes` | agent-platform/taskgraphproposal/proposal.go:107-119 | the joined map key was seen exactly when the role-and-tool pair was |
| `TaskGraphProposal.CanonicalIsValid` | agent-platform/taskgraphproposal/proposal.go:121-123 | the canonical form of accepted advice is a valid proposal |
| `TaskGraphProposal.NormalForm` | agent-platform/taskgraphproposal/proposal.go:88-125 | canonicalizing is idempotent and the valid proposals are exactly its fixed points |
| `TaskGraphProposal.CanonicalKeeps` | agent-platform/taskgraphproposal/proposal.go:88-125 | branch count and order, trimmed objectives and the set of tools are kept; each tool ends up once, in the branch of its only owner |
| `TaskGraphProposal.AcceptedIff` | agent-platform/taskgraphproposal/proposal.go:95-120 | advice is accepted exactly when it is valid and every role is wanted at most once beyond the distinct tools it owns |
| `TaskGraphProposal.SpareIsSurplus` | agent-platform/taskgraphproposal/proposal.go:107-115 | branches of a role without a tool number exactly its tool-less branches plus the surplus repeats of its tools |
| `TaskGraphProposal.OrderIrrelevant` | agent-platform/taskgraphproposal/proposal.go:95-120 | permuting the branches changes neither acceptance nor the lanes of the result |
| `TaskGraphProposal.LaneMeaning` | agent-platform/taskgraphproposal/proposal.go:95-120 | which lanes the result has, said without order |
| `TaskGraphAdvice.AdviceIff` | agent-platform/taskgraphproposal/proposal.go:127-159 | advice is accepted exactly when it has schema 1, one of two join modes, two to four branches, texts that are clean between white space, one of six roles per branch, and only active read-only tools whose category belongs to a role |
| `TaskGraphAdvice.ProposalIff` | agent-platform/taskgraphproposal/proposal.go:161-197 | proposals are accepted exactly when, besides, texts are trimmed, every tool is with its owner, and no two branches are alike |
| `TaskGraphAdvice.BoundedIff` | agent-platform/taskgraphproposal/proposal.go:211-223 | text is bounded exactly when it is not empty, has no white space at its ends, at most 4000 bytes in UTF-8, and no control character but line feed and tab |
| `TaskGraphAdvice.BoundedAdviceIff` | agent-platform/taskgraphproposal/proposal.go:225-227 | the same between white space |
| `TaskGraphPlanner.Build` | agent-platform/taskgraphplanner/planner.go:34-170 | succeeds exactly on valid inputs whose context IDs fit; the command is the compiled one, has every field as stated by literals, and the last check never rejects |
| `TaskGraphPlanner.CompilePlan` | agent-platform/taskgraphplanner/planner.go:63-145 | the compiling code builds the plan described without loops |
| `TaskGraphPlanner.PlanMeans` | agent-platform/taskgraphplanner/planner.go:59-145 | field by field: which ID, role, contract, objective, grant and limit each node carries, the edges, the join of each mode, the times, and the authorized limit as exact sum |
| `TaskGraphPlanner.CompiledJoinDecides` | agent-platform/taskgraphplanner/planner.go:119-130 | when all branches have ended, an all-required plan dead-letters its Run exactly if one of them failed, a minimum-succeeded plan exactly if all failed; otherwise the Desk is ready |
| `TaskGraphPlanner.PlanBranches` | agent-platform/taskgraphplanner/planner.go:71-105 | the branch loop produces the nodes, star edges, upstream list and running total of all branches |
| `TaskGraphPlanner.CheckObjectives` | agent-platform/taskgraphplanner/planner.go:43-57 | accepts exactly objective blobs owned by Control and computes the latest commit time |
| `TaskGraphPlanner.CompiledPlanValidIff` | agent-platform/taskgraphplanner/planner.go:34-170 | for valid inputs the compiled plan passes the plan checker exactly when RunID and ParentTaskID are valid IDs and the record ID has at most 175 bytes |
| `TaskGraphPlanner.CompiledCommandValid` | agent-platform/taskgraphplanner/planner.go:146-169 | the admission command of a valid compiled plan is valid |
| `TaskGraphPlanner.AuthorizedIsExactSum` | agent-platform/taskgraphplanner/planner.go:104-119 | the authorized limit equals the exact sum of the node limits on every summed resource |
| `TaskGraphPlanner.CompiledPlanWaits` | agent-platform/taskgraphplanner/planner.go:98-131 | runs of compiled plans never wait with unfinished tasks, but may wait behind the last one |
| `TaskGraphPlanner.CompiledPlanStops` | agent-platform/taskgraphplanner/planner.go:98-131 | a run of a compiled plan that waits for the deadline has ended all of its tasks, and its Desk failed |
| `TaskGraphPlanner.PlannedTopologyValid` | agent-platform/taskgraphplanner/planner.go:71-138 | the compiled star is acyclic, with depths 1 and 2 and fan-out 1 |
| `TaskGraphPlanner.PlannedJoinsValid` | agent-platform/taskgraphplanner/planner.go:121-138 | the compiled join is valid for its graph |
| `TaskGraphPlanner.NodeIds` | agent-platform/taskgraphplanner/planner.go:60-78 | the compiled task IDs are pairwise distinct |
| `TaskGraphPlanner.DeskAndJoinIds` | agent-platform/taskgraphplanner/planner.go:60-62 | how long a record ID may be before the derived IDs stop being valid |
| `TaskGraphPlanner.ValidateCommand` | agent-platform/taskgraphcontract/validate.go:238-256 | accepts exactly commands whose envelope matches a valid plan and its digest |
| `TaskGraphStar.StarDepths` | agent-platform/taskgraphplanner/planner.go:71-138 | a star of edges to one hub is acyclic with longest paths of one and two nodes |
| `Budget.TotalWraps` | agent-platform/taskgraphcontract/validate.go:287-298 | the unchecked running total is the true sum wrapped once to 64 bits |
| `Budget.AggregateExact` | agent-platform/taskgraphcontract/validate.go:287-311 | when no sum leaves 64 bits the aggregate test decides the true sums |
| `Budget.AggregateRightIffSumsFit` | agent-platform/taskgraphcontract/validate.go:287-311 | the aggregate test is right for every limit exactly when every sum fits 64 bits |
| `Budget.SmallFieldsFit` | agent-platform/taskgraphcontract/validate.go:287-298 | with at most 64 nodes a bound below 2^57 per field keeps all sums in range |
| `Budget.AcceptedWithinIff` | agent-platform/taskgraphcontract/validate.go:287-311 | limits that passed the test are truly within the limit exactly when every sum fits 64 bits |
| `Budget.OverflowedMeterPasses` | agent-platform/taskgraphcontract/validate.go:287-311 | a meter whose true sum lies between 2^63 and 2^64 passes under every limit |
| `Budget.LedgerTestExact` | agent-platform/runtimecontract/validate.go:778-796 | for valid usages the 64-bit ledger test decides the true sums on all ten meters, and its unguarded addition cannot overflow |
| `Budget.ActiveRuleNeeded` | agent-platform/runtimecontract/validate.go:49-51 | without the rule that active tasks are tasks, an overbooked ledger passes |
| `Utf8.DecodeEncode` | agent-platform/canonical/canonical.go:34-36 | decoding is the inverse of encoding |
| `Utf8.EncodeDecode` | agent-platform/canonical/canonical.go:34-36 | exactly the encodings are valid UTF-8 |
| `Utf8.OrdersAgree` | agent-platform/canonical/canonical.go:183 | ordering strings by UTF-8 bytes and by code points is the same (RFC 3629, section 1) |
| `Utf8.CharOrder` | agent-platform/canonical/canonical.go:183 | a smaller scalar value has the smaller encoding, whatever follows |
| `KeyOrder.SortStrings` | agent-platform/canonical/canonical.go:179-183 | sorting object keys gives their only ascending listing |
| `KeyOrder.AscendingUnique` | agent-platform/canonical/canonical.go:183 | a set of keys has one ascending listing |
| `KeyOrder.SortOrdersAgree` | scripts/validate_agent_contracts.py:81-87 | a listing ascends in the byte order exactly when it ascends by code points |
| `JsonLex.LexString` | agent-platform/canonical/canonical.go:205-238 | a string spelled by the printer reads back as one string token |
| `JsonLex.QuoteReads` | agent-platform/canonical/canonical.go:211-236 | reading the escapes of a string gives the string back |
| `JsonLex.LexInteger` | agent-platform/canonical/canonical.go:163-168 | a canonical integer reads back as one number token |
| `JsonSpelling.StringIff` | agent-platform/canonical/canonical.go:93-100 | a closing quote ends the string v exactly when the text before it spells v: by characters, short escapes, code units in either case, surrogate pairs, and lone surrogates for U+FFFD |
| `JsonSpelling.TextReads` | agent-platform/canonical/canonical.go:93-141 | every text made of spelled tokens and white space is read as these tokens |
| `JsonSpelling.TextIs` | agent-platform/canonical/canonical.go:93-141 | every text that is read without a bad token is made of spelled tokens |
| `CanonicalText.SpellingsCanonicalize` | agent-platform/canonical/canonical.go:33-55 | however the tokens of a profile document are spelled and spaced, the answer is the canonical text of its value |
| `CanonicalText.AcceptedIsSpelled` | agent-platform/canonical/canonical.go:33-55 | nothing else has an answer |
| `JsonDecoder.NextValue` | agent-platform/canonical/canonical.go:93-98 | where a value may come, the decoder returns its first token or an error |
| `JsonDecoder.Decoder.Token` | agent-platform/canonical/canonical.go:94 | the token step of the decoder with its separator states |
| `JsonDoc.ReadIff` | agent-platform/outputcontract/validate.go:225-278 | the shared reader returns a document exactly when the tokens start with it, no object repeats a key and nesting is allowed; it consumes exactly its tokens |
| `JsonDoc.ReadDocSound` | agent-platform/outputcontract/validate.go:225-278 | what the reader returns is what the tokens spell |
| `JsonDoc.ReadDocComplete` | agent-platform/outputcontract/validate.go:225-278 | the reader accepts every permitted document |
| `CanonicalJson.ParseValue` | agent-platform/canonical/canonical.go:93-148 | the recursive parser returns the value of the document it reads and stops behind it |
| `CanonicalJson.ParseMembers` | agent-platform/canonical/canonical.go:102-127 | the object loop fills the map with exactly the members read and refuses a repeated key |
| `CanonicalJson.ParseItems` | agent-platform/canonical/canonical.go:128-142 | the array loop collects exactly the items read |
| `CanonicalJson.AppendValue` | agent-platform/canonical/canonical.go:150-203 | refuses exactly the values outside the profile, otherwise appends the canonical text |
| `CanonicalJson.AppendMembers` | agent-platform/canonical/canonical.go:178-198 | the member loop writes all members in ascending key order |
| `CanonicalJson.AppendString` | agent-platform/canonical/canonical.go:205-238 | appends the quoted and escaped string |
| `CanonicalJson.JSON` | agent-platform/canonical/canonical.go:33-54 | canonicalizes exactly as the parser, the profile and the printer say |
| `CanonicalLaws.RoundTrip` | agent-platform/canonical/canonical.go:33-238 | parsing the printed text of a profile value gives the value back |
| `CanonicalLaws.LexRender` | agent-platform/canonical/canonical.go:150-203 | the printed text of a document reads as exactly its tokens |
| `CanonicalLaws.CanonicalDocOf` | agent-platform/canonical/canonical.go:178-198 | the document the printer writes has the value it prints |
| `CanonicalLaws.PrintInjective` | agent-platform/canonical/canonical.go:150-203 | two profile values with the same text are equal |
| `CanonicalLaws.CanonicalIdempotent` | agent-platform/canonical/canonical.go:33-54 | canonicalizing canonical bytes changes nothing |
| `CanonicalLaws.CanonicalIffSameValue` | agent-platform/canonical/canonical.go:33-54 | two texts canonicalize alike exactly when they have the same value |
| `CanonicalLaws.AcceptedIff` | agent-platform/canonical/canonical.go:33-54 | accepts exactly UTF-8 texts of one duplicate-free document whose numbers are canonical integers |
| `CanonicalLaws.PreimageInjective` | agent-platform/canonical/canonical.go:76-91 | the digest preimage determines the domain and the value |
| `CanonicalPython.DumpsIsPrint` | scripts/validate_agent_contracts.py:81-87 | json.dumps with sorted keys and compact separators prints the Python value of a profile value as the Go printer prints that value |
| `CanonicalPython.SameBytesIff` | scripts/validate_agent_contracts.py:72-87 | on every text the Go canonicalizer accepts, and for every limit on the digits of an integer, reading and dumping it in Python gives the same bytes exactly when no string of it holds a lone surrogate escape and no integer exceeds the limit, and otherwise none |
| `CanonicalPython.LoneSurrogateDiffers` | scripts/validate_agent_contracts.py:81-87 | a text with a lone surrogate escape on which they differ |
| `CanonicalPython.IntegerBytes` | scripts/validate_agent_contracts.py:72-87 | a text that is one integer is its own canonical form for both, except that Python refuses it when it exceeds the limit |
| `CanonicalPython.LongIntegerDiffers` | scripts/validate_agent_contracts.py:72-78 | under every limit there is an integer that the Go canonicalizer keeps and the Python one refuses |
| `CanonicalPython.DumpsKeepsLone` | scripts/validate_agent_contracts.py:81-87 | a value with a lone surrogate in any string or key dumps to a text that cannot be encoded |
| `PythonReader.LoadsAgrees` | scripts/validate_agent_contracts.py:72-78 | where the Go parser reads a profile value json.loads reads one too exactly when no integer exceeds the limit: without lone surrogates the same, otherwise one that holds a lone surrogate |
| `PythonReader.ReadCut` | scripts/validate_agent_contracts.py:72-78 | the limit on digits only makes the reader refuse: under it a token sequence is read as without it, or an integer of it is too long |
| `PythonReader.StringsAgree` | scripts/validate_agent_contracts.py:72-78 | both programs read the same strings, up to lone surrogates |
| `PythonReader.LexAgrees` | scripts/validate_agent_contracts.py:72-78 | the tokens of a text are the same for both, up to lone surrogates |
| `CanonicalPython.EscapesAgree` | scripts/validate_agent_contracts.py:81-87 | both programs escape every character alike |
| `CanonicalPython.KeysAgree` | scripts/validate_agent_contracts.py:81-87 | both programs list the keys of an object in the same order |
| `PythonInt.DecimalIntOf` | scripts/validate_agent_contracts.py:81-87 | the decimal text of a parsed integer is the text it was parsed from |
| `PythonInt.IntOfDecimal` | scripts/validate_agent_contracts.py:81-87 | every integer has one canonical text, which parses back to it |
| `OutputScan.ScanValue` | agent-platform/outputcontract/validate.go:225-278 | the recursive scan consumes exactly one value, or reports the first reason why there is none |
| `OutputScan.ScanMembers` | agent-platform/outputcontract/validate.go:244-265 | the object branch accepts exactly repeat-free members |
| `OutputScan.ScanMember` | agent-platform/outputcontract/validate.go:244-265 | one member: its key, refused when repeated, and its value |
| `OutputScan.ScanItems` | agent-platform/outputcontract/validate.go:266-276 | the array branch accepts exactly its items |
| `OutputScan.Inspect` | agent-platform/outputcontract/validate.go:178-214 | passes exactly the UTF-8 texts that are one well-formed value without repeated keys and with at most 64 open containers |
| `SchemaPlaces.AcceptedByPlaces` | agent-platform/outputcontract/validate.go:284-374 | a schema is accepted exactly when its subschemas lie at no more than 4096 places and each fits by itself: the dialect at the root alone, known keywords, references that start with a hash, at most 32 alternatives in allOf, anyOf and oneOf |
| `SchemaPlaces.PlacesOf` | agent-platform/outputcontract/validate.go:327-373 | the places that the three kinds of keywords lead to are finitely many, and as many as the counter counts when every subschema passes its local tests |
| `SchemaPlaces.AllRightIff` | agent-platform/outputcontract/validate.go:284-374 | a schema and all below it pass their local tests exactly when the subschema at every place fits |
| `SchemaPlaces.HopsAre` | agent-platform/outputcontract/validate.go:327-373 | the visits of a node are the places one keyword away, each once |
| `SchemaPlaces.KeywordsAre` | agent-platform/outputcontract/validate.go:389-412 | the allowed keywords are those that hold a schema, a list of schemas or schemas by name, and the listed plain ones |
| `SchemaPlaces.KeyFitsIff` | agent-platform/outputcontract/validate.go:315-324 | a key has no fault exactly when it is a known keyword and, for a string reference, the text starts with a hash |
| `SchemaPlaces.KeyFaultIs` | agent-platform/outputcontract/validate.go:315-324 | which fault a bad key has: forbidden for the five names and the content family, external for a reference, otherwise unknown |
| `SchemaPolicy.SchemaAcceptedIff` | agent-platform/outputcontract/validate.go:284-374 | a schema is accepted exactly when it has at most 4096 reachable subschemas, the dialect at its root and nowhere else, and every subschema passes its local tests |
| `SchemaPolicy.CheckIff` | agent-platform/outputcontract/validate.go:284-374 | the same for any subschema and any state of the counter |
| `SchemaPolicy.FaultOfLeastKey` | agent-platform/outputcontract/validate.go:309-325 | the fault reported for an object is that of its least faulty key: map order does not matter |
| `SchemaPolicy.Policy.CheckNode` | agent-platform/outputcontract/validate.go:284-374 | the recursive method with its counter computes the specified verdict and counter |
| `SchemaPolicy.CheckKeys` | agent-platform/outputcontract/validate.go:309-325 | the key loop reports the first fault in ascending key order |
| `SchemaPolicy.FollowConcat` | agent-platform/outputcontract/validate.go:327-373 | visiting keyword tables one after the other is visiting their steps in one list |
| `RuntimeStates.TerminalAbsorbs` | agent-platform/runtimecontract/state.go:99-147 | the terminal predicates name exactly the known states without outgoing transitions |
| `RuntimeStates.LogBounded` | agent-platform/runtimecontract/validate.go:583-603 | valid events that follow one another number exactly the generation, at most three for an Attempt and four for a Turn |
| `RuntimeStates.TerminalEndsLog` | agent-platform/runtimecontract/validate.go:592-595 | no valid event follows a terminal state |
| `RuntimeStates.RunLogUnbounded` | agent-platform/runtimecontract/state.go:8-9 | a Run may go through waiting again and again: its log has no bound |
| `RuntimeTables.ChangesAgree` | agent-platform/migrations/0005_ap1_runtime_state.sql:199-240 | the transition table of the database and that of the Go contract are the same |
| `RuntimeTables.FinalIff` | agent-platform/migrations/0005_ap1_runtime_state.sql:242-264 | the final states of the database are the known states that nothing leaves, and those of the Go contract where it names any |
| `RuntimeTables.BeginningsAgree` | agent-platform/migrations/0005_ap1_runtime_state.sql:266-291 | both admit the same initial states |
| `RuntimeLedger.ApplyFunded` | agent-platform/runtimecontract/validate.go:778-796 | an allowed ledger operation keeps consumed plus reserved within the limit and moves the ledger state along the graph |
| `RuntimeLedger.SettleAlwaysFits` | agent-platform/migrations/0007_ap1_model_calls.sql:700-722 | a held reservation can be settled for any usage within it |
| `RuntimeLedger.UpdateAncestry` | agent-platform/migrations/0007_ap1_model_calls.sql:604-618 | all rows of an ancestry are tested before the first is changed |
| `RuntimeLedger.ChainKnown` | agent-platform/migrations/0007_ap1_model_calls.sql:551-566 | the recursive ancestry query finds known ledgers only |
| `RuntimeLedger.AncestryIff` | agent-platform/migrations/0006_ap1_command_leases.sql:589-612 | the ledgers above a Task are exactly those a climb of at most 4097 distinct ledgers reaches from its parent |
| `RuntimeLog.StepLogKept` | agent-platform/migrations/0006_ap1_command_leases.sql:816-870 | whatever a command does, every change follows the transition graph with one event per generation |
| `RuntimeBudget.StepBudgetKept` | agent-platform/migrations/0007_ap1_model_calls.sql:527-783 | after every command each ledger is its baseline plus what the Turns and slots beneath it account for, and is funded |
| `RuntimeBudget.ReserveBalances` | agent-platform/migrations/0007_ap1_model_calls.sql:527-618 | a dispatch adds a held Turn and its reservation to every ancestor |
| `RuntimeBudget.SettleBalances` | agent-platform/migrations/0007_ap1_model_calls.sql:625-783 | a settlement gives the reservation back and charges the usage, in every ancestor |
| `RuntimeBudget.TakeBalances` | agent-platform/migrations/0006_ap1_command_leases.sql:647-718 | a claim takes one active slot in every ancestor |
| `RuntimeBudget.FreeBalances` | agent-platform/migrations/0008_ap1_attempt_terminalization.sql:306-376 | an ending gives one active slot back in every ancestor |
| `RuntimeLaws.LedgerConservation` | audit/repro/ap1_model_call_barrier.go:617-664 | in every reachable state reserved is the baseline plus the reservations of the unresolved Turns beneath, and consumed plus reserved is within the limit |
| `RuntimeLaws.AllFailed` | audit/repro/ap1_model_call_barrier.go:645-664 | when all Turns have failed, reserved is back at the baseline and consumed has grown by exactly what was reserved |
| `RuntimeLaws.DispatchDelta` | audit/repro/ap1_model_call_barrier.go:617-632 | the exact ledger delta of a dispatch |
| `RuntimeLaws.FailedResolutionDelta` | audit/repro/ap1_model_call_barrier.go:645-664 | the exact ledger delta of a failed resolution |
| `RuntimeLaws.DispatchThenFailDelta` | audit/repro/ap1_model_call_barrier.go:645-664 | dispatch and failed resolution together: consumed grows by the reservation, reserved is as before, two generations |
| `RuntimeLaws.FenceRefuses` | audit/repro/ap1_attempt_terminalization_barrier.go:351-359 | a fenced command behind its deadline or the expiry in the row of its Attempt, or with another state generation, lease generation, token or worker than that row, leaves the whole state unchanged |
| `RuntimeLaws.DeadlineRefuses` | agent-platform/migrations/0008_ap1_attempt_terminalization.sql:1278-1292 | commit and fail also stop at the deadlines of Run and Task |
| `RuntimeCommands.StartIff` | agent-platform/migrations/0006_ap1_command_leases.sql:1353-1515 | a start takes effect exactly when all rows run, no deadline has passed and the Attempt is leased under the command's unexpired lease; it changes one cell |
| `RuntimeCommands.DispatchIff` | agent-platform/migrations/0007_ap1_model_calls.sql:892-1280 | a dispatch takes effect exactly when the Attempt executes under the command's lease, has no pending Turn, asks for one call that ends within lease and deadlines, and every ledger above has room on every meter |
| `RuntimeCommands.Dispatches` | agent-platform/migrations/0007_ap1_model_calls.sql:892-1280 | what a dispatch leaves: one Turn that holds the reservation, planned and dispatched, and the reservation in every ledger above |
| `RuntimeCommands.MarkUnknownIff` | agent-platform/migrations/0007_ap1_model_calls.sql:1709-1940 | when a call becomes unknown, which Run and Task deadlines do not prevent, and that nothing else changes |
| `RuntimeCommands.ResolveIff` | agent-platform/migrations/0007_ap1_model_calls.sql:1281-1707 | a resolution takes effect exactly for a dispatched or unknown Turn of the Attempt that holds its reservation, with usage within it, when the ledgers can settle |
| `RuntimeCommands.Resolves` | agent-platform/migrations/0007_ap1_model_calls.sql:1281-1707 | what a resolution leaves: the Turn ended without its reservation, and in every ledger above the reservation freed and the usage spent, meter by meter |
| `RuntimeCommands.CommitIff` | agent-platform/migrations/0008_ap1_attempt_terminalization.sql:526-1109 | when a commit takes effect; the root's only after every other Task of the Run has ended |
| `RuntimeCommands.Commits` | agent-platform/migrations/0008_ap1_attempt_terminalization.sql:526-1109 | every cell, slot and ledger behind a commit |
| `RuntimeCommands.FailIff` | agent-platform/migrations/0008_ap1_attempt_terminalization.sql:1111-1453 | when a failure takes effect, with a retry or for good |
| `RuntimeCommands.Retries` | agent-platform/migrations/0008_ap1_attempt_terminalization.sql:1111-1453 | a granted retry is counted in every ledger above and leaves the Task waiting with its slot |
| `RuntimeCommands.FailsForGood` | agent-platform/migrations/0008_ap1_attempt_terminalization.sql:1111-1453 | otherwise the Task fails, or is dead-lettered when a retry was refused, gives its slot back, and the last Task takes its Run along |
| `RuntimeCommands.FirstClaimIff` | agent-platform/migrations/0006_ap1_command_leases.sql:872-1351 | when a Task without an active Attempt can be claimed |
| `RuntimeCommands.FirstClaims` | agent-platform/migrations/0006_ap1_command_leases.sql:872-1351 | what such a claim leaves; its lease ends after the seconds asked for, or with its Run or its Task, whichever is first |
| `RuntimeCommands.CallClaimIff` | agent-platform/migrations/0007_ap1_model_calls.sql:1942-2292 | when an Attempt whose lease ran out during a call is taken up, and that its call becomes unknown |
| `RuntimeCommands.UnknownClaimIff` | agent-platform/migrations/0006_ap1_command_leases.sql:1063-1351 | when an expired Attempt with an unknown call is taken up; one with neither never is |
| `RuntimeCommands.UnknownClaims` | agent-platform/migrations/0006_ap1_command_leases.sql:872-1351 | what that leaves: a renewed lease, Task and Run running |
| `RuntimeLaws.OneEnding` | audit/repro/ap1_attempt_terminalization_barrier.go:235-241 | over any run at most one commit or fail of an Attempt takes effect |
| `RuntimeLaws.NoEndingAfterTerminal` | audit/repro/ap1_attempt_terminalization_barrier.go:235-241 | behind a terminal state an Attempt never changes again |
| `RuntimeLaws.AttemptCell` | agent-platform/migrations/0008_ap1_attempt_terminalization.sql:526-1110 | only the start and end commands of an Attempt change its state, and an end leaves it terminal |
| `RuntimeLaws.EndedHoldsNothing` | agent-platform/migrations/0008_ap1_attempt_terminalization.sql:660-675 | when an Attempt has ended none of its Turns holds a reservation |
| `RuntimeLaws.LogsBounded` | agent-platform/runtimecontract/validate.go:583-603 | in every reachable state an Attempt has at most three events and a Turn at most four, one per generation |
| `RuntimeLaws.CommitDelta` | audit/repro/ap1_attempt_terminalization_barrier.go:246-264 | what a commit changes: generations of Attempt, Task, Session and Run, the slot, and the number of events |
| `RuntimeLaws.FailDelta` | audit/repro/ap1_attempt_terminalization_barrier.go:246-271 | what a failure without retry changes |
| `RuntimeLaws.CommitLedgerDelta` | audit/repro/ap1_attempt_terminalization_barrier.go:246-256 | a commit gives one active slot back to every ancestor and changes no other ledger |
| `RuntimeLaws.FailLedgerDelta` | audit/repro/ap1_attempt_terminalization_barrier.go:246-256 | a failure without retry gives one active slot back to every ancestor and changes no other ledger |
| `RuntimeLaws.OneClaim` | audit/repro/ap1_command_barrier.go:220-223 | of any number of claims for one generation at most one takes effect: one new Attempt, the slot taken, the Task running |
| `RuntimeLaws.SettlementNeverRefused` | agent-platform/migrations/0007_ap1_model_calls.sql:1460-1474 | on reachable states no budget test refuses the settlement of a held reservation |
| `RuntimeLaws.SeedKept` | agent-platform/runtimecontract/state.go:200-219 | a seeded store, with a create event for each record, no Attempts, Turns or slots, and any funded baseline, has every property that runs keep |
| `BlobCopy.CopyBounded` | agent-platform/blob/local.go:369-400 | however the source splits its data: success means the destination got the entire source and it fits; every failure leaves a prefix that fits; with a faithful destination the exact outcome and reason |
| `BlobCopy.SplitIrrelevant` | agent-platform/blob/local.go:369-400 | joining two successive reads does not change what the whole source is |
| `BlobStore.LocalStore.Stage` | agent-platform/blob/local.go:94-164 | success stores exactly the granted input; in a calm environment the answer for a new name is exact, with the first reason of every refusal; a failed call leaves every name as it was, except its own when the file was created and could not be removed; under a name that exists the answer depends on the bytes there |
| `BlobStore.LocalStore.StageNew` | agent-platform/blob/local.go:107-163 | a new file under a new name; unless every later step succeeds the name is removed, or stays with a prefix of the input exactly when the removal fails |
| `BlobStore.LocalStore.StageAgain` | agent-platform/blob/local.go:108-122 | an existing name succeeds exactly for an exact grant whose bytes are there, with the first reason otherwise |
| `BlobStore.RetryOverLeftover` | agent-platform/blob/local.go:108-136 | what staging again over a leftover answers |
| `BlobStore.LocalStore.Materialize` | agent-platform/blob/local.go:169-213 | without cancellation the exact answer with its reason, and exactly when a name is added; links the staged bytes under their digest, read-only, without touching other names, and can be repeated |
| `BlobStore.LocalStore.OpenVerified` | agent-platform/blob/local.go:215-254 | without cancellation succeeds exactly for an authorized request within its window, before and after reading, for a name that is there with that size and hash; the reason of each refusal; the bytes are those staged under the digest, when hashes do not collide and any were |
| `BlobStore.LocalStore.Verify` | agent-platform/blob/local.go:350-367 | passes exactly bytes of the stated size and digest |
| `BlobStore.LocalStore.DeleteStaged` | agent-platform/blob/local.go:260-273 | succeeds exactly for an authorized claim in time whose name is gone or can be removed; the reasons otherwise; removes at most the staged name and no file behind another name |
| `BlobStore.LocalStore.DeleteContent` | agent-platform/blob/local.go:275-303 | without cancellation succeeds exactly for an authorized claim in time on a name with that size that can be read and removed; the reasons otherwise |
| `BlobStore.Linked` | agent-platform/blob/local.go:200-206 | a second name for a staged file keeps every name sound, although the file mode is shared |
| `Governance.Resolve` | agent-platform/governance/contracts.go:447-515 | the decision equals the specified one, its sources sorted by record type and ID, and allows exactly when everything in the tables of modes, ceilings and switches is open |
| `Governance.PassesIff` | agent-platform/governance/contracts.go:476-596 | by literal tables: an effect may pass on its route exactly when head mode and deployment ceiling each admit it, the effect ceiling covers it, and its head and every requested or mandatory switch are coherent and enabled |
| `Governance.ReportedMode` | agent-platform/governance/contracts.go:463-596 | the reported mode is the lower one of head and deployment ceiling; a head outside the table is reported as it is |
| `Governance.SourceBeforeIff` | agent-platform/governance/contracts.go:508-513 | sources are ordered by the name of their record type and then by ID |
| `Governance.RequiredSwitches` | agent-platform/governance/contracts.go:543-573 | returns the ascending repeat-free listing of requested and mandatory switches, or fails on an unknown one |
| `Governance.AllowedIff` | agent-platform/governance/contracts.go:447-515 | allow means exactly: fresh snapshot, valid ceilings, mode and route, effect head and every needed switch open |
| `Governance.ResolveMonotone` | agent-platform/governance/contracts.go:447-515 | lowering ceilings or mode, halting or removing heads, or asking for more switches never turns a denial into an allow, except exactly when the effect ceiling was unknown |
| `Governance.UnknownCeilingDenies` | agent-platform/governance/contracts.go:462-465 | the exception happens for every allow |
| `Governance.RequestOrderIrrelevant` | agent-platform/governance/contracts.go:543-573 | permuting or repeating the requested switches changes nothing of the decision |
| `Governance.SortSources` | agent-platform/governance/contracts.go:508-513 | lists the sources by record type and record ID |
| `Governance.AnswerUnique` | agent-platform/governance/contracts.go:508-513 | the answer is determined when its sources differ in type or ID |
| `Governance.UnsetModeDenies` | agent-platform/governance/contracts.go:598-613 | a head with an unset mode allows nothing but is reported as unset, not disabled |
| `Governance.MisfiledHeadAccepted` | agent-platform/governance/contracts.go:476-503 | a valid head for another switch, filed under the needed one, is accepted |
| `Governance.AllowsRestOnOwnIff` | agent-platform/governance/contracts.go:476-540 | for every snapshot: every allow rests on heads of its own effect and switches exactly when none is allowed or every open gate is filed under its own subject |
| `WakeDeduper.Deduper.Accept` | agent-runtime/cmd/runtime/wake.go:48-67 | accepts a pair exactly when its joined key is not among the last 4096 accepted; the map holds exactly those |
| `WakeDeduper.Accepted` | agent-runtime/cmd/runtime/wake.go:54-66 | evicting the oldest entry keeps the map equal to the last 4096 acceptances, and a key returns only behind 4096 others |
| `WakeDeduper.Oldest` | agent-runtime/cmd/runtime/wake.go:55-62 | the scan over the map finds an entry with the least time |
| `WakeDeduper.KeysTellPairs` | agent-runtime/cmd/runtime/wake.go:51 | different pairs have different map keys |
| `FreshnessClock.ExpectedAvailableAt` | agent-platform/cmd/cortex-input/operations.go:197-226 | the stepping code computes the specified instant, which never lies ahead of the clock |
| `FreshnessClock.ExpectedMeaning` | agent-platform/cmd/cortex-input/operations.go:197-226 | from 9:00 to 16:00 on a weekday the expectation is two minutes ago, otherwise the latest weekday close, in nanoseconds |
| `FreshnessClock.ExpectedMonotone` | agent-platform/cmd/cortex-input/operations.go:197-226 | as the clock advances the expectation never goes back |
| `FreshnessClock.NormalizeHealth` | agent-platform/cmd/cortex-input/operations.go:115-193 | accepts exactly, field by field, a sound declaration with three readable series of distinct categories; the answer reports each by category whatever their order, with freshness and lag, and is healthy exactly when the collector is configured and every series is available and fresh |
| `FreshnessClock.ReadSeries` | agent-platform/cmd/cortex-input/operations.go:143-188 | the loop accepts exactly valid series of distinct categories |
| `FreshnessClock.FreshEarlier` | agent-platform/cmd/cortex-input/operations.go:180-186 | what is fresh later was fresh before, and lag only grows |

## Left out

* Identifier, digest and media-type formats of Blob references are one verdict (`wellFormed`) per reference. The
  tool table is a parameter; all that the proofs use of it is the role table, except that the compiler's totality
  assumes tool names to fit the name pattern.
* SHA-256 is an uninterpreted function of the Blob store, and the plan digest a parameter that yields valid digests;
  the canonical digest is treated up to its preimage.
* The JSON Schema library, the reading of request bodies, and the size limit on documents. Very deep nesting in the
  Go decoder is unbounded here.
* What the Python canonicalizer does with texts the Go one refuses, and the nesting limit of the Python reader, which
  raises `RecursionError` on very deep texts.
* Decoding of proposals from JSON and the output schema sent to the model.
* In the runtime protocol the checks that look outside the records (policy heads, dependencies, Blob references,
  identity registries, output contracts) are one verdict per command, `admitted`. Each command reads the clock once,
  at its final fence; the earlier readings of the source can only deny sooner and change nothing. Heartbeats,
  cancellation, recovery and the admission of child Tasks are not commands of the model, and the population of Runs,
  Tasks and ledgers is fixed. The publication-intent and lease events are not part of the log, nor are budget
  events, whose generations count ledger updates and not events.
* Reason codes of denied commands, except in the resolver, the schema policy and the token scan.
* In the execution of task graphs an attempt with its retries is one running phase, and every terminal state other
  than succeeded is one state. A call of the reconciler is one step, and its 32 unresolved joins are those of one
  graph: in the database they are shared by all graphs, so the joins of one graph can also keep those of another out.
  The slots of a run are the parallelism of its plan; in the database a claim asks the ledgers of the Task and its
  ancestors, whose limits may be higher.
  Model calls spent by earlier attempts, which can leave a Specialist with a tool fewer than the two that its discovery
  asks for, preparation of sessions, and the deadlines of tasks and of discovery.
* Rounds of planning behind a Desk's answer, cancellation, and the recovery of expired, revoked or abandoned Runs: a
  run of the model that waits does so until one of these ends it.
* The file modes and directories of the Blob store, except that a link shares the mode of its file; each method is
  one step, as each stage ID has one writer.
* Generations of governance references apart from their digests; ties of record type and ID in the sorted sources.
* Concurrent clocks in the deduper: time strictly increases between acceptances. Daylight-saving shifts and
  holidays in the market clock, and text forms of times.
* HTTP handlers, web clients, secret loading and command wiring.
