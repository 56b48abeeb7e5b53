// Compiling a proposal into an admission command
// (agent-platform/taskgraphplanner/planner.go).
module TaskGraphPlanner {
  import opened Collections
  import opened Text
  import opened Contracts
  import opened Budget
  import opened Capability
  import opened TaskGraphDepth
  import opened TaskGraphEdges
  import opened TaskGraphStar
  import opened TaskGraphPlan
  import Check = TaskGraphCheck
  import Progress = TaskGraphProgress
  import Run = TaskGraphRun
  import Stops = TaskGraphStops
  import P = TaskGraphProposal

  datatype Context = Context(runId: string, parentTaskId: string, expectedRunStateGeneration: int,
                             expectedParentStateGeneration: int, sourceResult: RecordRef, runtimePolicy: RevisionRef,
                             specialistContract: RevisionRef, answerContract: RevisionRef, actor: AuditActor,
                             round: int, maxRounds: int, deadlineAt: Time)

  datatype Command = Command(schemaRevision: nat, envelope: CommandEnvelope, expectedRunStateGeneration: int,
                             expectedParentStateGeneration: int, plan: Plan)

  predicate ContextValid(c: Context) {
    && c.runId != "" && c.parentTaskId != ""
    && c.expectedRunStateGeneration > 0 && c.expectedParentStateGeneration > 0
    && ControlRecord(c.sourceResult, "model_call_result") && ControlRevision(c.runtimePolicy, "runtime_policy")
    && ControlRevision(c.specialistContract, "output_contract_revision")
    && ControlRevision(c.answerContract, "output_contract_revision")
    && c.actor.ControlWorkload()
    && 1 <= c.round <= c.maxRounds <= MAX_ROUNDS && ValidUTC(c.deadlineAt)
  }

  function SpecialistLimit(withTool: bool): BudgetLimit {
    var limit := ZERO_LIMIT.(maxModelCalls := 1, maxInputTokens := 64000, maxOutputTokens := 3000,
                             maxWallTime := 90000, maxIdleTime := 30000, maxTasks := 1, maxParallelism := 1);
    if withTool then
      limit.(maxModelCalls := 3, maxInputTokens := 96000, maxOutputTokens := 4500, maxToolCalls := 1,
             maxWallTime := 180000)
    else limit
  }

  function DecisionDeskLimit(): BudgetLimit {
    ZERO_LIMIT.(maxModelCalls := 1, maxInputTokens := 96000, maxOutputTokens := 8000, maxWallTime := 120000,
                maxIdleTime := 30000, maxTasks := 1, maxParallelism := 1)
  }

  /** fmt "%02d" */
  function TwoDigits(n: nat): string
    requires n < 100
  {
    [('0' as int + n / 10) as char, ('0' as int + n % 10) as char]
  }

  function GraphId(c: Context): string {
    "task-graph-" + c.sourceResult.recordId
  }

  function DeskId(c: Context): string {
    GraphId(c) + "-decision-desk"
  }

  function BranchId(c: Context, i: nat): string
    requires i < 99
  {
    GraphId(c) + ("-branch-" + TwoDigits(i + 1))
  }

  function BranchNode(catalog: Catalog, c: Context, b: P.Branch, i: nat, objective: BlobRef): Node
    requires i < 99 && P.BranchValid(catalog, b)
  {
    var role := LookupAgentRole(b.roleId).value;
    var grants := if b.toolId == "" then [] else
      var tool := LookupTool(catalog, b.toolId).value;
      [ToolGrant(tool.id, tool.revision, tool.effect)];
    Node(BranchId(c, i), role.id, role.revision, 1, objective, [], role.outputContract, c.specialistContract,
         grants, SpecialistLimit(b.toolId != ""), c.deadlineAt)
  }

  function DeskNode(c: Context, objective: BlobRef): Node {
    Node(DeskId(c), DECISION_DESK, 1, 2, objective, [], "answer_v1", c.answerContract, [], DecisionDeskLimit(),
         c.deadlineAt)
  }

  function JoinFor(c: Context, mode: P.JoinMode, upstream: seq<string>): Join {
    if mode.AllRequired? then
      Join(GraphId(c) + "-join", DeskId(c), upstream, AllRequired, |upstream|, FailGraph, c.deadlineAt)
    else
      Join(GraphId(c) + "-join", DeskId(c), upstream, MinimumSucceeded, 1, ContinueIfThresholdMet, c.deadlineAt)
  }

  function PlanWith(c: Context, createdAt: Time, authorized: BudgetLimit, nodes: seq<Node>,
                    edges: seq<Edge<string>>, join: Join): Plan {
    Plan(1, GraphId(c), c.runId, c.parentTaskId, c.sourceResult, c.runtimePolicy, c.round, c.maxRounds, authorized,
         nodes, edges, [join], c.actor, createdAt, c.deadlineAt)
  }

  function CommandFor(c: Context, plan: Plan, planDigest: string): Command {
    Command(1, CommandEnvelope(1, "admit-" + plan.graphId, c.actor, ControlApi, "admit_task_graph", plan.graphId,
                               planDigest, c.parentTaskId, c.runId, c.deadlineAt),
            c.expectedRunStateGeneration, c.expectedParentStateGeneration, plan)
  }

  // ----- the command checker -----

  predicate EnvelopeFits(cmd: Command) {
    && cmd.schemaRevision == 1 && cmd.envelope.Valid() && cmd.envelope.commandType == "admit_task_graph"
    && cmd.envelope.audience == ControlApi && cmd.envelope.actor.kind == Workload
    && cmd.envelope.actor.audience == ControlApi
    && cmd.expectedRunStateGeneration >= 1 && cmd.expectedParentStateGeneration >= 1
    && cmd.envelope.correlationId == cmd.plan.runId && cmd.envelope.causationId == cmd.plan.parentTaskId
    && cmd.envelope.actor == cmd.plan.createdBy && cmd.envelope.deadline <= cmd.plan.deadlineAt
  }

  /** AdmitTaskGraphCommand.Validate. The plan digest is a parameter. */
  ghost predicate CommandValid(catalog: Catalog, digest: Plan -> string, cmd: Command) {
    EnvelopeFits(cmd) && PlanValid(catalog, cmd.plan) && cmd.envelope.requestDigest == digest(cmd.plan)
  }

  method ValidateCommand(catalog: Catalog, digest: Plan -> string, cmd: Command) returns (ok: bool)
    ensures ok <==> CommandValid(catalog, digest, cmd)
  {
    if !EnvelopeFits(cmd) {
      return false;
    }
    ok := Check.Validate(catalog, cmd.plan);
    ok := ok && cmd.envelope.requestDigest == digest(cmd.plan);
  }

  // ----- what Build puts into the plan -----

  ghost function BranchNodes(catalog: Catalog, c: Context, branches: seq<P.Branch>, objectives: seq<BlobRef>)
      : (nodes: seq<Node>)
    requires |branches| < 99 && |objectives| >= |branches|
    requires forall i {:trigger branches[i]} :: 0 <= i < |branches| ==> P.BranchValid(catalog, branches[i])
    ensures |nodes| == |branches|
    ensures forall i {:trigger nodes[i]} :: 0 <= i < |branches| ==>
      nodes[i] == BranchNode(catalog, c, branches[i], i, objectives[i])
  {
    seq(|branches|, i requires 0 <= i < |branches| => BranchNode(catalog, c, branches[i], i, objectives[i]))
  }

  ghost function BranchIds(c: Context, n: nat): (ids: seq<string>)
    requires n < 99
    ensures |ids| == n && forall i {:trigger ids[i]} :: 0 <= i < n ==> ids[i] == BranchId(c, i)
  {
    seq(n, i requires 0 <= i < n => BranchId(c, i))
  }

  ghost function PlannedNodes(catalog: Catalog, v: P.Proposal, c: Context, objectives: seq<BlobRef>): seq<Node>
    requires P.ProposalValid(catalog, v) && |objectives| == |v.branches| + 1
  {
    BranchNodes(catalog, c, v.branches, objectives) + [DeskNode(c, objectives[|v.branches|])]
  }

  ghost function PlanOf(catalog: Catalog, v: P.Proposal, c: Context, objectives: seq<BlobRef>): Plan
    requires P.ProposalValid(catalog, v) && |objectives| == |v.branches| + 1
  {
    PlanAt(catalog, v, c, objectives, Latest(objectives))
  }

  ghost function PlanAt(catalog: Catalog, v: P.Proposal, c: Context, objectives: seq<BlobRef>, createdAt: Time): Plan
    requires P.ProposalValid(catalog, v) && |objectives| == |v.branches| + 1
  {
    var n := |v.branches|;
    var nodes := PlannedNodes(catalog, v, c, objectives);
    PlanWith(c, createdAt,
             Total(Limits(nodes)).(maxDepth := 2, maxFanout := 1, maxParallelism := n as int64),
             nodes, Star(BranchIds(c, n), DeskId(c)), JoinFor(c, v.joinMode, BranchIds(c, n)))
  }

  /** The latest commit time, or the zero time. */
  function Latest(objectives: seq<BlobRef>): (t: Time)
    ensures t >= 0 && forall o :: o in objectives ==> o.committedAt <= t
    ensures t == 0 || exists o :: o in objectives && o.committedAt == t
  {
    if objectives == [] then 0
    else
      var rest, last := Latest(objectives[..|objectives| - 1]), objectives[|objectives| - 1];
      assert objectives == objectives[..|objectives| - 1] + [last];
      if last.committedAt > rest then last.committedAt else rest
  }

  ghost predicate InputsValid(catalog: Catalog, v: P.Proposal, c: Context, objectives: seq<BlobRef>) {
    && P.ProposalValid(catalog, v) && ContextValid(c) && |objectives| == |v.branches| + 1
    && (forall o :: o in objectives ==> ObjectiveBlob(o))
    && Latest(objectives) != 0 && Latest(objectives) < c.deadlineAt
  }

  // ----- identifiers -----

  /** What Build needs of its context and never tests: two identifiers that are
      used as they are, and room for the longest suffix behind the record ID. */
  predicate IdsFit(c: Context) {
    ValidID(c.runId) && ValidID(c.parentTaskId) && ByteLength(c.sourceResult.recordId) <= 175
  }

  predicate PlainText(s: string) {
    forall i :: 0 <= i < |s| ==> '!' <= s[i] <= '~'
  }

  lemma {:induction false} PlainLength(s: string)
    requires PlainText(s)
    ensures ByteLength(s) == |s| && NoSpaceOrControl(s)
  {
    AsciiLength(s);
  }

  predicate Named(c: Context) {
    ValidID(c.sourceResult.recordId)
  }

  lemma {:induction false} GraphIdPlain(c: Context)
    requires Named(c)
    ensures NoSpaceOrControl(GraphId(c)) && ByteLength(GraphId(c)) == 11 + ByteLength(c.sourceResult.recordId)
  {
    PrefixPlain();
    ConcatPlain("task-graph-", c.sourceResult.recordId);
  }

  lemma {:induction false} PrefixPlain()
    ensures NoSpaceOrControl("task-graph-") && ByteLength("task-graph-") == 11
  {
    PlainLength("task-graph-");
  }

  lemma {:induction false} ConcatPlain(a: string, b: string)
    requires NoSpaceOrControl(a) && NoSpaceOrControl(b)
    ensures NoSpaceOrControl(a + b) && ByteLength(a + b) == ByteLength(a) + ByteLength(b)
  {
    ByteLengthConcat(a, b);
  }

  lemma {:induction false} SuffixedId(c: Context, suffix: string)
    requires Named(c) && PlainText(suffix)
    ensures ValidID(GraphId(c) + suffix) <==> ByteLength(c.sourceResult.recordId) + 11 + |suffix| <= 200
  {
    GraphIdPlain(c);
    PlainLength(suffix);
    JoinedID(GraphId(c), suffix);
  }

  lemma {:induction false} CommandIdFits(c: Context)
    requires Named(c) && IdsFit(c)
    ensures ValidID("admit-" + GraphId(c)) && ValidID(GraphId(c))
  {
    GraphIdPlain(c);
    PlainLength("admit-");
    JoinedID("admit-", GraphId(c));
    SuffixedId(c, "");
    assert GraphId(c) + "" == GraphId(c);
  }

  lemma {:induction false} BranchIdFacts(c: Context, i: nat)
    requires Named(c) && i < 99
    ensures BranchId(c, i) != DeskId(c)
    ensures ValidID(BranchId(c, i)) <==> ByteLength(c.sourceResult.recordId) <= 179
  {
    assert |BranchId(c, i)| == |GraphId(c)| + 10 && |DeskId(c)| == |GraphId(c)| + 14;
    SuffixedId(c, "-branch-" + TwoDigits(i + 1));
  }

  lemma {:induction false} DeskAndJoinIds(c: Context)
    requires Named(c)
    ensures ValidID(DeskId(c)) <==> ByteLength(c.sourceResult.recordId) <= 175
    ensures ValidID(GraphId(c) + "-join") <==> ByteLength(c.sourceResult.recordId) <= 184
  {
    SuffixedId(c, "-decision-desk");
    SuffixedId(c, "-join");
  }

  /** The node IDs are distinct. */
  lemma {:induction false} NodeIds(c: Context, n: nat)
    requires Named(c) && n < 99
    ensures Distinct(BranchIds(c, n)) && DeskId(c) !in BranchIds(c, n)
  {
    var ids := BranchIds(c, n);
    forall i, j | 0 <= i < j < n
      ensures ids[i] != ids[j]
    {
      BranchIdsDiffer(c, i, j);
    }
    DistinctIfApart(ids);
    forall i | 0 <= i < n
      ensures ids[i] != DeskId(c)
    {
      BranchIdFacts(c, i);
    }
  }

  lemma {:induction false} BranchIdsDiffer(c: Context, i: nat, j: nat)
    requires i < j < 99
    ensures BranchId(c, i) != BranchId(c, j)
  {
    var n := |GraphId(c)|;
    assert BranchId(c, i)[n + 8] == TwoDigits(i + 1)[0] && BranchId(c, j)[n + 8] == TwoDigits(j + 1)[0];
    assert BranchId(c, i)[n + 9] == TwoDigits(i + 1)[1] && BranchId(c, j)[n + 9] == TwoDigits(j + 1)[1];
  }

  // ----- the budget -----

  lemma {:induction false} TotalCeilings(limits: seq<BudgetLimit>)
    ensures var t := Total(limits); t.maxDepth == 0 && t.maxFanout == 0 && t.maxParallelism == 0
  {
    if limits != [] {
      TotalCeilings(limits[..|limits| - 1]);
    }
  }

  lemma {:induction false} OneTaskEach(limits: seq<BudgetLimit>)
    requires forall i :: 0 <= i < |limits| ==> limits[i].maxTasks == 1
    ensures TrueSum(limits, Tasks) == |limits|
  {
    if limits != [] {
      OneTaskEach(limits[..|limits| - 1]);
    }
  }

  predicate PlannedLimit(limit: BudgetLimit) {
    limit == SpecialistLimit(false) || limit == SpecialistLimit(true) || limit == DecisionDeskLimit()
  }

  lemma {:induction false} PlannedLimitSmall(limit: BudgetLimit)
    requires PlannedLimit(limit)
    ensures limit.Valid() && limit.maxTasks == 1
    ensures forall m: Meter :: (limit.Of(m) as int) < 0x200_0000_0000_0000
  {
  }

  lemma {:induction false} PlannedLimitsFit(limits: seq<BudgetLimit>)
    requires |limits| <= 64 && forall i {:trigger limits[i]} :: 0 <= i < |limits| ==> PlannedLimit(limits[i])
    ensures SumsFit(limits) && TrueSum(limits, Tasks) == |limits|
    ensures forall i {:trigger limits[i]} :: 0 <= i < |limits| ==> limits[i].Valid()
  {
    forall i {:trigger limits[i]} | 0 <= i < |limits|
      ensures limits[i].Valid() && limits[i].maxTasks == 1
      ensures forall m: Meter :: (limits[i].Of(m) as int) < 0x200_0000_0000_0000
    {
      PlannedLimitSmall(limits[i]);
    }
    SmallFieldsFit(limits);
    OneTaskEach(limits);
  }

  lemma {:induction false} PlannedLimitsSum(limits: seq<BudgetLimit>)
    requires |limits| <= 64 && forall i {:trigger limits[i]} :: 0 <= i < |limits| ==> PlannedLimit(limits[i])
    ensures Total(limits).Valid() && Total(limits).maxTasks as int == |limits|
    ensures forall m: Meter {:trigger TrueSum(limits, m)} {:trigger Total(limits).Of(m)} ::
      Total(limits).Of(m) as int == TrueSum(limits, m)
  {
    PlannedLimitsFit(limits);
    forall m: Meter {:trigger TrueSum(limits, m)} {:trigger Total(limits).Of(m)}
      ensures 0 <= Total(limits).Of(m) as int == TrueSum(limits, m)
    {
      ExactMeter(limits, m);
    }
    TotalCeilings(limits);
    AllMeters(Total(limits));
    assert Total(limits).Of(Tasks) as int == |limits|;
  }

  /** The authorized limit is the exact sum of the node limits on every summed
      resource, and a valid limit. */
  lemma {:induction false} AuthorizedIsExactSum(catalog: Catalog, v: P.Proposal, c: Context, objectives: seq<BlobRef>)
    requires P.ProposalValid(catalog, v) && |objectives| == |v.branches| + 1
    ensures var plan := PlanOf(catalog, v, c, objectives);
      && plan.authorizedLimit.Valid() && plan.authorizedLimit.maxTasks as int == |plan.nodes|
      && (forall m: Meter {:trigger TrueSum(Limits(plan.nodes), m)} ::
            plan.authorizedLimit.Of(m) as int == TrueSum(Limits(plan.nodes), m))
  {
    var plan := PlanOf(catalog, v, c, objectives);
    var limits := Limits(plan.nodes);
    forall i {:trigger limits[i]} | 0 <= i < |limits|
      ensures PlannedLimit(limits[i])
    {
      assert limits[i] == plan.nodes[i].limit;
    }
    PlannedLimitsSum(limits);
    forall m: Meter {:trigger TrueSum(limits, m)}
      ensures plan.authorizedLimit.Of(m) as int == TrueSum(limits, m)
    {
      SameMeters(Total(limits), plan.authorizedLimit, m);
    }
  }

  lemma {:induction false} SameMeters(a: BudgetLimit, b: BudgetLimit, m: Meter)
    requires b == a.(maxDepth := b.maxDepth, maxFanout := b.maxFanout, maxParallelism := b.maxParallelism)
    ensures a.Of(m) == b.Of(m)
  {
  }

  lemma {:induction false} AllMeters(limit: BudgetLimit)
    requires forall m: Meter :: 0 <= limit.Of(m)
    requires 0 <= limit.maxDepth && 0 <= limit.maxFanout && 0 <= limit.maxParallelism
    ensures limit.Valid()
  {
    assert limit.Of(ModelCalls) >= 0 && limit.Of(InputTokens) >= 0 && limit.Of(OutputTokens) >= 0;
    assert limit.Of(ToolCalls) >= 0 && limit.Of(ExternalCost) >= 0 && limit.Of(WallTime) >= 0;
    assert limit.Of(IdleTime) >= 0 && limit.Of(Tasks) >= 0;
    assert limit.Of(InvalidOutputRetries) >= 0 && limit.Of(InfrastructureRetries) >= 0;
  }

  // ----- the compiler meets the checker -----

  /** Tool names of the installed table fit the name pattern. */
  predicate NamedTools(catalog: Catalog) {
    forall tool :: tool in catalog.tools ==> ValidName(tool.id)
  }

  lemma {:induction false} BranchNodeValid(catalog: Catalog, c: Context, b: P.Branch, i: nat, objective: BlobRef,
                                           createdAt: Time)
    requires NamedTools(catalog) && ContextValid(c) && P.BranchValid(catalog, b) && i < 99
    requires ValidID(BranchId(c, i)) && ObjectiveBlob(objective) && objective.committedAt <= createdAt < c.deadlineAt
    ensures NodeValid(catalog, BranchNode(catalog, c, b, i, objective), createdAt, c.deadlineAt)
  {
    var node := BranchNode(catalog, c, b, i, objective);
    RoleTable(b.roleId);
    FoundRole(AGENT_ROLES, b.roleId);
    assert ToolAllowance(node) == Some(1);
    BranchGrantsValid(catalog, c, b, i, objective);
    assert LimitValid(node.limit) && RefsValid(node.inputRefs);
    RoleNamesValid(b.roleId);
  }

  lemma {:induction false} RoleNamesValid(id: string)
    requires RoleName(id)
    ensures ValidName(id) && ValidName("specialist_memo_v1") && id != DECISION_DESK
  {
    SpecialistNameValid(id);
    assert ValidName("specialist_memo_v1");
    assert id[0] != 'd' || id == "discovery_scout";
    assert DECISION_DESK[1] == 'e';
  }

  lemma {:induction false} SpecialistNameValid(id: string)
    requires RoleName(id)
    ensures ValidName(id)
  {
    if id == "market_scout" {
      assert ValidName("market_scout");
    } else if id == "fundamental_scout" {
      assert ValidName("fundamental_scout");
    } else if id == "options_scout" {
      assert ValidName("options_scout");
    } else if id == "position_manager" {
      assert ValidName("position_manager");
    } else if id == "catalyst_scout" {
      assert ValidName("catalyst_scout");
    } else {
      assert ValidName("discovery_scout");
    }
  }

  lemma {:induction false} BranchGrantsValid(catalog: Catalog, c: Context, b: P.Branch, i: nat, objective: BlobRef)
    requires NamedTools(catalog) && P.BranchValid(catalog, b) && i < 99
    ensures var grants := BranchNode(catalog, c, b, i, objective).toolGrants;
            |grants| == (if b.toolId == "" then 0 else 1) && GrantsValid(catalog, grants, b.roleId, 1)
  {
    if b.toolId != "" {
      var tool := LookupTool(catalog, b.toolId).value;
      assert GrantValid(catalog, ToolGrant(tool.id, tool.revision, tool.effect), b.roleId, 1);
    }
  }

  lemma {:induction false} FoundRole(roles: seq<Role>, id: string)
    ensures FindRole(roles, id).Some? ==> FindRole(roles, id).value.id == id
  {
    if roles != [] {
      FoundRole(roles[1..], id);
    }
  }

  lemma {:induction false} DeskNodeValid(catalog: Catalog, c: Context, objective: BlobRef, createdAt: Time)
    requires ContextValid(c) && ValidID(DeskId(c))
    requires ObjectiveBlob(objective) && objective.committedAt <= createdAt < c.deadlineAt
    ensures NodeValid(catalog, DeskNode(c, objective), createdAt, c.deadlineAt)
  {
  }

  lemma {:induction false} PlannedTasks(catalog: Catalog, v: P.Proposal, c: Context, objectives: seq<BlobRef>)
    requires P.ProposalValid(catalog, v) && |objectives| == |v.branches| + 1
    ensures var plan := PlanOf(catalog, v, c, objectives); var ids := BranchIds(c, |v.branches|);
      TaskIds(plan.nodes) == ids + [DeskId(c)] && TaskSet(plan) == Elements(ids) + {DeskId(c)}
  {
    var plan, ids := PlanOf(catalog, v, c, objectives), BranchIds(c, |v.branches|);
    assert TaskIds(plan.nodes) == ids + [DeskId(c)];
    ElementsSnoc(ids, DeskId(c));
  }

  lemma {:induction false} PlannedNodeAccepted(catalog: Catalog, v: P.Proposal, c: Context, objectives: seq<BlobRef>,
                                               i: nat)
    requires NamedTools(catalog) && InputsValid(catalog, v, c, objectives) && IdsFit(c) && i <= |v.branches|
    ensures var plan := PlanOf(catalog, v, c, objectives); NodeAccepted(catalog, plan, plan.nodes[i])
  {
    assert objectives[i] in objectives;
    if i < |v.branches| {
      BranchIdFacts(c, i);
      BranchNodeValid(catalog, c, v.branches[i], i, objectives[i], Latest(objectives));
    } else {
      DeskAndJoinIds(c);
      DeskNodeValid(catalog, c, objectives[i], Latest(objectives));
    }
  }

  lemma {:induction false} PlannedNodesAccepted(catalog: Catalog, v: P.Proposal, c: Context, objectives: seq<BlobRef>,
                                                node: Node)
    requires NamedTools(catalog) && InputsValid(catalog, v, c, objectives) && IdsFit(c)
    requires node in PlanOf(catalog, v, c, objectives).nodes
    ensures NodeAccepted(catalog, PlanOf(catalog, v, c, objectives), node)
  {
    var plan := PlanOf(catalog, v, c, objectives);
    var i :| 0 <= i < |plan.nodes| && plan.nodes[i] == node;
    PlannedNodeAccepted(catalog, v, c, objectives, i);
  }

  lemma {:induction false} PlannedNodesValid(catalog: Catalog, v: P.Proposal, c: Context, objectives: seq<BlobRef>)
    requires NamedTools(catalog) && InputsValid(catalog, v, c, objectives) && IdsFit(c)
    ensures NodesValid(catalog, PlanOf(catalog, v, c, objectives))
  {
    var plan := PlanOf(catalog, v, c, objectives);
    PlannedTasksDistinct(catalog, v, c, objectives);
    forall node {:trigger NodeAccepted(catalog, plan, node)} | node in plan.nodes
      ensures NodeAccepted(catalog, plan, node)
    {
      PlannedNodesAccepted(catalog, v, c, objectives, node);
    }
  }

  lemma {:induction false} PlannedTasksDistinct(catalog: Catalog, v: P.Proposal, c: Context, objectives: seq<BlobRef>)
    requires P.ProposalValid(catalog, v) && |objectives| == |v.branches| + 1 && Named(c)
    ensures Distinct(TaskIds(PlanOf(catalog, v, c, objectives).nodes))
  {
    NodeIds(c, |v.branches|);
    PlannedTasks(catalog, v, c, objectives);
    DistinctSnoc(BranchIds(c, |v.branches|), DeskId(c));
  }

  lemma {:induction false} PlannedTopologyValid(catalog: Catalog, v: P.Proposal, c: Context, objectives: seq<BlobRef>)
    requires P.ProposalValid(catalog, v) && |objectives| == |v.branches| + 1 && Named(c)
    ensures TopologyValid(PlanOf(catalog, v, c, objectives))
  {
    hide LongestPath, Acyclic, PathTo, IsCycle, P.BranchValid, Distinct, BranchNode;
    var plan, ids, hub := PlanOf(catalog, v, c, objectives), BranchIds(c, |v.branches|), DeskId(c);
    NodeIds(c, |v.branches|);
    PlannedTasks(catalog, v, c, objectives);
    StarValid(ids, hub);
    StarDepths(ids, hub);
    forall f {:trigger Downstream(plan.edges, f)}
      ensures |Downstream(plan.edges, f)| <= 1
    {
      StarEnds(ids, hub, f);
    }
    PlannedDepths(catalog, v, c, objectives);
  }

  lemma {:induction false} PlannedDepths(catalog: Catalog, v: P.Proposal, c: Context, objectives: seq<BlobRef>)
    requires P.ProposalValid(catalog, v) && |objectives| == |v.branches| + 1 && Named(c)
    requires EdgesValid(TaskSet(PlanOf(catalog, v, c, objectives)), PlanOf(catalog, v, c, objectives).edges)
    ensures var plan := PlanOf(catalog, v, c, objectives);
      forall node {:trigger DepthValid(plan, node)} :: node in plan.nodes ==> DepthValid(plan, node)
  {
    hide LongestPath, P.BranchValid;
    var plan, ids, hub := PlanOf(catalog, v, c, objectives), BranchIds(c, |v.branches|), DeskId(c);
    NodeIds(c, |v.branches|);
    PlannedTasks(catalog, v, c, objectives);
    StarValid(ids, hub);
    StarDepths(ids, hub);
    forall i | 0 <= i < |plan.nodes|
      ensures DepthValid(plan, plan.nodes[i])
    {
      if i < |ids| {
        assert plan.nodes[i].taskId == ids[i] && ids[i] in ids;
      }
      StatedDepth(plan, i);
    }
  }

  lemma {:induction false} StatedDepth(plan: Plan, i: nat)
    requires i < |plan.nodes| && EdgesValid(TaskSet(plan), plan.edges) && plan.authorizedLimit.maxDepth >= 2
    requires plan.nodes[i].depth <= 2 && LongestPath(PlanGraph(plan), plan.nodes[i].taskId, plan.nodes[i].depth)
    ensures DepthValid(plan, plan.nodes[i])
  {
    hide LongestPath;
  }

  lemma {:induction false} PlannedJoinAccepted(catalog: Catalog, v: P.Proposal, c: Context, objectives: seq<BlobRef>)
    requires InputsValid(catalog, v, c, objectives) && IdsFit(c)
    ensures var plan := PlanOf(catalog, v, c, objectives); JoinAccepted(plan, plan.joins[0])
  {
    var plan, ids, hub := PlanOf(catalog, v, c, objectives), BranchIds(c, |v.branches|), DeskId(c);
    NodeIds(c, |v.branches|);
    DeskAndJoinIds(c);
    PlannedTasks(catalog, v, c, objectives);
    StarEnds(ids, hub, hub);
    var desk := plan.nodes[|v.branches|];
    assert desk in plan.nodes && desk.taskId == hub;
  }

  lemma {:induction false} PlannedJoinsValid(catalog: Catalog, v: P.Proposal, c: Context, objectives: seq<BlobRef>)
    requires InputsValid(catalog, v, c, objectives) && IdsFit(c)
    ensures JoinsValid(PlanOf(catalog, v, c, objectives))
  {
    var plan, ids, hub := PlanOf(catalog, v, c, objectives), BranchIds(c, |v.branches|), DeskId(c);
    NodeIds(c, |v.branches|);
    PlannedJoinAccepted(catalog, v, c, objectives);
    assert JoinedTasks(plan.joins)[0] == hub;
    forall t {:trigger Upstream(plan.edges, t)} | |Upstream(plan.edges, t)| > 1
      ensures t in JoinedTasks(plan.joins)
    {
      StarEnds(ids, hub, t);
    }
  }

  lemma {:induction false} PlannedHeaderValid(catalog: Catalog, v: P.Proposal, c: Context, objectives: seq<BlobRef>)
    requires InputsValid(catalog, v, c, objectives) && IdsFit(c)
    ensures HeaderValid(PlanOf(catalog, v, c, objectives))
    ensures var plan := PlanOf(catalog, v, c, objectives);
            AggregateWithin(Total(Limits(plan.nodes)), plan.authorizedLimit)
  {
    AuthorizedIsExactSum(catalog, v, c, objectives);
    CommandIdFits(c);
  }

  /** Build is total against the checker: for valid inputs, the compiled plan passes
      exactly when the context IDs are valid and the record ID leaves room for the
      suffixes. */
  lemma {:induction false} CompiledPlanValidIff(catalog: Catalog, v: P.Proposal, c: Context, objectives: seq<BlobRef>)
    requires NamedTools(catalog) && InputsValid(catalog, v, c, objectives)
    ensures PlanValid(catalog, PlanOf(catalog, v, c, objectives)) <==> IdsFit(c)
  {
    var plan := PlanOf(catalog, v, c, objectives);
    if IdsFit(c) {
      PlannedHeaderValid(catalog, v, c, objectives);
      PlannedNodesValid(catalog, v, c, objectives);
      PlannedTopologyValid(catalog, v, c, objectives);
      PlannedJoinsValid(catalog, v, c, objectives);
    } else if PlanValid(catalog, plan) {
      var desk := plan.nodes[|v.branches|];
      assert desk in plan.nodes && desk.taskId == DeskId(c);
      assert NodeAccepted(catalog, plan, desk);
      DeskAndJoinIds(c);
      assert false;
    }
  }

  /** A planned branch is a Specialist that workers are told about. */
  lemma {:induction false} BranchOffered(catalog: Catalog, c: Context, b: P.Branch, i: nat, objective: BlobRef,
                                         joins: seq<string>)
    requires i < 99 && P.BranchValid(catalog, b)
    ensures var node := BranchNode(catalog, c, b, i, objective);
      node.roleId != DECISION_DESK && Progress.IsOffered(node, joins)
  {
    RoleTable(b.roleId);
  }

  lemma {:induction false} PlannedNodesOffered(catalog: Catalog, v: P.Proposal, c: Context, objectives: seq<BlobRef>)
    requires P.ProposalValid(catalog, v) && |objectives| == |v.branches| + 1
    ensures var plan := PlanOf(catalog, v, c, objectives);
      Progress.JoinOrder(plan, false) == [DeskId(c)] && Progress.NodesOffered(plan, false)
  {
    var plan := PlanOf(catalog, v, c, objectives);
    var joins := Progress.JoinOrder(plan, false);
    assert JoinedTasks(plan.joins) == [DeskId(c)];
    forall node | node in plan.nodes
      ensures Progress.IsOffered(node, joins)
    {
      var i :| 0 <= i < |plan.nodes| && plan.nodes[i] == node;
      if i < |v.branches| {
        BranchOffered(catalog, c, v.branches[i], i, objectives[i], joins);
      }
    }
  }

  /** In a compiled plan no task waits for a Desk. */
  lemma {:induction false} NoDeskUpstream(catalog: Catalog, v: P.Proposal, c: Context, objectives: seq<BlobRef>,
                                          u: string)
    requires NamedTools(catalog) && InputsValid(catalog, v, c, objectives) && IdsFit(c)
    requires u in BranchIds(c, |v.branches|)
    ensures var plan := PlanOf(catalog, v, c, objectives);
      PlanValid(catalog, plan) && u in TaskSet(plan) && Progress.NodeOf(plan, u).roleId != DECISION_DESK
  {
    CompiledPlanValidIff(catalog, v, c, objectives);
    var plan := PlanOf(catalog, v, c, objectives);
    var i :| 0 <= i < |v.branches| && BranchIds(c, |v.branches|)[i] == u;
    BranchOffered(catalog, c, v.branches[i], i, objectives[i], []);
    Progress.OwnNode(catalog, plan, plan.nodes[i]);
  }

  lemma {:induction false} CompiledSpecialistsSuffice(catalog: Catalog, v: P.Proposal, c: Context,
                                                      objectives: seq<BlobRef>)
    requires NamedTools(catalog) && InputsValid(catalog, v, c, objectives) && IdsFit(c)
    ensures var plan := PlanOf(catalog, v, c, objectives); PlanValid(catalog, plan)
    ensures var r := Progress.RulesOf(PlanOf(catalog, v, c, objectives), false);
      r.Valid() && Stops.SpecialistsSuffice(r)
  {
    CompiledPlanValidIff(catalog, v, c, objectives);
    Progress.RulesAreValid(catalog, PlanOf(catalog, v, c, objectives), false);
    var r := Progress.RulesOf(PlanOf(catalog, v, c, objectives), false);
    forall t | t in r.graph.nodes
      ensures r.graph.up[t] !! r.desks
    {
      NoDeskAbove(catalog, v, c, objectives, t);
    }
    AllSpecialists(r);
  }

  lemma {:induction false} NoDeskAbove(catalog: Catalog, v: P.Proposal, c: Context, objectives: seq<BlobRef>, t: string)
    requires NamedTools(catalog) && InputsValid(catalog, v, c, objectives) && IdsFit(c)
    requires PlanValid(catalog, PlanOf(catalog, v, c, objectives))
    ensures var plan := PlanOf(catalog, v, c, objectives);
      Upstream(plan.edges, t) !! Progress.RulesOf(plan, false).desks
  {
    var plan := PlanOf(catalog, v, c, objectives);
    NodeIds(c, |v.branches|);
    StarEnds(BranchIds(c, |v.branches|), DeskId(c), t);
    forall u | u in Upstream(plan.edges, t)
      ensures u in TaskSet(plan) && Progress.NodeOf(plan, u).roleId != DECISION_DESK
    {
      NoDeskUpstream(catalog, v, c, objectives, u);
    }
  }

  lemma {:induction false} AllSpecialists(r: Run.Rules<string>)
    requires r.Valid() && forall t :: t in r.graph.nodes ==> r.graph.up[t] !! r.desks
    ensures Stops.SpecialistsSuffice(r)
  {
    forall t | t in Stops.ComesUp(r)
      ensures |r.graph.up[t] - r.desks| >= r.needs[t]
    {
      assert r.Sound(t) && r.graph.up[t] - r.desks == r.graph.up[t];
    }
  }

  /** Every task of a compiled plan comes up, so its runs never wait with unfinished
      tasks; but they may wait for the Run's deadline behind the last task. */
  lemma {:induction false} CompiledPlanWaits(catalog: Catalog, v: P.Proposal, c: Context, objectives: seq<BlobRef>)
    requires NamedTools(catalog) && InputsValid(catalog, v, c, objectives) && IdsFit(c)
    ensures var plan := PlanOf(catalog, v, c, objectives);
      && PlanValid(catalog, plan) && plan.authorizedLimit.maxDepth == 2
      && var r := Progress.RulesOf(plan, false);
      && r.Valid() && !Stops.MayWait(r, true) && Stops.MayWait(r, false)
  {
    CompiledSpecialistsSuffice(catalog, v, c, objectives);
    CompiledAllComeUp(catalog, v, c, objectives);
    Stops.MayWaitIff(Progress.RulesOf(PlanOf(catalog, v, c, objectives), false));
  }

  lemma {:induction false} CompiledAllComeUp(catalog: Catalog, v: P.Proposal, c: Context, objectives: seq<BlobRef>)
    requires NamedTools(catalog) && InputsValid(catalog, v, c, objectives) && IdsFit(c)
    ensures var plan := PlanOf(catalog, v, c, objectives); PlanValid(catalog, plan)
    ensures var r := Progress.RulesOf(PlanOf(catalog, v, c, objectives), false);
      r.Valid() && Stops.ComesUp(r) * r.offered == r.graph.nodes
  {
    CompiledPlanValidIff(catalog, v, c, objectives);
    var plan := PlanOf(catalog, v, c, objectives);
    NodeIds(c, |v.branches|);
    DistinctLength(BranchIds(c, |v.branches|));
    forall t
      ensures |Upstream(plan.edges, t)| != 1
    {
      StarEnds(BranchIds(c, |v.branches|), DeskId(c), t);
    }
    PlannedNodesOffered(catalog, v, c, objectives);
    Progress.AcceptedPlanComesUp(catalog, plan, false);
  }

  /** A run of a compiled plan that waits for the Run's deadline has ended all of its
      tasks, and its Desk failed. */
  lemma {:induction false} CompiledPlanStops(catalog: Catalog, v: P.Proposal, c: Context, objectives: seq<BlobRef>,
                                             r: Run.Rules<string>, actions: seq<Run.Action<string>>,
                                             y: Run.Exec<string>)
    requires NamedTools(catalog) && InputsValid(catalog, v, c, objectives) && IdsFit(c)
    requires PlanValid(catalog, PlanOf(catalog, v, c, objectives))
    requires r == Progress.RulesOf(PlanOf(catalog, v, c, objectives), false) && r.Valid()
    requires Run.Reaches(r, Run.Initial(r), actions, y) && y.status.Keys == r.graph.nodes && Stops.Stuck(r, y)
    ensures Run.Done(y) == r.graph.nodes && y.Has(DeskId(c), Run.Failed)
  {
    CompiledAllComeUp(catalog, v, c, objectives);
    Stops.StuckOnlyIf(r, actions, y);
    DeskIsDesk(catalog, v, c, objectives);
    Stops.StuckHasNoAnswer(r, actions, y);
    assert DeskId(c) in Run.Done(y) && DeskId(c) !in Run.Won(y);
  }

  lemma {:induction false} DeskIsDesk(catalog: Catalog, v: P.Proposal, c: Context, objectives: seq<BlobRef>)
    requires P.ProposalValid(catalog, v) && |objectives| == |v.branches| + 1
    requires PlanValid(catalog, PlanOf(catalog, v, c, objectives))
    ensures DeskId(c) in Progress.RulesOf(PlanOf(catalog, v, c, objectives), false).desks
  {
    var plan := PlanOf(catalog, v, c, objectives);
    Progress.OwnNode(catalog, plan, plan.nodes[|v.branches|]);
  }

  /** The admission command of a compiled plan passes whenever the plan does. */
  lemma {:induction false} CompiledCommandValid(catalog: Catalog, digest: Plan -> string, v: P.Proposal, c: Context,
                             objectives: seq<BlobRef>)
    requires NamedTools(catalog) && InputsValid(catalog, v, c, objectives) && IdsFit(c)
    requires ValidDigest(digest(PlanOf(catalog, v, c, objectives)))
    ensures var plan := PlanOf(catalog, v, c, objectives);
            CommandValid(catalog, digest, CommandFor(c, plan, digest(plan)))
  {
    CompiledPlanValidIff(catalog, v, c, objectives);
    var plan := PlanOf(catalog, v, c, objectives);
    EnvelopeFitsPlan(c, plan, digest(plan));
  }

  lemma {:induction false} EnvelopeFitsPlan(c: Context, plan: Plan, planDigest: string)
    requires ContextValid(c) && IdsFit(c) && ValidDigest(planDigest)
    requires plan.graphId == GraphId(c) && plan.runId == c.runId && plan.parentTaskId == c.parentTaskId
    requires plan.createdBy == c.actor && plan.deadlineAt == c.deadlineAt
    ensures EnvelopeFits(CommandFor(c, plan, planDigest))
  {
    CommandIdFits(c);
    assert ValidName("admit_task_graph");
  }

  // ----- Build -----

  method CheckObjectives(objectives: seq<BlobRef>) returns (ok: bool, createdAt: Time)
    ensures ok <==> forall o :: o in objectives ==> ObjectiveBlob(o)
    ensures ok ==> createdAt == Latest(objectives)
  {
    createdAt := 0;
    var i := 0;
    while i < |objectives|
      invariant 0 <= i <= |objectives|
      invariant forall o :: o in objectives[..i] ==> ObjectiveBlob(o)
      invariant createdAt == Latest(objectives[..i])
    {
      if !ObjectiveBlob(objectives[i]) {
        assert objectives[i] in objectives;
        return false, createdAt;
      }
      assert objectives[..i + 1] == objectives[..i] + [objectives[i]];
      assert objectives[..i + 1][..i] == objectives[..i];
      if objectives[i].committedAt > createdAt {
        createdAt := objectives[i].committedAt;
      }
      i := i + 1;
    }
    assert objectives[..i] == objectives;
    ok := true;
  }

  lemma {:induction false} PrefixSnoc<T(!new)>(s: seq<T>, i: nat)
    requires i < |s|
    ensures s[..i + 1] == s[..i] + [s[i]]
  {
  }

  /** The state of the branch loop after i branches. */
  ghost predicate Planned(catalog: Catalog, v: P.Proposal, c: Context, objectives: seq<BlobRef>, i: nat,
                          nodes: seq<Node>, edges: seq<Edge<string>>, upstream: seq<string>, authorized: BudgetLimit)
    requires P.ProposalValid(catalog, v) && |objectives| == |v.branches| + 1 && i <= |v.branches|
  {
    && nodes == BranchNodes(catalog, c, v.branches, objectives)[..i]
    && upstream == BranchIds(c, |v.branches|)[..i] && edges == Star(upstream, DeskId(c))
    && authorized == Total(Limits(nodes))
  }

  lemma {:induction false} BranchPlanned(catalog: Catalog, v: P.Proposal, c: Context, objectives: seq<BlobRef>, i: nat,
                      nodes: seq<Node>, edges: seq<Edge<string>>, upstream: seq<string>, authorized: BudgetLimit)
    requires P.ProposalValid(catalog, v) && |objectives| == |v.branches| + 1 && i < |v.branches|
    requires Planned(catalog, v, c, objectives, i, nodes, edges, upstream, authorized)
    ensures var node := BranchNode(catalog, c, v.branches[i], i, objectives[i]);
      Planned(catalog, v, c, objectives, i + 1, nodes + [node], edges + [Edge(node.taskId, DeskId(c))],
              upstream + [node.taskId], AddBudget(authorized, node.limit))
  {
    var node := BranchNode(catalog, c, v.branches[i], i, objectives[i]);
    Check.LimitsSnoc(nodes, node);
    StarSnoc(upstream, DeskId(c), node.taskId);
    PrefixSnoc(BranchNodes(catalog, c, v.branches, objectives), i);
    PrefixSnoc(BranchIds(c, |v.branches|), i);
  }

  lemma {:induction false} AllPlanned(catalog: Catalog, v: P.Proposal, c: Context, objectives: seq<BlobRef>)
    requires P.ProposalValid(catalog, v) && |objectives| == |v.branches| + 1
    ensures BranchNodes(catalog, c, v.branches, objectives)[..|v.branches|]
         == BranchNodes(catalog, c, v.branches, objectives)
    ensures BranchIds(c, |v.branches|)[..|v.branches|] == BranchIds(c, |v.branches|)
  {
  }

  method PlanBranches(catalog: Catalog, v: P.Proposal, c: Context, objectives: seq<BlobRef>)
      returns (nodes: seq<Node>, edges: seq<Edge<string>>, upstream: seq<string>, authorized: BudgetLimit)
    requires P.ProposalValid(catalog, v) && |objectives| == |v.branches| + 1
    ensures Planned(catalog, v, c, objectives, |v.branches|, nodes, edges, upstream, authorized)
  {
    nodes, edges, upstream, authorized := [], [], [], ZERO_LIMIT;
    var i := 0;
    while i < |v.branches|
      invariant 0 <= i <= |v.branches|
      invariant Planned(catalog, v, c, objectives, i, nodes, edges, upstream, authorized)
    {
      var node := BranchNode(catalog, c, v.branches[i], i, objectives[i]);
      BranchPlanned(catalog, v, c, objectives, i, nodes, edges, upstream, authorized);
      nodes := nodes + [node];
      edges := edges + [Edge(node.taskId, DeskId(c))];
      upstream := upstream + [node.taskId];
      authorized := AddBudget(authorized, node.limit);
      i := i + 1;
    }
  }

  method CompilePlan(catalog: Catalog, v: P.Proposal, c: Context, objectives: seq<BlobRef>, createdAt: Time)
      returns (plan: Plan)
    requires P.ProposalValid(catalog, v) && |objectives| == |v.branches| + 1
    ensures plan == PlanAt(catalog, v, c, objectives, createdAt)
  {
    var nodes, edges, upstream, authorized := PlanBranches(catalog, v, c, objectives);
    AllPlanned(catalog, v, c, objectives);
    var desk := DeskNode(c, objectives[|objectives| - 1]);
    Check.LimitsSnoc(nodes, desk);
    nodes := nodes + [desk];
    authorized := AddBudget(authorized, desk.limit);
    authorized := authorized.(maxDepth := 2, maxFanout := 1, maxParallelism := |v.branches| as int64);
    plan := PlanWith(c, createdAt, authorized, nodes, edges, JoinFor(c, v.joinMode, upstream));
  }

  // ----- the compiled command, field by field -----

  /** What a Specialist may spend, without and with a tool. */
  predicate SpecialistMaySpend(l: BudgetLimit, withTool: bool) {
    && (l.maxModelCalls, l.maxInputTokens, l.maxOutputTokens, l.maxToolCalls, l.maxWallTime)
       == (if withTool then (3, 96000, 4500, 1, 180000) else (1, 64000, 3000, 0, 90000))
    && l.maxIdleTime == 30000 && l.maxTasks == 1 && l.maxParallelism == 1 && SpendsNothingElse(l)
  }

  predicate DeskMaySpend(l: BudgetLimit) {
    && l.maxModelCalls == 1 && l.maxInputTokens == 96000 && l.maxOutputTokens == 8000 && l.maxToolCalls == 0
    && l.maxWallTime == 120000 && l.maxIdleTime == 30000 && l.maxTasks == 1 && l.maxParallelism == 1
    && SpendsNothingElse(l)
  }

  predicate SpendsNothingElse(l: BudgetLimit) {
    && l.maxExternalCost == 0 && l.maxDepth == 0 && l.maxFanout == 0
    && l.maxInvalidOutputRetries == 0 && l.maxInfrastructureRetries == 0
  }

  /** "-branch-01" to "-branch-04" */
  const BRANCH_SUFFIXES := ["-branch-01", "-branch-02", "-branch-03", "-branch-04"]

  /** The node of branch i: its role, objective and tool, at depth 1. */
  ghost predicate CompiledBranch(c: Context, b: P.Branch, i: nat, objective: BlobRef, node: Node) {
    && i < 4 && node.taskId == "task-graph-" + c.sourceResult.recordId + BRANCH_SUFFIXES[i]
    && node.roleId == b.roleId && node.roleRevision == 1 && node.depth == 1 && node.objective == objective
    && node.inputRefs == [] && node.outputContractName == "specialist_memo_v1"
    && node.outputContract == c.specialistContract && node.deadlineAt == c.deadlineAt
    && node.toolGrants == (if b.toolId == "" then [] else [ToolGrant(b.toolId, 1, "read_only")])
    && SpecialistMaySpend(node.limit, b.toolId != "")
  }

  ghost predicate CompiledDesk(c: Context, objective: BlobRef, node: Node) {
    && node.taskId == "task-graph-" + c.sourceResult.recordId + "-decision-desk"
    && node.roleId == "decision_desk" && node.roleRevision == 1 && node.depth == 2 && node.objective == objective
    && node.inputRefs == [] && node.outputContractName == "answer_v1" && node.outputContract == c.answerContract
    && node.toolGrants == [] && node.deadlineAt == c.deadlineAt && DeskMaySpend(node.limit)
  }

  /** The one Join waits for all branches, in order; an all-required proposal asks for all
      of them, a minimum-succeeded one for one. */
  ghost predicate CompiledJoin(c: Context, mode: P.JoinMode, nodes: seq<Node>, join: Join) {
    && nodes != [] && join.joinId == "task-graph-" + c.sourceResult.recordId + "-join"
    && join.downstream == nodes[|nodes| - 1].taskId && join.upstream == TaskIds(nodes)[..|nodes| - 1]
    && join.deadlineAt == c.deadlineAt
    && (mode == P.AllRequired ==>
          join.policy == AllRequired && join.minimumSuccess == |nodes| - 1 && join.failurePolicy == FailGraph)
    && (mode == P.MinimumSucceeded ==>
          join.policy == MinimumSucceeded && join.minimumSuccess == 1
          && join.failurePolicy == ContinueIfThresholdMet)
  }

  ghost predicate CompiledPlan(v: P.Proposal, c: Context, objectives: seq<BlobRef>, p: Plan) {
    var n := |v.branches|;
    && |objectives| == n + 1 && |p.nodes| == n + 1 && |p.edges| == n && |p.joins| == 1
    && (forall i {:trigger p.nodes[i]} :: 0 <= i < n ==> CompiledBranch(c, v.branches[i], i, objectives[i], p.nodes[i]))
    && CompiledDesk(c, objectives[n], p.nodes[n])
    && (forall i {:trigger p.edges[i]} :: 0 <= i < n ==> p.edges[i] == Edge(p.nodes[i].taskId, p.nodes[n].taskId))
    && CompiledJoin(c, v.joinMode, p.nodes, p.joins[0])
    && p.schemaRevision == 1 && p.graphId == "task-graph-" + c.sourceResult.recordId && p.runId == c.runId
    && p.parentTaskId == c.parentTaskId && p.sourceResult == c.sourceResult && p.runtimePolicy == c.runtimePolicy
    && p.round == c.round && p.maxRounds == c.maxRounds && p.createdBy == c.actor && p.deadlineAt == c.deadlineAt
    && (forall o :: o in objectives ==> o.committedAt <= p.createdAt)
    && (exists o :: o in objectives && o.committedAt == p.createdAt)
    && p.authorizedLimit.maxDepth == 2 && p.authorizedLimit.maxFanout == 1
    && p.authorizedLimit.maxParallelism as int == n
    && (forall m: Meter {:trigger TrueSum(Limits(p.nodes), m)} ::
          p.authorizedLimit.Of(m) as int == TrueSum(Limits(p.nodes), m))
  }

  ghost predicate CompiledCommand(c: Context, cmd: Command, planDigest: string) {
    && cmd.schemaRevision == 1 && cmd.envelope.schemaRevision == 1
    && cmd.envelope.commandId == "admit-" + cmd.plan.graphId && cmd.envelope.idempotencyKey == cmd.plan.graphId
    && cmd.envelope.actor == c.actor && cmd.envelope.audience == ControlApi
    && cmd.envelope.commandType == "admit_task_graph" && cmd.envelope.requestDigest == planDigest
    && cmd.envelope.causationId == c.parentTaskId && cmd.envelope.correlationId == c.runId
    && cmd.envelope.deadline == c.deadlineAt
    && cmd.expectedRunStateGeneration == c.expectedRunStateGeneration
    && cmd.expectedParentStateGeneration == c.expectedParentStateGeneration
  }

  lemma {:induction false} BranchCompiled(catalog: Catalog, c: Context, b: P.Branch, i: nat, objective: BlobRef)
    requires i < 4 && P.BranchValid(catalog, b)
    ensures CompiledBranch(c, b, i, objective, BranchNode(catalog, c, b, i, objective))
  {
    RoleTable(b.roleId);
    FoundRole(AGENT_ROLES, b.roleId);
    if b.toolId != "" {
      FoundTool(catalog.tools, b.toolId);
    }
    BranchSuffix(i);
    Regroup("task-graph-" , c.sourceResult.recordId, BRANCH_SUFFIXES[i]);
  }

  lemma {:induction false} BranchSuffix(i: nat)
    requires i < 4
    ensures "-branch-" + TwoDigits(i + 1) == BRANCH_SUFFIXES[i]
  {
    assert TwoDigits(1) == "01" && TwoDigits(2) == "02" && TwoDigits(3) == "03" && TwoDigits(4) == "04";
  }

  lemma {:induction false} FoundTool(tools: seq<Tool>, id: string)
    ensures FindTool(tools, id).Some? ==> FindTool(tools, id).value.id == id
  {
    if tools != [] {
      FoundTool(tools[1..], id);
    }
  }

  /** Build fills in every field as described. */
  lemma {:induction false} PlanMeans(catalog: Catalog, v: P.Proposal, c: Context, objectives: seq<BlobRef>)
    requires InputsValid(catalog, v, c, objectives)
    ensures CompiledPlan(v, c, objectives, PlanOf(catalog, v, c, objectives))
  {
    hide CompiledBranch, CompiledJoin, CompiledDesk, SpecialistMaySpend, DeskMaySpend;
    var p, n := PlanOf(catalog, v, c, objectives), |v.branches|;
    forall i {:trigger p.nodes[i]} | 0 <= i < n
      ensures CompiledBranch(c, v.branches[i], i, objectives[i], p.nodes[i])
    {
      BranchCompiled(catalog, c, v.branches[i], i, objectives[i]);
    }
    DeskCompiled(c, objectives[n]);
    JoinCompiled(catalog, v, c, objectives);
    EdgesCompiled(catalog, v, c, objectives);
    AuthorizedIsExactSum(catalog, v, c, objectives);
  }

  lemma {:induction false} DeskCompiled(c: Context, objective: BlobRef)
    ensures CompiledDesk(c, objective, DeskNode(c, objective))
  {
  }

  lemma {:induction false} JoinCompiled(catalog: Catalog, v: P.Proposal, c: Context, objectives: seq<BlobRef>)
    requires P.ProposalValid(catalog, v) && |objectives| == |v.branches| + 1
    ensures var p := PlanOf(catalog, v, c, objectives); CompiledJoin(c, v.joinMode, p.nodes, p.joins[0])
  {
    var p, n := PlanOf(catalog, v, c, objectives), |v.branches|;
    forall i | 0 <= i < n
      ensures TaskIds(p.nodes)[i] == BranchIds(c, n)[i]
    {
    }
    assert TaskIds(p.nodes)[..n] == BranchIds(c, n);
  }

  lemma {:induction false} EdgesCompiled(catalog: Catalog, v: P.Proposal, c: Context, objectives: seq<BlobRef>)
    requires P.ProposalValid(catalog, v) && |objectives| == |v.branches| + 1
    ensures var p, n := PlanOf(catalog, v, c, objectives), |v.branches|;
      && |p.edges| == n && |p.nodes| == n + 1
      && forall i {:trigger p.edges[i]} :: 0 <= i < n ==> p.edges[i] == Edge(p.nodes[i].taskId, p.nodes[n].taskId)
  {
  }

  /** When all branches of a compiled plan have ended, its Join dead-letters the Run if the
      proposal requires all and one failed, or requires a minimum and all failed; otherwise
      the Desk is ready. */
  lemma {:induction false} CompiledJoinDecides(catalog: Catalog, v: P.Proposal, c: Context, objectives: seq<BlobRef>,
                                               r: Run.Rules<string>, x: Run.Exec<string>)
    requires InputsValid(catalog, v, c, objectives) && PlanValid(catalog, PlanOf(catalog, v, c, objectives))
    requires r == Progress.RulesOf(PlanOf(catalog, v, c, objectives), false) && r.Valid()
    requires Run.Kept(r, x) && x.Live() && x.Has(DeskId(c), Run.Blocked)
    requires forall i :: 0 <= i < |v.branches| ==> BranchId(c, i) in Run.Done(x)
    ensures var y, n := Run.Reconciled(r, x), |v.branches|;
      && (v.joinMode == P.AllRequired ==>
            (y.end == Run.DeadLettered <==> exists i :: 0 <= i < n && BranchId(c, i) !in Run.Won(x)))
      && (v.joinMode == P.MinimumSucceeded ==>
            (y.end == Run.DeadLettered <==> forall i :: 0 <= i < n ==> BranchId(c, i) !in Run.Won(x)))
      && (y.end != Run.DeadLettered ==> y.Has(DeskId(c), Run.Ready))
  {
    hide PlanOf, PlanValid, Progress.RulesOf, Run.Reconciled, Run.Kept, InputsValid;
    var n := |v.branches|;
    CompiledRules(catalog, v, c, objectives);
    EndedBranches(r, x, c, n);
    Run.OneJoinDecides(r, x, DeskId(c));
    BranchesDecide(c, n, Run.Won(x));
  }

  lemma {:induction false} BranchesDecide(c: Context, n: nat, won: set<string>)
    requires 1 <= n < 99 && Named(c)
    ensures |Elements(BranchIds(c, n)) * won| >= n <==> forall i :: 0 <= i < n ==> BranchId(c, i) in won
    ensures |Elements(BranchIds(c, n)) * won| >= 1 <==> exists i :: 0 <= i < n && BranchId(c, i) in won
  {
    hide BranchId, BranchIds;
    NodeIds(c, n);
    var ids := BranchIds(c, n);
    CountDecides(ids, won);
    forall i | 0 <= i < n
      ensures ids[i] in won <==> BranchId(c, i) in won
    {
    }
    if i :| 0 <= i < n && BranchId(c, i) in won {
      assert ids[i] in won;
    }
  }

  lemma {:induction false} EndedBranches(r: Run.Rules<string>, x: Run.Exec<string>, c: Context, n: nat)
    requires n < 99 && forall i :: 0 <= i < n ==> BranchId(c, i) in Run.Done(x)
    ensures Elements(BranchIds(c, n)) <= Run.Done(x)
  {
  }

  /** What the run of a compiled plan knows of its Join. */
  lemma {:induction false} CompiledRules(catalog: Catalog, v: P.Proposal, c: Context, objectives: seq<BlobRef>)
    requires InputsValid(catalog, v, c, objectives) && PlanValid(catalog, PlanOf(catalog, v, c, objectives))
    ensures var r, n := Progress.RulesOf(PlanOf(catalog, v, c, objectives), false), |v.branches|;
      && r.joins == [DeskId(c)] && DeskId(c) in r.graph.nodes && r.graph.up.Keys == r.graph.nodes
      && r.needs.Keys == r.graph.nodes && r.graph.up[DeskId(c)] == Elements(BranchIds(c, n))
      && r.needs[DeskId(c)] == (if v.joinMode.AllRequired? then n else 1)
      && 2 <= n <= 4 && (v.joinMode.AllRequired? || v.joinMode.MinimumSucceeded?) && Named(c)
  {
    var p := PlanOf(catalog, v, c, objectives);
    assert p.joins[0] in p.joins;
    PlannedNodesOffered(catalog, v, c, objectives);
    Progress.JoinFacts(catalog, p, p.joins[0]);
  }

  /** All of the tasks are among the winners, or none is. */
  lemma {:induction false} CountDecides(ids: seq<string>, won: set<string>)
    requires Distinct(ids)
    ensures |Elements(ids) * won| >= |ids| <==> forall i :: 0 <= i < |ids| ==> ids[i] in won
    ensures |Elements(ids) * won| >= 1 <==> exists i :: 0 <= i < |ids| && ids[i] in won
  {
    DistinctLength(ids);
    var both := Elements(ids) * won;
    SubsetSize(both, Elements(ids));
    if |both| >= |ids| {
      assert both == Elements(ids);
      forall i | 0 <= i < |ids|
        ensures ids[i] in won
      {
        assert ids[i] in Elements(ids);
      }
    }
    if forall i :: 0 <= i < |ids| ==> ids[i] in won {
      assert both == Elements(ids);
    }
    if i :| 0 <= i < |ids| && ids[i] in won {
      assert ids[i] in both;
    }
    if |both| >= 1 {
      var t :| t in both;
      assert t in Elements(ids);
    }
  }

  method Build(catalog: Catalog, digest: Plan -> string, v: P.Proposal, c: Context, objectives: seq<BlobRef>)
      returns (r: Option<Command>)
    requires NamedTools(catalog) && forall p :: ValidDigest(digest(p))
    ensures r.Some? <==> InputsValid(catalog, v, c, objectives) && IdsFit(c)
    ensures r.Some? ==>
      var plan := PlanOf(catalog, v, c, objectives);
      r.value == CommandFor(c, plan, digest(plan)) && CommandValid(catalog, digest, r.value)
    ensures r.Some? ==> CompiledPlan(v, c, objectives, r.value.plan)
                        && CompiledCommand(c, r.value, digest(r.value.plan))
  {
    hide PlanAt, PlanValid, P.BranchValid, CompiledPlan;
    var ok := P.Validate(catalog, v);
    if !ok || !ContextValid(c) || |objectives| != |v.branches| + 1 {
      return None;
    }
    var createdAt;
    ok, createdAt := CheckObjectives(objectives);
    if !ok || createdAt == 0 || c.deadlineAt <= createdAt {
      return None;
    }
    var plan := CompilePlan(catalog, v, c, objectives, createdAt);
    CompiledPlanValidIff(catalog, v, c, objectives);
    ok := Check.Validate(catalog, plan);
    if !ok {
      return None;
    }
    CompiledCommandValid(catalog, digest, v, c, objectives);
    PlanMeans(catalog, v, c, objectives);
    var command := CommandFor(c, plan, digest(plan));
    ok := ValidateCommand(catalog, digest, command);
    // The command of a valid plan is valid: the last check never rejects.
    assert ok;
    r := Some(command);
  }
}
