// The task-graph plan and its checker
// (agent-platform/taskgraphcontract/types.go and validate.go).
module TaskGraphPlan {
  import opened Collections
  import opened Text
  import opened Contracts
  import opened Budget
  import opened Capability
  import opened TaskGraphDepth
  import opened TaskGraphEdges

  const MAX_TASKS := 64
  const MAX_EDGES := 256
  const MAX_JOINS := 64
  const MAX_PARALLELISM := 16
  const MAX_DEPTH := 8
  const MAX_ROUNDS := 8
  const MAX_REFERENCES := 4096
  const DECISION_DESK := "decision_desk"

  datatype ToolGrant = ToolGrant(toolId: string, toolRevision: nat, effect: string)

  datatype Node = Node(taskId: string, roleId: string, roleRevision: nat, depth: int, objective: BlobRef,
                       inputRefs: seq<RecordRef>, outputContractName: string, outputContract: RevisionRef,
                       toolGrants: seq<ToolGrant>, limit: BudgetLimit, deadlineAt: Time)

  datatype JoinPolicy = AllRequired | MinimumSucceeded | OtherPolicy(name: string)
  datatype FailurePolicy = FailGraph | ContinueIfThresholdMet | OtherFailurePolicy(name: string)

  datatype Join = Join(joinId: string, downstream: string, upstream: seq<string>, policy: JoinPolicy,
                       minimumSuccess: int, failurePolicy: FailurePolicy, deadlineAt: Time)

  datatype Plan = Plan(schemaRevision: nat, graphId: string, runId: string, parentTaskId: string,
                       sourceResult: RecordRef, runtimePolicy: RevisionRef, round: int, maxRounds: int,
                       authorizedLimit: BudgetLimit, nodes: seq<Node>, edges: seq<Edge<string>>, joins: seq<Join>,
                       createdBy: AuditActor, createdAt: Time, deadlineAt: Time)

  // ----- one node -----

  predicate GrantValid(catalog: Catalog, grant: ToolGrant, roleId: string, maxTools: nat) {
    && ValidName(grant.toolId) && grant.toolRevision != 0 && grant.effect == "read_only" && maxTools != 0
    && var tool := LookupTool(catalog, grant.toolId);
    && tool.Some? && tool.value.active && tool.value.revision == grant.toolRevision
    && tool.value.effect == grant.effect
    && roleId in AgentRolesForTool(catalog, tool.value.id)
  }

  /** Every grant is sound and no tool is granted twice. */
  ghost predicate GrantsValid(catalog: Catalog, grants: seq<ToolGrant>, roleId: string, maxTools: nat) {
    && (forall grant :: grant in grants ==> GrantValid(catalog, grant, roleId, maxTools))
    && (forall i, j :: 0 <= i < j < |grants| ==> grants[i].toolId != grants[j].toolId)
  }

  ghost predicate RefsValid(refs: seq<RecordRef>) {
    && (forall r :: r in refs ==> r.Valid())
    && (forall i, j :: 0 <= i < j < |refs| ==> !SameRecord(refs[i], refs[j]))
  }

  predicate SameRecord(a: RecordRef, b: RecordRef) {
    a.owner == b.owner && a.recordType == b.recordType && a.recordId == b.recordId
      && a.schemaRevision == b.schemaRevision
  }

  predicate LimitValid(limit: BudgetLimit) {
    && limit.Valid() && limit.maxModelCalls >= 1 && limit.maxWallTime >= 1 && limit.maxTasks == 1
    && limit.maxDepth == 0 && limit.maxFanout == 0 && limit.maxParallelism == 1
  }

  /** The tool allowance of a role, when name, revision and contract fit the role. */
  function ToolAllowance(node: Node): Option<nat> {
    if node.roleId == DECISION_DESK then
      if node.roleRevision == 1 && node.outputContractName == "answer_v1" && node.toolGrants == []
         && node.limit.maxToolCalls == 0
      then Some(0) else None
    else
      var role := LookupAgentRole(node.roleId);
      if role.Some? && role.value.revision == node.roleRevision
         && node.outputContractName == role.value.outputContract
         && node.limit.maxToolCalls as int <= role.value.maxToolCalls
      then Some(role.value.maxToolCalls) else None
  }

  ghost predicate NodeValid(catalog: Catalog, node: Node, createdAt: Time, graphDeadline: Time) {
    && ValidID(node.taskId) && ValidName(node.roleId) && node.roleRevision != 0 && 1 <= node.depth <= MAX_DEPTH
    && ObjectiveBlob(node.objective) && node.objective.committedAt <= createdAt
    && |node.inputRefs| <= MAX_REFERENCES && RefsValid(node.inputRefs)
    && ValidName(node.outputContractName) && ControlRevision(node.outputContract, "output_contract_revision")
    && LimitValid(node.limit) && ValidUTC(node.deadlineAt) && createdAt < node.deadlineAt <= graphDeadline
    && var allowance := ToolAllowance(node);
    && allowance.Some? && |node.toolGrants| <= allowance.value
    && |node.toolGrants| <= node.limit.maxToolCalls as int
    && GrantsValid(catalog, node.toolGrants, node.roleId, allowance.value)
  }

  // ----- the whole plan -----

  predicate HeaderValid(p: Plan) {
    && p.schemaRevision == 1 && ValidID(p.graphId) && ValidID(p.runId) && ValidID(p.parentTaskId)
    && ControlRecord(p.sourceResult, "model_call_result") && ControlRevision(p.runtimePolicy, "runtime_policy")
    && 1 <= p.round <= p.maxRounds <= MAX_ROUNDS
    && p.authorizedLimit.Valid()
    && 1 <= p.authorizedLimit.maxTasks as int <= MAX_TASKS
    && 1 <= p.authorizedLimit.maxParallelism as int <= MAX_PARALLELISM
    && 1 <= p.authorizedLimit.maxDepth as int <= MAX_DEPTH
    && 1 <= |p.nodes| <= MAX_TASKS && |p.nodes| <= p.authorizedLimit.maxTasks as int
    && |p.edges| <= MAX_EDGES && |p.joins| <= MAX_JOINS
    && p.createdBy.ControlWorkload() && ValidUTC(p.createdAt) && ValidUTC(p.deadlineAt) && p.createdAt < p.deadlineAt
  }

  ghost function TaskIds(nodes: seq<Node>): (ids: seq<string>)
    ensures |ids| == |nodes| && forall i :: 0 <= i < |nodes| ==> ids[i] == nodes[i].taskId
  {
    seq(|nodes|, i requires 0 <= i < |nodes| => nodes[i].taskId)
  }

  ghost function TaskSet(p: Plan): set<string> {
    Elements(TaskIds(p.nodes))
  }

  function Limits(nodes: seq<Node>): (limits: seq<BudgetLimit>)
    ensures |limits| == |nodes| && forall i :: 0 <= i < |nodes| ==> limits[i] == nodes[i].limit
  {
    seq(|nodes|, i requires 0 <= i < |nodes| => nodes[i].limit)
  }

  ghost predicate NodeAccepted(catalog: Catalog, p: Plan, node: Node) {
    NodeValid(catalog, node, p.createdAt, p.deadlineAt)
  }

  ghost predicate NodesValid(catalog: Catalog, p: Plan) {
    && Distinct(TaskIds(p.nodes))
    && (forall node {:trigger NodeAccepted(catalog, p, node)} :: node in p.nodes ==> NodeAccepted(catalog, p, node))
  }

  ghost predicate TopologyValid(p: Plan) {
    && EdgesValid(TaskSet(p), p.edges)
    && (forall f :: |Downstream(p.edges, f)| <= p.authorizedLimit.maxFanout as int)
    && Acyclic(PlanGraph(p))
    && (forall node {:trigger DepthValid(p, node)} :: node in p.nodes ==> DepthValid(p, node))
  }

  ghost function PlanGraph(p: Plan): (g: Graph<string>)
    requires EdgesValid(TaskSet(p), p.edges)
    ensures g.Valid() && g.nodes == TaskSet(p)
  {
    GraphOf(TaskSet(p), p.edges)
  }

  /** The stated depth is the number of tasks on a longest path to the node. */
  ghost predicate DepthValid(p: Plan, node: Node)
    requires EdgesValid(TaskSet(p), p.edges)
  {
    LongestPath(PlanGraph(p), node.taskId, node.depth) && node.depth <= p.authorizedLimit.maxDepth as int
  }

  // ----- joins -----

  predicate PolicyValid(join: Join) {
    match join.policy
    case AllRequired => join.minimumSuccess == |join.upstream| && join.failurePolicy == FailGraph
    case MinimumSucceeded => 1 <= join.minimumSuccess < |join.upstream| && join.failurePolicy == ContinueIfThresholdMet
    case OtherPolicy(_) => false
  }

  ghost predicate DeadlineWithin(p: Plan, join: Join) {
    && ValidUTC(join.deadlineAt) && p.createdAt < join.deadlineAt <= p.deadlineAt
    && exists node :: node in p.nodes && node.taskId == join.downstream && join.deadlineAt <= node.deadlineAt
  }

  /** The barrier waits for exactly the tasks with an edge to its downstream task. */
  ghost predicate JoinValid(p: Plan, join: Join) {
    && join.downstream in TaskSet(p) && 2 <= |join.upstream| <= MAX_TASKS
    && DeadlineWithin(p, join)
    && Distinct(join.upstream) && Elements(join.upstream) == Upstream(p.edges, join.downstream)
    && PolicyValid(join)
  }

  ghost predicate JoinAccepted(p: Plan, join: Join) {
    ValidID(join.joinId) && JoinValid(p, join)
  }

  ghost function JoinIds(joins: seq<Join>): (ids: seq<string>)
    ensures |ids| == |joins| && forall i :: 0 <= i < |joins| ==> ids[i] == joins[i].joinId
  {
    seq(|joins|, i requires 0 <= i < |joins| => joins[i].joinId)
  }

  ghost function JoinedTasks(joins: seq<Join>): (ids: seq<string>)
    ensures |ids| == |joins| && forall i :: 0 <= i < |joins| ==> ids[i] == joins[i].downstream
  {
    seq(|joins|, i requires 0 <= i < |joins| => joins[i].downstream)
  }

  ghost predicate JoinsValid(p: Plan) {
    && Distinct(JoinIds(p.joins)) && Distinct(JoinedTasks(p.joins))
    && (forall join {:trigger JoinAccepted(p, join)} :: join in p.joins ==> JoinAccepted(p, join))
    && (forall t {:trigger Upstream(p.edges, t)} :: |Upstream(p.edges, t)| > 1 ==> t in JoinedTasks(p.joins))
  }

  /** What an accepted plan is. */
  ghost predicate PlanValid(catalog: Catalog, p: Plan) {
    && HeaderValid(p) && NodesValid(catalog, p)
    && AggregateWithin(Total(Limits(p.nodes)), p.authorizedLimit)
    && TopologyValid(p) && JoinsValid(p)
  }
}
