// Which plans the checker accepts and what the compiler takes, field by field
// (agent-platform/taskgraphcontract/validate.go, agent-platform/taskgraphplanner/planner.go).
module TaskGraphTerms {
  import opened Collections
  import opened Text
  import opened Utf8
  import opened Contracts
  import opened ContractTerms
  import opened Budget
  import opened Capability
  import opened TaskGraphDepth
  import opened TaskGraphEdges
  import opened TaskGraphPlan
  import A = TaskGraphAdvice
  import P = TaskGraphProposal
  import opened TaskGraphPlanner

  // ----- nodes -----

  /** The first tool of that name. */
  ghost predicate Installed(catalog: Catalog, id: string, tool: Tool) {
    exists i :: First(catalog.tools, id, tool, i)
  }

  ghost predicate First(tools: seq<Tool>, id: string, tool: Tool, i: int) {
    0 <= i < |tools| && tools[i] == tool && tool.id == id && forall j :: 0 <= j < i ==> tools[j].id != id
  }

  lemma {:induction false} FindIff(tools: seq<Tool>, id: string, tool: Tool)
    ensures FindTool(tools, id) == Some(tool) <==> exists i :: First(tools, id, tool, i)
  {
    if tools != [] {
      FindIff(tools[1..], id, tool);
      if tools[0].id == id {
        assert First(tools, id, tool, 0) <==> tools[0] == tool;
      } else {
        Shifted(tools, id, tool);
      }
    }
  }

  lemma {:induction false} Shifted(tools: seq<Tool>, id: string, tool: Tool)
    requires tools != [] && tools[0].id != id
    ensures (exists i :: First(tools, id, tool, i)) <==> exists i :: First(tools[1..], id, tool, i)
  {
    var rest := tools[1..];
    if i :| First(tools, id, tool, i) {
      forall j | 0 <= j < i - 1
        ensures rest[j].id != id
      {
        assert rest[j] == tools[j + 1];
      }
      assert First(rest, id, tool, i - 1);
    }
    if i :| First(rest, id, tool, i) {
      forall j | 0 <= j < i + 1
        ensures tools[j].id != id
      {
        assert j > 0 ==> tools[j] == rest[j - 1];
      }
      assert First(tools, id, tool, i + 1);
    }
  }

  /** An installed, active, read-only tool of the granted revision that belongs to the role. */
  ghost predicate GoodGrant(catalog: Catalog, grant: ToolGrant, roleId: string) {
    && Name(grant.toolId) && grant.toolRevision >= 1 && grant.effect == "read_only"
    && exists tool :: Installed(catalog, grant.toolId, tool) && tool.active && tool.revision == grant.toolRevision
         && tool.effect == "read_only" && tool.category in A.OWNERS && A.OWNERS[tool.category] == roleId
  }

  ghost predicate GoodLimit(limit: BudgetLimit) {
    && limit.maxModelCalls >= 1 && limit.maxInputTokens >= 0 && limit.maxOutputTokens >= 0
    && limit.maxToolCalls >= 0 && limit.maxExternalCost >= 0 && limit.maxWallTime >= 1 && limit.maxIdleTime >= 0
    && limit.maxTasks == 1 && limit.maxDepth == 0 && limit.maxFanout == 0 && limit.maxParallelism == 1
    && limit.maxInvalidOutputRetries >= 0 && limit.maxInfrastructureRetries >= 0
  }

  /** A Decision Desk without tools, or a Specialist with at most one. */
  ghost predicate GoodRole(node: Node) {
    && node.roleRevision == 1
    && if node.roleId == "decision_desk" then
         node.outputContractName == "answer_v1" && node.toolGrants == [] && node.limit.maxToolCalls == 0
       else
         && A.Specialist(node.roleId) && node.outputContractName == "specialist_memo_v1"
         && node.limit.maxToolCalls <= 1 && |node.toolGrants| <= node.limit.maxToolCalls as int
  }

  ghost predicate GoodNode(catalog: Catalog, node: Node, createdAt: Time, deadline: Time) {
    && Identifier(node.taskId) && GoodRole(node) && 1 <= node.depth <= 8
    && Objective(node.objective) && node.objective.committedAt <= createdAt
    && |node.inputRefs| <= 4096 && (forall r :: r in node.inputRefs ==> GoodRecord(r))
    && (forall i, j :: 0 <= i < j < |node.inputRefs| ==> OtherRecord(node.inputRefs[i], node.inputRefs[j]))
    && Revision(node.outputContract, "output_contract_revision")
    && GoodLimit(node.limit) && node.deadlineAt != 0 && createdAt < node.deadlineAt <= deadline
    && (forall grant :: grant in node.toolGrants ==> GoodGrant(catalog, grant, node.roleId))
  }

  ghost predicate OtherRecord(a: RecordRef, b: RecordRef) {
    a.owner != b.owner || a.recordType != b.recordType || a.recordId != b.recordId
    || a.schemaRevision != b.schemaRevision
  }

  lemma {:induction false} GrantIff(catalog: Catalog, grant: ToolGrant, roleId: string)
    ensures GrantValid(catalog, grant, roleId, 1) <==> GoodGrant(catalog, grant, roleId)
  {
    hide ValidName, Name, FindTool, AgentRolesForTool, Installed;
    NameIff(grant.toolId);
    forall tool
      ensures LookupTool(catalog, grant.toolId) == Some(tool) <==> Installed(catalog, grant.toolId, tool)
    {
      InstalledIff(catalog, grant.toolId, tool);
    }
    if LookupTool(catalog, grant.toolId).Some? {
      A.OwnersAre(catalog, grant.toolId);
    }
  }

  lemma {:induction false} InstalledIff(catalog: Catalog, id: string, tool: Tool)
    ensures LookupTool(catalog, id) == Some(tool) <==> Installed(catalog, id, tool)
  {
    FindIff(catalog.tools, id, tool);
  }

  lemma {:induction false} LimitIff(limit: BudgetLimit)
    ensures LimitValid(limit) <==> GoodLimit(limit)
  {
  }

  lemma {:induction false} SpecialistRow(id: string)
    ensures LookupAgentRole(id).Some? <==> A.Specialist(id)
    ensures LookupAgentRole(id).Some? ==>
      var role := LookupAgentRole(id).value;
      role.revision == 1 && role.outputContract == "specialist_memo_v1" && role.maxToolCalls == 1
  {
    RoleTable(id);
  }

  /** With a role that fits, grants of different tools reduce to at most one. */
  lemma {:induction false} RoleIff(catalog: Catalog, node: Node)
    requires LimitValid(node.limit)
    ensures
      (var allowance := ToolAllowance(node);
       && allowance.Some? && |node.toolGrants| <= allowance.value
       && |node.toolGrants| <= node.limit.maxToolCalls as int
       && GrantsValid(catalog, node.toolGrants, node.roleId, allowance.value)) <==>
      GoodRole(node) && forall grant :: grant in node.toolGrants ==> GoodGrant(catalog, grant, node.roleId)
  {
    hide GrantValid, GoodGrant, LookupAgentRole, A.Specialist;
    SpecialistRow(node.roleId);
    forall grant | grant in node.toolGrants
      ensures GrantValid(catalog, grant, node.roleId, 1) <==> GoodGrant(catalog, grant, node.roleId)
    {
      GrantIff(catalog, grant, node.roleId);
    }
  }

  lemma {:induction false} RefsIff(refs: seq<RecordRef>)
    ensures RefsValid(refs) <==>
      (forall r :: r in refs ==> GoodRecord(r))
      && forall i, j :: 0 <= i < j < |refs| ==> OtherRecord(refs[i], refs[j])
  {
    hide GoodRecord;
    forall r | r in refs
      ensures r.Valid() <==> GoodRecord(r)
    {
      RecordIff(r);
    }
    forall i, j | 0 <= i < j < |refs|
      ensures !SameRecord(refs[i], refs[j]) <==> OtherRecord(refs[i], refs[j])
    {
    }
  }

  lemma {:induction false} NodeIff(catalog: Catalog, node: Node, createdAt: Time, deadline: Time)
    ensures NodeValid(catalog, node, createdAt, deadline) <==> GoodNode(catalog, node, createdAt, deadline)
  {
    hide ValidID, Identifier, ValidName, Name, ObjectiveBlob, Objective, RefsValid, GoodRecord, ControlRevision,
      Revision, LimitValid, GoodLimit, ToolAllowance, GrantsValid, GoodGrant, A.Specialist, OtherRecord;
    IdentifierIff(node.taskId);
    ObjectiveIff(node.objective);
    RefsIff(node.inputRefs);
    RevisionIff(node.outputContract, "output_contract_revision");
    LimitIff(node.limit);
    if LimitValid(node.limit) {
      RoleIff(catalog, node);
    }
    if GoodRole(node) {
      RoleNames(node);
    }
  }

  /** The IDs of roles and the names of their contracts are names. */
  lemma {:induction false} RoleNames(node: Node)
    requires GoodRole(node)
    ensures ValidName(node.roleId) && ValidName(node.outputContractName)
  {
    hide Name;
    NameIff(node.roleId);
    NameIff(node.outputContractName);
    if node.roleId != "decision_desk" {
      SpecialistNamed(node.roleId);
    }
    NamesKnown();
  }

  lemma {:induction false} NamesKnown()
    ensures Name("decision_desk") && Name("answer_v1") && Name("specialist_memo_v1")
  {
  }

  lemma {:induction false} SpecialistNamed(id: string)
    requires A.Specialist(id)
    ensures Name(id)
  {
    ScoutsNamed();
    OthersNamed();
  }

  lemma {:induction false} ScoutsNamed()
    ensures Name("market_scout") && Name("fundamental_scout") && Name("options_scout")
  {
  }

  lemma {:induction false} OthersNamed()
    ensures Name("position_manager") && Name("catalyst_scout") && Name("discovery_scout")
  {
  }

  // ----- plans -----

  ghost predicate GoodHeader(p: Plan) {
    && p.schemaRevision == 1 && Identifier(p.graphId) && Identifier(p.runId) && Identifier(p.parentTaskId)
    && ControlOwned(p.sourceResult, "model_call_result") && Revision(p.runtimePolicy, "runtime_policy")
    && 1 <= p.round <= p.maxRounds <= 8 && GoodCeiling(p.authorizedLimit)
    && 1 <= |p.nodes| <= p.authorizedLimit.maxTasks as int && |p.edges| <= 256 && |p.joins| <= 64
    && ControlActor(p.createdBy) && p.createdAt != 0 && p.deadlineAt != 0 && p.createdAt < p.deadlineAt
  }

  ghost predicate GoodCeiling(limit: BudgetLimit) {
    && limit.maxModelCalls >= 0 && limit.maxInputTokens >= 0 && limit.maxOutputTokens >= 0
    && limit.maxToolCalls >= 0 && limit.maxExternalCost >= 0 && limit.maxWallTime >= 0 && limit.maxIdleTime >= 0
    && 1 <= limit.maxTasks <= 64 && 1 <= limit.maxDepth <= 8 && limit.maxFanout >= 0
    && 1 <= limit.maxParallelism <= 16
    && limit.maxInvalidOutputRetries >= 0 && limit.maxInfrastructureRetries >= 0
  }

  ghost predicate IsTask(p: Plan, t: string) {
    exists i :: 0 <= i < |p.nodes| && p.nodes[i].taskId == t
  }

  ghost predicate GoodEdges(p: Plan) {
    && (forall i, j :: 0 <= i < j < |p.edges| ==> p.edges[i] != p.edges[j])
    && forall e :: e in p.edges ==> IsTask(p, e.from) && IsTask(p, e.to) && e.from != e.to
  }

  /** A walk along the edges. */
  ghost predicate Walk(p: Plan, w: seq<string>) {
    && w != [] && (forall i :: 0 <= i < |w| ==> IsTask(p, w[i]))
    && forall i :: 0 <= i < |w| - 1 ==> Edge(w[i], w[i + 1]) in p.edges
  }

  ghost predicate WalkTo(p: Plan, w: seq<string>, t: string) {
    Walk(p, w) && w[|w| - 1] == t
  }

  /** No walk comes back to where it started, and the stated depth of a task is the number
      of tasks on a longest walk to it. */
  ghost predicate GoodDepths(p: Plan) {
    && (forall w :: Walk(p, w) && |w| >= 2 ==> w[0] != w[|w| - 1])
    && forall node :: node in p.nodes ==>
         && node.depth <= p.authorizedLimit.maxDepth as int
         && (exists w :: WalkTo(p, w, node.taskId) && |w| == node.depth)
         && forall w :: WalkTo(p, w, node.taskId) ==> |w| <= node.depth
  }

  ghost predicate GoodFanout(p: Plan) {
    forall f, targets :: Leads(p, f, targets) ==> |targets| <= p.authorizedLimit.maxFanout as int
  }

  ghost predicate Leads(p: Plan, f: string, targets: set<string>) {
    forall t :: t in targets ==> Edge(f, t) in p.edges
  }

  /** The join waits for exactly the tasks with an edge to its own, and its numbers fit its policy. */
  ghost predicate GoodJoin(p: Plan, join: Join) {
    && Identifier(join.joinId) && IsTask(p, join.downstream) && 2 <= |join.upstream| <= 64
    && (forall i, j :: 0 <= i < j < |join.upstream| ==> join.upstream[i] != join.upstream[j])
    && (forall t :: t in join.upstream <==> Edge(t, join.downstream) in p.edges)
    && (|| (join.policy == AllRequired && join.minimumSuccess == |join.upstream| && join.failurePolicy == FailGraph)
        || (join.policy == MinimumSucceeded && 1 <= join.minimumSuccess < |join.upstream|
            && join.failurePolicy == ContinueIfThresholdMet))
    && join.deadlineAt != 0 && p.createdAt < join.deadlineAt <= p.deadlineAt
    && exists node :: node in p.nodes && node.taskId == join.downstream && join.deadlineAt <= node.deadlineAt
  }

  ghost predicate GoodJoins(p: Plan) {
    && (forall i, j :: 0 <= i < j < |p.joins| ==>
          p.joins[i].joinId != p.joins[j].joinId && p.joins[i].downstream != p.joins[j].downstream)
    && (forall join :: join in p.joins ==> GoodJoin(p, join))
    && forall f, g, t :: Edge(f, t) in p.edges && Edge(g, t) in p.edges && f != g ==> Joined(p, t)
  }

  ghost predicate Joined(p: Plan, t: string) {
    exists i :: 0 <= i < |p.joins| && p.joins[i].downstream == t
  }

  /** What an accepted plan is. The limits of the tasks are added up in 64 bits. */
  ghost predicate GoodPlan(catalog: Catalog, p: Plan) {
    && GoodHeader(p)
    && (forall i, j :: 0 <= i < j < |p.nodes| ==> p.nodes[i].taskId != p.nodes[j].taskId)
    && (forall node :: node in p.nodes ==> GoodNode(catalog, node, p.createdAt, p.deadlineAt))
    && (forall m: Meter :: Wrap(TrueSum(Limits(p.nodes), m)) <= p.authorizedLimit.Of(m))
    && GoodEdges(p) && GoodFanout(p) && GoodDepths(p) && GoodJoins(p)
  }

  lemma {:induction false} HeaderIff(p: Plan)
    ensures HeaderValid(p) <==> GoodHeader(p)
  {
    hide ValidID, Identifier, ControlRecord, ControlOwned, ControlRevision, Revision, ControlActor;
    IdentifierIff(p.graphId);
    IdentifierIff(p.runId);
    IdentifierIff(p.parentTaskId);
    ControlOwnedIff(p.sourceResult, "model_call_result");
    RevisionIff(p.runtimePolicy, "runtime_policy");
    ActorIff(p.createdBy);
  }

  lemma {:induction false} TaskIff(p: Plan, t: string)
    ensures t in TaskSet(p) <==> IsTask(p, t)
  {
    if IsTask(p, t) {
      var i :| 0 <= i < |p.nodes| && p.nodes[i].taskId == t;
      assert TaskIds(p.nodes)[i] == t;
    }
  }

  lemma {:induction false} EdgesIff(p: Plan)
    ensures EdgesValid(TaskSet(p), p.edges) <==> GoodEdges(p)
  {
    hide IsTask;
    DistinctMeans(p.edges);
    forall e | e in p.edges
      ensures e.from in TaskSet(p) <==> IsTask(p, e.from)
      ensures e.to in TaskSet(p) <==> IsTask(p, e.to)
    {
      TaskIff(p, e.from);
      TaskIff(p, e.to);
    }
  }

  lemma {:induction false} UpstreamIff(p: Plan, f: string, t: string)
    ensures f in Upstream(p.edges, t) <==> Edge(f, t) in p.edges
    ensures t in Downstream(p.edges, f) <==> Edge(f, t) in p.edges
  {
    if f in Upstream(p.edges, t) {
      var e :| e in p.edges && e.to == t && e.from == f;
      assert e == Edge(f, t);
    }
    if t in Downstream(p.edges, f) {
      var e :| e in p.edges && e.from == f && e.to == t;
      assert e == Edge(f, t);
    }
  }

  lemma {:induction false} WalkIff(p: Plan, w: seq<string>)
    requires EdgesValid(TaskSet(p), p.edges)
    ensures IsPath(PlanGraph(p), w) <==> Walk(p, w)
  {
    hide IsTask;
    forall i | 0 <= i < |w|
      ensures w[i] in TaskSet(p) <==> IsTask(p, w[i])
    {
      TaskIff(p, w[i]);
    }
    forall i | 0 <= i < |w| - 1
      ensures w[i] in Upstream(p.edges, w[i + 1]) <==> Edge(w[i], w[i + 1]) in p.edges
    {
      UpstreamIff(p, w[i], w[i + 1]);
    }
  }

  lemma {:induction false} DepthsIff(p: Plan)
    requires EdgesValid(TaskSet(p), p.edges)
    ensures Acyclic(PlanGraph(p)) && (forall node :: node in p.nodes ==> DepthValid(p, node)) <==> GoodDepths(p)
  {
    hide IsPath, Walk;
    var g := PlanGraph(p);
    forall w
      ensures IsPath(g, w) <==> Walk(p, w)
    {
      WalkIff(p, w);
    }
    assert Acyclic(g) <==> forall w :: Walk(p, w) && |w| >= 2 ==> w[0] != w[|w| - 1] by {
      if Acyclic(g) {
        forall w | Walk(p, w) && |w| >= 2
          ensures w[0] != w[|w| - 1]
        {
          assert !IsCycle(g, w);
        }
      }
    }
    forall node | node in p.nodes
      ensures LongestPath(g, node.taskId, node.depth) <==>
        && (exists w :: WalkTo(p, w, node.taskId) && |w| == node.depth)
        && forall w :: WalkTo(p, w, node.taskId) ==> |w| <= node.depth
    {
      LongestIff(p, node.taskId, node.depth);
    }
  }

  lemma {:induction false} LongestIff(p: Plan, t: string, d: int)
    requires EdgesValid(TaskSet(p), p.edges)
    ensures LongestPath(PlanGraph(p), t, d) <==>
      && (exists w :: WalkTo(p, w, t) && |w| == d)
      && forall w :: WalkTo(p, w, t) ==> |w| <= d
  {
    hide IsPath, Walk;
    var g := PlanGraph(p);
    forall w
      ensures PathTo(g, w, t) <==> WalkTo(p, w, t)
    {
      WalkIff(p, w);
    }
  }

  lemma {:induction false} FanoutIff(p: Plan)
    ensures (forall f :: |Downstream(p.edges, f)| <= p.authorizedLimit.maxFanout as int) <==> GoodFanout(p)
  {
    hide Downstream;
    if forall f :: |Downstream(p.edges, f)| <= p.authorizedLimit.maxFanout as int {
      forall f, targets | Leads(p, f, targets)
        ensures |targets| <= p.authorizedLimit.maxFanout as int
      {
        forall t | t in targets
          ensures t in Downstream(p.edges, f)
        {
          UpstreamIff(p, f, t);
        }
        SubsetSize(targets, Downstream(p.edges, f));
      }
    }
    if GoodFanout(p) {
      forall f
        ensures |Downstream(p.edges, f)| <= p.authorizedLimit.maxFanout as int
      {
        forall t | t in Downstream(p.edges, f)
          ensures Edge(f, t) in p.edges
        {
          UpstreamIff(p, f, t);
        }
        assert Leads(p, f, Downstream(p.edges, f));
      }
    }
  }

  lemma {:induction false} JoinIff(p: Plan, join: Join)
    ensures JoinAccepted(p, join) <==> GoodJoin(p, join)
  {
    hide ValidID, Identifier, TaskSet, IsTask, Upstream;
    IdentifierIff(join.joinId);
    TaskIff(p, join.downstream);
    DistinctMeans(join.upstream);
    ListedIff(p, join);
  }

  lemma {:induction false} ListedIff(p: Plan, join: Join)
    ensures Elements(join.upstream) == Upstream(p.edges, join.downstream) <==>
      forall t :: t in join.upstream <==> Edge(t, join.downstream) in p.edges
  {
    hide Upstream;
    forall t
      ensures t in Upstream(p.edges, join.downstream) <==> Edge(t, join.downstream) in p.edges
    {
      UpstreamIff(p, t, join.downstream);
    }
    if forall t :: t in join.upstream <==> Edge(t, join.downstream) in p.edges {
      assert Elements(join.upstream) == Upstream(p.edges, join.downstream);
    }
    if Elements(join.upstream) == Upstream(p.edges, join.downstream) {
      forall t
        ensures t in join.upstream <==> Edge(t, join.downstream) in p.edges
      {
        assert t in Elements(join.upstream) <==> t in join.upstream;
      }
    }
  }

  lemma {:induction false} JoinsIff(p: Plan)
    ensures JoinsValid(p) <==> GoodJoins(p)
  {
    hide JoinAccepted, GoodJoin, Upstream;
    DistinctMeans(JoinIds(p.joins));
    DistinctMeans(JoinedTasks(p.joins));
    forall join | join in p.joins
      ensures JoinAccepted(p, join) <==> GoodJoin(p, join)
    {
      JoinIff(p, join);
    }
    SharedIff(p);
  }

  /** Two different upstream tasks are what makes a join necessary. */
  lemma {:induction false} SharedIff(p: Plan)
    ensures (forall t :: |Upstream(p.edges, t)| > 1 ==> t in JoinedTasks(p.joins)) <==>
      forall f, g, t :: Edge(f, t) in p.edges && Edge(g, t) in p.edges && f != g ==> Joined(p, t)
  {
    hide Upstream, Joined;
    forall t
      ensures t in JoinedTasks(p.joins) <==> Joined(p, t)
    {
      JoinedIff(p, t);
    }
    if forall t :: |Upstream(p.edges, t)| > 1 ==> t in JoinedTasks(p.joins) {
      forall f, g, t | Edge(f, t) in p.edges && Edge(g, t) in p.edges && f != g
        ensures Joined(p, t)
      {
        SeveralIff(p, t);
      }
    }
    if forall f, g, t :: Edge(f, t) in p.edges && Edge(g, t) in p.edges && f != g ==> Joined(p, t) {
      forall t | |Upstream(p.edges, t)| > 1
        ensures t in JoinedTasks(p.joins)
      {
        SeveralIff(p, t);
      }
    }
  }

  lemma {:induction false} JoinedIff(p: Plan, t: string)
    ensures t in JoinedTasks(p.joins) <==> Joined(p, t)
  {
    if Joined(p, t) {
      var i :| 0 <= i < |p.joins| && p.joins[i].downstream == t;
      assert JoinedTasks(p.joins)[i] == t;
    }
  }

  lemma {:induction false} SeveralIff(p: Plan, t: string)
    ensures |Upstream(p.edges, t)| > 1 <==>
      exists f, g :: Edge(f, t) in p.edges && Edge(g, t) in p.edges && f != g
  {
    hide Upstream;
    var up := Upstream(p.edges, t);
    if |up| > 1 {
      var f :| f in up;
      assert |up - {f}| >= 1;
      var g :| g in up - {f};
      UpstreamIff(p, f, t);
      UpstreamIff(p, g, t);
    }
    if f, g :| Edge(f, t) in p.edges && Edge(g, t) in p.edges && f != g {
      UpstreamIff(p, f, t);
      UpstreamIff(p, g, t);
      SubsetSize({f, g}, up);
    }
  }

  lemma {:induction false} AggregateIff(limits: seq<BudgetLimit>, limit: BudgetLimit)
    ensures AggregateWithin(Total(limits), limit) <==> forall m: Meter :: Wrap(TrueSum(limits, m)) <= limit.Of(m)
  {
    WithinByMeter(Total(limits), limit);
    forall m: Meter
      ensures Total(limits).Of(m) <= limit.Of(m) <==> Wrap(TrueSum(limits, m)) <= limit.Of(m)
    {
      TotalWraps(limits, m);
    }
  }

  lemma {:induction false} NodesIff(catalog: Catalog, p: Plan)
    ensures NodesValid(catalog, p) <==>
      (forall i, j :: 0 <= i < j < |p.nodes| ==> p.nodes[i].taskId != p.nodes[j].taskId)
      && forall node :: node in p.nodes ==> GoodNode(catalog, node, p.createdAt, p.deadlineAt)
  {
    hide NodeValid, GoodNode;
    DistinctMeans(TaskIds(p.nodes));
    forall node | node in p.nodes
      ensures NodeAccepted(catalog, p, node) <==> GoodNode(catalog, node, p.createdAt, p.deadlineAt)
    {
      NodeIff(catalog, node, p.createdAt, p.deadlineAt);
    }
  }

  lemma {:induction false} TopologyIff(p: Plan)
    ensures TopologyValid(p) <==> GoodEdges(p) && GoodFanout(p) && GoodDepths(p)
  {
    hide GoodEdges, GoodFanout, GoodDepths, EdgesValid, DepthValid, Acyclic;
    EdgesIff(p);
    FanoutIff(p);
    if EdgesValid(TaskSet(p), p.edges) {
      DepthsIff(p);
    }
  }

  /** The checker accepts exactly the plans described field by field. */
  lemma {:induction false} PlanIff(catalog: Catalog, p: Plan)
    ensures PlanValid(catalog, p) <==> GoodPlan(catalog, p)
  {
    hide HeaderValid, GoodHeader, NodesValid, GoodNode, AggregateWithin, JoinsValid, GoodJoins, TopologyValid,
      GoodFanout, GoodEdges, GoodDepths;
    HeaderIff(p);
    NodesIff(catalog, p);
    AggregateIff(Limits(p.nodes), p.authorizedLimit);
    TopologyIff(p);
    JoinsIff(p);
  }

  // ----- what the compiler takes -----

  ghost predicate GoodContext(c: Context) {
    && Identifier(c.runId) && Identifier(c.parentTaskId)
    && c.expectedRunStateGeneration >= 1 && c.expectedParentStateGeneration >= 1
    && ControlOwned(c.sourceResult, "model_call_result") && Revision(c.runtimePolicy, "runtime_policy")
    && Revision(c.specialistContract, "output_contract_revision")
    && Revision(c.answerContract, "output_contract_revision")
    && ControlActor(c.actor) && 1 <= c.round <= c.maxRounds <= 8 && c.deadlineAt != 0
  }

  /** One objective for each branch and one for the Desk, the latest committed behind the
      zero time and before the deadline, and a record ID short enough for the derived IDs. */
  ghost predicate GoodInputs(catalog: Catalog, v: P.Proposal, c: Context, objectives: seq<BlobRef>) {
    && A.GoodProposal(catalog, v) && GoodContext(c) && |Encode(c.sourceResult.recordId)| <= 175
    && |objectives| == |v.branches| + 1 && (forall o :: o in objectives ==> Objective(o))
    && (exists o :: o in objectives && o.committedAt > 0)
    && forall o :: o in objectives ==> o.committedAt < c.deadlineAt
  }

  lemma {:induction false} ContextIff(c: Context)
    ensures ContextValid(c) && ValidID(c.runId) && ValidID(c.parentTaskId) <==> GoodContext(c)
  {
    hide ValidID, Identifier, ControlRecord, ControlOwned, ControlRevision, Revision, ControlActor;
    NotEmpty(c.runId);
    NotEmpty(c.parentTaskId);
    ControlOwnedIff(c.sourceResult, "model_call_result");
    RevisionIff(c.runtimePolicy, "runtime_policy");
    RevisionIff(c.specialistContract, "output_contract_revision");
    RevisionIff(c.answerContract, "output_contract_revision");
    ActorIff(c.actor);
  }

  lemma {:induction false} NotEmpty(s: string)
    ensures ValidID(s) <==> Identifier(s)
    ensures Identifier(s) ==> s != ""
  {
    IdentifierIff(s);
  }

  lemma {:induction false} LatestIff(objectives: seq<BlobRef>, deadline: Time)
    ensures Latest(objectives) != 0 && Latest(objectives) < deadline <==>
      (exists o :: o in objectives && o.committedAt > 0)
      && forall o :: o in objectives ==> o.committedAt < deadline
  {
    var latest := Latest(objectives);
    assert latest == 0 || exists o :: o in objectives && o.committedAt == latest;
  }

  /** The compiler succeeds exactly on the inputs described field by field. */
  lemma {:induction false} InputsIff(catalog: Catalog, v: P.Proposal, c: Context, objectives: seq<BlobRef>)
    ensures InputsValid(catalog, v, c, objectives) && IdsFit(c) <==> GoodInputs(catalog, v, c, objectives)
  {
    hide P.ProposalValid, A.GoodProposal, ContextValid, GoodContext, ObjectiveBlob, Objective, ValidID;
    A.ProposalIff(catalog, v);
    ContextIff(c);
    EncodedLength(c.sourceResult.recordId);
    forall o | o in objectives
      ensures ObjectiveBlob(o) <==> Objective(o)
    {
      ObjectiveIff(o);
    }
    LatestIff(objectives, c.deadlineAt);
  }

  /** What an acceptable admission command is. */
  ghost predicate GoodCommand(catalog: Catalog, digest: Plan -> string, cmd: Command) {
    && cmd.schemaRevision == 1 && GoodEnvelope(cmd.envelope) && cmd.envelope.commandType == "admit_task_graph"
    && cmd.envelope.audience == ControlApi && ControlActor(cmd.envelope.actor)
    && cmd.expectedRunStateGeneration >= 1 && cmd.expectedParentStateGeneration >= 1
    && cmd.envelope.correlationId == cmd.plan.runId && cmd.envelope.causationId == cmd.plan.parentTaskId
    && cmd.envelope.actor == cmd.plan.createdBy && cmd.envelope.deadline <= cmd.plan.deadlineAt
    && GoodPlan(catalog, cmd.plan) && cmd.envelope.requestDigest == digest(cmd.plan)
  }

  lemma {:induction false} CommandIff(catalog: Catalog, digest: Plan -> string, cmd: Command)
    ensures CommandValid(catalog, digest, cmd) <==> GoodCommand(catalog, digest, cmd)
  {
    hide PlanValid, GoodPlan, GoodEnvelope, Identifier;
    PlanIff(catalog, cmd.plan);
    EnvelopeIff(cmd.envelope);
    if GoodEnvelope(cmd.envelope) {
      EnvelopeActor(cmd.envelope);
    }
  }

  lemma {:induction false} EnvelopeActor(e: CommandEnvelope)
    requires GoodEnvelope(e)
    ensures Identifier(e.actor.principalId)
  {
  }
}
