// The loops of TaskGraphPlan.Validate, proved against TaskGraphPlan.PlanValid
// (agent-platform/taskgraphcontract/validate.go).
module TaskGraphCheck {
  import opened Collections
  import opened Text
  import opened Contracts
  import opened Budget
  import opened Capability
  import opened TaskGraphDepth
  import opened TaskGraphEdges
  import opened TaskGraphPlan

  /** The fields that identify a record. The source joins them with NUL bytes,
      which a valid field cannot contain. */
  function RefKey(r: RecordRef): (string, string, string, nat) {
    (r.owner, r.recordType, r.recordId, r.schemaRevision)
  }

  method CheckRefs(refs: seq<RecordRef>) returns (ok: bool)
    ensures ok <==> RefsValid(refs)
  {
    var seen: set<(string, string, string, nat)> := {};
    var i := 0;
    while i < |refs|
      invariant 0 <= i <= |refs|
      invariant RefsValid(refs[..i])
      invariant forall k :: k in seen <==> exists j :: 0 <= j < i && RefKey(refs[j]) == k
    {
      var key := RefKey(refs[i]);
      if !refs[i].Valid() {
        assert refs[i] in refs;
        return false;
      }
      if key in seen {
        var j :| 0 <= j < i && RefKey(refs[j]) == key;
        assert SameRecord(refs[j], refs[i]);
        return false;
      }
      seen := seen + {key};
      assert refs[..i + 1] == refs[..i] + [refs[i]];
      i := i + 1;
    }
    assert refs[..i] == refs;
    ok := true;
  }

  ghost function GrantTools(grants: seq<ToolGrant>): set<string> {
    set grant | grant in grants :: grant.toolId
  }

  /** Reading grant i extends what was read. */
  lemma {:induction false} GrantRead(catalog: Catalog, grants: seq<ToolGrant>, i: nat, roleId: string, maxTools: nat)
    requires i < |grants| && GrantsValid(catalog, grants[..i], roleId, maxTools)
    requires grants[i].toolId !in GrantTools(grants[..i]) && GrantValid(catalog, grants[i], roleId, maxTools)
    ensures GrantTools(grants[..i + 1]) == GrantTools(grants[..i]) + {grants[i].toolId}
    ensures GrantsValid(catalog, grants[..i + 1], roleId, maxTools)
  {
    assert grants[..i + 1] == grants[..i] + [grants[i]];
    assert forall g :: g in grants[..i + 1] <==> g in grants[..i] || g == grants[i];
    forall k | 0 <= k < i
      ensures grants[k].toolId in GrantTools(grants[..i])
    {
      assert grants[k] in grants[..i];
    }
  }

  lemma {:induction false} GrantRefused(catalog: Catalog, grants: seq<ToolGrant>, i: nat, roleId: string, maxTools: nat)
    requires i < |grants|
    requires grants[i].toolId in GrantTools(grants[..i]) || !GrantValid(catalog, grants[i], roleId, maxTools)
    ensures !GrantsValid(catalog, grants, roleId, maxTools)
  {
    if grants[i].toolId in GrantTools(grants[..i]) {
      var j :| 0 <= j < i && grants[j].toolId == grants[i].toolId;
    } else {
      assert grants[i] in grants;
    }
  }

  method CheckGrants(catalog: Catalog, grants: seq<ToolGrant>, roleId: string, maxTools: nat) returns (ok: bool)
    ensures ok <==> GrantsValid(catalog, grants, roleId, maxTools)
  {
    var seenTools: set<string> := {};
    var i := 0;
    while i < |grants|
      invariant 0 <= i <= |grants|
      invariant GrantsValid(catalog, grants[..i], roleId, maxTools) && seenTools == GrantTools(grants[..i])
    {
      if grants[i].toolId in seenTools || !GrantValid(catalog, grants[i], roleId, maxTools) {
        GrantRefused(catalog, grants, i, roleId, maxTools);
        return false;
      }
      GrantRead(catalog, grants, i, roleId, maxTools);
      seenTools := seenTools + {grants[i].toolId};
      i := i + 1;
    }
    assert grants[..i] == grants;
    ok := true;
  }

  method CheckNode(catalog: Catalog, node: Node, createdAt: Time, graphDeadline: Time) returns (ok: bool)
    ensures ok <==> NodeValid(catalog, node, createdAt, graphDeadline)
  {
    var refsOk := CheckRefs(node.inputRefs);
    if !(ValidID(node.taskId) && ValidName(node.roleId) && node.roleRevision != 0 && 1 <= node.depth <= MAX_DEPTH
         && ObjectiveBlob(node.objective) && node.objective.committedAt <= createdAt
         && |node.inputRefs| <= MAX_REFERENCES && refsOk
         && ValidName(node.outputContractName) && ControlRevision(node.outputContract, "output_contract_revision")
         && LimitValid(node.limit) && ValidUTC(node.deadlineAt) && createdAt < node.deadlineAt <= graphDeadline) {
      return false;
    }
    var allowance := ToolAllowance(node);
    if allowance.None? || |node.toolGrants| > allowance.value || |node.toolGrants| > node.limit.maxToolCalls as int {
      return false;
    }
    ok := CheckGrants(catalog, node.toolGrants, node.roleId, allowance.value);
  }

  ghost predicate NodeTable(nodes: seq<Node>, table: map<string, Node>) {
    && table.Keys == Elements(TaskIds(nodes))
    && (forall i :: 0 <= i < |nodes| ==> nodes[i].taskId in table && table[nodes[i].taskId] == nodes[i])
  }

  /** The state of the node loop: table and aggregate hold the nodes read. */
  ghost predicate NodesRead(catalog: Catalog, p: Plan, nodes: seq<Node>, table: map<string, Node>,
                            aggregate: BudgetLimit) {
    && Distinct(TaskIds(nodes)) && NodeTable(nodes, table) && aggregate == Total(Limits(nodes))
    && (forall node {:trigger NodeAccepted(catalog, p, node)} :: node in nodes ==> NodeAccepted(catalog, p, node))
  }

  lemma {:induction false} NodeRead(catalog: Catalog, p: Plan, nodes: seq<Node>, table: map<string, Node>,
                                    aggregate: BudgetLimit, node: Node)
    requires NodesRead(catalog, p, nodes, table, aggregate)
    requires node.taskId !in table && NodeAccepted(catalog, p, node)
    ensures NodesRead(catalog, p, nodes + [node], table[node.taskId := node], AddBudget(aggregate, node.limit))
  {
    assert TaskIds(nodes + [node]) == TaskIds(nodes) + [node.taskId];
    DistinctSnoc(TaskIds(nodes), node.taskId);
    ElementsSnoc(TaskIds(nodes), node.taskId);
    TableRead(nodes, table, node);
    LimitsSnoc(nodes, node);
  }

  lemma {:induction false} LimitsSnoc(nodes: seq<Node>, node: Node)
    ensures Total(Limits(nodes + [node])) == AddBudget(Total(Limits(nodes)), node.limit)
  {
    assert Limits(nodes + [node])[..|nodes|] == Limits(nodes);
  }

  lemma {:induction false} TableRead(nodes: seq<Node>, table: map<string, Node>, node: Node)
    requires NodeTable(nodes, table) && node.taskId !in table
    ensures NodeTable(nodes + [node], table[node.taskId := node])
  {
    assert TaskIds(nodes + [node]) == TaskIds(nodes) + [node.taskId];
    ElementsSnoc(TaskIds(nodes), node.taskId);
    forall i | 0 <= i < |nodes|
      ensures nodes[i].taskId != node.taskId
    {
      assert nodes[i].taskId in table;
    }
  }

  /** Having read all nodes is having found them valid. */
  lemma {:induction false} AllNodesRead(catalog: Catalog, p: Plan, table: map<string, Node>, aggregate: BudgetLimit)
    requires NodesRead(catalog, p, p.nodes, table, aggregate)
    ensures NodesValid(catalog, p) && NodeTable(p.nodes, table) && aggregate == Total(Limits(p.nodes))
  {
  }

  lemma {:induction false} NodeRefused(catalog: Catalog, p: Plan, i: nat, table: map<string, Node>)
    requires i < |p.nodes| && NodeTable(p.nodes[..i], table)
    requires p.nodes[i].taskId in table || !NodeAccepted(catalog, p, p.nodes[i])
    ensures !NodesValid(catalog, p)
  {
    if p.nodes[i].taskId in table {
      assert TaskIds(p.nodes)[..i] == TaskIds(p.nodes[..i]);
      RepeatedPrefix(TaskIds(p.nodes), i);
    } else {
      assert p.nodes[i] in p.nodes;
    }
  }

  method CheckNodes(catalog: Catalog, p: Plan) returns (ok: bool, table: map<string, Node>, aggregate: BudgetLimit)
    ensures ok <==> NodesValid(catalog, p)
    ensures ok ==> NodeTable(p.nodes, table) && aggregate == Total(Limits(p.nodes))
  {
    table, aggregate := map[], ZERO_LIMIT;
    var i := 0;
    while i < |p.nodes|
      invariant 0 <= i <= |p.nodes|
      invariant NodesRead(catalog, p, p.nodes[..i], table, aggregate)
    {
      var node := p.nodes[i];
      if node.taskId in table {
        NodeRefused(catalog, p, i, table);
        return false, table, aggregate;
      }
      var valid := CheckNode(catalog, node, p.createdAt, p.deadlineAt);
      if !valid {
        NodeRefused(catalog, p, i, table);
        return false, table, aggregate;
      }
      NodeRead(catalog, p, p.nodes[..i], table, aggregate, node);
      assert p.nodes[..i + 1] == p.nodes[..i] + [node];
      table := table[node.taskId := node];
      aggregate := AddBudget(aggregate, node.limit);
      i := i + 1;
    }
    assert p.nodes[..i] == p.nodes;
    AllNodesRead(catalog, p, table, aggregate);
    ok := true;
  }

  /** TaskGraphJoin.validate, with the incoming edges of the downstream task. */
  method CheckJoin(p: Plan, table: map<string, Node>, incoming: Table<string>, join: Join) returns (ok: bool)
    requires NodeTable(p.nodes, table) && EdgesValid(TaskSet(p), p.edges)
    requires Lists(At(incoming, join.downstream), Upstream(p.edges, join.downstream))
    ensures ok <==> JoinValid(p, join)
  {
    if join.downstream !in table || |join.upstream| < 2 || |join.upstream| > MAX_TASKS {
      return false;
    }
    var downstream := table[join.downstream];
    assert DeadlineWithin(p, join) <==> ValidUTC(join.deadlineAt) && p.createdAt < join.deadlineAt <= p.deadlineAt
                                        && join.deadlineAt <= downstream.deadlineAt by {
      DownstreamNode(p, table, join);
    }
    if !(ValidUTC(join.deadlineAt) && p.createdAt < join.deadlineAt <= p.deadlineAt
         && join.deadlineAt <= downstream.deadlineAt) {
      return false;
    }
    ok := CheckUpstream(table.Keys, At(incoming, join.downstream), join.upstream, join.downstream);
    UpstreamIsTasks(p, join.downstream);
    ok := ok && PolicyValid(join);
  }

  lemma {:induction false} DownstreamNode(p: Plan, table: map<string, Node>, join: Join)
    requires NodeTable(p.nodes, table) && join.downstream in table
    ensures table[join.downstream] in p.nodes && table[join.downstream].taskId == join.downstream
    ensures forall node :: node in p.nodes && node.taskId == join.downstream ==> node == table[join.downstream]
  {
    var i :| 0 <= i < |p.nodes| && TaskIds(p.nodes)[i] == join.downstream;
  }

  lemma {:induction false} UpstreamIsTasks(p: Plan, t: string)
    requires EdgesValid(TaskSet(p), p.edges)
    ensures Upstream(p.edges, t) <= TaskSet(p) && t !in Upstream(p.edges, t)
  {
    forall f | f in Upstream(p.edges, t)
      ensures f in TaskSet(p) && f != t
    {
      var e :| e in p.edges && e.to == t && e.from == f;
      assert EdgeWithin(TaskSet(p), e);
    }
  }

  /** The membership loop: no unknown, repeated or missing upstream task. */
  method CheckUpstream<T(==,!new)>(nodes: set<T>, incoming: seq<T>, upstream: seq<T>, downstream: T) returns (ok: bool)
    requires Distinct(incoming) && Elements(incoming) <= nodes && downstream !in Elements(incoming)
    ensures ok <==> Distinct(upstream) && Elements(upstream) == Elements(incoming)
  {
    var want := set t | t in incoming;
    var seen: set<T> := {};
    var i := 0;
    while i < |upstream|
      invariant 0 <= i <= |upstream|
      invariant Distinct(upstream[..i]) && seen == Elements(upstream[..i]) && seen <= want
    {
      var t := upstream[i];
      assert upstream[..i + 1] == upstream[..i] + [t];
      if t !in nodes || t == downstream {
        assert t in Elements(upstream);
        return false;
      }
      if t in seen {
        RepeatedPrefix(upstream, i);
        return false;
      }
      if t !in want {
        assert t in Elements(upstream);
        return false;
      }
      seen := seen + {t};
      DistinctSnoc(upstream[..i], t);
      ElementsSnoc(upstream[..i], t);
      i := i + 1;
    }
    assert upstream[..i] == upstream;
    SubsetSize(seen, want);
    ok := |seen| == |want|;
  }

  /** The state of the join loop. */
  ghost predicate JoinsRead(p: Plan, joins: seq<Join>, ids: set<string>, joined: set<string>) {
    && Distinct(JoinIds(joins)) && ids == Elements(JoinIds(joins))
    && Distinct(JoinedTasks(joins)) && joined == Elements(JoinedTasks(joins))
    && (forall join {:trigger JoinAccepted(p, join)} :: join in joins ==> JoinAccepted(p, join))
  }

  lemma {:induction false} JoinRead(p: Plan, joins: seq<Join>, ids: set<string>, joined: set<string>, join: Join)
    requires JoinsRead(p, joins, ids, joined)
    requires join.joinId !in ids && join.downstream !in joined && JoinAccepted(p, join)
    ensures JoinsRead(p, joins + [join], ids + {join.joinId}, joined + {join.downstream})
  {
    assert JoinIds(joins + [join]) == JoinIds(joins) + [join.joinId];
    assert JoinedTasks(joins + [join]) == JoinedTasks(joins) + [join.downstream];
    DistinctSnoc(JoinIds(joins), join.joinId);
    ElementsSnoc(JoinIds(joins), join.joinId);
    DistinctSnoc(JoinedTasks(joins), join.downstream);
    ElementsSnoc(JoinedTasks(joins), join.downstream);
  }

  lemma {:induction false} JoinRefused(p: Plan, i: nat, ids: set<string>, joined: set<string>)
    requires i < |p.joins| && JoinsRead(p, p.joins[..i], ids, joined)
    requires p.joins[i].joinId in ids || p.joins[i].downstream in joined || !JoinAccepted(p, p.joins[i])
    ensures !JoinsValid(p)
  {
    if p.joins[i].joinId in ids {
      assert JoinIds(p.joins)[..i] == JoinIds(p.joins[..i]);
      RepeatedPrefix(JoinIds(p.joins), i);
    } else if p.joins[i].downstream in joined {
      assert JoinedTasks(p.joins)[..i] == JoinedTasks(p.joins[..i]);
      RepeatedPrefix(JoinedTasks(p.joins), i);
    } else {
      assert p.joins[i] in p.joins;
    }
  }

  /** A join that was read has a downstream task with two or more inputs. */
  lemma {:induction false} JoinedHasInputs(p: Plan, joins: seq<Join>, ids: set<string>, joined: set<string>, t: string)
    requires JoinsRead(p, joins, ids, joined) && t in joined
    ensures |Upstream(p.edges, t)| > 1 && t in TaskSet(p)
  {
    var k :| 0 <= k < |joins| && JoinedTasks(joins)[k] == t;
    assert JoinAccepted(p, joins[k]);
    DistinctLength(joins[k].upstream);
  }

  method CheckJoins(p: Plan, table: map<string, Node>, incoming: Table<string>, outgoing: Table<string>)
      returns (ok: bool)
    requires NodeTable(p.nodes, table) && EdgesValid(TaskSet(p), p.edges)
    requires TablesOf(p.edges, incoming, outgoing)
    ensures ok <==> JoinsValid(p)
  {
    var joined;
    ok, joined := ReadJoins(p, table, incoming, outgoing);
    if ok {
      ok := CheckMultiInput(p.edges, incoming, outgoing, joined);
    }
  }

  method ReadJoins(p: Plan, table: map<string, Node>, incoming: Table<string>, outgoing: Table<string>)
      returns (ok: bool, joined: set<string>)
    requires NodeTable(p.nodes, table) && EdgesValid(TaskSet(p), p.edges)
    requires TablesOf(p.edges, incoming, outgoing)
    ensures JoinsValid(p) ==> ok
    ensures ok ==> exists ids :: JoinsRead(p, p.joins, ids, joined)
    ensures ok ==> forall t :: t in joined ==> |Upstream(p.edges, t)| > 1
  {
    var joins: set<string> := {};
    joined := {};
    var i := 0;
    while i < |p.joins|
      invariant 0 <= i <= |p.joins|
      invariant JoinsRead(p, p.joins[..i], joins, joined)
    {
      var join := p.joins[i];
      if !ValidID(join.joinId) || join.joinId in joins || join.downstream in joined {
        JoinRefused(p, i, joins, joined);
        return false, joined;
      }
      assert Lists(At(incoming, join.downstream), Upstream(p.edges, join.downstream));
      var valid := CheckJoin(p, table, incoming, join);
      if !valid {
        JoinRefused(p, i, joins, joined);
        return false, joined;
      }
      JoinRead(p, p.joins[..i], joins, joined, join);
      assert p.joins[..i + 1] == p.joins[..i] + [join];
      joins := joins + {join.joinId};
      joined := joined + {join.downstream};
      i := i + 1;
    }
    assert p.joins[..i] == p.joins;
    forall t | t in joined
      ensures |Upstream(p.edges, t)| > 1
    {
      JoinedHasInputs(p, p.joins, joins, joined, t);
    }
    ok := true;
  }

  /** The last loop: a task has a Join exactly when it has two or more inputs. */
  method CheckMultiInput<T(==,!new)>(edges: seq<Edge<T>>, incoming: Table<T>, outgoing: Table<T>, joined: set<T>)
      returns (ok: bool)
    requires TablesOf(edges, incoming, outgoing)
    ensures ok <==> forall t :: t in incoming ==> (|Upstream(edges, t)| > 1 <==> t in joined)
    ensures forall t {:trigger Upstream(edges, t)} :: t !in incoming ==> |Upstream(edges, t)| == 0
  {
    forall t {:trigger Upstream(edges, t)}
      ensures |Upstream(edges, t)| == |At(incoming, t)|
    {
      assert Lists(At(incoming, t), Upstream(edges, t));
      DistinctLength(At(incoming, t));
    }
    var todo := incoming.Keys;
    while todo != {}
      invariant todo <= incoming.Keys
      invariant forall t :: t in incoming.Keys - todo ==> (|Upstream(edges, t)| > 1 <==> t in joined)
      decreases todo
    {
      var t :| t in todo;
      if (|incoming[t]| > 1) != (t in joined) {
        assert |Upstream(edges, t)| == |At(incoming, t)|;
        return false;
      }
      todo := todo - {t};
    }
    ok := true;
  }

  /** TaskGraphPlan.Validate. */
  method Validate(catalog: Catalog, p: Plan) returns (ok: bool)
    ensures ok <==> PlanValid(catalog, p)
  {
    if !HeaderValid(p) {
      return false;
    }
    var table, aggregate;
    ok, table, aggregate := CheckNodes(catalog, p);
    if !ok || !AggregateWithin(aggregate, p.authorizedLimit) {
      return false;
    }
    var incoming, outgoing;
    ok, incoming, outgoing := CheckTopology(p, table);
    if ok {
      ok := CheckJoins(p, table, incoming, outgoing);
    }
  }

  method CheckTopology(p: Plan, table: map<string, Node>)
      returns (ok: bool, incoming: Table<string>, outgoing: Table<string>)
    requires NodeTable(p.nodes, table) && p.authorizedLimit.Valid()
    ensures ok <==> TopologyValid(p)
    ensures ok ==> TablesOf(p.edges, incoming, outgoing)
  {
    ok, incoming, outgoing := BuildTables(table.Keys, p.edges);
    if !ok {
      return;
    }
    ok := FanoutWithin(p.edges, incoming, outgoing, p.authorizedLimit.maxFanout as int);
    if !ok {
      return;
    }
    TablesMatchGraph(TaskSet(p), p.edges, incoming, outgoing);
    var depths;
    depths, ok := GraphDepths(PlanGraph(p), table.Keys, incoming, outgoing);
    if ok {
      ok := CheckDepths(p, table, depths);
    }
  }

  method CheckDepths(p: Plan, table: map<string, Node>, depths: map<string, int>) returns (ok: bool)
    requires NodeTable(p.nodes, table) && EdgesValid(TaskSet(p), p.edges)
    requires depths.Keys == TaskSet(p) && forall t :: t in TaskSet(p) ==> LongestPath(PlanGraph(p), t, depths[t])
    ensures ok <==> forall node {:trigger DepthValid(p, node)} :: node in p.nodes ==> DepthValid(p, node)
  {
    hide LongestPath;
    var todo := depths.Keys;
    while todo != {}
      invariant todo <= depths.Keys
      invariant forall t :: t in depths.Keys - todo ==>
        table[t].depth == depths[t] && depths[t] <= p.authorizedLimit.maxDepth as int
      decreases todo
    {
      var t :| t in todo;
      if table[t].depth != depths[t] || depths[t] > p.authorizedLimit.maxDepth as int {
        DepthRefused(p, table, depths, t);
        return false;
      }
      todo := todo - {t};
    }
    forall node {:trigger DepthValid(p, node)} | node in p.nodes
      ensures DepthValid(p, node)
    {
      var k :| 0 <= k < |p.nodes| && p.nodes[k] == node;
      assert TaskIds(p.nodes)[k] == node.taskId;
    }
    ok := true;
  }

  lemma {:induction false} DepthRefused(p: Plan, table: map<string, Node>, depths: map<string, int>, t: string)
    requires NodeTable(p.nodes, table) && EdgesValid(TaskSet(p), p.edges) && t in TaskSet(p) && t in depths
    requires LongestPath(PlanGraph(p), t, depths[t])
    requires t in table && (table[t].depth != depths[t] || depths[t] > p.authorizedLimit.maxDepth as int)
    ensures exists node {:trigger DepthValid(p, node)} :: node in p.nodes && !DepthValid(p, node)
  {
    var k :| 0 <= k < |p.nodes| && TaskIds(p.nodes)[k] == t;
    assert p.nodes[k] in p.nodes && p.nodes[k] == table[t];
    LongestPathUnique(PlanGraph(p), t, depths[t], table[t].depth);
    assert !DepthValid(p, p.nodes[k]);
  }

  lemma {:induction false} LongestPathUnique<T(!new)>(g: Graph<T>, t: T, d1: int, d2: int)
    requires g.Valid() && LongestPath(g, t, d1)
    ensures LongestPath(g, t, d2) ==> d1 == d2
  {
  }
}
