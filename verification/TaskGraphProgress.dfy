// What acceptance of a plan means for its execution
// (agent-platform/taskgraphcontract/validate.go, migrations 0065, 0071 and 0077).
module TaskGraphProgress {
  import opened Collections
  import opened Contracts
  import opened Budget
  import opened Capability
  import opened TaskGraphDepth
  import opened TaskGraphEdges
  import opened TaskGraphPlan
  import Run = TaskGraphRun
  import Stops = TaskGraphStops
  import Rounds = TaskGraphRounds

  // ----- joins -----

  /** The tasks that merge two or more results. */
  ghost function MergingTasks(p: Plan): set<string> {
    set t | t in TaskSet(p) && |Upstream(p.edges, t)| > 1
  }

  lemma {:induction false} OneJoinEach(joins: seq<Join>, a: Join, b: Join)
    requires Distinct(JoinedTasks(joins)) && a in joins && b in joins && a.downstream == b.downstream
    ensures a == b
  {
    var i :| 0 <= i < |joins| && joins[i] == a;
    var j :| 0 <= j < |joins| && joins[j] == b;
    DistinctPositions(JoinedTasks(joins), i, j);
  }

  lemma {:induction false} JoinOnMerging(catalog: Catalog, p: Plan, join: Join)
    requires PlanValid(catalog, p) && join in p.joins
    ensures Elements(join.upstream) == Upstream(p.edges, join.downstream)
    ensures |join.upstream| == |Upstream(p.edges, join.downstream)| && join.downstream in MergingTasks(p)
  {
    assert JoinAccepted(p, join);
    DistinctLength(join.upstream);
  }

  /** In an accepted plan the Joins are one-to-one with the merging tasks, and each
      waits for exactly the tasks with an edge to its own. */
  lemma {:induction false} JoinsOneToOne(catalog: Catalog, p: Plan)
    requires PlanValid(catalog, p)
    ensures Elements(JoinedTasks(p.joins)) == MergingTasks(p) && |p.joins| == |MergingTasks(p)|
    ensures forall a, b :: a in p.joins && b in p.joins && a.downstream == b.downstream ==> a == b
    ensures forall join :: join in p.joins ==>
      Elements(join.upstream) == Upstream(p.edges, join.downstream)
      && |join.upstream| == |Upstream(p.edges, join.downstream)|
  {
    DistinctLength(JoinedTasks(p.joins));
    forall join | join in p.joins
      ensures Elements(join.upstream) == Upstream(p.edges, join.downstream)
      ensures |join.upstream| == |Upstream(p.edges, join.downstream)| && join.downstream in MergingTasks(p)
    {
      JoinOnMerging(catalog, p, join);
    }
    forall t
      ensures t in JoinedTasks(p.joins) <==> t in MergingTasks(p)
    {
      if t in JoinedTasks(p.joins) {
        var k :| 0 <= k < |p.joins| && JoinedTasks(p.joins)[k] == t;
        assert p.joins[k] in p.joins;
      }
    }
    forall a, b | a in p.joins && b in p.joins && a.downstream == b.downstream
      ensures a == b
    {
      OneJoinEach(p.joins, a, b);
    }
  }

  // ----- depths along edges -----

  lemma {:induction false} DepthRises<T(!new)>(g: Graph<T>, u: T, e: int, t: T, d: int)
    requires g.Valid() && t in g.nodes && u in g.up[t] && LongestPath(g, u, e) && LongestPath(g, t, d)
    ensures 1 <= e < d
  {
    var q :| PathTo(g, q, u) && |q| == e;
    assert PathTo(g, q + [t], t);
  }

  lemma {:induction false} DepthStep<T(!new)>(g: Graph<T>, t: T, d: int)
    requires g.Valid() && t in g.nodes && LongestPath(g, t, d)
    ensures d >= 1
    ensures d > 1 ==> exists q, u :: u in g.up[t] && PathTo(g, q, u) && |q| == d - 1
  {
    var q :| PathTo(g, q, t) && |q| == d;
    if d > 1 {
      assert q[d - 2] in g.up[q[d - 2 + 1]];
      assert PathTo(g, q[..d - 1], q[d - 2]);
    }
  }

  // ----- the rules a plan sets for its run -----

  ghost function NodeOf(p: Plan, t: string): Node
    requires t in TaskSet(p)
  {
    var i :| 0 <= i < |p.nodes| && TaskIds(p.nodes)[i] == t;
    p.nodes[i]
  }

  ghost function JoinOf(p: Plan, t: string): Option<Join> {
    if join :| join in p.joins && join.downstream == t then Some(join) else None
  }

  ghost function Needs(p: Plan, t: string): nat {
    match JoinOf(p, t)
    case Some(join) => if join.minimumSuccess >= 0 then join.minimumSuccess else 0
    case None => |Upstream(p.edges, t)|
  }

  /** Those of the tasks that have exactly one upstream task. */
  ghost function Singles(p: Plan, ids: seq<string>): (singles: seq<string>)
    ensures forall t :: t in singles <==> t in ids && |Upstream(p.edges, t)| == 1
  {
    if ids == [] then []
    else
      (if |Upstream(p.edges, ids[0])| == 1 then [ids[0]] else []) + Singles(p, ids[1..])
  }

  /** The tasks the reconciler releases, in its order. The installed one goes by the Joins;
      releaseSingle is the assumed rule that a task with one upstream task is released
      like a Join over that task. */
  ghost function JoinOrder(p: Plan, releaseSingle: bool): seq<string> {
    JoinedTasks(p.joins) + if releaseSingle then Singles(p, TaskIds(p.nodes)) else []
  }

  /** Workers are told about a Desk once its Join is ready, and about a Specialist with a
      tool only when its first tool is of revision 1 and it may call the model twice. */
  ghost predicate IsOffered(node: Node, joins: seq<string>) {
    if node.roleId == DECISION_DESK then node.taskId in joins
    else node.toolGrants == [] || (node.toolGrants[0].toolRevision == 1 && node.limit.maxModelCalls >= 2)
  }

  ghost function RulesOf(p: Plan, releaseSingle: bool): Run.Rules<string>
    requires EdgesValid(TaskSet(p), p.edges) && p.authorizedLimit.maxParallelism >= 0
  {
    Run.Rules(
      PlanGraph(p),
      map t | t in TaskSet(p) :: NodeOf(p, t).depth,
      map t | t in TaskSet(p) :: Needs(p, t),
      (set t | t in TaskSet(p) && (JoinOf(p, t).None? || JoinOf(p, t).value.policy.AllRequired?)),
      p.authorizedLimit.maxParallelism as int,
      JoinOrder(p, releaseSingle),
      (set t | t in TaskSet(p) && NodeOf(p, t).roleId == DECISION_DESK),
      (set t | t in TaskSet(p) && IsOffered(NodeOf(p, t), JoinOrder(p, releaseSingle))))
  }

  lemma {:induction false} NeedsBounded(catalog: Catalog, p: Plan, t: string)
    requires PlanValid(catalog, p)
    ensures Needs(p, t) <= |Upstream(p.edges, t)|
    ensures JoinOf(p, t).None? || JoinOf(p, t).value.policy.AllRequired? ==> Needs(p, t) == |Upstream(p.edges, t)|
  {
    if JoinOf(p, t).Some? {
      var join := JoinOf(p, t).value;
      assert JoinAccepted(p, join);
      DistinctLength(join.upstream);
    }
  }

  lemma {:induction false} NodeDepth(catalog: Catalog, p: Plan, t: string)
    requires PlanValid(catalog, p) && t in TaskSet(p)
    ensures LongestPath(PlanGraph(p), t, NodeOf(p, t).depth)
    ensures NodeOf(p, t).depth <= p.authorizedLimit.maxDepth as int <= MAX_DEPTH
  {
    var node := NodeOf(p, t);
    assert DepthValid(p, node);
  }

  lemma {:induction false} OrderedHaveInputs(catalog: Catalog, p: Plan, releaseSingle: bool, t: string)
    requires PlanValid(catalog, p) && t in JoinOrder(p, releaseSingle)
    ensures t in TaskSet(p) && Upstream(p.edges, t) != {}
  {
    if t in JoinedTasks(p.joins) {
      var k :| 0 <= k < |p.joins| && JoinedTasks(p.joins)[k] == t;
      assert JoinAccepted(p, p.joins[k]);
      DistinctLength(p.joins[k].upstream);
    }
  }

  lemma {:induction false} SoundTask(catalog: Catalog, p: Plan, releaseSingle: bool, t: string)
    requires PlanValid(catalog, p) && t in TaskSet(p)
    ensures var r := RulesOf(p, releaseSingle); r.Sound(t)
  {
    var r := RulesOf(p, releaseSingle);
    NeedsBounded(catalog, p, t);
    NodeDepth(catalog, p, t);
    DepthStep(r.graph, t, r.depth[t]);
    forall u | u in r.graph.up[t]
      ensures r.depth[u] < r.depth[t]
    {
      NodeDepth(catalog, p, u);
      DepthRises(r.graph, u, r.depth[u], t, r.depth[t]);
    }
  }

  lemma {:induction false} RulesAreValid(catalog: Catalog, p: Plan, releaseSingle: bool)
    requires PlanValid(catalog, p)
    ensures RulesOf(p, releaseSingle).Valid() && Rounds.DepthsExact(RulesOf(p, releaseSingle))
  {
    var r := RulesOf(p, releaseSingle);
    forall t {:trigger r.Sound(t)} | t in TaskSet(p)
      ensures r.Sound(t)
    {
      SoundTask(catalog, p, releaseSingle, t);
    }
    forall t | t in r.joins
      ensures t in r.graph.nodes && r.graph.up[t] != {}
    {
      OrderedHaveInputs(catalog, p, releaseSingle, t);
    }
    forall t {:trigger Rounds.DepthExact(r, t)} | t in TaskSet(p)
      ensures Rounds.DepthExact(r, t)
    {
      PredecessorDepth(catalog, p, r, t);
    }
  }

  lemma {:induction false} PredecessorDepth(catalog: Catalog, p: Plan, r: Run.Rules<string>, t: string)
    requires PlanValid(catalog, p) && t in TaskSet(p) && r.graph == PlanGraph(p)
    requires r.depth.Keys == TaskSet(p) && forall u :: u in TaskSet(p) ==> r.depth[u] == NodeOf(p, u).depth
    ensures r.depth[t] >= 1
    ensures r.depth[t] > 1 ==> exists u :: u in r.graph.up[t] && r.depth[u] == r.depth[t] - 1
  {
    NodeDepth(catalog, p, t);
    DepthStep(r.graph, t, r.depth[t]);
    if r.depth[t] > 1 {
      var q, u :| u in r.graph.up[t] && PathTo(r.graph, q, u) && |q| == r.depth[t] - 1;
      NodeDepth(catalog, p, u);
      DepthRises(r.graph, u, r.depth[u], t, r.depth[t]);
    }
  }

  // ----- the main results -----

  ghost predicate NoSingleInput(p: Plan) {
    forall t :: t in TaskSet(p) ==> |Upstream(p.edges, t)| != 1
  }

  /** Every Desk has a Join, and every Specialist with a tool may be told to workers. */
  ghost predicate NodesOffered(p: Plan, releaseSingle: bool) {
    forall node :: node in p.nodes ==> IsOffered(node, JoinOrder(p, releaseSingle))
  }

  /** A run of an accepted plan can come to wait for the Run's deadline exactly when the
      Specialists alone satisfy every Join that comes up; and with unfinished tasks
      exactly when, besides, not every task comes up and is offered. */
  lemma {:induction false} AcceptedPlanProgress(catalog: Catalog, p: Plan, releaseSingle: bool)
    requires PlanValid(catalog, p)
    ensures var r := RulesOf(p, releaseSingle);
      && r.Valid() && (Stops.MayWait(r, false) <==> Stops.SpecialistsSuffice(r))
      && (Stops.MayWait(r, true) <==>
            Stops.SpecialistsSuffice(r) && Stops.ComesUp(r) * r.offered != TaskSet(p))
  {
    RulesAreValid(catalog, p, releaseSingle);
    Stops.MayWaitIff(RulesOf(p, releaseSingle));
  }

  /** With at most one batch of Joins every task of an accepted plan comes up and is
      offered exactly when all nodes are offered and, under the installed reconciler, no
      task has exactly one upstream task. */
  lemma {:induction false} AcceptedPlanComesUp(catalog: Catalog, p: Plan, releaseSingle: bool)
    requires PlanValid(catalog, p) && |JoinOrder(p, releaseSingle)| <= 32
    ensures var r := RulesOf(p, releaseSingle);
      && r.Valid()
      && (Stops.ComesUp(r) * r.offered == TaskSet(p) <==>
            NodesOffered(p, releaseSingle) && (releaseSingle || NoSingleInput(p)))
  {
    RulesAreValid(catalog, p, releaseSingle);
    Stops.AllComeUpIff(RulesOf(p, releaseSingle));
    AllOfferedIff(catalog, p, releaseSingle);
  }

  /** What it means for the plan that every task is offered and released in its turn. */
  lemma {:induction false} AllOfferedIff(catalog: Catalog, p: Plan, releaseSingle: bool)
    requires PlanValid(catalog, p) && RulesOf(p, releaseSingle).Valid()
    ensures Rounds.AllOffered(RulesOf(p, releaseSingle))
       <==> NodesOffered(p, releaseSingle) && (releaseSingle || NoSingleInput(p))
  {
    var r := RulesOf(p, releaseSingle);
    OfferedIff(catalog, p, releaseSingle);
    forall t | t in TaskSet(p)
      ensures (r.graph.up[t] != {} ==> t in r.joins) <==> (|Upstream(p.edges, t)| == 1 ==> releaseSingle)
    {
      JoinedIff(catalog, p, releaseSingle, t);
    }
  }

  lemma {:induction false} JoinedIff(catalog: Catalog, p: Plan, releaseSingle: bool, t: string)
    requires PlanValid(catalog, p) && t in TaskSet(p)
    ensures (Upstream(p.edges, t) != {} ==> t in JoinOrder(p, releaseSingle))
       <==> (|Upstream(p.edges, t)| == 1 ==> releaseSingle)
  {
    JoinsOneToOne(catalog, p);
    assert t in JoinedTasks(p.joins) <==> t in Elements(JoinedTasks(p.joins));
    if |Upstream(p.edges, t)| == 0 {
      assert Upstream(p.edges, t) == {};
    }
  }

  lemma {:induction false} OfferedIff(catalog: Catalog, p: Plan, releaseSingle: bool)
    requires PlanValid(catalog, p)
    ensures var r := RulesOf(p, releaseSingle); r.offered == r.graph.nodes <==> NodesOffered(p, releaseSingle)
  {
    var r, joins := RulesOf(p, releaseSingle), JoinOrder(p, releaseSingle);
    if NodesOffered(p, releaseSingle) {
      forall t | t in TaskSet(p)
        ensures t in r.offered
      {
        assert NodeOf(p, t) in p.nodes;
      }
    }
    if r.offered == r.graph.nodes {
      forall node | node in p.nodes
        ensures IsOffered(node, joins)
      {
        OwnNode(catalog, p, node);
        assert node.taskId in r.offered;
      }
    }
  }

  lemma {:induction false} OwnNode(catalog: Catalog, p: Plan, node: Node)
    requires PlanValid(catalog, p) && node in p.nodes
    ensures node.taskId in TaskSet(p) && NodeOf(p, node.taskId) == node
  {
    var i :| 0 <= i < |p.nodes| && p.nodes[i] == node;
    assert TaskIds(p.nodes)[i] == node.taskId;
    var j :| 0 <= j < |p.nodes| && TaskIds(p.nodes)[j] == node.taskId && NodeOf(p, node.taskId) == p.nodes[j];
    DistinctPositions(TaskIds(p.nodes), i, j);
  }

  /** Level by level a run of an accepted plan is over after MaxDepth rounds, at most
      eight: the Run has ended, or every task has. */
  lemma {:induction false} AcceptedPlanRounds(catalog: Catalog, p: Plan, releaseSingle: bool, r: Run.Rules<string>,
                                              states: seq<Run.Exec<string>>, k: nat)
    requires PlanValid(catalog, p) && r == RulesOf(p, releaseSingle) && r.Valid()
    requires k == p.authorizedLimit.maxDepth as int && |states| == k + 1
    requires forall i {:trigger states[i]} :: 0 < i < |states| ==> Rounds.Round(r, states[i - 1], states[i])
    ensures 1 <= k <= 8 && (states[k].Live() ==> Run.Done(states[k]) == TaskSet(p))
  {
    DepthsWithin(catalog, p, releaseSingle);
    Rounds.AllRoundsFinish(r, states, k);
  }

  lemma {:induction false} DepthsWithin(catalog: Catalog, p: Plan, releaseSingle: bool)
    requires PlanValid(catalog, p)
    ensures var r, k := RulesOf(p, releaseSingle), p.authorizedLimit.maxDepth as int;
      r.Valid() && Rounds.DepthsExact(r) && 1 <= k <= 8 && forall t :: t in r.graph.nodes ==> r.depth[t] <= k
  {
    RulesAreValid(catalog, p, releaseSingle);
    forall t | t in TaskSet(p)
      ensures NodeOf(p, t).depth <= p.authorizedLimit.maxDepth as int
    {
      NodeDepth(catalog, p, t);
    }
  }

  /** For any outcomes an accepted plan, all of whose tasks come up within one batch, has a
      level-by-level run of MaxDepth rounds; it tells when the Run ended before. */
  lemma {:induction false} AcceptedPlanLevels(catalog: Catalog, p: Plan, releaseSingle: bool, wins: set<string>)
      returns (states: seq<Run.Exec<string>>)
    requires PlanValid(catalog, p) && |JoinOrder(p, releaseSingle)| <= 32
    requires NodesOffered(p, releaseSingle) && (releaseSingle || NoSingleInput(p))
    ensures var r, k := RulesOf(p, releaseSingle), p.authorizedLimit.maxDepth as int;
      && r.Valid() && 1 <= k <= 8 && |states| == k + 1 && Rounds.InRounds(r, states)
      && (states[k].Live() <==> Rounds.LevelsPass(r, wins, k))
      && (states[k].Live() ==> Rounds.EndedWith(r, states[k], TaskSet(p) * wins))
  {
    var r, k := RulesOf(p, releaseSingle), p.authorizedLimit.maxDepth as int;
    DepthsWithin(catalog, p, releaseSingle);
    AllOfferedIff(catalog, p, releaseSingle);
    states := Rounds.LevelRun(r, wins, k);
    assert Rounds.Levels(r, k) == TaskSet(p);
  }

  /** MaxDepth rounds in which every task of an accepted plan ends exist exactly for the
      outcomes that supply every task, when every task is offered and released in its
      turn; a Desk that succeeds on a lower level ends the Run before. */
  lemma {:induction false} AcceptedPlanRoundsIff(catalog: Catalog, p: Plan, releaseSingle: bool, wins: set<string>)
    requires PlanValid(catalog, p) && |JoinOrder(p, releaseSingle)| <= 32
    requires forall t :: t in TaskSet(p) && t in wins && NodeOf(p, t).roleId == DECISION_DESK ==>
      NodeOf(p, t).depth >= p.authorizedLimit.maxDepth as int
    ensures var r, k := RulesOf(p, releaseSingle), p.authorizedLimit.maxDepth as int;
      r.Valid() && 1 <= k <= 8
      && ((exists states :: |states| == k + 1 && Rounds.InRounds(r, states) && Rounds.EndedWith(r, states[k], wins))
          <==> NodesOffered(p, releaseSingle) && (releaseSingle || NoSingleInput(p))
               && wins <= TaskSet(p) && Rounds.Supplies(r, wins))
  {
    DepthsWithin(catalog, p, releaseSingle);
    AllOfferedIff(catalog, p, releaseSingle);
    Rounds.RoundsFinishIff(RulesOf(p, releaseSingle), p.authorizedLimit.maxDepth as int, wins);
  }

  lemma {:induction false} NeedsMet(catalog: Catalog, p: Plan, t: string)
    requires PlanValid(catalog, p) && t in TaskSet(p)
    ensures |PlanGraph(p).up[t] * TaskSet(p)| >= Needs(p, t)
  {
    NeedsBounded(catalog, p, t);
    assert PlanGraph(p).up[t] * TaskSet(p) == PlanGraph(p).up[t];
  }

  /** When all tasks succeed every task gets the successes it waits for. */
  lemma {:induction false} SuccessSupplies(catalog: Catalog, p: Plan, releaseSingle: bool)
    requires PlanValid(catalog, p)
    ensures var r := RulesOf(p, releaseSingle); r.Valid() && Rounds.Supplies(r, TaskSet(p))
  {
    RulesAreValid(catalog, p, releaseSingle);
    forall t | t in TaskSet(p)
      ensures |PlanGraph(p).up[t] * TaskSet(p)| >= Needs(p, t)
    {
      NeedsMet(catalog, p, t);
    }
  }

  /** A run of an accepted plan takes at most 193 actions. */
  lemma {:induction false} AcceptedPlanEnds(catalog: Catalog, p: Plan, releaseSingle: bool,
                                            actions: seq<Run.Action<string>>, y: Run.Exec<string>)
    requires PlanValid(catalog, p)
    requires var r := RulesOf(p, releaseSingle); r.Valid() && Run.Reaches(r, Run.Initial(r), actions, y)
    ensures |actions| <= 3 * |p.nodes| + 1 <= 193
  {
    var r := RulesOf(p, releaseSingle);
    Run.InitialKept(r);
    Run.RunsEnd(r, Run.Initial(r), actions, y);
    DistinctLength(TaskIds(p.nodes));
  }

  /** A Join the reconciler looks at, whose upstream tasks have ended, passes when its
      stated number of them succeeded and otherwise dead-letters the Run; unless a Join
      before it does so, it is settled by this call. An all-required Join needs all of
      them; a minimum Join cannot pass with none. */
  lemma {:induction false} JoinResolution(catalog: Catalog, p: Plan, join: Join, x: Run.Exec<string>)
    requires PlanValid(catalog, p) && join in p.joins
    requires var r := RulesOf(p, false); r.Valid() && Run.Kept(r, x) && x.Live() && join.downstream in Run.Batch(r, x)
    requires Elements(join.upstream) <= Run.Done(x)
    ensures var y := Run.Reconciled(RulesOf(p, false), x);
      && (!JoinPasses(join, x) ==> y.end == Run.DeadLettered)
      && (y.end != Run.DeadLettered ==> y.Has(join.downstream, Run.Ready))
    ensures join.policy.AllRequired? ==> (JoinPasses(join, x) <==> Elements(join.upstream) <= Run.Won(x))
    ensures join.policy.MinimumSucceeded? && JoinPasses(join, x) ==> Elements(join.upstream) * Run.Won(x) != {}
  {
    JoinFacts(catalog, p, join);
    Run.ReconcileOutcome(RulesOf(p, false), x);
    assert Run.Settling(RulesOf(p, false), x, join.downstream);
    PolicyMeaning(catalog, p, join, x);
  }

  ghost predicate JoinPasses(join: Join, x: Run.Exec<string>) {
    |Elements(join.upstream) * Run.Won(x)| >= join.minimumSuccess
  }

  lemma {:induction false} PolicyMeaning(catalog: Catalog, p: Plan, join: Join, x: Run.Exec<string>)
    requires PlanValid(catalog, p) && join in p.joins
    ensures join.policy.AllRequired? ==> (JoinPasses(join, x) <==> Elements(join.upstream) <= Run.Won(x))
    ensures join.policy.MinimumSucceeded? && JoinPasses(join, x) ==> Elements(join.upstream) * Run.Won(x) != {}
  {
    assert JoinAccepted(p, join);
    DistinctLength(join.upstream);
    var up, won := Elements(join.upstream), Elements(join.upstream) * Run.Won(x);
    SubsetSize(won, up);
    assert won == up <==> up <= Run.Won(x);
  }

  /** What the run's rules say about the downstream task of a Join. */
  lemma {:induction false} JoinFacts(catalog: Catalog, p: Plan, join: Join)
    requires PlanValid(catalog, p) && join in p.joins
    ensures var r := RulesOf(p, false); var t := join.downstream;
      && t in r.graph.nodes && r.graph.up[t] == Elements(join.upstream) && |r.graph.up[t]| >= 2
      && r.needs[t] == join.minimumSuccess
  {
    JoinsOneToOne(catalog, p);
    assert JoinAccepted(p, join) && JoinOf(p, join.downstream) == Some(join);
  }
}
