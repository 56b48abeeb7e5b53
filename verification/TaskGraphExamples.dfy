// Plans the Go checker accepts although they exceed their budget or stop: both are a
// chain of two Specialists, the smallest plan with a task that has one upstream task.
module TaskGraphExamples {
  import opened Collections
  import opened Text
  import opened Contracts
  import opened Budget
  import opened Capability
  import opened TaskGraphDepth
  import opened TaskGraphEdges
  import opened TaskGraphPlan
  import opened TaskGraphStar
  import opened TaskGraphProgress
  import Run = TaskGraphRun
  import Stops = TaskGraphStops

  const FIRST := "first"
  const LAST := "last"
  const SCOUT := "market_scout"
  const MEMO := "specialist_memo_v1"

  function Digest(): (d: string)
    ensures ValidDigest(d)
  {
    seq(64, _ => '0')
  }

  function Record(recordType: string): RecordRef {
    RecordRef(AGENT_CONTROL, recordType, FIRST, 1, Digest())
  }

  function ChainNode(taskId: string, depth: int, limit: BudgetLimit): Node {
    Node(taskId, SCOUT, 1, depth, BlobRef(true, Record("task_objective"), 1), [], MEMO,
         RevisionRef(Record("output_contract_revision"), 1), [], limit, 3)
  }

  function Chain(limit: BudgetLimit, authorized: BudgetLimit): Plan {
    Plan(1, FIRST, FIRST, FIRST, Record("model_call_result"), RevisionRef(Record("runtime_policy"), 1), 1, 1,
         authorized, [ChainNode(FIRST, 1, limit), ChainNode(LAST, 2, limit)], [Edge(FIRST, LAST)], [],
         AuditActor(FIRST, Workload, ControlApi), 2, 3)
  }

  /** The limits with which the chain is a valid plan. */
  predicate ChainLimits(limit: BudgetLimit, authorized: BudgetLimit) {
    && LimitValid(limit) && limit.maxToolCalls == 0 && authorized.Valid()
    && 2 <= authorized.maxTasks as int <= MAX_TASKS && 1 <= authorized.maxParallelism as int <= MAX_PARALLELISM
    && 2 <= authorized.maxDepth as int <= MAX_DEPTH && 1 <= authorized.maxFanout
    && AggregateWithin(AddBudget(AddBudget(ZERO_LIMIT, limit), limit), authorized)
  }

  lemma {:induction false} PlainID(s: string)
    requires 1 <= |s| <= 64 && forall i :: 0 <= i < |s| ==> LowerAlpha(s[i])
    ensures ValidID(s)
  {
    AsciiLength(s);
    TrimmedFixed(s);
  }

  lemma {:induction false} RecordValid(recordType: string)
    requires ValidName(recordType)
    ensures Record(recordType).Valid() && Record(recordType).owner == AGENT_CONTROL
    ensures Record(recordType).recordType == recordType
  {
    PlainID(FIRST);
  }

  lemma {:induction false} NamesValid()
    ensures ValidID(FIRST) && ValidID(LAST) && ValidName(SCOUT) && ValidName(MEMO)
  {
    PlainID(FIRST);
    PlainID(LAST);
  }

  lemma {:induction false} RecordsValid()
    ensures Record("task_objective").Valid() && Record("output_contract_revision").Valid()
    ensures Record("model_call_result").Valid() && Record("runtime_policy").Valid()
  {
    RecordValid("task_objective");
    RecordValid("output_contract_revision");
    RecordValid("model_call_result");
    RecordValid("runtime_policy");
  }

  lemma {:induction false} ChainNodeValid(catalog: Catalog, taskId: string, depth: int, limit: BudgetLimit)
    requires ValidID(taskId) && 1 <= depth <= MAX_DEPTH && LimitValid(limit) && limit.maxToolCalls == 0
    ensures NodeValid(catalog, ChainNode(taskId, depth, limit), 2, 3)
  {
    NamesValid();
    RecordsValid();
    RoleTable(SCOUT);
  }

  lemma {:induction false} ChainTotal(limit: BudgetLimit, authorized: BudgetLimit)
    ensures var limits := Limits(Chain(limit, authorized).nodes);
      limits == [limit, limit] && Total(limits) == AddBudget(AddBudget(ZERO_LIMIT, limit), limit)
      && forall m: Meter :: TrueSum(limits, m) == limit.Of(m) as int + limit.Of(m) as int
  {
    var two := [limit, limit];
    assert Limits(Chain(limit, authorized).nodes) == two;
    assert two[..1] == [limit] && [limit][..0] == [];
    assert Total([limit]) == AddBudget(Total([]), limit);
    forall m: Meter
      ensures TrueSum(two, m) == limit.Of(m) as int + limit.Of(m) as int
    {
      assert TrueSum([limit], m) == TrueSum([], m) + limit.Of(m) as int;
    }
  }

  lemma {:induction false} ChainEdges(limit: BudgetLimit, authorized: BudgetLimit)
    ensures var p := Chain(limit, authorized);
      TaskIds(p.nodes) == [FIRST, LAST] && TaskSet(p) == {FIRST, LAST} && p.edges == Star([FIRST], LAST)
  {
    var p := Chain(limit, authorized);
    assert TaskIds(p.nodes) == [FIRST, LAST];
    assert Elements([FIRST]) == {FIRST};
    assert p.edges == Star([FIRST], LAST);
  }

  lemma {:induction false} ChainTopology(limit: BudgetLimit, authorized: BudgetLimit)
    requires ChainLimits(limit, authorized)
    ensures TopologyValid(Chain(limit, authorized))
  {
    var p := Chain(limit, authorized);
    ChainEdges(limit, authorized);
    assert Elements([FIRST]) + {LAST} == TaskSet(p);
    StarValid([FIRST], LAST);
    StarDepths([FIRST], LAST);
    forall f {:trigger Downstream(p.edges, f)}
      ensures |Downstream(p.edges, f)| <= 1
    {
      StarEnds([FIRST], LAST, f);
    }
    forall node {:trigger DepthValid(p, node)} | node in p.nodes
      ensures DepthValid(p, node)
    {
      assert node == ChainNode(FIRST, 1, limit) || node == ChainNode(LAST, 2, limit);
      assert FIRST in [FIRST];
    }
  }

  lemma {:induction false} ChainUpstream(limit: BudgetLimit, authorized: BudgetLimit, t: string)
    ensures Upstream(Chain(limit, authorized).edges, t) == if t == LAST then {FIRST} else {}
  {
    ChainEdges(limit, authorized);
    StarEnds([FIRST], LAST, t);
    assert Elements([FIRST]) == {FIRST};
  }

  /** With such limits the checker accepts the chain, whatever tools are installed. */
  lemma {:induction false} ChainAccepted(catalog: Catalog, limit: BudgetLimit, authorized: BudgetLimit)
    requires ChainLimits(limit, authorized)
    ensures PlanValid(catalog, Chain(limit, authorized))
  {
    var p := Chain(limit, authorized);
    NamesValid();
    RecordsValid();
    ChainEdges(limit, authorized);
    ChainNodeValid(catalog, FIRST, 1, limit);
    ChainNodeValid(catalog, LAST, 2, limit);
    ChainTotal(limit, authorized);
    ChainTopology(limit, authorized);
    forall t {:trigger Upstream(p.edges, t)}
      ensures |Upstream(p.edges, t)| <= 1
    {
      ChainUpstream(limit, authorized, t);
    }
  }

  // ----- an accepted plan beyond its budget -----

  /** A node's limit: calls, wall time, tasks and parallelism one, and some tokens. */
  function CallLimit(none: int64, one: int64, tokens: int64): BudgetLimit {
    BudgetLimit(one, tokens, none, none, none, one, none, one, none, none, one, none, none)
  }

  function GraphLimit(two: int64, tokens: int64): BudgetLimit {
    BudgetLimit(two, tokens, two, two, two, two, two, two, two, two, two, two, two)
  }

  const MANY_TOKENS := CallLimit(0, 1, 0x4000_0000_0000_0000)
  const NO_TOKENS := GraphLimit(2, 0)
  const ONE_CALL := CallLimit(0, 1, 0)

  lemma {:induction false} PlusZero(x: int64)
    ensures Plus(0, x) == x
  {
  }

  /** Two nodes alike pass when twice each meter passes. */
  lemma {:induction false} PairWithin(limit: BudgetLimit, authorized: BudgetLimit)
    requires forall m: Meter :: Plus(limit.Of(m), limit.Of(m)) <= authorized.Of(m)
    ensures AggregateWithin(AddBudget(AddBudget(ZERO_LIMIT, limit), limit), authorized)
  {
    var once := AddBudget(ZERO_LIMIT, limit);
    WithinByMeter(AddBudget(once, limit), authorized);
    forall m: Meter
      ensures AddBudget(once, limit).Of(m) <= authorized.Of(m)
    {
      AddByMeter(ZERO_LIMIT, limit, m);
      AddByMeter(once, limit, m);
      PlusZero(limit.Of(m));
    }
  }

  lemma {:induction false} CallMeters(none: int64, one: int64, tokens: int64, two: int64, granted: int64, m: Meter)
    ensures m == InputTokens ==>
      CallLimit(none, one, tokens).Of(m) == tokens && GraphLimit(two, granted).Of(m) == granted
    ensures m != InputTokens ==>
      (CallLimit(none, one, tokens).Of(m) == none || CallLimit(none, one, tokens).Of(m) == one)
      && GraphLimit(two, granted).Of(m) == two
  {
  }

  lemma {:induction false} LimitsFit(none: int64, one: int64, tokens: int64, two: int64, granted: int64)
    requires none == 0 && one == 1 && two == 2 && tokens >= 0 && granted >= 0 && Plus(tokens, tokens) <= granted
    ensures ChainLimits(CallLimit(none, one, tokens), GraphLimit(two, granted))
  {
    var limit, authorized := CallLimit(none, one, tokens), GraphLimit(two, granted);
    forall m: Meter
      ensures Plus(limit.Of(m), limit.Of(m)) <= authorized.Of(m)
    {
      CallMeters(none, one, tokens, two, granted, m);
    }
    PairWithin(limit, authorized);
  }

  lemma {:induction false} MeterByField(limit: BudgetLimit)
    ensures limit.Of(InputTokens) == limit.maxInputTokens
  {
  }

  lemma {:induction false} ChainBeyond(catalog: Catalog, limit: BudgetLimit, authorized: BudgetLimit)
    requires ChainLimits(limit, authorized)
    requires limit.maxInputTokens as int + limit.maxInputTokens as int > authorized.maxInputTokens as int
    ensures var p := Chain(limit, authorized);
      PlanValid(catalog, p) && !TrulyWithin(Limits(p.nodes), p.authorizedLimit)
  {
    ChainAccepted(catalog, limit, authorized);
    ChainTotal(limit, authorized);
    MeterByField(limit);
    MeterByField(authorized);
    assert TrueSum(Limits(Chain(limit, authorized).nodes), InputTokens) > authorized.Of(InputTokens) as int;
  }

  /** The checker accepts a plan whose two tasks may read 2^63 tokens together under
      an authorized limit of none. */
  lemma {:induction false} OverflowAccepted(catalog: Catalog)
    ensures var p := Chain(MANY_TOKENS, NO_TOKENS);
      PlanValid(catalog, p) && !TrulyWithin(Limits(p.nodes), p.authorizedLimit)
  {
    LimitsFit(0, 1, 0x4000_0000_0000_0000, 2, 0);
    ChainBeyond(catalog, MANY_TOKENS, NO_TOKENS);
  }

  /** An accepted plan is within its authorized limit exactly when its sums fit. */
  lemma {:induction false} AcceptedPlanWithinIff(catalog: Catalog, p: Plan)
    requires PlanValid(catalog, p)
    ensures TrulyWithin(Limits(p.nodes), p.authorizedLimit) <==> SumsFit(Limits(p.nodes))
  {
    forall i | 0 <= i < |p.nodes|
      ensures Limits(p.nodes)[i].Valid()
    {
      assert NodeAccepted(catalog, p, p.nodes[i]);
    }
    AcceptedWithinIff(Limits(p.nodes), p.authorizedLimit);
  }

  // ----- an accepted plan that stops -----

  /** A chain is accepted with limits such as these. */
  lemma {:induction false} ChainLimitsMet()
    ensures ChainLimits(ONE_CALL, NO_TOKENS)
  {
    LimitsFit(0, 1, 0, 2, 0);
  }

  /** The rules the chain sets for its run under the installed reconciler. */
  ghost function ChainRules(limit: BudgetLimit, authorized: BudgetLimit): (r: Run.Rules<string>)
    requires ChainLimits(limit, authorized)
    ensures r.Valid() && r.graph.nodes == {FIRST, LAST} && r.graph.up[FIRST] == {} && r.graph.up[LAST] == {FIRST}
    ensures r.joins == [] && r.desks == {} && FIRST in r.offered
  {
    ChainAccepted(Catalog([]), limit, authorized);
    RulesAreValid(Catalog([]), Chain(limit, authorized), false);
    ChainEdges(limit, authorized);
    ChainUpstream(limit, authorized, FIRST);
    ChainUpstream(limit, authorized, LAST);
    ChainNodes(limit, authorized);
    RulesOf(Chain(limit, authorized), false)
  }

  lemma {:induction false} ChainNodes(limit: BudgetLimit, authorized: BudgetLimit)
    requires ChainLimits(limit, authorized)
    ensures var p := Chain(limit, authorized);
      JoinOrder(p, false) == [] && TaskSet(p) == {FIRST, LAST}
      && forall t :: t in TaskSet(p) ==> NodeOf(p, t).roleId == SCOUT && NodeOf(p, t).toolGrants == []
  {
    var p := Chain(limit, authorized);
    ChainEdges(limit, authorized);
    assert JoinedTasks(p.joins) == [];
    forall t | t in TaskSet(p)
      ensures NodeOf(p, t).roleId == SCOUT && NodeOf(p, t).toolGrants == []
    {
      assert NodeOf(p, t) in p.nodes;
    }
  }

  /** An accepted chain stops when its first task has succeeded: the Run is open, the last
      task has not ended, and neither workers nor the installed reconciler can act. */
  lemma {:induction false} AcceptedChainStops(catalog: Catalog, limit: BudgetLimit, authorized: BudgetLimit)
    requires ChainLimits(limit, authorized)
    ensures PlanValid(catalog, Chain(limit, authorized))
    ensures var r, actions := ChainRules(limit, authorized), [Run.Claim(FIRST), Run.Finish(FIRST, true)];
      var y := Run.Exec(map[FIRST := Run.Succeeded, LAST := Run.Blocked], Run.Open);
      Run.Reaches(r, Run.Initial(r), actions, y) && LAST !in Run.Done(y) && Stops.Stuck(r, y)
  {
    ChainAccepted(catalog, limit, authorized);
    ChainStops(ChainRules(limit, authorized));
  }

  lemma {:induction false} ChainStops(r: Run.Rules<string>)
    requires r.Valid() && r.graph.nodes == {FIRST, LAST} && r.graph.up[FIRST] == {} && r.graph.up[LAST] == {FIRST}
    requires r.joins == [] && r.desks == {} && FIRST in r.offered
    ensures var y := Run.Exec(map[FIRST := Run.Succeeded, LAST := Run.Blocked], Run.Open);
      Run.Reaches(r, Run.Initial(r), [Run.Claim(FIRST), Run.Finish(FIRST, true)], y) && Stops.Stuck(r, y)
  {
    var x := Run.Initial(r);
    assert r.Sound(FIRST);
    assert Run.InFlight(x) == {};
    Run.OneStep(r, x, Run.Claim(FIRST));
    var z := Run.Apply(r, x, Run.Claim(FIRST));
    Run.OneStep(r, z, Run.Finish(FIRST, true));
    var y := Run.Apply(r, z, Run.Finish(FIRST, true));
    Run.ReachesConcat(r, x, [Run.Claim(FIRST)], z, [Run.Finish(FIRST, true)], y);
    assert [Run.Claim(FIRST)] + [Run.Finish(FIRST, true)] == [Run.Claim(FIRST), Run.Finish(FIRST, true)];
    assert y == Run.Exec(map[FIRST := Run.Succeeded, LAST := Run.Blocked], Run.Open);
    forall a {:trigger Run.Enabled(r, y, a)}
      ensures !Run.Enabled(r, y, a)
    {
    }
  }
}
