// Budget limits and usages in 64-bit integers
// (agent-platform/runtimecontract/types.go and validate.go).
module Budget {

  newtype int64 = x: int | -0x8000_0000_0000_0000 <= x < 0x8000_0000_0000_0000

  const MAX_INT64: int := 0x7fff_ffff_ffff_ffff

  /** The value of a Go int64 operation whose mathematical result is x. */
  function Wrap(x: int): int64 {
    ((x + 0x8000_0000_0000_0000) % 0x1_0000_0000_0000_0000 - 0x8000_0000_0000_0000) as int64
  }

  lemma {:induction false} WrapInRange(x: int)
    ensures -0x8000_0000_0000_0000 <= x <= MAX_INT64 ==> Wrap(x) as int == x
    ensures x > MAX_INT64 ==> (Wrap(x) as int) < x
  {
  }

  // ----- limits -----

  datatype BudgetLimit = BudgetLimit(
    maxModelCalls: int64, maxInputTokens: int64, maxOutputTokens: int64, maxToolCalls: int64,
    maxExternalCost: int64, maxWallTime: int64, maxIdleTime: int64, maxTasks: int64,
    maxDepth: int64, maxFanout: int64, maxParallelism: int64,
    maxInvalidOutputRetries: int64, maxInfrastructureRetries: int64)
  {
    predicate Valid() {
      && 0 <= maxModelCalls && 0 <= maxInputTokens && 0 <= maxOutputTokens && 0 <= maxToolCalls
      && 0 <= maxExternalCost && 0 <= maxWallTime && 0 <= maxIdleTime && 0 <= maxTasks
      && 0 <= maxDepth && 0 <= maxFanout && 0 <= maxParallelism
      && 0 <= maxInvalidOutputRetries && 0 <= maxInfrastructureRetries
    }

    function Of(m: Meter): int64 {
      match m
      case ModelCalls => maxModelCalls
      case InputTokens => maxInputTokens
      case OutputTokens => maxOutputTokens
      case ToolCalls => maxToolCalls
      case ExternalCost => maxExternalCost
      case WallTime => maxWallTime
      case IdleTime => maxIdleTime
      case Tasks => maxTasks
      case InvalidOutputRetries => maxInvalidOutputRetries
      case InfrastructureRetries => maxInfrastructureRetries
    }
  }

  /** The fields that are added up over the nodes of a task graph. Depth, fan-out
      and parallelism are ceilings, not sums. */
  datatype Meter =
    | ModelCalls | InputTokens | OutputTokens | ToolCalls | ExternalCost
    | WallTime | IdleTime | Tasks | InvalidOutputRetries | InfrastructureRetries

  /** The limit with the same number in every field. */
  function Flat(k: int64): BudgetLimit {
    BudgetLimit(k, k, k, k, k, k, k, k, k, k, k, k, k)
  }

  const ZERO_LIMIT := Flat(0)

  function Plus(a: int64, b: int64): int64 {
    Wrap(a as int + b as int)
  }

  /** addBudget and the planner's add: ten unchecked additions. */
  function AddBudget(total: BudgetLimit, value: BudgetLimit): BudgetLimit {
    total.(
      maxModelCalls := Plus(total.maxModelCalls, value.maxModelCalls),
      maxInputTokens := Plus(total.maxInputTokens, value.maxInputTokens),
      maxOutputTokens := Plus(total.maxOutputTokens, value.maxOutputTokens),
      maxToolCalls := Plus(total.maxToolCalls, value.maxToolCalls),
      maxExternalCost := Plus(total.maxExternalCost, value.maxExternalCost),
      maxWallTime := Plus(total.maxWallTime, value.maxWallTime),
      maxIdleTime := Plus(total.maxIdleTime, value.maxIdleTime),
      maxTasks := Plus(total.maxTasks, value.maxTasks),
      maxInvalidOutputRetries := Plus(total.maxInvalidOutputRetries, value.maxInvalidOutputRetries),
      maxInfrastructureRetries := Plus(total.maxInfrastructureRetries, value.maxInfrastructureRetries))
  }

  predicate AggregateWithin(total: BudgetLimit, limit: BudgetLimit) {
    && total.maxModelCalls <= limit.maxModelCalls
    && total.maxInputTokens <= limit.maxInputTokens
    && total.maxOutputTokens <= limit.maxOutputTokens
    && total.maxToolCalls <= limit.maxToolCalls
    && total.maxExternalCost <= limit.maxExternalCost
    && total.maxWallTime <= limit.maxWallTime
    && total.maxIdleTime <= limit.maxIdleTime
    && total.maxTasks <= limit.maxTasks
    && total.maxInvalidOutputRetries <= limit.maxInvalidOutputRetries
    && total.maxInfrastructureRetries <= limit.maxInfrastructureRetries
  }

  /** The running total of a list of limits, as the loops compute it. */
  function Total(limits: seq<BudgetLimit>): BudgetLimit {
    if limits == [] then ZERO_LIMIT else AddBudget(Total(limits[..|limits| - 1]), limits[|limits| - 1])
  }

  /** The true sum of one meter. */
  function TrueSum(limits: seq<BudgetLimit>, m: Meter): int {
    if limits == [] then 0 else TrueSum(limits[..|limits| - 1], m) + limits[|limits| - 1].Of(m) as int
  }

  lemma {:induction false} AddByMeter(total: BudgetLimit, value: BudgetLimit, m: Meter)
    ensures AddBudget(total, value).Of(m) == Plus(total.Of(m), value.Of(m))
  {
  }

  const MODULUS := 0x1_0000_0000_0000_0000

  lemma {:induction false} PlusCarries(a: int64, b: int64) returns (k: int)
    ensures Plus(a, b) as int == a as int + b as int - k * MODULUS
  {
    k := (a as int + b as int + 0x8000_0000_0000_0000) / MODULUS;
  }

  /** The running total differs from the true sum by whole turns of the word. */
  lemma {:induction false} TotalCarries(limits: seq<BudgetLimit>, m: Meter) returns (k: int)
    ensures Total(limits).Of(m) as int == TrueSum(limits, m) - k * MODULUS
  {
    if limits == [] {
      k := 0;
    } else {
      var rest, last := limits[..|limits| - 1], limits[|limits| - 1];
      var before := TotalCarries(rest, m);
      var carry := PlusCarries(Total(rest).Of(m), last.Of(m));
      AddByMeter(Total(rest), last, m);
      k := before + carry;
    }
  }

  lemma {:induction false} WrapIsOnly(x: int64, y: int, k: int)
    requires x as int == y - k * MODULUS
    ensures x == Wrap(y)
  {
  }

  /** The running total is the true sum, wrapped once. */
  lemma {:induction false} TotalWraps(limits: seq<BudgetLimit>, m: Meter)
    ensures Total(limits).Of(m) == Wrap(TrueSum(limits, m))
  {
    var k := TotalCarries(limits, m);
    WrapIsOnly(Total(limits).Of(m), TrueSum(limits, m), k);
  }

  lemma {:induction false} TrueSumBounds(limits: seq<BudgetLimit>, m: Meter, bound: int)
    requires forall i :: 0 <= i < |limits| ==> limits[i].Valid() && limits[i].Of(m) as int <= bound
    ensures 0 <= TrueSum(limits, m) <= |limits| * bound
  {
    if limits != [] {
      var rest, last := limits[..|limits| - 1], limits[|limits| - 1];
      TrueSumBounds(rest, m, bound);
      assert last.Valid() && 0 <= last.Of(m) as int <= bound;
      OneMore(|rest|, bound);
    }
  }

  lemma {:induction false} OneMore(n: nat, bound: int)
    ensures (n + 1) * bound == n * bound + bound
  {
  }

  lemma {:induction false} TrueSumNonNegative(limits: seq<BudgetLimit>, m: Meter)
    requires forall i :: 0 <= i < |limits| ==> limits[i].Valid()
    ensures TrueSum(limits, m) >= 0
  {
    if limits != [] {
      TrueSumNonNegative(limits[..|limits| - 1], m);
      assert limits[|limits| - 1].Valid();
    }
  }

  lemma {:induction false} WithinByMeter(total: BudgetLimit, limit: BudgetLimit)
    ensures AggregateWithin(total, limit) <==> forall m: Meter :: total.Of(m) <= limit.Of(m)
  {
    if AggregateWithin(total, limit) {
      forall m: Meter
        ensures total.Of(m) <= limit.Of(m)
      {
        match m
        case ModelCalls => case InputTokens => case OutputTokens => case ToolCalls => case ExternalCost =>
        case WallTime => case IdleTime => case Tasks => case InvalidOutputRetries => case InfrastructureRetries =>
      }
    } else {
      var names := [ModelCalls, InputTokens, OutputTokens, ToolCalls, ExternalCost, WallTime, IdleTime, Tasks,
                    InvalidOutputRetries, InfrastructureRetries];
      assert exists i :: 0 <= i < |names| && !(total.Of(names[i]) <= limit.Of(names[i])) by {
        if total.maxModelCalls > limit.maxModelCalls { assert total.Of(names[0]) > limit.Of(names[0]); }
        if total.maxInputTokens > limit.maxInputTokens { assert total.Of(names[1]) > limit.Of(names[1]); }
        if total.maxOutputTokens > limit.maxOutputTokens { assert total.Of(names[2]) > limit.Of(names[2]); }
        if total.maxToolCalls > limit.maxToolCalls { assert total.Of(names[3]) > limit.Of(names[3]); }
        if total.maxExternalCost > limit.maxExternalCost { assert total.Of(names[4]) > limit.Of(names[4]); }
        if total.maxWallTime > limit.maxWallTime { assert total.Of(names[5]) > limit.Of(names[5]); }
        if total.maxIdleTime > limit.maxIdleTime { assert total.Of(names[6]) > limit.Of(names[6]); }
        if total.maxTasks > limit.maxTasks { assert total.Of(names[7]) > limit.Of(names[7]); }
        if total.maxInvalidOutputRetries > limit.maxInvalidOutputRetries {
          assert total.Of(names[8]) > limit.Of(names[8]);
        }
        if total.maxInfrastructureRetries > limit.maxInfrastructureRetries {
          assert total.Of(names[9]) > limit.Of(names[9]);
        }
      }
    }
  }

  /** What the aggregate test is meant to decide. */
  ghost predicate TrulyWithin(limits: seq<BudgetLimit>, limit: BudgetLimit) {
    forall m: Meter :: TrueSum(limits, m) <= limit.Of(m) as int
  }

  ghost predicate SumsFit(limits: seq<BudgetLimit>) {
    forall m: Meter :: TrueSum(limits, m) <= MAX_INT64
  }

  /** A sum that fits is computed exactly. */
  lemma {:induction false} ExactMeter(limits: seq<BudgetLimit>, m: Meter)
    requires TrueSum(limits, m) <= MAX_INT64 && forall i :: 0 <= i < |limits| ==> limits[i].Valid()
    ensures 0 <= Total(limits).Of(m) as int == TrueSum(limits, m)
  {
    TotalWraps(limits, m);
    TrueSumNonNegative(limits, m);
    WrapInRange(TrueSum(limits, m));
  }

  /** Without overflow the test decides the true sums... */
  lemma {:induction false} AggregateExact(limits: seq<BudgetLimit>, limit: BudgetLimit)
    requires forall i :: 0 <= i < |limits| ==> limits[i].Valid()
    requires SumsFit(limits)
    ensures AggregateWithin(Total(limits), limit) <==> TrulyWithin(limits, limit)
  {
    WithinByMeter(Total(limits), limit);
    forall m: Meter
      ensures Total(limits).Of(m) as int == TrueSum(limits, m)
    {
      ExactMeter(limits, m);
    }
  }

  /** ... and it is right for every limit exactly when no sum leaves int64. */
  lemma {:induction false} AggregateRightIffSumsFit(limits: seq<BudgetLimit>)
    requires forall i :: 0 <= i < |limits| ==> limits[i].Valid()
    ensures (forall limit: BudgetLimit | limit.Valid() ::
              AggregateWithin(Total(limits), limit) <==> TrulyWithin(limits, limit))
            <==> SumsFit(limits)
  {
    if SumsFit(limits) {
      forall limit: BudgetLimit | limit.Valid()
        ensures AggregateWithin(Total(limits), limit) <==> TrulyWithin(limits, limit)
      {
        AggregateExact(limits, limit);
      }
    } else {
      var top := MAX_INT64 as int64;
      var limit := Flat(top);
      var m :| TrueSum(limits, m) > MAX_INT64;
      assert !TrulyWithin(limits, limit);
      assert limit.Valid() && AggregateWithin(Total(limits), limit);
    }
  }

  /** A bound on each field that keeps the sums of at most 64 nodes in range. */
  lemma {:induction false} SmallFieldsFit(limits: seq<BudgetLimit>)
    requires |limits| <= 64
    requires forall i :: 0 <= i < |limits| ==> limits[i].Valid()
    requires forall i, m: Meter :: 0 <= i < |limits| ==> (limits[i].Of(m) as int) < 0x200_0000_0000_0000
    ensures SumsFit(limits)
  {
    forall m: Meter
      ensures TrueSum(limits, m) <= MAX_INT64
    {
      TrueSumBounds(limits, m, 0x200_0000_0000_0000 - 1);
    }
  }

  /** What passed the test is truly within the limit exactly when no sum leaves int64. */
  lemma {:induction false} AcceptedWithinIff(limits: seq<BudgetLimit>, limit: BudgetLimit)
    requires forall i :: 0 <= i < |limits| ==> limits[i].Valid()
    requires AggregateWithin(Total(limits), limit)
    ensures TrulyWithin(limits, limit) <==> SumsFit(limits)
  {
    if SumsFit(limits) {
      AggregateExact(limits, limit);
    }
  }

  /** A meter whose true sum lies between 2^63 and 2^64 passes under every limit. */
  lemma {:induction false} OverflowedMeterPasses(limits: seq<BudgetLimit>, m: Meter, limit: BudgetLimit)
    requires MAX_INT64 < TrueSum(limits, m) < MODULUS && limit.Of(m) >= 0
    ensures Total(limits).Of(m) < 0 <= limit.Of(m)
  {
    TotalWraps(limits, m);
  }

  // ----- ledgers -----

  datatype BudgetUsage = BudgetUsage(
    modelCalls: int64, inputTokens: int64, outputTokens: int64, toolCalls: int64, externalCost: int64,
    wallTime: int64, tasks: int64, activeTasks: int64, invalidOutputRetries: int64, infrastructureRetries: int64)
  {
    predicate NonNegative() {
      && 0 <= modelCalls && 0 <= inputTokens && 0 <= outputTokens && 0 <= toolCalls && 0 <= externalCost
      && 0 <= wallTime && 0 <= tasks && 0 <= activeTasks && 0 <= invalidOutputRetries && 0 <= infrastructureRetries
    }

    predicate Valid() {
      NonNegative() && activeTasks <= tasks
    }
  }

  function Minus(a: int64, b: int64): int64 {
    Wrap(a as int - b as int)
  }

  /** One row of the guarded check: consumed, reserved, limit. */
  predicate Fits(consumed: int64, reserved: int64, limit: int64) {
    !(consumed > limit || reserved > Minus(limit, consumed))
  }

  /** budgetWithin: nine guarded rows, then one plain addition. */
  predicate BudgetWithin(consumed: BudgetUsage, reserved: BudgetUsage, limit: BudgetLimit) {
    && Fits(consumed.modelCalls, reserved.modelCalls, limit.maxModelCalls)
    && Fits(consumed.inputTokens, reserved.inputTokens, limit.maxInputTokens)
    && Fits(consumed.outputTokens, reserved.outputTokens, limit.maxOutputTokens)
    && Fits(consumed.toolCalls, reserved.toolCalls, limit.maxToolCalls)
    && Fits(consumed.externalCost, reserved.externalCost, limit.maxExternalCost)
    && Fits(consumed.wallTime, reserved.wallTime, limit.maxWallTime)
    && Fits(consumed.tasks, reserved.tasks, limit.maxTasks)
    && Fits(consumed.invalidOutputRetries, reserved.invalidOutputRetries, limit.maxInvalidOutputRetries)
    && Fits(consumed.infrastructureRetries, reserved.infrastructureRetries, limit.maxInfrastructureRetries)
    && Plus(consumed.activeTasks, reserved.activeTasks) <= limit.maxParallelism
  }

  function Sum(a: int64, b: int64): int {
    a as int + b as int
  }

  /** The ten meters, added without overflow. */
  ghost predicate TrulyFunded(consumed: BudgetUsage, reserved: BudgetUsage, limit: BudgetLimit) {
    && Sum(consumed.modelCalls, reserved.modelCalls) <= limit.maxModelCalls as int
    && Sum(consumed.inputTokens, reserved.inputTokens) <= limit.maxInputTokens as int
    && Sum(consumed.outputTokens, reserved.outputTokens) <= limit.maxOutputTokens as int
    && Sum(consumed.toolCalls, reserved.toolCalls) <= limit.maxToolCalls as int
    && Sum(consumed.externalCost, reserved.externalCost) <= limit.maxExternalCost as int
    && Sum(consumed.wallTime, reserved.wallTime) <= limit.maxWallTime as int
    && Sum(consumed.tasks, reserved.tasks) <= limit.maxTasks as int
    && Sum(consumed.invalidOutputRetries, reserved.invalidOutputRetries) <= limit.maxInvalidOutputRetries as int
    && Sum(consumed.infrastructureRetries, reserved.infrastructureRetries) <= limit.maxInfrastructureRetries as int
    && Sum(consumed.activeTasks, reserved.activeTasks) <= limit.maxParallelism as int
  }

  lemma {:induction false} FitsExact(consumed: int64, reserved: int64, limit: int64)
    requires 0 <= consumed && 0 <= reserved && 0 <= limit
    ensures Fits(consumed, reserved, limit) <==> Sum(consumed, reserved) <= limit as int
  {
    WrapInRange(limit as int - consumed as int);
  }

  /** For valid usages and limits the 64-bit test decides the true sums on all
      ten meters. The last addition has no guard of its own: it cannot overflow
      because the tasks row has already bounded it. */
  lemma {:induction false} LedgerTestExact(consumed: BudgetUsage, reserved: BudgetUsage, limit: BudgetLimit)
    requires consumed.Valid() && reserved.Valid() && limit.Valid()
    ensures BudgetWithin(consumed, reserved, limit) <==> TrulyFunded(consumed, reserved, limit)
    ensures BudgetWithin(consumed, reserved, limit) ==>
      Plus(consumed.activeTasks, reserved.activeTasks) as int == Sum(consumed.activeTasks, reserved.activeTasks)
  {
    FitsExact(consumed.modelCalls, reserved.modelCalls, limit.maxModelCalls);
    FitsExact(consumed.inputTokens, reserved.inputTokens, limit.maxInputTokens);
    FitsExact(consumed.outputTokens, reserved.outputTokens, limit.maxOutputTokens);
    FitsExact(consumed.toolCalls, reserved.toolCalls, limit.maxToolCalls);
    FitsExact(consumed.externalCost, reserved.externalCost, limit.maxExternalCost);
    FitsExact(consumed.wallTime, reserved.wallTime, limit.maxWallTime);
    FitsExact(consumed.tasks, reserved.tasks, limit.maxTasks);
    FitsExact(consumed.invalidOutputRetries, reserved.invalidOutputRetries, limit.maxInvalidOutputRetries);
    FitsExact(consumed.infrastructureRetries, reserved.infrastructureRetries, limit.maxInfrastructureRetries);
    WrapInRange(Sum(consumed.activeTasks, reserved.activeTasks));
  }

  /** Without the rule that active tasks are tasks, the plain addition overflows
      and an overbooked ledger passes. */
  lemma {:induction false} ActiveRuleNeeded()
    ensures var usage := BudgetUsage(0, 0, 0, 0, 0, 0, 0, 0x4000_0000_0000_0000, 0, 0);
            && usage.NonNegative() && !usage.Valid()
            && BudgetWithin(usage, usage, ZERO_LIMIT) && !TrulyFunded(usage, usage, ZERO_LIMIT)
  {
    assert Wrap(0x8000_0000_0000_0000) as int == -0x8000_0000_0000_0000;
  }
}
