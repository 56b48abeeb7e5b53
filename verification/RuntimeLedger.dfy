// Budget ledgers and the ancestry a Task's own work is charged to
// (agent-platform/migrations/0006, 0007 and 0008).
module RuntimeLedger {
  import opened Collections
  import opened RuntimeStates

  /** The five meters of a model call. */
  datatype Amount = Amount(calls: int, input: int, output: int, cost: int, wall: int) {
    predicate NonNegative() {
      0 <= calls && 0 <= input && 0 <= output && 0 <= cost && 0 <= wall
    }

    predicate Within(b: Amount) {
      calls <= b.calls && input <= b.input && output <= b.output && cost <= b.cost && wall <= b.wall
    }

    function Plus(b: Amount): Amount {
      Amount(calls + b.calls, input + b.input, output + b.output, cost + b.cost, wall + b.wall)
    }

    function Minus(b: Amount): Amount {
      Amount(calls - b.calls, input - b.input, output - b.output, cost - b.cost, wall - b.wall)
    }

    /** Some limited meter is used up. */
    predicate Reaches(limit: Amount) {
      || (limit.calls > 0 && calls == limit.calls) || (limit.input > 0 && input == limit.input)
      || (limit.output > 0 && output == limit.output) || (limit.cost > 0 && cost == limit.cost)
      || (limit.wall > 0 && wall == limit.wall)
    }
  }

  const ZERO := Amount(0, 0, 0, 0, 0)

  datatype Scope = RunScope(run: nat) | TaskScope

  /** The columns no command changes. */
  datatype LedgerInfo = LedgerInfo(scope: Scope, parent: Option<nat>, limit: Amount, parallelism: int, tasks: int,
                                   reservedActive: int, invalidLimit: int, infrastructureLimit: int)

  datatype Ledger = Ledger(consumed: Amount, reserved: Amount, active: int, invalidRetries: int,
                           infrastructureRetries: int, generation: int, state: State)

  // ----- ancestry -----

  const MAX_ANCESTRY := 4096

  /** The recursive query: from start upwards, until the root, a repeated ledger or
      the depth limit. */
  function Chain(infos: map<nat, LedgerInfo>, start: Option<nat>, path: set<nat>, depth: nat): set<nat>
    requires depth <= MAX_ANCESTRY + 1
    decreases MAX_ANCESTRY + 1 - depth
  {
    if start.None? || start.value !in infos || start.value in path || depth > MAX_ANCESTRY then {}
    else {start.value} + Chain(infos, infos[start.value].parent, path + {start.value}, depth + 1)
  }

  /** A Task's own ledger budgets its descendants; its work is charged to the
      parent ledger and everything above. */
  function Ancestry(infos: map<nat, LedgerInfo>, taskLedger: nat): set<nat> {
    if taskLedger in infos && infos[taskLedger].scope.TaskScope?
    then Chain(infos, infos[taskLedger].parent, {}, 0) else {}
  }

  predicate Rooted(infos: map<nat, LedgerInfo>, ancestry: set<nat>, run: nat) {
    exists l :: l in ancestry && l in infos && infos[l].scope == RunScope(run) && infos[l].parent.None?
  }

  lemma {:induction false} ChainKnown(infos: map<nat, LedgerInfo>, start: Option<nat>, path: set<nat>, depth: nat)
    requires depth <= MAX_ANCESTRY + 1
    ensures Chain(infos, start, path, depth) <= infos.Keys
    decreases MAX_ANCESTRY + 1 - depth
  {
    if start.Some? && start.value in infos && start.value !in path && depth <= MAX_ANCESTRY {
      ChainKnown(infos, infos[start.value].parent, path + {start.value}, depth + 1);
    }
  }

  /** A climb from parent to parent, without repeats and outside path, to its last ledger. */
  ghost predicate Climb(infos: map<nat, LedgerInfo>, start: Option<nat>, path: set<nat>, climb: seq<nat>) {
    && climb != [] && start == Some(climb[0])
    && (forall i :: 0 <= i < |climb| ==> climb[i] in infos && climb[i] !in path)
    && (forall i :: 0 < i < |climb| ==> infos[climb[i - 1]].parent == Some(climb[i]))
    && (forall i, j :: 0 <= i < j < |climb| ==> climb[i] != climb[j])
  }

  lemma {:induction false} ChainClimbs(infos: map<nat, LedgerInfo>, start: Option<nat>, path: set<nat>, depth: nat,
                                       l: nat) returns (climb: seq<nat>)
    requires depth <= MAX_ANCESTRY + 1 && l in Chain(infos, start, path, depth)
    ensures Climb(infos, start, path, climb) && climb[|climb| - 1] == l && |climb| <= MAX_ANCESTRY + 1 - depth
    decreases MAX_ANCESTRY + 1 - depth
  {
    var first := start.value;
    if l == first {
      climb := [l];
    } else {
      var rest := ChainClimbs(infos, infos[first].parent, path + {first}, depth + 1, l);
      climb := [first] + rest;
      forall i | 0 < i < |climb|
        ensures climb[i] !in path && infos[climb[i - 1]].parent == Some(climb[i]) && climb[i] != first
      {
        assert climb[i] == rest[i - 1];
      }
    }
  }

  lemma {:induction false} ClimbInChain(infos: map<nat, LedgerInfo>, start: Option<nat>, path: set<nat>, depth: nat,
                                        climb: seq<nat>)
    requires depth <= MAX_ANCESTRY + 1 && Climb(infos, start, path, climb) && |climb| <= MAX_ANCESTRY + 1 - depth
    ensures climb[|climb| - 1] in Chain(infos, start, path, depth)
    decreases |climb|
  {
    if |climb| > 1 {
      var rest := climb[1..];
      assert rest[0] == climb[1];
      forall i | 0 <= i < |rest|
        ensures rest[i] in infos && rest[i] !in path + {climb[0]}
      {
        assert rest[i] == climb[i + 1];
      }
      assert Climb(infos, infos[climb[0]].parent, path + {climb[0]}, rest);
      ClimbInChain(infos, infos[climb[0]].parent, path + {climb[0]}, depth + 1, rest);
    }
  }

  /** The ledgers above a Task's are those a climb of at most 4097 distinct ledgers reaches
      from its parent; its own is not among them unless the climb comes back to it. */
  lemma {:induction false} AncestryIff(infos: map<nat, LedgerInfo>, task: nat, l: nat)
    ensures l in Ancestry(infos, task) <==>
      && task in infos && infos[task].scope == TaskScope
      && exists climb :: Climb(infos, infos[task].parent, {}, climb) && |climb| <= 4097 && climb[|climb| - 1] == l
  {
    if l in Ancestry(infos, task) {
      var climb := ChainClimbs(infos, infos[task].parent, {}, 0, l);
    }
    if task in infos && infos[task].scope == TaskScope {
      if climb :| Climb(infos, infos[task].parent, {}, climb) && |climb| <= 4097 && climb[|climb| - 1] == l {
        ClimbInChain(infos, infos[task].parent, {}, 0, climb);
      }
    }
  }

  // ----- one ledger, one operation -----

  datatype RetryClass = NoRetry | InvalidOutput | Infrastructure

  datatype Op =
    | Reserve(amount: Amount)
    | Settle(amount: Amount, used: Amount)
    | TakeSlot
    | FreeSlot
    | Retry(why: RetryClass)

  /** The capacity test of each operation on one ledger. */
  predicate Allows(info: LedgerInfo, l: Ledger, op: Op) {
    match op
    case Reserve(amount) =>
      l.state == Open && amount.Within(info.limit.Minus(l.consumed).Minus(l.reserved))
    case Settle(amount, used) =>
      l.state != Closed && amount.Within(l.reserved) && used.Within(info.limit.Minus(l.consumed))
    case TakeSlot =>
      l.state == Open && l.active < info.parallelism - info.reservedActive && l.active < info.tasks
    case FreeSlot => l.state != Closed && l.active >= 1
    case Retry(why) =>
      && l.state == Open
      && (why == InvalidOutput ==> l.invalidRetries < info.invalidLimit)
      && (why == Infrastructure ==> l.infrastructureRetries < info.infrastructureLimit)
  }

  function Apply(info: LedgerInfo, l: Ledger, op: Op): Ledger {
    var next := l.(generation := l.generation + 1);
    match op
    case Reserve(amount) => next.(reserved := l.reserved.Plus(amount))
    case Settle(amount, used) =>
      var consumed := l.consumed.Plus(used);
      next.(reserved := l.reserved.Minus(amount), consumed := consumed,
            state := if l.state == Open && consumed.Reaches(info.limit) then Exhausted else l.state)
    case TakeSlot => next.(active := l.active + 1)
    case FreeSlot => next.(active := l.active - 1)
    case Retry(why) =>
      next.(invalidRetries := l.invalidRetries + if why == InvalidOutput then 1 else 0,
            infrastructureRetries := l.infrastructureRetries + if why == Infrastructure then 1 else 0)
  }

  /** What keeps a ledger funded: what BudgetLedger.Validate tests on these meters. */
  predicate Funded(info: LedgerInfo, l: Ledger) {
    && l.consumed.NonNegative() && l.reserved.NonNegative() && l.consumed.Plus(l.reserved).Within(info.limit)
    && 0 <= l.active && l.active + info.reservedActive <= info.parallelism && l.active <= info.tasks
    && 0 <= l.invalidRetries <= info.invalidLimit && 0 <= l.infrastructureRetries <= info.infrastructureLimit
    && l.generation > 0 && (l.state == Open || l.state == Exhausted || l.state == Closed)
  }

  /** Reservations and usages that a command may carry. */
  predicate OpSound(op: Op) {
    match op
    case Reserve(amount) => amount.NonNegative()
    case Settle(amount, used) => used.NonNegative() && used.Within(amount)
    case _ => true
  }

  /** An allowed operation keeps the ledger funded and moves its state along the graph. */
  lemma {:induction false} ApplyFunded(info: LedgerInfo, l: Ledger, op: Op)
    requires Funded(info, l) && OpSound(op) && Allows(info, l, op)
    requires info.reservedActive >= 0
    ensures Funded(info, Apply(info, l, op)) && Apply(info, l, op).generation == l.generation + 1
    ensures Apply(info, l, op).state == l.state || CanTransition(BudgetK, l.state, Apply(info, l, op).state)
  {
  }

  /** A held reservation can always be settled for no more than itself: the limit
      test of the settlement never fails on a funded ledger. */
  lemma {:induction false} SettleAlwaysFits(info: LedgerInfo, l: Ledger, amount: Amount, used: Amount)
    requires Funded(info, l) && l.state != Closed && amount.Within(l.reserved) && used.Within(amount)
    ensures Allows(info, l, Settle(amount, used))
  {
  }

  // ----- a whole ancestry -----

  /** All rows are tested before the first is changed. */
  predicate AllAllow(infos: map<nat, LedgerInfo>, ledgers: map<nat, Ledger>, ancestry: set<nat>, op: Op) {
    forall l :: l in ancestry ==> l in infos && l in ledgers && Allows(infos[l], ledgers[l], op)
  }

  function ApplyAll(infos: map<nat, LedgerInfo>, ledgers: map<nat, Ledger>, ancestry: set<nat>, op: Op)
      : (r: map<nat, Ledger>)
    requires AllAllow(infos, ledgers, ancestry, op)
    ensures r.Keys == ledgers.Keys
    ensures forall l :: l in ledgers ==> r[l] == if l in ancestry then Apply(infos[l], ledgers[l], op) else ledgers[l]
  {
    map l | l in ledgers :: if l in ancestry then Apply(infos[l], ledgers[l], op) else ledgers[l]
  }

  /** The loop of the ledger functions: one row after the other. */
  method UpdateAncestry(infos: map<nat, LedgerInfo>, ledgers: map<nat, Ledger>, ancestry: set<nat>, op: Op)
      returns (ok: bool, updated: map<nat, Ledger>)
    ensures ok <==> AllAllow(infos, ledgers, ancestry, op)
    ensures updated == if ok then ApplyAll(infos, ledgers, ancestry, op) else ledgers
  {
    updated := ledgers;
    if !AllAllow(infos, ledgers, ancestry, op) {
      return false, ledgers;
    }
    var todo := ancestry;
    while todo != {}
      invariant todo <= ancestry && updated.Keys == ledgers.Keys
      invariant forall l :: l in ledgers ==>
        updated[l] == if l in ancestry - todo then Apply(infos[l], ledgers[l], op) else ledgers[l]
      decreases todo
    {
      var l :| l in todo;
      updated := updated[l := Apply(infos[l], updated[l], op)];
      todo := todo - {l};
    }
    ok := true;
  }
}
