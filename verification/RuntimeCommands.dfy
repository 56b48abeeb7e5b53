// What each command asks of the rows, and what it leaves in them, column by column
// (agent-platform/migrations/0006, 0007 and 0008).
module RuntimeCommands {
  import opened Collections
  import opened RuntimeStates
  import opened RuntimeLedger
  import opened RuntimeProtocol
  import opened RuntimeLaws

  // ----- the rows -----

  /** The row of the Attempt is at the generation the command expects, and its lease is
      the command's and has not run out. */
  ghost predicate LeaseCurrent(w: World, c: Fence, now: int) {
    && c.attempt < |w.attempts| && CellOf(w, AttemptK, c.attempt).generation == c.generation
    && w.attempts[c.attempt].lease.generation == c.leaseGeneration
    && w.attempts[c.attempt].lease.token == c.token && w.attempts[c.attempt].lease.worker == c.principal
    && w.attempts[c.attempt].lease.expires > now
  }

  ghost predicate AllRunning(f: Fixed, w: World, task: nat) {
    && task in f.tasks && CellOf(w, RunK, f.tasks[task].run).state == Running
    && CellOf(w, TaskK, task).state == Running && CellOf(w, SessionK, task).state == Open
  }

  ghost predicate AheadOf(f: Fixed, task: nat, now: int) {
    && task in f.tasks && f.tasks[task].run in f.runs
    && f.tasks[task].deadline > now && f.runs[f.tasks[task].run].deadline > now
  }

  /** A Turn of the Attempt has no end yet, or still holds its reservation. */
  ghost predicate Pending(w: World, a: nat) {
    exists i :: 0 <= i < |w.turns| && w.turns[i].attempt == a && TurnPending(w, i)
  }

  ghost predicate TurnPending(w: World, i: nat)
    requires i < |w.turns|
  {
    var state := CellOf(w, TurnK, i).state;
    w.turns[i].held || state == Planned || state == Dispatched || state == Unknown
  }

  // ----- the ledgers above a Task -----

  /** The ledgers above the Task's end in the one of its Run. */
  ghost predicate UnderRun(f: Fixed, task: nat)
    requires task in f.tasks
  {
    exists l :: l in Charged(f, task) && l in f.infos
      && f.infos[l].scope == RunScope(f.tasks[task].run) && f.infos[l].parent == None
  }

  ghost predicate NoneClosed(f: Fixed, w: World, task: nat)
    requires task in f.tasks
  {
    UnderRun(f, task) && forall l :: l in Charged(f, task) ==> l in w.ledgers && w.ledgers[l].state != Closed
  }

  /** Every ledger above the Task is open and has room for the amount on each meter. */
  ghost predicate RoomFor(f: Fixed, w: World, task: nat, amount: Amount)
    requires task in f.tasks
  {
    UnderRun(f, task) && forall l :: l in Charged(f, task) ==>
      && l in f.infos && l in w.ledgers && w.ledgers[l].state == Open
      && var used, held, limit := w.ledgers[l].consumed, w.ledgers[l].reserved, f.infos[l].limit;
      && used.calls + held.calls + amount.calls <= limit.calls && used.input + held.input + amount.input <= limit.input
      && used.output + held.output + amount.output <= limit.output && used.cost + held.cost + amount.cost <= limit.cost
      && used.wall + held.wall + amount.wall <= limit.wall
  }

  ghost predicate SlotFree(f: Fixed, w: World, task: nat)
    requires task in f.tasks
  {
    UnderRun(f, task) && forall l :: l in Charged(f, task) ==>
      && l in f.infos && l in w.ledgers && w.ledgers[l].state == Open
      && w.ledgers[l].active + f.infos[l].reservedActive + 1 <= f.infos[l].parallelism
      && w.ledgers[l].active + 1 <= f.infos[l].tasks
  }

  ghost predicate SlotTaken(f: Fixed, w: World, task: nat)
    requires task in f.tasks
  {
    UnderRun(f, task) && forall l :: l in Charged(f, task) ==>
      l in f.infos && l in w.ledgers && w.ledgers[l].state != Closed && w.ledgers[l].active > 0
  }

  /** Every ledger above the Task holds the reservation and can be charged what was used. */
  ghost predicate CanSettle(f: Fixed, w: World, task: nat, held: Amount, used: Amount)
    requires task in f.tasks
  {
    UnderRun(f, task) && forall l :: l in Charged(f, task) ==>
      && l in f.infos && l in w.ledgers && w.ledgers[l].state != Closed && held.Within(w.ledgers[l].reserved)
      && var spent, limit := w.ledgers[l].consumed, f.infos[l].limit;
      && spent.calls + used.calls <= limit.calls && spent.input + used.input <= limit.input
      && spent.output + used.output <= limit.output && spent.cost + used.cost <= limit.cost
      && spent.wall + used.wall <= limit.wall
  }

  ghost predicate RetryLeft(f: Fixed, w: World, task: nat, why: RetryClass)
    requires task in f.tasks
  {
    UnderRun(f, task) && forall l :: l in Charged(f, task) ==>
      && l in f.infos && l in w.ledgers && w.ledgers[l].state == Open
      && (why == InvalidOutput ==> w.ledgers[l].invalidRetries < f.infos[l].invalidLimit)
      && (why == Infrastructure ==> w.ledgers[l].infrastructureRetries < f.infos[l].infrastructureLimit)
  }

  lemma {:induction false} RoomIff(f: Fixed, w: World, task: nat, amount: Amount)
    requires task in f.tasks
    ensures LedgersAllow(f, w, task, Reserve(amount)) <==> RoomFor(f, w, task, amount)
  {
  }

  lemma {:induction false} SlotFreeIff(f: Fixed, w: World, task: nat)
    requires task in f.tasks
    ensures LedgersAllow(f, w, task, TakeSlot) <==> SlotFree(f, w, task)
    ensures LedgersAllow(f, w, task, FreeSlot) <==> SlotTaken(f, w, task)
    ensures LedgersUsable(f, w, task) <==> NoneClosed(f, w, task)
  {
  }

  lemma {:induction false} CanSettleIff(f: Fixed, w: World, task: nat, held: Amount, used: Amount)
    requires task in f.tasks
    ensures LedgersAllow(f, w, task, Settle(held, used)) <==> CanSettle(f, w, task, held, used)
  {
  }

  lemma {:induction false} RetryLeftIff(f: Fixed, w: World, task: nat, why: RetryClass)
    requires task in f.tasks
    ensures LedgersAllow(f, w, task, Retry(why)) <==> RetryLeft(f, w, task, why)
  {
  }

  // ----- start -----

  /** A start takes effect exactly when all rows run, no deadline has passed, and the
      Attempt is leased under the command's lease; it changes one cell. */
  lemma {:induction false} StartIff(f: Fixed, w: World, c: Command, now: int, admitted: bool)
    requires c.Start?
    ensures var a := c.fence.attempt;
      Try(f, w, c, now, admitted).Some? <==>
        && admitted && LeaseCurrent(w, c.fence, now) && AllRunning(f, w, w.attempts[a].task)
        && AheadOf(f, w.attempts[a].task, now) && now < c.fence.deadline && CellOf(w, AttemptK, a).state == Leased
    ensures var a, g := Subject(AttemptK, c.fence.attempt), c.fence.generation;
      Try(f, w, c, now, admitted).Some? ==>
        Step(f, w, c, now, admitted)
        == w.(cells := w.cells[a := Cell(Executing, g + 1)], log := w.log + [Event(a, Some(Leased), Executing, g + 1)])
  {
  }

  // ----- model calls -----

  /** Above the Task each ledger has moved on by one generation with the new amounts; no
      other ledger has changed. */
  ghost predicate Posted(f: Fixed, w: World, y: World, task: nat, freed: Amount, held: Amount, spent: Amount,
                         settles: bool)
    requires task in f.tasks
  {
    && y.ledgers.Keys == w.ledgers.Keys
    && (forall l :: l in w.ledgers && l !in Charged(f, task) ==> y.ledgers[l] == w.ledgers[l])
    && (forall l :: l in w.ledgers && l in Charged(f, task) ==>
          && PostedTo(w.ledgers[l], y.ledgers[l], freed, held, spent)
          && y.ledgers[l].state ==
             if settles && w.ledgers[l].state == Open && l in f.infos && UsedUp(y.ledgers[l].consumed, f.infos[l].limit)
             then Exhausted else w.ledgers[l].state)
  }

  function Meters(a: Amount): seq<int> {
    [a.calls, a.input, a.output, a.cost, a.wall]
  }

  /** A meter with a limit has none of it left. */
  ghost predicate UsedUp(spent: Amount, limit: Amount) {
    exists i :: 0 <= i < 5 && Meters(limit)[i] > 0 && Meters(spent)[i] == Meters(limit)[i]
  }

  lemma {:induction false} UsedUpIff(spent: Amount, limit: Amount)
    ensures spent.Reaches(limit) <==> UsedUp(spent, limit)
  {
    var a, b := Meters(spent), Meters(limit);
    assert a[0] == spent.calls && a[1] == spent.input && a[2] == spent.output && a[3] == spent.cost;
    assert b[0] == limit.calls && b[1] == limit.input && b[2] == limit.output && b[3] == limit.cost;
    assert a[4] == spent.wall && b[4] == limit.wall;
  }

  ghost predicate PostedTo(a: Ledger, b: Ledger, freed: Amount, held: Amount, spent: Amount) {
    && b.generation == a.generation + 1 && b.active == a.active && b.invalidRetries == a.invalidRetries
    && b.infrastructureRetries == a.infrastructureRetries
    && b.reserved.calls == a.reserved.calls - freed.calls + held.calls
    && b.reserved.input == a.reserved.input - freed.input + held.input
    && b.reserved.output == a.reserved.output - freed.output + held.output
    && b.reserved.cost == a.reserved.cost - freed.cost + held.cost
    && b.reserved.wall == a.reserved.wall - freed.wall + held.wall
    && b.consumed.calls == a.consumed.calls + spent.calls && b.consumed.input == a.consumed.input + spent.input
    && b.consumed.output == a.consumed.output + spent.output && b.consumed.cost == a.consumed.cost + spent.cost
    && b.consumed.wall == a.consumed.wall + spent.wall
  }

  const NOTHING := Amount(0, 0, 0, 0, 0)

  lemma {:induction false} ReservePosted(f: Fixed, w: World, y: World, task: nat, amount: Amount)
    requires task in f.tasks && LedgersAllow(f, w, task, Reserve(amount))
    requires y.ledgers == ApplyAll(f.infos, w.ledgers, Charged(f, task), Reserve(amount))
    ensures Posted(f, w, y, task, NOTHING, amount, NOTHING, false)
  {
    hide Charged, UsedUp, Amount.Reaches;
  }

  lemma {:induction false} SettlePosted(f: Fixed, w: World, y: World, task: nat, amount: Amount, used: Amount)
    requires task in f.tasks && LedgersAllow(f, w, task, Settle(amount, used))
    requires y.ledgers == ApplyAll(f.infos, w.ledgers, Charged(f, task), Settle(amount, used))
    ensures Posted(f, w, y, task, amount, NOTHING, used, true)
  {
    hide Charged, UsedUp, Amount.Reaches;
    forall l | l in f.infos && l in y.ledgers
      ensures y.ledgers[l].consumed.Reaches(f.infos[l].limit) <==> UsedUp(y.ledgers[l].consumed, f.infos[l].limit)
    {
      UsedUpIff(y.ledgers[l].consumed, f.infos[l].limit);
    }
  }

  /** A dispatch takes effect exactly when the Attempt executes under the command's lease,
      has no pending Turn, asks for one call that ends within the lease and the deadlines,
      and every ledger above has room for it. */
  lemma {:induction false} DispatchIff(f: Fixed, w: World, c: Command, now: int, admitted: bool)
    requires c.Dispatch?
    ensures var a, amount := c.fence.attempt, c.reservation;
      Try(f, w, c, now, admitted).Some? <==>
        && admitted && LeaseCurrent(w, c.fence, now) && AllRunning(f, w, w.attempts[a].task)
        && AheadOf(f, w.attempts[a].task, now) && now < c.fence.deadline && CellOf(w, AttemptK, a).state == Executing
        && amount.calls == 1 && amount.input >= 0 && amount.output >= 0 && amount.cost >= 0 && amount.wall >= 0
        && now + amount.wall <= w.attempts[a].lease.expires
        && now + amount.wall <= f.tasks[w.attempts[a].task].deadline
        && now + amount.wall <= f.runs[f.tasks[w.attempts[a].task].run].deadline
        && !Pending(w, a) && RoomFor(f, w, w.attempts[a].task, amount)
  {
    hide AskLedgers, RoomFor, Unresolved, Pending, NewTurn;
    if c.fence.attempt < |w.attempts| && w.attempts[c.fence.attempt].task in f.tasks {
      RoomIff(f, w, w.attempts[c.fence.attempt].task, c.reservation);
      PendingIff(w, c.fence.attempt);
    }
  }

  lemma {:induction false} PendingIff(w: World, a: nat)
    ensures Unresolved(w, a) <==> Pending(w, a)
  {
    if i :| 0 <= i < |w.turns| && w.turns[i].attempt == a && TurnOpen(w, i) {
      assert w.turns[i].attempt == a;
    }
    if i :| 0 <= i < |w.turns| && w.turns[i].attempt == a && TurnPending(w, i) {
      assert TurnOpen(w, i);
    }
  }

  /** It plans a Turn that holds the reservation, dispatches it, and reserves it above. */
  lemma {:induction false} Dispatches(f: Fixed, w: World, c: Command, now: int)
    requires c.Dispatch? && Try(f, w, c, now, true).Some?
    ensures c.fence.attempt < |w.attempts| && w.attempts[c.fence.attempt].task in f.tasks
    ensures var y, task, t := Step(f, w, c, now, true), w.attempts[c.fence.attempt].task, Subject(TurnK, |w.turns|);
      && y.turns == w.turns + [Turn(c.fence.attempt, task, true, c.reservation, NOTHING)]
      && y.cells == w.cells[t := Cell(Dispatched, 2)]
      && y.log == w.log + [Event(t, None, Planned, 1), Event(t, Some(Planned), Dispatched, 2)]
      && y.attempts == w.attempts && y.slots == w.slots
      && Posted(f, w, y, task, NOTHING, c.reservation, NOTHING, false)
  {
    hide AskLedgers, Posted, FenceHolds, Charged;
    var task, t := w.attempts[c.fence.attempt].task, Subject(TurnK, |w.turns|);
    ReservePosted(f, w, Step(f, w, c, now, true), task, c.reservation);
    assert w.cells[t := Cell(Planned, 1)][t := Cell(Dispatched, 2)] == w.cells[t := Cell(Dispatched, 2)];
  }

  /** The Turn is the Attempt's, at the expected generation, and holds its reservation. */
  ghost predicate TurnCurrent(w: World, c: Command)
    requires c.MarkUnknown? || c.Resolve?
  {
    && c.turn < |w.turns| && w.turns[c.turn].attempt == c.fence.attempt && w.turns[c.turn].held
    && CellOf(w, TurnK, c.turn).generation == c.turnGeneration
  }

  /** Run and Task deadlines do not keep a call from becoming unknown; the lease does. */
  lemma {:induction false} MarkUnknownIff(f: Fixed, w: World, c: Command, now: int, admitted: bool)
    requires c.MarkUnknown?
    ensures var a := c.fence.attempt;
      Try(f, w, c, now, admitted).Some? <==>
        && admitted && LeaseCurrent(w, c.fence, now) && AllRunning(f, w, w.attempts[a].task)
        && now < c.fence.deadline && CellOf(w, AttemptK, a).state == Executing
        && TurnCurrent(w, c) && CellOf(w, TurnK, c.turn).state == Dispatched
    ensures var t, g := Subject(TurnK, c.turn), c.turnGeneration;
      Try(f, w, c, now, admitted).Some? ==>
        Step(f, w, c, now, admitted)
        == w.(cells := w.cells[t := Cell(Unknown, g + 1)], log := w.log + [Event(t, Some(Dispatched), Unknown, g + 1)])
  {
  }

  /** What a resolution charges: the usage of a result, and the whole reservation of a
      failure. */
  ghost function Spent(t: Turn, outcome: Outcome): Amount {
    match outcome
    case Result(used) => used
    case Failure => t.reservation
  }

  ghost predicate UsageWithin(t: Turn, outcome: Outcome) {
    match outcome
    case Result(used) =>
      && used.calls == 1 && 1 <= t.reservation.calls && 0 <= used.input <= t.reservation.input
      && 0 <= used.output <= t.reservation.output && 0 <= used.cost <= t.reservation.cost
      && 0 <= used.wall <= t.reservation.wall
    case Failure => true
  }

  lemma {:induction false} UsageIff(t: Turn, outcome: Outcome)
    ensures UsageFits(t, outcome) <==> UsageWithin(t, outcome)
  {
  }

  /** A resolution takes effect exactly for a dispatched or unknown Turn of the Attempt
      that holds its reservation, when the usage is within it and the ledgers can settle. */
  lemma {:induction false} ResolveIff(f: Fixed, w: World, c: Command, now: int, admitted: bool)
    requires c.Resolve?
    ensures var a := c.fence.attempt;
      Try(f, w, c, now, admitted).Some? <==>
        && admitted && LeaseCurrent(w, c.fence, now) && AllRunning(f, w, w.attempts[a].task)
        && now < c.fence.deadline && CellOf(w, AttemptK, a).state == Executing && TurnCurrent(w, c)
        && (CellOf(w, TurnK, c.turn).state == Dispatched || CellOf(w, TurnK, c.turn).state == Unknown)
        && UsageWithin(w.turns[c.turn], c.outcome)
        && CanSettle(f, w, w.attempts[a].task, w.turns[c.turn].reservation, Spent(w.turns[c.turn], c.outcome))
  {
    hide CanSettle, AskLedgers, UsageFits, UsageWithin;
    if c.fence.attempt < |w.attempts| && w.attempts[c.fence.attempt].task in f.tasks && c.turn < |w.turns| {
      UsageIff(w.turns[c.turn], c.outcome);
      CanSettleIff(f, w, w.attempts[c.fence.attempt].task, w.turns[c.turn].reservation,
                   Spent(w.turns[c.turn], c.outcome));
    }
  }

  /** It ends the Turn, releases its reservation, and posts what was spent. */
  lemma {:induction false} Resolves(f: Fixed, w: World, c: Command, now: int)
    requires c.Resolve? && Try(f, w, c, now, true).Some?
    ensures c.fence.attempt < |w.attempts| && w.attempts[c.fence.attempt].task in f.tasks && c.turn < |w.turns|
    ensures var y, task, t := Step(f, w, c, now, true), w.attempts[c.fence.attempt].task, Subject(TurnK, c.turn);
      var before, end := w.turns[c.turn], if c.outcome.Result? then ResultCommitted else RuntimeStates.Failed;
      && y.turns == w.turns[c.turn := Turn(before.attempt, before.task, false, before.reservation,
                                           Spent(before, c.outcome))]
      && y.cells == w.cells[t := Cell(end, c.turnGeneration + 1)]
      && y.log == w.log + [Event(t, Some(CellOf(w, TurnK, c.turn).state), end, c.turnGeneration + 1)]
      && y.attempts == w.attempts && y.slots == w.slots
      && Posted(f, w, y, task, before.reservation, NOTHING, Spent(before, c.outcome), true)
  {
    hide AskLedgers, UsageFits, Posted, FenceHolds, Charged;
    var before := w.turns[c.turn];
    SettlePosted(f, w, Step(f, w, c, now, true), w.attempts[c.fence.attempt].task, before.reservation,
                 Spent(before, c.outcome));
  }

  // ----- endings -----

  /** Above the Task each ledger has moved on by one generation with one slot more or less. */
  ghost predicate SlotPosted(f: Fixed, w: World, y: World, task: nat, change: int)
    requires task in f.tasks
  {
    && y.ledgers.Keys == w.ledgers.Keys
    && forall l :: l in w.ledgers ==>
         var a, b := w.ledgers[l], y.ledgers[l];
         if l in Charged(f, task) then b == a.(active := a.active + change, generation := a.generation + 1) else b == a
  }

  ghost predicate RetryPosted(f: Fixed, w: World, y: World, task: nat, invalid: int, infrastructure: int)
    requires task in f.tasks
  {
    && y.ledgers.Keys == w.ledgers.Keys
    && forall l :: l in w.ledgers ==>
         var a, b := w.ledgers[l], y.ledgers[l];
         if l in Charged(f, task)
         then b == a.(invalidRetries := a.invalidRetries + invalid, generation := a.generation + 1,
                      infrastructureRetries := a.infrastructureRetries + infrastructure)
         else b == a
  }

  lemma {:induction false} PostedSlots(f: Fixed, w: World, y: World, task: nat)
    requires task in f.tasks
    ensures
      LedgersAllow(f, w, task, TakeSlot) && y.ledgers == ApplyAll(f.infos, w.ledgers, Charged(f, task), TakeSlot) ==>
        SlotPosted(f, w, y, task, 1)
    ensures
      LedgersAllow(f, w, task, FreeSlot) && y.ledgers == ApplyAll(f.infos, w.ledgers, Charged(f, task), FreeSlot) ==>
        SlotPosted(f, w, y, task, -1)
  {
    hide Charged;
  }

  lemma {:induction false} PostedRetry(f: Fixed, w: World, y: World, task: nat, why: RetryClass)
    requires task in f.tasks && LedgersAllow(f, w, task, Retry(why))
    requires y.ledgers == ApplyAll(f.infos, w.ledgers, Charged(f, task), Retry(why))
    ensures RetryPosted(f, w, y, task, if why == InvalidOutput then 1 else 0, if why == Infrastructure then 1 else 0)
  {
    hide Charged;
  }

  /** Every other Task of the Run has reached a state it never leaves. */
  ghost predicate OnlyOneLeft(f: Fixed, w: World, task: nat)
    requires task in f.tasks
  {
    forall t :: t in f.tasks && t != task && f.tasks[t].run == f.tasks[task].run ==>
      CellOf(w, TaskK, t).state in {Succeeded, RuntimeStates.Failed, Canceled, Superseded, DeadLettered}
  }

  /** What Commit and Fail have in common: the rows run, nothing has passed, the Task holds
      its slot, and no Turn is pending. */
  ghost predicate CanEnd(f: Fixed, w: World, c: Command, now: int)
    requires c.Commit? || c.Fail?
  {
    && LeaseCurrent(w, c.fence, now) && AllRunning(f, w, w.attempts[c.fence.attempt].task)
    && AheadOf(f, w.attempts[c.fence.attempt].task, now) && now < c.fence.deadline
    && w.attempts[c.fence.attempt].task in w.slots && !Pending(w, c.fence.attempt)
  }

  lemma {:induction false} CanEndIff(f: Fixed, w: World, c: Command, now: int)
    requires c.Commit? || c.Fail?
    ensures Terminable(f, w, c.fence, now) <==> CanEnd(f, w, c, now)
  {
    hide Unresolved, Pending;
    PendingIff(w, c.fence.attempt);
  }

  /** A commit takes effect exactly when the Attempt executes and can end, the slot can be
      given back, and, for the root, every other Task has ended. */
  lemma {:induction false} CommitIff(f: Fixed, w: World, c: Command, now: int, admitted: bool)
    requires c.Commit?
    ensures var a := c.fence.attempt;
      Try(f, w, c, now, admitted).Some? <==>
        && admitted && CanEnd(f, w, c, now) && CellOf(w, AttemptK, a).state == Executing
        && SlotTaken(f, w, w.attempts[a].task)
        && (f.tasks[w.attempts[a].task].root ==> OnlyOneLeft(f, w, w.attempts[a].task))
  {
    hide Terminable, CanEnd, AskLedgers, SlotTaken, SlotFree, NoneClosed, LockLedgers, CommitTask;
    CanEndIff(f, w, c, now);
    if CanEnd(f, w, c, now) {
      CanEndShape(f, w, c, now);
      SlotFreeIff(f, w, w.attempts[c.fence.attempt].task);
      OnlyOneLeftIff(f, w, w.attempts[c.fence.attempt].task);
    }
  }

  lemma {:induction false} CanEndShape(f: Fixed, w: World, c: Command, now: int)
    requires (c.Commit? || c.Fail?) && CanEnd(f, w, c, now)
    ensures c.fence.attempt < |w.attempts| && w.attempts[c.fence.attempt].task in f.tasks
  {
  }

  lemma {:induction false} OnlyOneLeftIff(f: Fixed, w: World, task: nat)
    requires task in f.tasks
    ensures OthersEnded(f, w, task) <==> OnlyOneLeft(f, w, task)
  {
  }

  /** A failure takes effect exactly when the Attempt is leased or executing and can end,
      and either its retry is granted or the slot can be given back. */
  lemma {:induction false} FailIff(f: Fixed, w: World, c: Command, now: int, admitted: bool)
    requires c.Fail?
    ensures var a := c.fence.attempt;
      Try(f, w, c, now, admitted).Some? <==>
        && admitted && CanEnd(f, w, c, now)
        && (CellOf(w, AttemptK, a).state == Leased || CellOf(w, AttemptK, a).state == Executing)
        && NoneClosed(f, w, w.attempts[a].task)
        && ((c.retry != NoRetry && RetryLeft(f, w, w.attempts[a].task, c.retry)) || SlotTaken(f, w, w.attempts[a].task))
  {
    hide Terminable, CanEnd, AskLedgers, SlotTaken, SlotFree, NoneClosed, LockLedgers, RetryLeft, EndTask, RetryTask;
    CanEndIff(f, w, c, now);
    if CanEnd(f, w, c, now) {
      CanEndShape(f, w, c, now);
      SlotFreeIff(f, w, w.attempts[c.fence.attempt].task);
      RetryLeftIff(f, w, w.attempts[c.fence.attempt].task, c.retry);
    }
  }

  ghost function Next(w: World, kind: Kind, id: nat, to: State): Cell {
    Cell(to, CellOf(w, kind, id).generation + 1)
  }

  /** A commit ends the Attempt and closes its Session; the Task succeeds, behind the state
      in which its result is committed, and gives its slot back; the root ends the Run. */
  lemma {:induction false} Commits(f: Fixed, w: World, c: Command, now: int)
    requires c.Commit? && Try(f, w, c, now, true).Some?
    ensures c.fence.attempt < |w.attempts| && w.attempts[c.fence.attempt].task in f.tasks
    ensures var a, task := c.fence.attempt, w.attempts[c.fence.attempt].task;
      var run, y := f.tasks[task].run, Step(f, w, c, now, true);
      && (forall kind, id :: CellOf(y, kind, id) ==
            match kind
            case AttemptK => if id == a then Next(w, kind, id, ResultCommitted) else CellOf(w, kind, id)
            case TaskK =>
              if id == task then Cell(Succeeded, CellOf(w, kind, id).generation + 2) else CellOf(w, kind, id)
            case SessionK => if id == task then Next(w, kind, id, Closed) else CellOf(w, kind, id)
            case RunK => if id == run && f.tasks[task].root then Next(w, kind, id, Succeeded) else CellOf(w, kind, id)
            case _ => CellOf(w, kind, id))
      && y.turns == w.turns && y.attempts == w.attempts && y.slots == w.slots - {task}
      && SlotPosted(f, w, y, task, -1)
  {
    hide Terminable, AskLedgers, SlotPosted, Charged, OthersEnded, CommitTask, Committed, EndTask;
    EndsShape(f, w, c, now);
    var a, task := c.fence.attempt, w.attempts[c.fence.attempt].task;
    CommittedShape(w, a, task);
    SameLedgers(f, w, Committed(w, a, task), task, FreeSlot);
    assert LedgersAllow(f, w, task, FreeSlot);
    EndTaskShape(f, Committed(w, a, task), task, Succeeded, f.tasks[task].root);
    CommitText(f, w, c, now);
    PostedSlots(f, w, Step(f, w, c, now, true), task);
  }

  lemma {:induction false} EndsShape(f: Fixed, w: World, c: Command, now: int)
    requires (c.Commit? || c.Fail?) && Try(f, w, c, now, true).Some?
    ensures c.fence.attempt < |w.attempts| && w.attempts[c.fence.attempt].task in f.tasks
    ensures c.Commit? ==> CommitAllowed(f, w, c.fence, now)
    ensures c.Fail? ==> FailAllowed(f, w, c.fence, now)
  {
    hide AskLedgers, LockLedgers, FenceHolds, Unresolved;
  }

  lemma {:induction false} SameLedgers(f: Fixed, w: World, x: World, task: nat, op: Op)
    requires task in f.tasks && x.ledgers == w.ledgers
    ensures LedgersAllow(f, x, task, op) <==> LedgersAllow(f, w, task, op)
    ensures LedgersAllow(f, x, task, op) ==>
      Charge(f, x, task, op).ledgers == ApplyAll(f.infos, w.ledgers, Charged(f, task), op)
  {
    hide Charged;
  }

  lemma {:induction false} CommitText(f: Fixed, w: World, c: Command, now: int)
    requires c.Commit? && CommitAllowed(f, w, c.fence, now)
    ensures var a, task := c.fence.attempt, w.attempts[c.fence.attempt].task;
      && LedgersAllow(f, Committed(w, a, task), task, FreeSlot)
      && Step(f, w, c, now, true) == EndTask(f, Committed(w, a, task), task, Succeeded, f.tasks[task].root)
  {
    hide EndTask;
  }

  /** How a failure that takes effect ends. */
  lemma {:induction false} FailText(f: Fixed, w: World, c: Command, now: int)
    requires c.Fail? && Try(f, w, c, now, true).Some?
    ensures c.fence.attempt < |w.attempts| && w.attempts[c.fence.attempt].task in f.tasks
    ensures var a, task := c.fence.attempt, w.attempts[c.fence.attempt].task;
      var y, last := Step(f, w, c, now, true), LastOfRun(f, w, task);
      if RetryGranted(f, w, task, c.retry)
      then LedgersAllow(f, FailedAttempt(w, a), task, Retry(c.retry))
           && y == RetryTask(f, FailedAttempt(w, a), task, c.retry, last)
      else LedgersAllow(f, w, task, FreeSlot)
           && LedgersAllow(f, FailedTask(w, a, task, FailState(c.retry)), task, FreeSlot)
           && y == EndTask(f, FailedTask(w, a, task, FailState(c.retry)), task, FailState(c.retry), last)
  {
    hide AskLedgers, LockLedgers, Terminable, OthersEnded, EndTask, RetryTask, Charged;
    EndsShape(f, w, c, now);
    var a, task := c.fence.attempt, w.attempts[c.fence.attempt].task;
    SameLedgers(f, w, FailedAttempt(w, a), task, Retry(c.retry));
    SameLedgers(f, w, FailedTask(w, a, task, FailState(c.retry)), task, FreeSlot);
  }

  /** A granted retry is counted above the Task, which waits and keeps its slot; when it
      is the last of the Run, the Run waits too. */
  lemma {:induction false} Retries(f: Fixed, w: World, c: Command, now: int)
    requires c.Fail? && Try(f, w, c, now, true).Some?
    ensures c.fence.attempt < |w.attempts| && w.attempts[c.fence.attempt].task in f.tasks
    ensures var a, task := c.fence.attempt, w.attempts[c.fence.attempt].task;
      var run, y := f.tasks[task].run, Step(f, w, c, now, true);
      c.retry != NoRetry && RetryLeft(f, w, task, c.retry) ==>
        && (forall kind, id :: CellOf(y, kind, id) ==
              match kind
              case AttemptK => if id == a then Next(w, kind, id, RuntimeStates.Failed) else CellOf(w, kind, id)
              case TaskK => if id == task then Next(w, kind, id, Waiting) else CellOf(w, kind, id)
              case RunK =>
                if id == run && f.tasks[task].root && OnlyOneLeft(f, w, task)
                then Next(w, kind, id, Waiting) else CellOf(w, kind, id)
              case _ => CellOf(w, kind, id))
        && y.turns == w.turns && y.attempts == w.attempts && y.slots == w.slots
        && RetryPosted(f, w, y, task, if c.retry == InvalidOutput then 1 else 0,
                       if c.retry == Infrastructure then 1 else 0)
  {
    hide AskLedgers, RetryPosted, Charged, OthersEnded, OnlyOneLeft, RetryLeft, FailAllowed, RetryTask;
    EndsShape(f, w, c, now);
    var task := w.attempts[c.fence.attempt].task;
    RetryLeftIff(f, w, task, c.retry);
    OnlyOneLeftIff(f, w, task);
    if RetryGranted(f, w, task, c.retry) {
      var failed := FailedAttempt(w, c.fence.attempt);
      FailText(f, w, c, now);
      RetryCells(f, failed, task, c.retry, LastOfRun(f, w, task));
      PostedRetry(f, w, Step(f, w, c, now, true), task, c.retry);
    }
  }

  lemma {:induction false} RetryCells(f: Fixed, w: World, task: nat, retry: RetryClass, endRun: bool)
    requires task in f.tasks && LedgersAllow(f, w, task, Retry(retry))
    ensures var y := RetryTask(f, w, task, retry, endRun);
      && (forall kind, id :: CellOf(y, kind, id) ==
            if kind == TaskK && id == task then Next(w, kind, id, Waiting)
            else if kind == RunK && id == f.tasks[task].run && endRun then Next(w, kind, id, Waiting)
            else CellOf(w, kind, id))
      && y.turns == w.turns && y.attempts == w.attempts && y.slots == w.slots
      && y.ledgers == ApplyAll(f.infos, w.ledgers, Charged(f, task), Retry(retry))
  {
    hide AskLedgers, Charged;
  }

  /** Without a granted retry the failure is final: the Session closes, the Task gives its
      slot back, and the last Task takes the Run along. A retry that was asked for and not
      granted leaves the Task dead-lettered. */
  lemma {:induction false} FailsForGood(f: Fixed, w: World, c: Command, now: int)
    requires c.Fail? && Try(f, w, c, now, true).Some?
    ensures c.fence.attempt < |w.attempts| && w.attempts[c.fence.attempt].task in f.tasks
    ensures var a, task := c.fence.attempt, w.attempts[c.fence.attempt].task;
      var run, y := f.tasks[task].run, Step(f, w, c, now, true);
      var end := if c.retry == NoRetry then RuntimeStates.Failed else DeadLettered;
      c.retry == NoRetry || !RetryLeft(f, w, task, c.retry) ==>
        && (forall kind, id :: CellOf(y, kind, id) ==
              match kind
              case AttemptK => if id == a then Next(w, kind, id, RuntimeStates.Failed) else CellOf(w, kind, id)
              case TaskK => if id == task then Next(w, kind, id, end) else CellOf(w, kind, id)
              case SessionK => if id == task then Next(w, kind, id, Closed) else CellOf(w, kind, id)
              case RunK =>
                if id == run && f.tasks[task].root && OnlyOneLeft(f, w, task)
                then Next(w, kind, id, end) else CellOf(w, kind, id)
              case _ => CellOf(w, kind, id))
        && y.turns == w.turns && y.attempts == w.attempts && y.slots == w.slots - {task}
        && SlotPosted(f, w, y, task, -1)
  {
    hide AskLedgers, SlotPosted, Charged, OthersEnded, OnlyOneLeft, RetryLeft, FailAllowed, EndTask, RetryTask;
    EndsShape(f, w, c, now);
    var a, task := c.fence.attempt, w.attempts[c.fence.attempt].task;
    RetryLeftIff(f, w, task, c.retry);
    OnlyOneLeftIff(f, w, task);
    if !RetryGranted(f, w, task, c.retry) {
      var failed := FailedTask(w, a, task, FailState(c.retry));
      FailText(f, w, c, now);
      SameLedgers(f, w, failed, task, FreeSlot);
      FailedShape(w, a, task, FailState(c.retry));
      EndTaskShape(f, failed, task, FailState(c.retry), LastOfRun(f, w, task));
      PostedSlots(f, w, Step(f, w, c, now, true), task);
    }
  }

  // ----- claims -----

  /** The rows a claim must find, whatever the Attempts of the Task. */
  ghost predicate Claimable(f: Fixed, w: World, c: Command, now: int)
    requires c.Claim?
  {
    && AheadOf(f, c.task, now) && now < c.deadline
    && 0 < c.seconds <= f.runs[f.tasks[c.task].run].maxLease
    && (var state := CellOf(w, RunK, f.tasks[c.task].run).state;
        state == Running || state == Waiting || (state == Queued && f.tasks[c.task].root))
    && CellOf(w, TaskK, c.task).generation == c.generation && CellOf(w, SessionK, c.task).state == Open
  }

  /** The lease ends after the seconds asked for, or with its Run or its Task. */
  ghost predicate LeaseEnds(f: Fixed, c: Command, now: int, end: int)
    requires c.Claim? && c.task in f.tasks && f.tasks[c.task].run in f.runs
  {
    var run, task := f.runs[f.tasks[c.task].run].deadline, f.tasks[c.task].deadline;
    && end <= now + c.seconds && end <= run && end <= task
    && (end == now + c.seconds || end == run || end == task)
  }

  ghost predicate IsActive(w: World, task: nat, a: nat) {
    && a < |w.attempts| && w.attempts[a].task == task
    && (CellOf(w, AttemptK, a).state == Leased || CellOf(w, AttemptK, a).state == Executing)
  }

  /** The newest Attempt of the Task that has not ended. */
  ghost predicate Newest(w: World, task: nat, a: nat) {
    IsActive(w, task, a) && forall b :: b > a ==> !IsActive(w, task, b)
  }

  lemma {:induction false} ClaimableIff(f: Fixed, w: World, c: Command, now: int)
    requires c.Claim?
    ensures ClaimFenced(f, w, c, now) <==> Claimable(f, w, c, now)
  {
  }

  lemma {:induction false} NewestFound(w: World, task: nat, n: nat)
    requires n <= |w.attempts| && forall b :: b >= n ==> !IsActive(w, task, b)
    ensures match LastActive(w, task, n)
      case None => forall a :: !IsActive(w, task, a)
      case Some(a) => Newest(w, task, a)
  {
    if n > 0 && !Active(w, n - 1, task) {
      NewestFound(w, task, n - 1);
    }
  }

  /** A Task without an active Attempt can be claimed exactly when the rows allow it, the
      Task is ready or waiting, and a slot above it is held already or free everywhere. */
  lemma {:induction false} FirstClaimIff(f: Fixed, w: World, c: Command, now: int, admitted: bool)
    requires c.Claim? && forall a :: !IsActive(w, c.task, a)
    ensures Try(f, w, c, now, admitted).Some? <==>
      && admitted && Claimable(f, w, c, now)
      && (CellOf(w, TaskK, c.task).state == Ready || CellOf(w, TaskK, c.task).state == Waiting)
      && if c.task in w.slots then NoneClosed(f, w, c.task) else SlotFree(f, w, c.task)
  {
    hide AskLedgers, LockLedgers, SlotFree, SlotTaken, NoneClosed, Claimable, ClaimFenced, NewAttempt;
    ClaimableIff(f, w, c, now);
    NewestFound(w, c.task, |w.attempts|);
    if Claimable(f, w, c, now) {
      ClaimKnown(f, w, c, now);
      SlotFreeIff(f, w, c.task);
    }
  }

  lemma {:induction false} ClaimKnown(f: Fixed, w: World, c: Command, now: int)
    requires c.Claim? && Claimable(f, w, c, now)
    ensures c.task in f.tasks && f.tasks[c.task].run in f.runs
    ensures LeaseEnds(f, c, now, FirstLease(f, c, now).expires) && FirstLease(f, c, now).expires > now
  {
  }

  /** It leases a new Attempt under a new lease, runs the Task and its Run, and pays for the
      slot unless the Task holds one. */
  lemma {:induction false} FirstClaims(f: Fixed, w: World, c: Command, now: int)
    requires c.Claim? && (forall a :: !IsActive(w, c.task, a)) && Try(f, w, c, now, true).Some?
    ensures c.task in f.tasks && f.tasks[c.task].run in f.runs
    ensures var y, n, run := Step(f, w, c, now, true), |w.attempts|, f.tasks[c.task].run;
      && (exists end :: LeaseEnds(f, c, now, end) && end > now
            && y.attempts == w.attempts + [Attempt(c.task, Lease(1, c.token, c.principal, end))])
      && (forall kind, id :: CellOf(y, kind, id) ==
            match kind
            case AttemptK => if id == n then Cell(Leased, 1) else CellOf(w, kind, id)
            case TaskK => if id == c.task then Next(w, kind, id, Running) else CellOf(w, kind, id)
            case RunK =>
              if id == run && CellOf(w, RunK, run).state != Running
              then Next(w, kind, id, Running) else CellOf(w, kind, id)
            case _ => CellOf(w, kind, id))
      && y.turns == w.turns && y.slots == w.slots + {c.task}
      && if c.task in w.slots then y.ledgers == w.ledgers else SlotPosted(f, w, y, c.task, 1)
  {
    hide AskLedgers, LockLedgers, Claimable, ClaimFenced, LastActive, SlotPosted, Charged, NewAttempt, FirstLease;
    ClaimableIff(f, w, c, now);
    NewestFound(w, c.task, |w.attempts|);
    ClaimedFirst(f, w, c, now);
    ClaimKnown(f, w, c, now);
    FirstCells(f, w, c.task, FirstLease(f, c, now));
    LeaseText(f, c, now);
    PostedSlots(f, w, Step(f, w, c, now, true), c.task);
  }

  lemma {:induction false} LeaseText(f: Fixed, c: Command, now: int)
    requires c.Claim? && c.task in f.tasks && f.tasks[c.task].run in f.runs
    ensures FirstLease(f, c, now) == Lease(1, c.token, c.principal, FirstLease(f, c, now).expires)
  {
  }

  lemma {:induction false} ClaimedFirst(f: Fixed, w: World, c: Command, now: int)
    requires c.Claim? && LastActive(w, c.task, |w.attempts|).None? && Try(f, w, c, now, true).Some?
    ensures ClaimFenced(f, w, c, now) && c.task in f.tasks && f.tasks[c.task].run in f.runs
    ensures NewAttemptAllowed(f, w, c.task)
    ensures Step(f, w, c, now, true) == NewAttempt(f, w, c.task, FirstLease(f, c, now))
  {
    hide AskLedgers, LockLedgers, NewAttempt;
  }

  lemma {:induction false} FirstCells(f: Fixed, w: World, task: nat, lease: Lease)
    requires task in f.tasks && NewAttemptAllowed(f, w, task)
    ensures var y, n, run := NewAttempt(f, w, task, lease), |w.attempts|, f.tasks[task].run;
      && y.attempts == w.attempts + [Attempt(task, lease)]
      && (forall kind, id :: CellOf(y, kind, id) ==
            match kind
            case AttemptK => if id == n then Cell(Leased, 1) else CellOf(w, kind, id)
            case TaskK => if id == task then Next(w, kind, id, Running) else CellOf(w, kind, id)
            case RunK =>
              if id == run && CellOf(w, RunK, run).state != Running
              then Next(w, kind, id, Running) else CellOf(w, kind, id)
            case _ => CellOf(w, kind, id))
      && y.turns == w.turns && y.slots == w.slots + {task}
      && (if task in w.slots then y.ledgers == w.ledgers
          else LedgersAllow(f, w, task, TakeSlot)
               && y.ledgers == ApplyAll(f.infos, w.ledgers, Charged(f, task), TakeSlot))
  {
    hide AskLedgers, LockLedgers, Charged;
    assert task in w.slots ==> w.slots == w.slots + {task};
  }

  // ----- claims of an expired Attempt -----

  /** The first Turn of the Attempt that holds its reservation in this state. */
  ghost predicate FirstHeld(w: World, a: nat, state: State, i: nat) {
    && i < |w.turns| && HeldIn(w, a, state, i) && forall j :: 0 <= j < i ==> !HeldIn(w, a, state, j)
  }

  ghost predicate HeldIn(w: World, a: nat, state: State, i: nat)
    requires i < |w.turns|
  {
    w.turns[i].attempt == a && w.turns[i].held && CellOf(w, TurnK, i).state == state
  }

  lemma {:induction false} FirstHeldFound(w: World, a: nat, state: State, n: nat)
    requires n <= |w.turns| && forall j :: 0 <= j < n ==> !HeldIn(w, a, state, j)
    ensures match HeldTurn(w, a, state, n)
      case None => forall i :: 0 <= i < |w.turns| ==> !HeldIn(w, a, state, i)
      case Some(i) => FirstHeld(w, a, state, i)
    decreases |w.turns| - n
  {
    if n < |w.turns| && !HeldIn(w, a, state, n) {
      FirstHeldFound(w, a, state, n + 1);
    }
  }

  /** Every ledger above the Task still holds the reservation. */
  ghost predicate StillHeld(f: Fixed, w: World, task: nat, amount: Amount)
    requires task in f.tasks
  {
    NoneClosed(f, w, task) && forall l :: l in Charged(f, task) ==> amount.Within(w.ledgers[l].reserved)
  }

  /** The lease of the Attempt is renewed, and nothing else of it has changed. */
  ghost predicate Renewed(f: Fixed, w: World, y: World, c: Command, now: int, a: nat)
    requires c.Claim? && c.task in f.tasks && f.tasks[c.task].run in f.runs && a < |w.attempts|
  {
    exists end :: LeaseEnds(f, c, now, end) && end > now
      && y.attempts == w.attempts[a := Attempt(w.attempts[a].task,
                                               Lease(w.attempts[a].lease.generation + 1, c.token, c.principal, end))]
  }

  /** An executing Attempt whose lease ran out during a call is taken up, and the call
      becomes unknown, exactly when the Task holds its slot, all rows run, and the
      reservation is still held. */
  lemma {:induction false} CallClaimIff(f: Fixed, w: World, c: Command, now: int, admitted: bool, a: nat, i: nat)
    requires c.Claim? && Newest(w, c.task, a) && CellOf(w, AttemptK, a).state == Executing
    requires FirstHeld(w, a, Dispatched, i)
    ensures Try(f, w, c, now, admitted).Some? <==>
      && admitted && Claimable(f, w, c, now) && w.attempts[a].lease.expires <= now && c.task in w.slots
      && AllRunning(f, w, c.task) && StillHeld(f, w, c.task, w.turns[i].reservation)
    ensures Try(f, w, c, now, admitted).Some? ==>
      var y, t, g := Step(f, w, c, now, admitted), Subject(TurnK, i), CellOf(w, TurnK, i).generation;
      && Renewed(f, w, y, c, now, a) && y.cells == w.cells[t := Cell(Unknown, g + 1)]
      && y.log == w.log + [Event(t, Some(Dispatched), Unknown, g + 1)]
      && y.turns == w.turns && y.slots == w.slots && y.ledgers == w.ledgers
  {
    hide AskLedgers, Claimable, ClaimFenced, LastActive, HeldTurn, LeaseEnds, FirstLease, NoneClosed, LockLedgers;
    ClaimableIff(f, w, c, now);
    NewestIs(w, c.task, a);
    FirstHeldIs(w, a, Dispatched, i);
    if Claimable(f, w, c, now) {
      ClaimKnown(f, w, c, now);
      LeaseText(f, c, now);
      SlotFreeIff(f, w, c.task);
    }
  }

  lemma {:induction false} NewestIs(w: World, task: nat, a: nat)
    requires Newest(w, task, a)
    ensures LastActive(w, task, |w.attempts|) == Some(a)
  {
    NewestFound(w, task, |w.attempts|);
    var found := LastActive(w, task, |w.attempts|);
    assert !(found.Some? && found.value > a) && !(found.Some? && found.value < a);
  }

  lemma {:induction false} FirstHeldIs(w: World, a: nat, state: State, i: nat)
    requires FirstHeld(w, a, state, i)
    ensures HeldTurn(w, a, state, 0) == Some(i)
  {
    FirstHeldFound(w, a, state, 0);
    var found := HeldTurn(w, a, state, 0);
    assert !(found.Some? && found.value < i) && !(found.Some? && i < found.value);
  }

  /** One without such a call is taken up exactly when a call of it is unknown, and the Task
      holds its slot and is ready, waiting or running; Task and Run then run. An Attempt
      with neither is never taken up. */
  lemma {:induction false} UnknownClaimIff(f: Fixed, w: World, c: Command, now: int, admitted: bool, a: nat)
    requires c.Claim? && Newest(w, c.task, a)
    requires CellOf(w, AttemptK, a).state == Leased
             || forall i :: 0 <= i < |w.turns| ==> !HeldIn(w, a, Dispatched, i)
    ensures Try(f, w, c, now, admitted).Some? <==>
      && admitted && Claimable(f, w, c, now) && w.attempts[a].lease.expires <= now && c.task in w.slots
      && (exists i :: 0 <= i < |w.turns| && HeldIn(w, a, Unknown, i)) && NoneClosed(f, w, c.task)
      && (CellOf(w, TaskK, c.task).state == Ready || CellOf(w, TaskK, c.task).state == Waiting
          || CellOf(w, TaskK, c.task).state == Running)
  {
    hide AskLedgers, Claimable, ClaimFenced, LastActive, HeldTurn, FirstLease, NoneClosed, LockLedgers;
    ClaimableIff(f, w, c, now);
    NewestIs(w, c.task, a);
    FirstHeldFound(w, a, Dispatched, 0);
    FirstHeldFound(w, a, Unknown, 0);
    if Claimable(f, w, c, now) {
      ClaimKnown(f, w, c, now);
      SlotFreeIff(f, w, c.task);
    }
  }

  lemma {:induction false} UnknownClaims(f: Fixed, w: World, c: Command, now: int, a: nat)
    requires c.Claim? && Newest(w, c.task, a) && Try(f, w, c, now, true).Some?
    requires CellOf(w, AttemptK, a).state == Leased
             || forall i :: 0 <= i < |w.turns| ==> !HeldIn(w, a, Dispatched, i)
    ensures c.task in f.tasks && f.tasks[c.task].run in f.runs
    ensures var y, run := Step(f, w, c, now, true), f.tasks[c.task].run;
      && Renewed(f, w, y, c, now, a)
      && (forall kind, id :: CellOf(y, kind, id) ==
            match kind
            case TaskK =>
              if id == c.task && CellOf(w, TaskK, c.task).state != Running
              then Next(w, kind, id, Running) else CellOf(w, kind, id)
            case RunK =>
              if id == run && CellOf(w, RunK, run).state != Running
              then Next(w, kind, id, Running) else CellOf(w, kind, id)
            case _ => CellOf(w, kind, id))
      && y.turns == w.turns && y.slots == w.slots && y.ledgers == w.ledgers
  {
    hide AskLedgers, Claimable, ClaimFenced, LastActive, HeldTurn, LeaseEnds, FirstLease, LockLedgers, RenewUnknown,
      Renewed;
    ClaimableIff(f, w, c, now);
    NewestIs(w, c.task, a);
    FirstHeldFound(w, a, Dispatched, 0);
    ClaimKnown(f, w, c, now);
    var lease := NextLease(w, a, FirstLease(f, c, now));
    assert RenewUnknown(f, w, c.task, a, lease) == Some(Step(f, w, c, now, true));
    RenewedUnknown(f, w, c.task, a, lease);
    RenewedText(f, w, Step(f, w, c, now, true), c, now, a);
  }

  lemma {:induction false} RenewedUnknown(f: Fixed, w: World, task: nat, a: nat, lease: Lease)
    requires task in f.tasks && a < |w.attempts| && RenewUnknown(f, w, task, a, lease).Some?
    ensures var y, run := RenewUnknown(f, w, task, a, lease).value, f.tasks[task].run;
      && y.attempts == w.attempts[a := Attempt(w.attempts[a].task, lease)]
      && (forall kind, id :: CellOf(y, kind, id) ==
            match kind
            case TaskK =>
              if id == task && CellOf(w, TaskK, task).state != Running
              then Next(w, kind, id, Running) else CellOf(w, kind, id)
            case RunK =>
              if id == run && CellOf(w, RunK, run).state != Running
              then Next(w, kind, id, Running) else CellOf(w, kind, id)
            case _ => CellOf(w, kind, id))
      && y.turns == w.turns && y.slots == w.slots && y.ledgers == w.ledgers
  {
    hide LockLedgers, AskLedgers, HeldTurn;
  }

  lemma {:induction false} RenewedText(f: Fixed, w: World, y: World, c: Command, now: int, a: nat)
    requires c.Claim? && c.task in f.tasks && f.tasks[c.task].run in f.runs && a < |w.attempts|
    requires Claimable(f, w, c, now)
    requires y.attempts == w.attempts[a := Attempt(w.attempts[a].task, NextLease(w, a, FirstLease(f, c, now)))]
    ensures Renewed(f, w, y, c, now, a)
  {
    hide Claimable, LeaseEnds, FirstLease;
    ClaimKnown(f, w, c, now);
    LeaseText(f, c, now);
  }
}
