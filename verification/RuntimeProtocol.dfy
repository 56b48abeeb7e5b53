// The lease- and generation-fenced commands as atomic steps
// (agent-platform/migrations/0006, 0007 and 0008; the row locks of the source make
// each command one step, and a denied command rolls back).
module RuntimeProtocol {
  import opened Collections
  import opened RuntimeStates
  import opened RuntimeLedger

  // ----- records -----

  datatype RunInfo = RunInfo(deadline: int, maxLease: int)
  datatype TaskInfo = TaskInfo(run: nat, root: bool, ledger: nat, deadline: int)

  /** The rows and columns no command changes. */
  datatype Fixed = Fixed(infos: map<nat, LedgerInfo>, runs: map<nat, RunInfo>, tasks: map<nat, TaskInfo>)

  datatype Lease = Lease(generation: int, token: nat, worker: nat, expires: int)
  datatype Attempt = Attempt(task: nat, lease: Lease)

  /** reservation comes from the immutable manifest; charged is what was settled. */
  datatype Turn = Turn(attempt: nat, task: nat, held: bool, reservation: Amount, charged: Amount)

  /** cells hold the state and generation of every Run, Task, Session (by its Task),
      Attempt and Turn; slots are the Tasks that hold a budget slot. */
  datatype World = World(cells: map<Subject, Cell>, attempts: seq<Attempt>, turns: seq<Turn>, slots: set<nat>,
                         ledgers: map<nat, Ledger>, log: seq<Event>)

  function CellOf(w: World, kind: Kind, id: nat): Cell {
    if Subject(kind, id) in w.cells then w.cells[Subject(kind, id)] else Cell(Disabled, 0)
  }

  function StateOf(w: World, kind: Kind, id: nat): State {
    CellOf(w, kind, id).state
  }

  /** An UPDATE of one state with its event. */
  function Move(w: World, kind: Kind, id: nat, to: State): World {
    var now := CellOf(w, kind, id);
    w.(cells := w.cells[Subject(kind, id) := Cell(to, now.generation + 1)],
       log := w.log + [Event(Subject(kind, id), Some(now.state), to, now.generation + 1)])
  }

  /** An INSERT in the initial state with its event. */
  function Create(w: World, kind: Kind, id: nat, initial: State): World {
    w.(cells := w.cells[Subject(kind, id) := Cell(initial, 1)],
       log := w.log + [Event(Subject(kind, id), None, initial, 1)])
  }

  // ----- commands -----

  datatype Fence = Fence(attempt: nat, generation: int, leaseGeneration: int, token: nat, principal: nat, deadline: int)

  datatype Outcome = Result(used: Amount) | Failure

  datatype Command =
    | Claim(task: nat, generation: int, seconds: int, principal: nat, token: nat, deadline: int)
    | Start(fence: Fence)
    | Dispatch(fence: Fence, reservation: Amount)
    | MarkUnknown(fence: Fence, turn: nat, turnGeneration: int)
    | Resolve(fence: Fence, turn: nat, turnGeneration: int, outcome: Outcome)
    | Commit(fence: Fence)
    | Fail(fence: Fence, retry: RetryClass)

  predicate Executable(f: Fixed, w: World, task: nat) {
    && task in f.tasks && StateOf(w, RunK, f.tasks[task].run) == Running
    && StateOf(w, TaskK, task) == Running && StateOf(w, SessionK, task) == Open
  }

  predicate InTime(f: Fixed, task: nat, deadline: int, now: int) {
    && now < deadline && task in f.tasks && f.tasks[task].run in f.runs
    && now < f.runs[f.tasks[task].run].deadline && now < f.tasks[task].deadline
  }

  /** The final fence: generation, lease and expiry, read behind every lock. */
  predicate FenceHolds(w: World, fence: Fence, now: int) {
    && fence.attempt < |w.attempts|
    && CellOf(w, AttemptK, fence.attempt).generation == fence.generation
    && var lease := w.attempts[fence.attempt].lease;
    && lease.generation == fence.leaseGeneration && lease.token == fence.token && lease.worker == fence.principal
    && now < lease.expires
  }

  predicate TurnOpen(w: World, i: nat) {
    i < |w.turns| && (StateOf(w, TurnK, i) in {Planned, Dispatched, Unknown} || w.turns[i].held)
  }

  predicate Unresolved(w: World, attempt: nat) {
    exists i :: 0 <= i < |w.turns| && w.turns[i].attempt == attempt && TurnOpen(w, i)
  }

  function Charged(f: Fixed, task: nat): set<nat>
    requires task in f.tasks
  {
    Ancestry(f.infos, f.tasks[task].ledger)
  }

  datatype Answer = Granted | Refused

  /** The ledger functions: the ancestry has a root and every row allows the operation. */
  function AskLedgers(f: Fixed, w: World, task: nat, op: Op): Answer
    requires task in f.tasks
  {
    if Rooted(f.infos, Charged(f, task), f.tasks[task].run) && AllAllow(f.infos, w.ledgers, Charged(f, task), op)
    then Granted else Refused
  }

  predicate LedgersAllow(f: Fixed, w: World, task: nat, op: Op)
    requires task in f.tasks
  {
    AskLedgers(f, w, task, op) == Granted
  }

  function Charge(f: Fixed, w: World, task: nat, op: Op): World
    requires task in f.tasks && LedgersAllow(f, w, task, op)
  {
    w.(ledgers := ApplyAll(f.infos, w.ledgers, Charged(f, task), op))
  }

  /** Locking an ancestry that must only exist and not be closed. */
  function LockLedgers(f: Fixed, w: World, task: nat): Answer
    requires task in f.tasks
  {
    if Rooted(f.infos, Charged(f, task), f.tasks[task].run)
       && forall l :: l in Charged(f, task) ==> l in w.ledgers && w.ledgers[l].state != Closed
    then Granted else Refused
  }

  predicate LedgersUsable(f: Fixed, w: World, task: nat)
    requires task in f.tasks
  {
    LockLedgers(f, w, task) == Granted
  }

  predicate OthersEnded(f: Fixed, w: World, task: nat)
    requires task in f.tasks
  {
    forall t :: t in f.tasks && t != task && f.tasks[t].run == f.tasks[task].run ==>
      Terminal(TaskK, StateOf(w, TaskK, t))
  }

  function Min(a: int, b: int): int {
    if a < b then a else b
  }

  function Window(f: Fixed, task: nat, expires: int): int
    requires task in f.tasks && f.tasks[task].run in f.runs
  {
    Min(expires, Min(f.runs[f.tasks[task].run].deadline, f.tasks[task].deadline))
  }

  // ----- claim -----

  predicate Active(w: World, a: nat, task: nat) {
    a < |w.attempts| && w.attempts[a].task == task && StateOf(w, AttemptK, a) in {Leased, Executing}
  }

  function LastActive(w: World, task: nat, n: nat): (r: Option<nat>)
    requires n <= |w.attempts|
    ensures r.Some? ==> r.value < n && Active(w, r.value, task)
    ensures r.None? ==> forall a :: 0 <= a < n ==> !Active(w, a, task)
  {
    if n == 0 then None else if Active(w, n - 1, task) then Some(n - 1) else LastActive(w, task, n - 1)
  }

  /** The one held Turn of an attempt in the given state, the first of them. */
  function HeldTurn(w: World, attempt: nat, state: State, i: nat): (r: Option<nat>)
    requires i <= |w.turns|
    ensures r.Some? ==> i <= r.value < |w.turns| && w.turns[r.value].attempt == attempt && w.turns[r.value].held
    ensures r.Some? ==> StateOf(w, TurnK, r.value) == state
    decreases |w.turns| - i
  {
    if i == |w.turns| then None
    else if w.turns[i].attempt == attempt && w.turns[i].held && StateOf(w, TurnK, i) == state then Some(i)
    else HeldTurn(w, attempt, state, i + 1)
  }

  predicate RunClaimable(f: Fixed, w: World, task: nat)
    requires task in f.tasks
  {
    var s := StateOf(w, RunK, f.tasks[task].run);
    s == Running || s == Waiting || (s == Queued && f.tasks[task].root)
  }

  function AdvanceRun(w: World, run: nat): World {
    if StateOf(w, RunK, run) == Running then w else Move(w, RunK, run, Running)
  }

  predicate ClaimFenced(f: Fixed, w: World, c: Command, now: int)
    requires c.Claim?
  {
    && c.task in f.tasks && InTime(f, c.task, c.deadline, now) && RunClaimable(f, w, c.task)
    && CellOf(w, TaskK, c.task).generation == c.generation && StateOf(w, SessionK, c.task) == Open
    && c.seconds <= f.runs[f.tasks[c.task].run].maxLease && now < Window(f, c.task, now + c.seconds)
  }

  function TryClaim(f: Fixed, w: World, c: Command, now: int): Option<World>
    requires c.Claim?
  {
    if ClaimFenced(f, w, c, now)
    then ClaimTask(f, w, c.task, now, FirstLease(f, c, now)) else None
  }

  function FirstLease(f: Fixed, c: Command, now: int): Lease
    requires c.Claim? && c.task in f.tasks && f.tasks[c.task].run in f.runs
  {
    Lease(1, c.token, c.principal, Window(f, c.task, now + c.seconds))
  }

  /** A new Attempt where none is active; otherwise only an expired one is taken up. */
  function ClaimTask(f: Fixed, w: World, task: nat, now: int, lease: Lease): Option<World>
    requires task in f.tasks
  {
    match LastActive(w, task, |w.attempts|)
    case None => if NewAttemptAllowed(f, w, task) then Some(NewAttempt(f, w, task, lease)) else None
    case Some(a) => ClaimActive(f, w, task, a, now, lease)
  }

  function ClaimActive(f: Fixed, w: World, task: nat, a: nat, now: int, lease: Lease): Option<World>
    requires task in f.tasks && a < |w.attempts|
  {
    if w.attempts[a].lease.expires <= now then ClaimExpired(f, w, task, a, NextLease(w, a, lease)) else None
  }

  function NextLease(w: World, a: nat, lease: Lease): Lease
    requires a < |w.attempts|
  {
    lease.(generation := w.attempts[a].lease.generation + 1)
  }

  /** A ready or waiting Task pays for its slot once. */
  predicate NewAttemptAllowed(f: Fixed, w: World, task: nat)
    requires task in f.tasks
  {
    && StateOf(w, TaskK, task) in {Ready, Waiting}
    && (if task in w.slots then LedgersUsable(f, w, task) else LedgersAllow(f, w, task, TakeSlot))
  }

  function Paid(f: Fixed, w: World, task: nat): World
    requires task in f.tasks && NewAttemptAllowed(f, w, task)
  {
    if task in w.slots then w else Charge(f, w, task, TakeSlot).(slots := w.slots + {task})
  }

  function NewAttempt(f: Fixed, w: World, task: nat, lease: Lease): World
    requires task in f.tasks && NewAttemptAllowed(f, w, task)
  {
    var leased := Create(Paid(f, w, task).(attempts := w.attempts + [Attempt(task, lease)]),
                         AttemptK, |w.attempts|, Leased);
    Move(AdvanceRun(leased, f.tasks[task].run), TaskK, task, Running)
  }

  function Renew(w: World, a: nat, lease: Lease): World
    requires a < |w.attempts|
  {
    w.(attempts := w.attempts[a := Attempt(w.attempts[a].task, lease)])
  }

  /** The lease of an expired Attempt is renewed only to reconcile its unresolved
      Turn: a dispatched one first becomes unknown. */
  function ClaimExpired(f: Fixed, w: World, task: nat, a: nat, lease: Lease): Option<World>
    requires task in f.tasks && a < |w.attempts|
  {
    if task !in w.slots then None
    else if DispatchedLeft(w, a) then RenewDispatched(f, w, task, a, lease, HeldTurn(w, a, Dispatched, 0).value)
    else RenewUnknown(f, w, task, a, lease)
  }

  predicate DispatchedLeft(w: World, a: nat) {
    HeldTurn(w, a, Dispatched, 0).Some? && StateOf(w, AttemptK, a) == Executing
  }

  function RenewDispatched(f: Fixed, w: World, task: nat, a: nat, lease: Lease, turn: nat): Option<World>
    requires task in f.tasks && a < |w.attempts| && turn < |w.turns|
  {
    if Executable(f, w, task) && lease.expires > w.attempts[a].lease.expires
       && LedgersHold(f, w, task, w.turns[turn].reservation)
    then Some(Move(Renew(w, a, lease), TurnK, turn, Unknown)) else None
  }

  function RenewUnknown(f: Fixed, w: World, task: nat, a: nat, lease: Lease): Option<World>
    requires task in f.tasks && a < |w.attempts|
  {
    if HeldTurn(w, a, Unknown, 0).Some? && LedgersUsable(f, w, task)
      && StateOf(w, TaskK, task) in {Ready, Waiting, Running}
    then Some(Resume(AdvanceRun(Renew(w, a, lease), f.tasks[task].run), task)) else None
  }

  function Resume(w: World, task: nat): World {
    if StateOf(w, TaskK, task) == Running then w else Move(w, TaskK, task, Running)
  }

  /** Every row of the ancestry still holds the reservation. */
  predicate LedgersHold(f: Fixed, w: World, task: nat, amount: Amount)
    requires task in f.tasks
  {
    LedgersUsable(f, w, task) && forall l :: l in Charged(f, task) ==> amount.Within(w.ledgers[l].reserved)
  }

  // ----- the fenced commands -----

  function TryStart(f: Fixed, w: World, c: Command, now: int): Option<World>
    requires c.Start? && c.fence.attempt < |w.attempts|
  {
    var task := w.attempts[c.fence.attempt].task;
    if Executable(f, w, task) && InTime(f, task, c.fence.deadline, now) && FenceHolds(w, c.fence, now)
       && StateOf(w, AttemptK, c.fence.attempt) == Leased
    then Some(Move(w, AttemptK, c.fence.attempt, Executing)) else None
  }

  predicate DispatchAllowed(f: Fixed, w: World, c: Command, now: int)
    requires c.Dispatch? && c.fence.attempt < |w.attempts|
  {
    var a := c.fence.attempt;
    var task := w.attempts[a].task;
    && Executable(f, w, task) && InTime(f, task, c.fence.deadline, now) && FenceHolds(w, c.fence, now)
    && StateOf(w, AttemptK, a) == Executing
    && c.reservation.NonNegative() && c.reservation.calls == 1
    && c.reservation.wall <= Window(f, task, w.attempts[a].lease.expires) - now
    && !Unresolved(w, a) && LedgersAllow(f, w, task, Reserve(c.reservation))
  }

  /** A planned Turn, the reservation along the ancestry, and the dispatch. */
  function NewTurn(f: Fixed, w: World, a: nat, task: nat, reservation: Amount): World
    requires task in f.tasks && LedgersAllow(f, w, task, Reserve(reservation))
  {
    Move(Charge(f, PlannedTurn(w, a, task, reservation), task, Reserve(reservation)), TurnK, |w.turns|, Dispatched)
  }

  function PlannedTurn(w: World, a: nat, task: nat, reservation: Amount): World {
    Create(w.(turns := w.turns + [Turn(a, task, true, reservation, ZERO)]), TurnK, |w.turns|, Planned)
  }

  function TryDispatch(f: Fixed, w: World, c: Command, now: int): Option<World>
    requires c.Dispatch? && c.fence.attempt < |w.attempts|
  {
    if DispatchAllowed(f, w, c, now)
    then Some(NewTurn(f, w, c.fence.attempt, w.attempts[c.fence.attempt].task, c.reservation)) else None
  }

  /** The Turn is the attempt's, at the expected generation, and holds its reservation. */
  predicate TurnFenced(w: World, a: nat, turn: nat, generation: int) {
    && turn < |w.turns| && w.turns[turn].attempt == a && w.turns[turn].held
    && CellOf(w, TurnK, turn).generation == generation
  }

  function TryMarkUnknown(f: Fixed, w: World, c: Command, now: int): Option<World>
    requires c.MarkUnknown? && c.fence.attempt < |w.attempts|
  {
    var a := c.fence.attempt;
    if Executable(f, w, w.attempts[a].task) && now < c.fence.deadline && FenceHolds(w, c.fence, now)
       && StateOf(w, AttemptK, a) == Executing
       && TurnFenced(w, a, c.turn, c.turnGeneration) && StateOf(w, TurnK, c.turn) == Dispatched
    then Some(Move(w, TurnK, c.turn, Unknown)) else None
  }

  /** A result is charged what it used, a failure its whole reservation. */
  function Used(t: Turn, outcome: Outcome): Amount {
    if outcome.Result? then outcome.used else t.reservation
  }

  predicate ResolveAllowed(f: Fixed, w: World, c: Command, now: int)
    requires c.Resolve? && c.fence.attempt < |w.attempts|
  {
    var a := c.fence.attempt;
    var task := w.attempts[a].task;
    && Executable(f, w, task) && now < c.fence.deadline && FenceHolds(w, c.fence, now)
    && StateOf(w, AttemptK, a) == Executing
    && TurnFenced(w, a, c.turn, c.turnGeneration) && StateOf(w, TurnK, c.turn) in {Dispatched, Unknown}
    && UsageFits(w.turns[c.turn], c.outcome)
    && LedgersAllow(f, w, task, Settle(w.turns[c.turn].reservation, Used(w.turns[c.turn], c.outcome)))
  }

  /** The reservation is released and the usage charged along the ancestry. */
  function Settled(f: Fixed, w: World, task: nat, turn: nat, used: Amount, to: State): World
    requires turn < |w.turns| && task in f.tasks
    requires LedgersAllow(f, w, task, Settle(w.turns[turn].reservation, used))
  {
    var t := w.turns[turn];
    var charged := Charge(f, w, task, Settle(t.reservation, used));
    Move(charged.(turns := w.turns[turn := t.(held := false, charged := used)]), TurnK, turn, to)
  }

  function TryResolve(f: Fixed, w: World, c: Command, now: int): Option<World>
    requires c.Resolve? && c.fence.attempt < |w.attempts|
  {
    if ResolveAllowed(f, w, c, now)
    then
      var used := Used(w.turns[c.turn], c.outcome);
      Some(Settled(f, w, w.attempts[c.fence.attempt].task, c.turn, used, EndOf(c.outcome)))
    else None
  }

  function EndOf(outcome: Outcome): State {
    if outcome.Result? then ResultCommitted else RuntimeStates.Failed
  }

  predicate UsageFits(t: Turn, outcome: Outcome) {
    outcome.Result? ==> outcome.used.NonNegative() && outcome.used.calls == 1 && outcome.used.Within(t.reservation)
  }

  predicate Terminable(f: Fixed, w: World, fence: Fence, now: int) {
    && fence.attempt < |w.attempts|
    && var task := w.attempts[fence.attempt].task;
    && Executable(f, w, task) && task in w.slots && InTime(f, task, fence.deadline, now) && FenceHolds(w, fence, now)
    && !Unresolved(w, fence.attempt)
  }

  predicate CommitAllowed(f: Fixed, w: World, fence: Fence, now: int) {
    && Terminable(f, w, fence, now) && StateOf(w, AttemptK, fence.attempt) == Executing
    && var task := w.attempts[fence.attempt].task;
    (f.tasks[task].root ==> OthersEnded(f, w, task)) && LedgersAllow(f, w, task, FreeSlot)
  }

  /** The Attempt and its Task commit the result; the Task then succeeds. */
  function Committed(w: World, a: nat, task: nat): World {
    Move(Move(Move(w, AttemptK, a, ResultCommitted), TaskK, task, ResultCommitted), TaskK, task, Succeeded)
  }

  function TryCommit(f: Fixed, w: World, c: Command, now: int): Option<World>
    requires c.Commit? && c.fence.attempt < |w.attempts|
  {
    var task := w.attempts[c.fence.attempt].task;
    if CommitAllowed(f, w, c.fence, now)
    then Some(CommitTask(f, w, c.fence.attempt, task)) else None
  }

  function CommitTask(f: Fixed, w: World, a: nat, task: nat): World
    requires task in f.tasks && LedgersAllow(f, w, task, FreeSlot)
  {
    EndTask(f, Committed(w, a, task), task, Succeeded, f.tasks[task].root)
  }

  /** Closing the Session, releasing the slot, and ending the Run with its root. */
  function EndTask(f: Fixed, w: World, task: nat, runState: State, endRun: bool): World
    requires task in f.tasks && LedgersAllow(f, w, task, FreeSlot)
  {
    var freed := Freed(f, w, task);
    if endRun then Move(freed, RunK, f.tasks[task].run, runState) else freed
  }

  /** The Session is closed and the active slot given back. */
  function Freed(f: Fixed, w: World, task: nat): World
    requires task in f.tasks && LedgersAllow(f, w, task, FreeSlot)
  {
    Charge(f, Move(w, SessionK, task, Closed), task, FreeSlot).(slots := w.slots - {task})
  }

  predicate FailAllowed(f: Fixed, w: World, fence: Fence, now: int) {
    && Terminable(f, w, fence, now) && StateOf(w, AttemptK, fence.attempt) in {Leased, Executing}
    && LedgersUsable(f, w, w.attempts[fence.attempt].task)
  }

  predicate RetryGranted(f: Fixed, w: World, task: nat, retry: RetryClass)
    requires task in f.tasks
  {
    retry != NoRetry && LedgersAllow(f, w, task, Retry(retry))
  }

  /** A granted retry is charged and leaves the Task waiting, its slot still held. */
  function RetryTask(f: Fixed, w: World, task: nat, retry: RetryClass, endRun: bool): World
    requires task in f.tasks && LedgersAllow(f, w, task, Retry(retry))
  {
    var waiting := Move(Charge(f, w, task, Retry(retry)), TaskK, task, Waiting);
    if endRun then Move(waiting, RunK, f.tasks[task].run, Waiting) else waiting
  }

  function FailState(retry: RetryClass): State {
    if retry == NoRetry then RuntimeStates.Failed else DeadLettered
  }

  function TryFail(f: Fixed, w: World, c: Command, now: int): Option<World>
    requires c.Fail? && c.fence.attempt < |w.attempts|
  {
    if FailAllowed(f, w, c.fence, now)
    then FailTask(f, w, c.fence.attempt, w.attempts[c.fence.attempt].task, c.retry) else None
  }

  function FailTask(f: Fixed, w: World, a: nat, task: nat, retry: RetryClass): Option<World>
    requires task in f.tasks
  {
    if RetryGranted(f, w, task, retry)
    then Some(RetryTask(f, FailedAttempt(w, a), task, retry, LastOfRun(f, w, task)))
    else if LedgersAllow(f, w, task, FreeSlot)
    then Some(EndTask(f, FailedTask(w, a, task, FailState(retry)), task, FailState(retry), LastOfRun(f, w, task)))
    else None
  }

  function FailedAttempt(w: World, a: nat): World {
    Move(w, AttemptK, a, RuntimeStates.Failed)
  }

  function FailedTask(w: World, a: nat, task: nat, end: State): World {
    Move(FailedAttempt(w, a), TaskK, task, end)
  }

  predicate LastOfRun(f: Fixed, w: World, task: nat)
    requires task in f.tasks
  {
    f.tasks[task].root && OthersEnded(f, w, task)
  }

  /** admitted is the verdict of the checks that look outside these records: policy
      heads, dependencies, Blobs, identities and contracts. */
  function Try(f: Fixed, w: World, c: Command, now: int, admitted: bool): Option<World> {
    if !admitted then None
    else if c.Claim? then TryClaim(f, w, c, now)
    else if c.fence.attempt >= |w.attempts| then None
    else
      match c
      case Start(_) => TryStart(f, w, c, now)
      case Dispatch(_, _) => TryDispatch(f, w, c, now)
      case MarkUnknown(_, _, _) => TryMarkUnknown(f, w, c, now)
      case Resolve(_, _, _, _) => TryResolve(f, w, c, now)
      case Commit(_) => TryCommit(f, w, c, now)
      case Fail(_, _) => TryFail(f, w, c, now)
  }

  /** A denied command leaves the state as it was. */
  function Step(f: Fixed, w: World, c: Command, now: int, admitted: bool): World {
    var r := Try(f, w, c, now, admitted);
    if r.Some? then r.value else w
  }
}
