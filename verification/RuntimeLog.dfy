// Every state change of every command follows the transition graph and leaves one
// event per generation.
module RuntimeLog {
  import opened Collections
  import opened RuntimeStates
  import opened RuntimeLedger
  import opened RuntimeProtocol

  /** The events of one subject, in order. */
  ghost function LogOf(log: seq<Event>, s: Subject): seq<Event> {
    if log == [] then []
    else
      var last := log[|log| - 1];
      LogOf(log[..|log| - 1], s) + if last.subject == s then [last] else []
  }

  lemma {:induction false} LogOfSnoc(log: seq<Event>, e: Event, s: Subject)
    ensures LogOf(log + [e], s) == if e.subject == s then LogOf(log, s) + [e] else LogOf(log, s)
  {
    assert (log + [e])[..|log|] == log;
  }

  /** Which rows exist. */
  ghost predicate Row(f: Fixed, w: World, s: Subject) {
    match s.kind
    case RunK => s.id in f.runs
    case TaskK => s.id in f.tasks
    case SessionK => s.id in f.tasks
    case AttemptK => s.id < |w.attempts|
    case TurnK => s.id < |w.turns|
    case _ => false
  }

  /** A row's log leads to its state; a row that does not exist has none. */
  ghost predicate Logged(w: World, s: Subject) {
    if s in w.cells then Traces(s.kind, LogOf(w.log, s), w.cells[s]) else LogOf(w.log, s) == []
  }

  ghost predicate LogKept(f: Fixed, w: World) {
    && (forall s {:trigger Row(f, w, s)} :: Row(f, w, s) <==> s in w.cells)
    && (forall s {:trigger Logged(w, s)} :: Logged(w, s))
    && (forall t {:trigger f.tasks[t]} :: t in f.tasks ==> f.tasks[t].run in f.runs)
  }

  lemma {:induction false} MoveLogged(w: World, kind: Kind, id: nat, to: State)
    requires Subject(kind, id) in w.cells && CanTransition(kind, StateOf(w, kind, id), to)
    requires forall s {:trigger Logged(w, s)} :: Logged(w, s)
    ensures forall s {:trigger Logged(Move(w, kind, id, to), s)} :: Logged(Move(w, kind, id, to), s)
  {
    var subject, y := Subject(kind, id), Move(w, kind, id, to);
    var e := y.log[|w.log|];
    forall s {:trigger Logged(y, s)}
      ensures Logged(y, s)
    {
      assert Logged(w, s);
      LogOfSnoc(w.log, e, s);
      if s == subject {
        var log := LogOf(w.log, s);
        LogBounded(kind, log, w.cells[s]);
        GraphIsClosed(kind, StateOf(w, kind, id), to);
        assert (log + [e])[..|log|] == log;
      }
    }
  }

  lemma {:induction false} CreateLogged(w: World, kind: Kind, id: nat, initial: State)
    requires Subject(kind, id) !in w.cells && Initial(kind, initial) && Known(kind, initial)
    requires forall s {:trigger Logged(w, s)} :: Logged(w, s)
    ensures forall s {:trigger Logged(Create(w, kind, id, initial), s)} :: Logged(Create(w, kind, id, initial), s)
  {
    var subject, y := Subject(kind, id), Create(w, kind, id, initial);
    var e := y.log[|w.log|];
    forall s {:trigger Logged(y, s)}
      ensures Logged(y, s)
    {
      assert Logged(w, s);
      LogOfSnoc(w.log, e, s);
    }
  }

  /** Changing columns other than states and log leaves the logs alone. */
  lemma {:induction false} SameLogged(w: World, y: World)
    requires y.cells == w.cells && y.log == w.log
    requires forall s {:trigger Logged(w, s)} :: Logged(w, s)
    ensures forall s {:trigger Logged(y, s)} :: Logged(y, s)
  {
    forall s {:trigger Logged(y, s)}
      ensures Logged(y, s)
    {
      assert Logged(w, s);
    }
  }

  /** The states a move may start from. */
  lemma {:induction false} MoveKept(f: Fixed, w: World, kind: Kind, id: nat, to: State)
    requires LogKept(f, w) && Row(f, w, Subject(kind, id)) && CanTransition(kind, StateOf(w, kind, id), to)
    ensures LogKept(f, Move(w, kind, id, to))
  {
    var y := Move(w, kind, id, to);
    MoveLogged(w, kind, id, to);
    forall s {:trigger Row(f, y, s)}
      ensures Row(f, y, s) <==> s in y.cells
    {
      assert Row(f, w, s) <==> s in w.cells;
    }
  }

  lemma {:induction false} NewAttemptKept(f: Fixed, w: World, x: World)
    requires LogKept(f, w) && |x.attempts| == |w.attempts| + 1 && |x.turns| == |w.turns|
    requires x.cells == w.cells && x.log == w.log
    ensures LogKept(f, Create(x, AttemptK, |w.attempts|, Leased))
  {
    var y := Create(x, AttemptK, |w.attempts|, Leased);
    SameLogged(w, x);
    assert !Row(f, w, Subject(AttemptK, |w.attempts|));
    CreateLogged(x, AttemptK, |w.attempts|, Leased);
    forall s {:trigger Row(f, y, s)}
      ensures Row(f, y, s) <==> s in y.cells
    {
      assert Row(f, w, s) <==> s in w.cells;
    }
  }

  lemma {:induction false} NewTurnKept(f: Fixed, w: World, x: World)
    requires LogKept(f, w) && |x.turns| == |w.turns| + 1 && |x.attempts| == |w.attempts|
    requires x.cells == w.cells && x.log == w.log
    ensures LogKept(f, Create(x, TurnK, |w.turns|, Planned))
  {
    var y := Create(x, TurnK, |w.turns|, Planned);
    SameLogged(w, x);
    assert !Row(f, w, Subject(TurnK, |w.turns|));
    CreateLogged(x, TurnK, |w.turns|, Planned);
    forall s {:trigger Row(f, y, s)}
      ensures Row(f, y, s) <==> s in y.cells
    {
      assert Row(f, w, s) <==> s in w.cells;
    }
  }

  /** Other columns: the rows and logs stay. */
  lemma {:induction false} ColumnsKept(f: Fixed, w: World, y: World)
    requires LogKept(f, w) && y.cells == w.cells && y.log == w.log
    requires |y.attempts| == |w.attempts| && |y.turns| == |w.turns|
    ensures LogKept(f, y)
  {
    SameLogged(w, y);
    forall s {:trigger Row(f, y, s)}
      ensures Row(f, y, s) <==> s in y.cells
    {
      assert Row(f, w, s) <==> s in w.cells;
    }
  }

  // ----- command by command -----

  lemma {:induction false} AdvanceKept(f: Fixed, w: World, run: nat)
    requires LogKept(f, w) && run in f.runs && StateOf(w, RunK, run) in {Queued, Waiting, Running}
    ensures LogKept(f, AdvanceRun(w, run))
  {
    if StateOf(w, RunK, run) != Running {
      MoveKept(f, w, RunK, run, Running);
    }
  }

  lemma {:induction false} NewAttemptLogged(f: Fixed, w: World, task: nat, lease: Lease)
    requires LogKept(f, w) && task in f.tasks && NewAttemptAllowed(f, w, task) && RunClaimable(f, w, task)
    ensures LogKept(f, NewAttempt(f, w, task, lease))
  {
    var x := Paid(f, w, task).(attempts := w.attempts + [Attempt(task, lease)]);
    NewAttemptKept(f, w, x);
    var leased := Create(x, AttemptK, |w.attempts|, Leased);
    assert forall kind, id :: kind != AttemptK ==> StateOf(leased, kind, id) == StateOf(w, kind, id);
    RunAndTaskKept(f, leased, task);
  }

  lemma {:induction false} RunAndTaskKept(f: Fixed, w: World, task: nat)
    requires LogKept(f, w) && task in f.tasks && StateOf(w, TaskK, task) in {Ready, Waiting}
    requires StateOf(w, RunK, f.tasks[task].run) in {Queued, Waiting, Running}
    ensures LogKept(f, Move(AdvanceRun(w, f.tasks[task].run), TaskK, task, Running))
  {
    assert f.tasks[task].run in f.runs;
    AdvanceKept(f, w, f.tasks[task].run);
    MoveKept(f, AdvanceRun(w, f.tasks[task].run), TaskK, task, Running);
  }

  lemma {:induction false} RenewDispatchedKept(f: Fixed, w: World, task: nat, a: nat, lease: Lease, turn: nat)
    requires LogKept(f, w) && task in f.tasks && a < |w.attempts| && turn < |w.turns|
    requires StateOf(w, TurnK, turn) == Dispatched
    ensures var r := RenewDispatched(f, w, task, a, lease, turn); r.Some? ==> LogKept(f, r.value)
  {
    ColumnsKept(f, w, Renew(w, a, lease));
    MoveKept(f, Renew(w, a, lease), TurnK, turn, Unknown);
  }

  lemma {:induction false} RenewUnknownKept(f: Fixed, w: World, task: nat, a: nat, lease: Lease)
    requires LogKept(f, w) && a < |w.attempts| && task in f.tasks && RunClaimable(f, w, task)
    ensures var r := RenewUnknown(f, w, task, a, lease); r.Some? ==> LogKept(f, r.value)
  {
    if RenewUnknown(f, w, task, a, lease).Some? {
      ColumnsKept(f, w, Renew(w, a, lease));
      ResumeRunKept(f, Renew(w, a, lease), task);
    }
  }

  lemma {:induction false} ClaimExpiredKept(f: Fixed, w: World, task: nat, a: nat, lease: Lease)
    requires LogKept(f, w) && task in f.tasks && a < |w.attempts| && RunClaimable(f, w, task)
    ensures var r := ClaimExpired(f, w, task, a, lease); r.Some? ==> LogKept(f, r.value)
  {
    if DispatchedLeft(w, a) {
      RenewDispatchedKept(f, w, task, a, lease, HeldTurn(w, a, Dispatched, 0).value);
    } else {
      RenewUnknownKept(f, w, task, a, lease);
    }
  }

  lemma {:induction false} ResumeRunKept(f: Fixed, w: World, task: nat)
    requires LogKept(f, w) && task in f.tasks && StateOf(w, TaskK, task) in {Ready, Waiting, Running}
    requires StateOf(w, RunK, f.tasks[task].run) in {Queued, Waiting, Running}
    ensures LogKept(f, Resume(AdvanceRun(w, f.tasks[task].run), task))
  {
    assert f.tasks[task].run in f.runs;
    AdvanceKept(f, w, f.tasks[task].run);
    ResumeKept(f, AdvanceRun(w, f.tasks[task].run), task);
  }

  lemma {:induction false} ResumeKept(f: Fixed, w: World, task: nat)
    requires LogKept(f, w) && task in f.tasks && StateOf(w, TaskK, task) in {Ready, Waiting, Running}
    ensures LogKept(f, Resume(w, task))
  {
    if StateOf(w, TaskK, task) != Running {
      MoveKept(f, w, TaskK, task, Running);
    }
  }

  lemma {:induction false} NewTurnLogged(f: Fixed, w: World, a: nat, task: nat, reservation: Amount)
    requires LogKept(f, w) && task in f.tasks && LedgersAllow(f, w, task, Reserve(reservation))
    ensures LogKept(f, NewTurn(f, w, a, task, reservation))
  {
    var planned := PlannedTurn(w, a, task, reservation);
    NewTurnKept(f, w, w.(turns := w.turns + [Turn(a, task, true, reservation, ZERO)]));
    var charged := Charge(f, planned, task, Reserve(reservation));
    ColumnsKept(f, planned, charged);
    MoveKept(f, charged, TurnK, |w.turns|, Dispatched);
  }

  lemma {:induction false} SettledLogged(f: Fixed, w: World, task: nat, turn: nat, used: Amount, to: State)
    requires LogKept(f, w) && turn < |w.turns| && task in f.tasks
    requires LedgersAllow(f, w, task, Settle(w.turns[turn].reservation, used))
    requires StateOf(w, TurnK, turn) == Dispatched || StateOf(w, TurnK, turn) == Unknown
    requires to == ResultCommitted || to == RuntimeStates.Failed
    ensures LogKept(f, Settled(f, w, task, turn, used, to))
  {
    var t := w.turns[turn];
    var charged := Charge(f, w, task, Settle(t.reservation, used));
    var y := charged.(turns := w.turns[turn := t.(held := false, charged := used)]);
    ColumnsKept(f, w, y);
    MoveKept(f, y, TurnK, turn, to);
  }

  lemma {:induction false} EndTaskKept(f: Fixed, w: World, task: nat, runState: State, endRun: bool)
    requires LogKept(f, w) && task in f.tasks && LedgersAllow(f, w, task, FreeSlot)
    requires StateOf(w, SessionK, task) == Open && StateOf(w, RunK, f.tasks[task].run) == Running
    requires CanTransition(RunK, Running, runState)
    ensures LogKept(f, EndTask(f, w, task, runState, endRun))
  {
    var closed := Move(w, SessionK, task, Closed);
    MoveKept(f, w, SessionK, task, Closed);
    var freed := Charge(f, closed, task, FreeSlot).(slots := w.slots - {task});
    ColumnsKept(f, closed, freed);
    if endRun {
      assert f.tasks[task].run in f.runs;
      MoveKept(f, freed, RunK, f.tasks[task].run, runState);
    }
  }

  lemma {:induction false} CommittedKept(f: Fixed, w: World, a: nat, task: nat)
    requires LogKept(f, w) && a < |w.attempts| && task in f.tasks
    requires StateOf(w, AttemptK, a) == Executing && StateOf(w, TaskK, task) == Running
    ensures LogKept(f, Committed(w, a, task))
    ensures StateOf(Committed(w, a, task), SessionK, task) == StateOf(w, SessionK, task)
    ensures forall r :: StateOf(Committed(w, a, task), RunK, r) == StateOf(w, RunK, r)
  {
    MoveKept(f, w, AttemptK, a, ResultCommitted);
    var w1 := Move(w, AttemptK, a, ResultCommitted);
    MoveKept(f, w1, TaskK, task, ResultCommitted);
    var w2 := Move(w1, TaskK, task, ResultCommitted);
    MoveKept(f, w2, TaskK, task, Succeeded);
  }

  lemma {:induction false} FailedKept(f: Fixed, w: World, a: nat, task: nat, end: State)
    requires LogKept(f, w) && a < |w.attempts| && task in f.tasks
    requires StateOf(w, AttemptK, a) in {Leased, Executing} && StateOf(w, TaskK, task) == Running
    requires end == RuntimeStates.Failed || end == DeadLettered
    ensures LogKept(f, FailedAttempt(w, a)) && LogKept(f, FailedTask(w, a, task, end))
  {
    MoveKept(f, w, AttemptK, a, RuntimeStates.Failed);
    MoveKept(f, Move(w, AttemptK, a, RuntimeStates.Failed), TaskK, task, end);
  }

  lemma {:induction false} RetryTaskKept(f: Fixed, w: World, task: nat, retry: RetryClass, endRun: bool)
    requires LogKept(f, w) && task in f.tasks && LedgersAllow(f, w, task, Retry(retry))
    requires StateOf(w, TaskK, task) == Running && StateOf(w, RunK, f.tasks[task].run) == Running
    ensures LogKept(f, RetryTask(f, w, task, retry, endRun))
  {
    var charged := Charge(f, w, task, Retry(retry));
    ColumnsKept(f, w, charged);
    MoveKept(f, charged, TaskK, task, Waiting);
    if endRun {
      assert f.tasks[task].run in f.runs;
      MoveKept(f, Move(charged, TaskK, task, Waiting), RunK, f.tasks[task].run, Waiting);
    }
  }

  lemma {:induction false} FailTaskKept(f: Fixed, w: World, a: nat, task: nat, retry: RetryClass)
    requires LogKept(f, w) && a < |w.attempts| && Executable(f, w, task)
      && StateOf(w, AttemptK, a) in {Leased, Executing}
    ensures FailTask(f, w, a, task, retry).Some? ==> LogKept(f, FailTask(f, w, a, task, retry).value)
  {
    FailedKept(f, w, a, task, FailState(retry));
    if RetryGranted(f, w, task, retry) {
      RetryTaskKept(f, FailedAttempt(w, a), task, retry, LastOfRun(f, w, task));
    } else if LedgersAllow(f, w, task, FreeSlot) {
      EndTaskKept(f, FailedTask(w, a, task, FailState(retry)), task, FailState(retry), LastOfRun(f, w, task));
    }
  }

  lemma {:induction false} ClaimActiveKept(f: Fixed, w: World, task: nat, a: nat, now: int, lease: Lease)
    requires LogKept(f, w) && task in f.tasks && a < |w.attempts| && RunClaimable(f, w, task)
    ensures var r := ClaimActive(f, w, task, a, now, lease); r.Some? ==> LogKept(f, r.value)
  {
    ClaimExpiredKept(f, w, task, a, NextLease(w, a, lease));
  }

  lemma {:induction false} ClaimTaskKept(f: Fixed, w: World, task: nat, now: int, lease: Lease)
    requires LogKept(f, w) && task in f.tasks && RunClaimable(f, w, task)
    ensures ClaimTask(f, w, task, now, lease).Some? ==> LogKept(f, ClaimTask(f, w, task, now, lease).value)
  {
    var active := LastActive(w, task, |w.attempts|);
    if active.Some? {
      ClaimActiveKept(f, w, task, active.value, now, lease);
    } else if NewAttemptAllowed(f, w, task) {
      NewAttemptLogged(f, w, task, lease);
    }
  }

  lemma {:induction false} ResolveKept(f: Fixed, w: World, c: Command, now: int)
    requires LogKept(f, w) && c.Resolve? && c.fence.attempt < |w.attempts|
    ensures TryResolve(f, w, c, now).Some? ==> LogKept(f, TryResolve(f, w, c, now).value)
  {
    if ResolveAllowed(f, w, c, now) {
      SettledLogged(f, w, w.attempts[c.fence.attempt].task, c.turn, Used(w.turns[c.turn], c.outcome), EndOf(c.outcome));
    }
  }

  lemma {:induction false} CommitTaskKept(f: Fixed, w: World, a: nat, task: nat)
    requires LogKept(f, w) && a < |w.attempts| && Executable(f, w, task) && StateOf(w, AttemptK, a) == Executing
    requires LedgersAllow(f, w, task, FreeSlot)
    ensures LogKept(f, CommitTask(f, w, a, task))
  {
    CommittedKept(f, w, a, task);
    EndTaskKept(f, Committed(w, a, task), task, Succeeded, f.tasks[task].root);
  }

  lemma {:induction false} StartKept(f: Fixed, w: World, c: Command, now: int)
    requires LogKept(f, w) && c.Start? && c.fence.attempt < |w.attempts|
    ensures TryStart(f, w, c, now).Some? ==> LogKept(f, TryStart(f, w, c, now).value)
  {
    if TryStart(f, w, c, now).Some? {
      MoveKept(f, w, AttemptK, c.fence.attempt, Executing);
    }
  }

  lemma {:induction false} MarkUnknownKept(f: Fixed, w: World, c: Command, now: int)
    requires LogKept(f, w) && c.MarkUnknown? && c.fence.attempt < |w.attempts|
    ensures TryMarkUnknown(f, w, c, now).Some? ==> LogKept(f, TryMarkUnknown(f, w, c, now).value)
  {
    if TryMarkUnknown(f, w, c, now).Some? {
      MoveKept(f, w, TurnK, c.turn, Unknown);
    }
  }

  lemma {:induction false} ClaimKept(f: Fixed, w: World, c: Command, now: int)
    requires LogKept(f, w) && c.Claim?
    ensures TryClaim(f, w, c, now).Some? ==> LogKept(f, TryClaim(f, w, c, now).value)
  {
    if ClaimFenced(f, w, c, now) {
      ClaimTaskKept(f, w, c.task, now, FirstLease(f, c, now));
    }
  }

  lemma {:induction false} FailKept(f: Fixed, w: World, c: Command, now: int)
    requires LogKept(f, w) && c.Fail? && c.fence.attempt < |w.attempts|
    ensures TryFail(f, w, c, now).Some? ==> LogKept(f, TryFail(f, w, c, now).value)
  {
    if FailAllowed(f, w, c.fence, now) {
      FailTaskKept(f, w, c.fence.attempt, w.attempts[c.fence.attempt].task, c.retry);
    }
  }

  lemma {:induction false} CommitKept(f: Fixed, w: World, c: Command, now: int)
    requires LogKept(f, w) && c.Commit? && c.fence.attempt < |w.attempts|
    ensures TryCommit(f, w, c, now).Some? ==> LogKept(f, TryCommit(f, w, c, now).value)
  {
    if CommitAllowed(f, w, c.fence, now) {
      CommitTaskKept(f, w, c.fence.attempt, w.attempts[c.fence.attempt].task);
    }
  }

  lemma {:induction false} DispatchKept(f: Fixed, w: World, c: Command, now: int)
    requires LogKept(f, w) && c.Dispatch? && c.fence.attempt < |w.attempts|
    ensures TryDispatch(f, w, c, now).Some? ==> LogKept(f, TryDispatch(f, w, c, now).value)
  {
    if DispatchAllowed(f, w, c, now) {
      NewTurnLogged(f, w, c.fence.attempt, w.attempts[c.fence.attempt].task, c.reservation);
    }
  }

  /** Whatever a command does, every change follows CanTransition with one event per
      generation step. */
  lemma {:induction false} StepLogKept(f: Fixed, w: World, c: Command, now: int, admitted: bool)
    requires LogKept(f, w)
    ensures LogKept(f, Step(f, w, c, now, admitted))
  {
    if c.Claim? {
      ClaimKept(f, w, c, now);
    } else if c.fence.attempt < |w.attempts| {
      match c {
        case Start(_) => StartKept(f, w, c, now);
        case Dispatch(_, _) => DispatchKept(f, w, c, now);
        case MarkUnknown(_, _, _) => MarkUnknownKept(f, w, c, now);
        case Resolve(_, _, _, _) => ResolveKept(f, w, c, now);
        case Commit(_) => CommitKept(f, w, c, now);
        case Fail(_, _) => FailKept(f, w, c, now);
      }
    }
  }
}
