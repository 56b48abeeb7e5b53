// What holds over whole runs of the protocol, and the deltas of single commands.
module RuntimeLaws {
  import opened Collections
  import opened RuntimeStates
  import opened RuntimeLedger
  import opened RuntimeProtocol
  import opened RuntimeLog
  import opened RuntimeBudget

  /** A command with the clock and the outside verdict it meets. */
  datatype Timed = At(c: Command, now: int, admitted: bool)

  ghost function Run(f: Fixed, w: World, cs: seq<Timed>): World
    decreases |cs|
  {
    if cs == [] then w else Run(f, Step(f, w, cs[0].c, cs[0].now, cs[0].admitted), cs[1..])
  }

  lemma {:induction false} RunKept(f: Fixed, base: map<nat, Ledger>, w: World, cs: seq<Timed>)
    requires LogKept(f, w) && BudgetKept(f, base, w)
    ensures LogKept(f, Run(f, w, cs)) && BudgetKept(f, base, Run(f, w, cs))
    decreases |cs|
  {
    if cs != [] {
      StepLogKept(f, w, cs[0].c, cs[0].now, cs[0].admitted);
      StepBudgetKept(f, base, w, cs[0].c, cs[0].now, cs[0].admitted);
      RunKept(f, base, Step(f, w, cs[0].c, cs[0].now, cs[0].admitted), cs[1..]);
    }
  }

  /** In every reachable state each ledger's reserved amount is its baseline plus the
      reservations of the unresolved Turns beneath it, and consumed plus reserved is
      within the limit. */
  lemma {:induction false} LedgerConservation(f: Fixed, base: map<nat, Ledger>, w: World, cs: seq<Timed>, l: nat)
    requires LogKept(f, w) && BudgetKept(f, base, w) && l in f.infos
    ensures var y := Run(f, w, cs);
      && l in y.ledgers
      && y.ledgers[l].reserved == base[l].reserved.Plus(SumOf(Beneath(f, l), y.turns, HeldPart))
      && y.ledgers[l].consumed == base[l].consumed.Plus(SumOf(Beneath(f, l), y.turns, ChargedPart))
      && y.ledgers[l].consumed.Plus(y.ledgers[l].reserved).Within(f.infos[l].limit)
      && y.ledgers[l].active == base[l].active + |y.slots * Beneath(f, l)|
  {
    RunKept(f, base, w, cs);
    var y := Run(f, w, cs);
    assert Balanced(f, base, y.turns, y.slots, y.ledgers, l);
  }

  lemma {:induction false} SumsAgree(beneath: set<nat>, turns: seq<Turn>, n: nat, p: Part, q: Part)
    requires n <= |turns| && forall i :: 0 <= i < n ==> Share(beneath, turns[i], p) == Share(beneath, turns[i], q)
    ensures SumTo(beneath, turns, n, p) == SumTo(beneath, turns, n, q)
  {
    if n > 0 {
      SumsAgree(beneath, turns, n - 1, p, q);
    }
  }

  lemma {:induction false} SumZero(beneath: set<nat>, turns: seq<Turn>, n: nat, p: Part)
    requires n <= |turns| && forall i :: 0 <= i < n ==> Share(beneath, turns[i], p) == ZERO
    ensures SumTo(beneath, turns, n, p) == ZERO
  {
    if n > 0 {
      SumZero(beneath, turns, n - 1, p);
    }
  }

  lemma {:induction false} SpentSums(beneath: set<nat>, turns: seq<Turn>)
    requires forall i :: 0 <= i < |turns| ==> !turns[i].held && turns[i].charged == turns[i].reservation
    ensures SumOf(beneath, turns, HeldPart) == ZERO
    ensures SumOf(beneath, turns, ChargedPart) == SumOf(beneath, turns, WholePart)
  {
    SumZero(beneath, turns, |turns|, HeldPart);
    SumsAgree(beneath, turns, |turns|, ChargedPart, WholePart);
  }

  /** When every Turn has failed, reserved is back at the baseline and consumed has
      grown by exactly what was reserved. */
  lemma {:induction false} AllFailed(f: Fixed, base: map<nat, Ledger>, w: World, l: nat)
    requires BudgetKept(f, base, w) && l in f.infos
    requires forall i :: 0 <= i < |w.turns| ==> StateOf(w, TurnK, i) == RuntimeStates.Failed
    ensures w.ledgers[l].reserved == base[l].reserved
    ensures w.ledgers[l].consumed == base[l].consumed.Plus(SumOf(Beneath(f, l), w.turns, WholePart))
  {
    forall i | 0 <= i < |w.turns|
      ensures !w.turns[i].held && w.turns[i].charged == w.turns[i].reservation
    {
      assert TurnKept(f, w, i);
    }
    SpentSums(Beneath(f, l), w.turns);
    assert Balanced(f, base, w.turns, w.slots, w.ledgers, l);
    PlusZero(base[l].reserved);
  }

  // ----- fences -----

  predicate FencedCommand(c: Command) {
    !c.Claim?
  }

  /** A command evaluated after its deadline or after lease expiry, or with another
      generation, lease or worker than the Attempt's, leaves the whole state unchanged. */
  lemma {:induction false} FenceRefuses(f: Fixed, w: World, c: Command, now: int, admitted: bool)
    requires FencedCommand(c) && c.fence.attempt < |w.attempts|
    requires var lease := w.attempts[c.fence.attempt].lease;
      || now >= c.fence.deadline || now >= lease.expires
      || lease.generation != c.fence.leaseGeneration || lease.token != c.fence.token
      || lease.worker != c.fence.principal
      || CellOf(w, AttemptK, c.fence.attempt).generation != c.fence.generation
    ensures Step(f, w, c, now, admitted) == w
  {
    hide AskLedgers, LockLedgers, Executable, Unresolved, TurnFenced, UsageFits;
  }

  lemma {:induction false} UnknownAttemptRefuses(f: Fixed, w: World, c: Command, now: int, admitted: bool)
    requires FencedCommand(c) && c.fence.attempt >= |w.attempts|
    ensures Step(f, w, c, now, admitted) == w
  {
  }

  /** Commit and Fail also stop at the Run's and the Task's deadline, and without a Run or Task. */
  lemma {:induction false} DeadlineRefuses(f: Fixed, w: World, c: Command, now: int, admitted: bool)
    requires (c.Commit? || c.Fail?) && c.fence.attempt < |w.attempts|
    requires var task := w.attempts[c.fence.attempt].task;
      task in f.tasks && f.tasks[task].run in f.runs ==>
        now >= f.tasks[task].deadline || now >= f.runs[f.tasks[task].run].deadline
    ensures Step(f, w, c, now, admitted) == w
  {
    hide AskLedgers, LockLedgers, Executable, Unresolved, FenceHolds;
  }

  // ----- terminalization -----

  predicate Ends(c: Command, a: nat) {
    (c.Commit? || c.Fail?) && c.fence.attempt == a
  }

  /** The attempts are only appended to, and attempt a is as it was. */
  predicate AttemptStays(w: World, y: World, a: nat) {
    |y.attempts| >= |w.attempts| && CellOf(y, AttemptK, a) == CellOf(w, AttemptK, a)
  }

  lemma {:induction false} ActiveStays(f: Fixed, w: World, task: nat, b: nat, now: int, lease: Lease, a: nat)
    requires a < |w.attempts| && b < |w.attempts| && task in f.tasks
    ensures var r := ClaimActive(f, w, task, b, now, lease); r.Some? ==>
      AttemptStays(w, r.value, a) && r.value.turns == w.turns
  {
    ExpiredStays(f, w, task, b, NextLease(w, b, lease), a);
  }

  lemma {:induction false} ClaimStays(f: Fixed, w: World, task: nat, now: int, lease: Lease, a: nat)
    requires a < |w.attempts| && task in f.tasks
    ensures var r := ClaimTask(f, w, task, now, lease); r.Some? ==>
      AttemptStays(w, r.value, a) && r.value.turns == w.turns
  {
    var active := LastActive(w, task, |w.attempts|);
    if active.Some? {
      ActiveStays(f, w, task, active.value, now, lease, a);
    } else if NewAttemptAllowed(f, w, task) {
      NewAttemptStays(f, w, task, lease, a);
    }
  }

  lemma {:induction false} NewAttemptStays(f: Fixed, w: World, task: nat, lease: Lease, a: nat)
    requires a < |w.attempts| && task in f.tasks && NewAttemptAllowed(f, w, task)
    ensures var y := NewAttempt(f, w, task, lease); AttemptStays(w, y, a) && y.turns == w.turns
  {
  }

  lemma {:induction false} ExpiredStays(f: Fixed, w: World, task: nat, b: nat, lease: Lease, a: nat)
    requires a < |w.attempts| && b < |w.attempts| && task in f.tasks
    ensures var r := ClaimExpired(f, w, task, b, lease); r.Some? ==>
      AttemptStays(w, r.value, a) && r.value.turns == w.turns
  {
    RenewUnknownStays(f, w, task, b, lease, a);
  }

  lemma {:induction false} RenewUnknownStays(f: Fixed, w: World, task: nat, b: nat, lease: Lease, a: nat)
    requires a < |w.attempts| && b < |w.attempts| && task in f.tasks
    ensures var r := RenewUnknown(f, w, task, b, lease); r.Some? ==>
      AttemptStays(w, r.value, a) && r.value.turns == w.turns
  {
    var renewed := Renew(w, b, lease);
    AdvanceStays(renewed, f.tasks[task].run, a);
    ResumeStays(AdvanceRun(renewed, f.tasks[task].run), task, a);
  }

  lemma {:induction false} AdvanceStays(w: World, run: nat, a: nat)
    ensures var y := AdvanceRun(w, run);
      CellOf(y, AttemptK, a) == CellOf(w, AttemptK, a) && y.attempts == w.attempts && y.turns == w.turns
  {
  }

  lemma {:induction false} ResumeStays(w: World, task: nat, a: nat)
    ensures var y := Resume(w, task);
      CellOf(y, AttemptK, a) == CellOf(w, AttemptK, a) && y.attempts == w.attempts && y.turns == w.turns
  {
  }

  /** What ending a Task does to the rows. */
  lemma {:induction false} EndTaskShape(f: Fixed, w: World, task: nat, runState: State, endRun: bool)
    requires task in f.tasks && LedgersAllow(f, w, task, FreeSlot)
    ensures var y, run := EndTask(f, w, task, runState, endRun), f.tasks[task].run;
      && CellOf(y, SessionK, task) == Cell(Closed, CellOf(w, SessionK, task).generation + 1)
      && CellOf(y, RunK, run)
         == (if endRun then Cell(runState, CellOf(w, RunK, run).generation + 1) else CellOf(w, RunK, run))
      && (forall k, id :: (k != SessionK || id != task) && (k != RunK || id != run) ==>
            CellOf(y, k, id) == CellOf(w, k, id))
      && y.slots == w.slots - {task} && y.turns == w.turns && y.attempts == w.attempts
      && |y.log| == |w.log| + (if endRun then 2 else 1)
      && y.ledgers == Charge(f, w, task, FreeSlot).ledgers
  {
    FreedShape(f, w, task);
    MoveShape(Freed(f, w, task), RunK, f.tasks[task].run, runState);
  }

  lemma {:induction false} MoveShape(w: World, kind: Kind, id: nat, to: State)
    ensures var y := Move(w, kind, id, to);
      && CellOf(y, kind, id) == Cell(to, CellOf(w, kind, id).generation + 1)
      && (forall k, i :: k != kind || i != id ==> CellOf(y, k, i) == CellOf(w, k, i))
      && y.slots == w.slots && y.turns == w.turns && y.attempts == w.attempts && y.ledgers == w.ledgers
      && |y.log| == |w.log| + 1
  {
  }

  lemma {:induction false} FreedShape(f: Fixed, w: World, task: nat)
    requires task in f.tasks && LedgersAllow(f, w, task, FreeSlot)
    ensures var y := Freed(f, w, task);
      && CellOf(y, SessionK, task) == Cell(Closed, CellOf(w, SessionK, task).generation + 1)
      && (forall k, id :: k != SessionK || id != task ==> CellOf(y, k, id) == CellOf(w, k, id))
      && y.slots == w.slots - {task} && y.turns == w.turns && y.attempts == w.attempts
      && |y.log| == |w.log| + 1 && y.ledgers == Charge(f, w, task, FreeSlot).ledgers
  {
  }

  lemma {:induction false} CommittedShape(w: World, a: nat, task: nat)
    ensures var y := Committed(w, a, task);
      && CellOf(y, AttemptK, a) == Cell(ResultCommitted, CellOf(w, AttemptK, a).generation + 1)
      && CellOf(y, TaskK, task) == Cell(Succeeded, CellOf(w, TaskK, task).generation + 2)
      && (forall k, id :: (k != AttemptK || id != a) && (k != TaskK || id != task) ==>
            CellOf(y, k, id) == CellOf(w, k, id))
      && y.slots == w.slots && y.turns == w.turns && y.attempts == w.attempts && y.ledgers == w.ledgers
      && |y.log| == |w.log| + 3
  {
  }

  lemma {:induction false} CommitEnds(f: Fixed, w: World, a: nat, task: nat, b: nat)
    requires b < |w.attempts| && task in f.tasks && LedgersAllow(f, w, task, FreeSlot)
    ensures var y := CommitTask(f, w, a, task);
      && y.attempts == w.attempts && y.turns == w.turns
      && if a == b then StateOf(y, AttemptK, b) == ResultCommitted else AttemptStays(w, y, b)
  {
    CommittedShape(w, a, task);
    EndTaskShape(f, Committed(w, a, task), task, Succeeded, f.tasks[task].root);
  }

  lemma {:induction false} FailedShape(w: World, a: nat, task: nat, end: State)
    ensures var y := FailedTask(w, a, task, end);
      && CellOf(y, AttemptK, a) == Cell(RuntimeStates.Failed, CellOf(w, AttemptK, a).generation + 1)
      && CellOf(y, TaskK, task) == Cell(end, CellOf(w, TaskK, task).generation + 1)
      && (forall k, id :: (k != AttemptK || id != a) && (k != TaskK || id != task) ==>
            CellOf(y, k, id) == CellOf(w, k, id))
      && y.slots == w.slots && y.turns == w.turns && y.attempts == w.attempts && y.ledgers == w.ledgers
      && |y.log| == |w.log| + 2
  {
  }

  lemma {:induction false} FailEnds(f: Fixed, w: World, a: nat, task: nat, retry: RetryClass, b: nat)
    requires b < |w.attempts| && task in f.tasks
    ensures var r := FailTask(f, w, a, task, retry); r.Some? ==>
      && r.value.attempts == w.attempts && r.value.turns == w.turns
      && if a == b then StateOf(r.value, AttemptK, b) == RuntimeStates.Failed else AttemptStays(w, r.value, b)
  {
    if RetryGranted(f, w, task, retry) {
      RetryShape(f, FailedAttempt(w, a), task, retry, LastOfRun(f, w, task));
    } else if LedgersAllow(f, w, task, FreeSlot) {
      FailedShape(w, a, task, FailState(retry));
      EndTaskShape(f, FailedTask(w, a, task, FailState(retry)), task, FailState(retry), LastOfRun(f, w, task));
    }
  }

  lemma {:induction false} RetryShape(f: Fixed, w: World, task: nat, retry: RetryClass, endRun: bool)
    requires task in f.tasks && LedgersAllow(f, w, task, Retry(retry))
    ensures var y := RetryTask(f, w, task, retry, endRun);
      && (forall k, id :: k != TaskK && k != RunK ==> CellOf(y, k, id) == CellOf(w, k, id))
      && y.slots == w.slots && y.turns == w.turns && y.attempts == w.attempts
  {
  }

  lemma {:induction false} TurnCommandStays(f: Fixed, w: World, c: Command, now: int, a: nat)
    requires a < |w.attempts| && (c.Dispatch? || c.MarkUnknown? || c.Resolve?) && c.fence.attempt < |w.attempts|
    ensures var r := Try(f, w, c, now, true); r.Some? ==> AttemptStays(w, r.value, a)
  {
    hide AskLedgers, LockLedgers, Unresolved, UsageFits, FenceHolds;
  }

  /** Only the attempt's own start and end commands change its state, and an end
      leaves it terminal. */
  lemma {:induction false} AttemptCell(f: Fixed, w: World, c: Command, now: int, a: nat)
    requires a < |w.attempts|
    ensures var r := Try(f, w, c, now, true); r.Some? ==>
      && |r.value.attempts| >= |w.attempts|
      && (Ends(c, a) ==> Terminal(AttemptK, StateOf(r.value, AttemptK, a)))
      && (!(FencedCommand(c) && c.fence.attempt == a && (c.Start? || c.Commit? || c.Fail?)) ==>
            AttemptStays(w, r.value, a))
  {
    if Try(f, w, c, now, true).Some? {
      if c.Claim? {
        ClaimStays(f, w, c.task, now, FirstLease(f, c, now), a);
      } else if c.Commit? {
        CommitEnds(f, w, c.fence.attempt, w.attempts[c.fence.attempt].task, a);
      } else if c.Fail? {
        FailEnds(f, w, c.fence.attempt, w.attempts[c.fence.attempt].task, c.retry, a);
      } else if !c.Start? {
        TurnCommandStays(f, w, c, now, a);
      }
    }
  }

  /** The number of Commit and Fail commands on attempt a that take effect. */
  ghost function Endings(f: Fixed, w: World, cs: seq<Timed>, a: nat): nat
    decreases |cs|
  {
    if cs == [] then 0
    else
      var e := cs[0];
      (if Ends(e.c, a) && Try(f, w, e.c, e.now, e.admitted).Some? then 1 else 0)
      + Endings(f, Step(f, w, e.c, e.now, e.admitted), cs[1..], a)
  }

  lemma {:induction false} NoEndingAfterTerminal(f: Fixed, w: World, cs: seq<Timed>, a: nat)
    requires a < |w.attempts| && Terminal(AttemptK, StateOf(w, AttemptK, a))
    ensures Endings(f, w, cs, a) == 0 && CellOf(Run(f, w, cs), AttemptK, a) == CellOf(w, AttemptK, a)
    decreases |cs|
  {
    if cs != [] {
      var e := cs[0];
      if FencedCommand(e.c) && e.c.fence.attempt == a {
        TerminalRefuses(f, w, e.c, e.now, e.admitted, a);
      }
      AttemptCell(f, w, e.c, e.now, a);
      NoEndingAfterTerminal(f, Step(f, w, e.c, e.now, e.admitted), cs[1..], a);
    }
  }

  /** A terminal attempt accepts none of its own commands. */
  lemma {:induction false} TerminalRefuses(f: Fixed, w: World, c: Command, now: int, admitted: bool, a: nat)
    requires a < |w.attempts| && Terminal(AttemptK, StateOf(w, AttemptK, a))
    requires FencedCommand(c) && c.fence.attempt == a
    ensures Try(f, w, c, now, admitted).None?
  {
  }

  /** Whatever else happens in between, at most one Commit or Fail of an attempt
      takes effect. */
  lemma {:induction false} OneEnding(f: Fixed, w: World, cs: seq<Timed>, a: nat)
    ensures Endings(f, w, cs, a) <= 1
    decreases |cs|
  {
    if cs != [] {
      var e := cs[0];
      var y := Step(f, w, e.c, e.now, e.admitted);
      if a < |w.attempts| {
        AttemptCell(f, w, e.c, e.now, a);
      }
      if Ends(e.c, a) && Try(f, w, e.c, e.now, e.admitted).Some? {
        NoEndingAfterTerminal(f, y, cs[1..], a);
      } else {
        OneEnding(f, y, cs[1..], a);
      }
    }
  }

  // ----- ended attempts hold nothing -----

  /** A Turn holds a reservation only while its attempt is executing. */
  ghost predicate HeldLive(w: World) {
    forall i {:trigger w.turns[i]} :: 0 <= i < |w.turns| && w.turns[i].held ==>
      w.turns[i].attempt < |w.attempts| && StateOf(w, AttemptK, w.turns[i].attempt) == Executing
  }

  /** Claims, starts and endings leave the Turns alone. */
  lemma {:induction false} SameTurns(f: Fixed, w: World, c: Command, now: int)
    requires c.Claim? || c.Start? || c.Commit? || c.Fail?
    ensures var r := Try(f, w, c, now, true); r.Some? ==> r.value.turns == w.turns
  {
    if Try(f, w, c, now, true).Some? {
      if c.Claim? {
        ClaimTurns(f, w, c.task, now, FirstLease(f, c, now));
      } else if c.Commit? {
        CommitEnds(f, w, c.fence.attempt, w.attempts[c.fence.attempt].task, c.fence.attempt);
      } else if c.Fail? {
        FailEnds(f, w, c.fence.attempt, w.attempts[c.fence.attempt].task, c.retry, c.fence.attempt);
      }
    }
  }

  lemma {:induction false} ClaimTurns(f: Fixed, w: World, task: nat, now: int, lease: Lease)
    requires task in f.tasks
    ensures var r := ClaimTask(f, w, task, now, lease); r.Some? ==> r.value.turns == w.turns
  {
  }

  /** Turn i of y, if it holds a reservation, held it in w or is a new one of attempt a. */
  predicate HeldSource(w: World, y: World, a: nat, i: nat) {
    i < |y.turns| && y.turns[i].held ==>
      if i < |w.turns| then w.turns[i].held && y.turns[i].attempt == w.turns[i].attempt else y.turns[i].attempt == a
  }

  lemma {:induction false} NewTurnHeld(f: Fixed, w: World, a: nat, task: nat, reservation: Amount, i: nat)
    requires task in f.tasks && LedgersAllow(f, w, task, Reserve(reservation))
    ensures HeldSource(w, NewTurn(f, w, a, task, reservation), a, i)
  {
  }

  lemma {:induction false} SettledHeld(f: Fixed, w: World, task: nat, turn: nat, used: Amount, to: State, a: nat,
                                       i: nat)
    requires turn < |w.turns| && task in f.tasks && LedgersAllow(f, w, task, Settle(w.turns[turn].reservation, used))
    ensures HeldSource(w, Settled(f, w, task, turn, used, to), a, i)
  {
  }

  /** A Turn that holds a reservation behind a Turn command held it before, or is the
      new one of an executing attempt. */
  lemma {:induction false} HeldBefore(f: Fixed, w: World, c: Command, now: int, i: nat)
    requires (c.Dispatch? || c.MarkUnknown? || c.Resolve?) && c.fence.attempt < |w.attempts|
    ensures var r := Try(f, w, c, now, true);
      r.Some? ==> HeldSource(w, r.value, c.fence.attempt, i) && StateOf(w, AttemptK, c.fence.attempt) == Executing
  {
    match c {
      case Dispatch(_, _) =>
        if DispatchAllowed(f, w, c, now) {
          NewTurnHeld(f, w, c.fence.attempt, w.attempts[c.fence.attempt].task, c.reservation, i);
        }
      case MarkUnknown(_, _, _) =>
      case Resolve(_, _, _, _) =>
        if ResolveAllowed(f, w, c, now) {
          SettledHeld(f, w, w.attempts[c.fence.attempt].task, c.turn, Used(w.turns[c.turn], c.outcome),
                      EndOf(c.outcome), c.fence.attempt, i);
        }
    }
  }

  lemma {:induction false} EndsResolved(f: Fixed, w: World, c: Command, now: int, i: nat)
    requires (c.Commit? || c.Fail?) && Try(f, w, c, now, true).Some? && i < |w.turns| && w.turns[i].held
    ensures w.turns[i].attempt != c.fence.attempt
  {
    assert TurnOpen(w, i);
  }

  lemma {:induction false} StepHeldLive(f: Fixed, w: World, c: Command, now: int, admitted: bool)
    requires HeldLive(w)
    ensures HeldLive(Step(f, w, c, now, admitted))
  {
    var r := Try(f, w, c, now, admitted);
    if r.Some? {
      var y := r.value;
      forall i {:trigger y.turns[i]} | 0 <= i < |y.turns| && y.turns[i].held
        ensures y.turns[i].attempt < |y.attempts| && StateOf(y, AttemptK, y.turns[i].attempt) == Executing
      {
        if c.Dispatch? || c.MarkUnknown? || c.Resolve? {
          HeldBefore(f, w, c, now, i);
          TurnCommandStays(f, w, c, now, y.turns[i].attempt);
        } else {
          SameTurns(f, w, c, now);
          if c.Commit? || c.Fail? {
            EndsResolved(f, w, c, now, i);
          }
          AttemptCell(f, w, c, now, y.turns[i].attempt);
        }
      }
    }
  }

  /** When an attempt ends, nothing of its budget stays reserved. */
  lemma {:induction false} EndedHoldsNothing(f: Fixed, w: World, cs: seq<Timed>, i: nat)
    requires HeldLive(w)
    ensures HeldLive(Run(f, w, cs))
    ensures var y := Run(f, w, cs); i < |y.turns| && Terminal(AttemptK, StateOf(y, AttemptK, y.turns[i].attempt)) ==>
      !y.turns[i].held
    decreases |cs|
  {
    if cs != [] {
      StepHeldLive(f, w, cs[0].c, cs[0].now, cs[0].admitted);
      EndedHoldsNothing(f, Step(f, w, cs[0].c, cs[0].now, cs[0].admitted), cs[1..], i);
    }
  }

  // ----- logs -----

  /** In every reachable state an attempt has at most three events and a Turn at most
      four, one for each generation. */
  lemma {:induction false} LogsBounded(f: Fixed, base: map<nat, Ledger>, w: World, cs: seq<Timed>, s: Subject)
    requires LogKept(f, w) && BudgetKept(f, base, w) && s in Run(f, w, cs).cells
    ensures var y := Run(f, w, cs);
      && |LogOf(y.log, s)| == y.cells[s].generation
      && (s.kind == AttemptK ==> |LogOf(y.log, s)| <= 3) && (s.kind == TurnK ==> |LogOf(y.log, s)| <= 4)
  {
    RunKept(f, base, w, cs);
    var y := Run(f, w, cs);
    assert Logged(y, s);
    LogBounded(s.kind, LogOf(y.log, s), y.cells[s]);
  }

  // ----- where runs start -----

  /** The records of a seeded store: Runs, Tasks and Sessions in an initial state, each
      with its create event, no Attempts, Turns or slots, and the ledgers at their baseline. */
  function Seed(base: map<nat, Ledger>, rows: seq<(Subject, State)>): World {
    if rows == [] then World(map[], [], [], {}, base, [])
    else
      var last := rows[|rows| - 1];
      Create(Seed(base, rows[..|rows| - 1]), last.0.kind, last.0.id, last.1)
  }

  ghost function Seeded(rows: seq<(Subject, State)>): set<Subject> {
    set r | r in rows :: r.0
  }

  ghost predicate SeedRows(rows: seq<(Subject, State)>) {
    && (forall i, j :: 0 <= i < j < |rows| ==> rows[i].0 != rows[j].0)
    && (forall i {:trigger rows[i]} :: 0 <= i < |rows| ==>
          Initial(rows[i].0.kind, rows[i].1) && Known(rows[i].0.kind, rows[i].1))
  }

  lemma {:induction false} SeedLogged(base: map<nat, Ledger>, rows: seq<(Subject, State)>)
    requires SeedRows(rows)
    ensures var w := Seed(base, rows);
      && w.cells.Keys == Seeded(rows) && |w.log| == |rows| && w.ledgers == base
      && w.attempts == [] && w.turns == [] && w.slots == {}
    ensures var w := Seed(base, rows); forall s {:trigger Logged(w, s)} :: Logged(w, s)
  {
    if rows != [] {
      var front, last := rows[..|rows| - 1], rows[|rows| - 1];
      SeedLogged(base, front);
      assert rows == front + [last];
      assert Seeded(rows) == Seeded(front) + {last.0};
      CreateLogged(Seed(base, front), last.0.kind, last.0.id, last.1);
    }
  }

  /** A seeded store has every property that runs keep, for every funded baseline. */
  lemma {:induction false} SeedKept(f: Fixed, base: map<nat, Ledger>, rows: seq<(Subject, State)>)
    requires SeedRows(rows) && forall s :: s in Seeded(rows) <==> Row(f, World(map[], [], [], {}, base, []), s)
    requires forall t :: t in f.tasks ==> f.tasks[t].run in f.runs
    requires base.Keys == f.infos.Keys
    requires forall l :: l in f.infos ==> Funded(f.infos[l], base[l]) && f.infos[l].reservedActive >= 0
    ensures var w := Seed(base, rows); LogKept(f, w) && BudgetKept(f, base, w) && HeldLive(w)
  {
    SeedLogged(base, rows);
    var w := Seed(base, rows);
    forall l {:trigger Balanced(f, base, w.turns, w.slots, w.ledgers, l)} | l in f.infos
      ensures Balanced(f, base, w.turns, w.slots, w.ledgers, l)
    {
      PlusZero(base[l].reserved);
      PlusZero(base[l].consumed);
      assert w.slots * Beneath(f, l) == {};
    }
    forall s {:trigger Row(f, w, s)}
      ensures Row(f, w, s) <==> s in w.cells
    {
    }
  }

  // ----- the deltas the barrier programs assert -----

  /** Dispatch adds the reservation to every ancestor, one generation each, and
      touches no other ledger. */
  lemma {:induction false} DispatchDelta(f: Fixed, w: World, c: Command, now: int, l: nat)
    requires c.Dispatch? && c.fence.attempt < |w.attempts| && DispatchAllowed(f, w, c, now) && l in w.ledgers
    ensures var a, b := w.ledgers[l], Step(f, w, c, now, true).ledgers[l];
      if l in Charged(f, w.attempts[c.fence.attempt].task)
      then b == a.(reserved := a.reserved.Plus(c.reservation), generation := a.generation + 1) else b == a
  {
  }

  /** A failed resolution moves the whole reservation to consumed. */
  lemma {:induction false} FailedResolutionDelta(f: Fixed, w: World, c: Command, now: int, l: nat)
    requires c.Resolve? && c.outcome == Failure && c.fence.attempt < |w.attempts| && ResolveAllowed(f, w, c, now)
    requires l in w.ledgers
    ensures var a, b, held := w.ledgers[l], Step(f, w, c, now, true).ledgers[l], w.turns[c.turn].reservation;
      if l in Charged(f, w.attempts[c.fence.attempt].task)
      then b.reserved == a.reserved.Minus(held) && b.consumed == a.consumed.Plus(held)
        && b.generation == a.generation + 1
      else b == a
  {
  }

  /** Dispatch and failed resolution together: consumed grows by the reservation,
      reserved is as before, two generations. */
  lemma {:induction false} DispatchThenFailDelta(f: Fixed, w: World, d: Command, now: int, r: Command, later: int,
                                                 l: nat)
    requires d.Dispatch? && d.fence.attempt < |w.attempts| && DispatchAllowed(f, w, d, now) && l in w.ledgers
    requires r.Resolve? && r.outcome == Failure && r.turn == |w.turns| && r.fence.attempt == d.fence.attempt
    requires ResolveAllowed(f, Step(f, w, d, now, true), r, later)
    requires l in Charged(f, w.attempts[d.fence.attempt].task)
    ensures var a, b := w.ledgers[l], Step(f, Step(f, w, d, now, true), r, later, true).ledgers[l];
      b.reserved == a.reserved && b.consumed == a.consumed.Plus(d.reservation) && b.generation == a.generation + 2
  {
    var y := Step(f, w, d, now, true);
    DispatchDelta(f, w, d, now, l);
    DispatchedTurn(f, w, d, now);
    FailedResolutionDelta(f, y, r, later, l);
    MovedBack(w.ledgers[l].reserved, d.reservation);
  }

  lemma {:induction false} MovedBack(a: Amount, b: Amount)
    ensures a.Plus(b).Minus(b) == a
  {
  }

  lemma {:induction false} DispatchedTurn(f: Fixed, w: World, d: Command, now: int)
    requires d.Dispatch? && d.fence.attempt < |w.attempts| && DispatchAllowed(f, w, d, now)
    ensures var y := Step(f, w, d, now, true);
      && y.attempts == w.attempts && y.ledgers.Keys == w.ledgers.Keys && |y.turns| == |w.turns| + 1
      && y.turns[|w.turns|] == Turn(d.fence.attempt, w.attempts[d.fence.attempt].task, true, d.reservation, ZERO)
  {
  }

  /** What a committed attempt changes: its own state and its Session's by one
      generation, the Task's by two, the Run's with its root, and one slot along the
      ancestry. Turns and other rows stay. */
  lemma {:induction false} CommitDelta(f: Fixed, w: World, c: Command, now: int)
    requires c.Commit? && CommitAllowed(f, w, c.fence, now)
    ensures var a := c.fence.attempt; var task := w.attempts[a].task; var run := f.tasks[task].run;
      var y := Step(f, w, c, now, true);
      && CellOf(y, AttemptK, a) == Cell(ResultCommitted, CellOf(w, AttemptK, a).generation + 1)
      && CellOf(y, TaskK, task) == Cell(Succeeded, CellOf(w, TaskK, task).generation + 2)
      && CellOf(y, SessionK, task) == Cell(Closed, CellOf(w, SessionK, task).generation + 1)
      && CellOf(y, RunK, run) == (if f.tasks[task].root then Cell(Succeeded, CellOf(w, RunK, run).generation + 1)
                                  else CellOf(w, RunK, run))
      && y.slots == w.slots - {task} && y.turns == w.turns
      && |y.log| == |w.log| + if f.tasks[task].root then 5 else 4
  {
    hide Step, CommitTask, AskLedgers, LockLedgers, Unresolved;
    CommitStep(f, w, c, now);
    CommitTaskShape(f, w, c.fence.attempt, w.attempts[c.fence.attempt].task);
  }

  lemma {:induction false} CommitTaskShape(f: Fixed, w: World, a: nat, task: nat)
    requires task in f.tasks && LedgersAllow(f, w, task, FreeSlot)
    ensures var y, run := CommitTask(f, w, a, task), f.tasks[task].run;
      && CellOf(y, AttemptK, a) == Cell(ResultCommitted, CellOf(w, AttemptK, a).generation + 1)
      && CellOf(y, TaskK, task) == Cell(Succeeded, CellOf(w, TaskK, task).generation + 2)
      && CellOf(y, SessionK, task) == Cell(Closed, CellOf(w, SessionK, task).generation + 1)
      && CellOf(y, RunK, run) == (if f.tasks[task].root then Cell(Succeeded, CellOf(w, RunK, run).generation + 1)
                                  else CellOf(w, RunK, run))
      && y.slots == w.slots - {task} && y.turns == w.turns
      && |y.log| == |w.log| + if f.tasks[task].root then 5 else 4
  {
    CommittedShape(w, a, task);
    EndTaskShape(f, Committed(w, a, task), task, Succeeded, f.tasks[task].root);
  }

  /** What a failure without retry changes: no second Task generation. */
  lemma {:induction false} FailDelta(f: Fixed, w: World, c: Command, now: int)
    requires c.Fail? && c.retry == NoRetry && FailAllowed(f, w, c.fence, now)
    requires LedgersAllow(f, w, w.attempts[c.fence.attempt].task, FreeSlot)
    ensures var a := c.fence.attempt; var task := w.attempts[a].task; var run := f.tasks[task].run;
      var y := Step(f, w, c, now, true); var last := LastOfRun(f, w, task);
      && CellOf(y, AttemptK, a) == Cell(RuntimeStates.Failed, CellOf(w, AttemptK, a).generation + 1)
      && CellOf(y, TaskK, task) == Cell(RuntimeStates.Failed, CellOf(w, TaskK, task).generation + 1)
      && CellOf(y, SessionK, task) == Cell(Closed, CellOf(w, SessionK, task).generation + 1)
      && CellOf(y, RunK, run) == (if last then Cell(RuntimeStates.Failed, CellOf(w, RunK, run).generation + 1)
                                  else CellOf(w, RunK, run))
      && y.slots == w.slots - {task} && y.turns == w.turns && |y.log| == |w.log| + if last then 4 else 3
  {
    FailStep(f, w, c, now);
    FailTaskShape(f, w, c.fence.attempt, w.attempts[c.fence.attempt].task);
  }

  lemma {:induction false} FailTaskShape(f: Fixed, w: World, a: nat, task: nat)
    requires task in f.tasks && LedgersAllow(f, w, task, FreeSlot)
    ensures FailTask(f, w, a, task, NoRetry).Some?
    ensures var y, run, last := FailTask(f, w, a, task, NoRetry).value, f.tasks[task].run, LastOfRun(f, w, task);
      && CellOf(y, AttemptK, a) == Cell(RuntimeStates.Failed, CellOf(w, AttemptK, a).generation + 1)
      && CellOf(y, TaskK, task) == Cell(RuntimeStates.Failed, CellOf(w, TaskK, task).generation + 1)
      && CellOf(y, SessionK, task) == Cell(Closed, CellOf(w, SessionK, task).generation + 1)
      && CellOf(y, RunK, run) == (if last then Cell(RuntimeStates.Failed, CellOf(w, RunK, run).generation + 1)
                                  else CellOf(w, RunK, run))
      && y.slots == w.slots - {task} && y.turns == w.turns && |y.log| == |w.log| + if last then 4 else 3
  {
    FailedShape(w, a, task, RuntimeStates.Failed);
    EndTaskShape(f, FailedTask(w, a, task, RuntimeStates.Failed), task, RuntimeStates.Failed, LastOfRun(f, w, task));
  }

  lemma {:induction false} CommitStep(f: Fixed, w: World, c: Command, now: int)
    requires c.Commit? && CommitAllowed(f, w, c.fence, now)
    ensures var task := w.attempts[c.fence.attempt].task;
      Step(f, w, c, now, true) == CommitTask(f, w, c.fence.attempt, task)
  {
    hide AskLedgers, LockLedgers, Unresolved, CommitTask;
  }

  lemma {:induction false} FailStep(f: Fixed, w: World, c: Command, now: int)
    requires c.Fail? && FailAllowed(f, w, c.fence, now)
    ensures var task := w.attempts[c.fence.attempt].task; var r := FailTask(f, w, c.fence.attempt, task, c.retry);
      Step(f, w, c, now, true) == if r.Some? then r.value else w
  {
  }

  /** From w to y the ledger gave back one active slot if it is charged for the task, and
      otherwise stayed as it was. */
  ghost predicate SlotGivenBack(f: Fixed, w: World, y: World, task: nat, l: nat) {
    && task in f.tasks && l in w.ledgers && l in y.ledgers
    && var a, b := w.ledgers[l], y.ledgers[l];
       b == if l in Charged(f, task) then a.(active := a.active - 1, generation := a.generation + 1) else a
  }

  /** Either ending gives back one active slot to every ancestor and nothing else. */
  lemma {:induction false} CommitLedgerDelta(f: Fixed, w: World, c: Command, now: int, l: nat)
    requires c.Commit? && CommitAllowed(f, w, c.fence, now) && l in w.ledgers
    ensures SlotGivenBack(f, w, Step(f, w, c, now, true), w.attempts[c.fence.attempt].task, l)
  {
    CommitStep(f, w, c, now);
    CommitLedgers(f, w, c.fence.attempt, w.attempts[c.fence.attempt].task, l);
  }

  lemma {:induction false} FailLedgerDelta(f: Fixed, w: World, c: Command, now: int, l: nat)
    requires c.Fail? && c.retry == NoRetry && FailAllowed(f, w, c.fence, now) && l in w.ledgers
    requires LedgersAllow(f, w, w.attempts[c.fence.attempt].task, FreeSlot)
    ensures SlotGivenBack(f, w, Step(f, w, c, now, true), w.attempts[c.fence.attempt].task, l)
  {
    FailStep(f, w, c, now);
    FailLedgers(f, w, c.fence.attempt, w.attempts[c.fence.attempt].task, c.retry, l);
  }

  lemma {:induction false} CommitLedgers(f: Fixed, w: World, a: nat, task: nat, l: nat)
    requires task in f.tasks && LedgersAllow(f, w, task, FreeSlot) && l in w.ledgers
    ensures SlotGivenBack(f, w, CommitTask(f, w, a, task), task, l)
  {
    CommittedShape(w, a, task);
    EndLedgers(f, w, Committed(w, a, task), task, Succeeded, f.tasks[task].root, l);
  }

  lemma {:induction false} FailLedgers(f: Fixed, w: World, a: nat, task: nat, retry: RetryClass, l: nat)
    requires task in f.tasks && LedgersAllow(f, w, task, FreeSlot) && l in w.ledgers && !RetryGranted(f, w, task, retry)
    ensures FailTask(f, w, a, task, retry).Some?
    ensures SlotGivenBack(f, w, FailTask(f, w, a, task, retry).value, task, l)
  {
    FailedShape(w, a, task, FailState(retry));
    EndLedgers(f, w, FailedTask(w, a, task, FailState(retry)), task, FailState(retry), LastOfRun(f, w, task), l);
  }

  lemma {:induction false} EndLedgers(f: Fixed, w: World, x: World, task: nat, runState: State, endRun: bool, l: nat)
    requires task in f.tasks && x.ledgers == w.ledgers && LedgersAllow(f, w, task, FreeSlot) && l in w.ledgers
    ensures SlotGivenBack(f, w, EndTask(f, x, task, runState, endRun), task, l)
  {
    EndTaskShape(f, x, task, runState, endRun);
  }

  // ----- claims -----

  ghost function Claims(f: Fixed, w: World, cs: seq<Timed>): nat
    decreases |cs|
  {
    if cs == [] then 0
    else
      var e := cs[0];
      (if Try(f, w, e.c, e.now, e.admitted).Some? then 1 else 0)
      + Claims(f, Step(f, w, e.c, e.now, e.admitted), cs[1..])
  }

  ghost predicate SameClaims(cs: seq<Timed>, task: nat, generation: int) {
    forall i :: 0 <= i < |cs| ==> cs[i].c.Claim? && cs[i].c.task == task && cs[i].c.generation == generation
  }

  /** Of any number of claims for one generation of a claimable Task, at most one takes
      effect, and it leaves the Task running at the next generation with its slot. */
  lemma {:induction false} OneClaim(f: Fixed, w: World, cs: seq<Timed>, task: nat)
    requires StateOf(w, TaskK, task) in {Ready, Waiting} && LastActive(w, task, |w.attempts|).None?
    requires SameClaims(cs, task, CellOf(w, TaskK, task).generation)
    ensures Claims(f, w, cs) <= 1
    ensures var y := Run(f, w, cs);
      if Claims(f, w, cs) == 0 then y == w
      else CellOf(y, TaskK, task) == Cell(Running, CellOf(w, TaskK, task).generation + 1)
           && |y.attempts| == |w.attempts| + 1 && y.slots == w.slots + {task}
    decreases |cs|
  {
    if cs != [] {
      var e := cs[0];
      var y := Step(f, w, e.c, e.now, e.admitted);
      assert SameClaims(cs[1..], task, CellOf(w, TaskK, task).generation);
      if Try(f, w, e.c, e.now, e.admitted).Some? {
        NewClaim(f, w, e.c, e.now);
        StaleClaims(f, y, cs[1..], task, CellOf(w, TaskK, task).generation);
      } else {
        OneClaim(f, w, cs[1..], task);
      }
    }
  }

  lemma {:induction false} NewClaim(f: Fixed, w: World, c: Command, now: int)
    requires c.Claim? && TryClaim(f, w, c, now).Some? && LastActive(w, c.task, |w.attempts|).None?
    ensures var y := TryClaim(f, w, c, now).value;
      && CellOf(y, TaskK, c.task) == Cell(Running, CellOf(w, TaskK, c.task).generation + 1)
      && |y.attempts| == |w.attempts| + 1 && y.slots == w.slots + {c.task}
  {
    NewAttemptShape(f, w, c.task, FirstLease(f, c, now));
  }

  lemma {:induction false} NewAttemptShape(f: Fixed, w: World, task: nat, lease: Lease)
    requires task in f.tasks && NewAttemptAllowed(f, w, task)
    ensures var y := NewAttempt(f, w, task, lease);
      && CellOf(y, TaskK, task) == Cell(Running, CellOf(w, TaskK, task).generation + 1)
      && |y.attempts| == |w.attempts| + 1 && y.slots == w.slots + {task}
  {
  }

  lemma {:induction false} StaleClaims(f: Fixed, w: World, cs: seq<Timed>, task: nat, generation: int)
    requires CellOf(w, TaskK, task).generation != generation && SameClaims(cs, task, generation)
    ensures Claims(f, w, cs) == 0 && Run(f, w, cs) == w
    decreases |cs|
  {
    if cs != [] {
      assert Try(f, w, cs[0].c, cs[0].now, cs[0].admitted).None?;
      StaleClaims(f, w, cs[1..], task, generation);
    }
  }

  // ----- a held reservation can always be settled -----

  lemma {:induction false} HeldIsCounted(beneath: set<nat>, turns: seq<Turn>, n: nat, i: nat)
    requires i < n <= |turns| && forall k :: 0 <= k < n ==> turns[k].reservation.NonNegative()
    ensures Share(beneath, turns[i], HeldPart).Within(SumTo(beneath, turns, n, HeldPart))
    ensures SumTo(beneath, turns, n, HeldPart).NonNegative()
  {
    if n > 1 {
      HeldIsCounted(beneath, turns, n - 1, if i < n - 1 then i else 0);
    }
  }

  /** No budget test refuses the settlement of a held reservation: on any reachable
      state with rooted ancestry and no closed ledger in it, a fenced resolution within
      the reservation is accepted. */
  lemma {:induction false} SettlementNeverRefused(f: Fixed, base: map<nat, Ledger>, w: World, turn: nat,
                                                  outcome: Outcome)
    requires BudgetKept(f, base, w) && turn < |w.turns| && w.turns[turn].held && UsageFits(w.turns[turn], outcome)
    requires forall l :: l in base ==> base[l].reserved.NonNegative()
    requires w.turns[turn].task in f.tasks && LedgersUsable(f, w, w.turns[turn].task)
    ensures LedgersAllow(f, w, w.turns[turn].task, Settle(w.turns[turn].reservation, Used(w.turns[turn], outcome)))
  {
    var t, used := w.turns[turn], Used(w.turns[turn], outcome);
    forall k | 0 <= k < |w.turns|
      ensures w.turns[k].reservation.NonNegative()
    {
      assert TurnKept(f, w, k);
    }
    forall l | l in Charged(f, t.task)
      ensures l in f.infos && Allows(f.infos[l], w.ledgers[l], Settle(t.reservation, used))
    {
      assert l in f.infos;
      assert Balanced(f, base, w.turns, w.slots, w.ledgers, l);
      HeldIsCounted(Beneath(f, l), w.turns, |w.turns|, turn);
      SettleAlwaysFits(f.infos[l], w.ledgers[l], t.reservation, used);
    }
  }
}
