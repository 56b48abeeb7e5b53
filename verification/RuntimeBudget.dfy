// Every ledger accounts for the Turns and slots beneath it, after every command.
module RuntimeBudget {
  import opened Collections
  import opened RuntimeStates
  import opened RuntimeLedger
  import opened RuntimeProtocol

  datatype Part = HeldPart | ChargedPart | WholePart

  /** The Tasks whose work is charged to ledger l. */
  ghost function Beneath(f: Fixed, l: nat): set<nat> {
    set t | t in f.tasks && l in Charged(f, t)
  }

  /** What a Turn of these Tasks holds, has been charged, or reserved at first. */
  function Share(beneath: set<nat>, t: Turn, part: Part): Amount {
    if t.task !in beneath then ZERO
    else
      match part
      case HeldPart => if t.held then t.reservation else ZERO
      case ChargedPart => t.charged
      case WholePart => t.reservation
  }

  /** The sum over the first n Turns. */
  function SumTo(beneath: set<nat>, turns: seq<Turn>, n: nat, part: Part): Amount
    requires n <= |turns|
  {
    if n == 0 then ZERO else SumTo(beneath, turns, n - 1, part).Plus(Share(beneath, turns[n - 1], part))
  }

  function SumOf(beneath: set<nat>, turns: seq<Turn>, part: Part): Amount {
    SumTo(beneath, turns, |turns|, part)
  }

  lemma {:induction false} SumsAlike(beneath: set<nat>, a: seq<Turn>, b: seq<Turn>, n: nat, part: Part)
    requires n <= |a| && n <= |b| && forall i :: 0 <= i < n ==> a[i] == b[i]
    ensures SumTo(beneath, a, n, part) == SumTo(beneath, b, n, part)
  {
    if n > 0 {
      SumsAlike(beneath, a, b, n - 1, part);
    }
  }

  lemma {:induction false} SumSnoc(beneath: set<nat>, turns: seq<Turn>, t: Turn, part: Part)
    ensures SumOf(beneath, turns + [t], part) == SumOf(beneath, turns, part).Plus(Share(beneath, t, part))
  {
    SumsAlike(beneath, turns + [t], turns, |turns|, part);
  }

  lemma {:induction false} SumToUpdate(beneath: set<nat>, turns: seq<Turn>, i: nat, t: Turn, n: nat, part: Part)
    requires i < n <= |turns|
    ensures SumTo(beneath, turns[i := t], n, part)
         == SumTo(beneath, turns, n, part).Minus(Share(beneath, turns[i], part)).Plus(Share(beneath, t, part))
  {
    if i < n - 1 {
      SumToUpdate(beneath, turns, i, t, n - 1, part);
      Rearrange(SumTo(beneath, turns, n - 1, part), Share(beneath, turns[i], part), Share(beneath, t, part),
                Share(beneath, turns[n - 1], part));
    } else {
      SumsAlike(beneath, turns[i := t], turns, n - 1, part);
      Rearrange(SumTo(beneath, turns, n - 1, part), Share(beneath, turns[i], part), Share(beneath, t, part), ZERO);
    }
  }

  lemma {:induction false} SumUpdate(beneath: set<nat>, turns: seq<Turn>, i: nat, t: Turn, part: Part)
    requires i < |turns|
    ensures SumOf(beneath, turns[i := t], part)
         == SumOf(beneath, turns, part).Minus(Share(beneath, turns[i], part)).Plus(Share(beneath, t, part))
  {
    SumToUpdate(beneath, turns, i, t, |turns|, part);
  }

  lemma {:induction false} Rearrange(s: Amount, a: Amount, b: Amount, c: Amount)
    ensures s.Minus(a).Plus(b).Plus(c) == s.Plus(c).Minus(a).Plus(b)
    ensures s.Plus(a).Minus(a).Plus(b) == s.Plus(b)
  {
  }

  /** Reserved, consumed and active are what the baseline had plus what the Turns and
      slots beneath the ledger account for, and the ledger is funded. */
  ghost predicate Balanced(f: Fixed, base: map<nat, Ledger>, turns: seq<Turn>, slots: set<nat>,
                           ledgers: map<nat, Ledger>, l: nat)
  {
    && l in ledgers && l in base && l in f.infos
    && ledgers[l].reserved == base[l].reserved.Plus(SumOf(Beneath(f, l), turns, HeldPart))
    && ledgers[l].consumed == base[l].consumed.Plus(SumOf(Beneath(f, l), turns, ChargedPart))
    && ledgers[l].active == base[l].active + |slots * Beneath(f, l)|
    && Funded(f.infos[l], ledgers[l]) && f.infos[l].reservedActive >= 0
  }

  /** A Turn holds its reservation exactly while its outcome is open, and is charged
      when it is settled: a failed one its whole reservation. */
  predicate TurnSound(t: Turn, state: State) {
    && t.reservation.NonNegative() && t.reservation.calls == 1
    && (t.held <==> state == Dispatched || state == Unknown)
    && (t.held ==> t.charged == ZERO)
    && (state == RuntimeStates.Failed ==> t.charged == t.reservation)
    && (state == ResultCommitted ==> t.charged.NonNegative() && t.charged.Within(t.reservation) && t.charged.calls == 1)
    && (t.held || state == RuntimeStates.Failed || state == ResultCommitted)
  }

  ghost predicate TurnKept(f: Fixed, w: World, i: nat)
    requires i < |w.turns|
  {
    var t := w.turns[i];
    && t.attempt < |w.attempts| && w.attempts[t.attempt].task == t.task && t.task in f.tasks
    && TurnSound(t, StateOf(w, TurnK, i))
  }

  ghost predicate BudgetKept(f: Fixed, base: map<nat, Ledger>, w: World) {
    && base.Keys == f.infos.Keys && w.ledgers.Keys == f.infos.Keys
    && (forall l {:trigger Balanced(f, base, w.turns, w.slots, w.ledgers, l)} ::
          l in f.infos ==> Balanced(f, base, w.turns, w.slots, w.ledgers, l))
    && (forall i: nat {:trigger TurnKept(f, w, i)} :: i < |w.turns| ==> TurnKept(f, w, i))
  }

  /** Nothing the balance looks at has changed. */
  lemma {:induction false} FrameKept(f: Fixed, base: map<nat, Ledger>, w: World, y: World)
    requires BudgetKept(f, base, w)
    requires y.turns == w.turns && y.slots == w.slots && y.ledgers == w.ledgers && |y.attempts| >= |w.attempts|
    requires forall a :: 0 <= a < |w.attempts| ==> y.attempts[a].task == w.attempts[a].task
    requires forall i: nat :: i < |w.turns| ==> StateOf(y, TurnK, i) == StateOf(w, TurnK, i)
    ensures BudgetKept(f, base, y)
  {
    forall i: nat {:trigger TurnKept(f, y, i)} | i < |y.turns|
      ensures TurnKept(f, y, i)
    {
      assert TurnKept(f, w, i);
    }
  }

  lemma {:induction false} UnknownKept(f: Fixed, base: map<nat, Ledger>, w: World, turn: nat)
    requires BudgetKept(f, base, w) && turn < |w.turns| && w.turns[turn].held
    ensures BudgetKept(f, base, Move(w, TurnK, turn, Unknown))
  {
    var y := Move(w, TurnK, turn, Unknown);
    forall i: nat {:trigger TurnKept(f, y, i)} | i < |y.turns|
      ensures TurnKept(f, y, i)
    {
      assert TurnKept(f, w, i);
    }
  }

  // ----- one operation along the ancestry -----

  /** A new held Turn and the reservation for it. */
  lemma {:induction false} ReserveBalances(f: Fixed, base: map<nat, Ledger>, w: World, task: nat, t: Turn, l: nat)
    requires task in f.tasks && LedgersAllow(f, w, task, Reserve(t.reservation)) && l in f.infos
    requires w.ledgers.Keys == f.infos.Keys && Balanced(f, base, w.turns, w.slots, w.ledgers, l)
    requires t.held && t.task == task && t.charged == ZERO && t.reservation.NonNegative()
    ensures Balanced(f, base, w.turns + [t], w.slots, Charge(f, w, task, Reserve(t.reservation)).ledgers, l)
  {
    SumSnoc(Beneath(f, l), w.turns, t, HeldPart);
    SumSnoc(Beneath(f, l), w.turns, t, ChargedPart);
    var before, after := w.ledgers[l], Charge(f, w, task, Reserve(t.reservation)).ledgers[l];
    if l in Charged(f, task) {
      assert after == Apply(f.infos[l], before, Reserve(t.reservation));
      ApplyFunded(f.infos[l], before, Reserve(t.reservation));
      PlusMoves(base[l].reserved, SumOf(Beneath(f, l), w.turns, HeldPart), t.reservation);
    } else {
      assert after == before && Share(Beneath(f, l), t, HeldPart) == ZERO;
    }
    assert Share(Beneath(f, l), t, ChargedPart) == ZERO;
    PlusZero(SumOf(Beneath(f, l), w.turns, ChargedPart));
    PlusZero(SumOf(Beneath(f, l), w.turns, HeldPart));
  }

  lemma {:induction false} PlusMoves(a: Amount, b: Amount, c: Amount)
    ensures a.Plus(b).Plus(c) == a.Plus(b.Plus(c))
  {
  }

  lemma {:induction false} PlusZero(a: Amount)
    ensures a.Plus(ZERO) == a
  {
  }

  /** A held Turn settled: its reservation goes back, its usage is charged. */
  lemma {:induction false} SettleBalances(f: Fixed, base: map<nat, Ledger>, w: World, turn: nat, used: Amount, l: nat)
    requires turn < |w.turns| && w.turns[turn].held && w.turns[turn].charged == ZERO && w.turns[turn].task in f.tasks
    requires LedgersAllow(f, w, w.turns[turn].task, Settle(w.turns[turn].reservation, used)) && l in f.infos
    requires w.ledgers.Keys == f.infos.Keys && Balanced(f, base, w.turns, w.slots, w.ledgers, l)
    requires used.NonNegative() && used.Within(w.turns[turn].reservation)
    ensures var t := w.turns[turn];
      Balanced(f, base, w.turns[turn := t.(held := false, charged := used)], w.slots,
               Charge(f, w, t.task, Settle(t.reservation, used)).ledgers, l)
  {
    var t := w.turns[turn];
    var settled := t.(held := false, charged := used);
    var beneath := Beneath(f, l);
    SumUpdate(beneath, w.turns, turn, settled, HeldPart);
    SumUpdate(beneath, w.turns, turn, settled, ChargedPart);
    var before := w.ledgers[l];
    MinusPlus(base[l].reserved, SumOf(beneath, w.turns, HeldPart), Share(beneath, t, HeldPart),
              Share(beneath, settled, HeldPart));
    MinusPlus(base[l].consumed, SumOf(beneath, w.turns, ChargedPart), Share(beneath, t, ChargedPart),
              Share(beneath, settled, ChargedPart));
    SettledShares(f, t, used, l);
    if l in Charged(f, t.task) {
      ApplyFunded(f.infos[l], before, Settle(t.reservation, used));
    }
  }

  lemma {:induction false} MinusPlus(a: Amount, b: Amount, c: Amount, d: Amount)
    ensures a.Plus(b.Minus(c).Plus(d)) == a.Plus(b).Minus(c).Plus(d)
    ensures a.Plus(b).Minus(ZERO).Plus(d) == a.Plus(b).Plus(d) && a.Plus(b).Minus(c).Plus(ZERO) == a.Plus(b).Minus(c)
    ensures a.Plus(b).Minus(ZERO) == a.Plus(b) && a.Plus(b).Plus(ZERO) == a.Plus(b)
  {
  }

  lemma {:induction false} SettledShares(f: Fixed, t: Turn, used: Amount, l: nat)
    requires t.held && t.charged == ZERO && t.task in f.tasks
    ensures var settled := t.(held := false, charged := used);
      && Share(Beneath(f, l), settled, HeldPart) == ZERO && Share(Beneath(f, l), t, ChargedPart) == ZERO
      && Share(Beneath(f, l), t, HeldPart) == (if l in Charged(f, t.task) then t.reservation else ZERO)
      && Share(Beneath(f, l), settled, ChargedPart) == (if l in Charged(f, t.task) then used else ZERO)
  {
  }

  lemma {:induction false} TakeBalances(f: Fixed, base: map<nat, Ledger>, w: World, task: nat, l: nat)
    requires task in f.tasks && task !in w.slots && LedgersAllow(f, w, task, TakeSlot) && l in f.infos
    requires w.ledgers.Keys == f.infos.Keys && Balanced(f, base, w.turns, w.slots, w.ledgers, l)
    ensures Balanced(f, base, w.turns, w.slots + {task}, Charge(f, w, task, TakeSlot).ledgers, l)
  {
    if l in Charged(f, task) {
      ApplyFunded(f.infos[l], w.ledgers[l], TakeSlot);
    }
    AddOne(w.slots, Beneath(f, l), task);
  }

  lemma {:induction false} AddOne(slots: set<nat>, beneath: set<nat>, task: nat)
    requires task !in slots
    ensures |(slots + {task}) * beneath| == |slots * beneath| + if task in beneath then 1 else 0
  {
    if task in beneath {
      assert (slots + {task}) * beneath == slots * beneath + {task};
    } else {
      assert (slots + {task}) * beneath == slots * beneath;
    }
  }

  lemma {:induction false} FreeBalances(f: Fixed, base: map<nat, Ledger>, w: World, task: nat, l: nat)
    requires task in f.tasks && task in w.slots && LedgersAllow(f, w, task, FreeSlot) && l in f.infos
    requires w.ledgers.Keys == f.infos.Keys && Balanced(f, base, w.turns, w.slots, w.ledgers, l)
    ensures Balanced(f, base, w.turns, w.slots - {task}, Charge(f, w, task, FreeSlot).ledgers, l)
  {
    if l in Charged(f, task) {
      ApplyFunded(f.infos[l], w.ledgers[l], FreeSlot);
    }
    AddOne(w.slots - {task}, Beneath(f, l), task);
    assert w.slots - {task} + {task} == w.slots;
  }

  lemma {:induction false} RetryBalances(f: Fixed, base: map<nat, Ledger>, w: World, task: nat, why: RetryClass, l: nat)
    requires task in f.tasks && LedgersAllow(f, w, task, Retry(why)) && l in f.infos
    requires w.ledgers.Keys == f.infos.Keys && Balanced(f, base, w.turns, w.slots, w.ledgers, l)
    ensures Balanced(f, base, w.turns, w.slots, Charge(f, w, task, Retry(why)).ledgers, l)
  {
    if l in Charged(f, task) {
      ApplyFunded(f.infos[l], w.ledgers[l], Retry(why));
    }
  }

  // ----- command by command -----

  lemma {:induction false} NewTurnShape(f: Fixed, w: World, a: nat, task: nat, reservation: Amount)
    requires task in f.tasks && LedgersAllow(f, w, task, Reserve(reservation))
    ensures var y := NewTurn(f, w, a, task, reservation);
      && y.turns == w.turns + [Turn(a, task, true, reservation, ZERO)] && y.slots == w.slots && y.attempts == w.attempts
      && y.ledgers == Charge(f, w, task, Reserve(reservation)).ledgers
      && StateOf(y, TurnK, |w.turns|) == Dispatched
      && forall i: nat :: i < |w.turns| ==> StateOf(y, TurnK, i) == StateOf(w, TurnK, i)
  {
  }

  lemma {:induction false} NewTurnAccounted(f: Fixed, base: map<nat, Ledger>, w: World, a: nat, task: nat,
                                            reservation: Amount)
    requires BudgetKept(f, base, w) && a < |w.attempts| && w.attempts[a].task == task && task in f.tasks
    requires reservation.NonNegative() && reservation.calls == 1
    requires LedgersAllow(f, w, task, Reserve(reservation))
    ensures BudgetKept(f, base, NewTurn(f, w, a, task, reservation))
  {
    var t := Turn(a, task, true, reservation, ZERO);
    NewTurnShape(f, w, a, task, reservation);
    NewTurnBalanced(f, base, w, task, t);
    TurnAdded(f, base, w, NewTurn(f, w, a, task, reservation), t);
  }

  lemma {:induction false} TurnAdded(f: Fixed, base: map<nat, Ledger>, w: World, y: World, t: Turn)
    requires BudgetKept(f, base, w) && t.attempt < |w.attempts| && w.attempts[t.attempt].task == t.task
      && t.task in f.tasks
    requires y.turns == w.turns + [t] && y.attempts == w.attempts && y.slots == w.slots
    requires TurnSound(t, StateOf(y, TurnK, |w.turns|)) && y.ledgers.Keys == f.infos.Keys
    requires forall i: nat :: i < |w.turns| ==> StateOf(y, TurnK, i) == StateOf(w, TurnK, i)
    requires forall l {:trigger Balanced(f, base, w.turns + [t], w.slots, y.ledgers, l)} ::
      l in f.infos ==> Balanced(f, base, w.turns + [t], w.slots, y.ledgers, l)
    ensures BudgetKept(f, base, y)
  {
    forall i: nat {:trigger TurnKept(f, y, i)} | i < |y.turns|
      ensures TurnKept(f, y, i)
    {
      if i < |w.turns| {
        assert TurnKept(f, w, i);
      }
    }
  }

  lemma {:induction false} NewTurnBalanced(f: Fixed, base: map<nat, Ledger>, w: World, task: nat, t: Turn)
    requires BudgetKept(f, base, w) && task in f.tasks && LedgersAllow(f, w, task, Reserve(t.reservation))
    requires t.held && t.task == task && t.charged == ZERO && t.reservation.NonNegative()
    ensures var ledgers := Charge(f, w, task, Reserve(t.reservation)).ledgers;
      forall l {:trigger Balanced(f, base, w.turns + [t], w.slots, ledgers, l)} ::
        l in f.infos ==> Balanced(f, base, w.turns + [t], w.slots, ledgers, l)
  {
    var ledgers := Charge(f, w, task, Reserve(t.reservation)).ledgers;
    forall l {:trigger Balanced(f, base, w.turns + [t], w.slots, ledgers, l)} | l in f.infos
      ensures Balanced(f, base, w.turns + [t], w.slots, ledgers, l)
    {
      assert Balanced(f, base, w.turns, w.slots, w.ledgers, l);
      ReserveBalances(f, base, w, task, t, l);
    }
  }

  lemma {:induction false} SettledKept(f: Fixed, base: map<nat, Ledger>, w: World, task: nat, turn: nat,
                                       outcome: Outcome)
    requires BudgetKept(f, base, w) && turn < |w.turns| && w.turns[turn].held && task in f.tasks
    requires w.turns[turn].task == task && UsageFits(w.turns[turn], outcome)
    requires LedgersAllow(f, w, task, Settle(w.turns[turn].reservation, Used(w.turns[turn], outcome)))
    ensures BudgetKept(f, base, Settled(f, w, task, turn, Used(w.turns[turn], outcome), EndOf(outcome)))
  {
    var t, used := w.turns[turn], Used(w.turns[turn], outcome);
    var y, settled := Settled(f, w, task, turn, used, EndOf(outcome)), t.(held := false, charged := used);
    assert TurnKept(f, w, turn);
    assert y.ledgers == Charge(f, w, task, Settle(t.reservation, used)).ledgers;
    forall l {:trigger Balanced(f, base, w.turns[turn := settled], w.slots, y.ledgers, l)} | l in f.infos
      ensures Balanced(f, base, w.turns[turn := settled], w.slots, y.ledgers, l)
    {
      assert Balanced(f, base, w.turns, w.slots, w.ledgers, l);
      SettleBalances(f, base, w, turn, used, l);
    }
    TurnChanged(f, base, w, y, turn, settled);
  }

  lemma {:induction false} TurnChanged(f: Fixed, base: map<nat, Ledger>, w: World, y: World, turn: nat, t: Turn)
    requires BudgetKept(f, base, w) && turn < |w.turns|
    requires t.attempt == w.turns[turn].attempt && t.task == w.turns[turn].task
    requires y.turns == w.turns[turn := t] && y.attempts == w.attempts && y.slots == w.slots
    requires TurnSound(t, StateOf(y, TurnK, turn)) && y.ledgers.Keys == f.infos.Keys
    requires forall i: nat :: i < |w.turns| && i != turn ==> StateOf(y, TurnK, i) == StateOf(w, TurnK, i)
    requires forall l {:trigger Balanced(f, base, w.turns[turn := t], w.slots, y.ledgers, l)} ::
      l in f.infos ==> Balanced(f, base, w.turns[turn := t], w.slots, y.ledgers, l)
    ensures BudgetKept(f, base, y)
  {
    forall i: nat {:trigger TurnKept(f, y, i)} | i < |y.turns|
      ensures TurnKept(f, y, i)
    {
      assert TurnKept(f, w, i);
    }
  }

  lemma {:induction false} PaidKept(f: Fixed, base: map<nat, Ledger>, w: World, task: nat)
    requires BudgetKept(f, base, w) && task in f.tasks && NewAttemptAllowed(f, w, task)
    ensures BudgetKept(f, base, Paid(f, w, task))
  {
    if task !in w.slots {
      var y := Paid(f, w, task);
      forall l {:trigger Balanced(f, base, y.turns, y.slots, y.ledgers, l)} | l in f.infos
        ensures Balanced(f, base, y.turns, y.slots, y.ledgers, l)
      {
        assert Balanced(f, base, w.turns, w.slots, w.ledgers, l);
        TakeBalances(f, base, w, task, l);
      }
      TurnsFramed(f, w, y);
    }
  }

  lemma {:induction false} TurnsFramed(f: Fixed, w: World, y: World)
    requires forall i: nat {:trigger TurnKept(f, w, i)} :: i < |w.turns| ==> TurnKept(f, w, i)
    requires y.turns == w.turns && y.attempts == w.attempts
    requires forall i: nat :: i < |w.turns| ==> StateOf(y, TurnK, i) == StateOf(w, TurnK, i)
    ensures forall i: nat {:trigger TurnKept(f, y, i)} :: i < |y.turns| ==> TurnKept(f, y, i)
  {
    forall i: nat {:trigger TurnKept(f, y, i)} | i < |y.turns|
      ensures TurnKept(f, y, i)
    {
      assert TurnKept(f, w, i);
    }
  }

  lemma {:induction false} NewAttemptAccounted(f: Fixed, base: map<nat, Ledger>, w: World, task: nat, lease: Lease)
    requires BudgetKept(f, base, w) && task in f.tasks && NewAttemptAllowed(f, w, task)
    ensures BudgetKept(f, base, NewAttempt(f, w, task, lease))
  {
    PaidKept(f, base, w, task);
    FrameKept(f, base, Paid(f, w, task), NewAttempt(f, w, task, lease));
  }

  lemma {:induction false} EndTaskAccounted(f: Fixed, base: map<nat, Ledger>, w: World, task: nat, runState: State,
                                            endRun: bool)
    requires BudgetKept(f, base, w) && task in f.tasks && task in w.slots && LedgersAllow(f, w, task, FreeSlot)
    ensures BudgetKept(f, base, EndTask(f, w, task, runState, endRun))
  {
    var y := EndTask(f, w, task, runState, endRun);
    assert y.turns == w.turns && y.slots == w.slots - {task} && y.attempts == w.attempts;
    forall l {:trigger Balanced(f, base, y.turns, y.slots, y.ledgers, l)} | l in f.infos
      ensures Balanced(f, base, y.turns, y.slots, y.ledgers, l)
    {
      assert Balanced(f, base, w.turns, w.slots, w.ledgers, l);
      FreeBalances(f, base, w, task, l);
    }
    TurnsFramed(f, w, y);
  }

  lemma {:induction false} RetryTaskAccounted(f: Fixed, base: map<nat, Ledger>, w: World, task: nat, why: RetryClass,
                                              endRun: bool)
    requires BudgetKept(f, base, w) && task in f.tasks && LedgersAllow(f, w, task, Retry(why))
    ensures BudgetKept(f, base, RetryTask(f, w, task, why, endRun))
  {
    var y := RetryTask(f, w, task, why, endRun);
    assert y.turns == w.turns && y.slots == w.slots && y.attempts == w.attempts;
    forall l {:trigger Balanced(f, base, y.turns, y.slots, y.ledgers, l)} | l in f.infos
      ensures Balanced(f, base, y.turns, y.slots, y.ledgers, l)
    {
      assert Balanced(f, base, w.turns, w.slots, w.ledgers, l);
      RetryBalances(f, base, w, task, why, l);
    }
    TurnsFramed(f, w, y);
  }

  lemma {:induction false} RenewKept(f: Fixed, base: map<nat, Ledger>, w: World, task: nat, a: nat, lease: Lease)
    requires BudgetKept(f, base, w) && task in f.tasks && a < |w.attempts|
    ensures BudgetKept(f, base, Renew(w, a, lease))
    ensures BudgetKept(f, base, Resume(AdvanceRun(Renew(w, a, lease), f.tasks[task].run), task))
  {
    var renewed := Renew(w, a, lease);
    FrameKept(f, base, w, renewed);
    FrameKept(f, base, renewed, Resume(AdvanceRun(renewed, f.tasks[task].run), task));
  }

  lemma {:induction false} ClaimExpiredAccounted(f: Fixed, base: map<nat, Ledger>, w: World, task: nat, a: nat,
                                                 lease: Lease)
    requires BudgetKept(f, base, w) && task in f.tasks && a < |w.attempts|
    ensures var r := ClaimExpired(f, w, task, a, lease); r.Some? ==> BudgetKept(f, base, r.value)
  {
    if ClaimExpired(f, w, task, a, lease).Some? {
      RenewKept(f, base, w, task, a, lease);
      if DispatchedLeft(w, a) {
        UnknownKept(f, base, Renew(w, a, lease), HeldTurn(w, a, Dispatched, 0).value);
      }
    }
  }

  lemma {:induction false} ClaimActiveAccounted(f: Fixed, base: map<nat, Ledger>, w: World, task: nat, a: nat,
                                                now: int, lease: Lease)
    requires BudgetKept(f, base, w) && task in f.tasks && a < |w.attempts|
    ensures var r := ClaimActive(f, w, task, a, now, lease); r.Some? ==> BudgetKept(f, base, r.value)
  {
    ClaimExpiredAccounted(f, base, w, task, a, NextLease(w, a, lease));
  }

  lemma {:induction false} ClaimTaskAccounted(f: Fixed, base: map<nat, Ledger>, w: World, task: nat, now: int,
                                              lease: Lease)
    requires BudgetKept(f, base, w) && task in f.tasks
    ensures ClaimTask(f, w, task, now, lease).Some? ==> BudgetKept(f, base, ClaimTask(f, w, task, now, lease).value)
  {
    var active := LastActive(w, task, |w.attempts|);
    if active.Some? {
      ClaimActiveAccounted(f, base, w, task, active.value, now, lease);
    }
    if NewAttemptAllowed(f, w, task) {
      NewAttemptAccounted(f, base, w, task, lease);
    }
  }

  lemma {:induction false} FailTaskAccounted(f: Fixed, base: map<nat, Ledger>, w: World, a: nat, task: nat,
                                             retry: RetryClass)
    requires BudgetKept(f, base, w) && task in f.tasks && task in w.slots
    ensures FailTask(f, w, a, task, retry).Some? ==> BudgetKept(f, base, FailTask(f, w, a, task, retry).value)
  {
    FrameKept(f, base, w, FailedAttempt(w, a));
    if RetryGranted(f, w, task, retry) {
      RetryTaskAccounted(f, base, FailedAttempt(w, a), task, retry, LastOfRun(f, w, task));
    } else if LedgersAllow(f, w, task, FreeSlot) {
      FrameKept(f, base, FailedAttempt(w, a), FailedTask(w, a, task, FailState(retry)));
      EndTaskAccounted(f, base, FailedTask(w, a, task, FailState(retry)), task, FailState(retry),
                       LastOfRun(f, w, task));
    }
  }

  lemma {:induction false} CommitTaskAccounted(f: Fixed, base: map<nat, Ledger>, w: World, a: nat, task: nat)
    requires BudgetKept(f, base, w) && task in f.tasks && task in w.slots && LedgersAllow(f, w, task, FreeSlot)
    ensures BudgetKept(f, base, CommitTask(f, w, a, task))
  {
    FrameKept(f, base, w, Committed(w, a, task));
    EndTaskAccounted(f, base, Committed(w, a, task), task, Succeeded, f.tasks[task].root);
  }

  lemma {:induction false} ClaimAccounted(f: Fixed, base: map<nat, Ledger>, w: World, c: Command, now: int)
    requires BudgetKept(f, base, w) && c.Claim?
    ensures TryClaim(f, w, c, now).Some? ==> BudgetKept(f, base, TryClaim(f, w, c, now).value)
  {
    if ClaimFenced(f, w, c, now) {
      ClaimTaskAccounted(f, base, w, c.task, now, FirstLease(f, c, now));
    }
  }

  lemma {:induction false} FailAccounted(f: Fixed, base: map<nat, Ledger>, w: World, c: Command, now: int)
    requires BudgetKept(f, base, w) && c.Fail? && c.fence.attempt < |w.attempts|
    ensures TryFail(f, w, c, now).Some? ==> BudgetKept(f, base, TryFail(f, w, c, now).value)
  {
    if FailAllowed(f, w, c.fence, now) {
      FailTaskAccounted(f, base, w, c.fence.attempt, w.attempts[c.fence.attempt].task, c.retry);
    }
  }

  lemma {:induction false} CommitAccounted(f: Fixed, base: map<nat, Ledger>, w: World, c: Command, now: int)
    requires BudgetKept(f, base, w) && c.Commit? && c.fence.attempt < |w.attempts|
    ensures TryCommit(f, w, c, now).Some? ==> BudgetKept(f, base, TryCommit(f, w, c, now).value)
  {
    if CommitAllowed(f, w, c.fence, now) {
      CommitTaskAccounted(f, base, w, c.fence.attempt, w.attempts[c.fence.attempt].task);
    }
  }

  lemma {:induction false} TurnCommandKept(f: Fixed, base: map<nat, Ledger>, w: World, c: Command, now: int)
    requires BudgetKept(f, base, w) && !c.Claim? && c.fence.attempt < |w.attempts|
    ensures c.Start? && TryStart(f, w, c, now).Some? ==> BudgetKept(f, base, TryStart(f, w, c, now).value)
    ensures c.Dispatch? && TryDispatch(f, w, c, now).Some? ==> BudgetKept(f, base, TryDispatch(f, w, c, now).value)
    ensures c.MarkUnknown? && TryMarkUnknown(f, w, c, now).Some? ==>
      BudgetKept(f, base, TryMarkUnknown(f, w, c, now).value)
    ensures c.Resolve? && TryResolve(f, w, c, now).Some? ==> BudgetKept(f, base, TryResolve(f, w, c, now).value)
  {
    var a := c.fence.attempt;
    var task := w.attempts[a].task;
    if c.Start? {
      FrameKept(f, base, w, Move(w, AttemptK, a, Executing));
    } else if c.Dispatch? && DispatchAllowed(f, w, c, now) {
      NewTurnAccounted(f, base, w, a, task, c.reservation);
    } else if c.MarkUnknown? && TryMarkUnknown(f, w, c, now).Some? {
      UnknownKept(f, base, w, c.turn);
    } else if c.Resolve? && ResolveAllowed(f, w, c, now) {
      assert TurnKept(f, w, c.turn);
      SettledKept(f, base, w, task, c.turn, c.outcome);
    }
  }

  /** Over every interleaving, each ledger's books stay balanced and funded. */
  lemma {:induction false} StepBudgetKept(f: Fixed, base: map<nat, Ledger>, w: World, c: Command, now: int,
                                          admitted: bool)
    requires BudgetKept(f, base, w)
    ensures BudgetKept(f, base, Step(f, w, c, now, admitted))
  {
    if c.Claim? {
      ClaimAccounted(f, base, w, c, now);
    } else if c.fence.attempt < |w.attempts| {
      if c.Commit? {
        CommitAccounted(f, base, w, c, now);
      } else if c.Fail? {
        FailAccounted(f, base, w, c, now);
      } else {
        TurnCommandKept(f, base, w, c, now);
      }
    }
  }
}
