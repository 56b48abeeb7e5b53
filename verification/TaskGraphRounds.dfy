// Running a task graph level by level: in each round one call of the reconciler, and
// then every task whose upstream tasks have ended.
module TaskGraphRounds {
  import opened Collections
  import opened TaskGraphDepth
  import opened TaskGraphRun
  import opened TaskGraphStops

  /** From x to y every task ended whose upstream tasks had ended in x, or the Run did. */
  ghost predicate Round<T(!new)>(r: Rules<T>, x: Exec<T>, y: Exec<T>)
    requires r.Valid()
  {
    && x.status.Keys == r.graph.nodes && y.status.Keys == r.graph.nodes
    && (exists actions :: Reaches(r, x, actions, y))
    && (y.Live() ==> forall t {:trigger EndsWhenDue(r, x, y, t)} :: t in r.graph.nodes ==> EndsWhenDue(r, x, y, t))
  }

  ghost predicate EndsWhenDue<T(!new)>(r: Rules<T>, x: Exec<T>, y: Exec<T>, t: T)
    requires r.Valid() && t in r.graph.nodes
  {
    r.graph.up[t] <= Done(x) ==> t in Done(y)
  }

  /** While the Run is open no task runs ahead of its round. */
  ghost predicate InStep<T(!new)>(r: Rules<T>, x: Exec<T>, y: Exec<T>)
    requires r.Valid()
  {
    y.Live() ==> forall t {:trigger NotAhead(r, x, y, t)} :: t in r.graph.nodes ==> NotAhead(r, x, y, t)
  }

  ghost predicate NotAhead<T(!new)>(r: Rules<T>, x: Exec<T>, y: Exec<T>, t: T)
    requires r.Valid() && t in r.graph.nodes
  {
    t in Done(y) && t !in Done(x) ==> r.graph.up[t] <= Done(x)
  }

  ghost predicate DepthsExact<T(!new)>(r: Rules<T>)
    requires r.Valid()
  {
    forall t {:trigger DepthExact(r, t)} :: t in r.graph.nodes ==> DepthExact(r, t)
  }

  ghost predicate DepthExact<T(!new)>(r: Rules<T>, t: T)
    requires r.Valid() && t in r.graph.nodes
  {
    r.depth[t] > 1 ==> exists u :: u in r.graph.up[t] && r.depth[u] == r.depth[t] - 1
  }

  /** A run told round by round, in step. */
  ghost predicate InRounds<T(!new)>(r: Rules<T>, states: seq<Exec<T>>)
    requires r.Valid()
  {
    && states != [] && states[0] == Initial(r)
    && forall i {:trigger states[i]} :: 0 < i < |states| ==>
         Round(r, states[i - 1], states[i]) && InStep(r, states[i - 1], states[i])
  }

  // ----- rounds bound the run -----

  /** Once the Run has ended nothing happens any more. */
  lemma {:induction false} WasLive<T(!new)>(r: Rules<T>, x: Exec<T>, y: Exec<T>)
    requires r.Valid() && Round(r, x, y) && y.Live()
    ensures x.Live()
  {
    var actions :| Reaches(r, x, actions, y);
    if actions != [] {
      assert Enabled(r, x, actions[0]);
    }
  }

  /** After k rounds every task of depth k or less has ended, or the Run has. */
  lemma {:induction false} RoundsFinish<T(!new)>(r: Rules<T>, states: seq<Exec<T>>, k: nat, t: T)
    requires r.Valid() && k < |states| && states[k].Live()
    requires forall i {:trigger states[i]} :: 0 < i < |states| ==> Round(r, states[i - 1], states[i])
    requires t in r.graph.nodes && r.depth[t] <= k
    ensures t in Done(states[k])
  {
    assert r.Sound(t) && k >= 1;
    assert Round(r, states[k - 1], states[k]);
    WasLive(r, states[k - 1], states[k]);
    forall u | u in r.graph.up[t]
      ensures u in Done(states[k - 1])
    {
      RoundsFinish(r, states, k - 1, u);
    }
    assert EndsWhenDue(r, states[k - 1], states[k], t);
  }

  lemma {:induction false} AllRoundsFinish<T(!new)>(r: Rules<T>, states: seq<Exec<T>>, k: nat)
    requires r.Valid() && 1 <= k < |states| && forall t :: t in r.graph.nodes ==> r.depth[t] <= k
    requires forall i {:trigger states[i]} :: 0 < i < |states| ==> Round(r, states[i - 1], states[i])
    ensures states[k].Live() ==> Done(states[k]) == r.graph.nodes
  {
    assert Round(r, states[k - 1], states[k]);
    if states[k].Live() {
      forall t | t in r.graph.nodes
        ensures t in Done(states[k])
      {
        RoundsFinish(r, states, k, t);
      }
    }
  }

  /** In step and while the Run is open, exactly the tasks of depth k or less have ended
      after k rounds: the longest path is the number of rounds a run takes. */
  lemma {:induction false} RoundsExact<T(!new)>(r: Rules<T>, states: seq<Exec<T>>, k: nat, t: T)
    requires r.Valid() && DepthsExact(r) && InRounds(r, states) && k < |states| && states[k].Live()
    requires t in r.graph.nodes
    ensures t in Done(states[k]) <==> r.depth[t] <= k
  {
    assert DepthExact(r, t) && r.Sound(t);
    if r.depth[t] <= k {
      RoundsFinish(r, states, k, t);
    } else if k > 0 {
      assert Round(r, states[k - 1], states[k]) && InStep(r, states[k - 1], states[k]);
      WasLive(r, states[k - 1], states[k]);
      RoundsExact(r, states, k - 1, t);
      assert NotAhead(r, states[k - 1], states[k], t);
      var u :| u in r.graph.up[t] && r.depth[u] == r.depth[t] - 1;
      RoundsExact(r, states, k - 1, u);
    }
  }

  // ----- rounds exist -----

  /** A state with no attempt under way. */
  ghost predicate Between<T(!new)>(r: Rules<T>, x: Exec<T>)
    requires r.Valid()
  {
    Kept(r, x) && InFlight(x) == {}
  }

  lemma {:induction false} StartTask<T(!new)>(r: Rules<T>, x: Exec<T>, t: T)
    requires r.Valid() && Between(r, x) && x.Live() && t in r.offered && x.status[t] == Ready
    ensures Enabled(r, x, Claim(t))
    ensures var z := Apply(r, x, Claim(t));
      Kept(r, z) && z.Live() && InFlight(z) == {t} && Done(z) == Done(x) && Won(z) == Won(x)
  {
    ReadyIsClaimable(r, x, t);
    StepKept(r, x, Claim(t));
    SetStatus(x, t, Running, Apply(r, x, Claim(t)));
  }

  lemma {:induction false} EndTask<T(!new)>(r: Rules<T>, z: Exec<T>, t: T, ok: bool)
    requires r.Valid() && Kept(r, z) && z.Live() && InFlight(z) == {t}
    ensures Enabled(r, z, Finish(t, ok))
    ensures var y := Apply(r, z, Finish(t, ok));
      Between(r, y) && y.Live() && Done(y) == Done(z) + {t} && Won(y) == (if ok then Won(z) + {t} else Won(z) - {t})
  {
    assert t in InFlight(z);
    StepKept(r, z, Finish(t, ok));
    SetStatus(z, t, if ok then Succeeded else Failed, Apply(r, z, Finish(t, ok)));
  }

  lemma {:induction false} AttemptTask<T(!new)>(r: Rules<T>, x: Exec<T>, t: T, ok: bool)
      returns (actions: seq<Action<T>>, y: Exec<T>)
    requires r.Valid() && Between(r, x) && x.Live() && t in r.offered && x.status[t] == Ready
    ensures Reaches(r, x, actions, y) && Between(r, y) && y.Live()
    ensures y.status == x.status[t := if ok then Succeeded else Failed]
    ensures Done(y) == Done(x) + {t} && Won(y) == Won(x) + if ok then {t} else {}
  {
    StartTask(r, x, t);
    var z := Apply(r, x, Claim(t));
    EndTask(r, z, t, ok);
    y := Apply(r, z, Finish(t, ok));
    OneStep(r, x, Claim(t));
    OneStep(r, z, Finish(t, ok));
    ReachesConcat(r, x, [Claim(t)], z, [Finish(t, ok)], y);
    actions := [Claim(t)] + [Finish(t, ok)];
    SetTwice(x.status, t, Running, if ok then Succeeded else Failed);
    assert t !in Won(x);
  }

  lemma {:induction false} SetTwice<K, V>(m: map<K, V>, k: K, v: V, w: V)
    ensures m[k := v][k := w] == m[k := w]
  {
  }

  lemma {:induction false} OneMore<T>(a: set<T>, todo: set<T>, wins: set<T>, t: T)
    requires t in todo
    ensures a + (if t in wins then {t} else {}) + (todo - {t}) * wins == a + todo * wins
    ensures a + {t} + (todo - {t}) == a + todo
  {
  }

  /** Ready tasks are run one after the other, with any outcomes. */
  lemma {:induction false} AttemptTasks<T(!new)>(r: Rules<T>, x: Exec<T>, todo: set<T>, wins: set<T>)
      returns (actions: seq<Action<T>>, y: Exec<T>)
    requires r.Valid() && Between(r, x) && x.Live() && todo <= r.offered
    requires forall t :: t in todo ==> x.status[t] == Ready
    ensures Reaches(r, x, actions, y) && Between(r, y) && y.Live()
    ensures Done(y) == Done(x) + todo && Won(y) == Won(x) + todo * wins
    decreases todo
  {
    if todo == {} {
      actions, y := [], x;
    } else {
      var t :| t in todo;
      var first, z := AttemptTask(r, x, t, t in wins);
      var rest;
      rest, y := AttemptTasks(r, z, todo - {t}, wins);
      ReachesConcat(r, x, first, z, rest, y);
      OneMore(Done(x), todo, todo, t);
      OneMore(Won(x), todo, wins, t);
      actions := first + rest;
    }
  }

  ghost function Due<T(!new)>(r: Rules<T>, x: Exec<T>): set<T>
    requires r.Valid()
  {
    set t | t in r.graph.nodes && t !in Done(x) && r.graph.up[t] <= Done(x)
  }

  /** The next call of the reconciler looks at every Join that is due, and workers are
      told about every task that is due. */
  ghost predicate InReach<T(!new)>(r: Rules<T>, x: Exec<T>)
    requires r.Valid()
  {
    Due(r, x) <= r.offered && forall t :: t in Due(r, x) && x.Has(t, Blocked) ==> t in Batch(r, x)
  }

  /** The Run goes on: no Desk has succeeded and every Join that is due passes. */
  ghost predicate GoesOn<T(!new)>(r: Rules<T>, x: Exec<T>)
    requires r.Valid()
  {
    !DeskWon(r, x) && forall t {:trigger Enough(r, x, t)} :: t in Due(r, x) ==> Enough(r, x, t)
  }

  /** One call of the reconciler, if it can change something. */
  lemma {:induction false} CallReconciler<T(!new)>(r: Rules<T>, x: Exec<T>)
      returns (actions: seq<Action<T>>, z: Exec<T>)
    requires r.Valid() && Between(r, x) && x.Live() && InReach(r, x)
    ensures Reaches(r, x, actions, z) && Between(r, z) && (z.Live() <==> GoesOn(r, x))
    ensures z.Live() ==> Done(z) == Done(x) && Won(z) == Won(x) && forall t :: t in Due(r, x) ==> z.status[t] == Ready
  {
    ReconcileOutcome(r, x);
    ReconciledGrows(r, x);
    DueSettles(r, x);
    if CanReconcile(r, x) {
      actions, z := [Reconcile], Reconciled(r, x);
      ReconciledKept(r, x);
      OneStep(r, x, Reconcile);
    } else {
      actions, z := [], x;
    }
  }

  /** A due task is ready, or its Join is settled by the next call. */
  lemma {:induction false} DueSettles<T(!new)>(r: Rules<T>, x: Exec<T>)
    requires r.Valid() && Between(r, x) && x.Live() && InReach(r, x)
    ensures forall t :: t in Due(r, x) ==>
      if x.status[t] == Blocked then Settling(r, x, t) else x.status[t] == Ready && Enough(r, x, t)
    ensures forall t :: Settling(r, x, t) ==> t in Due(r, x)
  {
    forall t | t in Due(r, x)
      ensures if x.status[t] == Blocked then Settling(r, x, t) else x.status[t] == Ready && Enough(r, x, t)
    {
      assert TaskKept(r, x, t) && t !in InFlight(x);
    }
  }

  /** From every state with an open Run and no attempt under way a round is possible with
      any outcomes. The Run is open behind it exactly when it goes on, and then exactly
      the due tasks have ended, with these outcomes. */
  lemma {:induction false} RoundExists<T(!new)>(r: Rules<T>, x: Exec<T>, wins: set<T>) returns (y: Exec<T>)
    requires r.Valid() && Between(r, x) && x.Live() && InReach(r, x)
    ensures Between(r, y) && Round(r, x, y) && InStep(r, x, y) && (y.Live() <==> GoesOn(r, x))
    ensures y.Live() ==> Done(y) == Done(x) + Due(r, x) && Won(y) == Won(x) + Due(r, x) * wins
  {
    var call, z := CallReconciler(r, x);
    if !z.Live() {
      y := z;
    } else {
      var attempts;
      attempts, y := AttemptTasks(r, z, Due(r, x), wins);
      ReachesConcat(r, x, call, z, attempts, y);
      forall t {:trigger EndsWhenDue(r, x, y, t)} | t in r.graph.nodes
        ensures EndsWhenDue(r, x, y, t)
      {
      }
      forall t {:trigger NotAhead(r, x, y, t)} | t in r.graph.nodes
        ensures NotAhead(r, x, y, t)
      {
      }
    }
  }

  // ----- whole runs, level by level -----

  ghost predicate AllOffered<T(!new)>(r: Rules<T>)
    requires r.Valid()
  {
    r.offered == r.graph.nodes && EveryInputJoined(r)
  }

  /** With these outcomes the Run is open after k rounds: no Desk of a lower level
      succeeded, and every Join up to level k was satisfied. */
  ghost predicate LevelsPass<T(!new)>(r: Rules<T>, wins: set<T>, k: nat)
    requires r.Valid()
  {
    && (forall t :: t in r.desks && t in wins ==> r.depth[t] >= k)
    && (forall t :: t in r.graph.nodes && r.depth[t] <= k ==> |r.graph.up[t] * wins| >= r.needs[t])
  }

  ghost function Levels<T(!new)>(r: Rules<T>, k: int): set<T>
    requires r.Valid()
  {
    set t | t in r.graph.nodes && r.depth[t] <= k
  }

  lemma {:induction false} NextLevel<T(!new)>(r: Rules<T>, x: Exec<T>, k: nat)
    requires r.Valid() && DepthsExact(r) && Done(x) == Levels(r, k)
    ensures Done(x) + Due(r, x) == Levels(r, k + 1) && Due(r, x) == Levels(r, k + 1) - Levels(r, k)
  {
    forall t | t in r.graph.nodes
      ensures r.graph.up[t] <= Done(x) <==> r.depth[t] <= k + 1
    {
      assert r.Sound(t) && DepthExact(r, t);
      if r.depth[t] > k + 1 {
        var u :| u in r.graph.up[t] && r.depth[u] == r.depth[t] - 1;
        assert u !in Done(x);
      }
    }
  }

  /** The state of an open run behind level k. */
  ghost predicate AtLevel<T(!new)>(r: Rules<T>, x: Exec<T>, wins: set<T>, k: nat)
    requires r.Valid()
  {
    DepthsExact(r) && Done(x) == Levels(r, k) && Won(x) == Done(x) * wins && LevelsPass(r, wins, k)
  }

  lemma {:induction false} LevelEnough<T(!new)>(r: Rules<T>, x: Exec<T>, wins: set<T>, k: nat, t: T)
    requires r.Valid() && AtLevel(r, x, wins, k) && t in Due(r, x)
    ensures Enough(r, x, t) <==> |r.graph.up[t] * wins| >= r.needs[t]
  {
    assert r.graph.up[t] * Won(x) == r.graph.up[t] * wins;
  }

  lemma {:induction false} LevelOpens<T(!new)>(r: Rules<T>, x: Exec<T>, wins: set<T>, k: nat)
    requires r.Valid() && AtLevel(r, x, wins, k) && LevelsPass(r, wins, k + 1)
    ensures GoesOn(r, x)
  {
    NextLevel(r, x, k);
    forall t {:trigger Enough(r, x, t)} | t in Due(r, x)
      ensures Enough(r, x, t)
    {
      assert t in Levels(r, k + 1);
      LevelEnough(r, x, wins, k, t);
    }
    forall t | t in r.desks
      ensures t !in Won(x)
    {
      assert t in Done(x) ==> r.depth[t] <= k;
    }
  }

  lemma {:induction false} LevelWasOpen<T(!new)>(r: Rules<T>, x: Exec<T>, wins: set<T>, k: nat)
    requires r.Valid() && AtLevel(r, x, wins, k) && GoesOn(r, x)
    ensures LevelsPass(r, wins, k + 1)
  {
    NextLevel(r, x, k);
    forall t | t in r.graph.nodes && r.depth[t] <= k + 1
      ensures |r.graph.up[t] * wins| >= r.needs[t]
    {
      if r.depth[t] > k {
        assert t in Levels(r, k + 1) && t !in Levels(r, k);
        LevelEnough(r, x, wins, k, t);
      }
    }
    forall t | t in r.desks && t in wins
      ensures r.depth[t] >= k + 1
    {
      assert r.depth[t] <= k ==> t in Done(x);
    }
  }

  lemma {:induction false} LevelInReach<T(!new)>(r: Rules<T>, x: Exec<T>)
    requires r.Valid() && AllOffered(r) && |r.joins| <= BATCH && Kept(r, x)
    ensures InReach(r, x)
  {
    forall t | t in Due(r, x) && x.Has(t, Blocked)
      ensures t in Batch(r, x)
    {
      assert TaskKept(r, x, t);
      AllInBatch(r.joins, Released(x), BATCH, t);
    }
  }

  lemma {:induction false} RoundsSnoc<T(!new)>(r: Rules<T>, states: seq<Exec<T>>, y: Exec<T>)
    requires r.Valid() && InRounds(r, states)
    requires Round(r, states[|states| - 1], y) && InStep(r, states[|states| - 1], y)
    ensures InRounds(r, states + [y])
  {
    var all := states + [y];
    forall i {:trigger all[i]} | 0 < i < |all|
      ensures Round(r, all[i - 1], all[i]) && InStep(r, all[i - 1], all[i])
    {
      if i < |states| {
        assert all[i - 1] == states[i - 1] && all[i] == states[i];
      }
    }
  }

  lemma {:induction false} StayingRound<T(!new)>(r: Rules<T>, x: Exec<T>)
    requires r.Valid() && x.status.Keys == r.graph.nodes && !x.Live()
    ensures Round(r, x, x) && InStep(r, x, x)
  {
    assert Reaches(r, x, [], x);
  }

  lemma {:induction false} InitialBetween<T(!new)>(r: Rules<T>)
    requires r.Valid()
    ensures Between(r, Initial(r)) && Initial(r).Live() && Done(Initial(r)) == {} && Won(Initial(r)) == {}
  {
    InitialKept(r);
  }

  /** For any outcomes there is a level-by-level run. It is open after k rounds exactly
      when no Desk of a lower level succeeded and every Join up to level k was satisfied,
      and then exactly the tasks of depth k or less have ended, with these outcomes. */
  lemma {:induction false} LevelRun<T(!new)>(r: Rules<T>, wins: set<T>, k: nat) returns (states: seq<Exec<T>>)
    requires r.Valid() && DepthsExact(r) && AllOffered(r) && |r.joins| <= 32
    ensures |states| == k + 1 && InRounds(r, states) && Between(r, states[k])
    ensures states[k].Live() <==> LevelsPass(r, wins, k)
    ensures states[k].Live() ==> Done(states[k]) == Levels(r, k) && Won(states[k]) == Done(states[k]) * wins
  {
    if k == 0 {
      InitialBetween(r);
      LevelZero(r, wins);
      states := [Initial(r)];
    } else {
      var before := LevelRun(r, wins, k - 1);
      var x, y := before[k - 1], before[k - 1];
      if x.Live() {
        LevelInReach(r, x);
        NextLevel(r, x, k - 1);
        y := RoundExists(r, x, wins);
        if GoesOn(r, x) {
          LevelWasOpen(r, x, wins, k - 1);
        } else if LevelsPass(r, wins, k) {
          LevelOpens(r, x, wins, k - 1);
        }
        WonOfDone(Done(x), Due(r, x), wins);
      } else {
        StayingRound(r, x);
      }
      RoundsSnoc(r, before, y);
      states := before + [y];
    }
  }

  lemma {:induction false} LevelZero<T(!new)>(r: Rules<T>, wins: set<T>)
    requires r.Valid()
    ensures LevelsPass(r, wins, 0) && Levels(r, 0) == {}
  {
    forall t | t in r.graph.nodes
      ensures r.depth[t] >= 1
    {
      assert r.Sound(t);
    }
  }

  lemma {:induction false} WonOfDone<T>(done: set<T>, due: set<T>, wins: set<T>)
    ensures done * wins + due * wins == (done + due) * wins
  {
  }

  // ----- runs in which every task ends -----

  /** With these outcomes every task gets the successes it waits for. */
  ghost predicate Supplies<T(!new)>(r: Rules<T>, wins: set<T>)
    requires r.Valid()
  {
    forall t :: t in r.graph.nodes ==> |r.graph.up[t] * wins| >= r.needs[t]
  }

  /** Every task has ended, with exactly these successes, before the Run did. */
  ghost predicate EndedWith<T(!new)>(r: Rules<T>, y: Exec<T>, wins: set<T>)
    requires r.Valid()
  {
    y.Live() && Done(y) == r.graph.nodes && Won(y) == wins
  }

  lemma {:induction false} RoundActions<T(!new)>(r: Rules<T>, x: Exec<T>, y: Exec<T>)
      returns (actions: seq<Action<T>>)
    requires r.Valid() && Round(r, x, y)
    ensures x.status.Keys == r.graph.nodes && y.status.Keys == r.graph.nodes && Reaches(r, x, actions, y)
  {
    hide Reaches, EndsWhenDue;
    actions :| Reaches(r, x, actions, y);
  }

  lemma {:induction false} RoundsReach<T(!new)>(r: Rules<T>, states: seq<Exec<T>>, k: nat)
      returns (actions: seq<Action<T>>)
    requires r.Valid() && InRounds(r, states) && k < |states|
    ensures states[k].status.Keys == r.graph.nodes && Reaches(r, Initial(r), actions, states[k])
  {
    hide Round, InStep, Enabled, Apply;
    if k == 0 {
      actions := [];
    } else {
      var before := RoundsReach(r, states, k - 1);
      assert Round(r, states[k - 1], states[k]);
      var last := RoundActions(r, states[k - 1], states[k]);
      ReachesConcat(r, Initial(r), before, states[k - 1], last, states[k]);
      actions := before + last;
    }
  }

  lemma {:induction false} EndedWell<T(!new)>(r: Rules<T>, actions: seq<Action<T>>, y: Exec<T>, wins: set<T>)
    requires r.Valid() && Reaches(r, Initial(r), actions, y) && EndedWith(r, y, wins)
    ensures AllOffered(r) && wins <= r.graph.nodes && Supplies(r, wins)
  {
    hide Reaches, Initial, Kept;
    InitialKept(r);
    RunKept(r, Initial(r), actions, y);
    EndedTasks(r, y, wins);
  }

  lemma {:induction false} EndedTasks<T(!new)>(r: Rules<T>, y: Exec<T>, wins: set<T>)
    requires r.Valid() && Kept(r, y) && EndedWith(r, y, wins)
    ensures AllOffered(r) && wins <= r.graph.nodes && Supplies(r, wins)
  {
    DoneWasOffered(r, y);
    forall t | t in r.graph.nodes
      ensures |r.graph.up[t] * wins| >= r.needs[t] && (r.graph.up[t] != {} ==> t in r.joins)
    {
      assert t in Done(y);
      assert Supplied(r, y, t) && TaskKept(r, y, t);
    }
  }

  /** As many rounds as the deepest task is deep can end every task with exactly these
      successes, no Desk of a lower level among them, when these supply every task and
      every task is offered and released in its turn, and never otherwise. */
  lemma {:induction false} RoundsFinishIff<T(!new)>(r: Rules<T>, k: nat, wins: set<T>)
    requires r.Valid() && DepthsExact(r) && |r.joins| <= 32 && forall t :: t in r.graph.nodes ==> r.depth[t] <= k
    requires forall t :: t in r.desks && t in wins ==> r.depth[t] >= k
    ensures (exists states :: |states| == k + 1 && InRounds(r, states) && EndedWith(r, states[k], wins))
       <==> AllOffered(r) && wins <= r.graph.nodes && Supplies(r, wins)
  {
    if AllOffered(r) && wins <= r.graph.nodes && Supplies(r, wins) {
      var states := RoundsEndWell(r, k, wins);
    }
    if states :| |states| == k + 1 && InRounds(r, states) && EndedWith(r, states[k], wins) {
      var actions := RoundsReach(r, states, k);
      EndedWell(r, actions, states[k], wins);
    }
  }

  lemma {:induction false} RoundsEndWell<T(!new)>(r: Rules<T>, k: nat, wins: set<T>) returns (states: seq<Exec<T>>)
    requires r.Valid() && DepthsExact(r) && |r.joins| <= 32 && forall t :: t in r.graph.nodes ==> r.depth[t] <= k
    requires forall t :: t in r.desks && t in wins ==> r.depth[t] >= k
    requires AllOffered(r) && wins <= r.graph.nodes && Supplies(r, wins)
    ensures |states| == k + 1 && InRounds(r, states) && EndedWith(r, states[k], wins)
  {
    states := LevelRun(r, wins, k);
    assert LevelsPass(r, wins, k);
    assert Levels(r, k) == r.graph.nodes;
  }

  /** When every task has ended the next call promotes an answer, if a Desk succeeded. */
  lemma {:induction false} LastCall<T(!new)>(r: Rules<T>, y: Exec<T>, wins: set<T>)
    requires r.Valid() && Kept(r, y) && EndedWith(r, y, wins)
    ensures if r.desks * wins != {} then Enabled(r, y, Reconcile) && Apply(r, y, Reconcile) == Exec(y.status, Answered)
            else Stuck(r, y)
  {
    AllEnded(r, y);
    if t :| t in r.desks * wins {
      assert t in r.desks && t in Won(y);
      ReconcileOutcome(r, y);
    } else {
      NoDeskWon(r, y);
    }
  }

  lemma {:induction false} NoDeskWon<T(!new)>(r: Rules<T>, y: Exec<T>)
    requires r.desks * Won(y) == {}
    ensures !DeskWon(r, y)
  {
    forall t | t in r.desks
      ensures t !in Won(y)
    {
      assert t !in r.desks * Won(y);
    }
  }

  lemma {:induction false} AllEnded<T(!new)>(r: Rules<T>, y: Exec<T>)
    requires r.Valid() && Kept(r, y) && y.Live() && Done(y) == r.graph.nodes
    ensures forall a {:trigger Enabled(r, y, a)} :: Enabled(r, y, a) ==> a == Reconcile && DeskWon(r, y)
    ensures forall t :: !Settling(r, y, t)
  {
    forall t | t in r.graph.nodes
      ensures y.status[t] in {Succeeded, Failed}
    {
      assert t in Done(y);
    }
  }
}
