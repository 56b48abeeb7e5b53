// Running an admitted task graph: claim, finish, and the reconciler that resolves
// Joins and promotes the answer of a Decision Desk
// (agent-platform/migrations/0006, 0008, 0065, 0071, 0074 and 0077).
module TaskGraphRun {
  import opened Collections
  import opened TaskGraphDepth

  /** Failed stands for every terminal state other than succeeded. */
  datatype Status = Blocked | Ready | Running | Succeeded | Failed

  /** How many unresolved Joins one call of the reconciler looks at. */
  const BATCH := 32

  /** What a plan fixes for its run. needs[t] is the number of upstream successes t
      waits for, strict the tasks whose dependencies must all succeed, slots the
      parallelism. joins lists the tasks with a Join in the order of the plan, desks
      are the Decision Desks, offered the tasks that workers are told about when they
      are ready. */
  datatype Rules<T> = Rules(graph: Graph<T>, depth: map<T, int>, needs: map<T, nat>, strict: set<T>, slots: nat,
                            joins: seq<T>, desks: set<T>, offered: set<T>)
  {
    ghost predicate Valid() {
      && graph.Valid() && depth.Keys == graph.nodes && needs.Keys == graph.nodes && slots >= 1
      && (forall t {:trigger Sound(t)} :: t in graph.nodes ==> Sound(t))
      && (forall t :: t in joins ==> t in graph.nodes && graph.up[t] != {})
      && desks <= graph.nodes && offered <= graph.nodes
    }

    ghost predicate Sound(t: T)
      requires t in graph.nodes && graph.Valid() && depth.Keys == graph.nodes && needs.Keys == graph.nodes
    {
      && depth[t] >= 1 && needs[t] <= |graph.up[t]| && (t in strict ==> needs[t] == |graph.up[t]|)
      && (forall u :: u in graph.up[t] ==> depth[u] < depth[t])
    }
  }

  /** A Run is open until a Desk's answer is promoted or a Join fails. */
  datatype End = Open | Answered | DeadLettered

  datatype Exec<T> = Exec(status: map<T, Status>, end: End) {
    predicate Live() {
      end == Open
    }

    predicate Has(t: T, s: Status) {
      t in status && status[t] == s
    }
  }

  datatype Action<T> = Claim(task: T) | Finish(task: T, ok: bool) | Reconcile

  ghost function Won<T(!new)>(x: Exec<T>): set<T> {
    set t | t in x.status && x.status[t] == Succeeded
  }

  ghost function Done<T(!new)>(x: Exec<T>): set<T> {
    set t | t in x.status && x.status[t] in {Succeeded, Failed}
  }

  ghost function InFlight<T(!new)>(x: Exec<T>): set<T> {
    set t | t in x.status && x.status[t] == Running
  }

  ghost function Released<T(!new)>(x: Exec<T>): set<T> {
    set t | t in x.status && x.status[t] != Blocked
  }

  ghost function Started<T(!new)>(x: Exec<T>): set<T> {
    set t | t in x.status && x.status[t] in {Running, Succeeded, Failed}
  }

  ghost function Initial<T(!new)>(r: Rules<T>): Exec<T>
    requires r.Valid()
  {
    Exec(map t | t in r.graph.nodes :: if r.graph.up[t] == {} then Ready else Blocked, Open)
  }

  ghost predicate Enough<T(!new)>(r: Rules<T>, x: Exec<T>, t: T)
    requires r.Valid() && t in r.graph.nodes
  {
    |r.graph.up[t] * Won(x)| >= r.needs[t]
  }

  // ----- the reconciler -----

  /** The first n tasks of the list that are not in released. */
  ghost function FirstFree<T(!new)>(joins: seq<T>, released: set<T>, n: nat): (batch: seq<T>)
    ensures forall t :: t in batch ==> t in joins && t !in released
  {
    if joins == [] || n == 0 then []
    else if joins[0] in released then FirstFree(joins[1..], released, n)
    else [joins[0]] + FirstFree(joins[1..], released, n - 1)
  }

  ghost function Batch<T(!new)>(r: Rules<T>, x: Exec<T>): seq<T> {
    FirstFree(r.joins, Released(x), BATCH)
  }

  /** The Join waits, and its upstream tasks have all ended. */
  ghost predicate Resolvable<T(!new)>(r: Rules<T>, x: Exec<T>, t: T)
    requires r.Valid()
  {
    t in r.graph.nodes && x.Live() && x.Has(t, Blocked) && r.graph.up[t] <= Done(x)
  }

  /** A Join releases its task when enough upstream tasks succeeded, and otherwise
      ends the Run. */
  ghost function ResolveOne<T(!new)>(r: Rules<T>, x: Exec<T>, t: T): Exec<T>
    requires r.Valid()
  {
    if !Resolvable(r, x, t) then x
    else if Enough(r, x, t) then Exec(x.status[t := Ready], x.end)
    else Exec(x.status[t := Failed], DeadLettered)
  }

  ghost function ResolveAll<T(!new)>(r: Rules<T>, x: Exec<T>, batch: seq<T>): Exec<T>
    requires r.Valid()
    decreases |batch|
  {
    if batch == [] then x else ResolveAll(r, ResolveOne(r, x, batch[0]), batch[1..])
  }

  ghost predicate DeskWon<T(!new)>(r: Rules<T>, x: Exec<T>) {
    exists t :: t in r.desks && t in Won(x)
  }

  /** One call: the Joins of the batch, and then the answer of a Desk. */
  ghost function Reconciled<T(!new)>(r: Rules<T>, x: Exec<T>): Exec<T>
    requires r.Valid()
  {
    var y := ResolveAll(r, x, Batch(r, x));
    if y.Live() && DeskWon(r, y) then Exec(y.status, Answered) else y
  }

  /** The call changes something. */
  ghost predicate CanReconcile<T(!new)>(r: Rules<T>, x: Exec<T>)
    requires r.Valid()
  {
    x.Live() && (DeskWon(r, x) || exists t :: t in Batch(r, x) && Resolvable(r, x, t))
  }

  // ----- actions -----

  ghost predicate Enabled<T(!new)>(r: Rules<T>, x: Exec<T>, a: Action<T>)
    requires r.Valid() && x.status.Keys == r.graph.nodes
  {
    match a
    case Claim(t) =>
      && x.Live() && x.Has(t, Ready) && t in r.offered && |InFlight(x)| < r.slots
      && (if t in r.strict then r.graph.up[t] <= Won(x) else r.graph.up[t] <= Done(x))
    case Finish(t, _) => x.Live() && x.Has(t, Running)
    case Reconcile => CanReconcile(r, x)
  }

  ghost function Apply<T(!new)>(r: Rules<T>, x: Exec<T>, a: Action<T>): (y: Exec<T>)
    requires r.Valid() && x.status.Keys == r.graph.nodes && Enabled(r, x, a)
    ensures y.status.Keys == r.graph.nodes
  {
    match a
    case Claim(t) => Exec(x.status[t := Running], x.end)
    case Finish(t, ok) => Exec(x.status[t := if ok then Succeeded else Failed], x.end)
    case Reconcile =>
      ResolveAllKeys(r, x, Batch(r, x));
      Reconciled(r, x)
  }

  lemma {:induction false} ResolveAllKeys<T(!new)>(r: Rules<T>, x: Exec<T>, batch: seq<T>)
    requires r.Valid()
    ensures ResolveAll(r, x, batch).status.Keys == x.status.Keys
    decreases |batch|
  {
    if batch != [] {
      ResolveAllKeys(r, ResolveOne(r, x, batch[0]), batch[1..]);
    }
  }

  /** y is where the actions lead from x, each enabled when it is taken. */
  ghost predicate Reaches<T(!new)>(r: Rules<T>, x: Exec<T>, actions: seq<Action<T>>, y: Exec<T>)
    requires r.Valid() && x.status.Keys == r.graph.nodes
    decreases |actions|
  {
    if actions == [] then x == y
    else Enabled(r, x, actions[0]) && Reaches(r, Apply(r, x, actions[0]), actions[1..], y)
  }

  // ----- what every run keeps -----

  ghost predicate TaskKept<T(!new)>(r: Rules<T>, x: Exec<T>, t: T)
    requires r.Valid() && x.status.Keys == r.graph.nodes && t in r.graph.nodes
  {
    && (x.status[t] == Blocked ==> r.graph.up[t] != {})
    && (x.status[t] != Blocked ==> r.graph.up[t] <= Done(x))
    && (x.status[t] in {Ready, Running, Succeeded} ==> Enough(r, x, t))
    && (x.status[t] in {Running, Succeeded} || (x.status[t] == Failed && Enough(r, x, t)) ==> t in r.offered)
    && (x.status[t] != Blocked && r.graph.up[t] != {} ==> t in r.joins)
  }

  /** A task is Blocked, or its upstream tasks supply the successes it needs. */
  ghost predicate Supplied<T(!new)>(r: Rules<T>, x: Exec<T>, t: T)
    requires r.Valid() && x.status.Keys == r.graph.nodes && t in r.graph.nodes
  {
    x.status[t] == Blocked || Enough(r, x, t)
  }

  ghost predicate Kept<T(!new)>(r: Rules<T>, x: Exec<T>)
    requires r.Valid()
  {
    && x.status.Keys == r.graph.nodes
    && (forall t {:trigger TaskKept(r, x, t)} :: t in r.graph.nodes ==> TaskKept(r, x, t))
    && (x.end != DeadLettered <==> forall t {:trigger Supplied(r, x, t)} :: t in r.graph.nodes ==> Supplied(r, x, t))
    && (x.end == Answered ==> DeskWon(r, x))
  }

  lemma {:induction false} InitialKept<T(!new)>(r: Rules<T>)
    requires r.Valid()
    ensures Kept(r, Initial(r))
  {
    var x := Initial(r);
    forall t {:trigger TaskKept(r, x, t)} {:trigger Supplied(r, x, t)} | t in r.graph.nodes
      ensures TaskKept(r, x, t) && Supplied(r, x, t)
    {
      if r.graph.up[t] == {} {
        assert r.Sound(t);
      }
    }
  }

  lemma {:induction false} SetStatus<T(!new)>(x: Exec<T>, t: T, s: Status, y: Exec<T>)
    requires t in x.status && y.status == x.status[t := s]
    ensures Won(y) == if s == Succeeded then Won(x) + {t} else Won(x) - {t}
    ensures Done(y) == if s in {Succeeded, Failed} then Done(x) + {t} else Done(x) - {t}
    ensures Released(y) == if s != Blocked then Released(x) + {t} else Released(x) - {t}
    ensures Started(y) == if s in {Running, Succeeded, Failed} then Started(x) + {t} else Started(x) - {t}
    ensures InFlight(y) == if s == Running then InFlight(x) + {t} else InFlight(x) - {t}
  {
  }

  /** Successes among tasks that have ended do not change. */
  lemma {:induction false} SameCount<T(!new)>(up: set<T>, done: set<T>, won: set<T>, won': set<T>, t: T)
    requires up <= done + {t} && t !in up && won <= won' <= won + {t}
    ensures up * won' == up * won
  {
  }

  /** y is x with one task moved on. */
  ghost predicate Moves<T(!new)>(r: Rules<T>, x: Exec<T>, t: T, s: Status, y: Exec<T>)
    requires r.Valid()
  {
    && t in r.graph.nodes && t in x.status && x.Live() && y.status == x.status[t := s] && s != Blocked
    && match x.status[t]
       case Blocked => s == Ready || s == Failed
       case Ready => s == Running
       case Running => s == Succeeded || s == Failed
       case _ => false
  }

  lemma {:induction false} MoveShape<T(!new)>(r: Rules<T>, x: Exec<T>, t: T, s: Status, y: Exec<T>)
    requires r.Valid() && Moves(r, x, t, s, y)
    ensures t !in Done(x) && Won(x) <= Won(y) <= Won(x) + {t} && Done(x) <= Done(y) <= Done(x) + {t}
    ensures Released(x) <= Released(y) && Started(x) <= Started(y) && y.status.Keys == x.status.Keys
  {
    SetStatus(x, t, s, y);
  }

  /** Another task keeps its standing: if it is released, its upstream tasks had
      all ended and their results no longer change. */
  lemma {:induction false} OtherKept<T(!new)>(r: Rules<T>, x: Exec<T>, t: T, s: Status, y: Exec<T>, u: T)
    requires r.Valid() && Kept(r, x) && Moves(r, x, t, s, y) && u in r.graph.nodes && u != t
    ensures y.status.Keys == r.graph.nodes && y.status[u] == x.status[u] && TaskKept(r, y, u)
    ensures Supplied(r, y, u) <==> Supplied(r, x, u)
  {
    assert TaskKept(r, x, u);
    MoveShape(r, x, t, s, y);
    if x.status[u] != Blocked {
      SameCount(r.graph.up[u], Done(x), Won(x), Won(y), t);
    }
  }

  /** The task that is moved on was not terminal, and finds the same successes upstream. */
  lemma {:induction false} MovedCount<T(!new)>(r: Rules<T>, x: Exec<T>, t: T, s: Status, y: Exec<T>)
    requires r.Valid() && Moves(r, x, t, s, y)
    ensures Enough(r, y, t) <==> Enough(r, x, t)
  {
    assert r.Sound(t);
    MoveShape(r, x, t, s, y);
    SameCount(r.graph.up[t], r.graph.up[t], Won(x), Won(y), t);
  }

  /** A move keeps everything when the moved task is in order and the end is right. */
  lemma {:induction false} MoveKept<T(!new)>(r: Rules<T>, x: Exec<T>, t: T, s: Status, y: Exec<T>)
    requires r.Valid() && Kept(r, x) && Moves(r, x, t, s, y)
    requires y.status.Keys == r.graph.nodes && TaskKept(r, y, t)
    requires y.end == if Enough(r, x, t) then Open else DeadLettered
    ensures Kept(r, y)
  {
    MovedCount(r, x, t, s, y);
    forall u {:trigger TaskKept(r, y, u)} | u in r.graph.nodes
      ensures TaskKept(r, y, u)
    {
      if u != t {
        OtherKept(r, x, t, s, y, u);
      }
    }
    forall u {:trigger Supplied(r, y, u)} | u in r.graph.nodes && u != t
      ensures Supplied(r, y, u)
    {
      OtherKept(r, x, t, s, y, u);
      assert Supplied(r, x, u);
    }
    assert Supplied(r, y, t) <==> Enough(r, x, t);
  }

  lemma {:induction false} ResolveOneKept<T(!new)>(r: Rules<T>, x: Exec<T>, t: T)
    requires r.Valid() && Kept(r, x) && t in r.joins
    ensures Kept(r, ResolveOne(r, x, t))
  {
    if Resolvable(r, x, t) {
      var y, s := ResolveOne(r, x, t), if Enough(r, x, t) then Ready else Failed;
      MovedCount(r, x, t, s, y);
      MoveShape(r, x, t, s, y);
      MoveKept(r, x, t, s, y);
    }
  }

  lemma {:induction false} ResolveAllKept<T(!new)>(r: Rules<T>, x: Exec<T>, batch: seq<T>)
    requires r.Valid() && Kept(r, x) && forall t :: t in batch ==> t in r.joins
    ensures Kept(r, ResolveAll(r, x, batch))
    decreases |batch|
  {
    if batch != [] {
      ResolveOneKept(r, x, batch[0]);
      ResolveAllKept(r, ResolveOne(r, x, batch[0]), batch[1..]);
    }
  }

  lemma {:induction false} ReconciledKept<T(!new)>(r: Rules<T>, x: Exec<T>)
    requires r.Valid() && Kept(r, x)
    ensures Kept(r, Reconciled(r, x))
  {
    var y := ResolveAll(r, x, Batch(r, x));
    ResolveAllKept(r, x, Batch(r, x));
    EndKept(r, y, Reconciled(r, x));
  }

  /** Promoting an answer changes no task. */
  lemma {:induction false} EndKept<T(!new)>(r: Rules<T>, x: Exec<T>, y: Exec<T>)
    requires r.Valid() && Kept(r, x) && y.status == x.status
    requires y.end == x.end || (x.end == Open && y.end == Answered && DeskWon(r, x))
    ensures Kept(r, y)
  {
    assert Won(y) == Won(x) && Done(y) == Done(x);
    forall t {:trigger TaskKept(r, y, t)} | t in r.graph.nodes
      ensures TaskKept(r, y, t)
    {
      assert TaskKept(r, x, t);
    }
    forall t {:trigger Supplied(r, y, t)} | t in r.graph.nodes
      ensures Supplied(r, y, t) <==> Supplied(r, x, t)
    {
    }
    if x.end == DeadLettered {
      var t :| t in r.graph.nodes && !Supplied(r, x, t);
      assert !Supplied(r, y, t);
    }
  }

  lemma {:induction false} ClaimKept<T(!new)>(r: Rules<T>, x: Exec<T>, t: T)
    requires r.Valid() && Kept(r, x) && Enabled(r, x, Claim(t))
    ensures Kept(r, Apply(r, x, Claim(t))) && Moves(r, x, t, Running, Apply(r, x, Claim(t)))
  {
    var y := Apply(r, x, Claim(t));
    assert TaskKept(r, x, t);
    MoveShape(r, x, t, Running, y);
    MovedCount(r, x, t, Running, y);
    MoveKept(r, x, t, Running, y);
  }

  lemma {:induction false} FinishKept<T(!new)>(r: Rules<T>, x: Exec<T>, t: T, ok: bool)
    requires r.Valid() && Kept(r, x) && Enabled(r, x, Finish(t, ok))
    ensures var s := if ok then Succeeded else Failed;
      Kept(r, Apply(r, x, Finish(t, ok))) && Moves(r, x, t, s, Apply(r, x, Finish(t, ok)))
  {
    var y, s := Apply(r, x, Finish(t, ok)), if ok then Succeeded else Failed;
    assert TaskKept(r, x, t);
    MoveShape(r, x, t, s, y);
    MovedCount(r, x, t, s, y);
    MoveKept(r, x, t, s, y);
  }

  lemma {:induction false} StepKept<T(!new)>(r: Rules<T>, x: Exec<T>, a: Action<T>)
    requires r.Valid() && Kept(r, x) && Enabled(r, x, a)
    ensures Kept(r, Apply(r, x, a))
  {
    match a {
      case Claim(t) => ClaimKept(r, x, t);
      case Finish(t, ok) => FinishKept(r, x, t, ok);
      case Reconcile => ReconciledKept(r, x);
    }
  }

  // ----- what grows -----

  /** Tasks only come further, and while the Run is open nothing ends by reconciling. */
  ghost predicate Grown<T(!new)>(x: Exec<T>, y: Exec<T>) {
    Won(x) <= Won(y) && Done(x) <= Done(y) && Released(x) <= Released(y) && Started(x) <= Started(y)
  }

  lemma {:induction false} ResolveOneGrows<T(!new)>(r: Rules<T>, x: Exec<T>, t: T)
    requires r.Valid()
    ensures var y := ResolveOne(r, x, t);
      Grown(x, y) && Won(y) == Won(x) && (y.Live() ==> Done(y) == Done(x) && Started(y) == Started(x))
      && InFlight(y) == InFlight(x)
  {
    if Resolvable(r, x, t) {
      SetStatus(x, t, if Enough(r, x, t) then Ready else Failed, ResolveOne(r, x, t));
    }
  }

  lemma {:induction false} ResolveAllGrows<T(!new)>(r: Rules<T>, x: Exec<T>, batch: seq<T>)
    requires r.Valid()
    ensures var y := ResolveAll(r, x, batch);
      Grown(x, y) && Won(y) == Won(x) && (y.Live() ==> x.Live() && Done(y) == Done(x) && Started(y) == Started(x))
      && InFlight(y) == InFlight(x)
    decreases |batch|
  {
    if batch != [] {
      ResolveOneGrows(r, x, batch[0]);
      ResolveAllGrows(r, ResolveOne(r, x, batch[0]), batch[1..]);
    }
  }

  lemma {:induction false} ReconciledGrows<T(!new)>(r: Rules<T>, x: Exec<T>)
    requires r.Valid()
    ensures var y := Reconciled(r, x);
      Grown(x, y) && Won(y) == Won(x) && (y.Live() ==> x.Live() && Done(y) == Done(x) && Started(y) == Started(x))
      && InFlight(y) == InFlight(x)
  {
    ResolveAllGrows(r, x, Batch(r, x));
  }

  lemma {:induction false} StepGrows<T(!new)>(r: Rules<T>, x: Exec<T>, a: Action<T>)
    requires r.Valid() && Kept(r, x) && Enabled(r, x, a)
    ensures Grown(x, Apply(r, x, a)) && x.Live()
  {
    match a {
      case Claim(t) =>
        ClaimKept(r, x, t);
        MoveShape(r, x, t, Running, Apply(r, x, a));
      case Finish(t, ok) =>
        FinishKept(r, x, t, ok);
        MoveShape(r, x, t, if ok then Succeeded else Failed, Apply(r, x, a));
      case Reconcile => ReconciledGrows(r, x);
    }
  }

  /** In every reachable state a task is released only after all of its upstream tasks
      have ended, the Run is dead-lettered exactly when some Join found too few
      successes, and it is answered only by a Desk that succeeded. */
  lemma {:induction false} RunKept<T(!new)>(r: Rules<T>, x: Exec<T>, actions: seq<Action<T>>, y: Exec<T>)
    requires r.Valid() && Kept(r, x) && Reaches(r, x, actions, y)
    ensures Kept(r, y) && Grown(x, y) && (y.Live() ==> x.Live())
    decreases |actions|
  {
    if actions != [] {
      StepKept(r, x, actions[0]);
      StepGrows(r, x, actions[0]);
      RunKept(r, Apply(r, x, actions[0]), actions[1..], y);
    }
  }

  /** While the Run is open every task that has ended was offered. */
  lemma {:induction false} DoneWasOffered<T(!new)>(r: Rules<T>, x: Exec<T>)
    requires r.Valid() && Kept(r, x) && x.end != DeadLettered
    ensures Done(x) <= Released(x) * r.offered && Started(x) <= r.offered
  {
    forall t | t in Started(x)
      ensures t in r.offered
    {
      assert TaskKept(r, x, t) && Supplied(r, x, t);
    }
  }

  /** Once the upstream tasks of a task have ended, whether it gets the successes it
      needs never changes: a Join has the same outcome whenever it is resolved. */
  lemma {:induction false} JoinOutcomeStable<T(!new)>(r: Rules<T>, x: Exec<T>, actions: seq<Action<T>>, y: Exec<T>,
                                                      t: T)
    requires r.Valid() && Kept(r, x) && Reaches(r, x, actions, y)
    requires t in r.graph.nodes && r.graph.up[t] <= Done(x)
    ensures Enough(r, x, t) <==> Enough(r, y, t)
    decreases |actions|
  {
    if actions != [] {
      var z := Apply(r, x, actions[0]);
      StepKept(r, x, actions[0]);
      StepGrows(r, x, actions[0]);
      SameSuccesses(r, x, actions[0], t);
      JoinOutcomeStable(r, z, actions[1..], y, t);
    }
  }

  lemma {:induction false} SameSuccesses<T(!new)>(r: Rules<T>, x: Exec<T>, a: Action<T>, t: T)
    requires r.Valid() && Kept(r, x) && Enabled(r, x, a) && t in r.graph.nodes && r.graph.up[t] <= Done(x)
    ensures Enough(r, x, t) <==> Enough(r, Apply(r, x, a), t)
  {
    match a {
      case Claim(u) =>
        ClaimKept(r, x, u);
        MoveShape(r, x, u, Running, Apply(r, x, a));
        SameCount(r.graph.up[t], Done(x), Won(x), Won(Apply(r, x, a)), u);
      case Finish(u, ok) =>
        FinishKept(r, x, u, ok);
        MoveShape(r, x, u, if ok then Succeeded else Failed, Apply(r, x, a));
        SameCount(r.graph.up[t], Done(x), Won(x), Won(Apply(r, x, a)), u);
      case Reconcile => ReconciledGrows(r, x);
    }
  }

  // ----- what one call of the reconciler decides -----

  /** A Join the call looks at whose upstream tasks have all ended. */
  ghost predicate Settling<T(!new)>(r: Rules<T>, x: Exec<T>, t: T)
    requires r.Valid()
  {
    t in Batch(r, x) && Resolvable(r, x, t)
  }

  /** As long as every Join of the batch passes, all of them are released. */
  lemma {:induction false} ResolveAllPasses<T(!new)>(r: Rules<T>, x: Exec<T>, batch: seq<T>)
    requires r.Valid() && x.Live() && x.status.Keys == r.graph.nodes
    requires forall t :: t in batch && Resolvable(r, x, t) ==> Enough(r, x, t)
    ensures var y := ResolveAll(r, x, batch);
      && y.Live() && y.status.Keys == r.graph.nodes
      && (forall t :: t in r.graph.nodes ==>
            y.status[t] == if t in batch && Resolvable(r, x, t) then Ready else x.status[t])
    decreases |batch|
  {
    if batch != [] {
      var z := ResolveOne(r, x, batch[0]);
      ResolveOneGrows(r, x, batch[0]);
      assert z.Live() && z.status.Keys == r.graph.nodes;
      forall t | t in r.graph.nodes && t != batch[0]
        ensures Resolvable(r, z, t) <==> Resolvable(r, x, t)
      {
      }
      ResolveAllPasses(r, z, batch[1..]);
    }
  }

  /** A Join that finds too few successes ends the Run. */
  lemma {:induction false} ResolveAllFails<T(!new)>(r: Rules<T>, x: Exec<T>, batch: seq<T>, t: T)
    requires r.Valid() && x.Live() && t in batch && Resolvable(r, x, t) && !Enough(r, x, t)
    ensures ResolveAll(r, x, batch).end == DeadLettered
    decreases |batch|
  {
    var z := ResolveOne(r, x, batch[0]);
    ResolveOneGrows(r, x, batch[0]);
    if z.end == DeadLettered {
      DeadStays(r, z, batch[1..]);
    } else {
      assert batch[0] != t;
      ResolveAllFails(r, z, batch[1..], t);
    }
  }

  lemma {:induction false} DeadStays<T(!new)>(r: Rules<T>, x: Exec<T>, batch: seq<T>)
    requires r.Valid() && !x.Live()
    ensures ResolveAll(r, x, batch) == x
    decreases |batch|
  {
    if batch != [] {
      DeadStays(r, x, batch[1..]);
    }
  }

  /** One call dead-letters the Run exactly when some Join it settles found too few
      successes. Otherwise all Joins it settles release their tasks, and the Run is
      answered exactly when a Desk has succeeded. */
  lemma {:induction false} ReconcileOutcome<T(!new)>(r: Rules<T>, x: Exec<T>)
    requires r.Valid() && x.Live() && x.status.Keys == r.graph.nodes
    ensures var y, passes := Reconciled(r, x), forall t :: Settling(r, x, t) ==> Enough(r, x, t);
      && (y.end == DeadLettered <==> !passes)
      && (passes ==> (y.end == Answered <==> DeskWon(r, x)) && y.status.Keys == r.graph.nodes)
      && (passes ==> forall t :: t in r.graph.nodes ==>
            y.status[t] == if Settling(r, x, t) then Ready else x.status[t])
  {
    var batch := Batch(r, x);
    ResolveAllGrows(r, x, batch);
    if t :| Settling(r, x, t) && !Enough(r, x, t) {
      ResolveAllFails(r, x, batch, t);
    } else {
      ResolveAllPasses(r, x, batch);
    }
  }

  // ----- every run ends -----

  /** How far the tasks have come: released, started, ended; and the end of the Run. */
  ghost function Progress<T(!new)>(x: Exec<T>): nat {
    |Released(x)| + |Started(x)| + |Done(x)| + if x.Live() then 0 else 1
  }

  lemma {:induction false} Bounded<T(!new)>(r: Rules<T>, y: Exec<T>)
    requires r.Valid() && y.status.Keys == r.graph.nodes
    ensures Progress(y) <= 3 * |r.graph.nodes| + 1
  {
    SubsetSize(Released(y), r.graph.nodes);
    SubsetSize(Started(y), r.graph.nodes);
    SubsetSize(Done(y), r.graph.nodes);
  }

  lemma {:induction false} GrownProgress<T(!new)>(x: Exec<T>, y: Exec<T>)
    requires Grown(x, y) && (y.Live() ==> x.Live())
    ensures Progress(y) >= Progress(x)
    ensures Progress(y) == Progress(x) ==>
      Released(y) == Released(x) && Started(y) == Started(x) && Done(y) == Done(x) && y.Live() == x.Live()
  {
    Grow(Released(x), Released(y));
    Grow(Started(x), Started(y));
    Grow(Done(x), Done(y));
  }

  lemma {:induction false} Grow<T(!new)>(a: set<T>, b: set<T>)
    requires a <= b
    ensures |a| <= |b| && (|a| == |b| ==> a == b)
  {
    SubsetSize(a, b);
    assert b == a + (b - a);
  }

  lemma {:induction false} StepProgresses<T(!new)>(r: Rules<T>, x: Exec<T>, a: Action<T>)
    requires r.Valid() && Kept(r, x) && Enabled(r, x, a)
    ensures Progress(Apply(r, x, a)) > Progress(x)
    ensures Progress(Apply(r, x, a)) <= 3 * |r.graph.nodes| + 1
  {
    var y := Apply(r, x, a);
    StepGrows(r, x, a);
    GrownProgress(x, y);
    Bounded(r, y);
    match a {
      case Claim(t) => assert t in Started(y) && t !in Started(x);
      case Finish(t, _) => assert t in Done(y) && t !in Done(x);
      case Reconcile =>
        ReconcileOutcome(r, x);
        if y.Live() {
          var t :| t in Batch(r, x) && Resolvable(r, x, t);
          assert Settling(r, x, t) && t in Released(y) && t !in Released(x);
        }
    }
  }

  lemma {:induction false} RunsEnd<T(!new)>(r: Rules<T>, x: Exec<T>, actions: seq<Action<T>>, y: Exec<T>)
    requires r.Valid() && Kept(r, x) && Reaches(r, x, actions, y)
    ensures actions == [] || Progress(x) + |actions| <= 3 * |r.graph.nodes| + 1
    decreases |actions|
  {
    if actions != [] {
      StepKept(r, x, actions[0]);
      StepProgresses(r, x, actions[0]);
      RunsEnd(r, Apply(r, x, actions[0]), actions[1..], y);
    }
  }

  /** Nothing ever releases a task with inputs that has no Join. */
  lemma {:induction false} UnjoinedStaysBlocked<T(!new)>(r: Rules<T>, x: Exec<T>, t: T)
    requires r.Valid() && Kept(r, x) && t in r.graph.nodes && r.graph.up[t] != {} && t !in r.joins
    ensures x.status[t] == Blocked
  {
    assert TaskKept(r, x, t);
  }

  lemma {:induction false} OneFree<T(!new)>(t: T, released: set<T>, n: nat)
    requires n > 0
    ensures FirstFree([t], released, n) == if t in released then [] else [t]
  {
    assert [t][1..] == [];
  }

  /** A single Join whose upstream tasks have ended is decided by the next call. */
  lemma {:induction false} OneJoinDecides<T(!new)>(r: Rules<T>, x: Exec<T>, t: T)
    requires r.Valid() && Kept(r, x) && x.Live() && r.joins == [t] && x.Has(t, Blocked)
    requires t in r.graph.nodes && r.graph.up[t] <= Done(x)
    ensures var y := Reconciled(r, x);
      && (y.end == DeadLettered <==> |r.graph.up[t] * Won(x)| < r.needs[t])
      && (y.end != DeadLettered ==> y.Has(t, Ready))
  {
    hide Reconciled;
    OneFree(t, Released(x), BATCH);
    assert t !in Released(x);
    assert Settling(r, x, t);
    ReconcileOutcome(r, x);
  }

  // ----- runs in sequence -----

  lemma {:induction false} OneStep<T(!new)>(r: Rules<T>, x: Exec<T>, a: Action<T>)
    requires r.Valid() && x.status.Keys == r.graph.nodes && Enabled(r, x, a)
    ensures Reaches(r, x, [a], Apply(r, x, a))
  {
    var y := Apply(r, x, a);
    assert [a][1..] == [] && Reaches(r, y, [], y);
  }

  lemma {:induction false} ReachesConcat<T(!new)>(r: Rules<T>, x: Exec<T>, a: seq<Action<T>>, y: Exec<T>,
                                                  b: seq<Action<T>>, z: Exec<T>)
    requires r.Valid() && x.status.Keys == r.graph.nodes && y.status.Keys == r.graph.nodes
    requires Reaches(r, x, a, y) && Reaches(r, y, b, z)
    ensures Reaches(r, x, a + b, z)
    decreases |a|
  {
    if a == [] {
      assert a + b == b;
    } else {
      ReachesConcat(r, Apply(r, x, a[0]), a[1..], y, b, z);
      ReachesCons(r, x, a[0], a[1..] + b, z);
      ConsConcat(a, b);
    }
  }

  lemma {:induction false} ConsConcat<A>(a: seq<A>, b: seq<A>)
    requires a != []
    ensures [a[0]] + (a[1..] + b) == a + b
  {
  }

  lemma {:induction false} ReachesCons<T(!new)>(r: Rules<T>, x: Exec<T>, a: Action<T>, rest: seq<Action<T>>, z: Exec<T>)
    requires r.Valid() && x.status.Keys == r.graph.nodes && Enabled(r, x, a) && Reaches(r, Apply(r, x, a), rest, z)
    ensures Reaches(r, x, [a] + rest, z)
  {
    assert ([a] + rest)[1..] == rest;
  }

  /** A released task may be claimed as soon as a slot is free and workers are told. */
  lemma {:induction false} ReadyIsClaimable<T(!new)>(r: Rules<T>, x: Exec<T>, t: T)
    requires r.Valid() && Kept(r, x) && x.Live() && t in r.offered && |InFlight(x)| < r.slots
    ensures x.status[t] == Ready ==> Enabled(r, x, Claim(t))
  {
    assert TaskKept(r, x, t) && r.Sound(t);
    if t in r.strict {
      Grow(r.graph.up[t] * Won(x), r.graph.up[t]);
    }
  }
}
