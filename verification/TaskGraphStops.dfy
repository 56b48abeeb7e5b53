// When the run of a task graph waits for its deadline: nothing the workers or the
// reconciler could do is left, and no answer was promoted and no Join failed.
module TaskGraphStops {
  import opened Collections
  import opened TaskGraphDepth
  import opened TaskGraphRun

  /** The Run is open and stays as it is until its deadline. */
  ghost predicate Stuck<T(!new)>(r: Rules<T>, x: Exec<T>)
    requires r.Valid() && x.status.Keys == r.graph.nodes
  {
    x.Live() && forall a {:trigger Enabled(r, x, a)} :: !Enabled(r, x, a)
  }

  // ----- which tasks come up -----

  ghost function Sources<T(!new)>(r: Rules<T>): set<T>
    requires r.Valid()
  {
    set t | t in r.graph.nodes && r.graph.up[t] == {}
  }

  /** The Joins that become resolvable when exactly the tasks of released are released
      and those that workers are told about have ended. */
  ghost function Opened<T(!new)>(r: Rules<T>, released: set<T>): set<T>
    requires r.Valid()
  {
    set t | t in FirstFree(r.joins, released, BATCH) && r.graph.up[t] <= released * r.offered
  }

  ghost function Close<T(!new)>(r: Rules<T>, released: set<T>): (all: set<T>)
    requires r.Valid() && released <= r.graph.nodes
    ensures released <= all <= r.graph.nodes && Opened(r, all) == {}
    decreases |r.graph.nodes - released|
  {
    var more := Opened(r, released);
    if more == {} then released
    else
      Smaller(r.graph.nodes, released, more);
      Close(r, released + more)
  }

  lemma {:induction false} Smaller<T(!new)>(nodes: set<T>, released: set<T>, more: set<T>)
    requires more != {} && more <= nodes && more !! released
    ensures |nodes - (released + more)| < |nodes - released|
  {
    var t :| t in more;
    SubsetSize(nodes - (released + more), nodes - released - {t});
  }

  /** The tasks that a run releases when no Join fails and no Desk succeeds. */
  ghost function ComesUp<T(!new)>(r: Rules<T>): (all: set<T>)
    requires r.Valid()
    ensures Sources(r) <= all <= r.graph.nodes && Opened(r, all) == {}
  {
    Close(r, Sources(r))
  }

  /** A Join stays in the batch as others are released before it. */
  lemma {:induction false} BatchMonotone<T(!new)>(joins: seq<T>, a: set<T>, b: set<T>, n: nat, m: nat, t: T)
    requires a <= b && n <= m && t in FirstFree(joins, a, n) && t !in b
    ensures t in FirstFree(joins, b, m)
  {
    if joins[0] in a {
      BatchMonotone(joins[1..], a, b, n, m, t);
    } else if t != joins[0] {
      BatchMonotone(joins[1..], a, b, n - 1, if joins[0] in b then m else m - 1, t);
    }
  }

  /** What is closed holds all that comes up from it. */
  lemma {:induction false} CloseIsLeast<T(!new)>(r: Rules<T>, released: set<T>, closed: set<T>)
    requires r.Valid() && released <= r.graph.nodes && released <= closed && Opened(r, closed) == {}
    ensures Close(r, released) <= closed
    decreases |r.graph.nodes - released|
  {
    var more := Opened(r, released);
    if more != {} {
      Smaller(r.graph.nodes, released, more);
      forall t | t in more
        ensures t in closed
      {
        OpenedIsClosed(r, released, closed, t);
      }
      CloseIsLeast(r, released + more, closed);
    }
  }

  lemma {:induction false} OpenedIsClosed<T(!new)>(r: Rules<T>, released: set<T>, closed: set<T>, t: T)
    requires r.Valid() && released <= closed && Opened(r, closed) == {}
    requires t in FirstFree(r.joins, released, BATCH) && r.graph.up[t] <= closed * r.offered
    ensures t in closed
  {
    StillOpened(r, released, closed, t);
  }

  lemma {:induction false} StillOpened<T(!new)>(r: Rules<T>, released: set<T>, closed: set<T>, t: T)
    requires r.Valid() && released <= closed
    requires t in FirstFree(r.joins, released, BATCH) && r.graph.up[t] <= closed * r.offered
    ensures t in closed || t in Opened(r, closed)
  {
    if t !in closed {
      BatchMonotone(r.joins, released, closed, BATCH, BATCH, t);
    }
  }

  // ----- no run releases more -----

  ghost predicate Within<T(!new)>(r: Rules<T>, x: Exec<T>)
    requires r.Valid()
  {
    Released(x) <= ComesUp(r)
  }

  lemma {:induction false} InitialWithin<T(!new)>(r: Rules<T>)
    requires r.Valid()
    ensures Within(r, Initial(r))
  {
    assert Released(Initial(r)) == Sources(r);
  }

  lemma {:induction false} SettlingComesUp<T(!new)>(r: Rules<T>, x: Exec<T>, t: T)
    requires r.Valid() && Kept(r, x) && Within(r, x) && Settling(r, x, t)
    ensures t in ComesUp(r)
  {
    DoneWasOffered(r, x);
    OpenedIsClosed(r, Released(x), ComesUp(r), t);
  }

  /** Resolving the Joins of a batch releases none but those that come up. */
  lemma {:induction false} ResolveAllWithin<T(!new)>(r: Rules<T>, x0: Exec<T>, x: Exec<T>, batch: seq<T>)
    requires r.Valid() && Kept(r, x0) && Within(r, x0) && Within(r, x) && x0.Live()
    requires forall t :: t in batch ==> t in Batch(r, x0)
    requires x.Live() ==> Done(x) == Done(x0)
    ensures Within(r, ResolveAll(r, x, batch))
    decreases |batch|
  {
    if batch != [] {
      var y := ResolveOne(r, x, batch[0]);
      ResolveOneGrows(r, x, batch[0]);
      if Resolvable(r, x, batch[0]) {
        assert batch[0] in batch;
        DoneWasOffered(r, x0);
        OpenedIsClosed(r, Released(x0), ComesUp(r), batch[0]);
        SetStatus(x, batch[0], if Enough(r, x, batch[0]) then Ready else Failed, y);
      }
      ResolveAllWithin(r, x0, y, batch[1..]);
    }
  }

  lemma {:induction false} StepWithin<T(!new)>(r: Rules<T>, x: Exec<T>, a: Action<T>)
    requires r.Valid() && Kept(r, x) && Within(r, x) && Enabled(r, x, a)
    ensures Within(r, Apply(r, x, a))
  {
    match a {
      case Claim(t) => SetStatus(x, t, Running, Apply(r, x, a));
      case Finish(t, ok) => SetStatus(x, t, if ok then Succeeded else Failed, Apply(r, x, a));
      case Reconcile =>
        ResolveAllWithin(r, x, x, Batch(r, x));
        assert Released(Reconciled(r, x)) == Released(ResolveAll(r, x, Batch(r, x)));
    }
  }

  lemma {:induction false} RunWithin<T(!new)>(r: Rules<T>, x: Exec<T>, actions: seq<Action<T>>, y: Exec<T>)
    requires r.Valid() && Kept(r, x) && Within(r, x) && Reaches(r, x, actions, y)
    ensures Kept(r, y) && Within(r, y)
    decreases |actions|
  {
    if actions != [] {
      StepKept(r, x, actions[0]);
      StepWithin(r, x, actions[0]);
      RunWithin(r, Apply(r, x, actions[0]), actions[1..], y);
    }
  }

  // ----- what a stuck state looks like -----

  /** Wherever a run gets stuck, it has released exactly the tasks that come up, and
      those that workers are told about have all ended. */
  lemma {:induction false} StuckShape<T(!new)>(r: Rules<T>, x: Exec<T>)
    requires r.Valid() && Kept(r, x) && Within(r, x) && Stuck(r, x)
    ensures Released(x) == ComesUp(r) && Done(x) == ComesUp(r) * r.offered && !DeskWon(r, x)
  {
    NothingInFlight(r, x);
    DoneWasOffered(r, x);
    forall t | t in Released(x) * r.offered
      ensures t in Done(x)
    {
      NotReady(r, x, t);
      assert t !in InFlight(x);
    }
    assert !Enabled(r, x, Reconcile);
    NothingOpened(r, x);
    forall t | t in Sources(r)
      ensures t in Released(x)
    {
      assert TaskKept(r, x, t);
    }
    CloseIsLeast(r, Sources(r), Released(x));
  }

  lemma {:induction false} NotReady<T(!new)>(r: Rules<T>, x: Exec<T>, t: T)
    requires r.Valid() && Kept(r, x) && Stuck(r, x) && InFlight(x) == {} && t in r.offered
    ensures x.status[t] != Ready
  {
    assert !Enabled(r, x, Claim(t));
    ReadyIsClaimable(r, x, t);
  }

  lemma {:induction false} NothingOpened<T(!new)>(r: Rules<T>, x: Exec<T>)
    requires r.Valid() && x.status.Keys == r.graph.nodes && x.Live() && !CanReconcile(r, x)
    requires Done(x) == Released(x) * r.offered
    ensures Opened(r, Released(x)) == {}
  {
    forall t | t in Batch(r, x)
      ensures !(r.graph.up[t] <= Done(x))
    {
      assert !Resolvable(r, x, t);
    }
  }

  lemma {:induction false} NothingInFlight<T(!new)>(r: Rules<T>, x: Exec<T>)
    requires r.Valid() && Kept(r, x) && Stuck(r, x)
    ensures InFlight(x) == {}
  {
    forall t
      ensures t !in InFlight(x)
    {
      assert !Enabled(r, x, Finish(t, true));
    }
  }

  // ----- when runs get stuck -----

  /** Every Join that comes up passes when all Specialists succeed and all Desks fail. */
  ghost predicate SpecialistsSuffice<T(!new)>(r: Rules<T>)
    requires r.Valid()
  {
    forall t :: t in ComesUp(r) ==> |r.graph.up[t] - r.desks| >= r.needs[t]
  }

  /** The Specialists that have ended succeeded, the Desks failed. */
  ghost predicate DesksFail<T(!new)>(r: Rules<T>, x: Exec<T>)
    requires r.Valid()
  {
    Kept(r, x) && Within(r, x) && x.Live() && Won(x) == Done(x) - r.desks
  }

  lemma {:induction false} DesksFailOn<T(!new)>(r: Rules<T>, x: Exec<T>, a: Action<T>)
    requires r.Valid() && SpecialistsSuffice(r) && DesksFail(r, x) && Enabled(r, x, a)
    requires a.Finish? ==> a.ok == (a.task !in r.desks)
    ensures DesksFail(r, Apply(r, x, a))
  {
    StepKept(r, x, a);
    StepWithin(r, x, a);
    match a {
      case Claim(t) => DesksFailClaim(r, x, t);
      case Finish(t, ok) => DesksFailFinish(r, x, t);
      case Reconcile => DesksFailReconcile(r, x);
    }
  }

  lemma {:induction false} DesksFailClaim<T(!new)>(r: Rules<T>, x: Exec<T>, t: T)
    requires r.Valid() && DesksFail(r, x) && Enabled(r, x, Claim(t))
    ensures var y := Apply(r, x, Claim(t)); y.Live() && Won(y) == Done(y) - r.desks
  {
    SetStatus(x, t, Running, Apply(r, x, Claim(t)));
  }

  lemma {:induction false} DesksFailFinish<T(!new)>(r: Rules<T>, x: Exec<T>, t: T)
    requires r.Valid() && DesksFail(r, x) && Enabled(r, x, Finish(t, t !in r.desks))
    ensures var y := Apply(r, x, Finish(t, t !in r.desks)); y.Live() && Won(y) == Done(y) - r.desks
  {
    SetStatus(x, t, if t in r.desks then Failed else Succeeded, Apply(r, x, Finish(t, t !in r.desks)));
  }

  lemma {:induction false} DesksFailReconcile<T(!new)>(r: Rules<T>, x: Exec<T>)
    requires r.Valid() && SpecialistsSuffice(r) && DesksFail(r, x)
    ensures var y := Reconciled(r, x); y.Live() && Won(y) == Won(x) && Done(y) == Done(x)
  {
    forall t | Settling(r, x, t)
      ensures Enough(r, x, t)
    {
      SettlingPasses(r, x, t);
    }
    ReconcileOutcome(r, x);
    ReconciledGrows(r, x);
    assert !DeskWon(r, x);
  }

  lemma {:induction false} SettlingPasses<T(!new)>(r: Rules<T>, x: Exec<T>, t: T)
    requires r.Valid() && SpecialistsSuffice(r) && DesksFail(r, x) && Settling(r, x, t)
    ensures Enough(r, x, t)
  {
    SettlingComesUp(r, x, t);
    WithoutDesks(r.graph.up[t], Done(x), Won(x), r.desks);
  }

  lemma {:induction false} WithoutDesks<T>(up: set<T>, done: set<T>, won: set<T>, desks: set<T>)
    requires up <= done && won == done - desks
    ensures up * won == up - desks
  {
  }

  lemma {:induction false} DesksFailRun<T(!new)>(r: Rules<T>, x: Exec<T>) returns (actions: seq<Action<T>>, y: Exec<T>)
    requires r.Valid() && SpecialistsSuffice(r) && DesksFail(r, x)
    ensures Reaches(r, x, actions, y) && DesksFail(r, y) && Stuck(r, y)
    decreases 3 * |r.graph.nodes| + 1 - Progress(x)
  {
    if a :| Enabled(r, x, a) {
      var b := if a.Finish? then Finish(a.task, a.task !in r.desks) else a;
      assert Enabled(r, x, b);
      StepProgresses(r, x, b);
      DesksFailOn(r, x, b);
      var rest;
      rest, y := DesksFailRun(r, Apply(r, x, b));
      ReachesCons(r, x, b, rest, y);
      actions := [b] + rest;
    } else {
      actions, y := [], x;
    }
  }

  /** The run may come to wait for its deadline; unfinished: with tasks that have not ended. */
  ghost predicate MayWait<T(!new)>(r: Rules<T>, unfinished: bool)
    requires r.Valid()
  {
    exists actions, y {:trigger Reaches(r, Initial(r), actions, y)} ::
      Reaches(r, Initial(r), actions, y) && y.status.Keys == r.graph.nodes && Stuck(r, y)
      && (unfinished ==> Done(y) != r.graph.nodes)
  }

  lemma {:induction false} InitialDesksFail<T(!new)>(r: Rules<T>)
    requires r.Valid()
    ensures DesksFail(r, Initial(r))
  {
    InitialKept(r);
    InitialWithin(r);
    var x := Initial(r);
    forall t | t in r.graph.nodes
      ensures t !in Done(x)
    {
    }
  }

  lemma {:induction false} StuckRun<T(!new)>(r: Rules<T>) returns (actions: seq<Action<T>>, y: Exec<T>)
    requires r.Valid() && SpecialistsSuffice(r)
    ensures Reaches(r, Initial(r), actions, y) && y.status.Keys == r.graph.nodes && Stuck(r, y)
    ensures Done(y) == ComesUp(r) * r.offered
  {
    InitialDesksFail(r);
    actions, y := DesksFailRun(r, Initial(r));
    StuckOnlyIf(r, actions, y);
  }

  lemma {:induction false} StuckOnlyIf<T(!new)>(r: Rules<T>, actions: seq<Action<T>>, y: Exec<T>)
    requires r.Valid() && Reaches(r, Initial(r), actions, y) && y.status.Keys == r.graph.nodes && Stuck(r, y)
    ensures SpecialistsSuffice(r) && Done(y) == ComesUp(r) * r.offered
  {
    InitialKept(r);
    InitialWithin(r);
    RunWithin(r, Initial(r), actions, y);
    StuckShape(r, y);
    forall t | t in ComesUp(r)
      ensures |r.graph.up[t] - r.desks| >= r.needs[t]
    {
      assert Supplied(r, y, t) && t in Released(y);
      SubsetSize(r.graph.up[t] * Won(y), r.graph.up[t] - r.desks);
    }
  }

  lemma {:induction false} StuckHasNoAnswer<T(!new)>(r: Rules<T>, actions: seq<Action<T>>, y: Exec<T>)
    requires r.Valid() && Reaches(r, Initial(r), actions, y) && y.status.Keys == r.graph.nodes && Stuck(r, y)
    ensures !DeskWon(r, y)
  {
    InitialKept(r);
    InitialWithin(r);
    RunWithin(r, Initial(r), actions, y);
    StuckShape(r, y);
  }

  /** A run can come to wait for its deadline exactly when the Specialists alone satisfy
      every Join that comes up; and it can do so with unfinished tasks exactly when,
      besides, not every task comes up and is offered to workers. */
  lemma {:induction false} MayWaitIff<T(!new)>(r: Rules<T>)
    requires r.Valid()
    ensures MayWait(r, false) <==> SpecialistsSuffice(r)
    ensures MayWait(r, true) <==> SpecialistsSuffice(r) && ComesUp(r) * r.offered != r.graph.nodes
  {
    if SpecialistsSuffice(r) {
      var actions, y := StuckRun(r);
    }
    if actions, y :| Reaches(r, Initial(r), actions, y) && y.status.Keys == r.graph.nodes && Stuck(r, y) {
      StuckOnlyIf(r, actions, y);
    }
    if actions, y :| Reaches(r, Initial(r), actions, y) && y.status.Keys == r.graph.nodes && Stuck(r, y)
                     && Done(y) != r.graph.nodes {
      StuckOnlyIf(r, actions, y);
    }
  }

  // ----- when every task comes up -----

  lemma {:induction false} AllInBatch<T(!new)>(joins: seq<T>, released: set<T>, n: nat, t: T)
    requires |joins| <= n && t in joins && t !in released
    ensures t in FirstFree(joins, released, n)
  {
    if joins[0] != t {
      AllInBatch(joins[1..], released, if joins[0] in released then n else n - 1, t);
    }
  }

  ghost predicate EveryInputJoined<T(!new)>(r: Rules<T>)
    requires r.Valid()
  {
    forall t :: t in r.graph.nodes && r.graph.up[t] != {} ==> t in r.joins
  }

  lemma {:induction false} TaskComesUp<T(!new)>(r: Rules<T>, t: T)
    requires r.Valid() && |r.joins| <= 32 && r.offered == r.graph.nodes && EveryInputJoined(r) && t in r.graph.nodes
    ensures t in ComesUp(r)
    decreases r.depth[t]
  {
    assert r.Sound(t);
    forall u | u in r.graph.up[t]
      ensures u in ComesUp(r)
    {
      assert r.Sound(u);
      TaskComesUp(r, u);
    }
    if r.graph.up[t] != {} {
      OpensNow(r, ComesUp(r), t);
    }
  }

  lemma {:induction false} OpensNow<T(!new)>(r: Rules<T>, released: set<T>, t: T)
    requires r.Valid() && |r.joins| <= BATCH && t in r.joins && r.graph.up[t] <= released * r.offered
    ensures t in released || t in Opened(r, released)
  {
    if t !in released {
      AllInBatch(r.joins, released, BATCH, t);
    }
  }

  /** With at most one batch of Joins, every task comes up and is offered exactly when
      all tasks are offered and each task with inputs has a Join. */
  lemma {:induction false} AllComeUpIff<T(!new)>(r: Rules<T>)
    requires r.Valid() && |r.joins| <= 32
    ensures ComesUp(r) * r.offered == r.graph.nodes <==> r.offered == r.graph.nodes && EveryInputJoined(r)
  {
    if r.offered == r.graph.nodes && EveryInputJoined(r) {
      forall t | t in r.graph.nodes
        ensures t in ComesUp(r)
      {
        TaskComesUp(r, t);
      }
    }
    OnlyJoinsComeUp(r);
  }

  lemma {:induction false} NoneFree<T(!new)>(joins: seq<T>, released: set<T>, n: nat)
    requires forall t :: t in joins ==> t in released
    ensures FirstFree(joins, released, n) == []
  {
    if joins != [] {
      assert joins[0] in joins;
      NoneFree(joins[1..], released, n);
    }
  }

  /** Whatever the number of Joins, a task with inputs comes up only by its Join. */
  lemma {:induction false} OnlyJoinsComeUp<T(!new)>(r: Rules<T>)
    requires r.Valid()
    ensures ComesUp(r) <= Sources(r) + Elements(r.joins)
  {
    var bound := Sources(r) + Elements(r.joins);
    NoneFree(r.joins, bound, BATCH);
    CloseIsLeast(r, Sources(r), bound);
  }

  // ----- the size of a batch matters -----

  function Below(n: nat): (s: set<nat>)
    ensures forall t: nat :: t in s <==> t < n
  {
    if n == 0 then {} else Below(n - 1) + {n - 1}
  }

  function CrowdUp(t: nat): set<nat> {
    if t < 2 then {} else if t == 2 then {0, 1} else {0, 2}
  }

  /** All tasks are offered and joined. In the order of the plan, crowd Joins that wait
      for task 2 come before the Join of task 2. */
  ghost function CrowdedRules(crowd: nat): Rules<nat> {
    var nodes := Below(crowd + 3);
    Rules(Graph(nodes, map t | t in nodes :: CrowdUp(t)),
          map t | t in nodes :: if t < 2 then 1 else if t == 2 then 2 else 3,
          map t | t in nodes :: |CrowdUp(t)|, nodes, 1,
          seq(crowd + 1, i requires 0 <= i <= crowd => if i < crowd then i + 3 else 2), {}, nodes)
  }

  ghost predicate Crowded(r: Rules<nat>, crowd: nat) {
    && r.Valid() && r.desks == {} && r.offered == r.graph.nodes && |r.joins| == crowd + 1
    && (forall t: nat :: t in r.graph.nodes <==> t < crowd + 3)
    && (forall t :: t in r.graph.nodes ==> r.graph.up[t] == CrowdUp(t))
    && (forall i :: 0 <= i <= crowd ==> r.joins[i] == if i < crowd then i + 3 else 2)
  }

  lemma {:induction false} CrowdedFits(crowd: nat)
    ensures Crowded(CrowdedRules(crowd), crowd)
  {
    var r := CrowdedRules(crowd);
    forall t {:trigger r.Sound(t)} | t in r.graph.nodes
      ensures r.Sound(t)
    {
    }
    forall t | t in r.joins
      ensures t in r.graph.nodes && r.graph.up[t] != {}
    {
      assert 0 in r.graph.up[t];
    }
  }

  lemma {:induction false} FirstFreePrefix<T(!new)>(joins: seq<T>, released: set<T>, n: nat)
    requires n <= |joins| && forall i :: 0 <= i < n ==> joins[i] !in released
    ensures FirstFree(joins, released, n) == joins[..n]
  {
    if n > 0 {
      forall i | 0 <= i < n - 1
        ensures joins[1..][i] !in released
      {
        assert joins[1..][i] == joins[i + 1];
      }
      FirstFreePrefix(joins[1..], released, n - 1);
      assert joins[..n] == [joins[0]] + joins[1..][..n - 1];
    }
  }

  lemma {:induction false} CrowdInputs(r: Rules<nat>, crowd: nat, t: nat)
    requires Crowded(r, crowd) && t in r.graph.nodes
    ensures t < 2 ==> r.graph.up[t] == {} && r.needs[t] == 0
    ensures t >= 2 ==> 0 in r.graph.up[t]
    ensures t > 2 ==> 2 in r.graph.up[t]
  {
    assert r.Sound(t);
  }

  lemma {:induction false} CrowdSources(r: Rules<nat>, crowd: nat)
    requires Crowded(r, crowd)
    ensures forall t :: t in Sources(r) ==> t < 2 && r.needs[t] == 0
  {
    forall t | t in Sources(r)
      ensures t < 2 && r.needs[t] == 0
    {
      CrowdInputs(r, crowd, t);
    }
  }

  /** The batch is full of Joins that wait, so only the sources come up. */
  lemma {:induction false} CrowdedStarves(r: Rules<nat>, crowd: nat)
    requires Crowded(r, crowd) && crowd >= BATCH
    ensures ComesUp(r) == Sources(r)
  {
    CrowdSources(r, crowd);
    FirstFreePrefix(r.joins, Sources(r), BATCH);
    forall t | t in r.joins[..BATCH]
      ensures t in r.graph.nodes && t > 2 && 2 in r.graph.up[t]
    {
      CrowdInputs(r, crowd, t);
    }
    NothingOpens(r, Sources(r), 2);
  }

  lemma {:induction false} NothingOpens<T(!new)>(r: Rules<T>, released: set<T>, u: T)
    requires r.Valid() && released <= r.graph.nodes && u !in released
    requires forall t :: t in FirstFree(r.joins, released, BATCH) ==> u in r.graph.up[t]
    ensures Close(r, released) == released
  {
    assert Opened(r, released) == {};
  }

  lemma {:induction false} CrowdJoined(r: Rules<nat>, crowd: nat)
    requires Crowded(r, crowd)
    ensures EveryInputJoined(r)
  {
    forall t | t in r.graph.nodes && r.graph.up[t] != {}
      ensures t in r.joins
    {
      assert r.joins[if t == 2 then crowd else t - 3] == t;
    }
  }

  /** A call of the reconciler looks at the first 32 unresolved Joins. Where 32 of them
      wait for a later one the run waits with unfinished tasks, although every task is
      offered and has its Join; where fewer do, it does not. */
  lemma {:induction false} CrowdedWaitsIff(crowd: nat)
    ensures var r := CrowdedRules(crowd);
      r.Valid() && r.offered == r.graph.nodes && EveryInputJoined(r) && (MayWait(r, true) <==> crowd >= 32)
  {
    var r := CrowdedRules(crowd);
    CrowdedFits(crowd);
    CrowdJoined(r, crowd);
    MayWaitIff(r);
    if crowd >= BATCH {
      CrowdedStarves(r, crowd);
      CrowdSources(r, crowd);
      assert 2 in r.graph.nodes && 2 !in ComesUp(r);
    } else {
      AllComeUpIff(r);
    }
  }
}
