// The actions on an admitted graph, said status by status
// (agent-platform/migrations/0006, 0008, 0071, 0074 and 0077).
module TaskGraphCalls {
  import opened Collections
  import opened TaskGraphDepth
  import opened TaskGraphRun
  import Capability
  import opened TaskGraphEdges
  import opened TaskGraphPlan
  import Progress = TaskGraphProgress
  import Terms = TaskGraphTerms

  ghost function Count<T(!new)>(x: Exec<T>, tasks: set<T>, s: Status): nat {
    |set t | t in tasks && x.Has(t, s)|
  }

  // ----- claim and finish -----

  /** A ready task that workers are told about may be claimed while a slot is free and its
      upstream tasks have ended, for a strict one all of them with success. */
  lemma {:induction false} ClaimIff<T(!new)>(r: Rules<T>, x: Exec<T>, t: T)
    requires r.Valid() && x.status.Keys == r.graph.nodes
    ensures Enabled(r, x, Claim(t)) <==>
      && x.end == Open && t in r.graph.nodes && x.status[t] == Ready && t in r.offered
      && Count(x, r.graph.nodes, Running) < r.slots
      && (forall u :: u in r.graph.up[t] ==> x.status[u] == Succeeded || (t !in r.strict && x.status[u] == Failed))
  {
    assert InFlight(x) == set u | u in r.graph.nodes && x.Has(u, Running);
    if t in r.graph.nodes {
      assert r.graph.up[t] <= Won(x) <==> forall u :: u in r.graph.up[t] ==> x.status[u] == Succeeded;
      assert r.graph.up[t] <= Done(x) <==> forall u :: u in r.graph.up[t] ==> x.status[u] in {Succeeded, Failed};
    }
  }

  /** In every reachable state the running tasks fit the parallelism of the plan. */
  lemma {:induction false} ParallelismKept<T(!new)>(r: Rules<T>, x: Exec<T>, actions: seq<Action<T>>, y: Exec<T>)
    requires r.Valid() && x.status.Keys == r.graph.nodes && Reaches(r, x, actions, y)
    requires Count(x, r.graph.nodes, Running) <= r.slots
    ensures Count(y, r.graph.nodes, Running) <= r.slots
    decreases |actions|
  {
    if actions != [] {
      ParallelismStep(r, x, actions[0]);
      ParallelismKept(r, Apply(r, x, actions[0]), actions[1..], y);
    }
  }

  lemma {:induction false} ParallelismStep<T(!new)>(r: Rules<T>, x: Exec<T>, a: Action<T>)
    requires r.Valid() && x.status.Keys == r.graph.nodes && Enabled(r, x, a)
    requires Count(x, r.graph.nodes, Running) <= r.slots
    ensures Count(Apply(r, x, a), r.graph.nodes, Running) <= r.slots
  {
    match a
    case Claim(t) =>
      ClaimRunning(r, x, t);
    case Finish(t, ok) =>
      FewerRunning(r, x, Apply(r, x, a));
    case Reconcile =>
      ReconcileRunning(r, x);
      FewerRunning(r, x, Apply(r, x, a));
  }

  lemma {:induction false} ClaimRunning<T(!new)>(r: Rules<T>, x: Exec<T>, t: T)
    requires r.Valid() && x.status.Keys == r.graph.nodes && Enabled(r, x, Claim(t))
    ensures Count(Apply(r, x, Claim(t)), r.graph.nodes, Running) <= r.slots
  {
    var y := Apply(r, x, Claim(t));
    var before := set u | u in r.graph.nodes && x.Has(u, Running);
    var after := set u | u in r.graph.nodes && y.Has(u, Running);
    assert before == InFlight(x) && after == before + {t};
  }

  lemma {:induction false} FewerRunning<T(!new)>(r: Rules<T>, x: Exec<T>, y: Exec<T>)
    requires r.Valid() && forall t :: y.Has(t, Running) ==> x.Has(t, Running)
    ensures Count(y, r.graph.nodes, Running) <= Count(x, r.graph.nodes, Running)
  {
    SubsetSize(set t | t in r.graph.nodes && y.Has(t, Running), set t | t in r.graph.nodes && x.Has(t, Running));
  }

  lemma {:induction false} ReconcileRunning<T(!new)>(r: Rules<T>, x: Exec<T>)
    requires r.Valid() && x.status.Keys == r.graph.nodes
    ensures forall t :: Reconciled(r, x).Has(t, Running) ==> x.Has(t, Running)
  {
    AllRunning(r, x, Batch(r, x));
  }

  lemma {:induction false} AllRunning<T(!new)>(r: Rules<T>, x: Exec<T>, batch: seq<T>)
    requires r.Valid()
    ensures forall t :: ResolveAll(r, x, batch).Has(t, Running) ==> x.Has(t, Running)
    decreases |batch|
  {
    if batch != [] {
      AllRunning(r, ResolveOne(r, x, batch[0]), batch[1..]);
    }
  }

  // ----- the reconciler -----

  /** How many of the first i joins are unresolved. */
  ghost function Waiting<T(!new)>(r: Rules<T>, x: Exec<T>, i: nat): nat
    requires i <= |r.joins|
  {
    if i == 0 then 0 else Waiting(r, x, i - 1) + if x.Has(r.joins[i - 1], Blocked) then 1 else 0
  }

  /** The next call settles the join of t: it is unresolved and among the first 32 that
      are, and its upstream tasks have ended. */
  ghost predicate Settles<T(!new)>(r: Rules<T>, x: Exec<T>, t: T)
    requires r.Valid()
  {
    && t in r.graph.nodes && x.Has(t, Blocked) && (exists i :: Listed(r, x, t, i))
    && forall u :: u in r.graph.up[t] ==> x.Has(u, Succeeded) || x.Has(u, Failed)
  }

  ghost predicate Listed<T(!new)>(r: Rules<T>, x: Exec<T>, t: T, i: int) {
    0 <= i < |r.joins| && r.joins[i] == t && Waiting(r, x, i) < 32
  }

  /** Enough of its upstream tasks have succeeded. */
  ghost predicate Passes<T(!new)>(r: Rules<T>, x: Exec<T>, t: T)
    requires r.Valid() && t in r.graph.nodes
  {
    Count(x, r.graph.up[t], Succeeded) >= r.needs[t]
  }

  ghost function FreeBefore<T(!new)>(joins: seq<T>, released: set<T>, i: nat): nat
    requires i <= |joins|
  {
    if i == 0 then 0 else FreeBefore(joins, released, i - 1) + if joins[i - 1] in released then 0 else 1
  }

  lemma {:induction false} FreeBeforeTail<T(!new)>(joins: seq<T>, released: set<T>, i: nat)
    requires 1 <= i <= |joins|
    ensures FreeBefore(joins, released, i)
         == (if joins[0] in released then 0 else 1) + FreeBefore(joins[1..], released, i - 1)
  {
    if i > 1 {
      FreeBeforeTail(joins, released, i - 1);
      assert joins[1..][i - 2] == joins[i - 1];
    }
  }

  /** The first n free joins are those with fewer than n free ones before them. */
  lemma {:induction false} FirstFreeIff<T(!new)>(joins: seq<T>, released: set<T>, n: nat, t: T)
    ensures t in FirstFree(joins, released, n) <==>
      t !in released && exists i :: 0 <= i < |joins| && joins[i] == t && FreeBefore(joins, released, i) < n
  {
    if joins != [] && n > 0 {
      var m := if joins[0] in released then n else n - 1;
      FirstFreeIff(joins[1..], released, m, t);
      if i :| 0 <= i < |joins| && joins[i] == t && FreeBefore(joins, released, i) < n && i > 0 {
        FreeBeforeTail(joins, released, i);
        assert joins[1..][i - 1] == t && FreeBefore(joins[1..], released, i - 1) < m;
      }
      if i :| 0 <= i < |joins[1..]| && joins[1..][i] == t && FreeBefore(joins[1..], released, i) < m {
        FreeBeforeTail(joins, released, i + 1);
        assert joins[i + 1] == t && FreeBefore(joins, released, i + 1) < n;
      }
      assert FreeBefore(joins, released, 0) == 0;
    }
  }

  lemma {:induction false} WaitingIs<T(!new)>(r: Rules<T>, x: Exec<T>, i: nat)
    requires r.Valid() && x.status.Keys == r.graph.nodes && i <= |r.joins|
    ensures Waiting(r, x, i) == FreeBefore(r.joins, Released(x), i)
  {
    if i > 0 {
      WaitingIs(r, x, i - 1);
      assert r.joins[i - 1] in r.graph.nodes;
    }
  }

  lemma {:induction false} SettlesIff<T(!new)>(r: Rules<T>, x: Exec<T>, t: T)
    requires r.Valid() && x.Live() && x.status.Keys == r.graph.nodes
    ensures Settling(r, x, t) <==> Settles(r, x, t)
    ensures Settling(r, x, t) ==> t in r.graph.nodes
  {
    hide FirstFree, Waiting, FreeBefore;
    BatchIff(r, x, t);
    if t in r.graph.nodes {
      EndedIff(r, x, t);
    }
  }

  lemma {:induction false} BatchIff<T(!new)>(r: Rules<T>, x: Exec<T>, t: T)
    requires r.Valid() && x.status.Keys == r.graph.nodes
    ensures t in Batch(r, x) <==> t !in Released(x) && exists i :: Listed(r, x, t, i)
  {
    hide FirstFree, Waiting, FreeBefore, Released;
    FirstFreeIff(r.joins, Released(x), BATCH, t);
    if i :| 0 <= i < |r.joins| && r.joins[i] == t && FreeBefore(r.joins, Released(x), i) < BATCH {
      WaitingIs(r, x, i);
      assert Listed(r, x, t, i);
    }
    if i :| Listed(r, x, t, i) {
      WaitingIs(r, x, i);
    }
  }

  lemma {:induction false} EndedIff<T(!new)>(r: Rules<T>, x: Exec<T>, t: T)
    requires r.Valid() && x.status.Keys == r.graph.nodes && t in r.graph.nodes
    ensures r.graph.up[t] <= Done(x) <==> forall u :: u in r.graph.up[t] ==> x.Has(u, Succeeded) || x.Has(u, Failed)
  {
    if r.graph.up[t] <= Done(x) {
      forall u | u in r.graph.up[t]
        ensures x.Has(u, Succeeded) || x.Has(u, Failed)
      {
        assert u in Done(x);
      }
    }
  }

  lemma {:induction false} PassesIff<T(!new)>(r: Rules<T>, x: Exec<T>, t: T)
    requires r.Valid() && t in r.graph.nodes
    ensures Enough(r, x, t) <==> Passes(r, x, t)
  {
    assert r.graph.up[t] * Won(x) == set u | u in r.graph.up[t] && x.Has(u, Succeeded);
  }

  /** When every join the call settles passes, the call releases exactly those, and the Run
      is answered exactly when a Desk has succeeded. */
  lemma {:induction false} CallReleases<T(!new)>(r: Rules<T>, x: Exec<T>)
    requires r.Valid() && x.Live() && x.status.Keys == r.graph.nodes
    requires forall t :: Settles(r, x, t) ==> Passes(r, x, t)
    ensures var y := Reconciled(r, x);
      && y.status.Keys == r.graph.nodes
      && (forall t :: t in r.graph.nodes ==> y.status[t] == if Settles(r, x, t) then Ready else x.status[t])
      && y.end == if exists t :: t in r.desks && x.Has(t, Succeeded) then Answered else Open
  {
    hide Settling, Settles, Enough, Passes, Reconciled;
    forall t
      ensures Settling(r, x, t) <==> Settles(r, x, t)
      ensures Settling(r, x, t) ==> t in r.graph.nodes && Enough(r, x, t)
    {
      SettlesIff(r, x, t);
      if Settling(r, x, t) {
        PassesIff(r, x, t);
      }
    }
    ReconcileOutcome(r, x);
    CallEnds(r, x);
    DeskIff(r, x);
  }

  lemma {:induction false} DeskIff<T(!new)>(r: Rules<T>, x: Exec<T>)
    ensures DeskWon(r, x) <==> exists t :: t in r.desks && x.Has(t, Succeeded)
  {
    assert Won(x) == set t | t in x.status && x.Has(t, Succeeded);
  }

  lemma {:induction false} CallEnds<T(!new)>(r: Rules<T>, x: Exec<T>)
    requires r.Valid() && x.Live() && x.status.Keys == r.graph.nodes
    ensures Reconciled(r, x).end in {Open, Answered, DeadLettered}
  {
  }

  /** Otherwise it dead-letters the Run: one such join fails its task, and the others it
      settles are released when they come before it and left as they are behind it. */
  lemma {:induction false} CallFails<T(!new)>(r: Rules<T>, x: Exec<T>, t: T)
    requires r.Valid() && x.Live() && x.status.Keys == r.graph.nodes && Settles(r, x, t) && !Passes(r, x, t)
    ensures var y := Reconciled(r, x);
      && y.end == DeadLettered && y.status.Keys == r.graph.nodes
      && exists f :: f in r.graph.nodes && Settles(r, x, f) && !Passes(r, x, f) && y.status[f] == Failed
           && forall u :: u in r.graph.nodes && u != f ==>
                y.status[u] == x.status[u] || (y.status[u] == Ready && Settles(r, x, u) && Passes(r, x, u))
  {
    hide Settling, Settles, Enough, Passes, Reconciled;
    SettlesIff(r, x, t);
    PassesIff(r, x, t);
    ReconcileOutcome(r, x);
    var f := FirstFailing(r, x);
    forall u
      ensures Settling(r, x, u) <==> Settles(r, x, u)
      ensures u in r.graph.nodes ==> (Enough(r, x, u) <==> Passes(r, x, u))
    {
      SettlesIff(r, x, u);
      if u in r.graph.nodes {
        PassesIff(r, x, u);
      }
    }
  }

  lemma {:induction false} FirstFailing<T(!new)>(r: Rules<T>, x: Exec<T>) returns (f: T)
    requires r.Valid() && x.Live() && x.status.Keys == r.graph.nodes && Reconciled(r, x).end == DeadLettered
    ensures var y := Reconciled(r, x);
      && y.status.Keys == r.graph.nodes && f in r.graph.nodes && Settling(r, x, f) && !Enough(r, x, f)
      && y.status[f] == Failed
      && forall u :: u in r.graph.nodes && u != f ==>
           y.status[u] == x.status[u] || (y.status[u] == Ready && Settling(r, x, u) && Enough(r, x, u))
  {
    f := FailingInBatch(r, x, Batch(r, x));
  }

  lemma {:induction false} FailingInBatch<T(!new)>(r: Rules<T>, x: Exec<T>, batch: seq<T>) returns (f: T)
    requires r.Valid() && x.Live() && x.status.Keys == r.graph.nodes && ResolveAll(r, x, batch).end == DeadLettered
    ensures var y := ResolveAll(r, x, batch);
      && y.status.Keys == r.graph.nodes && f in batch && Resolvable(r, x, f) && !Enough(r, x, f)
      && y.status[f] == Failed
      && forall u :: u in r.graph.nodes && u != f ==>
           y.status[u] == x.status[u] || (y.status[u] == Ready && u in batch && Resolvable(r, x, u) && Enough(r, x, u))
    decreases |batch|
  {
    var z := ResolveOne(r, x, batch[0]);
    if z.end == DeadLettered {
      f := batch[0];
      DeadStays(r, z, batch[1..]);
    } else {
      ResolveOneGrows(r, x, batch[0]);
      f := FailingInBatch(r, z, batch[1..]);
      ResolvedAlike(r, x, batch[0], z);
    }
  }

  /** Releasing one join changes neither what the others wait for nor what they count. */
  lemma {:induction false} ResolvedAlike<T(!new)>(r: Rules<T>, x: Exec<T>, t: T, z: Exec<T>)
    requires r.Valid() && x.Live() && z == ResolveOne(r, x, t) && z.Live()
    ensures forall u :: Resolvable(r, z, u) ==> Resolvable(r, x, u)
    ensures forall u :: u in r.graph.nodes ==> (Enough(r, z, u) <==> Enough(r, x, u))
  {
    assert Done(z) == Done(x) && Won(z) == Won(x);
  }

  // ----- the rules of an accepted plan -----

  /** What the installed rules take from a plan, field by field. */
  ghost predicate FollowsPlan(p: Plan, r: Rules<string>) {
    && (forall t :: t in r.graph.nodes <==> Terms.IsTask(p, t))
    && r.graph.Valid() && r.depth.Keys == r.graph.nodes && r.needs.Keys == r.graph.nodes
    && (forall f, t :: t in r.graph.nodes ==> (f in r.graph.up[t] <==> Edge(f, t) in p.edges))
    && (forall node :: node in p.nodes ==> NodeFollows(p, node, r))
    && (forall join :: join in p.joins ==>
          && join.downstream in r.graph.nodes && r.needs[join.downstream] == join.minimumSuccess
          && (join.downstream in r.strict <==> join.policy == AllRequired))
    && (forall t :: t in r.graph.nodes && !Terms.Joined(p, t) ==>
          t in r.strict && r.needs[t] == |r.graph.up[t]|)
    && r.slots == p.authorizedLimit.maxParallelism as int
    && |r.joins| == |p.joins| && forall i :: 0 <= i < |p.joins| ==> r.joins[i] == p.joins[i].downstream
  }

  /** Workers are told about a Desk with a join, about a Specialist without a tool, and about
      one with a tool of revision 1 that may call the model twice. */
  ghost predicate NodeFollows(p: Plan, node: Node, r: Rules<string>) {
    && node.taskId in r.depth && r.depth[node.taskId] == node.depth
    && (node.taskId in r.desks <==> node.roleId == "decision_desk")
    && (node.taskId in r.offered <==>
          if node.roleId == "decision_desk" then Terms.Joined(p, node.taskId)
          else node.toolGrants == [] || (node.toolGrants[0].toolRevision == 1 && node.limit.maxModelCalls >= 2))
  }

  lemma {:induction false} RulesFollowPlan(catalog: Capability.Catalog, p: Plan)
    requires PlanValid(catalog, p)
    ensures p.authorizedLimit.maxParallelism >= 1 && FollowsPlan(p, Progress.RulesOf(p, false))
  {
    hide Terms.IsTask, Terms.Joined, NodeFollows, Progress.NodeOf, Progress.JoinOf, NodesValid, JoinsValid,
      Progress.IsOffered, Acyclic, DepthValid, Downstream;
    Bounded(catalog, p);
    var r := Progress.RulesOf(p, false);
    forall t
      ensures t in r.graph.nodes <==> Terms.IsTask(p, t)
    {
      Terms.TaskIff(p, t);
    }
    forall f, t | t in r.graph.nodes
      ensures f in r.graph.up[t] <==> Edge(f, t) in p.edges
    {
      Terms.UpstreamIff(p, f, t);
    }
    forall node | node in p.nodes
      ensures NodeFollows(p, node, r)
    {
      NodeFollowsPlan(catalog, p, node);
    }
    forall join | join in p.joins
      ensures join.downstream in r.graph.nodes && r.needs[join.downstream] == join.minimumSuccess
      ensures join.downstream in r.strict <==> join.policy == AllRequired
    {
      JoinFollows(catalog, p, join);
    }
    forall t | t in r.graph.nodes && !Terms.Joined(p, t)
      ensures Progress.JoinOf(p, t).None?
    {
      UnjoinedHasNone(p, t);
    }
  }

  lemma {:induction false} UnjoinedHasNone(p: Plan, t: string)
    ensures Progress.JoinOf(p, t).Some? ==> Terms.Joined(p, t)
  {
    if Progress.JoinOf(p, t).Some? {
      var i :| 0 <= i < |p.joins| && p.joins[i] == Progress.JoinOf(p, t).value;
      assert p.joins[i].downstream == t;
    }
  }

  lemma {:induction false} JoinFollows(catalog: Capability.Catalog, p: Plan, join: Join)
    requires PlanValid(catalog, p) && join in p.joins
    ensures join.downstream in TaskSet(p) && Progress.JoinOf(p, join.downstream) == Some(join)
    ensures join.minimumSuccess >= 0
  {
    assert JoinAccepted(p, join);
    Progress.JoinsOneToOne(catalog, p);
  }

  lemma {:induction false} NodeFollowsPlan(catalog: Capability.Catalog, p: Plan, node: Node)
    requires PlanValid(catalog, p) && node in p.nodes
    ensures NodeFollows(p, node, Progress.RulesOf(p, false))
  {
    hide NodeAccepted, HeaderValid, Terms.Joined, TopologyValid;
    NodeOfIs(p, node);
    Terms.JoinedIff(p, node.taskId);
    assert Progress.JoinOrder(p, false) == JoinedTasks(p.joins);
    assert p.authorizedLimit.maxParallelism >= 1 && EdgesValid(TaskSet(p), p.edges) by {
      Bounded(catalog, p);
    }
  }

  lemma {:induction false} Bounded(catalog: Capability.Catalog, p: Plan)
    requires PlanValid(catalog, p)
    ensures p.authorizedLimit.maxParallelism >= 1 && EdgesValid(TaskSet(p), p.edges)
  {
  }

  lemma {:induction false} NodeOfIs(p: Plan, node: Node)
    requires Distinct(TaskIds(p.nodes)) && node in p.nodes
    ensures node.taskId in TaskSet(p) && Progress.NodeOf(p, node.taskId) == node
  {
    var i :| 0 <= i < |p.nodes| && p.nodes[i] == node;
    assert TaskIds(p.nodes)[i] == node.taskId;
    forall j | 0 <= j < |p.nodes| && TaskIds(p.nodes)[j] == node.taskId
      ensures j == i
    {
      DistinctPositions(TaskIds(p.nodes), i, j);
    }
  }
}
