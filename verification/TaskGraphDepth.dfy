// The longest-path pass of the task-graph checker
// (agent-platform/taskgraphcontract/validate.go, graphDepths).
module TaskGraphDepth {
  import opened Collections

  // The pass never looks inside a task ID, so the type of IDs is a parameter.

  /** A task graph: up[t] is the set of tasks with an edge to t. */
  datatype Graph<T> = Graph(nodes: set<T>, up: map<T, set<T>>) {
    ghost predicate Valid() {
      up.Keys == nodes && forall t :: t in nodes ==> up[t] <= nodes
    }
  }

  ghost predicate IsPath<T(!new)>(g: Graph<T>, p: seq<T>)
    requires g.Valid()
  {
    && p != []
    && (forall i :: 0 <= i < |p| ==> p[i] in g.nodes)
    && (forall i :: 0 <= i < |p| - 1 ==> p[i] in g.up[p[i + 1]])
  }

  ghost predicate PathTo<T(!new)>(g: Graph<T>, p: seq<T>, t: T)
    requires g.Valid()
  {
    IsPath(g, p) && p[|p| - 1] == t
  }

  /** A closed walk: a path that comes back to where it started. */
  ghost predicate IsCycle<T(!new)>(g: Graph<T>, p: seq<T>)
    requires g.Valid()
  {
    IsPath(g, p) && |p| >= 2 && p[0] == p[|p| - 1]
  }

  ghost predicate Acyclic<T(!new)>(g: Graph<T>)
    requires g.Valid()
  {
    forall p :: !IsCycle(g, p)
  }

  /** d is the number of nodes on a longest path ending at t. */
  ghost predicate LongestPath<T(!new)>(g: Graph<T>, t: T, d: int)
    requires g.Valid()
  {
    && (exists p :: PathTo(g, p, t) && |p| == d)
    && (forall p :: PathTo(g, p, t) ==> |p| <= d)
  }

  function Get<T>(m: map<T, int>, t: T): int {
    if t in m then m[t] else 0
  }

  /** The depth entry of a task with upstream set up when exactly the upstream
      tasks in seen have reported. */
  ghost predicate Entry<T(!new)>(depth: map<T, int>, t: T, up: set<T>, seen: set<T>) {
    if up == {} then t in depth && depth[t] == 1
    else if seen == {} then t !in depth
    else
      && t in depth
      && (forall p :: p in seen ==> Get(depth, p) + 1 <= depth[t])
      && (exists p :: p in seen && Get(depth, p) + 1 == depth[t])
  }

  ghost predicate Positive<T(!new)>(depth: map<T, int>) {
    forall t :: t in depth ==> depth[t] >= 1
  }

  /** t is done exactly when its upstream tasks are. */
  ghost predicate Reported<T(!new)>(g: Graph<T>, done: set<T>, t: T)
    requires g.Valid() && t in g.nodes
  {
    t in done <==> g.up[t] <= done
  }

  /** What the worklist leaves behind, whichever order it ran in: the tasks in
      done are those whose upstream tasks are all in done, and every depth entry
      is one more than the greatest depth among the done upstream tasks. */
  ghost predicate Settled<T(!new)>(g: Graph<T>, depth: map<T, int>, done: set<T>)
    requires g.Valid()
  {
    && done <= g.nodes && depth.Keys <= g.nodes && Positive(depth)
    && (forall t {:trigger Reported(g, done, t)} :: t in g.nodes ==> Reported(g, done, t))
    && (forall t {:trigger Entry(depth, t, g.up[t], g.up[t] * done)} ::
         t in g.nodes ==> Entry(depth, t, g.up[t], g.up[t] * done))
    && (forall t, p :: t in done && p in g.up[t] ==> Get(depth, p) < Get(depth, t))
  }

  // ----- what a settled table says about paths -----

  lemma {:induction false} PathBelowDepth<T(!new)>(g: Graph<T>, depth: map<T, int>, p: seq<T>)
    requires g.Valid() && Settled(g, depth, g.nodes) && IsPath(g, p)
    ensures |p| <= Get(depth, p[|p| - 1])
  {
    var t := p[|p| - 1];
    assert Entry(depth, t, g.up[t], g.up[t] * g.nodes);
    if |p| > 1 {
      assert p[|p| - 2] in g.up[p[|p| - 2 + 1]];
      PathBelowDepth(g, depth, p[..|p| - 1]);
    }
  }

  lemma {:induction false} PathOfDepth<T(!new)>(g: Graph<T>, depth: map<T, int>, t: T) returns (p: seq<T>)
    requires g.Valid() && Settled(g, depth, g.nodes) && t in g.nodes
    ensures t in depth && PathTo(g, p, t) && |p| == depth[t]
    decreases Get(depth, t)
  {
    assert Entry(depth, t, g.up[t], g.up[t] * g.nodes);
    assert g.up[t] * g.nodes == g.up[t];
    if g.up[t] == {} {
      p := [t];
    } else {
      var u :| u in g.up[t] && Get(depth, u) + 1 == depth[t];
      var q := PathOfDepth(g, depth, u);
      p := q + [t];
    }
  }

  lemma {:induction false} DepthAlongPath<T(!new)>(g: Graph<T>, depth: map<T, int>, p: seq<T>)
    requires g.Valid() && Settled(g, depth, g.nodes) && IsPath(g, p)
    ensures Get(depth, p[0]) + |p| - 1 <= Get(depth, p[|p| - 1])
  {
    if |p| > 1 {
      assert p[|p| - 2] in g.up[p[|p| - 2 + 1]];
      DepthAlongPath(g, depth, p[..|p| - 1]);
    }
  }

  /** A task that never became ready has an endless supply of unready ancestors. */
  lemma {:induction false} UnreadyWalk<T(!new)>(g: Graph<T>, depth: map<T, int>, done: set<T>, n: nat)
      returns (p: seq<T>)
    requires g.Valid() && Settled(g, depth, done) && done != g.nodes && n >= 1
    ensures IsPath(g, p) && |p| == n && p[0] !in done
  {
    if n == 1 {
      var t :| t in g.nodes && t !in done;
      p := [t];
    } else {
      var q := UnreadyWalk(g, depth, done, n - 1);
      assert Reported(g, done, q[0]);
      var u :| u in g.up[q[0]] && u !in done;
      p := [u] + q;
    }
  }

  /** A walk with more nodes than the graph contains a cycle. */
  lemma {:induction false} LongWalkCycles<T(!new)>(g: Graph<T>, p: seq<T>)
    requires g.Valid() && IsPath(g, p) && |p| > |g.nodes|
    ensures !Acyclic(g)
  {
    var i, j := Pigeonhole(p, g.nodes);
    var c := p[i..j + 1];
    forall k | 0 <= k < |c| - 1
      ensures c[k] in g.up[c[k + 1]]
    {
      assert p[i + k] in g.up[p[i + k + 1]];
    }
    assert IsCycle(g, c);
  }

  /** A settled table is complete exactly when the graph is acyclic, and then
      holds the longest-path lengths. */
  lemma {:induction false} SettledDecides<T(!new)>(g: Graph<T>, depth: map<T, int>, done: set<T>)
    requires g.Valid() && Settled(g, depth, done)
    ensures done == g.nodes <==> Acyclic(g)
    ensures done == g.nodes ==> depth.Keys == g.nodes && forall t :: t in g.nodes ==> LongestPath(g, t, depth[t])
  {
    if done == g.nodes {
      forall p ensures !IsCycle(g, p) {
        if IsCycle(g, p) {
          DepthAlongPath(g, depth, p);
        }
      }
      forall t | t in g.nodes
        ensures t in depth && LongestPath(g, t, depth[t])
      {
        var p := PathOfDepth(g, depth, t);
        forall q | PathTo(g, q, t) ensures |q| <= depth[t] {
          PathBelowDepth(g, depth, q);
        }
      }
    } else {
      var p := UnreadyWalk(g, depth, done, |g.nodes| + 1);
      LongWalkCycles(g, p);
    }
  }

  /** The outcome does not depend on the order of map iteration or of the queue:
      two settled tables of one graph agree on every entry and on the flag. */
  lemma {:induction false} SettledUnique<T(!new)>(g: Graph<T>, d1: map<T, int>, done1: set<T>, d2: map<T, int>,
                                                  done2: set<T>)
    requires g.Valid() && Settled(g, d1, done1) && Settled(g, d2, done2)
    ensures done1 == done2 && d1 == d2
  {
    forall t | t in g.nodes
      ensures t in done1 <==> t in done2
    {
      if t in done1 {
        DoneEverywhere(g, d1, done1, d2, done2, t);
      }
      if t in done2 {
        DoneEverywhere(g, d2, done2, d1, done1, t);
      }
    }
    assert done1 == done2;
    forall t | t in g.nodes
      ensures t in d1 <==> t in d2
      ensures t in d1 ==> d1[t] == d2[t]
    {
      EntryUnique(g, d1, d2, done1, t);
    }
    assert d1.Keys == d2.Keys;
  }

  lemma {:induction false} DoneEverywhere<T(!new)>(g: Graph<T>, d1: map<T, int>, done1: set<T>,
                                                   d2: map<T, int>, done2: set<T>, t: T)
    requires g.Valid() && Settled(g, d1, done1) && Settled(g, d2, done2) && t in done1
    ensures t in done2
    decreases Get(d1, t)
  {
    assert Reported(g, done1, t) && Reported(g, done2, t);
    forall p | p in g.up[t]
      ensures p in done2
    {
      DoneEverywhere(g, d1, done1, d2, done2, p);
    }
  }

  lemma {:induction false} EntryUnique<T(!new)>(g: Graph<T>, d1: map<T, int>, d2: map<T, int>, done: set<T>, t: T)
    requires g.Valid() && Settled(g, d1, done) && Settled(g, d2, done) && t in g.nodes
    ensures t in d1 <==> t in d2
    ensures t in d1 ==> d1[t] == d2[t]
    decreases Get(d1, t)
  {
    var seen := g.up[t] * done;
    assert Entry(d1, t, g.up[t], seen) && Entry(d2, t, g.up[t], seen);
    if g.up[t] != {} && seen != {} {
      forall p | p in seen
        ensures Get(d1, p) == Get(d2, p)
      {
        EntryUnique(g, d1, d2, done, p);
      }
      var p1 :| p1 in seen && Get(d1, p1) + 1 == d1[t];
      var p2 :| p2 in seen && Get(d2, p2) + 1 == d2[t];
    }
  }

  // ----- the worklist -----

  /** The two adjacency tables built while the edges are read; a missing key is
      an empty list, as in a Go map of slices. */
  type Table<!T> = map<T, seq<T>>

  function At<T>(m: Table<T>, t: T): seq<T> {
    if t in m then m[t] else []
  }

  ghost predicate Lists<T(!new)>(s: seq<T>, elements: set<T>) {
    Distinct(s) && Elements(s) == elements
  }

  /** The tables list the edges of g, each once in each direction. */
  ghost predicate Tables<T(!new)>(g: Graph<T>, incoming: Table<T>, outgoing: Table<T>)
    requires g.Valid()
  {
    && (forall t {:trigger Lists(At(incoming, t), g.up[t])} :: t in g.nodes ==> Lists(At(incoming, t), g.up[t]))
    && (forall f {:trigger Lists(At(outgoing, f), Down(g, f))} :: f in g.nodes ==> Lists(At(outgoing, f), Down(g, f)))
  }

  ghost function Down<T(!new)>(g: Graph<T>, f: T): set<T>
    requires g.Valid()
  {
    set t | t in g.nodes && f in g.up[t]
  }

  /** The loop state of one task while the edges task -> walked are counted off:
      done is processed, ready is queued, remaining counts the rest. */
  ghost predicate TaskState<T(!new)>(g: Graph<T>, remaining: map<T, int>, depth: map<T, int>, ready: set<T>,
                                     done: set<T>, counted: set<T>, t: T)
    requires g.Valid() && t in g.nodes
  {
    && t in remaining
    && remaining[t] == |g.up[t] - counted|
    && (remaining[t] == 0 <==> t in done || t in ready)
    && Entry(depth, t, g.up[t], g.up[t] * counted)
  }

  ghost predicate Worklist<T(!new)>(g: Graph<T>, remaining: map<T, int>, depth: map<T, int>, ready: set<T>,
                                    done: set<T>)
    requires g.Valid()
  {
    && remaining.Keys == g.nodes && depth.Keys <= g.nodes && Positive(depth)
    && ready <= g.nodes && ready !! done && done <= g.nodes
    && (forall t {:trigger TaskState(g, remaining, depth, ready, done, done, t)} ::
         t in g.nodes ==> TaskState(g, remaining, depth, ready, done, done, t))
  }

  lemma {:induction false} EmptyDifference<T>(a: set<T>, b: set<T>)
    ensures |a - b| == 0 <==> a <= b
  {
    if a <= b {
      assert a - b == {};
    } else {
      var x :| x in a && x !in b;
      assert x in a - b;
    }
  }

  lemma {:induction false} WorklistSettles<T(!new)>(g: Graph<T>, remaining: map<T, int>, depth: map<T, int>,
                                                    done: set<T>)
    requires g.Valid() && Worklist(g, remaining, depth, {}, done)
    ensures Settled(g, depth, done)
  {
    forall t | t in g.nodes
      ensures Reported(g, done, t)
      ensures Entry(depth, t, g.up[t], g.up[t] * done)
    {
      assert TaskState(g, remaining, depth, {}, done, done, t);
      EmptyDifference(g.up[t], done);
    }
    forall t, p | t in done && p in g.up[t]
      ensures Get(depth, p) < Get(depth, t)
    {
      assert p in g.up[t] * done;
    }
  }

  /** What has reported to t while the edges task -> walked are counted off. */
  ghost function Counted<T(!new)>(done: set<T>, task: T, walked: set<T>, t: T): set<T> {
    if t in walked then done else done - {task}
  }

  /** The state of the whole table inside the walk over the edges of task. */
  ghost predicate Walking<T(!new)>(g: Graph<T>, remaining: map<T, int>, depth: map<T, int>, ready: set<T>,
                                   done: set<T>, task: T, walked: set<T>)
    requires g.Valid()
  {
    && remaining.Keys == g.nodes && depth.Keys <= g.nodes && Positive(depth)
    && ready <= g.nodes && ready !! done && done <= g.nodes
    && task in depth && task in done && task !in walked && task !in g.up[task]
    && (forall t {:trigger TaskState(g, remaining, depth, ready, done, Counted(done, task, walked, t), t)} ::
         t in g.nodes ==> TaskState(g, remaining, depth, ready, done, Counted(done, task, walked, t), t))
  }

  lemma {:induction false} CountOne<T>(up: set<T>, done: set<T>, task: T)
    requires task in up && task in done
    ensures |up - done| == |up - (done - {task})| - 1
    ensures up * done == up * (done - {task}) + {task}
  {
    assert up - (done - {task}) == up - done + {task};
  }

  lemma {:induction false} CountNone<T>(up: set<T>, done: set<T>, task: T)
    requires task !in up
    ensures up - (done - {task}) == up - done
    ensures up * (done - {task}) == up * done
  {
  }

  /** A change at target alone leaves the state of the other tasks as it is. */
  lemma {:induction false} KeepState<T(!new)>(g: Graph<T>, remaining: map<T, int>, remaining': map<T, int>,
                                              depth: map<T, int>, depth': map<T, int>, ready: set<T>,
                                              ready': set<T>, done: set<T>, counted: set<T>, target: T, t: T)
    requires g.Valid() && t in g.nodes && t != target && target !in counted
    requires TaskState(g, remaining, depth, ready, done, counted, t)
    requires t in remaining' && remaining'[t] == remaining[t] && (t in ready <==> t in ready')
    requires forall p :: p != target ==> (p in depth <==> p in depth') && Get(depth', p) == Get(depth, p)
    ensures TaskState(g, remaining', depth', ready', done, counted, t)
  {
    KeepEntry(depth, depth', target, t, g.up[t], g.up[t] * counted);
  }

  lemma {:induction false} CountState<T(!new)>(g: Graph<T>, remaining: map<T, int>, depth: map<T, int>, ready: set<T>,
                                               done: set<T>, task: T, target: T, depth': map<T, int>)
    requires g.Valid() && target in g.nodes && task in g.up[target] && task in done && task != target
    requires TaskState(g, remaining, depth, ready, done, done - {task}, target)
    requires Positive(depth) && task in depth
    requires depth' == if depth[task] + 1 > Get(depth, target) then depth[target := depth[task] + 1] else depth
    ensures target !in done && target !in ready && remaining[target] >= 1
    ensures var remaining' := remaining[target := remaining[target] - 1];
            var ready' := if remaining[target] == 1 then ready + {target} else ready;
            TaskState(g, remaining', depth', ready', done, done, target)
  {
    CountOne(g.up[target], done, task);
    RaiseEntry(depth, depth', target, g.up[target], g.up[target] * (done - {task}), task);
  }

  /** Counting off the edge task -> target and raising its depth entry. */
  lemma {:induction false} WalkEdge<T(!new)>(g: Graph<T>, remaining: map<T, int>, depth: map<T, int>, ready: set<T>,
                                             done: set<T>, task: T, walked: set<T>, target: T, depth': map<T, int>)
    requires g.Valid() && Walking(g, remaining, depth, ready, done, task, walked)
    requires target in g.nodes && task in g.up[target] && target !in walked
    requires depth' == if depth[task] + 1 > Get(depth, target) then depth[target := depth[task] + 1] else depth
    ensures target != task && target !in ready && remaining[target] >= 1
    ensures var remaining' := remaining[target := remaining[target] - 1];
            var ready' := if remaining[target] == 1 then ready + {target} else ready;
            Walking(g, remaining', depth', ready', done, task, walked + {target})
  {
    hide Entry;
    assert TaskState(g, remaining, depth, ready, done, Counted(done, task, walked, target), target);
    CountState(g, remaining, depth, ready, done, task, target, depth');
    var remaining' := remaining[target := remaining[target] - 1];
    var ready' := if remaining[target] == 1 then ready + {target} else ready;
    forall t {:trigger TaskState(g, remaining', depth', ready', done, Counted(done, task, walked + {target}, t), t)}
      | t in g.nodes
      ensures TaskState(g, remaining', depth', ready', done, Counted(done, task, walked + {target}, t), t)
    {
      if t != target {
        var counted := Counted(done, task, walked, t);
        assert TaskState(g, remaining, depth, ready, done, counted, t);
        KeepState(g, remaining, remaining', depth, depth', ready, ready', done, counted, target, t);
      }
    }
  }

  lemma {:induction false} RaiseEntry<T(!new)>(depth: map<T, int>, depth': map<T, int>, t: T, up: set<T>, seen: set<T>,
                                               task: T)
    requires Entry(depth, t, up, seen) && up != {} && task in depth && task != t && t !in seen
    requires Positive(depth)
    requires depth' == if depth[task] + 1 > Get(depth, t) then depth[t := depth[task] + 1] else depth
    ensures Entry(depth', t, up, seen + {task})
  {
    assert Get(depth', task) == depth[task];
    forall p | p in seen
      ensures Get(depth', p) == Get(depth, p)
    {
    }
    if depth' == depth {
      assert seen != {};
      var p :| p in seen && Get(depth, p) + 1 == depth[t];
      assert p in seen + {task};
    } else {
      assert task in seen + {task};
    }
  }

  lemma {:induction false} KeepEntry<T(!new)>(depth: map<T, int>, depth': map<T, int>, target: T, t: T, up: set<T>,
                                              seen: set<T>)
    requires Entry(depth, t, up, seen) && t != target && target !in seen
    requires forall p :: p != target ==> (p in depth <==> p in depth') && Get(depth', p) == Get(depth, p)
    ensures Entry(depth', t, up, seen)
  {
    assert Get(depth', t) == Get(depth, t);
    forall p | p in seen
      ensures Get(depth', p) == Get(depth, p)
    {
    }
  }

  /** When every edge of task is walked, the worklist state is back. */
  lemma {:induction false} WalkDone<T(!new)>(g: Graph<T>, remaining: map<T, int>, depth: map<T, int>, ready: set<T>,
                                             done: set<T>, task: T)
    requires g.Valid() && Walking(g, remaining, depth, ready, done, task, Down(g, task))
    ensures Worklist(g, remaining, depth, ready, done)
  {
    forall t {:trigger TaskState(g, remaining, depth, ready, done, done, t)} | t in g.nodes
      ensures TaskState(g, remaining, depth, ready, done, done, t)
    {
      assert TaskState(g, remaining, depth, ready, done, Counted(done, task, Down(g, task), t), t);
      if task !in g.up[t] {
        CountNone(g.up[t], done, task);
      }
    }
  }

  /** Taking a ready task out of the queue starts the walk over its edges. */
  lemma {:induction false} WalkStart<T(!new)>(g: Graph<T>, remaining: map<T, int>, depth: map<T, int>, ready: set<T>,
                                              done: set<T>, task: T)
    requires g.Valid() && Worklist(g, remaining, depth, ready, done) && task in ready
    ensures Walking(g, remaining, depth, ready - {task}, done + {task}, task, {})
    ensures |done + {task}| == |done| + 1 <= |g.nodes|
  {
    assert TaskState(g, remaining, depth, ready, done, done, task);
    EmptyDifference(g.up[task], done);
    assert g.up[task] * done == g.up[task];
    SubsetSize(done + {task}, g.nodes);
    assert done + {task} - {task} == done;
    forall t {:trigger TaskState(g, remaining, depth, ready - {task}, done + {task},
                                 Counted(done + {task}, task, {}, t), t)} | t in g.nodes
      ensures TaskState(g, remaining, depth, ready - {task}, done + {task}, Counted(done + {task}, task, {}, t), t)
    {
      assert TaskState(g, remaining, depth, ready, done, done, t);
    }
  }

  method GraphDepths<T(==,!new)>(ghost g: Graph<T>, nodes: set<T>, incoming: Table<T>, outgoing: Table<T>)
      returns (depth: map<T, int>, ok: bool)
    requires g.Valid() && nodes == g.nodes && Tables(g, incoming, outgoing)
    ensures ok <==> Acyclic(g)
    ensures ok ==> depth.Keys == g.nodes && forall t :: t in g.nodes ==> LongestPath(g, t, depth[t])
    ensures exists done :: Settled(g, depth, done) && (ok <==> done == g.nodes)
  {
    var remaining, queue;
    remaining, depth, queue := CountIncoming(g, nodes, incoming);
    var visited := 0;
    ghost var done: set<T> := {};
    while queue != []
      invariant Distinct(queue) && Worklist(g, remaining, depth, Elements(queue), done)
      invariant visited == |done|
      decreases |g.nodes| - |done|
    {
      var task := queue[0];
      DistinctTail(queue);
      assert queue == [task] + queue[1..];
      assert Elements(queue[1..]) == Elements(queue) - {task};
      WalkStart(g, remaining, depth, Elements(queue), done, task);
      queue := queue[1..];
      visited := visited + 1;
      done := done + {task};
      assert Lists(At(outgoing, task), Down(g, task));
      remaining, depth, queue := WalkTargets(g, task, At(outgoing, task), remaining, depth, queue, done);
      WalkDone(g, remaining, depth, Elements(queue), done, task);
    }
    assert Elements(queue) == {};
    WorklistSettles(g, remaining, depth, done);
    SubsetSize(done, g.nodes);
    ok := visited == |nodes|;
    SettledDecides(g, depth, done);
  }

  /** The first loop: every task without incoming edges is queued at depth 1. */
  method CountIncoming<T(==,!new)>(ghost g: Graph<T>, nodes: set<T>, incoming: Table<T>)
      returns (remaining: map<T, int>, depth: map<T, int>, queue: seq<T>)
    requires g.Valid() && nodes == g.nodes
    requires forall t {:trigger Lists(At(incoming, t), g.up[t])} :: t in g.nodes ==> Lists(At(incoming, t), g.up[t])
    ensures Distinct(queue) && Worklist(g, remaining, depth, Elements(queue), {})
  {
    remaining, depth, queue := map[], map[], [];
    var todo := nodes;
    ghost var seen: set<T> := {};
    while todo != {}
      invariant forall u :: u in nodes <==> u in todo || u in seen
      invariant forall u :: u in todo ==> u !in seen
      invariant Distinct(queue) && Counting(g, remaining, depth, Elements(queue), seen)
      decreases todo
    {
      var t :| t in todo;
      ghost var remaining0, depth0, ready0 := remaining, depth, Elements(queue);
      remaining := remaining[t := |At(incoming, t)|];
      assert Lists(At(incoming, t), g.up[t]);
      DistinctLength(At(incoming, t));
      if remaining[t] == 0 {
        DistinctSnoc(queue, t);
        ElementsSnoc(queue, t);
        queue := queue + [t];
        depth := depth[t := 1];
      }
      assert g.up[t] == Elements(At(incoming, t));
      CountedNext(g, remaining0, remaining, depth0, depth, ready0, Elements(queue), seen, t);
      seen := seen + {t};
      todo := todo - {t};
    }
    assert seen == nodes;
    CountedAll(g, remaining, depth, Elements(queue));
  }

  /** Task t as the first loop leaves it: no edge is counted off yet. */
  ghost predicate AtStart<T(!new)>(g: Graph<T>, remaining: map<T, int>, depth: map<T, int>, ready: set<T>, t: T)
    requires g.Valid() && t in g.nodes
  {
    TaskState(g, remaining, depth, ready, {}, {}, t)
  }

  /** The first loop has entered exactly the tasks of seen. */
  ghost predicate Counting<T(!new)>(g: Graph<T>, remaining: map<T, int>, depth: map<T, int>, ready: set<T>,
                                    seen: set<T>)
    requires g.Valid()
  {
    && seen <= g.nodes && remaining.Keys == seen && depth.Keys <= seen && ready <= seen && Positive(depth)
    && (forall t {:trigger AtStart(g, remaining, depth, ready, t)} :: t in seen ==>
      AtStart(g, remaining, depth, ready, t))
  }

  /** Entering t keeps the states of the tasks entered before it. */
  lemma {:induction false} CountedNext<T(!new)>(g: Graph<T>, remaining: map<T, int>, remaining': map<T, int>,
                                                depth: map<T, int>, depth': map<T, int>, ready: set<T>,
                                                ready': set<T>, seen: set<T>, t: T)
    requires g.Valid() && t in g.nodes && t !in seen && Counting(g, remaining, depth, ready, seen)
    requires remaining' == remaining[t := |g.up[t]|]
    requires if |g.up[t]| == 0 then depth' == depth[t := 1] && ready' == ready + {t}
      else depth' == depth && ready' == ready
    ensures Counting(g, remaining', depth', ready', seen + {t})
  {
    FirstState(g, remaining', depth', ready', t);
    forall u {:trigger AtStart(g, remaining', depth', ready', u)} | u in seen
      ensures AtStart(g, remaining', depth', ready', u)
    {
      assert AtStart(g, remaining, depth, ready, u);
      KeepState(g, remaining, remaining', depth, depth', ready, ready', {}, {}, t, u);
    }
    assert AtStart(g, remaining', depth', ready', t);
  }

  lemma {:induction false} CountedAll<T(!new)>(g: Graph<T>, remaining: map<T, int>, depth: map<T, int>, ready: set<T>)
    requires g.Valid() && Counting(g, remaining, depth, ready, g.nodes)
    ensures Worklist(g, remaining, depth, ready, {})
  {
    forall t {:trigger TaskState(g, remaining, depth, ready, {}, {}, t)} | t in g.nodes
      ensures TaskState(g, remaining, depth, ready, {}, {}, t)
    {
      assert AtStart(g, remaining, depth, ready, t);
    }
  }

  lemma {:induction false} FirstState<T(!new)>(g: Graph<T>, remaining: map<T, int>, depth: map<T, int>, ready: set<T>,
                                               t: T)
    requires g.Valid() && t in g.nodes && t in remaining && remaining[t] == |g.up[t]|
    requires t in ready <==> remaining[t] == 0
    requires if remaining[t] == 0 then t in depth && depth[t] == 1 else t !in depth
    ensures TaskState(g, remaining, depth, ready, {}, {}, t)
  {
    assert g.up[t] - {} == g.up[t] && g.up[t] * {} == {};
  }

  /** The inner loop: walk the edges of one task. */
  method WalkTargets<T(==,!new)>(ghost g: Graph<T>, task: T, targets: seq<T>, remaining0: map<T, int>,
                                 depth0: map<T, int>, queue0: seq<T>, ghost done: set<T>)
      returns (remaining: map<T, int>, depth: map<T, int>, queue: seq<T>)
    requires g.Valid() && Distinct(queue0) && Distinct(targets)
    requires Walking(g, remaining0, depth0, Elements(queue0), done, task, {}) && Elements(targets) == Down(g, task)
    ensures Distinct(queue) && Walking(g, remaining, depth, Elements(queue), done, task, Down(g, task))
  {
    remaining, depth, queue := remaining0, depth0, queue0;
    ghost var ready, walked: set<T> := Elements(queue), {};
    var i := 0;
    while i < |targets|
      invariant 0 <= i <= |targets|
      invariant Distinct(queue) && Elements(queue) == ready && Elements(targets[..i]) == walked
      invariant Walking(g, remaining, depth, ready, done, task, walked)
    {
      var target := targets[i];
      NextTarget(targets, i);
      assert target in Down(g, task);
      var candidate := Get(depth, task) + 1;
      ghost var depth1 := depth;
      if candidate > Get(depth, target) {
        depth := depth[target := candidate];
      }
      WalkEdge(g, remaining, depth1, ready, done, task, walked, target, depth);
      remaining := remaining[target := remaining[target] - 1];
      if remaining[target] == 0 {
        DistinctSnoc(queue, target);
        ElementsSnoc(queue, target);
        queue := queue + [target];
        ready := ready + {target};
      }
      walked := walked + {target};
      i := i + 1;
    }
    assert targets[..i] == targets;
  }

  lemma {:induction false} NextTarget<T(!new)>(targets: seq<T>, i: nat)
    requires Distinct(targets) && i < |targets|
    ensures targets[i] in Elements(targets) && targets[i] !in Elements(targets[..i])
    ensures Elements(targets[..i + 1]) == Elements(targets[..i]) + {targets[i]}
  {
    DistinctAt(targets, i);
    assert targets[..i + 1] == targets[..i] + [targets[i]];
    ElementsSnoc(targets[..i], targets[i]);
  }
}
