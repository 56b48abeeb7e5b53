// The shape every planned graph has: leaves with one edge each to a hub
// (agent-platform/taskgraphplanner/planner.go).
module TaskGraphStar {
  import opened Collections
  import opened TaskGraphDepth
  import opened TaskGraphEdges

  ghost function Star<T(!new)>(leaves: seq<T>, hub: T): (edges: seq<Edge<T>>)
    ensures |edges| == |leaves|
    ensures forall i {:trigger edges[i]} :: 0 <= i < |leaves| ==> edges[i] == Edge(leaves[i], hub)
  {
    seq(|leaves|, i requires 0 <= i < |leaves| => Edge(leaves[i], hub))
  }

  lemma {:induction false} StarSnoc<T(!new)>(leaves: seq<T>, hub: T, leaf: T)
    ensures Star(leaves + [leaf], hub) == Star(leaves, hub) + [Edge(leaf, hub)]
  {
  }

  lemma {:induction false} StarValid<T(!new)>(leaves: seq<T>, hub: T)
    requires Distinct(leaves) && hub !in leaves
    ensures EdgesValid(Elements(leaves) + {hub}, Star(leaves, hub))
  {
    var edges := Star(leaves, hub);
    forall i, j | 0 <= i < j < |edges|
      ensures edges[i] != edges[j]
    {
      DistinctPositions(leaves, i, j);
    }
    DistinctIfApart(edges);
    forall e | e in edges
      ensures EdgeWithin(Elements(leaves) + {hub}, e)
    {
      var i :| 0 <= i < |edges| && edges[i] == e;
    }
  }

  lemma {:induction false} StarEnds<T(!new)>(leaves: seq<T>, hub: T, t: T)
    requires hub !in leaves
    ensures Upstream(Star(leaves, hub), t) == if t == hub then Elements(leaves) else {}
    ensures Downstream(Star(leaves, hub), t) == if t in leaves then {hub} else {}
  {
    var edges := Star(leaves, hub);
    forall f
      ensures f in Upstream(edges, t) <==> t == hub && f in leaves
      ensures f in Downstream(edges, t) <==> f == hub && t in leaves
    {
      if t == hub && f in leaves {
        var i :| 0 <= i < |leaves| && leaves[i] == f;
        assert edges[i] == Edge(f, t) && edges[i] in edges;
      }
      if f == hub && t in leaves {
        var i :| 0 <= i < |leaves| && leaves[i] == t;
        assert edges[i] == Edge(t, f) && edges[i] in edges;
      }
    }
  }

  lemma {:induction false} StarDepths<T(!new)>(leaves: seq<T>, hub: T)
    requires Distinct(leaves) && hub !in leaves && leaves != []
    requires EdgesValid(Elements(leaves) + {hub}, Star(leaves, hub))
    ensures var g := GraphOf(Elements(leaves) + {hub}, Star(leaves, hub));
      && Acyclic(g) && LongestPath(g, hub, 2)
      && (forall t {:trigger LongestPath(g, t, 1)} :: t in leaves ==> LongestPath(g, t, 1))
  {
    var g := GraphOf(Elements(leaves) + {hub}, Star(leaves, hub));
    var depth := map t | t in g.nodes :: if t == hub then 2 else 1;
    StarSettled(leaves, hub, g, depth);
    SettledDecides(g, depth, g.nodes);
    forall t {:trigger LongestPath(g, t, 1)} | t in leaves
      ensures LongestPath(g, t, 1)
    {
      assert t in g.nodes && depth[t] == 1;
    }
    assert hub in g.nodes && depth[hub] == 2;
  }

  lemma {:induction false} StarSettled<T(!new)>(leaves: seq<T>, hub: T, g: Graph<T>, depth: map<T, int>)
    requires hub !in leaves && leaves != []
    requires EdgesValid(Elements(leaves) + {hub}, Star(leaves, hub))
    requires g == GraphOf(Elements(leaves) + {hub}, Star(leaves, hub))
    requires depth == map t | t in g.nodes :: if t == hub then 2 else 1
    ensures Settled(g, depth, g.nodes)
  {
    forall t {:trigger Reported(g, g.nodes, t)} | t in g.nodes
      ensures Reported(g, g.nodes, t)
    {
    }
    forall t {:trigger Entry(depth, t, g.up[t], g.up[t] * g.nodes)} | t in g.nodes
      ensures Entry(depth, t, g.up[t], g.up[t] * g.nodes)
    {
      StarEnds(leaves, hub, t);
      assert g.up[t] * g.nodes == g.up[t];
      if t == hub {
        assert leaves[0] in g.up[t] && Get(depth, leaves[0]) + 1 == depth[t];
      }
    }
    forall t, p | t in g.nodes && p in g.up[t]
      ensures Get(depth, p) < Get(depth, t)
    {
      StarEnds(leaves, hub, t);
    }
  }
}
