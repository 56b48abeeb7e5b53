// Reading the edge list of a task graph into its adjacency tables
// (agent-platform/taskgraphcontract/validate.go, the edge loop of Validate).
module TaskGraphEdges {
  import opened Collections
  import opened TaskGraphDepth

  datatype Edge<T> = Edge(from: T, to: T)

  ghost function Upstream<T(!new)>(edges: seq<Edge<T>>, t: T): set<T> {
    set e | e in edges && e.to == t :: e.from
  }

  ghost function Downstream<T(!new)>(edges: seq<Edge<T>>, f: T): set<T> {
    set e | e in edges && e.from == f :: e.to
  }

  /** Both ends are nodes and differ, and no edge is listed twice. */
  ghost predicate EdgesValid<T(!new)>(nodes: set<T>, edges: seq<Edge<T>>) {
    Distinct(edges) && forall e :: e in edges ==> EdgeWithin(nodes, e)
  }

  predicate EdgeWithin<T(==)>(nodes: set<T>, e: Edge<T>) {
    e.from in nodes && e.to in nodes && e.from != e.to
  }

  ghost function GraphOf<T(!new)>(nodes: set<T>, edges: seq<Edge<T>>): (g: Graph<T>)
    requires EdgesValid(nodes, edges)
    ensures g.Valid() && g.nodes == nodes
  {
    Graph(nodes, map t | t in nodes :: Upstream(edges, t))
  }

  lemma {:induction false} DownIsDownstream<T(!new)>(nodes: set<T>, edges: seq<Edge<T>>, f: T)
    requires EdgesValid(nodes, edges)
    ensures Down(GraphOf(nodes, edges), f) == Downstream(edges, f)
  {
    forall t
      ensures t in Down(GraphOf(nodes, edges), f) <==> t in Downstream(edges, f)
    {
      if t in Downstream(edges, f) {
        var e :| e in edges && e.from == f && e.to == t;
        assert EdgeWithin(nodes, e);
        assert f in Upstream(edges, t);
      }
      if t in Down(GraphOf(nodes, edges), f) {
        var e :| e in edges && e.to == t && e.from == f;
      }
    }
  }

  /** Both tables list exactly the edges read so far. */
  ghost predicate TablesOf<T(!new)>(edges: seq<Edge<T>>, incoming: Table<T>, outgoing: Table<T>) {
    && (forall t {:trigger Lists(At(incoming, t), Upstream(edges, t))} :: Lists(At(incoming, t), Upstream(edges, t)))
    && (forall f {:trigger Lists(At(outgoing, f), Downstream(edges, f))} ::
          Lists(At(outgoing, f), Downstream(edges, f)))
  }

  lemma {:induction false} TableGrows<T(!new)>(table: Table<T>, key: T, x: T, old': set<T>, new': set<T>, k: T)
    requires Lists(At(table, k), old')
    requires k == key ==> x !in old' && new' == old' + {x}
    requires k != key ==> new' == old'
    ensures Lists(At(table[key := At(table, key) + [x]], k), new')
  {
    if k == key {
      DistinctSnoc(At(table, k), x);
      ElementsSnoc(At(table, k), x);
    }
  }

  lemma {:induction false} EdgeAdds<T(!new)>(edges: seq<Edge<T>>, e: Edge<T>)
    requires e !in edges
    ensures e.from !in Upstream(edges, e.to) && e.to !in Downstream(edges, e.from)
    ensures forall t {:trigger Upstream(edges + [e], t)} ::
      Upstream(edges + [e], t) == if t == e.to then Upstream(edges, t) + {e.from} else Upstream(edges, t)
    ensures forall f {:trigger Downstream(edges + [e], f)} ::
      Downstream(edges + [e], f) == if f == e.from then Downstream(edges, f) + {e.to} else Downstream(edges, f)
  {
    forall t
      ensures Upstream(edges + [e], t) == if t == e.to then Upstream(edges, t) + {e.from} else Upstream(edges, t)
    {
      assert forall d :: d in edges + [e] <==> d in edges || d == e;
    }
    forall f
      ensures Downstream(edges + [e], f) == if f == e.from then Downstream(edges, f) + {e.to} else Downstream(edges, f)
    {
      assert forall d :: d in edges + [e] <==> d in edges || d == e;
    }
  }

  method BuildTables<T(==,!new)>(nodes: set<T>, edges: seq<Edge<T>>)
      returns (ok: bool, incoming: Table<T>, outgoing: Table<T>)
    ensures ok <==> EdgesValid(nodes, edges)
    ensures ok ==> TablesOf(edges, incoming, outgoing)
    ensures ok ==> incoming.Keys <= nodes && outgoing.Keys <= nodes
  {
    incoming, outgoing := map[], map[];
    var edgeSet: set<Edge<T>> := {};
    var i := 0;
    while i < |edges|
      invariant 0 <= i <= |edges|
      invariant EdgesValid(nodes, edges[..i]) && edgeSet == Elements(edges[..i])
      invariant TablesOf(edges[..i], incoming, outgoing)
      invariant incoming.Keys <= nodes && outgoing.Keys <= nodes
    {
      var e, before := edges[i], edges[..i];
      assert edges[..i + 1] == before + [e];
      if !EdgeWithin(nodes, e) {
        assert e in edges;
        return false, incoming, outgoing;
      }
      if e in edgeSet {
        RepeatedPrefix(edges, i);
        return false, incoming, outgoing;
      }
      edgeSet := edgeSet + {e};
      EdgeAdds(before, e);
      DistinctSnoc(before, e);
      ElementsSnoc(before, e);
      ghost var incoming0, outgoing0 := incoming, outgoing;
      incoming := incoming[e.to := At(incoming, e.to) + [e.from]];
      outgoing := outgoing[e.from := At(outgoing, e.from) + [e.to]];
      forall t {:trigger Lists(At(incoming, t), Upstream(before + [e], t))}
        ensures Lists(At(incoming, t), Upstream(before + [e], t))
      {
        assert Lists(At(incoming0, t), Upstream(before, t));
        TableGrows(incoming0, e.to, e.from, Upstream(before, t), Upstream(before + [e], t), t);
      }
      forall f {:trigger Lists(At(outgoing, f), Downstream(before + [e], f))}
        ensures Lists(At(outgoing, f), Downstream(before + [e], f))
      {
        assert Lists(At(outgoing0, f), Downstream(before, f));
        TableGrows(outgoing0, e.from, e.to, Downstream(before, f), Downstream(before + [e], f), f);
      }
      i := i + 1;
    }
    assert edges[..i] == edges;
    ok := true;
  }

  lemma {:induction false} TablesMatchGraph<T(!new)>(nodes: set<T>, edges: seq<Edge<T>>, incoming: Table<T>,
                                                     outgoing: Table<T>)
    requires EdgesValid(nodes, edges) && TablesOf(edges, incoming, outgoing)
    ensures Tables(GraphOf(nodes, edges), incoming, outgoing)
  {
    var g := GraphOf(nodes, edges);
    forall t {:trigger Lists(At(incoming, t), g.up[t])} | t in g.nodes
      ensures Lists(At(incoming, t), g.up[t])
    {
      assert Lists(At(incoming, t), Upstream(edges, t));
    }
    forall f {:trigger Lists(At(outgoing, f), Down(g, f))} | f in g.nodes
      ensures Lists(At(outgoing, f), Down(g, f))
    {
      DownIsDownstream(nodes, edges, f);
      assert Lists(At(outgoing, f), Downstream(edges, f));
    }
  }

  /** The fan-out loop over the outgoing table. */
  method FanoutWithin<T(==,!new)>(edges: seq<Edge<T>>, incoming: Table<T>, outgoing: Table<T>, limit: int)
      returns (ok: bool)
    requires TablesOf(edges, incoming, outgoing) && limit >= 0
    ensures ok <==> forall f :: |Downstream(edges, f)| <= limit
  {
    var todo := outgoing.Keys;
    while todo != {}
      invariant todo <= outgoing.Keys
      invariant forall f :: f in outgoing.Keys - todo ==> |Downstream(edges, f)| <= limit
      decreases todo
    {
      var f :| f in todo;
      assert Lists(At(outgoing, f), Downstream(edges, f));
      DistinctLength(outgoing[f]);
      if |outgoing[f]| > limit {
        return false;
      }
      todo := todo - {f};
    }
    forall f
      ensures |Downstream(edges, f)| <= limit
    {
      assert Lists(At(outgoing, f), Downstream(edges, f));
      DistinctLength(At(outgoing, f));
    }
    ok := true;
  }
}
