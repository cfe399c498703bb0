/**
 * The converter's `networkx.DiGraph`: a simple directed graph held as a set
 * of node ids and a set of ordered pairs. `add_edge` inserts both endpoints
 * and the pair; inserting a pair that is already there changes nothing.
 */
module DiGraph {
  datatype Network = Network(nodes: set<int>, edges: set<(int, int)>)

  const EmptyNetwork := Network({}, {})

  /** Every edge joins two nodes of the graph. */
  predicate Closed(net: Network) {
    forall e :: e in net.edges ==> e.0 in net.nodes && e.1 in net.nodes
  }

  /** `network.add_edge(u, v)` */
  function AddEdge(net: Network, u: int, v: int): Network
  {
    Network(net.nodes + {u, v}, net.edges + {(u, v)})
  }

  /** The edges of `ps`, added in order with `add_edge`. */
  function AddPairs(net: Network, ps: seq<(int, int)>): Network
  {
    if ps == [] then net
    else
      var last := ps[|ps| - 1];
      assert ps == ps[..|ps| - 1] + [last];
      AddEdge(AddPairs(net, ps[..|ps| - 1]), last.0, last.1)
  }

  /** `add_edge` over a list of pairs adds exactly those pairs as edges and
      their endpoints as nodes, and keeps every edge between nodes. */
  lemma {:induction false} AddPairsContents(net: Network, ps: seq<(int, int)>)
    ensures AddPairs(net, ps).edges == net.edges + (set p | p in ps)
    ensures AddPairs(net, ps).nodes == net.nodes + (set p | p in ps :: p.0) + (set p | p in ps :: p.1)
    ensures Closed(net) ==> Closed(AddPairs(net, ps))
  {
    if ps != [] {
      var init := ps[..|ps| - 1];
      var last := ps[|ps| - 1];
      assert ps == init + [last];
      AddPairsContents(net, init);
    }
  }

  /** Adding one more pair at the end is one more `add_edge` call. */
  lemma AddPairsSnoc(net: Network, ps: seq<(int, int)>, p: (int, int))
    ensures AddPairs(net, ps + [p]) == AddEdge(AddPairs(net, ps), p.0, p.1)
  {
    assert (ps + [p])[..|ps|] == ps;
  }

  /** Re-adding an edge that is already present leaves the graph as it is. */
  lemma AddEdgePresent(net: Network, u: int, v: int)
    requires Closed(net) && (u, v) in net.edges
    ensures AddEdge(net, u, v) == net
  {
    assert net.nodes + {u, v} == net.nodes;
    assert net.edges + {(u, v)} == net.edges;
  }

  /** Adding the pairs of a list never creates more edges than the list has
      entries; repeated pairs create fewer. */
  lemma {:induction false} AddPairsEdgeBound(net: Network, ps: seq<(int, int)>)
    ensures |AddPairs(net, ps).edges| <= |net.edges| + |ps|
  {
    if ps != [] {
      var init := ps[..|ps| - 1];
      assert ps == init + [ps[|ps| - 1]];
      AddPairsEdgeBound(net, init);
    }
  }

  /** `in_degree(n)`: the number of edges that end at `n`. */
  function InDegree(net: Network, n: int): nat
  {
    |set e | e in net.edges && e.1 == n|
  }

  /** The in-degree is 0 exactly when no edge ends at `n`. */
  lemma InDegreeZero(net: Network, n: int)
    ensures InDegree(net, n) == 0 <==> forall e :: e in net.edges ==> e.1 != n
  {
    var into := set e | e in net.edges && e.1 == n;
    if into != {} {
      var e :| e in into;
    }
    assert forall e :: e in net.edges && e.1 == n ==> e in into;
  }

  /** `out_degree(n)`: the number of edges that start at `n`. */
  function OutDegree(net: Network, n: int): nat
  {
    |set e | e in net.edges && e.0 == n|
  }

  /** The out-degree is 0 exactly when no edge starts at `n`. */
  lemma OutDegreeZero(net: Network, n: int)
    ensures OutDegree(net, n) == 0 <==> forall e :: e in net.edges ==> e.0 != n
  {
    var from := set e | e in net.edges && e.0 == n;
    if from != {} {
      var e :| e in from;
    }
    assert forall e :: e in net.edges && e.0 == n ==> e in from;
  }

  /** `degree(n)` of a DiGraph: in-degree plus out-degree (a self-loop counts twice). */
  function Degree(net: Network, n: int): nat
  {
    InDegree(net, n) + OutDegree(net, n)
  }

  /** A node of a graph built only from edges lies on at least one edge. */
  lemma NodeOfEdgeGraphHasPositiveDegree(net: Network, n: int)
    requires n in net.nodes
    requires forall m :: m in net.nodes ==> exists e :: e in net.edges && (e.0 == m || e.1 == m)
    ensures Degree(net, n) >= 1
  {
    var e :| e in net.edges && (e.0 == n || e.1 == n);
    InDegreeZero(net, n);
    OutDegreeZero(net, n);
    if e.1 == n {
      assert InDegree(net, n) != 0;
    } else {
      assert OutDegree(net, n) != 0;
    }
  }
}
