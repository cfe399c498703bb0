/**
 * The data triples `convert_network_to_rdf` emits: for every node of the
 * network its type, id, in-degree, out-degree, total degree and, when the
 * total degree has a band, its classification; for every edge one
 * `connectsTo` triple. Node `n` is the resource `road:node_<str(n)>`.
 */
module Emission {
  import opened Wrappers
  import opened Rdf
  import opened IntText
  import opened DiGraph
  import opened Taxonomy

  /** `ROAD[f"node_{node}"]` */
  function NodeUri(n: int): Term {
    Iri(Road, "node_" + Decimal(n))
  }

  /** Distinct nodes get distinct resources. */
  lemma NodeUriInjective(a: int, b: int)
    ensures NodeUri(a) == NodeUri(b) ==> a == b
  {
    if NodeUri(a) == NodeUri(b) {
      var p := "node_";
      assert (p + Decimal(a))[|p|..] == Decimal(a);
      assert (p + Decimal(b))[|p|..] == Decimal(b);
      DecimalInjective(a, b);
    }
  }

  /** The properties a node's own triples use. */
  function NodeProperties(): set<Term> {
    {RdfType, HasNodeId, HasInDegree, HasOutDegree, HasDegree, HasClassification}
  }

  /** The triples emitted for node `n`. */
  function NodeTriples(net: Network, n: int): set<Triple>
  {
    var uri := NodeUri(n);
    var inDeg := InDegree(net, n);
    var outDeg := OutDegree(net, n);
    var total := inDeg + outDeg;
    { Triple(uri, RdfType, RoadNodeClass),
      Triple(uri, HasNodeId, IntLiteral(n)),
      Triple(uri, HasInDegree, IntLiteral(inDeg)),
      Triple(uri, HasOutDegree, IntLiteral(outDeg)),
      Triple(uri, HasDegree, IntLiteral(total)) }
    + match Classify(total)
      case Some(concept) => { Triple(uri, HasClassification, concept) }
      case None => {}
  }

  /** The node properties and `connectsTo` are seven different resources. */
  lemma NodePropertiesDistinct()
    ensures RdfType !in {HasNodeId, HasInDegree, HasOutDegree, HasDegree, HasClassification, ConnectsTo}
    ensures HasNodeId !in {HasInDegree, HasOutDegree, HasDegree, HasClassification, ConnectsTo}
    ensures HasInDegree !in {HasOutDegree, HasDegree, HasClassification, ConnectsTo}
    ensures HasOutDegree !in {HasDegree, HasClassification, ConnectsTo}
    ensures HasDegree !in {HasClassification, ConnectsTo}
    ensures HasClassification != ConnectsTo
  {
    assert RdfType.ns != RoadOnto;
    assert HasNodeId.local[3] == 'N' && HasInDegree.local[3] == 'I' && HasOutDegree.local[3] == 'O';
    assert HasDegree.local[3] == 'D' && HasClassification.local[3] == 'C' && ConnectsTo.local[3] == 'n';
  }

  /** A node's triples are all about the node's resource and use only the
      node properties. */
  lemma NodeTripleFacts(net: Network, n: int, t: Triple)
    requires t in NodeTriples(net, n)
    ensures t.subject == NodeUri(n) && t.property in NodeProperties()
  {
  }

  /** The triples of the nodes in `s`. */
  function NodeTriplesOf(net: Network, s: set<int>): set<Triple> {
    set n, t | n in s && t in NodeTriples(net, n) :: t
  }

  /** Adding one node's triples to those of a set of nodes. */
  lemma NodeTriplesOfStep(net: Network, s: set<int>, n: int)
    ensures NodeTriplesOf(net, s + {n}) == NodeTriplesOf(net, s) + NodeTriples(net, n)
  {
    forall t | t in NodeTriplesOf(net, s + {n})
      ensures t in NodeTriplesOf(net, s) + NodeTriples(net, n)
    {
      var m :| m in s + {n} && t in NodeTriples(net, m);
      if m != n {
        assert t in NodeTriplesOf(net, s);
      }
    }
    forall t | t in NodeTriples(net, n) ensures t in NodeTriplesOf(net, s + {n}) {
    }
  }

  function EdgeTriple(e: (int, int)): Triple {
    Triple(NodeUri(e.0), ConnectsTo, NodeUri(e.1))
  }

  /** The triples of the edges in `es`. */
  function EdgeTriplesOf(es: set<(int, int)>): set<Triple> {
    set e | e in es :: EdgeTriple(e)
  }

  /** Adding one edge's triple to those of a set of edges. */
  lemma EdgeTriplesOfStep(es: set<(int, int)>, e: (int, int))
    ensures EdgeTriplesOf(es + {e}) == EdgeTriplesOf(es) + {EdgeTriple(e)}
  {
  }

  /** Everything `convert_network_to_rdf` adds for a network. */
  function DataTriples(net: Network): set<Triple> {
    NodeTriplesOf(net, net.nodes) + EdgeTriplesOf(net.edges)
  }

  /** Among the data triples, those about node `n` other than `connectsTo`
      are exactly the node's own triples. */
  lemma NodeTripleMember(net: Network, n: int, t: Triple)
    requires n in net.nodes && t.subject == NodeUri(n) && t.property != ConnectsTo
    ensures t in DataTriples(net) <==> t in NodeTriples(net, n)
  {
    if t in NodeTriplesOf(net, net.nodes) {
      var m :| m in net.nodes && t in NodeTriples(net, m);
      NodeTripleFacts(net, m, t);
      NodeUriInjective(m, n);
    }
    if t in NodeTriples(net, n) {
      assert t in NodeTriplesOf(net, net.nodes);
    }
  }

  /** Every node gets exactly one `hasInDegree` statement: the literal of its
      in-degree, 0 when no edge ends at it. */
  lemma InDegreeTriple(net: Network, n: int, o: Term)
    requires n in net.nodes
    ensures Triple(NodeUri(n), HasInDegree, o) in DataTriples(net) <==> o == IntLiteral(InDegree(net, n))
  {
    NodePropertiesDistinct();
    NodeTripleMember(net, n, Triple(NodeUri(n), HasInDegree, o));
  }

  /** Every node gets exactly one `hasOutDegree` statement: the literal of
      its out-degree, 0 when no edge starts at it. */
  lemma OutDegreeTriple(net: Network, n: int, o: Term)
    requires n in net.nodes
    ensures Triple(NodeUri(n), HasOutDegree, o) in DataTriples(net) <==> o == IntLiteral(OutDegree(net, n))
  {
    NodePropertiesDistinct();
    NodeTripleMember(net, n, Triple(NodeUri(n), HasOutDegree, o));
  }

  /** Every node gets exactly one `hasDegree` statement: the literal of its
      in-degree plus its out-degree. */
  lemma TotalDegreeTriple(net: Network, n: int, o: Term)
    requires n in net.nodes
    ensures Triple(NodeUri(n), HasDegree, o) in DataTriples(net) <==> o == IntLiteral(InDegree(net, n) + OutDegree(net, n))
  {
    NodePropertiesDistinct();
    NodeTripleMember(net, n, Triple(NodeUri(n), HasDegree, o));
  }

  /** For every node the `hasDegree` literal equals the `hasInDegree` literal
      plus the `hasOutDegree` literal. */
  lemma DegreeIsInPlusOut(net: Network, n: int, d: int, i: int, o: int)
    requires n in net.nodes
    requires Triple(NodeUri(n), HasDegree, IntLiteral(d)) in DataTriples(net)
    requires Triple(NodeUri(n), HasInDegree, IntLiteral(i)) in DataTriples(net)
    requires Triple(NodeUri(n), HasOutDegree, IntLiteral(o)) in DataTriples(net)
    ensures d == i + o
  {
    TotalDegreeTriple(net, n, IntLiteral(d));
    InDegreeTriple(net, n, IntLiteral(i));
    OutDegreeTriple(net, n, IntLiteral(o));
  }

  /** A node has a `hasClassification` triple exactly when `_classify_node`
      gives its total degree a concept, and then only that one. */
  lemma ClassificationTriple(net: Network, n: int, c: Term)
    requires n in net.nodes
    ensures Triple(NodeUri(n), HasClassification, c) in DataTriples(net)
        <==> Classify(InDegree(net, n) + OutDegree(net, n)) == Some(c)
  {
    NodePropertiesDistinct();
    NodeTripleMember(net, n, Triple(NodeUri(n), HasClassification, c));
  }

  /** The `connectsTo` triples are exactly the edges of the network. */
  lemma ConnectsToIffEdge(net: Network, u: int, v: int)
    ensures Triple(NodeUri(u), ConnectsTo, NodeUri(v)) in DataTriples(net) <==> (u, v) in net.edges
  {
    var t := Triple(NodeUri(u), ConnectsTo, NodeUri(v));
    if t in EdgeTriplesOf(net.edges) {
      var e :| e in net.edges && t == EdgeTriple(e);
      NodeUriInjective(e.0, u);
      NodeUriInjective(e.1, v);
    }
    if (u, v) in net.edges {
      assert t == EdgeTriple((u, v));
    }
  }

  /** Every `connectsTo` triple is the triple of an edge of the network. */
  lemma ConnectsToOnlyEdges(net: Network, t: Triple)
    requires t in DataTriples(net) && t.property == ConnectsTo
    ensures exists e :: e in net.edges && t == EdgeTriple(e)
  {
    if t in NodeTriplesOf(net, net.nodes) {
      var m :| m in net.nodes && t in NodeTriples(net, m);
      NodeTripleFacts(net, m, t);
      NodePropertiesDistinct();
      assert false;
    }
  }

  /** Every data triple is about a node of the network. */
  lemma DataSubjectsAreNodes(net: Network, t: Triple)
    requires Closed(net) && t in DataTriples(net)
    ensures exists m :: m in net.nodes && t.subject == NodeUri(m)
  {
    if t in NodeTriplesOf(net, net.nodes) {
      var m :| m in net.nodes && t in NodeTriples(net, m);
      NodeTripleFacts(net, m, t);
    } else {
      var e :| e in net.edges && t == EdgeTriple(e);
      assert e.0 in net.nodes;
    }
  }
}
