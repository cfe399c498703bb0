/**
 * The class `RoadNetworkConverter`: an RDF graph and a directed network that
 * its methods update in place, run in the order the command-line entry point
 * uses (schema, taxonomy, load, convert, statistics).
 */
module Converter {
  import opened Wrappers
  import opened Rdf
  import opened IntText
  import opened DiGraph
  import opened EdgeList
  import opened Taxonomy
  import opened Ontology
  import opened Emission
  import opened Statistics
  import opened SetFacts

  class RoadNetworkConverter {
    /** `self.graph`: the RDF statements added so far. */
    var graph: set<Triple>
    /** `self.network`: the directed graph loaded so far. */
    var network: Network

    constructor ()
      ensures graph == {} && network == EmptyNetwork
    {
      graph := {};
      network := EmptyNetwork;
    }

    /** `create_ontology`: adds the fixed schema. */
    method CreateOntology()
      modifies this`graph
      ensures graph == old(graph) + OntologyTriples()
    {
      graph := graph + OntologyHeader();
      graph := graph + NodeClassTriples();
      graph := graph + EdgeClassTriples();
      graph := graph + ConnectsToTriples();
      graph := graph + IntegerProperty(HasNodeId);
      graph := graph + IntegerProperty(HasDegree) + DegreeLabelTriples();
      graph := graph + IntegerProperty(HasInDegree);
      graph := graph + IntegerProperty(HasOutDegree);
    }

    /** `create_skos_concepts`: adds the scheme, the five concepts in table
        order and the broader chain. */
    method CreateSkosConcepts()
      modifies this`graph
      ensures graph == old(graph) + SkosTriples()
    {
      graph := graph + {Triple(SchemeIri, RdfType, SkosConceptScheme)};
      graph := graph + {Triple(SchemeIri, SkosPrefLabel, LangLiteral("Road Network Node Classification", "en"))};
      ghost var withScheme := graph;
      for i := 0 to |Bands|
        invariant graph == withScheme + ConceptTriplesOf(Bands[..i])
      {
        AddConcept(Bands[i]);
        assert Bands[..i + 1][..i] == Bands[..i];
      }
      assert Bands[..|Bands|] == Bands;
      AddBroaderLinks();
    }

    /** One pass of the concept loop: the statements about one band. */
    method AddConcept(band: Band)
      modifies this`graph
      ensures graph == old(graph) + BandTriples(band)
    {
      var concept := ConceptIri(band.id);
      graph := graph + {Triple(concept, RdfType, SkosConcept)};
      graph := graph + {Triple(concept, SkosInScheme, SchemeIri)};
      graph := graph + {Triple(concept, SkosPrefLabel, LangLiteral(band.prefLabel, "en"))};
      graph := graph + {Triple(concept, SkosDefinition, LangLiteral(band.definition, "en"))};
      graph := graph + {Triple(concept, MinDegree, IntLiteral(band.minDegree))};
      if band.maxDegree.Some? {
        graph := graph + {Triple(concept, MaxDegree, IntLiteral(band.maxDegree.value))};
      }
    }

    /** The four `skos:broader` statements. */
    method AddBroaderLinks()
      modifies this`graph
      ensures graph == old(graph) + BroaderTriples()
    {
      graph := graph + {Triple(ConceptIri("SimpleJunction"), SkosBroader, ConceptIri("DeadEnd"))};
      graph := graph + {Triple(ConceptIri("Intersection"), SkosBroader, ConceptIri("SimpleJunction"))};
      graph := graph + {Triple(ConceptIri("MajorHub"), SkosBroader, ConceptIri("Intersection"))};
      graph := graph + {Triple(ConceptIri("SuperHub"), SkosBroader, ConceptIri("MajorHub"))};
    }

    /** `load_dataset` over the file's lines. Random draws are given by
        `draws` (one per line); the result is `edges_count`. */
    method LoadDataset(lines: seq<string>, maxEdges: Option<int>, sampleRate: real, draws: nat -> real)
      returns (edgesCount: nat)
      modifies this`network
      ensures network == AddPairs(old(network), LoadedEdges(lines, maxEdges, sampleRate, draws))
      ensures edgesCount == |LoadedEdges(lines, maxEdges, sampleRate, draws)|
    {
      edgesCount := 0;
      ghost var accepted: seq<(int, int)> := [];
      for i := 0 to |lines|
        invariant accepted == Accepted(lines, i, sampleRate, draws)
        invariant edgesCount == |accepted|
        invariant network == AddPairs(old(network), accepted)
        invariant edgesCount > 0 ==> !CapReached(maxEdges, edgesCount)
      {
        var stop;
        accepted, edgesCount, stop := LoadLine(lines, i, maxEdges, sampleRate, draws, old(network), accepted, edgesCount);
        if stop {
          return;
        }
      }
      LoadedAtEnd(lines, maxEdges, sampleRate, draws);
    }

    /** One pass of the reading loop of `load_dataset`: line `i` is read,
        its edge, if any, added, and the loop stops once the cap is reached,
        having loaded everything it will load. */
    method LoadLine(lines: seq<string>, i: nat, maxEdges: Option<int>, sampleRate: real, draws: nat -> real,
                    ghost start: Network, ghost accepted: seq<(int, int)>, count: nat)
      returns (ghost accepted': seq<(int, int)>, count': nat, stop: bool)
      modifies this`network
      requires i < |lines| && accepted == Accepted(lines, i, sampleRate, draws)
      requires count == |accepted| && network == AddPairs(start, accepted)
      requires count > 0 ==> !CapReached(maxEdges, count)
      ensures accepted' == Accepted(lines, i + 1, sampleRate, draws)
      ensures count' == |accepted'| && network == AddPairs(start, accepted')
      ensures stop ==> count' > 0 && CapReached(maxEdges, count')
      ensures stop ==> LoadedEdges(lines, maxEdges, sampleRate, draws) == accepted'
      ensures !stop ==> (count' > 0 ==> !CapReached(maxEdges, count'))
    {
      accepted', count', stop := ReadAndAdd(lines, i, maxEdges, sampleRate, draws, start, accepted, count);
      if stop {
        LoadedAtBreak(lines, i + 1, maxEdges, sampleRate, draws);
      }
    }

    /** Reads line `i` and adds its edge, if any; `stop` is the cap test
        `max_edges and edges_count >= max_edges` after an added edge. */
    method ReadAndAdd(lines: seq<string>, i: nat, maxEdges: Option<int>, sampleRate: real, draws: nat -> real,
                    ghost start: Network, ghost accepted: seq<(int, int)>, count: nat)
      returns (ghost accepted': seq<(int, int)>, count': nat, stop: bool)
      modifies this`network
      requires i < |lines| && accepted == Accepted(lines, i, sampleRate, draws)
      requires count == |accepted| && network == AddPairs(start, accepted)
      requires count > 0 ==> !CapReached(maxEdges, count)
      ensures accepted' == Accepted(lines, i + 1, sampleRate, draws)
      ensures count' == |accepted'| && network == AddPairs(start, accepted')
      ensures stop <==> count' > 0 && CapReached(maxEdges, count')
      ensures stop ==> count' == count + 1
    {
      var edge := ReadEdge(lines[i], Dropped(sampleRate, draws(i)));
      if edge.None? {
        AcceptedNext(lines, i, sampleRate, draws, []);
        assert accepted + [] == accepted;
        return accepted, count, false;
      }
      AcceptedNext(lines, i, sampleRate, draws, [edge.value]);
      AddPairsSnoc(start, accepted, edge.value);
      accepted' := accepted + [edge.value];
      network := AddEdge(network, edge.value.0, edge.value.1);
      count' := count + 1;
      stop := CapReached(maxEdges, count');
    }

    /** `convert_network_to_rdf`: adds the triples of every node, then of
        every edge; returns the node and edge counters. The network is not
        changed. */
    method ConvertNetworkToRdf() returns (nodeCount: nat, edgeCount: nat)
      modifies this`graph
      ensures graph == old(graph) + DataTriples(network)
      ensures nodeCount == |network.nodes| && edgeCount == |network.edges|
    {
      nodeCount := AddNodes();
      edgeCount := AddEdges();
    }

    /** The node loop of `convert_network_to_rdf`. */
    method AddNodes() returns (nodeCount: nat)
      modifies this`graph
      ensures graph == old(graph) + NodeTriplesOf(network, network.nodes)
      ensures nodeCount == |network.nodes|
    {
      var remaining := network.nodes;
      ghost var done: set<int> := {};
      nodeCount := 0;
      while remaining != {}
        invariant done + remaining == network.nodes && done !! remaining
        invariant nodeCount == |done|
        invariant graph == old(graph) + NodeTriplesOf(network, done)
        decreases remaining
      {
        IntsInhabited(remaining);
        var node :| node in remaining;
        AddNode(node);
        NodeTriplesOfStep(network, done, node);
        done := done + {node};
        remaining := remaining - {node};
        nodeCount := nodeCount + 1;
      }
      assert done == network.nodes;
    }

    /** The edge loop of `convert_network_to_rdf`. */
    method AddEdges() returns (edgeCount: nat)
      modifies this`graph
      ensures graph == old(graph) + EdgeTriplesOf(network.edges)
      ensures edgeCount == |network.edges|
    {
      var pending := network.edges;
      ghost var emitted: set<(int, int)> := {};
      edgeCount := 0;
      while pending != {}
        invariant emitted + pending == network.edges && emitted !! pending
        invariant edgeCount == |emitted|
        invariant graph == old(graph) + EdgeTriplesOf(emitted)
        decreases pending
      {
        PairsInhabited(pending);
        var edge :| edge in pending;
        graph := graph + {Triple(NodeUri(edge.0), ConnectsTo, NodeUri(edge.1))};
        EdgeTriplesOfStep(emitted, edge);
        emitted := emitted + {edge};
        pending := pending - {edge};
        edgeCount := edgeCount + 1;
      }
      assert emitted == network.edges;
    }

    /** One pass of the node loop: the statements about one node, with its
        degrees read from the network. */
    method AddNode(node: int)
      modifies this`graph
      ensures graph == old(graph) + NodeTriples(network, node)
    {
      var uri := NodeUri(node);
      graph := graph + {Triple(uri, RdfType, RoadNodeClass)};
      graph := graph + {Triple(uri, HasNodeId, IntLiteral(node))};
      var inDeg := InDegree(network, node);
      var outDeg := OutDegree(network, node);
      var totalDeg := inDeg + outDeg;
      graph := graph + {Triple(uri, HasInDegree, IntLiteral(inDeg))};
      graph := graph + {Triple(uri, HasOutDegree, IntLiteral(outDeg))};
      graph := graph + {Triple(uri, HasDegree, IntLiteral(totalDeg))};
      var concept := Classify(totalDeg);
      if concept.Some? {
        graph := graph + {Triple(uri, HasClassification, concept.value)};
      }
    }

    /** The integer results of `generate_statistics`; None for an empty
        network, where the source divides by zero. */
    method GenerateStatistics() returns (summary: Option<Summary>)
      ensures summary.None? <==> network.nodes == {}
      ensures summary.Some? ==>
        && summary.value.nodeCount == |network.nodes|
        && summary.value.edgeCount == |network.edges|
        && (exists n :: n in network.nodes && Degree(network, n) == summary.value.maxDegree)
        && (forall n :: n in network.nodes ==> Degree(network, n) <= summary.value.maxDegree)
        && summary.value.distribution == Distribution(network, network.nodes)
    {
      if network.nodes == {} {
        return None;
      }
      var remaining := network.nodes;
      ghost var seen: set<int> := {};
      ghost var argMax: int := 0;
      var maxDeg: nat := 0;
      var first := true;
      var dist: map<nat, nat> := map[];
      while remaining != {}
        invariant remaining <= network.nodes && seen == network.nodes - remaining
        invariant first <==> seen == {}
        invariant seen != {} ==> argMax in seen && Degree(network, argMax) == maxDeg
        invariant forall n :: n in seen ==> Degree(network, n) <= maxDeg
        invariant dist == Distribution(network, seen)
        decreases remaining
      {
        IntsInhabited(remaining);
        var node :| node in remaining;
        argMax, maxDeg, dist := TallyNode(node, seen, argMax, first, maxDeg, dist);
        first := false;
        seen := seen + {node};
        remaining := remaining - {node};
      }
      assert seen == network.nodes;
      summary := Some(Summary(|network.nodes|, |network.edges|, maxDeg, dist));
    }

    /** One pass over the degrees: counts `node`'s degree in the distribution
        and keeps the largest degree seen so far. */
    method TallyNode(node: int, ghost seen: set<int>, ghost argMax: int, first: bool, maxDeg: nat, dist: map<nat, nat>)
      returns (ghost argMax': int, maxDeg': nat, dist': map<nat, nat>)
      requires node !in seen && (first <==> seen == {})
      requires seen != {} ==> argMax in seen && Degree(network, argMax) == maxDeg
      requires forall n :: n in seen ==> Degree(network, n) <= maxDeg
      requires dist == Distribution(network, seen)
      ensures argMax' in seen + {node} && Degree(network, argMax') == maxDeg'
      ensures forall n :: n in seen + {node} ==> Degree(network, n) <= maxDeg'
      ensures dist' == Distribution(network, seen + {node})
    {
      var d := Degree(network, node);
      argMax', maxDeg' := argMax, maxDeg;
      if first || d > maxDeg {
        argMax', maxDeg' := node, d;
      }
      DistributionStep(network, seen, node);
      dist' := dist[d := (if d in dist then dist[d] else 0) + 1];
    }
  }

  /** The converter's graph after the entry point's calls on a network. */
  function ConverterOutput(net: Network): set<Triple> {
    OntologyTriples() + SkosTriples() + DataTriples(net)
  }

  /** The entry point's sequence of calls: schema, taxonomy, load, convert,
      statistics. Returns the final graph and network with the counters. */
  method Run(lines: seq<string>, maxEdges: Option<int>, sampleRate: real, draws: nat -> real)
    returns (graph: set<Triple>, network: Network, summary: Option<Summary>)
    ensures network == AddPairs(EmptyNetwork, LoadedEdges(lines, maxEdges, sampleRate, draws))
    ensures Closed(network)
    ensures graph == ConverterOutput(network)
    ensures summary.None? <==> network.nodes == {}
    ensures summary.Some? ==> summary.value.distribution == Distribution(network, network.nodes)
  {
    var converter := new RoadNetworkConverter();
    converter.CreateOntology();
    ghost var withSchema := converter.graph;
    converter.CreateSkosConcepts();
    ghost var withTaxonomy := converter.graph;
    var loaded := converter.LoadDataset(lines, maxEdges, sampleRate, draws);
    var nodeCount, edgeCount := converter.ConvertNetworkToRdf();
    OutputComposed(withSchema, withTaxonomy, converter.graph, converter.network);
    summary := converter.GenerateStatistics();
    graph := converter.graph;
    network := converter.network;
    AddPairsContents(EmptyNetwork, LoadedEdges(lines, maxEdges, sampleRate, draws));
  }

  /** The graph the entry point ends with, built from the empty graph by the
      schema, taxonomy and data passes in turn, is the converter's output. */
  lemma OutputComposed(withSchema: set<Triple>, withTaxonomy: set<Triple>, final: set<Triple>, net: Network)
    requires withSchema == {} + OntologyTriples()
    requires withTaxonomy == withSchema + SkosTriples()
    requires final == withTaxonomy + DataTriples(net)
    ensures final == ConverterOutput(net)
  {
    EmptyUnion(OntologyTriples());
  }

  /** What loading promises about the network: a positive cap N bounds the
      `add_edge` calls by N, with every accepted line loaded when there are
      no more than N; and since repeated pairs collapse, the edges gained are
      at most the calls made. */
  lemma LoadBounds(net: Network, lines: seq<string>, maxEdges: Option<int>, sampleRate: real, draws: nat -> real)
    ensures var loaded := LoadedEdges(lines, maxEdges, sampleRate, draws);
      && |AddPairs(net, loaded).edges| <= |net.edges| + |loaded|
      && (maxEdges.Some? && maxEdges.value > 0 ==> |loaded| <= maxEdges.value)
      && (maxEdges.Some? && maxEdges.value > 0 && |Accepted(lines, |lines|, sampleRate, draws)| <= maxEdges.value
          ==> loaded == Accepted(lines, |lines|, sampleRate, draws))
      && (maxEdges.None? || maxEdges == Some(0) ==> loaded == Accepted(lines, |lines|, sampleRate, draws))
  {
    AddPairsEdgeBound(net, LoadedEdges(lines, maxEdges, sampleRate, draws));
  }

  /** A loaded network has no isolated node, so every node the converter
      emits gets a `hasClassification` statement. */
  lemma LoadedNodesClassified(ps: seq<(int, int)>, n: int)
    requires n in AddPairs(EmptyNetwork, ps).nodes
    ensures Classify(Degree(AddPairs(EmptyNetwork, ps), n)).Some?
  {
    var net := AddPairs(EmptyNetwork, ps);
    AddPairsContents(EmptyNetwork, ps);
    forall m | m in net.nodes ensures exists e :: e in net.edges && (e.0 == m || e.1 == m) {
      if m in (set p | p in ps :: p.0) {
        var p :| p in ps && p.0 == m;
        assert p in net.edges;
      } else {
        var p :| p in ps && p.1 == m;
        assert p in net.edges;
      }
    }
    NodeOfEdgeGraphHasPositiveDegree(net, n);
  }

  /** Every node of a loaded network has few enough digits for `str`, so
      building its resource name `node_<id>` never raises. */
  lemma LoadedIdsWithinStrLimit(lines: seq<string>, maxEdges: Option<int>, sampleRate: real, draws: nat -> real, n: int)
    requires n in AddPairs(EmptyNetwork, LoadedEdges(lines, maxEdges, sampleRate, draws)).nodes
    ensures WithinStrLimit(n)
  {
    var loaded := LoadedEdges(lines, maxEdges, sampleRate, draws);
    AddPairsContents(EmptyNetwork, loaded);
    var p :| p in loaded && (p.0 == n || p.1 == n);
    LoadedWithinStrLimit(lines, maxEdges, sampleRate, draws, p);
  }

  /** No statement of the schema or the taxonomy is about a node resource:
      node ids are never confused with concepts or schema terms. */
  lemma SchemaNotAboutNodes(t: Triple, n: int)
    ensures t in OntologyTriples() + SkosTriples() ==> t.subject != NodeUri(n)
  {
    SchemaSubjects();
    SkosSubjects(t);
    BandIdsCapitalised();
    assert NodeUri(n).local[0] == 'n';
    assert SchemeIri.local[0] == 'C';
  }

  /** In the whole output graph, the statements about a node other than
      `connectsTo` are exactly those its own pass of the node loop adds. */
  lemma OutputNodeFacts(net: Network, n: int, t: Triple)
    requires n in net.nodes && t.subject == NodeUri(n) && t.property != ConnectsTo
    ensures t in ConverterOutput(net) <==> t in NodeTriples(net, n)
  {
    SchemaNotAboutNodes(t, n);
    NodeTripleMember(net, n, t);
  }

  /** In the whole output graph, a node's only `hasDegree` statement is the
      literal of its degree in the network, the sum of its in- and out-degree. */
  lemma OutputDegree(net: Network, n: int, o: Term)
    requires n in net.nodes
    ensures Triple(NodeUri(n), HasDegree, o) in ConverterOutput(net) <==> o == IntLiteral(Degree(net, n))
  {
    OutputNodeFacts(net, n, Triple(NodeUri(n), HasDegree, o));
    TotalDegreeTriple(net, n, o);
  }
}
