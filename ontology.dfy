/**
 * The fixed OWL schema `create_ontology` adds: the ontology resource, the
 * classes RoadNode and RoadEdge, the object property connectsTo and the four
 * integer-valued datatype properties.
 */
module Ontology {
  import opened Rdf

  function OntologyHeader(): (ts: set<Triple>)
    ensures OntologyTerms(ts)
  {
    { Triple(OntologyIri, RdfType, OwlOntology),
      Triple(OntologyIri, RdfsLabel, PlainLiteral("Pennsylvania Road Network Ontology")) }
  }

  function NodeClassTriples(): (ts: set<Triple>)
    ensures OntologyTerms(ts)
  {
    { Triple(RoadNodeClass, RdfType, OwlClass),
      Triple(RoadNodeClass, RdfsLabel, PlainLiteral("Road Network Node")),
      Triple(RoadNodeClass, RdfsComment, PlainLiteral("Represents an intersection or endpoint in the road network")) }
  }

  function EdgeClassTriples(): (ts: set<Triple>)
    ensures OntologyTerms(ts)
  {
    { Triple(RoadEdgeClass, RdfType, OwlClass),
      Triple(RoadEdgeClass, RdfsLabel, PlainLiteral("Road Connection")) }
  }

  function ConnectsToTriples(): (ts: set<Triple>)
    ensures OntologyTerms(ts)
  {
    { Triple(ConnectsTo, RdfType, OwlObjectProperty),
      Triple(ConnectsTo, RdfsDomain, RoadNodeClass),
      Triple(ConnectsTo, RdfsRange, RoadNodeClass),
      Triple(ConnectsTo, RdfsLabel, PlainLiteral("connects to")) }
  }

  /** An integer-valued property of road nodes. */
  function IntegerProperty(p: Term): (ts: set<Triple>)
    ensures p.Iri? && p.ns == RoadOnto ==> OntologyTerms(ts)
  {
    { Triple(p, RdfType, OwlDatatypeProperty),
      Triple(p, RdfsDomain, RoadNodeClass),
      Triple(p, RdfsRange, XsdInteger) }
  }

  function DegreeLabelTriples(): (ts: set<Triple>)
    ensures OntologyTerms(ts)
  {
    { Triple(HasDegree, RdfsLabel, PlainLiteral("connectivity degree")) }
  }

  /** The four datatype properties. */
  function DatatypeProperties(): set<Term> {
    {HasNodeId, HasDegree, HasInDegree, HasOutDegree}
  }

  /** Every triple describes a term of the ontology namespace. */
  predicate OntologyTerms(ts: set<Triple>) {
    forall t :: t in ts ==> t.subject.Iri? && t.subject.ns == RoadOnto
  }

  /** Everything `create_ontology` adds. */
  function OntologyTriples(): set<Triple> {
    OntologyHeader() + NodeClassTriples() + EdgeClassTriples() + ConnectsToTriples()
    + IntegerProperty(HasNodeId)
    + IntegerProperty(HasDegree) + DegreeLabelTriples()
    + IntegerProperty(HasInDegree)
    + IntegerProperty(HasOutDegree)
  }

  /** The schema triples all describe terms of the ontology namespace. */
  lemma SchemaSubjects()
    ensures OntologyTerms(OntologyTriples())
  {
    var a := OntologyHeader() + NodeClassTriples() + EdgeClassTriples() + ConnectsToTriples();
    var b := IntegerProperty(HasNodeId) + IntegerProperty(HasDegree) + DegreeLabelTriples();
    var c := IntegerProperty(HasInDegree) + IntegerProperty(HasOutDegree);
    assert OntologyTerms(a);
    assert OntologyTerms(b);
    assert OntologyTerms(c);
    assert OntologyTriples() == a + b + c;
  }

  /** Each of the four datatype properties is declared with domain RoadNode
      and range xsd:integer, and connectsTo as an object property from
      RoadNode to RoadNode. */
  lemma PropertiesDeclared(p: Term)
    requires p in DatatypeProperties()
    ensures Triple(p, RdfType, OwlDatatypeProperty) in OntologyTriples()
    ensures Triple(p, RdfsDomain, RoadNodeClass) in OntologyTriples()
    ensures Triple(p, RdfsRange, XsdInteger) in OntologyTriples()
    ensures Triple(ConnectsTo, RdfType, OwlObjectProperty) in OntologyTriples()
    ensures Triple(ConnectsTo, RdfsDomain, RoadNodeClass) in OntologyTriples()
    ensures Triple(ConnectsTo, RdfsRange, RoadNodeClass) in OntologyTriples()
  {
  }
}
