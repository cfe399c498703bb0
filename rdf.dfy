/**
 * RDF terms and statements as the converter builds them with rdflib: IRIs in
 * one of the bound namespaces, typed integer literals, plain literals and
 * language-tagged literals. An RDF graph is a `set<Triple>`, so adding a
 * triple that is already present changes nothing.
 */
module Rdf {
  /** The data namespace `road:`, the ontology namespace `roadonto:` and the
      standard vocabularies the converter uses. */
  datatype Namespace = Road | RoadOnto | RdfNs | Rdfs | Owl | Skos | Xsd

  datatype Term =
    | Iri(ns: Namespace, local: string)
      /** `Literal(n, datatype=XSD.integer)` */
    | IntLiteral(value: int)
      /** `Literal(text)` without language or datatype */
    | PlainLiteral(text: string)
      /** `Literal(text, lang=...)` */
    | LangLiteral(text: string, lang: string)

  datatype Triple = Triple(subject: Term, property: Term, obj: Term)

  // Standard vocabulary
  const RdfType := Iri(RdfNs, "type")
  const RdfsLabel := Iri(Rdfs, "label")
  const RdfsComment := Iri(Rdfs, "comment")
  const RdfsDomain := Iri(Rdfs, "domain")
  const RdfsRange := Iri(Rdfs, "range")
  const OwlOntology := Iri(Owl, "Ontology")
  const OwlClass := Iri(Owl, "Class")
  const OwlObjectProperty := Iri(Owl, "ObjectProperty")
  const OwlDatatypeProperty := Iri(Owl, "DatatypeProperty")
  const SkosConceptScheme := Iri(Skos, "ConceptScheme")
  const SkosConcept := Iri(Skos, "Concept")
  const SkosInScheme := Iri(Skos, "inScheme")
  const SkosPrefLabel := Iri(Skos, "prefLabel")
  const SkosDefinition := Iri(Skos, "definition")
  const SkosBroader := Iri(Skos, "broader")
  const XsdInteger := Iri(Xsd, "integer")

  // Road network ontology terms (namespace roadonto:)
  const OntologyIri := Iri(RoadOnto, "")
  const RoadNodeClass := Iri(RoadOnto, "RoadNode")
  const RoadEdgeClass := Iri(RoadOnto, "RoadEdge")
  const ConnectsTo := Iri(RoadOnto, "connectsTo")
  const HasNodeId := Iri(RoadOnto, "hasNodeId")
  const HasDegree := Iri(RoadOnto, "hasDegree")
  const HasInDegree := Iri(RoadOnto, "hasInDegree")
  const HasOutDegree := Iri(RoadOnto, "hasOutDegree")
  const HasClassification := Iri(RoadOnto, "hasClassification")
  const MinDegree := Iri(RoadOnto, "minDegree")
  const MaxDegree := Iri(RoadOnto, "maxDegree")

  // Data namespace resources (namespace road:)
  const SchemeIri := Iri(Road, "ConceptScheme")

  /** The resource `road:<id>` of a taxonomy concept. */
  function ConceptIri(id: string): Term
  {
    Iri(Road, id)
  }
}
