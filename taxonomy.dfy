/**
 * The SKOS degree taxonomy: the table of five bands that
 * `create_skos_concepts` iterates over, the triples it emits for them, and
 * `_classify_node`, which repeats the band boundaries as an if/elif chain.
 * The lemmas here show that the two copies of the boundaries agree and that
 * the bands partition the positive degrees.
 */
module Taxonomy {
  import opened Wrappers
  import opened Rdf

  /** One entry of the concept table: its id (the `road:` local name),
      label, definition, lowest degree and highest degree (None for the
      unbounded `float('inf')`). */
  datatype Band = Band(id: string, prefLabel: string, definition: string, minDegree: int, maxDegree: Option<int>)

  /** The concept table, in the dict's insertion order. */
  const Bands: seq<Band> := [
    Band("DeadEnd", "Dead End", "Node with only one connection", 1, Some(1)),
    Band("SimpleJunction", "Simple Junction", "Node with 2-3 connections", 2, Some(3)),
    Band("Intersection", "Intersection", "Node with 4-5 connections", 4, Some(5)),
    Band("MajorHub", "Major Hub", "Node with 6-10 connections", 6, Some(10)),
    Band("SuperHub", "Super Hub", "Node with more than 10 connections", 11, None)
  ]

  predicate InBand(d: int, b: Band) {
    b.minDegree <= d && (b.maxDegree.None? || d <= b.maxDegree.value)
  }

  /** `_classify_node(degree)`: the concept resource of the degree's band, or
      None for a degree below 1. */
  function Classify(degree: int): (r: Option<Term>)
    ensures r.Some? <==> degree >= 1
  {
    if degree == 1 then Some(ConceptIri("DeadEnd"))
    else if 2 <= degree <= 3 then Some(ConceptIri("SimpleJunction"))
    else if 4 <= degree <= 5 then Some(ConceptIri("Intersection"))
    else if 6 <= degree <= 10 then Some(ConceptIri("MajorHub"))
    else if degree > 10 then Some(ConceptIri("SuperHub"))
    else None
  }

  /** A band table whose bands are ordered, each non-empty, each starting
      right after the previous one ends, and only the last unbounded. */
  predicate Contiguous(bs: seq<Band>) {
    && |bs| >= 1
    && (forall i :: 0 <= i < |bs| - 1 ==>
          && bs[i].maxDegree.Some?
          && bs[i].minDegree <= bs[i].maxDegree.value
          && bs[i + 1].minDegree == bs[i].maxDegree.value + 1)
    && bs[|bs| - 1].maxDegree.None?
  }

  lemma BandsContiguous()
    ensures Contiguous(Bands) && Bands[0].minDegree == 1
  {
  }

  /** In a contiguous table every band ends before any later band starts. */
  lemma {:induction false} ContiguousOrdered(bs: seq<Band>, i: nat, j: nat)
    requires Contiguous(bs) && i < j < |bs|
    ensures bs[i].maxDegree.Some? && bs[i].maxDegree.value < bs[j].minDegree
    decreases j - i
  {
    if i + 1 < j {
      ContiguousOrdered(bs, i + 1, j);
    }
  }

  /** In a contiguous table a degree lies in at most one band. */
  lemma ContiguousDisjoint(bs: seq<Band>, d: int, i: nat, j: nat)
    requires Contiguous(bs) && i < |bs| && j < |bs|
    requires InBand(d, bs[i]) && InBand(d, bs[j])
    ensures i == j
  {
    if i < j {
      ContiguousOrdered(bs, i, j);
    } else if j < i {
      ContiguousOrdered(bs, j, i);
    }
  }

  /** In a contiguous table every degree from the first band's minimum on lies
      in some band. */
  lemma {:induction false} ContiguousCovers(bs: seq<Band>, d: int) returns (i: nat)
    requires Contiguous(bs) && d >= bs[0].minDegree
    ensures i < |bs| && InBand(d, bs[i])
    decreases |bs|
  {
    if |bs| == 1 || d <= bs[0].maxDegree.value {
      i := 0;
    } else {
      var rest := bs[1..];
      assert Contiguous(rest) by {
        forall k | 0 <= k < |rest| - 1
          ensures rest[k].maxDegree.Some? && rest[k].minDegree <= rest[k].maxDegree.value
          ensures rest[k + 1].minDegree == rest[k].maxDegree.value + 1
        {
          assert rest[k] == bs[k + 1] && rest[k + 1] == bs[k + 2];
        }
      }
      var k := ContiguousCovers(rest, d);
      i := k + 1;
    }
  }

  /** The five bands partition the positive degrees: every degree of at least 1
      lies in exactly one band, and no degree below 1 lies in any. */
  lemma BandsPartition(d: int)
    ensures d >= 1 ==> exists i :: 0 <= i < |Bands| && InBand(d, Bands[i])
    ensures forall i, j :: 0 <= i < |Bands| && 0 <= j < |Bands| && InBand(d, Bands[i]) && InBand(d, Bands[j]) ==> i == j
    ensures d < 1 ==> forall i :: 0 <= i < |Bands| ==> !InBand(d, Bands[i])
  {
    BandsContiguous();
    if d >= 1 {
      var i := ContiguousCovers(Bands, d);
    }
    forall i, j | 0 <= i < |Bands| && 0 <= j < |Bands| && InBand(d, Bands[i]) && InBand(d, Bands[j])
      ensures i == j
    {
      ContiguousDisjoint(Bands, d, i, j);
    }
    if d < 1 {
      forall i | 0 <= i < |Bands| ensures !InBand(d, Bands[i]) {
        if i > 0 {
          ContiguousOrdered(Bands, 0, i);
        }
      }
    }
  }

  /** No two bands share an id, so no two share a concept resource. */
  lemma BandIdsDistinct()
    ensures forall i, j :: 0 <= i < |Bands| && 0 <= j < |Bands| && ConceptIri(Bands[i].id) == ConceptIri(Bands[j].id) ==> i == j
  {
    assert Bands[0].id[0] == 'D' && Bands[1].id[1] == 'i' && Bands[2].id[0] == 'I';
    assert Bands[3].id[0] == 'M' && Bands[4].id[0] == 'S' && Bands[4].id[1] == 'u';
    assert |Bands[0].id| == 7 && |Bands[1].id| == 14 && |Bands[2].id| == 12;
  }

  /** `_classify_node` agrees with the table: it returns a band's concept
      exactly for the degrees inside that band. */
  lemma ClassifyAgreesWithBands(d: int, i: nat)
    requires i < |Bands|
    ensures Classify(d) == Some(ConceptIri(Bands[i].id)) <==> InBand(d, Bands[i])
  {
    BandIdsDistinct();
    BandsPartition(d);
  }

  // ---- Triples emitted by create_skos_concepts ----

  function SchemeTriples(): set<Triple> {
    { Triple(SchemeIri, RdfType, SkosConceptScheme),
      Triple(SchemeIri, SkosPrefLabel, LangLiteral("Road Network Node Classification", "en")) }
  }

  /** The triples of one concept: type, scheme membership, label, definition,
      `minDegree`, and `maxDegree` only when the band is bounded. */
  function BandTriples(b: Band): set<Triple>
  {
    var c := ConceptIri(b.id);
    { Triple(c, RdfType, SkosConcept),
      Triple(c, SkosInScheme, SchemeIri),
      Triple(c, SkosPrefLabel, LangLiteral(b.prefLabel, "en")),
      Triple(c, SkosDefinition, LangLiteral(b.definition, "en")),
      Triple(c, MinDegree, IntLiteral(b.minDegree)) }
    + if b.maxDegree.Some? then { Triple(c, MaxDegree, IntLiteral(b.maxDegree.value)) } else {}
  }

  /** The properties a concept's own triples use. */
  function BandProperties(): set<Term> {
    {RdfType, SkosInScheme, SkosPrefLabel, SkosDefinition, MinDegree, MaxDegree}
  }

  /** A band's triples are all about the band's concept and use only the
      concept properties. */
  lemma BandTripleFacts(b: Band, t: Triple)
    requires t in BandTriples(b)
    ensures t.subject == ConceptIri(b.id) && t.property in BandProperties()
  {
  }

  /** The triples of the bands of `bs`, added in table order. */
  function ConceptTriplesOf(bs: seq<Band>): set<Triple>
  {
    if bs == [] then {} else ConceptTriplesOf(bs[..|bs| - 1]) + BandTriples(bs[|bs| - 1])
  }

  /** The hard-coded `skos:broader` links. */
  function BroaderTriples(): set<Triple> {
    { Triple(ConceptIri("SimpleJunction"), SkosBroader, ConceptIri("DeadEnd")),
      Triple(ConceptIri("Intersection"), SkosBroader, ConceptIri("SimpleJunction")),
      Triple(ConceptIri("MajorHub"), SkosBroader, ConceptIri("Intersection")),
      Triple(ConceptIri("SuperHub"), SkosBroader, ConceptIri("MajorHub")) }
  }

  /** Everything `create_skos_concepts` adds. */
  function SkosTriples(): set<Triple> {
    SchemeTriples() + ConceptTriplesOf(Bands) + BroaderTriples()
  }

  /** A concept triple comes from some band of the table: the band it comes
      from is returned. */
  lemma {:induction false} BandOfConceptTriple(bs: seq<Band>, t: Triple) returns (j: nat)
    requires t in ConceptTriplesOf(bs)
    ensures j < |bs| && t in BandTriples(bs[j])
  {
    var init := bs[..|bs| - 1];
    if t in BandTriples(bs[|bs| - 1]) {
      j := |bs| - 1;
    } else {
      j := BandOfConceptTriple(init, t);
      assert bs[j] == init[j];
    }
  }

  /** Every triple of every band of the table is a concept triple. */
  lemma {:induction false} BandTripleInConcepts(bs: seq<Band>, j: nat, t: Triple)
    requires j < |bs| && t in BandTriples(bs[j])
    ensures t in ConceptTriplesOf(bs)
  {
    var init := bs[..|bs| - 1];
    if j < |bs| - 1 {
      assert init[j] == bs[j];
      BandTripleInConcepts(init, j, t);
    }
  }

  /** A triple belongs to the concept triples of a table exactly when it
      belongs to the triples of one of its bands. */
  lemma ConceptTriplesOfMember(bs: seq<Band>, t: Triple)
    ensures t in ConceptTriplesOf(bs) <==> exists j :: 0 <= j < |bs| && t in BandTriples(bs[j])
  {
    if t in ConceptTriplesOf(bs) {
      var j := BandOfConceptTriple(bs, t);
    }
    if exists j :: 0 <= j < |bs| && t in BandTriples(bs[j]) {
      var j :| 0 <= j < |bs| && t in BandTriples(bs[j]);
      BandTripleInConcepts(bs, j, t);
    }
  }

  /** A concept triple is about one of the table's concepts and uses one of
      the concept properties. */
  lemma ConceptTripleSubject(bs: seq<Band>, t: Triple) returns (j: nat)
    requires t in ConceptTriplesOf(bs)
    ensures j < |bs| && t.subject == ConceptIri(bs[j].id)
    ensures t.property in BandProperties()
  {
    j := BandOfConceptTriple(bs, t);
    BandTripleFacts(bs[j], t);
  }

  /** When no other band shares band `i`'s id, the concept triples about
      band `i`'s concept are exactly that band's own triples. */
  lemma ConceptTriplesAbout(bs: seq<Band>, i: nat, t: Triple)
    requires i < |bs| && t.subject == ConceptIri(bs[i].id)
    requires forall j :: 0 <= j < |bs| && bs[j].id == bs[i].id ==> j == i
    ensures t in ConceptTriplesOf(bs) <==> t in BandTriples(bs[i])
  {
    if t in ConceptTriplesOf(bs) {
      ConceptTripleOfOwnBand(bs, i, t);
    }
    if t in BandTriples(bs[i]) {
      BandTripleInConcepts(bs, i, t);
    }
  }

  /** A concept triple about band `i`'s concept, whose id no other band
      shares, comes from band `i`. */
  lemma ConceptTripleOfOwnBand(bs: seq<Band>, i: nat, t: Triple)
    requires i < |bs| && t.subject == ConceptIri(bs[i].id) && t in ConceptTriplesOf(bs)
    requires forall j :: 0 <= j < |bs| && bs[j].id == bs[i].id ==> j == i
    ensures t in BandTriples(bs[i])
  {
    var j := BandOfConceptTriple(bs, t);
    BandTripleFacts(bs[j], t);
    assert bs[j].id == bs[i].id;
  }

  /** Every SKOS statement is about the concept scheme or about the concept
      of one of the bands. */
  lemma SkosSubjects(t: Triple)
    ensures t in SkosTriples()
        ==> t.subject == SchemeIri || exists j :: 0 <= j < |Bands| && t.subject == ConceptIri(Bands[j].id)
  {
    if t in ConceptTriplesOf(Bands) {
      var j := ConceptTripleSubject(Bands, t);
    } else if t in BroaderTriples() {
      var j := if t.subject == ConceptIri("SimpleJunction") then 1
        else if t.subject == ConceptIri("Intersection") then 2
        else if t.subject == ConceptIri("MajorHub") then 3
        else 4;
      assert t.subject == ConceptIri(Bands[j].id);
    }
  }

  /** Every concept id starts with a capital letter. */
  lemma BandIdsCapitalised()
    ensures forall j :: 0 <= j < |Bands| ==> Bands[j].id != [] && 'A' <= Bands[j].id[0] <= 'Z'
  {
  }

  /** A SKOS triple whose subject is the concept of band `i` and whose property
      is a degree bound comes from that band's own triples. */
  lemma BoundTripleOfBand(i: nat, p: Term, o: Term)
    requires i < |Bands| && (p == MinDegree || p == MaxDegree)
    ensures Triple(ConceptIri(Bands[i].id), p, o) in SkosTriples()
        <==> Triple(ConceptIri(Bands[i].id), p, o) in BandTriples(Bands[i])
  {
    var t := Triple(ConceptIri(Bands[i].id), p, o);
    BandIdsDistinct();
    ConceptTriplesAbout(Bands, i, t);
    assert t !in SchemeTriples() && t !in BroaderTriples();
  }

  /** Every concept gets exactly one `minDegree` triple: its band's lower
      bound, and no other object of any kind. */
  lemma MinDegreeTriples(i: nat, o: Term)
    requires i < |Bands|
    ensures Triple(ConceptIri(Bands[i].id), MinDegree, o) in SkosTriples()
        <==> o == IntLiteral(Bands[i].minDegree)
  {
    BoundTripleOfBand(i, MinDegree, o);
  }

  /** A concept gets a `maxDegree` triple exactly when its band is bounded, and
      then only its band's upper bound. */
  lemma MaxDegreeTriples(i: nat, o: Term)
    requires i < |Bands|
    ensures Triple(ConceptIri(Bands[i].id), MaxDegree, o) in SkosTriples()
        <==> Bands[i].maxDegree.Some? && o == IntLiteral(Bands[i].maxDegree.value)
  {
    BoundTripleOfBand(i, MaxDegree, o);
  }

  /** The four bounded bands are the first four; SuperHub has no `maxDegree`. */
  lemma OnlySuperHubUnbounded(o: Term)
    ensures forall i :: 0 <= i < |Bands| ==> (Bands[i].maxDegree.Some? <==> i < 4)
    ensures Triple(ConceptIri("SuperHub"), MaxDegree, o) !in SkosTriples()
  {
    MaxDegreeTriples(4, o);
  }

  /** The classifier agrees with the emitted bounds: a degree is classified as
      a concept exactly when it is at least the concept's `minDegree` and at
      most its `maxDegree`, if it has one. */
  lemma ClassifyAgreesWithEmittedBounds(d: int, i: nat, lo: int)
    requires i < |Bands|
    requires Triple(ConceptIri(Bands[i].id), MinDegree, IntLiteral(lo)) in SkosTriples()
    ensures Classify(d) == Some(ConceptIri(Bands[i].id))
        <==> lo <= d && forall hi :: Triple(ConceptIri(Bands[i].id), MaxDegree, IntLiteral(hi)) in SkosTriples() ==> d <= hi
  {
    MinDegreeTriples(i, IntLiteral(lo));
    ClassifyAgreesWithBands(d, i);
    forall hi ensures Triple(ConceptIri(Bands[i].id), MaxDegree, IntLiteral(hi)) in SkosTriples()
        <==> Bands[i].maxDegree == Some(hi)
    {
      MaxDegreeTriples(i, IntLiteral(hi));
    }
    if Bands[i].maxDegree.Some? {
      var hi := Bands[i].maxDegree.value;
      assert Triple(ConceptIri(Bands[i].id), MaxDegree, IntLiteral(hi)) in SkosTriples();
    }
  }

  /** The only `broader` triples are the four hard-coded ones. */
  lemma BroaderOnlyHardCoded(t: Triple)
    requires t in SkosTriples() && t.property == SkosBroader
    ensures t in BroaderTriples()
  {
    ConceptTriplesProperties(t);
    assert SkosBroader !in BandProperties();
  }

  /** The concept triples use only the properties of `BandProperties`. */
  lemma ConceptTriplesProperties(t: Triple)
    ensures t in ConceptTriplesOf(Bands) ==> t.property in BandProperties()
  {
    if t in ConceptTriplesOf(Bands) {
      var j := ConceptTripleSubject(Bands, t);
    }
  }

  /** Every `broader` link joins a band to its predecessor. */
  lemma BroaderLinksAreChain(t: Triple)
    requires t in SkosTriples() && t.property == SkosBroader
    ensures exists i :: 1 <= i < |Bands| && t.subject == ConceptIri(Bands[i].id) && t.obj == ConceptIri(Bands[i - 1].id)
  {
    BroaderOnlyHardCoded(t);
    var k: nat :=
      if t.subject == ConceptIri("SimpleJunction") then 1
      else if t.subject == ConceptIri("Intersection") then 2
      else if t.subject == ConceptIri("MajorHub") then 3
      else 4;
    assert t == Triple(ConceptIri(Bands[k].id), SkosBroader, ConceptIri(Bands[k - 1].id));
  }

  /** The `broader` links form the chain of the table: the concept of band `i`
      is narrower than exactly the concept of band `i - 1`, and DeadEnd, the
      first, has no broader concept. */
  lemma BroaderIsPredecessor(i: nat, o: Term)
    requires i < |Bands|
    ensures Triple(ConceptIri(Bands[i].id), SkosBroader, o) in SkosTriples()
        <==> i > 0 && o == ConceptIri(Bands[i - 1].id)
  {
    var t := Triple(ConceptIri(Bands[i].id), SkosBroader, o);
    if t in SkosTriples() {
      BroaderLinksAreChain(t);
      BandIdsDistinct();
    }
    if i > 0 && o == ConceptIri(Bands[i - 1].id) {
      assert t in BroaderTriples();
    }
  }
}
