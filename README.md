# Road network to RDF converter, modelled in Dafny

This project models the class `RoadNetworkConverter` of `convert-to-rdf.py`.
The class reads a road-network edge list (one `from to` pair of node ids per
line) into a simple directed graph. It then writes an RDF graph holding:

- a fixed OWL schema (`create_ontology`);
- a SKOS concept scheme of five degree bands, from `DeadEnd` to `SuperHub`
  (`create_skos_concepts`);
- for every node: its type, id, in-degree, out-degree, total degree and,
  when the degree falls in a band, its classification;
- one `connectsTo` statement per edge (`convert_network_to_rdf`).

It also computes the integer statistics of the network
(`generate_statistics`).

The model works on values where the source computes values, and on a class
where the source updates state:

- `Rdf`: RDF terms (IRIs in a namespace, integer literals, plain and
  language-tagged literals), triples and the vocabulary the converter uses.
  An RDF graph is a `set<Triple>`, so adding a statement twice adds it once.
- `IntText`: Python's `str(int)` (`Decimal`) and `int(str)` (`ParseInt`:
  optional sign, ASCII digits, single underscores between digits, at most
  4300 digits).
- `DiGraph`: `nx.DiGraph` as a set of node ids and a set of ordered pairs.
  In-degree and out-degree are counts of edges, so a repeated `add_edge`
  changes nothing.
- `EdgeList`: how `load_dataset` reads one line, the list of accepted edges
  of a file, and the `max_edges` cap.
- `Taxonomy`: the band table, `_classify_node`, and the SKOS statements.
- `Ontology`: the schema statements.
- `Emission`: the statements about nodes and edges.
- `Statistics`: the degree distribution.
- `Converter`: the class `RoadNetworkConverter`, with fields `graph` and
  `network` and one method per step. It also holds `Run`, the entry point's
  sequence of calls.

The source keeps the band boundaries twice: in the `if`/`elif` chain of
`_classify_node` and in the concept dictionary of `create_skos_concepts`. The
model keeps both, as `Taxonomy.Classify` and `Taxonomy.Bands`, and proves that
they agree.

Three consequences of the code that are easy to miss:

- Node ids are read with `int()`, so tokens such as `-3`, `+4` and `1_000`
  are accepted as ids.
- `int()` and `str()` refuse decimal texts of more than 4300 digits (CPython's
  default `sys.int_max_str_digits`). The `ValueError` is caught and the line
  is skipped, so an id that long is never loaded.
- The cap test is `if max_edges and edges_count >= max_edges`, made after
  every accepted line. A cap of 0 therefore means no cap, and a negative cap
  stops after the first accepted line.

## Model

| member | source | states |
|---|---|---|
| Taxonomy.Classify | convert-to-rdf.py:196-208 | a degree gets a concept exactly when it is at least 1; None for 0 and below |
| Taxonomy.BandTriples | convert-to-rdf.py:93-101 | the statements one pass of the concept loop adds: type, scheme membership, label, definition, `minDegree`, and `maxDegree` only for a bounded band |
| Taxonomy.ConceptTriplesOf | convert-to-rdf.py:93-101 | the statements of the concept loop over a band table: the union of each band's statements |
| Taxonomy.SchemeTriples | convert-to-rdf.py:80-82 | the concept scheme's type and English label |
| Taxonomy.BroaderTriples | convert-to-rdf.py:104-107 | the four hard-coded `broader` links |
| Taxonomy.SkosTriples | convert-to-rdf.py:75-107 | everything `create_skos_concepts` adds: the scheme, the concepts of the band table and the `broader` links |
| Taxonomy.ClassifyAgreesWithBands | convert-to-rdf.py:196-208 | for every band of the table, the classifier returns that band's concept exactly when the degree lies within the band's bounds |
| Taxonomy.BandsPartition | convert-to-rdf.py:85-91 | every degree of at least 1 lies in some band, in at most one band, and a degree below 1 lies in none |
| Taxonomy.ContiguousOrdered | convert-to-rdf.py:85-91 | in a contiguous table, every band before another is bounded and ends below the other's lower bound (ascending, non-overlapping) |
| Taxonomy.ContiguousDisjoint | convert-to-rdf.py:85-91 | in a contiguous table, a degree lies in at most one band |
| Taxonomy.ContiguousCovers | convert-to-rdf.py:85-91 | in a contiguous table, every degree from the first lower bound up lies in some band |
| Taxonomy.BandIdsDistinct | convert-to-rdf.py:85-91 | the five concept ids name five different resources |
| Taxonomy.BandTripleFacts | convert-to-rdf.py:93-101 | a concept's own statements are all about that concept and use only the concept properties |
| Taxonomy.BandsContiguous | convert-to-rdf.py:85-91 | the band table starts at degree 1, each band starts one above the previous band's upper bound, and only the last band is unbounded |
| Taxonomy.BandOfConceptTriple | convert-to-rdf.py:93-101 | every statement of the concept loop comes from some band of the table, which the lemma names |
| Taxonomy.BandTripleInConcepts | convert-to-rdf.py:93-101 | every statement of every band of the table is added by the concept loop |
| Taxonomy.ConceptTriplesOfMember | convert-to-rdf.py:93-101 | the concept loop's statements are exactly the union of the statements of each band in the table |
| Taxonomy.ConceptTripleSubject | convert-to-rdf.py:93-101 | every statement of the concept loop is about the concept of some band and uses a concept property |
| Taxonomy.ConceptTriplesAbout | convert-to-rdf.py:93-101 | when no other band shares a band's id, the concept loop's statements about that band's concept are exactly that band's own statements |
| Taxonomy.ConceptTripleOfOwnBand | convert-to-rdf.py:93-101 | a concept-loop statement about the concept of a band whose id no other band shares comes from that band |
| Taxonomy.ConceptTriplesProperties | convert-to-rdf.py:95-101 | the concept loop uses only type, `inScheme`, `prefLabel`, `definition`, `minDegree` and `maxDegree` |
| Taxonomy.SkosSubjects | convert-to-rdf.py:79-107 | every SKOS statement is about the concept scheme or about the concept of one of the five bands |
| Taxonomy.BandIdsCapitalised | convert-to-rdf.py:85-91 | every concept id is non-empty and starts with a capital letter |
| Taxonomy.BoundTripleOfBand | convert-to-rdf.py:93-107 | a `minDegree` or `maxDegree` statement about a concept in the SKOS output comes from that concept's own band |
| Taxonomy.MinDegreeTriples | convert-to-rdf.py:99 | every concept has exactly one `minDegree` statement, for any object term: the integer literal of its band's lower bound |
| Taxonomy.MaxDegreeTriples | convert-to-rdf.py:100-101 | a concept has a `maxDegree` statement exactly when its band is bounded, and then only its upper bound |
| Taxonomy.OnlySuperHubUnbounded | convert-to-rdf.py:86-91 | exactly the first four bands are bounded, and `SuperHub` has no `maxDegree` statement |
| Taxonomy.ClassifyAgreesWithEmittedBounds | convert-to-rdf.py:99-101 | a degree is classified as a concept exactly when it is at least the emitted `minDegree` and at most the emitted `maxDegree`, if there is one |
| Taxonomy.BroaderOnlyHardCoded | convert-to-rdf.py:104-107 | every `broader` statement in the SKOS output is one of the four hard-coded links |
| Taxonomy.BroaderLinksAreChain | convert-to-rdf.py:104-107 | every `broader` statement links a band to the band just before it in the table |
| Taxonomy.BroaderIsPredecessor | convert-to-rdf.py:104-107 | a concept's `broader` is exactly its predecessor in band order; `DeadEnd` has none |
| Ontology.OntologyHeader | convert-to-rdf.py:32-34 | the ontology resource's statements are about a term of the road ontology namespace |
| Ontology.NodeClassTriples | convert-to-rdf.py:37-40 | the `RoadNode` class statements are about a term of the road ontology namespace |
| Ontology.EdgeClassTriples | convert-to-rdf.py:42-44 | the `RoadEdge` class statements are about a term of the road ontology namespace |
| Ontology.ConnectsToTriples | convert-to-rdf.py:47-51 | the `connectsTo` statements are about a term of the road ontology namespace |
| Ontology.IntegerProperty | convert-to-rdf.py:54-73 | the declaration of an integer property named in the road ontology namespace is about that property's term |
| Ontology.DegreeLabelTriples | convert-to-rdf.py:63 | the `hasDegree` label is about a term of the road ontology namespace |
| Ontology.OntologyTriples | convert-to-rdf.py:27-73 | everything `create_ontology` adds: the ontology header, the two classes, `connectsTo` and the four integer properties |
| Ontology.SchemaSubjects | convert-to-rdf.py:27-73 | every schema statement is about a term of the road ontology namespace |
| Ontology.PropertiesDeclared | convert-to-rdf.py:47-73 | `connectsTo` is an object property from road nodes to road nodes, and each of the four integer properties is a datatype property of road nodes with integer range |
| IntText.Decimal | convert-to-rdf.py:158 | `str(n)`: a minus sign for a negative number, then the digits of its magnitude |
| IntText.ParseInt | convert-to-rdf.py:131-132 | `int(token)`: an optional sign, then digits with single underscores between them and at most 4300 digits in all; anything else is the `ValueError` case |
| IntText.DigitCount | convert-to-rdf.py:131-132 | the number of digits in a token, which the 4300-digit limit counts; it is at most the token's length |
| IntText.Digits | convert-to-rdf.py:158 | the decimal text of a natural number is a non-empty run of digits without a leading zero |
| IntText.RunValueDigits | convert-to-rdf.py:131-132 | the digits `str` writes for a natural number read back as that number |
| IntText.ParseDecimal | convert-to-rdf.py:131-132 | `int(str(n)) == n` for every integer of at most 4300 digits, and a longer text is refused |
| IntText.DecimalInjective | convert-to-rdf.py:158 | different node ids have different decimal texts |
| IntText.RunValueBound | convert-to-rdf.py:131-132 | a digit run of k digits has a value below 10 to the k |
| IntText.DigitsLength | convert-to-rdf.py:158 | a number below 10 to the k has at most k digits |
| IntText.ParsedWithinStrLimit | convert-to-rdf.py:131-132 | every integer `int()` accepts has at most 4300 digits, so `str` can write it back |
| IntText.ParseIntRejectsLongToken | convert-to-rdf.py:131-144 | a token of more than 4300 digits does not parse |
| IntText.ParseIntRejectsForeignChar | convert-to-rdf.py:130-144 | a token holding a character other than a digit, a sign or an underscore does not parse |
| EdgeList.IsSpace | convert-to-rdf.py:120 | the characters `str.isspace()` accepts, which `split()` separates tokens at |
| EdgeList.WordLength | convert-to-rdf.py:120 | the length of the run of non-whitespace characters at the front of a string; at most its length |
| EdgeList.Words | convert-to-rdf.py:120 | `line.strip().split()`: the maximal runs of non-whitespace characters, in order |
| EdgeList.Dropped | convert-to-rdf.py:125-128 | a line is dropped when the rate is below 1.0 and its draw exceeds the rate |
| EdgeList.ReadLine | convert-to-rdf.py:117-134 | the outcome of one line, in the source's order of checks: comment, wrong token count, dropped by sampling, a token `int()` refuses, or an edge |
| EdgeList.SpaceLength | convert-to-rdf.py:120 | the whitespace `split` skips at the front of a line ends at a non-whitespace character or at the end of the line |
| EdgeList.SpaceLengthOfSpace | convert-to-rdf.py:120 | the skipped whitespace is the whole line exactly when the line is all whitespace |
| EdgeList.WordLengthOfRun | convert-to-rdf.py:120 | a token is the longest run of non-whitespace characters at the front: it holds no whitespace and is followed by whitespace or the end of the line |
| EdgeList.WordsAreTokens | convert-to-rdf.py:120 | every token of `split()` is non-empty and holds no whitespace |
| EdgeList.WordsOfPair | convert-to-rdf.py:120 | a line `a b` ended by whitespace splits into exactly `[a, b]` |
| EdgeList.ReadTwoTokens | convert-to-rdf.py:117-134 | a line of two tokens, not a comment, is dropped by sampling when its draw says so, and is otherwise the edge of the two parsed tokens, or skipped when either token does not parse |
| EdgeList.DecimalToken | convert-to-rdf.py:120-132 | `str(n)` is one non-empty token without whitespace that does not start a comment |
| EdgeList.ReadWrittenLine | convert-to-rdf.py:117-135 | the line `str(u) str(v)` plus trailing whitespace is read as the edge (u, v) unless sampling drops it or an id has more than 4300 digits |
| EdgeList.ForeignTokenSkipped | convert-to-rdf.py:130-144 | a two-token line with a non-numeric token is skipped |
| EdgeList.CommentSkipped | convert-to-rdf.py:117-118 | a line starting with `#` is skipped |
| EdgeList.ThreeTokensSkipped | convert-to-rdf.py:120-122 | a line of three tokens is skipped, whatever they are |
| EdgeList.ReadEdge | convert-to-rdf.py:117-134 | one pass of the reading loop, in the source's order of checks, yields exactly the edge the line contributes |
| EdgeList.Accepted | convert-to-rdf.py:115-135 | the accepted edges of the first n lines are at most n |
| EdgeList.AcceptedNext | convert-to-rdf.py:115-135 | reading one more line appends exactly the edges that line contributes |
| EdgeList.AcceptedWithinStrLimit | convert-to-rdf.py:130-135 | every endpoint of an accepted edge has at most 4300 digits |
| EdgeList.AcceptedPrefix | convert-to-rdf.py:115-135 | reading more lines only extends the list of accepted edges |
| EdgeList.FullRateIgnoresDraws | convert-to-rdf.py:125-128 | with a sample rate of 1.0 or more no line is dropped, whatever the random draws |
| EdgeList.CapCount | convert-to-rdf.py:137-138 | None or 0 loads everything accepted; a positive N loads min(N, accepted); a negative N loads min(1, accepted) |
| EdgeList.CapReached | convert-to-rdf.py:137-138 | the break test `max_edges and edges_count >= max_edges` |
| EdgeList.CapPrefix | convert-to-rdf.py:137-138 | the loaded edges are a prefix of the accepted ones; at most N under a positive cap N; all of them when there are no more than N or there is no cap |
| EdgeList.CapAtBreak | convert-to-rdf.py:137-138 | when the loop breaks, what it loaded is the capped prefix |
| EdgeList.CapAtEnd | convert-to-rdf.py:115-138 | when the lines run out before the cap is reached, every accepted edge is loaded |
| EdgeList.LoadedEdges | convert-to-rdf.py:109-146 | the edges `load_dataset` adds, in order: the capped prefix of the accepted edges of the whole file |
| EdgeList.LoadedWithinStrLimit | convert-to-rdf.py:130-138 | every endpoint of a loaded edge has at most 4300 digits |
| EdgeList.LoadedAtBreak | convert-to-rdf.py:137-138 | when the loop breaks after the first accepted line that reaches the cap, the edges read so far are exactly what `load_dataset` loads from the whole file |
| EdgeList.LoadedAtEnd | convert-to-rdf.py:115-138 | when the file ends without the cap being reached, `load_dataset` loads every accepted edge of the file |
| DiGraph.AddEdge | convert-to-rdf.py:134 | `add_edge(u, v)`: both endpoints join the nodes and the pair joins the edges |
| DiGraph.AddPairs | convert-to-rdf.py:134 | `add_edge` applied to each pair of a list in turn |
| DiGraph.AddPairsContents | convert-to-rdf.py:134 | repeated `add_edge` adds exactly the given pairs as edges and their endpoints as nodes, and keeps every edge between nodes |
| DiGraph.AddPairsSnoc | convert-to-rdf.py:134 | loading one more pair is one more `add_edge` |
| DiGraph.AddEdgePresent | convert-to-rdf.py:134 | adding a pair that is already an edge changes nothing |
| DiGraph.AddPairsEdgeBound | convert-to-rdf.py:134-135 | the edges gained are at most the `add_edge` calls made |
| DiGraph.InDegree | convert-to-rdf.py:153-165 | `in_degree(n)`: the number of edges that end at the node |
| DiGraph.OutDegree | convert-to-rdf.py:154-166 | `out_degree(n)`: the number of edges that start at the node |
| DiGraph.Degree | convert-to-rdf.py:167 | a node's degree: in-degree plus out-degree, so a self-loop counts twice |
| DiGraph.InDegreeZero | convert-to-rdf.py:153-165 | a node's in-degree is 0 exactly when no edge ends at it |
| DiGraph.OutDegreeZero | convert-to-rdf.py:154-166 | a node's out-degree is 0 exactly when no edge starts at it |
| DiGraph.NodeOfEdgeGraphHasPositiveDegree | convert-to-rdf.py:165-167 | in a graph where every node lies on an edge, every node's total degree is at least 1 |
| Emission.NodeUri | convert-to-rdf.py:158 | the resource `node_<str(id)>` in the road namespace |
| Emission.NodeTriples | convert-to-rdf.py:157-176 | the statements one pass of the node loop adds: type, id, in-degree, out-degree, total degree, and the classification when `_classify_node` gives one |
| Emission.NodeTriplesOf | convert-to-rdf.py:156-180 | the statements of the node loop over a set of nodes |
| Emission.EdgeTriple | convert-to-rdf.py:184-188 | the `connectsTo` statement of one edge |
| Emission.EdgeTriplesOf | convert-to-rdf.py:183-192 | the statements of the edge loop over a set of edges |
| Emission.DataTriples | convert-to-rdf.py:148-194 | everything `convert_network_to_rdf` adds: the node loop's and the edge loop's statements |
| Emission.NodeUriInjective | convert-to-rdf.py:158 | different node ids name different node resources |
| Emission.NodeTripleFacts | convert-to-rdf.py:157-176 | a node's statements are all about that node and use only the node properties |
| Emission.NodePropertiesDistinct | convert-to-rdf.py:161-188 | the six properties of a node's statements and `connectsTo` are seven different resources |
| Emission.NodeTriplesOfStep | convert-to-rdf.py:157-176 | one more pass of the node loop adds exactly that node's statements |
| Emission.EdgeTriplesOfStep | convert-to-rdf.py:184-188 | one more pass of the edge loop adds exactly that edge's statement |
| Emission.NodeTripleMember | convert-to-rdf.py:157-188 | the statements about a node, other than `connectsTo`, are exactly its own pass's statements |
| Emission.InDegreeTriple | convert-to-rdf.py:165-169 | a node has exactly one `hasInDegree` statement, for any object term: the integer literal of its in-degree |
| Emission.OutDegreeTriple | convert-to-rdf.py:166-170 | a node has exactly one `hasOutDegree` statement, for any object term: the integer literal of its out-degree |
| Emission.TotalDegreeTriple | convert-to-rdf.py:167-171 | a node has exactly one `hasDegree` statement, for any object term: the integer literal of in-degree plus out-degree |
| Emission.DegreeIsInPlusOut | convert-to-rdf.py:165-171 | for every node, the emitted `hasDegree` equals the emitted `hasInDegree` plus `hasOutDegree` |
| Emission.ClassificationTriple | convert-to-rdf.py:174-176 | a node has a `hasClassification` statement exactly when the classifier gives its total degree a concept, and only that one |
| Emission.ConnectsToIffEdge | convert-to-rdf.py:184-188 | there is a `connectsTo` statement from `node_u` to `node_v` exactly when (u, v) is an edge |
| Emission.ConnectsToOnlyEdges | convert-to-rdf.py:157-188 | every `connectsTo` statement of the data is the statement of some edge: the node loop adds none |
| Emission.DataSubjectsAreNodes | convert-to-rdf.py:157-188 | every statement the emitter adds is about a node of the network |
| Statistics.NodesOfDegree | convert-to-rdf.py:216-220 | the nodes of a set that have a given degree |
| Statistics.DegreesOf | convert-to-rdf.py:216 | the degrees that occur among a set of nodes |
| Statistics.Distribution | convert-to-rdf.py:220 | `Counter(degrees)`: each degree that occurs, mapped to the number of nodes with that degree |
| Statistics.DistributionStep | convert-to-rdf.py:216-220 | counting one more node adds one to the count of its degree |
| Statistics.DistributionCounts | convert-to-rdf.py:216-220 | every node's degree is counted, and every counted degree has between one and all of the nodes |
| Converter.RoadNetworkConverter.constructor | convert-to-rdf.py:17-19 | a new converter has an empty graph and an empty network |
| Converter.RoadNetworkConverter.CreateOntology | convert-to-rdf.py:27-73 | adds exactly the schema statements to the graph |
| Converter.RoadNetworkConverter.CreateSkosConcepts | convert-to-rdf.py:75-107 | adds exactly the scheme, the five concepts' statements and the `broader` chain |
| Converter.RoadNetworkConverter.AddConcept | convert-to-rdf.py:94-101 | one pass of the concept loop adds exactly that band's statements |
| Converter.RoadNetworkConverter.AddBroaderLinks | convert-to-rdf.py:104-107 | adds exactly the four `broader` links |
| Converter.RoadNetworkConverter.LoadDataset | convert-to-rdf.py:109-146 | the network becomes the old one plus the capped list of accepted edges, and the counter is that list's length |
| Converter.RoadNetworkConverter.LoadLine | convert-to-rdf.py:115-144 | one pass of the reading loop extends the accepted edges by what the line contributes, adds them to the network, and stops only once the cap is reached, when everything `load_dataset` loads has been loaded |
| Converter.RoadNetworkConverter.ReadAndAdd | convert-to-rdf.py:117-138 | reading a line adds its edge, if any, to the network and the counter, and the loop breaks exactly when an added edge brings the counter to the cap |
| Converter.RoadNetworkConverter.ConvertNetworkToRdf | convert-to-rdf.py:148-194 | adds exactly the node and edge statements of the network, leaves the network unchanged, and counts its nodes and edges |
| Converter.RoadNetworkConverter.AddNodes | convert-to-rdf.py:156-180 | the node loop adds exactly the statements of every node and counts the nodes |
| Converter.RoadNetworkConverter.AddEdges | convert-to-rdf.py:183-192 | the edge loop adds exactly one `connectsTo` statement per edge and counts the edges |
| Converter.RoadNetworkConverter.AddNode | convert-to-rdf.py:157-176 | one pass of the node loop adds exactly that node's statements, with its degrees read from the network |
| Converter.RoadNetworkConverter.GenerateStatistics | convert-to-rdf.py:210-223 | an empty network has no statistics; otherwise the node and edge counts, a maximum degree that some node attains and no node exceeds, and the count of nodes of each degree |
| Converter.RoadNetworkConverter.TallyNode | convert-to-rdf.py:216-220 | counting one more node keeps a maximum degree that a counted node attains and none exceeds, and the distribution of the counted nodes |
| Converter.ConverterOutput | convert-to-rdf.py:257-262 | the graph after the entry point's calls: the schema, the taxonomy and the network's statements |
| Converter.Run | convert-to-rdf.py:254-265 | the final network holds exactly the capped accepted edges and every edge joins two of its nodes; the graph is the schema, the taxonomy and the network's statements |
| Converter.OutputComposed | convert-to-rdf.py:258-264 | the schema, then the taxonomy, then the network's statements added to an empty graph give the converter's whole output |
| Converter.LoadBounds | convert-to-rdf.py:134-138 | at most N `add_edge` calls under a positive cap N, all accepted lines when there are no more than N or there is no cap, and no more new edges than calls |
| Converter.LoadedNodesClassified | convert-to-rdf.py:165-176 | a loaded network has no isolated node, so every node is classified |
| Converter.LoadedIdsWithinStrLimit | convert-to-rdf.py:130-158 | every node of a loaded network has at most 4300 digits, so building its resource name never raises |
| Converter.SchemaNotAboutNodes | convert-to-rdf.py:27-107 | no schema or taxonomy statement is about a node resource |
| Converter.OutputNodeFacts | convert-to-rdf.py:157-176 | in the whole output graph, the statements about a node other than `connectsTo` are exactly its own pass's statements |
| Converter.OutputDegree | convert-to-rdf.py:167-171 | in the whole output graph, a node's only `hasDegree` statement, for any object term, is the integer literal of its degree in the network |

## Left out

- File I/O: opening the input file, `os.makedirs`, and the Turtle and N-Triples serialization in `save`. The file is given as its sequence of lines.
- `random.random()`: the draws are a parameter `draws`, one per line. A line is dropped when the rate is below 1.0 and its draw exceeds the rate. Which lines' draws the source actually consumes, and their distribution, are not modelled.
- Progress `print` calls, the batch-size counters, and the namespace bindings of `__init__`.
- The printed average degree in `generate_statistics`: it is float division. On an empty network it raises `ZeroDivisionError`, which ends `main` before `save`, so nothing is written. The statistics are then `None`. `Run` still returns the graph built so far, which the source never saves.
- The printing of the ten smallest degrees of the distribution; the distribution itself is modelled.
- `argparse` and the command-line surface of `main`. `Run` models only its sequence of calls.
- `sparql-client.js`: an HTTP client with query templates. It is not part of this model.
- networkx internals and the order in which `nodes()` and `edges()` are iterated. Both loops are modelled over an arbitrary order, and the results do not depend on it.
- The `in_degree` and `out_degree` dictionaries precomputed in `convert_network_to_rdf`: each degree is computed per node, which gives the same values.
- IntText.ParseInt: does not accept non-ASCII Unicode digits or the surrounding whitespace that Python's `int()` also accepts. Tokens from `split()` never carry whitespace. The 4300-digit limit is the default; a changed `sys.int_max_str_digits` or an interpreter without the limit is not modelled.
- IntText.Decimal: is total, while `str()` raises for more than 4300 digits. No loaded node id reaches that case, as `Converter.LoadedIdsWithinStrLimit` shows.
- RDF literal normalisation and the IRI strings of the namespaces: namespaces are an enumeration, and literals are compared as values.
