# Lexical ontology alignment, modelled in Dafny

The repository holds a family of Python scripts that align two OWL
ontologies by their class labels. Each script:

1. compares every class of the first ontology with every class of the
   second;
2. scores every pair of labels with the larger of two string similarities
   (Jaro-Winkler and I-Sub);
3. keeps every label combination whose score reaches a threshold (0.8 by
   default).

The matches are then saved as an RDF graph of `owl:equivalentClass`
triples. Some scripts also score such a graph against a reference alignment
(precision, recall, F-score). The scripts differ in how they run the
comparison:

- **Plain loops.** `b2.py`, `b3.py` and `b4_sequential.py` run four nested
  loops and append the class objects themselves.
- **Side-by-side script.** `b4_parallel_vs_serial_gp.py` runs the same loops
  appending IRIs, next to a parallel version. The parallel version maps a
  worker function over every `(iri1, labels1, iri2, labels2)` tuple of the
  cross product.
- **Per-pair script.** `b4_parallel_nested.py` maps a worker over every
  pair of IRIs. The worker looks both classes up again by IRI.
- **Chunk-based script.** `b4_parallel_chunk_based.py` splits the list of
  IRI pairs into one strided chunk per CPU, and each worker processes a
  whole chunk.

`b1.py` holds a small list intersection.

The model follows the code:

- An ontology is the list of its classes. Each class is an `Entity(iri,
  labels)`.
- The two similarity functions are arbitrary functions (`Metrics`).
  `Similarity` is Python's `max` of the two.
- A worker pool's `starmap` returns its results in input order, so it is
  modelled as an ordinary sequential map.
- Loops that grow a list or bump counters are methods. Each is proved equal
  to a specification function: a recursive one for the lists, and a closed
  form over set sizes for the evaluation counters.
- The properties are lemmas about those functions.

Modules, one per file:

| module | file | models |
|---|---|---|
| `Sequences` | sequences.dfy | flattening, the ordered cross product built by nested comprehensions, subsequences |
| `Alignment` | alignment.dfy | entities, matches, the similarity, the label loops of one class pair |
| `Sequential` | sequential.dfy | `find_lexical_matches` of the plain scripts |
| `Rdf` | rdf.dfy | `save_matches_as_rdf` as a set of triples |
| `Evaluation` | evaluation.dfy | `compare_with_reference` |
| `Chunking` | chunking.dfy | `chunkify` |
| `ParallelGp` | parallel_gp.dfy | both matchers of the side-by-side script |
| `ParallelNested` | parallel_nested.dfy | the per-pair script's worker and matcher |
| `ParallelChunks` | parallel_chunks.dfy | `process_chunk` and the chunk-based matcher |
| `CommonElements` | common.dfy | `find_common_elements` |

The main results:

- **Order.** The plain loops, the side-by-side script's parallel matcher and
  the per-pair matcher return the same list, in the same order, once each
  class object in the plain loops' output is replaced by its IRI. For the
  per-pair matcher this needs one class per IRI in each ontology.
- **Permutation.** The chunk-based matcher returns a permutation of that
  list, whatever the number of chunks. So the saved graph, and its
  evaluation, do not depend on the CPU count.
- **Match contents.** Every match reaches the threshold and links two
  labelled classes. One match is emitted per qualifying label combination,
  so a pair of classes can appear more than once.
- **Threshold.** Raising the threshold keeps a subsequence of the matches.
- **Chunking.** `chunkify` is a balanced, index-preserving split of its
  input.

## Model

| member | source | states |
|---|---|---|
| Alignment.Similarity | b4_sequential.py:23 | the score is at least each of the two metrics and equals one of them (Python `max`) |
| Alignment.LabelRow | b4_sequential.py:22-25 | the inner label loop emits at most one match per label of the second class, each carrying both class ids and a score at least the threshold |
| Alignment.PairMatches | b4_sequential.py:21-25 | every match of a class pair carries both ids and a score at least the threshold; an empty label list on either side gives no match |
| Alignment.PairMatchesQualifying | b4_sequential.py:21-25 | the two label loops emit, in label1-outer, label2-inner order, exactly the qualifying label combinations of the cross product of the two label lists |
| Alignment.QualifyingMembers | b2.py:16-20 | a match is in the filtered list iff some label pair in it reaches the threshold with that score |
| Alignment.PairMatchesMembers | b3.py:21-25 | a match is emitted iff some label of the first class and some label of the second score at least the threshold, and it carries that score |
| Alignment.PairMatchesMonotone | b3.py:24 | for one class pair, a higher threshold keeps a subsequence of the matches |
| Alignment.MatchLabels | b4_parallel_vs_serial_gp.py:19-25 | the nested label loops return exactly the label-combination matches of the pair |
| Alignment.ToIrisPairMatches | b4_parallel_vs_serial_gp.py:34-38 | appending the classes' IRIs gives exactly the IRIs of the matches that appending the class objects gives |
| Alignment.ToIrisFlatten | b4_parallel_vs_serial_gp.py:54 | taking IRIs commutes with flattening the per-pair lists |
| Alignment.ToIrisSubsequence | b4_parallel_vs_serial_gp.py:37-38 | taking IRIs keeps a subsequence a subsequence |
| Sequences.FlattenMembers | b4_parallel_nested.py:55 | `Flatten` is the comprehension `[match for sublist in results for match in sublist]`, used here and at b4_parallel_chunk_based.py line 85 and b4_parallel_vs_serial_gp.py line 54: a tuple is in the flattened list iff it is in one of the lists |
| Sequences.FlattenAppend | b4_parallel_nested.py:55 | flattening a concatenation of lists of lists is the concatenation of the flattenings |
| Sequences.CrossProduct | b4_parallel_nested.py:46 | the pair list has length `|xs| * |ys|` |
| Sequences.CrossProductAt | b4_parallel_chunk_based.py:58 | the pair of `xs[i]` and `ys[j]` sits at index `i * |ys| + j`: the first list is the outer index |
| Sequences.CrossProductMembers | b4_parallel_vs_serial_gp.py:47 | a pair is generated iff each side is in its list |
| Sequences.CrossProductMap | b4_parallel_vs_serial_gp.py:43-47 | pairing the summaries of the classes is the same as summarising the pairs of classes |
| Sequences.SubsequenceConcat | b3.py:24 | subsequences of two parts concatenate to a subsequence of the whole |
| Sequences.SubsequenceMembers | b3.py:24 | every element of a subsequence is an element of the whole |
| Sequential.RowMatches | b4_sequential.py:18-25 | the matches made by one class of the first ontology all carry that class and reach the threshold; an unlabelled class or an empty second ontology gives none |
| Sequential.SequentialMatches | b4_sequential.py:15-26 | every match carries a class of the first ontology and reaches the threshold; an empty second ontology gives no match |
| Sequential.FindLexicalMatches | b4_sequential.py:15-26 | the four nested loops return the specification list of matches over both ontologies |
| Sequential.SequentialMatchesSound | b4_sequential.py:17-25 | every match links a class of the first ontology to a class of the second, both labelled, with a score at least the threshold |
| Sequential.RowMatchesSound | b2.py:13-20 | every match made by one class of the first ontology links it to a labelled class of the second with a score at least the threshold |
| Sequential.SequentialAsPairs | b4_sequential.py:17-25 | output order: class pairs of the ordered cross product, first ontology outer, each pair's label matches in order; one match per qualifying label combination |
| Sequential.ThresholdMonotone | b3.py:15-26 | raising the threshold yields a subsequence of the lower-threshold result |
| Sequential.UnlabelledClassNeverMatches | b2.py:14-17 | a class without labels appears in no match |
| Sequential.EmptyOntologyNoMatches | b2.py:12-13 | an ontology without classes gives no matches |
| Rdf.Triples | b4_sequential.py:29-34 | the graph has at most one triple per match, and every triple's predicate is `owl:equivalentClass` |
| Rdf.SaveEntityMatchesAsRdf | b4_sequential.py:29-34 | the graph is the set of `(e1.iri, owl:equivalentClass, e2.iri)` triples of the matches |
| Rdf.SaveMatchesAsRdf | b4_parallel_nested.py:59-64 | the graph is the set of `(iri1, owl:equivalentClass, iri2)` triples of the matches |
| Rdf.TriplesMembers | b4_parallel_vs_serial_gp.py:58-63 | a triple is in the graph iff its predicate is `owl:equivalentClass` and some match links its subject to its object, whatever the score |
| Rdf.LinksMembers | b3.py:29-34 | a pair of IRIs is linked iff some match carries it |
| Rdf.TriplesCount | b3.py:29-34 | the graph has one triple per distinct pair of IRIs |
| Rdf.RepeatedPairCollapses | b2.py:23-28 | a match whose IRI pair is already present adds no triple |
| Rdf.SameMembersSameTriples | b4_parallel_chunk_based.py:96-99 | the graph depends only on which matches occur |
| Rdf.PermutationSameTriples | b4_parallel_chunk_based.py:93-100 | reordering the matches leaves the graph unchanged |
| Rdf.SubsequenceSubgraph | b4_sequential.py:30-33 | a subsequence of the matches gives a subgraph |
| Evaluation.Ratio | b4_sequential.py:68-69 | a count ratio is 0 on a zero denominator and lies in [0, 1]; it is positive for a positive numerator and 1 when the numerator equals the denominator |
| Evaluation.FScore | b4_sequential.py:70 | the F-score lies in [0, 1], is 0 iff precision or recall is 0, and equals both when they are equal |
| Evaluation.Measures | b4_parallel_chunk_based.py:143-145 | the three measures lie in [0, 1], precision and recall are 0 on zero denominators, and the F-score is 0 iff there is no true positive |
| Evaluation.Evaluate | b4_parallel_vs_serial_gp.py:73-89 | tp + fp is the size of the system graph and tp + fn the size of the reference graph; all measures lie in [0, 1]; an empty graph gives precision or recall 0 |
| Evaluation.CountStep | b4_parallel_chunk_based.py:133-141 | visiting one more triple moves exactly one of the two counts |
| Evaluation.CompareWithReference | b4_sequential.py:47-70 | the two counting loops and the ratios return exactly the evaluation of the two graphs |
| Evaluation.PerfectAlignment | b4_parallel_nested.py:84-100 | identical non-empty graphs score 1 on all three measures |
| Evaluation.DisjointAlignment | b4_parallel_vs_serial_gp.py:77-89 | disjoint graphs have no true positive, every system triple is a false positive and every reference triple a false negative, and precision, recall and F-score are all 0 |
| Evaluation.HalfRightScenario | b4_parallel_chunk_based.py:129-145 | one shared, one spurious and one missed link give 0.5 on every measure |
| Chunking.Stride | b4_parallel_chunk_based.py:41 | `lst[start::step]` is empty iff `start` is past the end, and otherwise begins with `lst[start]` |
| Chunking.Chunkify | b4_parallel_chunk_based.py:40-41 | `chunkify(lst, n)` returns exactly n lists, and list i is empty iff i is at least `len(lst)` |
| Chunking.StrideAt | b4_parallel_chunk_based.py:41 | position k of `lst[start::step]` exists iff `start + k*step < len(lst)`, and then holds that element |
| Chunking.ChunkifyIndex | b4_parallel_chunk_based.py:40-41 | the element at index j lands in chunk `j mod n` at position `j div n` |
| Chunking.ChunkifyElement | b4_parallel_chunk_based.py:41 | element k of chunk i is the input element at index `i + k*n` |
| Chunking.ChunkSizesBalanced | b4_parallel_chunk_based.py:40-41 | chunk sizes never grow with the chunk number and differ by at most one |
| Chunking.ChunkifyTail | b4_parallel_chunk_based.py:41 | chunking the tail rotates the chunks by one |
| Chunking.ChunkifyPermutation | b4_parallel_chunk_based.py:40-41 | the concatenated chunks are a permutation of the input, so their lengths sum to its length |
| Chunking.ChunkMembers | b4_parallel_chunk_based.py:40-41 | every element of every chunk comes from the input list |
| Chunking.SingleChunk | b4_parallel_chunk_based.py:61-62 | with one chunk, chunking returns the whole list |
| ParallelGp.EntityPairs | b4_parallel_vs_serial_gp.py:43-47 | the parallel matcher's pair list has `|onto1| * |onto2|` entries |
| ParallelGp.EntityPairsAt | b4_parallel_vs_serial_gp.py:47 | entry `i * |onto2| + j` carries the IRI and labels of `onto1[i]` and of `onto2[j]` unchanged |
| ParallelGp.CalculateSimilarity | b4_parallel_vs_serial_gp.py:17-25 | returns exactly the label-combination matches of the tuple's IRIs and labels |
| ParallelGp.ParallelResults | b4_parallel_vs_serial_gp.py:50-51 | `starmap` returns one result list per tuple, and every match in result k carries the two IRIs of tuple k and reaches the threshold |
| ParallelGp.ParallelMatches | b4_parallel_vs_serial_gp.py:42-55 | every match of the parallel matcher reaches the threshold; an empty ontology gives no match |
| ParallelGp.FindLexicalMatchesSequential | b4_parallel_vs_serial_gp.py:28-39 | the four nested loops return the IRIs of the specification list of matches |
| ParallelGp.ParallelEqualsSequential | b4_parallel_vs_serial_gp.py:42-55 | the parallel matcher returns exactly the sequential matcher's list, in the same order |
| ParallelGp.ResultsAsIris | b4_parallel_vs_serial_gp.py:50-51 | each per-pair result of the parallel matcher is the IRI view of the loops' result for that pair |
| ParallelGp.ParallelSound | b4_parallel_vs_serial_gp.py:20-23 | every parallel match scores at least the threshold and links IRIs of labelled classes of the two ontologies |
| ParallelGp.ParallelThresholdMonotone | b4_parallel_vs_serial_gp.py:23-24 | raising the threshold yields a subsequence of the parallel matcher's list |
| ParallelNested.SearchOne | b4_parallel_nested.py:16-17 | a found class belongs to the ontology and carries the IRI; nothing is found iff no class carries it |
| ParallelNested.SearchOneFinds | b4_parallel_nested.py:24-25 | with unique IRIs, looking a class up by its IRI finds that class |
| ParallelNested.IriPairs | b4_parallel_nested.py:42-46 | the pair list has `|onto1| * |onto2|` entries |
| ParallelNested.IriPairsAt | b4_parallel_nested.py:46 | entry `i * |onto2| + j` holds the IRIs of `onto1[i]` and `onto2[j]` |
| ParallelNested.IriPairsResolve | b4_parallel_nested.py:23-26 | both IRIs of every generated pair name a class, so the worker's lookups never fail |
| ParallelNested.IriPairMatchesSound | b4_parallel_nested.py:23-34 | every match carries exactly the IRIs of its pair and a score at least the threshold; with unique IRIs, an unlabelled class on either side gives none |
| ParallelNested.IriPairMatches | b4_parallel_nested.py:20-35 | every match of the worker carries exactly the two IRIs of its pair and reaches the threshold |
| ParallelNested.CalculateSimilarityByIri | b4_parallel_nested.py:20-35 | on a pair whose lookups succeed, returns exactly that pair's label-combination matches |
| ParallelNested.IriResults | b4_parallel_nested.py:49-52 | `starmap` returns one result list per IRI pair |
| ParallelNested.IriResultsMembers | b4_parallel_nested.py:50 | every match in result k carries the IRIs of pair k and reaches the threshold |
| ParallelNested.IriResultsAppend | b4_parallel_nested.py:50 | mapping the worker over a concatenation of pair lists gives the concatenation of the result lists |
| ParallelNested.NestedMatches | b4_parallel_nested.py:38-56 | every match of the per-pair matcher links a generated pair of IRIs and reaches the threshold |
| ParallelNested.IriResultsAsIris | b4_parallel_nested.py:50 | with unique IRIs, each per-pair result is the IRI view of the loops' result for that pair |
| ParallelNested.NestedEqualsSequential | b4_parallel_nested.py:38-56 | with unique IRIs, the per-pair matcher returns exactly the IRIs of the sequential list, in the same order |
| ParallelChunks.ChunkMatches | b4_parallel_chunk_based.py:44-48 | every match that `process_chunk` returns links a pair of its chunk and reaches the threshold |
| ParallelChunks.ProcessChunk | b4_parallel_chunk_based.py:44-48 | returns the in-order concatenation of the worker's results over the chunk's pairs |
| ParallelChunks.ChunkResults | b4_parallel_chunk_based.py:81-82 | `starmap` returns one result list per chunk |
| ParallelChunks.ChunkResultsMembers | b4_parallel_chunk_based.py:81-82 | every match in the result for chunk i links a pair of chunk i and reaches the threshold |
| ParallelChunks.ChunkedMatches | b4_parallel_chunk_based.py:51-90 | every match of the chunk-based matcher links a generated pair of IRIs and reaches the threshold |
| ParallelChunks.ChunkPairsResolve | b4_parallel_chunk_based.py:58-62 | every pair in every chunk names classes of both ontologies |
| ParallelChunks.ChunkMatchesAppend | b4_parallel_chunk_based.py:46-47 | processing a concatenation of pairs concatenates the results |
| ParallelChunks.FlattenChunkResults | b4_parallel_chunk_based.py:81-85 | flattening the per-chunk results is processing the concatenated chunks |
| ParallelChunks.ChunkMatchesPermutation | b4_parallel_chunk_based.py:44-48 | reordering the pairs only reorders the matches |
| ParallelChunks.ChunkedPermutesNested | b4_parallel_chunk_based.py:52-90 | for any chunk count, the result is a permutation of the in-order per-pair result |
| ParallelChunks.ChunkedPermutesSequential | b4_parallel_chunk_based.py:58-85 | with unique IRIs, the result is a permutation of the IRIs of the sequential list |
| ParallelChunks.SingleChunkIsNested | b4_parallel_chunk_based.py:61-62 | on one CPU the chunk-based matcher keeps the in-order result |
| ParallelChunks.ChunkCountIrrelevant | b4_parallel_chunk_based.py:61 | the saved graph and its evaluation do not depend on the CPU count |
| CommonElements.SetToSeq | b1.py:2 | the list built from a set holds each of its elements exactly once |
| CommonElements.FindCommonElements | b1.py:1-2 | the returned list is one of the possible results: x is in it iff it occurs in both lists, and it has no duplicates |
| CommonElements.CommonListsPermute | b1.py:2 | any two possible results of the same call hold the same elements, each once, so they differ only in order |
| CommonElements.CommonElementsSymmetric | b1.py:2 | for any possible results of the call and of the swapped call, both hold the same elements, each once |
| CommonElements.CommonElementsBound | b1.py:2 | every possible result is no longer than the number of distinct elements of either list |
| CommonElements.PizzaExample | b1.py:5-8 | every possible result for the example lists holds exactly "pizza" and "restaurant" |

## Left out

- owlready2 is not modelled: loading, `classes()`, `.label`, `search_one` and `clear_logics`.
  - An ontology is the list of its classes in a fixed order.
  - `search_one` is the first class with the IRI. Only classes are searched, not properties or individuals.
  - A worker reloads an ontology from its base IRI. This is modelled as reusing the same list of classes.
- The chunk-based script lists the classes (b4_parallel_chunk_based.py:54-55) before its threads load the ontologies (lines 65-78). The driver passes ontologies that were never loaded (lines 107-109). Whether `classes()` then yields anything depends on owlready2, so the model assumes loaded ontologies throughout.
- Jaro-Winkler and I-Sub come from external libraries. They are arbitrary functions returning reals, and no bounds, symmetry or identity property is assumed.
- Floating point is not modelled. Scores and ratios are exact reals, not IEEE rounding.
- Concurrency is not modelled: `multiprocessing.Pool`, `starmap`, `close`/`join` and the loader threads. The pool is an order-preserving sequential map, and a failed load in a thread is not modelled.
- rdflib I/O is not modelled: building URIRefs, `serialize`, `parse` and the Turtle files. A graph is a set of string triples.
- Timing, `print` and the module-level driver code are I/O and are left out. This includes the list of file pairs in b3.py (lines 36-47) and the `main` of the side-by-side script.
- b2.py calls `lev` and `isub` without importing them. It raises a NameError when line 18 is first reached, that is, as soon as some pair of classes both have labels. The model gives it the same loop as the other plain scripts.
- ParallelNested.IriPairMatches gives no matches where a lookup fails; the script raises an AttributeError there. ParallelNested.IriPairsResolve shows that this never happens for generated pairs, and the worker method requires both lookups to succeed.
- ParallelNested.NestedEqualsSequential requires each ontology to have one class per IRI. OWL identifies a class by its IRI, and the script's re-lookup by IRI relies on this.
- CommonElements.FindCommonElements returns one order, picked by a ghost choice that depends only on the intersection set. CPython's order also depends on how the intersection was built, so two calls with swapped arguments can give different lists (`[16, 8]` and `[8, 16]` for the lists `[8, 16]` and `[16, 8]`). The model's own order is therefore not Python's. The lemmas are instead stated for every list that `IsCommonList` admits, and none of them compares two lists by order.
- ParallelChunks.ChunkedMatches requires at least one chunk, as `multiprocessing.Pool` does. The chunk count is not clamped to the number of pairs, so chunks may be empty.
- The model has no per-pair maximum score, skipped-pair counter, cancellation or fail-fast reporting, because the code has none. The code emits one tuple per qualifying label combination.
