/** The chunk-based parallel script. Its matcher builds the same list of IRI
    pairs as the per-pair script, splits it with `chunkify` into one strided
    chunk per CPU, and lets each worker run `process_chunk`, which
    concatenates `calculate_similarity` over its chunk. The per-chunk lists
    are then flattened. The pool is modelled as an order-preserving map; the
    chunking itself reorders the pairs. */
module ParallelChunks {
  import opened Sequences
  import opened Alignment
  import opened Sequential
  import opened Chunking
  import opened ParallelNested
  import opened Rdf
  import opened Evaluation

  /** What `process_chunk` returns: the per-pair results of the chunk,
      concatenated in the order of the chunk. */
  function ChunkMatches(m: Metrics, onto1: seq<Entity>, onto2: seq<Entity>, chunk: seq<(string, string)>,
                        threshold: real): (r: seq<Match<string>>)
    ensures forall x :: x in r ==> (x.left, x.right) in chunk && x.score >= threshold
  {
    IriResultsMembers(m, onto1, onto2, chunk, threshold);
    FlattenMembers(IriResults(m, onto1, onto2, chunk, threshold));
    Flatten(IriResults(m, onto1, onto2, chunk, threshold))
  }

  /** `process_chunk(ontology1_iri, ontology2_iri, entity_pairs_chunk, threshold)`. */
  method ProcessChunk(m: Metrics, onto1: seq<Entity>, onto2: seq<Entity>, entityPairsChunk: seq<(string, string)>,
                      threshold: real)
    returns (matches: seq<Match<string>>)
    requires forall pair :: pair in entityPairsChunk ==> Resolves(onto1, onto2, pair)
    ensures matches == ChunkMatches(m, onto1, onto2, entityPairsChunk, threshold)
  {
    matches := [];
    for i := 0 to |entityPairsChunk|
      invariant matches == ChunkMatches(m, onto1, onto2, entityPairsChunk[..i], threshold)
    {
      var pair := entityPairsChunk[i];
      var pairMatches := CalculateSimilarityByIri(m, onto1, onto2, pair, threshold);
      ChunkStep(m, onto1, onto2, entityPairsChunk, i, threshold, matches, pairMatches);
      matches := matches + pairMatches;
    }
    assert entityPairsChunk[..|entityPairsChunk|] == entityPairsChunk;
  }

  /** One step of the loop in `process_chunk`: extending the result by the
      next pair's matches processes one more pair of the chunk. */
  lemma ChunkStep(m: Metrics, onto1: seq<Entity>, onto2: seq<Entity>, chunk: seq<(string, string)>, i: nat,
                  threshold: real, acc: seq<Match<string>>, pairMatches: seq<Match<string>>)
    requires i < |chunk|
    requires acc == ChunkMatches(m, onto1, onto2, chunk[..i], threshold)
    requires pairMatches == IriPairMatches(m, onto1, onto2, chunk[i], threshold)
    ensures acc + pairMatches == ChunkMatches(m, onto1, onto2, chunk[..i + 1], threshold)
  {
    assert chunk[..i + 1] == chunk[..i] + [chunk[i]];
    ChunkMatchesAppend(m, onto1, onto2, chunk[..i], [chunk[i]], threshold);
    ChunkMatchesSingle(m, onto1, onto2, chunk[i], threshold);
  }

  /** `pool.starmap(process_chunk, ...)`: one result list per chunk, in the
      order of the chunks. */
  function ChunkResults(m: Metrics, onto1: seq<Entity>, onto2: seq<Entity>, chunks: seq<seq<(string, string)>>,
                        threshold: real): (r: seq<seq<Match<string>>>)
    ensures |r| == |chunks|
  {
    seq(|chunks|, i requires 0 <= i < |chunks| => ChunkMatches(m, onto1, onto2, chunks[i], threshold))
  }

  /** Every tuple of the result for chunk `i` links a pair of chunk `i` and
      reaches the threshold. */
  lemma ChunkResultsMembers(m: Metrics, onto1: seq<Entity>, onto2: seq<Entity>, chunks: seq<seq<(string, string)>>,
                            threshold: real)
    ensures forall i, x :: 0 <= i < |chunks| && x in ChunkResults(m, onto1, onto2, chunks, threshold)[i] ==>
              (x.left, x.right) in chunks[i] && x.score >= threshold
  {
  }

  /** `find_lexical_matches(onto1, onto2, threshold)` of the chunk-based script,
      with `numChunks` standing for the CPU count (a pool needs at least one
      worker). */
  function ChunkedMatches(m: Metrics, onto1: seq<Entity>, onto2: seq<Entity>, threshold: real, numChunks: nat)
    : (r: seq<Match<string>>)
    requires numChunks >= 1
    ensures forall x :: x in r ==> (x.left, x.right) in IriPairs(onto1, onto2) && x.score >= threshold
  {
    var chunks := Chunkify(IriPairs(onto1, onto2), numChunks);
    ChunkMembers(IriPairs(onto1, onto2), numChunks);
    ChunkResultsMembers(m, onto1, onto2, chunks, threshold);
    FlattenMembers(ChunkResults(m, onto1, onto2, chunks, threshold));
    Flatten(ChunkResults(m, onto1, onto2, chunks, threshold))
  }

  /** Every pair in every chunk names classes of both ontologies, so no
      worker fails a lookup. */
  lemma ChunkPairsResolve(onto1: seq<Entity>, onto2: seq<Entity>, numChunks: nat, i: nat)
    requires i < numChunks
    ensures forall pair :: pair in Chunkify(IriPairs(onto1, onto2), numChunks)[i] ==> Resolves(onto1, onto2, pair)
  {
    var pairs := IriPairs(onto1, onto2);
    var chunk := Chunkify(pairs, numChunks)[i];
    forall pair | pair in chunk
      ensures Resolves(onto1, onto2, pair)
    {
      var k :| 0 <= k < |chunk| && chunk[k] == pair;
      ChunkifyElement(pairs, numChunks, i, k);
      IriPairsResolve(onto1, onto2, pair);
    }
  }

  lemma ChunkMatchesAppend(m: Metrics, onto1: seq<Entity>, onto2: seq<Entity>, a: seq<(string, string)>,
                           b: seq<(string, string)>, threshold: real)
    ensures ChunkMatches(m, onto1, onto2, a + b, threshold)
         == ChunkMatches(m, onto1, onto2, a, threshold) + ChunkMatches(m, onto1, onto2, b, threshold)
  {
    IriResultsAppend(m, onto1, onto2, a, b, threshold);
    FlattenAppend(IriResults(m, onto1, onto2, a, threshold), IriResults(m, onto1, onto2, b, threshold));
  }

  /** Processing the chunks one after another is processing their
      concatenation. */
  lemma {:induction false} FlattenChunkResults(m: Metrics, onto1: seq<Entity>, onto2: seq<Entity>,
                                               chunks: seq<seq<(string, string)>>, threshold: real)
    ensures Flatten(ChunkResults(m, onto1, onto2, chunks, threshold))
         == ChunkMatches(m, onto1, onto2, Flatten(chunks), threshold)
    decreases |chunks|
  {
    if chunks == [] {
      assert IriResults(m, onto1, onto2, [], threshold) == [];
    } else {
      var n := |chunks| - 1;
      FlattenChunkResults(m, onto1, onto2, chunks[..n], threshold);
      assert ChunkResults(m, onto1, onto2, chunks, threshold)[..n] == ChunkResults(m, onto1, onto2, chunks[..n], threshold);
      ChunkMatchesAppend(m, onto1, onto2, Flatten(chunks[..n]), chunks[n], threshold);
    }
  }

  /** Removing the last element of `a` and the same element at position `j`
      of `b` keeps two permutations of each other permutations. */
  lemma MultisetRemove<T>(a: seq<T>, b: seq<T>, j: nat)
    requires multiset(a) == multiset(b) && a != [] && j < |b| && b[j] == a[|a| - 1]
    ensures multiset(a[..|a| - 1]) == multiset(b[..j] + b[j + 1..])
  {
    var n, x := |a| - 1, b[j];
    var rest := b[..j] + b[j + 1..];
    assert a == a[..n] + [x];
    assert multiset(a) == multiset(a[..n]) + multiset{x};
    assert b == (b[..j] + [x]) + b[j + 1..];
    assert multiset(b) == multiset(rest) + multiset{x} by {
      assert multiset(rest) == multiset(b[..j]) + multiset(b[j + 1..]);
    }
    forall y
      ensures multiset(a[..n])[y] == multiset(rest)[y]
    {
      assert multiset(a)[y] == multiset(a[..n])[y] + multiset{x}[y];
      assert multiset(b)[y] == multiset(rest)[y] + multiset{x}[y];
    }
  }

  /** Processing a chunk split around position `j`. */
  lemma ChunkMatchesSplit(m: Metrics, onto1: seq<Entity>, onto2: seq<Entity>, b: seq<(string, string)>, j: nat,
                          threshold: real)
    requires j < |b|
    ensures ChunkMatches(m, onto1, onto2, b, threshold)
         == ChunkMatches(m, onto1, onto2, b[..j], threshold) + IriPairMatches(m, onto1, onto2, b[j], threshold)
            + ChunkMatches(m, onto1, onto2, b[j + 1..], threshold)
  {
    var x := b[j];
    assert b == b[..j] + [x] + b[j + 1..];
    ChunkMatchesAppend(m, onto1, onto2, b[..j] + [x], b[j + 1..], threshold);
    ChunkMatchesAppend(m, onto1, onto2, b[..j], [x], threshold);
    ChunkMatchesSingle(m, onto1, onto2, x, threshold);
  }

  lemma ChunkMatchesSingle(m: Metrics, onto1: seq<Entity>, onto2: seq<Entity>, x: (string, string), threshold: real)
    ensures ChunkMatches(m, onto1, onto2, [x], threshold) == IriPairMatches(m, onto1, onto2, x, threshold)
  {
    var f := IriPairMatches(m, onto1, onto2, x, threshold);
    assert IriResults(m, onto1, onto2, [x], threshold) == [f];
    assert Flatten([f]) == Flatten<Match<string>>([]) + f;
  }

  /** Reordering the pairs only reorders the matches. */
  lemma {:induction false} ChunkMatchesPermutation(m: Metrics, onto1: seq<Entity>, onto2: seq<Entity>,
                                                   a: seq<(string, string)>, b: seq<(string, string)>, threshold: real)
    requires multiset(a) == multiset(b)
    ensures multiset(ChunkMatches(m, onto1, onto2, a, threshold)) == multiset(ChunkMatches(m, onto1, onto2, b, threshold))
    decreases |a|
  {
    if a == [] {
      assert b == [] by {
        assert |multiset(b)| == 0;
      }
    } else {
      var n := |a| - 1;
      var x := a[n];
      assert x in multiset(b) by {
        assert x in multiset(a);
      }
      var j :| 0 <= j < |b| && b[j] == x;
      MultisetRemove(a, b, j);
      ChunkMatchesPermutation(m, onto1, onto2, a[..n], b[..j] + b[j + 1..], threshold);
      assert a == a[..n] + [x];
      ChunkMatchesAppend(m, onto1, onto2, a[..n], [x], threshold);
      ChunkMatchesSingle(m, onto1, onto2, x, threshold);
      ChunkMatchesAppend(m, onto1, onto2, b[..j], b[j + 1..], threshold);
      ChunkMatchesSplit(m, onto1, onto2, b, j, threshold);
    }
  }

  /** Whatever the number of chunks, the chunk-based matcher returns the
      per-pair matcher's tuples, each as often, possibly in another order. */
  lemma ChunkedPermutesNested(m: Metrics, onto1: seq<Entity>, onto2: seq<Entity>, threshold: real, numChunks: nat)
    requires numChunks >= 1
    ensures multiset(ChunkedMatches(m, onto1, onto2, threshold, numChunks)) == multiset(NestedMatches(m, onto1, onto2, threshold))
  {
    var pairs := IriPairs(onto1, onto2);
    var chunks := Chunkify(pairs, numChunks);
    FlattenChunkResults(m, onto1, onto2, chunks, threshold);
    ChunkifyPermutation(pairs, numChunks);
    ChunkMatchesPermutation(m, onto1, onto2, Flatten(chunks), pairs, threshold);
  }

  /** With one class per IRI in each ontology, the chunk-based matcher's
      result is a permutation of the IRIs of the sequential matcher's list. */
  lemma ChunkedPermutesSequential(m: Metrics, onto1: seq<Entity>, onto2: seq<Entity>, threshold: real, numChunks: nat)
    requires numChunks >= 1 && UniqueIris(onto1) && UniqueIris(onto2)
    ensures multiset(ChunkedMatches(m, onto1, onto2, threshold, numChunks))
         == multiset(ToIris(SequentialMatches(m, onto1, onto2, threshold)))
  {
    ChunkedPermutesNested(m, onto1, onto2, threshold, numChunks);
    NestedEqualsSequential(m, onto1, onto2, threshold);
  }

  /** On a single CPU the chunk-based matcher keeps the order too. */
  lemma SingleChunkIsNested(m: Metrics, onto1: seq<Entity>, onto2: seq<Entity>, threshold: real)
    ensures ChunkedMatches(m, onto1, onto2, threshold, 1) == NestedMatches(m, onto1, onto2, threshold)
  {
    var pairs := IriPairs(onto1, onto2);
    SingleChunk(pairs);
    FlattenChunkResults(m, onto1, onto2, [pairs], threshold);
    assert Flatten([pairs]) == Flatten<(string, string)>([]) + pairs;
  }

  /** The saved graph, and so the evaluation against any reference, does not
      depend on the number of CPUs. */
  lemma ChunkCountIrrelevant(m: Metrics, onto1: seq<Entity>, onto2: seq<Entity>, threshold: real,
                             n1: nat, n2: nat, reference: set<Triple>)
    requires n1 >= 1 && n2 >= 1
    ensures Triples(ChunkedMatches(m, onto1, onto2, threshold, n1)) == Triples(ChunkedMatches(m, onto1, onto2, threshold, n2))
    ensures Evaluate(Triples(ChunkedMatches(m, onto1, onto2, threshold, n1)), reference)
         == Evaluate(Triples(ChunkedMatches(m, onto1, onto2, threshold, n2)), reference)
  {
    ChunkedPermutesNested(m, onto1, onto2, threshold, n1);
    ChunkedPermutesNested(m, onto1, onto2, threshold, n2);
    PermutationSameTriples(ChunkedMatches(m, onto1, onto2, threshold, n1), ChunkedMatches(m, onto1, onto2, threshold, n2));
  }
}
