/** The script that runs a sequential and a parallel matcher side by side.
    The sequential matcher is the four nested loops again, appending the two
    classes' IRIs. The parallel matcher first summarises each class as
    `(iri, labels)`, builds every 4-tuple `(iri1, labels1, iri2, labels2)` of
    the cross product, maps `calculate_similarity` over them and flattens the
    per-pair lists. The worker pool's `starmap` keeps the order of its
    inputs, so it is modelled as an ordinary map. */
module ParallelGp {
  import opened Sequences
  import opened Alignment
  import opened Sequential

  /** `(entity.iri, get_labels(entity))`. */
  function Summary(e: Entity): (string, seq<string>)
  {
    (e.iri, e.labels)
  }

  type EntityPair = (string, seq<string>, string, seq<string>)

  /** `(entity1[0], entity1[1], entity2[0], entity2[1])`. */
  function Quadruple(p: ((string, seq<string>), (string, seq<string>))): EntityPair
  {
    (p.0.0, p.0.1, p.1.0, p.1.1)
  }

  /** `entity_pairs` of the parallel matcher. */
  function EntityPairs(onto1: seq<Entity>, onto2: seq<Entity>): (r: seq<EntityPair>)
    ensures |r| == |onto1| * |onto2|
  {
    Map(CrossProduct(Map(onto1, Summary), Map(onto2, Summary)), Quadruple)
  }

  /** The pair list has the first ontology as its outer index and carries each
      class's IRI and labels unchanged. */
  lemma EntityPairsAt(onto1: seq<Entity>, onto2: seq<Entity>, i: nat, j: nat)
    requires i < |onto1| && j < |onto2|
    ensures i * |onto2| + j < |EntityPairs(onto1, onto2)|
    ensures EntityPairs(onto1, onto2)[i * |onto2| + j] == (onto1[i].iri, onto1[i].labels, onto2[j].iri, onto2[j].labels)
  {
    var k := i * |onto2| + j;
    CrossProductAt(Map(onto1, Summary), Map(onto2, Summary), i, j);
    var cp := CrossProduct(Map(onto1, Summary), Map(onto2, Summary));
    assert cp[k] == (Summary(onto1[i]), Summary(onto2[j]));
    assert Map(cp, Quadruple)[k] == Quadruple(cp[k]);
    assert Quadruple(cp[k]) == (onto1[i].iri, onto1[i].labels, onto2[j].iri, onto2[j].labels);
  }

  /** Entry `k` of the pair list is built from entry `k` of the cross product
      of the classes themselves. */
  lemma EntityPairsFromClasses(onto1: seq<Entity>, onto2: seq<Entity>)
    ensures var cp := CrossProduct(onto1, onto2);
            forall k :: 0 <= k < |cp| ==>
              EntityPairs(onto1, onto2)[k] == (cp[k].0.iri, cp[k].0.labels, cp[k].1.iri, cp[k].1.labels)
  {
    var cp := CrossProduct(onto1, onto2);
    var summaries := CrossProduct(Map(onto1, Summary), Map(onto2, Summary));
    CrossProductMap(onto1, onto2, Summary, Summary);
    forall k | 0 <= k < |cp|
      ensures EntityPairs(onto1, onto2)[k] == (cp[k].0.iri, cp[k].0.labels, cp[k].1.iri, cp[k].1.labels)
    {
      assert summaries[k] == (Summary(cp[k].0), Summary(cp[k].1));
      assert Map(summaries, Quadruple)[k] == Quadruple(summaries[k]);
    }
  }

  /** `calculate_similarity(entity_pair, threshold)`: the label loops over a
      pair that already carries both IRIs and both label lists. */
  method CalculateSimilarity(m: Metrics, entityPair: EntityPair, threshold: real) returns (matches: seq<Match<string>>)
    ensures matches == PairMatches(m, entityPair.0, entityPair.1, entityPair.2, entityPair.3, threshold)
  {
    var (entity1Iri, entity1Labels, entity2Iri, entity2Labels) := entityPair;
    matches := MatchLabels(m, entity1Iri, entity1Labels, entity2Iri, entity2Labels, threshold);
  }

  /** `find_lexical_matches_parallel(onto1, onto2, threshold)`, with the pool
      replaced by an order-preserving map. */
  function ParallelMatches(m: Metrics, onto1: seq<Entity>, onto2: seq<Entity>, threshold: real): (r: seq<Match<string>>)
    ensures forall x :: x in r ==> x.score >= threshold
    ensures onto1 == [] || onto2 == [] ==> r == []
  {
    FlattenMembers(ParallelResults(m, EntityPairs(onto1, onto2), threshold));
    Flatten(ParallelResults(m, EntityPairs(onto1, onto2), threshold))
  }

  /** `pool.starmap(calculate_similarity, ...)`: one result list per pair, in
      the order of the pairs. */
  function ParallelResults(m: Metrics, pairs: seq<EntityPair>, threshold: real): (r: seq<seq<Match<string>>>)
    ensures |r| == |pairs|
    ensures forall k, x :: 0 <= k < |pairs| && x in r[k] ==>
              x.left == pairs[k].0 && x.right == pairs[k].2 && x.score >= threshold
  {
    seq(|pairs|, k requires 0 <= k < |pairs| =>
      PairMatches(m, pairs[k].0, pairs[k].1, pairs[k].2, pairs[k].3, threshold))
  }

  lemma IriRowPrefixStep(m: Metrics, e1: Entity, es2: seq<Entity>, j: nat, threshold: real)
    requires j < |es2|
    ensures ToIris(RowMatches(m, e1, es2[..j + 1], threshold))
         == ToIris(RowMatches(m, e1, es2[..j], threshold))
            + PairMatches(m, e1.iri, e1.labels, es2[j].iri, es2[j].labels, threshold)
  {
    var row := RowMatches(m, e1, es2[..j], threshold);
    var pair := PairMatches(m, e1, e1.labels, es2[j], es2[j].labels, threshold);
    RowPrefixStep(m, e1, es2, j, threshold);
    ToIrisAppend(row, pair);
    ToIrisPairMatches(m, e1, e1.labels, es2[j], es2[j].labels, threshold);
  }

  /** One step of the inner class loop, with IRIs appended. */
  lemma IriRowStep(m: Metrics, e1: Entity, es2: seq<Entity>, j: nat, threshold: real,
                   before: seq<Match<string>>, acc: seq<Match<string>>, pairMatches: seq<Match<string>>)
    requires j < |es2|
    requires acc == before + ToIris(RowMatches(m, e1, es2[..j], threshold))
    requires pairMatches == PairMatches(m, e1.iri, e1.labels, es2[j].iri, es2[j].labels, threshold)
    ensures acc + pairMatches == before + ToIris(RowMatches(m, e1, es2[..j + 1], threshold))
  {
    IriRowPrefixStep(m, e1, es2, j, threshold);
  }

  /** One step of the outer class loop, with IRIs appended. */
  lemma IriSequentialStep(m: Metrics, es1: seq<Entity>, es2: seq<Entity>, i: nat, threshold: real,
                          acc: seq<Match<string>>, row: seq<Match<string>>)
    requires i < |es1|
    requires acc == ToIris(SequentialMatches(m, es1[..i], es2, threshold))
    requires row == ToIris(RowMatches(m, es1[i], es2[..|es2|], threshold))
    ensures acc + row == ToIris(SequentialMatches(m, es1[..i + 1], es2, threshold))
  {
    var prefix := SequentialMatches(m, es1[..i], es2, threshold);
    var entityRow := RowMatches(m, es1[i], es2[..|es2|], threshold);
    SequentialStep(m, es1, es2, i, threshold, prefix, entityRow);
    ToIrisAppend(prefix, entityRow);
  }

  /** `find_lexical_matches_sequential(onto1, onto2, threshold)`: the four
      nested loops, appending IRIs. */
  method FindLexicalMatchesSequential(m: Metrics, onto1: seq<Entity>, onto2: seq<Entity>, threshold: real)
    returns (matches: seq<Match<string>>)
    ensures matches == ToIris(SequentialMatches(m, onto1, onto2, threshold))
  {
    matches := [];
    for i := 0 to |onto1|
      invariant matches == ToIris(SequentialMatches(m, onto1[..i], onto2, threshold))
    {
      var entity1 := onto1[i];
      ghost var before := matches;
      for j := 0 to |onto2|
        invariant matches == before + ToIris(RowMatches(m, entity1, onto2[..j], threshold))
      {
        var entity2 := onto2[j];
        var labels1, labels2 := entity1.labels, entity2.labels;
        var pairMatches := MatchLabels(m, entity1.iri, labels1, entity2.iri, labels2, threshold);
        IriRowStep(m, entity1, onto2, j, threshold, before, matches, pairMatches);
        matches := matches + pairMatches;
      }
      IriSequentialStep(m, onto1, onto2, i, threshold, before, matches[|before|..]);
    }
    assert onto1[..|onto1|] == onto1;
  }

  /** The parallel matcher returns exactly the sequential matcher's list: the
      same tuples in the same order. */
  lemma ParallelEqualsSequential(m: Metrics, onto1: seq<Entity>, onto2: seq<Entity>, threshold: real)
    ensures ParallelMatches(m, onto1, onto2, threshold) == ToIris(SequentialMatches(m, onto1, onto2, threshold))
  {
    var results := PairResults(m, CrossProduct(onto1, onto2), threshold);
    SequentialAsPairs(m, onto1, onto2, threshold);
    ToIrisFlatten(results);
    ResultsAsIris(m, onto1, onto2, threshold);
  }

  /** Each per-pair result of the parallel matcher is the IRI view of the
      corresponding per-pair result of the loops. */
  lemma ResultsAsIris(m: Metrics, onto1: seq<Entity>, onto2: seq<Entity>, threshold: real)
    ensures ParallelResults(m, EntityPairs(onto1, onto2), threshold)
         == Map(PairResults(m, CrossProduct(onto1, onto2), threshold), ToIris)
  {
    var cp := CrossProduct(onto1, onto2);
    var perPair := ParallelResults(m, EntityPairs(onto1, onto2), threshold);
    var results := PairResults(m, cp, threshold);
    EntityPairsFromClasses(onto1, onto2);
    forall k | 0 <= k < |cp|
      ensures perPair[k] == Map(results, ToIris)[k]
    {
      ToIrisPairMatches(m, cp[k].0, cp[k].0.labels, cp[k].1, cp[k].1.labels, threshold);
    }
  }

  /** Every tuple of either matcher scores at least the threshold and links
      the IRI of a labelled class of the first ontology to the IRI of a
      labelled class of the second: a class without labels contributes nothing. */
  lemma ParallelSound(m: Metrics, onto1: seq<Entity>, onto2: seq<Entity>, threshold: real)
    ensures forall x :: x in ParallelMatches(m, onto1, onto2, threshold) ==>
              x.score >= threshold
              && (exists e1 :: e1 in onto1 && e1.iri == x.left && e1.labels != [])
              && (exists e2 :: e2 in onto2 && e2.iri == x.right && e2.labels != [])
  {
    ParallelEqualsSequential(m, onto1, onto2, threshold);
    var s := SequentialMatches(m, onto1, onto2, threshold);
    SequentialMatchesSound(m, onto1, onto2, threshold);
    forall x | x in ToIris(s)
      ensures x.score >= threshold
              && (exists e1 :: e1 in onto1 && e1.iri == x.left && e1.labels != [])
              && (exists e2 :: e2 in onto2 && e2.iri == x.right && e2.labels != [])
    {
      var k :| 0 <= k < |s| && ToIris(s)[k] == x;
      assert s[k] in s;
    }
  }

  /** Raising the threshold yields a subsequence of the lower-threshold list. */
  lemma ParallelThresholdMonotone(m: Metrics, onto1: seq<Entity>, onto2: seq<Entity>, low: real, high: real)
    requires low <= high
    ensures IsSubsequence(ParallelMatches(m, onto1, onto2, high), ParallelMatches(m, onto1, onto2, low))
  {
    ParallelEqualsSequential(m, onto1, onto2, high);
    ParallelEqualsSequential(m, onto1, onto2, low);
    ThresholdMonotone(m, onto1, onto2, low, high);
    ToIrisSubsequence(SequentialMatches(m, onto1, onto2, high), SequentialMatches(m, onto1, onto2, low));
  }
}
