/** The per-pair parallel script. Its matcher builds the cross product of the
    two ontologies' class IRIs and maps `calculate_similarity` over it. Each
    call looks both classes up again by IRI, runs the label loops and emits
    the IRIs it was given. The per-pair lists are then flattened. The worker
    pool's `starmap` keeps the order of its inputs, so it is modelled as an
    ordinary map, and reloading an ontology is modelled as reusing it. */
module ParallelNested {
  import opened Sequences
  import opened Alignment
  import opened Sequential

  datatype Option<T> = None | Some(value: T)

  function Iri(e: Entity): string
  {
    e.iri
  }

  /** `[entity.iri for entity in onto.classes()]`. */
  function IriList(onto: seq<Entity>): seq<string>
  {
    Map(onto, Iri)
  }

  /** No two classes of the ontology share an IRI. */
  predicate UniqueIris(onto: seq<Entity>)
  {
    forall i, j :: 0 <= i < j < |onto| ==> onto[i].iri != onto[j].iri
  }

  /** `ontology.search_one(iri=iri)`: the first class carrying the IRI, or
      none. */
  function SearchOne(onto: seq<Entity>, iri: string): (r: Option<Entity>)
    ensures r.Some? ==> r.value in onto && r.value.iri == iri
    ensures r.None? <==> forall e :: e in onto ==> e.iri != iri
    decreases |onto|
  {
    if onto == [] then None
    else if onto[0].iri == iri then Some(onto[0])
    else
      assert forall e :: e in onto ==> e == onto[0] || e in onto[1..];
      SearchOne(onto[1..], iri)
  }

  /** When IRIs are unique, looking a class up by its own IRI finds that class. */
  lemma {:induction false} SearchOneFinds(onto: seq<Entity>, e: Entity)
    requires UniqueIris(onto) && e in onto
    ensures SearchOne(onto, e.iri) == Some(e)
    decreases |onto|
  {
    if onto[0] != e {
      var j :| 0 <= j < |onto| && onto[j] == e;
      assert onto[1..][j - 1] == e;
      SearchOneFinds(onto[1..], e);
    }
  }

  /** `entity_pairs`: every pair of IRIs, the first ontology outer. */
  function IriPairs(onto1: seq<Entity>, onto2: seq<Entity>): (r: seq<(string, string)>)
    ensures |r| == |onto1| * |onto2|
  {
    CrossProduct(IriList(onto1), IriList(onto2))
  }

  /** Entry `i * |onto2| + j` of the pair list holds the IRIs of `onto1[i]` and
      `onto2[j]`. */
  lemma IriPairsAt(onto1: seq<Entity>, onto2: seq<Entity>, i: nat, j: nat)
    requires i < |onto1| && j < |onto2|
    ensures i * |onto2| + j < |IriPairs(onto1, onto2)|
    ensures IriPairs(onto1, onto2)[i * |onto2| + j] == (onto1[i].iri, onto2[j].iri)
  {
    CrossProductAt(IriList(onto1), IriList(onto2), i, j);
    assert IriList(onto1)[i] == Iri(onto1[i]) && IriList(onto2)[j] == Iri(onto2[j]);
  }

  /** Entry `k` of the pair list holds the IRIs of entry `k` of the cross
      product of the classes themselves. */
  lemma IriPairsFromClasses(onto1: seq<Entity>, onto2: seq<Entity>)
    ensures var cp := CrossProduct(onto1, onto2);
            forall k :: 0 <= k < |cp| ==> IriPairs(onto1, onto2)[k] == (cp[k].0.iri, cp[k].1.iri)
  {
    var cp := CrossProduct(onto1, onto2);
    CrossProductMap(onto1, onto2, Iri, Iri);
    forall k | 0 <= k < |cp|
      ensures IriPairs(onto1, onto2)[k] == (cp[k].0.iri, cp[k].1.iri)
    {
      assert PairMap(cp, Iri, Iri)[k] == (Iri(cp[k].0), Iri(cp[k].1));
    }
  }

  /** Both IRIs of a pair name a class of their ontology. */
  predicate Resolves(onto1: seq<Entity>, onto2: seq<Entity>, pair: (string, string))
  {
    SearchOne(onto1, pair.0).Some? && SearchOne(onto2, pair.1).Some?
  }

  /** Every generated pair names classes of both ontologies, so the lookups
      inside `calculate_similarity` never come back empty. */
  lemma IriPairsResolve(onto1: seq<Entity>, onto2: seq<Entity>, pair: (string, string))
    requires pair in IriPairs(onto1, onto2)
    ensures Resolves(onto1, onto2, pair)
  {
    CrossProductMembers(IriList(onto1), IriList(onto2), pair);
    var i :| 0 <= i < |onto1| && IriList(onto1)[i] == pair.0;
    var j :| 0 <= j < |onto2| && IriList(onto2)[j] == pair.1;
    assert Iri(onto1[i]) == pair.0 && onto1[i] in onto1;
    assert Iri(onto2[j]) == pair.1 && onto2[j] in onto2;
  }

  /** What `calculate_similarity(ontology1_iri, ontology2_iri, entity_pair,
      threshold)` returns when both lookups succeed; where one fails the
      script raises, and this function gives no matches. */
  function IriPairMatches(m: Metrics, onto1: seq<Entity>, onto2: seq<Entity>, pair: (string, string), threshold: real)
    : (r: seq<Match<string>>)
    ensures forall k :: 0 <= k < |r| ==> r[k].left == pair.0 && r[k].right == pair.1 && r[k].score >= threshold
  {
    match (SearchOne(onto1, pair.0), SearchOne(onto2, pair.1))
    case (Some(e1), Some(e2)) => PairMatches(m, pair.0, e1.labels, pair.1, e2.labels, threshold)
    case _ => []
  }

  /** Every tuple carries exactly the IRIs of the pair it was computed for and
      a score of at least the threshold; an unlabelled class gives none. */
  lemma IriPairMatchesSound(m: Metrics, onto1: seq<Entity>, onto2: seq<Entity>, pair: (string, string),
                            threshold: real)
    ensures forall x :: x in IriPairMatches(m, onto1, onto2, pair, threshold) ==>
              x.left == pair.0 && x.right == pair.1 && x.score >= threshold
    ensures forall e :: e in onto1 && e.iri == pair.0 && e.labels == [] && UniqueIris(onto1)
              ==> IriPairMatches(m, onto1, onto2, pair, threshold) == []
    ensures forall e :: e in onto2 && e.iri == pair.1 && e.labels == [] && UniqueIris(onto2)
              ==> IriPairMatches(m, onto1, onto2, pair, threshold) == []
  {
    forall e | e in onto1 && e.iri == pair.0 && e.labels == [] && UniqueIris(onto1)
      ensures IriPairMatches(m, onto1, onto2, pair, threshold) == []
    {
      SearchOneFinds(onto1, e);
    }
    forall e | e in onto2 && e.iri == pair.1 && e.labels == [] && UniqueIris(onto2)
      ensures IriPairMatches(m, onto1, onto2, pair, threshold) == []
    {
      SearchOneFinds(onto2, e);
    }
  }

  /** `calculate_similarity` of the per-pair scripts: look both classes up by
      IRI, then the label loops, emitting the IRIs of the pair. The script
      fails on a pair whose lookup finds nothing. */
  method CalculateSimilarityByIri(m: Metrics, onto1: seq<Entity>, onto2: seq<Entity>, entityPair: (string, string),
                                  threshold: real)
    returns (matches: seq<Match<string>>)
    requires Resolves(onto1, onto2, entityPair)
    ensures matches == IriPairMatches(m, onto1, onto2, entityPair, threshold)
  {
    var (entity1Iri, entity2Iri) := entityPair;
    var entity1 := SearchOne(onto1, entity1Iri).value;
    var entity2 := SearchOne(onto2, entity2Iri).value;
    var labels1, labels2 := entity1.labels, entity2.labels;
    matches := MatchLabels(m, entity1Iri, labels1, entity2Iri, labels2, threshold);
  }

  /** `pool.starmap(calculate_similarity, ...)` over a list of IRI pairs: one
      result list per pair, in the order of the pairs. */
  function IriResults(m: Metrics, onto1: seq<Entity>, onto2: seq<Entity>, pairs: seq<(string, string)>,
                      threshold: real): (r: seq<seq<Match<string>>>)
    ensures |r| == |pairs|
  {
    seq(|pairs|, k requires 0 <= k < |pairs| => IriPairMatches(m, onto1, onto2, pairs[k], threshold))
  }

  /** Every tuple of result `k` carries the IRIs of pair `k` and reaches the
      threshold. */
  lemma IriResultsMembers(m: Metrics, onto1: seq<Entity>, onto2: seq<Entity>, pairs: seq<(string, string)>,
                          threshold: real)
    ensures forall k, x :: 0 <= k < |pairs| && x in IriResults(m, onto1, onto2, pairs, threshold)[k] ==>
              x.left == pairs[k].0 && x.right == pairs[k].1 && x.score >= threshold
  {
    forall k, x | 0 <= k < |pairs| && x in IriResults(m, onto1, onto2, pairs, threshold)[k]
      ensures x.left == pairs[k].0 && x.right == pairs[k].1 && x.score >= threshold
    {
      var r := IriPairMatches(m, onto1, onto2, pairs[k], threshold);
      var j :| 0 <= j < |r| && r[j] == x;
    }
  }

  /** Result `k` is the worker's result for pair `k`. */
  lemma IriResultsAt(m: Metrics, onto1: seq<Entity>, onto2: seq<Entity>, pairs: seq<(string, string)>, k: nat,
                     threshold: real)
    requires k < |pairs|
    ensures IriResults(m, onto1, onto2, pairs, threshold)[k] == IriPairMatches(m, onto1, onto2, pairs[k], threshold)
  {
  }

  /** Mapping the worker over a concatenation of pairs concatenates the
      result lists. */
  lemma IriResultsAppend(m: Metrics, onto1: seq<Entity>, onto2: seq<Entity>, a: seq<(string, string)>,
                         b: seq<(string, string)>, threshold: real)
    ensures IriResults(m, onto1, onto2, a + b, threshold)
         == IriResults(m, onto1, onto2, a, threshold) + IriResults(m, onto1, onto2, b, threshold)
  {
    var whole := IriResults(m, onto1, onto2, a + b, threshold);
    var left, right := IriResults(m, onto1, onto2, a, threshold), IriResults(m, onto1, onto2, b, threshold);
    forall k | 0 <= k < |a|
      ensures whole[k] == left[k]
    {
      IriResultsAt(m, onto1, onto2, a + b, k, threshold);
      IriResultsAt(m, onto1, onto2, a, k, threshold);
      assert (a + b)[k] == a[k];
    }
    forall k | |a| <= k < |a + b|
      ensures whole[k] == right[k - |a|]
    {
      IriResultsAt(m, onto1, onto2, a + b, k, threshold);
      IriResultsAt(m, onto1, onto2, b, k - |a|, threshold);
      assert (a + b)[k] == b[k - |a|];
    }
    assert |whole| == |left| + |right|;
    assert whole == left + right;
  }

  /** `find_lexical_matches(onto1, onto2, threshold)` of the per-pair script:
      every tuple links a generated pair of IRIs and reaches the threshold. */
  function NestedMatches(m: Metrics, onto1: seq<Entity>, onto2: seq<Entity>, threshold: real): (r: seq<Match<string>>)
    ensures forall x :: x in r ==> (x.left, x.right) in IriPairs(onto1, onto2) && x.score >= threshold
  {
    var pairs := IriPairs(onto1, onto2);
    IriResultsMembers(m, onto1, onto2, pairs, threshold);
    FlattenMembers(IriResults(m, onto1, onto2, pairs, threshold));
    Flatten(IriResults(m, onto1, onto2, pairs, threshold))
  }

  /** Each per-pair result is the IRI view of the loops' result for the same
      pair of classes. */
  lemma IriResultsAsIris(m: Metrics, onto1: seq<Entity>, onto2: seq<Entity>, threshold: real)
    requires UniqueIris(onto1) && UniqueIris(onto2)
    ensures IriResults(m, onto1, onto2, IriPairs(onto1, onto2), threshold)
         == Map(PairResults(m, CrossProduct(onto1, onto2), threshold), ToIris)
  {
    var cp := CrossProduct(onto1, onto2);
    var perPair := IriResults(m, onto1, onto2, IriPairs(onto1, onto2), threshold);
    var results := PairResults(m, cp, threshold);
    IriPairsFromClasses(onto1, onto2);
    forall k | 0 <= k < |cp|
      ensures perPair[k] == Map(results, ToIris)[k]
    {
      var (e1, e2) := cp[k];
      CrossProductMembers(onto1, onto2, cp[k]);
      SearchOneFinds(onto1, e1);
      SearchOneFinds(onto2, e2);
      ToIrisPairMatches(m, e1, e1.labels, e2, e2.labels, threshold);
    }
  }

  /** With one class per IRI in each ontology, the per-pair matcher returns
      exactly the IRIs of the sequential matcher's list, in the same order. */
  lemma NestedEqualsSequential(m: Metrics, onto1: seq<Entity>, onto2: seq<Entity>, threshold: real)
    requires UniqueIris(onto1) && UniqueIris(onto2)
    ensures NestedMatches(m, onto1, onto2, threshold) == ToIris(SequentialMatches(m, onto1, onto2, threshold))
  {
    SequentialAsPairs(m, onto1, onto2, threshold);
    ToIrisFlatten(PairResults(m, CrossProduct(onto1, onto2), threshold));
    IriResultsAsIris(m, onto1, onto2, threshold);
  }
}
