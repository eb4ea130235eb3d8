/** `save_matches_as_rdf`: every match becomes the triple
    `(iri1, owl:equivalentClass, iri2)` in an RDF graph, which is a set, so the
    score is dropped and a repeated pair of classes collapses into one triple.
    Writing the graph out as Turtle is left out. */
module Rdf {
  import opened Sequences
  import opened Alignment

  datatype Triple = Triple(subj: string, pred: string, obj: string)

  const EquivalentClass: string := "http://www.w3.org/2002/07/owl#equivalentClass"

  function EquivalenceTriple(x: Match<string>): Triple
  {
    Triple(x.left, EquivalentClass, x.right)
  }

  /** The graph after adding the triple of every match of `ms`. */
  function Triples(ms: seq<Match<string>>): (g: set<Triple>)
    ensures |g| <= |ms|
    ensures forall t :: t in g ==> t.pred == EquivalentClass
    decreases |ms|
  {
    if ms == [] then {} else Triples(ms[..|ms| - 1]) + {EquivalenceTriple(ms[|ms| - 1])}
  }

  /** The pairs of IRIs that the matches link, scores ignored. */
  function Links(ms: seq<Match<string>>): set<(string, string)>
    decreases |ms|
  {
    if ms == [] then {} else Links(ms[..|ms| - 1]) + {(ms[|ms| - 1].left, ms[|ms| - 1].right)}
  }

  /** A triple is in the graph exactly when it is an equivalence between the
      two IRIs of some match: the score plays no part. */
  lemma {:induction false} TriplesMembers(ms: seq<Match<string>>, t: Triple)
    ensures t in Triples(ms) <==> t.pred == EquivalentClass
                                  && exists x :: x in ms && x.left == t.subj && x.right == t.obj
    decreases |ms|
  {
    if ms != [] {
      var n := |ms| - 1;
      TriplesMembers(ms[..n], t);
      assert ms == ms[..n] + [ms[n]];
    }
  }

  lemma {:induction false} LinksMembers(ms: seq<Match<string>>, l: (string, string))
    ensures l in Links(ms) <==> exists x :: x in ms && x.left == l.0 && x.right == l.1
    decreases |ms|
  {
    if ms != [] {
      var n := |ms| - 1;
      LinksMembers(ms[..n], l);
      assert ms == ms[..n] + [ms[n]];
    }
  }

  /** One triple per distinct pair of IRIs. */
  lemma {:induction false} TriplesCount(ms: seq<Match<string>>)
    ensures |Triples(ms)| == |Links(ms)|
    decreases |ms|
  {
    if ms != [] {
      var n := |ms| - 1;
      var x := ms[n];
      TriplesCount(ms[..n]);
      var t, l := EquivalenceTriple(x), (x.left, x.right);
      TriplesMembers(ms[..n], t);
      LinksMembers(ms[..n], l);
      if t in Triples(ms[..n]) {
        assert Triples(ms) == Triples(ms[..n]);
        assert Links(ms) == Links(ms[..n]);
      } else {
        assert l !in Links(ms[..n]);
        assert |Triples(ms)| == |Triples(ms[..n])| + 1;
        assert |Links(ms)| == |Links(ms[..n])| + 1;
      }
    }
  }

  /** A match whose pair of IRIs is already linked, whatever its score, adds
      no triple. */
  lemma RepeatedPairCollapses(ms: seq<Match<string>>, x: Match<string>)
    requires exists y :: y in ms && y.left == x.left && y.right == x.right
    ensures Triples(ms + [x]) == Triples(ms)
  {
    assert (ms + [x])[..|ms|] == ms;
    TriplesMembers(ms, EquivalenceTriple(x));
  }

  /** The graph depends only on which matches occur, not on their order or
      multiplicity. */
  lemma SameMembersSameTriples(a: seq<Match<string>>, b: seq<Match<string>>)
    requires forall x :: x in a <==> x in b
    ensures Triples(a) == Triples(b)
  {
    forall t | true
      ensures t in Triples(a) <==> t in Triples(b)
    {
      TriplesMembers(a, t);
      TriplesMembers(b, t);
    }
  }

  lemma PermutationSameTriples(a: seq<Match<string>>, b: seq<Match<string>>)
    requires multiset(a) == multiset(b)
    ensures Triples(a) == Triples(b)
  {
    forall x | true
      ensures x in a <==> x in b
    {
      assert x in a <==> x in multiset(a);
      assert x in b <==> x in multiset(b);
    }
    SameMembersSameTriples(a, b);
  }

  /** A subsequence of the matches yields a subgraph. */
  lemma SubsequenceSubgraph(a: seq<Match<string>>, b: seq<Match<string>>)
    requires IsSubsequence(a, b)
    ensures Triples(a) <= Triples(b)
  {
    forall t | t in Triples(a)
      ensures t in Triples(b)
    {
      TriplesMembers(a, t);
      TriplesMembers(b, t);
      var x :| x in a && x.left == t.subj && x.right == t.obj;
      SubsequenceMembers(a, b, x);
    }
  }

  /** `save_matches_as_rdf` of the scripts whose matches hold IRIs. */
  method SaveMatchesAsRdf(matches: seq<Match<string>>) returns (g: set<Triple>)
    ensures g == Triples(matches)
  {
    g := {};
    for i := 0 to |matches|
      invariant g == Triples(matches[..i])
    {
      var entity1Iri, entity2Iri := matches[i].left, matches[i].right;
      g := g + {Triple(entity1Iri, EquivalentClass, entity2Iri)};
      assert matches[..i + 1][..i] == matches[..i];
    }
    assert matches[..|matches|] == matches;
  }

  /** `save_matches_as_rdf` of the scripts whose matches hold the class
      objects: the triple takes each object's IRI. */
  method SaveEntityMatchesAsRdf(matches: seq<Match<Entity>>) returns (g: set<Triple>)
    ensures g == Triples(ToIris(matches))
  {
    g := {};
    for i := 0 to |matches|
      invariant g == Triples(ToIris(matches[..i]))
    {
      var entity1, entity2 := matches[i].left, matches[i].right;
      g := g + {Triple(entity1.iri, EquivalentClass, entity2.iri)};
      assert ToIris(matches[..i + 1])[..i] == ToIris(matches[..i]);
    }
    assert matches[..|matches|] == matches;
  }
}
