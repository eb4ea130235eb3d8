/** The data model shared by every script, and the label loop that all of
    them run for one pair of ontology classes: for each label of the first
    class and each label of the second, score the two labels with the larger
    of Jaro-Winkler and I-Sub, and append one match when the score reaches the
    threshold. */
module Alignment {
  import opened Sequences

  /** An ontology class as the matcher sees it: its IRI and its labels in order. */
  datatype Entity = Entity(iri: string, labels: seq<string>)

  /** One appended tuple: the two matched classes (as objects or as IRIs)
      and the similarity of the label combination that produced it. */
  datatype Match<E> = Match(left: E, right: E, score: real)

  /** The two string metrics. Their definitions live in external libraries,
      so they stay arbitrary functions here: nothing is assumed about them. */
  datatype Metrics = Metrics(jaroWinkler: (string, string) -> real, isub: (string, string) -> real)

  /** `max(lev.jaro_winkler(label1, label2), isub(label1, label2))`. */
  function Similarity(m: Metrics, label1: string, label2: string): (s: real)
    ensures s >= m.jaroWinkler(label1, label2) && s >= m.isub(label1, label2)
    ensures s == m.jaroWinkler(label1, label2) || s == m.isub(label1, label2)
  {
    var jw := m.jaroWinkler(label1, label2);
    var sub := m.isub(label1, label2);
    if sub > jw then sub else jw
  }

  /** The inner label loop: the matches that `label1` makes with `labels2`. */
  function LabelRow<E>(m: Metrics, id1: E, label1: string, id2: E, labels2: seq<string>, threshold: real)
    : (r: seq<Match<E>>)
    ensures |r| <= |labels2|
    ensures forall k :: 0 <= k < |r| ==> r[k].left == id1 && r[k].right == id2 && r[k].score >= threshold
    decreases |labels2|
  {
    if labels2 == [] then []
    else
      var label2 := labels2[|labels2| - 1];
      var similarity := Similarity(m, label1, label2);
      LabelRow(m, id1, label1, id2, labels2[..|labels2| - 1], threshold)
        + (if similarity >= threshold then [Match(id1, id2, similarity)] else [])
  }

  /** Both label loops for one pair of classes, label1 outer and label2 inner. */
  function PairMatches<E>(m: Metrics, id1: E, labels1: seq<string>, id2: E, labels2: seq<string>, threshold: real)
    : (r: seq<Match<E>>)
    ensures forall k :: 0 <= k < |r| ==> r[k].left == id1 && r[k].right == id2 && r[k].score >= threshold
    ensures labels1 == [] || labels2 == [] ==> r == []
    decreases |labels1|
  {
    if labels1 == [] then []
    else
      PairMatches(m, id1, labels1[..|labels1| - 1], id2, labels2, threshold)
        + LabelRow(m, id1, labels1[|labels1| - 1], id2, labels2, threshold)
  }

  /** Reference definition: keep, in order, the label combinations of `pairs`
      whose similarity reaches the threshold. */
  function Qualifying<E>(m: Metrics, id1: E, id2: E, pairs: seq<(string, string)>, threshold: real)
    : seq<Match<E>>
    decreases |pairs|
  {
    if pairs == [] then []
    else
      var p := pairs[|pairs| - 1];
      var similarity := Similarity(m, p.0, p.1);
      Qualifying(m, id1, id2, pairs[..|pairs| - 1], threshold)
        + (if similarity >= threshold then [Match(id1, id2, similarity)] else [])
  }

  lemma {:induction false} QualifyingAppend<E>(m: Metrics, id1: E, id2: E, a: seq<(string, string)>,
                                               b: seq<(string, string)>, threshold: real)
    ensures Qualifying(m, id1, id2, a + b, threshold)
         == Qualifying(m, id1, id2, a, threshold) + Qualifying(m, id1, id2, b, threshold)
    decreases |b|
  {
    if b == [] {
      assert a + b == a;
    } else {
      var b' := b[..|b| - 1];
      assert (a + b)[..|a + b| - 1] == a + b';
      QualifyingAppend(m, id1, id2, a, b', threshold);
    }
  }

  lemma {:induction false} LabelRowQualifying<E>(m: Metrics, id1: E, label1: string, id2: E,
                                                 labels2: seq<string>, threshold: real)
    ensures LabelRow(m, id1, label1, id2, labels2, threshold)
         == Qualifying(m, id1, id2, Row(label1, labels2), threshold)
    decreases |labels2|
  {
    if labels2 != [] {
      var n := |labels2| - 1;
      assert Row(label1, labels2)[..n] == Row(label1, labels2[..n]);
      LabelRowQualifying(m, id1, label1, id2, labels2[..n], threshold);
    }
  }

  /** The label loops emit exactly the qualifying combinations of the ordered
      cross product of the two label lists: one match per combination, label1
      outer and label2 inner. */
  lemma {:induction false} PairMatchesQualifying<E>(m: Metrics, id1: E, labels1: seq<string>, id2: E,
                                                    labels2: seq<string>, threshold: real)
    ensures PairMatches(m, id1, labels1, id2, labels2, threshold)
         == Qualifying(m, id1, id2, CrossProduct(labels1, labels2), threshold)
    decreases |labels1|
  {
    if labels1 != [] {
      var n := |labels1| - 1;
      PairMatchesQualifying(m, id1, labels1[..n], id2, labels2, threshold);
      LabelRowQualifying(m, id1, labels1[n], id2, labels2, threshold);
      QualifyingAppend(m, id1, id2, CrossProduct(labels1[..n], labels2), Row(labels1[n], labels2), threshold);
    }
  }

  lemma {:induction false} QualifyingMembers<E>(m: Metrics, id1: E, id2: E, pairs: seq<(string, string)>,
                                                threshold: real, x: Match<E>)
    ensures x in Qualifying(m, id1, id2, pairs, threshold)
        <==> exists p :: p in pairs && Similarity(m, p.0, p.1) >= threshold
                         && x == Match(id1, id2, Similarity(m, p.0, p.1))
    decreases |pairs|
  {
    if pairs != [] {
      var n := |pairs| - 1;
      QualifyingMembers(m, id1, id2, pairs[..n], threshold, x);
      assert pairs == pairs[..n] + [pairs[n]];
    }
  }

  /** Soundness and completeness of the label loops: a tuple is emitted for a
      pair of classes exactly when some label of the first and some label of
      the second score at least the threshold, and it carries that score. */
  lemma PairMatchesMembers<E>(m: Metrics, id1: E, labels1: seq<string>, id2: E, labels2: seq<string>,
                              threshold: real, x: Match<E>)
    ensures x in PairMatches(m, id1, labels1, id2, labels2, threshold)
        <==> exists label1, label2 :: label1 in labels1 && label2 in labels2
                                      && Similarity(m, label1, label2) >= threshold
                                      && x == Match(id1, id2, Similarity(m, label1, label2))
  {
    PairMatchesQualifying(m, id1, labels1, id2, labels2, threshold);
    var pairs := CrossProduct(labels1, labels2);
    QualifyingMembers(m, id1, id2, pairs, threshold, x);
    if x in PairMatches(m, id1, labels1, id2, labels2, threshold) {
      var p :| p in pairs && Similarity(m, p.0, p.1) >= threshold && x == Match(id1, id2, Similarity(m, p.0, p.1));
      CrossProductMembers(labels1, labels2, p);
    }
    if exists label1, label2 :: label1 in labels1 && label2 in labels2
                                && Similarity(m, label1, label2) >= threshold
                                && x == Match(id1, id2, Similarity(m, label1, label2)) {
      var label1, label2 :| label1 in labels1 && label2 in labels2
                            && Similarity(m, label1, label2) >= threshold
                            && x == Match(id1, id2, Similarity(m, label1, label2));
      CrossProductMembers(labels1, labels2, (label1, label2));
    }
  }

  /** Raising the threshold keeps a subsequence of the combinations. */
  lemma {:induction false} QualifyingMonotone<E>(m: Metrics, id1: E, id2: E, pairs: seq<(string, string)>,
                                                 low: real, high: real)
    requires low <= high
    ensures IsSubsequence(Qualifying(m, id1, id2, pairs, high), Qualifying(m, id1, id2, pairs, low))
    decreases |pairs|
  {
    if pairs != [] {
      var n := |pairs| - 1;
      QualifyingMonotone(m, id1, id2, pairs[..n], low, high);
      var s := Similarity(m, pairs[n].0, pairs[n].1);
      var tailHigh := if s >= high then [Match(id1, id2, s)] else [];
      var tailLow := if s >= low then [Match(id1, id2, s)] else [];
      assert IsSubsequence(tailHigh, tailLow) by {
        if tailHigh != [] {
          assert tailHigh[..0] == [];
        }
      }
      SubsequenceConcat(Qualifying(m, id1, id2, pairs[..n], high), Qualifying(m, id1, id2, pairs[..n], low),
                        tailHigh, tailLow);
    }
  }

  /** Raising the threshold keeps a subsequence of one pair's matches. */
  lemma PairMatchesMonotone<E>(m: Metrics, id1: E, labels1: seq<string>, id2: E, labels2: seq<string>,
                               low: real, high: real)
    requires low <= high
    ensures IsSubsequence(PairMatches(m, id1, labels1, id2, labels2, high),
                          PairMatches(m, id1, labels1, id2, labels2, low))
  {
    PairMatchesQualifying(m, id1, labels1, id2, labels2, high);
    PairMatchesQualifying(m, id1, labels1, id2, labels2, low);
    QualifyingMonotone(m, id1, id2, CrossProduct(labels1, labels2), low, high);
  }

  /** The label loops as the scripts write them: two nested `for` loops that
      append to `matches`. */
  method MatchLabels<E>(m: Metrics, id1: E, labels1: seq<string>, id2: E, labels2: seq<string>, threshold: real)
    returns (matches: seq<Match<E>>)
    ensures matches == PairMatches(m, id1, labels1, id2, labels2, threshold)
  {
    matches := [];
    for i := 0 to |labels1|
      invariant matches == PairMatches(m, id1, labels1[..i], id2, labels2, threshold)
    {
      for j := 0 to |labels2|
        invariant matches == PairMatches(m, id1, labels1[..i], id2, labels2, threshold)
                             + LabelRow(m, id1, labels1[i], id2, labels2[..j], threshold)
      {
        var similarity := Similarity(m, labels1[i], labels2[j]);
        if similarity >= threshold {
          matches := matches + [Match(id1, id2, similarity)];
        }
        assert labels2[..j + 1][..j] == labels2[..j];
      }
      assert labels2[..|labels2|] == labels2;
      assert labels1[..i + 1][..i] == labels1[..i];
    }
    assert labels1[..|labels1|] == labels1;
  }

  /** A list of entity-valued matches seen through the IRIs of its entities. */
  function ToIris(ms: seq<Match<Entity>>): seq<Match<string>>
  {
    seq(|ms|, k requires 0 <= k < |ms| => Match(ms[k].left.iri, ms[k].right.iri, ms[k].score))
  }

  lemma ToIrisAppend(a: seq<Match<Entity>>, b: seq<Match<Entity>>)
    ensures ToIris(a + b) == ToIris(a) + ToIris(b)
  {
  }

  lemma {:induction false} ToIrisQualifying(m: Metrics, e1: Entity, e2: Entity, pairs: seq<(string, string)>,
                                            threshold: real)
    ensures ToIris(Qualifying(m, e1, e2, pairs, threshold)) == Qualifying(m, e1.iri, e2.iri, pairs, threshold)
    decreases |pairs|
  {
    if pairs != [] {
      var n := |pairs| - 1;
      ToIrisQualifying(m, e1, e2, pairs[..n], threshold);
      var s := Similarity(m, pairs[n].0, pairs[n].1);
      ToIrisAppend(Qualifying(m, e1, e2, pairs[..n], threshold),
                   if s >= threshold then [Match(e1, e2, s)] else []);
    }
  }

  /** Appending the entities' IRIs (the IRI-emitting scripts) gives exactly the
      IRIs of the matches that appending the entities themselves gives. */
  lemma ToIrisPairMatches(m: Metrics, e1: Entity, labels1: seq<string>, e2: Entity, labels2: seq<string>,
                          threshold: real)
    ensures ToIris(PairMatches(m, e1, labels1, e2, labels2, threshold))
         == PairMatches(m, e1.iri, labels1, e2.iri, labels2, threshold)
  {
    PairMatchesQualifying(m, e1, labels1, e2, labels2, threshold);
    PairMatchesQualifying(m, e1.iri, labels1, e2.iri, labels2, threshold);
    ToIrisQualifying(m, e1, e2, CrossProduct(labels1, labels2), threshold);
  }

  /** Projecting to IRIs commutes with flattening per-pair results. */
  lemma {:induction false} ToIrisFlatten(ss: seq<seq<Match<Entity>>>)
    ensures ToIris(Flatten(ss)) == Flatten(Map(ss, ToIris))
    decreases |ss|
  {
    if ss != [] {
      var n := |ss| - 1;
      ToIrisFlatten(ss[..n]);
      ToIrisAppend(Flatten(ss[..n]), ss[n]);
      assert Map(ss, ToIris)[..n] == Map(ss[..n], ToIris);
    }
  }

  /** Projecting to IRIs keeps a subsequence a subsequence. */
  lemma {:induction false} ToIrisSubsequence(a: seq<Match<Entity>>, b: seq<Match<Entity>>)
    requires IsSubsequence(a, b)
    ensures IsSubsequence(ToIris(a), ToIris(b))
    decreases |b|
  {
    if a != [] {
      var a', b' := a[..|a| - 1], b[..|b| - 1];
      assert ToIris(b)[..|b| - 1] == ToIris(b');
      if a[|a| - 1] == b[|b| - 1] && IsSubsequence(a', b') {
        ToIrisSubsequence(a', b');
        assert ToIris(a)[..|a| - 1] == ToIris(a');
      } else {
        ToIrisSubsequence(a, b');
      }
    }
  }
}
