/** `find_lexical_matches` of the sequential scripts: four nested loops over
    the classes of the first ontology, the classes of the second, the labels
    of the first class and the labels of the second, appending
    `(entity1, entity2, similarity)` for every label combination that reaches
    the threshold. The same loop is written out in three scripts. */
module Sequential {
  import opened Sequences
  import opened Alignment

  /** The matches of one class of the first ontology against the classes
      `es2` of the second, in the order of `es2`. */
  function RowMatches(m: Metrics, e1: Entity, es2: seq<Entity>, threshold: real): (r: seq<Match<Entity>>)
    ensures forall k :: 0 <= k < |r| ==> r[k].left == e1 && r[k].score >= threshold
    ensures e1.labels == [] || es2 == [] ==> r == []
    decreases |es2|
  {
    if es2 == [] then []
    else
      var e2 := es2[|es2| - 1];
      RowMatches(m, e1, es2[..|es2| - 1], threshold) + PairMatches(m, e1, e1.labels, e2, e2.labels, threshold)
  }

  /** The result of the four nested loops over `es1` and `es2`. */
  function SequentialMatches(m: Metrics, es1: seq<Entity>, es2: seq<Entity>, threshold: real): (r: seq<Match<Entity>>)
    ensures forall k :: 0 <= k < |r| ==> r[k].left in es1 && r[k].score >= threshold
    ensures es2 == [] ==> r == []
    decreases |es1|
  {
    if es1 == [] then []
    else
      SequentialMatches(m, es1[..|es1| - 1], es2, threshold) + RowMatches(m, es1[|es1| - 1], es2, threshold)
  }

  lemma {:induction false} RowMatchesSound(m: Metrics, e1: Entity, es2: seq<Entity>, threshold: real)
    ensures forall x :: x in RowMatches(m, e1, es2, threshold) ==>
              x.left == e1 && x.right in es2 && x.score >= threshold
              && x.left.labels != [] && x.right.labels != []
    decreases |es2|
  {
    if es2 != [] {
      var n := |es2| - 1;
      RowMatchesSound(m, e1, es2[..n], threshold);
      var last := PairMatches(m, e1, e1.labels, es2[n], es2[n].labels, threshold);
      forall x | x in last
        ensures x.left == e1 && x.right == es2[n] && x.score >= threshold
      {
        var k :| 0 <= k < |last| && last[k] == x;
      }
      assert es2 == es2[..n] + [es2[n]];
    }
  }

  /** Every tuple of the loops links a class of `es1` to a class of `es2`,
      both with at least one label, and reaches the threshold. */
  lemma {:induction false} SequentialMatchesSound(m: Metrics, es1: seq<Entity>, es2: seq<Entity>, threshold: real)
    ensures forall x :: x in SequentialMatches(m, es1, es2, threshold) ==>
              x.left in es1 && x.right in es2 && x.score >= threshold
              && x.left.labels != [] && x.right.labels != []
    decreases |es1|
  {
    if es1 != [] {
      var n := |es1| - 1;
      SequentialMatchesSound(m, es1[..n], es2, threshold);
      RowMatchesSound(m, es1[n], es2, threshold);
      assert es1 == es1[..n] + [es1[n]];
    }
  }

  lemma RowPrefixStep(m: Metrics, e1: Entity, es2: seq<Entity>, j: nat, threshold: real)
    requires j < |es2|
    ensures RowMatches(m, e1, es2[..j + 1], threshold)
         == RowMatches(m, e1, es2[..j], threshold) + PairMatches(m, e1, e1.labels, es2[j], es2[j].labels, threshold)
  {
    assert es2[..j + 1][..j] == es2[..j];
  }

  /** One step of the inner class loop: appending the next pair's matches
      extends the row by that pair. */
  lemma RowStep(m: Metrics, e1: Entity, es2: seq<Entity>, j: nat, threshold: real,
                before: seq<Match<Entity>>, acc: seq<Match<Entity>>, pairMatches: seq<Match<Entity>>)
    requires j < |es2|
    requires acc == before + RowMatches(m, e1, es2[..j], threshold)
    requires pairMatches == PairMatches(m, e1, e1.labels, es2[j], es2[j].labels, threshold)
    ensures acc + pairMatches == before + RowMatches(m, e1, es2[..j + 1], threshold)
  {
    RowPrefixStep(m, e1, es2, j, threshold);
  }

  /** One step of the outer class loop: appending a whole row extends the
      result by the next class of the first ontology. */
  lemma SequentialStep(m: Metrics, es1: seq<Entity>, es2: seq<Entity>, i: nat, threshold: real,
                       acc: seq<Match<Entity>>, row: seq<Match<Entity>>)
    requires i < |es1|
    requires acc == SequentialMatches(m, es1[..i], es2, threshold)
    requires row == RowMatches(m, es1[i], es2[..|es2|], threshold)
    ensures acc + row == SequentialMatches(m, es1[..i + 1], es2, threshold)
  {
    assert es1[..i + 1][..i] == es1[..i];
    assert es2[..|es2|] == es2;
  }

  /** `find_lexical_matches(onto1, onto2, threshold)`, appending the class
      objects themselves. */
  method FindLexicalMatches(m: Metrics, onto1: seq<Entity>, onto2: seq<Entity>, threshold: real)
    returns (matches: seq<Match<Entity>>)
    ensures matches == SequentialMatches(m, onto1, onto2, threshold)
  {
    matches := [];
    for i := 0 to |onto1|
      invariant matches == SequentialMatches(m, onto1[..i], onto2, threshold)
    {
      var entity1 := onto1[i];
      ghost var before := matches;
      for j := 0 to |onto2|
        invariant matches == before + RowMatches(m, entity1, onto2[..j], threshold)
      {
        var entity2 := onto2[j];
        var labels1, labels2 := entity1.labels, entity2.labels;
        var pairMatches := MatchLabels(m, entity1, labels1, entity2, labels2, threshold);
        RowStep(m, entity1, onto2, j, threshold, before, matches, pairMatches);
        matches := matches + pairMatches;
      }
      SequentialStep(m, onto1, onto2, i, threshold, before, matches[|before|..]);
    }
    assert onto1[..|onto1|] == onto1;
  }

  /** The per-pair results in the order of a list of class pairs. */
  function PairResults(m: Metrics, pairs: seq<(Entity, Entity)>, threshold: real): seq<seq<Match<Entity>>>
  {
    seq(|pairs|, k requires 0 <= k < |pairs| =>
      PairMatches(m, pairs[k].0, pairs[k].0.labels, pairs[k].1, pairs[k].1.labels, threshold))
  }

  lemma PairResultsAppend(m: Metrics, a: seq<(Entity, Entity)>, b: seq<(Entity, Entity)>, threshold: real)
    ensures PairResults(m, a + b, threshold) == PairResults(m, a, threshold) + PairResults(m, b, threshold)
  {
    var whole, left, right := PairResults(m, a + b, threshold), PairResults(m, a, threshold), PairResults(m, b, threshold);
    forall k | 0 <= k < |a + b|
      ensures whole[k] == (left + right)[k]
    {
      if k < |a| {
        assert (a + b)[k] == a[k];
      } else {
        assert (a + b)[k] == b[k - |a|];
      }
    }
  }

  lemma {:induction false} RowAsPairs(m: Metrics, e1: Entity, es2: seq<Entity>, threshold: real)
    ensures RowMatches(m, e1, es2, threshold) == Flatten(PairResults(m, Row(e1, es2), threshold))
    decreases |es2|
  {
    if es2 != [] {
      var n := |es2| - 1;
      RowAsPairs(m, e1, es2[..n], threshold);
      assert Row(e1, es2) == Row(e1, es2[..n]) + [(e1, es2[n])];
      PairResultsAppend(m, Row(e1, es2[..n]), [(e1, es2[n])], threshold);
      FlattenAppend(PairResults(m, Row(e1, es2[..n]), threshold), PairResults(m, [(e1, es2[n])], threshold));
      assert Flatten(PairResults(m, [(e1, es2[n])], threshold))
          == Flatten<Match<Entity>>([]) + PairMatches(m, e1, e1.labels, es2[n], es2[n].labels, threshold);
    }
  }

  /** Output order: the loops visit the class pairs of the ordered cross
      product (first ontology outer, second inner) and emit each pair's
      matches (label1 outer, label2 inner) in that order, so the output has
      one tuple per qualifying label combination and a class pair may repeat. */
  lemma {:induction false} SequentialAsPairs(m: Metrics, es1: seq<Entity>, es2: seq<Entity>, threshold: real)
    ensures SequentialMatches(m, es1, es2, threshold) == Flatten(PairResults(m, CrossProduct(es1, es2), threshold))
    decreases |es1|
  {
    if es1 != [] {
      var n := |es1| - 1;
      SequentialAsPairs(m, es1[..n], es2, threshold);
      RowAsPairs(m, es1[n], es2, threshold);
      PairResultsAppend(m, CrossProduct(es1[..n], es2), Row(es1[n], es2), threshold);
      FlattenAppend(PairResults(m, CrossProduct(es1[..n], es2), threshold),
                    PairResults(m, Row(es1[n], es2), threshold));
    }
  }

  lemma {:induction false} RowMonotone(m: Metrics, e1: Entity, es2: seq<Entity>, low: real, high: real)
    requires low <= high
    ensures IsSubsequence(RowMatches(m, e1, es2, high), RowMatches(m, e1, es2, low))
    decreases |es2|
  {
    if es2 != [] {
      var n := |es2| - 1;
      RowMonotone(m, e1, es2[..n], low, high);
      PairMatchesMonotone(m, e1, e1.labels, es2[n], es2[n].labels, low, high);
      SubsequenceConcat(RowMatches(m, e1, es2[..n], high), RowMatches(m, e1, es2[..n], low),
                        PairMatches(m, e1, e1.labels, es2[n], es2[n].labels, high),
                        PairMatches(m, e1, e1.labels, es2[n], es2[n].labels, low));
    }
  }

  /** Raising the threshold yields a subsequence of the lower-threshold result. */
  lemma {:induction false} ThresholdMonotone(m: Metrics, es1: seq<Entity>, es2: seq<Entity>, low: real, high: real)
    requires low <= high
    ensures IsSubsequence(SequentialMatches(m, es1, es2, high), SequentialMatches(m, es1, es2, low))
    decreases |es1|
  {
    if es1 != [] {
      var n := |es1| - 1;
      ThresholdMonotone(m, es1[..n], es2, low, high);
      RowMonotone(m, es1[n], es2, low, high);
      SubsequenceConcat(SequentialMatches(m, es1[..n], es2, high), SequentialMatches(m, es1[..n], es2, low),
                        RowMatches(m, es1[n], es2, high), RowMatches(m, es1[n], es2, low));
    }
  }

  /** A class without labels takes part in no match, whatever it is paired with. */
  lemma UnlabelledClassNeverMatches(m: Metrics, es1: seq<Entity>, es2: seq<Entity>, threshold: real, e: Entity)
    requires e.labels == []
    ensures forall x :: x in SequentialMatches(m, es1, es2, threshold) ==> x.left != e && x.right != e
  {
    SequentialMatchesSound(m, es1, es2, threshold);
  }

  /** Either ontology without classes gives no matches. */
  lemma {:induction false} EmptyOntologyNoMatches(m: Metrics, es1: seq<Entity>, es2: seq<Entity>, threshold: real)
    requires es1 == [] || es2 == []
    ensures SequentialMatches(m, es1, es2, threshold) == []
    decreases |es1|
  {
    if es1 != [] {
      EmptyOntologyNoMatches(m, es1[..|es1| - 1], es2, threshold);
    }
  }
}
