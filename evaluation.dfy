/** `compare_with_reference`: count the system's triples that are in the
    reference graph (true positives) and those that are not (false
    positives), count the reference triples missing from the system graph
    (false negatives), then compute precision, recall and F-score with a
    zero result wherever a denominator would be zero. Arithmetic is exact;
    parsing the two graphs from Turtle files is left out. */
module Evaluation {
  import opened Rdf

  datatype Evaluation = Evaluation(tp: nat, fp: nat, fn: nat, precision: real, recall: real, fScore: real)

  /** `num / den if den > 0 else 0`. */
  function Ratio(num: nat, den: nat): (r: real)
    ensures den == 0 ==> r == 0.0
    ensures num <= den ==> 0.0 <= r <= 1.0
    ensures 0 < num <= den ==> 0.0 < r
    ensures 0 < num == den ==> r == 1.0
  {
    if den > 0 then num as real / den as real else 0.0
  }

  lemma MulNonNegative(a: real, b: real)
    requires 0.0 <= a && 0.0 <= b
    ensures 0.0 <= a * b
  {
  }

  /** A quotient of a non-negative number by a larger positive one lies in
      [0, 1], and is zero only for a zero numerator. */
  lemma QuotientBounds(q: real, s: real)
    requires 0.0 <= q <= s && s > 0.0
    ensures 0.0 <= q / s <= 1.0
    ensures q / s == 0.0 <==> q == 0.0
  {
    var f := q / s;
    assert f * s == q;
    if f < 0.0 {
      MulNonNegative(-f, s);
    }
    if f > 1.0 {
      MulNonNegative(f - 1.0, s);
    }
  }

  lemma ProductBound(p: real, r: real)
    requires 0.0 <= p <= 1.0 && 0.0 <= r <= 1.0
    ensures 0.0 <= 2.0 * p * r <= p + r
  {
    MulNonNegative(p, 1.0 - r);
    MulNonNegative(r, 1.0 - p);
    MulNonNegative(p, r);
  }

  /** `2 * p * r / (p + r) if p + r > 0 else 0`. */
  function FScore(precision: real, recall: real): (f: real)
    requires 0.0 <= precision <= 1.0 && 0.0 <= recall <= 1.0
    ensures 0.0 <= f <= 1.0
    ensures f == 0.0 <==> precision == 0.0 || recall == 0.0
    ensures precision == recall ==> f == precision
  {
    if precision + recall > 0.0 then
      var q, s := 2.0 * precision * recall, precision + recall;
      ProductBound(precision, recall);
      QuotientBounds(q, s);
      assert q == 0.0 <==> precision == 0.0 || recall == 0.0;
      assert precision == recall ==> q / s == precision by {
        if precision == recall {
          assert q == precision * s;
        }
      }
      q / s
    else 0.0
  }

  /** The three measures from the three counts, each zero where its
      denominator is zero. All three lie in [0, 1], and the F-score is zero
      exactly when there is no true positive. */
  function Measures(tp: nat, fp: nat, fn: nat): (e: Evaluation)
    ensures e.tp == tp && e.fp == fp && e.fn == fn
    ensures 0.0 <= e.precision <= 1.0 && 0.0 <= e.recall <= 1.0 && 0.0 <= e.fScore <= 1.0
    ensures tp + fp == 0 ==> e.precision == 0.0
    ensures tp + fn == 0 ==> e.recall == 0.0
    ensures e.fScore == 0.0 <==> tp == 0
  {
    var precision := Ratio(tp, tp + fp);
    var recall := Ratio(tp, tp + fn);
    Evaluation(tp, fp, fn, precision, recall, FScore(precision, recall))
  }

  /** What `compare_with_reference` computes from the system graph and the
      reference graph: true positives are the shared triples, false positives
      the system's other triples, false negatives the reference's other
      triples. */
  function Evaluate(system: set<Triple>, reference: set<Triple>): (e: Evaluation)
    ensures e.tp + e.fp == |system| && e.tp + e.fn == |reference|
    ensures 0.0 <= e.precision <= 1.0 && 0.0 <= e.recall <= 1.0 && 0.0 <= e.fScore <= 1.0
    ensures system == {} ==> e.precision == 0.0
    ensures reference == {} ==> e.recall == 0.0
  {
    assert system == (system * reference) + (system - reference);
    assert reference == (system * reference) + (reference - system);
    Measures(|system * reference|, |system - reference|, |reference - system|)
  }

  /** Visiting one more triple `t` of the unvisited part `rest` of a graph
      moves exactly one of the two counts "in `other`" and "not in `other`"
      taken over the visited part. */
  lemma CountStep(whole: set<Triple>, rest: set<Triple>, t: Triple, other: set<Triple>)
    requires t in rest
    ensures |(whole - (rest - {t})) * other| == |(whole - rest) * other| + (if t in whole && t in other then 1 else 0)
    ensures |(whole - (rest - {t})) - other| == |(whole - rest) - other| + (if t in whole && t !in other then 1 else 0)
  {
    var seen := whole - rest;
    if t in whole {
      assert whole - (rest - {t}) == seen + {t};
      if t in other {
        assert (seen + {t}) * other == (seen * other) + {t};
        assert (seen + {t}) - other == seen - other;
      } else {
        assert (seen + {t}) * other == seen * other;
        assert (seen + {t}) - other == (seen - other) + {t};
      }
    } else {
      assert whole - (rest - {t}) == seen;
    }
  }

  /** `compare_with_reference(reference, system)`: two counting loops over
      the graphs, then the three ratios. */
  method CompareWithReference(reference: set<Triple>, system: set<Triple>) returns (e: Evaluation)
    ensures e == Evaluate(system, reference)
  {
    var tp, fp, fn := 0, 0, 0;
    var rest := system;
    while rest != {}
      invariant rest <= system
      invariant tp == |(system - rest) * reference| && fp == |(system - rest) - reference|
      decreases rest
    {
      var t :| t in rest;
      CountStep(system, rest, t, reference);
      if t in reference {
        tp := tp + 1;
      } else {
        fp := fp + 1;
      }
      rest := rest - {t};
    }
    assert system - rest == system;
    var unvisited := reference;
    while unvisited != {}
      invariant unvisited <= reference
      invariant fn == |(reference - unvisited) - system|
      decreases unvisited
    {
      var t :| t in unvisited;
      CountStep(reference, unvisited, t, system);
      if t !in system {
        fn := fn + 1;
      }
      unvisited := unvisited - {t};
    }
    assert reference - unvisited == reference;
    e := Measures(tp, fp, fn);
  }

  /** Identical graphs score 1 on all three measures. */
  lemma PerfectAlignment(g: set<Triple>)
    requires g != {}
    ensures Evaluate(g, g).precision == 1.0 && Evaluate(g, g).recall == 1.0 && Evaluate(g, g).fScore == 1.0
  {
    assert g * g == g && g - g == {};
  }

  /** Disjoint graphs score 0 on all three measures. */
  lemma DisjointAlignment(system: set<Triple>, reference: set<Triple>)
    requires system * reference == {}
    ensures Evaluate(system, reference).tp == 0
    ensures Evaluate(system, reference).precision == 0.0 && Evaluate(system, reference).recall == 0.0
    ensures Evaluate(system, reference).fScore == 0.0
    ensures Evaluate(system, reference).fp == |system| && Evaluate(system, reference).fn == |reference|
  {
    forall t | t in system
      ensures t !in reference
    {
      assert t !in system * reference;
    }
    assert system - reference == system;
    assert reference - system == reference;
  }

  /** One shared link, one spurious and one missed: every measure is one half. */
  lemma HalfRightScenario()
    ensures
      var a1b1 := Triple("A1", EquivalentClass, "B1");
      var a2b2 := Triple("A2", EquivalentClass, "B2");
      var a3b3 := Triple("A3", EquivalentClass, "B3");
      var e := Evaluate({a1b1, a3b3}, {a1b1, a2b2});
      e.tp == 1 && e.fp == 1 && e.fn == 1 && e.precision == 0.5 && e.recall == 0.5 && e.fScore == 0.5
  {
    var a1b1 := Triple("A1", EquivalentClass, "B1");
    var a2b2 := Triple("A2", EquivalentClass, "B2");
    var a3b3 := Triple("A3", EquivalentClass, "B3");
    assert a1b1 != a2b2 && a1b1 != a3b3 && a2b2 != a3b3 by {
      assert "A1"[1] != "A2"[1] && "A1"[1] != "A3"[1] && "A2"[1] != "A3"[1];
    }
    assert {a1b1, a3b3} * {a1b1, a2b2} == {a1b1};
    assert {a1b1, a3b3} - {a1b1, a2b2} == {a3b3};
    assert {a1b1, a2b2} - {a1b1, a3b3} == {a2b2};
  }
}
