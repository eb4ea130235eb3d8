/** Sequence utilities shared by the matching pipelines: flattening a list of
    lists, the ordered cross product that a nested comprehension builds, and
    subsequences. Recursive definitions peel the LAST element off, so that a
    loop which appends can keep `acc == F(s[..i])` as its invariant. */
module Sequences {

  /** `[x for sub in ss for x in sub]`: the list of lists joined in order, as
      the three parallel scripts do with their pool results. */
  function Flatten<T>(ss: seq<seq<T>>): seq<T>
    decreases |ss|
  {
    if ss == [] then [] else Flatten(ss[..|ss| - 1]) + ss[|ss| - 1]
  }

  lemma {:induction false} FlattenAppend<T>(a: seq<seq<T>>, b: seq<seq<T>>)
    ensures Flatten(a + b) == Flatten(a) + Flatten(b)
    decreases |b|
  {
    if b == [] {
      assert a + b == a;
    } else {
      var b', last := b[..|b| - 1], b[|b| - 1];
      assert (a + b)[..|a + b| - 1] == a + b';
      calc {
        Flatten(a + b);
        Flatten(a + b') + last;
        { FlattenAppend(a, b'); }
        (Flatten(a) + Flatten(b')) + last;
        Flatten(a) + (Flatten(b') + last);
        Flatten(a) + Flatten(b);
      }
    }
  }

  /** An element of the flattened list is an element of one of the lists. */
  lemma {:induction false} FlattenMembers<T>(ss: seq<seq<T>>)
    ensures forall x :: x in Flatten(ss) <==> exists i :: 0 <= i < |ss| && x in ss[i]
    decreases |ss|
  {
    if ss != [] {
      var n := |ss| - 1;
      FlattenMembers(ss[..n]);
      assert forall i :: 0 <= i < n ==> ss[..n][i] == ss[i];
    }
  }

  /** Flattening lists that are all empty gives the empty list. */
  lemma {:induction false} FlattenEmpties<T>(ss: seq<seq<T>>)
    requires forall i :: 0 <= i < |ss| ==> ss[i] == []
    ensures Flatten(ss) == []
    decreases |ss|
  {
    if ss != [] {
      FlattenEmpties(ss[..|ss| - 1]);
    }
  }

  /** The pairs `(x, y)` for one fixed `x`, in the order of `ys`. */
  function Row<A, B>(x: A, ys: seq<B>): seq<(A, B)>
  {
    seq(|ys|, j requires 0 <= j < |ys| => (x, ys[j]))
  }

  /** `[(x, y) for x in xs for y in ys]`: `xs` is the outer index. */
  function CrossProduct<A, B>(xs: seq<A>, ys: seq<B>): (r: seq<(A, B)>)
    ensures |r| == |xs| * |ys|
    decreases |xs|
  {
    if xs == [] then []
    else
      var prefix := CrossProduct(xs[..|xs| - 1], ys);
      assert |prefix| + |ys| == |xs| * |ys| by {
        MulSucc(|xs| - 1, |ys|);
      }
      prefix + Row(xs[|xs| - 1], ys)
  }

  lemma MulSucc(a: nat, b: nat)
    ensures a * b + b == (a + 1) * b
  {
  }

  /** The pair of `xs[i]` and `ys[j]` sits at position `i * |ys| + j`. */
  lemma {:induction false} CrossProductAt<A, B>(xs: seq<A>, ys: seq<B>, i: nat, j: nat)
    requires i < |xs| && j < |ys|
    ensures i * |ys| + j < |CrossProduct(xs, ys)|
    ensures CrossProduct(xs, ys)[i * |ys| + j] == (xs[i], ys[j])
    decreases |xs|
  {
    var n := |xs| - 1;
    var prefix := CrossProduct(xs[..n], ys);
    assert CrossProduct(xs, ys) == prefix + Row(xs[n], ys);
    if i < n {
      CrossProductAt(xs[..n], ys, i, j);
    } else {
      assert |prefix| == n * |ys|;
    }
  }

  /** A pair is in the cross product exactly when each side is in its list. */
  lemma {:induction false} CrossProductMembers<A, B>(xs: seq<A>, ys: seq<B>, p: (A, B))
    ensures p in CrossProduct(xs, ys) <==> p.0 in xs && p.1 in ys
    decreases |xs|
  {
    if xs != [] {
      var n := |xs| - 1;
      CrossProductMembers(xs[..n], ys, p);
      assert xs == xs[..n] + [xs[n]];
      if p.0 == xs[n] && p.1 in ys {
        var j :| 0 <= j < |ys| && ys[j] == p.1;
        assert Row(xs[n], ys)[j] == p;
      }
    }
  }

  /** `[f(x) for x in xs]`. */
  function Map<A, C>(xs: seq<A>, f: A -> C): seq<C>
  {
    seq(|xs|, i requires 0 <= i < |xs| => f(xs[i]))
  }

  /** `[(f(x), g(y)) for (x, y) in ps]`. */
  function PairMap<A, B, C, D>(ps: seq<(A, B)>, f: A -> C, g: B -> D): seq<(C, D)>
  {
    Map(ps, (p: (A, B)) => (f(p.0), g(p.1)))
  }

  /** Pairing the images of two lists is the image of pairing the lists: the
      cross product commutes with mapping each side. */
  lemma {:induction false} CrossProductMap<A, B, C, D>(xs: seq<A>, ys: seq<B>, f: A -> C, g: B -> D)
    ensures CrossProduct(Map(xs, f), Map(ys, g)) == PairMap(CrossProduct(xs, ys), f, g)
    decreases |xs|
  {
    if xs != [] {
      var n := |xs| - 1;
      CrossProductMap(xs[..n], ys, f, g);
      assert Map(xs, f)[..n] == Map(xs[..n], f);
      var prefix, row := CrossProduct(xs[..n], ys), Row(xs[n], ys);
      assert PairMap(prefix + row, f, g) == PairMap(prefix, f, g) + PairMap(row, f, g);
      assert PairMap(row, f, g) == Row(f(xs[n]), Map(ys, g));
    }
  }

  /** `a` can be obtained from `b` by deleting elements. */
  ghost predicate IsSubsequence<T>(a: seq<T>, b: seq<T>)
    decreases |b|
  {
    if a == [] then true
    else if b == [] then false
    else
      (a[|a| - 1] == b[|b| - 1] && IsSubsequence(a[..|a| - 1], b[..|b| - 1]))
      || IsSubsequence(a, b[..|b| - 1])
  }

  lemma {:induction false} SubsequenceExtend<T>(a: seq<T>, b: seq<T>, c: seq<T>)
    requires IsSubsequence(a, b)
    ensures IsSubsequence(a, b + c)
    decreases |c|
  {
    if c == [] {
      assert b + c == b;
    } else {
      var c' := c[..|c| - 1];
      SubsequenceExtend(a, b, c');
      assert (b + c)[..|b + c| - 1] == b + c';
    }
  }

  lemma {:induction false} SubsequenceConcat<T>(a1: seq<T>, b1: seq<T>, a2: seq<T>, b2: seq<T>)
    requires IsSubsequence(a1, b1) && IsSubsequence(a2, b2)
    ensures IsSubsequence(a1 + a2, b1 + b2)
    decreases |b2|
  {
    if a2 == [] {
      assert a1 + a2 == a1;
      SubsequenceExtend(a1, b1, b2);
    } else {
      assert b2 != [];
      var a2', b2' := a2[..|a2| - 1], b2[..|b2| - 1];
      assert (b1 + b2)[..|b1 + b2| - 1] == b1 + b2';
      if a2[|a2| - 1] == b2[|b2| - 1] && IsSubsequence(a2', b2') {
        SubsequenceConcat(a1, b1, a2', b2');
        assert (a1 + a2)[..|a1 + a2| - 1] == a1 + a2';
      } else {
        SubsequenceConcat(a1, b1, a2, b2');
      }
    }
  }

  /** Every element of a subsequence is an element of the whole. */
  lemma {:induction false} SubsequenceMembers<T>(a: seq<T>, b: seq<T>, x: T)
    requires IsSubsequence(a, b) && x in a
    ensures x in b
    decreases |b|
  {
    assert b != [];
    var a', b' := a[..|a| - 1], b[..|b| - 1];
    assert b == b' + [b[|b| - 1]];
    if a[|a| - 1] == b[|b| - 1] && IsSubsequence(a', b') {
      assert a == a' + [a[|a| - 1]];
      if x in a' {
        SubsequenceMembers(a', b', x);
      }
    } else {
      SubsequenceMembers(a, b', x);
    }
  }
}
