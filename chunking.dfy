/** `chunkify(lst, n)`: `[lst[i::n] for i in range(n)]`, a strided split of a
    list into `n` lists, where list `i` takes the elements at indices
    `i, i + n, i + 2n, ...`. */
module Chunking {
  import opened Sequences

  /** The slice `lst[start::step]` for a positive step. */
  function Stride<T>(lst: seq<T>, start: nat, step: nat): (r: seq<T>)
    requires step >= 1
    ensures r == [] <==> start >= |lst|
    ensures r != [] ==> r[0] == lst[start]
    decreases |lst| - start
  {
    if start >= |lst| then [] else [lst[start]] + Stride(lst, start + step, step)
  }

  /** `chunkify(lst, n)`. */
  function Chunkify<T>(lst: seq<T>, n: nat): (r: seq<seq<T>>)
    ensures |r| == n
    ensures forall i :: 0 <= i < n ==> (r[i] == [] <==> i >= |lst|)
  {
    seq(n, i requires 0 <= i < n => Stride(lst, i, n))
  }

  /** Position `k` of `lst[start::step]` holds `lst[start + k * step]`, and
      every such index inside the list has its position. */
  lemma {:induction false} StrideAt<T>(lst: seq<T>, start: nat, step: nat, k: nat)
    requires step >= 1
    ensures k < |Stride(lst, start, step)| <==> start + k * step < |lst|
    ensures k < |Stride(lst, start, step)| ==> Stride(lst, start, step)[k] == lst[start + k * step]
    decreases k
  {
    if k > 0 && start < |lst| {
      StrideAt(lst, start + step, step, k - 1);
      assert start + step + (k - 1) * step == start + k * step;
    }
  }

  /** Dropping the head of the list shifts every stride start down by one. */
  lemma {:induction false} StrideShift<T>(lst: seq<T>, start: nat, step: nat)
    requires step >= 1 && lst != []
    ensures Stride(lst, start + 1, step) == Stride(lst[1..], start, step)
    decreases |lst| - start
  {
    if start + 1 < |lst| {
      StrideShift(lst, start + step, step);
    }
  }

  /** Two strides whose starts are at most one step apart differ in length by
      at most one, the earlier one being the longer. */
  lemma {:induction false} StrideLengths<T>(lst: seq<T>, i: nat, j: nat, step: nat)
    requires step >= 1 && i <= j <= i + step
    ensures |Stride(lst, j, step)| <= |Stride(lst, i, step)| <= |Stride(lst, j, step)| + 1
    decreases |lst| - i
  {
    if i < |lst| && j < |lst| {
      StrideLengths(lst, i + step, j + step, step);
    } else if i < |lst| {
      assert Stride(lst, i + step, step) == [];
    }
  }

  /** The element at input index `j` lands in chunk `j % n` at position `j / n`. */
  lemma ChunkifyIndex<T>(lst: seq<T>, n: nat, j: nat)
    requires n >= 1 && j < |lst|
    ensures j / n < |Chunkify(lst, n)[j % n]|
    ensures Chunkify(lst, n)[j % n][j / n] == lst[j]
  {
    assert j % n + (j / n) * n == j;
    StrideAt(lst, j % n, n, j / n);
  }

  /** Every element of a chunk comes from the input, at an index that is its
      chunk number modulo `n`. */
  lemma ChunkifyElement<T>(lst: seq<T>, n: nat, i: nat, k: nat)
    requires i < n && k < |Chunkify(lst, n)[i]|
    ensures i + k * n < |lst| && Chunkify(lst, n)[i][k] == lst[i + k * n]
  {
    StrideAt(lst, i, n, k);
  }

  /** Chunk sizes never grow with the chunk number and differ by at most one. */
  lemma ChunkSizesBalanced<T>(lst: seq<T>, n: nat, i: nat, j: nat)
    requires i <= j < n
    ensures |Chunkify(lst, n)[j]| <= |Chunkify(lst, n)[i]| <= |Chunkify(lst, n)[j]| + 1
  {
    StrideLengths(lst, i, j, n);
  }

  /** Chunking the tail rotates the chunks: chunk `i + 1` of the list is chunk
      `i` of its tail, and the last chunk of the tail is chunk 0 without its head. */
  lemma ChunkifyTail<T>(lst: seq<T>, n: nat)
    requires n >= 1 && lst != []
    ensures Chunkify(lst, n)[0] == [lst[0]] + Stride(lst, n, n)
    ensures Chunkify(lst[1..], n) == Chunkify(lst, n)[1..] + [Stride(lst, n, n)]
  {
    var c, d := Chunkify(lst, n), Chunkify(lst[1..], n);
    forall i | 0 <= i < n
      ensures d[i] == (c[1..] + [Stride(lst, n, n)])[i]
    {
      StrideShift(lst, i, n);
    }
  }

  lemma FlattenMultiset<T>(a: seq<seq<T>>, b: seq<seq<T>>)
    ensures multiset(Flatten(a + b)) == multiset(Flatten(a)) + multiset(Flatten(b))
  {
    FlattenAppend(a, b);
  }

  /** The concatenated chunks are a permutation of the input, so no element is
      lost or repeated and the chunk lengths add up to the input length. */
  lemma {:induction false} ChunkifyPermutation<T>(lst: seq<T>, n: nat)
    requires n >= 1
    ensures multiset(Flatten(Chunkify(lst, n))) == multiset(lst)
    ensures |Flatten(Chunkify(lst, n))| == |lst|
    decreases |lst|
  {
    var flat := Flatten(Chunkify(lst, n));
    if lst == [] {
      FlattenEmpties(Chunkify(lst, n));
    } else {
      ChunkifyPermutation(lst[1..], n);
      ChunkifyFlattenStep(lst, n);
      assert multiset(lst) == multiset{lst[0]} + multiset(lst[1..]) by {
        assert lst == [lst[0]] + lst[1..];
      }
    }
    assert |multiset(flat)| == |flat| && |multiset(lst)| == |lst|;
  }

  /** The chunks of a list hold its head and the chunks of its tail. */
  lemma ChunkifyFlattenStep<T>(lst: seq<T>, n: nat)
    requires n >= 1 && lst != []
    ensures multiset(Flatten(Chunkify(lst, n))) == multiset{lst[0]} + multiset(Flatten(Chunkify(lst[1..], n)))
  {
    var c := Chunkify(lst, n);
    ChunkifyTail(lst, n);
    var rest := Stride(lst, n, n);
    assert c == [c[0]] + c[1..];
    FlattenMultiset([c[0]], c[1..]);
    assert Flatten([c[0]]) == Flatten<T>([]) + c[0];
    FlattenMultiset(c[1..], [rest]);
    assert Flatten([rest]) == Flatten<T>([]) + rest;
  }

  /** Every element of every chunk comes from the input list. */
  lemma ChunkMembers<T>(lst: seq<T>, n: nat)
    ensures forall i, x :: 0 <= i < n && x in Chunkify(lst, n)[i] ==> x in lst
  {
    forall i, x | 0 <= i < n && x in Chunkify(lst, n)[i]
      ensures x in lst
    {
      var k :| 0 <= k < |Chunkify(lst, n)[i]| && Chunkify(lst, n)[i][k] == x;
      ChunkifyElement(lst, n, i, k);
    }
  }

  /** With one chunk, chunking changes nothing. */
  lemma SingleChunk<T>(lst: seq<T>)
    ensures Chunkify(lst, 1) == [lst]
  {
    StrideWhole(lst, 0);
    assert lst[0..] == lst;
  }

  lemma {:induction false} StrideWhole<T>(lst: seq<T>, start: nat)
    requires start <= |lst|
    ensures Stride(lst, start, 1) == lst[start..]
    decreases |lst| - start
  {
    if start < |lst| {
      StrideWhole(lst, start + 1);
      assert lst[start..] == [lst[start]] + lst[start + 1..];
    }
  }
}
