/** `find_common_elements(listA, listB)`: `list(set(listA) & set(listB))`,
    the elements that occur in both lists, each once. CPython's order for
    `list(set)` depends on hashes and on the order the intersection was
    built in, so the model does not fix it: `IsCommonList` says which lists
    the call may return, and every property below is stated for each of
    them. */
module CommonElements {

  /** No element occurs twice. */
  ghost predicate Distinct<T>(s: seq<T>)
  {
    forall i, j :: 0 <= i < j < |s| ==> s[i] != s[j]
  }

  /** `r` is a possible result of `find_common_elements(listA, listB)`: it
      lists the elements common to both lists, each once, in any order. */
  ghost predicate IsCommonList<T(!new)>(listA: seq<T>, listB: seq<T>, r: seq<T>)
  {
    (forall x :: x in r <==> x in listA && x in listB) && Distinct(r)
  }

  /** `list(s)`: the elements of `s`, each once, in some order. */
  ghost function SetToSeq<T(!new)>(s: set<T>): (r: seq<T>)
    ensures |r| == |s|
    ensures forall x :: x in r <==> x in s
    ensures Distinct(r)
    decreases |s|
  {
    if s == {} then []
    else
      var x :| x in s;
      SetToSeq(s - {x}) + [x]
  }

  /** `set(lst)`. */
  ghost function Elements<T>(lst: seq<T>): set<T>
  {
    set x | x in lst
  }

  /** `find_common_elements(listA, listB)`, in one of its possible orders.
      The order picked here depends only on the intersection set, which is
      why no lemma below is stated about this list alone. */
  ghost function FindCommonElements<T(!new)>(listA: seq<T>, listB: seq<T>): (r: seq<T>)
    ensures IsCommonList(listA, listB, r)
  {
    SetToSeq(Elements(listA) * Elements(listB))
  }

  /** In a list without repetitions, each member occurs exactly once. */
  lemma {:induction false} DistinctCounts<T>(s: seq<T>, x: T)
    requires Distinct(s)
    ensures multiset(s)[x] == if x in s then 1 else 0
    decreases |s|
  {
    if s != [] {
      var n := |s| - 1;
      assert s == s[..n] + [s[n]];
      assert Distinct(s[..n]);
      DistinctCounts(s[..n], x);
      assert s[n] !in s[..n];
    }
  }

  /** Two possible results of the same call differ only in their order. */
  lemma CommonListsPermute<T(!new)>(listA: seq<T>, listB: seq<T>, r1: seq<T>, r2: seq<T>)
    requires IsCommonList(listA, listB, r1) && IsCommonList(listA, listB, r2)
    ensures multiset(r1) == multiset(r2)
  {
    forall x | true
      ensures multiset(r1)[x] == multiset(r2)[x]
    {
      DistinctCounts(r1, x);
      DistinctCounts(r2, x);
    }
  }

  /** Swapping the arguments gives the same elements, each once, possibly in
      another order. */
  lemma CommonElementsSymmetric<T(!new)>(listA: seq<T>, listB: seq<T>, r1: seq<T>, r2: seq<T>)
    requires IsCommonList(listA, listB, r1) && IsCommonList(listB, listA, r2)
    ensures multiset(r1) == multiset(r2)
  {
    assert IsCommonList(listA, listB, r2);
    CommonListsPermute(listA, listB, r1, r2);
  }

  /** A list without repetitions is no longer than the set of its elements. */
  lemma {:induction false} DistinctLength<T>(s: seq<T>, bound: set<T>)
    requires Distinct(s) && forall x :: x in s ==> x in bound
    ensures |s| <= |bound|
    decreases |s|
  {
    if s != [] {
      var n := |s| - 1;
      assert Distinct(s[..n]);
      assert forall x :: x in s[..n] ==> x in bound - {s[n]};
      DistinctLength(s[..n], bound - {s[n]});
    }
  }

  /** Every possible result is no longer than the number of distinct
      elements of either input. */
  lemma CommonElementsBound<T(!new)>(listA: seq<T>, listB: seq<T>, r: seq<T>)
    requires IsCommonList(listA, listB, r)
    ensures |r| <= |Elements(listA)|
    ensures |r| <= |Elements(listB)|
  {
    DistinctLength(r, Elements(listA));
    DistinctLength(r, Elements(listB));
  }

  /** Whatever its order, the result for the example lists holds exactly
      "pizza" and "restaurant". */
  lemma PizzaExample(listC: seq<string>)
    requires IsCommonList(["pizza", "tomato sauce", "pepperoni", "restaurant"],
                          ["pizza", "tomato", "peperone", "restaurant"], listC)
    ensures |listC| == 2 && (forall x :: x in listC <==> x == "pizza" || x == "restaurant")
  {
    var listA := ["pizza", "tomato sauce", "pepperoni", "restaurant"];
    var listB := ["pizza", "tomato", "peperone", "restaurant"];
    assert |"tomato sauce"| == 12 && |"pepperoni"| == 9;
    assert |"pizza"| == 5 && |"tomato"| == 6 && |"peperone"| == 8 && |"restaurant"| == 10;
    assert forall x :: x in listC <==> x == "pizza" || x == "restaurant";
    assert "pizza" != "restaurant";
    DistinctLength(listC, {"pizza", "restaurant"});
    assert "pizza" in listC && "restaurant" in listC;
    DistinctCounts(listC, "pizza");
    DistinctCounts(listC, "restaurant");
    assert multiset{"pizza", "restaurant"} <= multiset(listC);
  }
}
