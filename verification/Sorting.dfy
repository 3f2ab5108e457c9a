/** Sorting by a key, as sorted() does it: ordered, nothing lost or added, and stable. */
module Sortings {
  ghost predicate TotalPreorder<T(!new)>(atMost: (T, T) -> bool) {
    && (forall x, y :: atMost(x, y) || atMost(y, x))
    && (forall x, y, z :: atMost(x, y) && atMost(y, z) ==> atMost(x, z))
  }

  function Insert<T>(x: T, sorted: seq<T>, atMost: (T, T) -> bool): seq<T> {
    if sorted == [] || atMost(x, sorted[0]) then [x] + sorted
    else [sorted[0]] + Insert(x, sorted[1..], atMost)
  }

  function Sorted<T>(s: seq<T>, atMost: (T, T) -> bool): seq<T> {
    if s == [] then [] else Insert(s[0], Sorted(s[1..], atMost), atMost)
  }

  ghost predicate Ordered<T>(s: seq<T>, atMost: (T, T) -> bool) {
    forall i, j :: 0 <= i < j < |s| ==> atMost(s[i], s[j])
  }

  lemma {:induction false} InsertKeepsElements<T>(x: T, sorted: seq<T>, atMost: (T, T) -> bool)
    ensures multiset(Insert(x, sorted, atMost)) == multiset(sorted) + multiset{x}
  {
    if sorted != [] && !atMost(x, sorted[0]) {
      InsertKeepsElements(x, sorted[1..], atMost);
      assert sorted == [sorted[0]] + sorted[1..];
    }
  }

  lemma {:induction false} InsertKeepsOrder<T(!new)>(x: T, sorted: seq<T>, atMost: (T, T) -> bool)
    requires TotalPreorder(atMost) && Ordered(sorted, atMost)
    ensures Ordered(Insert(x, sorted, atMost), atMost)
  {
    if sorted != [] && !atMost(x, sorted[0]) {
      var inserted := Insert(x, sorted[1..], atMost);
      InsertKeepsOrder(x, sorted[1..], atMost);
      InsertKeepsElements(x, sorted[1..], atMost);
      forall k | 0 <= k < |inserted| ensures atMost(sorted[0], inserted[k]) {
        assert inserted[k] in multiset(inserted);
        assert inserted[k] in sorted[1..] || inserted[k] == x;
      }
    }
  }

  lemma {:induction false} SortIsOrdered<T(!new)>(s: seq<T>, atMost: (T, T) -> bool)
    requires TotalPreorder(atMost)
    ensures Ordered(Sorted(s, atMost), atMost) && multiset(Sorted(s, atMost)) == multiset(s) && |Sorted(s, atMost)| == |s|
  {
    if s != [] {
      SortIsOrdered(s[1..], atMost);
      InsertKeepsOrder(s[0], Sorted(s[1..], atMost), atMost);
      InsertKeepsElements(s[0], Sorted(s[1..], atMost), atMost);
      assert s == [s[0]] + s[1..];
    }
    assert |Sorted(s, atMost)| == |multiset(Sorted(s, atMost))|;
  }

  predicate Alike<T>(x: T, y: T, atMost: (T, T) -> bool) {
    atMost(x, y) && atMost(y, x)
  }

  /** The elements that sort like a given one, in their order. */
  function Likes<T>(s: seq<T>, k: T, atMost: (T, T) -> bool): seq<T> {
    if s == [] then []
    else if Alike(s[0], k, atMost) then [s[0]] + Likes(s[1..], k, atMost)
    else Likes(s[1..], k, atMost)
  }

  lemma {:induction false} InsertIsStable<T(!new)>(x: T, sorted: seq<T>, k: T, atMost: (T, T) -> bool)
    requires TotalPreorder(atMost)
    ensures Likes(Insert(x, sorted, atMost), k, atMost) == Likes([x] + sorted, k, atMost)
  {
    assert ([x] + sorted)[1..] == sorted;
    if sorted != [] && !atMost(x, sorted[0]) {
      var rest := sorted[1..];
      InsertIsStable(x, rest, k, atMost);
      assert ([x] + rest)[1..] == rest;
      assert ([sorted[0]] + Insert(x, rest, atMost))[1..] == Insert(x, rest, atMost);
      assert !(Alike(x, k, atMost) && Alike(sorted[0], k, atMost));
    }
  }

  /** Elements that sort alike keep their order. */
  lemma {:induction false} SortIsStable<T(!new)>(s: seq<T>, k: T, atMost: (T, T) -> bool)
    requires TotalPreorder(atMost)
    ensures Likes(Sorted(s, atMost), k, atMost) == Likes(s, k, atMost)
  {
    if s != [] {
      SortIsStable(s[1..], k, atMost);
      InsertIsStable(s[0], Sorted(s[1..], atMost), k, atMost);
      assert ([s[0]] + Sorted(s[1..], atMost))[1..] == Sorted(s[1..], atMost);
    }
  }
}
