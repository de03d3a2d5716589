/**
 Comparison functions, ascending listings, and the stable sort of Go's sort.SliceStable
 as insertion sort, with what a caller may rely on: order, contents, and the order of ties.
*/
module Orders {

  /** What sort.SliceStable demands of its comparison. */
  ghost predicate WeakOrder<T(!new)>(less: (T, T) -> bool) {
    && (forall x :: !less(x, x))
    && (forall x, y, z :: less(x, y) && less(y, z) ==> less(x, z))
    && (forall x, y, z :: !less(x, y) && !less(y, z) ==> !less(x, z))
  }

  ghost predicate Asymmetric<T(!new)>(less: (T, T) -> bool) {
    forall x, y :: less(x, y) ==> !less(y, x)
  }

  ghost predicate Sorted<T>(s: seq<T>, less: (T, T) -> bool) {
    forall i, j :: 0 <= i < j < |s| ==> !less(s[j], s[i])
  }

  ghost predicate Ascending<T>(s: seq<T>, less: (T, T) -> bool) {
    forall i, j :: 0 <= i < j < |s| ==> less(s[i], s[j])
  }

  ghost predicate SameElements<T(!new)>(s: seq<T>, t: seq<T>) {
    forall x :: x in s <==> x in t
  }

  /** A set has at most one ascending listing. */
  lemma {:induction false} AscendingUnique<T(!new)>(s: seq<T>, t: seq<T>, less: (T, T) -> bool)
    requires Asymmetric(less) && Ascending(s, less) && Ascending(t, less) && SameElements(s, t)
    ensures s == t
  {
    if s == [] {
      assert forall k :: 0 <= k < |t| ==> t[k] in t;
    } else {
      assert s[0] in t && (t != [] ==> t[0] in s);
      assert s[0] == t[0];
      forall x ensures x in s[1..] <==> x in t[1..] {
        TailElements(s, x, less);
        TailElements(t, x, less);
      }
      AscendingUnique(s[1..], t[1..], less);
      assert s == [s[0]] + s[1..] && t == [t[0]] + t[1..];
    }
  }

  lemma TailElements<T(!new)>(s: seq<T>, x: T, less: (T, T) -> bool)
    requires Asymmetric(less) && Ascending(s, less) && s != []
    ensures x in s[1..] <==> x in s && x != s[0]
  {
    if x in s && x != s[0] {
      var k :| 0 <= k < |s| && s[k] == x;
      assert s[1..][k - 1] == x;
    }
    if x in s[1..] {
      var k :| 0 <= k < |s| - 1 && s[1..][k] == x;
      assert s[k + 1] == x && less(s[0], s[k + 1]);
    }
  }

  // -------------------------------------------------------------- stable sort

  /** One insertion: `x` moves left past every element it precedes. */
  function Insert<T>(s: seq<T>, x: T, less: (T, T) -> bool): seq<T> {
    if s == [] then [x]
    else
      var n := |s| - 1;
      if less(x, s[n]) then Insert(s[..n], x, less) + [s[n]] else s + [x]
  }

  function StableSort<T>(s: seq<T>, less: (T, T) -> bool): seq<T> {
    if s == [] then [] else Insert(StableSort(s[..|s| - 1], less), s[|s| - 1], less)
  }

  /** How many elements do not come after `x`. */
  function CountNotAfter<T>(s: seq<T>, x: T, less: (T, T) -> bool): nat {
    if s == [] then 0
    else CountNotAfter(s[..|s| - 1], x, less) + if less(x, s[|s| - 1]) then 0 else 1
  }

  /** In a sorted sequence the elements not after `x` come first, and `x` goes right behind them. */
  lemma {:induction false} InsertPosition<T(!new)>(s: seq<T>, x: T, less: (T, T) -> bool)
    requires WeakOrder(less) && Sorted(s, less)
    ensures var p := CountNotAfter(s, x, less);
            && p <= |s| && Insert(s, x, less) == s[..p] + [x] + s[p..]
            && (forall i :: 0 <= i < p ==> !less(x, s[i]))
            && (forall i :: p <= i < |s| ==> less(x, s[i]))
  {
    if s != [] {
      var n := |s| - 1;
      var p := CountNotAfter(s[..n], x, less);
      InsertPosition(s[..n], x, less);
      if less(x, s[n]) {
        assert s[..n][..p] == s[..p] && s[..n][p..] + [s[n]] == s[p..];
      } else {
        assert forall i :: 0 <= i < n ==> !less(s[n], s[i]);
        assert s[..n + 1] == s;
      }
    }
  }

  lemma InsertKeepsSorted<T(!new)>(s: seq<T>, x: T, less: (T, T) -> bool)
    requires WeakOrder(less) && Sorted(s, less)
    ensures Sorted(Insert(s, x, less), less)
    ensures multiset(Insert(s, x, less)) == multiset(s) + multiset{x}
  {
    hide Insert, CountNotAfter;
    var p := CountNotAfter(s, x, less);
    InsertPosition(s, x, less);
    assert s == s[..p] + s[p..];
  }

  lemma {:induction false} StableSortSorts<T(!new)>(s: seq<T>, less: (T, T) -> bool)
    requires WeakOrder(less)
    ensures Sorted(StableSort(s, less), less)
    ensures multiset(StableSort(s, less)) == multiset(s)
  {
    if s != [] {
      var n := |s| - 1;
      StableSortSorts(s[..n], less);
      InsertKeepsSorted(StableSort(s[..n], less), s[n], less);
      assert s == s[..n] + [s[n]];
    }
  }

  lemma SortedElements<T(!new)>(s: seq<T>, less: (T, T) -> bool)
    requires WeakOrder(less)
    ensures |StableSort(s, less)| == |s| && SameElements(s, StableSort(s, less))
  {
    StableSortSorts(s, less);
    assert |multiset(StableSort(s, less))| == |multiset(s)|;
    assert forall x :: x in s <==> x in multiset(s);
    assert forall x :: x in StableSort(s, less) <==> x in multiset(StableSort(s, less));
  }

  lemma {:induction false} CountAppend<T>(s: seq<T>, t: seq<T>, x: T, less: (T, T) -> bool)
    ensures CountNotAfter(s + t, x, less) == CountNotAfter(s, x, less) + CountNotAfter(t, x, less)
  {
    if t == [] {
      assert s + t == s;
    } else {
      var n := |t| - 1;
      CountAppend(s, t[..n], x, less);
      assert (s + t)[..|s + t| - 1] == s + t[..n];
    }
  }

  lemma CountInsert<T(!new)>(s: seq<T>, y: T, x: T, less: (T, T) -> bool)
    requires WeakOrder(less) && Sorted(s, less)
    ensures CountNotAfter(Insert(s, y, less), x, less) == CountNotAfter(s + [y], x, less)
  {
    hide Insert, CountNotAfter;
    var p := CountNotAfter(s, y, less);
    InsertPosition(s, y, less);
    CountAppend(s[..p] + [y], s[p..], x, less);
    CountAppend(s[..p], [y], x, less);
    CountAppend(s[..p], s[p..], x, less);
    CountAppend(s, [y], x, less);
    assert s == s[..p] + s[p..];
  }

  lemma {:induction false} CountSorted<T(!new)>(s: seq<T>, x: T, less: (T, T) -> bool)
    requires WeakOrder(less)
    ensures CountNotAfter(StableSort(s, less), x, less) == CountNotAfter(s, x, less)
  {
    hide Insert, CountNotAfter;
    if s != [] {
      var n := |s| - 1;
      var t := StableSort(s[..n], less);
      CountSorted(s[..n], x, less);
      StableSortSorts(s[..n], less);
      CountInsert(t, s[n], x, less);
      CountAppend(t, [s[n]], x, less);
      CountAppend(s[..n], [s[n]], x, less);
      assert s == s[..n] + [s[n]];
    }
  }

  /** One more element with at least `n` elements not after it does not touch the first `n` places. */
  lemma LateElementKeepsFront<T(!new)>(s: seq<T>, x: T, n: nat, less: (T, T) -> bool)
    requires WeakOrder(less) && CountNotAfter(s, x, less) >= n
    ensures n <= |StableSort(s, less)| <= |StableSort(s + [x], less)|
    ensures StableSort(s + [x], less)[..n] == StableSort(s, less)[..n]
  {
    hide Insert, CountNotAfter;
    var t := StableSort(s, less);
    assert (s + [x])[..|s + [x]| - 1] == s;
    StableSortSorts(s, less);
    CountSorted(s, x, less);
    InsertPosition(t, x, less);
  }

  lemma InsertKeepsTies<T(!new)>(t: seq<T>, x: T, less: (T, T) -> bool, tie: (T, T) -> bool)
    requires WeakOrder(less) && Sorted(t, less) && AscendingBoth(t, less, tie)
    requires forall y <- t :: tie(y, x)
    ensures AscendingBoth(Insert(t, x, less), less, tie)
  {
    hide Insert, CountNotAfter;
    InsertPosition(t, x, less);
    assert forall i :: 0 <= i < |t| ==> t[i] in t;
  }

  /** `tie` decides between elements that `less` leaves equal. */
  ghost predicate Refined<T>(x: T, y: T, less: (T, T) -> bool, tie: (T, T) -> bool) {
    less(x, y) || (!less(y, x) && tie(x, y))
  }

  ghost predicate AscendingBoth<T>(s: seq<T>, less: (T, T) -> bool, tie: (T, T) -> bool) {
    forall i, j :: 0 <= i < j < |s| ==> Refined(s[i], s[j], less, tie)
  }

  /** Stability: elements that compare equal stay in the order in which they came. */
  lemma {:induction false} StableSortKeepsTies<T(!new)>(s: seq<T>, less: (T, T) -> bool, tie: (T, T) -> bool)
    requires WeakOrder(less) && Ascending(s, tie)
    ensures AscendingBoth(StableSort(s, less), less, tie)
  {
    if s != [] {
      var n := |s| - 1;
      var t := StableSort(s[..n], less);
      StableSortKeepsTies(s[..n], less, tie);
      StableSortSorts(s[..n], less);
      SortedElements(s[..n], less);
      InsertKeepsTies(t, s[n], less, tie);
    }
  }
}
