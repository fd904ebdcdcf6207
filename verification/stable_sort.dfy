/** Swift's `sorted(by:)`: a stable sort by a caller-supplied
    "are in increasing order" predicate, modelled as insertion sort. */
module StableSort {
  import opened Orders

  /** Inserts `x` before the first element that does not strictly precede it. */
  function Insert<T>(x: T, s: seq<T>, less: (T, T) -> bool): (r: seq<T>)
    ensures |r| == |s| + 1
    ensures multiset(r) == multiset(s) + multiset{x}
  {
    if |s| == 0 then [x]
    else if less(s[0], x) then
      assert s == [s[0]] + s[1..];
      [s[0]] + Insert(x, s[1..], less)
    else [x] + s
  }

  /** `s.sorted(by: less)`. */
  function SortBy<T>(s: seq<T>, less: (T, T) -> bool): (r: seq<T>)
    ensures |r| == |s|
    ensures multiset(r) == multiset(s)
  {
    if |s| == 0 then []
    else
      assert s == [s[0]] + s[1..];
      Insert(s[0], SortBy(s[1..], less), less)
  }

  /** No later element strictly precedes an earlier one. */
  ghost predicate Sorted<T>(s: seq<T>, less: (T, T) -> bool) {
    forall i, j :: 0 <= i < j < |s| ==> !less(s[j], s[i])
  }

  /** `a` may stand before `b`: `b` does not precede `a`, and when the two tie
      under `less`, `b` does not precede `a` under the older order `tie`. */
  ghost predicate Before<T>(a: T, b: T, less: (T, T) -> bool, tie: (T, T) -> bool) {
    !less(b, a) && (!less(a, b) ==> !tie(b, a))
  }

  /** Sorted by `less`, with ties left in `tie` order. */
  ghost predicate SortedThenBy<T>(s: seq<T>, less: (T, T) -> bool, tie: (T, T) -> bool) {
    forall i, j :: 0 <= i < j < |s| ==> Before(s[i], s[j], less, tie)
  }

  /** Placing `x` in front of `s` keeps the order when `s[0]` does not precede `x`. */
  lemma InsertInFront<T(!new)>(x: T, s: seq<T>, less: (T, T) -> bool, tie: (T, T) -> bool)
    requires StrictWeakOrder(less)
    requires SortedThenBy(s, less, tie)
    requires forall y :: y in s ==> !tie(y, x)
    requires |s| > 0 ==> !less(s[0], x)
    ensures SortedThenBy([x] + s, less, tie)
  {
    var r := [x] + s;
    forall i, j | 0 <= i < j < |r| ensures Before(r[i], r[j], less, tie) {
      if i == 0 {
        var y := s[j - 1];
        assert y in s;
        if j - 1 > 0 {
          assert Before(s[0], y, less, tie);
        }
      } else {
        assert r[i] == s[i - 1] && r[j] == s[j - 1];
      }
    }
  }

  /** Putting `a` in front of a sorted `t` keeps the order when `a` may stand before every element of `t`. */
  lemma PrependBefore<T>(a: T, t: seq<T>, less: (T, T) -> bool, tie: (T, T) -> bool)
    requires SortedThenBy(t, less, tie)
    requires forall y :: y in multiset(t) ==> Before(a, y, less, tie)
    ensures SortedThenBy([a] + t, less, tie)
  {
    var r := [a] + t;
    forall i, j | 0 <= i < j < |r| ensures Before(r[i], r[j], less, tie) {
      if i == 0 {
        assert r[j] == t[j - 1] && t[j - 1] in multiset(t);
      } else {
        assert r[i] == t[i - 1] && r[j] == t[j - 1];
      }
    }
  }

  lemma {:induction false} InsertKeepsOrder<T(!new)>(x: T, s: seq<T>, less: (T, T) -> bool, tie: (T, T) -> bool)
    requires StrictWeakOrder(less)
    requires SortedThenBy(s, less, tie)
    requires forall y :: y in s ==> !tie(y, x)
    ensures SortedThenBy(Insert(x, s, less), less, tie)
  {
    if |s| > 0 && less(s[0], x) {
      var t := Insert(x, s[1..], less);
      InsertKeepsOrder(x, s[1..], less, tie);
      forall y | y in multiset(t) ensures Before(s[0], y, less, tie) {
        if y != x {
          assert y in multiset(s[1..]);
          var k :| 0 <= k < |s[1..]| && s[1..][k] == y;
          assert Before(s[0], s[k + 1], less, tie);
        }
      }
      PrependBefore(s[0], t, less, tie);
    } else {
      InsertInFront(x, s, less, tie);
    }
  }

  /** Stability: sorting a list already ordered by `tie` leaves elements that
      `less` cannot tell apart in `tie` order. */
  lemma {:induction false} SortByIsStable<T(!new)>(s: seq<T>, less: (T, T) -> bool, tie: (T, T) -> bool)
    requires StrictWeakOrder(less)
    requires Sorted(s, tie)
    ensures SortedThenBy(SortBy(s, less), less, tie)
  {
    if |s| > 0 {
      SortByIsStable(s[1..], less, tie);
      var t := SortBy(s[1..], less);
      forall y | y in t ensures !tie(y, s[0]) {
        assert y in multiset(s[1..]);
        var k :| 0 <= k < |s[1..]| && s[1..][k] == y;
        assert s[k + 1] == y;
      }
      InsertKeepsOrder(s[0], t, less, tie);
    }
  }

  /** The result is sorted by `less`. */
  lemma SortByIsSorted<T(!new)>(s: seq<T>, less: (T, T) -> bool)
    requires StrictWeakOrder(less)
    ensures Sorted(SortBy(s, less), less)
  {
    var never := (a: T, b: T) => false;
    SortByIsStable(s, less, never);
  }

  /** Sorting a list that is already sorted leaves it as it is. */
  lemma {:induction false} SortBySortedIsIdentity<T>(s: seq<T>, less: (T, T) -> bool)
    requires Sorted(s, less)
    ensures SortBy(s, less) == s
  {
    if |s| > 0 {
      SortBySortedIsIdentity(s[1..], less);
      assert s == [s[0]] + s[1..];
    }
  }
}
