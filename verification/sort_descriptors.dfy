/** Sort descriptors: a key-path comparator and the lexicographic combination
    of several descriptors into one "are in increasing order" predicate. */
module SortDescriptors {
  import opened Orders
  import opened StableSort

  /** Foundation's `ComparisonResult`. */
  datatype ComparisonResult = OrderedAscending | OrderedSame | OrderedDescending

  datatype SortOrder = Ascending | Descending

  datatype SortDescriptor<!V> = SortDescriptor(comparator: (V, V) -> ComparisonResult)

  /** `SortDescriptor.keyPath`: compares the values' keys with the key type's `<`. */
  function KeyPath<V, T(==)>(key: V -> T, less: (T, T) -> bool): SortDescriptor<V> {
    SortDescriptor((a: V, b: V) =>
      if key(a) == key(b) then OrderedSame
      else if less(key(a), key(b)) then OrderedAscending
      else OrderedDescending)
  }

  /** With a `Comparable` key, the key-path comparator says "same" exactly for
      equal keys, "ascending" exactly when a's key is below b's, and
      "descending" exactly when it is above. */
  lemma KeyPathCompares<V, T(!new)>(key: V -> T, less: (T, T) -> bool, a: V, b: V)
    requires StrictTotalOrder(less)
    ensures KeyPath(key, less).comparator(a, b) == OrderedSame <==> key(a) == key(b)
    ensures KeyPath(key, less).comparator(a, b) == OrderedAscending <==> less(key(a), key(b))
    ensures KeyPath(key, less).comparator(a, b) == OrderedDescending <==> less(key(b), key(a))
  {
  }

  /** The closure that `sorted(using:order:)` hands to `sorted(by:)`: the first
      descriptor that does not answer `orderedSame` decides. */
  function AreInIncreasingOrder<V>(descriptors: seq<SortDescriptor<V>>, order: SortOrder, a: V, b: V): bool {
    if |descriptors| == 0 then false
    else match descriptors[0].comparator(a, b)
      case OrderedSame => AreInIncreasingOrder(descriptors[1..], order, a, b)
      case OrderedAscending => order == Ascending
      case OrderedDescending => order == Descending
  }

  /** The predicate is decided by the first descriptor that does not tie:
      true exactly when its answer matches the requested order. */
  lemma {:induction false} FirstNonSameDecides<V>(descriptors: seq<SortDescriptor<V>>, order: SortOrder, a: V, b: V, k: nat)
    requires k < |descriptors|
    requires forall i :: 0 <= i < k ==> descriptors[i].comparator(a, b) == OrderedSame
    requires descriptors[k].comparator(a, b) != OrderedSame
    ensures AreInIncreasingOrder(descriptors, order, a, b)
        <==> (descriptors[k].comparator(a, b) == OrderedAscending <==> order == Ascending)
  {
    if k > 0 {
      FirstNonSameDecides(descriptors[1..], order, a, b, k - 1);
    }
  }

  /** When every descriptor ties, the predicate is false; in particular it is
      irreflexive for descriptors that say "same" on equal values. */
  lemma {:induction false} AllSameIsFalse<V>(descriptors: seq<SortDescriptor<V>>, order: SortOrder, a: V, b: V)
    requires forall i :: 0 <= i < |descriptors| ==> descriptors[i].comparator(a, b) == OrderedSame
    ensures !AreInIncreasingOrder(descriptors, order, a, b)
  {
    if |descriptors| > 0 {
      AllSameIsFalse(descriptors[1..], order, a, b);
    }
  }

  function Precedes<V>(descriptors: seq<SortDescriptor<V>>, order: SortOrder): (V, V) -> bool {
    (a: V, b: V) => AreInIncreasingOrder(descriptors, order, a, b)
  }

  /** `Sequence.sorted(using:order:)`; `sortedAscending(using:)` and
      `sortedDescending(using:)` pass `Ascending` and `Descending`. */
  function SortedUsing<V>(s: seq<V>, descriptors: seq<SortDescriptor<V>>, order: SortOrder): (r: seq<V>)
    ensures multiset(r) == multiset(s)
  {
    SortBy(s, Precedes(descriptors, order))
  }

  /** One key-path descriptor: ascending is "key below", descending "key above". */
  lemma SingleKeyPath<V, T(!new)>(key: V -> T, less: (T, T) -> bool, order: SortOrder, a: V, b: V)
    requires StrictTotalOrder(less)
    ensures AreInIncreasingOrder([KeyPath(key, less)], order, a, b)
        == if order == Ascending then less(key(a), key(b)) else less(key(b), key(a))
  {
    var d := [KeyPath(key, less)];
    KeyPathCompares(key, less, a, b);
    assert d[1..] == [];
  }

  /** A single key-path descriptor gives `sorted(by:)` a strict weak order. */
  lemma SingleKeyPathIsStrictWeak<V(!new), T(!new)>(key: V -> T, less: (T, T) -> bool, order: SortOrder)
    requires StrictTotalOrder(less)
    ensures StrictWeakOrder(Precedes([KeyPath(key, less)], order))
  {
    var p := Precedes([KeyPath(key, less)], order);
    forall a, b ensures p(a, b) == if order == Ascending then less(key(a), key(b)) else less(key(b), key(a)) {
      SingleKeyPath(key, less, order, a, b);
    }
    forall a, b, c | p(a, c) ensures p(a, b) || p(b, c) {
      if key(a) != key(b) && key(b) != key(c) {
        assert less(key(a), key(b)) || less(key(b), key(a));
      }
    }
  }

  /** Sorting a list already ordered by `tie` with one key-path descriptor:
      keys follow the requested order, and equal keys keep `tie` order. */
  lemma SortedUsingKeyPath<V(!new), T(!new)>(s: seq<V>, key: V -> T, less: (T, T) -> bool, order: SortOrder, tie: (V, V) -> bool)
    requires StrictTotalOrder(less)
    requires Sorted(s, tie)
    ensures var r := SortedUsing(s, [KeyPath(key, less)], order);
      forall i, j :: 0 <= i < j < |r| ==>
        (if order == Ascending then less(key(r[i]), key(r[j])) else less(key(r[j]), key(r[i])))
        || (key(r[i]) == key(r[j]) && !tie(r[j], r[i]))
  {
    var p := Precedes([KeyPath(key, less)], order);
    SingleKeyPathIsStrictWeak(key, less, order);
    SortByIsStable(s, p, tie);
    var r := SortBy(s, p);
    forall i, j | 0 <= i < j < |r|
      ensures (if order == Ascending then less(key(r[i]), key(r[j])) else less(key(r[j]), key(r[i])))
        || (key(r[i]) == key(r[j]) && !tie(r[j], r[i]))
    {
      assert Before(r[i], r[j], p, tie);
      SingleKeyPath(key, less, order, r[i], r[j]);
      SingleKeyPath(key, less, order, r[j], r[i]);
    }
  }
}
