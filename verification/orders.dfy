/** The ordering laws Swift's `sorted(by:)` asks of its predicate. */
module Orders {

  /** A strict weak ordering: irreflexive, transitive, and "incomparable"
      is transitive too (if a < c then every b is above a or below c). */
  ghost predicate StrictWeakOrder<T(!new)>(less: (T, T) -> bool) {
    && (forall a :: !less(a, a))
    && (forall a, b, c :: less(a, b) && less(b, c) ==> less(a, c))
    && (forall a, b, c :: less(a, c) ==> less(a, b) || less(b, c))
  }

  /** A strict total ordering, the law of Swift's `Comparable` `<`. */
  ghost predicate StrictTotalOrder<T(!new)>(less: (T, T) -> bool) {
    && (forall a :: !less(a, a))
    && (forall a, b, c :: less(a, b) && less(b, c) ==> less(a, c))
    && (forall a, b :: a != b ==> less(a, b) || less(b, a))
  }

  lemma StrictTotalIsStrictWeak<T(!new)>(less: (T, T) -> bool)
    requires StrictTotalOrder(less)
    ensures StrictWeakOrder(less)
  {
    forall a, b, c | less(a, c) ensures less(a, b) || less(b, c) {
      if a != b && !less(a, b) {
        assert less(b, a);
      }
    }
  }
}
