/**
 * `<` and `>` on optionals of a `Comparable` type: two present values are
 * compared by the type's own operators, `nil` sits below every value, and
 * two `nil`s are deliberately not symmetric (`nil > nil` holds, `nil < nil`
 * does not).
 */
module Comparisons {
  import opened Primitives

  /** Optional `<`, over the wrapped type's `<` given as `lt`. */
  function Less<T>(lhs: Option<T>, rhs: Option<T>, lt: (T, T) -> bool): bool {
    match (lhs, rhs)
    case (Some(l), Some(r)) => lt(l, r)
    case (None, Some(_)) => true
    case (Some(_), None) => false
    case (None, None) => false
  }

  /** Optional `>`, over the wrapped type's `>` given as `gt`. */
  function Greater<T>(lhs: Option<T>, rhs: Option<T>, gt: (T, T) -> bool): bool {
    match (lhs, rhs)
    case (Some(l), Some(r)) => gt(l, r)
    case (None, Some(_)) => false
    case (Some(_), None) => true
    case (None, None) => true
  }

  /** The four cases of each operator, as the documentation lists them. */
  lemma OperatorCases<T>(a: T, b: T, lt: (T, T) -> bool, gt: (T, T) -> bool)
    ensures Less(Some(a), Some(b), lt) == lt(a, b) && Greater(Some(a), Some(b), gt) == gt(a, b)
    ensures Less(None, Some(b), lt) && !Less(Some(a), None, lt) && !Less(None, None, lt)
    ensures !Greater(None, Some(b), gt) && Greater(Some(a), None, gt) && Greater(None, None, gt)
  {
  }

  /**
   * For a type whose `>` is the converse of its `<` (the `Comparable`
   * contract), optional `>` is the converse of optional `<` on every pair
   * except two `nil`s, where `nil > nil` holds but `nil < nil` does not.
   */
  lemma GreaterIsConverseOfLess<T>(lhs: Option<T>, rhs: Option<T>, lt: (T, T) -> bool, gt: (T, T) -> bool)
    requires forall a, b :: gt(a, b) == lt(b, a)
    ensures lhs.Some? || rhs.Some? ==> Greater(lhs, rhs, gt) == Less(rhs, lhs, lt)
    ensures lhs.None? && rhs.None? ==> Greater(lhs, rhs, gt) && !Less(rhs, lhs, lt)
  {
  }

  /**
   * Optional `<` over a strict order is a strict order: irreflexive (even
   * on `nil`) and transitive, with `nil` below every present value.
   */
  lemma LessIsStrictOrder<T>(x: Option<T>, y: Option<T>, z: Option<T>, lt: (T, T) -> bool)
    requires forall a :: !lt(a, a)
    requires forall a, b, c :: lt(a, b) && lt(b, c) ==> lt(a, c)
    ensures !Less(x, x, lt)
    ensures Less(x, y, lt) && Less(y, z, lt) ==> Less(x, z, lt)
    ensures x.None? && y.Some? ==> Less(x, y, lt)
  {
  }
}
