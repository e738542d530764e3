/**
 * Decimal digits, and the two facts about multiplication that the
 * arithmetic of the usage figures and of the relative times needs.
 */
module Numbers {

  /** An ASCII decimal digit: `\d` of a regular expression, or a digit JavaScript writes. */
  predicate IsDigit(c: char) {
    '0' <= c <= '9'
  }

  /** Multiplying by one more adds one more copy. */
  lemma MulSucc(n: nat, m: int)
    ensures (n + 1) * m == m + n * m
  {
  }

  /** Multiplying by a natural number keeps the order. */
  lemma MulMonotone(n: nat, a: int, b: int)
    ensures a <= b ==> n * a <= n * b
  {
  }
}
