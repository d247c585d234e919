/** Small facts about Euclidean division and ordering used by the index proofs. */
module Arith {

  /** Quotient and remainder are unique: any decomposition `a == q*n + r`
      with `0 <= r < n` is the one that `/` and `%` compute. */
  lemma DivModUnique(a: int, n: int, q: int, r: int)
    requires n > 0 && 0 <= r < n && a == q * n + r
    ensures a / n == q && a % n == r
  {
    var q0, r0 := a / n, a % n;
    assert a == q0 * n + r0;
    assert (q0 - q) * n == r - r0;
    if q0 > q {
      MulAtLeast(q0 - q, n);
    } else if q0 < q {
      MulAtLeast(q - q0, n);
    }
  }

  /** A positive multiple of `n` is at least `n`. */
  lemma MulAtLeast(k: int, n: int)
    requires k >= 1 && n > 0
    ensures k * n >= n
  {
  }

  /** Row-major indexing stays below the product: `i*n + j < len*n`. */
  lemma RowMajorBound(i: int, j: int, n: int, len: int)
    requires 0 <= i < len && 0 <= j < n
    ensures 0 <= i * n + j < len * n
  {
    MulNonNegative(i, n);
    MulNonNegative(len - i - 1, n);
    Distribute(i, len - i - 1, n);
  }

  lemma MulNonNegative(a: int, b: int)
    requires a >= 0 && b >= 0
    ensures a * b >= 0
  {
  }

  lemma Distribute(a: int, b: int, n: int)
    ensures (a + 1 + b) * n == a * n + n + b * n
  {
  }

  /** An index below `len*n` has its row below `len`. */
  lemma RowBelow(k: int, n: int, len: int)
    requires n > 0 && 0 <= k < len * n
    ensures 0 <= k / n < len
  {
  }
}
