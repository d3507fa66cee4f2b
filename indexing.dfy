/**
 * Addressing of flat buffers of fixed-size records: element `r` of record `q`,
 * in a buffer whose records have `n` elements, sits at offset `q*n + r`.
 * Both tools use this rule: the combine tool for the channels of a pixel,
 * the merge tool twice, for the pixels of a row and for the layers of a pixel.
 */
module Indexing {

  /** Offset of element `r` of record `q` when every record holds `n` elements. */
  function Flat(q: int, r: int, n: int): int
  {
    q * n + r
  }

  /** A quotient and remainder pair is determined by the number it describes. */
  lemma {:induction false} DivModUnique(k: int, q: int, r: int, n: int)
    requires 0 < n && 0 <= r < n && k == q * n + r
    ensures k / n == q && k % n == r
  {
    var q', r' := k / n, k % n;
    if q' < q {
      MulAtLeast(q - q', n);
      assert false;
    } else if q < q' {
      MulAtLeast(q' - q, n);
      assert false;
    }
  }

  lemma {:induction false} MulAtLeast(a: int, n: int)
    requires 1 <= a && 0 < n
    ensures a * n >= n
  {
  }

  /** Records below `m` with elements below `n` stay inside a buffer of `m*n` elements. */
  lemma {:induction false} FlatBounds(q: int, r: int, n: int, m: int)
    requires 0 <= q < m && 0 <= r < n
    ensures 0 <= Flat(q, r, n) < m * n
  {
    assert q * n <= (m - 1) * n by {
      assert (m - 1 - q) * n >= 0;
    }
    assert (m - 1) * n + n == m * n;
  }

  /** The record and the element can be read back from the offset. */
  lemma FlatInverse(q: int, r: int, n: int)
    requires 0 <= r < n
    ensures Flat(q, r, n) / n == q && Flat(q, r, n) % n == r
  {
    DivModUnique(Flat(q, r, n), q, r, n);
  }

  /** Distinct (record, element) pairs have distinct offsets. */
  lemma FlatInjective(q: int, r: int, q': int, r': int, n: int)
    requires 0 <= r < n && 0 <= r' < n
    requires Flat(q, r, n) == Flat(q', r', n)
    ensures q == q' && r == r'
  {
    FlatInverse(q, r, n);
    FlatInverse(q', r', n);
  }

  /** Every offset of a buffer of `m*n` elements is the offset of some record below `m`. */
  lemma FlatCovers(k: int, n: nat, m: nat)
    requires 0 <= k < m * n
    ensures 0 < n && 0 <= k / n < m && 0 <= k % n < n && k == Flat(k / n, k % n, n)
  {
  }

  /** One past the last element of record `q` is the first element of record `q + 1`. */
  lemma FlatStep(q: int, n: int)
    ensures Flat(q, n, n) == Flat(q + 1, 0, n)
  {
  }
}
