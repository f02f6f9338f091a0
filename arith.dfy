/** Facts about integer multiplication, division and remainder used by the index arithmetic. */
module Arith {
  /** Multiplying by a non-negative number preserves order. */
  lemma {:induction false} MulLe(a: int, b: int, c: nat)
    requires a <= b
    ensures a * c <= b * c
  {
    if c > 0 {
      MulLe(a, b, c - 1);
      assert a * c == a * (c - 1) + a && b * c == b * (c - 1) + b;
    }
  }

  /** Quotient and remainder by a positive divisor are unique. */
  lemma DivModUnique(n: int, d: int, q: int, r: int)
    requires d > 0 && 0 <= r < d && n == q * d + r
    ensures n / d == q && n % d == r
  {
    var q', r' := n / d, n % d;
    assert n == q' * d + r' && 0 <= r' < d;
    if q' < q {
      MulLe(q' + 1, q, d);
    } else if q < q' {
      MulLe(q + 1, q', d);
    }
  }

  /** Adding whole rows does not change the column. */
  lemma ModAddRows(row: int, cols: int, a: int)
    requires cols > 0
    ensures (row * cols + a) % cols == a % cols
  {
    var q, r := a / cols, a % cols;
    assert a == q * cols + r;
    assert row * cols + a == (row + q) * cols + r;
    DivModUnique(row * cols + a, cols, row + q, r);
  }

  /** Taking the remainder before or after adding one gives the same column. */
  lemma ModSucc(a: int, cols: int)
    requires cols > 0
    ensures (a % cols + 1) % cols == (a + 1) % cols
  {
    var q, r := a / cols, a % cols;
    assert a + 1 == q * cols + (r + 1);
    if r + 1 < cols {
      DivModUnique(a + 1, cols, q, r + 1);
      DivModUnique(r + 1, cols, 0, r + 1);
    } else {
      assert a + 1 == (q + 1) * cols + 0;
      DivModUnique(a + 1, cols, q + 1, 0);
      DivModUnique(r + 1, cols, 1, 0);
    }
  }

  /** Row `row` of a `rows`-row sheet ends at or before the sheet's last index. */
  lemma RowEndWithin(row: int, rows: int, cols: nat)
    requires 0 <= row < rows
    ensures 0 <= row * cols && row * cols + cols <= rows * cols
  {
    MulLe(0, row, cols);
    MulLe(row + 1, rows, cols);
    assert (row + 1) * cols == row * cols + cols;
  }
}
