/** Products and rounded quotients. */
module Arithmetic {

  /** Rounding down a share of the whole. */
  lemma Floor(r: nat, w: nat, total: nat)
    requires total > 0
    ensures 0 <= r * w / total && r * w - total < total * (r * w / total) <= r * w
  {
  }

  lemma Times(total: nat, x: int, y: int)
    requires x <= y
    ensures total * x <= total * y
  {
  }

  lemma DivUp(x: int, y: int, total: nat)
    requires total > 0 && total * x <= total * y
    ensures x <= y
  {
    if x > y {
      Times(total, y + 1, x);
    }
  }

  lemma DivBelow(x: int, n: nat, total: nat)
    requires total > 0 && n > 0 && total * x <= n * (total - 1)
    ensures x < n
  {
    if x >= n {
      Times(total, n, x);
    }
  }

  lemma FloorMonotone(x: int, y: int, total: nat)
    requires total > 0 && x <= y
    ensures x / total <= y / total
  {
    if x / total > y / total {
      Times(total, y / total + 1, x / total);
    }
  }
}
