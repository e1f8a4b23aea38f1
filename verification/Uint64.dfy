/** The 64-bit integer arithmetic of the ledger, with overflow and truncation written out. */
module Uint64 {
  import opened Options

  const LIMIT: nat := 0x1_0000_0000_0000_0000

  type u64 = n: nat | n < LIMIT

  /** AddUint64: the sum, or None on overflow. */
  function Add(a: u64, b: u64): (sum: Option<u64>)
  {
    if a + b < LIMIT then Some(a + b) else None
  }

  /** SafeMulDiv: the exact quotient, cut to 64 bits when it does not fit. */
  function MulDiv(a: nat, b: nat, c: nat): (q: u64)
  {
    if c == 0 then 0 else (a * b / c) % LIMIT
  }

  function SumOf(amounts: seq<nat>): (sum: nat)
  {
    if amounts == [] then 0 else SumOf(amounts[..|amounts| - 1]) + amounts[|amounts| - 1]
  }

  /** Division rounding down. */
  function Floor(n: nat, d: nat): (q: nat)
    requires d > 0
  {
    n / d
  }

  lemma FloorFits(n: nat, d: nat)
    requires d > 0
    ensures Floor(n, d) <= n && d * Floor(n, d) <= n
  {
    DivFacts(n, d);
    AtMost(Floor(n, d), d, n);
  }

  lemma AtMost(q: nat, d: nat, n: nat)
    requires d > 0 && q * d <= n
    ensures q <= n && d * q <= n
  {
    MulMonotone(1, d, q);
  }

  lemma DivFacts(n: nat, d: nat)
    requires d > 0
    ensures n / d * d <= n < (n / d + 1) * d
  {
    assert n == n / d * d + n % d;
  }

  /** Rounding and truncation only ever lose: the quotient times the divisor stays below the product. */
  lemma MulDivBound(a: nat, b: nat, c: nat)
    ensures MulDiv(a, b, c) * c <= a * b
  {
    if c > 0 {
      var q := a * b / c;
      DivFacts(a * b, c);
      assert q % LIMIT <= q;
      MulMonotone(q % LIMIT, q, c);
    } else {
      assert a * b >= 0;
    }
  }

  /** The rounded quotient is the largest number that fits. */
  lemma QuotientIsLargest(n: nat, d: nat, q: nat)
    requires d > 0
    ensures q <= n / d <==> q * d <= n
  {
    DivFacts(n, d);
    if q <= n / d {
      MulMonotone(q, n / d, d);
    } else {
      MulMonotone(n / d + 1, q, d);
    }
  }

  /** A share of at most the whole is exact: nothing is truncated. */
  lemma MulDivExact(a: u64, b: nat, c: nat)
    requires b <= c && c > 0
    ensures MulDiv(a, b, c) == a * b / c && MulDiv(a, b, c) <= a
  {
    DivFacts(a * b, c);
    PartAtMost(a * b / c, a, b, c);
    SmallStays(a * b / c);
  }

  lemma SmallStays(n: nat)
    requires n < LIMIT
    ensures n % LIMIT == n
  {
  }

  lemma PartAtMost(q: nat, a: nat, b: nat, c: nat)
    requires q * c <= a * b && b <= c && c > 0
    ensures q <= a
  {
    MulMonotone(b, c, a);
    MulCancel(q, a, c);
  }

  /** An amount less a percentage of it, rounded down; nothing is left from 100 percent on. */
  function Reduce(amount: u64, percent: nat): (left: u64)
    ensures left <= amount
  {
    if percent >= 100 || amount == 0 then 0
    else if percent == 0 then amount
    else
      MulDivExact(amount, 100 - percent, 100);
      MulDiv(amount, 100 - percent, 100)
  }

  /** `left` is what is left of an amount without `percent` percent of it, rounded down. */
  predicate IsLeft(left: nat, amount: nat, percent: nat)
  {
    if percent >= 100 then left == 0 else 100 * left <= amount * (100 - percent) < 100 * (left + 1)
  }

  lemma ReduceIsLeft(amount: u64, percent: nat)
    ensures IsLeft(Reduce(amount, percent), amount, percent)
  {
    if 0 < percent < 100 && amount > 0 {
      MulDivExact(amount, 100 - percent, 100);
      DivFacts(amount * (100 - percent), 100);
    }
  }

  lemma MulMonotone(a: nat, b: nat, c: nat)
    requires a <= b
    ensures a * c <= b * c
  {
  }

  lemma MulCancel(a: nat, b: nat, c: nat)
    requires a * c <= b * c && c > 0
    ensures a <= b
  {
  }

  lemma SquareLess(a: nat, b: nat)
    requires a * a < b * b
    ensures a < b
  {
    if a >= b {
      MulMonotone(b, a, a);
      MulMonotone(b, a, b);
      assert false;
    }
  }

  lemma MulCancelStrict(a: nat, b: nat, c: nat)
    requires a * c < b * c
    ensures a < b
  {
    if a >= b {
      MulMonotone(b, a, c);
      assert false;
    }
  }

  /** Two bounded parts make a bounded whole. */
  lemma BoundsAdd(a: nat, b: nat, c: nat, d: nat, e: nat, f: nat)
    requires a * c <= d * e && b * c <= d * f
    ensures (a + b) * c <= d * (e + f)
  {
    assert (a + b) * c == a * c + b * c;
    assert d * (e + f) == d * e + d * f;
  }

  /** Neighbouring squares order their roots. */
  lemma RootsOrdered(a: nat, m: nat, b: nat, n: nat)
    requires a * a <= m <= n < (b + 1) * (b + 1)
    ensures a <= b
  {
    SquareLess(a, b + 1);
  }

  /** The integer square root. */
  function Sqrt(n: nat): (r: nat)
    ensures r * r <= n < (r + 1) * (r + 1)
  {
    if n == 0 then 0
    else
      var r := Sqrt(n - 1);
      if (r + 1) * (r + 1) <= n then r + 1 else r
  }

  /** SqrtProductUint64: the square root of a 128-bit product fits in 64 bits. */
  function SqrtProduct(x: u64, y: u64): (r: u64)
    ensures r * r <= x * y < (r + 1) * (r + 1)
  {
    var r := Sqrt(x * y);
    assert r < LIMIT by {
      MulMonotone(x, LIMIT - 1, y);
      MulMonotone(y, LIMIT - 1, LIMIT - 1);
      assert r * r <= x * y < LIMIT * LIMIT;
      SquareLess(r, LIMIT);
    }
    r
  }

  /** The root of a product grows with a factor. */
  lemma SqrtProductGrows(x: u64, y: u64, x': u64)
    requires x <= x'
    ensures SqrtProduct(x, y) <= SqrtProduct(x', y)
  {
    MulMonotone(x, x', y);
    RootsOrdered(SqrtProduct(x, y), x * y, SqrtProduct(x', y), x' * y);
  }

  lemma SqrtProductPositive(x: u64, y: u64)
    requires x > 0 && y > 0
    ensures SqrtProduct(x, y) > 0
  {
    MulMonotone(1, x, y);
    RootsOrdered(1, 1, SqrtProduct(x, y), x * y);
  }
}
