/** Shared types, machine-integer bounds and the facts about floor division and finite sets of
    numbers that the other modules rely on. */
module Arithmetic {

  datatype Option<+T> = None | Some(value: T)
  datatype Result<+T, +E> = Ok(value: T) | Err(error: E)

  type AccountId = nat

  predicate Distinct<T(==)>(s: seq<T>) {
    forall i, j :: 0 <= i < j < |s| ==> s[i] != s[j]
  }

  const U32_MAX: nat := 0xFFFF_FFFF
  const U64_MAX: nat := 0xFFFF_FFFF_FFFF_FFFF
  const U128_MAX: nat := 0xFFFF_FFFF_FFFF_FFFF_FFFF_FFFF_FFFF_FFFF
  /** `usize` on the 64-bit targets the node is built for. */
  const USIZE_MAX: nat := U64_MAX

  type u32 = x: nat | x <= U32_MAX
  type usize = x: nat | x <= USIZE_MAX
  type u128 = x: nat | x <= U128_MAX

  function Min(a: int, b: int): int {
    if a <= b then a else b
  }

  function Max(a: int, b: int): int {
    if a <= b then b else a
  }

  /** Truncated subtraction, Rust's `saturating_sub`. */
  function Monus(a: nat, b: nat): nat {
    if a <= b then 0 else a - b
  }

  /** Addition and multiplication that stop at a type's largest value. */
  function SatAdd(a: nat, b: nat, limit: nat): nat {
    Min(a + b, limit)
  }

  function SatMul(a: nat, b: nat, limit: nat): (r: nat)
    ensures r <= limit
  {
    MulNonNegative(a, b);
    Min(a * b, limit)
  }

  function CeilDiv(a: nat, m: nat): nat
    requires m > 0
  {
    (a + m - 1) / m
  }

  lemma MulNonNegative(a: int, b: int)
    requires a >= 0 && b >= 0
    ensures a * b >= 0
  {}

  lemma MulMonotone(a: int, b: int, c: int)
    requires a <= b && c >= 0
    ensures a * c <= b * c
    ensures c * a <= c * b
  {
    assert (b - a) * c >= 0;
  }

  lemma MulCancel(a: int, b: int, c: int)
    requires a * c <= b * c && c > 0
    ensures a <= b
  {
    assert (b + 1) * c == b * c + c;
    if a > b {
      MulMonotone(b + 1, a, c);
    }
  }

  lemma MulRotate(a: int, b: int, c: int)
    ensures a * b * c == c * b * a
  {}

  lemma MulAssociates(a: int, b: int, c: int)
    ensures a * b * c == a * (b * c)
  {}

  lemma MulExchange(a: int, b: int, c: int)
    ensures a * b * c == a * c * b
  {}

  /** The defining bounds of floor division. */
  lemma FloorBounds(a: int, m: int)
    requires m > 0
    ensures m * (a / m) <= a < m * (a / m) + m
  {}

  lemma FloorAtLeast(a: int, m: int, q: int)
    requires m > 0
    ensures q <= a / m <==> m * q <= a
  {
    FloorBounds(a, m);
    assert m * (a / m + 1) == m * (a / m) + m;
    if m * q <= a && q > a / m {
      MulMonotone(a / m + 1, q, m);
    }
    if q <= a / m {
      MulMonotone(q, a / m, m);
    }
  }

  lemma FloorMonotone(a: int, b: int, m: int)
    requires m > 0 && a <= b
    ensures a / m <= b / m
  {
    FloorBounds(a, m);
    FloorAtLeast(b, m, a / m);
  }

  /** Rounding down twice never gains over rounding down once. */
  lemma FloorSum(a: int, b: int, m: int)
    requires m > 0
    ensures a / m + b / m <= (a + b) / m
  {
    FloorBounds(a, m);
    FloorBounds(b, m);
    assert m * (a / m + b / m) == m * (a / m) + m * (b / m);
    FloorAtLeast(a + b, m, a / m + b / m);
  }

  lemma FloorAddMultiple(a: int, q: int, m: int)
    requires m > 0
    ensures (a + m * q) / m == a / m + q
  {
    FloorBounds(a, m);
    assert m * (a / m + q) == m * (a / m) + m * q;
    FloorAtLeast(a + m * q, m, a / m + q);
    assert m * (a / m + q + 1) == m * (a / m) + m * q + m;
    FloorAtLeast(a + m * q, m, a / m + q + 1);
  }

  lemma CeilAtMost(a: nat, m: nat, q: nat)
    requires m > 0
    ensures CeilDiv(a, m) <= q <==> a <= m * q
  {
    FloorAtLeast(a + m - 1, m, q + 1);
    assert m * (q + 1) == m * q + m;
  }

  lemma CeilIsFloorPlus(a: nat, m: nat)
    requires m > 0
    ensures CeilDiv(a, m) == a / m + (if a % m == 0 then 0 else 1)
  {
    var q, r := a / m, a % m;
    assert a == m * q + r;
    CeilAtMost(a, m, q);
    CeilAtMost(a, m, q + 1);
    assert m * (q + 1) == m * q + m;
    if r != 0 {
      assert !(CeilDiv(a, m) <= q);
    } else if q > 0 {
      CeilAtMost(a, m, q - 1);
      assert m * (q - 1) == m * q - m;
    }
  }

  /** Greatest common divisor, by Euclid's algorithm. */
  function Gcd(a: nat, b: nat): (g: nat)
    requires a > 0 || b > 0
    ensures g > 0
    decreases b
  {
    if b == 0 then a else Gcd(b, a % b)
  }

  lemma FactorSum(g: int, u: int, v: int, q: int)
    ensures (g * u) * q + g * v == g * (u * q + v)
  {
    assert (g * u) * q == g * (u * q);
  }

  lemma {:induction false} GcdDivides(a: nat, b: nat) returns (x: nat, y: nat)
    requires a > 0 || b > 0
    ensures a == Gcd(a, b) * x && b == Gcd(a, b) * y
    decreases b
  {
    if b == 0 {
      x, y := 1, 0;
    } else {
      var u, v := GcdDivides(b, a % b);
      MulNonNegative(u, a / b);
      FactorSum(Gcd(a, b), u, v, a / b);
      x, y := u * (a / b) + v, u;
    }
  }

  lemma CombineSum(u: int, v: int, a: int, b: int, q: int)
    ensures u * b + v * (a - b * q) == v * a + (u - v * q) * b
  {
    assert v * (a - b * q) == v * a - v * (b * q);
    assert (u - v * q) * b == u * b - (v * q) * b;
    assert v * (b * q) == (v * q) * b;
  }

  lemma {:induction false} Bezout(a: nat, b: nat) returns (s: int, t: int)
    requires a > 0 || b > 0
    ensures s * a + t * b == Gcd(a, b)
    decreases b
  {
    if b == 0 {
      s, t := 1, 0;
    } else {
      var u, v := Bezout(b, a % b);
      CombineSum(u, v, a, b, a / b);
      s, t := v, u - v * (a / b);
    }
  }

  lemma RemainderIs(a: int, m: int, q: int, r: int)
    requires m > 0 && a == m * q + r && 0 <= r < m
    ensures a / m == q && a % m == r
  {
    FloorAddMultiple(r, q, m);
  }

  lemma NextMultipleBelow(g: int, d: int, x: int)
    requires g > 0 && g * d < g * x
    ensures g * d <= g * x - g
  {
    assert g * (x - 1) == g * x - g;
    if d < x {
      MulMonotone(d, x - 1, g);
    } else {
      MulMonotone(x, d, g);
    }
  }

  lemma FactorRemainder(g: int, x: int, y: int, k: int, q: int)
    ensures k * (g * y) - (g * x) * q == g * (k * y - x * q)
  {
    assert k * (g * y) == g * (k * y);
    assert (g * x) * q == g * (x * q);
  }

  lemma RemainderGap(a: int, n: int, g: int, x: int, d: int)
    requires n > 0 && g > 0 && n == g * x && a % n == g * d
    ensures a % n <= n - g
  {
    NextMultipleBelow(g, d, x);
  }

  lemma FactoredRemainder(n: nat, m: nat, k: nat, g: nat, x: nat, y: nat)
    requires n > 0 && g > 0 && n == g * x && m == g * y
    ensures k * m % n <= n - g
  {
    var a := k * m;
    var q := a / n;
    assert a % n == a - n * q;
    FactorRemainder(g, x, y, k, q);
    RemainderGap(a, n, g, x, k * y - x * q);
  }

  /** A multiple of `m` leaves a remainder of at most `n` less the common divisor. */
  lemma MultipleRemainder(n: nat, m: nat, k: nat)
    requires n > 0
    ensures k * m % n <= n - Gcd(n, m)
  {
    var x, y := GcdDivides(n, m);
    FactoredRemainder(n, m, k, Gcd(n, m), x, y);
  }

  lemma CombinationRemainder(n: nat, m: nat, g: nat, s: int, t: int) returns (k: nat)
    requires 0 < g <= n && s * n + t * m == g
    ensures k < n && k * m % n == n - g && (k == 0 ==> n == g)
  {
    k := (-t) % n;
    var q := (-t) / n;
    assert k * m == (-t - n * q) * m == -(t * m) - (n * q) * m;
    assert (n * q) * m == n * (q * m);
    assert n * (s - q * m - 1) == n * s - n * (q * m) - n;
    RemainderIs(k * m, n, s - q * m - 1, n - g);
  }

  /** And some multiple leaves exactly that. */
  lemma LargestRemainder(n: nat, m: nat) returns (k: nat)
    requires n > 0
    ensures k < n && k * m % n == n - Gcd(n, m) && (k == 0 ==> n == Gcd(n, m))
  {
    var x, y := GcdDivides(n, m);
    MulMonotone(1, x, Gcd(n, m));
    var s, t := Bezout(n, m);
    k := CombinationRemainder(n, m, Gcd(n, m), s, t);
  }

  lemma SubsetSize(a: set<nat>, b: set<nat>)
    requires a <= b
    ensures |a| <= |b|
  {
    assert b == a + (b - a);
  }

  /** A set of numbers within bounds is no larger than the range. */
  lemma {:induction false} BoundedSetSize(a: set<nat>, lo: nat, hi: int)
    requires forall k :: k in a ==> lo <= k <= hi
    requires lo <= hi + 1
    ensures |a| <= hi - lo + 1
    decreases hi - lo
  {
    if lo <= hi {
      BoundedSetSize(a - {hi}, lo, hi - 1);
      assert a <= (a - {hi}) + {hi};
    } else {
      assert a == {};
    }
  }
}
