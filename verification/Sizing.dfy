/** Capacities, and the default IOPS and bandwidth of provisioned v2 shares, with the
    integer widths and the binary floating point of the driver. */
module Sizing {
  import opened Numbers
  import opened Results
  import opened Strings

  const GIB := 0x4000_0000                 // 2^30
  const DEFAULT_QUOTA := 100
  const PREMIUM_MINIMUM := 100
  const V2_MINIMUM := 32

  predicate Contains(s: string, sub: string)
    requires sub != ""
  {
    IndexOf(s, sub) < |s|
  }

  // ---------- capacity ----------

  /** Division and remainder that truncate toward zero. */
  function Quotient(a: int, b: int): int
    requires b > 0
  {
    if a >= 0 then a / b else -(-a / b)
  }

  function Remainder(a: int, b: int): int
    requires b > 0
  {
    a - Quotient(a, b) * b
  }

  /** roundUpSize */
  function RoundUpSize(bytes: int, unit: int): int
    requires unit > 0
  {
    Quotient(bytes, unit) + if Remainder(bytes, unit) > 0 then 1 else 0
  }

  predicate Premium(sku: string) {
    "premium" <= ToLower(sku)
  }

  predicate V2(sku: string) {
    Contains(ToLower(sku), "v2")
  }

  /** fileShareSize in CreateVolume: the request in GiB, or the default, raised to the
      minimum of the kind of share. */
  method ShareSize(bytes: int, sku: string) returns (size: int)
    ensures bytes > 0 ==> IsLeastSize(size, bytes, sku)
    ensures -GIB < bytes <= 0 ==> size == 100
    ensures bytes <= -GIB ==> size == if Minimum(sku) == 1 then -(-bytes / GIB) else Minimum(sku)
  {
    RoundsUp(bytes, GIB);
    size := RoundUpSize(bytes, GIB);
    if size == 0 {
      size := DEFAULT_QUOTA;
    }
    if Premium(sku) {
      if !V2(sku) {
        if size < PREMIUM_MINIMUM {
          size := PREMIUM_MINIMUM;
        }
      }
    }
    if V2(sku) {
      if size < V2_MINIMUM {
        size := V2_MINIMUM;
      }
    }
  }

  function Minimum(sku: string): int {
    if V2(sku) then V2_MINIMUM else if Premium(sku) then PREMIUM_MINIMUM else 1
  }

  predicate Enough(size: int, bytes: int, sku: string) {
    size * GIB >= bytes && size >= Minimum(sku)
  }

  /** The least whole number of GiB that holds the request and meets the minimum. */
  ghost predicate IsLeastSize(size: int, bytes: int, sku: string) {
    Enough(size, bytes, sku) && forall s :: Enough(s, bytes, sku) ==> size <= s
  }

  /** Rounding up is exact for every request, and gives nothing for negative ones
      smaller than a unit. */
  lemma RoundsUp(bytes: int, unit: int)
    requires unit > 0
    ensures bytes > 0 ==> (RoundUpSize(bytes, unit) - 1) * unit < bytes <= RoundUpSize(bytes, unit) * unit
    ensures -unit < bytes <= 0 ==> RoundUpSize(bytes, unit) == 0
  {
    if bytes >= 0 {
      Divides(bytes, unit, bytes / unit, bytes % unit);
    } else if -bytes < unit {
      Divides(-bytes, unit, 0, -bytes);
    }
  }

  /** GiBToBytes in int64 */
  function GiBToBytes(size: int): int {
    Int64(size * GIB)
  }

  /** The reported capacity is the true size of the share, at least the request,
      exactly for requests up to 2^63 - 2^30; above that the int64 overflows. */
  lemma NoOverflowExactly(bytes: int, sku: string, size: int)
    requires 0 < bytes < TWO63 && IsLeastSize(size, bytes, sku)
    ensures GiBToBytes(size) == size * GIB <==> bytes <= TWO63 - GIB
    ensures bytes <= TWO63 - GIB ==> GiBToBytes(size) >= bytes
  {
    var ceiling := RoundUpSize(bytes, GIB);
    RoundsUp(bytes, GIB);
    assert Enough(if ceiling < Minimum(sku) then Minimum(sku) else ceiling, bytes, sku);
  }

  // ---------- floating point ----------

  function Pow2(n: nat): (p: int)
    ensures p >= 1
  {
    if n == 0 then 1 else 2 * Pow2(n - 1)
  }

  const P53 := 0x20_0000_0000_0000         // 2^53

  /** x is k * 2^j or k / 2^j with k below 2^53. */
  ghost predicate Scaled(x: real, k: int, j: nat) {
    -P53 < k < P53 && (x == (k * Pow2(j)) as real || x * Pow2(j) as real == k as real)
  }

  /** The numbers of float64, its exponent unbounded. */
  ghost predicate Float(x: real) {
    exists k, j: nat :: Scaled(x, k, j)
  }

  function Abs(x: real): real {
    if x < 0.0 then -x else x
  }

  /** r is y rounded to a nearest float64. */
  ghost predicate Nearest(y: real, r: real) {
    Float(r) && forall z :: Float(z) ==> Abs(y - r) <= Abs(y - z)
  }

  function Ceil(x: real): int {
    -((-x).Floor)
  }

  function CeilDiv(n: int, d: int): int
    requires d > 0
  {
    -(-n / d)
  }

  lemma Integers(m: int)
    requires -P53 < m < P53
    ensures Float(m as real)
  {
    assert Pow2(0) == 1;
    assert Scaled(m as real, m, 0);
  }

  /** Between a number and the next float64 above it there is more than 1/2^53 of it. */
  lemma Gap(m: int, x: real)
    requires 0 <= m < P53 && Float(x) && m as real < x
    ensures (x - m as real) * P53 as real > m as real
  {
    var k, j: nat :| Scaled(x, k, j);
    if x * Pow2(j) as real == k as real {
      GapBelowOne(m as real, x, m * Pow2(j), k, Pow2(j) as real);
    } else {
      GapWhole(m, k * Pow2(j));
    }
  }

  lemma GapWhole(m: int, i: int)
    requires 0 <= m < P53 && m as real < i as real
    ensures (i as real - m as real) * P53 as real > m as real
  {
    var gap := i as real - m as real;
    assert gap == (i - m) as real && i - m >= 1;
    assert m as real < P53 as real;
    NoSmaller(1.0, gap, P53 as real);
    assert 1.0 * P53 as real == P53 as real;
  }

  lemma GapBelowOne(m: real, x: real, mp: int, k: int, p: real)
    requires 0.0 <= m < x && k < P53 && p >= 1.0 && x * p == k as real && mp as real == m * p
    ensures (x - m) * P53 as real > m
  {
    var gap := x - m;
    assert gap * p == k as real - mp as real;
    Larger(0.0, gap, p);
    assert k - mp >= 1;
    if m >= gap * 9007199254740992.0 {
      NoSmaller(gap * 9007199254740992.0, m, p);
      assert false;
    }
  }

  lemma Larger(a: real, b: real, p: real)
    requires a < b && p > 0.0
    ensures a * p < b * p
  {
  }

  lemma NoSmaller(a: real, b: real, p: real)
    requires a <= b && p > 0.0
    ensures a * p <= b * p
  {
  }

  /** What lies at or barely above a whole number rounds to it. */
  lemma RoundsDown(y: real, m: int, r: real)
    requires Nearest(y, r) && 0 <= m < P53 && m as real <= y && (y - m as real) * (2 * P53) as real <= m as real
    ensures r == m as real
  {
    Integers(m);
    assert Abs(y - r) <= Abs(y - m as real);
    if r > m as real {
      Gap(m, r);
    }
  }

  /** What lies well between two whole numbers rounds to something between them. */
  lemma RoundsBetween(y: real, m: int, r: real)
    requires Nearest(y, r) && 0 <= m < 0x100_0000_0000 && m as real + 1.0 / 64.0 <= y <= m as real + 1.0
    ensures m as real < r <= m as real + 1.0
  {
    Integers(m + 1);
    var w := m as real + 1.0 / 64.0;
    assert Pow2(6) == 64;
    assert Scaled(w, 64 * m + 1, 6);
    assert Float(w) && Float((m + 1) as real);
    assert Abs(y - r) <= Abs(y - w) && Abs(y - r) <= Abs(y - (m + 1) as real);
  }

  /** The constants 0.2, 0.1 and 0.02 of the source. */
  datatype Rate = Fifth | Tenth | Fiftieth

  function Divisor(c: Rate): int {
    match c case Fifth => 5 case Tenth => 10 case Fiftieth => 50
  }

  /** The float64 that the source's decimal constant stands for. */
  function Constant(c: Rate): real {
    match c
    case Fifth => 3602879701896397.0 / 18014398509481984.0
    case Tenth => 3602879701896397.0 / 36028797018963968.0
    case Fiftieth => 5764607523034235.0 / 288230376151711744.0
  }

  const MOST := 0x2_0000_0000              // 2^33 GiB hold 2^63 bytes

  /** Where the product of the constant lies between two whole numbers. */
  lemma FifthLies(n: int, m: int, q: int)
    requires 0 <= n <= MOST && n == 5 * m + q && 0 <= q < 5
    ensures
      var y := Constant(Fifth) * n as real;
      if q == 0 then m as real <= y && (y - m as real) * (2 * P53) as real <= m as real
      else m as real + 1.0 / 64.0 <= y <= m as real + 1.0
  {
    assert n as real == 5.0 * m as real + q as real;
  }

  lemma TenthLies(n: int, m: int, q: int)
    requires 0 <= n <= MOST && n == 10 * m + q && 0 <= q < 10
    ensures
      var y := Constant(Tenth) * n as real;
      if q == 0 then m as real <= y && (y - m as real) * (2 * P53) as real <= m as real
      else m as real + 1.0 / 64.0 <= y <= m as real + 1.0
  {
    assert n as real == 10.0 * m as real + q as real;
  }

  lemma FiftiethLies(n: int, m: int, q: int)
    requires 0 <= n <= MOST && n == 50 * m + q && 0 <= q < 50
    ensures
      var y := Constant(Fiftieth) * n as real;
      if q == 0 then m as real <= y && (y - m as real) * (2 * P53) as real <= m as real
      else m as real + 1.0 / 64.0 <= y <= m as real + 1.0
  {
    assert n as real == 50.0 * m as real + q as real;
  }

  lemma CeilOf(n: int, d: int, m: int, q: int, product: real)
    requires d > 0 && n == d * m + q && 0 <= q < d
    requires if q == 0 then product == m as real else m as real < product <= m as real + 1.0
    ensures Ceil(product) == CeilDiv(n, d)
  {
    var up := if q == 0 then m else m + 1;
    assert (-product).Floor == -up;
    assert -n == d * -up + (if q == 0 then 0 else d - q);
    Divides(-n, d, -up, if q == 0 then 0 else d - q);
  }

  lemma Divides(n: int, d: int, m: int, q: int)
    requires d > 0 && n == d * m + q && 0 <= q < d
    ensures n / d == m
  {
    var e := n / d - m;
    assert n == d * (n / d) + n % d;
    assert d * e == q - n % d;
    assert e >= 1 ==> d * e >= d;
    assert e <= -1 ==> d * e <= -d;
  }

  /** Rounding the product up gives the exact quotient rounded up: the error of the
      constant and of the product never carry it past a whole number. */
  lemma FloatCeilExact(c: Rate, n: int, product: real)
    requires 0 <= n <= MOST && Nearest(Constant(c) * n as real, product)
    ensures Ceil(product) == CeilDiv(n, Divisor(c))
  {
    var d := Divisor(c);
    var m, q := n / d, n % d;
    match c {
      case Fifth => FifthLies(n, m, q);
      case Tenth => TenthLies(n, m, q);
      case Fiftieth => FiftiethLies(n, m, q);
    }
    if q == 0 {
      RoundsDown(Constant(c) * n as real, m, product);
    } else {
      RoundsBetween(Constant(c) * n as real, m, product);
    }
    CeilOf(n, d, m, q, product);
  }

  // ---------- default IOPS and bandwidth ----------

  datatype Sku = StandardV2 | PremiumV2 | Neither

  function SkuOf(accountType: string): Sku {
    if Contains(ToLower(accountType), "standardv2") then StandardV2
    else if Contains(ToLower(accountType), "premiumv2") then PremiumV2
    else Neither
  }

  ghost predicate Occurs(sub: string, s: string) {
    exists i :: 0 <= i <= |s| && HasAt(s, sub, i)
  }

  lemma ContainsExactly(s: string, sub: string)
    requires sub != ""
    ensures Contains(s, sub) <==> Occurs(sub, s)
  {
    if Occurs(sub, s) {
      var i :| 0 <= i <= |s| && HasAt(s, sub, i);
      assert i < |s|;
    }
  }

  /** The kind of an account type: its name in lower case has "standardv2" in it, or
      else "premiumv2", or neither. */
  lemma SkuExactly(accountType: string)
    ensures SkuOf(accountType)
            == if Occurs("standardv2", ToLower(accountType)) then StandardV2
               else if Occurs("premiumv2", ToLower(accountType)) then PremiumV2 else Neither
  {
    ContainsExactly(ToLower(accountType), "standardv2");
    ContainsExactly(ToLower(accountType), "premiumv2");
  }

  /** The least size in GiB: 32 where "v2" is in the account type's name, else 100 where
      it begins with "premium", else 1. */
  lemma MinimumExactly(sku: string)
    ensures Minimum(sku) == if Occurs("v2", ToLower(sku)) then 32 else if "premium" <= ToLower(sku) then 100 else 1
  {
    ContainsExactly(ToLower(sku), "v2");
  }

  /** getDefaultIOPS, given the rounded product of 0.2 and the size. */
  function DefaultIOPS(size: int, accountType: string, fifth: real): Option<int> {
    match SkuOf(accountType)
    case StandardV2 => Some(Min(Int32(Ceil(fifth) + 1000), 50000))
    case PremiumV2 => Some(Min(Int32(size + 3000), 102400))
    case Neither => None
  }

  /** getDefaultBandwidth, given the rounded product of the size and the kind's rate. */
  function DefaultBandwidth(accountType: string, product: real): Option<int> {
    match SkuOf(accountType)
    case StandardV2 => Some(Min(Int32(Ceil(product) + 60), 5120))
    case PremiumV2 => Some(Min(Int32(Ceil(product) + 100), 10340))
    case Neither => None
  }

  /** The constant that getDefaultBandwidth multiplies the size by. */
  function BandwidthRate(sku: Sku): Rate {
    if sku == StandardV2 then Fiftieth else Tenth
  }

  /** The documented formulas, over exact numbers; other kinds have no default. */
  function DocumentedIOPS(size: int, sku: Sku): Option<int> {
    match sku
    case StandardV2 => Some(Min(Max(1000 + CeilDiv(size, 5), 500), 50000))
    case PremiumV2 => Some(Min(Max(3000 + size, 3000), 102400))
    case Neither => None
  }

  function DocumentedBandwidth(size: int, sku: Sku): Option<int> {
    match sku
    case StandardV2 => Some(Min(Max(60 + CeilDiv(size, 50), 60), 5120))
    case PremiumV2 => Some(Min(Max(100 + CeilDiv(size, 10), 100), 10340))
    case Neither => None
  }

  /** The rounded-up quotients are small enough for an int32. */
  lemma CeilDivFits(n: int, c: Rate)
    requires 0 <= n <= MOST
    ensures 0 <= CeilDiv(n, Divisor(c)) && CeilDiv(n, Divisor(c)) + 1000 < TWO31
  {
  }

  lemma BandwidthOf(size: int, accountType: string, product: real)
    requires 0 <= size <= MOST && Ceil(product) == CeilDiv(size, Divisor(BandwidthRate(SkuOf(accountType))))
    ensures DefaultBandwidth(accountType, product) == DocumentedBandwidth(size, SkuOf(accountType))
  {
    CeilDivFits(size, BandwidthRate(SkuOf(accountType)));
  }

  /** The default bandwidth is the documented one for every account type and every
      size an int64 of bytes can hold, whichever way float64 ties are rounded. */
  lemma BandwidthAsDocumented(size: int, accountType: string, product: real)
    requires 0 <= size <= MOST && Nearest(Constant(BandwidthRate(SkuOf(accountType))) * size as real, product)
    ensures DefaultBandwidth(accountType, product) == DocumentedBandwidth(size, SkuOf(accountType))
  {
    FloatCeilExact(BandwidthRate(SkuOf(accountType)), size, product);
    BandwidthOf(size, accountType, product);
  }

  /** The default IOPS are the documented ones always, but for premiumv2, where they
      are exactly when the sum fits an int32 or wraps to no less than the cap. */
  lemma IOPSAsDocumented(size: int, accountType: string, fifth: real)
    requires 0 <= size <= MOST && Nearest(Constant(Fifth) * size as real, fifth)
    ensures DefaultIOPS(size, accountType, fifth) == DocumentedIOPS(size, SkuOf(accountType))
            <==> SkuOf(accountType) != PremiumV2 || size + 3000 < TWO31 || Int32(size + 3000) >= 102400
  {
    FloatCeilExact(Fifth, size, fifth);
    CeilDivFits(size, Fifth);
  }

  /** A larger share never gets less. */
  lemma DocumentedMonotone(a: int, b: int, sku: Sku)
    requires 0 <= a <= b && sku != Neither
    ensures DocumentedIOPS(a, sku).value <= DocumentedIOPS(b, sku).value
    ensures DocumentedBandwidth(a, sku).value <= DocumentedBandwidth(b, sku).value
  {
    assert CeilDiv(a, 5) <= CeilDiv(b, 5) && CeilDiv(a, 10) <= CeilDiv(b, 10) && CeilDiv(a, 50) <= CeilDiv(b, 50);
  }
}
