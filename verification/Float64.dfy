/** The one floating-point expression of the node search: int(f * float64(n)) for a literal f.
    IEEE 754 binary64 multiplication is the exact product rounded to 53 significant bits, ties to
    even; the literals 1.2, 1.3 and 1.4 are themselves 53-bit integers over 2^52. */
module Float64 {

  const TWO_52: nat := 0x10_0000_0000_0000
  const TWO_53: nat := 0x20_0000_0000_0000

  // The binary64 values nearest to 1.2, 1.3 and 1.4, as numerators over 2^52.
  const LITERAL_1_2: nat := 5404319552844595
  const LITERAL_1_3: nat := 5854679515581645
  const LITERAL_1_4: nat := 6305039478318694

  /** The gap between neighbouring doubles around the integer x (at least 1). */
  function Ulp(x: nat): (u: nat)
    ensures 1 <= u
    ensures x < TWO_53 * u
    ensures u > 1 ==> TWO_52 * u <= x
  {
    if x < TWO_53 then 1 else 2 * Ulp(x / 2)
  }

  /** Round-half-to-even of the integer x to 53 significant bits. */
  function Round53(x: nat): (r: nat) {
    var u := Ulp(x);
    Nearest(x / u, x % u, u)
  }

  /** The multiple of u nearest to q * u + r. */
  function Nearest(q: nat, r: nat, u: nat): (n: nat)
    ensures n == q * u || n == q * u + u
  {
    if 2 * r > u || (2 * r == u && q % 2 == 1) then q * u + u else q * u
  }

  /** literal * float64(n) before it is rounded, as a numerator over 2^52. */
  function Product(literal: nat, n: nat): (p: nat) {
    literal * Round53(n)
  }

  /** int(literal * float64(n)), where literal is the numerator over 2^52. */
  function ScaleTrunc(literal: nat, n: nat): (r: nat) {
    Round53(Product(literal, n)) / TWO_52
  }

  /** Rounding moves a value by at most one part in 2^53. */
  lemma RoundError(x: nat)
    ensures (TWO_53 - 1) * x <= TWO_53 * Round53(x) <= (TWO_53 + 1) * x
    ensures x < TWO_53 ==> Round53(x) == x
  {
    var u := Ulp(x);
    var q, r := x / u, x % u;
    assert x == q * u + r;
    if u == 1 {
      assert r == 0;
    } else {
      assert 2 * Round53(x) <= 2 * x + u && 2 * x - u <= 2 * Round53(x);
    }
  }

  /** Scaling by the literals stays within one part in 2^52 of the exact product. */
  lemma ScaleBounds(literal: nat, n: nat)
    requires literal in {LITERAL_1_2, LITERAL_1_3, LITERAL_1_4}
    requires n > 100
    ensures n + 2 <= ScaleTrunc(literal, n)
    ensures 2 * ScaleTrunc(literal, n) <= 3 * n
  {
    hide Round53;
    RoundError(n);
    RoundError(literal * Round53(n));
  }

  // ---------------------------------------------------------------- when the product is exact

  /** 2^e */
  function Pow2(e: nat): (r: nat)
    ensures r >= 1
  {
    if e == 0 then 1 else 2 * Pow2(e - 1)
  }

  /** The largest power of two up to v (1 for v == 0). */
  function FloorPow2(v: nat): (f: nat)
    ensures 1 <= f && v < 2 * f
    ensures v > 0 ==> f <= v
  {
    if v < 2 then 1 else 2 * FloorPow2(v / 2)
  }

  /** Two powers of two: the smaller divides the larger, evenly if it is smaller. */
  lemma {:induction false} FloorPow2Divides(v: nat, e: nat) returns (k: nat)
    requires FloorPow2(v) < Pow2(e)
    ensures FloorPow2(v) * 2 * k == Pow2(e)
    decreases e
  {
    if v < 2 {
      k := Pow2(e - 1);
    } else {
      k := FloorPow2Divides(v / 2, e - 1);
    }
  }

  lemma Pow2Of52()
    ensures Pow2(52) == TWO_52
  {
    assert Pow2(13) == 0x2000;
    Pow2Add(13, 13);
    Pow2Add(26, 26);
  }

  lemma {:induction false} Pow2Add(a: nat, b: nat)
    ensures Pow2(a + b) == Pow2(a) * Pow2(b)
  {
    if a > 0 {
      Pow2Add(a - 1, b);
    }
  }

  /** A number within v * 2^52 and 2v * 2^52, where v is whole, has the gap of v itself. */
  lemma {:induction false} UlpScaled(x: nat, v: nat)
    requires TWO_52 * FloorPow2(v) <= x < TWO_53 * FloorPow2(v)
    ensures Ulp(x) == FloorPow2(v)
    decreases v
  {
    if v >= 2 {
      UlpScaled(x / 2, v / 2);
    }
  }

  /** Rounding a number that is off a whole v by d over 2^52: it comes back to v exactly when d is
      at most half the gap; further below, it ends up one gap below v. */
  lemma RoundsNear(x: nat, v: nat, d: int)
    requires 0 < v < 0x8_0000_0000_0000 && x == v * TWO_52 + d
    requires TWO_52 * FloorPow2(v) <= x < TWO_53 * FloorPow2(v)
    requires 0 < d + FloorPow2(v) && 2 * d < FloorPow2(v)
    ensures Round53(x) / TWO_52 == if -2 * d <= FloorPow2(v) then v else v - 1
  {
    var u := FloorPow2(v);
    UlpScaled(x, v);
    var half := Gaps(v);
    hide Round53, Ulp, FloorPow2;
    if d >= 0 {
      RoundedIs(x, 2 * half, d, u);
      assert Round53(x) == v * TWO_52;
    } else {
      RoundedIs(x, 2 * half - 1, u + d, u);
      NearestBelow(half, u + d, u);
      assert Round53(x) == if -2 * d <= u then v * TWO_52 else v * TWO_52 - u;
    }
  }

  lemma NearestBelow(half: nat, r: nat, u: nat)
    requires half >= 1
    ensures Nearest(2 * half - 1, r, u) == (2 * half - 1) * u + if 2 * r >= u then u else 0
  {
  }

  /** Below 2^51 a whole number is an even number of gaps. */
  lemma Gaps(v: nat) returns (half: nat)
    requires 0 < v < 0x8_0000_0000_0000
    ensures 2 * half * FloorPow2(v) == v * TWO_52 && half >= 1
    ensures (2 * half - 1) * FloorPow2(v) == v * TWO_52 - FloorPow2(v)
  {
    var u := FloorPow2(v);
    Pow2Of52();
    var k := FloorPow2Divides(v, 52);
    half := v * k;
    Regroup(v, k, u);
    assert (2 * half - 1) * u == 2 * half * u - u;
  }

  lemma RoundedIs(x: nat, q: nat, r: nat, u: nat)
    requires Ulp(x) == u && x == q * u + r && r < u
    ensures Round53(x) == Nearest(q, r, u)
  {
    Quotient(x, q, r, u);
  }

  lemma Regroup(v: nat, k: nat, u: nat)
    requires u * 2 * k == TWO_52
    ensures 2 * (v * k) * u == v * TWO_52
  {
    assert 2 * (v * k) * u == v * (u * 2 * k);
  }

  lemma Quotient(x: nat, q: nat, r: nat, u: nat)
    requires x == q * u + r && r < u
    ensures x / u == q && x % u == r
  {
    Multiple(x / u - q, u);
    assert (x / u - q) * u == r - x % u;
  }

  lemma Multiple(d: int, u: nat)
    ensures d >= 1 ==> d * u >= u
    ensures d <= -1 ==> d * u + u <= 0
  {
    assert d * u == (d - 1) * u + u;
  }

  /** For counts below 2^48 the products with 1.2 and 1.3 lose nothing: they are the exact ones
      rounded down. */
  lemma ScaleExact(n: nat)
    requires n < 0x1_0000_0000_0000
    ensures ScaleTrunc(LITERAL_1_2, n) == 6 * n / 5
    ensures ScaleTrunc(LITERAL_1_3, n) == 13 * n / 10
  {
    Scale12(n);
    Scale13(n);
  }

  /** The product with 1.4 is one less than the exact one exactly when that is whole and lies more than
      three quarters of the way from a power of two to the next. */
  lemma ScaleShort(n: nat)
    requires n < 0x1_0000_0000_0000
    ensures ScaleTrunc(LITERAL_1_4, n)
            == if n % 5 == 0 && 4 * (7 * n / 5) > 7 * FloorPow2(7 * n / 5) then 7 * n / 5 - 1 else 7 * n / 5
  {
    hide Round53, FloorPow2, Ulp;
    RoundError(n);
    if n % 5 == 0 && n > 0 {
      var q := n / 5;
      assert n == 5 * q && 7 * n / 5 == 7 * q;
      NoPowerOfTwo(q, 7 * q);
      RoundsNear(LITERAL_1_4 * n, 7 * q, -2 * q);
    } else {
      var p, w := LITERAL_1_4 * n, 7 * n / 5;
      RoundError(p);
      assert n > 0 ==> 5 * p >= (5 * w + 1) * TWO_52 - 2 * n;
      assert w * TWO_52 <= Round53(p) < (w + 1) * TWO_52;
    }
  }

  lemma ShortAt5500()
    ensures ScaleTrunc(LITERAL_1_4, 5500) == 7699
  {
    hide ScaleTrunc;
    assert FloorPow2(30) == 16;
    assert FloorPow2(481) == 256;
    assert FloorPow2(7700) == 4096;
    ScaleShort(5500);
  }

  /** A multiple of 3 or 7 is no power of two. */
  lemma {:induction false} NoPowerOfTwo(c: nat, v: nat)
    requires c > 0
    ensures 3 * c != FloorPow2(v) && 7 * c != FloorPow2(v)
    decreases v
  {
    if v >= 2 && c % 2 == 0 {
      NoPowerOfTwo(c / 2, v / 2);
    }
  }

  lemma Scale12(n: nat)
    requires n < 0x1_0000_0000_0000
    ensures ScaleTrunc(LITERAL_1_2, n) == 6 * n / 5
  {
    hide Round53, FloorPow2, Ulp;
    RoundError(n);
    if n % 5 == 0 && n > 0 {
      var q := n / 5;
      assert n == 5 * q && 6 * n / 5 == 6 * q;
      NoPowerOfTwo(2 * q, 6 * q);
      RoundsNear(LITERAL_1_2 * n, 6 * q, -q);
    } else {
      var p, w := LITERAL_1_2 * n, 6 * n / 5;
      RoundError(p);
      assert n > 0 ==> 5 * p >= (5 * w + 1) * TWO_52 - n;
      assert w * TWO_52 <= Round53(p) < (w + 1) * TWO_52;
    }
  }

  lemma Scale13(n: nat)
    requires n < 0x1_0000_0000_0000
    ensures ScaleTrunc(LITERAL_1_3, n) == 13 * n / 10
  {
    hide Round53, FloorPow2, Ulp;
    RoundError(n);
    if n % 10 == 0 && n > 0 {
      var q := n / 10;
      assert n == 10 * q && 13 * n / 10 == 13 * q;
      RoundsNear(LITERAL_1_3 * n, 13 * q, 2 * q);
    } else {
      var p := LITERAL_1_3 * n;
      RoundError(p);
      assert 10 * p == 13 * n * TWO_52 + 2 * n;
      assert 13 * n / 10 * TWO_52 <= Round53(p) < (13 * n / 10 + 1) * TWO_52;
    }
  }
}
